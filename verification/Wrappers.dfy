/** `Option` and `Result`, shared by the other modules. */
module Wrappers {

  /** A value that may be absent (`undefined` / `null` in the source). */
  datatype Option<+T> = None | Some(value: T)

  /** Either a value or an error (a thrown `Error` in the source). */
  datatype Result<+R, +E> = Success(value: R) | Failure(error: E)
}
