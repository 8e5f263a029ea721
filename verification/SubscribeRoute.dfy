/** The `POST /api/subscribe` handler of app/api/subscribe/route.ts: classify a
    request into a 400, 500 or 200 reply, sending the welcome email in between. */
module SubscribeRoute {
  import opened Wrappers
  import EmailValidation

  /** The request body as `req.json()` leaves it: unparseable (the call
      throws), or an object whose `email` field is absent/falsy or a string. */
  datatype RequestBody = Unparseable | Parsed(email: Option<string>)

  /** What the email provider's `send` call does: resolve with an id (which
      may be missing), resolve with an error, or throw. */
  datatype SendOutcome = Delivered(id: Option<string>) | Rejected | Threw

  datatype ResponseBody =
    | ErrorBody(error: string)
    | SuccessBody(success: bool, message: string, id: Option<string>)

  datatype Response = Response(status: int, body: ResponseBody)

  /** The reply, together with the recipient of the send the handler attempted (if any). */
  datatype Handling = Handling(response: Response, sentTo: Option<string>)

  const InvalidEmail := "Invalid email address"
  const SendFailed := "Failed to send welcome email"
  const InternalError := "Internal server error"
  const Subscribed := "Subscription successful!"

  /** The route's guard: `!email || !regex.test(email)` rejects. */
  predicate ServerAccepts(email: Option<string>) {
    email.Some? && email.value != "" && EmailValidation.BasicFormatValid(email.value)
  }

  /** `POST`: the handler with the email provider's behaviour as a parameter. */
  function HandleSubscribe(body: RequestBody, send: SendOutcome): (h: Handling)
    ensures h.response.status in {200, 400, 500}
    ensures h.sentTo.Some? <==> body.Parsed? && ServerAccepts(body.email)
    ensures h.sentTo.Some? ==> h.sentTo == body.email
    ensures h.response.status == 400 <==> body.Parsed? && !ServerAccepts(body.email)
    ensures h.response.status == 400 ==> h.response.body == ErrorBody(InvalidEmail)
    ensures h.response.status == 200 <==> h.sentTo.Some? && send.Delivered?
    ensures h.response.status == 200 ==>
      h.response.body == SuccessBody(true, Subscribed, send.id)
    ensures h.response.status == 500 ==>
      h.response.body == ErrorBody(if body.Parsed? && send.Rejected? then SendFailed else InternalError)
  {
    match body
    case Unparseable =>
      Handling(Response(500, ErrorBody(InternalError)), None)
    case Parsed(email) =>
      if email.None? || !EmailValidation.BasicFormatValid(email.value) then
        Handling(Response(400, ErrorBody(InvalidEmail)), None)
      else
        match send
        case Delivered(id) => Handling(Response(200, SuccessBody(true, Subscribed, id)), email)
        case Rejected => Handling(Response(500, ErrorBody(SendFailed)), email)
        case Threw => Handling(Response(500, ErrorBody(InternalError)), email)
  }

  /** An address the client-side check accepts is never refused with 400 by the route,
      and is the one the welcome email goes to. */
  lemma ClientValidatedPassesRoute(email: string, send: SendOutcome)
    requires EmailValidation.ValidateEmail(email)
    ensures HandleSubscribe(Parsed(Some(email)), send).response.status != 400
    ensures HandleSubscribe(Parsed(Some(email)), send).sentTo == Some(email)
  {
    EmailValidation.ClientAcceptanceImpliesServer(email);
    EmailValidation.BasicFormatMatchesPattern(email);
  }
}
