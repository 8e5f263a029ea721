/** The newsletter form of components/newsletter/subscription-form.tsx as a
    state machine: `handleSubmit`, the email field's `onChange`, the enabling
    of input and button, and the two timers scheduled after a success. */
module SubscriptionForm {
  import Wrappers
  import EmailValidation

  datatype Status = Idle | Submitting | Success | Error

  /** The component's state. The two counters record the 7 s and 8 s timers
      scheduled by successes that have not fired yet. */
  datatype Form = Form(
    email: string,
    status: Status,
    errorMessage: string,
    showConfetti: bool,
    pendingConfettiOff: nat,
    pendingRevert: nat)

  /** What a rejected `fetch` promise or a failed `response.json()` throws. */
  datatype Thrown = ErrorObject(message: string) | NonError

  /** Things that happen to the form. `ResponseNotOk` carries the reply's `error` field. */
  datatype Event =
    | Submit
    | ResponseOk
    | ResponseNotOk(errorField: Wrappers.Option<string>)
    | RequestThrew(thrown: Thrown)
    | Edit(value: string)
    | ConfettiTimerFired
    | RevertTimerFired

  /** The one request the form makes: `POST /api/subscribe` with body `{email}`. */
  datatype Request = PostSubscribe(email: string)

  /** A transition's new state and the request it issued, if any. */
  datatype Step = Step(form: Form, request: Wrappers.Option<Request>)

  const InvalidAddress := "Please enter a valid email address"
  const SubscriptionFailed := "Subscription failed"
  const GenericFailure := "Failed to subscribe. Please try again."

  const Initial := Form("", Idle, "", false, 0, 0)

  /** `email.trim() === ''`. */
  predicate Blank(s: string) {
    forall i :: 0 <= i < |s| ==> EmailValidation.IsSpace(s[i])
  }

  /** The form (input and button) is on screen only outside `success`. */
  predicate FormShown(f: Form) {
    f.status != Success
  }

  /** The input is disabled while submitting. */
  predicate InputEnabled(f: Form) {
    FormShown(f) && f.status != Submitting
  }

  /** The submit button is disabled while submitting or while the trimmed email is empty. */
  predicate SubmitEnabled(f: Form) {
    FormShown(f) && f.status != Submitting && !Blank(f.email)
  }

  /** `handleSubmit` up to the `fetch` call. */
  function HandleSubmit(f: Form): (s: Step)
    ensures s.form.email == f.email
    ensures s.request.Some? <==> EmailValidation.ValidateEmail(f.email)
    ensures s.request.Some? ==> s.request.value == PostSubscribe(f.email) && s.form.status == Submitting
    ensures s.request.None? ==> s.form.status == Error && s.form.errorMessage == InvalidAddress
  {
    if !EmailValidation.ValidateEmail(f.email) then
      Step(f.(status := Error, errorMessage := InvalidAddress), Wrappers.None)
    else
      Step(f.(status := Submitting), Wrappers.Some(PostSubscribe(f.email)))
  }

  /** The message `catch` shows: the reply's `error` field when truthy, else a fallback. */
  function FailureMessage(errorField: Wrappers.Option<string>): (m: string)
    ensures m != ""
  {
    if errorField.Some? && errorField.value != "" then errorField.value else SubscriptionFailed
  }

  /** The message for an exception: an `Error`'s own message, else the generic text. */
  function ThrownMessage(t: Thrown): (m: string)
    ensures t.ErrorObject? ==> m == t.message
    ensures t.NonError? ==> m == "Failed to subscribe. Please try again."
  {
    match t
    case ErrorObject(message) => message
    case NonError => GenericFailure
  }

  /** The email field's `onChange`: store the text and, in `error`, go back to `idle`. */
  function OnEmailChange(f: Form, value: string): (g: Form)
    ensures g.email == value
    ensures f.status == Error ==> g.status == Idle && g.errorMessage == ""
    ensures f.status != Error ==> g == f.(email := value)
    ensures g.showConfetti == f.showConfetti
  {
    if f.status == Error then f.(email := value, status := Idle, errorMessage := "")
    else f.(email := value)
  }

  /** One event. A submit or edit the page does not allow (disabled control,
      form not shown) has no effect. */
  function Next(f: Form, e: Event): (s: Step)
    ensures s.request.Some? ==> e == Submit && SubmitEnabled(f) && s.request == Wrappers.Some(PostSubscribe(f.email))
  {
    match e
    case Submit =>
      if SubmitEnabled(f) then HandleSubmit(f) else Step(f, Wrappers.None)
    case ResponseOk =>
      Step(f.(status := Success, showConfetti := true, email := "",
              pendingConfettiOff := f.pendingConfettiOff + 1,
              pendingRevert := f.pendingRevert + 1), Wrappers.None)
    case ResponseNotOk(errorField) =>
      Step(f.(status := Error, errorMessage := FailureMessage(errorField)), Wrappers.None)
    case RequestThrew(t) =>
      Step(f.(status := Error, errorMessage := ThrownMessage(t)), Wrappers.None)
    case Edit(value) =>
      Step(if InputEnabled(f) then OnEmailChange(f, value) else f, Wrappers.None)
    case ConfettiTimerFired =>
      if f.pendingConfettiOff == 0 then Step(f, Wrappers.None)
      else Step(f.(showConfetti := false, pendingConfettiOff := f.pendingConfettiOff - 1), Wrappers.None)
    case RevertTimerFired =>
      if f.pendingRevert == 0 then Step(f, Wrappers.None)
      else Step(f.(status := Idle, pendingRevert := f.pendingRevert - 1), Wrappers.None)
  }

  /** Submitting an address the validator rejects: `error` with the local
      message, no request, and the typed text kept. */
  lemma SubmitInvalidStaysLocal(f: Form)
    requires SubmitEnabled(f) && !EmailValidation.ValidateEmail(f.email)
    ensures Next(f, Submit) == Step(f.(status := Error, errorMessage := InvalidAddress), Wrappers.None)
  {
  }

  /** Submitting an accepted address: `submitting`, and one POST whose body is the email. */
  lemma SubmitValidPosts(f: Form)
    requires SubmitEnabled(f) && EmailValidation.ValidateEmail(f.email)
    ensures Next(f, Submit).form == f.(status := Submitting)
    ensures Next(f, Submit).request == Wrappers.Some(PostSubscribe(f.email))
  {
  }

  /** A submit while submitting, in success, or with a blank email changes nothing and sends nothing. */
  lemma SubmitBlockedIsNoOp(f: Form)
    requires f.status == Submitting || f.status == Success || Blank(f.email)
    ensures Next(f, Submit) == Step(f, Wrappers.None)
  {
  }

  /** Every accepted address enables the button: the validator never accepts a blank string. */
  lemma ValidEmailIsNotBlank(s: string)
    requires EmailValidation.ValidateEmail(s)
    ensures !Blank(s)
  {
    EmailValidation.ValidEmailShape(s);
  }

  /** An OK reply: `success`, confetti on, the field cleared, both timers scheduled. */
  lemma ResponseOkSucceeds(f: Form)
    ensures Next(f, ResponseOk).form.status == Success
    ensures Next(f, ResponseOk).form.showConfetti
    ensures Next(f, ResponseOk).form.email == ""
    ensures Next(f, ResponseOk).form.pendingConfettiOff > 0 && Next(f, ResponseOk).form.pendingRevert > 0
  {
  }

  /** A failed subscription: `error`, with the reply's `error` text when it
      is a non-empty string and "Subscription failed" otherwise, or the
      exception's message; the typed email is kept. */
  lemma FailureShowsMessage(f: Form, errorField: Wrappers.Option<string>, t: Thrown)
    ensures var g := Next(f, ResponseNotOk(errorField)).form;
      && g.status == Error && g.email == f.email
      && g.errorMessage == (if errorField.Some? && errorField.value != "" then errorField.value else SubscriptionFailed)
    ensures var g := Next(f, RequestThrew(t)).form;
      && g.status == Error && g.email == f.email
      && g.errorMessage == (if t.ErrorObject? then t.message else GenericFailure)
  {
  }

  /** Editing in `error` returns to `idle` and clears the message; in `idle`
      only the email changes; while submitting or in success the input is not there. */
  lemma EditResetsError(f: Form, value: string)
    ensures f.status == Error ==>
      Next(f, Edit(value)).form == f.(email := value, status := Idle, errorMessage := "")
    ensures f.status == Idle ==> Next(f, Edit(value)).form == f.(email := value)
    ensures f.status in {Submitting, Success} ==> Next(f, Edit(value)).form == f
  {
  }

  /** After a success, the 7 s timer turns the confetti off and the 8 s timer returns to `idle`. */
  lemma TimersAfterSuccess(f: Form)
    ensures var g := Next(f, ResponseOk).form;
      && Next(g, ConfettiTimerFired).form.showConfetti == false
      && Next(g, ConfettiTimerFired).form.status == Success
      && Next(Next(g, ConfettiTimerFired).form, RevertTimerFired).form.status == Idle
  {
  }

  /** What every reachable state satisfies: `success` always shows an empty
      field, and confetti is only on while a timer that turns it off is pending. */
  ghost predicate Inv(f: Form) {
    && (f.status == Success ==> f.email == "")
    && (f.showConfetti ==> f.pendingConfettiOff > 0)
  }

  function Run(f: Form, events: seq<Event>): (g: Form)
    decreases |events|
  {
    if |events| == 0 then f else Run(Next(f, events[0]).form, events[1..])
  }

  /** Every event keeps the invariant. */
  lemma NextKeepsInv(f: Form, e: Event)
    requires Inv(f)
    ensures Inv(Next(f, e).form)
  {
  }

  /** The invariant holds after any sequence of events from the initial state. */
  lemma {:induction false} RunKeepsInv(f: Form, events: seq<Event>)
    requires Inv(f)
    ensures Inv(Run(f, events))
    decreases |events|
  {
    if |events| > 0 {
      NextKeepsInv(f, events[0]);
      RunKeepsInv(Next(f, events[0]).form, events[1..]);
    }
  }

  /** From the page's initial state every reachable state satisfies the invariant. */
  lemma ReachableSatisfiesInv(events: seq<Event>)
    ensures Inv(Run(Initial, events))
  {
    RunKeepsInv(Initial, events);
  }
}
