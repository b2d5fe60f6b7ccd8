/** The forgot-password screen: a username stage that requests an OTP, then an
    OTP-and-password stage that resets the password. */
module ForgotPassword {
  import opened Js
  import opened Http
  import opened Strings

  /** The `errors` object; a missing key is `None`. */
  datatype FieldErrors = FieldErrors(username: Option<string>, otp: Option<string>, password: Option<string>)

  const NoErrors := FieldErrors(None, None, None)

  /** The screen's state; `otpPending` holds while the OTP request's reply has not arrived. */
  datatype ForgotState = ForgotState(
    username: string, otp: string, password: string,
    errors: FieldErrors, buttonDisabled: bool, secondScreen: bool, otpPending: bool)

  const InitialState := ForgotState("", "", "", NoErrors, false, false, false)

  datatype ForgotRequest =
    | RequestOtp(username: string)
    | ResetPassword(username: string, otp: string, password: string)

  /** A handler's effect: the new state, the request it sent, and whether it navigated to Login. */
  datatype Handled = Handled(state: ForgotState, request: Option<ForgotRequest>, toLogin: bool)

  const InvalidUsernameMessage := "Please enter a valid alphanumeric username."
  const OtpNotSentMessage := "Failed to send OTP. Please try again."
  const GenericErrorMessage := "An error occurred."
  const OtpRequiredMessage := "OTP is required."
  const PasswordRequiredMessage := "Password is required."
  const ResetFailedMessage := "Failed to reset password. Please try again."

  /** The local username check: non-empty and no character outside `[a-zA-Z0-9]`. */
  predicate ValidUsername(u: string) {
    u != "" && !HasNonAlphanumeric(u)
  }

  lemma ValidUsernameIsAlphanumeric(u: string)
    ensures ValidUsername(u) <==> u != "" && forall i :: 0 <= i < |u| ==> IsAsciiAlphanumeric(u[i])
  {
  }

  /** The example of a rejected username: the `!` is outside the class. */
  lemma PunctuatedUsernameRejected()
    ensures !ValidUsername("abc123!")
  {
    assert !IsAsciiAlphanumeric("abc123!"[6]);
  }

  /** The message for a thrown request: the server's message when present, else a generic one. */
  function ThrownMessage(e: ErrorInfo): (m: string)
    ensures m != ""
    ensures Truthy(e.serverMessage) ==> m == e.serverMessage.value
    ensures !Truthy(e.serverMessage) ==> m == GenericErrorMessage
  {
    OrElse(e.serverMessage, GenericErrorMessage)
  }

  /** The part of `handleUsernameSubmit` before its request is answered:
      clear the errors, disable the button, check the username, send. */
  function SendUsername(s: ForgotState): (o: Handled)
    ensures !o.toLogin
    ensures o.request.Some? <==> ValidUsername(s.username)
    ensures o.request.Some? ==>
      && o.request.value == RequestOtp(s.username)
      && o.state == s.(errors := NoErrors, buttonDisabled := true, otpPending := true)
    ensures o.request.None? ==>
      o.state == s.(errors := FieldErrors(Some(InvalidUsernameMessage), None, None), buttonDisabled := false)
  {
    var cleared := s.(errors := NoErrors, buttonDisabled := true);
    if !ValidUsername(s.username) then
      Handled(cleared.(errors := FieldErrors(Some(InvalidUsernameMessage), None, None), buttonDisabled := false),
              None, false)
    else Handled(cleared.(otpPending := true), Some(RequestOtp(s.username)), false)
  }

  /** The part of `handleUsernameSubmit` after its request is answered. It reads
      none of the input fields, so edits made while the request was pending stay. */
  function ReceiveOtpReply(s: ForgotState, reply: Reply<Empty>): (r: ForgotState)
    ensures !r.otpPending && !r.buttonDisabled
    ensures r.username == s.username && r.otp == s.otp && r.password == s.password
    ensures r.secondScreen <==> s.secondScreen || (reply.Replied? && reply.status == 200)
    ensures reply.Replied? && reply.status == 200 ==> r.errors == s.errors
    ensures reply.Replied? && reply.status != 200 ==> r.errors == FieldErrors(Some(OtpNotSentMessage), None, None)
    ensures reply.Threw? ==> r.errors == FieldErrors(Some(ThrownMessage(reply.error)), None, None)
  {
    var done := s.(buttonDisabled := false, otpPending := false);
    match reply
    case Threw(e) => done.(errors := FieldErrors(Some(ThrownMessage(e)), None, None))
    case Replied(status, _) =>
      if status == 200 then done.(secondScreen := true)
      else done.(errors := FieldErrors(Some(OtpNotSentMessage), None, None))
  }

  /** `handleUsernameSubmit` when nothing happens while its request is pending. */
  function HandleUsernameSubmit(s: ForgotState, reply: Reply<Empty>): (o: Handled)
    ensures !o.state.buttonDisabled && !o.toLogin
    ensures o.state.username == s.username && o.state.otp == s.otp && o.state.password == s.password
    ensures o.request.Some? <==> ValidUsername(s.username)
    ensures o.request.Some? ==> o.request.value == RequestOtp(s.username) && !o.state.otpPending
    ensures o.state.secondScreen <==> s.secondScreen || (o.request.Some? && reply.Replied? && reply.status == 200)
    ensures o.request.None? ==> o.state.errors == FieldErrors(Some(InvalidUsernameMessage), None, None)
    ensures o.request.Some? && reply.Replied? ==>
      o.state.errors == (if reply.status == 200 then NoErrors else FieldErrors(Some(OtpNotSentMessage), None, None))
    ensures o.request.Some? && reply.Threw? ==>
      o.state.errors == FieldErrors(Some(ThrownMessage(reply.error)), None, None)
  {
    var sent := SendUsername(s);
    if sent.request.None? then sent
    else Handled(ReceiveOtpReply(sent.state, reply), sent.request, false)
  }

  /** `handleChangePassword`. */
  function HandleChangePassword(s: ForgotState, reply: Reply<Empty>): (o: Handled)
    ensures !o.state.buttonDisabled && o.state.secondScreen == s.secondScreen
    ensures o.state.username == s.username && o.state.otp == s.otp && o.state.password == s.password
    ensures o.request.Some? <==> s.otp != "" && s.password != ""
    ensures o.request.Some? ==> o.request.value == ResetPassword(s.username, s.otp, s.password)
    ensures o.request.None? ==>
      && !Truthy(o.state.errors.username)
      && (Truthy(o.state.errors.otp) <==> s.otp == "")
      && (Truthy(o.state.errors.password) <==> s.password == "")
      && (s.otp == "" ==> o.state.errors.otp == Some(OtpRequiredMessage))
      && (s.password == "" ==> o.state.errors.password == Some(PasswordRequiredMessage))
    ensures o.toLogin <==> o.request.Some? && reply.Replied? && reply.status == 200
    ensures o.toLogin ==> o.state.errors == NoErrors
    ensures o.request.Some? && !o.toLogin ==>
      && Truthy(o.state.errors.otp) && o.state.errors.username.None? && o.state.errors.password.None?
      && o.state.errors.otp.value == (if reply.Threw? then ThrownMessage(reply.error) else ResetFailedMessage)
  {
    var cleared := s.(errors := NoErrors, buttonDisabled := true);
    if s.otp == "" || s.password == "" then
      var errors := FieldErrors(None,
                                Some(if s.otp == "" then OtpRequiredMessage else ""),
                                Some(if s.password == "" then PasswordRequiredMessage else ""));
      Handled(cleared.(errors := errors, buttonDisabled := false), None, false)
    else
      var request := Some(ResetPassword(s.username, s.otp, s.password));
      match reply
      case Threw(e) =>
        Handled(cleared.(errors := FieldErrors(None, Some(ThrownMessage(e)), None), buttonDisabled := false),
                request, false)
      case Replied(status, _) =>
        if status == 200 then Handled(cleared.(buttonDisabled := false), request, true)
        else Handled(cleared.(errors := FieldErrors(None, Some(ResetFailedMessage), None), buttonDisabled := false),
                     request, false)
  }

  /** Errors are cleared on entry: what a handler leaves does not depend on the errors before it. */
  lemma HandlersStartWithoutErrors(s: ForgotState, before: FieldErrors, reply: Reply<Empty>)
    ensures HandleUsernameSubmit(s.(errors := before), reply) == HandleUsernameSubmit(s.(errors := NoErrors), reply)
    ensures HandleChangePassword(s.(errors := before), reply) == HandleChangePassword(s.(errors := NoErrors), reply)
  {
  }

  /** What the user can do on the screen. The username input and its button
      are rendered only on the first screen, the OTP and password inputs and
      their button only on the second; a disabled button cannot be pressed.
      The OTP request's reply arrives as an event of its own, so the user can
      type in between. */
  datatype UiEvent =
    | TypeUsername(username: string)
    | TypeOtp(otp: string)
    | TypePassword(password: string)
    | SubmitUsername
    | OtpReply(reply: Reply<Empty>)
    | SubmitReset(reply: Reply<Empty>)

  function Step(s: ForgotState, e: UiEvent): Handled {
    match e
    case TypeUsername(u) => Handled(if s.secondScreen then s else s.(username := u), None, false)
    case TypeOtp(v) => Handled(if s.secondScreen then s.(otp := v) else s, None, false)
    case TypePassword(v) => Handled(if s.secondScreen then s.(password := v) else s, None, false)
    case SubmitUsername =>
      if s.secondScreen || s.buttonDisabled then Handled(s, None, false) else SendUsername(s)
    case OtpReply(reply) =>
      if s.otpPending then Handled(ReceiveOtpReply(s, reply), None, false) else Handled(s, None, false)
    case SubmitReset(reply) =>
      if s.secondScreen && !s.buttonDisabled then HandleChangePassword(s, reply) else Handled(s, None, false)
  }

  datatype Session = Session(state: ForgotState, requests: seq<ForgotRequest>)

  /** The screen's state after a sequence of user actions, with the requests sent on the way. */
  function Run(s: ForgotState, events: seq<UiEvent>): Session
    decreases |events|
  {
    if events == [] then Session(s, [])
    else
      var h := Step(s, events[0]);
      var rest := Run(h.state, events[1..]);
      Session(rest.state, (if h.request.Some? then [h.request.value] else []) + rest.requests)
  }

  /** Every OTP request the screen sends carries a username that passed the local check. */
  lemma {:induction false} OtpRequestsCarryCheckedUsername(s: ForgotState, events: seq<UiEvent>)
    ensures forall i :: 0 <= i < |Run(s, events).requests| && Run(s, events).requests[i].RequestOtp? ==>
      ValidUsername(Run(s, events).requests[i].username)
    decreases |events|
  {
    if events != [] {
      var h := Step(s, events[0]);
      OtpRequestsCarryCheckedUsername(h.state, events[1..]);
      var here := if h.request.Some? then [h.request.value] else [];
      assert h.request.Some? && h.request.value.RequestOtp? ==> ValidUsername(h.request.value.username);
      assert Run(s, events).requests == here + Run(h.state, events[1..]).requests;
    }
  }

  /** The reset does not necessarily carry the username whose OTP was requested:
      the username field stays editable while the OTP request is pending, and the
      reset sends whatever the field holds, even a username the check rejects. */
  lemma UsernameEditedWhileOtpPending()
    ensures var events := [TypeUsername("abc"), SubmitUsername, TypeUsername("abc!"), OtpReply(Replied(200, Empty)),
                           TypeOtp("1234"), TypePassword("pw"), SubmitReset(Replied(200, Empty))];
      && Run(InitialState, events).requests == [RequestOtp("abc"), ResetPassword("abc!", "1234", "pw")]
      && !ValidUsername("abc!")
  {
    assert ValidUsername("abc") by {
      assert forall i :: 0 <= i < 3 ==> IsAsciiAlphanumeric("abc"[i]);
    }
    assert !IsAsciiAlphanumeric("abc!"[3]);
  }

  /** The flow reaches the second screen only through an OTP reply with status 200. */
  lemma {:induction false} SecondScreenNeedsOk(s: ForgotState, events: seq<UiEvent>)
    requires Run(s, events).state.secondScreen
    ensures s.secondScreen || (exists i :: 0 <= i < |events| && events[i].OtpReply?
                                          && events[i].reply.Replied? && events[i].reply.status == 200)
    decreases |events|
  {
    if events != [] && !s.secondScreen {
      var h := Step(s, events[0]);
      if h.state.secondScreen {
        assert events[0].OtpReply?;
      } else {
        SecondScreenNeedsOk(h.state, events[1..]);
        var i :| 0 <= i < |events[1..]| && events[1..][i].OtpReply?
          && events[1..][i].reply.Replied? && events[1..][i].reply.status == 200;
        assert events[i + 1] == events[1..][i];
      }
    }
  }
}
