/** The OTP verification screen reached after registration. */
module Otp {
  import opened Js
  import opened Http

  datatype OtpState = OtpState(otp: string, errorMessage: string)

  /** The request body `{username, otp}`. */
  datatype OtpRequest = OtpRequest(username: Option<string>, otp: string)

  /** The handler's effect; `resetTo` is the new navigation stack when it is reset. */
  datatype Verified = Verified(state: OtpState, request: Option<OtpRequest>, resetTo: Option<seq<string>>)

  const EnterOtpMessage := "Please enter the OTP"
  const InvalidOtpMessage := "Invalid OTP. Please try again."

  /** `handleVerifyOtp`, with `username` taken from the route parameters. */
  function HandleVerifyOtp(username: Option<string>, s: OtpState, reply: Reply<Empty>): (o: Verified)
    ensures s.otp == "" ==> o == Verified(s.(errorMessage := EnterOtpMessage), None, None)
    ensures s.otp != "" ==> o.request == Some(OtpRequest(username, s.otp))
    ensures o.resetTo.Some? <==> o.request.Some? && reply.Replied? && reply.status == 200
    ensures o.resetTo.Some? ==> o.resetTo.value == ["Login"]
    ensures o.request.Some? && reply.Threw? ==> o.state == s.(errorMessage := InvalidOtpMessage)
    ensures o.request.Some? && reply.Replied? ==> o.state == s
  {
    if s.otp == "" then Verified(s.(errorMessage := EnterOtpMessage), None, None)
    else
      var request := Some(OtpRequest(username, s.otp));
      match reply
      case Threw(_) => Verified(s.(errorMessage := InvalidOtpMessage), request, None)
      case Replied(status, _) =>
        if status == 200 then Verified(s, request, Some(["Login"])) else Verified(s, request, None)
  }

  /** The message for a thrown request does not depend on what the server said. */
  lemma ThrownMessageIgnoresServer(username: Option<string>, s: OtpState, e1: ErrorInfo, e2: ErrorInfo)
    ensures HandleVerifyOtp(username, s, Threw(e1)) == HandleVerifyOtp(username, s, Threw(e2))
  {
  }
}
