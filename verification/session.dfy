/**
 * Session messages from the server: each opcode is passed to the network
 * handler as exactly one call; the failure opcodes carry the error code and a
 * successful creation carries the session secret.
 */
module SessionHandling {
  import opened Wrappers
  import opened Messages
  import opened Effects

  /** The handler call caused by a session message. A session message never
      changes the local state, so only the effects are returned. */
  function HandleSession(m: Session): (r: seq<Effect>)
    ensures |r| == 1
    ensures r == [NotifyInvalidMsgFormat] <==> m.opcode.UnrecognizedOpcode?
    ensures m.opcode.CarriesErrcode()
        <==> r[0].SessionCreateFailed? || r[0].SessionJoinFailed? || r[0].SessionLeaveFailed?
    ensures m.opcode.CarriesErrcode() ==> r[0].code == m.errcode
    ensures r[0].SessionCreated? <==> m.opcode == CreateSuccess
    ensures r[0].SessionCreated? ==> r[0].secret == m.secret
    ensures !r[0].IsRelayTraffic()
  {
    match m.opcode
    case CreateFail => [SessionCreateFailed(m.errcode)]
    case CreateSuccess => [SessionCreated(m.secret)]
    case JoinFail => [SessionJoinFailed(m.errcode)]
    case JoinSuccess => [SessionJoined]
    case LeaveFail => [SessionLeaveFailed(m.errcode)]
    case LeaveSuccess => [SessionLeft]
    case PeerJoined => [PartnerJoined]
    case PeerLeft => [PartnerLeft]
    case UnrecognizedOpcode(_) => [NotifyInvalidMsgFormat]
  }

  /** The session message a handler call stands for, as far as the call
      shows it: the opcode, plus the error code or secret it carries. */
  function SessionOf(e: Effect): Option<(SessionOpcode, Option<int>, Option<string>)> {
    match e
    case SessionCreateFailed(c) => Some((CreateFail, Some(c), None))
    case SessionCreated(sec) => Some((CreateSuccess, None, Some(sec)))
    case SessionJoinFailed(c) => Some((JoinFail, Some(c), None))
    case SessionJoined => Some((JoinSuccess, None, None))
    case SessionLeaveFailed(c) => Some((LeaveFail, Some(c), None))
    case SessionLeft => Some((LeaveSuccess, None, None))
    case PartnerJoined => Some((PeerJoined, None, None))
    case PartnerLeft => Some((PeerLeft, None, None))
    case _ => None
  }

  /** From the call made for a known opcode, the opcode and every field the
      opcode uses can be read back: the mapping is one-to-one. */
  lemma SessionNotificationRecoversMessage(m: Session)
    requires !m.opcode.UnrecognizedOpcode?
    ensures SessionOf(HandleSession(m)[0]) == Some((
      m.opcode,
      if m.opcode.CarriesErrcode() then Some(m.errcode) else None,
      if m.opcode == CreateSuccess then Some(m.secret) else None))
  {
  }
}
