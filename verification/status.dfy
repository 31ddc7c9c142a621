/**
 * Status messages from the session partner: a keepalive request is answered,
 * the partner's capability changes and link loss are passed on, error reports
 * are only logged, and any other code is reported as not implemented.
 */
module StatusHandling {
  import opened Wrappers
  import opened Messages
  import opened Effects

  /** The handler calls caused by a status code. A status never changes the
      local state, so only the effects are returned. */
  function HandleStatus(code: StatusCode): (r: seq<Effect>)
    ensures |r| <= 1
    ensures r == [] <==> code.IsInformational()
    ensures r == [SendKeepaliveReply] <==> code == KeepaliveReq
    ensures r == [NotifyNotImplemented] <==> code.UnrecognizedStatus?
    ensures forall e <- r :: !e.IsRelayTraffic()
  {
    match code
    case KeepaliveReq => [SendKeepaliveReply]
    case KeepaliveRep => []
    case NotImplemented => []
    case UnknownError => []
    case UnknownMessage => []
    case InvalidMsgFmt => []
    case ReaderFound => [PartnerApduMode(true)]
    case ReaderRemoved => [PartnerApduMode(false)]
    case CardFound => [PartnerReaderMode(true)]
    case CardRemoved => [PartnerReaderMode(false)]
    case NfcNoConn => [PartnerNfcLost]
    case UnrecognizedStatus(_) => [NotifyNotImplemented]
  }

  /** The status code a partner notification stands for: the inverse of
      `HandleStatus` on the codes that produce one. */
  function StatusOf(e: Effect): Option<StatusCode> {
    match e
    case SendKeepaliveReply => Some(KeepaliveReq)
    case PartnerApduMode(on) => Some(if on then ReaderFound else ReaderRemoved)
    case PartnerReaderMode(on) => Some(if on then CardFound else CardRemoved)
    case PartnerNfcLost => Some(NfcNoConn)
    case _ => None
  }

  /** Every known, non-informational code yields a notification from which
      the code can be read back, so distinct codes yield distinct calls. */
  lemma StatusNotificationOneToOne(code: StatusCode)
    requires !code.IsInformational() && !code.UnrecognizedStatus?
    ensures |HandleStatus(code)| == 1
    ensures StatusOf(HandleStatus(code)[0]) == Some(code)
  {
  }

  /** A reader found at the partner turns on the partner's APDU mode and a
      card found turns on its reader mode: the names cross over. */
  lemma CrossedCapabilityNaming(code: StatusCode)
    ensures code == ReaderFound <==> HandleStatus(code) == [PartnerApduMode(true)]
    ensures code == ReaderRemoved <==> HandleStatus(code) == [PartnerApduMode(false)]
    ensures code == CardFound <==> HandleStatus(code) == [PartnerReaderMode(true)]
    ensures code == CardRemoved <==> HandleStatus(code) == [PartnerReaderMode(false)]
    ensures code == NfcNoConn <==> HandleStatus(code) == [PartnerNfcLost]
  {
  }
}
