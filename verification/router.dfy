/**
 * The entry point of the callback: parse the received bytes, route the
 * wrapper on its message case, and unwrap server Data messages whose blob
 * holds a further wrapper.
 */
module Router {
  import opened Wrappers
  import opened Messages
  import opened Effects
  import opened CallbackState
  import opened Relay
  import opened StatusHandling
  import opened SessionHandling
  import opened AnticolHandling

  /** The only changes a message can make to the state: none, or the
      teardown after a lost card connection. */
  predicate AllowedChange(s: State, s': State) {
    s' == s || (s' == Shutdown(s).state && s.reader.Some?)
  }

  /** Routes a wrapper to the handler of its message case. `reply` is the
      card's answer should the message lead to a command being sent. */
  function HandleWrapper(s: State, w: Wrapper, reply: Option<Bytes>): (r: Outcome)
    decreases w
    ensures r.Done? ==> AllowedChange(s, r.state)
    ensures r.Done? && r.state != s ==> CloseConnection in r.effects
    ensures r.Crash? && r.fault == NullReader ==> s.reader.None?
  {
    match w
    case DataMsg(d) => HandleData(s, d, reply)
    case NfcDataMsg(m) => HandleNfcData(s, m, reply)
    case SessionMsg(m) => Done(s, HandleSession(m))
    case StatusMsg(m) => Done(s, HandleStatus(m.code))
    case AnticolMsg(m) => HandleAnticol(s, m)
    case NoMessage => Done(s, [NotifyUnknownMessageType])
  }

  /** A server Data message: a parsed blob is routed like a wrapper received
      directly, a malformed blob is reported, and an error code is only
      logged unless the client does not know it. */
  function HandleData(s: State, d: Data, reply: Option<Bytes>): (r: Outcome)
    decreases d
    ensures r.Done? ==> AllowedChange(s, r.state)
    ensures r.Done? && r.state != s ==> CloseConnection in r.effects
    ensures r.Crash? && r.fault == NullReader ==> s.reader.None?
  {
    match d.blob
    case Some(Parsed(inner)) => HandleWrapper(s, inner, reply)
    case Some(Malformed) => Done(s, [NotifyInvalidMsgFormat])
    case None =>
      match d.errcode
      case Some(UnrecognizedErrcode(_)) => Done(s, [NotifyInvalidMsgFormat])
      case Some(_) => Done(s, [])
      case None => Done(s, [NotifyInvalidMsgFormat])
  }

  /** The callback for received bytes, given the result of parsing them. */
  function OnDataReceived(s: State, received: Decoded, reply: Option<Bytes>): (r: Outcome)
    ensures received.Malformed? ==> r == Done(s, [NotifyInvalidMsgFormat])
    ensures r.Done? ==> AllowedChange(s, r.state)
    ensures r.Done? && WorkaroundConsistent(s) ==> WorkaroundConsistent(r.state)
    ensures r.Done? ==> r.state.apdu == s.apdu
  {
    match received
    case Malformed => Done(s, [NotifyInvalidMsgFormat])
    case Parsed(w) => HandleWrapper(s, w, reply)
  }

  /** The wrapper carries a Data message with a blob. */
  predicate HasBlob(w: Wrapper) {
    w.DataMsg? && w.data.blob.Some?
  }

  /** Follows Data blobs down to the first wrapper that is not a Data message
      with a blob, or to the first blob that did not parse. */
  function Unwrap(w: Wrapper): (r: Decoded)
    ensures r.Parsed? ==> !HasBlob(r.wrapper)
    ensures !HasBlob(w) ==> r == Parsed(w)
  {
    match w
    case DataMsg(Data(Some(Parsed(inner)), _)) => Unwrap(inner)
    case DataMsg(Data(Some(Malformed), _)) => Malformed
    case _ => Parsed(w)
  }

  /** The innermost message of a parse result. */
  function Innermost(received: Decoded): (r: Decoded)
    ensures r.Parsed? ==> !HasBlob(r.wrapper)
  {
    match received
    case Malformed => Malformed
    case Parsed(w) => Unwrap(w)
  }

  /** A wrapper nested in Data blobs is handled exactly as its innermost
      message would be had it arrived directly from the transport; a blob
      that does not parse is handled as received bytes that do not parse. */
  lemma {:induction false} BlobTransparent(s: State, w: Wrapper, reply: Option<Bytes>)
    ensures HandleWrapper(s, w, reply) == OnDataReceived(s, Unwrap(w), reply)
  {
    match w
    case DataMsg(Data(Some(Parsed(inner)), _)) =>
      BlobTransparent(s, inner, reply);
    case _ =>
  }

  /** A Data message without a blob is settled by its error code alone. */
  lemma DataWithoutBlob(s: State, d: Data, reply: Option<Bytes>)
    requires d.blob.None?
    ensures OnDataReceived(s, Parsed(DataMsg(d)), reply) == HandleData(s, d, reply)
    ensures HandleData(s, d, reply) == Done(s, if d.errcode.Some? && !d.errcode.value.UnrecognizedErrcode?
                                               then [] else [NotifyInvalidMsgFormat])
  {
  }

  /** The four cases that produce exactly one invalid-format notification
      and nothing else. */
  predicate FormatError(received: Decoded) {
    match Innermost(received)
    case Malformed => true
    case Parsed(DataMsg(Data(None, None))) => true
    case Parsed(DataMsg(Data(None, Some(UnrecognizedErrcode(_))))) => true
    case _ => false
  }

  /** The Data error codes the client knows. */
  predicate KnownErrcodeOnly(received: Decoded) {
    match Innermost(received)
    case Parsed(DataMsg(Data(None, Some(c)))) => !c.UnrecognizedErrcode?
    case _ => false
  }

  /** Malformed bytes, a malformed blob at any depth, an unknown Data error
      code and a Data message with neither blob nor code each yield one
      invalid-format notification and leave the state alone; a known Data
      error code yields nothing at all. */
  lemma InvalidFormatHandling(s: State, received: Decoded, reply: Option<Bytes>)
    ensures FormatError(received) ==> OnDataReceived(s, received, reply) == Done(s, [NotifyInvalidMsgFormat])
    ensures KnownErrcodeOnly(received) ==> OnDataReceived(s, received, reply) == Done(s, [])
  {
    if received.Parsed? {
      BlobTransparent(s, received.wrapper, reply);
    }
    var inner := Innermost(received);
    if inner.Parsed? && inner.wrapper.DataMsg? {
      DataWithoutBlob(s, inner.wrapper.data, reply);
    }
  }

  /** Every parsed message reaches exactly the handler of its innermost
      message case, however deeply it is nested in Data blobs; a wrapper
      with no case set yields one unknown-type notification and nothing else. */
  lemma RoutesByCase(s: State, received: Decoded, reply: Option<Bytes>)
    requires Innermost(received).Parsed?
    ensures var w := Innermost(received).wrapper;
      && (w.NoMessage? ==> OnDataReceived(s, received, reply) == Done(s, [NotifyUnknownMessageType]))
      && (w.SessionMsg? ==> OnDataReceived(s, received, reply) == Done(s, HandleSession(w.session)))
      && (w.StatusMsg? ==> OnDataReceived(s, received, reply) == Done(s, HandleStatus(w.status.code)))
      && (w.NfcDataMsg? ==> OnDataReceived(s, received, reply) == HandleNfcData(s, w.nfc, reply))
      && (w.AnticolMsg? ==> OnDataReceived(s, received, reply) == HandleAnticol(s, w.anticol))
  {
    BlobTransparent(s, received.wrapper, reply);
  }

  /** Only a message whose innermost case is NFC data can touch the reader,
      the card or the APDU service, or change the state. */
  lemma OnlyNfcDataRelays(s: State, received: Decoded, reply: Option<Bytes>)
    requires !(Innermost(received).Parsed? && Innermost(received).wrapper.NfcDataMsg?)
    ensures var r := OnDataReceived(s, received, reply);
      r.Done? ==> r.state == s && forall e <- r.effects :: !e.IsRelayTraffic()
  {
    var r := OnDataReceived(s, received, reply);
    var inner := Innermost(received);
    assert r == OnDataReceived(s, inner, reply) by {
      if received.Parsed? {
        BlobTransparent(s, received.wrapper, reply);
      }
    }
    match inner
    case Malformed =>
    case Parsed(w) =>
      match w
      case DataMsg(d) => DataWithoutBlob(s, d, reply);
      case SessionMsg(m) =>
      case StatusMsg(m) =>
      case AnticolMsg(m) =>
      case NoMessage =>
  }
}
