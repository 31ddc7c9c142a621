/**
 * The relay decision for an NFC exchange. Data produced by the partner's
 * reader is a command for the physical card held by this device; any other
 * data is a card reply for the reader talking to this device's APDU service.
 */
module Relay {
  import opened Wrappers
  import opened Messages
  import opened Effects
  import opened CallbackState

  /** The message is a command and there is a connected reader to send it to. */
  predicate ForwardsToCard(s: State, m: NfcData) {
    m.source == Reader && s.reader.Some? && s.reader.value.connected
  }

  /** The message is a command but the reader reports no connection. */
  predicate ReaderIdle(s: State, m: NfcData) {
    m.source == Reader && s.reader.Some? && !s.reader.value.connected
  }

  /** Whether some effect is a command sent to the card. */
  predicate SendsCommand(effects: seq<Effect>) {
    exists e <- effects :: e.SendCmd?
  }

  /** Sends a command through the connected reader and acts on the card's
      answer: forward it, or tear the connection down on null. */
  function ForwardCommand(s: State, cmd: Bytes, reply: Option<Bytes>): (r: Transition)
    requires s.reader.Some? && s.reader.value.connected
    ensures |r.effects| >= 2
    ensures r.effects[0] == SinkExchange(Hce, cmd) && r.effects[1] == SendCmd(cmd)
    ensures forall i :: 2 <= i < |r.effects| ==> !r.effects[i].SendCmd?
    ensures reply.Some? ==> r == Transition(s, [SinkExchange(Hce, cmd), SendCmd(cmd), SendApduReply(reply.value)])
    // after the command, a null reply causes the shutdown's calls and nothing else
    ensures reply.None? ==>
      r == Transition(Shutdown(s).state, [SinkExchange(Hce, cmd), SendCmd(cmd)] + Shutdown(s).effects)
  {
    var sent := [SinkExchange(Hce, cmd), SendCmd(cmd)];
    match reply
    case None =>
      var t := Shutdown(s);
      Transition(t.state, sent + t.effects)
    case Some(answer) => Transition(s, sent + [SendApduReply(answer)])
  }

  /** Handles one NFC exchange. `reply` is what the card answered to the
      command (None for the null that signals a lost connection); it is only
      consulted when the command is actually sent. */
  function HandleNfcData(s: State, m: NfcData, reply: Option<Bytes>): (r: Outcome)
    // a command with no reader object dereferences null
    ensures r.Crash? <==> m.source == Reader && s.reader.None?
    ensures r.Crash? ==> r.fault == NullReader
    // a disconnected reader: one notification, no card traffic, no change
    ensures ReaderIdle(s, m) ==> r == Done(s, [NotifyNfcNotConnected])
    // the card is addressed exactly when a connected reader exists, and then
    // once, with the message's bytes, after the sink has been told
    ensures r.Done? ==> (ForwardsToCard(s, m) <==> SendsCommand(r.effects))
    ensures ForwardsToCard(s, m) ==> (
      && |r.effects| >= 2
      && r.effects[0] == SinkExchange(Hce, m.bytes)
      && r.effects[1] == SendCmd(m.bytes)
      && forall i :: 2 <= i < |r.effects| ==> !r.effects[i].SendCmd?)
    // the card's answer is forwarded unchanged, and only an answer is
    ensures ForwardsToCard(s, m) && reply.Some? ==>
      r == Done(s, [SinkExchange(Hce, m.bytes), SendCmd(m.bytes), SendApduReply(reply.value)])
    // a null answer tears the connection down and forwards nothing
    ensures ForwardsToCard(s, m) && reply.None? ==>
      r == Done(Shutdown(s).state, [SinkExchange(Hce, m.bytes), SendCmd(m.bytes)] + Shutdown(s).effects)
    ensures r.Done? && !(ForwardsToCard(s, m) && reply.None?) ==> r.state == s
    // a reply for the reader goes to the APDU service if there is one
    ensures m.source != Reader ==> r.Done? && r.state == s
    ensures m.source != Reader && s.apdu ==>
      r.effects == [SendResponse(m.bytes), SinkExchange(CardSide, m.bytes)]
    ensures m.source != Reader && !s.apdu ==> r.effects == [NotifyNfcNotConnected]
  {
    if m.source == Reader then
      match s.reader
      case None => Crash(NullReader)
      case Some(rd) =>
        if rd.connected then
          var t := ForwardCommand(s, m.bytes, reply);
          assert t.effects[1].SendCmd?;
          Done(t.state, t.effects)
        else
          Done(s, [NotifyNfcNotConnected])
    else if s.apdu then
      Done(s, [SendResponse(m.bytes), SinkExchange(CardSide, m.bytes)])
    else
      Done(s, [NotifyNfcNotConnected])
  }

  /** After a lost connection a further command cannot be relayed: the
      reader is gone, and the next command dereferences null. */
  lemma LostConnectionIsFinal(s: State, m: NfcData, m': NfcData, reply: Option<Bytes>, reply': Option<Bytes>)
    requires ForwardsToCard(s, m) && reply.None?
    requires m'.source == Reader
    ensures HandleNfcData(HandleNfcData(s, m, reply).state, m', reply') == Crash(NullReader)
  {
  }
}
