/**
 * Anticollision data from the partner's tag: single bytes are taken out of
 * the ATQA, SAK and historical-byte arrays and handed, with the UID, to the
 * daemon that makes the local device emulate that tag.
 */
module AnticolHandling {
  import opened Wrappers
  import opened Messages
  import opened Effects
  import opened CallbackState

  /** The values uploaded to the emulation daemon. */
  datatype Config = Config(atqa: Byte, sak: Byte, hist: Byte, uid: Bytes)

  /** The last byte of an array, or 0 for an empty one. */
  function LastOrZero(b: Bytes): (r: Byte)
    ensures |b| > 0 ==> r == b[|b| - 1]
    ensures |b| == 0 ==> r == 0
  {
    if |b| > 0 then b[|b| - 1] else 0
  }

  /** The first byte of an array, or 0 for an empty one. */
  function FirstOrZero(b: Bytes): (r: Byte)
    ensures |b| > 0 ==> r == b[0]
    ensures |b| == 0 ==> r == 0
  {
    if |b| > 0 then b[0] else 0
  }

  /** The extraction as the callback performs it: the historical byte is
      read from the ATQA array whenever the historical bytes are non-empty,
      which raises an index error when the ATQA array is empty. */
  function ExtractAsWritten(a: Anticol): (r: Option<Config>)
    ensures r.None? <==> |a.hist| > 0 && |a.atqa| == 0
    ensures r.Some? && |a.hist| > 0 ==> r.value.hist == a.atqa[0]
  {
    if |a.hist| > 0 && |a.atqa| == 0 then None
    else
      var hist := if |a.hist| > 0 then a.atqa[0] else 0;
      Some(Config(LastOrZero(a.atqa), FirstOrZero(a.sak), hist, a.uid))
  }

  /** The extraction as evidently intended: the historical byte is the first
      historical byte, and no input raises an error. */
  function Extract(a: Anticol): (r: Config)
    ensures r.atqa == LastOrZero(a.atqa)
    ensures r.sak == FirstOrZero(a.sak)
    ensures r.hist == FirstOrZero(a.hist)
    ensures r.uid == a.uid
  {
    Config(LastOrZero(a.atqa), FirstOrZero(a.sak), FirstOrZero(a.hist), a.uid)
  }

  /** Where the as-written extraction succeeds it agrees with the intended one
      on ATQA, SAK and UID, and on the historical byte exactly when there are
      no historical bytes or their first byte happens to equal ATQA[0]. */
  lemma AsWrittenAgreesExceptHist(a: Anticol)
    requires ExtractAsWritten(a).Some?
    ensures ExtractAsWritten(a).value.(hist := 0) == Extract(a).(hist := 0)
    ensures ExtractAsWritten(a).value == Extract(a)
        <==> |a.hist| == 0 || a.hist[0] == a.atqa[0]
  {
  }

  /** A tag with ATQA 00 44 and historical byte 7: the as-written extraction
      uploads 0, the ATQA's first byte, where 7 was meant. */
  lemma HistTakenFromAtqa()
    ensures ExtractAsWritten(Anticol([4, 1, 2], [0, 0x44], [0x20], [7])).value.hist == 0
    ensures Extract(Anticol([4, 1, 2], [0, 0x44], [0x20], [7])).hist == 7
  {
  }

  /** A tag with historical bytes but an empty ATQA makes the as-written
      extraction fail, where the intended one succeeds. */
  lemma EmptyAtqaFails()
    ensures ExtractAsWritten(Anticol([4], [], [0x20], [7])).None?
    ensures Extract(Anticol([4], [], [0x20], [7])).hist == 7
  {
  }

  /** The anticol handler: upload the extracted values, enable the patch and
      report the raw arrays to the sink manager. */
  function HandleAnticol(s: State, a: Anticol): (r: Outcome)
    ensures r.Crash? <==> |a.hist| > 0 && |a.atqa| == 0
    ensures r.Crash? ==> r.fault == AtqaIndexOutOfBounds
    ensures r.Done? ==> r.state == s && |r.effects| == 3
    ensures r.Done? ==> forall e <- r.effects :: !e.IsRelayTraffic()
    ensures r.Done? ==> r.effects[1] == EnablePatch
    ensures r.Done? ==> (
      && r.effects[0].UploadConfiguration?
      && r.effects[0].atqaByte == LastOrZero(a.atqa)
      && r.effects[0].sakByte == FirstOrZero(a.sak)
      && r.effects[0].histByte == (if |a.hist| > 0 then a.atqa[0] else 0)
      && r.effects[0].uid == a.uid)
    ensures r.Done? ==> r.effects[2] == SinkAnticol(a.atqa, FirstOrZero(a.sak), a.hist, a.uid)
  {
    match ExtractAsWritten(a)
    case None => Crash(AtqaIndexOutOfBounds)
    case Some(c) =>
      Done(s, [UploadConfiguration(c.atqa, c.sak, c.hist, c.uid), EnablePatch,
               SinkAnticol(a.atqa, c.sak, a.hist, a.uid)])
  }

  /** A tag with UID 04 01 02, ATQA 00 44, SAK 20 and no historical bytes
      configures the emulation with ATQA byte 44, SAK 20 and that UID. */
  lemma AnticolScenario(s: State)
    ensures HandleAnticol(s, Anticol([0x04, 0x01, 0x02], [0x00, 0x44], [0x20], []))
         == Done(s, [UploadConfiguration(0x44, 0x20, 0, [0x04, 0x01, 0x02]), EnablePatch,
                     SinkAnticol([0x00, 0x44], 0x20, [], [0x04, 0x01, 0x02])])
  {
  }
}
