/**
 * A newly discovered tag: pick the first supported technology from the tag's
 * list, open a reader for it, tell the partner the tag's anticollision data,
 * and start the chipset workaround where the faulty chipset is present.
 */
module TagSelection {
  import opened Wrappers
  import opened Messages
  import opened Effects
  import opened CallbackState

  /** What the platform reports about a discovered tag. The identification
      bytes are what the new reader reads from the hardware; `connected` is
      what it will answer to `isConnected()`. */
  datatype Tag = Tag(
    techList: seq<string>,
    uid: Bytes,
    atqa: Bytes,
    sak: Byte,
    hist: Bytes,
    connected: bool)

  datatype TagOutcome = TagOutcome(state: State, effects: seq<Effect>, found: bool)

  /** The reader technology a tech-list entry names, if it is a supported one. */
  function TechOf(name: string): Option<Tech> {
    if name == "android.nfc.tech.IsoDep" then Some(IsoDep)
    else if name == "android.nfc.tech.NfcA" then Some(NfcA)
    else None
  }

  /** The technology of the first supported entry of a tech list. */
  function FirstSupported(techs: seq<string>): (r: Option<Tech>)
    ensures r.Some? <==> exists i :: 0 <= i < |techs| && TechOf(techs[i]).Some?
    ensures r.Some? ==> exists i :: 0 <= i < |techs| && TechOf(techs[i]) == r
                          && forall j :: 0 <= j < i ==> TechOf(techs[j]).None?
  {
    if |techs| == 0 then None
    else if TechOf(techs[0]).Some? then TechOf(techs[0])
    else
      var r := FirstSupported(techs[1..]);
      assert forall i :: 1 <= i < |techs| ==> techs[i] == techs[1..][i - 1];
      r
  }

  /** Handles a discovered tag. `bcmDevicePresent` tells whether the device
      file of the faulty chipset exists. The result's `found` is what the
      callback returns. */
  function SetTag(s: State, tag: Tag, bcmDevicePresent: bool): (r: TagOutcome)
    ensures r.found <==> exists i :: 0 <= i < |tag.techList| && TechOf(tag.techList[i]).Some?
    ensures r.found ==> r.state.reader == Some(TagReader(FirstSupported(tag.techList).value, tag.connected))
    ensures !r.found ==> r.state.reader == s.reader
    ensures r.state.apdu == s.apdu
    ensures SendAnticol(tag.atqa, tag.sak, tag.hist, tag.uid) in r.effects <==> r.found
    ensures bcmDevicePresent ==> r.state.workaroundThread && r.state.workaroundRunnable
    ensures !bcmDevicePresent ==>
      r.state.workaroundThread == s.workaroundThread && r.state.workaroundRunnable == s.workaroundRunnable
    ensures WorkaroundConsistent(s) ==> WorkaroundConsistent(r.state)
    ensures StartWorkaround in r.effects <==> bcmDevicePresent
    ensures RegisterCallback in r.effects <==> r.found
    ensures CardWorkaroundConnected in r.effects <==> bcmDevicePresent
    // the replaced reader is not closed and a running workaround is not interrupted
    ensures InterruptWorkaround !in r.effects && CloseConnection !in r.effects
    // each call once, in order: callback, anticol, then the workaround's start and announcement
    ensures |r.effects| == (if r.found then 2 else 0) + (if bcmDevicePresent then 2 else 0)
    ensures r.found ==>
      r.effects[0] == RegisterCallback && r.effects[1] == SendAnticol(tag.atqa, tag.sak, tag.hist, tag.uid)
    ensures bcmDevicePresent ==>
      r.effects[|r.effects| - 2] == StartWorkaround && r.effects[|r.effects| - 1] == CardWorkaroundConnected
    ensures forall e <- r.effects ::
      e == RegisterCallback || e == SendAnticol(tag.atqa, tag.sak, tag.hist, tag.uid)
      || e == StartWorkaround || e == CardWorkaroundConnected
  {
    var tech := FirstSupported(tag.techList);
    var found := tech.Some?;
    var s1 := if found then s.(reader := Some(TagReader(tech.value, tag.connected))) else s;
    var announce := if found then [RegisterCallback, SendAnticol(tag.atqa, tag.sak, tag.hist, tag.uid)] else [];
    var s2 := if bcmDevicePresent then s1.(workaroundThread := true, workaroundRunnable := true) else s1;
    var workaround := if bcmDevicePresent then [StartWorkaround, CardWorkaroundConnected] else [];
    TagOutcome(s2, announce + workaround, found)
  }

  /** An IsoDep entry ahead of an NfcA entry wins, and the other way round:
      list order, not a preference between technologies, decides. */
  lemma ListOrderDecides()
    ensures FirstSupported(["android.nfc.tech.NfcA", "android.nfc.tech.IsoDep"]) == Some(NfcA)
    ensures FirstSupported(["android.nfc.tech.MifareClassic", "android.nfc.tech.IsoDep",
                            "android.nfc.tech.NfcA"]) == Some(IsoDep)
  {
  }
}
