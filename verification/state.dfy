/**
 * The local state of the callback and the teardown of the tag connection.
 */
module CallbackState {
  import opened Wrappers
  import opened Effects

  /** The reader technology chosen for a tag. */
  datatype Tech = IsoDep | NfcA

  /** A tag reader object. `connected` is what its `isConnected()` answers;
      it stands for the hardware and is not changed by the callback itself. */
  datatype TagReader = TagReader(tech: Tech, connected: bool)

  /** The fields of the callback: the reader (null when absent), whether an
      APDU service is set, and whether the workaround thread and its runnable
      are set. */
  datatype State = State(
    reader: Option<TagReader>,
    apdu: bool,
    workaroundThread: bool,
    workaroundRunnable: bool)

  /** The workaround thread and its runnable are set and cleared together. */
  predicate WorkaroundConsistent(s: State) {
    s.workaroundThread == s.workaroundRunnable
  }

  /** A transition that cannot fail. */
  datatype Transition = Transition(state: State, effects: seq<Effect>)

  /** The runtime exception an inbound message can raise. */
  datatype Fault =
    | NullReader             // a method called on a null reader
    | AtqaIndexOutOfBounds   // the first byte read from an empty ATQA array

  /** The result of handling one inbound message. An exception leaves the
      fields as they were; no effect precedes either fault. */
  datatype Outcome = Done(state: State, effects: seq<Effect>) | Crash(fault: Fault)

  /** Interrupts the workaround thread if it runs and forgets thread and runnable. */
  function DisconnectCardWorkaround(s: State): (r: Transition)
    ensures !r.state.workaroundThread && !r.state.workaroundRunnable
    ensures r.state.reader == s.reader && r.state.apdu == s.apdu
    ensures InterruptWorkaround in r.effects <==> s.workaroundThread
    ensures forall e <- r.effects :: e == InterruptWorkaround
    ensures |r.effects| <= 1
  {
    Transition(
      s.(workaroundThread := false, workaroundRunnable := false),
      if s.workaroundThread then [InterruptWorkaround] else [])
  }

  /** Stops the workaround, closes the reader's connection if there is a
      reader, and forgets the reader. */
  function Shutdown(s: State): (r: Transition)
    ensures r.state.reader == None
    ensures !r.state.workaroundThread && !r.state.workaroundRunnable
    ensures r.state.apdu == s.apdu
    ensures InterruptWorkaround in r.effects <==> s.workaroundThread
    ensures CloseConnection in r.effects <==> s.reader.Some?
    ensures forall e <- r.effects :: e == InterruptWorkaround || e == CloseConnection
    // each teardown call happens at most once, the interrupt before the close
    ensures |r.effects| == (if s.workaroundThread then 1 else 0) + (if s.reader.Some? then 1 else 0)
    ensures s.workaroundThread ==> r.effects[0] == InterruptWorkaround
    ensures s.reader.Some? ==> r.effects[|r.effects| - 1] == CloseConnection
  {
    var d := DisconnectCardWorkaround(s);
    var close: seq<Effect> := if s.reader.Some? then [CloseConnection] else [];
    Transition(d.state.(reader := None), d.effects + close)
  }

  /** A second shutdown finds nothing to stop and changes nothing. */
  lemma ShutdownIdempotent(s: State)
    ensures Shutdown(Shutdown(s).state) == Transition(Shutdown(s).state, [])
  {
  }

  /** Shutdown changes the state exactly when there is something to tear down. */
  lemma ShutdownChangesStateIffActive(s: State)
    ensures Shutdown(s).state == s <==> s.reader.None? && !s.workaroundThread && !s.workaroundRunnable
  {
  }
}
