/** The run lifecycle of one boxed task: create, run inside, record, seal, tear down, on every exit path. */
module Supervisors {
  datatype Config = Config(box: bool, loop: bool, blankTask: bool, record: bool, sink: bool, signer: bool,
                           timeout: bool)

  datatype LoopEnd = LoopOk | LoopError | LoopPanic
  /** The arm the run-loop select takes. */
  datatype Arm = LoopFinished | Cancelled | TimerFired
  datatype Chain = ChainValid | ChainTampered | ChainUnreadable

  /** How everything outside answers. */
  datatype World = World(
    createOk: bool, fileOk: bool, startOk: bool, commandOk: bool, loopEnd: LoopEnd, arm: Arm, killOk: bool,
    finishOk: bool, closeOk: bool, sealOk: bool, chain: Chain, checkpointOk: bool, teardownOk: bool)

  datatype RunOutcome = OutcomeCompleted | OutcomeFailed | OutcomeTimedOut

  datatype Event =
    | Created
    | RecordStarted
    | CommandWritten
    | LoopStarted
    | Killed(ok: bool)
    | LoopJoined
    | RecordFinished(outcome: RunOutcome, failed: bool)
    | RecordClosed
    | Sealed
    | ChainVerified
    | Checkpointed(ok: bool)
    | TornDown

  /** The order of a lifecycle. */
  function Rank(e: Event): nat {
    match e
    case Created => 0
    case RecordStarted => 1
    case CommandWritten => 2
    case LoopStarted => 3
    case Killed(_) => 4
    case LoopJoined => 5
    case RecordFinished(_, _) => 6
    case RecordClosed => 7
    case Sealed => 8
    case ChainVerified => 9
    case Checkpointed(_) => 10
    case TornDown => 11
  }

  /** Events follow the lifecycle's order, so each happens at most once. */
  predicate Ordered(trace: seq<Event>) { forall i, j | 0 <= i < j < |trace| :: Rank(trace[i]) < Rank(trace[j]) }

  // ---------------------------------------------------------------- when each thing is due

  predicate Boxed(c: Config, w: World) { c.box && c.loop && !c.blankTask && w.createOk }
  predicate RecordOpen(c: Config, w: World) { Boxed(c, w) && c.record && w.fileOk && w.startOk }
  predicate LoopRuns(c: Config, w: World) { Boxed(c, w) && (c.record ==> w.fileOk && w.startOk && w.commandOk) }
  function ArmTaken(c: Config, w: World): Arm { if w.arm.TimerFired? && !c.timeout then LoopFinished else w.arm }
  predicate RunOk(c: Config, w: World) { LoopRuns(c, w) && ArmTaken(c, w).LoopFinished? && w.loopEnd.LoopOk? }
  predicate RecordOk(c: Config, w: World) { RecordOpen(c, w) ==> w.finishOk && w.closeOk }
  predicate SealOk(c: Config, w: World) { c.sink ==> w.sealOk }

  function OutcomeOf(c: Config, w: World): RunOutcome {
    if RunOk(c, w) then OutcomeCompleted
    else if LoopRuns(c, w) && ArmTaken(c, w).TimerFired? then OutcomeTimedOut
    else OutcomeFailed
  }

  predicate Due(c: Config, w: World, e: Event) {
    match e
    case Created => Boxed(c, w)
    case RecordStarted => RecordOpen(c, w)
    case CommandWritten => RecordOpen(c, w) && w.commandOk
    case LoopStarted => LoopRuns(c, w)
    case Killed(ok) => LoopRuns(c, w) && !ArmTaken(c, w).LoopFinished? && ok == w.killOk
    case LoopJoined => LoopRuns(c, w)
    case RecordFinished(o, failed) => RecordOpen(c, w) && o == OutcomeOf(c, w) && failed == !RunOk(c, w)
    case RecordClosed => RecordOpen(c, w)
    case Sealed => Boxed(c, w) && c.sink
    case ChainVerified => RunOk(c, w) && RecordOk(c, w) && SealOk(c, w) && c.signer
    case Checkpointed(ok) =>
      RunOk(c, w) && RecordOk(c, w) && SealOk(c, w) && c.signer && w.chain.ChainValid? && ok == w.checkpointOk
    case TornDown => Boxed(c, w)
  }

  /** A complete lifecycle: exactly what is due, in order, and an error unless every part succeeded. */
  ghost predicate Lifecycle(c: Config, w: World, trace: seq<Event>, failed: bool) {
    && Ordered(trace) && (forall e :: e in trace <==> Due(c, w, e))
    && failed == !(RunOk(c, w) && RecordOk(c, w) && SealOk(c, w) && w.teardownOk)
  }

  // ---------------------------------------------------------------- what that promises

  predicate At(trace: seq<Event>, i: int, e: Event) { 0 <= i < |trace| && trace[i] == e }

  /** Event `a` happens, before `b`. */
  ghost predicate Precedes(trace: seq<Event>, a: Event, b: Event) {
    exists i, j :: At(trace, i, a) && At(trace, j, b) && i < j
  }

  lemma OrderedPrecedes(trace: seq<Event>, a: Event, b: Event)
    requires Ordered(trace) && a in trace && b in trace && Rank(a) < Rank(b)
    ensures Precedes(trace, a, b)
  {
    var i :| 0 <= i < |trace| && trace[i] == a;
    var j :| 0 <= j < |trace| && trace[j] == b;
    assert At(trace, i, a) && At(trace, j, b);
  }

  /** A created box is torn down once, as the last thing. */
  lemma TeardownIsLast(c: Config, w: World, trace: seq<Event>, failed: bool)
    requires Lifecycle(c, w, trace, failed) && Created in trace
    ensures At(trace, |trace| - 1, TornDown) && TornDown !in trace[..|trace| - 1]
  {
    assert Due(c, w, Created) && Due(c, w, TornDown) && TornDown in trace;
    var k :| 0 <= k < |trace| && trace[k] == TornDown;
    assert k == |trace| - 1 by { assert Rank(trace[|trace| - 1]) <= Rank(trace[k]); }
  }

  /** Before it the started loop was joined, the open record finished and closed, and the sink sealed; the record
      is not closed while the loop runs. */
  lemma TeardownAfterAll(c: Config, w: World, trace: seq<Event>, failed: bool)
    requires Lifecycle(c, w, trace, failed)
    ensures LoopStarted in trace ==> Precedes(trace, LoopStarted, LoopJoined) && Precedes(trace, LoopJoined, TornDown)
    ensures RecordStarted in trace ==> Precedes(trace, RecordClosed, TornDown)
    ensures RecordStarted in trace && LoopStarted in trace ==> Precedes(trace, LoopJoined, RecordClosed)
    ensures Created in trace && c.sink ==> Precedes(trace, Sealed, TornDown)
  {
    assert forall e | e in trace :: Due(c, w, e);
    hide Precedes;
    if LoopStarted in trace {
      assert Due(c, w, LoopJoined) && Due(c, w, TornDown);
      OrderedPrecedes(trace, LoopStarted, LoopJoined);
      OrderedPrecedes(trace, LoopJoined, TornDown);
    }
    if RecordStarted in trace {
      assert Due(c, w, RecordClosed) && Due(c, w, TornDown);
      OrderedPrecedes(trace, RecordClosed, TornDown);
      if LoopStarted in trace { OrderedPrecedes(trace, LoopJoined, RecordClosed); }
    }
    if Created in trace && c.sink {
      assert Due(c, w, Sealed) && Due(c, w, TornDown);
      OrderedPrecedes(trace, Sealed, TornDown);
    }
  }

  predicate KilledIn(trace: seq<Event>) { Killed(true) in trace || Killed(false) in trace }

  /** Every part but the teardown succeeds: the configuration, the box, the record, the loop, the sink. */
  predicate Clean(c: Config, w: World) {
    && c.box && c.loop && !c.blankTask && w.createOk
    && (c.record ==> w.fileOk && w.startOk && w.commandOk && w.finishOk && w.closeOk)
    && !w.arm.Cancelled? && !(w.arm.TimerFired? && c.timeout) && w.loopEnd == LoopOk
    && (c.sink ==> w.sealOk)
  }

  /** How far a run gets, and when it is an error. */
  lemma RunMeans(c: Config, w: World, trace: seq<Event>, failed: bool)
    requires Lifecycle(c, w, trace, failed)
    ensures failed <==> !Clean(c, w) || !w.teardownOk
    ensures Created in trace <==> c.box && c.loop && !c.blankTask && w.createOk
    ensures RecordStarted in trace <==> Created in trace && c.record && w.fileOk && w.startOk
    ensures CommandWritten in trace <==> RecordStarted in trace && w.commandOk
    ensures LoopStarted in trace <==> Created in trace && (c.record ==> CommandWritten in trace)
    ensures Sealed in trace <==> Created in trace && c.sink
    ensures ChainVerified in trace <==> Clean(c, w) && c.signer
  {
    assert forall e :: e in trace <==> Due(c, w, e);
  }

  /** What the record is finished with: timed out exactly on a configured timeout that fired on the started loop,
      completed exactly when the loop came back by itself and without an error, failed otherwise. */
  lemma RecordedOutcome(c: Config, w: World, trace: seq<Event>, failed: bool, o: RunOutcome, runFailed: bool)
    requires Lifecycle(c, w, trace, failed) && RecordFinished(o, runFailed) in trace
    ensures o == OutcomeTimedOut <==> LoopStarted in trace && w.arm == TimerFired && c.timeout
    ensures o == OutcomeCompleted <==> LoopStarted in trace && !KilledIn(trace) && w.loopEnd == LoopOk
    ensures runFailed <==> o != OutcomeCompleted
  {
    assert Due(c, w, RecordFinished(o, runFailed)) && (LoopStarted in trace <==> Due(c, w, LoopStarted));
    assert forall ok :: Killed(ok) in trace <==> Due(c, w, Killed(ok));
  }

  /** A started loop is killed exactly on a cancel or an expired configured timeout, and then the run fails whatever
      the kill says. */
  lemma KillMeans(c: Config, w: World, trace: seq<Event>, failed: bool)
    requires Lifecycle(c, w, trace, failed)
    ensures KilledIn(trace) <==> LoopStarted in trace && (w.arm.Cancelled? || (w.arm.TimerFired? && c.timeout))
    ensures KilledIn(trace) ==> failed && Killed(w.killOk) in trace && Killed(!w.killOk) !in trace
  {
    assert LoopStarted in trace <==> Due(c, w, LoopStarted);
    assert forall ok :: Killed(ok) in trace <==> Due(c, w, Killed(ok));
  }

  /** A checkpoint is created exactly on a run that is error-free up to its teardown, with a signer whose chain is
      valid, verified just before, and whose own attempt succeeds; a failed attempt changes nothing else. */
  lemma CheckpointIff(c: Config, w: World, trace: seq<Event>, failed: bool)
    requires Lifecycle(c, w, trace, failed)
    ensures Checkpointed(true) in trace <==> Clean(c, w) && c.signer && w.chain.ChainValid? && w.checkpointOk
    ensures Checkpointed(false) in trace <==> Clean(c, w) && c.signer && w.chain.ChainValid? && !w.checkpointOk
    ensures Checkpointed(true) in trace ==> Precedes(trace, ChainVerified, Checkpointed(true)) && !KilledIn(trace)
    ensures Checkpointed(true) in trace || Checkpointed(false) in trace ==> failed == !w.teardownOk
  {
    assert forall ok :: Checkpointed(ok) in trace <==> Due(c, w, Checkpointed(ok));
    assert forall ok :: Killed(ok) in trace <==> Due(c, w, Killed(ok));
    if Checkpointed(true) in trace {
      assert Due(c, w, ChainVerified) && ChainVerified in trace;
      OrderedPrecedes(trace, ChainVerified, Checkpointed(true));
    }
  }

  // ---------------------------------------------------------------- the run

  /** The lifecycle so far: what is due among the first `n` ranks has happened, in order, and nothing else. */
  ghost predicate Upto(c: Config, w: World, trace: seq<Event>, n: nat) {
    && Ordered(trace) && (forall i | 0 <= i < |trace| :: Rank(trace[i]) < n)
    && forall e | Rank(e) < n :: e in trace <==> Due(c, w, e)
  }

  lemma Happens(c: Config, w: World, trace: seq<Event>, e: Event)
    requires Upto(c, w, trace, Rank(e)) && Due(c, w, e)
    ensures Upto(c, w, trace + [e], Rank(e) + 1)
  {
    var now := trace + [e];
    forall x | Rank(x) < Rank(e) + 1 ensures x in now <==> Due(c, w, x) {
      if Rank(x) == Rank(e) { OnePerRank(c, w, e, x); }
    }
  }

  lemma OnePerRank(c: Config, w: World, e: Event, x: Event)
    requires Rank(x) == Rank(e) && Due(c, w, e)
    ensures Due(c, w, x) <==> x == e
  {
  }

  /** Nothing of the next `k` ranks is due. */
  lemma {:induction false} Passes(c: Config, w: World, trace: seq<Event>, n: nat, k: nat)
    requires Upto(c, w, trace, n) && forall e | n <= Rank(e) < n + k :: !Due(c, w, e)
    ensures Upto(c, w, trace, n + k)
  {
    forall e | e in trace ensures Rank(e) < n {
      var i :| 0 <= i < |trace| && trace[i] == e;
    }
  }

  class Supervisor {
    const config: Config
    var trace: seq<Event>

    constructor (config: Config)
      ensures this.config == config && trace == []
    {
      this.config := config;
      trace := [];
    }

    method OpenRunRecord(w: World) returns (open: bool, failed: bool)
      requires Boxed(config, w) && Upto(config, w, trace, 1)
      modifies this
      ensures Upto(config, w, trace, 2)
      ensures open == RecordOpen(config, w) && failed == (config.record && !open)
    {
      hide Upto;
      open, failed := false, false;
      if !config.record { Passes(config, w, trace, 1, 1); return; }
      if !w.fileOk { Passes(config, w, trace, 1, 1); return false, true; }
      if !w.startOk { Passes(config, w, trace, 1, 1); return false, true; }
      Happens(config, w, trace, RecordStarted);
      trace := trace + [RecordStarted];
      open := true;
    }

    method CloseRunRecord(open: bool, outcome: RunOutcome, runFailed: bool, w: World) returns (failed: bool)
      requires Boxed(config, w) && Upto(config, w, trace, 6)
      requires open == RecordOpen(config, w) && outcome == OutcomeOf(config, w) && runFailed == !RunOk(config, w)
      modifies this
      ensures Upto(config, w, trace, 8) && failed == !RecordOk(config, w)
    {
      hide Upto;
      if !open { Passes(config, w, trace, 6, 2); return false; }
      Happens(config, w, trace, RecordFinished(outcome, runFailed));
      trace := trace + [RecordFinished(outcome, runFailed)];
      Happens(config, w, trace, RecordClosed);
      trace := trace + [RecordClosed];
      failed := !w.finishOk || !w.closeOk;
    }

    method SealSink(w: World) returns (failed: bool)
      requires Boxed(config, w) && Upto(config, w, trace, 8)
      modifies this
      ensures Upto(config, w, trace, 9) && failed == !SealOk(config, w)
    {
      hide Upto;
      if !config.sink { Passes(config, w, trace, 8, 1); return false; }
      Happens(config, w, trace, Sealed);
      trace := trace + [Sealed];
      failed := !w.sealOk;
    }

    method MaybeCreateCheckpoint(w: World)
      requires RunOk(config, w) && RecordOk(config, w) && SealOk(config, w) && Upto(config, w, trace, 9)
      modifies this
      ensures Upto(config, w, trace, 11)
    {
      hide Upto;
      if !config.signer { Passes(config, w, trace, 9, 2); return; }
      Happens(config, w, trace, ChainVerified);
      trace := trace + [ChainVerified];
      if w.chain.ChainUnreadable? { Passes(config, w, trace, 10, 1); return; }
      if w.chain.ChainTampered? { Passes(config, w, trace, 10, 1); return; }
      Happens(config, w, trace, Checkpointed(w.checkpointOk));
      trace := trace + [Checkpointed(w.checkpointOk)];
    }

    /** Kills the box and joins the loop whatever the kill says; the trigger is an error in any case. */
    method KillAndJoin(w: World) returns (failed: bool)
      requires LoopRuns(config, w) && !ArmTaken(config, w).LoopFinished? && Upto(config, w, trace, 4)
      modifies this
      ensures failed && Upto(config, w, trace, 6)
    {
      hide Upto;
      Happens(config, w, trace, Killed(w.killOk));
      trace := trace + [Killed(w.killOk)];
      Happens(config, w, trace, LoopJoined);
      trace := trace + [LoopJoined];
      failed := true;
    }

    /** The deferred part: record, sink, checkpoint, teardown, in that order, on every path. */
    method Finish(open: bool, outcome: RunOutcome, runFailed: bool, w: World) returns (failed: bool)
      requires Boxed(config, w) && Upto(config, w, trace, 6)
      requires open == RecordOpen(config, w) && outcome == OutcomeOf(config, w) && runFailed == !RunOk(config, w)
      modifies this
      ensures Lifecycle(config, w, trace, failed)
    {
      hide Upto;
      var recordErr := CloseRunRecord(open, outcome, runFailed, w);
      var sealErr := SealSink(w);
      if !runFailed && !recordErr && !sealErr {
        MaybeCreateCheckpoint(w);
      } else {
        Passes(config, w, trace, 9, 2);
      }
      Happens(config, w, trace, TornDown);
      trace := trace + [TornDown];
      failed := runFailed || recordErr || sealErr || !w.teardownOk;
      Complete(config, w, trace, failed);
    }

    /** The body after Create: the record, the loop and the select over its three arms. */
    method RunInside(w: World) returns (open: bool, outcome: RunOutcome, failed: bool)
      requires Boxed(config, w) && Upto(config, w, trace, 1)
      modifies this
      ensures Upto(config, w, trace, 6)
      ensures open == RecordOpen(config, w) && outcome == OutcomeOf(config, w) && failed == !RunOk(config, w)
    {
      hide Upto;
      outcome := OutcomeFailed;
      open, failed := OpenRunRecord(w);
      if failed { Passes(config, w, trace, 2, 4); return; }
      if open {
        if !w.commandOk { Passes(config, w, trace, 2, 4); return open, outcome, true; }
        Happens(config, w, trace, CommandWritten);
        trace := trace + [CommandWritten];
      } else {
        Passes(config, w, trace, 2, 1);
      }
      Happens(config, w, trace, LoopStarted);
      trace := trace + [LoopStarted];
      if w.arm.Cancelled? {
        failed := KillAndJoin(w);
        return;
      }
      if w.arm.TimerFired? && config.timeout {
        outcome := OutcomeTimedOut;
        failed := KillAndJoin(w);
        return;
      }
      Passes(config, w, trace, 4, 1);
      Happens(config, w, trace, LoopJoined);
      trace := trace + [LoopJoined];
      failed := !w.loopEnd.LoopOk?;
      if !failed { outcome := OutcomeCompleted; }
    }

    method Run(w: World) returns (failed: bool)
      requires trace == []
      modifies this
      ensures Lifecycle(config, w, trace, failed)
    {
      NothingYet(config, w);
      hide Upto, Lifecycle;
      if !config.box { Refused(config, w); return true; }
      if !config.loop { Refused(config, w); return true; }
      if config.blankTask { Refused(config, w); return true; }
      if !w.createOk { Refused(config, w); return true; }
      Happens(config, w, trace, Created);
      trace := trace + [Created];
      var open, outcome, runFailed := RunInside(w);
      failed := Finish(open, outcome, runFailed, w);
    }
  }

  lemma NothingYet(c: Config, w: World)
    ensures Upto(c, w, [], 0)
  {
  }

  lemma Refused(c: Config, w: World)
    requires !Boxed(c, w)
    ensures Lifecycle(c, w, [], true)
  {
  }

  lemma Complete(c: Config, w: World, trace: seq<Event>, failed: bool)
    requires Upto(c, w, trace, 12)
    requires failed == !(RunOk(c, w) && RecordOk(c, w) && SealOk(c, w) && w.teardownOk)
    ensures Lifecycle(c, w, trace, failed)
  {
    assert forall e: Event :: Rank(e) < 12;
  }
}
