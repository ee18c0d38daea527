/** Why a resume has to wait: at any moment that FleetResume does not call safe, it has a continuation in which a
    sub-goal once recorded completed is dispatched again. */
module FleetOverlap {
  import opened RunStore
  import opened Plans
  import opened Planner
  import opened RunJournal
  import opened Fleet
  import opened FleetResume
  import FleetTrace

  // ---------------------------------------------------------------- runs put together

  lemma {:induction false} ExecConcat(s: State, a: seq<Action>, b: seq<Action>)
    ensures Exec(s, a + b) == Exec(Exec(s, a), b)
  {
    if b == [] {
      assert a + b == a;
    } else {
      var n := |b| - 1;
      ExecConcat(s, a, b[..n]);
      assert (a + b)[..|a + b| - 1] == a + b[..n];
    }
  }

  lemma {:induction false} CarefulConcat(s: State, a: seq<Action>, b: seq<Action>, p: Plan, strict: bool)
    requires Careful(s, a, p, strict) && Careful(Exec(s, a), b, p, strict)
    ensures Careful(s, a + b, p, strict)
  {
    hide Next, Proper;
    if b == [] {
      assert a + b == a;
    } else {
      var n := |b| - 1;
      CarefulConcat(s, a, b[..n], p, strict);
      ExecConcat(s, a, b[..n]);
      assert (a + b)[..|a + b| - 1] == a + b[..n];
    }
  }

  predicate WorksOnly(acts: seq<Action>) { forall i | 0 <= i < |acts| :: acts[i].Work? }

  lemma {:induction false} WorksCareful(s: State, acts: seq<Action>, p: Plan, strict: bool)
    requires WorksOnly(acts)
    ensures Careful(s, acts, p, strict)
  {
    if acts != [] { WorksCareful(s, acts[..|acts| - 1], p, strict); }
  }

  lemma ExecOne(s: State, a: Action)
    ensures Exec(s, [a]) == Next(s, a)
  {
    assert [a][..0] == [];
  }

  // ---------------------------------------------------------------- one worker driven on its own

  /** The step that takes a worker on, with the answer that lets it through. */
  function Go(ph: Phase): Op {
    match ph
    case Fresh => Judge(true, false, Allow)
    case Judged(_, _) => Audit(true)
    case Cleared => Note(true)
    case Queued => Acquire
    case Holding => Check
    case Passed => Begin
    case Busy(_) => Return(true)
    case Returned(_) => Release
    case _ => Finish(true, "")
  }

  /** How far a worker is from the end. */
  function Rank(ph: Phase): nat {
    match ph
    case Fresh => 9
    case Judged(_, _) => 8
    case Cleared => 7
    case Queued => 6
    case Holding => 5
    case Passed => 4
    case Busy(_) => 3
    case Returned(_) => 2
    case Released(_) => 1
    case _ => 0
  }

  /** Everything but worker `w` and the permits is as it was, and the records as `rs`. */
  ghost predicate Drives(s: State, w: nat, e: State, ph: Phase, rs: Records) {
    && w < |s.workers| && e.workers == s.workers[w := s.workers[w].(phase := ph)]
    && e.jobs == s.jobs && e.cap == s.cap && e.records == rs
  }

  lemma DrivesOn(s: State, w: nat, t: State, ph: Phase, rs: Records, e: State, ph': Phase, rs': Records)
    requires Drives(s, w, t, ph, rs) && Drives(t, w, e, ph', rs')
    ensures Drives(s, w, e, ph', rs')
  {
  }

  /** The records once the worker's attempt is noted as running. */
  function Started(rs: Records, wk: Worker): Records { AttemptRecorded(rs, wk.goalID, wk.sub.task.id, Running, "") }

  lemma StartedAwaits(rs: Records, wk: Worker)
    ensures Awaiting(Started(rs, wk), wk.goalID) <==> Awaiting(rs, wk.goalID)
  {
  }

  /** A step of a worker before its dispatch, on a plan whose gate lets it through. */
  lemma StepUp(s: State, w: nat, p: Plan)
    requires w < |s.workers| && s.workers[w].job < |s.jobs| && s.jobs[s.workers[w].job].plan == p
    requires s.workers[w].sub in p.subGoals && Spawnable(s.workers[w].sub)
    requires var ph := s.workers[w].phase; Rank(ph) > 4 && (ph.Judged? ==> ph.decision == Allow)
    requires (s.workers[w].phase.Queued? ==> s.held < s.cap) && !Awaiting(s.records, s.workers[w].goalID)
    ensures var ph, e := s.workers[w].phase, Next(s, Work(w, Go(s.workers[w].phase)));
            && Drives(s, w, e, e.workers[w].phase, if ph.Cleared? then Started(s.records, s.workers[w]) else s.records)
            && Rank(e.workers[w].phase) == Rank(ph) - 1
            && (e.workers[w].phase.Judged? ==> e.workers[w].phase.decision == Allow)
            && e.held == s.held + (if ph.Queued? then 1 else 0)
  {
    AuthorizesIff(p, s.workers[w].sub.recipe);
    AuthorizesIff(p, s.workers[w].sub.task.id);
    hide Authorizes, AttemptRecorded;
  }

  /** A step of a worker that holds a permit: it gives the permit back in the end and writes nothing. */
  lemma StepOut(s: State, w: nat)
    requires w < |s.workers| && s.workers[w].job < |s.jobs| && Holds(s.workers[w].phase)
    ensures var ph, e := s.workers[w].phase, Next(s, Work(w, Go(s.workers[w].phase)));
            && Drives(s, w, e, e.workers[w].phase, s.records) && Rank(e.workers[w].phase) < Rank(ph)
            && (Holds(e.workers[w].phase) || e.workers[w].phase.Released?)
            && e.held == (if ph.Returned? && s.held > 0 then s.held - 1 else s.held)
            && (ph.Passed? || ph == Busy(false) ==>
                  e.workers[w].phase == if ph.Passed? then Busy(false) else Returned(Worked))
            && (ph == Busy(true) ==> e.workers[w].phase == Returned(Asked))
            && (ph.Returned? ==> e.workers[w].phase == Released(ph.ending))
            && (ph.Holding? && !Awaiting(s.records, s.workers[w].goalID) ==> e.workers[w].phase == Passed)
  {
  }

  /** Where a worker that holds a permit ends up when driven to its release. */
  function EndOf(ph: Phase): Ending {
    match ph
    case Busy(asked) => if asked then Asked else Worked
    case Returned(e) => e
    case _ => Worked
  }

  lemma {:induction false} ToReleased(s: State, w: nat) returns (acts: seq<Action>, ending: Ending)
    requires w < |s.workers| && s.workers[w].job < |s.jobs| && Holds(s.workers[w].phase) && s.held > 0
    ensures WorksOnly(acts) && Drives(s, w, Exec(s, acts), Released(ending), s.records)
    ensures Exec(s, acts).held == s.held - 1
    ensures !s.workers[w].phase.Holding? || !Awaiting(s.records, s.workers[w].goalID) ==>
              ending == EndOf(s.workers[w].phase)
    decreases Rank(s.workers[w].phase)
  {
    StepOut(s, w);
    var a := Work(w, Go(s.workers[w].phase));
    var t := Next(s, a);
    hide Next, Awaiting;
    ExecOne(s, a);
    if t.workers[w].phase.Released? {
      acts, ending := [a], t.workers[w].phase.ending;
    } else {
      var rest;
      rest, ending := ToReleased(t, w);
      acts := [a] + rest;
      ExecConcat(s, [a], rest);
      DrivesOn(s, w, t, t.workers[w].phase, s.records, Exec(t, rest), Released(ending), s.records);
    }
  }

  lemma {:induction false} ToPassed(s: State, w: nat, p: Plan) returns (acts: seq<Action>)
    requires w < |s.workers| && s.workers[w].job < |s.jobs| && s.jobs[s.workers[w].job].plan == p
    requires s.workers[w].sub in p.subGoals && Spawnable(s.workers[w].sub)
    requires var ph := s.workers[w].phase; Rank(ph) >= 4 && (ph.Judged? ==> ph.decision == Allow)
    requires (Rank(s.workers[w].phase) > 5 ==> s.held < s.cap) && !Awaiting(s.records, s.workers[w].goalID)
    ensures WorksOnly(acts)
    ensures Drives(s, w, Exec(s, acts), Passed,
                   if Rank(s.workers[w].phase) >= 7 then Started(s.records, s.workers[w]) else s.records)
    ensures Exec(s, acts).held == s.held + if Rank(s.workers[w].phase) > 5 then 1 else 0
    decreases Rank(s.workers[w].phase)
  {
    if s.workers[w].phase.Passed? {
      acts := [];
      assert s.workers == s.workers[w := s.workers[w].(phase := Passed)];
    } else {
      StepUp(s, w, p);
      StartedAwaits(s.records, s.workers[w]);
      var a := Work(w, Go(s.workers[w].phase));
      var t := Next(s, a);
      hide Next, Awaiting, Started;
      ExecOne(s, a);
      var rest := ToPassed(t, w, p);
      acts := [a] + rest;
      ExecConcat(s, [a], rest);
      assert Started(t.records, t.workers[w]) == Started(t.records, s.workers[w]) by {
        StartedSame(t.records, s.workers[w], t.workers[w].phase);
      }
      DrivesOn(s, w, t, t.workers[w].phase, t.records, Exec(t, rest), Passed, Exec(t, rest).records);
    }
  }

  lemma StartedSame(rs: Records, wk: Worker, ph: Phase)
    ensures Started(rs, wk.(phase := ph)) == Started(rs, wk)
  {
  }

  // ---------------------------------------------------------------- room for one more

  /** What every reachable state has: permits that add up, at least one of them, and a job for every worker. */
  ghost predicate Grounded(s: State) {
    Permits(s) && s.cap >= 1 && forall w | 0 <= w < |s.workers| :: s.workers[w].job < |s.jobs|
  }

  lemma ReachableGrounded(s0: State, acts: seq<Action>)
    requires Initial(s0)
    ensures Grounded(Exec(s0, acts))
  {
    CapHolds(s0, acts);
    FleetTrace.RunSound(s0, acts);
    hide Exec, Permits;
  }

  lemma {:induction false} WorksGrounded(s: State, acts: seq<Action>)
    requires Grounded(s) && WorksOnly(acts)
    ensures Grounded(Exec(s, acts))
  {
    hide WorkerStep, Permits;
    if acts != [] {
      var n := |acts| - 1;
      WorksGrounded(s, acts[..n]);
      PermitsKept(Exec(s, acts[..n]), acts[n]);
    }
  }

  /** Workers other than `w` that hold no permit are as they were, and so are jobs and cap. */
  ghost predicate Apart(s: State, e: State, w: nat) {
    && |e.workers| == |s.workers| && e.jobs == s.jobs && e.cap == s.cap
    && forall v | 0 <= v < |s.workers| && v != w && !Holds(s.workers[v].phase) :: e.workers[v] == s.workers[v]
  }

  lemma ApartOn(s: State, t: State, e: State, w: nat)
    requires Apart(s, t, w) && Apart(t, e, w)
    ensures Apart(s, e, w)
  {
    hide Holds;
  }

  lemma DrivesApart(s: State, w: nat, e: State, ph: Phase, rs: Records)
    requires Drives(s, w, e, ph, rs)
    ensures Apart(s, e, w) && e.workers[w] == s.workers[w].(phase := ph)
  {
  }

  lemma SomeHolder(ws: seq<Worker>) returns (h: nat)
    requires Count(ws, HOLDS) > 0
    ensures h < |ws| && Holds(ws[h].phase)
  {
    if forall w | w in ws :: !HOLDS(w) { CountZero(ws, HOLDS); }
    var x :| x in ws && HOLDS(x);
    h :| 0 <= h < |ws| && ws[h] == x;
  }

  /** A permit can always be freed without a write, by driving one of its holders to its release. */
  lemma Free(s: State) returns (acts: seq<Action>)
    requires Grounded(s)
    ensures WorksOnly(acts) && Grounded(Exec(s, acts)) && Exec(s, acts).held < Exec(s, acts).cap
    ensures Exec(s, acts).records == s.records && forall w: nat :: Apart(s, Exec(s, acts), w)
    ensures forall w | 0 <= w < |s.workers| && !Holds(s.workers[w].phase) ::
              w < |Exec(s, acts).workers| && Exec(s, acts).workers[w] == s.workers[w]
  {
    if s.held < s.cap {
      acts := [];
    } else {
      var h := SomeHolder(s.workers);
      var ending;
      acts, ending := ToReleased(s, h);
      WorksGrounded(s, acts);
      hide Exec;
    }
  }

  // ---------------------------------------------------------------- a worker driven to its completion

  /** The record of the goal is the plan's, with one entry per task, and the goal does not await approval. */
  ghost predicate Fair(rs: Records, p: Plan) {
    && p.goalID in rs && rs[p.goalID].plan == PlanJson(p) && OneEntryPerTask(rs[p.goalID]) && !Awaiting(rs, p.goalID)
  }

  lemma FairAttempt(rs: Records, p: Plan, t: string, status: Status, detail: string)
    requires Fair(rs, p)
    ensures var now := AttemptRecorded(rs, p.goalID, t, status, detail);
            && Fair(now, p)
            && DoneIn(now, p) == if status == Status.Completed then DoneIn(rs, p) + {t} else DoneIn(rs, p) - {t}
  {
    RecordingOne(rs, p.goalID, t, status, detail);
    RecordedCompleted(rs, p.goalID, t, status, detail);
    hide CompletedTasks, OneEntryPerTask, PlanJson;
  }

  /** Worker `w` belongs to the plan and its gate lets it through. */
  predicate Able(s: State, w: nat, p: Plan) {
    && w < |s.workers| && s.workers[w].goalID == p.goalID && s.workers[w].job < |s.jobs|
    && s.jobs[s.workers[w].job].plan == p && s.workers[w].sub in p.subGoals && Spawnable(s.workers[w].sub)
  }

  predicate CanComplete(ph: Phase) {
    match ph
    case Judged(d, _) => d == Allow
    case Busy(asked) => !asked
    case Returned(e) => e == Worked
    case Released(e) => e == Worked
    case Done(_, _) => false
    case Dead => false
    case _ => true
  }

  lemma ToWorked(s: State, w: nat, p: Plan) returns (acts: seq<Action>)
    requires Grounded(s) && Able(s, w, p) && s.workers[w].phase.Passed? && s.held > 0
    ensures WorksOnly(acts) && Drives(s, w, Exec(s, acts), Released(Worked), s.records)
    ensures Exec(s, acts).held == s.held - 1
  {
    var ending;
    acts, ending := ToReleased(s, w);
  }

  /** From any phase that can still complete, the worker can be driven to Released(Worked). */
  lemma ToRelease(s: State, w: nat, p: Plan) returns (acts: seq<Action>)
    requires Grounded(s) && Able(s, w, p) && CanComplete(s.workers[w].phase) && Fair(s.records, p)
    ensures WorksOnly(acts)
    ensures var e := Exec(s, acts);
            && Grounded(e) && Apart(s, e, w) && e.workers[w] == s.workers[w].(phase := Released(Worked))
            && Fair(e.records, p)
  {
    var ph := s.workers[w].phase;
    if ph.Released? {
      acts := [];
    } else if Rank(ph) <= 5 {
      HeldPositive(s, w);
      var ending;
      acts, ending := ToReleased(s, w);
      WorksGrounded(s, acts);
      hide Exec;
      DrivesApart(s, w, Exec(s, acts), Released(ending), s.records);
    } else {
      acts := ToReleaseUp(s, w, p);
    }
  }

  lemma ToReleaseUp(s: State, w: nat, p: Plan) returns (acts: seq<Action>)
    requires Grounded(s) && Able(s, w, p) && CanComplete(s.workers[w].phase) && Fair(s.records, p)
    requires Rank(s.workers[w].phase) > 5
    ensures WorksOnly(acts)
    ensures var e := Exec(s, acts);
            && Grounded(e) && Apart(s, e, w) && e.workers[w] == s.workers[w].(phase := Released(Worked))
            && Fair(e.records, p)
  {
    hide Exec, Fair, Grounded, PlanJson;
    var a, b := ToPassedFree(s, w, p);
    var t := Exec(s, a + b);
    assert Able(t, w, p);
    HeldPositive(t, w);
    var c := ToWorked(t, w, p);
    WorksGrounded(t, c);
    DrivesApart(t, w, Exec(t, c), Released(Worked), t.records);
    acts := a + b + c;
    ExecConcat(s, a + b, c);
    ApartOn(s, t, Exec(t, c), w);
  }

  /** A worker before its dispatch can be driven to it, after freeing a permit. */
  lemma ToPassedFree(s: State, w: nat, p: Plan) returns (a: seq<Action>, b: seq<Action>)
    requires Grounded(s) && Able(s, w, p) && CanComplete(s.workers[w].phase) && Fair(s.records, p)
    requires Rank(s.workers[w].phase) > 5
    ensures WorksOnly(a + b)
    ensures var e := Exec(s, a + b);
            Grounded(e) && Apart(s, e, w) && e.workers[w] == s.workers[w].(phase := Passed) && Fair(e.records, p)
  {
    hide Exec, Grounded, PlanJson, OneEntryPerTask;
    a := Free(s);
    var t := Exec(s, a);
    assert Apart(s, t, w) && t.workers[w] == s.workers[w];
    b := ToPassed(t, w, p);
    WorksGrounded(t, b);
    FairAttempt(t.records, p, s.workers[w].sub.task.id, Running, "");
    hide Fair;
    DrivesApart(t, w, Exec(t, b), Passed, Exec(t, b).records);
    ExecConcat(s, a, b);
    ApartOn(s, t, Exec(t, b), w);
  }

  lemma HeldPositive(s: State, w: nat)
    requires Grounded(s) && w < |s.workers| && Holds(s.workers[w].phase)
    ensures s.held > 0
  {
    CountUpdate(s.workers, w, s.workers[w].(phase := Dead), HOLDS);
  }

  lemma FinishEffect(s: State, w: nat)
    requires w < |s.workers| && s.workers[w].job < |s.jobs| && s.workers[w].phase.Released?
    ensures var wk, e := s.workers[w], WorkerStep(s, w, Finish(true, ""));
            && e.phase.Done?
            && e.records ==
                 match wk.phase.ending
                 case Paused => s.records
                 case Asked =>
                   AttemptRecorded(s.records, wk.goalID, wk.sub.task.id, AwaitingApproval, "requires human approval")
                 case Broke => AttemptRecorded(s.records, wk.goalID, wk.sub.task.id, Status.Failed, "")
                 case Worked => AttemptRecorded(s.records, wk.goalID, wk.sub.task.id, Status.Completed, "")
  {
    hide AttemptRecorded;
  }

  lemma FinishStep(s: State, w: nat, p: Plan)
    requires w < |s.workers| && s.workers[w].goalID == p.goalID && s.workers[w].job < |s.jobs|
    requires s.workers[w].phase.Released? && s.workers[w].phase.ending != Paused && Fair(s.records, p)
    ensures var e, ending, t := Next(s, Work(w, Finish(true, ""))), s.workers[w].phase.ending, s.workers[w].sub.task.id;
            && Apart(s, e, w) && e.workers[w].phase.Done? && Fair(e.records, p)
            && DoneIn(e.records, p) ==
                 if ending == Worked then DoneIn(s.records, p) + {t} else DoneIn(s.records, p) - {t}
  {
    var t := s.workers[w].sub.task.id;
    hide AttemptRecorded, Fair, DoneIn, WorkerStep;
    FinishEffect(s, w);
    match s.workers[w].phase.ending
    case Asked => FairAttempt(s.records, p, t, AwaitingApproval, "requires human approval");
    case Broke => FairAttempt(s.records, p, t, Status.Failed, "");
    case Worked => FairAttempt(s.records, p, t, Status.Completed, "");
  }

  /** From any phase that can still complete, the worker can be driven to record its task completed. */
  lemma ToCompleted(s: State, w: nat, p: Plan) returns (acts: seq<Action>)
    requires Grounded(s) && Able(s, w, p) && CanComplete(s.workers[w].phase) && Fair(s.records, p)
    ensures WorksOnly(acts)
    ensures var e := Exec(s, acts);
            && Grounded(e) && Apart(s, e, w) && Fair(e.records, p) && s.workers[w].sub.task.id in DoneIn(e.records, p)
  {
    var a := ToRelease(s, w, p);
    var t, f := Exec(s, a), Work(w, Finish(true, ""));
    FinishStep(t, w, p);
    ExecOne(t, f);
    acts := a + [f];
    ExecConcat(s, a, [f]);
    WorksGrounded(t, [f]);
    hide Exec, Next, Fair, Grounded;
    ApartOn(s, t, Exec(t, [f]), w);
  }

  // ---------------------------------------------------------------- dispatched again

  /** After `acts` worker `w` of the plan stands before its dispatch, on a task that was recorded completed before. */
  ghost predicate Again(s: State, acts: seq<Action>, w: nat, p: Plan) {
    var e := Exec(s, acts);
    && w < |e.workers| && e.workers[w].goalID == p.goalID && e.workers[w].phase.Passed?
    && e.workers[w].sub.task.id in Ever(s, acts, p)
    && Next(e, Work(w, Begin)).trace == e.trace + [Start(w, p.goalID)]
  }

  /** Some continuation dispatches a task once recorded completed, without any further resume at an unsafe moment. */
  ghost predicate Redispatches(s: State, p: Plan) {
    exists acts, w :: Careful(s, acts, p, false) && Again(s, acts, w, p)
  }

  lemma {:induction false} CarefulLoosens(s: State, acts: seq<Action>, p: Plan)
    requires Careful(s, acts, p, true)
    ensures Careful(s, acts, p, false)
  {
    hide Exec, Calm;
    if acts != [] { CarefulLoosens(s, acts[..|acts| - 1], p); }
  }

  /** A resume at a safe moment has no such continuation. */
  lemma SafeNever(s: State, p: Plan, saved: bool)
    requires Pursued(s, p) && SafeNow(s, p)
    ensures !Redispatches(Next(s, Resume(p.goalID, saved)), p)
  {
    hide Exec, Pursued, SafeNow, Next, Careful;
    var e := Next(s, Resume(p.goalID, saved));
    var ever := DoneIn(s.records, p);
    StepInv(s, Resume(p.goalID, saved), p, ever);
    ever := ever + DoneIn(e.records, p);
    forall acts, w: nat | Careful(e, acts, p, false) ensures !Again(e, acts, w, p) {
      RunInv(e, acts, p, ever);
      var f := Exec(e, acts);
      if w < |f.workers| && f.workers[w].goalID == p.goalID && f.workers[w].phase.Passed? {
        InvPassed(f, p, ever + Ever(e, acts, p), w);
      }
    }
  }

  lemma BeginStarts(s: State, w: nat, p: Plan)
    requires Able(s, w, p) && s.workers[w].phase.Passed?
    ensures Next(s, Work(w, Begin)).trace == s.trace + [Start(w, p.goalID)]
  {
  }

  /** Drives `w` to its dispatch behind a run in which its task was completed. */
  lemma LastLeg(s: State, acts: seq<Action>, m: nat, w: nat, p: Plan)
    requires m <= |acts| && Careful(s, acts, p, true)
    requires var t := Exec(s, acts);
             && Grounded(t) && Able(t, w, p) && t.workers[w].phase.Fresh? && Fair(t.records, p)
             && t.workers[w].sub.task.id in DoneIn(Exec(s, acts[..m]).records, p)
    ensures Redispatches(s, p)
  {
    var t := Exec(s, acts);
    var a, b := ToPassedFree(t, w, p);
    var all := acts + (a + b);
    ExecConcat(s, acts, a + b);
    WorksCareful(t, a + b, p, true);
    CarefulConcat(s, acts, a + b, p, true);
    CarefulLoosens(s, all, p);
    EverHas(s, all, m, p);
    assert all[..m] == acts[..m];
    hide Exec, Careful, Ever, DoneIn, Fair, Grounded;
    var e := Exec(s, all);
    assert Able(e, w, p);
    BeginStarts(e, w, p);
    assert Again(s, all, w, p);
  }

  /** A worker that can still complete does, and the fresh one on the same task is dispatched after it. */
  lemma CompletesFirst(s: State, v: nat, u: nat, p: Plan)
    requires Grounded(s) && Fair(s.records, p) && Able(s, v, p) && Able(s, u, p) && u != v
    requires CanComplete(s.workers[v].phase) && s.workers[u].phase.Fresh?
    requires s.workers[u].sub.task.id == s.workers[v].sub.task.id
    ensures Redispatches(s, p)
  {
    var a := ToCompleted(s, v, p);
    WorksCareful(s, a, p, true);
    hide Exec, Careful, DoneIn, Fair, Grounded, Redispatches;
    var t := Exec(s, a);
    assert t.workers[u] == s.workers[u] && Able(t, u, p);
    assert a[..|a|] == a;
    LastLeg(s, a, |a|, u, p);
  }

  /** A worker on its way to a failed or unanswered attempt. */
  predicate WillFail(ph: Phase) {
    ph == Busy(true) || ((ph.Returned? || ph.Released?) && (ph.ending == Asked || ph.ending == Broke))
  }

  lemma ToFailing(s: State, v: nat, p: Plan) returns (acts: seq<Action>)
    requires Grounded(s) && Able(s, v, p) && WillFail(s.workers[v].phase)
    ensures WorksOnly(acts)
    ensures var e := Exec(s, acts);
            && Grounded(e) && Apart(s, e, v) && e.records == s.records && Able(e, v, p)
            && e.workers[v].phase.Released? && e.workers[v].phase.ending in {Asked, Broke}
            && e.workers[v].sub == s.workers[v].sub
  {
    if s.workers[v].phase.Released? {
      acts := [];
    } else {
      HeldPositive(s, v);
      var ending;
      acts, ending := ToReleased(s, v);
      WorksGrounded(s, acts);
      hide Exec;
      DrivesApart(s, v, Exec(s, acts), Released(ending), s.records);
    }
  }

  lemma CrashFacts(s: State, p: Plan)
    requires Grounded(s)
    ensures var e := Next(s, Crash);
            && Grounded(e) && Calm(e, p) && e.records == s.records && |e.jobs| == |s.jobs|
  {
    PermitsKept(s, Crash);
    var e := Crashed(s);
    assert forall w | 0 <= w < |s.workers| :: !Live(e.workers[w].phase) && e.workers[w].job == s.workers[w].job;
    forall wk | wk in e.workers ensures !Engaged(wk, p) { var w :| 0 <= w < |e.workers| && e.workers[w] == wk; }
    hide Permits;
  }

  /** A resume gives every unfinished sub-goal a fresh worker. */
  lemma ResumeFacts(s: State, p: Plan, saved: bool, sub: SubGoal) returns (w: nat)
    requires Grounded(s) && p.goalID in s.records && s.records[p.goalID].plan == PlanJson(p)
    requires sub in p.subGoals && sub.task.id !in DoneIn(s.records, p) && Spawnable(sub)
    ensures var e := Next(s, Resume(p.goalID, saved));
            && Grounded(e) && e.records == s.records && w < |e.workers| && w >= |s.workers|
            && e.workers[w] == Worker(|s.jobs|, p.goalID, sub, Fresh) && Able(e, w, p)
            && (forall v | 0 <= v < |s.workers| :: e.workers[v] == s.workers[v])
            && (forall j | 0 <= j < |s.jobs| :: j < |e.jobs| && e.jobs[j] == s.jobs[j])
  {
    PlanRoundTrip(p);
    PermitsKept(s, Resume(p.goalID, saved));
    var rest := Remaining(p.subGoals, DoneIn(s.records, p));
    assert sub in rest;
    var e := Next(s, Resume(p.goalID, saved));
    assert e == Spawned(s, p, rest);
    hide Remaining, Next, Spawned, PlanJson, PlanOf, DoneIn, Permits;
    w := SpawnFacts(s, p, rest, sub);
  }

  lemma SpawnFacts(s: State, p: Plan, subs: seq<SubGoal>, sub: SubGoal) returns (w: nat)
    requires sub in subs && sub in p.subGoals && Spawnable(sub)
    requires forall v | 0 <= v < |s.workers| :: s.workers[v].job < |s.jobs|
    ensures var e := Spawned(s, p, subs);
            && w < |e.workers| && w >= |s.workers| && e.workers[w] == Worker(|s.jobs|, p.goalID, sub, Fresh)
            && Able(e, w, p)
            && (forall v | 0 <= v < |s.workers| :: e.workers[v] == s.workers[v])
            && (forall j | 0 <= j < |s.jobs| :: j < |e.jobs| && e.jobs[j] == s.jobs[j])
            && (forall v | 0 <= v < |e.workers| :: e.workers[v].job < |e.jobs|)
            && e.records == s.records && e.cap == s.cap
  {
    var more := SpawnParts(s, p, subs);
    hide Spawned;
    var e := Spawned(s, p, subs);
    var i :| 0 <= i < |subs| && subs[i] == sub;
    w := |s.workers| + i;
    assert e.workers[w] == more[i] && e.jobs[|s.jobs|] == Job(p, subs, |s.workers|, Joining);
    forall v | 0 <= v < |e.workers| ensures e.workers[v].job < |e.jobs| {
      if v >= |s.workers| {
        assert e.workers[v] == more[v - |s.workers|];
      } else {
        assert e.workers[v] == s.workers[v];
      }
    }
  }

  /** A worker that will fail waits while the fresh one on the same task completes it, then overwrites the entry; after
      a crash the task is resumed, as it no longer counts as completed. */
  lemma FailsLast(s: State, v: nat, u: nat, p: Plan)
    requires Grounded(s) && Fair(s.records, p) && Able(s, v, p) && Able(s, u, p) && u != v
    requires WillFail(s.workers[v].phase) && s.workers[u].phase.Fresh?
    requires s.workers[u].sub.task.id == s.workers[v].sub.task.id
    ensures Redispatches(s, p)
  {
    hide Exec, Careful, DoneIn, Fair, Grounded, Redispatches, Next;
    var a := ToFailing(s, v, p);
    var s1 := Exec(s, a);
    assert s1.workers[u] == s.workers[u] && Able(s1, u, p);
    var b := ToCompleted(s1, u, p);
    var s2 := Exec(s1, b);
    assert s2.workers[v] == s1.workers[v];
    ExecConcat(s, a, b);
    WorksCareful(s, a + b, p, true);
    var f, sub := Work(v, Finish(true, "")), s.workers[v].sub;
    FinishStep(s2, v, p);
    Overwritten(s, a + b, f, p, sub);
  }

  /** From a point where the task was completed and then taken back: crash, resume, dispatch. */
  lemma Overwritten(s: State, acts: seq<Action>, f: Action, p: Plan, sub: SubGoal)
    requires Careful(s, acts, p, true) && f.Work? && Grounded(Exec(s, acts))
    requires sub.task.id in DoneIn(Exec(s, acts).records, p) && sub in p.subGoals && Spawnable(sub)
    requires var t := Next(Exec(s, acts), f); Fair(t.records, p) && sub.task.id !in DoneIn(t.records, p)
    ensures Redispatches(s, p)
  {
    var e := Exec(s, acts);
    var tail := [f, Crash, Resume(p.goalID, true)];
    var s3 := Next(e, f);
    var s4 := Next(s3, Crash);
    var s5 := Next(s4, Resume(p.goalID, true));
    WorksGrounded(e, [f]);
    ExecOne(e, f);
    CrashFacts(s3, p);
    var w := ResumeFacts(s4, p, true, sub);
    TailRuns(e, f, p);
    ExecConcat(s, acts, tail);
    CarefulConcat(s, acts, tail, p, true);
    assert (acts + tail)[..|acts|] == acts;
    hide Exec, Careful, DoneIn, Fair, Grounded, Redispatches, Next;
    LastLeg(s, acts + tail, |acts|, w, p);
  }

  lemma TailRuns(e: State, f: Action, p: Plan)
    requires f.Work? && Calm(Next(Next(e, f), Crash), p)
    ensures var tail := [f, Crash, Resume(p.goalID, true)];
            Careful(e, tail, p, true) && Exec(e, tail) == Next(Next(Next(e, f), Crash), Resume(p.goalID, true))
  {
    var tail := [f, Crash, Resume(p.goalID, true)];
    hide Next, Calm;
    assert tail[..2] == [f, Crash] && [f, Crash][..1] == [f] && [f][..0] == [];
    assert Exec(e, [f]) == Next(e, f);
    assert Exec(e, [f, Crash]) == Next(Next(e, f), Crash);
    assert Careful(e, [f], p, true) && Careful(e, [f, Crash], p, true);
  }

  /** A resume at any other moment has such a continuation. */
  lemma UnsafeAgain(s: State, p: Plan, saved: bool)
    requires Pursued(s, p) && Grounded(s) && !SafeNow(s, p)
    ensures Redispatches(Next(s, Resume(p.goalID, saved)), p)
  {
    var v := SomeEngaged(s, p);
    FairOf(s, p);
    var wk := s.workers[v];
    hide Pursued, SafeNow;
    var u := ResumeFacts(s, p, saved, wk.sub);
    var e := Next(s, Resume(p.goalID, saved));
    hide Next, Redispatches, Fair, Grounded, DoneIn;
    assert Able(e, v, p);
    if CanComplete(wk.phase) { CompletesFirst(e, v, u, p); } else { FailsLast(e, v, u, p); }
  }

  lemma SomeEngaged(s: State, p: Plan) returns (v: nat)
    requires Pursued(s, p) && !Calm(s, p)
    ensures Able(s, v, p) && s.workers[v].sub.task.id !in DoneIn(s.records, p)
    ensures CanComplete(s.workers[v].phase) || WillFail(s.workers[v].phase)
  {
    hide PlansKeyed, RecordOk, DoneIn, JobsOk, Distinct;
    var wk :| wk in s.workers && Engaged(wk, p);
    v :| 0 <= v < |s.workers| && s.workers[v] == wk;
    BelongsAt(s.workers, s.jobs, p, v);
    EngagedAt(s.workers, p, DoneIn(s.records, p), v);
    assert LiveFor(wk, p);
  }

  lemma FairOf(s: State, p: Plan)
    requires Pursued(s, p) && !Awaiting(s.records, p.goalID)
    ensures Fair(s.records, p)
  {
  }

  /** Exactly when is a resume of an admitted plan safe? When no worker of its goal can still write its attempt, or the
      goal awaits approval. At any other moment some continuation dispatches a task once recorded completed. */
  lemma ResumeSafeIff(s: State, p: Plan, saved: bool)
    requires Pursued(s, p) && Grounded(s)
    ensures Redispatches(Next(s, Resume(p.goalID, saved)), p) <==> !SafeNow(s, p)
  {
    hide Redispatches, Next, Pursued, SafeNow;
    if SafeNow(s, p) { SafeNever(s, p, saved); } else { UnsafeAgain(s, p, saved); }
  }

  /** It is reached from the start: admit a plan, resume it twice, and some continuation dispatches a completed task. */
  lemma OverlapFromStart(s0: State, p: Plan, sub: SubGoal)
    requires Initial(s0) && PlansKeyed(s0.records) && Distinct(TaskIDs(p.subGoals)) && sub in p.subGoals
    requires Spawnable(sub)
    ensures exists acts, w :: Again(s0, acts, w, p)
  {
    var g := p.goalID;
    var s1 := Next(s0, AdmitPlan(p, true));
    AdmittedFacts(s0, p);
    FirstResume(s1, p, sub);
    hide Next, Pursued, SafeNow, Grounded, Initial, DoneIn, Careful, Again, Redispatches, Exec, TwiceResumed, Calm;
    hide Awaiting;
    var s2 := Next(s1, Resume(g, true));
    UnsafeAgain(s2, p, true);
    var s3 := Next(s2, Resume(g, true));
    var acts, v := Witness(s3, p);
    StartRuns(s0, p);
    AgainBehind(s0, TwiceResumed(p), acts, v, p);
  }

  function TwiceResumed(p: Plan): seq<Action> { [AdmitPlan(p, true), Resume(p.goalID, true), Resume(p.goalID, true)] }

  lemma Witness(s: State, p: Plan) returns (acts: seq<Action>, w: nat)
    requires Redispatches(s, p)
    ensures Careful(s, acts, p, false) && Again(s, acts, w, p)
  {
    hide Careful, Again;
    acts, w :| Careful(s, acts, p, false) && Again(s, acts, w, p);
  }

  lemma AdmittedFacts(s0: State, p: Plan)
    requires Initial(s0) && PlansKeyed(s0.records) && Distinct(TaskIDs(p.subGoals))
    ensures var s1 := Next(s0, AdmitPlan(p, true));
            && Pursued(s1, p) && Calm(s1, p) && Grounded(s1) && !Awaiting(s1.records, p.goalID)
            && DoneIn(s1.records, p) == {}
  {
    hide PlansKeyed, Pursued, Admitted, Awaiting, DoneIn, Distinct, TaskIDs;
    AdmittedIsPursued(s0, p);
    AdmittedRecord(s0.records, p);
  }

  lemma AdmittedRecord(rs: Records, p: Plan)
    ensures !Awaiting(Admitted(rs, p), p.goalID) && DoneIn(Admitted(rs, p), p) == {}
  {
    hide PlanJson;
  }

  lemma FirstResume(s: State, p: Plan, sub: SubGoal)
    requires Pursued(s, p) && Calm(s, p) && Grounded(s) && !Awaiting(s.records, p.goalID) && DoneIn(s.records, p) == {}
    requires sub in p.subGoals && Spawnable(sub)
    ensures var e := Next(s, Resume(p.goalID, true)); Pursued(e, p) && Grounded(e) && !SafeNow(e, p)
  {
    StepKeeps(s, Resume(p.goalID, true), p);
    FairOf(s, p);
    hide Pursued, DoneIn, Next, Grounded, PlanJson, OneEntryPerTask;
    var w := ResumeFacts(s, p, true, sub);
    var e := Next(s, Resume(p.goalID, true));
    assert Engaged(e.workers[w], p) && e.workers[w] in e.workers;
  }

  lemma StartRuns(s0: State, p: Plan)
    ensures var g := p.goalID;
            Exec(s0, TwiceResumed(p)) == Next(Next(Next(s0, AdmitPlan(p, true)), Resume(g, true)), Resume(g, true))
  {
    hide Next;
    var a, b := AdmitPlan(p, true), Resume(p.goalID, true);
    assert [a, b, b][..2] == [a, b] && [a, b][..1] == [a] && [a][..0] == [];
    assert Exec(s0, [a]) == Next(s0, a);
    assert Exec(s0, [a, b]) == Next(Next(s0, a), b);
  }

  lemma AgainBehind(s: State, start: seq<Action>, acts: seq<Action>, w: nat, p: Plan)
    requires Again(Exec(s, start), acts, w, p)
    ensures Again(s, start + acts, w, p)
  {
    ExecConcat(s, start, acts);
    EverBehind(s, start, acts, p);
    hide Exec, Ever, Next;
  }

  lemma {:induction false} EverBehind(s: State, start: seq<Action>, acts: seq<Action>, p: Plan)
    ensures Ever(Exec(s, start), acts, p) <= Ever(s, start + acts, p)
  {
    hide DoneIn, Next;
    if acts == [] {
      assert start + acts == start;
    } else {
      var n := |acts| - 1;
      EverBehind(s, start, acts[..n], p);
      ExecConcat(s, start, acts);
      assert (start + acts)[..|start + acts| - 1] == start + acts[..n];
    }
  }
}
