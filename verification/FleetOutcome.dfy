/** Why a worker reports what it reports, over every interleaving: the one step that decided it, what it was judged
    by before it could start, and what each of its steps leaves in the run journal. */
module FleetOutcome {
  import opened Json
  import opened RunStore
  import opened Plans
  import opened Planner
  import opened RunJournal
  import opened Fleet
  import FleetTrace

  /** What can be settled about a worker: that it may go on to its dispatch, and what it reports. */
  datatype Mark = Clears | Tells(detail: Detail)

  /** The step that settles it. */
  ghost predicate Makes(s: State, w: nat, op: Op, m: Mark)
    requires w < |s.workers| && s.workers[w].job < |s.jobs|
  {
    var wk, plan := s.workers[w], s.jobs[s.workers[w].job].plan;
    match (wk.phase, op)
    case (Fresh, Judge(known, selfRepo, verdict)) =>
      if !known then m == Tells(UnknownRecipe)
      else
        && m == Clears && !selfRepo && verdict == Allow
        && Declares(plan, wk.sub.recipe) && Declares(plan, wk.sub.task.id)
    case (Judged(d, why), Audit(appended)) =>
      d != Allow && m == Tells(if appended then Denied(why) else NotAudited)
    case (Queued, Cancel) => m == Tells(Ended(Broke))
    case (Holding, Check) => Awaiting(s.records, wk.goalID) && m == Tells(Ended(Paused))
    case (Busy(asked), Return(ok)) => m == Tells(Ended(if asked then Asked else if ok then Worked else Broke))
    case _ => false
  }

  /** What the phase of a worker says has been settled. */
  function Marks(p: Phase): set<Mark> {
    match p
    case Fresh => {}
    case Judged(d, _) => if d == Allow then {Clears} else {}
    case Returned(e) => {Clears, Tells(Ended(e))}
    case Released(e) => {Clears, Tells(Ended(e))}
    case Done(r, _) => if r.detail.Ended? then {Clears, Tells(r.detail)} else {Tells(r.detail)}
    case Dead => {}
    case _ => {Clears}
  }

  predicate Honest(p: Phase) { p.Done? ==> (p.report.success <==> p.report.detail == Ended(Worked)) }

  /** One step settles exactly what it is said to, and unsettles nothing. */
  ghost predicate SettlesOnly(s: State, w: nat, op: Op, q: Phase)
    requires w < |s.workers| && s.workers[w].job < |s.jobs|
  {
    && (forall m :: m in Marks(q) <==> m in Marks(s.workers[w].phase) || Makes(s, w, op, m))
    && Honest(q) && (s.workers[w].phase.Dead? ==> q.Dead?)
  }

  lemma JudgeStep(s: State, w: nat, op: Op)
    requires w < |s.workers| && s.workers[w].job < |s.jobs| && Honest(s.workers[w].phase) && op.Judge?
    ensures SettlesOnly(s, w, op, WorkerStep(s, w, op).phase)
    ensures s.workers[w].phase.Fresh? && op.known ==>
              var (d, why) := DecideSpawn(s.jobs[s.workers[w].job].plan, s.workers[w].sub, op.selfRepo, op.verdict);
              WorkerStep(s, w, op).phase == Judged(d, why)
  {
    SpawnAllowedIff(s.jobs[s.workers[w].job].plan, s.workers[w].sub, op.selfRepo, op.verdict);
    hide DecideSpawn, Declares;
  }

  lemma WaitStep(s: State, w: nat, op: Op)
    requires w < |s.workers| && s.workers[w].job < |s.jobs| && Honest(s.workers[w].phase)
    requires op.Audit? || op.Note? || op.Acquire? || op.Cancel? || op.Check?
    ensures SettlesOnly(s, w, op, WorkerStep(s, w, op).phase)
  {
    hide DecideSpawn, Attempted, Pended, Saved;
  }

  lemma BusyStep(s: State, w: nat, op: Op)
    requires w < |s.workers| && s.workers[w].job < |s.jobs| && Honest(s.workers[w].phase)
    requires op.Begin? || op.Hook? || op.Return? || op.Release? || op.Finish?
    ensures SettlesOnly(s, w, op, WorkerStep(s, w, op).phase)
  {
    hide DecideSpawn, Attempted, Pended, Saved;
  }

  lemma OwnStep(s: State, w: nat, op: Op)
    requires w < |s.workers| && s.workers[w].job < |s.jobs| && Honest(s.workers[w].phase)
    ensures SettlesOnly(s, w, op, WorkerStep(s, w, op).phase)
  {
    hide SettlesOnly, WorkerStep;
    if op.Judge? {
      JudgeStep(s, w, op);
    } else if op.Audit? || op.Note? || op.Acquire? || op.Cancel? || op.Check? {
      WaitStep(s, w, op);
    } else {
      BusyStep(s, w, op);
    }
  }

  // ---------------------------------------------------------------- over every run

  /** Action `k` of the run settled `m` about worker `w`. */
  ghost predicate MadeAt(s0: State, acts: seq<Action>, k: int, w: nat, m: Mark) {
    && 0 <= k < |acts| && acts[k].Work? && acts[k].w == w
    && var s := Exec(s0, acts[..k]);
       w < |s.workers| && s.workers[w].job < |s.jobs| && Makes(s, w, acts[k].op, m)
  }

  lemma MadeStep(s0: State, acts: seq<Action>, k: int, w: nat, m: Mark)
    requires acts != []
    ensures var n := |acts| - 1;
            MadeAt(s0, acts, k, w, m) <==> if k == n then MadeAt(s0, acts, n, w, m) else MadeAt(s0, acts[..n], k, w, m)
  {
    var n := |acts| - 1;
    if 0 <= k < n { assert acts[..n][..k] == acts[..k] && acts[..n][k] == acts[k]; }
  }

  /** Whatever a worker's phase says was settled about it, some step of the run settled; and what a step settled, its
      phase says ever after, unless a crash killed it. */
  ghost predicate Explained(s0: State, acts: seq<Action>, w: nat) {
    var s := Exec(s0, acts);
    && (w >= |s.workers| ==> forall k, m :: !MadeAt(s0, acts, k, w, m))
    && (w < |s.workers| ==>
          && Honest(s.workers[w].phase)
          && (forall m | m in Marks(s.workers[w].phase) :: exists k :: MadeAt(s0, acts, k, w, m))
          && (forall k, m | MadeAt(s0, acts, k, w, m) :: s.workers[w].phase.Dead? || m in Marks(s.workers[w].phase)))
    && ((exists g :: Start(w, g) in s.trace) ==> exists k :: MadeAt(s0, acts, k, w, Clears))
  }

  lemma OtherStep(s: State, a: Action, w: nat)
    requires w < |s.workers| && !(a.Work? && a.w == w && s.workers[w].job < |s.jobs|)
    ensures w < |Next(s, a).workers|
    ensures Next(s, a).workers[w].phase == s.workers[w].phase || Next(s, a).workers[w].phase == Dead
  {
    hide WorkerStep, Finalized, Admitted, Remaining, CompletedTasks, PlanOf;
  }

  lemma NewWorker(s: State, a: Action, w: nat)
    requires |s.workers| <= w < |Next(s, a).workers|
    ensures Next(s, a).workers[w].phase == Fresh
  {
    hide WorkerStep, Finalized, Admitted, Remaining, CompletedTasks, PlanOf;
  }

  lemma NewStart(s: State, a: Action, w: nat, g: string)
    requires Start(w, g) in Next(s, a).trace && Start(w, g) !in s.trace
    ensures a == Work(w, Begin) && w < |s.workers| && s.workers[w].phase == Passed
  {
    hide DecideSpawn, Attempted, Pended, Saved, Finalized, Admitted, Remaining, CompletedTasks, PlanOf;
  }

  /** The last action of the run is a step of worker `w`. */
  ghost predicate IsOwn(s: State, a: Action, w: nat) {
    a.Work? && a.w == w && w < |s.workers| && s.workers[w].job < |s.jobs|
  }

  lemma LastMade(s0: State, acts: seq<Action>, w: nat, m: Mark)
    requires acts != []
    ensures var n := |acts| - 1;
            var t := Exec(s0, acts[..n]);
            MadeAt(s0, acts, n, w, m) <==> IsOwn(t, acts[n], w) && Makes(t, w, acts[n].op, m)
  {
    hide Exec, Makes;
  }

  lemma OwnPhase(s: State, a: Action, w: nat)
    requires IsOwn(s, a, w)
    ensures w < |Next(s, a).workers| && Next(s, a).workers[w].phase == WorkerStep(s, w, a.op).phase
  {
    hide WorkerStep;
  }

  lemma MarksExplained(s0: State, acts: seq<Action>, w: nat)
    requires acts != [] && Explained(s0, acts[..|acts| - 1], w) && w < |Exec(s0, acts).workers|
    ensures var p := Exec(s0, acts).workers[w].phase;
            Honest(p) && forall m | m in Marks(p) :: exists k :: MadeAt(s0, acts, k, w, m)
  {
    var n := |acts| - 1;
    var rest, a, t := acts[..n], acts[n], Exec(s0, acts[..n]);
    assert Exec(s0, acts) == Next(t, a);
    hide Exec, Next, Makes, MadeAt, Marks;
    if w >= |t.workers| {
      NewWorker(t, a, w);
      assert Marks(Fresh) == {} by { FreshMarks(); }
    } else {
      if IsOwn(t, a, w) {
        OwnPhase(t, a, w);
        OwnStep(t, w, a.op);
      } else {
        OtherStep(t, a, w);
        FreshMarks();
      }
      forall m | m in Marks(Next(t, a).workers[w].phase) ensures exists k :: MadeAt(s0, acts, k, w, m) {
        LastMade(s0, acts, w, m);
        if m in Marks(t.workers[w].phase) {
          var k :| MadeAt(s0, rest, k, w, m);
          Earlier(s0, acts, k, w, m);
        } else {
          assert MadeAt(s0, acts, n, w, m);
        }
      }
    }
  }

  lemma Earlier(s0: State, acts: seq<Action>, k: int, w: nat, m: Mark)
    requires acts != [] && MadeAt(s0, acts[..|acts| - 1], k, w, m)
    ensures MadeAt(s0, acts, k, w, m)
  {
    MadeStep(s0, acts, k, w, m);
    hide Exec, Makes;
  }

  lemma FreshMarks()
    ensures Marks(Fresh) == {} && Marks(Dead) == {}
  {
  }

  lemma MadeStays(s0: State, acts: seq<Action>, w: nat, k: int, m: Mark)
    requires acts != [] && Explained(s0, acts[..|acts| - 1], w) && MadeAt(s0, acts, k, w, m)
    ensures var s := Exec(s0, acts); w < |s.workers| && (s.workers[w].phase.Dead? || m in Marks(s.workers[w].phase))
  {
    var n := |acts| - 1;
    var rest, a, t := acts[..n], acts[n], Exec(s0, acts[..n]);
    assert Exec(s0, acts) == Next(t, a);
    MadeStep(s0, acts, k, w, m);
    LastMade(s0, acts, w, m);
    hide Exec, Next, Makes, MadeAt, Marks;
    if IsOwn(t, a, w) {
      OwnPhase(t, a, w);
      OwnStep(t, w, a.op);
    } else {
      OtherStep(t, a, w);
    }
  }

  lemma StartExplained(s0: State, acts: seq<Action>, w: nat, g: string)
    requires acts != [] && Explained(s0, acts[..|acts| - 1], w) && Start(w, g) in Exec(s0, acts).trace
    ensures exists k :: MadeAt(s0, acts, k, w, Clears)
  {
    var n := |acts| - 1;
    var rest, a, t := acts[..n], acts[n], Exec(s0, acts[..n]);
    assert Exec(s0, acts) == Next(t, a);
    assert Clears in Marks(Passed);
    hide Exec, Next, Makes, MadeAt, Marks;
    if Start(w, g) !in t.trace { NewStart(t, a, w, g); }
    var k :| MadeAt(s0, rest, k, w, Clears);
    Earlier(s0, acts, k, w, Clears);
  }

  lemma {:induction false} RunExplained(s0: State, acts: seq<Action>, w: nat)
    requires Initial(s0)
    ensures Explained(s0, acts, w)
  {
    if acts != [] {
      hide Next, Makes, MadeAt, Marks, Honest;
      RunExplained(s0, acts[..|acts| - 1], w);
      var s := Exec(s0, acts);
      if w < |s.workers| { MarksExplained(s0, acts, w); }
      forall k, m | MadeAt(s0, acts, k, w, m)
        ensures w < |s.workers| && (s.workers[w].phase.Dead? || m in Marks(s.workers[w].phase))
      {
        MadeStays(s0, acts, w, k, m);
      }
      if g :| Start(w, g) in s.trace { StartExplained(s0, acts, w, g); }
    }
  }

  // ---------------------------------------------------------------- what it means

  /** Action `k` of the run is worker `w` coming back well from its dispatch, no approval asked for. */
  ghost predicate CameBackWell(s0: State, acts: seq<Action>, k: int, w: nat) {
    && 0 <= k < |acts| && acts[k] == Work(w, Return(true))
    && var s := Exec(s0, acts[..k]);
       w < |s.workers| && s.workers[w].job < |s.jobs| && s.workers[w].phase == Busy(false)
  }

  lemma WorkedIff(s0: State, acts: seq<Action>, k: int, w: nat)
    ensures MadeAt(s0, acts, k, w, Tells(Ended(Worked))) <==> CameBackWell(s0, acts, k, w)
  {
    hide Exec;
  }

  /** In every interleaving of any number of plans, crashes and resumes, slot `i` of a joined plan reports a success
      exactly when the worker of sub-goal `i` came back well from its dispatch without having asked for approval, and
      its detail is exactly what the one step that settled it said. */
  lemma OutcomeIff(s0: State, acts: seq<Action>, j: nat, i: nat, d: Detail)
    requires Initial(s0)
    requires var s := Exec(s0, acts);
             j < |s.jobs| && i < |s.jobs[j].subs| && !s.jobs[j].state.Joining? && !s.jobs[j].state.Lost?
    ensures var s := Exec(s0, acts);
            var w, reports := s.jobs[j].first + i, s.jobs[j].state.reports;
            && i < |reports|
            && (reports[i].success <==> exists k :: CameBackWell(s0, acts, k, w))
            && (reports[i].detail == d <==> exists k :: MadeAt(s0, acts, k, w, Tells(d)))
  {
    hide Exec, MadeAt, CameBackWell, FleetTrace.Sound, Explained;
    var s := Exec(s0, acts);
    var w := s.jobs[j].first + i;
    FleetTrace.RunSound(s0, acts);
    JoinedReport(s, j, i);
    RunExplained(s0, acts, w);
    ReportExplained(s0, acts, w, d);
    ReportExplained(s0, acts, w, Ended(Worked));
    if k :| MadeAt(s0, acts, k, w, Tells(Ended(Worked))) { WorkedIff(s0, acts, k, w); }
    if k :| CameBackWell(s0, acts, k, w) { WorkedIff(s0, acts, k, w); }
  }

  lemma ReportExplained(s0: State, acts: seq<Action>, w: nat, d: Detail)
    requires Explained(s0, acts, w) && w < |Exec(s0, acts).workers| && Exec(s0, acts).workers[w].phase.Done?
    ensures var r := Exec(s0, acts).workers[w].phase.report;
            && (r.success <==> r.detail == Ended(Worked))
            && (r.detail == d <==> exists k :: MadeAt(s0, acts, k, w, Tells(d)))
  {
    hide Exec, MadeAt;
    var p := Exec(s0, acts).workers[w].phase;
    assert p.report.detail == d <==> Tells(d) in Marks(p);
  }

  lemma JoinedReport(s: State, j: nat, i: nat)
    requires FleetTrace.Sound(s) && j < |s.jobs| && i < |s.jobs[j].subs|
    requires !s.jobs[j].state.Joining? && !s.jobs[j].state.Lost?
    ensures var w, reports := s.jobs[j].first + i, s.jobs[j].state.reports;
            w < |s.workers| && i < |reports| && s.workers[w].phase.Done? && reports[i] == s.workers[w].phase.report
  {
    hide FleetTrace.Sound, FleetTrace.Shape, FleetTrace.Histories, FleetTrace.Completions, AnyUnaudited;
    SoundJob(s, j);
    FleetTrace.TeamMember(s, j, s.jobs[j].first + i);
    assert Ready(s, j) && s.jobs[j].state.reports == Reports(Team(s, j));
  }

  lemma SoundJob(s: State, j: nat)
    requires FleetTrace.Sound(s) && j < |s.jobs|
    ensures FleetTrace.Shape(s) && s.jobs[j].first + |s.jobs[j].subs| <= |s.workers| && FleetTrace.JobOk(s, j)
  {
    hide FleetTrace.Histories, FleetTrace.Completions;
  }

  /** Action `k` of the run judges worker `w`: its recipe known, off the own repository, allowed by policy, and its
      recipe and its task both declared by its plan. */
  ghost predicate ClearedAt(s0: State, acts: seq<Action>, k: int, w: nat) {
    && 0 <= k < |acts| && acts[k] == Work(w, Judge(true, false, Allow))
    && var s := Exec(s0, acts[..k]);
       && w < |s.workers| && s.workers[w].job < |s.jobs|
       && Declares(s.jobs[s.workers[w].job].plan, s.workers[w].sub.recipe)
       && Declares(s.jobs[s.workers[w].job].plan, s.workers[w].sub.task.id)
  }

  lemma ClearsMeans(s0: State, acts: seq<Action>, k: int, w: nat)
    requires MadeAt(s0, acts, k, w, Clears)
    ensures ClearedAt(s0, acts, k, w)
  {
    hide Exec, Declares, Awaiting;
  }

  /** A worker that started, in any run, was so judged before. */
  lemma StartWasDeclared(s0: State, acts: seq<Action>, w: nat, goalID: string)
    requires Initial(s0) && Start(w, goalID) in Exec(s0, acts).trace
    ensures exists k :: ClearedAt(s0, acts, k, w)
  {
    RunExplained(s0, acts, w);
    hide Exec, MadeAt, ClearedAt;
    var k :| MadeAt(s0, acts, k, w, Clears);
    ClearsMeans(s0, acts, k, w);
  }

  // ---------------------------------------------------------------- what the steps leave in the journal

  /** The status an ending is recorded with. */
  ghost predicate RecordedAs(rec: Record, taskID: string, e: Ending) {
    match e
    case Worked => HasAttempt(rec, taskID, Status.Completed)
    case Asked => HasAttempt(rec, taskID, AwaitingApproval)
    case Broke => HasAttempt(rec, taskID, Status.Failed)
    case Paused => true
  }

  /** Three steps of a worker write, each to the record of its goal alone and only when the store keeps it: it is
      noted as running before it queues, its request for approval is queued behind the earlier ones, and its ending is
      recorded, after which its task counts as completed exactly when it reports a success. A paused worker writes
      nothing. */
  ghost predicate Journaled(s: State, w: nat, op: Op, phase: Phase, records: Records)
    requires w < |s.workers|
  {
    var wk := s.workers[w];
    var g, task, was := wk.goalID, wk.sub.task.id, LoadOr(s.records, wk.goalID, Running);
    && OnlyGoal(s.records, records, g)
    && match (wk.phase, op)
       case (Cleared, Note(true)) =>
         && g in records && HasAttempt(records[g], task, Running) && records[g].pending == was.pending
         && CompletedTasks(records[g]) == CompletedTasks(was) - {task}
       case (Busy(_), Hook(reason, true)) =>
         && g in records && records[g].status == AwaitingApproval && records[g].attempts == was.attempts
         && records[g].pending == was.pending + [PendingApproval(task, reason, 0, false)]
       case (Released(e), Finish(true, _)) =>
         && (e == Paused ==> records == s.records)
         && (e != Paused ==>
               && g in records && phase.Done? && RecordedAs(records[g], task, e)
               && CompletedTasks(records[g]) == if phase.report.success then CompletedTasks(was) + {task}
                                                else CompletedTasks(was) - {task})
       case _ => records == s.records
  }

  lemma FinishJournals(s: State, w: nat, op: Op)
    requires w < |s.workers| && s.workers[w].job < |s.jobs| && op.Finish?
    requires OneEntryPerTask(LoadOr(s.records, s.workers[w].goalID, Running))
    ensures Journaled(s, w, op, WorkerStep(s, w, op).phase, WorkerStep(s, w, op).records)
  {
    hide AttemptRecorded, CompletedTasks, HasAttempt, OneEntryPerTask, DecideSpawn, LoadOr, Pended, OnlyGoal;
    var wk := s.workers[w];
    SameRecords(s.records, wk.goalID);
    AttemptJournals(s.records, wk.goalID, wk.sub.task.id, AwaitingApproval, "requires human approval");
    AttemptJournals(s.records, wk.goalID, wk.sub.task.id, Status.Failed, op.detail);
    AttemptJournals(s.records, wk.goalID, wk.sub.task.id, Status.Completed, "");
  }

  lemma OtherJournals(s: State, w: nat, op: Op)
    requires w < |s.workers| && s.workers[w].job < |s.jobs| && !op.Finish?
    requires OneEntryPerTask(LoadOr(s.records, s.workers[w].goalID, Running))
    ensures Journaled(s, w, op, WorkerStep(s, w, op).phase, WorkerStep(s, w, op).records)
  {
    hide AttemptRecorded, CompletedTasks, HasAttempt, OneEntryPerTask, DecideSpawn, LoadOr, Pended, OnlyGoal;
    var wk := s.workers[w];
    SameRecords(s.records, wk.goalID);
    AttemptJournals(s.records, wk.goalID, wk.sub.task.id, Running, "");
    if op.Hook? { PendJournals(s.records, wk.goalID, wk.sub.task.id, op.reason); }
  }

  lemma PendJournals(rs: Records, g: string, task: string, reason: string)
    ensures var was, now := LoadOr(rs, g, Running), Pended(rs, g, task, reason);
            && OnlyGoal(rs, now, g) && g in now && now[g].status == AwaitingApproval && now[g].attempts == was.attempts
            && now[g].pending == was.pending + [PendingApproval(task, reason, 0, false)]
  {
  }

  lemma SameRecords(rs: Records, g: string)
    ensures OnlyGoal(rs, rs, g)
  {
  }

  lemma StepJournals(s: State, w: nat, op: Op)
    requires w < |s.workers| && s.workers[w].job < |s.jobs|
    requires OneEntryPerTask(LoadOr(s.records, s.workers[w].goalID, Running))
    ensures Journaled(s, w, op, Next(s, Work(w, op)).workers[w].phase, Next(s, Work(w, op)).records)
  {
    hide Journaled, WorkerStep, OneEntryPerTask;
    if op.Finish? { FinishJournals(s, w, op); } else { OtherJournals(s, w, op); }
  }

  lemma AttemptJournals(rs: Records, g: string, task: string, status: Status, detail: string)
    requires OneEntryPerTask(LoadOr(rs, g, Running))
    ensures var was, now := LoadOr(rs, g, Running), AttemptRecorded(rs, g, task, status, detail);
            && OnlyGoal(rs, now, g) && g in now && HasAttempt(now[g], task, status) && now[g].pending == was.pending
            && CompletedTasks(now[g]) == if status == Status.Completed then CompletedTasks(was) + {task}
                                         else CompletedTasks(was) - {task}
  {
    RecordingOne(rs, g, task, status, detail);
    RecordedCompleted(rs, g, task, status, detail);
    hide CompletedTasks, OneEntryPerTask, WithAttempt;
    assert AttemptState(task, 1, status, detail, 0) in AttemptRecorded(rs, g, task, status, detail)[g].attempts;
  }

  // ---------------------------------------------------------------- who runs, and when a goal is complete

  /** In every run a queued worker gets its permit exactly when fewer than `cap` workers hold one. */
  lemma AcquireIff(s0: State, acts: seq<Action>, w: nat)
    requires Initial(s0)
    requires var s := Exec(s0, acts); w < |s.workers| && s.workers[w].job < |s.jobs| && s.workers[w].phase == Queued
    ensures var s := Exec(s0, acts);
            Next(s, Work(w, Acquire)).workers[w].phase == Holding <==> Count(s.workers, HOLDS) < s0.cap
  {
    CapHolds(s0, acts);
    hide Exec, Count;
  }

  /** A resume dispatches, in plan order, exactly the sub-goals of the recorded plan without a completed attempt, each
      by a fresh worker behind all earlier ones. */
  lemma ResumeDispatches(s: State, goalID: string, saved: bool, plan: Plan)
    requires goalID in s.records && PlanOf(s.records[goalID].plan) == Some(plan)
    requires exists x :: x in plan.subGoals && !HasAttempt(s.records[goalID], x.task.id, Status.Completed)
    ensures var t := Next(s, Resume(goalID, saved));
            && |t.jobs| == |s.jobs| + 1 && t.jobs[..|s.jobs|] == s.jobs && t.records == s.records
            && var job := t.jobs[|s.jobs|];
               && job == Job(plan, job.subs, |s.workers|, Joining) && t.workers[..|s.workers|] == s.workers
               && job.subs == Remaining(plan.subGoals, CompletedTasks(s.records[goalID]))
               && (forall x :: x in job.subs <==>
                     x in plan.subGoals && !HasAttempt(s.records[goalID], x.task.id, Status.Completed))
               && |t.workers| == |s.workers| + |job.subs|
               && forall i | 0 <= i < |job.subs| ::
                    t.workers[|s.workers| + i] == Worker(|s.jobs|, plan.goalID, job.subs[i], Fresh)
  {
    hide PlanOf;
    var rec := s.records[goalID];
    assert forall id :: id in CompletedTasks(rec) <==> HasAttempt(rec, id, Status.Completed);
    hide HasAttempt, CompletedTasks;
    var x :| x in plan.subGoals && !HasAttempt(rec, x.task.id, Status.Completed);
    assert x in Remaining(plan.subGoals, CompletedTasks(rec));
  }

  /** Settling a joined plan completes its goal exactly when every sub-goal of the plan has a completed attempt, no
      approval is awaited and the store keeps the write. */
  lemma SettleCompletes(s: State, j: nat, saved: bool)
    requires j < |s.jobs| && s.jobs[j].state.Joined?
    ensures var t, plan := Next(s, Action.Settle(j, saved)), s.jobs[j].plan;
            && t.jobs[j].state == Settled(s.jobs[j].state.reports)
            && (plan.goalID !in s.records ==> t.records == s.records)
            && (plan.goalID in s.records ==>
                  var rec := s.records[plan.goalID];
                  t.records == if saved && rec.status != AwaitingApproval && plan.subGoals != []
                                  && forall x | x in plan.subGoals :: HasAttempt(rec, x.task.id, Status.Completed)
                               then s.records[plan.goalID := rec.(status := Status.Completed)] else s.records)
  {
    var plan := s.jobs[j].plan;
    if plan.goalID in s.records {
      var rec := s.records[plan.goalID];
      assert forall id :: id in CompletedTasks(rec) <==> HasAttempt(rec, id, Status.Completed);
      hide HasAttempt, CompletedTasks;
    }
  }
}
