/** The dispatch of plans by concurrent sub-goal goroutines: dispatchSubGoals, dispatchOne,
    dispatchWithSemaphore and ResumeFromRecord as one machine. A worker is a goroutine; each of its atomic
    steps (a gate call, a locked journal write, a semaphore operation, entering or leaving the dispatch
    seam) is one action, so a run is any interleaving of any number of plans, crashes and resumes.

    The worker permits are one fleet-wide semaphore. `saved` on a journal step tells whether the store
    kept the write: its error is dropped by the source. */
module Fleet {
  import opened Json
  import opened RunStore
  import opened Plans
  import opened RunJournal
  import opened Planner

  /** How dispatchWithSemaphore ended: skipped by an approval pause, asked for approval, failed, succeeded. */
  datatype Ending = Paused | Asked | Broke | Worked

  datatype Detail = UnknownRecipe | Denied(why: Option<Refusal>) | NotAudited | Ended(ending: Ending)

  /** SubGoalOutcome. */
  datatype Report = Report(spec: string, recipe: string, success: bool, detail: Detail)

  /** Where a worker goroutine stands in dispatchOne. */
  datatype Phase =
    | Fresh
    | Judged(decision: Decision, why: Option<Refusal>)
    | Cleared
    | Queued
    | Holding
    | Passed
    | Busy(asked: bool)
    | Returned(ending: Ending)
    | Released(ending: Ending)
    | Done(report: Report, unaudited: bool)
    | Dead

  datatype Worker = Worker(job: nat, goalID: string, sub: SubGoal, phase: Phase)

  /** One dispatchSubGoals call: its workers are the `|subs|` workers from `first` on. */
  datatype Job = Job(plan: Plan, subs: seq<SubGoal>, first: nat, state: JobState)

  datatype JobState =
    | Joining
    | Halted(reports: seq<Report>)
    | Joined(reports: seq<Report>)
    | Settled(reports: seq<Report>)
    | Finished(reports: seq<Report>)
    | Lost

  datatype Event =
    | Gate(worker: nat, decision: Decision)
    | Unaudited(worker: nat)
    | Start(worker: nat, goalID: string)
    | Complete(job: nat)

  datatype State = State(cap: nat, held: nat, jobs: seq<Job>, workers: seq<Worker>, records: Records, trace: seq<Event>)

  /** One atomic step of a worker, with the answer its environment gave. */
  datatype Op =
    | Judge(known: bool, selfRepo: bool, verdict: Decision)
    | Audit(appended: bool)
    | Note(saved: bool)
    | Acquire
    | Cancel
    | Check
    | Begin
    | Hook(reason: string, saved: bool)
    | Return(ok: bool)
    | Release
    | Finish(saved: bool, detail: string)

  datatype Action =
    | Work(w: nat, op: Op)
    | AdmitPlan(plan: Plan, saved: bool)
    | Launch(plan: Plan, subs: seq<SubGoal>)
    | Resume(goalID: string, saved: bool)
    | Join(j: nat)
    | Settle(j: nat, saved: bool)
    | Emit(j: nat)
    | Crash

  /** What a worker step changes: the worker's phase, the permits, the records, the trace. */
  datatype Effect = Effect(phase: Phase, held: nat, records: Records, events: seq<Event>)

  function Saved(s: State, saved: bool, rs: Records): Records { if saved then rs else s.records }

  function Attempted(s: State, wk: Worker, saved: bool, status: Status, detail: string): Records {
    Saved(s, saved, AttemptRecorded(s.records, wk.goalID, wk.sub.task.id, status, detail))
  }

  function ReportOf(wk: Worker, success: bool, detail: Detail): Report {
    Report(wk.sub.task.spec, wk.sub.recipe, success, detail)
  }

  function Moved(s: State, phase: Phase): Effect { Effect(phase, s.held, s.records, []) }

  /** The step of worker `w`; a step it is not ready for leaves everything as it is. */
  function WorkerStep(s: State, w: nat, op: Op): Effect
    requires w < |s.workers| && s.workers[w].job < |s.jobs|
  {
    var wk := s.workers[w];
    match (wk.phase, op)
    case (Fresh, Judge(known, selfRepo, verdict)) =>
      if !known then Moved(s, Done(ReportOf(wk, false, UnknownRecipe), false))
      else
        var (d, why) := DecideSpawn(s.jobs[wk.job].plan, wk.sub, selfRepo, verdict);
        Effect(Judged(d, why), s.held, s.records, [Gate(w, d)])
    case (Judged(d, why), Audit(appended)) =>
      if d == Allow then Moved(s, Cleared)
      else if appended then Moved(s, Done(ReportOf(wk, false, Denied(why)), false))
      else Effect(Done(ReportOf(wk, false, NotAudited), true), s.held, s.records, [Unaudited(w)])
    case (Cleared, Note(saved)) => Effect(Queued, s.held, Attempted(s, wk, saved, Running, ""), [])
    case (Queued, Acquire) => if s.held < s.cap then Effect(Holding, s.held + 1, s.records, []) else Moved(s, Queued)
    case (Queued, Cancel) => Moved(s, Released(Broke))
    case (Holding, Check) => Moved(s, if Awaiting(s.records, wk.goalID) then Returned(Paused) else Passed)
    case (Passed, Begin) => Effect(Busy(false), s.held, s.records, [Start(w, wk.goalID)])
    case (Busy(_), Hook(reason, saved)) =>
      Effect(Busy(true), s.held, Saved(s, saved, Pended(s.records, wk.goalID, wk.sub.task.id, reason)), [])
    case (Busy(asked), Return(ok)) => Moved(s, Returned(if asked then Asked else if ok then Worked else Broke))
    case (Returned(e), Release) => Effect(Released(e), if s.held > 0 then s.held - 1 else 0, s.records, [])
    case (Released(e), Finish(saved, detail)) =>
      var records := match e
        case Paused => s.records
        case Asked => Attempted(s, wk, saved, AwaitingApproval, "requires human approval")
        case Broke => Attempted(s, wk, saved, Status.Failed, detail)
        case Worked => Attempted(s, wk, saved, Status.Completed, "");
      Effect(Done(ReportOf(wk, e == Worked, Ended(e)), false), s.held, records, [])
    case _ => Moved(s, wk.phase)
  }

  function Spawned(s: State, plan: Plan, subs: seq<SubGoal>): State {
    s.(jobs := s.jobs + [Job(plan, subs, |s.workers|, Joining)],
       workers := s.workers + seq(|subs|, i requires 0 <= i < |subs| => Worker(|s.jobs|, plan.goalID, subs[i], Fresh)))
  }

  predicate Live(p: Phase) { !p.Done? && !p.Dead? }

  predicate Quiet(s: State, goalID: string) {
    forall w | w in s.workers && w.goalID == goalID :: !Live(w.phase)
  }

  /** The workers of job `j`, in sub-goal order. */
  function Team(s: State, j: nat): seq<Worker>
    requires j < |s.jobs| && s.jobs[j].first + |s.jobs[j].subs| <= |s.workers|
  {
    s.workers[s.jobs[j].first..s.jobs[j].first + |s.jobs[j].subs|]
  }

  predicate Ready(s: State, j: nat) {
    j < |s.jobs| && s.jobs[j].first + |s.jobs[j].subs| <= |s.workers| && forall w | w in Team(s, j) :: w.phase.Done?
  }

  function Reports(team: seq<Worker>): (r: seq<Report>)
    requires forall w | w in team :: w.phase.Done?
    ensures |r| == |team| && forall i | 0 <= i < |team| :: r[i] == team[i].phase.report
  {
    seq(|team|, i requires 0 <= i < |team| => assert team[i] in team; team[i].phase.report)
  }

  predicate AnyUnaudited(team: seq<Worker>)
    requires forall w | w in team :: w.phase.Done?
  {
    exists w | w in team :: w.phase.unaudited
  }

  function WithJob(s: State, j: nat, state: JobState): State
    requires j < |s.jobs|
  {
    s.(jobs := s.jobs[j := s.jobs[j].(state := state)])
  }

  function Crashed(s: State): State {
    s.(held := 0,
       workers := seq(|s.workers|, i requires 0 <= i < |s.workers| =>
                        if s.workers[i].phase.Done? then s.workers[i] else s.workers[i].(phase := Dead)),
       jobs := seq(|s.jobs|, i requires 0 <= i < |s.jobs| =>
                     if s.jobs[i].state.Finished? || s.jobs[i].state.Halted? then s.jobs[i]
                     else s.jobs[i].(state := Lost)))
  }

  /** The machine: an action that is not enabled changes nothing. */
  function Next(s: State, a: Action): State {
    match a
    case Work(w, op) =>
      if w < |s.workers| && s.workers[w].job < |s.jobs| then
        var e := WorkerStep(s, w, op);
        s.(workers := s.workers[w := s.workers[w].(phase := e.phase)], held := e.held, records := e.records,
           trace := s.trace + e.events)
      else s
    case AdmitPlan(plan, saved) => s.(records := Saved(s, saved, Admitted(s.records, plan)))
    case Launch(plan, subs) => Spawned(s, plan, subs)
    case Resume(goalID, saved) =>
      if goalID in s.records && PlanOf(s.records[goalID].plan).Some? then
        var plan := PlanOf(s.records[goalID].plan).value;
        var rest := Remaining(plan.subGoals, CompletedTasks(s.records[goalID]));
        if rest == [] then s.(records := Saved(s, saved, Finalized(s.records, plan))) else Spawned(s, plan, rest)
      else s
    case Join(j) =>
      if Ready(s, j) && s.jobs[j].state.Joining?
      then WithJob(s, j,
                   if AnyUnaudited(Team(s, j)) then Halted(Reports(Team(s, j))) else Joined(Reports(Team(s, j)))) else s
    case Settle(j, saved) =>
      if j < |s.jobs| && s.jobs[j].state.Joined?
      then
        var records := Saved(s, saved, Finalized(s.records, s.jobs[j].plan));
        WithJob(s, j, Settled(s.jobs[j].state.reports)).(records := records)
      else s
    case Emit(j) =>
      if j < |s.jobs| && s.jobs[j].state.Settled?
      then WithJob(s, j, Finished(s.jobs[j].state.reports)).(trace := s.trace + [Complete(j)]) else s
    case Crash => Crashed(s)
  }

  function Exec(s: State, acts: seq<Action>): State {
    if acts == [] then s else Next(Exec(s, acts[..|acts| - 1]), acts[|acts| - 1])
  }

  /** A fresh process over some store; the semaphore has at least one permit. */
  predicate Initial(s: State) {
    s.cap >= 1 && s.held == 0 && s.jobs == [] && s.workers == [] && s.trace == []
  }

  // ---------------------------------------------------------------- counting workers

  function Count(ws: seq<Worker>, p: Worker -> bool): nat {
    if ws == [] then 0 else Count(ws[..|ws| - 1], p) + if p(ws[|ws| - 1]) then 1 else 0
  }

  lemma {:induction false} CountUpdate(ws: seq<Worker>, i: nat, x: Worker, p: Worker -> bool)
    requires i < |ws|
    ensures Count(ws[i := x], p) + (if p(ws[i]) then 1 else 0) == Count(ws, p) + (if p(x) then 1 else 0)
  {
    var n := |ws| - 1;
    if i < n {
      assert ws[i := x][..n] == ws[..n][i := x];
      CountUpdate(ws[..n], i, x, p);
    } else {
      assert ws[i := x][..n] == ws[..n];
    }
  }

  lemma {:induction false} CountNone(ws: seq<Worker>, more: seq<Worker>, p: Worker -> bool)
    requires forall x | x in more :: !p(x)
    ensures Count(ws + more, p) == Count(ws, p)
  {
    if more == [] {
      assert ws + more == ws;
    } else {
      var n := |more| - 1;
      assert (ws + more)[..|ws| + n] == ws + more[..n];
      CountNone(ws, more[..n], p);
    }
  }

  lemma CountZero(ws: seq<Worker>, p: Worker -> bool)
    requires forall x | x in ws :: !p(x)
    ensures Count(ws, p) == 0
  {
    CountNone([], ws, p);
    assert [] + ws == ws;
  }

  lemma {:induction false} CountLe(ws: seq<Worker>, p: Worker -> bool, q: Worker -> bool)
    requires forall x | x in ws && p(x) :: q(x)
    ensures Count(ws, p) <= Count(ws, q)
    ensures (exists x :: x in ws && q(x) && !p(x)) ==> Count(ws, p) < Count(ws, q)
  {
    if ws != [] {
      var n := |ws| - 1;
      assert ws == ws[..n] + [ws[n]];
      CountLe(ws[..n], p, q);
    }
  }

  // ---------------------------------------------------------------- permits

  predicate Holds(p: Phase) { p.Holding? || p.Passed? || p.Busy? || p.Returned? }

  const HOLDS: Worker -> bool := (w: Worker) => Holds(w.phase)
  const BUSY: Worker -> bool := (w: Worker) => w.phase.Busy?

  ghost predicate Permits(s: State) {
    s.held == Count(s.workers, HOLDS) && s.held <= s.cap
  }

  lemma WorkPermits(s: State, w: nat, op: Op)
    requires Permits(s) && w < |s.workers| && s.workers[w].job < |s.jobs|
    ensures Permits(Next(s, Work(w, op)))
  {
    HeldFollows(s, w, op);
    hide WorkerStep;
    var x := s.workers[w].(phase := WorkerStep(s, w, op).phase);
    CountUpdate(s.workers, w, x, HOLDS);
    if Holds(s.workers[w].phase) { CountUpdate(s.workers, w, s.workers[w].(phase := Dead), HOLDS); }
  }

  /** A step takes a permit exactly when the worker comes to hold one, and only a free one; likewise for giving it
      back. */
  lemma HeldFollows(s: State, w: nat, op: Op)
    requires w < |s.workers| && s.workers[w].job < |s.jobs|
    ensures var wk, e := s.workers[w], WorkerStep(s, w, op);
            && (Holds(wk.phase) == Holds(e.phase) ==> e.held == s.held)
            && (!Holds(wk.phase) && Holds(e.phase) ==> s.held < s.cap && e.held == s.held + 1)
            && (Holds(wk.phase) && !Holds(e.phase) ==> e.held == if s.held > 0 then s.held - 1 else 0)
  {
    hide DecideSpawn, Attempted, Pended, Saved;
  }

  lemma PermitsKept(s: State, a: Action)
    requires Permits(s)
    ensures Permits(Next(s, a))
  {
    hide WorkerStep, Finalized, Admitted, Remaining, CompletedTasks, PlanOf;
    match a
    case Work(w, op) => if w < |s.workers| && s.workers[w].job < |s.jobs| { WorkPermits(s, w, op); }
    case Launch(plan, subs) => SpawnNone(s, plan, subs);
    case Resume(goalID, _) =>
      if Next(s, a).jobs != s.jobs {
        var plan := PlanOf(s.records[goalID].plan).value;
        SpawnNone(s, plan, Remaining(plan.subGoals, CompletedTasks(s.records[goalID])));
      }
    case Crash => CountZero(Crashed(s).workers, HOLDS);
    case _ =>
  }

  lemma SpawnNone(s: State, plan: Plan, subs: seq<SubGoal>)
    ensures Count(Spawned(s, plan, subs).workers, HOLDS) == Count(s.workers, HOLDS)
  {
    CountNone(s.workers, Spawned(s, plan, subs).workers[|s.workers|..], HOLDS);
    assert Spawned(s, plan, subs).workers == s.workers + Spawned(s, plan, subs).workers[|s.workers|..];
  }

  /** In every reachable state at most `cap` dispatches are live, across all plans, and the permits are all
      free whenever no worker stands between acquire and release, so in particular after the joins. */
  lemma {:induction false} CapHolds(s: State, acts: seq<Action>)
    requires Initial(s)
    ensures Permits(Exec(s, acts)) && Exec(s, acts).cap == s.cap
    ensures Count(Exec(s, acts).workers, BUSY) <= s.cap
    ensures (forall w | w in Exec(s, acts).workers :: !Live(w.phase)) ==> Exec(s, acts).held == 0
  {
    hide Next;
    if acts != [] {
      CapHolds(s, acts[..|acts| - 1]);
      PermitsKept(Exec(s, acts[..|acts| - 1]), acts[|acts| - 1]);
      CapConstant(Exec(s, acts[..|acts| - 1]), acts[|acts| - 1]);
    }
    var e := Exec(s, acts);
    CountLe(e.workers, BUSY, HOLDS);
    if forall w | w in e.workers :: !Live(w.phase) { CountZero(e.workers, HOLDS); }
  }

  lemma CapConstant(s: State, a: Action)
    ensures Next(s, a).cap == s.cap
  {
  }

  // ---------------------------------------------------------------- the approval pause

  function Starts(trace: seq<Event>, goalID: string): nat {
    if trace == [] then 0
    else Starts(trace[..|trace| - 1],
                goalID) + if trace[|trace| - 1].Start? && trace[|trace| - 1].goalID == goalID then 1 else 0
  }

  lemma StartsAppend(trace: seq<Event>, e: Event, goalID: string)
    ensures Starts(trace + [e], goalID) == Starts(trace, goalID) + if e.Start? && e.goalID == goalID then 1 else 0
    ensures Starts(trace + [], goalID) == Starts(trace, goalID)
  {
    assert (trace + [e])[..|trace|] == trace && trace + [] == trace;
  }

  function PassedOf(goalID: string): Worker -> bool { (w: Worker) => w.phase.Passed? && w.goalID == goalID }

  /** What can still start for a goal: what has started, plus the workers already past the pause check. */
  function Budget(s: State, goalID: string): nat { Starts(s.trace, goalID) + Count(s.workers, PassedOf(goalID)) }

  lemma SpawnPassesNone(s: State, plan: Plan, subs: seq<SubGoal>, goalID: string)
    ensures Budget(Spawned(s, plan, subs), goalID) == Budget(s, goalID)
  {
    var t := Spawned(s, plan, subs);
    CountNone(s.workers, t.workers[|s.workers|..], PassedOf(goalID));
    assert t.workers == s.workers + t.workers[|s.workers|..];
  }

  lemma PauseEffect(s: State, w: nat, op: Op, goalID: string)
    requires w < |s.workers| && s.workers[w].job < |s.jobs| && Awaiting(s.records, goalID)
    ensures var e := WorkerStep(s, w, op);
            && Awaiting(e.records, goalID)
            && |e.events| <= 1
            && (e.phase.Passed? && s.workers[w].goalID == goalID ==> s.workers[w].phase.Passed?)
            && (e.events != [] && e.events[0].Start? ==>
                  s.workers[w].phase.Passed? && !e.phase.Passed? && e.events[0].goalID == s.workers[w].goalID)
  {
    hide DecideSpawn, WithAttempt;
  }

  lemma PauseWork(s: State, w: nat, op: Op, goalID: string)
    requires w < |s.workers| && s.workers[w].job < |s.jobs| && Awaiting(s.records, goalID)
    ensures Awaiting(Next(s, Work(w, op)).records, goalID) && Budget(Next(s, Work(w, op)), goalID) <= Budget(s, goalID)
  {
    PauseEffect(s, w, op, goalID);
    hide WorkerStep, Awaiting;
    var e := WorkerStep(s, w, op);
    CountUpdate(s.workers, w, s.workers[w].(phase := e.phase), PassedOf(goalID));
    if e.events == [] {
      StartsAppend(s.trace, Complete(0), goalID);
    } else {
      assert e.events == [e.events[0]];
      StartsAppend(s.trace, e.events[0], goalID);
    }
  }

  /** While a goal awaits approval its budget only shrinks, and it goes on awaiting until it is admitted anew. */
  lemma PauseStep(s: State, a: Action, goalID: string)
    requires Awaiting(s.records, goalID) && !(a.AdmitPlan? && a.plan.goalID == goalID)
    ensures Awaiting(Next(s, a).records, goalID) && Budget(Next(s, a), goalID) <= Budget(s, goalID)
  {
    hide WorkerStep, Remaining, CompletedTasks, PlanOf, PlanJson, AllDone;
    match a
    case Work(w, op) => if w < |s.workers| && s.workers[w].job < |s.jobs| { PauseWork(s, w, op, goalID); }
    case Launch(plan, subs) => SpawnPassesNone(s, plan, subs, goalID);
    case Resume(g, _) =>
      if Next(s, a).jobs != s.jobs {
        var plan := PlanOf(s.records[g].plan).value;
        SpawnPassesNone(s, plan, Remaining(plan.subGoals, CompletedTasks(s.records[g])), goalID);
      }
    case Emit(j) => StartsAppend(s.trace, Complete(j), goalID);
    case Crash => CountZero(Crashed(s).workers, PassedOf(goalID));
    case _ =>
  }

  predicate NeverAdmits(acts: seq<Action>, goalID: string) {
    forall a | a in acts && a.AdmitPlan? :: a.plan.goalID != goalID
  }

  lemma {:induction false} PauseRun(s: State, acts: seq<Action>, goalID: string)
    requires Awaiting(s.records, goalID) && NeverAdmits(acts, goalID)
    ensures Awaiting(Exec(s, acts).records, goalID) && Budget(Exec(s, acts), goalID) <= Budget(s, goalID)
  {
    hide Next, Budget, Awaiting;
    if acts != [] {
      var n := |acts| - 1;
      assert acts[n] in acts && forall a | a in acts[..n] :: a in acts;
      PauseRun(s, acts[..n], goalID);
      PauseStep(Exec(s, acts[..n]), acts[n], goalID);
    }
  }

  /** Once a sub-goal of a plan has recorded a pending approval, at most `cap - 1` further sub-goals of that
      plan start, in any continuation, crashes and resumes included, until the plan is admitted anew: none
      under a single worker. */
  lemma PauseHolds(s0: State, before: seq<Action>, w: nat, reason: string, after: seq<Action>)
    requires Initial(s0)
    requires var s := Exec(s0, before);
             w < |s.workers| && s.workers[w].job < |s.jobs| && s.workers[w].phase.Busy?
             && NeverAdmits(after, s.workers[w].goalID)
    ensures var s, g := Exec(s0, before), Exec(s0, before).workers[w].goalID;
            var asked := Next(s, Work(w, Hook(reason, true)));
            Starts(Exec(asked, after).trace, g) <= Starts(s.trace, g) + s0.cap - 1
  {
    var s := Exec(s0, before);
    var g := s.workers[w].goalID;
    var asked := Next(s, Work(w, Hook(reason, true)));
    CapHolds(s0, before);
    CountUpdate(s.workers, w, asked.workers[w], PassedOf(g));
    StartsAppend(s.trace, Complete(0), g);
    assert asked.workers == s.workers[w := asked.workers[w]] && asked.trace == s.trace + [];
    assert s.workers[w] in s.workers && HOLDS(s.workers[w]) && !PassedOf(g)(s.workers[w]);
    CountLe(s.workers, PassedOf(g), HOLDS);
    PauseRun(asked, after, g);
  }
}
