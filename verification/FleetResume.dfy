/** Crash recovery of one admitted plan: over any interleaving of its dispatches with other plans, crashes and
    ResumeFromRecord calls made while it is safe, a sub-goal once recorded completed is never dispatched again.
    Module FleetOverlap shows that a resume at any other moment can. */
module FleetResume {
  import opened Json
  import opened RunStore
  import opened Plans
  import opened Planner
  import opened RunJournal
  import opened Fleet

  /** Every journalled plan sits under its own goal. */
  ghost predicate PlansKeyed(rs: Records) {
    forall g | g in rs && PlanOf(rs[g].plan).Some? :: PlanOf(rs[g].plan).value.goalID == g
  }

  /** The record of plan `p` is in order: its plan, one entry per task, completed only when all is done. */
  ghost predicate RecordOk(rs: Records, p: Plan) {
    && p.goalID in rs && rs[p.goalID].plan == PlanJson(p) && OneEntryPerTask(rs[p.goalID])
    && (rs[p.goalID].status == Status.Completed ==> AllDone(p, rs[p.goalID]))
  }

  function DoneIn(rs: Records, p: Plan): set<string> {
    if p.goalID in rs then CompletedTasks(rs[p.goalID]) else {}
  }

  /** The plan-derived gate can let the sub-goal through. */
  predicate Spawnable(sub: SubGoal) { sub.recipe != "" && sub.task.id != "" }

  /** The worker can still write its attempt: it is not done, not refused at the gate and not paused. */
  predicate CanWrite(ph: Phase, sub: SubGoal) {
    match ph
    case Fresh => Spawnable(sub)
    case Judged(d, _) => d == Allow
    case Returned(e) => e != Paused
    case Released(e) => e != Paused
    case Done(_, _) => false
    case Dead => false
    case _ => true
  }

  predicate LiveFor(wk: Worker, p: Plan) { wk.goalID == p.goalID && Live(wk.phase) }

  predicate Engaged(wk: Worker, p: Plan) { wk.goalID == p.goalID && CanWrite(wk.phase, wk.sub) }

  /** No worker of the plan's goal can still write its attempt. */
  predicate Calm(s: State, p: Plan) { forall wk | wk in s.workers :: !Engaged(wk, p) }

  /** A live worker of the goal belongs to the plan; one that can still write its attempt was let through the gate. */
  predicate Belongs(wk: Worker, jobs: seq<Job>, p: Plan) {
    LiveFor(wk, p) ==>
      wk.job < |jobs| && jobs[wk.job].plan == p && wk.sub in p.subGoals && (Engaged(wk, p) ==> Spawnable(wk.sub))
  }

  /** Workers that can still write are on distinct sub-goals, none of them recorded completed. */
  ghost predicate WorkersOk(ws: seq<Worker>, p: Plan, done: set<string>) {
    && (forall w | 0 <= w < |ws| && Engaged(ws[w], p) :: ws[w].sub.task.id !in done)
    && (forall v,
        w | 0 <= v < w < |ws| && Engaged(ws[v], p) && Engaged(ws[w], p) :: ws[v].sub.task.id != ws[w].sub.task.id)
  }

  ghost predicate AllBelong(ws: seq<Worker>, jobs: seq<Job>, p: Plan) {
    forall w | 0 <= w < |ws| :: Belongs(ws[w], jobs, p)
  }

  predicate Unsettled(st: JobState) { st.Joining? || st.Joined? }

  /** Jobs of the goal that have yet to finalize carry this plan. */
  ghost predicate JobsOk(jobs: seq<Job>, p: Plan) {
    forall j | 0 <= j < |jobs| && jobs[j].plan.goalID == p.goalID && Unsettled(jobs[j].state) :: jobs[j].plan == p
  }

  ghost predicate Pursued(s: State, p: Plan) {
    && Distinct(TaskIDs(p.subGoals)) && PlansKeyed(s.records) && RecordOk(s.records, p)
    && AllBelong(s.workers, s.jobs, p) && WorkersOk(s.workers, p, DoneIn(s.records, p)) && JobsOk(s.jobs, p)
  }

  /** The goal is not admitted again, and dispatched only through ResumeFromRecord (which right after the
      admission is dispatchPlan: nothing is completed yet). */
  predicate Mild(a: Action, goalID: string) {
    !(a.AdmitPlan? && a.plan.goalID == goalID) && !(a.Launch? && a.plan.goalID == goalID)
  }

  /** A resume is safe when no worker of the goal can still write its attempt, or the goal awaits approval. */
  predicate SafeNow(s: State, p: Plan) { Calm(s, p) || Awaiting(s.records, p.goalID) }

  predicate Proper(s: State, a: Action, p: Plan, strict: bool) {
    && Mild(a, p.goalID)
    && (a.Resume? && a.goalID == p.goalID ==> if strict then Calm(s, p) else SafeNow(s, p))
  }

  /** Every resume of the goal in the run comes at a safe moment; with `strict`, always at a calm one. */
  ghost predicate Careful(s: State, acts: seq<Action>, p: Plan, strict: bool) {
    acts == [] || (Careful(s, acts[..|acts| - 1], p, strict)
                   && Proper(Exec(s, acts[..|acts| - 1]), acts[|acts| - 1], p, strict))
  }

  /** Where it starts: the plan has just been admitted and nothing of its goal is running. */
  lemma AdmittedIsPursued(s: State, p: Plan)
    requires PlansKeyed(s.records) && Distinct(TaskIDs(p.subGoals)) && Quiet(s, p.goalID)
    requires forall j | j in s.jobs && j.plan.goalID == p.goalID :: !j.state.Joining? && !j.state.Joined?
    ensures Pursued(Next(s, AdmitPlan(p, true)), p)
    ensures Remaining(p.subGoals, DoneIn(Next(s, AdmitPlan(p, true)).records, p)) == p.subGoals
  {
    PlanRoundTrip(p);
    hide PlanJson, PlanOf;
    RemainingAll(p.subGoals);
    assert DoneIn(Next(s, AdmitPlan(p, true)).records, p) == {};
    QuietFor(s, p);
  }

  lemma QuietFor(s: State, p: Plan)
    requires Quiet(s, p.goalID)
    ensures forall w | 0 <= w < |s.workers| :: !LiveFor(s.workers[w], p) && !Engaged(s.workers[w], p)
  {
    assert forall w | 0 <= w < |s.workers| :: s.workers[w] in s.workers;
  }

  lemma {:induction false} RemainingAll(subs: seq<SubGoal>)
    ensures Remaining(subs, {}) == subs
  {
    if subs != [] { RemainingAll(subs[1..]); }
  }

  // ---------------------------------------------------------------- records

  /** A worker's journal write on its own task keeps the record in order and can only add that task. */
  lemma AttemptKeeps(rs: Records, p: Plan, goalID: string, taskID: string, status: Status, detail: string)
    requires PlansKeyed(rs) && RecordOk(rs, p) && (goalID == p.goalID ==> taskID !in DoneIn(rs, p))
    ensures var now := AttemptRecorded(rs, goalID, taskID, status, detail);
            && PlansKeyed(now) && RecordOk(now, p)
            && DoneIn(now, p) == DoneIn(rs,
                                        p) + if goalID == p.goalID && status == Status.Completed then {taskID} else {}
  {
    var now := AttemptRecorded(rs, goalID, taskID, status, detail);
    assert PlanOf(Null) == None;
    hide PlanOf, PlanJson;
    assert PlansKeyed(now);
    if goalID == p.goalID {
      RecordingOne(rs, goalID, taskID, status, detail);
      RecordedCompleted(rs, goalID, taskID, status, detail);
      hide AttemptRecorded, CompletedTasks;
      assert DoneIn(rs, p) <= DoneIn(now, p);
    }
  }

  lemma PendKeeps(rs: Records, p: Plan, goalID: string, taskID: string, reason: string)
    requires PlansKeyed(rs) && RecordOk(rs, p)
    ensures var now := Pended(rs, goalID, taskID,
                              reason); PlansKeyed(now) && RecordOk(now, p) && DoneIn(now, p) == DoneIn(rs, p)
  {
    assert PlanOf(Null) == None;
    hide PlanOf, PlanJson;
    if goalID == p.goalID { assert Pended(rs, goalID, taskID, reason)[p.goalID].attempts == rs[p.goalID].attempts; }
  }

  lemma FinalizeKeeps(rs: Records, p: Plan, q: Plan)
    requires PlansKeyed(rs) && RecordOk(rs, p) && (q.goalID == p.goalID ==> q == p)
    ensures var now := Finalized(rs, q); PlansKeyed(now) && RecordOk(now, p) && DoneIn(now, p) == DoneIn(rs, p)
  {
    hide PlanOf, PlanJson;
  }

  lemma AdmitKeeps(rs: Records, p: Plan, q: Plan)
    requires PlansKeyed(rs) && RecordOk(rs, p) && q.goalID != p.goalID
    ensures var now := Admitted(rs, q); PlansKeyed(now) && RecordOk(now, p) && DoneIn(now, p) == DoneIn(rs, p)
  {
    PlanRoundTrip(q);
    hide PlanOf, PlanJson;
  }

  // ---------------------------------------------------------------- steps

  /** A worker that can still write either goes on unable to, or stays on its own unfinished task. */
  lemma PhaseKeeps(s: State, w: nat, op: Op, p: Plan)
    requires w < |s.workers| && s.workers[w].job < |s.jobs| && Belongs(s.workers[w], s.jobs, p)
    ensures var wk, e := s.workers[w], WorkerStep(s, w, op);
            (Live(e.phase) ==> Live(wk.phase)) && Belongs(wk.(phase := e.phase), s.jobs, p)
            && (wk.goalID == p.goalID && CanWrite(e.phase, wk.sub) ==> Engaged(wk, p))
  {
    hide Attempted, Pended, Saved, ReportOf;
    var wk := s.workers[w];
    if LiveFor(wk, p) && wk.phase.Fresh? && op.Judge? {
      AuthorizesIff(p, wk.sub.recipe);
      AuthorizesIff(p, wk.sub.task.id);
      hide Authorizes;
    }
  }

  lemma FinishKeeps(s: State, w: nat, op: Op, p: Plan)
    requires PlansKeyed(s.records) && RecordOk(s.records, p) && w < |s.workers| && s.workers[w].job < |s.jobs|
    requires op.Finish? && s.workers[w].phase.Released?
    requires Engaged(s.workers[w], p) ==> s.workers[w].sub.task.id !in DoneIn(s.records, p)
    ensures RecordsKeep(s, w, op, p)
  {
    hide DecideSpawn, AttemptRecorded, PlansKeyed, RecordOk, DoneIn, PlanOf, PlanJson, CompletedTasks;
    var wk := s.workers[w];
    var t := wk.sub.task.id;
    if wk.phase.ending != Paused {
      AttemptKeeps(s.records, p, wk.goalID, t, AwaitingApproval, "requires human approval");
      AttemptKeeps(s.records, p, wk.goalID, t, Status.Failed, op.detail);
      AttemptKeeps(s.records, p, wk.goalID, t, Status.Completed, "");
    }
  }

  /** What a worker's step leaves of the records: in order, with at most its own task completed. */
  ghost predicate RecordsKeep(s: State, w: nat, op: Op, p: Plan)
    requires w < |s.workers| && s.workers[w].job < |s.jobs|
  {
    var wk, e := s.workers[w], WorkerStep(s, w, op);
    && PlansKeyed(e.records) && RecordOk(e.records, p)
    && (DoneIn(e.records, p) == DoneIn(s.records, p)
        || (Engaged(wk, p) && !CanWrite(e.phase, wk.sub)
            && DoneIn(e.records, p) == DoneIn(s.records, p) + {wk.sub.task.id}))
  }

  lemma EffectKeeps(s: State, w: nat, op: Op, p: Plan)
    requires PlansKeyed(s.records) && RecordOk(s.records, p) && w < |s.workers| && s.workers[w].job < |s.jobs|
    requires Engaged(s.workers[w], p) ==> s.workers[w].sub.task.id !in DoneIn(s.records, p)
    ensures RecordsKeep(s, w, op, p)
  {
    hide DecideSpawn, AttemptRecorded, Pended, PlansKeyed, RecordOk, DoneIn, PlanOf, PlanJson, CompletedTasks;
    var wk := s.workers[w];
    if wk.phase.Cleared? {
      AttemptKeeps(s.records, p, wk.goalID, wk.sub.task.id, Running, "");
    } else if wk.phase.Busy? && op.Hook? {
      PendKeeps(s.records, p, wk.goalID, wk.sub.task.id, op.reason);
    } else if wk.phase.Released? && op.Finish? {
      FinishKeeps(s, w, op, p);
    }
  }

  /** One worker moves on; it may only complete its own task, and then it can write no more. */
  lemma WorkersStep(ws: seq<Worker>, w: nat, phase: Phase, p: Plan, done: set<string>, now: set<string>)
    requires w < |ws| && WorkersOk(ws, p, done)
    requires Engaged(ws[w].(phase := phase), p) ==> Engaged(ws[w], p)
    requires now == done || (Engaged(ws[w], p) && !CanWrite(phase, ws[w].sub) && now == done + {ws[w].sub.task.id})
    ensures WorkersOk(ws[w := ws[w].(phase := phase)], p, now)
  {
    hide CanWrite;
    var all := ws[w := ws[w].(phase := phase)];
    assert forall v | 0 <= v < |ws| :: all[v].sub == ws[v].sub && (Engaged(all[v], p) ==> Engaged(ws[v], p));
  }

  lemma WorkKeeps(s: State, w: nat, op: Op, p: Plan)
    requires Pursued(s, p) && w < |s.workers| && s.workers[w].job < |s.jobs|
    ensures Pursued(Next(s, Work(w, op)), p)
    ensures DoneIn(s.records, p) <= DoneIn(Next(s, Work(w, op)).records, p)
  {
    BelongsAt(s.workers, s.jobs, p, w);
    EngagedAt(s.workers, p, DoneIn(s.records, p), w);
    EffectKeeps(s, w, op, p);
    PhaseKeeps(s, w, op, p);
    hide WorkerStep, PlansKeyed, RecordOk, DoneIn, Distinct, JobsOk, WorkersOk, CanWrite, Belongs, AllBelong;
    var e := WorkerStep(s, w, op);
    WorkersStep(s.workers, w, e.phase, p, DoneIn(s.records, p), DoneIn(e.records, p));
    BelongStep(s.workers, s.jobs, p, w, e.phase);
  }

  lemma BelongsAt(ws: seq<Worker>, jobs: seq<Job>, p: Plan, w: nat)
    requires AllBelong(ws, jobs, p) && w < |ws|
    ensures Belongs(ws[w], jobs, p)
  {
  }

  lemma EngagedAt(ws: seq<Worker>, p: Plan, done: set<string>, w: nat)
    requires WorkersOk(ws, p, done) && w < |ws|
    ensures Engaged(ws[w], p) ==> ws[w].sub.task.id !in done
  {
  }

  lemma BelongStep(ws: seq<Worker>, jobs: seq<Job>, p: Plan, w: nat, phase: Phase)
    requires AllBelong(ws, jobs, p) && w < |ws| && Belongs(ws[w].(phase := phase), jobs, p)
    ensures AllBelong(ws[w := ws[w].(phase := phase)], jobs, p)
  {
    hide Belongs;
  }

  lemma {:induction false} RemainingDistinct(subs: seq<SubGoal>, done: set<string>)
    requires Distinct(TaskIDs(subs))
    ensures Distinct(TaskIDs(Remaining(subs, done)))
  {
    if subs != [] {
      var rest := Remaining(subs[1..], done);
      assert forall i | 0 <= i < |subs[1..]| :: TaskIDs(subs[1..])[i] == TaskIDs(subs)[i + 1];
      RemainingDistinct(subs[1..], done);
      if subs[0].task.id !in done {
        forall i | 0 <= i < |rest| ensures rest[i].task.id != subs[0].task.id {
          assert rest[i] in rest && rest[i] in subs[1..];
          var k :| 0 <= k < |subs[1..]| && subs[1..][k] == rest[i];
          assert TaskIDs(subs)[0] != TaskIDs(subs)[k + 1];
        }
        forall i, j | 0 <= i < j < |rest| + 1
          ensures TaskIDs([subs[0]] + rest)[i] != TaskIDs([subs[0]] + rest)[j]
        {
          if i > 0 { assert TaskIDs(rest)[i - 1] != TaskIDs(rest)[j - 1]; }
        }
      }
    }
  }

  /** Spawning distinct unfinished sub-goals of a calm goal keeps the workers in order. */
  lemma SpawnOwn(ws: seq<Worker>, more: seq<Worker>, subs: seq<SubGoal>, p: Plan, done: set<string>)
    requires forall w | w in ws :: !Engaged(w, p)
    requires |more| == |subs| && Distinct(TaskIDs(subs))
    requires forall i | 0 <= i < |more| :: more[i].sub == subs[i] && subs[i].task.id !in done
    ensures WorkersOk(ws + more, p, done)
  {
    hide CanWrite;
    var all, n := ws + more, |ws|;
    forall w | 0 <= w < n ensures !Engaged(all[w], p) { assert all[w] in ws; }
    forall v, w | n <= v < w < |all| ensures all[v].sub.task.id != all[w].sub.task.id {
      assert TaskIDs(subs)[v - n] != TaskIDs(subs)[w - n];
    }
  }

  /** What a spawn adds: one job and one fresh worker for each of its sub-goals. */
  lemma SpawnParts(s: State, q: Plan, subs: seq<SubGoal>) returns (more: seq<Worker>)
    ensures var t := Spawned(s, q, subs);
            && t.workers == s.workers + more && t.records == s.records && t.cap == s.cap && t.held == s.held
            && t.jobs == s.jobs + [Job(q, subs, |s.workers|, Joining)]
    ensures |more| == |subs| && forall i | 0 <= i < |more| :: more[i] == Worker(|s.jobs|, q.goalID, subs[i], Fresh)
  {
    more := Spawned(s, q, subs).workers[|s.workers|..];
  }

  lemma SpawnBelongs(ws: seq<Worker>, more: seq<Worker>, jobs: seq<Job>, job: Job, p: Plan)
    requires AllBelong(ws, jobs, p)
    requires forall i | 0 <= i < |more| :: more[i].phase == Fresh && more[i].job == |jobs|
    requires (job.plan == p && forall i | 0 <= i < |more| ::
                                 more[i].sub in p.subGoals) || forall i | 0 <= i < |more| :: more[i].goalID != p.goalID
    ensures AllBelong(ws + more, jobs + [job], p)
  {
    var all := ws + more;
    forall w | 0 <= w < |all| ensures Belongs(all[w], jobs + [job], p) {
      if w < |ws| { assert all[w] == ws[w] && Belongs(ws[w], jobs, p); } else { assert all[w] == more[w - |ws|]; }
    }
  }

  lemma JobsAdded(jobs: seq<Job>, job: Job, p: Plan)
    requires JobsOk(jobs, p) && (job.plan == p || job.plan.goalID != p.goalID)
    ensures JobsOk(jobs + [job], p)
  {
  }

  lemma ResumeOwn(s: State, p: Plan)
    requires Pursued(s, p) && Calm(s, p)
    ensures Pursued(Spawned(s, p, Remaining(p.subGoals, DoneIn(s.records, p))), p)
  {
    var rest := Remaining(p.subGoals, DoneIn(s.records, p));
    RemainingDistinct(p.subGoals, DoneIn(s.records, p));
    hide Remaining, DoneIn, RecordOk, PlansKeyed, Distinct, TaskIDs, WorkersOk, Spawned, JobsOk, AllBelong, Engaged;
    var more := SpawnParts(s, p, rest);
    forall i | 0 <= i < |rest| ensures rest[i] in p.subGoals && rest[i].task.id !in DoneIn(s.records, p) {
      assert rest[i] in rest;
    }
    var job := Job(p, rest, |s.workers|, Joining);
    SpawnOwn(s.workers, more, rest, p, DoneIn(s.records, p));
    SpawnBelongs(s.workers, more, s.jobs, job, p);
    JobsAdded(s.jobs, job, p);
  }

  lemma OthersOk(ws: seq<Worker>, more: seq<Worker>, p: Plan, done: set<string>)
    requires WorkersOk(ws, p, done) && forall i | 0 <= i < |more| :: more[i].goalID != p.goalID
    ensures WorkersOk(ws + more, p, done)
  {
    hide CanWrite;
    var all := ws + more;
    assert forall w | 0 <= w < |all| && Engaged(all[w], p) :: w < |ws| && all[w] == ws[w];
  }

  lemma SpawnOther(s: State, p: Plan, q: Plan, subs: seq<SubGoal>)
    requires Pursued(s, p) && q.goalID != p.goalID
    ensures Pursued(Spawned(s, q, subs), p)
  {
    hide DoneIn, RecordOk, PlansKeyed, Distinct, Spawned, WorkersOk, JobsOk, AllBelong;
    var more := SpawnParts(s, q, subs);
    var job := Job(q, subs, |s.workers|, Joining);
    OthersOk(s.workers, more, p, DoneIn(s.records, p));
    SpawnBelongs(s.workers, more, s.jobs, job, p);
    JobsAdded(s.jobs, job, p);
  }

  lemma CrashKeeps(s: State, p: Plan)
    requires Pursued(s, p)
    ensures Pursued(Crashed(s), p) && Calm(Crashed(s), p)
  {
    hide DoneIn, RecordOk, PlansKeyed, Distinct;
    var e := Crashed(s);
    assert forall w | 0 <= w < |s.workers| :: !Live(e.workers[w].phase);
    forall wk | wk in e.workers ensures !Engaged(wk, p) { var w :| 0 <= w < |e.workers| && e.workers[w] == wk; }
  }

  lemma RecordsChange(s: State, t: State, p: Plan)
    requires Pursued(s, p) && t.workers == s.workers && |t.jobs| == |s.jobs|
    requires PlansKeyed(t.records) && RecordOk(t.records, p) && DoneIn(t.records, p) == DoneIn(s.records, p)
    requires forall j | 0 <= j < |s.jobs| :: t.jobs[j].plan == s.jobs[j].plan
               && (t.jobs[j].state.Joining? || t.jobs[j].state.Joined? ==>
                     s.jobs[j].state.Joining? || s.jobs[j].state.Joined?)
    ensures Pursued(t, p)
  {
    hide PlansKeyed, RecordOk, DoneIn, WorkersOk, Distinct;
    forall w | 0 <= w < |t.workers| ensures Belongs(t.workers[w], t.jobs, p) {
      assert Belongs(s.workers[w], s.jobs, p);
    }
  }

  lemma ResumeKeeps(s: State, g: string, saved: bool, p: Plan)
    requires Pursued(s, p) && (g == p.goalID ==> Calm(s, p))
    ensures Pursued(Next(s, Resume(g, saved)), p)
    ensures DoneIn(s.records, p) <= DoneIn(Next(s, Resume(g, saved)).records, p)
  {
    PlanRoundTrip(p);
    hide PlanJson, PlanOf, WorkersOk, JobsOk, AllBelong, Calm;
    if g in s.records && PlanOf(s.records[g].plan).Some? {
      var q := PlanOf(s.records[g].plan).value;
      assert q.goalID == g && (g == p.goalID ==> q == p);
      var rest := Remaining(q.subGoals, CompletedTasks(s.records[g]));
      if rest == [] {
        FinalizeKeeps(s.records, p, q);
        RecordsChange(s, Next(s, Resume(g, saved)), p);
      } else if g == p.goalID {
        ResumeOwn(s, p);
      } else {
        SpawnOther(s, p, q, rest);
      }
    }
  }

  lemma JobKeeps(s: State, a: Action, p: Plan)
    requires Pursued(s, p) && (a.Join? || a.Settle? || a.Emit?)
    ensures Pursued(Next(s, a), p) && DoneIn(s.records, p) <= DoneIn(Next(s, a).records, p)
  {
    hide PlanJson, PlanOf, WorkersOk, AllBelong, Finalized, DoneIn, PlansKeyed, RecordOk;
    if a.Settle? && a.j < |s.jobs| && s.jobs[a.j].state.Joined? { FinalizeKeeps(s.records, p, s.jobs[a.j].plan); }
    RecordsChange(s, Next(s, a), p);
  }

  /** Every step keeps the plan in order and never takes a completion back, if resumes come at calm moments. */
  lemma StepKeeps(s: State, a: Action, p: Plan)
    requires Pursued(s, p) && Proper(s, a, p, true)
    ensures Pursued(Next(s, a), p) && DoneIn(s.records, p) <= DoneIn(Next(s, a).records, p)
  {
    match a
    case Work(w, op) => if w < |s.workers| && s.workers[w].job < |s.jobs| { WorkKeeps(s, w, op, p); }
    case AdmitPlan(q, _) =>
      AdmitKeeps(s.records, p, q);
      RecordsChange(s, Next(s, a), p);
    case Launch(q, subs) => SpawnOther(s, p, q, subs);
    case Resume(g, saved) => ResumeKeeps(s, g, saved, p);
    case Crash => CrashKeeps(s, p);
    case _ => JobKeeps(s, a, p);
  }

  // ---------------------------------------------------------------- while the goal awaits approval

  /** The worker has passed the pause check and may yet complete its task. */
  predicate Committed(ph: Phase) {
    ph.Passed? || ph.Busy? || ph == Returned(Worked) || ph == Released(Worked)
  }

  predicate CommittedTo(wk: Worker, p: Plan) { wk.goalID == p.goalID && Committed(wk.phase) }

  /** Workers past the pause check are on distinct tasks, and one about to start is on a task never completed. */
  ghost predicate CommitsOk(ws: seq<Worker>, p: Plan, ever: set<string>) {
    && (forall w | 0 <= w < |ws| && CommittedTo(ws[w], p) && ws[w].phase.Passed? :: ws[w].sub.task.id !in ever)
    && (forall v, w | 0 <= v < w < |ws| && CommittedTo(ws[v], p) && CommittedTo(ws[w], p) ::
          ws[v].sub.task.id != ws[w].sub.task.id)
  }

  /** The goal awaits approval: no further worker of it gets past the check. `ever` holds what was ever completed. */
  ghost predicate Waits(s: State, p: Plan, ever: set<string>) {
    && Awaiting(s.records, p.goalID) && OneEntryPerTask(s.records[p.goalID]) && DoneIn(s.records, p) <= ever
    && CommitsOk(s.workers, p, ever)
  }

  lemma PursuedWaits(s: State, p: Plan)
    requires Pursued(s, p) && Awaiting(s.records, p.goalID)
    ensures Waits(s, p, DoneIn(s.records, p))
  {
    hide DoneIn, PlansKeyed, JobsOk, AllBelong;
    assert forall w | 0 <= w < |s.workers| :: CommittedTo(s.workers[w], p) ==> Engaged(s.workers[w], p);
  }

  /** The record of a goal that awaits approval. */
  ghost predicate AwaitsOk(rs: Records, p: Plan) {
    Awaiting(rs, p.goalID) && OneEntryPerTask(rs[p.goalID])
  }

  lemma AwaitingAttempt(rs: Records, p: Plan, g: string, t: string, status: Status, detail: string)
    requires AwaitsOk(rs, p)
    ensures var now := AttemptRecorded(rs, g, t, status, detail);
            && AwaitsOk(now, p)
            && DoneIn(now, p) <= DoneIn(rs, p) + if g == p.goalID && status == Status.Completed then {t} else {}
  {
    if g == p.goalID {
      RecordingOne(rs, g, t, status, detail);
      RecordedCompleted(rs, g, t, status, detail);
      hide CompletedTasks, OneEntryPerTask;
    }
  }

  lemma AwaitingPend(rs: Records, p: Plan, g: string, t: string, reason: string)
    requires AwaitsOk(rs, p)
    ensures var now := Pended(rs, g, t, reason); AwaitsOk(now, p) && DoneIn(now, p) == DoneIn(rs, p)
  {
  }

  /** A worker's step leaves the goal awaiting and completes at most the worker's own task. */
  ghost predicate AwaitStep(s: State, w: nat, op: Op, p: Plan)
    requires w < |s.workers| && s.workers[w].job < |s.jobs|
  {
    var wk, e := s.workers[w], WorkerStep(s, w, op);
    && AwaitsOk(e.records, p)
    && (DoneIn(e.records, p) <= DoneIn(s.records, p)
        || (CommittedTo(wk, p) && !Committed(e.phase)
            && DoneIn(e.records, p) <= DoneIn(s.records, p) + {wk.sub.task.id}))
  }

  lemma AwaitingFinish(s: State, w: nat, op: Op, p: Plan)
    requires w < |s.workers| && s.workers[w].job < |s.jobs| && AwaitsOk(s.records, p)
    requires op.Finish? && s.workers[w].phase.Released?
    ensures AwaitStep(s, w, op, p)
  {
    hide AttemptRecorded, AwaitsOk, DoneIn;
    var wk := s.workers[w];
    AwaitingAttempt(s.records, p, wk.goalID, wk.sub.task.id, AwaitingApproval, "requires human approval");
    AwaitingAttempt(s.records, p, wk.goalID, wk.sub.task.id, Status.Failed, op.detail);
    AwaitingAttempt(s.records, p, wk.goalID, wk.sub.task.id, Status.Completed, "");
  }

  lemma AwaitingRecords(s: State, w: nat, op: Op, p: Plan)
    requires w < |s.workers| && s.workers[w].job < |s.jobs| && AwaitsOk(s.records, p)
    ensures AwaitStep(s, w, op, p)
  {
    hide DecideSpawn, AttemptRecorded, Pended, AwaitsOk, DoneIn;
    var wk := s.workers[w];
    if wk.phase.Cleared? {
      AwaitingAttempt(s.records, p, wk.goalID, wk.sub.task.id, Running, "");
    } else if wk.phase.Busy? && op.Hook? {
      AwaitingPend(s.records, p, wk.goalID, wk.sub.task.id, op.reason);
    } else if wk.phase.Released? && op.Finish? {
      AwaitingFinish(s, w, op, p);
    }
  }

  /** Nobody of an awaiting goal newly gets past the check. */
  lemma AwaitingPhase(s: State, w: nat, op: Op, p: Plan)
    requires w < |s.workers| && s.workers[w].job < |s.jobs| && Awaiting(s.records, p.goalID)
    ensures var wk, e := s.workers[w], WorkerStep(s, w, op);
            && (CommittedTo(wk.(phase := e.phase), p) ==> CommittedTo(wk, p))
            && (e.phase.Passed? && wk.goalID == p.goalID ==> wk.phase.Passed?)
  {
    hide DecideSpawn, Attempted, Pended, Saved, ReportOf;
  }

  lemma CommitsStep(ws: seq<Worker>, w: nat, phase: Phase, p: Plan, ever: set<string>, now: set<string>)
    requires w < |ws| && CommitsOk(ws, p, ever)
    requires CommittedTo(ws[w].(phase := phase), p) ==> CommittedTo(ws[w], p)
    requires phase.Passed? && ws[w].goalID == p.goalID ==> ws[w].phase.Passed?
    requires now == ever || (CommittedTo(ws[w], p) && !Committed(phase) && now <= ever + {ws[w].sub.task.id})
    ensures CommitsOk(ws[w := ws[w].(phase := phase)], p, now)
  {
    hide Committed;
    var all := ws[w := ws[w].(phase := phase)];
    assert forall v | 0 <= v < |ws| :: all[v].sub == ws[v].sub && (CommittedTo(all[v], p) ==> CommittedTo(ws[v], p));
    assert forall v | 0 <= v < |ws| && v != w :: all[v] == ws[v];
  }

  lemma WorkWaits(s: State, w: nat, op: Op, p: Plan, ever: set<string>)
    requires Waits(s, p, ever) && w < |s.workers| && s.workers[w].job < |s.jobs|
    ensures var e := Next(s, Work(w, op)); Waits(e, p, ever + DoneIn(e.records, p))
  {
    AwaitingRecords(s, w, op, p);
    AwaitingPhase(s, w, op, p);
    hide WorkerStep, DoneIn, CommitsOk, CommittedTo, OneEntryPerTask;
    var e := WorkerStep(s, w, op);
    var now := ever + DoneIn(e.records, p);
    if DoneIn(e.records, p) <= DoneIn(s.records, p) { assert now == ever; }
    CommitsStep(s.workers, w, e.phase, p, ever, now);
  }

  /** Spawned workers start before the check, and a crash leaves none. */
  lemma SpawnWaits(s: State, q: Plan, subs: seq<SubGoal>, p: Plan, ever: set<string>)
    requires Waits(s, p, ever)
    ensures Waits(Spawned(s, q, subs), p, ever)
  {
    var more := SpawnParts(s, q, subs);
    hide Spawned, DoneIn, OneEntryPerTask;
    var all := s.workers + more;
    forall w | 0 <= w < |all| ensures CommittedTo(all[w], p) ==> w < |s.workers| && all[w] == s.workers[w] {
      if w >= |s.workers| { assert all[w] == more[w - |s.workers|]; }
    }
  }

  lemma CrashWaits(s: State, p: Plan, ever: set<string>)
    requires Waits(s, p, ever)
    ensures Waits(Crashed(s), p, ever)
  {
    hide DoneIn, OneEntryPerTask;
    assert forall w | 0 <= w < |s.workers| :: !CommittedTo(Crashed(s).workers[w], p);
  }

  lemma RecordsWait(s: State, t: State, p: Plan, ever: set<string>)
    requires Waits(s, p, ever) && t.workers == s.workers && p.goalID in t.records
    requires t.records[p.goalID] == s.records[p.goalID]
    ensures Waits(t, p, ever)
  {
  }

  /** Whatever happens to an awaiting goal, resumes at any moment included, short of being admitted or launched anew. */
  lemma StepWaits(s: State, a: Action, p: Plan, ever: set<string>)
    requires Waits(s, p, ever) && Mild(a, p.goalID)
    ensures Waits(Next(s, a), p, ever + DoneIn(Next(s, a).records, p))
  {
    hide WorkerStep, PlanOf, PlanJson, Remaining, AllDone, CommitsOk, OneEntryPerTask, Spawned, DoneIn;
    if a.Work? && a.w < |s.workers| && s.workers[a.w].job < |s.jobs| {
      WorkWaits(s, a.w, a.op, p, ever);
    } else {
      OtherWaits(s, a, p, ever);
      WaitsEver(Next(s, a), p, ever);
    }
  }

  lemma OtherWaits(s: State, a: Action, p: Plan, ever: set<string>)
    requires Waits(s, p, ever) && Mild(a, p.goalID) && !(a.Work? && a.w < |s.workers| && s.workers[a.w].job < |s.jobs|)
    ensures Waits(Next(s, a), p, ever)
  {
    hide PlanOf, PlanJson, Remaining, AllDone, CommitsOk, OneEntryPerTask, Spawned, DoneIn, Waits;
    assert Awaiting(s.records, p.goalID) by { WaitsAwaits(s, p, ever); }
    match a
    case Work(_, _) =>
    case Launch(q, subs) => SpawnWaits(s, q, subs, p, ever);
    case Resume(g, _) =>
      if g in s.records && PlanOf(s.records[g].plan).Some? {
        var q := PlanOf(s.records[g].plan).value;
        var rest := Remaining(q.subGoals, CompletedTasks(s.records[g]));
        if rest == [] { RecordsWait(s, Next(s, a), p, ever); } else { SpawnWaits(s, q, rest, p, ever); }
      }
    case Crash => CrashWaits(s, p, ever);
    case _ => RecordsWait(s, Next(s, a), p, ever);
  }

  lemma WaitsAwaits(s: State, p: Plan, ever: set<string>)
    requires Waits(s, p, ever)
    ensures Awaiting(s.records, p.goalID)
  {
  }

  lemma WaitsEver(s: State, p: Plan, ever: set<string>)
    requires Waits(s, p, ever)
    ensures ever + DoneIn(s.records, p) == ever
  {
  }

  // ---------------------------------------------------------------- whole runs

  /** What was recorded completed at any point of the run. */
  ghost function Ever(s: State, acts: seq<Action>, p: Plan): set<string> {
    (if acts == [] then {} else Ever(s, acts[..|acts| - 1], p)) + DoneIn(Exec(s, acts).records, p)
  }

  /** The plan is in order, or its goal awaits approval; `ever` is what was ever completed. */
  ghost predicate Inv(s: State, p: Plan, ever: set<string>) {
    (Pursued(s, p) && ever == DoneIn(s.records, p)) || Waits(s, p, ever)
  }

  lemma StepInv(s: State, a: Action, p: Plan, ever: set<string>)
    requires Inv(s, p, ever) && Proper(s, a, p, false)
    ensures Inv(Next(s, a), p, ever + DoneIn(Next(s, a).records, p))
  {
    hide Next, Pursued, Waits, DoneIn, Calm;
    if Pursued(s, p) && ever == DoneIn(s.records, p) {
      if Proper(s, a, p, true) {
        StepKeeps(s, a, p);
      } else {
        PursuedWaits(s, p);
        StepWaits(s, a, p, ever);
      }
    } else {
      StepWaits(s, a, p, ever);
    }
  }

  lemma {:induction false} RunInv(s: State, acts: seq<Action>, p: Plan, ever: set<string>)
    requires Inv(s, p, ever) && Careful(s, acts, p, false)
    ensures Inv(Exec(s, acts), p, ever + Ever(s, acts, p))
  {
    hide Next, Inv, DoneIn, Proper;
    if acts == [] {
      InvEver(s, p, ever);
      assert Ever(s, acts, p) == DoneIn(s.records, p);
    } else {
      var n := |acts| - 1;
      RunInv(s, acts[..n], p, ever);
      StepInv(Exec(s, acts[..n]), acts[n], p, ever + Ever(s, acts[..n], p));
      assert ever + Ever(s, acts[..n], p) + DoneIn(Exec(s, acts).records, p) == ever + Ever(s, acts, p);
    }
  }

  lemma InvEver(s: State, p: Plan, ever: set<string>)
    requires Inv(s, p, ever)
    ensures ever + DoneIn(s.records, p) == ever
  {
  }

  lemma InvPassed(s: State, p: Plan, ever: set<string>, w: nat)
    requires Inv(s, p, ever) && w < |s.workers| && s.workers[w].goalID == p.goalID && s.workers[w].phase.Passed?
    ensures s.workers[w].sub.task.id !in ever
  {
    assert Engaged(s.workers[w], p) && CommittedTo(s.workers[w], p);
  }

  lemma {:induction false} EverHas(s: State, acts: seq<Action>, m: nat, p: Plan)
    requires m <= |acts|
    ensures DoneIn(Exec(s, acts[..m]).records, p) <= Ever(s, acts, p)
    decreases |acts|
  {
    if m < |acts| {
      EverHas(s, acts[..|acts| - 1], m, p);
      assert acts[..|acts| - 1][..m] == acts[..m];
    } else {
      assert acts[..m] == acts;
    }
  }

  /** A sub-goal recorded completed at any point of a run is not dispatched at any later one, as long as every resume
      of the goal comes when none of its workers can still write its attempt, or while it awaits approval: when a
      worker of the plan stands before its dispatch, its task was never completed before. */
  lemma NeverRedispatched(s: State, acts: seq<Action>, m: nat, w: nat, p: Plan)
    requires Pursued(s, p) && Careful(s, acts, p, false) && m <= |acts|
    requires var e := Exec(s, acts); w < |e.workers| && e.workers[w].goalID == p.goalID && e.workers[w].phase.Passed?
    ensures Exec(s, acts).workers[w].sub.task.id !in DoneIn(Exec(s, acts[..m]).records, p)
  {
    hide Exec, Careful, Pursued;
    RunInv(s, acts, p, DoneIn(s.records, p));
    InvPassed(Exec(s, acts), p, DoneIn(s.records, p) + Ever(s, acts, p), w);
    EverHas(s, acts, m, p);
  }

  /** Each task has at most one attempt entry, and the record says completed only when every sub-goal is. */
  lemma RecordStaysInOrder(s: State, acts: seq<Action>, p: Plan)
    requires Pursued(s, p) && Careful(s, acts, p, false)
    ensures var rs := Exec(s, acts).records;
            && p.goalID in rs && OneEntryPerTask(rs[p.goalID])
            && (rs[p.goalID].status == Status.Completed ==> AllDone(p, rs[p.goalID]))
  {
    hide Exec, Careful;
    RunInv(s, acts, p, DoneIn(s.records, p));
  }

  lemma {:induction false} CalmKeeps(s: State, acts: seq<Action>, p: Plan)
    requires Pursued(s, p) && Careful(s, acts, p, true)
    ensures Pursued(Exec(s, acts), p)
  {
    hide Next, Pursued, Proper;
    if acts != [] {
      CalmKeeps(s, acts[..|acts| - 1], p);
      StepKeeps(Exec(s, acts[..|acts| - 1]), acts[|acts| - 1], p);
    }
  }

  /** With resumes at calm moments only, a completion is never taken back. */
  lemma {:induction false} CompletionsStay(s: State, acts: seq<Action>, m: nat, p: Plan)
    requires Pursued(s, p) && Careful(s, acts, p, true) && m <= |acts|
    ensures DoneIn(Exec(s, acts[..m]).records, p) <= DoneIn(Exec(s, acts).records, p)
    decreases |acts|
  {
    hide Next, Pursued, DoneIn, Proper;
    if m < |acts| {
      var n := |acts| - 1;
      CompletionsStay(s, acts[..n], m, p);
      assert acts[..n][..m] == acts[..m];
      CalmKeeps(s, acts[..n], p);
      StepKeeps(Exec(s, acts[..n]), acts[n], p);
    } else {
      assert acts[..m] == acts;
    }
  }
}
