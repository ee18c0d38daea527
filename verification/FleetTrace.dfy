/** What the fleet's trace says about every interleaving: each worker's own history, the place of the
    completion event, and whose outcome sits in which slot. */
module FleetTrace {
  import opened Plans
  import opened Planner
  import opened RunJournal
  import opened Fleet

  predicate About(e: Event, w: nat) { !e.Complete? && e.worker == w }

  /** The events of one worker, in order. */
  function Hist(trace: seq<Event>, w: nat): seq<Event> {
    if trace == [] then []
    else Hist(trace[..|trace| - 1], w) + if About(trace[|trace| - 1], w) then [trace[|trace| - 1]] else []
  }

  lemma HistAppend(trace: seq<Event>, e: Event, w: nat)
    ensures Hist(trace + [e], w) == Hist(trace, w) + if About(e, w) then [e] else []
  {
    assert (trace + [e])[..|trace|] == trace;
  }

  function Approved(w: nat): seq<Event> { [Gate(w, Allow)] }

  function Dispatched(w: nat, goalID: string): seq<Event> { [Gate(w, Allow), Start(w, goalID)] }

  /** The history a worker can have in each phase. */
  predicate HistOk(p: Phase, h: seq<Event>, w: nat, goalID: string) {
    match p
    case Fresh => h == []
    case Judged(d, _) => h == [Gate(w, d)]
    case Cleared => h == Approved(w)
    case Queued => h == Approved(w)
    case Holding => h == Approved(w)
    case Passed => h == Approved(w)
    case Busy(_) => h == Dispatched(w, goalID)
    case Returned(e) => h == if e == Paused then Approved(w) else Dispatched(w, goalID)
    case Released(e) => EndedOk(e, h, w, goalID)
    case Done(r, unaudited) =>
      if unaudited then
        |h| == 2 && h[0].Gate? && h[0] == Gate(w, h[0].decision) && h[0].decision != Allow && h[1] == Unaudited(w)
      else h == [] || (|h| == 1 && h[0].Gate? && h[0].worker == w && !r.success) || h == Dispatched(w, goalID)
    case Dead => h == [] || (|h| == 1 && h[0].Gate? && h[0].worker == w) || h == Dispatched(w, goalID)
  }

  /** A cancelled wait for a permit ends a worker that never started. */
  predicate EndedOk(e: Ending, h: seq<Event>, w: nat, goalID: string) {
    match e
    case Paused => h == Approved(w)
    case Broke => h == Approved(w) || h == Dispatched(w, goalID)
    case _ => h == Dispatched(w, goalID)
  }

  /** The outcome names its own sub-goal, and success means dispatched. */
  predicate ReportOk(wk: Worker, h: seq<Event>, w: nat) {
    wk.phase.Done? ==>
      && wk.phase.report.spec == wk.sub.task.spec && wk.phase.report.recipe == wk.sub.recipe
      && (wk.phase.report.success ==> h == Dispatched(w, wk.goalID))
  }

  predicate WorkerOk(wk: Worker, h: seq<Event>, w: nat) {
    HistOk(wk.phase, h, w, wk.goalID) && ReportOk(wk, h, w)
  }

  lemma EffectOk(s: State, w: nat, op: Op, h: seq<Event>)
    requires w < |s.workers| && s.workers[w].job < |s.jobs|
    requires WorkerOk(s.workers[w], h, w)
    ensures var wk, e := s.workers[w], WorkerStep(s, w, op);
            && |e.events| <= 1 && (forall x | x in e.events :: About(x, w))
            && WorkerOk(wk.(phase := e.phase), h + e.events, w)
            && (!Live(wk.phase) ==> e.phase == wk.phase && e.events == [])
  {
    hide DecideSpawn, AttemptRecorded, Pended;
    var e := WorkerStep(s, w, op);
    assert h + [] == h;
    assert e.events != [] ==> e.events == [e.events[0]];
  }

  // ---------------------------------------------------------------- the invariant

  /** Workers and jobs belong together: job `j` owns the `|subs|` workers from `first` on. */
  ghost predicate Shape(s: State) {
    && (forall w | 0 <= w < |s.workers| ::
          var wk := s.workers[w];
          wk.job < |s.jobs| && s.jobs[wk.job].first <= w < s.jobs[wk.job].first + |s.jobs[wk.job].subs|
          && wk.sub == s.jobs[wk.job].subs[w - s.jobs[wk.job].first] && wk.goalID == s.jobs[wk.job].plan.goalID)
    && (forall j | 0 <= j < |s.jobs| :: s.jobs[j].first + |s.jobs[j].subs| <= |s.workers|)
    && (forall j,
        w | 0 <= j < |s.jobs| && s.jobs[j].first <= w < s.jobs[j].first + |s.jobs[j].subs| :: s.workers[w].job == j)
  }

  ghost predicate Histories(s: State) {
    && (forall w | 0 <= w < |s.workers| :: WorkerOk(s.workers[w], Hist(s.trace, w), w))
    && (forall e | e in s.trace && !e.Complete? :: e.worker < |s.workers|)
  }

  /** A job past its join has a finished team and exactly that team's outcomes. */
  ghost predicate JobOk(s: State, j: nat)
    requires j < |s.jobs| && s.jobs[j].first + |s.jobs[j].subs| <= |s.workers|
  {
    match s.jobs[j].state
    case Joining => true
    case Halted(reports) => Ready(s, j) && AnyUnaudited(Team(s, j)) && reports == Reports(Team(s, j))
    case Lost => forall w | w in Team(s, j) :: !Live(w.phase)
    case _ => Ready(s, j) && !AnyUnaudited(Team(s, j)) && s.jobs[j].state.reports == Reports(Team(s, j))
  }

  ghost predicate Jobs(s: State) {
    Shape(s) && forall j | 0 <= j < |s.jobs| :: JobOk(s, j)
  }

  /** Completion comes once its job is finished, and nothing about the job's workers comes after it. */
  ghost predicate Completions(s: State) {
    && (forall k | 0 <= k < |s.trace| && s.trace[k].Complete? ::
          s.trace[k].job < |s.jobs| && s.jobs[s.trace[k].job].state.Finished?)
    && (forall k, m | 0 <= k < m < |s.trace| && s.trace[k].Complete? && !s.trace[m].Complete? ::
          s.trace[m].worker < |s.workers| && s.workers[s.trace[m].worker].job != s.trace[k].job)
  }

  ghost predicate Sound(s: State) { Shape(s) && Histories(s) && Jobs(s) && Completions(s) }

  // ---------------------------------------------------------------- every step keeps it

  lemma {:induction false} HistEmpty(trace: seq<Event>, w: nat)
    requires forall e | e in trace && !e.Complete? :: e.worker < w
    ensures Hist(trace, w) == []
  {
    if trace != [] {
      assert trace[|trace| - 1] in trace;
      HistEmpty(trace[..|trace| - 1], w);
    }
  }

  lemma HistExtend(trace: seq<Event>, events: seq<Event>, w: nat, v: nat)
    requires |events| <= 1 && forall x | x in events :: About(x, w)
    ensures Hist(trace + events, v) == if v == w then Hist(trace, v) + events else Hist(trace, v)
  {
    hide Hist;
    if events == [] {
      assert trace + events == trace && Hist(trace, v) + [] == Hist(trace, v);
    } else {
      assert events == [events[0]] && About(events[0], w);
      HistAppend(trace, events[0], v);
      assert Hist(trace, v) + [] == Hist(trace, v);
    }
  }

  lemma WorkHistories(s: State, w: nat, op: Op)
    requires Shape(s) && Histories(s) && w < |s.workers|
    ensures Histories(Next(s, Work(w, op)))
  {
    var e, t := WorkerStep(s, w, op), Next(s, Work(w, op));
    EffectOk(s, w, op, Hist(s.trace, w));
    hide WorkerStep, WorkerOk, Hist, Shape;
    forall v | 0 <= v < |s.workers| ensures WorkerOk(t.workers[v], Hist(t.trace, v), v) {
      HistExtend(s.trace, e.events, w, v);
    }
  }

  /** A step can only move a live worker, and a live worker's job is still joining. */
  lemma OnlyJoiningMoves(s: State, w: nat)
    requires Jobs(s) && w < |s.workers| && Live(s.workers[w].phase)
    ensures s.jobs[s.workers[w].job].state.Joining?
  {
    var j := s.workers[w].job;
    assert Team(s, j)[w - s.jobs[j].first] == s.workers[w] && s.workers[w] in Team(s, j);
    assert JobOk(s, j);
  }

  lemma WorkShape(s: State, w: nat, op: Op)
    requires Shape(s) && w < |s.workers|
    ensures Shape(Next(s, Work(w, op)))
  {
    hide WorkerStep, Shape;
    assert s.workers[w].job < |s.jobs| by { WorkerHasJob(s, w); }
    PhaseShape(s, Next(s, Work(w, op)), w);
  }

  lemma WorkerHasJob(s: State, w: nat)
    requires Shape(s) && w < |s.workers|
    ensures s.workers[w].job < |s.jobs|
  {
  }

  lemma PhaseShape(s: State, t: State, w: nat)
    requires Shape(s) && w < |s.workers| && t.jobs == s.jobs
    requires exists p :: t.workers == s.workers[w := s.workers[w].(phase := p)]
    ensures Shape(t)
  {
  }

  lemma WorkJobs(s: State, w: nat, op: Op)
    requires Histories(s) && Jobs(s) && w < |s.workers|
    ensures Jobs(Next(s, Work(w, op)))
  {
    var t := Next(s, Work(w, op));
    WorkShape(s, w, op);
    EffectOk(s, w, op, Hist(s.trace, w));
    if Live(s.workers[w].phase) { OnlyJoiningMoves(s, w); }
    hide WorkerStep, WorkerOk, Histories, AnyUnaudited, Ready, Reports;
    forall j | 0 <= j < |t.jobs| ensures JobOk(t, j) {
      assert JobOk(s, j);
      if !s.jobs[j].state.Joining? {
        assert Team(t, j) == Team(s, j) by { SameTeam(s, t, j, w); }
        JobSame(s, t, j);
      }
    }
  }

  lemma SameTeam(s: State, t: State, j: nat, w: nat)
    requires Shape(s) && j < |s.jobs| && t.jobs == s.jobs && w < |s.workers| && |t.workers| == |s.workers|
    requires forall v | 0 <= v < |s.workers| && v != w :: t.workers[v] == s.workers[v]
    requires s.workers[w].job == j ==> t.workers[w] == s.workers[w]
    ensures Team(t, j) == Team(s, j)
  {
    forall i | 0 <= i < |Team(s, j)| ensures Team(t, j)[i] == Team(s, j)[i] {
      assert s.workers[s.jobs[j].first + i].job == j;
    }
  }

  lemma JobSame(s: State, t: State, j: nat)
    requires j < |s.jobs| && s.jobs[j].first + |s.jobs[j].subs| <= |s.workers| && JobOk(s, j)
    requires j < |t.jobs| && t.jobs[j] == s.jobs[j] && t.jobs[j].first + |t.jobs[j].subs| <= |t.workers|
    requires Team(t, j) == Team(s, j)
    ensures JobOk(t, j)
  {
  }

  lemma WorkCompletions(s: State, w: nat, op: Op)
    requires Sound(s) && w < |s.workers|
    ensures Completions(Next(s, Work(w, op)))
  {
    var e, t := WorkerStep(s, w, op), Next(s, Work(w, op));
    EffectOk(s, w, op, Hist(s.trace, w));
    if Live(s.workers[w].phase) { OnlyJoiningMoves(s, w); }
    assert forall k | 0 <= k < |s.trace| && s.trace[k].Complete? ::
             e.events != [] ==> s.trace[k].job != s.workers[w].job;
    hide WorkerStep, WorkerOk, Histories, Jobs, Shape, Hist;
    assert t.jobs == s.jobs && forall v | 0 <= v < |s.workers| :: t.workers[v].job == s.workers[v].job;
    AppendCompletions(s, t, e.events, w);
  }

  lemma AppendCompletions(s: State, t: State, events: seq<Event>, w: nat)
    requires Completions(s) && t.trace == s.trace + events && t.jobs == s.jobs && |t.workers| == |s.workers|
    requires forall v | 0 <= v < |s.workers| :: t.workers[v].job == s.workers[v].job
    requires w < |s.workers| && forall x | x in events :: About(x, w)
    requires forall k | 0 <= k < |s.trace| && s.trace[k].Complete? ::
               events != [] ==> s.trace[k].job != s.workers[w].job
    ensures Completions(t)
  {
    forall k | |s.trace| <= k < |t.trace| ensures !t.trace[k].Complete? { assert t.trace[k] in events; }
    assert forall k | 0 <= k < |s.trace| :: t.trace[k] == s.trace[k];
    forall k, m | 0 <= k < m < |t.trace| && t.trace[k].Complete? && !t.trace[m].Complete?
      ensures t.trace[m].worker < |t.workers| && t.workers[t.trace[m].worker].job != t.trace[k].job
    {
      assert s.trace[k].Complete?;
      if m >= |s.trace| { assert t.trace[m] in events; } else { assert t.trace[m] == s.trace[m]; }
    }
  }

  lemma SpawnSound(s: State, plan: Plan, subs: seq<SubGoal>)
    requires Sound(s)
    ensures Sound(Spawned(s, plan, subs))
  {
    var t := Spawned(s, plan, subs);
    assert Shape(t) && Completions(t) by { hide Hist, WorkerOk, JobOk; }
    SpawnHistories(s, t);
    hide Histories, Completions;
    forall j | 0 <= j < |s.jobs| ensures JobOk(t, j) {
      assert JobOk(s, j) && Team(t, j) == Team(s, j);
      JobSame(s, t, j);
    }
    assert JobOk(t, |s.jobs|);
  }

  lemma SpawnHistories(s: State, t: State)
    requires Histories(s) && t.trace == s.trace && s.workers <= t.workers
    requires forall w | |s.workers| <= w < |t.workers| :: t.workers[w].phase == Fresh
    ensures Histories(t)
  {
    hide Hist;
    forall w | 0 <= w < |t.workers| ensures WorkerOk(t.workers[w], Hist(t.trace, w), w) {
      if w < |s.workers| { assert t.workers[w] == s.workers[w]; } else { HistEmpty(s.trace, w); }
    }
  }

  lemma CrashHistories(s: State)
    requires Histories(s)
    ensures Histories(Crashed(s))
  {
    hide Hist;
    var t := Crashed(s);
    forall w | 0 <= w < |t.workers| ensures WorkerOk(t.workers[w], Hist(t.trace, w), w) {
      assert WorkerOk(s.workers[w], Hist(s.trace, w), w);
    }
  }

  lemma CrashKeepsDone(s: State, j: nat)
    requires j < |s.jobs| && s.jobs[j].first + |s.jobs[j].subs| <= |s.workers|
    requires forall w | w in Team(s, j) :: w.phase.Done?
    ensures Crashed(s).jobs[j].first == s.jobs[j].first && Crashed(s).jobs[j].subs == s.jobs[j].subs
    ensures Team(Crashed(s), j) == Team(s, j)
  {
    var t, f := Crashed(s), s.jobs[j].first;
    forall v | f <= v < f + |s.jobs[j].subs| ensures t.workers[v] == s.workers[v] {
      assert Team(s, j)[v - f] == s.workers[v] && s.workers[v] in Team(s, j);
    }
  }

  lemma CrashLeavesNoneLive(s: State, j: nat)
    requires j < |s.jobs| && s.jobs[j].first + |s.jobs[j].subs| <= |s.workers|
    ensures Crashed(s).jobs[j].first == s.jobs[j].first && Crashed(s).jobs[j].subs == s.jobs[j].subs
    ensures forall w | w in Team(Crashed(s), j) :: !Live(w.phase)
  {
    forall w | w in Team(Crashed(s), j) ensures !Live(w.phase) {
      assert w in Crashed(s).workers;
    }
  }

  lemma CrashJob(s: State, j: nat)
    requires j < |s.jobs| && s.jobs[j].first + |s.jobs[j].subs| <= |s.workers| && JobOk(s, j)
    ensures |Crashed(s).workers| == |s.workers| && Crashed(s).jobs[j].first == s.jobs[j].first
    ensures Crashed(s).jobs[j].subs == s.jobs[j].subs
    ensures JobOk(Crashed(s), j)
  {
    CrashLeavesNoneLive(s, j);
    if s.jobs[j].state.Finished? || s.jobs[j].state.Halted? {
      CrashKeepsDone(s, j);
      JobSame(s, Crashed(s), j);
    }
  }

  lemma CrashSound(s: State)
    requires Sound(s)
    ensures Sound(Crashed(s))
  {
    assert Shape(Crashed(s)) && Completions(Crashed(s)) by { hide Histories, JobOk; }
    CrashHistories(s);
    hide Histories, Completions, Crashed;
    assert |Crashed(s).jobs| == |s.jobs| by { CrashSize(s); }
    forall j | 0 <= j < |s.jobs| ensures JobOk(Crashed(s), j) { CrashJob(s, j); }
  }

  lemma CrashSize(s: State)
    ensures |Crashed(s).jobs| == |s.jobs|
  {
  }

  lemma JobStepSound(s: State, t: State, j: nat)
    requires Sound(s) && j < |s.jobs|
    requires exists state :: t.jobs == s.jobs[j := s.jobs[j].(state := state)]
    requires t.workers == s.workers && JobOk(t, j)
    requires t.trace == s.trace || (t.trace == s.trace + [Complete(j)] && t.jobs[j].state.Finished?)
    requires s.jobs[j].state.Finished? ==> t.jobs[j].state.Finished?
    ensures Sound(t)
  {
    assert Shape(t);
    forall w: nat ensures Hist(t.trace, w) == Hist(s.trace, w) {
      HistAppend(s.trace, Complete(j), w);
      assert Hist(s.trace, w) + [] == Hist(s.trace, w);
    }
    hide Hist, WorkerOk;
    assert Histories(t);
    forall i | 0 <= i < |t.jobs| ensures JobOk(t, i) {
      if i != j { assert JobOk(s, i); JobSame(s, t, i); }
    }
    assert Completions(t);
  }

  lemma StepSound(s: State, a: Action)
    requires Sound(s)
    ensures Sound(Next(s, a))
  {
    hide WorkerStep, Remaining, CompletedTasks, PlanOf, Finalized, Admitted, Histories, Completions, Jobs;
    match a
    case Work(w, op) =>
      if w < |s.workers| {
        WorkShape(s, w, op);
        WorkHistories(s, w, op);
        WorkJobs(s, w, op);
        WorkCompletions(s, w, op);
      }
    case AdmitPlan(_, _) => RecordsOnly(s, Next(s, a));
    case Launch(plan, subs) => SpawnSound(s, plan, subs);
    case Resume(g, _) =>
      if Next(s, a).jobs != s.jobs {
        var plan := PlanOf(s.records[g].plan).value;
        SpawnSound(s, plan, Remaining(plan.subGoals, CompletedTasks(s.records[g])));
      } else {
        RecordsOnly(s, Next(s, a));
      }
    case Join(j) => JobAdvance(s, a, j);
    case Settle(j, _) => JobAdvance(s, a, j);
    case Emit(j) => JobAdvance(s, a, j);
    case Crash => CrashSound(s);
  }

  lemma RecordsOnly(s: State, t: State)
    requires Sound(s) && t.jobs == s.jobs && t.workers == s.workers && t.trace == s.trace
    ensures Sound(t)
  {
    forall j | 0 <= j < |t.jobs| ensures JobOk(t, j) { assert JobOk(s, j); JobSame(s, t, j); }
  }

  lemma JobAdvance(s: State, a: Action, j: nat)
    requires Sound(s) && (a == Join(j) || a == Emit(j) || (a.Settle? && a.j == j))
    ensures Sound(Next(s, a))
  {
    var t := Next(s, a);
    if j < |s.jobs| && t.jobs != s.jobs {
      assert JobOk(s, j);
      assert t.jobs == s.jobs[j := s.jobs[j].(state := t.jobs[j].state)];
      assert Team(t, j) == Team(s, j);
      JobStepSound(s, t, j);
    } else {
      RecordsOnly(s, t);
    }
  }

  lemma {:induction false} RunSound(s: State, acts: seq<Action>)
    requires Initial(s)
    ensures Sound(Exec(s, acts))
  {
    hide Next;
    if acts != [] {
      RunSound(s, acts[..|acts| - 1]);
      StepSound(Exec(s, acts[..|acts| - 1]), acts[|acts| - 1]);
    }
  }

  // ---------------------------------------------------------------- what it means

  lemma {:induction false} HistPrefix(trace: seq<Event>, k: nat, w: nat)
    requires k <= |trace|
    ensures Hist(trace[..k], w) <= Hist(trace, w)
  {
    var n := |trace| - 1;
    if k <= n {
      assert trace[..n][..k] == trace[..k];
      HistPrefix(trace[..n], k, w);
    } else {
      assert trace[..k] == trace;
    }
  }

  lemma {:induction false} HistIn(trace: seq<Event>, w: nat, e: Event)
    ensures e in Hist(trace, w) <==> e in trace && About(e, w)
  {
    if trace != [] {
      var n := |trace| - 1;
      assert trace == trace[..n] + [trace[n]];
      HistIn(trace[..n], w, e);
    }
  }

  lemma EventAt(trace: seq<Event>, k: nat, w: nat)
    requires k < |trace| && About(trace[k], w)
    ensures Hist(trace[..k], w) + [trace[k]] <= Hist(trace, w)
  {
    assert trace[..k + 1] == trace[..k] + [trace[k]];
    HistAppend(trace[..k], trace[k], w);
    HistPrefix(trace, k + 1, w);
  }

  lemma LaterEvent(trace: seq<Event>, k: nat, m: nat, w: nat)
    requires k < m < |trace| && About(trace[k], w) && About(trace[m], w)
    ensures |Hist(trace[..k], w)| < |Hist(trace[..m], w)|
  {
    EventAt(trace[..m], k, w);
    assert trace[..m][..k] == trace[..k];
  }

  ghost predicate GatedOnce(trace: seq<Event>, k: nat, w: nat)
    requires k < |trace|
  {
    && Gate(w, Allow) in trace[..k]
    && (forall d | Gate(w, d) in trace :: d == Allow)
    && (forall m | 0 <= m < |trace| && trace[m].Start? && trace[m].worker == w :: m == k)
    && Unaudited(w) !in trace
  }

  lemma OnlyDispatchedStart(wk: Worker, h: seq<Event>, w: nat, e: Event)
    requires WorkerOk(wk, h, w) && e in h && e.Start?
    ensures h == Dispatched(w, wk.goalID)
  {
  }

  lemma StartAt(trace: seq<Event>, k: nat, w: nat, goalID: string)
    requires Hist(trace, w) == Dispatched(w, goalID) && k < |trace| && About(trace[k], w) && trace[k].Start?
    ensures Hist(trace[..k], w) == Approved(w)
  {
    EventAt(trace, k, w);
    hide Hist;
    var h := Hist(trace[..k], w);
    assert (h + [trace[k]])[|h|] == trace[k] == Dispatched(w, goalID)[|h|];
    assert |h| == 1 && h[0] == (h + [trace[k]])[0] == Dispatched(w, goalID)[0];
  }

  lemma StartInHistory(trace: seq<Event>, k: nat, w: nat, goalID: string, wk: Worker)
    requires k < |trace| && trace[k] == Start(w, goalID) && WorkerOk(wk, Hist(trace, w), w)
    ensures GatedOnce(trace, k, w)
  {
    hide Hist, WorkerOk;
    HistIn(trace, w, trace[k]);
    OnlyDispatchedStart(wk, Hist(trace, w), w, trace[k]);
    StartAt(trace, k, w, wk.goalID);
    HistIn(trace[..k], w, Gate(w, Allow));
    forall d | Gate(w, d) in trace ensures d == Allow { HistIn(trace, w, Gate(w, d)); }
    HistIn(trace, w, Unaudited(w));
    forall m | 0 <= m < |trace| && trace[m].Start? && trace[m].worker == w ensures m == k {
      StartAt(trace, m, w, wk.goalID);
      if m < k { LaterEvent(trace, m, k, w); } else if k < m { LaterEvent(trace, k, m, w); }
    }
  }

  /** In every interleaving a dispatch comes after its own worker's allow decision, happens once, and a worker
      whose decision was anything but allow never starts. */
  lemma StartFollowsGate(s0: State, acts: seq<Action>, k: nat, w: nat, goalID: string)
    requires Initial(s0)
    requires var trace := Exec(s0, acts).trace; k < |trace| && trace[k] == Start(w, goalID)
    ensures GatedOnce(Exec(s0, acts).trace, k, w)
  {
    hide Exec, Shape, Jobs, Completions, WorkerOk;
    RunSound(s0, acts);
    var s := Exec(s0, acts);
    assert s.trace[k] in s.trace;
    StartInHistory(s.trace, k, w, goalID, s.workers[w]);
  }

  ghost predicate Closed(s: State, j: nat, k: nat) {
    && j < |s.jobs| && Ready(s, j)
    && (forall w | s.jobs[j].first <= w < s.jobs[j].first + |s.jobs[j].subs| ::
          Unaudited(w) !in s.trace && forall m | k < m < |s.trace| :: !About(s.trace[m], w))
  }

  lemma TeamMember(s: State, j: nat, w: nat)
    requires Shape(s) && j < |s.jobs| && s.jobs[j].first <= w < s.jobs[j].first + |s.jobs[j].subs|
    ensures w < |s.workers| && s.workers[w] in Team(s, j) && Team(s, j)[w - s.jobs[j].first] == s.workers[w]
    ensures s.workers[w].job == j && s.workers[w].sub == s.jobs[j].subs[w - s.jobs[j].first]
    ensures s.workers[w].goalID == s.jobs[j].plan.goalID
  {
    assert Team(s, j)[w - s.jobs[j].first] == s.workers[w];
  }

  lemma NoUnaudited(s: State, j: nat, w: nat)
    requires Shape(s) && Histories(s) && j < |s.jobs| && s.jobs[j].first <= w < s.jobs[j].first + |s.jobs[j].subs|
    requires Ready(s, j) && !AnyUnaudited(Team(s, j))
    ensures Unaudited(w) !in s.trace
  {
    hide Hist;
    TeamMember(s, j, w);
    assert WorkerOk(s.workers[w], Hist(s.trace, w), w);
    hide Shape, Histories;
    HistIn(s.trace, w, Unaudited(w));
  }

  lemma ClosedWhenComplete(s: State, k: nat, j: nat)
    requires Sound(s) && k < |s.trace| && s.trace[k] == Complete(j)
    ensures Closed(s, j, k)
  {
    assert JobOk(s, j);
    hide Histories, Jobs, AnyUnaudited, JobOk;
    forall w | s.jobs[j].first <= w < s.jobs[j].first + |s.jobs[j].subs|
      ensures Unaudited(w) !in s.trace && forall m | k < m < |s.trace| :: !About(s.trace[m], w)
    {
      NoUnaudited(s, j, w);
      TeamMember(s, j, w);
    }
  }

  /** Completion is a job's last word: by then every worker of it is done and every deny was audited, and no
      event of any of its workers follows. */
  lemma CompletionIsLast(s0: State, acts: seq<Action>, k: nat, j: nat)
    requires Initial(s0)
    requires var trace := Exec(s0, acts).trace; k < |trace| && trace[k] == Complete(j)
    ensures Closed(Exec(s0, acts), j, k)
  {
    hide Exec, Sound, Closed;
    RunSound(s0, acts);
    ClosedWhenComplete(Exec(s0, acts), k, j);
  }

  ghost predicate OwnOutcome(s: State, j: nat, i: nat)
    requires j < |s.jobs| && i < |s.jobs[j].subs| && !s.jobs[j].state.Joining? && !s.jobs[j].state.Lost?
  {
    var job, w := s.jobs[j], s.jobs[j].first + i;
    && |job.state.reports| == |job.subs|
    && job.state.reports[i].spec == job.subs[i].task.spec && job.state.reports[i].recipe == job.subs[i].recipe
    && (job.state.reports[i].success ==> Gate(w, Allow) in s.trace && Start(w, job.plan.goalID) in s.trace)
  }

  lemma OutcomeIsOwn(s: State, j: nat, i: nat)
    requires Sound(s) && j < |s.jobs| && i < |s.jobs[j].subs| && !s.jobs[j].state.Joining? && !s.jobs[j].state.Lost?
    ensures OwnOutcome(s, j, i)
  {
    hide Hist, HistOk, Completions;
    assert JobOk(s, j);
    var w := s.jobs[j].first + i;
    TeamMember(s, j, w);
    assert WorkerOk(s.workers[w], Hist(s.trace, w), w);
    hide Shape, Jobs, Histories;
    SuccessWasDispatched(s, w);
    hide WorkerOk;
  }

  lemma SuccessWasDispatched(s: State, w: nat)
    requires w < |s.workers| && WorkerOk(s.workers[w], Hist(s.trace, w), w) && s.workers[w].phase.Done?
    ensures var wk, r := s.workers[w], s.workers[w].phase.report;
            && r.spec == wk.sub.task.spec && r.recipe == wk.sub.recipe
            && (r.success ==> Gate(w, Allow) in s.trace && Start(w, wk.goalID) in s.trace)
  {
    hide Hist, HistOk;
    HistIn(s.trace, w, Gate(w, Allow));
    HistIn(s.trace, w, Start(w, s.workers[w].goalID));
  }

  /** Whatever order the workers finish in, slot `i` of a joined plan holds the outcome of its sub-goal `i`, and
      a success there was dispatched after an allow. */
  lemma OutcomesInOrder(s0: State, acts: seq<Action>, j: nat, i: nat)
    requires Initial(s0)
    requires var s := Exec(s0, acts);
             j < |s.jobs| && i < |s.jobs[j].subs| && !s.jobs[j].state.Joining? && !s.jobs[j].state.Lost?
    ensures OwnOutcome(Exec(s0, acts), j, i)
  {
    hide Exec, Sound, OwnOutcome;
    RunSound(s0, acts);
    OutcomeIsOwn(Exec(s0, acts), j, i);
  }
}
