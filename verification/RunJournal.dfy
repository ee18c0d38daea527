/** The orchestrator's side of the run journal: the locked load-modify-save writers, as functions on the
    store's map and as the methods that run under runStoreMu. Timestamps are not tracked here. */
module RunJournal {
  import opened Json
  import opened RunStore
  import opened Plans

  /** The store as its callers see it: a map from goal to record (module RunStore proves it is one). */
  type Records = map<string, Record>

  function LoadOr(rs: Records, goalID: string, status: Status): Record {
    if goalID in rs then rs[goalID] else Blankish(goalID, status)
  }

  function AttemptCount(rs: Records, goalID: string): nat {
    if goalID in rs then rs[goalID].attempt else 0
  }

  /** persistPlanRecord: a fresh running record for the plan, carrying the goal's attempt counter over. */
  function Admitted(rs: Records, plan: Plan): Records {
    rs[plan.goalID := Blankish(plan.goalID, Running).(goal := plan.goal, plan := PlanJson(plan),
                                                      attempt := AttemptCount(rs, plan.goalID))]
  }

  /** The first attempt entry of a task; the length when it has none. */
  function FindAttempt(ats: seq<AttemptState>, taskID: string): (i: nat)
    ensures i <= |ats|
    ensures forall j | 0 <= j < i :: !(ats[j].taskID == taskID && ats[j].attempt == 1)
    ensures i < |ats| ==> ats[i].taskID == taskID && ats[i].attempt == 1
  {
    if ats == [] || (ats[0].taskID == taskID && ats[0].attempt == 1) then 0 else 1 + FindAttempt(ats[1..], taskID)
  }

  function WithAttempt(ats: seq<AttemptState>, taskID: string, status: Status, detail: string): seq<AttemptState> {
    var i := FindAttempt(ats, taskID);
    var a := AttemptState(taskID, 1, status, detail, 0);
    if i < |ats| then ats[i := a] else ats + [a]
  }

  /** recordAttempt: updates the one entry of its task, or appends it. */
  function AttemptRecorded(rs: Records, goalID: string, taskID: string, status: Status, detail: string): Records {
    var rec := LoadOr(rs, goalID, Running);
    rs[goalID := rec.(attempts := WithAttempt(rec.attempts, taskID, status, detail))]
  }

  function CompletedTasks(rec: Record): set<string> {
    set a | a in rec.attempts && a.status == Completed :: a.taskID
  }

  predicate AllDone(plan: Plan, rec: Record) {
    plan.subGoals != [] && forall s | s in plan.subGoals :: s.task.id in CompletedTasks(rec)
  }

  /** finalizeGoalStatus: terminal once every sub-goal of the plan is done, never past an approval pause. */
  function Finalized(rs: Records, plan: Plan): Records {
    if plan.goalID !in rs then rs
    else
      var rec := rs[plan.goalID];
      if rec.status != AwaitingApproval && AllDone(plan, rec) then rs[plan.goalID := rec.(status := Completed)] else rs
  }

  /** recordPendingApproval. */
  function Pended(rs: Records, goalID: string, taskID: string, reason: string): Records {
    var rec := LoadOr(rs, goalID, Unset);
    rs[goalID := rec.(pending := rec.pending + [PendingApproval(taskID, reason, 0, false)], status := AwaitingApproval)]
  }

  /** planAwaitingApproval. */
  predicate Awaiting(rs: Records, goalID: string) {
    goalID in rs && rs[goalID].status == AwaitingApproval
  }

  /** The sub-goals ResumeFromRecord dispatches again, in plan order. */
  function Remaining(subs: seq<SubGoal>, done: set<string>): (r: seq<SubGoal>)
    ensures forall s :: s in r <==> s in subs && s.task.id !in done
  {
    if subs == [] then []
    else if subs[0].task.id in done then Remaining(subs[1..], done)
    else [subs[0]] + Remaining(subs[1..], done)
  }

  lemma RemainingCons(s: SubGoal, rest: seq<SubGoal>, done: set<string>)
    ensures Remaining([s] + rest, done) == (if s.task.id in done then [] else [s]) + Remaining(rest, done)
  {
    assert ([s] + rest)[1..] == rest;
  }

  /** Sub-goal by sub-goal and in plan order: one with a completed attempt is left out, any other stays. */
  lemma {:induction false} RemainingInOrder(a: seq<SubGoal>, s: SubGoal, b: seq<SubGoal>, done: set<string>)
    ensures Remaining(a + [s] + b, done) ==
            Remaining(a, done) + (if s.task.id in done then [] else [s]) + Remaining(b, done)
  {
    hide Remaining;
    if a == [] {
      assert a + [s] + b == [s] + b && Remaining(a, done) == [] by { NoneRemain(done); }
      RemainingCons(s, b, done);
    } else {
      RemainingInOrder(a[1..], s, b, done);
      assert a + [s] + b == [a[0]] + (a[1..] + [s] + b) && a == [a[0]] + a[1..];
      RemainingCons(a[0], a[1..] + [s] + b, done);
      RemainingCons(a[0], a[1..], done);
    }
  }

  lemma NoneRemain(done: set<string>)
    ensures Remaining([], done) == []
  {
  }

  function Without(ps: seq<PendingApproval>, taskID: string): seq<PendingApproval> {
    if ps == [] then []
    else if ps[0].taskID == taskID then Without(ps[1..], taskID)
    else [ps[0]] + Without(ps[1..], taskID)
  }

  /** ResumeApproval, the locked first half: the pending approval goes; an approval also resumes the goal. */
  function Resolved(rs: Records, goalID: string, taskID: string, approved: bool): Records {
    if goalID !in rs || !(exists p :: p in rs[goalID].pending && p.taskID == taskID) then rs
    else
      var rec := rs[goalID];
      rs[goalID := rec.(pending := Without(rec.pending, taskID), status := if approved then Running else rec.status)]
  }

  /** finalizeAfterApproval: judged by the recorded attempts alone, not by the plan. */
  function AfterApproval(rs: Records, goalID: string): Records {
    if goalID !in rs then rs
    else
      var rec := rs[goalID];
      var status :=
        if rec.pending != [] then AwaitingApproval
        else if exists a :: a in rec.attempts && (a.status == NeedsHuman || a.status == Failed) then Failed
        else if rec.attempts != [] && forall a | a in rec.attempts :: a.status == Completed then Completed
        else Running;
      rs[goalID := rec.(status := status)]
  }

  /** saveAttemptCount. */
  function CountSaved(rs: Records, goalID: string, n: nat): Records {
    rs[goalID := LoadOr(rs, goalID, Running).(attempt := n)]
  }

  // ---------------------------------------------------------------- every writer at once

  datatype Write =
    | Admit(plan: Plan)
    | Attempt(goalID: string, taskID: string, status: Status, detail: string)
    | Finalize(plan: Plan)
    | Pend(goalID: string, taskID: string, reason: string)
    | Resolve(goalID: string, taskID: string, approved: bool)
    | Settle(goalID: string)

  function Written(rs: Records, w: Write): Records {
    match w
    case Admit(plan) => Admitted(rs, plan)
    case Attempt(g, t, status, detail) => AttemptRecorded(rs, g, t, status, detail)
    case Finalize(plan) => Finalized(rs, plan)
    case Pend(g, t, reason) => Pended(rs, g, t, reason)
    case Resolve(g, t, approved) => Resolved(rs, g, t, approved)
    case Settle(g) => AfterApproval(rs, g)
  }

  /** No writer, the re-admission of a new plan included, touches any goal's attempt counter. */
  lemma WritesKeepCount(rs: Records, w: Write, goalID: string)
    ensures AttemptCount(Written(rs, w), goalID) == AttemptCount(rs, goalID)
  {
  }

  /** One entry per task, all of them first attempts: what recordAttempt relies on and keeps. */
  predicate OneEntryPerTask(rec: Record) { OneEach(rec.attempts) }

  predicate OneEach(ats: seq<AttemptState>) {
    (forall a | a in ats :: a.attempt == 1) && forall i, j | 0 <= i < j < |ats| :: ats[i].taskID != ats[j].taskID
  }

  /** Recording an attempt changes exactly one task's entry: it sets that one and loses no other. */
  lemma RecordingOne(rs: Records, goalID: string, taskID: string, status: Status, detail: string)
    requires OneEntryPerTask(LoadOr(rs, goalID, Running))
    ensures var rec, now := LoadOr(rs, goalID, Running), AttemptRecorded(rs, goalID, taskID, status, detail)[goalID];
            && OneEntryPerTask(now) && now.status == rec.status && now.plan == rec.plan
            && AttemptState(taskID, 1, status, detail, 0) in now.attempts
            && (forall a: AttemptState | a.taskID != taskID :: a in now.attempts <==> a in rec.attempts)
            && (forall a | a in now.attempts && a.taskID == taskID :: a.status == status && a.detail == detail)
  {
    hide OneEach, Sets, Placed, WithAttempt, FindAttempt;
    var ats, a := LoadOr(rs, goalID, Running).attempts, AttemptState(taskID, 1, status, detail, 0);
    PlacedIs(ats, taskID, status, detail);
    PlacedOneEach(ats, WithAttempt(ats, taskID, status, detail), a, FindAttempt(ats, taskID));
    PlacedSets(ats, WithAttempt(ats, taskID, status, detail), a, FindAttempt(ats, taskID));
    SetsMeans(ats, WithAttempt(ats, taskID, status, detail), taskID, status, detail);
  }

  /** `now` is `ats` with the entry of `taskID` set to the given one. */
  predicate Sets(ats: seq<AttemptState>, now: seq<AttemptState>, taskID: string, status: Status, detail: string) {
    && AttemptState(taskID, 1, status, detail, 0) in now
    && (forall a | a in now && a.taskID != taskID :: a in ats)
    && (forall a | a in ats && a.taskID != taskID :: a in now)
    && (forall a | a in now && a.taskID == taskID :: a.status == status && a.detail == detail)
  }

  /** `now` is `ats` with `a` at position `i`, which may be one past the end; no other entry has a's task. */
  ghost predicate Placed(ats: seq<AttemptState>, now: seq<AttemptState>, a: AttemptState, i: nat) {
    && i <= |ats| && |now| == (if i < |ats| then |ats| else |ats| + 1) && now[i] == a
    && (forall j | 0 <= j < |ats| && j != i :: now[j] == ats[j] && ats[j].taskID != a.taskID)
    && (i < |ats| ==> ats[i].taskID == a.taskID)
  }

  lemma PlacedIs(ats: seq<AttemptState>, taskID: string, status: Status, detail: string)
    requires OneEach(ats)
    ensures Placed(ats, WithAttempt(ats, taskID, status, detail), AttemptState(taskID, 1, status, detail, 0),
                   FindAttempt(ats, taskID))
  {
    assert forall j | 0 <= j < |ats| :: ats[j] in ats;
  }

  lemma PlacedOneEach(ats: seq<AttemptState>, now: seq<AttemptState>, a: AttemptState, i: nat)
    requires OneEach(ats) && Placed(ats, now, a, i) && a.attempt == 1
    ensures OneEach(now)
  {
    forall x | x in now ensures x.attempt == 1 {
      var j :| 0 <= j < |now| && now[j] == x;
      if j != i { assert ats[j] in ats; }
    }
  }

  lemma SetsMeans(ats: seq<AttemptState>, now: seq<AttemptState>, taskID: string, status: Status, detail: string)
    requires Sets(ats, now, taskID, status, detail)
    ensures AttemptState(taskID, 1, status, detail, 0) in now
    ensures forall a: AttemptState | a.taskID != taskID :: a in now <==> a in ats
    ensures forall a | a in now && a.taskID == taskID :: a.status == status && a.detail == detail
  {
  }

  lemma PlacedSets(ats: seq<AttemptState>, now: seq<AttemptState>, a: AttemptState, i: nat)
    requires Placed(ats, now, a, i) && a.attempt == 1 && a.updatedAt == 0
    ensures Sets(ats, now, a.taskID, a.status, a.detail)
  {
    assert now[i] in now;
    forall x | x in now ensures x == a || (x in ats && x.taskID != a.taskID) {
      var j :| 0 <= j < |now| && now[j] == x;
      if j != i { assert ats[j] in ats; }
    }
    forall x | x in ats && x.taskID != a.taskID ensures x in now {
      var j :| 0 <= j < |ats| && ats[j] == x;
      assert now[j] in now;
    }
  }

  lemma RecordedCompleted(rs: Records, goalID: string, taskID: string, status: Status, detail: string)
    requires OneEntryPerTask(LoadOr(rs, goalID, Running))
    ensures CompletedTasks(AttemptRecorded(rs, goalID, taskID, status, detail)[goalID]) ==
            if status == Completed then CompletedTasks(LoadOr(rs, goalID, Running)) + {taskID}
            else CompletedTasks(LoadOr(rs, goalID, Running)) - {taskID}
  {
    RecordingOne(rs, goalID, taskID, status, detail);
    var rec, now := LoadOr(rs, goalID, Running), AttemptRecorded(rs, goalID, taskID, status, detail)[goalID];
    forall t | t != taskID ensures t in CompletedTasks(now) <==> t in CompletedTasks(rec) {
      if t in CompletedTasks(now) { var a :| a in now.attempts && a.status == Completed && a.taskID == t; }
      if t in CompletedTasks(rec) { var a :| a in rec.attempts && a.status == Completed && a.taskID == t; }
    }
  }

  /** No goal's record but this one's differs. */
  ghost predicate OnlyGoal(before: Records, after: Records, goalID: string) {
    forall g | g != goalID :: (g in after <==> g in before) && (g in before ==> after[g] == before[g])
  }

  ghost predicate HasAttempt(rec: Record, taskID: string, status: Status) {
    exists a :: a in rec.attempts && a.taskID == taskID && a.status == status
  }

  // ---------------------------------------------------------------- the writers as they run

  class RunLog {
    var records: Records

    constructor (records: Records)
      ensures this.records == records
    {
      this.records := records;
    }

    /** The goal starts over on the plan, which its record gives back, with no attempt and no approval on it; only the
        attempt counter survives. */
    method PersistPlan(plan: Plan)
      modifies this
      ensures records == Admitted(old(records), plan) && OnlyGoal(old(records), records, plan.goalID)
      ensures plan.goalID in records
      ensures var rec := records[plan.goalID];
              && rec.goalID == plan.goalID && rec.goal == plan.goal && PlanOf(rec.plan) == Some(plan)
              && rec.attempts == [] && rec.pending == [] && rec.status == Running && !rec.deleted
              && rec.attempt == if plan.goalID in old(records) then old(records)[plan.goalID].attempt else 0
    {
      PlanRoundTrip(plan);
      hide PlanJson, PlanOf;
      var attempt := 0;
      if plan.goalID in records { attempt := records[plan.goalID].attempt; }
      records := records[plan.goalID := Record(plan.goalID, plan.goal, PlanJson(plan), [], [], Running, 0, 0, false,
                                               attempt)];
    }

    method RecordAttempt(goalID: string, taskID: string, status: Status, detail: string)
      modifies this
      ensures records == AttemptRecorded(old(records), goalID, taskID, status, detail)
      ensures OnlyGoal(old(records), records, goalID)
    {
      var rec := if goalID in records then records[goalID] else Blankish(goalID, Running);
      var ats, i, updated := rec.attempts, 0, false;
      while i < |ats| && !updated
        invariant 0 <= i <= |ats|
        invariant !updated ==> ats == rec.attempts && FindAttempt(rec.attempts, taskID) >= i
        invariant updated ==> ats == WithAttempt(rec.attempts, taskID, status,
                                                 detail) && FindAttempt(rec.attempts, taskID) < |rec.attempts|
        decreases |ats| - i, !updated
      {
        if ats[i].taskID == taskID && ats[i].attempt == 1 {
          ats, updated := ats[i := AttemptState(taskID, 1, status, detail, 0)], true;
        } else {
          i := i + 1;
        }
      }
      if !updated { ats := ats + [AttemptState(taskID, 1, status, detail, 0)]; }
      records := records[goalID := rec.(attempts := ats)];
    }

    /** The goal is completed exactly when the plan has sub-goals, each has a completed attempt, and no approval is
        awaited; nothing else about the record, or about any other, changes. */
    method FinalizeGoalStatus(plan: Plan)
      modifies this
      ensures records == Finalized(old(records), plan)
      ensures plan.goalID !in old(records) ==> records == old(records)
      ensures plan.goalID in old(records) ==>
                var rec := old(records)[plan.goalID];
                records == if rec.status != AwaitingApproval && plan.subGoals != []
                              && forall s | s in plan.subGoals :: HasAttempt(rec, s.task.id, Completed)
                           then old(records)[plan.goalID := rec.(status := Completed)] else old(records)
    {
      if plan.goalID !in records { return; }
      var rec := records[plan.goalID];
      var completed := CompletedOf(rec);
      assert forall t :: t in completed <==> HasAttempt(rec, t, Completed);
      hide HasAttempt;
      if rec.status == AwaitingApproval { return; }
      var allDone, i := plan.subGoals != [], 0;
      while i < |plan.subGoals| && allDone
        invariant 0 <= i <= |plan.subGoals|
        invariant allDone ==> plan.subGoals != [] && forall j | 0 <= j < i :: plan.subGoals[j].task.id in completed
        invariant !allDone ==>
                  plan.subGoals == [] || exists j | 0 <= j < |plan.subGoals| :: plan.subGoals[j].task.id !in completed
        decreases |plan.subGoals| - i, allDone
      {
        if plan.subGoals[i].task.id !in completed { allDone := false; } else { i := i + 1; }
      }
      if allDone && rec.status != Completed {
        records := records[plan.goalID := rec.(status := Completed)];
      } else if allDone {
        assert rec.(status := Completed) == rec && records[plan.goalID := rec] == records;
      }
    }

    method CompletedOf(rec: Record) returns (completed: set<string>)
      ensures completed == CompletedTasks(rec)
    {
      completed := {};
      for i := 0 to |rec.attempts|
        invariant completed == set a | a in rec.attempts[..i] && a.status == Completed :: a.taskID
      {
        assert rec.attempts[..i + 1] == rec.attempts[..i] + [rec.attempts[i]];
        if rec.attempts[i].status == Completed { completed := completed + {rec.attempts[i].taskID}; }
      }
      assert rec.attempts[..|rec.attempts|] == rec.attempts;
    }

    /** The approval is queued behind the earlier ones, all of which stay, and the goal awaits. */
    method RecordPendingApproval(goalID: string, taskID: string, reason: string)
      modifies this
      ensures records == Pended(old(records), goalID, taskID, reason) && OnlyGoal(old(records), records, goalID)
      ensures goalID in records && records[goalID].status == AwaitingApproval
      ensures var asked := PendingApproval(taskID, reason, 0, false);
              if goalID in old(records) then
                var was := old(records)[goalID];
                records[goalID] == was.(pending := was.pending + [asked], status := AwaitingApproval)
              else records[goalID] == Record(goalID, "", Null, [], [asked], AwaitingApproval, 0, 0, false, 0)
    {
      var rec := if goalID in records then records[goalID] else Blankish(goalID, Unset);
      records := records[goalID := rec.(pending := rec.pending + [PendingApproval(taskID, reason, 0, false)],
                                        status := AwaitingApproval)];
    }

    /** ResumeApproval up to the re-dispatch: every pending approval of the task goes, the others stay; a goal that is
        approved runs again, a denied one keeps its status. Nothing happens unless the task has one pending. */
    method ResolveApproval(goalID: string, taskID: string, approved: bool) returns (found: bool)
      modifies this
      ensures records == Resolved(old(records), goalID, taskID, approved)
      ensures found <==> goalID in old(records) && exists p :: p in old(records)[goalID].pending && p.taskID == taskID
      ensures !found ==> records == old(records)
      ensures found ==>
                var was, now := old(records)[goalID], records[goalID];
                && OnlyGoal(old(records), records, goalID)
                && now == was.(pending := now.pending, status := if approved then Running else was.status)
                && (forall p :: p in now.pending <==> p in was.pending && p.taskID != taskID)
    {
      if goalID !in records { return false; }
      var rec := records[goalID];
      var kept := [];
      found := false;
      for i := 0 to |rec.pending|
        invariant kept + Without(rec.pending[i..], taskID) == Without(rec.pending, taskID)
        invariant found <==> exists p :: p in rec.pending[..i] && p.taskID == taskID
        invariant forall p :: p in kept <==> p in rec.pending[..i] && p.taskID != taskID
      {
        assert rec.pending[i..][1..] == rec.pending[i + 1..];
        assert rec.pending[..i + 1] == rec.pending[..i] + [rec.pending[i]];
        if rec.pending[i].taskID == taskID { found := true; continue; }
        ghost var rest := Without(rec.pending[i + 1..], taskID);
        assert kept + ([rec.pending[i]] + rest) == kept + [rec.pending[i]] + rest;
        kept := kept + [rec.pending[i]];
      }
      assert rec.pending[..|rec.pending|] == rec.pending && kept + [] == kept;
      if !found { return; }
      rec := rec.(pending := kept);
      if approved { rec := rec.(status := Running); }
      records := records[goalID := rec];
    }

    /** finalizeAfterApproval: the goal still awaits while an approval is pending; otherwise one attempt that failed or
        needs a human fails it, all attempts completed complete it, and anything else leaves it running. */
    method FinalizeAfterApproval(goalID: string)
      modifies this
      ensures records == AfterApproval(old(records), goalID)
      ensures goalID !in old(records) ==> records == old(records)
      ensures goalID in old(records) ==>
                var was, now := old(records)[goalID], records[goalID];
                && OnlyGoal(old(records), records, goalID) && now == was.(status := now.status)
                && (now.status == AwaitingApproval <==> was.pending != [])
                && (now.status == Failed <==>
                      was.pending == [] && exists t :: HasAttempt(was, t, Failed) || HasAttempt(was, t, NeedsHuman))
                && (now.status == Completed <==>
                      was.pending == [] && was.attempts != [] && forall a | a in was.attempts :: a.status == Completed)
                && (now.status in {AwaitingApproval, Failed, Completed, Running})
    {
      if goalID !in records { return; }
      var rec := records[goalID];
      if |rec.pending| > 0 {
        records := records[goalID := rec.(status := AwaitingApproval)];
        return;
      }
      var anyUnresolved, allCompleted := false, |rec.attempts| > 0;
      for i := 0 to |rec.attempts|
        invariant anyUnresolved <==>
                  exists a :: a in rec.attempts[..i] && (a.status == NeedsHuman || a.status == Failed)
        invariant allCompleted <==> rec.attempts != [] && forall a | a in rec.attempts[..i] :: a.status == Completed
      {
        assert rec.attempts[..i + 1] == rec.attempts[..i] + [rec.attempts[i]];
        if rec.attempts[i].status == NeedsHuman || rec.attempts[i].status == Failed { anyUnresolved := true; }
        if rec.attempts[i].status != Completed { allCompleted := false; }
      }
      assert rec.attempts[..|rec.attempts|] == rec.attempts;
      var final := if anyUnresolved then Failed else if allCompleted then Completed else Running;
      if a :| a in rec.attempts && (a.status == NeedsHuman || a.status == Failed) {
        assert HasAttempt(rec, a.taskID, a.status);
      }
      records := records[goalID := rec.(status := final)];
    }

    /** The filter of ResumeFromRecord: the plan read back from the record, less its completed sub-goals. */
    method RemainingOf(rec: Record) returns (r: Option<seq<SubGoal>>)
      ensures r == match PlanOf(rec.plan) case None => None case Some(p) => Some(Remaining(p.subGoals,
                                                                                           CompletedTasks(rec)))
    {
      var plan := PlanOf(rec.plan);
      if plan.None? { return None; }
      var completed := CompletedOf(rec);
      var subs, out := plan.value.subGoals, [];
      for i := 0 to |subs|
        invariant out + Remaining(subs[i..], completed) == Remaining(subs, completed)
      {
        assert subs[i..][1..] == subs[i + 1..];
        if subs[i].task.id !in completed {
          assert out + ([subs[i]] + Remaining(subs[i + 1..], completed)) == out + [subs[i]] + Remaining(subs[i + 1..],
                                                                                                        completed);
          out := out + [subs[i]];
        }
      }
      assert out + [] == out;
      r := Some(out);
    }
  }
}
