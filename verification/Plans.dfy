/** Plans, the resources they authorize, and the raw JSON form in which the run journal keeps them. */
module Plans {
  import opened Json
  import RunStore

  datatype Task = Task(id: string, repo: string, spec: string)

  datatype SubGoal = SubGoal(recipe: string, task: Task, targetRepo: string, sink: string)

  datatype Plan = Plan(goal: string, goalID: string, subGoals: seq<SubGoal>)

  // ---------------------------------------------------------------- plan-derived authorization

  /** Every policy resource the plan declares, in order: the goal, then recipes, then tasks. */
  function Declared(p: Plan): seq<string> {
    [p.goalID] + Recipes(p.subGoals) + TaskIDs(p.subGoals)
  }

  function Recipes(subs: seq<SubGoal>): (r: seq<string>)
    ensures |r| == |subs| && forall i | 0 <= i < |subs| :: r[i] == subs[i].recipe
  {
    seq(|subs|, i requires 0 <= i < |subs| => subs[i].recipe)
  }

  function TaskIDs(subs: seq<SubGoal>): (r: seq<string>)
    ensures |r| == |subs| && forall i | 0 <= i < |subs| :: r[i] == subs[i].task.id
  {
    seq(|subs|, i requires 0 <= i < |subs| => subs[i].task.id)
  }

  predicate Distinct<T(==)>(xs: seq<T>) {
    forall i, j | 0 <= i < j < |xs| :: xs[i] != xs[j]
  }

  /** Where `x` first occurs in `xs`. */
  function First(xs: seq<string>, x: string): (k: nat)
    requires x in xs
    ensures k < |xs| && xs[k] == x && x !in xs[..k]
  {
    if xs[0] == x then 0 else 1 + First(xs[1..], x)
  }

  /** `r` keeps the first occurrence of every non-empty element of `xs`, in order. */
  ghost predicate FirstOccurrences(xs: seq<string>, r: seq<string>) {
    && Distinct(r)
    && (forall x :: x in r <==> x != "" && x in xs)
    && forall i, j | 0 <= i < j < |r| :: First(xs, r[i]) < First(xs, r[j])
  }

  lemma {:induction false} FirstAppend(xs: seq<string>, y: string, x: string)
    requires x in xs
    ensures First(xs + [y], x) == First(xs, x)
  {
    if xs[0] != x {
      assert (xs + [y])[1..] == xs[1..] + [y];
      FirstAppend(xs[1..], y, x);
    }
  }

  lemma {:induction false} FirstOfNew(xs: seq<string>, y: string)
    requires y !in xs
    ensures First(xs + [y], y) == |xs|
  {
    if xs != [] {
      assert (xs + [y])[1..] == xs[1..] + [y];
      FirstOfNew(xs[1..], y);
    }
  }

  function Add(r: seq<string>, y: string): seq<string> { if y == "" || y in r then r else r + [y] }

  lemma AddMembers(xs: seq<string>, y: string, r: seq<string>)
    requires Distinct(r) && forall x :: x in r <==> x != "" && x in xs
    ensures Distinct(Add(r, y)) && forall x :: x in Add(r, y) <==> x != "" && x in xs + [y]
  {
    if y != "" && y !in r {
      assert forall i | 0 <= i < |r| :: r[i] in r;
      assert (r + [y])[|r|] == y;
    }
  }

  lemma DedupStep(xs: seq<string>, y: string, r: seq<string>)
    requires FirstOccurrences(xs, r)
    ensures FirstOccurrences(xs + [y], Add(r, y))
  {
    AddMembers(xs, y, r);
    hide First, Distinct;
    var r' := Add(r, y);
    forall i, j | 0 <= i < j < |r'| ensures First(xs + [y], r'[i]) < First(xs + [y], r'[j]) {
      assert r'[i] == r[i] && r[i] in r;
      FirstAppend(xs, y, r[i]);
      if j < |r| {
        assert r'[j] == r[j] && r[j] in r;
        FirstAppend(xs, y, r[j]);
      } else {
        FirstOfNew(xs, y);
      }
    }
  }

  function Allowed(p: Plan): seq<string> { Dedup(Declared(p)) }

  function Dedup(xs: seq<string>): seq<string> {
    if xs == [] then [] else Add(Dedup(xs[..|xs| - 1]), xs[|xs| - 1])
  }

  lemma {:induction false} DedupSpec(xs: seq<string>)
    ensures FirstOccurrences(xs, Dedup(xs))
  {
    if xs != [] {
      var init, last := xs[..|xs| - 1], xs[|xs| - 1];
      assert xs == init + [last];
      DedupSpec(init);
      hide FirstOccurrences, Add;
      DedupStep(init, last, Dedup(init));
    }
  }

  predicate Authorizes(p: Plan, id: string) { id in Allowed(p) }

  /** AllowedResources as the source runs it: three passes feeding one `add`. */
  method AllowedResources(p: Plan) returns (ordered: seq<string>)
    ensures ordered == Allowed(p)
    ensures FirstOccurrences([p.goalID] + Recipes(p.subGoals) + TaskIDs(p.subGoals), ordered)
  {
    var ids := [p.goalID];
    ids := ids + Recipes(p.subGoals);
    ids := ids + TaskIDs(p.subGoals);
    DedupSpec(ids);
    hide FirstOccurrences;
    var seen: set<string> := {};
    ordered := [];
    for i := 0 to |ids|
      invariant ordered == Dedup(ids[..i])
      invariant seen == set x | x in ordered
    {
      assert ids[..i + 1][..i] == ids[..i];
      if ids[i] != "" && ids[i] !in seen {
        seen, ordered := seen + {ids[i]}, ordered + [ids[i]];
      }
    }
    assert ids[..|ids|] == ids;
  }

  /** The plan declares `id`: as its goal, or as the recipe or the task of one of its sub-goals. */
  ghost predicate Declares(p: Plan, id: string) {
    id != "" && (id == p.goalID || exists s :: s in p.subGoals && (s.recipe == id || s.task.id == id))
  }

  /** The plan can authorize exactly what it declared: never the empty resource, always its own parts. */
  lemma AuthorizesIff(p: Plan, id: string)
    ensures Authorizes(p, id) <==> Declares(p, id)
  {
    DedupSpec(Declared(p));
    ColumnMembers(p.subGoals, id);
    hide Recipes, TaskIDs;
    assert id in Declared(p) <==> id == p.goalID || id in Recipes(p.subGoals) || id in TaskIDs(p.subGoals);
    hide Declared;
  }

  lemma ColumnMembers(subs: seq<SubGoal>, id: string)
    ensures id in Recipes(subs) <==> exists s :: s in subs && s.recipe == id
    ensures id in TaskIDs(subs) <==> exists s :: s in subs && s.task.id == id
  {
    hide Recipes, TaskIDs;
    forall s | s in subs ensures s.recipe in Recipes(subs) && s.task.id in TaskIDs(subs) {
      var i :| 0 <= i < |subs| && subs[i] == s;
      assert Recipes(subs)[i] == s.recipe && TaskIDs(subs)[i] == s.task.id;
    }
    if id in Recipes(subs) {
      var i :| 0 <= i < |subs| && Recipes(subs)[i] == id;
      assert subs[i] in subs && subs[i].recipe == id;
    }
    if id in TaskIDs(subs) {
      var i :| 0 <= i < |subs| && TaskIDs(subs)[i] == id;
      assert subs[i] in subs && subs[i].task.id == id;
    }
  }

  // ---------------------------------------------------------------- JSON form

  function SubGoalJson(s: SubGoal): Value {
    Obj(Member("RecipeName", Str(s.recipe), Member("Task", TaskJson(s.task),
        Member("TargetRepo", Str(s.targetRepo), Member("Sink", Str(s.sink), NoMember)))))
  }

  function TaskJson(t: Task): Value {
    Obj(Member("ID", Str(t.id), Member("Repo", Str(t.repo), Member("Spec", Str(t.spec), NoMember))))
  }

  function SubGoalOf(v: Value): Option<SubGoal> {
    match v
    case Obj(Member(k0, Str(recipe),
                    Member(k1, Obj(Member(t0, Str(id), Member(t1, Str(repo), Member(t2, Str(spec), NoMember)))),
         Member(k2, Str(target), Member(k3, Str(sink), NoMember))))) =>
      if k0 == "RecipeName" && k1 == "Task" && t0 == "ID" && t1 == "Repo" && t2 == "Spec" && k2 == "TargetRepo"
         && k3 == "Sink"
      then Some(SubGoal(recipe, Task(id, repo, spec), target, sink)) else None
    case _ => None
  }

  function PlanJson(p: Plan): Value {
    Obj(Member("Goal", Str(p.goal), Member("GoalID", Str(p.goalID),
        Member("SubGoals", Arr(RunStore.ListJson(SubGoalJson, p.subGoals)), NoMember))))
  }

  function PlanOf(v: Value): Option<Plan> {
    match v
    case Obj(Member(k0, Str(goal), Member(k1, Str(id), Member(k2, Arr(es), NoMember)))) =>
      if k0 == "Goal" && k1 == "GoalID" && k2 == "SubGoals" && RunStore.ListOf(SubGoalOf, es).Some?
      then Some(Plan(goal, id, RunStore.ListOf(SubGoalOf, es).value)) else None
    case _ => None
  }

  /** A journalled plan comes back as it was admitted. */
  lemma PlanRoundTrip(p: Plan)
    ensures PlanOf(PlanJson(p)) == Some(p)
  {
    RunStore.ListRoundTrip(SubGoalJson, SubGoalOf, p.subGoals);
  }
}
