/** The rule-based planner, the plan-derived spawn gate and the bounded reevaluation of a denied spawn:
    three packages (orchestrator planner, orchestrator gate, loop) and the theorem that joins them. */
module Planner {
  import opened Json
  import opened Plans
  import Journal

  // ---------------------------------------------------------------- text helpers

  predicate IsSpace(c: char) { c == ' ' || 9 <= c as int <= 13 }

  function TrimLeft(s: string): string {
    if s != [] && IsSpace(s[0]) then TrimLeft(s[1..]) else s
  }

  function TrimRight(s: string): string {
    if s != [] && IsSpace(s[|s| - 1]) then TrimRight(s[..|s| - 1]) else s
  }

  function TrimSpace(s: string): string { TrimRight(TrimLeft(s)) }

  function IndexOf(s: string, c: char): (i: int)
    ensures -1 <= i < |s| && (i >= 0 ==> s[i] == c)
  {
    if s == [] then -1
    else if s[0] == c then 0
    else if IndexOf(s[1..], c) == -1 then -1 else 1 + IndexOf(s[1..], c)
  }

  lemma {:induction false} FirstIndex(s: string, c: char)
    ensures IndexOf(s, c) == -1 <==> c !in s
    ensures IndexOf(s, c) >= 0 ==> c !in s[..IndexOf(s, c)]
  {
    if s != [] && s[0] != c {
      FirstIndex(s[1..], c);
      assert s == [s[0]] + s[1..];
      if IndexOf(s[1..], c) >= 0 { assert s[..IndexOf(s, c)] == [s[0]] + s[1..][..IndexOf(s[1..], c)]; }
    }
  }

  lemma FirstUnique(s: string, c: char, j: nat, k: nat)
    requires j < |s| && k < |s| && s[j] == s[k] == c && c !in s[..j] && c !in s[..k]
    ensures j == k
  {
    assert (forall i | 0 <= i < j :: s[..j][i] == s[i]) && forall i | 0 <= i < k :: s[..k][i] == s[i];
  }

  predicate AllSpace(s: string) { forall i | 0 <= i < |s| :: IsSpace(s[i]) }

  /** Trimming drops blanks at both ends and stops at the first non-blank on either side. */
  lemma Trimmed(s: string) returns (a: string, b: string)
    ensures s == a + TrimSpace(s) + b && AllSpace(a) && AllSpace(b)
    ensures var t := TrimSpace(s); t != [] ==> !IsSpace(t[0]) && !IsSpace(t[|t| - 1])
  {
    a := TrimmedLeft(s);
    b := TrimmedRight(TrimLeft(s));
    Assoc(a, TrimSpace(s), b);
    var u, t := TrimLeft(s), TrimSpace(s);
    if t != [] { assert u[0] == (t + b)[0] == t[0]; }
  }

  lemma {:induction false} TrimmedLeft(s: string) returns (a: string)
    ensures s == a + TrimLeft(s) && AllSpace(a) && (TrimLeft(s) != [] ==> !IsSpace(TrimLeft(s)[0]))
  {
    a := [];
    if s != [] && IsSpace(s[0]) {
      var rest := TrimmedLeft(s[1..]);
      a := [s[0]] + rest;
      assert s == [s[0]] + s[1..];
      Assoc([s[0]], rest, TrimLeft(s));
    }
  }

  lemma {:induction false} TrimmedRight(s: string) returns (b: string)
    ensures s == TrimRight(s) + b && AllSpace(b) && (TrimRight(s) != [] ==> !IsSpace(TrimRight(s)[|TrimRight(s)| - 1]))
  {
    b := [];
    if s != [] && IsSpace(s[|s| - 1]) {
      var rest := TrimmedRight(s[..|s| - 1]);
      b := rest + [s[|s| - 1]];
      assert s == s[..|s| - 1] + [s[|s| - 1]];
      Assoc(TrimRight(s), rest, [s[|s| - 1]]);
    }
  }

  /** itoa: decimal digits, most significant first. */
  method Itoa(n: nat) returns (s: string)
    ensures s == Digits(n)
  {
    if n == 0 {
      s := "0";
      assert s[0] == HexDigit(0);
      return;
    }
    var m := n;
    s := "";
    while m > 0
      invariant m >= 0
      invariant m > 0 ==> Digits(m) + s == Digits(n)
      invariant m == 0 ==> s == Digits(n)
    {
      assert m >= 10 ==> Digits(m) + s == Digits(m / 10) + ([HexDigit(m % 10)] + s);
      s := [HexDigit(m % 10)] + s;
      m := m / 10;
    }
  }

  lemma DigitsInjective(m: nat, n: nat)
    requires Digits(m) == Digits(n)
    ensures m == n
  {
    DigitsRoundTrip(m, []);
    DigitsRoundTrip(n, []);
    assert Digits(m) + [] == Digits(m) && Digits(n) + [] == Digits(n);
  }

  function SubGoalID(goalID: string, idx: nat): string {
    (if goalID == "" then "goal" else goalID) + "-" + Digits(idx)
  }

  lemma SubGoalIDInjective(goalID: string, i: nat, j: nat)
    requires SubGoalID(goalID, i) == SubGoalID(goalID, j)
    ensures i == j
  {
    var p := (if goalID == "" then "goal" else goalID) + "-";
    Drop(p, Digits(i));
    Drop(p, Digits(j));
    DigitsInjective(i, j);
  }

  // ---------------------------------------------------------------- planning

  /** A planner: the known recipes (none configured: any token is one) and the skill registry's choice
      of recipe for a text, which fails only when the fallback skill is not registered. */
  datatype Config = Config(known: Option<set<string>>, resolve: string -> Option<string>)

  /** splitLine: the explicit recipe prefix of a line, if it has one, and the spec text. */
  function SplitLine(cfg: Config, line: string): (Option<string>, string) {
    var colon := IndexOf(line, ':');
    if colon <= 0 then (None, line)
    else
      var candidate, rest := TrimSpace(line[..colon]), TrimSpace(line[colon + 1..]);
      if candidate == "" || ' ' in candidate || '\t' in candidate || rest == "" then (None, line)
      else if cfg.known.Some? && candidate !in cfg.known.value then (None, line)
      else (Some(candidate), rest)
  }

  /** The line starts with a recipe: one known token, its first colon, and some text. */
  predicate Prefixed(cfg: Config, line: string, k: int, name: string, text: string) {
    && 0 < k < |line| && line[k] == ':' && ':' !in line[..k]
    && TrimSpace(line[..k]) == name && name != "" && ' ' !in name && '\t' !in name
    && TrimSpace(line[k + 1..]) == text && text != ""
    && (cfg.known.Some? ==> name in cfg.known.value)
  }

  /** A line names a recipe exactly when it starts with one; any other line is all text. */
  lemma SplitLineIff(cfg: Config, line: string, name: string, text: string)
    ensures SplitLine(cfg, line) == (Some(name), text) <==> exists k :: Prefixed(cfg, line, k, name, text)
    ensures SplitLine(cfg, line).0.None? ==> SplitLine(cfg, line).1 == line
  {
    FirstIndex(line, ':');
    var colon := IndexOf(line, ':');
    hide TrimSpace, IndexOf;
    if SplitLine(cfg, line) == (Some(name), text) { assert Prefixed(cfg, line, colon, name, text); }
    if k :| Prefixed(cfg, line, k, name, text) {
      assert line[k] in line;
      FirstUnique(line, ':', k, colon);
    }
  }

  /** Some recipe is found for the line: it starts with one, or the registry has one for its text. */
  ghost predicate HasRecipe(cfg: Config, line: string) {
    (exists k, name, text :: Prefixed(cfg, line, k, name, text)) || cfg.resolve(line).Some?
  }

  /** `s` is the sub-goal number `idx` of the goal, and is what `line` asks for: the recipe the line starts with and the
      text behind it; failing that, the registry's recipe for the line and the whole line as text. */
  ghost predicate Asks(cfg: Config, goal: Task, line: string, idx: nat, s: SubGoal) {
    && s.task.id == (if goal.id == "" then "goal" else goal.id) + "-" + Digits(idx)
    && s.task.repo == goal.repo && s.targetRepo == "" && s.sink == ""
    && (forall k, name, text | Prefixed(cfg, line, k, name, text) :: s.recipe == name && s.task.spec == text)
    && ((forall k, name, text :: !Prefixed(cfg, line, k, name, text)) ==>
          cfg.resolve(line) == Some(s.recipe) && s.task.spec == line)
  }

  function RecipeFor(cfg: Config, line: string): Option<string> {
    var (explicit, spec) := SplitLine(cfg, line);
    if explicit.Some? then explicit else cfg.resolve(spec)
  }

  predicate Skipped(line: string) { line == "" || line[0] == '#' }

  /** The sub-goals of the remaining lines, numbered from `idx`; none when a recipe cannot be resolved. */
  function LinesPlan(cfg: Config, goal: Task, lines: seq<string>, idx: nat): Option<seq<SubGoal>> {
    if lines == [] then Some([])
    else
      var line := TrimSpace(lines[0]);
      if Skipped(line) then LinesPlan(cfg, goal, lines[1..], idx)
      else match (RecipeFor(cfg, line), LinesPlan(cfg, goal, lines[1..], idx + 1))
        case (Some(recipe), Some(rest)) =>
          Some([SubGoal(recipe, Task(SubGoalID(goal.id, idx), goal.repo, SplitLine(cfg, line).1), "", "")] + rest)
        case _ => None
  }

  /** The plan of a goal: one sub-goal per line, or the whole text as one when no line yields any. */
  function Planned(cfg: Config, goal: Task): Option<Plan> {
    match LinesPlan(cfg, goal, Journal.Split(goal.spec), 0)
    case None => None
    case Some(subs) =>
      if subs != [] then Some(Plan(goal.spec, goal.id, subs))
      else
        var spec := TrimSpace(goal.spec);
        match cfg.resolve(spec)
        case None => None
        case Some(recipe) =>
          Some(Plan(goal.spec, goal.id, [SubGoal(recipe, Task(SubGoalID(goal.id, 0), goal.repo, spec), "", "")]))
  }

  function Behind(subs: seq<SubGoal>, rest: Option<seq<SubGoal>>): Option<seq<SubGoal>> {
    if rest.None? then None else Some(subs + rest.value)
  }

  lemma PlanOneLine(cfg: Config, goal: Task, lines: seq<string>, idx: nat, subs: seq<SubGoal>)
    requires lines != []
    ensures var line := TrimSpace(lines[0]);
            Behind(subs, LinesPlan(cfg, goal, lines, idx)) ==
            if Skipped(line) then Behind(subs, LinesPlan(cfg, goal, lines[1..], idx))
            else if RecipeFor(cfg, line).None? then None
            else Behind(subs + [LineSubGoal(cfg, goal, line, idx)], LinesPlan(cfg, goal, lines[1..], idx + 1))
  {
    hide TrimSpace, SplitLine, SubGoalID;
    var rest, line := LinesPlan(cfg, goal, lines[1..], idx + 1), TrimSpace(lines[0]);
    if rest.Some? && !Skipped(line) && RecipeFor(cfg, line).Some? {
      var sub := LineSubGoal(cfg, goal, line, idx);
      assert subs + ([sub] + rest.value) == subs + [sub] + rest.value;
    }
  }

  function LineSubGoal(cfg: Config, goal: Task, line: string, idx: nat): SubGoal
    requires RecipeFor(cfg, line).Some?
  {
    SubGoal(RecipeFor(cfg, line).value, Task(SubGoalID(goal.id, idx), goal.repo, SplitLine(cfg, line).1), "", "")
  }

  /** StructuredPlanner.Plan as it runs: one pass over the lines, appending. */
  method PlanGoal(cfg: Config, goal: Task) returns (r: Option<Plan>)
    ensures r == Planned(cfg, goal) && PlanFor(cfg, goal, r)
  {
    PlannedIs(cfg, goal);
    hide PlanFor;
    var lines := Journal.Split(goal.spec);
    var subs: seq<SubGoal>, i, idx := [], 0, 0;
    assert lines[0..] == lines;
    ghost var all := LinesPlan(cfg, goal, lines, 0);
    if all.Some? { assert subs + all.value == all.value; }
    hide TrimSpace, SplitLine, Skipped, Journal.Split, Digits;
    while i < |lines|
      invariant 0 <= i <= |lines|
      invariant all == Behind(subs, LinesPlan(cfg, goal, lines[i..], idx))
    {
      var line := TrimSpace(lines[i]);
      assert lines[i..][1..] == lines[i + 1..];
      PlanOneLine(cfg, goal, lines[i..], idx, subs);
      if !Skipped(line) {
        var (explicit, spec) := SplitLine(cfg, line);
        var recipe := if explicit.Some? then explicit else cfg.resolve(spec);
        if recipe.None? { return None; }
        var digits := Itoa(idx);
        var id := (if goal.id == "" then "goal" else goal.id) + "-" + digits;
        subs, idx := subs + [SubGoal(recipe.value, Task(id, goal.repo, spec), "", "")], idx + 1;
      }
      i := i + 1;
    }
    assert subs + [] == subs;
    if subs == [] {
      var spec := TrimSpace(goal.spec);
      var recipe := cfg.resolve(spec);
      if recipe.None? { return None; }
      subs := [SubGoal(recipe.value, Task(SubGoalID(goal.id, 0), goal.repo, spec), "", "")];
    }
    r := Some(Plan(goal.spec, goal.id, subs));
  }

  lemma {:induction false} Numbered(cfg: Config, goal: Task, lines: seq<string>, idx: nat)
    ensures LinesPlan(cfg, goal, lines, idx).Some? ==>
              forall i | 0 <= i < |LinesPlan(cfg, goal, lines, idx).value| ::
                LinesPlan(cfg, goal, lines, idx).value[i].task.id == SubGoalID(goal.id, idx + i)
  {
    if lines != [] {
      Numbered(cfg, goal, lines[1..], idx);
      Numbered(cfg, goal, lines[1..], idx + 1);
    }
  }

  /** The lines that count, trimmed. */
  function Kept(lines: seq<string>): seq<string> {
    if lines == [] then []
    else if Skipped(TrimSpace(lines[0])) then Kept(lines[1..]) else [TrimSpace(lines[0])] + Kept(lines[1..])
  }

  /** `subs` are the sub-goals of these lines, one each and in order; there are none when a line has no recipe. */
  ghost predicate OneEach(cfg: Config, goal: Task, lines: seq<string>, idx: nat, subs: Option<seq<SubGoal>>) {
    && (subs.Some? <==> forall line | line in lines :: RecipeFor(cfg, line).Some?)
    && (subs.Some? ==> |subs.value| == |lines| && forall i | 0 <= i < |lines| ::
                                                    subs.value[i] == LineSubGoal(cfg, goal, lines[i], idx + i))
  }

  lemma OneMore(cfg: Config, goal: Task, line: string, lines: seq<string>, idx: nat, subs: Option<seq<SubGoal>>)
    requires OneEach(cfg, goal, lines, idx + 1, subs)
    ensures OneEach(cfg, goal, [line] + lines, idx,
                    if subs.None? || RecipeFor(cfg, line).None? then None
                    else Some([LineSubGoal(cfg, goal, line, idx)] + subs.value))
  {
    hide RecipeFor, LineSubGoal;
    var all := [line] + lines;
    assert all[0] == line && forall x | x in lines :: x in all;
    if subs.Some? && RecipeFor(cfg, line).Some? {
      var out := [LineSubGoal(cfg, goal, line, idx)] + subs.value;
      forall i | 0 <= i < |all| ensures out[i] == LineSubGoal(cfg, goal, all[i], idx + i) {
        if i > 0 { assert all[i] == lines[i - 1]; }
      }
    }
  }

  /** Planning succeeds exactly when every line that counts has a recipe, and gives one sub-goal for each, in order,
      with its recipe, its text and the goal's repository. */
  lemma {:induction false} OnePerLine(cfg: Config, goal: Task, lines: seq<string>, idx: nat)
    ensures OneEach(cfg, goal, Kept(lines), idx, LinesPlan(cfg, goal, lines, idx))
  {
    if lines != [] {
      OnePerLine(cfg, goal, lines[1..], idx);
      OnePerLine(cfg, goal, lines[1..], idx + 1);
      OneMore(cfg, goal, TrimSpace(lines[0]), Kept(lines[1..]), idx, LinesPlan(cfg, goal, lines[1..], idx + 1));
      hide OneEach, TrimSpace, SplitLine, RecipeFor, Skipped, SubGoalID;
    }
  }

  /** Line by line: a line is dropped when it is blank or a comment, and kept without its outer blanks otherwise. */
  lemma {:induction false} KeptLines(a: seq<string>, b: seq<string>, line: string)
    ensures Kept(a + b) == Kept(a) + Kept(b)
    ensures Kept([line]) == if TrimSpace(line) == "" || TrimSpace(line)[0] == '#' then [] else [TrimSpace(line)]
  {
    if a == [] {
      assert a + b == b;
    } else {
      hide TrimSpace;
      KeptLines(a[1..], b, line);
      assert (a + b)[1..] == a[1..] + b;
    }
  }

  lemma RecipeForIs(cfg: Config, goal: Task, line: string, idx: nat)
    ensures RecipeFor(cfg, line).Some? <==> HasRecipe(cfg, line)
    ensures RecipeFor(cfg, line).Some? ==> Asks(cfg, goal, line, idx, LineSubGoal(cfg, goal, line, idx))
  {
    hide TrimSpace, SplitLine, Prefixed;
    var (explicit, spec) := SplitLine(cfg, line);
    forall k, name, text | Prefixed(cfg, line, k, name, text) ensures explicit == Some(name) && spec == text {
      SplitLineIff(cfg, line, name, text);
    }
    SplitLineIff(cfg, line, if explicit.Some? then explicit.value else "", spec);
  }

  /** The plan of a goal, in terms of its lines alone. It has one sub-goal per line that counts, each what that line
      asks for, and it exists when every such line has a recipe. A goal without such a line is one sub-goal, its whole
      text. */
  ghost predicate PlanFor(cfg: Config, goal: Task, r: Option<Plan>) {
    var lines, whole := Kept(Journal.Split(goal.spec)), TrimSpace(goal.spec);
    && (r.Some? <==> if lines == [] then cfg.resolve(whole).Some? else forall x | x in lines :: HasRecipe(cfg, x))
    && (r.Some? ==> r.value.goal == goal.spec && r.value.goalID == goal.id)
    && (r.Some? && lines != [] ==>
          && |r.value.subGoals| == |lines|
          && forall i | 0 <= i < |lines| :: Asks(cfg, goal, lines[i], i, r.value.subGoals[i]))
    && (r.Some? && lines == [] ==>
          var id := if goal.id == "" then "goal-0" else goal.id + "-0";
          r.value.subGoals == [SubGoal(cfg.resolve(whole).value, Task(id, goal.repo, whole), "", "")])
  }

  lemma PlannedIs(cfg: Config, goal: Task)
    ensures PlanFor(cfg, goal, Planned(cfg, goal))
  {
    var lines := Kept(Journal.Split(goal.spec));
    OnePerLine(cfg, goal, Journal.Split(goal.spec), 0);
    ZeroID(goal.id);
    hide TrimSpace, Journal.Split, LinesPlan, RecipeFor, LineSubGoal, HasRecipe, Asks, SubGoalID, Kept;
    forall x | x in lines ensures RecipeFor(cfg, x).Some? <==> HasRecipe(cfg, x) { RecipeForIs(cfg, goal, x, 0); }
    var r := Planned(cfg, goal);
    if r.Some? && lines != [] {
      forall i | 0 <= i < |lines| ensures Asks(cfg, goal, lines[i], i, r.value.subGoals[i]) {
        RecipeForIs(cfg, goal, lines[i], i);
      }
    }
  }

  lemma ZeroID(goalID: string)
    ensures SubGoalID(goalID, 0) == if goalID == "" then "goal-0" else goalID + "-0"
  {
    assert Digits(0) == "0" by { assert HexDigit(0) == '0'; }
    if goalID != "" { Assoc(goalID, "-", "0"); }
  }

  lemma NumberedDistinct(goalID: string, subs: seq<SubGoal>)
    requires forall i | 0 <= i < |subs| :: subs[i].task.id == SubGoalID(goalID, i)
    ensures Distinct(TaskIDs(subs)) && forall i | 0 <= i < |subs| :: subs[i].task.id != ""
  {
    forall i, j | 0 <= i < j < |subs| ensures subs[i].task.id != subs[j].task.id {
      if SubGoalID(goalID, i) == SubGoalID(goalID, j) { SubGoalIDInjective(goalID, i, j); }
    }
    hide Digits;
    assert forall i: nat :: |SubGoalID(goalID, i)| > 0;
  }

  /** A plan is never empty, its sub-goal IDs are distinct, non-empty and keyed by position. */
  lemma PlanShape(cfg: Config, goal: Task, p: Plan)
    requires Planned(cfg, goal) == Some(p)
    ensures p.goalID == goal.id && p.goal == goal.spec && p.subGoals != []
    ensures forall i | 0 <= i < |p.subGoals| ::
              p.subGoals[i].task.id == SubGoalID(goal.id, i) && p.subGoals[i].task.id != ""
    ensures Distinct(TaskIDs(p.subGoals))
  {
    hide TrimSpace, SubGoalID, Journal.Split, LinesPlan, Distinct;
    Numbered(cfg, goal, Journal.Split(goal.spec), 0);
    NumberedDistinct(goal.id, p.subGoals);
  }

  // ---------------------------------------------------------------- the spawn-worker gate

  datatype Decision = Allow | Deny | RequireApproval

  /** Why a spawn was refused. */
  datatype Refusal = SelfRepo | ForeignRecipe | ForeignTask | PolicyDenied | PolicyApproval

  /** decideSpawnWorker: the self-repo bright line, the plan-derived gate, and only then the policy engine. */
  function DecideSpawn(p: Plan, sub: SubGoal, selfRepo: bool, verdict: Decision): (Decision, Option<Refusal>) {
    if selfRepo then (Deny, Some(SelfRepo))
    else if !Authorizes(p, sub.recipe) then (Deny, Some(ForeignRecipe))
    else if !Authorizes(p, sub.task.id) then (Deny, Some(ForeignTask))
    else match verdict
      case Allow => (Allow, None)
      case RequireApproval => (RequireApproval, Some(PolicyApproval))
      case Deny => (Deny, Some(PolicyDenied))
  }

  /** A spawn is allowed exactly when it stays off the own repository, names what the plan declared, and policy
      allows it. The reason given is the first of these that fails, so nothing is left to the policy engine before. */
  lemma SpawnAllowedIff(p: Plan, sub: SubGoal, selfRepo: bool, verdict: Decision)
    ensures var (d, why) := DecideSpawn(p, sub, selfRepo, verdict);
            && (d == Allow <==> !selfRepo && Declares(p, sub.recipe) && Declares(p, sub.task.id) && verdict == Allow)
            && (d == RequireApproval <==>
                  !selfRepo && Declares(p, sub.recipe) && Declares(p, sub.task.id) && verdict == RequireApproval)
            && (why == Some(SelfRepo) <==> selfRepo)
            && (why == Some(ForeignRecipe) <==> !selfRepo && !Declares(p, sub.recipe))
            && (why == Some(ForeignTask) <==> !selfRepo && Declares(p, sub.recipe) && !Declares(p, sub.task.id))
            && (why.None? <==> d == Allow) && (why == Some(PolicyApproval) <==> d == RequireApproval)
  {
    AuthorizesIff(p, sub.recipe);
    AuthorizesIff(p, sub.task.id);
    hide Authorizes, Declares;
  }

  /** A sub-goal the planner made passes the plan-derived gate exactly when its recipe is named. */
  lemma PlannedPassesGate(cfg: Config, goal: Task, p: Plan, sub: SubGoal, verdict: Decision)
    requires Planned(cfg, goal) == Some(p) && sub in p.subGoals
    ensures DecideSpawn(p, sub, false, verdict).1 in {Some(ForeignRecipe), Some(ForeignTask)} <==> sub.recipe == ""
    ensures sub.recipe != "" ==> DecideSpawn(p, sub, false, verdict).0 == verdict
  {
    PlanShape(cfg, goal, p);
    AuthorizesIff(p, sub.recipe);
    AuthorizesIff(p, sub.task.id);
  }

  // ---------------------------------------------------------------- bounded reevaluation

  /** What a denial names: resource, action, reason. */
  datatype BlockedAction = BlockedAction(resource: string, action: string, reason: string)

  predicate IsZero(b: BlockedAction) { b.resource == "" && b.action == "" && b.reason == "" }

  datatype Reevaluation = Reevaluation(allowed: seq<string>, stillBlocked: bool)

  /** The status writer: absent, working, or failing. */
  datatype Writer = NoWriter | Working | Failing

  datatype Outcome =
    | Resolved(replans: nat, allowed: seq<string>)
    | Escalated(replans: nat, allowed: seq<string>, blocked: BlockedAction)
    | Refused

  /** The first replan, from number `k` on, that fails or is no longer blocked; `bound` when none is. */
  function FirstFree(replan: nat -> Option<Reevaluation>, k: nat, bound: nat): (n: nat)
    requires k <= bound
    ensures k <= n <= bound
    ensures forall i | k <= i < n :: replan(i).Some? && replan(i).value.stillBlocked
    ensures n < bound ==> replan(n).None? || !replan(n).value.stillBlocked
    decreases bound - k
  {
    if k == bound || replan(k).None? || !replan(k).value.stillBlocked then k else FirstFree(replan, k + 1, bound)
  }

  /** The first `n` replans all came back still blocked. */
  ghost predicate AllBlocked(replan: nat -> Option<Reevaluation>, n: nat) {
    forall i: nat | i < n :: replan(i).Some? && replan(i).value.stillBlocked
  }

  /** The outcome and whether needs-human was written, by the position of the first free replan. */
  function Reevaluated(bound: nat, replan: nat -> Option<Reevaluation>, blocked: BlockedAction,
                       writer: Writer): (Outcome, bool) {
    if writer.NoWriter? || IsZero(blocked) then (Refused, false)
    else
      var n := FirstFree(replan, 0, bound);
      if n < bound then
        match replan(n)
        case None => (Refused, false)
        case Some(r) => (Resolved(n + 1, r.allowed), false)
      else if writer.Failing? then (Refused, false)
      else (Escalated(bound, if bound == 0 then [] else replan(bound - 1).value.allowed, blocked), true)
  }

  /** ReevaluateBlocked as it runs: at most `bound` replans, the last allow set replaced each time. */
  method ReevaluateBlocked(bound: nat, replan: nat -> Option<Reevaluation>, blocked: BlockedAction, writer: Writer)
    returns (r: Outcome, written: bool, calls: nat)
    ensures (r, written) == Reevaluated(bound, replan, blocked, writer)
    ensures calls <= bound && (written <==> r.Escalated?)
    ensures r.Resolved? ==>
              0 < calls == r.replans && AllBlocked(replan, calls - 1)
              && replan(calls - 1) == Some(Reevaluation(r.allowed, false))
    ensures r.Escalated? ==>
              calls == r.replans == bound && AllBlocked(replan, bound) && writer.Working? && r.blocked == blocked
              && r.allowed == if bound == 0 then [] else replan(bound - 1).value.allowed
    ensures r.Refused? ==>
              || (calls == 0 && (writer.NoWriter? || blocked == BlockedAction("", "", "")))
              || (calls > 0 && AllBlocked(replan, calls - 1) && replan(calls - 1).None?)
              || (calls == bound && AllBlocked(replan, bound) && writer.Failing?)
    ensures writer.NoWriter? || blocked == BlockedAction("", "", "") ==> r.Refused? && calls == 0
  {
    if writer.NoWriter? || IsZero(blocked) { return Refused, false, 0; }
    var lastAllowed: seq<string> := [];
    calls := 0;
    while calls < bound
      invariant calls <= bound && FirstFree(replan, 0, bound) == FirstFree(replan, calls, bound)
      invariant lastAllowed == if calls == 0 then [] else replan(calls - 1).value.allowed
      invariant calls > 0 ==> replan(calls - 1).Some?
      invariant AllBlocked(replan, calls)
    {
      var answer := replan(calls);
      calls := calls + 1;
      if answer.None? { return Refused, false, calls; }
      lastAllowed := answer.value.allowed;
      if !answer.value.stillBlocked { return Resolved(calls, lastAllowed), false, calls; }
    }
    if writer.Failing? { return Refused, false, calls; }
    return Escalated(bound, lastAllowed, blocked), true, calls;
  }

  const SPAWN_WORKER := "spawn-worker"

  function ClassifyBlockedSpawn(sub: SubGoal, reason: string): BlockedAction {
    BlockedAction(sub.recipe, SPAWN_WORKER, reason)
  }

  /** The replan of ReevaluateBlockedSpawn: plan the original goal again and look for the denied resource. */
  function Replan(cfg: Config, goal: Task, blocked: BlockedAction): nat -> Option<Reevaluation> {
    (k: nat) =>
      match Planned(cfg, goal)
      case None => None
      case Some(p) => Some(Reevaluation(Allowed(p), Authorizes(p, blocked.resource)))
  }

  /** ReevaluateBlockedSpawn; a negative bound is refused when the policy is built. */
  function ReevaluateSpawn(cfg: Config, goal: Task, blocked: BlockedAction, bound: int, writer: Writer): (Outcome,
                                                                                                          bool) {
    if bound < 0 then (Refused, false) else Reevaluated(bound, Replan(cfg, goal, blocked), blocked, writer)
  }

  lemma ConsColumns(sub: SubGoal, rest: seq<SubGoal>)
    ensures Recipes([sub] + rest) == [sub.recipe] + Recipes(rest)
    ensures TaskIDs([sub] + rest) == [sub.task.id] + TaskIDs(rest)
  {
    hide Recipes, TaskIDs;
    var all := [sub] + rest;
    var rs, ts := Recipes(all), TaskIDs(all);
    forall i | 0 <= i < |all|
      ensures rs[i] == ([sub.recipe] + Recipes(rest))[i] && ts[i] == ([sub.task.id] + TaskIDs(rest))[i]
    {
      if i > 0 { assert all[i] == rest[i - 1]; }
    }
  }

  lemma {:induction false} SpecOnly(cfg: Config, a: Task, b: Task, lines: seq<string>, idx: nat)
    requires a.id == b.id
    ensures LinesPlan(cfg, a, lines, idx).Some? <==> LinesPlan(cfg, b, lines, idx).Some?
    ensures LinesPlan(cfg, a, lines, idx).Some? ==>
              Recipes(LinesPlan(cfg, a, lines, idx).value) == Recipes(LinesPlan(cfg, b, lines, idx).value)
              && TaskIDs(LinesPlan(cfg, a, lines, idx).value) == TaskIDs(LinesPlan(cfg, b, lines, idx).value)
  {
    hide TrimSpace, SplitLine, SubGoalID, RecipeFor, Skipped, Recipes, TaskIDs;
    if lines != [] {
      SpecOnly(cfg, a, b, lines[1..], idx);
      SpecOnly(cfg, a, b, lines[1..], idx + 1);
      var pa, pb := LinesPlan(cfg, a, lines, idx), LinesPlan(cfg, b, lines, idx);
      var ra, rb := LinesPlan(cfg, a, lines[1..], idx + 1), LinesPlan(cfg, b, lines[1..], idx + 1);
      if pa.Some? && !Skipped(TrimSpace(lines[0])) {
        ConsColumns(pa.value[0], ra.value);
        ConsColumns(pb.value[0], rb.value);
      }
    }
  }

  /** The goal rebuilt after the join carries only ID and text, yet it re-derives the same allow set. */
  lemma RebuiltGoal(cfg: Config, goal: Task, p: Plan)
    requires Planned(cfg, goal) == Some(p)
    ensures Planned(cfg, Task(p.goalID, "", p.goal)).Some?
    ensures Allowed(Planned(cfg, Task(p.goalID, "", p.goal)).value) == Allowed(p)
  {
    PlanShape(cfg, goal, p);
    var rebuilt := Task(p.goalID, "", p.goal);
    SpecOnly(cfg, goal, rebuilt, Journal.Split(goal.spec), 0);
    var q := Planned(cfg, rebuilt).value;
    assert Recipes(q.subGoals) == Recipes(p.subGoals) && TaskIDs(q.subGoals) == TaskIDs(p.subGoals);
  }

  /** End to end: whatever refused the spawn of a sub-goal the planner made, reevaluation never routes
      around it. It replans exactly `bound` times, then writes needs-human once, and the allow set it
      reports is the plan's own (empty when the bound is zero): authorization is never widened. */
  lemma DeniedSpawnEscalates(cfg: Config, goal: Task, p: Plan, sub: SubGoal, reason: string, bound: nat)
    requires Planned(cfg, goal) == Some(p) && sub in p.subGoals && sub.recipe != ""
    ensures ReevaluateSpawn(cfg, Task(p.goalID, "", p.goal), ClassifyBlockedSpawn(sub, reason), bound, Working)
         == (Escalated(bound, if bound == 0 then [] else Allowed(p), BlockedAction(sub.recipe, "spawn-worker", reason)),
             true)
  {
    RebuiltGoal(cfg, goal, p);
    var rebuilt, blocked := Task(p.goalID, "", p.goal), ClassifyBlockedSpawn(sub, reason);
    AuthorizesIff(p, sub.recipe);
    var replan := Replan(cfg, rebuilt, blocked);
    assert forall k: nat :: replan(k) == Some(Reevaluation(Allowed(p), true));
    assert FirstFree(replan, 0, bound) == bound;
  }

  /** Exactly when does reevaluation escalate rather than resolve? When the re-derived plan itself still
      names the denied resource; a foreign resource, or the empty one, is dropped at the first replan. With no replan
      to spend it always escalates, and a negative bound is refused. */
  lemma EscalatesIff(cfg: Config, goal: Task, p: Plan, blocked: BlockedAction, bound: int)
    requires Planned(cfg, goal) == Some(p) && blocked != BlockedAction("", "", "")
    ensures var r := ReevaluateSpawn(cfg, goal, blocked, bound, Working);
            if bound < 0 then r == (Refused, false)
            else if bound == 0 then r == (Escalated(0, [], blocked), true)
            else if Declares(p, blocked.resource) then r == (Escalated(bound, Allowed(p), blocked), true)
            else r == (Resolved(1, Allowed(p)), false)
  {
    AuthorizesIff(p, blocked.resource);
    var replan := Replan(cfg, goal, blocked);
    assert replan(0) == Some(Reevaluation(Allowed(p), Authorizes(p, blocked.resource)));
    assert forall k: nat :: replan(k) == replan(0);
    if bound >= 0 && Authorizes(p, blocked.resource) { assert FirstFree(replan, 0, bound) == bound; }
  }
}
