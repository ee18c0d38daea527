/** RunToCompletion: the goal-level attempt budget and its durability across crashes. */
module Completion {
  import opened RunStore
  import opened RunJournal

  datatype Outcome = Outcome(success: bool, detail: string)

  /** What one Handle call comes back with, and what it wrote to the run journal meanwhile. */
  datatype Handled = Handled(failed: bool, outcomes: seq<Outcome>, writes: seq<Write>)

  function Details(outs: seq<Outcome>): seq<string> {
    if outs == [] then []
    else (if outs[0].success then [] else [if outs[0].detail == "" then "sub-goal failed"
                                           else outs[0].detail]) + Details(outs[1..])
  }

  lemma DetailsCons(o: Outcome, rest: seq<Outcome>)
    ensures Details([o] + rest) ==
            (if o.success then [] else if o.detail == "" then ["sub-goal failed"] else [o.detail]) + Details(rest)
  {
    assert ([o] + rest)[1..] == rest;
  }

  /** Outcome by outcome and in order: a success says nothing, a failure its detail, or that it failed. */
  lemma {:induction false} DetailsInOrder(a: seq<Outcome>, o: Outcome, b: seq<Outcome>)
    ensures Details(a + [o] + b) ==
            Details(a) + (if o.success then [] else if o.detail == "" then ["sub-goal failed"] else [o.detail])
            + Details(b)
  {
    hide Details;
    if a == [] {
      assert a + [o] + b == [o] + b && Details(a) == [] by { NoDetails(); }
      DetailsCons(o, b);
    } else {
      DetailsInOrder(a[1..], o, b);
      assert a + [o] + b == [a[0]] + (a[1..] + [o] + b) && a == [a[0]] + a[1..];
      DetailsCons(a[0], a[1..] + [o] + b);
      DetailsCons(a[0], a[1..]);
    }
  }

  lemma NoDetails()
    ensures Details([]) == []
  {
  }

  function Bullets(info: seq<string>): string {
    if info == [] then "" else "\n- " + info[0] + Bullets(info[1..])
  }

  function Fold(original: string, info: seq<string>): string {
    if info == [] then original else original + "\n\nAdditional information:" + Bullets(info)
  }

  lemma {:induction false} BulletsMore(info: seq<string>, x: string)
    ensures Bullets(info + [x]) == Bullets(info) + ("\n- " + x)
  {
    if info == [] {
      assert info + [x] == [x] && "\n- " + x + "" == "\n- " + x;
    } else {
      BulletsMore(info[1..], x);
      assert (info + [x])[1..] == info[1..] + [x];
      var head := "\n- " + info[0];
      assert head + (Bullets(info[1..]) + ("\n- " + x)) == head + Bullets(info[1..]) + ("\n- " + x);
    }
  }

  /** The amended text: the original alone, or the original, one heading, and one bullet per line of information. */
  lemma FoldedText(original: string, info: seq<string>, x: string)
    ensures Fold(original, []) == original
    ensures Fold(original, info + [x]) ==
            (if info == [] then original + "\n\nAdditional information:" else Fold(original, info)) + ("\n- " + x)
  {
    BulletsMore(info, x);
    var head := original + "\n\nAdditional information:";
    assert head + (Bullets(info) + ("\n- " + x)) == head + Bullets(info) + ("\n- " + x);
    assert info == [] ==> head + Bullets(info) == head;
  }

  /** The goal texts of the calls made: the original first, then each time the original again, amended with the
      failures of the previous call only. */
  ghost predicate Amended(spec: string, handle: (nat, string) -> Handled, texts: seq<string>) {
    forall k | 0 <= k < |texts| ::
      texts[k] == if k == 0 then spec else Fold(spec, Details(handle(k - 1, texts[k - 1]).outcomes))
  }

  /** Each of the first `n` calls was followed by a re-plan: no hard error, but some sub-goal failed. */
  ghost predicate Replanned(handle: (nat, string) -> Handled, texts: seq<string>, n: int)
    requires n <= |texts|
  {
    forall k | 0 <= k < n ::
      !handle(k, texts[k]).failed && exists o :: o in handle(k, texts[k]).outcomes && !o.success
  }

  /** The text of the next call. */
  ghost predicate IsNext(spec: string, handle: (nat, string) -> Handled, texts: seq<string>, text: string) {
    var n := |texts|;
    text == if n == 0 then spec else Fold(spec, Details(handle(n - 1, texts[n - 1]).outcomes))
  }

  lemma CallNone(spec: string, handle: (nat, string) -> Handled)
    ensures Amended(spec, handle, []) && Replanned(handle, [], 0) && IsNext(spec, handle, [], spec)
  {
  }

  lemma CallOne(spec: string, handle: (nat, string) -> Handled, texts: seq<string>, text: string)
    requires Amended(spec, handle, texts) && Replanned(handle, texts, |texts|) && IsNext(spec, handle, texts, text)
    ensures var more, h := texts + [text], handle(|texts|, text);
            && Amended(spec, handle, more) && Replanned(handle, more, |texts|)
            && (!h.failed && (exists o :: o in h.outcomes && !o.success) ==> Replanned(handle, more, |more|))
            && IsNext(spec, handle, more, Fold(spec, Details(h.outcomes)))
  {
    hide Fold, Details;
  }

  /** The last call's outcomes, which an exhausted loop returns. */
  ghost function LastOutcomes(handle: (nat, string) -> Handled, texts: seq<string>): seq<Outcome> {
    if texts == [] then [] else handle(|texts| - 1, texts[|texts| - 1]).outcomes
  }

  function AllWritten(rs: Records, ws: seq<Write>): Records
    decreases |ws|
  {
    if ws == [] then rs else AllWritten(Written(rs, ws[0]), ws[1..])
  }

  lemma {:induction false} AllWrittenKeepCount(rs: Records, ws: seq<Write>, goalID: string)
    ensures AttemptCount(AllWritten(rs, ws), goalID) == AttemptCount(rs, goalID)
    decreases |ws|
  {
    if ws != [] {
      WritesKeepCount(rs, ws[0], goalID);
      AllWrittenKeepCount(Written(rs, ws[0]), ws[1..], goalID);
    }
  }

  method HasTerminalFailure(outs: seq<Outcome>) returns (found: bool)
    ensures found <==> exists o :: o in outs && !o.success
  {
    for i := 0 to |outs|
      invariant forall j | 0 <= j < i :: outs[j].success
    {
      if !outs[i].success { return true; }
    }
    return false;
  }

  method FailureDetails(outs: seq<Outcome>) returns (details: seq<string>)
    ensures details == Details(outs)
  {
    details := [];
    for i := 0 to |outs|
      invariant details + Details(outs[i..]) == Details(outs)
    {
      ghost var rest := outs[i..];
      assert rest[1..] == outs[i + 1..];
      if !outs[i].success {
        var d := if outs[i].detail == "" then "sub-goal failed" else outs[i].detail;
        assert details + ([d] + Details(outs[i + 1..])) == details + [d] + Details(outs[i + 1..]);
        details := details + [d];
      } else {
        assert [] + Details(outs[i + 1..]) == Details(outs[i + 1..]);
      }
    }
    assert details + [] == details;
  }

  method FoldGoalText(original: string, info: seq<string>) returns (text: string)
    ensures text == Fold(original, info)
  {
    if info == [] { return original; }
    text := original + "\n\nAdditional information:";
    ghost var head := text;
    for i := 0 to |info|
      invariant text + Bullets(info[i..]) == head + Bullets(info)
    {
      assert info[i..][1..] == info[i + 1..];
      assert text + ("\n- " + info[i] + Bullets(info[i + 1..])) == text + "\n- " + info[i] + Bullets(info[i + 1..]);
      text := text + "\n- " + info[i];
    }
    assert text + "" == text;
  }

  datatype Verdict = Exhausted(last: seq<Outcome>) | Returned(failed: bool, outcomes: seq<Outcome>)

  class Driver {
    var records: Records

    constructor (records: Records)
      ensures this.records == records
    {
      this.records := records;
    }

    method LoadAttemptCount(goalID: string) returns (n: nat)
      ensures n == AttemptCount(records, goalID)
    {
      if goalID !in records { return 0; }
      return records[goalID].attempt;
    }

    method SaveAttemptCount(goalID: string, n: nat, stored: bool)
      modifies this
      ensures records == if stored then CountSaved(old(records), goalID, n) else old(records)
      ensures stored ==> AttemptCount(records, goalID) == n
    {
      var rec := if goalID in records then records[goalID] else Blankish(goalID, Running);
      rec := rec.(attempt := n);
      if stored { records := records[goalID := rec]; }
    }

    /** What a Handle call writes meanwhile: never the counter. */
    method Record(goalID: string, writes: seq<Write>)
      modifies this
      ensures records == AllWritten(old(records), writes)
      ensures AttemptCount(records, goalID) == old(AttemptCount(records, goalID))
    {
      AllWrittenKeepCount(records, writes, goalID);
      records := AllWritten(records, writes);
    }

    /** `handle` answers each call (its number, the goal text); `stored` says which counter saves reach the store. */
    method RunToCompletion(goalID: string, spec: string, maxAttempts: int, handle: (nat, string) -> Handled,
                           stored: nat -> bool)
      returns (v: Verdict, texts: seq<string>)
      modifies this
      ensures Amended(spec, handle, texts)
      ensures v.Exhausted? ==>
                old(AttemptCount(records, goalID)) + |texts| >= maxAttempts && Replanned(handle, texts, |texts|)
      ensures v.Exhausted? ==> v.last == LastOutcomes(handle, texts)
      ensures v.Returned? ==> |texts| > 0 && Replanned(handle, texts, |texts| - 1)
      ensures v.Returned? ==>
                var h := handle(|texts| - 1, texts[|texts| - 1]);
                (h.failed || forall o | o in h.outcomes :: o.success) && v == Returned(h.failed, h.outcomes)
      ensures texts == [] || old(AttemptCount(records, goalID)) + |texts| <= maxAttempts
      ensures (forall k | 0 <= k < |texts| :: stored(k)) ==>
                AttemptCount(records, goalID) == old(AttemptCount(records, goalID)) + |texts|
    {
      hide AllWritten, AttemptCount, CountSaved, Fold, Details, Replanned, Amended, IsNext;
      CallNone(spec, handle);
      var attempt := LoadAttemptCount(goalID);
      ghost var before := attempt;
      var text, last := spec, [];
      texts := [];
      while attempt < maxAttempts
        invariant attempt == before + |texts| && (texts == [] || attempt <= maxAttempts)
        invariant Amended(spec, handle, texts) && Replanned(handle, texts, |texts|) && IsNext(spec, handle, texts, text)
        invariant last == LastOutcomes(handle, texts)
        invariant (forall k | 0 <= k < |texts| :: stored(k)) ==> AttemptCount(records, goalID) == attempt
      {
        attempt := attempt + 1;
        SaveAttemptCount(goalID, attempt, stored(|texts|));
        var h := handle(|texts|, text);
        Record(goalID, h.writes);
        CallOne(spec, handle, texts, text);
        texts, last := texts + [text], h.outcomes;
        if h.failed { return Returned(true, h.outcomes), texts; }
        var again := HasTerminalFailure(h.outcomes);
        if !again { return Returned(false, h.outcomes), texts; }
        var details := FailureDetails(h.outcomes);
        text := FoldGoalText(spec, details);
      }
      v := Exhausted(last);
    }
  }

  // ---------------------------------------------------------------- across crashes

  /** Where the one RunToCompletion of the goal stands; `n` is its local attempt counter. */
  datatype Phase = Idle | Deciding(n: nat) | Ready(n: nat) | Handling(n: nat)

  /** `handled` counts Handle calls over the goal's whole life. */
  datatype State = State(goalID: string, limit: int, records: Records, phase: Phase, handled: nat)

  datatype Action =
    | Begin
    | SaveCount(stored: bool)
    | Handle
    | Return(again: bool)
    | Log(write: Write)
    | SaveOther(goalID: string, n: nat)
    | Crash

  function Next(s: State, a: Action): State {
    match a
    case Begin => if s.phase.Idle? then s.(phase := Deciding(AttemptCount(s.records, s.goalID))) else s
    case SaveCount(stored) =>
      if !s.phase.Deciding? then s
      else if s.phase.n >= s.limit then s.(phase := Idle)
      else if stored then s.(phase := Ready(s.phase.n + 1), records := CountSaved(s.records, s.goalID, s.phase.n + 1))
      else s.(phase := Ready(s.phase.n + 1))
    case Handle => if s.phase.Ready? then s.(phase := Handling(s.phase.n), handled := s.handled + 1) else s
    case Return(again) => if s.phase.Handling? then s.(phase := if again then Deciding(s.phase.n) else Idle) else s
    case Log(w) => s.(records := Written(s.records, w))
    case SaveOther(g, n) => if g != s.goalID then s.(records := CountSaved(s.records, g, n)) else s
    case Crash => s.(phase := Idle)
  }

  function Exec(s: State, acts: seq<Action>): State {
    if acts == [] then s else Next(Exec(s, acts[..|acts| - 1]), acts[|acts| - 1])
  }

  function Stored(s: State): nat { AttemptCount(s.records, s.goalID) }

  /** The attempts the goal is known to have had: by the running process, or by the store when none runs. */
  function Known(s: State): int {
    match s.phase
    case Idle => Stored(s)
    case Deciding(n) => n
    case Ready(n) => n - 1
    case Handling(n) => n
  }

  /** How far the stored counter is behind the process that `a` ends; negative when it is ahead, zero otherwise. */
  function Lag(s: State, a: Action): int {
    if !s.phase.Idle? && Next(s, a).phase.Idle? then Known(s) - Stored(Next(s, a)) else 0
  }

  /** The attempts forgotten at the ends of processes, over a whole run. */
  function Slip(s: State, acts: seq<Action>): int {
    if acts == [] then 0 else Slip(s, acts[..|acts| - 1]) + Lag(Exec(s, acts[..|acts| - 1]), acts[|acts| - 1])
  }

  lemma StepEquation(s: State, a: Action)
    ensures Next(s, a).handled + Known(s) == s.handled + Known(Next(s, a)) + Lag(s, a)
    ensures Next(s, a).limit == s.limit && Next(s, a).goalID == s.goalID
  {
    if a.Log? {
      WritesKeepCount(s.records, a.write, s.goalID);
      hide Written;
    }
  }

  /** Over any crashes, restarts and journal writes, re-admissions included, every call is accounted for: it is known
      to the process or the store, or it was forgotten when a process ended with the stored counter behind its own. */
  lemma {:induction false} BudgetEquation(s: State, acts: seq<Action>)
    requires s.phase.Idle? && s.handled == 0
    ensures var e := Exec(s, acts);
            e.handled + Stored(s) == Known(e) + Slip(s, acts) && e.limit == s.limit && e.goalID == s.goalID
  {
    hide Next, Known, Lag;
    if acts != [] {
      BudgetEquation(s, acts[..|acts| - 1]);
      StepEquation(Exec(s, acts[..|acts| - 1]), acts[|acts| - 1]);
    } else {
      assert Known(s) == Stored(s) by { IdleKnown(s); }
    }
  }

  lemma IdleKnown(s: State)
    requires s.phase.Idle?
    ensures Known(s) == Stored(s)
  {
  }

  /** No attempt number ever passes the limit, unless the store already held one that did. */
  ghost predicate Capped(s: State, first: nat) {
    var top := if s.limit > first then s.limit else first;
    Stored(s) <= top && (!s.phase.Idle? ==> s.phase.n <= top)
  }

  lemma StepCapped(s: State, a: Action, first: nat)
    requires Capped(s, first)
    ensures Capped(Next(s, a), first)
  {
    if a.Log? {
      WritesKeepCount(s.records, a.write, s.goalID);
      hide Written;
    }
  }

  lemma {:induction false} RunCapped(s: State, acts: seq<Action>, first: nat)
    requires Capped(s, first)
    ensures Capped(Exec(s, acts), first)
  {
    hide Next, Capped;
    if acts != [] {
      RunCapped(s, acts[..|acts| - 1], first);
      StepCapped(Exec(s, acts[..|acts| - 1]), acts[|acts| - 1], first);
    }
  }

  /** Some process ended with the stored counter behind its own. */
  ghost predicate EndsBehind(s: State, acts: seq<Action>) {
    exists i | 0 <= i < |acts| :: Lag(Exec(s, acts[..i]), acts[i]) > 0
  }

  lemma {:induction false} NoSlip(s: State, acts: seq<Action>)
    requires !EndsBehind(s, acts)
    ensures Slip(s, acts) <= 0
  {
    hide Lag, Next;
    if acts != [] {
      var rest := acts[..|acts| - 1];
      assert !EndsBehind(s, rest) by {
        assert forall i | 0 <= i < |rest| :: acts[i] == rest[i] && rest[..i] == acts[..i];
      }
      NoSlip(s, rest);
      assert Lag(Exec(s, acts[..|acts| - 1]), acts[|acts| - 1]) <= 0;
    }
  }

  /** As long as no process ends with the stored counter behind its own, the goal is handled at most as often as its
      budget has left, over any number of crashes and restarts. */
  lemma BudgetHolds(s: State, acts: seq<Action>)
    requires s.phase.Idle? && s.handled == 0 && !EndsBehind(s, acts)
    ensures Exec(s, acts).handled <= if s.limit > Stored(s) then s.limit - Stored(s) else 0
  {
    BudgetEquation(s, acts);
    NoSlip(s, acts);
    RunCapped(s, acts, Stored(s));
    hide Exec, Slip, EndsBehind;
  }

  /** A process whose saves are stored is never ahead of the store. */
  lemma {:induction false} InStep(s: State, acts: seq<Action>)
    requires s.phase.Idle? && forall a | a in acts :: a != SaveCount(false)
    ensures !Exec(s, acts).phase.Idle? ==> Stored(Exec(s, acts)) == Exec(s, acts).phase.n
  {
    if acts != [] {
      var rest, a := acts[..|acts| - 1], acts[|acts| - 1];
      assert a in acts && forall x | x in rest :: x in acts;
      InStep(s, rest);
      if a.Log? {
        WritesKeepCount(Exec(s, rest).records, a.write, Exec(s, rest).goalID);
        hide Written;
      }
    }
  }

  /** So with every counter save stored the budget holds. */
  lemma SavedBudgetHolds(s: State, acts: seq<Action>)
    requires s.phase.Idle? && s.handled == 0 && forall a | a in acts :: a != SaveCount(false)
    ensures Exec(s, acts).handled <= if s.limit > Stored(s) then s.limit - Stored(s) else 0
  {
    forall i | 0 <= i < |acts| ensures Lag(Exec(s, acts[..i]), acts[i]) <= 0 {
      assert acts[i] in acts && forall a | a in acts[..i] :: a in acts;
      InStep(s, acts[..i]);
      EndInStep(Exec(s, acts[..i]), acts[i]);
    }
    hide Exec, Lag;
    BudgetHolds(s, acts);
  }

  lemma EndInStep(s: State, a: Action)
    requires !s.phase.Idle? ==> Stored(s) == s.phase.n
    ensures Lag(s, a) <= 0
  {
    if a.Log? {
      WritesKeepCount(s.records, a.write, s.goalID);
      hide Written;
    }
  }

  /** Lost saves, each followed by a crash, make any number of calls no restart knows of. */
  lemma {:induction false} LostSavesCostCalls(s: State, n: nat)
    requires s.phase.Idle? && s.handled == 0 && Stored(s) < s.limit
    ensures exists acts :: Exec(s, acts) == s.(handled := n)
  {
    if n == 0 {
      assert Exec(s, []) == s;
    } else {
      LostSavesCostCalls(s, n - 1);
      var acts :| Exec(s, acts) == s.(handled := n - 1);
      Extend(s, acts, Begin);
      Extend(s, acts + [Begin], SaveCount(false));
      Extend(s, acts + [Begin] + [SaveCount(false)], Handle);
      Extend(s, acts + [Begin] + [SaveCount(false)] + [Handle], Crash);
      assert Exec(s, acts + [Begin] + [SaveCount(false)] + [Handle] + [Crash]) == s.(handled := n);
    }
  }

  lemma Extend(s: State, acts: seq<Action>, a: Action)
    ensures Exec(s, acts + [a]) == Next(Exec(s, acts), a)
  {
    assert (acts + [a])[..|acts|] == acts;
  }
}
