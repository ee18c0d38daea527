/** Quota over every run of router calls, restarts and saved states: who is available, and how often it is charged. */
module Quota {
  import opened Json
  import opened Routers

  /** `config` is the registry as loaded from the environment: no usage, everything available. */
  datatype State = State(config: Book, book: Book, escalated: set<string>, disk: Option<map<string, Saved>>)

  datatype Call =
    | Select(spec: Spec, clock: string -> int)
    | GateFailure(id: string)
    | Reset
    | Exhaust(id: string, resetAt: int)
    | RateLimit(id: string, delay: int, now: int)
    | Dispatch(id: string, now: int)
    | Save
    | Load
    | Restart
    /** Save, restart with the same configuration, load. */
    | RoundTrip

  function Persisted(s: State): State { s.(disk := Some(SavedBook(s.book))) }

  function Reloaded(s: State): State {
    if s.disk.Some? && Loadable(s.book, s.disk.value) then s.(book := LoadedBook(s.book, s.disk.value)) else s
  }

  function Restarted(s: State): State { s.(book := s.config, escalated := {}) }

  function Next(s: State, c: Call): State {
    match c
    case Select(_, now) => s.(book := Refreshed(s.book, now))
    case GateFailure(id) => s.(escalated := s.escalated + {id})
    case Reset => s.(escalated := {})
    case Exhaust(id, resetAt) => s.(book := Marked(s.book, id, resetAt))
    case RateLimit(id, delay, now) => s.(book := Marked(s.book, id, now + delay))
    case Dispatch(id, now) => s.(book := Dispatched(s.book, id, now))
    case Save => Persisted(s)
    case Load => Reloaded(s)
    case Restart => Restarted(s)
    case RoundTrip => Reloaded(Restarted(Persisted(s)))
  }

  function Exec(s: State, cs: seq<Call>): State {
    if cs == [] then s else Next(Exec(s, cs[..|cs| - 1]), cs[|cs| - 1])
  }

  predicate Within(e: Entry) {
    && e.limit >= 0 && e.usage >= 0 && (e.status == AVAILABLE || e.status == EXHAUSTED)
    && (e.limit == 0 ==> e.status == AVAILABLE)
    && (e.limit > 0 && e.status == AVAILABLE ==> e.usage < e.limit)
  }

  predicate AllWithin(book: Book) { forall id | id in book :: Within(book[id]) }

  predicate Fresh(config: Book) {
    Keyed(config) && forall id | id in config ::
                       config[id].usage == 0 && config[id].status == AVAILABLE && config[id].limit >= 0
  }

  ghost predicate Sound(s: State) {
    && Fresh(s.config) && SameConfig(s.book, s.config) && AllWithin(s.book)
    && (s.disk.Some? ==>
          forall id | id in s.disk.value && id in s.config :: Within(Restored(s.config[id], s.disk.value[id])))
  }

  lemma RefreshSound(s: State, now: string -> int)
    requires Sound(s)
    ensures Sound(s.(book := Refreshed(s.book, now)))
  {
  }

  lemma OneSound(s: State, id: string, e: Entry)
    requires Sound(s) && id in s.book && Within(e)
    requires e == s.book[id].(usage := e.usage, status := e.status, resetAt := e.resetAt)
    ensures Sound(s.(book := s.book[id := e]))
  {
    assert s.book[id] == s.config[id].(usage := s.book[id].usage, status := s.book[id].status,
                                       resetAt := s.book[id].resetAt);
  }

  lemma MarkSound(s: State, id: string, resetAt: int)
    requires Sound(s)
    ensures Sound(s.(book := Marked(s.book, id, resetAt)))
  {
    var r := Find(s.book, id);
    if r.Some? && !r.value.Unlimited() { OneSound(s, id, r.value.(status := EXHAUSTED, resetAt := resetAt)); }
    else { assert s.(book := s.book) == s; }
  }

  lemma DispatchSound(s: State, id: string, now: int)
    requires Sound(s)
    ensures Sound(s.(book := Dispatched(s.book, id, now)))
  {
    var r := Find(s.book, id);
    if r.Some? && !r.value.Unlimited() { OneSound(s, id, Charged(r.value, now)); }
    else { assert s.(book := s.book) == s; }
  }

  lemma SaveSound(s: State)
    requires Sound(s)
    ensures Sound(Persisted(s))
  {
    forall id | id in s.book ensures Restored(s.config[id], SavedOf(s.book[id])) == s.book[id] {
      assert s.book[id] == s.config[id].(usage := s.book[id].usage, status := s.book[id].status,
                                         resetAt := s.book[id].resetAt);
    }
  }

  lemma LoadSound(s: State)
    requires Sound(s)
    ensures Sound(Reloaded(s))
  {
    if s.disk.Some? && Loadable(s.book, s.disk.value) {
      var saved := s.disk.value;
      forall id | id in s.book && id in saved
        ensures Restored(s.book[id], saved[id]) == Restored(s.config[id], saved[id])
      {
        assert s.book[id] == s.config[id].(usage := s.book[id].usage, status := s.book[id].status,
                                           resetAt := s.book[id].resetAt);
      }
    }
  }

  lemma CallSound(s: State, c: Call)
    requires Sound(s)
    ensures Sound(Next(s, c))
  {
    hide Sound, Refreshed, Marked, Dispatched, Persisted, Reloaded, Restarted;
    match c
    case Select(_, now) => RefreshSound(s, now);
    case Exhaust(id, resetAt) => MarkSound(s, id, resetAt);
    case RateLimit(id, delay, now) => MarkSound(s, id, now + delay);
    case Dispatch(id, now) => DispatchSound(s, id, now);
    case Save => SaveSound(s);
    case Load => LoadSound(s);
    case Restart => RestartSound(s);
    case RoundTrip =>
      SaveSound(s);
      RestartSound(Persisted(s));
      LoadSound(Restarted(Persisted(s)));
    case _ => EscalationSound(s, c);
  }

  lemma RestartSound(s: State)
    requires Sound(s)
    ensures Sound(Restarted(s))
  {
  }

  lemma EscalationSound(s: State, c: Call)
    requires Sound(s) && (c.GateFailure? || c.Reset?)
    ensures Sound(Next(s, c))
  {
  }

  lemma {:induction false} RunSound(s: State, cs: seq<Call>)
    requires Sound(s)
    ensures Sound(Exec(s, cs))
  {
    hide Sound, Next;
    if cs != [] {
      RunSound(s, cs[..|cs| - 1]);
      CallSound(Exec(s, cs[..|cs| - 1]), cs[|cs| - 1]);
    }
  }

  /** From fresh entries with no negative limit: after any calls, an unlimited entry is available, and a limited one
      that is available has budget left. */
  lemma AvailableHasBudget(config: Book, cs: seq<Call>, id: string)
    requires Fresh(config) && id in config
    ensures var e := Exec(State(config, config, {}, None), cs);
            id in e.book && if config[id].limit == 0 then e.book[id].status == AVAILABLE
                            else e.book[id].status == AVAILABLE ==> e.book[id].usage < config[id].limit
  {
    hide Exec;
    RunSound(State(config, config, {}, None), cs);
    ConfigKept(State(config, config, {}, None), cs);
  }

  lemma {:induction false} ConfigKept(s: State, cs: seq<Call>)
    ensures Exec(s, cs).config == s.config
  {
    if cs != [] { ConfigKept(s, cs[..|cs| - 1]); }
  }

  // ---------------------------------------------------------------- dispatches between recoveries

  predicate Recovers(s: State, c: Call, id: string) {
    c.Select? && id in s.book && Recovered(s.book[id], c.clock(id)) != s.book[id]
  }

  /** Dispatches of `id` charged while it was available, since its last recovery. */
  function Spent(s: State, cs: seq<Call>, id: string): nat {
    if cs == [] then 0
    else
      var before, t, c := Spent(s, cs[..|cs| - 1], id), Exec(s, cs[..|cs| - 1]), cs[|cs| - 1];
      if Recovers(t, c, id) then 0
      else if c.Dispatch? && c.id == id && id in t.book && t.book[id].status == AVAILABLE then before + 1
      else before
  }

  /** No loading of an older state: persistence happens in round trips. */
  predicate Orderly(c: Call) { !c.Load? && !c.Restart? }

  lemma RoundTripKeeps(s: State, id: string)
    requires Sound(s) && id in s.book && id != ""
    ensures id in Next(s, RoundTrip).book && Next(s, RoundTrip).book[id] == s.book[id]
  {
    SaveLoadRoundTrip(s.book, s.config);
    hide LoadedBook, SavedBook, Loadable;
  }

  lemma SpentStep(s: State, c: Call, id: string, spent: nat)
    requires Sound(s) && Orderly(c) && id in s.book && id != "" && s.book[id].limit > 0
    requires spent <= s.book[id].usage && spent <= s.book[id].limit
    ensures var e := Next(s, c);
            && id in e.book && e.book[id].limit == s.book[id].limit
            && var now := if Recovers(s, c, id) then 0
                          else if c.Dispatch? && c.id == id && s.book[id].status == AVAILABLE then spent + 1 else spent;
            now <= e.book[id].usage && now <= e.book[id].limit
  {
    if c.RoundTrip? { RoundTripKeeps(s, id); }
  }

  lemma {:induction false} SpentWithin(s: State, cs: seq<Call>, id: string)
    requires Sound(s) && id in s.book && id != "" && s.book[id].limit > 0 && forall c | c in cs :: Orderly(c)
    ensures var e := Exec(s, cs); id in e.book && e.book[id].limit == s.book[id].limit
                                  && Spent(s, cs, id) <= e.book[id].usage && Spent(s, cs, id) <= s.book[id].limit
  {
    hide Sound, Next, Recovers;
    if cs != [] {
      var rest := cs[..|cs| - 1];
      assert cs[|cs| - 1] in cs && forall c | c in rest :: c in cs;
      SpentWithin(s, rest, id);
      RunSound(s, rest);
      SpentStep(Exec(s, rest), cs[|cs| - 1], id, Spent(s, rest, id));
    } else {
      assert Within(s.book[id]) by { StartWithin(s, id); }
    }
  }

  lemma StartWithin(s: State, id: string)
    requires Sound(s) && id in s.book
    ensures Within(s.book[id])
  {
  }

  /** All dispatches of `id` since its last recovery, also those charged while it was exhausted. */
  function Total(s: State, cs: seq<Call>, id: string): nat {
    if cs == [] then 0
    else
      var before, t, c := Total(s, cs[..|cs| - 1], id), Exec(s, cs[..|cs| - 1]), cs[|cs| - 1];
      if Recovers(t, c, id) then 0 else if c.Dispatch? && c.id == id then before + 1 else before
  }

  lemma TotalStep(s: State, c: Call, id: string)
    requires Sound(s) && Orderly(c) && id in s.book && id != "" && s.book[id].limit > 0
    ensures var e := Next(s, c);
            id in e.book && e.book[id].limit == s.book[id].limit
            && e.book[id].usage == if Recovers(s, c, id) then 0
                                   else if c.Dispatch? && c.id == id then s.book[id].usage + 1 else s.book[id].usage
  {
    if c.RoundTrip? { RoundTripKeeps(s, id); }
  }

  /** The usage tally of a limited entry is exactly the number of dispatches since its last recovery. */
  lemma {:induction false} UsageIsTotal(config: Book, cs: seq<Call>, id: string)
    requires Fresh(config) && id in config && id != "" && config[id].limit > 0 && forall c | c in cs :: Orderly(c)
    ensures var e := Exec(State(config, config, {}, None), cs);
            id in e.book && e.book[id].limit == config[id].limit
            && e.book[id].usage == Total(State(config, config, {}, None), cs, id)
  {
    hide Sound, Next, Recovers;
    if cs != [] {
      var rest, s := cs[..|cs| - 1], State(config, config, {}, None);
      assert cs[|cs| - 1] in cs && forall c | c in rest :: c in cs;
      UsageIsTotal(config, rest, id);
      StartSound(config);
      RunSound(s, rest);
      TotalStep(Exec(s, rest), cs[|cs| - 1], id);
    }
  }

  lemma StartSound(config: Book)
    requires Fresh(config)
    ensures Sound(State(config, config, {}, None))
  {
  }

  /** Between two recoveries of a limited entry at most Limit dispatches go to it while it is selectable. */
  lemma AtMostLimitDispatches(config: Book, cs: seq<Call>, id: string)
    requires Fresh(config) && id in config && id != "" && config[id].limit > 0 && forall c | c in cs :: Orderly(c)
    ensures Spent(State(config, config, {}, None), cs, id) <= config[id].limit
  {
    hide Spent, Exec;
    SpentWithin(State(config, config, {}, None), cs, id);
  }

  // ---------------------------------------------------------------- escalations, restarts and saved states

  predicate Forgets(c: Call) { c.Reset? || c.Restart? || c.RoundTrip? }

  /** Call `k` failed the gate of `id`, and nothing since has reset the escalations. */
  ghost predicate FailedAt(cs: seq<Call>, k: int, id: string) {
    0 <= k < |cs| && cs[k] == GateFailure(id) && forall j | k < j < |cs| :: !Forgets(cs[j])
  }

  /** After any calls, exactly the entries whose gate failed since the last reset or restart are escalated, and none of
      them is anybody's answer. */
  lemma {:induction false} EscalatedIff(config: Book, cs: seq<Call>, id: string)
    ensures id in Exec(State(config, config, {}, None), cs).escalated <==> exists k :: FailedAt(cs, k, id)
  {
    if cs != [] {
      var n := |cs| - 1;
      EscalatedIff(config, cs[..n], id);
      EscalatedStep(Exec(State(config, config, {}, None), cs[..n]), cs[n], id);
      hide Next, Exec;
      if k :| FailedAt(cs, k, id) {
        if k < n { assert FailedAt(cs[..n], k, id); }
      }
      if k :| FailedAt(cs[..n], k, id) {
        if !Forgets(cs[n]) { assert FailedAt(cs, k, id); }
      }
      if cs[n] == GateFailure(id) { assert FailedAt(cs, n, id); }
    }
  }

  lemma EscalatedStep(s: State, c: Call, id: string)
    ensures id in Next(s, c).escalated <==> c == GateFailure(id) || (id in s.escalated && !Forgets(c))
  {
    hide Refreshed, Marked, Dispatched, SavedBook, LoadedBook, Loadable;
  }

  lemma {:induction false} DiskKept(s: State, cs: seq<Call>)
    requires forall c | c in cs :: !c.Save? && !c.RoundTrip?
    ensures Exec(s, cs).disk == s.disk
  {
    if cs != [] {
      var rest := cs[..|cs| - 1];
      assert cs[|cs| - 1] in cs && forall c | c in rest :: c in cs;
      DiskKept(s, rest);
      hide Refreshed, Marked, Dispatched, SavedBook, LoadedBook, Loadable;
    }
  }

  /** A restart starts over from the configuration: no usage, nothing exhausted, nothing escalated. Loading then brings
      back the book as it was last saved, whatever was called since; only an entry with the empty ID stays new. */
  lemma SavedComesBack(config: Book, before: seq<Call>, since: seq<Call>)
    requires Fresh(config) && forall c | c in since :: !c.Save? && !c.RoundTrip?
    ensures var saved := Exec(State(config, config, {}, None), before);
            var again := Next(Exec(Next(saved, Save), since), Restart);
            && again.book == config && again.escalated == {} && saved.book.Keys == config.Keys
            && Next(again, Load).book == map id | id in saved.book :: if id == "" then config[id] else saved.book[id]
  {
    hide Exec, SameConfig;
    var start := State(config, config, {}, None);
    var saved := Exec(start, before);
    StartSound(config);
    RunSound(start, before);
    ConfigKept(start, before);
    ConfigKept(Next(saved, Save), since);
    DiskKept(Next(saved, Save), since);
    SoundBook(saved);
    hide Sound, SavedBook, LoadedBook, Loadable;
    SaveLoadRoundTrip(saved.book, config);
  }

  lemma SoundBook(s: State)
    requires Sound(s)
    ensures SameConfig(s.book, s.config) && s.book.Keys == s.config.Keys
    ensures forall id | id in s.book :: KnownStatus(SavedOf(s.book[id]))
  {
  }

  // ---------------------------------------------------------------- how long a mark holds

  /** The call takes the limited entry `id` out until the clock has passed `reset`: the provider said so, a rate
      limit did, or this dispatch is the one that reaches the limit. */
  predicate Marks(s: State, c: Call, id: string, reset: int) {
    match c
    case Exhaust(i, resetAt) => i == id && resetAt == reset
    case RateLimit(i, delay, now) => i == id && now + delay == reset
    case Dispatch(i, now) =>
      i == id && id in s.book && s.book[id].usage + 1 >= s.book[id].limit && now + s.book[id].window == reset
    case _ => false
  }

  /** The call brings `id` back no earlier than `reset`: its clock has not passed it, and no mark of its own is
      earlier. */
  predicate NotBefore(c: Call, id: string, window: int, reset: int) {
    match c
    case Select(_, clock) => clock(id) <= reset
    case Exhaust(i, resetAt) => i == id ==> resetAt >= reset
    case RateLimit(i, delay, now) => i == id ==> now + delay >= reset
    case Dispatch(i, now) => i == id ==> now + window >= reset
    case Load => false
    case Restart => false
    case _ => true
  }

  /** And it does not speak of `id` at all. */
  predicate Leaves(c: Call, id: string) { !((c.Exhaust? || c.RateLimit? || c.Dispatch?) && c.id == id) }

  /** `id` is out, until `reset` at least. */
  predicate Out(s: State, id: string, reset: int) {
    id in s.book && s.book[id].status == "exhausted" && s.book[id].resetAt >= reset
  }

  lemma MarkTakesOut(s: State, c: Call, id: string, reset: int)
    requires id in s.book && id != "" && s.book[id].limit > 0 && Marks(s, c, id, reset)
    ensures Out(Next(s, c), id, reset) && Next(s, c).book[id].resetAt == reset
    ensures Next(s, c).book[id].window == s.book[id].window
  {
  }

  lemma OutStep(s: State, c: Call, id: string, reset: int)
    requires Sound(s) && id != "" && Out(s, id, reset) && NotBefore(c, id, s.book[id].window, reset)
    ensures Out(Next(s, c), id, reset) && Next(s, c).book[id].window == s.book[id].window
    ensures Leaves(c, id) ==> s.book[id].resetAt == reset ==> Next(s, c).book[id].resetAt == reset
  {
    if c.RoundTrip? { RoundTripKeeps(s, id); }
  }

  lemma {:induction false} OutRun(s: State, cs: seq<Call>, id: string, reset: int)
    requires Sound(s) && id != "" && Out(s, id, reset)
    requires forall c | c in cs :: NotBefore(c, id, s.book[id].window, reset)
    ensures Out(Exec(s, cs), id, reset) && Exec(s, cs).book[id].window == s.book[id].window
    ensures s.book[id].resetAt == reset && (forall c | c in cs :: Leaves(c, id)) ==>
              Exec(s, cs).book[id].resetAt == reset
  {
    hide Sound, Next, NotBefore, Leaves;
    if cs != [] {
      var rest := cs[..|cs| - 1];
      assert cs[|cs| - 1] in cs && forall c | c in rest :: c in cs;
      OutRun(s, rest, id, reset);
      RunSound(s, rest);
      OutStep(Exec(s, rest), cs[|cs| - 1], id, reset);
    }
  }

  /** After any calls, a limited entry that a call takes out until `reset` is nobody's answer while the clock says no
      later than that, whatever is called in between that does not itself say otherwise. And the moment the clock is
      past it, the entry is back, unless it was marked again. */
  lemma MarkHolds(config: Book, pre: seq<Call>, mark: Call, cs: seq<Call>, id: string, reset: int, last: Call)
    requires Fresh(config) && id in config && id != "" && config[id].limit > 0 && last.Select?
    requires Marks(Exec(State(config, config, {}, None), pre), mark, id, reset)
    requires forall c | c in cs :: NotBefore(c, id, config[id].window, reset)
    ensures var s := Exec(Next(Exec(State(config, config, {}, None), pre), mark), cs);
            && id in s.book
            && (last.clock(id) <= reset ==>
                  forall r | Answers(r, Next(s, last).book, s.escalated, last.spec) && r.Some? :: r.value.id != id)
            && ((forall c | c in cs :: Leaves(c, id)) ==>
                  (Next(s, last).book[id].status == "available" <==> last.clock(id) > reset))
  {
    hide Exec, Sound, NotBefore, Leaves, Marks;
    var start := State(config, config, {}, None);
    var s := Exec(start, pre);
    StartSound(config);
    RunSound(start, pre);
    ConfigKept(start, pre);
    SameEntry(s, id);
    MarkTakesOut(s, mark, id, reset);
    CallSound(s, mark);
    OutRun(Next(s, mark), cs, id, reset);
  }

  lemma SameEntry(s: State, id: string)
    requires Sound(s) && id in s.config
    ensures id in s.book && s.book[id].limit == s.config[id].limit && s.book[id].window == s.config[id].window
  {
  }

  /** The empty ID is the exception: no lookup finds it, so whatever is called, its entry is never charged, never
      marked and never restored. */
  lemma {:induction false} EmptyIdUntouched(config: Book, cs: seq<Call>)
    requires Fresh(config) && "" in config
    ensures var e := Exec(State(config, config, {}, None), cs); "" in e.book && e.book[""] == config[""]
  {
    if cs != [] {
      EmptyIdUntouched(config, cs[..|cs| - 1]);
      ConfigKept(State(config, config, {}, None), cs[..|cs| - 1]);
    }
  }
}
