/** One retried dispatch: the attempt loop, the recording executor and the escalation hook over one router. */
module Retry {
  import opened Json
  import opened Routers

  // ---------------------------------------------------------------- one pick, attempt, verify cycle

  datatype Stage = Pick | Attempt | Verify | Advance

  datatype Picked = PickError | NoTask | Task
  datatype Ran = Errored | Incomplete | Completed
  datatype Reason = ExecutorError | ExecutorIncomplete | GateRefused
  datatype Kind = Idle | Done | Failed(reason: Reason)

  /** Outcome of a cycle; `error` marks the one error it returns, a failed pick. */
  datatype Outcome = Outcome(error: bool, kind: Kind, trace: seq<Stage>)

  /** The trace is how far the cycle got: it stops before the first stage that could not begin. */
  method RunCycle(picked: Picked, ran: Ran, gate: bool) returns (o: Outcome)
    ensures o.trace <= [Pick, Attempt, Verify, Advance] && |o.trace| >= 1
    ensures |o.trace| >= 2 <==> picked.Task?
    ensures |o.trace| >= 3 <==> picked.Task? && ran.Completed?
    ensures |o.trace| == 4 <==> o.kind.Done?
    ensures o.kind.Done? <==> picked.Task? && ran.Completed? && gate
    ensures o.kind == Failed(ExecutorError) <==> picked.Task? && ran.Errored?
    ensures o.kind == Failed(ExecutorIncomplete) <==> picked.Task? && ran.Incomplete?
    ensures o.kind == Failed(GateRefused) <==> picked.Task? && ran.Completed? && !gate
    ensures o.error <==> picked.PickError?
  {
    var trace := [Pick];
    if picked.PickError? { return Outcome(true, Idle, trace); }
    if picked.NoTask? { return Outcome(false, Idle, trace); }
    trace := trace + [Attempt];
    if ran.Errored? { return Outcome(false, Failed(ExecutorError), trace); }
    if ran.Incomplete? { return Outcome(false, Failed(ExecutorIncomplete), trace); }
    trace := trace + [Verify];
    if !gate { return Outcome(false, Failed(GateRefused), trace); }
    trace := trace + [Advance];
    return Outcome(false, Done, trace);
  }

  // ---------------------------------------------------------------- the whole dispatch, on values

  /** The clock at the k-th dispatch, and at the hook after it as read for each entry. */
  datatype Clock = Clock(dispatch: nat -> int, hook: nat -> string -> int)

  /** The registry after the k-th attempt was recorded on the entry that ran it. */
  ghost function Charge(book: Book, used: seq<string>, clock: Clock, k: nat): Book
    requires k < |used|
    decreases k, 0
  {
    Dispatched(if k == 0 then book else Seen(book, used, clock, k - 1), used[k], clock.dispatch(k))
  }

  /** The registry the hook after the k-th attempt selects from. */
  ghost function Seen(book: Book, used: seq<string>, clock: Clock, k: nat): Book
    requires k < |used|
    decreases k, 1
  {
    Refreshed(Charge(book, used, clock, k), clock.hook(k))
  }

  ghost predicate Woke(book: Book, used: seq<string>, clock: Clock, k: nat)
    requires k < |used|
  {
    Seen(book, used, clock, k) != Charge(book, used, clock, k)
  }

  function IDs(ids: seq<string>): set<string> { set id | id in ids }

  function Spurned(escalated: set<string>, used: seq<string>, k: nat): set<string>
    requires k < |used|
  {
    escalated + IDs(used[..k + 1])
  }

  /** The next attempt runs on what the router answers once every entry used so far has failed its gate, and stays
      where it is when the router has nothing left. */
  ghost predicate Hooked(book: Book, escalated: set<string>, used: seq<string>, spec: Spec, clock: Clock, k: nat)
    requires k + 1 < |used|
  {
    var seen, failed := Seen(book, used, clock, k), Spurned(escalated, used, k);
    if used[k + 1] == used[k] then Answers(None, seen, failed, spec)
    else used[k + 1] in seen && Answers(Some(seen[used[k + 1]]), seen, failed, spec)
  }

  ghost predicate Follows(book: Book, escalated: set<string>, used: seq<string>, spec: Spec, clock: Clock) {
    forall k | 0 <= k < |used| - 1 :: Hooked(book, escalated, used, spec, clock, k)
  }

  // ---------------------------------------------------------------- what follows from following the router

  /** When the entry changes, the new one was not used before. */
  lemma ChangeIsNew(book: Book, escalated: set<string>, used: seq<string>, spec: Spec, clock: Clock, k: nat)
    requires Keyed(book) && k + 1 < |used| && Hooked(book, escalated, used, spec, clock, k) && used[k + 1] != used[k]
    ensures used[k + 1] !in used[..k + 1]
  {
    SeenConfig(book, used, clock, k);
    ConfigKeyed(Seen(book, used, clock, k), book);
    hide Seen;
  }

  /** An entry once left is never used again. */
  lemma {:induction false} NeverReused(book: Book, escalated: set<string>, used: seq<string>, spec: Spec, clock: Clock,
                                       i: nat, j: nat, k: nat)
    requires Keyed(book) && Follows(book, escalated, used, spec, clock) && i < j < k < |used| && used[i] != used[j]
    ensures used[k] != used[i]
    decreases k
  {
    hide Hooked;
    if used[k] != used[k - 1] {
      assert Hooked(book, escalated, used, spec, clock, k - 1);
      ChangeIsNew(book, escalated, used, spec, clock, k - 1);
      assert used[..k - 1 + 1][i] == used[i];
    } else if j < k - 1 {
      NeverReused(book, escalated, used, spec, clock, i, j, k - 1);
    }
  }

  lemma DispatchedConfig(book: Book, id: string, now: int)
    ensures SameConfig(Dispatched(book, id, now), book)
    ensures forall x | x in book && x != id :: Dispatched(book, id, now)[x] == book[x]
  {
  }

  lemma {:induction false} SeenConfig(book: Book, used: seq<string>, clock: Clock, k: nat)
    requires k < |used|
    ensures SameConfig(Charge(book, used, clock, k), book) && SameConfig(Seen(book, used, clock, k), book)
    decreases k
  {
    if k > 0 { SeenConfig(book, used, clock, k - 1); }
    var before := if k == 0 then book else Seen(book, used, clock, k - 1);
    DispatchedConfig(before, used[k], clock.dispatch(k));
    RefreshedConfig(Charge(book, used, clock, k), clock.hook(k));
    hide Dispatched, Refreshed;
    ConfigTransitive(Charge(book, used, clock, k), before, book);
    ConfigTransitive(Seen(book, used, clock, k), Charge(book, used, clock, k), book);
  }

  lemma RefreshedConfig(book: Book, now: string -> int)
    ensures SameConfig(Refreshed(book, now), book)
  {
  }

  lemma ConfigTransitive(a: Book, b: Book, c: Book)
    requires SameConfig(a, b) && SameConfig(b, c)
    ensures SameConfig(a, c)
  {
    forall id | id in a ensures a[id] == c[id].(usage := a[id].usage, status := a[id].status,
                                                resetAt := a[id].resetAt) {
      assert b[id] == c[id].(usage := b[id].usage, status := b[id].status, resetAt := b[id].resetAt);
    }
  }

  /** Selection order looks at the configuration only. */
  lemma LessConfig(a: Book, b: Book, x: string, y: string, sensitive: bool)
    requires SameConfig(a, b) && x in a && y in a
    ensures Less(a[x], a[y], sensitive) == Less(b[x], b[y], sensitive)
  {
    assert a[x] == b[x].(usage := a[x].usage, status := a[x].status, resetAt := a[x].resetAt);
    assert a[y] == b[y].(usage := a[y].usage, status := a[y].status, resetAt := a[y].resetAt);
  }

  /** Every other entry still selectable comes after `cur`. */
  ghost predicate Ahead(cur: string, book: Book, failed: set<string>, spec: Spec) {
    && cur in book
    && forall id | id in book && id != cur && Eligible(book[id], failed, spec) ::
         Less(book[cur], book[id], spec.sensitive)
  }

  /** The router's answer, or the entry kept for want of one, is ahead of all that is left. */
  lemma HookedAhead(book: Book, escalated: set<string>, used: seq<string>, spec: Spec, clock: Clock, k: nat)
    requires Keyed(book) && used != [] && used[0] in book && k + 1 < |used|
    requires Follows(book, escalated, used, spec, clock)
    ensures Ahead(used[k + 1], Seen(book, used, clock, k), Spurned(escalated, used, k), spec)
  {
    UsedInBook(book, escalated, used, spec, clock, k + 1);
    SeenConfig(book, used, clock, k);
    hide Seen, Spurned, Follows;
    assert Hooked(book, escalated, used, spec, clock, k) by { FollowsAt(book, escalated, used, spec, clock, k); }
  }

  lemma FollowsAt(book: Book, escalated: set<string>, used: seq<string>, spec: Spec, clock: Clock, k: nat)
    requires k + 1 < |used| && Follows(book, escalated, used, spec, clock)
    ensures Hooked(book, escalated, used, spec, clock, k)
  {
  }

  lemma {:induction false} UsedInBook(book: Book, escalated: set<string>, used: seq<string>, spec: Spec, clock: Clock,
                                      k: nat)
    requires k < |used| && used[0] in book && Follows(book, escalated, used, spec, clock)
    ensures used[k] in book
    decreases k
  {
    if k > 0 {
      UsedInBook(book, escalated, used, spec, clock, k - 1);
      SeenConfig(book, used, clock, k - 1);
      assert Hooked(book, escalated, used, spec, clock, k - 1);
      hide Seen;
    }
  }

  /** What stays selectable after an attempt on `cur` that woke nobody was selectable before it. */
  lemma AheadStays(cur: string, before: Book, after: Book, failed: set<string>, more: set<string>, spec: Spec,
                   id: string)
    requires Ahead(cur, before, failed, spec) && failed <= more && cur in more && Keyed(after)
    requires before.Keys == after.Keys && forall x | x in before && x != cur :: after[x] == before[x]
    requires id in after && Eligible(after[id], more, spec)
    ensures id != cur && Less(before[cur], before[id], spec.sensitive)
  {
  }

  lemma ConfigKeyed(a: Book, b: Book)
    requires SameConfig(a, b) && Keyed(b)
    ensures Keyed(a)
  {
    forall id | id in a ensures a[id].id == id {
      assert a[id] == b[id].(usage := a[id].usage, status := a[id].status, resetAt := a[id].resetAt);
    }
  }

  /** One hook that woke nobody: the router's answer comes after the entry it replaces. */
  lemma AnswerClimbs(cur: string, next: string, before: Book, failed: set<string>, more: set<string>, now: int,
                     spec: Spec)
    requires Keyed(before) && Ahead(cur, before, failed, spec) && failed <= more && cur in more
    requires next in before
    requires Answers(Some(Dispatched(before, cur, now)[next]), Dispatched(before, cur, now), more, spec)
    ensures Less(before[cur], before[next], spec.sensitive)
  {
    DispatchedConfig(before, cur, now);
    ConfigKeyed(Dispatched(before, cur, now), before);
    hide Dispatched, Less;
    AheadStays(cur, before, Dispatched(before, cur, now), failed, more, spec, next);
  }

  /** The registry at the k-th attempt, and the entries spurned by then. */
  ghost function BookAt(book: Book, used: seq<string>, clock: Clock, k: nat): Book
    requires k < |used|
  {
    if k == 0 then book else Seen(book, used, clock, k - 1)
  }

  function SpurnedAt(escalated: set<string>, used: seq<string>, k: nat): set<string>
    requires k < |used|
  {
    if k == 0 then escalated else Spurned(escalated, used, k - 1)
  }

  lemma AheadAt(book: Book, escalated: set<string>, used: seq<string>, spec: Spec, clock: Clock, k: nat)
    requires Keyed(book) && k < |used| && Follows(book, escalated, used, spec, clock)
    requires used[0] in book && Answers(Some(book[used[0]]), book, escalated, spec)
    ensures SameConfig(BookAt(book, used, clock, k), book) && Keyed(BookAt(book, used, clock, k))
    ensures Ahead(used[k], BookAt(book, used, clock, k), SpurnedAt(escalated, used, k), spec)
  {
    if k > 0 {
      HookedAhead(book, escalated, used, spec, clock, k - 1);
      SeenConfig(book, used, clock, k - 1);
      hide Seen, Follows, Ahead;
      ConfigKeyed(Seen(book, used, clock, k - 1), book);
    }
  }

  /** Unless an entry recovered at that hook, a change of entry moves strictly forward in selection order. */
  lemma ChangeClimbs(book: Book, escalated: set<string>, used: seq<string>, spec: Spec, clock: Clock, k: nat)
    requires Keyed(book) && k + 1 < |used| && Follows(book, escalated, used, spec, clock)
    requires used[0] in book && Answers(Some(book[used[0]]), book, escalated, spec)
    requires !Woke(book, used, clock, k) && used[k + 1] != used[k]
    ensures used[k] in book && used[k + 1] in book && Less(book[used[k]], book[used[k + 1]], spec.sensitive)
  {
    UsedInBook(book, escalated, used, spec, clock, k);
    UsedInBook(book, escalated, used, spec, clock, k + 1);
    AheadAt(book, escalated, used, spec, clock, k);
    FollowsAt(book, escalated, used, spec, clock, k);
    SpurnedGrows(escalated, used, k);
    hide Follows, Answers, Dispatched, Refreshed, Ahead, Less, Spurned, Keyed;
    AnswerClimbs(used[k], used[k + 1], BookAt(book, used, clock, k), SpurnedAt(escalated, used, k),
                 Spurned(escalated, used, k), clock.dispatch(k), spec);
    LessConfig(BookAt(book, used, clock, k), book, used[k], used[k + 1], spec.sensitive);
  }

  lemma SpurnedGrows(escalated: set<string>, used: seq<string>, k: nat)
    requires k < |used|
    ensures escalated <= Spurned(escalated, used, k) && used[k] in Spurned(escalated, used, k)
    ensures k > 0 ==> Spurned(escalated, used, k - 1) <= Spurned(escalated, used, k)
  {
  }

  /** While no entry recovers, the entries used strictly increase in selection order whenever they change. */
  lemma {:induction false} EntriesClimb(book: Book, escalated: set<string>, used: seq<string>, spec: Spec, clock: Clock,
                                        i: nat, j: nat)
    requires Keyed(book) && i <= j < |used| && Follows(book, escalated, used, spec, clock)
    requires used[0] in book && Answers(Some(book[used[0]]), book, escalated, spec)
    requires forall k | i <= k < j :: !Woke(book, used, clock, k)
    ensures used[i] in book && used[j] in book
    ensures (used[i] == used[j] || Less(book[used[i]], book[used[j]], spec.sensitive))
    decreases j
  {
    hide Follows, Woke, Answers, Less;
    UsedInBook(book, escalated, used, spec, clock, i);
    UsedInBook(book, escalated, used, spec, clock, j);
    if i < j {
      EntriesClimb(book, escalated, used, spec, clock, i, j - 1);
      if used[j - 1] != used[j] {
        ChangeClimbs(book, escalated, used, spec, clock, j - 1);
        if used[i] != used[j - 1] { LessTransitive(book[used[i]], book[used[j - 1]], book[used[j]], spec.sensitive); }
      }
    }
  }

  // ---------------------------------------------------------------- the loop as it runs

  datatype RetryResult =
    | PickFailed
    | NothingToDo
    | Succeeded(attempts: nat)
    | NeedsHuman(attempts: nat)
    | StatusWriteFailed
    | HookFailed

  /** The world outside: what each attempt's executor and gate say, and which entries can be built. */
  datatype World = World(ran: nat -> Ran, gate: nat -> bool, builds: string -> bool, clock: Clock, statusWritten: bool)

  /** The recording executor: one RecordDispatch, then the run itself. */
  method RunRecorded(router: Router, id: string, now: int, ran: Ran) returns (r: Ran)
    requires router.Valid()
    modifies router.catalog`entries, router`dispatched
    ensures router.Valid() && r == ran
    ensures router.catalog.entries == Dispatched(old(router.catalog.entries), id, now)
    ensures router.dispatched == old(router.dispatched) + [id]
  {
    router.RecordDispatch(id, now);
    r := ran;
  }

  /** The router has an answer, but no executor can be built for it. */
  ghost predicate Unbuildable(book: Book, escalated: set<string>, spec: Spec, builds: string -> bool) {
    exists e :: Answers(Some(e), book, escalated, spec) && !builds(e.id)
  }

  /** The escalation hook: fail the current entry, ask the router for the next, keep the current one when none is left.
      */
  method Escalate(router: Router, cur: string, spec: Spec, now: string -> int,
                  builds: string -> bool) returns (next: Option<string>)
    requires router.Valid()
    modifies router.catalog`entries, router`escalated
    ensures router.Valid() && router.escalated == old(router.escalated) + {cur}
    ensures router.catalog.entries == Refreshed(old(router.catalog.entries), now)
    ensures match next
            case None => Unbuildable(router.catalog.entries, router.escalated, spec, builds)
            case Some(id) =>
              if id == cur then Answers(None, router.catalog.entries, router.escalated, spec)
              else
                && id in router.catalog.entries
                && Answers(Some(router.catalog.entries[id]), router.catalog.entries, router.escalated, spec)
  {
    router.OnGateFailure(cur);
    var r := router.Select(spec, now);
    if r.None? { return Some(cur); }
    if !builds(r.value.id) { return None; }
    return Some(r.value.id);
  }

  method MarkNeedsHuman(attempts: nat, statusWritten: bool) returns (r: RetryResult)
    ensures r == if statusWritten then NeedsHuman(attempts) else StatusWriteFailed
  {
    if !statusWritten { return StatusWriteFailed; }
    return NeedsHuman(attempts);
  }

  /** Seen and Spurned look at the attempts up to `k` only. */
  lemma {:induction false} PrefixAgrees(book: Book, escalated: set<string>, a: seq<string>, b: seq<string>,
                                        clock: Clock, k: nat)
    requires k < |a| <= |b| && a == b[..|a|]
    ensures Charge(book, a, clock, k) == Charge(book, b, clock, k) && Seen(book, a, clock, k) == Seen(book, b, clock, k)
    ensures Spurned(escalated, a, k) == Spurned(escalated, b, k)
    decreases k
  {
    assert forall i | 0 <= i < |a| :: a[i] == b[i];
    if k > 0 { PrefixAgrees(book, escalated, a, b, clock, k - 1); }
  }

  lemma FollowsOn(book: Book, escalated: set<string>, used: seq<string>, next: string, spec: Spec, clock: Clock)
    requires used != [] && Follows(book, escalated, used, spec, clock)
    requires var seen, spurned, cur := Seen(book, used, clock, |used| - 1), Spurned(escalated, used,
                                                                                    |used| - 1), used[|used| - 1];
             if next == cur then Answers(None, seen, spurned, spec)
             else next in seen && Answers(Some(seen[next]), seen, spurned, spec)
    ensures Follows(book, escalated, used + [next], spec, clock)
  {
    var more := used + [next];
    hide Seen, Spurned, Answers;
    forall k | 0 <= k < |more| - 1 ensures Hooked(book, escalated, more, spec, clock, k) {
      PrefixAgrees(book, escalated, used, more, clock, k);
      assert k < |used| - 1 ==> Hooked(book, escalated, used, spec, clock, k);
    }
  }

  /** What attempt `k` is told about the one before it. */
  function Told(w: World, k: nat): Option<Reason> {
    if k == 0 then None
    else match w.ran(k - 1)
      case Errored => Some(ExecutorError)
      case Incomplete => Some(ExecutorIncomplete)
      case Completed => Some(GateRefused)
  }

  lemma ToldFirst(w: World)
    ensures Told(w, 0) == None
  {
  }

  /** The registry and the spurned entries before attempt |used|, all earlier ones on `used` having failed. */
  ghost predicate Standing(now: Book, spurned: set<string>, book: Book, escalated: set<string>, used: seq<string>,
                           clock: Clock) {
    if used == [] then now == book && spurned == escalated
    else now == Seen(book, used, clock, |used| - 1) && spurned == Spurned(escalated, used, |used| - 1)
  }

  lemma StandingStart(book: Book, escalated: set<string>, clock: Clock)
    ensures Standing(book, escalated, book, escalated, [], clock)
  {
  }

  lemma StandingNext(now: Book, spurned: set<string>, book: Book, escalated: set<string>, used: seq<string>,
                     cur: string, clock: Clock)
    requires Standing(now, spurned, book, escalated, used, clock)
    ensures var path := used + [cur];
            Standing(Refreshed(Dispatched(now, cur, clock.dispatch(|used|)), clock.hook(|used|)), spurned + {cur}, book,
                     escalated, path, clock)
  {
    hide Dispatched, Refreshed, Spurned, Charge;
    ChargeNext(now, spurned, book, escalated, used, cur, clock);
    SpurnedNext(now, spurned, book, escalated, used, cur, clock);
  }

  lemma ChargeNext(now: Book, spurned: set<string>, book: Book, escalated: set<string>, used: seq<string>, cur: string,
                   clock: Clock)
    requires Standing(now, spurned, book, escalated, used, clock)
    ensures Charge(book, used + [cur], clock, |used|) == Dispatched(now, cur, clock.dispatch(|used|))
  {
    hide Dispatched, Refreshed, Spurned, IDs;
    if used != [] { PrefixAgrees(book, escalated, used, used + [cur], clock, |used| - 1); }
  }

  /** The registry and the spurned entries once the last attempt of `used` has been recorded. */
  ghost predicate AfterLast(now: Book, spurned: set<string>, book: Book, escalated: set<string>, used: seq<string>,
                            clock: Clock)
    requires used != []
  {
    now == Charge(book, used, clock, |used| - 1) && spurned == escalated + IDs(used[..|used| - 1])
  }

  lemma LastOne(now: Book, spurned: set<string>, book: Book, escalated: set<string>, used: seq<string>, cur: string,
                clock: Clock)
    requires Standing(now, spurned, book, escalated, used, clock)
    ensures AfterLast(Dispatched(now, cur, clock.dispatch(|used|)), spurned, book, escalated, used + [cur], clock)
  {
    ChargeNext(now, spurned, book, escalated, used, cur, clock);
    hide Seen, Charge, Dispatched;
    assert (used + [cur])[..|used|] == used && used[..|used|] == used;
    if used == [] { assert IDs(used) == {}; }
  }

  lemma SpurnedNext(now: Book, spurned: set<string>, book: Book, escalated: set<string>, used: seq<string>, cur: string,
                    clock: Clock)
    requires Standing(now, spurned, book, escalated, used, clock)
    ensures Spurned(escalated, used + [cur], |used|) == spurned + {cur}
  {
    hide Seen;
    var path, n := used + [cur], |used|;
    assert path[..n + 1] == path && used[..n] == used;
    assert IDs(path) == IDs(used) + {cur};
  }

  /** The first `n` attempts failed. */
  ghost predicate Failing(w: World, n: int) { forall k | 0 <= k < n :: !(w.ran(k).Completed? && w.gate(k)) }

  /** The first attempt is told nothing, every later one why the attempt before it did not come through. */
  ghost predicate Informed(w: World, prior: seq<Option<Reason>>) {
    forall k | 0 <= k < |prior| ::
      && (k == 0 ==> prior[k] == None)
      && (k > 0 && w.ran(k - 1).Errored? ==> prior[k] == Some(ExecutorError))
      && (k > 0 && w.ran(k - 1).Incomplete? ==> prior[k] == Some(ExecutorIncomplete))
      && (k > 0 && w.ran(k - 1).Completed? ==> prior[k] == Some(GateRefused))
  }

  lemma InformedNext(w: World, prior: seq<Option<Reason>>, told: Option<Reason>)
    requires Informed(w, prior) && told == Told(w, |prior|)
    ensures Informed(w, prior + [told])
  {
  }

  /** What `n` attempts deserve: the first to come through is the last and a success; the last one allowed, failing,
      goes to a human; only a hook that fails stops short of either. */
  ghost predicate Deserved(r: RetryResult, picked: Picked, maxAttempts: nat, n: nat, w: World) {
    && (r.PickFailed? <==> picked.PickError?) && (r.NothingToDo? <==> picked.NoTask?)
    && n <= maxAttempts && (n > 0 <==> picked.Task? && maxAttempts > 0) && Failing(w, n - 1)
    && (r.Succeeded? <==> n > 0 && w.ran(n - 1).Completed? && w.gate(n - 1))
    && (r.Succeeded? ==> r.attempts == n)
    && (r.NeedsHuman? ==> n == maxAttempts == r.attempts && w.statusWritten)
    && (r.StatusWriteFailed? ==> n == maxAttempts && !w.statusWritten)
    && (r.HookFailed? ==> 0 < n < maxAttempts)
  }

  /** One attempt: a recorded run, then the rest of its cycle. */
  method RunAttempt(router: Router, cur: string, w: World, k: nat) returns (o: Outcome)
    requires router.Valid()
    modifies router.catalog`entries, router`dispatched
    ensures router.Valid()
    ensures router.catalog.entries == Dispatched(old(router.catalog.entries), cur, w.clock.dispatch(k))
    ensures router.dispatched == old(router.dispatched) + [cur]
    ensures o.kind.Done? <==> w.ran(k).Completed? && w.gate(k)
    ensures !o.kind.Done? ==> o.kind.Failed? && Some(o.kind.reason) == Told(w, k + 1)
  {
    var ran := RunRecorded(router, cur, w.clock.dispatch(k), w.ran(k));
    o := RunCycle(Task, ran, w.gate(k));
  }

  /** `used` lists the entries the attempts ran on, `prior` the failure each attempt was told about. */
  method RunOnce(router: Router, first: string, spec: Spec, maxAttempts: nat, picked: Picked, w: World)
    returns (r: RetryResult, used: seq<string>, prior: seq<Option<Reason>>)
    requires router.Valid()
    modifies router.catalog`entries, router`escalated, router`dispatched
    ensures router.Valid() && router.dispatched == old(router.dispatched) + used
    ensures used != [] ==> used[0] == first
    ensures Follows(old(router.catalog.entries), old(router.escalated), used, spec, w.clock)
    ensures Deserved(r, picked, maxAttempts, |used|, w)
    ensures r.HookFailed? ==> Unbuildable(router.catalog.entries, router.escalated, spec, w.builds)
    ensures |prior| == |used| && Informed(w, prior)
    ensures used != [] && !r.HookFailed? ==>
              AfterLast(router.catalog.entries, router.escalated, old(router.catalog.entries), old(router.escalated),
                        used, w.clock)
    ensures used == [] || r.HookFailed? ==>
              Standing(router.catalog.entries, router.escalated, old(router.catalog.entries), old(router.escalated),
                       used, w.clock)
  {
    hide Seen, Spurned, Answers, Dispatched, Refreshed, Standing, Follows, Told, Unbuildable, AfterLast, Informed,
         Failing, Deserved;
    InformedNone(w);
    EmptyDeserved(picked, maxAttempts, w);
    ghost var book, escalated := router.catalog.entries, router.escalated;
    StandingStart(book, escalated, w.clock);
    used, prior := [], [];
    if picked.PickError? {
      r := PickFailed; FollowsNone(book, escalated, [], spec, w.clock); return;
    }
    if picked.NoTask? {
      r := NothingToDo; FollowsNone(book, escalated, [], spec, w.clock); return;
    }
    FollowsNone(book, escalated, [], spec, w.clock);
    if maxAttempts == 0 {
      r := MarkNeedsHuman(0, w.statusWritten);
      return;
    }
    var attempt, cur, told := 0, first, None;
    ToldFirst(w);
    FollowsNone(book, escalated, [cur], spec, w.clock);
    assert [] + [cur] == [cur];
    // Every attempt returns or goes on to the next one, so the loop has no other way out.
    while true
      invariant router.Valid() && |used| == attempt == |prior| && attempt < maxAttempts
      invariant router.dispatched == old(router.dispatched) + used
      invariant (used + [cur])[0] == first
      invariant Standing(router.catalog.entries, router.escalated, book, escalated, used, w.clock)
      invariant Follows(book, escalated, used + [cur], spec, w.clock)
      invariant Failing(w, attempt) && told == Told(w, attempt) && Informed(w, prior)
      decreases maxAttempts - attempt
    {
      StandingNext(router.catalog.entries, router.escalated, book, escalated, used, cur, w.clock);
      LastOne(router.catalog.entries, router.escalated, book, escalated, used, cur, w.clock);
      InformedNext(w, prior, told);
      var o := RunAttempt(router, cur, w, attempt);
      assert old(router.dispatched) + used + [cur] == old(router.dispatched) + (used + [cur]);
      used, prior := used + [cur], prior + [told];
      attempt := attempt + 1;
      LastDeserved(w, attempt, maxAttempts);
      if o.kind.Done? { return Succeeded(attempt), used, prior; }
      if attempt == maxAttempts {
        r := MarkNeedsHuman(maxAttempts, w.statusWritten);
        return;
      }
      told := Some(o.kind.reason);
      var next := Escalate(router, cur, spec, w.clock.hook(attempt - 1), w.builds);
      if next.None? { return HookFailed, used, prior; }
      StandingFollows(router.catalog.entries, router.escalated, book, escalated, used, next.value, spec, w.clock);
      cur := next.value;
    }
  }

  /** What is deserved without an attempt. */
  lemma EmptyDeserved(picked: Picked, maxAttempts: nat, w: World)
    ensures Failing(w, 0)
    ensures picked.PickError? ==> Deserved(PickFailed, picked, maxAttempts, 0, w)
    ensures picked.NoTask? ==> Deserved(NothingToDo, picked, maxAttempts, 0, w)
    ensures picked.Task? && maxAttempts == 0 ==>
              Deserved(if w.statusWritten then NeedsHuman(0) else StatusWriteFailed, picked, 0, 0, w)
  {
  }

  /** What is deserved after the `n`-th attempt, all earlier ones having failed. */
  lemma LastDeserved(w: World, n: nat, maxAttempts: nat)
    requires 0 < n <= maxAttempts && Failing(w, n - 1)
    ensures var passed := w.ran(n - 1).Completed? && w.gate(n - 1);
            && (passed ==> Deserved(Succeeded(n), Task, maxAttempts, n, w))
            && (!passed ==> Failing(w, n))
            && (!passed && n == maxAttempts ==>
                  Deserved(if w.statusWritten then NeedsHuman(n) else StatusWriteFailed, Task, maxAttempts, n, w))
            && (!passed && n < maxAttempts ==> Deserved(HookFailed, Task, maxAttempts, n, w))
  {
  }

  lemma InformedNone(w: World)
    ensures Informed(w, [])
  {
  }

  lemma FollowsNone(book: Book, escalated: set<string>, used: seq<string>, spec: Spec, clock: Clock)
    requires |used| <= 1
    ensures Follows(book, escalated, used, spec, clock)
  {
  }

  lemma StandingFollows(now: Book, spurned: set<string>, book: Book, escalated: set<string>, used: seq<string>,
                        next: string, spec: Spec, clock: Clock)
    requires used != [] && Standing(now, spurned, book, escalated, used, clock)
    requires Follows(book, escalated, used, spec, clock)
    requires if next == used[|used| - 1] then Answers(None, now, spurned, spec)
             else next in now && Answers(Some(now[next]), now, spurned, spec)
    ensures Follows(book, escalated, used + [next], spec, clock)
  {
    hide Seen, Spurned, Answers, Follows;
    FollowsOn(book, escalated, used, next, spec, clock);
  }

  // ---------------------------------------------------------------- a whole dispatch

  /** An entry once left does not come back. */
  ghost predicate NoReturn(used: seq<string>) {
    forall i, j, k | 0 <= i < j < k < |used| && used[i] != used[j] :: used[k] != used[i]
  }

  /** Between attempts with no recovery in between, the entries stay or strictly increase. */
  ghost predicate Climbing(book: Book, used: seq<string>, spec: Spec, clock: Clock) {
    forall i, j | 0 <= i <= j < |used| && (forall k | i <= k < j :: !Woke(book, used, clock, k)) ::
      used[i] in book && used[j] in book && (used[i] == used[j] || Less(book[used[i]], book[used[j]], spec.sensitive))
  }

  /** resolveExecutor: the first Select and the executor for it. */
  method ResolveExecutor(router: Router, spec: Spec, now: string -> int,
                         builds: string -> bool) returns (id: Option<string>)
    requires router.Valid()
    modifies router.catalog`entries
    ensures router.Valid() && router.catalog.entries == Refreshed(old(router.catalog.entries), now)
    ensures id.Some? ==> id.value in router.catalog.entries && builds(id.value)
    ensures id.Some? ==> Answers(Some(router.catalog.entries[id.value]), router.catalog.entries, router.escalated, spec)
    ensures id.None? ==> Answers(None, router.catalog.entries, router.escalated, spec)
                         || Unbuildable(router.catalog.entries, router.escalated, spec, builds)
  {
    var r := router.Select(spec, now);
    if r.None? || !builds(r.value.id) { return None; }
    return Some(r.value.id);
  }

  /** One dispatch from selection to its last attempt. */
  method RunDispatch(router: Router, spec: Spec, now: string -> int, maxAttempts: nat, picked: Picked, w: World)
    returns (r: Option<RetryResult>, used: seq<string>)
    requires router.Valid()
    modifies router.catalog`entries, router`escalated, router`dispatched
    ensures router.Valid() && router.dispatched == old(router.dispatched) + used
    ensures NoReturn(used) && Climbing(Refreshed(old(router.catalog.entries), now), used, spec, w.clock)
    ensures var book := Refreshed(old(router.catalog.entries), now);
            && Follows(book, old(router.escalated), used, spec, w.clock)
            && (used != [] ==> used[0] in book && Answers(Some(book[used[0]]), book, old(router.escalated), spec))
    ensures r.None? ==> used == []
    ensures r.Some? ==> Deserved(r.value, picked, maxAttempts, |used|, w)
    ensures r.None? ==> Answers(None, router.catalog.entries, router.escalated, spec)
                        || Unbuildable(router.catalog.entries, router.escalated, spec, w.builds)
  {
    hide Answers, Follows, Woke, Refreshed, Less, AfterLast, Standing, Informed, Deserved, Unbuildable;
    var id := ResolveExecutor(router, spec, now, w.builds);
    if id.None? {
      FollowsNone(router.catalog.entries, router.escalated, [], spec, w.clock);
      return None, [];
    }
    ghost var book, escalated := router.catalog.entries, router.escalated;
    var rr, prior;
    rr, used, prior := RunOnce(router, id.value, spec, maxAttempts, picked, w);
    forall i: nat, j: nat, k: nat | i < j < k < |used| && used[i] != used[j] ensures used[k] != used[i] {
      NeverReused(book, escalated, used, spec, w.clock, i, j, k);
    }
    forall i: nat, j: nat | i <= j < |used| && (forall k | i <= k < j :: !Woke(book, used, w.clock, k))
      ensures used[i] in book && used[j] in book
      ensures (used[i] == used[j] || Less(book[used[i]], book[used[j]], spec.sensitive))
    {
      EntriesClimb(book, escalated, used, spec, w.clock, i, j);
    }
    r := Some(rr);
  }
}
