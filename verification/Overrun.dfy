/** Where quota and retry meet: the attempts that go to an entry past its limit, because the router has no other. */
module Overrun {
  import opened Json
  import opened Routers
  import opened Retry
  import Quota

  lemma DispatchedWithin(book: Book, id: string, now: int)
    requires Quota.AllWithin(book)
    ensures Quota.AllWithin(Dispatched(book, id, now))
  {
  }

  lemma RefreshedWithin(book: Book, now: string -> int)
    requires Quota.AllWithin(book)
    ensures Quota.AllWithin(Refreshed(book, now))
  {
  }

  lemma {:induction false} SeenWithin(book: Book, used: seq<string>, clock: Clock, k: nat)
    requires Quota.AllWithin(book) && k < |used|
    ensures Quota.AllWithin(Charge(book, used, clock, k)) && Quota.AllWithin(Seen(book, used, clock, k))
    decreases k
  {
    hide Quota.AllWithin, Dispatched, Refreshed;
    if k > 0 { SeenWithin(book, used, clock, k - 1); }
    DispatchedWithin(BookAt(book, used, clock, k), used[k], clock.dispatch(k));
    RefreshedWithin(Charge(book, used, clock, k), clock.hook(k));
  }

  /** The entry's budget is used up. */
  predicate Full(e: Entry) { e.limit > 0 && e.usage >= e.limit }

  /** Attempt `k` runs on an entry whose budget is used up. */
  ghost predicate OverQuota(book: Book, used: seq<string>, clock: Clock, k: int) {
    0 <= k < |used| && used[k] in BookAt(book, used, clock, k) && Full(BookAt(book, used, clock, k)[used[k]])
  }

  /** What a run of Retry starts from: a registry in order, and the router's first answer. */
  ghost predicate Dispatch(book: Book, escalated: set<string>, used: seq<string>, spec: Spec, clock: Clock) {
    && Keyed(book) && Quota.AllWithin(book) && Follows(book, escalated, used, spec, clock)
    && (used != [] ==> used[0] in book && Answers(Some(book[used[0]]), book, escalated, spec))
  }

  /** An entry in use is exhausted only by its own charges. */
  predicate InUse(e: Entry) { Quota.Within(e) && (e.status == EXHAUSTED ==> Full(e)) }

  lemma AnswerInUse(e: Entry, book: Book, escalated: set<string>, spec: Spec)
    requires Answers(Some(e), book, escalated, spec) && Quota.AllWithin(book)
    ensures InUse(e) && e.status == AVAILABLE && !Full(e)
  {
  }

  lemma KeptInUse(book: Book, cur: string, now: int, hook: string -> int)
    requires cur in book && InUse(book[cur])
    ensures var b := Refreshed(Dispatched(book, cur, now), hook); cur in b && InUse(b[cur])
  {
  }

  lemma {:induction false} AlwaysInUse(book: Book, escalated: set<string>, used: seq<string>, spec: Spec, clock: Clock,
                                       k: nat)
    requires Dispatch(book, escalated, used, spec, clock) && k < |used|
    ensures used[k] in BookAt(book, used, clock, k) && InUse(BookAt(book, used, clock, k)[used[k]])
    ensures k == 0 || used[k] != used[k - 1] ==> BookAt(book, used, clock, k)[used[k]].status == AVAILABLE
    decreases k
  {
    hide InUse, Answers, Dispatched, Refreshed, Quota.AllWithin, Spurned;
    if k == 0 {
      AnswerInUse(book[used[0]], book, escalated, spec);
    } else {
      AlwaysInUse(book, escalated, used, spec, clock, k - 1);
      SeenWithin(book, used, clock, k - 1);
      FollowsAt(book, escalated, used, spec, clock, k - 1);
      var seen := Seen(book, used, clock, k - 1);
      if used[k] == used[k - 1] {
        KeptInUse(BookAt(book, used, clock, k - 1), used[k - 1], clock.dispatch(k - 1), clock.hook(k - 1));
      } else {
        AnswerInUse(seen[used[k]], seen, Spurned(escalated, used, k - 1), spec);
      }
    }
  }

  /** An attempt goes over quota exactly when the hook before it kept the entry, because the router had no answer,
      and that entry was exhausted. */
  lemma OverQuotaIff(book: Book, escalated: set<string>, used: seq<string>, spec: Spec, clock: Clock, k: nat)
    requires Dispatch(book, escalated, used, spec, clock) && k < |used|
    ensures OverQuota(book, used, clock, k) <==>
            && k > 0 && used[k] == used[k - 1] && used[k] in Seen(book, used, clock, k - 1)
            && Seen(book, used, clock, k - 1)[used[k]].status == EXHAUSTED
    ensures OverQuota(book, used, clock, k) ==>
            Answers(None, Seen(book, used, clock, k - 1), Spurned(escalated, used, k - 1), spec)
  {
    AlwaysInUse(book, escalated, used, spec, clock, k);
    if k > 0 { FollowsAt(book, escalated, used, spec, clock, k - 1); }
    hide Seen, Answers, Follows, Spurned;
  }

  // ---------------------------------------------------------------- counting attempts

  function Uses(used: seq<string>, id: string, i: nat, j: nat): nat
    requires i <= j <= |used|
  {
    if i == j then 0 else Uses(used, id, i, j - 1) + if used[j - 1] == id then 1 else 0
  }

  ghost function Overs(book: Book, used: seq<string>, clock: Clock, id: string, i: nat, j: nat): nat
    requires i <= j <= |used|
  {
    if i == j then 0
    else
      var over := used[j - 1] == id && OverQuota(book, used, clock, j - 1);
      Overs(book, used, clock, id, i, j - 1) + if over then 1 else 0
  }

  /** The entry's state before attempt `k`, or after the last one. */
  ghost function BookBefore(book: Book, used: seq<string>, clock: Clock, k: nat): Book
    requires k <= |used|
  {
    if k == 0 then book else Seen(book, used, clock, k - 1)
  }

  /** `id` does not recover at hook `k`. */
  ghost predicate Sleeps(book: Book, used: seq<string>, clock: Clock, id: string, k: nat)
    requires k < |used|
  {
    var b := Charge(book, used, clock, k);
    id in b ==> Recovered(b[id], clock.hook(k)(id)) == b[id]
  }

  lemma ChargeOne(book: Book, used: seq<string>, clock: Clock, id: string, k: nat)
    requires k < |used| && id in book && id != "" && book[id].limit > 0 && Sleeps(book, used, clock, id, k)
    ensures id in BookBefore(book, used, clock, k) && id in BookBefore(book, used, clock, k + 1)
    ensures BookBefore(book, used, clock, k)[id].limit == book[id].limit
    ensures BookBefore(book, used, clock, k + 1)[id].usage ==
            BookBefore(book, used, clock, k)[id].usage + if used[k] == id then 1 else 0
  {
    SeenConfig(book, used, clock, k);
    if k > 0 { SeenConfig(book, used, clock, k - 1); }
  }

  /** Between two recoveries of a limited entry, all attempts on it are charged, and those within quota number at
      most what its budget has left: the rest are the ones `OverQuotaIff` describes. */
  lemma {:induction false} AttemptsBetweenRecoveries(book: Book, used: seq<string>, clock: Clock, id: string, i: nat,
                                                     j: nat)
    requires i <= j <= |used| && id in book && id != "" && book[id].limit > 0
    requires forall k | i <= k < j :: Sleeps(book, used, clock, id, k)
    ensures id in BookBefore(book, used, clock, i) && id in BookBefore(book, used, clock, j)
    ensures var u := BookBefore(book, used, clock, i)[id].usage;
            && BookBefore(book, used, clock, j)[id].usage == u + Uses(used, id, i, j)
            && Uses(used, id, i, j) - Overs(book, used, clock, id, i,
                                            j) <= if u < book[id].limit then book[id].limit - u else 0
    ensures Overs(book, used, clock, id, i, j) <= Uses(used, id, i, j)
    decreases j
  {
    hide Sleeps, Charge, Seen;
    if i == j {
      InBookBefore(book, used, clock, id, i);
    } else {
      AttemptsBetweenRecoveries(book, used, clock, id, i, j - 1);
      ChargeOne(book, used, clock, id, j - 1);
      assert BookBefore(book, used, clock, j - 1) == BookAt(book, used, clock, j - 1);
    }
  }

  lemma InBookBefore(book: Book, used: seq<string>, clock: Clock, id: string, k: nat)
    requires k <= |used| && id in book
    ensures id in BookBefore(book, used, clock, k)
  {
    if k > 0 { SeenConfig(book, used, clock, k - 1); }
  }

  // ---------------------------------------------------------------- it happens

  function Lone(usage: int, status: string, resetAt: int): Book {
    map["a" := Entry("a", 0, 0, "ref", 1, 1, usage, status, resetAt)]
  }

  ghost function Stopped(): Clock { Clock((k: nat) => 0, (k: nat) => (id: string) => 0) }

  lemma {:induction false} LoneSeen(used: seq<string>, k: nat)
    requires k < |used| && forall i | 0 <= i < |used| :: used[i] == "a"
    ensures Charge(Lone(0, AVAILABLE, 0), used, Stopped(), k) == Lone(k + 1, EXHAUSTED, 1)
    ensures Seen(Lone(0, AVAILABLE, 0), used, Stopped(), k) == Lone(k + 1, EXHAUSTED, 1)
    decreases k
  {
    if k > 0 { LoneSeen(used, k - 1); }
    LoneStep(k, if k == 0 then AVAILABLE else EXHAUSTED, if k == 0 then 0 else 1);
    hide Dispatched, Refreshed;
  }

  lemma LoneStep(n: nat, status: string, resetAt: int)
    ensures Dispatched(Lone(n, status, resetAt), "a", 0) == Lone(n + 1, EXHAUSTED, 1)
    ensures Refreshed(Lone(n + 1, EXHAUSTED, 1), (id: string) => 0) == Lone(n + 1, EXHAUSTED, 1)
  {
  }

  /** One limited entry of limit one and any number of attempts: one Select, no recovery, and every attempt after the
      first goes over quota. */
  lemma KeptPastItsLimit(used: seq<string>, spec: Spec)
    requires used != [] && spec.minTier <= 0 && forall i | 0 <= i < |used| :: used[i] == "a"
    ensures Dispatch(Lone(0, AVAILABLE, 0), {}, used, spec, Stopped())
    ensures forall k | 0 <= k < |used| :: !Woke(Lone(0, AVAILABLE, 0), used, Stopped(), k)
    ensures forall k | 0 < k < |used| :: OverQuota(Lone(0, AVAILABLE, 0), used, Stopped(), k)
  {
    var book := Lone(0, AVAILABLE, 0);
    forall k | 0 <= k < |used|
      ensures Seen(book, used, Stopped(), k) == Lone(k + 1, EXHAUSTED, 1) == Charge(book, used, Stopped(), k)
    {
      LoneSeen(used, k);
    }
    assert AVAILABLE != EXHAUSTED;
    hide Seen, Charge;
  }
}
