/** The executor registry and the router over it: selection order, quota, recovery and persistence. */
module Routers {
  import opened Json
  import opened Order

  const AVAILABLE := "available"
  const EXHAUSTED := "exhausted"

  /** What the router reads of a RegistryEntry. Times and windows are integers. */
  datatype Entry = Entry(id: string, tier: int, cost: int, secretRef: string, limit: int, window: int,
                         usage: int, status: string, resetAt: int)
  {
    predicate Unlimited() { limit == 0 }
    predicate Local() { secretRef == "" && Unlimited() }
  }

  type Book = map<string, Entry>

  datatype Spec = Spec(minTier: int, sensitive: bool)

  // ---------------------------------------------------------------- selection order

  predicate Less(a: Entry, b: Entry, sensitive: bool) {
    if a.cost != b.cost then a.cost < b.cost
    else if sensitive && a.Local() != b.Local() then a.Local()
    else Before(a.id, b.id)
  }

  /** On entries with distinct IDs exactly one of the two comes first; no entry comes before itself. */
  lemma LessTotal(a: Entry, b: Entry, sensitive: bool)
    ensures !Less(a, a, sensitive)
    ensures a.id != b.id ==> (Less(a, b, sensitive) <==> !Less(b, a, sensitive))
  {
    BeforeSelf(a.id);
    BeforeTotal(a.id, b.id);
  }

  lemma LessTransitive(a: Entry, b: Entry, c: Entry, sensitive: bool)
    requires Less(a, b, sensitive) && Less(b, c, sensitive)
    ensures Less(a, c, sensitive)
  {
    if Before(a.id, b.id) && Before(b.id, c.id) { BeforeTransitive(a.id, b.id, c.id); }
  }

  // ---------------------------------------------------------------- selection

  function Recovered(e: Entry, now: int): Entry {
    if e.status == EXHAUSTED && now > e.resetAt then e.(usage := 0, status := AVAILABLE, resetAt := 0) else e
  }

  /** Every entry past its reset time recovers; `now` is the clock as read for each entry. */
  function Refreshed(book: Book, now: string -> int): Book { map id | id in book :: Recovered(book[id], now(id)) }

  predicate Eligible(e: Entry, escalated: set<string>, spec: Spec) {
    e.id !in escalated && e.tier >= spec.minTier && e.status == AVAILABLE
  }

  /** Every entry sits under its own ID. */
  predicate Keyed(book: Book) { forall id | id in book :: book[id].id == id }

  /** `e` is the first eligible entry of the book in selection order. */
  ghost predicate IsLeast(e: Entry, book: Book, escalated: set<string>, spec: Spec) {
    && e.id in book && book[e.id] == e && Eligible(e, escalated, spec)
    && forall id | id in book && id != e.id && Eligible(book[id], escalated, spec) :: Less(e, book[id], spec.sensitive)
  }

  /** Select answers `r` on a refreshed book: the least eligible entry, or nothing when none is eligible. */
  ghost predicate Answers(r: Option<Entry>, book: Book, escalated: set<string>, spec: Spec) {
    match r
    case Some(e) => IsLeast(e, book, escalated, spec)
    case None => forall id | id in book :: !Eligible(book[id], escalated, spec)
  }

  /** The book alone decides the answer, so neither the catalog's insertion order nor the sort can. */
  lemma AnswerUnique(r: Option<Entry>, q: Option<Entry>, book: Book, escalated: set<string>, spec: Spec)
    requires Answers(r, book, escalated, spec) && Answers(q, book, escalated, spec)
    ensures r == q
  {
    if r.Some? && q.Some? && r.value.id != q.value.id { LessTotal(r.value, q.value, spec.sensitive); }
  }

  /** What the answer means, against any entry that is available, strong enough and not escalated: there is an
      answer, it is such an entry too, and it is no dearer; among the equally cheap a sensitive hint prefers one that
      is local, with no secret and no limit; the ID decides the rest. The hint excludes nobody. */
  lemma CheapestWins(r: Option<Entry>, book: Book, escalated: set<string>, spec: Spec, id: string)
    requires Keyed(book) && Answers(r, book, escalated, spec)
    requires id in book && id !in escalated && book[id].tier >= spec.minTier && book[id].status == "available"
    ensures r.Some?
    ensures var e, f := r.value, book[id];
            && e.cost <= f.cost
            && (e.cost == f.cost && spec.sensitive && f.secretRef == "" && f.limit == 0 ==>
                  e.secretRef == "" && e.limit == 0)
            && (e.cost == f.cost
                && (spec.sensitive ==> ((e.secretRef == "" && e.limit == 0) <==> (f.secretRef == "" && f.limit == 0)))
                ==> e.id == id || Before(e.id, id))
  {
    assert Eligible(book[id], escalated, spec);
    if id != r.value.id { LessTotal(r.value, book[id], spec.sensitive); }
  }

  /** What a gate failure of the answer leads to: never back to it, and if anywhere, to the entry right behind it. */
  lemma NextInOrder(e: Entry, r: Option<Entry>, book: Book, escalated: set<string>, spec: Spec)
    requires Keyed(book) && IsLeast(e, book, escalated, spec) && Answers(r, book, escalated + {e.id}, spec)
    ensures r.None? ==> forall id | id in book && Eligible(book[id], escalated, spec) :: id == e.id
    ensures r.Some? ==> Less(e, r.value, spec.sensitive) && Eligible(r.value, escalated, spec)
    ensures forall id | id in book && id != e.id && Eligible(book[id], escalated, spec) ::
              r.Some? && !Less(book[id], r.value, spec.sensitive)
  {
    forall id | id in book && id != e.id && Eligible(book[id], escalated, spec)
      ensures r.Some? && !Less(book[id], r.value, spec.sensitive)
    {
      assert Eligible(book[id], escalated + {e.id}, spec);
      if r.Some? { LessTotal(r.value, book[id], spec.sensitive); }
    }
  }

  // ---------------------------------------------------------------- the stable sort

  ghost predicate Sorted(es: seq<Entry>, sensitive: bool) {
    forall i, j | 0 <= i < j < |es| :: !Less(es[j], es[i], sensitive)
  }

  /** Negative transitivity: not coming before is transitive too. */
  lemma NotLessTransitive(a: Entry, b: Entry, c: Entry, sensitive: bool)
    requires !Less(b, a, sensitive) && !Less(c, b, sensitive)
    ensures !Less(c, a, sensitive)
  {
    BeforeTotal(a.id, b.id);
    BeforeTotal(b.id, c.id);
    BeforeSelf(a.id);
    if Less(c, a, sensitive) && a.id != b.id && b.id != c.id && Before(a.id, b.id) && Before(b.id, c.id) {
      BeforeTransitive(a.id, b.id, c.id);
      BeforeTotal(a.id, c.id);
    }
  }

  predicate Tied(a: Entry, b: Entry, sensitive: bool) { !Less(a, b, sensitive) && !Less(b, a, sensitive) }

  /** The entries tied with `x`, in order. */
  ghost function TiedWith(es: seq<Entry>, x: Entry, sensitive: bool): seq<Entry> {
    if es == [] then []
    else TiedWith(es[..|es| - 1], x, sensitive) + if Tied(es[|es| - 1], x, sensitive) then [es[|es| - 1]] else []
  }

  lemma {:induction false} TiedConcat(a: seq<Entry>, b: seq<Entry>, x: Entry, sensitive: bool)
    ensures TiedWith(a + b, x, sensitive) == TiedWith(a, x, sensitive) + TiedWith(b, x, sensitive)
  {
    if b == [] {
      assert a + b == a;
    } else {
      var n := |b| - 1;
      TiedConcat(a, b[..n], x, sensitive);
      assert (a + b)[..|a + b| - 1] == a + b[..n];
    }
  }

  lemma {:induction false} NoneTied(es: seq<Entry>, x: Entry, sensitive: bool)
    requires forall i | 0 <= i < |es| :: !Tied(es[i], x, sensitive)
    ensures TiedWith(es, x, sensitive) == []
  {
    if es != [] { NoneTied(es[..|es| - 1], x, sensitive); }
  }

  /** Moving left past entries that must follow passes no entry tied with it, so ties keep their order. */
  lemma InsertKeepsTies(es: seq<Entry>, e: Entry, k: nat, x: Entry, sensitive: bool)
    requires k <= |es| && forall j | k <= j < |es| :: Less(e, es[j], sensitive)
    ensures TiedWith(es[..k] + [e] + es[k..], x, sensitive) == TiedWith(es + [e], x, sensitive)
  {
    hide Less, TiedWith;
    var a, b := es[..k], es[k..];
    TiedConcat(a + [e], b, x, sensitive);
    TiedConcat(a, [e], x, sensitive);
    TiedConcat(es, [e], x, sensitive);
    TiedConcat(a, b, x, sensitive);
    assert a + b == es;
    if Tied(e, x, sensitive) {
      forall i | 0 <= i < |b| ensures !Tied(b[i], x, sensitive) {
        if !Less(x, b[i], sensitive) { NotLessTransitive(b[i], x, e, sensitive); }
      }
      NoneTied(b, x, sensitive);
    } else {
      NoneTied([e], x, sensitive);
    }
  }

  /** Sorting from the left: each entry moves left past the entries it must precede, and past no tied one. */
  method SortStable(es: seq<Entry>, sensitive: bool) returns (out: seq<Entry>)
    ensures multiset(out) == multiset(es) && Sorted(out, sensitive)
    ensures forall x :: TiedWith(out, x, sensitive) == TiedWith(es, x, sensitive)
  {
    hide Sorted, TiedWith;
    out := [];
    EmptySorted(sensitive);
    for i := 0 to |es|
      invariant multiset(out) == multiset(es[..i]) && Sorted(out, sensitive)
      invariant forall x :: TiedWith(out, x, sensitive) == TiedWith(es[..i], x, sensitive)
    {
      assert es[..i + 1] == es[..i] + [es[i]];
      ghost var before := out;
      out := InsertLast(out, es[i], sensitive);
      forall x ensures TiedWith(out, x, sensitive) == TiedWith(es[..i + 1], x, sensitive) {
        TiedConcat(before, [es[i]], x, sensitive);
        TiedConcat(es[..i], [es[i]], x, sensitive);
      }
    }
    assert es[..|es|] == es;
  }

  lemma EmptySorted(sensitive: bool)
    ensures Sorted([], sensitive)
  {
  }

  method InsertLast(es: seq<Entry>, e: Entry, sensitive: bool) returns (out: seq<Entry>)
    requires Sorted(es, sensitive)
    ensures multiset(out) == multiset(es) + multiset{e} && Sorted(out, sensitive)
    ensures forall x :: TiedWith(out, x, sensitive) == TiedWith(es + [e], x, sensitive)
  {
    hide Less, TiedWith, Sorted;
    var k := |es|;
    while k > 0 && Less(e, es[k - 1], sensitive)
      invariant 0 <= k <= |es| && forall j | k <= j < |es| :: Less(e, es[j], sensitive)
    {
      k := k - 1;
    }
    out := es[..k] + [e] + es[k..];
    assert es == es[..k] + es[k..];
    Inserted(es, e, k, sensitive);
    forall x ensures TiedWith(out, x, sensitive) == TiedWith(es + [e], x, sensitive) {
      InsertKeepsTies(es, e, k, x, sensitive);
    }
  }

  lemma Inserted(es: seq<Entry>, e: Entry, k: nat, sensitive: bool)
    requires Sorted(es, sensitive) && k <= |es|
    requires k > 0 ==> !Less(e, es[k - 1], sensitive)
    requires forall j | k <= j < |es| :: Less(e, es[j], sensitive)
    ensures Sorted(es[..k] + [e] + es[k..], sensitive)
  {
    var out := es[..k] + [e] + es[k..];
    forall i | 0 <= i < k ensures !Less(e, es[i], sensitive) {
      if i < k - 1 { NotLessTransitive(es[i], es[k - 1], e, sensitive); }
    }
    forall j | k <= j < |es| ensures !Less(es[j], e, sensitive) { LessAsymmetric(e, es[j], sensitive); }
    forall i, j | 0 <= i < j < |out| ensures !Less(out[j], out[i], sensitive) {
      assert out[i] == (if i < k then es[i] else if i == k then e else es[i - 1]);
      assert out[j] == (if j < k then es[j] else if j == k then e else es[j - 1]);
    }
  }

  lemma LessAsymmetric(a: Entry, b: Entry, sensitive: bool)
    requires Less(a, b, sensitive)
    ensures !Less(b, a, sensitive)
  {
    BeforeTotal(a.id, b.id);
  }

  // ---------------------------------------------------------------- the router's other calls, on the book

  /** LookupEntry: the empty ID is never found. */
  function Find(book: Book, id: string): Option<Entry> {
    if id != "" && id in book then Some(book[id]) else None
  }

  /** OnQuotaExhausted and OnRateLimit: no unlimited entry is ever marked. */
  function Marked(book: Book, id: string, resetAt: int): Book {
    match Find(book, id)
    case None => book
    case Some(e) => if e.Unlimited() then book else book[id := e.(status := EXHAUSTED, resetAt := resetAt)]
  }

  function Charged(e: Entry, now: int): Entry {
    var f := e.(usage := e.usage + 1);
    if f.usage >= f.limit then f.(status := EXHAUSTED, resetAt := now + f.window) else f
  }

  /** RecordDispatch. */
  function Dispatched(book: Book, id: string, now: int): Book {
    match Find(book, id)
    case None => book
    case Some(e) => if e.Unlimited() then book else book[id := Charged(e, now)]
  }

  /** The entry is out exactly until the clock has passed `resetAt`; nothing else about it changed but its usage. */
  ghost predicate OutUntil(e: Entry, f: Entry, usage: int, resetAt: int) {
    && f == e.(usage := usage, status := "exhausted", resetAt := f.resetAt)
    && forall t :: Recovered(f, t).status == "available" <==> t > resetAt
  }

  /** At most the entry `id` differs, and only a limited one that a lookup finds can. */
  ghost predicate OnlyLimited(before: Book, after: Book, id: string) {
    && after.Keys == before.Keys
    && forall x | x in before && (x != id || id == "" || before[x].limit == 0) :: after[x] == before[x]
  }

  /** What SaveState keeps of an entry. */
  datatype Saved = Saved(usage: int, exhausted: bool, resetAt: int, availStatus: string)

  function SavedOf(e: Entry): Saved { Saved(e.usage, e.status == EXHAUSTED, e.resetAt, e.status) }

  function SavedBook(book: Book): map<string, Saved> { map id | id in book :: SavedOf(book[id]) }

  predicate KnownStatus(s: Saved) { s.availStatus == AVAILABLE || s.availStatus == EXHAUSTED }

  function Restored(e: Entry, s: Saved): Entry { e.(usage := s.usage, status := s.availStatus, resetAt := s.resetAt) }

  /** LoadState when it succeeds: saved state for the entries it finds, the rest as they are. */
  function LoadedBook(book: Book, saved: map<string, Saved>): Book {
    map id | id in book :: if Find(book, id).Some? && id in saved then Restored(book[id], saved[id]) else book[id]
  }

  predicate Loadable(book: Book, saved: map<string, Saved>) {
    forall id | id in saved && Find(book, id).Some? :: KnownStatus(saved[id])
  }

  /** The same static configuration, whatever the usage and availability. */
  predicate SameConfig(a: Book, b: Book) {
    && a.Keys == b.Keys
    && forall id | id in a :: a[id] == b[id].(usage := a[id].usage, status := a[id].status, resetAt := a[id].resetAt)
  }

  /** Saving and loading into a catalog built from the same configuration gives the book back, except for an
      entry with the empty ID, which no lookup finds. */
  lemma SaveLoadRoundTrip(book: Book, other: Book)
    requires SameConfig(book, other) && forall id | id in book :: KnownStatus(SavedOf(book[id]))
    ensures Loadable(other, SavedBook(book))
    ensures LoadedBook(other, SavedBook(book)) == map id | id in book :: if id == "" then other[id] else book[id]
  {
    forall id | id in book && id != "" ensures LoadedBook(other, SavedBook(book))[id] == book[id] {
      assert book[id] == other[id].(usage := book[id].usage, status := book[id].status, resetAt := book[id].resetAt);
    }
  }

  // ---------------------------------------------------------------- the catalog and the router as they run

  class Catalog {
    var entries: Book
    var order: seq<string>

    ghost predicate Valid()
      reads this
    {
      && Keyed(entries)
      && (forall id :: id in order <==> id in entries)
      && (forall i, j | 0 <= i < j < |order| :: order[i] != order[j])
    }

    constructor ()
      ensures Valid() && entries == map[] && order == []
    {
      entries := map[];
      order := [];
    }

    /** A duplicate ID panics; the catalog stays as it was. */
    method RegisterEntry(e: Entry) returns (panicked: bool)
      requires Valid()
      modifies this
      ensures Valid() && panicked == (e.id in old(entries))
      ensures panicked ==> entries == old(entries) && order == old(order)
      ensures !panicked ==> entries == old(entries)[e.id := e] && order == old(order) + [e.id]
    {
      if e.id in entries { return true; }
      entries := entries[e.id := e];
      order := order + [e.id];
      panicked := false;
    }

    method LookupEntry(id: string) returns (r: Option<Entry>)
      ensures r == Find(entries, id)
      ensures (r.Some? <==> id != "" && id in entries) && (r.Some? ==> r.value == entries[id])
    {
      if id == "" { return None; }
      r := if id in entries then Some(entries[id]) else None;
    }

    method UpdateEntry(e: Entry)
      requires Valid()
      modifies this`entries
      ensures Valid() && entries == if e.id in old(entries) then old(entries)[e.id := e] else old(entries)
    {
      if e.id !in entries { return; }
      entries := entries[e.id := e];
    }

    method ListEntries() returns (r: seq<Entry>)
      requires Valid()
      ensures |r| == |order| && forall i | 0 <= i < |r| :: r[i] == entries[order[i]]
    {
      r := [];
      for i := 0 to |order|
        invariant |r| == i && forall j | 0 <= j < i :: r[j] == entries[order[j]]
      {
        assert order[i] in order;
        r := r + [entries[order[i]]];
      }
    }
  }

  /** A state file, as LoadState may find it. */
  datatype File = Unreadable | Malformed | NoEntries | Parsed(entries: map<string, Saved>)

  class Router {
    const catalog: Catalog
    const cooldown: int
    var escalated: set<string>
    /** Every RecordDispatch so far, in order. */
    ghost var dispatched: seq<string>

    ghost predicate Valid()
      reads this, catalog
    {
      catalog.Valid()
    }

    constructor (catalog: Catalog, cooldown: int)
      requires catalog.Valid()
      ensures Valid() && this.catalog == catalog && this.cooldown == cooldown && escalated == {} && dispatched == []
    {
      this.catalog := catalog;
      this.cooldown := cooldown;
      escalated := {};
      dispatched := [];
    }

    method TryAutoRecover(e: Entry, now: int) returns (r: Entry)
      requires Valid() && e.id in catalog.entries && catalog.entries[e.id] == e
      modifies catalog`entries
      ensures Valid() && r == Recovered(e, now) && catalog.entries == old(catalog.entries)[e.id := r]
      ensures e.status == "exhausted" && e.resetAt < now ==> r.status == "available" && r.usage == 0
      ensures e.status != "exhausted" || now <= e.resetAt ==> r == e
    {
      if e.status != EXHAUSTED || now <= e.resetAt { return e; }
      r := e.(usage := 0, status := AVAILABLE, resetAt := 0);
      catalog.UpdateEntry(r);
    }

    /** The first half of Select: one pass over the catalog that recovers entries and keeps the eligible ones. */
    method Gather(spec: Spec, now: string -> int) returns (eligible: seq<Entry>)
      requires Valid()
      modifies catalog`entries
      ensures Valid() && catalog.entries == Refreshed(old(catalog.entries), now)
      ensures forall e :: e in eligible <==> Candidate(e, catalog.entries, escalated, spec)
    {
      hide Recovered, Eligible, PartRefreshed, EligibleOf, Refreshed;
      var list := catalog.ListEntries();
      eligible := [];
      ghost var before, order := catalog.entries, catalog.order;
      PartRefreshedNone(before, now);
      EligibleNone(before, escalated, spec, now);
      for i := 0 to |list|
        invariant Valid() && catalog.order == order && (forall j | 0 <= j < |order| :: order[j] in before)
        invariant catalog.entries == PartRefreshed(before, order[..i], now)
        invariant eligible == EligibleOf(before, order[..i], escalated, spec, now)
      {
        assert order[i] !in order[..i] && list[i].id == order[i];
        assert order[..i + 1] == order[..i] + [order[i]];
        PartRefreshedStep(before, order[..i], order[i], now);
        EligibleStep(before, order[..i], order[i], escalated, spec, now);
        var e := TryAutoRecover(list[i], now(list[i].id));
        if Refuses(e, spec) { continue; }
        eligible := eligible + [e];
      }
      assert order[..|list|] == order;
      PartRefreshedAll(before, order, now);
      EligibleMembers(before, order, escalated, spec, now);
    }

    /** The three filters of Select's loop. */
    predicate Refuses(e: Entry, spec: Spec)
      reads this
      ensures Refuses(e, spec) == !Eligible(e, escalated, spec)
    {
      e.id in escalated || e.tier < spec.minTier || e.status != AVAILABLE
    }

    method Select(spec: Spec, now: string -> int) returns (r: Option<Entry>)
      requires Valid()
      modifies catalog`entries
      ensures Valid() && catalog.entries == Refreshed(old(catalog.entries), now)
      ensures Answers(r, catalog.entries, escalated, spec)
      ensures r.Some? ==> r.value.id !in escalated && r.value.tier >= spec.minTier && r.value.status == "available"
    {
      hide Refreshed, Sorted;
      var eligible := Gather(spec, now);
      if |eligible| == 0 {
        assert forall id | id in catalog.entries ::
            Candidate(catalog.entries[id], catalog.entries, escalated, spec) ==> false;
        return None;
      }
      var sorted := SortStable(eligible, spec.sensitive);
      HeadIsLeast(eligible, sorted, catalog.entries, escalated, spec);
      r := Some(sorted[0]);
    }

    method OnGateFailure(id: string)
      modifies this`escalated
      ensures escalated == old(escalated) + {id}
    {
      escalated := escalated + {id};
    }

    method OnQuotaExhausted(id: string, resetAt: int)
      requires Valid()
      modifies catalog`entries
      ensures Valid() && catalog.entries == Marked(old(catalog.entries), id, resetAt)
      ensures OnlyLimited(old(catalog.entries), catalog.entries, id)
      ensures id in old(catalog.entries) && id != "" && old(catalog.entries)[id].limit != 0 ==>
                var e := old(catalog.entries)[id]; OutUntil(e, catalog.entries[id], e.usage, resetAt)
    {
      var r := catalog.LookupEntry(id);
      if r.None? { return; }
      if r.value.Unlimited() { return; }
      catalog.UpdateEntry(r.value.(status := EXHAUSTED, resetAt := resetAt));
    }

    /** `retryAfter` is the header's delay when it is present, parses and is not negative. */
    method OnRateLimit(id: string, retryAfter: Option<nat>, now: int)
      requires Valid()
      modifies catalog`entries
      ensures Valid()
      ensures catalog.entries == Marked(old(catalog.entries), id,
                                        now + if retryAfter.Some? then retryAfter.value else cooldown)
      ensures OnlyLimited(old(catalog.entries), catalog.entries, id)
      ensures id in old(catalog.entries) && id != "" && old(catalog.entries)[id].limit != 0 ==>
                var e := old(catalog.entries)[id];
                && (retryAfter.Some? ==> OutUntil(e, catalog.entries[id], e.usage, now + retryAfter.value))
                && (retryAfter.None? ==> OutUntil(e, catalog.entries[id], e.usage, now + cooldown))
    {
      var r := catalog.LookupEntry(id);
      if r.None? { return; }
      if r.value.Unlimited() { return; }
      var resetAt := now + cooldown;
      if retryAfter.Some? { resetAt := now + retryAfter.value; }
      catalog.UpdateEntry(r.value.(status := EXHAUSTED, resetAt := resetAt));
    }

    /** A dispatch costs a limited entry one use. The use that reaches the limit takes it out until one window from
        now has passed; any use before that leaves its availability as it was. */
    method RecordDispatch(id: string, now: int)
      requires Valid()
      modifies catalog`entries, this`dispatched
      ensures Valid() && catalog.entries == Dispatched(old(catalog.entries), id, now)
      ensures dispatched == old(dispatched) + [id]
      ensures OnlyLimited(old(catalog.entries), catalog.entries, id)
      ensures id in old(catalog.entries) && id != "" && old(catalog.entries)[id].limit != 0 ==>
                var e := old(catalog.entries)[id];
                if e.usage + 1 < e.limit then catalog.entries[id] == e.(usage := e.usage + 1)
                else OutUntil(e, catalog.entries[id], e.usage + 1, now + e.window)
    {
      dispatched := dispatched + [id];
      var r := catalog.LookupEntry(id);
      if r.None? { return; }
      var e := r.value;
      if e.Unlimited() { return; }
      e := e.(usage := e.usage + 1);
      if e.usage >= e.limit { e := e.(status := EXHAUSTED, resetAt := now + e.window); }
      catalog.UpdateEntry(e);
    }

    method SaveState() returns (state: map<string, Saved>)
      requires Valid()
      ensures state == SavedBook(catalog.entries) && state.Keys == catalog.entries.Keys
      ensures forall id | id in state ::
                var e := catalog.entries[id]; state[id] == Saved(e.usage, e.status == "exhausted", e.resetAt, e.status)
    {
      var list := catalog.ListEntries();
      state := map[];
      ghost var order := catalog.order;
      for i := 0 to |list|
        invariant state == map id | id in catalog.entries && id in order[..i] :: SavedOf(catalog.entries[id])
      {
        assert order[i] in order;
        assert order[..i + 1] == order[..i] + [order[i]];
        state := state[list[i].id := Saved(list[i].usage, list[i].status == EXHAUSTED, list[i].resetAt,
                                           list[i].status)];
      }
      assert order[..|list|] == order;
    }

    /** Saved entries come in no particular order; an unknown status stops the load where it is met, so a failed
        load may leave some entries restored. */
    method LoadState(file: File) returns (ok: bool)
      requires Valid()
      modifies catalog`entries
      ensures Valid() && catalog.entries.Keys == old(catalog.entries).Keys
      ensures ok <==> file.Parsed? && Loadable(old(catalog.entries), file.entries)
      ensures ok ==> catalog.entries == LoadedBook(old(catalog.entries), file.entries)
      ensures ok ==> forall id | id in file.entries && id in catalog.entries && id != "" ::
                var now, kept := catalog.entries[id], file.entries[id];
                && (kept.availStatus == "available" || kept.availStatus == "exhausted")
                && now == old(catalog.entries)[id].(usage := kept.usage, status := kept.availStatus,
                                                    resetAt := kept.resetAt)
      ensures ok ==> forall id | id in catalog.entries && (id == "" || id !in file.entries) ::
                catalog.entries[id] == old(catalog.entries)[id]
      ensures !file.Parsed? ==> catalog.entries == old(catalog.entries)
      ensures file.Parsed? ==> forall id | id in catalog.entries ::
                catalog.entries[id] == old(catalog.entries)[id]
                || catalog.entries[id] == LoadedBook(old(catalog.entries), file.entries)[id]
    {
      if !file.Parsed? { return false; }
      hide LoadedBook, Find, Restored, KnownStatus;
      var saved := file.entries;
      ghost var before := catalog.entries;
      PartLoadedEnds(before, saved);
      var ids := saved.Keys;
      while ids != {}
        invariant Valid() && ids <= saved.Keys
        invariant catalog.entries == PartLoaded(before, saved, ids)
        invariant forall id | id in saved && id !in ids && Find(before, id).Some? :: KnownStatus(saved[id])
        decreases |ids|
      {
        var id :| id in ids;
        PartLoadedStep(before, saved, ids, id);
        ids := ids - {id};
        var r := catalog.LookupEntry(id);
        if r.None? { continue; }
        if !KnownStatus(saved[id]) { return false; }
        catalog.UpdateEntry(Restored(r.value, saved[id]));
      }
      return true;
    }
  }

  // ---------------------------------------------------------------- what Select's loop has done so far

  ghost predicate Candidate(e: Entry, book: Book, escalated: set<string>, spec: Spec) {
    Eligible(e, escalated, spec) && e.id in book && book[e.id] == e
  }

  ghost function PartRefreshed(book: Book, done: seq<string>, now: string -> int): Book {
    map id | id in book :: if id in done then Recovered(book[id], now(id)) else book[id]
  }

  lemma PartRefreshedNone(book: Book, now: string -> int)
    ensures PartRefreshed(book, [], now) == book
  {
  }

  lemma PartRefreshedStep(book: Book, done: seq<string>, id: string, now: string -> int)
    requires id in book && id !in done
    ensures PartRefreshed(book, done + [id], now) == PartRefreshed(book, done, now)[id := Recovered(book[id], now(id))]
    ensures id in PartRefreshed(book, done, now) && PartRefreshed(book, done, now)[id] == book[id]
  {
  }

  lemma PartRefreshedAll(book: Book, order: seq<string>, now: string -> int)
    requires forall id | id in book :: id in order
    ensures PartRefreshed(book, order, now) == Refreshed(book, now)
  {
  }

  ghost function EligibleOf(book: Book, ids: seq<string>, escalated: set<string>, spec: Spec,
                            now: string -> int): seq<Entry>
    requires forall id | id in ids :: id in book
  {
    if ids == [] then []
    else
      var e := Recovered(book[ids[|ids| - 1]], now(ids[|ids| - 1]));
      EligibleOf(book, ids[..|ids| - 1], escalated, spec, now) + if Eligible(e, escalated, spec) then [e] else []
  }

  lemma EligibleNone(book: Book, escalated: set<string>, spec: Spec, now: string -> int)
    ensures EligibleOf(book, [], escalated, spec, now) == []
  {
  }

  lemma EligibleStep(book: Book, ids: seq<string>, id: string, escalated: set<string>, spec: Spec, now: string -> int)
    requires id in book && forall x | x in ids :: x in book
    ensures forall x | x in ids + [id] :: x in book
    ensures EligibleOf(book, ids + [id], escalated, spec, now) ==
            EligibleOf(book, ids, escalated, spec, now) +
            if Eligible(Recovered(book[id], now(id)), escalated, spec) then [Recovered(book[id], now(id))] else []
  {
    assert (ids + [id])[..|ids|] == ids;
  }

  lemma {:induction false} EligibleListed(book: Book, ids: seq<string>, escalated: set<string>, spec: Spec,
                                          now: string -> int)
    requires forall id | id in ids :: id in book
    ensures forall e :: e in EligibleOf(book, ids, escalated, spec, now) <==>
              Eligible(e, escalated, spec) && exists id :: id in ids && e == Recovered(book[id], now(id))
  {
    if ids != [] {
      var n := |ids| - 1;
      assert ids == ids[..n] + [ids[n]];
      EligibleListed(book, ids[..n], escalated, spec, now);
    }
  }

  lemma EligibleMembers(book: Book, order: seq<string>, escalated: set<string>, spec: Spec, now: string -> int)
    requires Keyed(book) && forall id :: id in order <==> id in book
    ensures forall e :: e in EligibleOf(book, order, escalated, spec, now) <==>
              Candidate(e, Refreshed(book, now), escalated, spec)
  {
    EligibleListed(book, order, escalated, spec, now);
  }

  lemma HeadIsLeast(eligible: seq<Entry>, sorted: seq<Entry>, book: Book, escalated: set<string>, spec: Spec)
    requires Keyed(book) && |eligible| > 0
    requires forall e :: e in eligible <==> Candidate(e, book, escalated, spec)
    requires multiset(sorted) == multiset(eligible) && Sorted(sorted, spec.sensitive)
    ensures |sorted| > 0 && IsLeast(sorted[0], book, escalated, spec)
  {
    assert |sorted| == |multiset(sorted)| == |multiset(eligible)| == |eligible|;
    var e := sorted[0];
    assert e in multiset(sorted) && e in eligible;
    forall id | id in book && id != e.id && Eligible(book[id], escalated, spec)
      ensures Less(e, book[id], spec.sensitive)
    {
      assert Candidate(book[id], book, escalated, spec);
      assert book[id] in multiset(eligible) && book[id] in sorted;
      var i :| 0 <= i < |sorted| && sorted[i] == book[id];
      LessTotal(e, book[id], spec.sensitive);
    }
  }

  // ---------------------------------------------------------------- what LoadState's loop has done so far

  ghost function PartLoaded(book: Book, saved: map<string, Saved>, left: set<string>): Book {
    map id | id in book :: if id in left then book[id] else LoadedBook(book, saved)[id]
  }

  lemma PartLoadedStep(book: Book, saved: map<string, Saved>, left: set<string>, id: string)
    requires id in left && id in saved
    ensures match Find(book, id)
            case None => PartLoaded(book, saved, left - {id}) == PartLoaded(book, saved, left)
            case Some(e) => PartLoaded(book, saved, left - {id}) == PartLoaded(book, saved,
                                                                               left)[id := Restored(e, saved[id])]
    ensures Find(PartLoaded(book, saved, left), id) == Find(book, id)
  {
  }

  lemma PartLoadedEnds(book: Book, saved: map<string, Saved>)
    ensures PartLoaded(book, saved, saved.Keys) == book && PartLoaded(book, saved, {}) == LoadedBook(book, saved)
  {
  }
}
