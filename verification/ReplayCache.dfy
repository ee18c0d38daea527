/** The replay guard: a nonce cache that forgets, measured against one that never does. */
module ReplayCaches {
  datatype Verdict = Fresh | Stale | Replayed

  /** One call with the clock it reads. */
  datatype Call = Check(nonce: string, ts: int, now: int) | Evict(now: int)

  type Nonces = map<string, int>

  predicate InWindow(window: int, ts: int, now: int) { now - window <= ts <= now + window }

  function Judge(seen: Nonces, window: int, c: Call): Verdict
    requires c.Check?
  {
    if !InWindow(window, c.ts, c.now) then Stale else if c.nonce in seen then Replayed else Fresh
  }

  function Pruned(m: Nonces, horizon: int): Nonces { map n | n in m && m[n] >= horizon :: m[n] }

  predicate Accepts(cache: Nonces, window: int, c: Call) { c.Check? && Judge(cache, window, c).Fresh? }

  function After(cache: Nonces, window: int, c: Call): Nonces {
    if c.Evict? then Pruned(cache, c.now - 2 * window)
    else if Accepts(cache, window, c) then Pruned(cache, c.now - 2 * window)[c.nonce := c.ts]
    else cache
  }

  /** A sweep keeps a nonce, with its timestamp, exactly when that is not older than the horizon. */
  ghost predicate Swept(before: Nonces, after: Nonces, but: set<string>, horizon: int) {
    forall n | n !in but ::
      (n in after <==> n in before && before[n] >= horizon) && (n in after ==> after[n] == before[n])
  }

  // ---------------------------------------------------------------- the cache as it runs

  class ReplayCache {
    const window: int
    var nonces: Nonces

    constructor (window: int)
      ensures this.window == (if window == 0 then 60_000_000_000 else window) && nonces == map[]
    {
      this.window := if window == 0 then 60_000_000_000 else window;
      nonces := map[];
    }

    method Check(nonce: string, ts: int, now: int) returns (v: Verdict)
      modifies this
      ensures v == Judge(old(nonces), window, Call.Check(nonce, ts, now))
      ensures nonces == After(old(nonces), window, Call.Check(nonce, ts, now))
      ensures v.Stale? <==> ts < now - window || ts > now + window
      ensures v.Replayed? <==> now - window <= ts <= now + window && nonce in old(nonces)
      ensures !v.Fresh? ==> nonces == old(nonces)
      ensures v.Fresh? ==> nonce in nonces && nonces[nonce] == ts
                           && Swept(old(nonces), nonces, {nonce}, now - 2 * window)
    {
      if ts < now - window || ts > now + window { return Stale; }
      if nonce in nonces { return Replayed; }
      EvictAt(now);
      nonces := nonces[nonce := ts];
      v := Fresh;
    }

    /** The sweep, over the keys in no particular order. */
    method EvictAt(now: int)
      modifies this
      ensures nonces == Pruned(old(nonces), now - 2 * window)
      ensures Swept(old(nonces), nonces, {}, now - 2 * window)
    {
      var horizon := now - 2 * window;
      var keys := nonces.Keys;
      while keys != {}
        invariant keys <= old(nonces).Keys
        invariant nonces == map n | n in old(nonces) && (n in keys || old(nonces)[n] >= horizon) :: old(nonces)[n]
        decreases |keys|
      {
        var n :| n in keys;
        keys := keys - {n};
        if nonces[n] < horizon { nonces := nonces - {n}; }
      }
    }

    method Evict(now: int)
      modifies this
      ensures nonces == After(old(nonces), window, Call.Evict(now))
      ensures Swept(old(nonces), nonces, {}, now - 2 * window)
    {
      EvictAt(now);
    }
  }

  // ---------------------------------------------------------------- runs

  /** The cache beside the last accepted timestamp of every nonce ever accepted. */
  datatype State = State(cache: Nonces, last: Nonces)

  function Next(s: State, window: int, c: Call): State {
    State(After(s.cache, window, c), if Accepts(s.cache, window, c) then s.last[c.nonce := c.ts] else s.last)
  }

  function Exec(window: int, cs: seq<Call>): State {
    if cs == [] then State(map[], map[]) else Next(Exec(window, cs[..|cs| - 1]), window, cs[|cs| - 1])
  }

  /** The clock never goes back. */
  predicate Clocked(cs: seq<Call>) { forall i, j | 0 <= i < j < |cs| :: cs[i].now <= cs[j].now }

  predicate AcceptedAt(window: int, cs: seq<Call>, i: nat)
    requires i < |cs|
  {
    Accepts(Exec(window, cs[..i]).cache, window, cs[i])
  }

  /** What is cached was accepted last and is not in the future; what was forgotten is two windows old. */
  ghost predicate Sound(s: State, window: int, now: int) {
    && (forall n | n in s.cache :: n in s.last && s.cache[n] == s.last[n] && s.cache[n] <= now + window)
    && (forall n | n in s.last && n !in s.cache :: s.last[n] < now - 2 * window)
  }

  lemma NextSound(s: State, window: int, now: int, c: Call)
    requires Sound(s, window, now) && now <= c.now
    ensures Sound(Next(s, window, c), window, c.now)
  {
  }

  lemma {:induction false} RunSound(window: int, cs: seq<Call>)
    requires Clocked(cs)
    ensures cs == [] ==> Exec(window, cs) == State(map[], map[])
    ensures cs != [] ==> Sound(Exec(window, cs), window, cs[|cs| - 1].now)
  {
    hide Next, Sound;
    if cs != [] {
      var n := |cs| - 1;
      RunSound(window, cs[..n]);
      if n > 0 {
        NextSound(Exec(window, cs[..n]), window, cs[n - 1].now, cs[n]);
      } else {
        EmptySound(window, cs[0].now);
        NextSound(State(map[], map[]), window, cs[0].now, cs[0]);
      }
    }
  }

  lemma EmptySound(window: int, now: int)
    ensures Sound(State(map[], map[]), window, now)
  {
  }

  /** The state a call finds. */
  lemma FoundSound(window: int, cs: seq<Call>, i: nat)
    requires Clocked(cs) && i < |cs|
    ensures Sound(Exec(window, cs[..i]), window, cs[i].now)
  {
    RunSound(window, cs[..i]);
    hide Exec;
    if i > 0 { assert cs[..i][i - 1].now <= cs[i].now; }
  }

  /** The last accepted timestamp of a nonce only grows. */
  lemma {:induction false} LastGrows(window: int, cs: seq<Call>, i: nat, j: nat)
    requires Clocked(cs) && i < j <= |cs| && AcceptedAt(window, cs, i) && window >= 0
    ensures cs[i].nonce in Exec(window, cs[..j]).last && cs[i].ts <= Exec(window, cs[..j]).last[cs[i].nonce]
    decreases j
  {
    assert cs[..j][..j - 1] == cs[..j - 1];
    if i < j - 1 {
      LastGrows(window, cs, i, j - 1);
      FoundSound(window, cs, j - 1);
      hide Exec;
    }
  }

  /** Two accepted checks of the same nonce carry timestamps more than the window apart, the later one newer. */
  lemma AcceptedApart(window: int, cs: seq<Call>, i: nat, j: nat)
    requires Clocked(cs) && i < j < |cs| && AcceptedAt(window, cs, i) && AcceptedAt(window, cs, j)
    requires cs[i].nonce == cs[j].nonce
    ensures cs[j].ts - cs[i].ts > window
  {
    LastGrows(window, cs, i, j);
    FoundSound(window, cs, j);
    hide Exec;
  }

  predicate Between(m: Nonces, lo: int, hi: int) { forall n | n in m :: lo <= m[n] <= hi }

  /** After an accepted check every cached timestamp lies between two windows ago and one window ahead. */
  lemma CacheBounded(window: int, cs: seq<Call>, i: nat)
    requires Clocked(cs) && i < |cs| && AcceptedAt(window, cs, i)
    ensures Between(Exec(window, cs[..i + 1]).cache, cs[i].now - 2 * window, cs[i].now + window)
  {
    assert cs[..i + 1][..i] == cs[..i];
    FoundSound(window, cs, i);
    hide Exec;
  }

  // ---------------------------------------------------------------- the cache that never forgets

  function Remembered(seen: Nonces, window: int, c: Call): Nonces {
    if Accepts(seen, window, c) then seen[c.nonce := c.ts] else seen
  }

  function Recall(window: int, cs: seq<Call>): Nonces {
    if cs == [] then map[] else Remembered(Recall(window, cs[..|cs| - 1]), window, cs[|cs| - 1])
  }

  /** Each nonce comes with one timestamp. */
  predicate OneTimestamp(cs: seq<Call>) {
    forall i, j | 0 <= i < j < |cs| && cs[i].Check? && cs[j].Check? && cs[i].nonce == cs[j].nonce ::
      cs[i].ts == cs[j].ts
  }

  /** Both caches have accepted the same nonces, whatever either remembers of them. */
  lemma {:induction false} SameNonces(window: int, cs: seq<Call>)
    ensures Recall(window, cs).Keys == Exec(window, cs).last.Keys
    ensures forall n | n in Exec(window, cs).cache ::
              n in Exec(window, cs).last && Exec(window, cs).cache[n] == Exec(window, cs).last[n]
  {
    if cs != [] { SameNonces(window, cs[..|cs| - 1]); }
  }

  /** Call `k` is a sweep, explicit or by an accepted check, whose horizon lies past timestamp `t`. */
  ghost predicate SweptAt(window: int, cs: seq<Call>, k: int, t: int) {
    0 <= k < |cs| && (cs[k].Evict? || AcceptedAt(window, cs, k)) && t < cs[k].now - 2 * window
  }

  lemma SweptPrefix(window: int, cs: seq<Call>, n: nat, t: int)
    requires n <= |cs|
    ensures forall k | 0 <= k < n :: SweptAt(window, cs[..n], k, t) <==> SweptAt(window, cs, k, t)
  {
    forall k | 0 <= k < n ensures SweptAt(window, cs[..n], k, t) <==> SweptAt(window, cs, k, t) {
      assert cs[..n][..k] == cs[..k];
    }
  }

  /** An accepted nonce is forgotten exactly when some sweep has passed its last accepted timestamp. */
  lemma {:induction false} ForgottenIff(window: int, cs: seq<Call>, n: string)
    requires Clocked(cs) && n in Exec(window, cs).last
    ensures n !in Exec(window, cs).cache <==> exists k :: SweptAt(window, cs, k, Exec(window, cs).last[n])
  {
    if cs == [] {
      assert false;
    } else {
      var m := |cs| - 1;
      var s, c := Exec(window, cs[..m]), cs[m];
      var t := Exec(window, cs).last[n];
      SweptPrefix(window, cs, m, t);
      assert SweptAt(window, cs, m, t) <==> (c.Evict? || Accepts(s.cache, window, c)) && t < c.now - 2 * window;
      if Accepts(s.cache, window, c) && c.nonce == n {
        NotYetSwept(window, cs, t);
      } else {
        ForgottenIff(window, cs[..m], n);
        if n !in s.cache {
          var k :| SweptAt(window, cs[..m], k, t);
          assert SweptAt(window, cs, k, t);
        } else {
          SameNonces(window, cs[..m]);
          assert forall k | 0 <= k < m :: !SweptAt(window, cs[..m], k, t) && !SweptAt(window, cs, k, t);
        }
      }
    }
  }

  /** No sweep so far has passed the timestamp that the last call is accepted with. */
  lemma NotYetSwept(window: int, cs: seq<Call>, t: int)
    requires Clocked(cs) && cs != [] && AcceptedAt(window, cs, |cs| - 1) && cs[|cs| - 1].ts == t
    ensures forall k :: !SweptAt(window, cs, k, t)
  {
    hide Exec;
    forall k | 0 <= k < |cs| ensures !SweptAt(window, cs, k, t) { assert cs[k].now <= cs[|cs| - 1].now; }
  }

  /** Exactly when forgetting shows, in any run with a clock that never goes back: a check disagrees with the cache
      that never forgets if and only if it is in the window, its nonce was accepted before, and a sweep since has passed
      the timestamp last accepted. The bounded cache then accepts it, more than a window after that timestamp. */
  lemma ForgettingShowsIff(window: int, cs: seq<Call>, i: nat)
    requires Clocked(cs) && i < |cs| && cs[i].Check?
    ensures var s, c := Exec(window, cs[..i]), cs[i];
            && (Judge(s.cache, window, c) != Judge(Recall(window, cs[..i]), window, c) <==>
                  && c.now - window <= c.ts <= c.now + window && c.nonce in s.last
                  && exists k :: SweptAt(window, cs[..i], k, s.last[c.nonce]))
            && (Judge(s.cache, window, c) != Judge(Recall(window, cs[..i]), window, c) ==>
                Judge(s.cache, window, c).Fresh? && c.ts - s.last[c.nonce] > window)
  {
    var s, c := Exec(window, cs[..i]), cs[i];
    SameNonces(window, cs[..i]);
    FoundSound(window, cs, i);
    if c.nonce in s.last { ForgottenIff(window, cs[..i], c.nonce); }
    hide Exec, Recall, SweptAt;
  }

  lemma {:induction false} LastWasChecked(window: int, cs: seq<Call>, n: string)
    requires n in Exec(window, cs).last
    ensures exists i | 0 <= i < |cs| :: cs[i] == Check(n, Exec(window, cs).last[n], cs[i].now)
  {
    if cs != [] {
      var k := |cs| - 1;
      var before := Exec(window, cs[..k]);
      if Accepts(before.cache, window, cs[k]) && cs[k].nonce == n {
        assert cs[k] == Check(n, Exec(window, cs).last[n], cs[k].now);
      } else {
        LastWasChecked(window, cs[..k], n);
        var i :| 0 <= i < k && cs[..k][i] == Check(n, before.last[n], cs[..k][i].now);
        assert cs[i] == cs[..k][i];
      }
    } else {
      assert false;
    }
  }

  /** With one timestamp per nonce, forgetting never shows at the next call. */
  lemma SameVerdict(window: int, cs: seq<Call>, i: nat)
    requires Clocked(cs) && OneTimestamp(cs) && i < |cs| && cs[i].Check?
    ensures var s := Exec(window, cs[..i]); Judge(s.cache, window, cs[i]) == Judge(s.last, window, cs[i])
  {
    FoundSound(window, cs, i);
    var s := Exec(window, cs[..i]);
    if cs[i].nonce in s.last && cs[i].nonce !in s.cache {
      LastWasChecked(window, cs[..i], cs[i].nonce);
      hide Exec;
      var k :| 0 <= k < i && cs[..i][k] == Check(cs[i].nonce, s.last[cs[i].nonce], cs[..i][k].now);
      assert cs[k] == cs[..i][k];
    }
  }

  lemma {:induction false} RecallIsLast(window: int, cs: seq<Call>)
    requires Clocked(cs) && OneTimestamp(cs)
    ensures Recall(window, cs) == Exec(window, cs).last
  {
    if cs != [] {
      var n := |cs| - 1;
      RecallIsLast(window, cs[..n]);
      if cs[n].Check? { SameVerdict(window, cs, n); }
    }
  }

  /** With one timestamp per nonce the bounded cache and the unbounded one agree on every call of every run. */
  lemma AgreesWithUnbounded(window: int, cs: seq<Call>, i: nat)
    requires Clocked(cs) && OneTimestamp(cs) && i < |cs| && cs[i].Check?
    ensures Judge(Exec(window, cs[..i]).cache, window, cs[i]) == Judge(Recall(window, cs[..i]), window, cs[i])
  {
    RecallIsLast(window, cs[..i]);
    SameVerdict(window, cs, i);
  }

  /** Without it they need not: for every window a nonce comes back with a later timestamp and is accepted again. */
  lemma TwoTimestampsDisagree(window: nat, n: string, m: string)
    requires n != m
    ensures var t := 2 * window + 1;
            var cs := [Check(n, 0, 0), Check(m, t, t), Check(n, t, t)];
            && Clocked(cs) && !OneTimestamp(cs)
            && Judge(Exec(window, cs[..2]).cache, window, cs[2]) == Fresh
            && Judge(Recall(window, cs[..2]), window, cs[2]) == Replayed
  {
    var t := 2 * window + 1;
    var cs := [Check(n, 0, 0), Check(m, t, t), Check(n, t, t)];
    assert cs[0].nonce == cs[2].nonce;
    assert cs[..2][..1] == cs[..1] && cs[..1][..0] == [];
    assert Exec(window, cs[..1]) == Next(Exec(window, []), window, cs[0]);
    assert Exec(window, cs[..2]) == Next(Exec(window, cs[..1]), window, cs[1]);
    assert Recall(window, cs[..1]) == Remembered(Recall(window, []), window, cs[0]);
    assert Recall(window, cs[..2]) == Remembered(Recall(window, cs[..1]), window, cs[1]);
  }
}
