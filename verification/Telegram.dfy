/** The poll and offset loop of the chat channel. Per-update work (authorisation, envelopes, armor, audit) is an
    abstract step on the adapter's other state that may deliver a message. */
module Telegram {
  import opened Json

  datatype Update<U> = Update(id: int, body: U)

  /** The updates of the bot, oldest first. */
  predicate Ascending<U>(stream: seq<Update<U>>) { forall i, j | 0 <= i < j < |stream| :: stream[i].id < stream[j].id }

  function Opt<M>(m: Option<M>): seq<M> { if m.Some? then [m.value] else [] }

  /** One update at a time: the state after all of them. */
  function Final<S, U, M>(process: (S, U) -> (S, Option<M>), s: S, us: seq<Update<U>>): S {
    if us == [] then s else process(Final(process, s, us[..|us| - 1]), us[|us| - 1].body).0
  }

  /** One update at a time: the messages delivered, in order. */
  function Messages<S, U, M>(process: (S, U) -> (S, Option<M>), s: S, us: seq<Update<U>>): seq<M> {
    if us == [] then []
    else Messages(process, s, us[..|us| - 1]) + Opt(process(Final(process, s, us[..|us| - 1]), us[|us| - 1].body).1)
  }

  lemma {:induction false} FinalAppend<S, U, M>(process: (S, U) -> (S, Option<M>), s: S, a: seq<Update<U>>,
                                                b: seq<Update<U>>)
    ensures Final(process, s, a + b) == Final(process, Final(process, s, a), b)
  {
    if b == [] {
      assert a + b == a;
    } else {
      var n := |b| - 1;
      FinalAppend(process, s, a, b[..n]);
      assert (a + b)[..|a + b| - 1] == a + b[..n];
    }
  }

  lemma {:induction false} MessagesAppend<S, U, M>(process: (S, U) -> (S, Option<M>), s: S, a: seq<Update<U>>,
                                                   b: seq<Update<U>>)
    ensures Messages(process, s, a + b) == Messages(process, s, a) + Messages(process, Final(process, s, a), b)
  {
    if b == [] {
      assert a + b == a;
      assert Messages(process, s, a) + [] == Messages(process, s, a);
    } else {
      var n := |b| - 1;
      MessagesAppend(process, s, a, b[..n]);
      FinalAppend(process, s, a, b[..n]);
      assert (a + b)[..|a + b| - 1] == a + b[..n];
      var m := Opt(process(Final(process, s, a + b[..n]), b[n].body).1);
      assert Messages(process, s, a) + Messages(process, Final(process, s, a), b[..n]) + m
          == Messages(process, s, a) + (Messages(process, Final(process, s, a), b[..n]) + m);
    }
  }

  /** Where the stream stands for an offset: how many updates have a smaller ID. */
  function Position<U>(stream: seq<Update<U>>, offset: int): (p: nat)
    ensures p <= |stream|
  {
    if stream == [] || stream[0].id >= offset then 0 else 1 + Position(stream[1..], offset)
  }

  lemma {:induction false} PositionIs<U>(stream: seq<Update<U>>, offset: int, p: nat)
    requires p <= |stream| && (forall i | 0 <= i < p :: stream[i].id < offset)
    requires (p < |stream| ==> stream[p].id >= offset)
    ensures Position(stream, offset) == p
    decreases p
  {
    if p > 0 { PositionIs(stream[1..], offset, p - 1); }
  }

  /** Acknowledging an update by its ID plus one moves on by exactly that update. */
  lemma PositionAfter<U>(stream: seq<Update<U>>, p: nat)
    requires Ascending(stream) && p < |stream|
    ensures Position(stream, stream[p].id + 1) == p + 1
  {
    PositionIs(stream, stream[p].id + 1, p + 1);
  }

  /** One poll: it fails, or returns at most `n` pending updates; `goOn` says whether the wait after it ends
      normally or by shutdown. */
  datatype Poll = Failed(goOn: bool) | Batch(n: nat, goOn: bool)

  function Least(a: int, b: int): int { if a <= b then a else b }

  function Served<U>(stream: seq<Update<U>>, offset: int, n: nat): seq<Update<U>> {
    var p := Position(stream, offset);
    stream[p..Least(p + n, |stream|)]
  }

  /** A batch in answer to a poll: the next updates of the stream. */
  ghost predicate Continues<U>(stream: seq<Update<U>>, p: nat, updates: seq<Update<U>>) {
    p + |updates| <= |stream| && forall i | 0 <= i < |updates| :: updates[i] == stream[p + i]
  }

  lemma ServedContinues<U>(stream: seq<Update<U>>, offset: int, n: nat)
    ensures Continues(stream, Position(stream, offset), Served(stream, offset, n))
    ensures |Served(stream, offset, n)| == Least(n, |stream| - Position(stream, offset))
  {
  }

  /** How far polls that deliver nothing bring a stream of length `n` from position `p`. */
  function Reach(n: nat, p: nat, polls: seq<Poll>): nat
    requires p <= n
    ensures Reach(n, p, polls) <= n
  {
    if polls == [] then p
    else
      var q, last := Reach(n, p, polls[..|polls| - 1]), polls[|polls| - 1];
      if last.Batch? then q + Least(last.n, n - q) else q
  }

  lemma ReachNone(n: nat, p: nat)
    requires p <= n
    ensures Reach(n, p, []) == p
  {
  }

  lemma ReachStep(n: nat, p: nat, polls: seq<Poll>, i: nat)
    requires p <= n && i < |polls|
    ensures var q := Reach(n, p, polls[..i]);
            Reach(n, p, polls[..i + 1]) == if polls[i].Batch? then q + Least(polls[i].n, n - q) else q
  {
    assert polls[..i + 1][..i] == polls[..i];
  }

  predicate GoneOn(polls: seq<Poll>, i: nat) { i <= |polls| && forall j | 0 <= j < i :: polls[j].goOn }

  predicate StopsAt(polls: seq<Poll>, k: int) { 0 <= k < |polls| && !polls[k].goOn && GoneOn(polls, k) }

  datatype Answer<M> = Delivered(msg: M) | Shutdown | Polling

  function Sent<M>(a: Answer<M>): seq<M> { if a.Delivered? then [a.msg] else [] }

  /** From `s` at position `p`, one pass over `stream[p..q]` ends in `t` and delivers `ms`. */
  ghost predicate Advances<S, U, M>(process: (S, U) -> (S, Option<M>), stream: seq<Update<U>>, s: S, p: nat, t: S,
                                    q: nat, ms: seq<M>) {
    p <= q <= |stream| && t == Final(process, s, stream[p..q]) && ms == Messages(process, s, stream[p..q])
  }

  lemma AdvanceOne<S, U, M>(process: (S, U) -> (S, Option<M>), stream: seq<Update<U>>, s: S, p: nat, t: S, q: nat)
    requires Advances(process, stream, s, p, t, q, []) && q < |stream|
    ensures Advances(process, stream, s, p, process(t, stream[q].body).0, q + 1, Opt(process(t, stream[q].body).1))
  {
    var us := stream[p..q + 1];
    assert us[..|us| - 1] == stream[p..q] && us[|us| - 1] == stream[q];
    assert [] + Opt(process(t, stream[q].body).1) == Opt(process(t, stream[q].body).1);
  }

  lemma AdvanceMore<S, U, M>(process: (S, U) -> (S, Option<M>), stream: seq<Update<U>>,
                             s: S, p: nat, t: S, q: nat, ms: seq<M>, r: S, o: nat, ns: seq<M>)
    requires Advances(process, stream, s, p, t, q, ms) && Advances(process, stream, t, q, r, o, ns)
    ensures Advances(process, stream, s, p, r, o, ms + ns)
  {
    FinalAppend(process, s, stream[p..q], stream[q..o]);
    MessagesAppend(process, s, stream[p..q], stream[q..o]);
    assert stream[p..q] + stream[q..o] == stream[p..o];
  }

  lemma AdvanceNone<S, U, M>(process: (S, U) -> (S, Option<M>), stream: seq<Update<U>>, s: S, p: nat)
    requires p <= |stream|
    ensures Advances(process, stream, s, p, s, p, [])
  {
    assert stream[p..p] == [];
  }

  /** The last update of `stream[p..q]` is the first of them that is delivered. */
  ghost predicate LastDelivers<S, U, M>(process: (S, U) -> (S, Option<M>), stream: seq<Update<U>>, s: S, p: nat,
                                        q: nat) {
    p < q <= |stream| && Messages(process, s, stream[p..q - 1]) == []
  }

  lemma LastIs<S, U, M>(process: (S, U) -> (S, Option<M>), stream: seq<Update<U>>, s: S, p: nat, t: S, q: nat)
    requires Advances(process, stream, s, p, t, q, []) && q < |stream|
    ensures LastDelivers(process, stream, s, p, q + 1)
  {
  }

  lemma QuietBefore<S, U, M>(process: (S, U) -> (S, Option<M>), stream: seq<Update<U>>, s: S, p: nat, t: S, q: nat,
                             r: nat)
    requires Advances(process, stream, s, p, t, q, []) && LastDelivers(process, stream, t, q, r)
    ensures LastDelivers(process, stream, s, p, r)
  {
    hide Messages, Final;
    MessagesAppend(process, s, stream[p..q], stream[q..r - 1]);
    assert stream[p..q] + stream[q..r - 1] == stream[p..r - 1];
  }

  /** What one call of Next over `polls` does to the position: it stops at the first delivery, at the first poll after
      which the adapter shuts down, or has gone through all of them. */
  ghost predicate Stepped<M>(n: nat, p: nat, q: nat, polls: seq<Poll>, a: Answer<M>) {
    match a
    case Delivered(_) => p < q <= n
    case Polling => p <= n && GoneOn(polls, |polls|) && q == Reach(n, p, polls)
    case Shutdown => p <= n && exists k :: StopsAt(polls, k) && q == Reach(n, p, polls[..k + 1])
  }

  class Adapter<S, U, M> {
    const process: (S, U) -> (S, Option<M>)
    var offset: int
    var state: S

    constructor (process: (S, U) -> (S, Option<M>), offset: int, state: S)
      ensures this.process == process && this.offset == offset && this.state == state
    {
      this.process := process;
      this.offset := offset;
      this.state := state;
    }

    /** Scans a batch up to its first deliverable update; the rest of it is served again by a later poll. */
    method ProcessBatch(stream: seq<Update<U>>, updates: seq<Update<U>>) returns (r: Option<M>)
      requires Ascending(stream) && Continues(stream, Position(stream, offset), updates)
      modifies this
      ensures Advances(process, stream, old(state), Position(stream, old(offset)), state, Position(stream, offset),
                       Opt(r))
      ensures r.None? ==> Position(stream, offset) == Position(stream, old(offset)) + |updates|
      ensures r.Some? ==>
                LastDelivers(process, stream, old(state), Position(stream, old(offset)), Position(stream, offset))
    {
      hide Advances, Ascending, Position, LastDelivers;
      ghost var p := Position(stream, offset);
      AdvanceNone(process, stream, state, p);
      for i := 0 to |updates|
        invariant Position(stream, offset) == p + i
        invariant Advances(process, stream, old(state), p, state, p + i, [])
      {
        AdvanceOne(process, stream, old(state), p, state, p + i);
        LastIs(process, stream, old(state), p, state, p + i);
        PositionAfter(stream, p + i);
        offset := updates[i].id + 1;
        var step := process(state, updates[i].body);
        state := step.0;
        if step.1.Some? { return step.1; }
      }
      r := None;
    }

    /** One call of Next over the polls it makes; `Polling` when none of them ended it. */
    method Next(stream: seq<Update<U>>, polls: seq<Poll>) returns (a: Answer<M>)
      requires Ascending(stream)
      modifies this
      ensures Advances(process, stream, old(state), Position(stream, old(offset)), state, Position(stream, offset),
                       Sent(a))
      ensures Stepped(|stream|, Position(stream, old(offset)), Position(stream, offset), polls, a)
      ensures a.Delivered? ==>
                LastDelivers(process, stream, old(state), Position(stream, old(offset)), Position(stream, offset))
    {
      hide Advances, Ascending, Served, Continues, Position, Reach;
      ghost var p := Position(stream, offset);
      AdvanceNone(process, stream, state, p);
      ReachNone(|stream|, p);
      for i := 0 to |polls|
        invariant Advances(process, stream, old(state), p, state, Position(stream, offset), [])
        invariant GoneOn(polls, i) && Position(stream, offset) == Reach(|stream|, p, polls[..i])
      {
        ReachStep(|stream|, p, polls, i);
        if polls[i].Batch? {
          ghost var q, before := Position(stream, offset), state;
          ServedContinues(stream, offset, polls[i].n);
          var r := ProcessBatch(stream, Served(stream, offset, polls[i].n));
          AdvanceMore(process, stream, old(state), p, before, q, [], state, Position(stream, offset), Opt(r));
          assert [] + Opt(r) == Opt(r);
          if r.Some? {
            QuietBefore(process, stream, old(state), p, before, q, Position(stream, offset));
            return Delivered(r.value);
          }
        }
        if !polls[i].goOn {
          assert StopsAt(polls, i);
          return Shutdown;
        }
      }
      assert polls[..|polls|] == polls;
      a := Polling;
    }

    /** Any number of Next calls: together they process a stretch of the stream from where it stood, in order,
        nothing skipped and nothing twice, with the state and the messages of one pass over that stretch. */
    method Session(stream: seq<Update<U>>, calls: seq<seq<Poll>>)
      returns (msgs: seq<M>, answers: seq<Answer<M>>, ghost at: seq<nat>)
      requires Ascending(stream)
      modifies this
      ensures var p, q := Position(stream, old(offset)), Position(stream, offset);
              p <= q && state == Final(process, old(state), stream[p..q])
              && msgs == Messages(process, old(state), stream[p..q])
      ensures |answers| == |calls| && |at| == |calls| + 1
      ensures at[0] == Position(stream, old(offset)) && at[|calls|] == Position(stream, offset)
      ensures forall i | 0 <= i < |calls| :: Stepped(|stream|, at[i], at[i + 1], calls[i], answers[i])
    {
      hide Ascending, Final, Messages, Position, Stepped;
      msgs, answers, at := [], [], [Position(stream, offset)];
      ghost var p := Position(stream, offset);
      AdvanceNone(process, stream, state, p);
      for i := 0 to |calls|
        invariant Advances(process, stream, old(state), p, state, Position(stream, offset), msgs)
        invariant |answers| == i && |at| == i + 1 && at[0] == p && at[i] == Position(stream, offset)
        invariant forall j | 0 <= j < i :: Stepped(|stream|, at[j], at[j + 1], calls[j], answers[j])
      {
        ghost var q, before := Position(stream, offset), state;
        var a := Next(stream, calls[i]);
        answers, at := answers + [a], at + [Position(stream, offset)];
        AdvanceMore(process, stream, old(state), p, before, q, msgs, state, Position(stream, offset), Sent(a));
        msgs := msgs + Sent(a);
      }
    }
  }
}
