/** memoryguard.DurableStore: the journal of module `Journal` behind a write gate and a read gate.
    The gates are other processes, so each call carries the verdict it received. */
module MemoryGuard {
  import opened Json
  import opened Journal
  import opened History

  /** A stored value and the handle the write gate returned for it. */
  datatype Guarded = Guarded(value: Value, storedID: string)

  function LineJson(key: string, g: Guarded, deleted: bool): Value {
    Obj(Member("key", Str(key), Member("value", g.value, Member("stored_id", Str(g.storedID),
                                                                Member("deleted", Bool(deleted), NoMember)))))
  }

  function LineEntry(v: Value): Option<Entry<Guarded>> {
    match v
    case Obj(Member(k0, Str(key), Member(k1, value, Member(k2, Str(id), Member(k3, Bool(deleted), NoMember))))) =>
      if k0 == "key" && k1 == "value" && k2 == "stored_id" && k3 == "deleted"
      then Some(if deleted then Drop(key) else Put(key, Guarded(value, id))) else None
    case _ => None
  }

  function EntryJson(g: Guarded): Value {
    Obj(Member("value", g.value, Member("stored_id", Str(g.storedID), NoMember)))
  }

  function MemberEntry(key: string, v: Value): Option<Entry<Guarded>> {
    match v
    case Obj(Member(k0, value, Member(k1, Str(id), NoMember))) =>
      if k0 == "value" && k1 == "stored_id" then Some(Put(key, Guarded(value, id))) else None
    case _ => None
  }

  const GUARD: Schema<Guarded> := Schema(LineEntry, MemberEntry)

  lemma LineRoundTrip(key: string, g: Guarded, deleted: bool)
    ensures IsLine(LineJson(key, g, deleted))
    ensures GUARD.line(LineJson(key, g, deleted)) == Some(if deleted then Drop(key) else Put(key, g))
  {
  }

  // ---------------------------------------------------------------- the store as a machine

  /** The store, and every value the write gate has accepted so far. */
  datatype Guard = Guard(store: Store<Guarded>, accepted: set<Value>)

  /** A call with the verdict its gate gave. */
  datatype Call =
    | PutCall(key: string, value: Value, verdict: Option<string>)
    | DeleteCall(key: string)
    | CompactCall(text: string)

  /** A call that ran to its end; one cut by a crash that left `img`, followed by a reopen; or one whose disk operation
      failed and left `img`, after which the process goes on with the index it had. */
  datatype Act = Finish(call: Call) | CrashIn(call: Call, img: Image) | FailIn(call: Call, img: Image)

  /** The disk operation a call comes to: none for a denied Put or the Delete of an unknown key. */
  function OpOf(g: Guard, call: Call): Option<Op> {
    match call
    case PutCall(key, value, verdict) =>
      if verdict.None? then None else Some(Append(LineJson(key, Guarded(value, verdict.value), false)))
    case DeleteCall(key) =>
      if key in g.store.idx then Some(Append(LineJson(key, Guarded(Null, ""), true))) else None
    case CompactCall(text) => Some(Compact(text))
  }

  function Admitted(g: Guard, call: Call): set<Value> {
    if call.PutCall? && call.verdict.Some? then g.accepted + {call.value} else g.accepted
  }

  function StepOf(op: Op, a: Act): Step {
    match a
    case Finish(_) => Do(op)
    case CrashIn(_, img) => Crash(op, img)
    case FailIn(_, img) => Step.Fail(op, img)
  }

  ghost predicate Acts(g: Guard, a: Act, g': Guard) {
    && g'.accepted == Admitted(g, a.call)
    && match OpOf(g, a.call)
       case None => g'.store == g.store
       case Some(op) =>
         Allowed(GUARD, g.store, StepOf(op, a)) && Next(GUARD, g.store, StepOf(op, a)) == Okay(g'.store)
  }

  ghost predicate Run(g: Guard, acts: seq<Act>, states: seq<Guard>) {
    && |states| == |acts| + 1 && states[0] == g
    && forall i | 0 <= i < |acts| :: Acts(states[i], acts[i], states[i + 1])
  }

  // ---------------------------------------------------------------- what is stored was accepted

  ghost predicate AllAccepted(es: seq<Entry<Guarded>>, accepted: set<Value>) {
    forall e | e in es && e.Put? :: e.val.value in accepted
  }

  ghost predicate LineAccepted(v: Value, accepted: set<Value>) {
    GUARD.line(v).Some? && (GUARD.line(v).value.Put? ==> GUARD.line(v).value.val.value in accepted)
  }

  ghost predicate IndexAccepted(idx: Index<Guarded>, accepted: set<Value>) {
    forall k | k in idx :: idx[k].value in accepted
  }

  /** Every value in the index, in the snapshot, on a complete line or in a piece of one was accepted. */
  ghost predicate Gated(g: Guard, body: string, ps: seq<Piece>) {
    var img := g.store.img;
    && Laid(GUARD, img.journal, body, ps) && (forall i | 0 <= i < |ps| :: LineAccepted(ps[i].line, g.accepted))
    && SnapshotEntries(GUARD, img.snapshot).Okay? && AllAccepted(SnapshotEntries(GUARD, img.snapshot).value, g.accepted)
    && (Entries(GUARD, body).Okay? ==> AllAccepted(Entries(GUARD, body).value, g.accepted))
    && IndexAccepted(g.store.idx, g.accepted)
  }

  ghost predicate GateOk(g: Guard) { exists body, ps :: Gated(g, body, ps) }

  lemma {:induction false} FoldAccepted(idx: Index<Guarded>, es: seq<Entry<Guarded>>, accepted: set<Value>)
    requires AllAccepted(es, accepted) && IndexAccepted(idx, accepted)
    ensures IndexAccepted(Fold(idx, es), accepted)
    decreases |es|
  {
    if es != [] { FoldAccepted(Apply(idx, es[0]), es[1..], accepted); }
  }

  /** Opening such a disk, now or later, yields accepted values only. */
  lemma OpensAccepted(g: Guard, body: string, ps: seq<Piece>)
    requires Gated(g, body, ps) && Open(GUARD, g.store.img).Okay?
    ensures IndexAccepted(Open(GUARD, g.store.img).value, g.accepted)
  {
    var img := g.store.img;
    LaidReads(GUARD, img.journal, body, ps);
    OpenIsFold(GUARD, img);
    var es := Entries(GUARD, img.journal).value;
    assert AllAccepted(es, g.accepted) by {
      hide Entries, SnapshotEntries, Laid;
      assert forall e | e in es :: e in Entries(GUARD, body).value || e in Loose(GUARD, ps);
    }
    FoldAccepted(map[], SnapshotEntries(GUARD, img.snapshot).value, g.accepted);
    FoldAccepted(Fold(map[], SnapshotEntries(GUARD, img.snapshot).value), es, g.accepted);
  }

  /** Accepting more values spoils nothing. */
  lemma GatedMore(g: Guard, body: string, ps: seq<Piece>, accepted: set<Value>)
    requires Gated(g, body, ps) && g.accepted <= accepted
    ensures Gated(g.(accepted := accepted), body, ps)
  {
    hide Entries, SnapshotEntries, Laid, LineEntry;
  }

  lemma CallLine(g: Guard, call: Call, line: Value)
    requires OpOf(g, call) == Some(Append(line))
    ensures IsLine(line) && LineAccepted(line, Admitted(g, call))
  {
    if call.PutCall? {
      LineRoundTrip(call.key, Guarded(call.value, call.verdict.value), false);
    } else {
      LineRoundTrip(call.key, Guarded(Null, ""), true);
    }
  }

  /** An append cut at any byte leaves a gated disk, whatever the disk was like before. */
  lemma AppendGated(g: Guard, body: string, ps: seq<Piece>, line: Value, k: nat)
    returns (body': string, ps': seq<Piece>)
    requires Gated(g, body, ps) && IsLine(line) && LineAccepted(line, g.accepted) && k <= |Line(line)|
    ensures Gated(g.(store := g.store.(img := g.store.img.(journal := g.store.img.journal + Line(line)[..k]))), body',
                  ps')
  {
    body', ps' := LaidAppend(GUARD, g.store.img.journal, body, ps, line, k);
    hide Entries, SnapshotEntries, Laid, LineEntry, Text;
  }

  lemma AppendActGated(g: Guard, a: Act, g': Guard, line: Value)
    requires GateOk(g) && Acts(g, a, g') && OpOf(g, a.call) == Some(Append(line))
    ensures GateOk(g')
  {
    CallLine(g, a.call, line);
    var k := |Line(line)|;
    if !a.Finish? { k :| AppendCut(g.store.img, line, k, a.img); } else { assert Line(line)[..k] == Line(line); }
    var body, ps :| Gated(g, body, ps);
    hide Gated, LineAccepted, Open, IsLine, Text;
    GatedMore(g, body, ps, g'.accepted);
    var h := g.(accepted := g'.accepted);
    var body', ps' := AppendGated(h, body, ps, line, k);
    var on := h.(store := h.store.(img := g'.store.img));
    assert Gated(on, body', ps');
    if a.CrashIn? {
      OpensAccepted(on, body', ps');
      NewIndexGated(on, body', ps', g'.store.idx);
    } else if a.Finish? {
      AppliedAccepted(g, line, g'.accepted);
      NewIndexGated(on, body', ps', g'.store.idx);
    }
    assert Gated(g', body', ps');
  }

  lemma NewIndexGated(g: Guard, body: string, ps: seq<Piece>, idx: Index<Guarded>)
    requires Gated(g, body, ps) && IndexAccepted(idx, g.accepted)
    ensures Gated(g.(store := g.store.(idx := idx)), body, ps)
  {
    hide Entries, SnapshotEntries, Laid, LineEntry;
  }

  lemma AppliedAccepted(g: Guard, line: Value, accepted: set<Value>)
    requires GateOk(g) && g.accepted <= accepted && LineAccepted(line, accepted)
    ensures IndexAccepted(Apply(g.store.idx, GUARD.line(line).value), accepted)
  {
    hide Entries, SnapshotEntries, Laid, LineEntry;
  }

  lemma CompactActGated(g: Guard, a: Act, g': Guard, text: string)
    requires GateOk(g) && Acts(g, a, g') && OpOf(g, a.call) == Some(Compact(text))
    ensures GateOk(g')
  {
    var body, ps :| Gated(g, body, ps);
    assert g'.accepted == g.accepted && Restores(GUARD, text, g.store.idx);
    assert AllAccepted(SnapshotEntries(GUARD, Some(text)).value, g.accepted);
    OpenTruncated(GUARD, text, g.store.idx);
    var on := g.(store := g.store.(img := g'.store.img));
    var b, q := if g'.store.img.journal == g.store.img.journal then body
                else [], if g'.store.img.journal == g.store.img.journal then ps else [];
    hide Entries, Open, LineEntry, Laid;
    assert Gated(on, b, q);
    if a.CrashIn? { OpensAccepted(on, b, q); }
    hide SnapshotEntries;
    NewIndexGated(on, b, q, g'.store.idx);
    assert Gated(g', b, q);
  }

  lemma ActGated(g: Guard, a: Act, g': Guard)
    requires GateOk(g) && Acts(g, a, g')
    ensures GateOk(g')
  {
    match OpOf(g, a.call)
    case None =>
      var body, ps :| Gated(g, body, ps);
      GatedMore(g, body, ps, g'.accepted);
    case Some(Append(line)) => AppendActGated(g, a, g', line);
    case Some(Compact(text)) => CompactActGated(g, a, g', text);
  }

  /** In every reachable state, crashes, failed writes and reopens included and whatever the disk is like, every value
      in the index, and every value that any successful open of the disk yields, was accepted by the write gate. */
  lemma {:induction false} RunGated(g: Guard, acts: seq<Act>, states: seq<Guard>, i: nat)
    requires GateOk(g) && Run(g, acts, states) && i < |states|
    ensures GateOk(states[i]) && IndexAccepted(states[i].store.idx, states[i].accepted)
    ensures var disk := Open(GUARD, states[i].store.img); disk.Okay? ==> IndexAccepted(disk.value, states[i].accepted)
    decreases i
  {
    if i > 0 {
      RunGated(g, acts, states, i - 1);
      ActGated(states[i - 1], acts[i - 1], states[i]);
    }
    var body, ps :| Gated(states[i], body, ps);
    if Open(GUARD, states[i].store.img).Okay? { OpensAccepted(states[i], body, ps); }
  }

  // ---------------------------------------------------------------- the index is the replay of the disk

  /** Spoiled after the first `i` acts: a whole line was appended to a journal that was not newline-terminated. */
  ghost predicate SpoiledAt(acts: seq<Act>, states: seq<Guard>, i: nat)
    requires i <= |acts| && |states| == |acts| + 1
  {
    i > 0 && SpoilsNext(states[i - 1], acts[i - 1].call, states[i].store.img, SpoiledAt(acts, states, i - 1))
  }

  function SpoilsNext(g: Guard, call: Call, after: Image, spoiled: bool): bool {
    match OpOf(g, call)
    case None => spoiled
    case Some(op) => Spoils(g.store.img, op, after, spoiled)
  }

  /** Stray after the first `i` acts: an append failed since the last reopen or finished compaction. */
  ghost predicate StrayAt(acts: seq<Act>, states: seq<Guard>, i: nat)
    requires i <= |acts| && |states| == |acts| + 1
  {
    i > 0 && StraysNext(states[i - 1], acts[i - 1], StrayAt(acts, states, i - 1))
  }

  function StraysNext(g: Guard, a: Act, stray: bool): bool {
    match OpOf(g, a.call)
    case None => stray
    case Some(op) => Strays(StepOf(op, a), stray)
  }

  lemma ActKept(g: Guard, a: Act, g': Guard, body: string, ps: seq<Piece>, spoiled: bool, stray: bool)
    returns (body': string, ps': seq<Piece>)
    requires Kept(GUARD, g.store, body, ps, spoiled) && Acts(g, a, g')
    requires !spoiled && !stray ==> Consistent(GUARD, g.store)
    ensures Kept(GUARD, g'.store, body', ps', SpoilsNext(g, a.call, g'.store.img, spoiled))
    ensures !SpoilsNext(g, a.call, g'.store.img, spoiled) && !StraysNext(g, a, stray) ==> Consistent(GUARD, g'.store)
  {
    hide Kept, Spoils, Strays, Consistent;
    match OpOf(g, a.call)
    case None => body', ps' := body, ps;
    case Some(op) =>
      var step := StepOf(op, a);
      body', ps' := StepKept(GUARD, g.store, body, ps, spoiled, step);
      if !Spoils(g.store.img, op, g'.store.img, spoiled) && !Strays(step, stray) {
        StepHolds(GUARD, g.store, body, ps, spoiled, step, stray);
      }
  }

  lemma {:induction false} RunKeeps(g: Guard, acts: seq<Act>, states: seq<Guard>, i: nat)
    returns (body: string, ps: seq<Piece>)
    requires Consistent(GUARD, g.store) && Terminated(g.store.img.journal) && Run(g, acts, states) && i <= |acts|
    ensures Kept(GUARD, states[i].store, body, ps, SpoiledAt(acts, states, i))
    ensures !SpoiledAt(acts, states, i) && !StrayAt(acts, states, i) ==> Consistent(GUARD, states[i].store)
    decreases i
  {
    hide Kept, SpoilsNext, StraysNext, Consistent, Acts;
    if i == 0 {
      StartKept(GUARD, g.store);
      body, ps := g.store.img.journal, [];
    } else {
      body, ps := RunKeeps(g, acts, states, i - 1);
      var spoiled, stray := SpoiledAt(acts, states, i - 1), StrayAt(acts, states, i - 1);
      body, ps := ActKept(states[i - 1], acts[i - 1], states[i], body, ps, spoiled, stray);
    }
  }

  /** In every state of every run, failed writes included, the disk does not reopen when, and only when, a line was
      appended to a torn journal since it was last emptied; otherwise it reopens to exactly the index, unless an append
      failed since the last reopen or finished compaction. */
  lemma RunSound(g: Guard, acts: seq<Act>, states: seq<Guard>, i: nat)
    requires Consistent(GUARD, g.store) && Terminated(g.store.img.journal) && Run(g, acts, states) && i < |states|
    ensures Open(GUARD, states[i].store.img).Corrupt? <==> SpoiledAt(acts, states, i)
    ensures !SpoiledAt(acts, states, i) && !StrayAt(acts, states, i) ==>
              Open(GUARD, states[i].store.img) == Okay(states[i].store.idx)
  {
    var body, ps := RunKeeps(g, acts, states, i);
    hide SpoiledAt, StrayAt, Run;
    ReadableIff(GUARD, states[i].store.img, body, ps);
  }

  /** After an accepted Put, or a Delete, that ran to its end on a disk in step with the index, torn or not, the disk
      reopens to the new index exactly when the journal was newline-terminated. */
  lemma FinishReopensIff(g: Guard, call: Call, line: Value, g': Guard)
    requires InStep(g) && OpOf(g, call) == Some(Append(line)) && Acts(g, Finish(call), g')
    ensures Open(GUARD, g'.store.img) == Okay(g'.store.idx) <==> Terminated(g.store.img.journal)
  {
    var body, ps :| Kept(GUARD, g.store, body, ps, false);
    var body', ps' := ActKept(g, Finish(call), g', body, ps, false, false);
    assert |g.store.img.journal + Line(line)| > 0;
    hide Entries, Text, Traced;
    ReadableIff(GUARD, g'.store.img, body', ps');
  }

  /** The disk was left by writes, cut short or not, and reopens to the index. */
  ghost predicate InStep(g: Guard) {
    Consistent(GUARD, g.store) && exists body, ps :: Kept(GUARD, g.store, body, ps, false)
  }

  // ---------------------------------------------------------------- the store as an object

  /** Whatever an open of `img` yields was accepted. */
  ghost predicate Safe(img: Image, accepted: set<Value>) {
    Open(GUARD, img).Okay? ==> IndexAccepted(Open(GUARD, img).value, accepted)
  }

  class DurableStore {
    const disk: Disk
    var index: Index<Guarded>
    ghost var accepted: set<Value>

    ghost function State(): Guard reads this, disk { Guard(Store(disk.Now(), index), accepted) }

    constructor (disk: Disk, index: Index<Guarded>, ghost accepted: set<Value>)
      ensures this.disk == disk && this.index == index && this.accepted == accepted
    {
      this.disk, this.index, this.accepted := disk, index, accepted;
    }

    /** NewDurableStore: fails exactly when the files do not read. */
    static method OpenStore(disk: Disk, ghost accepted: set<Value>) returns (r: Result<DurableStore>)
      ensures r.Okay? <==> Open(GUARD, disk.Now()).Okay?
      ensures r.Okay? ==> fresh(r.value) && r.value.disk == disk && r.value.accepted == accepted
      ensures r.Okay? ==> Consistent(GUARD, r.value.State().store)
    {
      OpenIsFold(GUARD, disk.Now());
      var base := LoadSnapshot(GUARD, disk.snapshot);
      if base.Corrupt? { return Corrupt; }
      var idx := Replay(GUARD, disk.journal, base.value);
      if idx.Corrupt? { return Corrupt; }
      var store := new DurableStore(disk, idx.value, accepted);
      r := Okay(store);
    }

    /** The append behind Put and Delete. It is an act of the machine whether it succeeds or fails; every image on the
        way yields accepted values only; and on success the disk reopens to the index exactly when it was not torn. */
    method Write(ghost call: Call, line: Value, entry: Entry<Guarded>, stop: nat) returns (ok: bool)
      requires OpOf(State(), call) == Some(Append(line)) && GUARD.line(line) == Some(entry) && !call.CompactCall?
      requires accepted == Admitted(State(), call)
      modifies this, disk
      ensures ok <==> stop > |Line(line)|
      ensures accepted == old(accepted) && index == if ok then Apply(old(index), entry) else old(index)
      ensures ok ==> Acts(old(State()), Finish(call), State())
      ensures !ok ==> Acts(old(State()), FailIn(call, disk.Now()), State())
      ensures old(GateOk(State())) ==>
                GateOk(State()) && forall img | img in disk.seen && img !in old(disk.seen) :: Safe(img, accepted)
      ensures ok && old(InStep(State())) ==> (Open(GUARD, disk.Now()) == Okay(index) <==> old(Terminated(disk.journal)))
      ensures old(Consistent(GUARD, State().store) && Terminated(disk.journal)) ==>
                forall img | img in disk.seen && img !in old(disk.seen) ::
                  Open(GUARD, img) == Okay(old(index)) || Open(GUARD, img) == Okay(Apply(old(index), entry))
    {
      ghost var g := State();
      CallLine(g, call, line);
      ok := disk.AppendJournal(Line(line), stop);
      if ok { index := Apply(index, entry); }
      ghost var img := disk.Now();
      assert Line(line)[..|Line(line)|] == Line(line);
      assert AppendCut(g.store.img, line, if ok then |Line(line)| else stop, img);
      if ok {
        assert Acts(g, Finish(call), State());
        if InStep(g) { FinishReopensIff(g, call, line, State()); }
        if GateOk(g) { ActGated(g, Finish(call), State()); }
      } else {
        assert Acts(g, FailIn(call, img), State());
        if GateOk(g) { ActGated(g, FailIn(call, img), State()); }
      }
      ImagesSafe(g, call, line);
    }

    /** Put: the gate first. A denial leaves index and disk as they were, on every image. */
    method Put(key: string, value: Value, verdict: Option<string>, stop: nat) returns (ok: bool)
      modifies this, disk
      ensures verdict.None? ==> !ok && State() == old(State()) && disk.seen == old(disk.seen)
      ensures verdict.Some? ==>
                && (ok <==> stop > |Line(LineJson(key, Guarded(value, verdict.value), false))|)
                && accepted == old(accepted) + {value}
      ensures ok ==> verdict.Some? && index == old(index)[key := Guarded(value, verdict.value)]
      ensures !ok ==> index == old(index)
      ensures ok ==> Acts(old(State()), Finish(PutCall(key, value, verdict)), State())
      ensures !ok ==> Acts(old(State()), FailIn(PutCall(key, value, verdict), disk.Now()), State())
      ensures old(GateOk(State())) ==>
                GateOk(State()) && forall img | img in disk.seen && img !in old(disk.seen) :: Safe(img, accepted)
      ensures ok && old(InStep(State())) ==> (Open(GUARD, disk.Now()) == Okay(index) <==> old(Terminated(disk.journal)))
      ensures verdict.Some? && old(Consistent(GUARD, State().store) && Terminated(disk.journal)) ==>
                forall img | img in disk.seen && img !in old(disk.seen) ::
                  Open(GUARD, img) == Okay(old(index))
                  || Open(GUARD, img) == Okay(old(index)[key := Guarded(value, verdict.value)])
    {
      hide Open, Consistent, Text, Gated, Kept;
      if verdict.None? { return false; }
      ghost var g, call := State(), PutCall(key, value, verdict);
      accepted := accepted + {value};
      if GateOk(g) {
        ghost var body, ps :| Gated(g, body, ps);
        GatedMore(g, body, ps, accepted);
      }
      var line := LineJson(key, Guarded(value, verdict.value), false);
      LineRoundTrip(key, Guarded(value, verdict.value), false);
      ok := Write(call, line, Entry.Put(key, Guarded(value, verdict.value)), stop);
    }

    /** Get: an unknown key asks no gate; a known one is returned only when the read gate allows it now. */
    method Get(key: string, allowed: bool) returns (value: Option<Value>, asked: bool)
      ensures asked <==> key in index
      ensures value.Some? <==> key in index && allowed
      ensures value.Some? ==> value.value == index[key].value
      ensures value.Some? && IndexAccepted(index, accepted) ==> value.value in accepted
    {
      if key !in index { return None, false; }
      if !allowed { return None, true; }
      return Some(index[key].value), true;
    }

    /** Delete: the entry goes, durably, whatever the tamper check says; only then is the tamper signal returned. */
    method Delete(key: string, tampered: bool, stop: nat) returns (ok: bool)
      modifies this, disk
      ensures old(key !in index) ==> ok && State() == old(State()) && disk.seen == old(disk.seen)
      ensures old(key !in index) ==> Acts(old(State()), Finish(DeleteCall(key)), State())
      ensures old(key in index) ==>
                var written := stop > |Line(LineJson(key, Guarded(Null, ""), true))|;
                && ok == (written && !tampered) && index == (if written then old(index) - {key} else old(index))
                && Acts(old(State()), if written then Finish(DeleteCall(key)) else FailIn(DeleteCall(key), disk.Now()),
                        State())
                && (written && old(InStep(State())) ==>
                      (Open(GUARD, disk.Now()) == Okay(index) <==> old(Terminated(disk.journal))))
      ensures old(GateOk(State())) ==>
                GateOk(State()) && forall img | img in disk.seen && img !in old(disk.seen) :: Safe(img, accepted)
      ensures old(Consistent(GUARD, State().store) && Terminated(disk.journal)) ==>
                forall img | img in disk.seen && img !in old(disk.seen) ::
                  Open(GUARD, img) == Okay(old(index)) || Open(GUARD, img) == Okay(old(index) - {key})
    {
      hide Open, Consistent, Text, Gated, Kept;
      if key !in index { return true; }
      var line := LineJson(key, Guarded(Null, ""), true);
      LineRoundTrip(key, Guarded(Null, ""), true);
      var written := Write(DeleteCall(key), line, Entry.Drop(key), stop);
      if !written { return false; }
      ok := !tampered;
    }

    /** Compact never changes what a reopen yields, whichever disk step fails; when it succeeds the disk reopens to the
        index whatever was on it before. */
    method Compact(fault: CompactFault) returns (ok: bool)
      modifies disk
      ensures ok <==> fault.NoFault?
      ensures ok ==> disk.journal == [] && Open(GUARD, disk.Now()) == Okay(index)
      ensures exists text ::
                Acts(old(State()), if ok then Finish(CompactCall(text)) else FailIn(CompactCall(text), disk.Now()),
                     State())
      ensures fault.WriteFails? || fault.RenameFails? ==>
                disk.journal == old(disk.journal) && disk.snapshot == old(disk.snapshot)
      ensures old(Consistent(GUARD, State().store)) ==>
                forall img | img in disk.seen && img !in old(disk.seen) :: Open(GUARD, img) == Okay(index)
      ensures old(GateOk(State())) ==>
                GateOk(State()) && forall img | img in disk.seen && img !in old(disk.seen) :: Safe(img, accepted)
    {
      var text := WriteSnapshot(GUARD, EntryJson, index);
      ghost var g := State();
      OpenTruncated(GUARD, text, index);
      CompactSafe(g, text);
      hide Open, Consistent, Entries, SnapshotEntries, Gated;
      ok := disk.Compact(text, fault);
      assert Acts(g, if ok then Finish(CompactCall(text)) else FailIn(CompactCall(text), disk.Now()), State());
    }
  }

  lemma CompactSafe(g: Guard, text: string)
    requires Restores(GUARD, text, g.store.idx)
    ensures forall img | Visible(g.store.img, Op.Compact(text), img) ::
              && (Consistent(GUARD, g.store) ==> Open(GUARD, img) == Okay(g.store.idx))
              && (GateOk(g) ==> GateOk(g.(store := Store(img, g.store.idx))) && Safe(img, g.accepted))
  {
    hide Open, Restores;
    forall img | Visible(g.store.img, Op.Compact(text), img)
      ensures Consistent(GUARD, g.store) ==> Open(GUARD, img) == Okay(g.store.idx)
      ensures GateOk(g) ==> GateOk(g.(store := Store(img, g.store.idx))) && Safe(img, g.accepted)
    {
      if Consistent(GUARD, g.store) { CrashRecovers(GUARD, g.store, Op.Compact(text), img); }
      var h := g.(store := Store(img, g.store.idx));
      if GateOk(g) {
        ActGated(g, FailIn(CompactCall(text), img), h);
        var body, ps :| Gated(h, body, ps);
        hide Gated;
        if Open(GUARD, img).Okay? { OpensAccepted(h, body, ps); }
      }
    }
  }

  /** At every byte of the append the disk yields accepted values only, and on a disk in step that is not torn it
      yields the index before or after. */
  lemma ImagesSafe(g: Guard, call: Call, line: Value)
    requires OpOf(g, call) == Some(Append(line)) && g.accepted == Admitted(g, call)
    ensures forall k | 0 <= k <= |Line(line)| ::
              var img := g.store.img.(journal := g.store.img.journal + Line(line)[..k]);
              && (GateOk(g) ==> Safe(img, g.accepted))
              && (Consistent(GUARD, g.store) && Terminated(g.store.img.journal) ==>
                    GUARD.line(line).Some? &&
                    (Open(GUARD, img) == Okay(g.store.idx)
                     || Open(GUARD, img) == Okay(Apply(g.store.idx, GUARD.line(line).value))))
  {
    CallLine(g, call, line);
    hide Open, Text, LineEntry, IsLine;
    forall k | 0 <= k <= |Line(line)|
      ensures var img := g.store.img.(journal := g.store.img.journal + Line(line)[..k]);
              && (GateOk(g) ==> Safe(img, g.accepted))
              && (Consistent(GUARD, g.store) && Terminated(g.store.img.journal) ==>
                    Open(GUARD, img) == Okay(g.store.idx)
                    || Open(GUARD, img) == Okay(Apply(g.store.idx, GUARD.line(line).value)))
    {
      var img := g.store.img.(journal := g.store.img.journal + Line(line)[..k]);
      assert AppendCut(g.store.img, line, k, img);
      var h := g.(store := Store(img, g.store.idx));
      if GateOk(g) {
        ActGated(g, FailIn(call, img), h);
        var body, ps :| Gated(h, body, ps);
        hide Gated;
        if Open(GUARD, img).Okay? { OpensAccepted(h, body, ps); }
      }
      if Consistent(GUARD, g.store) && Terminated(g.store.img.journal) {
        CrashRecovers(GUARD, g.store, Append(line), img);
      }
    }
  }
}
