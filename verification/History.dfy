/** Whole histories of a journal: operations, failed writes, crashes at any instant and reopens, whatever state the disk
    is in. */
module History {
  import opened Json
  import opened Journal

  /** An operation that runs to its end; one cut short by a crash that left `img`, followed by a reopen; or one that
      failed and left `img`, after which the process goes on with the index it had. */
  datatype Step = Do(op: Op) | Crash(op: Op, img: Image) | Fail(op: Op, img: Image)

  ghost predicate Allowed<V>(c: Schema<V>, s: Store<V>, step: Step) {
    ValidOp(c, s, step.op) && (!step.Do? ==> Visible(s.img, step.op, step.img))
  }

  /** A reopen that fails ends the history: the store does not start. */
  function Next<V(==)>(c: Schema<V>, s: Store<V>, step: Step): Result<Store<V>>
    requires ValidOp(c, s, step.op)
  {
    match step
    case Do(op) => Okay(After(c, s, op))
    case Fail(_, img) => Okay(Store(img, s.idx))
    case Crash(_, img) =>
      match Open(c, img)
      case Corrupt => Corrupt
      case Okay(idx) => Okay(Store(img, idx))
  }

  ghost predicate Runs<V>(c: Schema<V>, s: Store<V>, steps: seq<Step>, end: Store<V>)
    decreases |steps|
  {
    if steps == [] then s == end
    else
      && Allowed(c, s, steps[0])
      && Next(c, s, steps[0]).Okay?
      && Runs(c, Next(c, s, steps[0]).value, steps[1..], end)
  }

  function EndImage<V(==)>(c: Schema<V>, s: Store<V>, step: Step): Image
    requires ValidOp(c, s, step.op)
  {
    if step.Do? then After(c, s, step.op).img else step.img
  }

  // ---------------------------------------------------------------- what is on disk

  /** The index of the complete lines: what is left when the pieces behind them are lost. */
  ghost function Durable<V>(c: Schema<V>, img: Image, body: string): Index<V> {
    if SnapshotEntries(c, img.snapshot).Okay? && Entries(c, body).Okay?
    then Fold(Fold(map[], SnapshotEntries(c, img.snapshot).value), Entries(c, body).value) else map[]
  }

  ghost predicate Readable<V>(c: Schema<V>, img: Image, body: string, ps: seq<Piece>) {
    Laid(c, img.journal, body, ps) && SnapshotEntries(c, img.snapshot).Okay? && Entries(c, body).Okay?
  }

  lemma OpenIsDurable<V>(c: Schema<V>, img: Image, body: string, ps: seq<Piece>)
    requires Readable(c, img, body, ps)
    ensures Open(c, img) == Okay(Fold(Durable(c, img, body), Loose(c, ps)))
  {
    LaidReads(c, img.journal, body, ps);
    OpenIsFold(c, img);
    FoldConcat(Fold(map[], SnapshotEntries(c, img.snapshot).value), Entries(c, body).value, Loose(c, ps));
  }

  lemma ReadableIff<V>(c: Schema<V>, img: Image, body: string, ps: seq<Piece>)
    requires Laid(c, img.journal, body, ps) && SnapshotEntries(c, img.snapshot).Okay?
    ensures Open(c, img).Corrupt? <==> Entries(c, body).Corrupt?
  {
    LaidReads(c, img.journal, body, ps);
    OpenIsFold(c, img);
  }

  /** The two indexes agree on every key the entries leave alone. */
  ghost predicate Near<V>(a: Index<V>, b: Index<V>, es: seq<Entry<V>>) {
    forall k | k !in (set e | e in es :: e.key) :: (k in a <==> k in b) && (k in a ==> a[k] == b[k])
  }

  lemma NearFold<V>(base: Index<V>, es: seq<Entry<V>>)
    ensures Near(Fold(base, es), base, es)
  {
    forall k | k !in (set e | e in es :: e.key)
      ensures (k in Fold(base, es) <==> k in base) && (k in base ==> Fold(base, es)[k] == base[k])
    {
      forall e | e in es ensures e.key != k { assert e.key in (set e | e in es :: e.key); }
      FoldKeeps(base, es, k);
    }
  }

  lemma NearMore<V>(a: Index<V>, b: Index<V>, es: seq<Entry<V>>, x: Entry<V>)
    requires Near(a, b, es)
    ensures Near(a, b, es + [x]) && Near(Apply(a, x), b, es + [x])
  {
    assert (set e | e in es + [x] :: e.key) == (set e | e in es :: e.key) + {x.key};
  }

  /** Where the index stands to the disk: it differs from the snapshot only on keys of the complete lines, or it is what
      a reopen made of them with a whole line that lacked its newline. */
  ghost predicate Traced<V>(c: Schema<V>, s: Store<V>, body: string, ps: seq<Piece>) {
    SnapshotEntries(c, s.img.snapshot).Okay? && Entries(c, body).Okay? ==>
      || Near(s.idx, Fold(map[], SnapshotEntries(c, s.img.snapshot).value), Entries(c, body).value)
      || Stems(c, s, body, ps)
  }

  ghost predicate Stems<V>(c: Schema<V>, s: Store<V>, body: string, ps: seq<Piece>) {
    && ps != [] && ps[0].k == |Text(ps[0].line)| && c.line(ps[0].line).Some?
    && s.idx == Apply(Durable(c, s.img, body), c.line(ps[0].line).value)
  }

  lemma ReopenTraced<V>(c: Schema<V>, img: Image, body: string, ps: seq<Piece>)
    requires Readable(c, img, body, ps)
    ensures Open(c, img).Okay? && Traced(c, Store(img, Open(c, img).value), body, ps)
  {
    OpenIsDurable(c, img, body, ps);
    NearFold(Fold(map[], SnapshotEntries(c, img.snapshot).value), Entries(c, body).value);
    hide Entries, SnapshotEntries, Open, Laid, Near, Text;
    if Loose(c, ps) != [] {
      assert Fold(Durable(c, img, body), Loose(c, ps)) == Apply(Durable(c, img, body), c.line(ps[0].line).value);
    }
  }

  // ---------------------------------------------------------------- when the disk stops reopening

  /** The journal is spoiled once a whole line was appended to it while it was not newline-terminated, until it is
      emptied again. */
  predicate Spoils(before: Image, op: Op, after: Image, spoiled: bool) {
    && after.journal != []
    && (spoiled || (op.Append? && !Terminated(before.journal) && after.journal == before.journal + Line(op.line)))
  }

  /** Spoiled after the steps, by what was on disk before and after each of them. */
  ghost predicate Spoiled<V>(c: Schema<V>, s: Store<V>, steps: seq<Step>, spoiled: bool)
    decreases |steps|
  {
    if steps == [] || !ValidOp(c, s, steps[0].op) || Next(c, s, steps[0]).Corrupt? then spoiled
    else
      var now := Spoils(s.img, steps[0].op, EndImage(c, s, steps[0]), spoiled);
      Spoiled(c, Next(c, s, steps[0]).value, steps[1..], now)
  }

  /** The store with its journal laid out; unless the journal is spoiled, the index is traced to the disk. */
  ghost predicate Kept<V>(c: Schema<V>, s: Store<V>, body: string, ps: seq<Piece>, spoiled: bool) {
    && Laid(c, s.img.journal, body, ps) && SnapshotEntries(c, s.img.snapshot).Okay?
    && (Entries(c, body).Corrupt? <==> spoiled) && Traced(c, s, body, ps)
  }

  /** How `k` bytes of a line change the layout. */
  ghost predicate Grows<V>(c: Schema<V>, body: string, ps: seq<Piece>, line: Value, k: int,
                           body': string, ps': seq<Piece>)
  {
    && c.line(line).Some? && 0 <= k <= |Line(line)|
    && (k < |Line(line)| ==> body' == body && ps' == if k == 0 then ps else ps + [Piece(line, k)])
    && (k == |Line(line)| ==>
          && ps' == []
          && Entries(c, body') == if ps == [] then Join(Entries(c, body), Okay([c.line(line).value])) else Corrupt)
  }

  lemma AppendLaid<V>(c: Schema<V>, s: Store<V>, body: string, ps: seq<Piece>, spoiled: bool, line: Value, k: nat)
    returns (body': string, ps': seq<Piece>)
    requires Kept(c, s, body, ps, spoiled) && IsLine(line) && c.line(line).Some? && k <= |Line(line)|
    ensures Grows(c, body, ps, line, k, body', ps')
    ensures var img := s.img.(journal := s.img.journal + Line(line)[..k]);
            && Laid(c, img.journal, body', ps')
            && (Entries(c, body').Corrupt? <==> Spoils(s.img, Append(line), img, spoiled))
  {
    body', ps' := LaidAppend(c, s.img.journal, body, ps, line, k);
    LaidReads(c, s.img.journal, body, ps);
    assert Entries(c, []) == Okay([]);
    hide Entries, Glue, Text, Traced;
    var t := s.img.journal;
    if k == |Line(line)| {
      assert Line(line)[..k] == Line(line);
    } else {
      assert |t + Line(line)[..k]| < |t + Line(line)|;
      if spoiled { assert body != [] && t + Line(line)[..k] != []; }
    }
  }

  /** A finished or a failed append keeps the index traced. */
  lemma AppendTraced<V>(c: Schema<V>, s: Store<V>, body: string, ps: seq<Piece>, line: Value, k: nat,
                        t: Store<V>, body': string, ps': seq<Piece>)
    requires Traced(c, s, body, ps) && Grows(c, body, ps, line, k, body', ps') && t.img.snapshot == s.img.snapshot
    requires t.idx == s.idx || (k == |Line(line)| && t.idx == Apply(s.idx, c.line(line).value))
    ensures Traced(c, t, body', ps')
  {
    hide Entries, SnapshotEntries, Text, Near;
    if SnapshotEntries(c, s.img.snapshot).Okay? && Entries(c, body').Okay? && k == |Line(line)| {
      var base := Fold(map[], SnapshotEntries(c, s.img.snapshot).value);
      NearMore(s.idx, base, Entries(c, body).value, c.line(line).value);
    }
  }

  lemma AppendStep<V>(c: Schema<V>, s: Store<V>, body: string, ps: seq<Piece>, spoiled: bool, step: Step)
    returns (body': string, ps': seq<Piece>, k: nat)
    requires Kept(c, s, body, ps, spoiled) && Allowed(c, s, step) && step.op.Append?
    ensures Grows(c, body, ps, step.op.line, k, body', ps') && (step.Do? ==> k == |Line(step.op.line)|)
    ensures EndImage(c, s, step) == s.img.(journal := s.img.journal + Line(step.op.line)[..k])
    ensures var now := Spoils(s.img, step.op, EndImage(c, s, step), spoiled);
            && (Next(c, s, step).Corrupt? <==> step.Crash? && now)
            && (Next(c, s, step).Okay? ==> Kept(c, Next(c, s, step).value, body', ps', now))
  {
    var line := step.op.line;
    k := |Line(line)|;
    if !step.Do? { k :| AppendCut(s.img, line, k, step.img); } else { assert Line(line)[..k] == Line(line); }
    body', ps' := AppendLaid(c, s, body, ps, spoiled, line, k);
    var img := EndImage(c, s, step);
    ReadableIff(c, img, body', ps');
    if step.Crash? {
      if Open(c, img).Okay? { ReopenTraced(c, img, body', ps'); }
    } else {
      AppendTraced(c, s, body, ps, line, k, Next(c, s, step).value, body', ps');
    }
    hide Entries, Open, Text, Laid, Traced;
  }

  lemma OpenTruncated<V>(c: Schema<V>, text: string, idx: Index<V>)
    requires Restores(c, text, idx)
    ensures Open(c, Image([], Some(text), None)) == Okay(idx)
    ensures Laid(c, [], [], []) && Entries(c, []) == Okay([])
  {
    OpenIsFold(c, Image([], Some(text), None));
    EmptyGlue();
  }

  /** After a compaction that did not crash the index is traced, whichever image it left. */
  lemma CompactTraced<V>(c: Schema<V>, s: Store<V>, body: string, ps: seq<Piece>, text: string, img: Image)
    requires Traced(c, s, body, ps) && Restores(c, text, s.idx)
    ensures img.snapshot == s.img.snapshot ==> Traced(c, Store(img, s.idx), body, ps)
    ensures img.snapshot == Some(text) ==> forall b, q :: Traced(c, Store(img, s.idx), b, q)
  {
    hide Entries;
  }

  lemma CompactStep<V>(c: Schema<V>, s: Store<V>, body: string, ps: seq<Piece>, spoiled: bool, step: Step)
    returns (body': string, ps': seq<Piece>)
    requires Kept(c, s, body, ps, spoiled) && Allowed(c, s, step) && step.op.Compact?
    ensures var now := Spoils(s.img, step.op, EndImage(c, s, step), spoiled);
            && (Next(c, s, step).Corrupt? <==> step.Crash? && now)
            && (Next(c, s, step).Okay? ==> Kept(c, Next(c, s, step).value, body', ps', now))
    ensures var cut := EndImage(c, s, step).journal == [];
            body' == (if cut then [] else body) && ps' == (if cut then [] else ps)
  {
    hide Entries, Open, Laid, Text, Traced, Glue;
    OpenTruncated(c, step.op.text, s.idx);
    var img := EndImage(c, s, step);
    LaidReads(c, s.img.journal, body, ps);
    EmptyLaid(c, s.img.journal, body, ps);
    if img.journal == [] { body', ps' := [], []; } else { body', ps' := body, ps; }
    ReadableIff(c, img, body', ps');
    CompactTraced(c, s, body, ps, step.op.text, img);
    if step.Crash? && Open(c, img).Okay? { ReopenTraced(c, img, body', ps'); }
  }

  lemma EmptyLaid<V>(c: Schema<V>, t: string, body: string, ps: seq<Piece>)
    requires Laid(c, t, body, ps)
    ensures t == [] ==> body == [] && ps == []
  {
    GlueIsTail(ps);
    hide Glue, Read, ReadString;
  }

  lemma StepKept<V>(c: Schema<V>, s: Store<V>, body: string, ps: seq<Piece>, spoiled: bool, step: Step)
    returns (body': string, ps': seq<Piece>)
    requires Kept(c, s, body, ps, spoiled) && Allowed(c, s, step)
    ensures var now := Spoils(s.img, step.op, EndImage(c, s, step), spoiled);
            && (Next(c, s, step).Corrupt? <==> step.Crash? && now)
            && (Next(c, s, step).Okay? ==> Kept(c, Next(c, s, step).value, body', ps', now))
  {
    if step.op.Append? {
      var k;
      body', ps', k := AppendStep(c, s, body, ps, spoiled, step);
    } else {
      body', ps' := CompactStep(c, s, body, ps, spoiled, step);
    }
  }

  lemma {:induction false} RunKept<V>(c: Schema<V>, s: Store<V>, body: string, ps: seq<Piece>, spoiled: bool,
                                      steps: seq<Step>, end: Store<V>)
    returns (body': string, ps': seq<Piece>)
    requires Kept(c, s, body, ps, spoiled) && Runs(c, s, steps, end)
    ensures Kept(c, end, body', ps', Spoiled(c, s, steps, spoiled))
    decreases |steps|
  {
    hide Kept, Next, Spoils;
    if steps == [] {
      body', ps' := body, ps;
    } else {
      var b, q := StepKept(c, s, body, ps, spoiled, steps[0]);
      var now := Spoils(s.img, steps[0].op, EndImage(c, s, steps[0]), spoiled);
      body', ps' := RunKept(c, Next(c, s, steps[0]).value, b, q, now, steps[1..], end);
    }
  }

  lemma StartKept<V>(c: Schema<V>, s: Store<V>)
    requires Consistent(c, s) && Terminated(s.img.journal)
    ensures Kept(c, s, s.img.journal, [], false)
  {
    EmptyGlue();
    assert s.img.journal + [] == s.img.journal;
    OpenIsFold(c, s.img);
    ReopenTraced(c, s.img, s.img.journal, []);
  }

  // ---------------------------------------------------------------- when the disk holds the index

  /** A failed append may leave more on disk than the index holds, until a reopen or a finished compaction. */
  predicate Strays(step: Step, stray: bool) {
    match step
    case Do(op) => stray && !op.Compact?
    case Fail(op, _) => stray || op.Append?
    case Crash(_, _) => false
  }

  predicate Stray(steps: seq<Step>, stray: bool)
    decreases |steps|
  {
    if steps == [] then stray else Stray(steps[1..], Strays(steps[0], stray))
  }

  /** Unless it strays, a disk that reopens goes on reopening to the index. */
  lemma StepHolds<V>(c: Schema<V>, s: Store<V>, body: string, ps: seq<Piece>, spoiled: bool, step: Step, stray: bool)
    requires Kept(c, s, body, ps, spoiled) && Allowed(c, s, step) && Next(c, s, step).Okay?
    requires !spoiled && !stray ==> Consistent(c, s)
    requires !Spoils(s.img, step.op, EndImage(c, s, step), spoiled) && !Strays(step, stray)
    ensures Consistent(c, Next(c, s, step).value)
  {
    LaidReads(c, s.img.journal, body, ps);
    assert Entries(c, []) == Okay([]);
    match step
    case Do(Append(line)) =>
      hide Entries, Open, Text;
      assert !spoiled && Terminated(s.img.journal);
      OpenAppended(c, s, line, |Line(line)|);
      assert Line(line)[..|Line(line)|] == Line(line);
    case Do(Compact(text)) => OpenTruncated(c, text, s.idx);
    case Fail(Append(_), _) =>
    case Fail(Compact(text), img) =>
      OpenTruncated(c, text, s.idx);
      if img != Image([], Some(text), None) { CrashRecovers(c, s, step.op, img); }
    case Crash(_, _) =>
  }

  lemma {:induction false} RunHolds<V>(c: Schema<V>, s: Store<V>, body: string, ps: seq<Piece>, spoiled: bool,
                                       steps: seq<Step>, end: Store<V>, stray: bool)
    requires Kept(c, s, body, ps, spoiled) && Runs(c, s, steps, end)
    requires !spoiled && !stray ==> Consistent(c, s)
    ensures !Spoiled(c, s, steps, spoiled) && !Stray(steps, stray) ==> Consistent(c, end)
    decreases |steps|
  {
    hide Kept, Next, Spoils, Consistent, Strays;
    if steps != [] {
      var b, q := StepKept(c, s, body, ps, spoiled, steps[0]);
      var now := Spoils(s.img, steps[0].op, EndImage(c, s, steps[0]), spoiled);
      if !now && !Strays(steps[0], stray) { StepHolds(c, s, body, ps, spoiled, steps[0], stray); }
      RunHolds(c, Next(c, s, steps[0]).value, b, q, now, steps[1..], end, Strays(steps[0], stray));
    }
  }

  /** After any history of appends, compactions, failed writes, crashes and reopens the disk reopens exactly when no
      whole line was appended to a journal that was not newline-terminated since it was last emptied; and then to the
      index in memory, unless an append failed since the last reopen or finished compaction. */
  lemma RunReopensIff<V>(c: Schema<V>, s: Store<V>, steps: seq<Step>, end: Store<V>)
    requires Consistent(c, s) && Terminated(s.img.journal) && Runs(c, s, steps, end)
    ensures Open(c, end.img).Corrupt? <==> Spoiled(c, s, steps, false)
    ensures !Spoiled(c, s, steps, false) && !Stray(steps, false) ==> Open(c, end.img) == Okay(end.idx)
  {
    StartKept(c, s);
    RunHolds(c, s, s.img.journal, [], false, steps, end, false);
    hide Runs, Spoiled, Stray;
    var body, ps := RunKept(c, s, s.img.journal, [], false, steps, end);
    ReadableIff(c, end.img, body, ps);
  }

  // ---------------------------------------------------------------- what the index is

  /** What is on disk comes to light: at the end, with `shown`, or by a crash on the way. */
  predicate Surfaces(steps: seq<Step>, shown: bool) { shown || exists step :: step in steps && step.Crash? }

  /** An append that may or may not take effect: in flight at a crash, or failed and later brought to light. */
  predicate MayShow(steps: seq<Step>, shown: bool)
    requires steps != []
  {
    steps[0].Crash? || (steps[0].Fail? && Surfaces(steps[1..], shown))
  }

  /** The map-level reading of a history: completed appends take effect in order, an append in flight at a crash takes
      effect or not, and so does a failed one if the disk comes to light after it, which otherwise takes none;
      compactions never show. */
  ghost predicate Explains<V>(c: Schema<V>, before: Index<V>, steps: seq<Step>, now: Index<V>, shown: bool)
    decreases |steps|
  {
    if steps == [] then now == before
    else match steps[0].op
      case Compact(_) => Explains(c, before, steps[1..], now, shown)
      case Append(line) =>
        && c.line(line).Some?
        && (|| ((steps[0].Do? || MayShow(steps, shown))
                && Explains(c, Apply(before, c.line(line).value), steps[1..], now, shown))
            || (!steps[0].Do? && Explains(c, before, steps[1..], now, shown)))
  }

  /** After an append on disk: the entry was added, or nothing changed, or only the complete lines are left. */
  lemma AppendMeans<V>(c: Schema<V>, img: Image, body: string, ps: seq<Piece>, line: Value, k: nat,
                       img': Image, body': string, ps': seq<Piece>)
    requires Readable(c, img, body, ps) && Readable(c, img', body', ps') && Grows(c, body, ps, line, k, body', ps')
    requires img'.snapshot == img.snapshot
    ensures Open(c, img).Okay? && Open(c, img').Okay?
    ensures var d, disk := Durable(c, img, body), Open(c, img).value;
            var more := Apply(disk, c.line(line).value);
            && Open(c, img').value in {disk, more, d} && Durable(c, img', body') in {disk, more, d}
            && (k == |Line(line)| ==> Open(c, img').value == more == Durable(c, img', body'))
  {
    OpenIsDurable(c, img, body, ps);
    OpenIsDurable(c, img', body', ps');
    var d, e := Durable(c, img, body), c.line(line).value;
    hide Entries, SnapshotEntries, Laid, Text, Open;
    if k == |Line(line)| {
      FoldConcat(Fold(map[], SnapshotEntries(c, img.snapshot).value), Entries(c, body).value, [e]);
      assert Fold(d, [e]) == Apply(d, e);
    } else if ps == [] {
      assert Fold(d, [e]) == Apply(d, e);
    }
  }

  /** Replaying the complete lines, and what is loose behind them, over a snapshot of the index. */
  lemma RenamedMeans<V>(c: Schema<V>, s: Store<V>, body: string, ps: seq<Piece>, text: string, img: Image)
    requires Readable(c, s.img, body, ps) && Traced(c, s, body, ps) && Restores(c, text, s.idx)
    requires img.journal == s.img.journal && img.snapshot == Some(text)
    ensures Open(c, s.img).Okay? && Open(c, img).Okay?
    ensures Open(c, img).value in {s.idx, Open(c, s.img).value}
    ensures Durable(c, img, body) in {s.idx, Durable(c, s.img, body)}
  {
    OpenIsDurable(c, s.img, body, ps);
    OpenIsDurable(c, img, body, ps);
    var base, es := Fold(map[], SnapshotEntries(c, s.img.snapshot).value), Entries(c, body).value;
    hide Entries, SnapshotEntries, Laid, Open, Text, Near;
    if Near(s.idx, base, es) {
      NearRebased(s.idx, base, es);
    } else {
      LooseIs(c, ps);
      StemsRebased(s.idx, base, es, c.line(ps[0].line).value);
    }
  }

  lemma NearRebased<V>(idx: Index<V>, base: Index<V>, es: seq<Entry<V>>)
    requires Near(idx, base, es)
    ensures Fold(idx, es) == Fold(base, es)
  {
    FoldForgets(idx, base, es);
  }

  lemma StemsRebased<V>(idx: Index<V>, base: Index<V>, es: seq<Entry<V>>, x: Entry<V>)
    requires idx == Apply(Fold(base, es), x)
    ensures Fold(idx, es) in {idx, Fold(base, es)} && Fold(Fold(idx, es), [x]) == idx == Fold(Fold(base, es), [x])
  {
    FoldConcat(base, es, [x]);
    assert forall m: Index<V> :: Fold(m, [x]) == Apply(m, x);
    FoldBack(base, es, x);
  }

  lemma LooseIs<V>(c: Schema<V>, ps: seq<Piece>)
    requires ps != [] && Pieces(ps) && forall i | 0 <= i < |ps| :: c.line(ps[i].line).Some?
    ensures Loose(c, ps) == [] || Loose(c, ps) == [c.line(ps[0].line).value]
  {
  }

  /** The reading of the history from `s` on: of the index or, if the disk comes to light, of what is on it, with or
      without the pieces. */
  ghost predicate Tells<V>(c: Schema<V>, s: Store<V>, body: string, spoiled: bool, steps: seq<Step>, now: Index<V>,
                           shown: bool)
  {
    || Explains(c, s.idx, steps, now, shown)
    || (!spoiled && Surfaces(steps, shown) && Lit(c, s.img, body, steps, now, shown))
  }

  ghost predicate Lit<V>(c: Schema<V>, img: Image, body: string, steps: seq<Step>, now: Index<V>, shown: bool) {
    || (Open(c, img).Okay? && Explains(c, Open(c, img).value, steps, now, shown))
    || Explains(c, Durable(c, img, body), steps, now, shown)
  }

  lemma SurfacesRest(steps: seq<Step>, shown: bool)
    requires steps != []
    ensures Surfaces(steps, shown) <==> steps[0].Crash? || Surfaces(steps[1..], shown)
  {
    assert steps == [steps[0]] + steps[1..];
  }

  /** A reading of the rest of a history carries over to the history with an append in front. */
  lemma ExplainsAppend<V>(c: Schema<V>, before: Index<V>, steps: seq<Step>, now: Index<V>, shown: bool)
    requires steps != [] && steps[0].op.Append? && c.line(steps[0].op.line).Some?
    ensures (steps[0].Do? || MayShow(steps, shown))
            && Explains(c, Apply(before, c.line(steps[0].op.line).value), steps[1..], now, shown) ==>
              Explains(c, before, steps, now, shown)
    ensures !steps[0].Do? && Explains(c, before, steps[1..], now, shown) ==> Explains(c, before, steps, now, shown)
  {
  }

  lemma AppendTells<V>(c: Schema<V>, s: Store<V>, body: string, ps: seq<Piece>, spoiled: bool, steps: seq<Step>,
                       body': string, ps': seq<Piece>, k: nat, now: bool, end: Index<V>, shown: bool)
    requires steps != [] && Allowed(c, s, steps[0]) && steps[0].op.Append? && Next(c, s, steps[0]).Okay?
    requires Kept(c, s, body, ps, spoiled) && Grows(c, body, ps, steps[0].op.line, k, body', ps')
    requires Kept(c, Next(c, s, steps[0]).value, body', ps', now)
    requires Tells(c, Next(c, s, steps[0]).value, body', now, steps[1..], end, shown)
    requires EndImage(c, s, steps[0]) == s.img.(journal := s.img.journal + Line(steps[0].op.line)[..k])
    requires (steps[0].Crash? ==> !now) && (spoiled ==> now) && (steps[0].Do? ==> k == |Line(steps[0].op.line)|)
    ensures Tells(c, s, body, spoiled, steps, end, shown)
  {
    var t, line := Next(c, s, steps[0]).value, steps[0].op.line;
    SurfacesRest(steps, shown);
    ExplainsAppend(c, s.idx, steps, end, shown);
    if !now {
      AppendMeans(c, s.img, body, ps, line, k, t.img, body', ps');
      ExplainsAppend(c, Durable(c, s.img, body), steps, end, shown);
      ExplainsAppend(c, Open(c, s.img).value, steps, end, shown);
    }
    hide Explains, Durable, Kept, Entries, Text, Line, Surfaces;
  }

  /** What a compaction leaves on a disk that reopens: the index, or what was there. */
  lemma CompactMeans<V>(c: Schema<V>, s: Store<V>, body: string, ps: seq<Piece>, spoiled: bool, text: string,
                        img: Image)
    requires Kept(c, s, body, ps, spoiled) && Restores(c, text, s.idx) && Visible(s.img, Op.Compact(text), img)
    requires !Spoils(s.img, Op.Compact(text), img, spoiled)
    ensures Open(c, img).Okay? && (!spoiled ==> Open(c, s.img).Okay?)
    ensures var d := Durable(c, img, if img.journal == [] then [] else body);
            if spoiled then Open(c, img).value == s.idx == d
            else Open(c, img).value in {s.idx, Open(c, s.img).value}
                 && d in {s.idx, Durable(c, s.img, body)}
  {
    OpenTruncated(c, text, s.idx);
    if img == Image([], Some(text), None) {
      OpenIsDurable(c, img, [], []);
      if !spoiled { OpenIsDurable(c, s.img, body, ps); }
    } else {
      assert img.journal == s.img.journal;
      NotSpoiled(c, s, body, ps, spoiled);
      OpenIsDurable(c, s.img, body, ps);
      EmptyLaid(c, s.img.journal, body, ps);
      if img.snapshot == s.img.snapshot {
        UnrenamedMeans(c, s.img, img, body);
      } else {
        RenamedMeans(c, s, body, ps, text, img);
      }
    }
    hide Entries, Open, Durable, SnapshotEntries, Traced;
  }

  lemma NotSpoiled<V>(c: Schema<V>, s: Store<V>, body: string, ps: seq<Piece>, spoiled: bool)
    requires Kept(c, s, body, ps, spoiled)
    ensures spoiled ==> s.img.journal != []
  {
    assert Entries(c, []) == Okay([]);
    hide Entries, Traced;
    if s.img.journal == [] { EmptyLaid(c, s.img.journal, body, ps); }
  }

  lemma CompactTells<V>(c: Schema<V>, s: Store<V>, body: string, ps: seq<Piece>, spoiled: bool, steps: seq<Step>,
                        body': string, now: bool, end: Index<V>, shown: bool)
    requires steps != [] && Allowed(c, s, steps[0]) && steps[0].op.Compact? && Kept(c, s, body, ps, spoiled)
    requires Next(c, s, steps[0]).Okay? && now == Spoils(s.img, steps[0].op, EndImage(c, s, steps[0]), spoiled)
    requires body' == (if EndImage(c, s, steps[0]).journal == [] then [] else body) && (steps[0].Crash? ==> !now)
    requires Tells(c, Next(c, s, steps[0]).value, body', now, steps[1..], end, shown)
    ensures Tells(c, s, body, spoiled, steps, end, shown)
  {
    var img, text := EndImage(c, s, steps[0]), steps[0].op.text;
    SurfacesRest(steps, shown);
    if !now { CompactMeans(c, s, body, ps, spoiled, text, img); }
    ExplainsCompact(c, s.idx, steps, end, shown);
    ExplainsCompact(c, Durable(c, s.img, body), steps, end, shown);
    if Open(c, s.img).Okay? { ExplainsCompact(c, Open(c, s.img).value, steps, end, shown); }
    hide Explains, Kept, Entries, Surfaces, Durable, Open, Restores;
  }

  lemma ExplainsCompact<V>(c: Schema<V>, before: Index<V>, steps: seq<Step>, now: Index<V>, shown: bool)
    requires steps != [] && steps[0].op.Compact?
    ensures Explains(c, before, steps, now, shown) == Explains(c, before, steps[1..], now, shown)
  {
  }

  lemma UnrenamedMeans<V>(c: Schema<V>, a: Image, b: Image, body: string)
    requires a.journal == b.journal && a.snapshot == b.snapshot
    ensures Open(c, a) == Open(c, b) && Durable(c, a, body) == Durable(c, b, body)
  {
  }

  lemma SpoiledStays<V>(c: Schema<V>, s: Store<V>, body: string, ps: seq<Piece>, spoiled: bool, step: Step)
    requires Kept(c, s, body, ps, spoiled) && Allowed(c, s, step) && step.op.Append?
    ensures spoiled ==> Spoils(s.img, step.op, EndImage(c, s, step), spoiled)
  {
    NotSpoiled(c, s, body, ps, spoiled);
    hide Entries, Text, Kept;
    if !step.Do? { var k :| AppendCut(s.img, step.op.line, k, step.img); }
  }

  lemma {:induction false} RunTells<V>(c: Schema<V>, s: Store<V>, body: string, ps: seq<Piece>, spoiled: bool,
                                       steps: seq<Step>, end: Store<V>, now: Index<V>, shown: bool)
    requires Kept(c, s, body, ps, spoiled) && Runs(c, s, steps, end)
    requires now == end.idx || (shown && !Spoiled(c, s, steps, spoiled) && Open(c, end.img) == Okay(now))
    ensures Tells(c, s, body, spoiled, steps, now, shown)
    decreases |steps|
  {
    hide Kept, Next, Durable, Grows, EndImage, Open;
    if steps != [] {
      var step, t := steps[0], Next(c, s, steps[0]).value;
      var spoils := Spoils(s.img, step.op, EndImage(c, s, step), spoiled);
      if step.op.Append? {
        var body', ps', k := AppendStep(c, s, body, ps, spoiled, step);
        RunTells(c, t, body', ps', spoils, steps[1..], end, now, shown);
        SpoiledStays(c, s, body, ps, spoiled, step);
        AppendTells(c, s, body, ps, spoiled, steps, body', ps', k, spoils, now, shown);
      } else {
        var body', ps' := CompactStep(c, s, body, ps, spoiled, step);
        RunTells(c, t, body', ps', spoils, steps[1..], end, now, shown);
        CompactTells(c, s, body, ps, spoiled, steps, body', spoils, now, shown);
      }
    }
  }

  lemma StartTells<V>(c: Schema<V>, s: Store<V>, steps: seq<Step>, now: Index<V>, shown: bool)
    requires Consistent(c, s) && Terminated(s.img.journal) && Tells(c, s, s.img.journal, false, steps, now, shown)
    ensures Explains(c, s.idx, steps, now, shown)
  {
    StartKept(c, s);
    OpenIsDurable(c, s.img, s.img.journal, []);
    hide Explains, Entries, Traced;
  }

  /** After any history the index is exactly the acknowledged operations plus, for each crash, possibly the one in
      flight and the failed ones before it. What the disk reopens to is that too, with the failed ones since possibly
      among them; it no longer reopens when, and only when, a line was appended to a torn journal since it was last
      emptied. Without a failed append since the last reopen or finished compaction it reopens to the index itself. */
  lemma RunRecovers<V>(c: Schema<V>, s: Store<V>, steps: seq<Step>, end: Store<V>)
    requires Consistent(c, s) && Terminated(s.img.journal) && Runs(c, s, steps, end)
    ensures Explains(c, s.idx, steps, end.idx, false)
    ensures Open(c, end.img).Corrupt? <==> Spoiled(c, s, steps, false)
    ensures Open(c, end.img).Okay? ==> Explains(c, s.idx, steps, Open(c, end.img).value, true)
    ensures Open(c, end.img).Okay? && !Stray(steps, false) ==> Open(c, end.img).value == end.idx
  {
    StartKept(c, s);
    RunReopensIff(c, s, steps, end);
    RunTells(c, s, s.img.journal, [], false, steps, end, end.idx, false);
    StartTells(c, s, steps, end.idx, false);
    if Open(c, end.img).Okay? {
      RunTells(c, s, s.img.journal, [], false, steps, end, Open(c, end.img).value, true);
      StartTells(c, s, steps, Open(c, end.img).value, true);
    }
  }

  /** The allowance is needed: a record whose append failed after its last byte, for want of an fsync say, is on disk
      all the same, and the next crash brings it back. */
  lemma FailedMaySurface<V>(c: Schema<V>, s: Store<V>, line: Value)
    requires Consistent(c, s) && Terminated(s.img.journal) && IsLine(line) && c.line(line).Some?
    ensures var img, op := s.img.(journal := s.img.journal + Line(line)), Append(line);
            && Allowed(c, s, Step.Fail(op, img)) && Next(c, s, Step.Fail(op, img)) == Okay(Store(img, s.idx))
            && Open(c, img) == Okay(Apply(s.idx, c.line(line).value))
  {
    var img := s.img.(journal := s.img.journal + Line(line));
    assert Line(line)[..|Line(line)|] == Line(line);
    assert AppendCut(s.img, line, |Line(line)|, img);
    OpenAppended(c, s, line, |Line(line)|);
  }
}
