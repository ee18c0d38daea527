/** The crash-safe journal that runstore.FileStore and memoryguard.DurableStore share: an in-memory
    index, an append-only file of JSON lines, and a snapshot replaced by rename.

    The specification is a plain map. A disk image is the three files; `Visible` lists every image a
    crash can leave behind during an operation (an append cut at any byte, a compaction stopped
    between any two disk steps). The main results here: `CrashRecovers` (one operation) and the exact
    boundary `AppendReopensIff`; module History has whole runs. */
module Journal {
  import opened Json

  datatype Result<+T> = Okay(value: T) | Corrupt

  /** One record as the index sees it: a write to a key or a tombstone. */
  datatype Entry<+V> = Put(key: string, val: V) | Drop(key: string)

  /** How a store reads its journal lines and the members of its snapshot object. */
  datatype Schema<!V> = Schema(
    line: Value -> Option<Entry<V>>,
    member: (string, Value) -> Option<Entry<V>>)

  type Index<V> = map<string, V>

  function Apply<V>(idx: Index<V>, e: Entry<V>): Index<V> {
    match e
    case Put(k, v) => idx[k := v]
    case Drop(k) => idx - {k}
  }

  function Fold<V>(idx: Index<V>, es: seq<Entry<V>>): Index<V>
    decreases |es|
  {
    if es == [] then idx else Fold(Apply(idx, es[0]), es[1..])
  }

  function Folded<V>(idx: Index<V>, es: Result<seq<Entry<V>>>): Result<Index<V>> {
    match es
    case Corrupt => Corrupt
    case Okay(es) => Okay(Fold(idx, es))
  }

  // ---------------------------------------------------------------- reading the journal

  function Newline(t: string): (i: nat)
    ensures i <= |t| && '\n' !in t[..i] && (i < |t| ==> t[i] == '\n')
  {
    if t == [] || t[0] == '\n' then 0 else 1 + Newline(t[1..])
  }

  predicate Blank(line: string) { forall c | c in line :: c == ' ' || 9 <= c as int <= 13 }

  predicate Terminated(t: string) { t == [] || t[|t| - 1] == '\n' }

  function Decode<V>(c: Schema<V>, line: string): Option<Entry<V>> {
    match Parse(line)
    case None => None
    case Some(v) => c.line(v)
  }

  /** A complete line: skipped when blank, otherwise it has to decode. */
  function LineEntries<V>(c: Schema<V>, line: string): Result<seq<Entry<V>>> {
    if Blank(line) then Okay([])
    else match Decode(c, line)
      case None => Corrupt
      case Some(e) => Okay([e])
  }

  /** What follows the last newline: dropped when it does not decode (a crash mid-append). */
  function TailEntries<V>(c: Schema<V>, tail: string): seq<Entry<V>> {
    if Blank(tail) then []
    else match Decode(c, tail)
      case None => []
      case Some(e) => [e]
  }

  function Join<V>(a: Result<seq<Entry<V>>>, b: Result<seq<Entry<V>>>): Result<seq<Entry<V>>> {
    if a.Corrupt? || b.Corrupt? then Corrupt else Okay(a.value + b.value)
  }

  function Entries<V>(c: Schema<V>, t: string): Result<seq<Entry<V>>>
    decreases |t|
  {
    var i := Newline(t);
    if i == |t| then Okay(TailEntries(c, t))
    else Join(LineEntries(c, t[..i]), Entries(c, t[i + 1..]))
  }

  // ---------------------------------------------------------------- the disk

  datatype Image = Image(journal: string, snapshot: Option<string>, tmp: Option<string>)

  function MemberEntries<V>(c: Schema<V>, ms: Members): Result<seq<Entry<V>>> {
    match ms
    case NoMember => Okay([])
    case Member(k, v, rest) =>
      match c.member(k, v)
      case None => Corrupt
      case Some(e) => Join(Okay([e]), MemberEntries(c, rest))
  }

  function SnapshotEntries<V>(c: Schema<V>, snapshot: Option<string>): Result<seq<Entry<V>>> {
    if snapshot == None || snapshot == Some([]) then Okay([])
    else match Parse(snapshot.value)
      case Some(Obj(ms)) => MemberEntries(c, ms)
      case _ => Corrupt
  }

  /** Opening a store: snapshot first, then the journal on top of it. */
  function Open<V>(c: Schema<V>, img: Image): Result<Index<V>> {
    Folded(map[], Join(SnapshotEntries(c, img.snapshot), Entries(c, img.journal)))
  }

  datatype Store<V> = Store(img: Image, idx: Index<V>)

  /** The index in memory is the one a reopen would build. */
  predicate Consistent<V(==)>(c: Schema<V>, s: Store<V>) {
    Open(c, s.img) == Okay(s.idx)
  }

  function Line(v: Value): string { Text(v) + "\n" }

  /** The two mutations: append a line; replace the snapshot by `text` and empty the journal. */
  datatype Op = Append(line: Value) | Compact(text: string)

  predicate ValidOp<V(==)>(c: Schema<V>, s: Store<V>, op: Op) {
    match op
    case Append(line) => IsLine(line) && c.line(line).Some?
    case Compact(text) => Restores(c, text, s.idx)
  }

  /** `text` is a snapshot of exactly `idx`: it loads to it and holds nothing else. */
  predicate Restores<V(==)>(c: Schema<V>, text: string, idx: Index<V>) {
    text != [] && SnapshotEntries(c, Some(text)).Okay?
    && Fold(map[], SnapshotEntries(c, Some(text)).value) == idx
    && forall e | e in SnapshotEntries(c, Some(text)).value :: e.Put? && e.key in idx && e.val == idx[e.key]
  }

  function After<V(==)>(c: Schema<V>, s: Store<V>, op: Op): Store<V>
    requires ValidOp(c, s, op)
  {
    match op
    case Append(line) =>
      Store(s.img.(journal := s.img.journal + Line(line)), Apply(s.idx, c.line(line).value))
    case Compact(text) => Store(Image([], Some(text), None), s.idx)
  }

  /** `img` is on disk at some instant of `op`, from just before its first disk step to just after its last. */
  ghost predicate Visible(before: Image, op: Op, img: Image) {
    match op
    case Append(line) => exists k :: AppendCut(before, line, k, img)
    case Compact(text) =>
      || img == before
      || img == before.(tmp := None)
      || (exists k :: TmpCut(before, text, k, img))
      || img == before.(snapshot := Some(text), tmp := None)
      || img == Image([], Some(text), None)
  }

  /** The first `k` bytes of the line have reached the journal. */
  ghost predicate AppendCut(before: Image, line: Value, k: int, img: Image) {
    0 <= k <= |Line(line)| && img == before.(journal := before.journal + Line(line)[..k])
  }

  /** The first `k` bytes of the snapshot have reached the temporary file. */
  ghost predicate TmpCut(before: Image, text: string, k: int, img: Image) {
    0 <= k <= |text| && img == before.(tmp := Some(text[..k]))
  }

  // ---------------------------------------------------------------- folding entries

  lemma {:induction false} FoldConcat<V>(idx: Index<V>, a: seq<Entry<V>>, b: seq<Entry<V>>)
    ensures Fold(idx, a + b) == Fold(Fold(idx, a), b)
    decreases |a|
  {
    if a == [] {
      assert a + b == b;
    } else {
      assert (a + b)[1..] == a[1..] + b;
      FoldConcat(Apply(idx, a[0]), a[1..], b);
    }
  }

  /** Two indexes that agree except on keys `es` decides agree everywhere after `es`. */
  lemma {:induction false} FoldForgets<V>(a: Index<V>, b: Index<V>, es: seq<Entry<V>>)
    requires forall k | k !in (set e | e in es :: e.key) :: (k in a <==> k in b) && (k in a ==> a[k] == b[k])
    ensures Fold(a, es) == Fold(b, es)
    decreases |es|
  {
    if es == [] {
      assert a == b;
    } else {
      var a', b' := Apply(a, es[0]), Apply(b, es[0]);
      forall k | k !in (set e | e in es[1..] :: e.key)
        ensures (k in a' <==> k in b') && (k in a' ==> a'[k] == b'[k])
      {
        if k != es[0].key { assert k !in (set e | e in es :: e.key); }
      }
      FoldForgets(a', b', es[1..]);
    }
  }

  lemma {:induction false} FoldKeeps<V>(idx: Index<V>, es: seq<Entry<V>>, k: string)
    requires forall e | e in es :: e.key != k
    ensures (k in Fold(idx, es) <==> k in idx) && (k in idx ==> Fold(idx, es)[k] == idx[k])
    decreases |es|
  {
    if es != [] { FoldKeeps(Apply(idx, es[0]), es[1..], k); }
  }

  /** Replaying a journal over a snapshot that already contains it changes nothing, tombstones included. */
  lemma ReplayIdempotent<V>(idx: Index<V>, es: seq<Entry<V>>)
    ensures Fold(Fold(idx, es), es) == Fold(idx, es)
  {
    forall k | k !in (set e | e in es :: e.key)
      ensures (k in Fold(idx, es) <==> k in idx) && (k in idx ==> Fold(idx, es)[k] == idx[k])
    {
      forall e | e in es ensures e.key != k { assert e.key in (set e | e in es :: e.key); }
      FoldKeeps(idx, es, k);
    }
    FoldForgets(Fold(idx, es), idx, es);
  }

  /** An entry whose key the others leave alone can be applied before or after them. */
  lemma {:induction false} FoldCommutes<V>(idx: Index<V>, es: seq<Entry<V>>, x: Entry<V>)
    requires forall e | e in es :: e.key != x.key
    ensures Fold(Apply(idx, x), es) == Apply(Fold(idx, es), x)
    decreases |es|
  {
    if es != [] {
      assert Apply(Apply(idx, x), es[0]) == Apply(Apply(idx, es[0]), x);
      FoldCommutes(Apply(idx, es[0]), es[1..], x);
    }
  }

  /** Replaying all but the last of the entries an index holds gives the index with or without that last one. */
  lemma FoldBack<V>(idx: Index<V>, es: seq<Entry<V>>, x: Entry<V>)
    ensures var whole := Fold(idx, es + [x]); Fold(whole, es) == Fold(idx, es) || Fold(whole, es) == whole
  {
    FoldConcat(idx, es, [x]);
    assert Fold(idx, es + [x]) == Apply(Fold(idx, es), x);
    if exists e :: e in es && e.key == x.key {
      var whole := Fold(idx, es + [x]);
      forall k | k !in (set e | e in es :: e.key)
        ensures (k in whole <==> k in idx) && (k in whole ==> whole[k] == idx[k])
      {
        forall e | e in es ensures e.key != k { assert e.key in (set e | e in es :: e.key); }
        FoldKeeps(idx, es, k);
      }
      FoldForgets(whole, idx, es);
    } else {
      FoldCommutes(idx, es, x);
      ReplayIdempotent(Apply(idx, x), es);
    }
  }

  // ---------------------------------------------------------------- journals line by line

  lemma {:induction false} NewlineBefore(t: string, j: nat)
    requires j < |t| && t[j] == '\n'
    ensures Newline(t) <= j
  {
    if j > 0 && t[0] != '\n' { NewlineBefore(t[1..], j - 1); }
  }

  lemma NewlineOf(a: string, b: string)
    requires '\n' !in a
    ensures Newline(a + ("\n" + b)) == |a|
    ensures b == [] ==> Newline(a) == |a|
  {
    var t := a + ("\n" + b);
    assert t[|a|] == '\n' && forall i | 0 <= i < |a| :: t[i] == a[i] && a[i] in a;
    NewlineBefore(t, |a|);
  }

  lemma FirstLine<V>(c: Schema<V>, a: string, b: string)
    requires '\n' !in a
    ensures Entries(c, a + ("\n" + b)) == Join(LineEntries(c, a), Entries(c, b))
  {
    var t := a + ("\n" + b);
    NewlineOf(a, b);
    assert t[..|a|] == a && t[|a| + 1..] == b;
  }

  lemma {:induction false} JoinAssoc<V>(a: Result<seq<Entry<V>>>, b: Result<seq<Entry<V>>>, d: Result<seq<Entry<V>>>)
    ensures Join(Join(a, b), d) == Join(a, Join(b, d))
  {
    if a.Okay? && b.Okay? && d.Okay? { assert a.value + b.value + d.value == a.value + (b.value + d.value); }
  }

  /** A terminated journal is read line by line: what follows it cannot change how it reads. */
  lemma {:induction false} EntriesConcat<V>(c: Schema<V>, a: string, b: string)
    requires Terminated(a)
    ensures Entries(c, a + b) == Join(Entries(c, a), Entries(c, b))
    decreases |a|
  {
    if a == [] {
      assert a + b == b;
      assert Entries(c, a) == Okay([]);
      if Entries(c, b).Okay? { assert [] + Entries(c, b).value == Entries(c, b).value; }
    } else {
      var line, rest := CutFirstLine(a);
      assert a + b == line + ("\n" + (rest + b));
      FirstLine(c, line, rest);
      FirstLine(c, line, rest + b);
      EntriesConcat(c, rest, b);
      JoinAssoc(LineEntries(c, line), Entries(c, rest), Entries(c, b));
    }
  }

  /** A complete line of a journal, wherever it stands: a blank one changes nothing; any other has to decode, and is
      then one entry in its place. */
  lemma LineInPlace<V>(c: Schema<V>, a: string, line: string, b: string)
    requires Terminated(a) && '\n' !in line
    ensures var t := a + (line + ("\n" + b));
            && (Blank(line) ==> Entries(c, t) == Entries(c, a + b))
            && (!Blank(line) && Decode(c, line).None? ==> Entries(c, t) == Corrupt)
            && (!Blank(line) && Decode(c, line).Some? && Entries(c, a).Okay? && Entries(c, b).Okay? ==>
                  Entries(c, t) == Okay(Entries(c, a).value + [Decode(c, line).value] + Entries(c, b).value))
  {
    hide Entries, Decode, Blank, Terminated;
    EntriesConcat(c, a, line + ("\n" + b));
    EntriesConcat(c, a, b);
    FirstLine(c, line, b);
    var x, y := Entries(c, a), Entries(c, b);
    if y.Okay? { assert [] + y.value == y.value; }
    if x.Okay? && y.Okay? && Decode(c, line).Some? {
      assert x.value + ([Decode(c, line).value] + y.value) == x.value + [Decode(c, line).value] + y.value;
    }
  }

  /** A disk without a snapshot, or with an empty one, and without a journal opens to nothing; the temporary file is
      never read. */
  lemma FreshDisk<V>(c: Schema<V>, img: Image, tmp: Option<string>)
    ensures img.journal == [] && (img.snapshot == None || img.snapshot == Some([])) ==> Open(c, img) == Okay(map[])
    ensures Open(c, img.(tmp := tmp)) == Open(c, img)
  {
    assert Entries(c, []) == Okay([]);
  }

  lemma CutFirstLine(a: string) returns (line: string, rest: string)
    requires Terminated(a) && a != []
    ensures a == line + ("\n" + rest) && '\n' !in line && Terminated(rest)
  {
    NewlineBefore(a, |a| - 1);
    var i := Newline(a);
    line, rest := a[..i], a[i + 1..];
    assert rest != [] ==> rest[|rest| - 1] == a[|a| - 1];
  }

  lemma TextNotBlank(v: Value, k: nat, t: string)
    requires IsLine(v) && k <= |Text(v)| && k > 0
    ensures !Blank(Text(v)[..k] + t) && '\n' !in Text(v)[..k]
  {
    NoControl(v);
    var s := Text(v)[..k] + t;
    assert s[0] == '{' && s[0] in s;
    forall x | x in Text(v)[..k] ensures x != '\n' { assert x in Text(v); }
  }

  lemma CutTextEntries<V>(c: Schema<V>, v: Value, k: nat)
    requires IsLine(v) && c.line(v).Some? && k <= |Text(v)|
    ensures Entries(c, Text(v)[..k]) == if k < |Text(v)| then Okay([]) else Okay([c.line(v).value])
  {
    var cut := Text(v)[..k];
    if k > 0 {
      TextNotBlank(v, k, []);
      assert cut + [] == cut;
      NewlineOf(cut, []);
      LineParses(v);
      if k < |Text(v)| { CutNeverParses(v, k); } else { assert cut == Text(v); }
    }
  }

  lemma WholeLineEntries<V>(c: Schema<V>, v: Value)
    requires IsLine(v) && c.line(v).Some?
    ensures Entries(c, Line(v)) == Okay([c.line(v).value])
  {
    var t := Text(v);
    LineParses(v);
    LineHead(v);
    assert t[..|t|] + [] == t;
    TextNotBlank(v, |t|, []);
    FirstLine(c, t, []);
    assert t + "\n" == t + ("\n" + []);
    assert LineEntries(c, t) == Okay([c.line(v).value]) && Entries(c, []) == Okay([]);
    assert [c.line(v).value] + [] == [c.line(v).value];
  }

  /** A line cut at any byte: nothing readable before its last byte, the whole record from there on. */
  lemma CutLineEntries<V>(c: Schema<V>, v: Value, k: nat)
    requires IsLine(v) && c.line(v).Some? && k <= |Line(v)|
    ensures Entries(c, Line(v)[..k]) == if k < |Text(v)| then Okay([]) else Okay([c.line(v).value])
  {
    if k <= |Text(v)| {
      assert Line(v)[..k] == Text(v)[..k];
      CutTextEntries(c, v, k);
    } else {
      assert Line(v)[..k] == Line(v);
      WholeLineEntries(c, v);
    }
  }

  // ---------------------------------------------------------------- one operation

  lemma OpenIsFold<V>(c: Schema<V>, img: Image)
    ensures Open(c,
                 img) == (if SnapshotEntries(c, img.snapshot).Corrupt? || Entries(c, img.journal).Corrupt? then Corrupt
                             else Okay(Fold(Fold(map[], SnapshotEntries(c, img.snapshot).value),
                                            Entries(c, img.journal).value)))
  {
    if SnapshotEntries(c, img.snapshot).Okay? && Entries(c, img.journal).Okay? {
      FoldConcat(map[], SnapshotEntries(c, img.snapshot).value, Entries(c, img.journal).value);
    }
  }

  lemma OpenAppended<V>(c: Schema<V>, s: Store<V>, line: Value, k: nat)
    requires Consistent(c, s) && ValidOp(c, s, Append(line)) && k <= |Line(line)| && Terminated(s.img.journal)
    ensures Open(c, s.img.(journal := s.img.journal + Line(line)[..k])) ==
            Okay(if k < |Text(line)| then s.idx else Apply(s.idx, c.line(line).value))
  {
    var img := s.img.(journal := s.img.journal + Line(line)[..k]);
    EntriesConcat(c, s.img.journal, Line(line)[..k]);
    CutLineEntries(c, line, k);
    OpenIsFold(c, s.img);
    OpenIsFold(c, img);
    var base := Fold(map[], SnapshotEntries(c, s.img.snapshot).value);
    var es := Entries(c, s.img.journal).value;
    if k < |Text(line)| {
      assert es + [] == es;
    } else {
      FoldConcat(base, es, [c.line(line).value]);
      assert Fold(s.idx, [c.line(line).value]) == Apply(s.idx, c.line(line).value);
    }
  }

  lemma OpenRenamed<V>(c: Schema<V>, s: Store<V>, text: string)
    requires Consistent(c, s) && Restores(c, text, s.idx)
    ensures Open(c, s.img.(snapshot := Some(text), tmp := None)) == Okay(s.idx)
    ensures Open(c, Image([], Some(text), None)) == Okay(s.idx)
  {
    OpenIsFold(c, s.img);
    OpenIsFold(c, s.img.(snapshot := Some(text), tmp := None));
    OpenIsFold(c, Image([], Some(text), None));
    assert Entries(c, []) == Okay([]);
    ReplayIdempotent(Fold(map[], SnapshotEntries(c, s.img.snapshot).value), Entries(c, s.img.journal).value);
  }

  /** A crash at any instant of an operation reopens, and to the index before it or after it.
      An append needs a terminated journal; a compaction needs nothing and never shows. */
  lemma CrashRecovers<V>(c: Schema<V>, s: Store<V>, op: Op, img: Image)
    requires Consistent(c, s) && ValidOp(c, s, op) && Visible(s.img, op, img)
    requires op.Append? ==> Terminated(s.img.journal)
    ensures Open(c, img) == Okay(s.idx) || Open(c, img) == Okay(After(c, s, op).idx)
  {
    match op
    case Append(line) =>
      var k :| AppendCut(s.img, line, k, img);
      OpenAppended(c, s, line, k);
    case Compact(text) =>
      OpenRenamed(c, s, text);
  }

  /** An operation that runs to its end keeps index and disk in step and the journal terminated. */
  lemma OpCompletes<V>(c: Schema<V>, s: Store<V>, op: Op)
    requires Consistent(c, s) && ValidOp(c, s, op)
    requires op.Append? ==> Terminated(s.img.journal)
    ensures Consistent(c, After(c, s, op)) && Terminated(After(c, s, op).img.journal)
  {
    match op
    case Append(line) =>
      OpenAppended(c, s, line, |Line(line)|);
      assert Line(line)[..|Line(line)|] == Line(line);
    case Compact(text) => OpenRenamed(c, s, text);
  }

  // ---------------------------------------------------------------- the boundary

  /** The journal as its writes left it: complete lines `body`, and behind them the pieces of appends cut short. */
  ghost predicate Laid<V>(c: Schema<V>, t: string, body: string, ps: seq<Piece>) {
    && Terminated(body) && Pieces(ps) && (forall i | 0 <= i < |ps| :: c.line(ps[i].line).Some?)
    && t == body + Glue(ps)
  }

  /** What the pieces read as: a record when they are one whole line that lacks only its newline, nothing otherwise. */
  function Loose<V>(c: Schema<V>, ps: seq<Piece>): (es: seq<Entry<V>>)
    requires Pieces(ps) && forall i | 0 <= i < |ps| :: c.line(ps[i].line).Some?
    ensures |es| <= 1 && (ps == [] ==> es == [])
  {
    if |ps| == 1 && ps[0].k == |Text(ps[0].line)| then [c.line(ps[0].line).value] else []
  }

  lemma GlueIsOneLine(ps: seq<Piece>)
    requires Pieces(ps)
    ensures '\n' !in Glue(ps) && (ps != [] ==> !Blank(Glue(ps)))
  {
    GluePrintable(ps);
    GlueIsTail(ps);
    hide Glue, Read, ReadString;
    if ps != [] { assert Glue(ps)[0] in Glue(ps); }
  }

  lemma GlueEntries<V>(c: Schema<V>, ps: seq<Piece>)
    requires Pieces(ps) && forall i | 0 <= i < |ps| :: c.line(ps[i].line).Some?
    ensures Entries(c, Glue(ps)) == Okay(Loose(c, ps))
  {
    GlueIsOneLine(ps);
    GlueParsesIff(ps);
    NewlineOf(Glue(ps), []);
    hide Parse, Text;
    if ps == [] { assert Glue(ps) == []; }
  }

  /** A line written behind pieces reads as their glue with it: malformed unless there are none. */
  lemma GlueLineEntries<V>(c: Schema<V>, ps: seq<Piece>, v: Value)
    requires Pieces(ps) && IsLine(v) && c.line(v).Some?
    ensures Entries(c, Glue(ps) + Line(v)) == if ps == [] then Okay([c.line(v).value]) else Corrupt
  {
    LineHead(v);
    if ps == [] {
      assert Glue(ps) + Line(v) == Line(v);
      WholeLineEntries(c, v);
    } else {
      var p := Piece(v, |Text(v)|);
      GlueMore(ps, p);
      GlueParsesIff(ps + [p]);
      GlueIsOneLine(ps + [p]);
      hide Parse, Glue, Text;
      assert Text(v)[..|Text(v)|] == Text(v);
      assert Glue(ps) + Line(v) == Glue(ps + [p]) + ("\n" + []);
      FirstLine(c, Glue(ps + [p]), []);
    }
  }

  lemma LaidReads<V>(c: Schema<V>, t: string, body: string, ps: seq<Piece>)
    requires Laid(c, t, body, ps)
    ensures Entries(c, t) == Join(Entries(c, body), Okay(Loose(c, ps)))
    ensures Terminated(t) <==> ps == []
  {
    EntriesConcat(c, body, Glue(ps));
    GlueEntries(c, ps);
    GlueIsOneLine(ps);
    GlueIsTail(ps);
    hide Entries, IsTail;
    if ps == [] {
      assert t == body;
    } else {
      assert t[|t| - 1] == Glue(ps)[|Glue(ps)| - 1] && Glue(ps)[|Glue(ps)| - 1] in Glue(ps);
    }
  }

  /** Where the first `k` bytes of a line leave a journal: one more piece, or, once the newline is there, complete
      lines only, which read back unless a piece stood before the line. */
  lemma LaidAppend<V>(c: Schema<V>, t: string, body: string, ps: seq<Piece>, v: Value, k: nat)
    returns (body': string, ps': seq<Piece>)
    requires Laid(c, t, body, ps) && IsLine(v) && c.line(v).Some? && k <= |Line(v)|
    ensures Laid(c, t + Line(v)[..k], body', ps')
    ensures k < |Line(v)| ==> body' == body && ps' == if k == 0 then ps else ps + [Piece(v, k)]
    ensures k == |Line(v)| ==> ps' == []
    ensures k == |Line(v)| ==>
              Entries(c, body') == if ps == [] then Join(Entries(c, body), Okay([c.line(v).value])) else Corrupt
  {
    hide Text, Entries, Glue;
    var line := Line(v);
    if k == 0 {
      body', ps' := body, ps;
      assert t + line[..k] == t;
    } else if k < |line| {
      body', ps' := body, ps + [Piece(v, k)];
      GlueMore(ps, Piece(v, k));
      assert line[..k] == Text(v)[..k];
      Assoc(body, Glue(ps), Text(v)[..k]);
    } else {
      body', ps' := t + line, [];
      assert line[..k] == line && body'[|body'| - 1] == '\n';
      EmptyGlue();
      assert body' + [] == body';
      Assoc(body, Glue(ps), line);
      EntriesConcat(c, body, Glue(ps) + line);
      GlueLineEntries(c, ps, v);
    }
  }

  lemma EmptyGlue()
    ensures Glue([]) == []
  {
  }

  /** Exactly when does an append leave a journal the store will open again? When the journal was newline-terminated
      before it. Behind a torn tail, however many cut appends made it, every later open fails, whatever is appended. */
  lemma AppendReopensIff<V>(c: Schema<V>, t: string, body: string, ps: seq<Piece>, next: Value, more: string)
    requires Laid(c, t, body, ps) && Entries(c, body).Okay? && IsLine(next) && c.line(next).Some?
    ensures Entries(c, t).Okay?
    ensures Entries(c, t + Line(next)).Okay? <==> Terminated(t)
    ensures !Terminated(t) ==> Entries(c, t + Line(next) + more).Corrupt?
  {
    hide Entries, Text, Glue;
    LaidReads(c, t, body, ps);
    var body', _ := LaidAppend(c, t, body, ps, next, |Line(next)|);
    assert Line(next)[..|Line(next)|] == Line(next);
    EmptyGlue();
    assert body' + [] == body';
    EntriesConcat(c, body', more);
  }

  // ---------------------------------------------------------------- replay as the stores run it

  /** strings.Split(t, "\n"). */
  function Split(t: string): (lines: seq<string>)
    ensures |lines| > 0
    decreases |t|
  {
    var i := Newline(t);
    if i == |t| then [t] else [t[..i]] + Split(t[i + 1..])
  }

  function Rejoin(lines: seq<string>): string {
    if lines == [] then [] else if |lines| == 1 then lines[0] else lines[0] + ['\n'] + Rejoin(lines[1..])
  }

  /** The pieces contain no newline, and joined by newlines they are the text. */
  lemma {:induction false} SplitRejoins(t: string)
    ensures Rejoin(Split(t)) == t && forall line | line in Split(t) :: '\n' !in line
    decreases |t|
  {
    var i := Newline(t);
    if i < |t| {
      SplitRejoins(t[i + 1..]);
      assert Split(t)[1..] == Split(t[i + 1..]);
      assert t == t[..i] + ['\n'] + t[i + 1..];
    }
  }

  /** The entries of a list of lines; with `tolerate`, the last one may fail to decode. */
  function LinesEntries<V>(c: Schema<V>, lines: seq<string>, tolerate: bool): Result<seq<Entry<V>>> {
    if lines == [] then Okay([])
    else if |lines| == 1 && tolerate then Okay(TailEntries(c, lines[0]))
    else Join(LineEntries(c, lines[0]), LinesEntries(c, lines[1..], tolerate))
  }

  lemma {:induction false} SplitEntries<V>(c: Schema<V>, t: string)
    ensures LinesEntries(c, Split(t), true) == Entries(c, t)
    ensures t != [] && Terminated(t) ==>
              var n := |Split(t)| - 1; Split(t)[n] == [] && LinesEntries(c, Split(t)[..n], false) == Entries(c, t)
    decreases |t|
  {
    assert Entries(c, []) == Okay([]);
    hide LineEntries, Decode, TailEntries;
    if t != [] && Terminated(t) { NewlineBefore(t, |t| - 1); }
    var i := Newline(t);
    if i < |t| {
      var rest := t[i + 1..];
      SplitEntries(c, rest);
      assert Split(t)[1..] == Split(rest);
      if t != [] && Terminated(t) {
        var n := |Split(rest)| - 1;
        if rest == [] {
          assert Split(t) == [t[..i], []] && Split(t)[..1] == [t[..i]];
          assert LinesEntries(c, [t[..i]][1..], false) == Okay([]) == Entries(c, []);
        } else {
          assert rest[|rest| - 1] == t[|t| - 1];
          assert Split(t)[..n + 1] == [t[..i]] + Split(rest)[..n];
          assert ([t[..i]] + Split(rest)[..n])[1..] == Split(rest)[..n];
        }
      }
    }
  }

  lemma FoldOneLine<V>(c: Schema<V>, idx: Index<V>, lines: seq<string>, tolerate: bool)
    requires lines != []
    ensures Folded(idx, LinesEntries(c, lines, tolerate)) ==
            var rest := LinesEntries(c, lines[1..], tolerate);
            if Blank(lines[0]) then Folded(idx, rest)
            else match Decode(c, lines[0])
              case None => if |lines| == 1 && tolerate then Okay(idx) else Corrupt
              case Some(e) => Folded(Apply(idx, e), rest)
  {
    var rest := LinesEntries(c, lines[1..], tolerate);
    var head := LineEntries(c, lines[0]);
    if head.Okay? && rest.Okay? {
      FoldConcat(idx, head.value, rest.value);
      if !Blank(lines[0]) {
        var e := Decode(c, lines[0]).value;
        assert Fold(idx, [e]) == Fold(Apply(idx, e), [e][1..]);
      }
    }
  }

  /** Folds a journal into `idx` line by line, failing on the first bad line that is not a torn tail. */
  method Replay<V>(c: Schema<V>, t: string, idx: Index<V>) returns (r: Result<Index<V>>)
    ensures r == Folded(idx, Entries(c, t))
  {
    assert Entries(c, []) == Okay([]);
    hide Decode, Blank, LineEntries, Apply, Split;
    SplitEntries(c, t);
    if t == [] { return Okay(idx); }
    var finalNewline := t[|t| - 1] == '\n';
    var lines := Split(t);
    if finalNewline && lines[|lines| - 1] == [] { lines := lines[..|lines| - 1]; }
    var cur, i := idx, 0;
    while i < |lines|
      invariant 0 <= i <= |lines|
      invariant Folded(cur, LinesEntries(c, lines[i..], !finalNewline)) == Folded(idx, Entries(c, t))
    {
      var tolerate := i == |lines| - 1 && !finalNewline;
      assert lines[i..][1..] == lines[i + 1..];
      FoldOneLine(c, cur, lines[i..], !finalNewline);
      if !Blank(lines[i]) {
        match Decode(c, lines[i])
        case None =>
          if tolerate { return Okay(cur); }
          return Corrupt;
        case Some(e) =>
          cur := Apply(cur, e);
      }
      i := i + 1;
    }
    r := Okay(cur);
  }

  // ---------------------------------------------------------------- snapshots as the stores write them

  function Restrict<V>(idx: Index<V>, keys: set<string>): Index<V> {
    map k | k in idx && k in keys :: idx[k]
  }

  lemma FoldMore<V>(idx: Index<V>, todo: set<string>, es: seq<Entry<V>>, k: string)
    requires k in todo && todo <= idx.Keys && Fold(map[], es) == Restrict(idx, idx.Keys - todo)
    requires forall e | e in es :: e.key in idx.Keys - todo
    ensures Fold(map[], [Put(k, idx[k])] + es) == Restrict(idx, idx.Keys - (todo - {k}))
  {
    var e := Put(k, idx[k]);
    FoldCommutes(map[], es, e);
    assert ([e] + es)[1..] == es;
    assert Restrict(idx, idx.Keys - (todo - {k})) == Restrict(idx, idx.Keys - todo)[k := idx[k]];
    assert Apply(map[], e) == map[][k := idx[k]];
  }

  /** Writes an index as one JSON object, in some order of its keys. */
  method WriteSnapshot<V>(c: Schema<V>, enc: V -> Value, idx: Index<V>) returns (text: string)
    requires forall k | k in idx :: c.member(k, enc(idx[k])) == Some(Put(k, idx[k]))
    ensures Restores(c, text, idx)
  {
    var ms, todo := NoMember, idx.Keys;
    ghost var es: seq<Entry<V>> := [];
    while todo != {}
      invariant todo <= idx.Keys
      invariant MemberEntries(c, ms) == Okay(es)
      invariant forall e | e in es :: e.Put? && e.key in idx.Keys - todo && e.val == idx[e.key]
      invariant Fold(map[], es) == Restrict(idx, idx.Keys - todo)
    {
      var k :| k in todo;
      FoldMore(idx, todo, es, k);
      ms, todo, es := Member(k, enc(idx[k]), ms), todo - {k}, [Put(k, idx[k])] + es;
    }
    text := Text(Obj(ms));
    RoundTrip(Obj(ms), []);
    assert text + [] == text;
    assert Restrict(idx, idx.Keys) == idx;
  }

  /** Reads a snapshot member by member; a missing or empty file is an empty index. */
  method LoadSnapshot<V>(c: Schema<V>, snapshot: Option<string>) returns (r: Result<Index<V>>)
    ensures r == Folded(map[], SnapshotEntries(c, snapshot))
  {
    if snapshot == None || snapshot == Some([]) { return Okay(map[]); }
    match Parse(snapshot.value)
    case Some(Obj(all)) =>
      var ms, cur: Index<V> := all, map[];
      while ms.Member?
        invariant Folded(cur, MemberEntries(c, ms)) == Folded(map[], MemberEntries(c, all))
        decreases ms
      {
        match c.member(ms.key, ms.val)
        case None => return Corrupt;
        case Some(e) =>
          ghost var rest := MemberEntries(c, ms.rest);
          if rest.Okay? { assert ([e] + rest.value)[1..] == rest.value; }
          ms, cur := ms.rest, Apply(cur, e);
      }
      r := Okay(cur);
    case _ => r := Corrupt;
  }

  // ---------------------------------------------------------------- the disk as an object

  /** The three files. `seen` collects every image the disk has shown, so that a caller's contract
      can speak about a crash at any instant. `stop` is where an injected I/O error strikes: that many
      bytes reach the file, and with the whole text written `stop == |data|` is a failed fsync. */
  class Disk {
    var journal: string
    var snapshot: Option<string>
    var tmp: Option<string>
    ghost var seen: set<Image>

    ghost function Now(): Image reads this { Image(journal, snapshot, tmp) }

    constructor (img: Image)
      ensures Now() == img && seen == {img}
    {
      journal, snapshot, tmp := img.journal, img.snapshot, img.tmp;
      seen := {img};
    }

    method AppendJournal(data: string, stop: nat) returns (ok: bool)
      modifies this
      ensures ok <==> stop > |data|
      ensures Now() == old(Now()).(journal := old(journal) + data[..if ok then |data| else stop])
      ensures seen == old(seen) + set k | 0 <= k <= (if ok then |data| else stop) ::
                old(Now()).(journal := old(journal) + data[..k])
    {
      ok := stop > |data|;
      var n := if ok then |data| else stop;
      seen := seen + set k | 0 <= k <= n :: Now().(journal := journal + data[..k]);
      journal := journal + data[..n];
    }

    method WriteTmp(data: string, stop: nat) returns (ok: bool)
      modifies this
      ensures ok <==> stop > |data|
      ensures Now() == old(Now()).(tmp := Some(data[..if ok then |data| else stop]))
      ensures seen == old(seen) + set k | 0 <= k <= (if ok then |data| else stop) :: old(Now()).(tmp := Some(data[..k]))
    {
      ok := stop > |data|;
      var n := if ok then |data| else stop;
      seen := seen + set k | 0 <= k <= n :: Now().(tmp := Some(data[..k]));
      tmp := Some(data[..n]);
    }

    method RemoveTmp()
      modifies this
      ensures Now() == old(Now()).(tmp := None) && seen == old(seen) + {Now()}
    {
      tmp := None;
      seen := seen + {Now()};
    }

    method RenameTmp()
      requires tmp.Some?
      modifies this
      ensures Now() == old(Now()).(snapshot := old(tmp), tmp := None) && seen == old(seen) + {Now()}
    {
      snapshot, tmp := tmp, None;
      seen := seen + {Now()};
    }

    method TruncateJournal()
      modifies this
      ensures Now() == old(Now()).(journal := []) && seen == old(seen) + {Now()}
    {
      journal := [];
      seen := seen + {Now()};
    }

    /** Compaction: temporary file, rename, truncate. Until the rename succeeds nothing durable changes. */
    method Compact(text: string, fault: CompactFault) returns (ok: bool)
      modifies this
      ensures ok <==> fault.NoFault?
      ensures forall img | img in seen && img !in old(seen) :: Visible(old(Now()), Op.Compact(text), img)
      ensures Visible(old(Now()), Op.Compact(text), Now())
      ensures fault.NoFault? ==> Now() == Image([], Some(text), None)
      ensures fault.TruncateFails? ==> Now() == Image(old(journal), Some(text), None)
      ensures fault.WriteFails? || fault.RenameFails? ==> journal == old(journal) && snapshot == old(snapshot)
    {
      var written := WriteTmp(text, if fault.WriteFails? && fault.stop <= |text| then fault.stop else |text| + 1);
      assert forall k | 0 <= k <= |text| :: TmpCut(old(Now()), text, k, old(Now()).(tmp := Some(text[..k])));
      if !written || fault.WriteFails? || fault.RenameFails? {
        RemoveTmp();
        return false;
      }
      assert text[..|text|] == text;
      RenameTmp();
      if fault.TruncateFails? { return false; }
      TruncateJournal();
      ok := true;
    }
  }

  /** Which disk step of a compaction fails. */
  datatype CompactFault = NoFault | WriteFails(stop: nat) | RenameFails | TruncateFails
}
