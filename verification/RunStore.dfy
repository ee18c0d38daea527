/** runstore: the durable run journal of the orchestrator. Records and their JSON form, and the
    file-backed store as an object over the journal of module `Journal`. */
module RunStore {
  import opened Json
  import opened Journal
  import opened Order

  datatype Status = Unset | Pending | Running | AwaitingApproval | Completed | Failed | NeedsHuman

  /** Completed and failed records drop out of ListInFlight; needs-human stays in flight. */
  predicate IsTerminal(s: Status) { s.Completed? || s.Failed? }

  datatype AttemptState = AttemptState(taskID: string, attempt: nat, status: Status, detail: string, updatedAt: nat)

  datatype PendingApproval = PendingApproval(taskID: string, reason: string, requestedAt: nat, escalated: bool)

  /** The durable state of one goal. `plan` is raw JSON, Null when absent; time 0 is the zero time. */
  datatype Record = Record(
    goalID: string, goal: string, plan: Value,
    attempts: seq<AttemptState>, pending: seq<PendingApproval>,
    status: Status, createdAt: nat, updatedAt: nat, deleted: bool, attempt: nat)

  function Blankish(goalID: string, status: Status): Record {
    Record(goalID, "", Null, [], [], status, 0, 0, false, 0)
  }

  // ---------------------------------------------------------------- JSON form

  function StatusText(s: Status): string {
    match s
    case Unset => ""
    case Pending => "pending"
    case Running => "running"
    case AwaitingApproval => "awaiting_approval"
    case Completed => "completed"
    case Failed => "failed"
    case NeedsHuman => "needs-human"
  }

  function StatusOf(t: string): Option<Status> {
    if t == "" then Some(Unset)
    else if t == "pending" then Some(Pending)
    else if t == "running" then Some(Running)
    else if t == "awaiting_approval" then Some(AwaitingApproval)
    else if t == "completed" then Some(Completed)
    else if t == "failed" then Some(Failed)
    else if t == "needs-human" then Some(NeedsHuman)
    else None
  }

  function AttemptJson(a: AttemptState): Value {
    Obj(Member("task_id", Str(a.taskID), Member("attempt", Num(a.attempt), Member("status", Str(StatusText(a.status)),
        Member("detail", Str(a.detail), Member("updated_at", Num(a.updatedAt), NoMember))))))
  }

  function AttemptOf(v: Value): Option<AttemptState> {
    match v
    case Obj(Member(k0, Str(task),
                    Member(k1, Num(n), Member(k2, Str(st), Member(k3, Str(detail), Member(k4, Num(at), NoMember)))))) =>
      if k0 == "task_id" && k1 == "attempt" && k2 == "status" && k3 == "detail" && k4 == "updated_at"
         && StatusOf(st).Some?
      then Some(AttemptState(task, n, StatusOf(st).value, detail, at)) else None
    case _ => None
  }

  function PendingJson(p: PendingApproval): Value {
    Obj(Member("task_id", Str(p.taskID), Member("reason", Str(p.reason), Member("requested_at", Num(p.requestedAt),
        Member("escalated", Bool(p.escalated), NoMember)))))
  }

  function PendingOf(v: Value): Option<PendingApproval> {
    match v
    case Obj(Member(k0, Str(task), Member(k1, Str(reason), Member(k2, Num(at), Member(k3, Bool(esc), NoMember))))) =>
      if k0 == "task_id" && k1 == "reason" && k2 == "requested_at" && k3 == "escalated"
      then Some(PendingApproval(task, reason, at, esc)) else None
    case _ => None
  }

  function ListJson<T>(enc: T -> Value, xs: seq<T>): Elems {
    if xs == [] then NoElem else Elem(enc(xs[0]), ListJson(enc, xs[1..]))
  }

  function ListOf<T>(dec: Value -> Option<T>, es: Elems): Option<seq<T>> {
    match es
    case NoElem => Some([])
    case Elem(h, t) =>
      match (dec(h), ListOf(dec, t))
      case (Some(x), Some(xs)) => Some([x] + xs)
      case _ => None
  }

  lemma {:induction false} ListRoundTrip<T>(enc: T -> Value, dec: Value -> Option<T>, xs: seq<T>)
    requires forall x | x in xs :: dec(enc(x)) == Some(x)
    ensures ListOf(dec, ListJson(enc, xs)) == Some(xs)
  {
    if xs != [] {
      ListRoundTrip(enc, dec, xs[1..]);
      assert [xs[0]] + xs[1..] == xs;
    }
  }

  function RecordJson(r: Record): Value {
    Obj(Member("goal_id", Str(r.goalID), Member("goal", Str(r.goal), Member("plan", r.plan,
        Member("attempts", Arr(ListJson(AttemptJson, r.attempts)),
               Member("pending", Arr(ListJson(PendingJson, r.pending)),
        Member("status", Str(StatusText(r.status)),
               Member("created_at", Num(r.createdAt), Member("updated_at", Num(r.updatedAt),
        Member("deleted", Bool(r.deleted), Member("attempt", Num(r.attempt), NoMember)))))))))))
  }

  function RecordOf(v: Value): Option<Record> {
    match v
    case Obj(Member(k0, Str(id), Member(k1, Str(goal), Member(k2, plan, Member(k3, Arr(ats), Member(k4, Arr(pas),
         Member(k5, Str(st), Member(k6, Num(created), Member(k7, Num(updated),
           Member(k8, Bool(del), Member(k9, Num(n), NoMember))))))))))) =>
      if k0 == "goal_id" && k1 == "goal" && k2 == "plan" && k3 == "attempts" && k4 == "pending" && k5 == "status"
         && k6 == "created_at" && k7 == "updated_at" && k8 == "deleted" && k9 == "attempt"
         && ListOf(AttemptOf, ats).Some? && ListOf(PendingOf, pas).Some? && StatusOf(st).Some?
      then Some(Record(id, goal, plan, ListOf(AttemptOf, ats).value, ListOf(PendingOf, pas).value,
                       StatusOf(st).value, created, updated, del, n))
      else None
    case _ => None
  }

  lemma StatusRoundTrip(s: Status)
    ensures StatusOf(StatusText(s)) == Some(s)
  {
  }

  lemma AttemptRoundTrip(a: AttemptState)
    ensures AttemptOf(AttemptJson(a)) == Some(a)
  {
    hide StatusOf, StatusText;
    StatusRoundTrip(a.status);
  }

  lemma RecordRoundTrip(r: Record)
    ensures RecordOf(RecordJson(r)) == Some(r) && IsLine(RecordJson(r))
  {
    hide AttemptOf, AttemptJson, StatusOf, StatusText, ListOf, ListJson;
    forall a | a in r.attempts ensures AttemptOf(AttemptJson(a)) == Some(a) { AttemptRoundTrip(a); }
    ListRoundTrip(AttemptJson, AttemptOf, r.attempts);
    ListRoundTrip(PendingJson, PendingOf, r.pending);
    StatusRoundTrip(r.status);
  }

  // ---------------------------------------------------------------- the store

  /** apply: a tombstone removes its goal, any other record replaces it. */
  function RecordEntry(v: Value): Option<Entry<Record>> {
    match RecordOf(v)
    case None => None
    case Some(r) => Some(if r.deleted then Drop(r.goalID) else Put(r.goalID, r))
  }

  /** The snapshot is applied record by record; its member names are not looked at. */
  const RUNS: Schema<Record> := Schema(RecordEntry, (k, v) => RecordEntry(v))

  ghost predicate WellKeyed(idx: Index<Record>) {
    forall k | k in idx :: idx[k].goalID == k && !idx[k].deleted
  }

  ghost predicate GoodEntries(es: seq<Entry<Record>>) {
    forall e | e in es && e.Put? :: e.val.goalID == e.key && !e.val.deleted
  }

  lemma {:induction false} FoldWellKeyed(idx: Index<Record>, es: seq<Entry<Record>>)
    requires WellKeyed(idx) && GoodEntries(es)
    ensures WellKeyed(Fold(idx, es))
    decreases |es|
  {
    if es != [] { FoldWellKeyed(Apply(idx, es[0]), es[1..]); }
  }

  lemma {:induction false} EntriesGood(t: string)
    ensures Entries(RUNS, t).Okay? ==> GoodEntries(Entries(RUNS, t).value)
    decreases |t|
  {
    if Newline(t) < |t| { EntriesGood(t[Newline(t) + 1..]); }
  }

  lemma {:induction false} MembersGood(ms: Members)
    ensures MemberEntries(RUNS, ms).Okay? ==> GoodEntries(MemberEntries(RUNS, ms).value)
  {
    if ms.Member? { MembersGood(ms.rest); }
  }

  lemma OpenWellKeyed(img: Image)
    ensures Open(RUNS, img).Okay? ==> WellKeyed(Open(RUNS, img).value)
  {
    EntriesGood(img.journal);
    if img.snapshot.Some? && Parse(img.snapshot.value).Some? && Parse(img.snapshot.value).value.Obj? {
      MembersGood(Parse(img.snapshot.value).value.members);
    }
    if Open(RUNS, img).Okay? {
      FoldWellKeyed(map[], Join(SnapshotEntries(RUNS, img.snapshot), Entries(RUNS, img.journal)).value);
    }
  }

  /** `img` reopens to one of the two indexes. */
  ghost predicate Recovers(img: Image, before: Index<Record>, after: Index<Record>) {
    Open(RUNS, img) == Okay(before) || Open(RUNS, img) == Okay(after)
  }

  lemma AppendRecovers(s: Store<Record>, rec: Record)
    requires Consistent(RUNS, s) && Terminated(s.img.journal) && WellKeyed(s.idx)
    ensures var line := Line(RecordJson(rec));
            && (forall k | 0 <= k <= |line| ::
                  Recovers(s.img.(journal := s.img.journal + line[..k]), s.idx, Applied(s.idx, rec)))
            && Consistent(RUNS, Store(s.img.(journal := s.img.journal + line), Applied(s.idx, rec)))
            && Terminated(s.img.journal + line)
            && WellKeyed(Applied(s.idx, rec))
  {
    RecordRoundTrip(rec);
    hide RecordJson, RecordOf, IsLine, Open, Text;
    var line, op := Line(RecordJson(rec)), Append(RecordJson(rec));
    OpCompletes(RUNS, s, op);
    forall k | 0 <= k <= |line|
      ensures Recovers(s.img.(journal := s.img.journal + line[..k]), s.idx, Applied(s.idx, rec))
    {
      var img := s.img.(journal := s.img.journal + line[..k]);
      assert AppendCut(s.img, RecordJson(rec), k, img);
      CrashRecovers(RUNS, s, op, img);
    }
  }

  /** One more whole record on a disk that opens: it opens again exactly when the journal was newline-terminated. */
  lemma TornAppendRefused(img: Image, rec: Record)
    requires Open(RUNS, img).Okay? && LeftByWrites(img.journal)
    ensures Open(RUNS, img.(journal := img.journal + Line(RecordJson(rec)))).Okay? <==> Terminated(img.journal)
  {
    RecordRoundTrip(rec);
    OpenIsFold(RUNS, img);
    OpenIsFold(RUNS, img.(journal := img.journal + Line(RecordJson(rec))));
    var body, ps :| Laid(RUNS, img.journal, body, ps) && Entries(RUNS, body).Okay?;
    AppendReopensIff(RUNS, img.journal, body, ps, RecordJson(rec), []);
  }

  /** A journal that writes, cut short or not, have left: readable lines, and pieces of lines behind them. */
  ghost predicate LeftByWrites(t: string) { exists body, ps :: Laid(RUNS, t, body, ps) && Entries(RUNS, body).Okay? }

  predicate InFlight(idx: Index<Record>, r: Record) { r.goalID in idx && idx[r.goalID] == r && !IsTerminal(r.status) }

  ghost predicate ByGoal(rs: seq<Record>) { forall i, j | 0 <= i < j < |rs| :: Before(rs[i].goalID, rs[j].goalID) }

  method InsertByGoal(rs: seq<Record>, rec: Record) returns (out: seq<Record>)
    requires ByGoal(rs) && forall r | r in rs :: r.goalID != rec.goalID
    ensures ByGoal(out) && forall r :: r in out <==> r in rs || r == rec
  {
    var k := 0;
    while k < |rs| && Before(rs[k].goalID, rec.goalID)
      invariant 0 <= k <= |rs| && forall j | 0 <= j < k :: Before(rs[j].goalID, rec.goalID)
    {
      k := k + 1;
    }
    out := rs[..k] + [rec] + rs[k..];
    assert rs == rs[..k] + rs[k..];
    InsertedByGoal(rs, rec, k);
  }

  lemma InsertedByGoal(rs: seq<Record>, rec: Record, k: nat)
    requires ByGoal(rs) && k <= |rs| && forall r | r in rs :: r.goalID != rec.goalID
    requires forall j | 0 <= j < k :: Before(rs[j].goalID, rec.goalID)
    requires k < |rs| ==> !Before(rs[k].goalID, rec.goalID)
    ensures ByGoal(rs[..k] + [rec] + rs[k..])
  {
    var out := rs[..k] + [rec] + rs[k..];
    forall j | k <= j < |rs| ensures Before(rec.goalID, rs[j].goalID) {
      assert rs[k] in rs;
      BeforeTotal(rs[k].goalID, rec.goalID);
      if k < j { BeforeTransitive(rec.goalID, rs[k].goalID, rs[j].goalID); }
    }
    forall i, j | 0 <= i < j < |out| ensures Before(out[i].goalID, out[j].goalID) {
      assert out[i] == (if i < k then rs[i] else if i == k then rec else rs[i - 1]);
      assert out[j] == (if j < k then rs[j] else if j == k then rec else rs[j - 1]);
    }
  }

  class FileStore {
    const disk: Disk
    var index: Index<Record>

    ghost function State(): Store<Record> reads this, disk { Store(disk.Now(), index) }

    /** Every record sits under its own goal ID and none is a tombstone. */
    ghost predicate Valid() reads this { WellKeyed(index) }

    /** The index is what a reopen would build now. */
    ghost predicate InStep() reads this, disk { Consistent(RUNS, State()) }

    constructor (disk: Disk, index: Index<Record>)
      ensures this.disk == disk && this.index == index
    {
      this.disk, this.index := disk, index;
    }

    /** NewFileStore: snapshot, then journal; fails exactly when the files do not read. */
    static method OpenStore(disk: Disk) returns (r: Result<FileStore>)
      ensures r.Okay? <==> Open(RUNS, disk.Now()).Okay?
      ensures r.Okay? ==> fresh(r.value) && r.value.disk == disk && r.value.Valid() && r.value.InStep()
    {
      OpenIsFold(RUNS, disk.Now());
      OpenWellKeyed(disk.Now());
      var base := LoadSnapshot(RUNS, disk.snapshot);
      if base.Corrupt? { return Corrupt; }
      var idx := Replay(RUNS, disk.journal, base.value);
      if idx.Corrupt? { return Corrupt; }
      var store := new FileStore(disk, idx.value);
      r := Okay(store);
    }

    /** Appends a record and applies it; on an I/O error the index is untouched. On a newline-terminated
        journal the disk reopens, at every instant, to the index before or after. On a journal a crash
        left behind, it will reopen afterwards exactly when that journal was newline-terminated. */
    method Write(rec: Record, stop: nat) returns (ok: bool)
      requires Valid()
      modifies this, disk
      ensures Valid()
      ensures ok <==> stop > |Line(RecordJson(rec))|
      ensures index == if ok then Applied(old(index), rec) else old(index)
      ensures old(InStep() && Terminated(disk.journal)) ==>
                && (ok ==> InStep() && Terminated(disk.journal))
                && Recovers(disk.Now(), old(index), Applied(old(index), rec))
                && forall img | img in disk.seen && img !in old(disk.seen) ::
                     Recovers(img, old(index), Applied(old(index), rec))
      ensures ok && old(Open(RUNS, disk.Now()).Okay? && LeftByWrites(disk.journal)) ==>
                (Open(RUNS, disk.Now()).Okay? <==> old(Terminated(disk.journal)))
    {
      ghost var s, line := State(), Line(RecordJson(rec));
      if Consistent(RUNS, s) && Terminated(s.img.journal) { AppendRecovers(s, rec); }
      hide Consistent, Recovers;
      if Open(RUNS, s.img).Okay? && LeftByWrites(s.img.journal) { TornAppendRefused(s.img, rec); }
      ok := disk.AppendJournal(Line(RecordJson(rec)), stop);
      if ok {
        assert line[..|line|] == line;
        index := Applied(index, rec);
      }
    }

    /** Save: the goal's record becomes the given one, CreatedAt stamped on the first write only and UpdatedAt on
        every write; a deleted record takes its goal out; nothing happens to any other goal. */
    method Save(rec: Record, now: nat, stop: nat) returns (ok: bool)
      requires Valid()
      modifies this, disk
      ensures Valid()
      ensures ok <==> stop > |Line(RecordJson(Stamped(rec, now)))|
      ensures index == if ok then Applied(old(index), Stamped(rec, now)) else old(index)
      ensures SavedInto(old(index), Applied(old(index), Stamped(rec, now)), rec, now)
      ensures ok ==> SavedInto(old(index), index, rec, now)
      ensures ok && old(InStep() && Terminated(disk.journal)) ==>
                Open(RUNS, disk.Now()).Okay? && SavedInto(old(index), Open(RUNS, disk.Now()).value, rec, now)
      ensures old(InStep() && Terminated(disk.journal)) ==>
                && (ok ==> InStep() && Terminated(disk.journal))
                && Recovers(disk.Now(), old(index), Applied(old(index), Stamped(rec, now)))
                && forall img | img in disk.seen && img !in old(disk.seen) ::
                     Recovers(img, old(index), Applied(old(index), Stamped(rec, now)))
      ensures ok && old(Open(RUNS, disk.Now()).Okay? && LeftByWrites(disk.journal)) ==>
                (Open(RUNS, disk.Now()).Okay? <==> old(Terminated(disk.journal)))
    {
      SaveStores(index, rec, now);
      hide SavedInto, Stamped, Applied;
      ok := Write(Stamped(rec, now), stop);
    }

    /** Delete writes a tombstone even for an unknown goal. */
    method Delete(goalID: string, now: nat, stop: nat) returns (ok: bool)
      requires Valid()
      modifies this, disk
      ensures Valid()
      ensures ok <==> stop > |Line(RecordJson(Blankish(goalID, Unset).(deleted := true, updatedAt := now)))|
      ensures index == if ok then old(index) - {goalID} else old(index)
      ensures old(InStep() && Terminated(disk.journal)) ==>
                && (ok ==> InStep() && Terminated(disk.journal))
                && Recovers(disk.Now(), old(index), old(index) - {goalID})
                && forall img | img in disk.seen && img !in old(disk.seen) ::
                     Recovers(img, old(index), old(index) - {goalID})
    {
      ok := Write(Blankish(goalID, Unset).(deleted := true, updatedAt := now), stop);
    }

    /** A loaded record is the goal's own and never a tombstone; in step with the disk, it is what a reopen would
        find. */
    method Load(goalID: string) returns (r: Option<Record>)
      requires Valid()
      ensures r.Some? <==> goalID in index
      ensures r.Some? ==> r.value == index[goalID] && r.value.goalID == goalID && !r.value.deleted
      ensures InStep() ==> var disk := Open(RUNS, disk.Now()).value;
                           (r.Some? <==> goalID in disk) && (r.Some? ==> r.value == disk[goalID])
    {
      r := if goalID in index then Some(index[goalID]) else None;
    }

    /** The goals still in flight, sorted by goal ID: the index alone decides the list, not the map's order. */
    method ListInFlight() returns (out: seq<Record>)
      requires Valid()
      ensures forall r :: r in out <==>
                r.goalID in index && index[r.goalID] == r && !r.status.Completed? && !r.status.Failed?
      ensures ByGoal(out)
    {
      out := [];
      var keys := index.Keys;
      while keys != {}
        invariant keys <= index.Keys && ByGoal(out)
        invariant forall r :: r in out <==> InFlight(index, r) && r.goalID !in keys
        decreases |keys|
      {
        var g :| g in keys;
        keys := keys - {g};
        if IsTerminal(index[g].status) { continue; }
        out := InsertByGoal(out, index[g]);
      }
    }

    /** Compact never changes what a reopen yields, whichever disk step fails. When it succeeds the disk
        reopens to the index whatever was on it before, so it repairs a torn or even a glued journal. */
    method Compact(fault: CompactFault) returns (ok: bool)
      requires Valid()
      modifies disk
      ensures ok <==> fault.NoFault?
      ensures ok ==> InStep() && disk.journal == []
      ensures fault.WriteFails? || fault.RenameFails? ==>
                disk.journal == old(disk.journal) && disk.snapshot == old(disk.snapshot)
      ensures old(InStep()) ==>
                InStep() && forall img | img in disk.seen && img !in old(disk.seen) :: Open(RUNS, img) == Okay(index)
    {
      forall k | k in index ensures RUNS.member(k, RecordJson(index[k])) == Some(Put(k, index[k])) {
        RecordRoundTrip(index[k]);
      }
      var text := WriteSnapshot(RUNS, RecordJson, index);
      ghost var s := State();
      OpenIsFold(RUNS, Image([], Some(text), None));
      assert Entries(RUNS, []) == Okay([]);
      if Consistent(RUNS, s) {
        forall img | Visible(s.img, Op.Compact(text), img) ensures Open(RUNS, img) == Okay(s.idx) {
          CrashRecovers(RUNS, s, Op.Compact(text), img);
        }
      }
      ok := disk.Compact(text, fault);
    }
  }

  /** What saving `rec` at time `now` makes of an index. */
  ghost predicate SavedInto(before: Index<Record>, after: Index<Record>, rec: Record, now: nat) {
    && (forall g | g != rec.goalID :: (g in after <==> g in before) && (g in before ==> after[g] == before[g]))
    && (rec.goalID in after <==> !rec.deleted)
    && (rec.goalID in after ==>
          && after[rec.goalID] == rec.(createdAt := after[rec.goalID].createdAt, updatedAt := now)
          && after[rec.goalID].createdAt == if rec.createdAt == 0 then now else rec.createdAt)
  }

  lemma SaveStores(idx: Index<Record>, rec: Record, now: nat)
    ensures SavedInto(idx, Applied(idx, Stamped(rec, now)), rec, now)
  {
  }

  function Stamped(rec: Record, now: nat): Record {
    rec.(createdAt := if rec.createdAt == 0 then now else rec.createdAt, updatedAt := now)
  }

  function Applied(idx: Index<Record>, rec: Record): Index<Record> {
    if rec.deleted then idx - {rec.goalID} else idx[rec.goalID := rec]
  }
}
