/** What the endpoint map guarantees: the file says what memory says when it claims to have
    checked, drift is exact and sticky, and a retired identity stays retired. */
module EndpointMapProofs {
  import opened Protocol
  import opened EndpointMap

  // --- the file round trip -------------------------------------------------

  function NonEmptyText(s: Option<string>): Option<string> { if s == Some("") then None else s }

  /** What survives a write and a read: everything but an empty string. */
  function Normal(r: Record): Record {
    r.(role := NonEmptyText(r.role), name := NonEmptyText(r.name), supersededBy := NonEmptyText(r.supersededBy))
  }

  predicate NoEmptyText(r: Record) {
    r.role != Some("") && r.name != Some("") && r.supersededBy != Some("")
  }

  function NormalMap(endpoints: map<string, Record>): map<string, Record> {
    map id | id in endpoints :: Normal(endpoints[id])
  }

  lemma GetWritten(r: Record, f: Field)
    ensures Get(WriteRecord(r).fields, f) == if FieldOf(r, f).Some? then FieldOf(r, f).value else JNull
  {
  }

  lemma ReadAfterWrite(r: Record)
    ensures ReadRecord(WriteRecord(r)) == Some(Normal(r))
  {
    GetWritten(r, FNumber);
    GetWritten(r, FRole);
    GetWritten(r, FLabel);
    GetWritten(r, FVoid);
    GetWritten(r, FOrphaned);
    GetWritten(r, FBattery);
    GetWritten(r, FDevice);
    GetWritten(r, FSuperseded);
  }

  lemma LoadEach(entries: map<string, Candidate>, records: map<string, Record>)
    requires entries.Keys == records.Keys
    requires forall id :: id in records ==> ReadRecord(entries[id]) == Some(records[id])
    ensures Load(Document(JNum(2.0), Some(entries))) == Loaded(records, true, false)
  {
  }

  /** Loading what was written gives back the map, empty strings aside. */
  lemma LoadAfterWrite(endpoints: map<string, Record>)
    ensures Load(Written(endpoints)) == Loaded(NormalMap(endpoints), true, false)
  {
    var entries := map id | id in endpoints :: WriteRecord(endpoints[id]);
    forall id | id in endpoints ensures ReadRecord(entries[id]) == Some(NormalMap(endpoints)[id]) {
      ReadAfterWrite(endpoints[id]);
    }
    LoadEach(entries, NormalMap(endpoints));
  }

  lemma NormalIffNoEmptyText(endpoints: map<string, Record>)
    ensures NormalMap(endpoints) == endpoints <==> forall id :: id in endpoints ==> NoEmptyText(endpoints[id])
  {
    if NormalMap(endpoints) == endpoints {
      forall id | id in endpoints ensures NoEmptyText(endpoints[id]) {
        assert NormalMap(endpoints)[id] == endpoints[id];
      }
    }
  }

  /** The round trip is the identity exactly on maps without empty strings. */
  lemma RoundTripExactly(endpoints: map<string, Record>)
    ensures Load(Written(endpoints)).endpoints == endpoints
            <==> forall id :: id in endpoints ==> NoEmptyText(endpoints[id])
  {
    LoadAfterWrite(endpoints);
    NormalIffNoEmptyText(endpoints);
  }

  /** A version 1 file, bare numbers only, keeps every number. */
  lemma LegacyFileKeepsNumbers(numbers: map<string, nat>)
    ensures Load(Document(JNum(1.0), Some(map id | id in numbers :: Plain(JNum(numbers[id] as real)))))
            == Loaded(map id | id in numbers :: Bare(numbers[id]), true, false)
  {
  }

  /** Whatever a file holds, what loads from it has no empty strings. */
  lemma LoadedIsNormal(disk: Disk)
    ensures forall id :: id in Load(disk).endpoints ==> NoEmptyText(Load(disk).endpoints[id])
    ensures NormalMap(Load(disk).endpoints) == Load(disk).endpoints
  {
    var m := Load(disk).endpoints;
    forall id | id in m ensures NoEmptyText(m[id]) && Normal(m[id]) == m[id] {}
  }

  // --- which files are read, and as what ------------------------------------

  function NumberValue(n: int): Json { JNum(n as real) }

  /** An endpoint number: a whole number not below zero. */
  ghost predicate Numbers(v: Json) { exists n: nat :: v == NumberValue(n) }

  /** An entry of either schema that carries a number. */
  ghost predicate EntryOk(c: Candidate) {
    match c
    case Plain(v) => Numbers(v)
    case Object(f) => FNumber in f && Numbers(f[FNumber])
  }

  /** An endpoint map: a JSON document of version 1 or 2 whose every entry carries a number. */
  ghost predicate Usable(disk: Disk) {
    && disk.Document? && disk.endpoints.Some?
    && (disk.version == NumberValue(1) || disk.version == NumberValue(2))
    && forall id :: id in disk.endpoints.value ==> EntryOk(disk.endpoints.value[id])
  }

  lemma NumbersExactly(v: Json)
    ensures Numbers(v) <==> IsEndpointNumber(v)
    ensures IsEndpointNumber(v) ==> v == NumberValue(v.r.Floor)
  {
    if IsEndpointNumber(v) {
      var n: nat := v.r.Floor;
      assert v == NumberValue(n);
    }
  }

  /** `field` holds this text, or none that counts. */
  predicate TextSaid(f: map<Field, Json>, field: Field, text: Option<string>) {
    match text
    case Some(t) => t != "" && field in f && f[field] == JStr(t)
    case None => field !in f || !f[field].JStr? || f[field] == JStr("")
  }

  predicate FlagSaid(f: map<Field, Json>, field: Field, flag: bool) {
    flag <==> field in f && f[field] == JBool(true)
  }

  /** What a record may say, given its entry: the number, and each field that has the right type.
      Whatever else an entry holds is as if it were not there. */
  ghost predicate Says(c: Candidate, r: Record) {
    match c
    case Plain(v) =>
      v == NumberValue(r.number) && r == Record(r.number, None, None, false, false, false, None, None)
    case Object(f) =>
      && FNumber in f && f[FNumber] == NumberValue(r.number)
      && TextSaid(f, FRole, r.role) && TextSaid(f, FLabel, r.name) && TextSaid(f, FSuperseded, r.supersededBy)
      && FlagSaid(f, FVoid, r.numberVoid) && FlagSaid(f, FOrphaned, r.orphaned) && FlagSaid(f, FBattery, r.battery)
      && (r.deviceId.Some? ==> FDevice in f && f[FDevice] == NumberValue(r.deviceId.value))
      && (r.deviceId.None? ==> forall d: int :: FDevice in f ==> f[FDevice] != NumberValue(d))
  }

  lemma RecordSays(c: Candidate)
    ensures ReadRecord(c).Some? <==> EntryOk(c)
    ensures ReadRecord(c).Some? ==> Says(c, ReadRecord(c).value)
  {
    match c {
      case Plain(v) => NumbersExactly(v);
      case Object(f) =>
        NumbersExactly(Get(f, FNumber));
        if FNumber !in f { assert Get(f, FNumber) == JNull; }
    }
  }

  /** What a start finds, from the file alone: nothing exactly when there is no file, a problem
      exactly when there is one that is no endpoint map, and otherwise one record for each entry,
      saying what the entry says. */
  lemma LoadTells(disk: Disk)
    ensures Load(disk).present <==> disk != Absent
    ensures Load(disk).problem <==> disk != Absent && !Usable(disk)
    ensures !Usable(disk) ==> Load(disk).endpoints == map[]
    ensures Usable(disk) ==>
              && Load(disk).endpoints.Keys == disk.endpoints.value.Keys
              && forall id :: id in disk.endpoints.value ==> Says(disk.endpoints.value[id], Load(disk).endpoints[id])
  {
    if disk.Document? && disk.endpoints.Some? {
      forall id | id in disk.endpoints.value
        ensures ReadRecord(disk.endpoints.value[id]).Some? <==> EntryOk(disk.endpoints.value[id])
        ensures EntryOk(disk.endpoints.value[id]) ==>
                  Says(disk.endpoints.value[id], ReadRecord(disk.endpoints.value[id]).value)
      {
        RecordSays(disk.endpoints.value[id]);
      }
    }
  }

  // --- what `checked` asserts ----------------------------------------------

  datatype StoreOp =
    | LoadOp
    | CheckOp(live: seq<LiveNumber>)
    | ForgetOp(ids: seq<string>, successor: Option<string>)
    | DestroyOp(ids: seq<string>)
    | VoidOp
    | SeedOp(live: seq<LiveNumber>)
    | RebuildOp(live: seq<LiveNumber>)
    | DiscardOp

  function StepStore(s: Store, op: StoreOp, writes: Writes): Store {
    match op
    case LoadOp => LoadStore(s)
    case CheckOp(live) => Check(s, live, writes).store
    case ForgetOp(ids, successor) => Forget(s, ids, successor, writes)
    case DestroyOp(ids) => Destroy(s, ids, writes)
    case VoidOp => VoidNumbers(s, writes)
    case SeedOp(live) => if Seed(s, live, writes).Some? then Seed(s, live, writes).value else s
    case RebuildOp(live) => Rebuild(s, live, writes).store
    case DiscardOp => Discard(s, writes)
  }

  function RunStore(s: Store, ops: seq<StoreOp>, writes: Writes): Store
    decreases |ops|
  {
    if ops == [] then s else StepStore(RunStore(s, ops[..|ops| - 1], writes), ops[|ops| - 1], writes)
  }

  /** The file decodes, as the next start would decode it, to what memory holds. */
  predicate OnDisk(s: Store) { Load(s.disk) == Loaded(NormalMap(s.endpoints), true, false) }

  /** Memory is on disk, or owes the disk a write, or holds nothing and claims nothing. */
  predicate Accounted(s: Store) { OnDisk(s) || s.dirty || (s.endpoints == map[] && !s.compared) }

  lemma PersistAccounts(s: Store, writes: Writes)
    ensures var p := Persist(s, writes);
            Accounted(p) && (!p.dirty ==> OnDisk(p)) && p.endpoints == s.endpoints && p.compared == s.compared
    ensures Persist(s, writes).dirty <==> !writes(s.tick)
  {
    LoadAfterWrite(s.endpoints);
  }

  /** Comparing against an empty map records something new. */
  lemma {:induction false} CompareAllSteps(c: Comparison, live: seq<LiveNumber>)
    ensures c.changed ==> CompareAll(c, live).changed
    ensures !CompareAll(c, live).changed ==> CompareAll(c, live).endpoints == c.endpoints
    ensures live != [] && c.endpoints == map[] ==> CompareAll(c, live).changed
    decreases |live|
  {
    if live != [] {
      CompareAllSteps(CompareOne(c, live[0]), live[1..]);
    }
  }

  lemma CheckAccounts(s: Store, live: seq<LiveNumber>, writes: Writes)
    requires Accounted(s)
    ensures Accounted(Check(s, live, writes).store)
  {
    var c := CompareAll(Comparison(s.endpoints, [], false), live);
    CompareAllSteps(Comparison(s.endpoints, [], false), live);
    PersistAccounts(s.(endpoints := c.endpoints), writes);
  }

  lemma StepAccounts(s: Store, op: StoreOp, writes: Writes)
    requires Accounted(s)
    ensures Accounted(StepStore(s, op, writes))
  {
    match op
    case LoadOp => LoadedIsNormal(s.disk);
    case CheckOp(live) => CheckAccounts(s, live, writes);
    case ForgetOp(ids, successor) => PersistAccounts(s.(endpoints := ForgetIn(s.endpoints, ids, successor)), writes);
    case DestroyOp(ids) => PersistAccounts(s.(endpoints := s.endpoints - set id | id in ids), writes);
    case VoidOp => PersistAccounts(s.(endpoints := VoidAll(s.endpoints), compared := false), writes);
    case SeedOp(live) =>
      PersistAccounts(s.(endpoints := FromLive(live), problem := false, compared := live != []), writes);
    case RebuildOp(live) => PersistAccounts(s.(endpoints := FromLive(live), problem := false), writes);
    case DiscardOp =>
  }

  lemma {:induction false} RunAccounts(s: Store, ops: seq<StoreOp>, writes: Writes)
    requires Accounted(s)
    ensures Accounted(RunStore(s, ops, writes))
    decreases |ops|
  {
    if ops != [] {
      RunAccounts(s, ops[..|ops| - 1], writes);
      StepAccounts(RunStore(s, ops[..|ops| - 1], writes), ops[|ops| - 1], writes);
    }
  }

  /** A store just constructed over any file. */
  function FreshStore(disk: Disk, tick: nat): Store { Store(map[], false, false, false, false, disk, tick) }

  /** Over every run, with any pattern of failed writes and deletes, `checked` means the file
      decodes to the in-memory map, exactly unless that map carries an empty string. */
  lemma CheckedMeansOnDisk(disk: Disk, tick: nat, ops: seq<StoreOp>, writes: Writes)
    ensures var s := RunStore(FreshStore(disk, tick), ops, writes);
            s.Checked() ==>
              && OnDisk(s)
              && (Load(s.disk).endpoints == s.endpoints
                  <==> forall id :: id in s.endpoints ==> NoEmptyText(s.endpoints[id]))
  {
    var s := RunStore(FreshStore(disk, tick), ops, writes);
    RunAccounts(FreshStore(disk, tick), ops, writes);
    if s.Checked() {
      LoadAfterWrite(s.endpoints);
      RoundTripExactly(s.endpoints);
    }
  }

  /** An empty label is the one way to tell them apart: checked, yet lost on reload. */
  lemma EmptyLabelIsLostOnReload()
    ensures var live := [LiveNumber("indigo-7", 2, Some("onOffLight"), Some(""), Some(false), Some(7))];
            var s := RunStore(FreshStore(Absent, 0), [LoadOp, CheckOp(live)], t => true);
            s.Checked() && "indigo-7" in s.endpoints && Restorable("indigo-7", s.endpoints["indigo-7"])
            && "indigo-7" in Load(s.disk).endpoints && !Restorable("indigo-7", Load(s.disk).endpoints["indigo-7"])
  {
    var writes: Writes := t => true;
    var e := LiveNumber("indigo-7", 2, Some("onOffLight"), Some(""), Some(false), Some(7));
    var s0 := FreshStore(Absent, 0);
    var s1 := LoadStore(s0);
    assert RunStore(s0, [], writes) == s0;
    assert [LoadOp, CheckOp([e])][..1] == [LoadOp] && [LoadOp][..0] == [];
    assert RunStore(s0, [LoadOp], writes) == s1;
    assert CompareAll(Comparison(map[], [], false), [e]) == Comparison(map["indigo-7" := RecordFor(e)], [], true) by {
      assert [e][1..] == [];
    }
    var s2 := Check(s1, [e], writes).store;
    assert RunStore(s0, [LoadOp, CheckOp([e])], writes) == s2;
    LoadAfterWrite(s2.endpoints);
  }

  /** An operation that earns the flag: a comparison of something, or a seed or rebuild. */
  predicate Earns(op: StoreOp) { (op.CheckOp? || op.SeedOp? || op.RebuildOp?) && op.live != [] }

  /** An operation that gives it up; voiding an empty map does nothing at all. */
  predicate GivesUp(s: Store, op: StoreOp) {
    op.LoadOp? || op.DiscardOp? || (op.VoidOp? && s.endpoints != map[])
  }

  /** Operation `i` earned the flag and nothing since gave it up. */
  ghost predicate EarnedAt(s: Store, ops: seq<StoreOp>, writes: Writes, i: nat) {
    i < |ops| && Earns(ops[i]) && forall j :: i < j < |ops| ==> !GivesUp(RunStore(s, ops[..j], writes), ops[j])
  }

  lemma EarnedLater(s: Store, ops: seq<StoreOp>, writes: Writes, i: nat)
    requires ops != [] && EarnedAt(s, ops[..|ops| - 1], writes, i)
    requires !GivesUp(RunStore(s, ops[..|ops| - 1], writes), ops[|ops| - 1])
    ensures EarnedAt(s, ops, writes, i)
  {
    var init := ops[..|ops| - 1];
    forall j | i < j < |ops| ensures !GivesUp(RunStore(s, ops[..j], writes), ops[j]) {
      if j < |init| { assert init[..j] == ops[..j] && init[j] == ops[j]; }
    }
  }

  /** `checked` has a cause: something was compared, seeded or rebuilt, and since then nothing
      was loaded, discarded or voided. */
  lemma {:induction false} CheckedHasACause(s: Store, ops: seq<StoreOp>, writes: Writes)
    requires !s.compared
    ensures RunStore(s, ops, writes).compared ==> exists i :: EarnedAt(s, ops, writes, i)
    decreases |ops|
  {
    if ops != [] && RunStore(s, ops, writes).compared {
      var last := |ops| - 1;
      if Earns(ops[last]) {
        assert EarnedAt(s, ops, writes, last);
      } else {
        StillCompared(RunStore(s, ops[..last], writes), ops[last], writes);
        CheckedHasACause(s, ops[..last], writes);
        var i :| EarnedAt(s, ops[..last], writes, i);
        EarnedLater(s, ops, writes, i);
      }
    }
  }

  lemma StillCompared(s: Store, op: StoreOp, writes: Writes)
    requires StepStore(s, op, writes).compared && !Earns(op)
    ensures s.compared && !GivesUp(s, op)
  {
    if op.SeedOp? { assert op.live == []; }
  }

  // --- what the store says of its file -------------------------------------

  /** It says there is a file exactly when there is one, and only of a file that is no endpoint map
      that there is a problem with it. */
  ghost predicate Tells(s: Store) {
    (s.present <==> s.disk != Absent) && (s.problem ==> s.disk != Absent && !Usable(s.disk))
  }

  lemma WrittenIsUsable(endpoints: map<string, Record>)
    ensures Usable(Written(endpoints))
  {
    LoadAfterWrite(endpoints);
    LoadTells(Written(endpoints));
  }

  lemma PersistTells(s: Store, writes: Writes)
    requires Tells(s)
    ensures Tells(Persist(s, writes))
  {
    WrittenIsUsable(s.endpoints);
  }

  lemma StepTells(s: Store, op: StoreOp, writes: Writes)
    requires Tells(s)
    ensures Tells(StepStore(s, op, writes))
  {
    match op
    case LoadOp => LoadTells(s.disk);
    case CheckOp(live) =>
      PersistTells(s.(endpoints := CompareAll(Comparison(s.endpoints, [], false), live).endpoints), writes);
    case ForgetOp(ids, successor) => PersistTells(s.(endpoints := ForgetIn(s.endpoints, ids, successor)), writes);
    case DestroyOp(ids) => PersistTells(s.(endpoints := s.endpoints - set id | id in ids), writes);
    case VoidOp => PersistTells(s.(endpoints := VoidAll(s.endpoints), compared := false), writes);
    case SeedOp(live) =>
      PersistTells(s.(endpoints := FromLive(live), problem := false, compared := live != []), writes);
    case RebuildOp(live) => PersistTells(s.(endpoints := FromLive(live), problem := false), writes);
    case DiscardOp =>
  }

  /** Over every run with any failed writes and deletes, once the file has been read. */
  lemma {:induction false} StoreTells(s: Store, ops: seq<StoreOp>, writes: Writes)
    ensures Tells(RunStore(LoadStore(s), ops, writes))
    decreases |ops|
  {
    if ops == [] {
      LoadTells(s.disk);
    } else {
      StoreTells(s, ops[..|ops| - 1], writes);
      StepTells(RunStore(LoadStore(s), ops[..|ops| - 1], writes), ops[|ops| - 1], writes);
    }
  }

  // --- drift ---------------------------------------------------------------

  predicate DistinctEntries(live: seq<LiveNumber>) {
    forall i, j :: 0 <= i < j < |live| ==> live[i].uniqueId != live[j].uniqueId
  }

  /** The map has a trusted number for this identity and it is not the live one. */
  predicate Drifts(endpoints: map<string, Record>, e: LiveNumber) {
    e.uniqueId in endpoints && !endpoints[e.uniqueId].numberVoid && endpoints[e.uniqueId].number != e.number
  }

  function DriftSeq(endpoints: map<string, Record>, live: seq<LiveNumber>): seq<DriftEntry> {
    if live == [] then []
    else (if Drifts(endpoints, live[0])
          then [DriftEntry(live[0].uniqueId, endpoints[live[0].uniqueId].number, live[0].number)] else [])
         + DriftSeq(endpoints, live[1..])
  }

  /** What a check makes of one record, stated on its own. */
  function CheckedRecord(endpoints: map<string, Record>, e: LiveNumber): Record {
    if e.uniqueId !in endpoints then RecordFor(e)
    else
      var noted := Refresh(endpoints[e.uniqueId], e);
      if noted.numberVoid then noted.(number := e.number, numberVoid := false) else noted
  }

  lemma CompareOneAt(c: Comparison, e: LiveNumber)
    ensures CompareOne(c, e).endpoints == c.endpoints[e.uniqueId := CheckedRecord(c.endpoints, e)]
    ensures CompareOne(c, e).drift == c.drift + DriftSeq(c.endpoints, [e])
  {
    assert DriftSeq(c.endpoints, [e][1..]) == [];
  }

  lemma HeadApart(live: seq<LiveNumber>)
    requires DistinctEntries(live) && live != []
    ensures DistinctEntries(live[1..])
    ensures forall e :: e in live[1..] ==> e.uniqueId != live[0].uniqueId
    ensures forall e :: e in live <==> e == live[0] || e in live[1..]
  {
    assert live == [live[0]] + live[1..];
    assert forall i :: 0 <= i < |live[1..]| ==> live[1..][i] == live[i + 1];
  }

  lemma {:induction false} DriftSeqElsewhere(a: map<string, Record>, b: map<string, Record>, live: seq<LiveNumber>)
    requires forall e :: e in live ==> (Drifts(a, e) <==> Drifts(b, e))
    requires forall e :: e in live && Drifts(a, e) && Drifts(b, e) ==> a[e.uniqueId].number == b[e.uniqueId].number
    ensures DriftSeq(a, live) == DriftSeq(b, live)
  {
    if live != [] {
      assert live[0] in live;
      DriftSeqElsewhere(a, b, live[1..]);
    }
  }

  function UniqueIds(live: seq<LiveNumber>): set<string> { set e | e in live :: e.uniqueId }

  /** A whole comparison leaves every other identity alone. */
  lemma {:induction false} CompareAllElsewhere(c: Comparison, live: seq<LiveNumber>)
    requires DistinctEntries(live)
    ensures var r := CompareAll(c, live);
            && r.endpoints.Keys == c.endpoints.Keys + UniqueIds(live)
            && (forall id :: id in c.endpoints && id !in UniqueIds(live) ==> r.endpoints[id] == c.endpoints[id])
    decreases |live|
  {
    if live != [] {
      HeadApart(live);
      CompareOneAt(c, live[0]);
      CompareAllElsewhere(CompareOne(c, live[0]), live[1..]);
      assert UniqueIds(live) == {live[0].uniqueId} + UniqueIds(live[1..]);
    }
  }

  /** And settles each live one on its own. */
  lemma {:induction false} CompareAllAt(c: Comparison, live: seq<LiveNumber>)
    requires DistinctEntries(live)
    ensures forall e :: e in live ==>
              e.uniqueId in CompareAll(c, live).endpoints
              && CompareAll(c, live).endpoints[e.uniqueId] == CheckedRecord(c.endpoints, e)
    decreases |live|
  {
    if live != [] {
      HeadApart(live);
      var one := CompareOne(c, live[0]);
      CompareOneAt(c, live[0]);
      CompareAllAt(one, live[1..]);
      CompareAllElsewhere(one, live[1..]);
      assert live[0].uniqueId !in UniqueIds(live[1..]);
      forall e | e in live[1..] ensures CheckedRecord(one.endpoints, e) == CheckedRecord(c.endpoints, e) {}
    }
  }

  lemma {:induction false} CompareAllDrift(c: Comparison, live: seq<LiveNumber>)
    requires DistinctEntries(live)
    ensures CompareAll(c, live).drift == c.drift + DriftSeq(c.endpoints, live)
    decreases |live|
  {
    if live != [] {
      HeadApart(live);
      var one := CompareOne(c, live[0]);
      CompareOneAt(c, live[0]);
      DriftSeqElsewhere(c.endpoints, one.endpoints, live[1..]);
      CompareAllDrift(one, live[1..]);
      assert [live[0]][1..] == [];
    }
  }

  lemma OneChanges(c: Comparison, e: LiveNumber)
    ensures var one := CompareOne(c, e);
            && e.uniqueId in one.endpoints
            && (one.changed <==>
                  c.changed || e.uniqueId !in c.endpoints || c.endpoints[e.uniqueId] != one.endpoints[e.uniqueId])
            && (!one.changed ==> one.endpoints == c.endpoints)
  {
  }

  lemma OneStays(c: Comparison, live: seq<LiveNumber>)
    requires DistinctEntries(live) && live != []
    ensures live[0].uniqueId in CompareAll(c, live).endpoints
    ensures CompareAll(c, live).endpoints[live[0].uniqueId] == CompareOne(c, live[0]).endpoints[live[0].uniqueId]
  {
    HeadApart(live);
    OneChanges(c, live[0]);
    CompareAllElsewhere(CompareOne(c, live[0]), live[1..]);
    assert live[0].uniqueId !in UniqueIds(live[1..]);
  }

  lemma {:induction false} ChangedExactly(c: Comparison, live: seq<LiveNumber>)
    requires DistinctEntries(live)
    ensures CompareAll(c, live).changed <==> c.changed || CompareAll(c, live).endpoints != c.endpoints
    decreases |live|
  {
    if live != [] {
      HeadApart(live);
      OneChanges(c, live[0]);
      OneStays(c, live);
      CompareAllSteps(CompareOne(c, live[0]), live[1..]);
      ChangedExactly(CompareOne(c, live[0]), live[1..]);
    }
  }

  /** A check writes exactly when it changed a record or an earlier write is still owed, so an
      unchanged live set retries the owed write; the write that fails is owed from then on. It
      claims to have compared once it had something to compare. */
  lemma CheckWritesExactly(s: Store, live: seq<LiveNumber>, writes: Writes)
    requires DistinctEntries(live)
    ensures var r := Check(s, live, writes).store;
            var owed := s.dirty || r.endpoints != s.endpoints;
            && r.disk == (if owed && writes(s.tick) then Written(r.endpoints) else s.disk)
            && (r.dirty <==> owed && !writes(s.tick))
            && r.tick == s.tick + (if owed then 1 else 0)
            && (r.compared <==> s.compared || live != [])
  {
    CheckIsComparison(s, live, writes);
    ChangedExactly(Comparison(s.endpoints, [], false), live);
  }

  /** A check reports exactly the drifted identities, once each, in the order given; it
      records the unseen, adopts the void, refreshes the rest and moves no trusted number. */
  lemma CheckExactly(s: Store, live: seq<LiveNumber>, writes: Writes)
    requires DistinctEntries(live)
    ensures var r := Check(s, live, writes);
            && r.drift == DriftSeq(s.endpoints, live)
            && r.store.endpoints.Keys == s.endpoints.Keys + UniqueIds(live)
            && (forall id :: id in s.endpoints && id !in UniqueIds(live) ==> r.store.endpoints[id] == s.endpoints[id])
            && (forall e :: e in live ==> r.store.endpoints[e.uniqueId] == CheckedRecord(s.endpoints, e))
  {
    var c := Comparison(s.endpoints, [], false);
    CheckIsComparison(s, live, writes);
    CompareAllElsewhere(c, live);
    CompareAllAt(c, live);
    CompareAllDrift(c, live);
    assert [] + DriftSeq(s.endpoints, live) == DriftSeq(s.endpoints, live);
  }

  lemma CheckIsComparison(s: Store, live: seq<LiveNumber>, writes: Writes)
    ensures var c := CompareAll(Comparison(s.endpoints, [], false), live);
            Check(s, live, writes).drift == c.drift && Check(s, live, writes).store.endpoints == c.endpoints
  {
  }

  lemma {:induction false} DriftSeqMembers(endpoints: map<string, Record>, live: seq<LiveNumber>, d: DriftEntry)
    ensures d in DriftSeq(endpoints, live) <==>
            exists e :: e in live && Drifts(endpoints, e)
                && d == DriftEntry(e.uniqueId, endpoints[e.uniqueId].number, e.number)
  {
    if live != [] {
      assert live == [live[0]] + live[1..];
      DriftSeqMembers(endpoints, live[1..], d);
    }
  }

  /** A record a check has just settled against `e`. */
  predicate Settled(endpoints: map<string, Record>, e: LiveNumber) {
    && e.uniqueId in endpoints && !endpoints[e.uniqueId].numberVoid
    && Refresh(endpoints[e.uniqueId], e) == endpoints[e.uniqueId]
  }

  lemma {:induction false} RecompareChangesNothing(c: Comparison, live: seq<LiveNumber>)
    requires forall e :: e in live ==> Settled(c.endpoints, e)
    ensures CompareAll(c, live) == c.(drift := c.drift + DriftSeq(c.endpoints, live))
    decreases |live|
  {
    if live != [] {
      var e := live[0];
      assert e in live && Settled(c.endpoints, e);
      assert c.endpoints[e.uniqueId := c.endpoints[e.uniqueId]] == c.endpoints;
      var one := CompareOne(c, e);
      assert one == c.(drift := one.drift);
      RecompareChangesNothing(one, live[1..]);
    }
  }

  /** What a check leaves of one entry: settled, and drifting just as before. */
  lemma CheckSettlesEntry(s: Store, live: seq<LiveNumber>, writes: Writes, e: LiveNumber)
    requires DistinctEntries(live) && e in live
    ensures var m := Check(s, live, writes).store.endpoints;
            && Settled(m, e) && (Drifts(s.endpoints, e) <==> Drifts(m, e))
            && (Drifts(m, e) ==> m[e.uniqueId].number == s.endpoints[e.uniqueId].number)
  {
    CheckExactly(s, live, writes);
    assert Check(s, live, writes).store.endpoints[e.uniqueId] == CheckedRecord(s.endpoints, e);
  }

  /** Repeating a check on the same live set changes nothing, writes nothing, and returns the
      same drift. */
  lemma CheckIsIdempotent(s: Store, live: seq<LiveNumber>, writes: Writes)
    requires DistinctEntries(live) && forall k :: writes(k)
    ensures Check(Check(s, live, writes).store, live, writes) == Check(s, live, writes)
  {
    var first := Check(s, live, writes);
    var m := first.store.endpoints;
    forall e | e in live
      ensures Settled(m, e) && (Drifts(s.endpoints, e) <==> Drifts(m, e))
      ensures Drifts(m, e) ==> m[e.uniqueId].number == s.endpoints[e.uniqueId].number
    {
      CheckSettlesEntry(s, live, writes, e);
    }
    CheckExactly(s, live, writes);
    DriftSeqElsewhere(s.endpoints, m, live);
    RecompareChangesNothing(Comparison(m, [], false), live);
    assert [] + DriftSeq(m, live) == DriftSeq(m, live);
    assert !first.store.dirty;
  }

  // --- what sticks ---------------------------------------------------------

  /** What the next start would load is what memory holds. */
  predicate Mirrors(s: Store) { Load(s.disk).endpoints == NormalMap(s.endpoints) }

  lemma StepMirrors(s: Store, op: StoreOp, writes: Writes)
    requires Mirrors(s) && !s.dirty && (forall k :: writes(k))
    ensures Mirrors(StepStore(s, op, writes)) && !StepStore(s, op, writes).dirty
  {
    LoadAfterWrite(StepStore(s, op, writes).endpoints);
    if op.LoadOp? {
      LoadedIsNormal(s.disk);
    } else if op.CheckOp? {
      CompareAllSteps(Comparison(s.endpoints, [], false), op.live);
    }
  }

  /** The map trusts `number` for `id`. */
  predicate Baseline(s: Store, id: string, number: nat) {
    id in s.endpoints && !s.endpoints[id].numberVoid && s.endpoints[id].number == number
  }

  /** Operations that cannot move a trusted number: all but destroy of it, void, seed, rebuild
      and discard. Reloading is among them. */
  predicate LeavesBaseline(op: StoreOp, id: string) {
    match op
    case LoadOp => true
    case CheckOp(live) => DistinctEntries(live)
    case ForgetOp(ids, successor) => true
    case DestroyOp(ids) => id !in ids
    case _ => false
  }

  lemma StepKeepsBaseline(s: Store, op: StoreOp, writes: Writes, id: string, number: nat)
    requires Mirrors(s) && !s.dirty && (forall k :: writes(k)) && Baseline(s, id, number) && LeavesBaseline(op, id)
    ensures Baseline(StepStore(s, op, writes), id, number)
  {
    match op
    case LoadOp => assert NormalMap(s.endpoints)[id] == Normal(s.endpoints[id]);
    case CheckOp(live) => CheckExactly(s, live, writes);
    case ForgetOp(ids, successor) =>
    case DestroyOp(ids) =>
  }

  lemma {:induction false} RunKeepsBaseline(s: Store, ops: seq<StoreOp>, writes: Writes, id: string, number: nat)
    requires Mirrors(s) && !s.dirty && (forall k :: writes(k)) && Baseline(s, id, number)
    requires forall op :: op in ops ==> LeavesBaseline(op, id)
    ensures Baseline(RunStore(s, ops, writes), id, number)
    ensures Mirrors(RunStore(s, ops, writes)) && !RunStore(s, ops, writes).dirty
    decreases |ops|
  {
    if ops != [] {
      var init, last := ops[..|ops| - 1], ops[|ops| - 1];
      assert last in ops && forall op :: op in init ==> op in ops;
      RunKeepsBaseline(s, init, writes, id, number);
      StepMirrors(RunStore(s, init, writes), last, writes);
      StepKeepsBaseline(RunStore(s, init, writes), last, writes, id, number);
    }
  }

  /** Drift is sticky: once the live number of a trusted identity has moved, every check that
      sees it live reports it, across any comparisons, un-exports and restarts, until a
      destroy of it, a void, a rebuild, a seed or a discard. */
  lemma DriftSticks(s: Store, ops: seq<StoreOp>, writes: Writes, id: string, number: nat,
                    live: seq<LiveNumber>, e: LiveNumber)
    requires Mirrors(s) && !s.dirty && (forall k :: writes(k)) && Baseline(s, id, number)
    requires forall op :: op in ops ==> LeavesBaseline(op, id)
    requires DistinctEntries(live) && e in live && e.uniqueId == id && e.number != number
    ensures DriftEntry(id, number, e.number) in Check(RunStore(s, ops, writes), live, writes).drift
  {
    RunKeepsBaseline(s, ops, writes, id, number);
    var t := RunStore(s, ops, writes);
    CheckExactly(t, live, writes);
    DriftSeqMembers(t.endpoints, live, DriftEntry(id, number, e.number));
  }

  // --- retired identities --------------------------------------------------

  /** Gone from the map, or marked retired in favour of `successor`. */
  predicate Retired(s: Store, id: string, successor: string) {
    id in s.endpoints ==> s.endpoints[id].orphaned && s.endpoints[id].supersededBy == Some(successor)
  }

  /** The identity is not live here and its record is not replaced by a seed or rebuild. */
  predicate LeavesRetired(op: StoreOp, id: string) {
    match op
    case CheckOp(live) => DistinctEntries(live) && forall e :: e in live ==> e.uniqueId != id
    case SeedOp(live) => forall e :: e in live ==> e.uniqueId != id
    case RebuildOp(live) => forall e :: e in live ==> e.uniqueId != id
    case _ => true
  }

  lemma {:induction false} FromLiveKeys(live: seq<LiveNumber>)
    ensures FromLive(live).Keys == UniqueIds(live)
    ensures DistinctEntries(live) ==> forall e :: e in live ==> FromLive(live)[e.uniqueId] == RecordFor(e)
  {
    if live != [] {
      var init, last := live[..|live| - 1], live[|live| - 1];
      assert live == init + [last];
      FromLiveKeys(init);
    }
  }

  lemma StepKeepsRetired(s: Store, op: StoreOp, writes: Writes, id: string, successor: string)
    requires Mirrors(s) && !s.dirty && (forall k :: writes(k)) && successor != ""
    requires Retired(s, id, successor) && LeavesRetired(op, id)
    ensures Retired(StepStore(s, op, writes), id, successor)
  {
    match op
    case LoadOp => assert id in s.endpoints ==> NormalMap(s.endpoints)[id] == Normal(s.endpoints[id]);
    case CheckOp(live) => CheckExactly(s, live, writes);
    case SeedOp(live) => FromLiveKeys(live);
    case RebuildOp(live) => FromLiveKeys(live);
    case _ =>
  }

  /** A retired identity is not restorable in any continuation, restarts included, until it is
      itself live again or a seed or rebuild replaces its record. */
  lemma {:induction false} RetiredStaysRetired(s: Store, ops: seq<StoreOp>, writes: Writes, id: string,
                                               successor: string)
    requires Mirrors(s) && !s.dirty && (forall k :: writes(k)) && successor != ""
    requires Retired(s, id, successor) && forall op :: op in ops ==> LeavesRetired(op, id)
    ensures Retired(RunStore(s, ops, writes), id, successor)
    ensures var t := RunStore(s, ops, writes); id in t.endpoints ==> !Restorable(id, t.endpoints[id])
    ensures Mirrors(RunStore(s, ops, writes)) && !RunStore(s, ops, writes).dirty
    decreases |ops|
  {
    if ops != [] {
      var init, last := ops[..|ops| - 1], ops[|ops| - 1];
      assert last in ops && forall op :: op in init ==> op in ops;
      RetiredStaysRetired(s, init, writes, id, successor);
      StepMirrors(RunStore(s, init, writes), last, writes);
      StepKeepsRetired(RunStore(s, init, writes), last, writes, id, successor);
    }
  }

  // --- single operations ---------------------------------------------------

  /** `now` is `was` forgotten: un-exported, and superseded by the first successor ever named, if it
      ever carried a role or a label; its number and attributes stay. */
  predicate ForgottenAs(was: Record, now: Record, successor: Option<string>) {
    var marked := was.role.Some? || was.name.Some?;
    && now == was.(orphaned := now.orphaned, supersededBy := now.supersededBy)
    && (now.orphaned <==> was.orphaned || marked)
    && (now.supersededBy.Some? <==> was.supersededBy.Some? || (marked && successor.Some?))
    && (was.supersededBy.Some? ==> now.supersededBy == was.supersededBy)
    && (was.supersededBy.None? && now.supersededBy.Some? ==> now.supersededBy == successor)
  }

  lemma ForgetOneExactly(r: Record, successor: Option<string>)
    ensures ForgottenAs(r, ForgetOne(r, successor), successor)
  {
  }

  lemma ForgetSingle(m: map<string, Record>, id: string, successor: Option<string>)
    ensures ForgetIn(m, [id], successor) == if id in m then m[id := ForgetOne(m[id], successor)] else m
  {
  }

  /** Forgetting touches the named records and no other, and writes only if it changed one. */
  lemma ForgetMarksExactly(s: Store, ids: seq<string>, successor: Option<string>, writes: Writes)
    ensures var r := Forget(s, ids, successor, writes);
            && r.endpoints.Keys == s.endpoints.Keys
            && (forall id :: id in s.endpoints ==>
                  if id in ids then ForgottenAs(s.endpoints[id], r.endpoints[id], successor)
                  else r.endpoints[id] == s.endpoints[id])
            && (r.endpoints == s.endpoints ==> r == s)
            && (r.endpoints != s.endpoints ==> r == Persist(s.(endpoints := r.endpoints), writes))
  {
    var m := ForgetIn(s.endpoints, ids, successor);
    assert m.Keys == s.endpoints.Keys;
    forall id | id in s.endpoints && id in ids ensures ForgottenAs(s.endpoints[id], m[id], successor) {
      ForgetOneExactly(s.endpoints[id], successor);
    }
  }

  /** Destroying drops the named records and no other, and writes only if one was there. */
  lemma DestroyDropsExactly(s: Store, ids: seq<string>, writes: Writes)
    ensures var r := Destroy(s, ids, writes);
            && (forall id :: id in r.endpoints <==> id in s.endpoints && id !in ids)
            && (forall id :: id in r.endpoints ==> r.endpoints[id] == s.endpoints[id])
            && (r.endpoints == s.endpoints ==> r == s)
            && (r.endpoints != s.endpoints ==> r == Persist(s.(endpoints := r.endpoints), writes))
  {
  }

  /** The first check that sees an identity records just what it was told of it. */
  lemma FirstSightRecords(s: Store, live: seq<LiveNumber>, writes: Writes, e: LiveNumber)
    requires DistinctEntries(live) && e in live && e.uniqueId !in s.endpoints
    ensures e.uniqueId in Check(s, live, writes).store.endpoints
    ensures Check(s, live, writes).store.endpoints[e.uniqueId] ==
            Record(e.number, e.role, e.name, false, false, e.battery == Some(true), e.deviceId, None)
  {
    CheckExactly(s, live, writes);
  }

  /** A check never loses what a record knew: its role and label unless told another, a battery
      never, and a trusted number never. */
  lemma CheckForgetsNothing(s: Store, live: seq<LiveNumber>, writes: Writes, e: LiveNumber)
    requires DistinctEntries(live) && e in live && e.uniqueId in s.endpoints
    ensures e.uniqueId in Check(s, live, writes).store.endpoints
    ensures var was, now := s.endpoints[e.uniqueId], Check(s, live, writes).store.endpoints[e.uniqueId];
            && now.role == (if e.role.Some? then e.role else was.role)
            && now.name == (if e.name.Some? then e.name else was.name)
            && now.deviceId == (if e.deviceId.Some? then e.deviceId else was.deviceId)
            && (now.battery <==> was.battery || e.battery == Some(true))
            && !now.orphaned && now.supersededBy.None? && !now.numberVoid
            && now.number == (if was.numberVoid then e.number else was.number)
  {
    CheckExactly(s, live, writes);
  }

  /** Seeding refuses exactly to discard numbers; otherwise the map is the live entries. */
  lemma SeedsExactly(s: Store, live: seq<LiveNumber>, writes: Writes)
    requires DistinctEntries(live)
    ensures Seed(s, live, writes).None? <==> s.endpoints != map[] && |live| < |s.endpoints|
    ensures Seed(s, live, writes).Some? ==>
              var m := Seed(s, live, writes).value.endpoints;
              m.Keys == UniqueIds(live) && forall e :: e in live ==> m[e.uniqueId] == RecordFor(e)
  {
    FromLiveKeys(live);
    if s.endpoints != map[] {
      var id :| id in s.endpoints;
      assert id in s.endpoints.Keys;
    }
  }

  /** A record from before devices were kept restores under the device its identity prints. */
  lemma PrintedDeviceRestores(device: int, generation: nat, r: Record)
    requires |PublishedIdFor(device, generation)| <= PUBLISHED_ID_MAX
    requires 0 - TWO_53 < device < TWO_53 && 1 <= generation < TWO_53
    ensures RestoreDevice(PublishedIdFor(device, generation), r) ==
            Some(if r.deviceId.Some? then r.deviceId.value else device)
    ensures Restorable(PublishedIdFor(device, generation), r) <==>
              r.role.Some? && r.name.Some? && !r.orphaned && r.supersededBy.None?
  {
    NodeParsePrinted(device, generation);
  }
}
