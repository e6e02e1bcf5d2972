/** The persisted endpoint map (`endpoint-map.ts`): a witness of the numbers matter.js
    handed out, kept in memory and in a file that writes and deletes can fail to reach. */
module EndpointMap {
  import opened Protocol

  // --- the file ------------------------------------------------------------

  datatype Field = FNumber | FRole | FLabel | FVoid | FOrphaned | FBattery | FDevice | FSuperseded

  /** One entry as JSON. Keys no reader looks at are not represented. */
  datatype Candidate = Plain(value: Json) | Object(fields: map<Field, Json>)

  /** The file: missing, not JSON (or unreadable), or JSON with these two keys. */
  datatype Disk = Absent | Unreadable | Document(version: Json, endpoints: Option<map<string, Candidate>>)

  datatype Record = Record(
    number: nat, role: Option<string>, name: Option<string>,
    numberVoid: bool, orphaned: bool, battery: bool,
    deviceId: Option<int>, supersededBy: Option<string>)

  predicate IsEndpointNumber(v: Json) { IsInteger(v) && v.r >= 0.0 }

  function Bare(number: nat): Record { Record(number, None, None, false, false, false, None, None) }

  function Get(fields: map<Field, Json>, f: Field): Json { if f in fields then fields[f] else JNull }

  function NonEmpty(v: Json): Option<string> { if v.JStr? && v.s != "" then Some(v.s) else None }

  /** `readRecord`: either schema; a bad field costs the field, a bad number the entry. */
  function ReadRecord(c: Candidate): Option<Record> {
    match c
    case Plain(v) => if IsEndpointNumber(v) then Some(Bare(v.r.Floor)) else None
    case Object(f) =>
      var number := Get(f, FNumber);
      if !IsEndpointNumber(number) then None
      else Some(Record(number.r.Floor, NonEmpty(Get(f, FRole)), NonEmpty(Get(f, FLabel)),
                       Get(f, FVoid) == JBool(true), Get(f, FOrphaned) == JBool(true), Get(f, FBattery) == JBool(true),
                       if IsInteger(Get(f, FDevice)) then Some(Get(f, FDevice).r.Floor) else None,
                       NonEmpty(Get(f, FSuperseded))))
  }

  function Text(s: Option<string>): Option<Json> { if s.Some? then Some(JStr(s.value)) else None }

  function Flag(b: bool): Option<Json> { if b then Some(JBool(true)) else None }

  /** The value a record has under each key, if any. */
  function FieldOf(r: Record, f: Field): Option<Json> {
    match f
    case FNumber => Some(JNum(r.number as real))
    case FRole => Text(r.role)
    case FLabel => Text(r.name)
    case FVoid => Flag(r.numberVoid)
    case FOrphaned => Flag(r.orphaned)
    case FBattery => Flag(r.battery)
    case FDevice => if r.deviceId.Some? then Some(JNum(r.deviceId.value as real)) else None
    case FSuperseded => Text(r.supersededBy)
  }

  /** What `JSON.stringify` makes of a record: absent fields are absent keys. */
  function WriteRecord(r: Record): Candidate {
    Object(map f: Field | FieldOf(r, f).Some? :: FieldOf(r, f).value)
  }

  datatype Loaded = Loaded(endpoints: map<string, Record>, present: bool, problem: bool)

  /** `loadEndpointMap`: absent, usable, or present but broken. */
  function Load(disk: Disk): Loaded {
    match disk
    case Absent => Loaded(map[], false, false)
    case Unreadable => Loaded(map[], true, true)
    case Document(version, endpoints) =>
      if (version == JNum(2.0) || version == JNum(1.0)) && endpoints.Some?
         && forall id :: id in endpoints.value ==> ReadRecord(endpoints.value[id]).Some?
      then Loaded(map id | id in endpoints.value :: ReadRecord(endpoints.value[id]).value, true, false)
      else Loaded(map[], true, true)
  }

  function Written(endpoints: map<string, Record>): Disk {
    Document(JNum(2.0), Some(map id | id in endpoints :: WriteRecord(endpoints[id])))
  }

  // --- live endpoints against records --------------------------------------

  /** One live endpoint, saying as much as its caller knows. */
  datatype LiveNumber = LiveNumber(
    uniqueId: string, number: nat, role: Option<string>, name: Option<string>,
    battery: Option<bool>, deviceId: Option<int>)

  datatype DriftEntry = DriftEntry(uniqueId: string, expected: nat, actual: nat)

  function RecordFor(e: LiveNumber): Record {
    Record(e.number, e.role, e.name, false, false, e.battery == Some(true), e.deviceId, None)
  }

  /** `noteRestorable`: silence erases nothing, a live identity is neither orphaned nor superseded. */
  function Refresh(r: Record, e: LiveNumber): Record {
    r.(role := if e.role.Some? then e.role else r.role,
       name := if e.name.Some? then e.name else r.name,
       battery := r.battery || e.battery == Some(true),
       deviceId := if e.deviceId.Some? then e.deviceId else r.deviceId,
       orphaned := false, supersededBy := None)
  }

  datatype Comparison = Comparison(endpoints: map<string, Record>, drift: seq<DriftEntry>, changed: bool)

  function CompareOne(c: Comparison, e: LiveNumber): Comparison {
    if e.uniqueId !in c.endpoints then
      Comparison(c.endpoints[e.uniqueId := RecordFor(e)], c.drift, true)
    else
      var r := c.endpoints[e.uniqueId];
      var noted := Refresh(r, e);
      if noted.numberVoid then
        Comparison(c.endpoints[e.uniqueId := noted.(number := e.number, numberVoid := false)], c.drift, true)
      else
        Comparison(c.endpoints[e.uniqueId := noted],
                   if noted.number != e.number then c.drift + [DriftEntry(e.uniqueId, noted.number, e.number)]
                   else c.drift,
                   c.changed || noted != r)
  }

  function CompareAll(c: Comparison, live: seq<LiveNumber>): Comparison
    decreases |live|
  {
    if live == [] then c else CompareAll(CompareOne(c, live[0]), live[1..])
  }

  /** Un-exported, or retired when `successor` names what replaced it; an entry that never
      carried a role or label has nothing worth marking. */
  function ForgetOne(r: Record, successor: Option<string>): Record {
    if r.role.None? && r.name.None? then r
    else r.(orphaned := true, supersededBy := if r.supersededBy.None? then successor else r.supersededBy)
  }

  function ForgetIn(endpoints: map<string, Record>, ids: seq<string>, successor: Option<string>): map<string, Record> {
    map id | id in endpoints :: if id in ids then ForgetOne(endpoints[id], successor) else endpoints[id]
  }

  function VoidAll(endpoints: map<string, Record>): map<string, Record> {
    map id | id in endpoints :: endpoints[id].(numberVoid := true)
  }

  /** A fresh map from live entries; the last entry for an identity wins. */
  function FromLive(live: seq<LiveNumber>): map<string, Record> {
    if live == [] then map[]
    else FromLive(live[..|live| - 1])[live[|live| - 1].uniqueId := RecordFor(live[|live| - 1])]
  }

  // --- the store -----------------------------------------------------------

  /** Which writes and deletes reach the disk, by tick. */
  type Writes = nat -> bool

  datatype Store = Store(
    endpoints: map<string, Record>, present: bool, problem: bool,
    compared: bool,   // #checked
    dirty: bool,
    disk: Disk, tick: nat)
  {
    /** The `checked` getter, `driftChecked` on the wire. */
    predicate Checked() { compared && !dirty }
  }

  function Persist(s: Store, writes: Writes): Store {
    if writes(s.tick) then
      s.(disk := Written(s.endpoints), present := true, dirty := false, problem := false, tick := s.tick + 1)
    else s.(dirty := true, tick := s.tick + 1)
  }

  function LoadStore(s: Store): Store {
    var l := Load(s.disk);
    s.(endpoints := l.endpoints, present := l.present, problem := l.problem, compared := false, dirty := false)
  }

  datatype Checking = Checking(store: Store, drift: seq<DriftEntry>)

  function Check(s: Store, live: seq<LiveNumber>, writes: Writes): Checking {
    var c := CompareAll(Comparison(s.endpoints, [], false), live);
    var noted := s.(endpoints := c.endpoints);
    var kept := if c.changed || s.dirty then Persist(noted, writes) else noted;
    Checking(if live != [] then kept.(compared := true) else kept, c.drift)
  }

  function Forget(s: Store, ids: seq<string>, successor: Option<string>, writes: Writes): Store {
    var after := ForgetIn(s.endpoints, ids, successor);
    if after == s.endpoints then s else Persist(s.(endpoints := after), writes)
  }

  function Destroy(s: Store, ids: seq<string>, writes: Writes): Store {
    var after := s.endpoints - set id | id in ids;
    if after == s.endpoints then s else Persist(s.(endpoints := after), writes)
  }

  function VoidNumbers(s: Store, writes: Writes): Store {
    if s.endpoints == map[] then s
    else Persist(s.(endpoints := VoidAll(s.endpoints), compared := false), writes)
  }

  /** `None` when seeding would discard numbers, which the source refuses by throwing. */
  function Seed(s: Store, numbers: seq<LiveNumber>, writes: Writes): Option<Store> {
    if |s.endpoints| > 0 && |numbers| < |s.endpoints| then None
    else Some(Persist(s.(endpoints := FromLive(numbers), problem := false, compared := numbers != []), writes))
  }

  datatype Rebuilt = Rebuilt(store: Store, persisted: bool)

  function Rebuild(s: Store, live: seq<LiveNumber>, writes: Writes): Rebuilt {
    var kept := Persist(s.(endpoints := FromLive(live), problem := false), writes);
    Rebuilt(kept.(compared := writes(s.tick) && live != []), writes(s.tick))
  }

  function Discard(s: Store, writes: Writes): Store {
    var empty := s.(endpoints := map[], problem := false, compared := false, dirty := false, tick := s.tick + 1);
    if writes(s.tick) then empty.(disk := Absent, present := false) else empty
  }

  /** The device a record restores for: a migrate's, or the identity's own. */
  function RestoreDevice(id: string, r: Record): Option<int> {
    if r.deviceId.Some? then r.deviceId
    else match ParsePublishedId(id) case None => None case Some(p) => Some(p.device)
  }

  /** Complete enough to rebuild at start, and neither un-exported nor retired. */
  predicate Restorable(id: string, r: Record) {
    r.role.Some? && r.name.Some? && !r.orphaned && r.supersededBy.None? && RestoreDevice(id, r).Some?
  }

  datatype RestorableEndpoint = RestorableEndpoint(
    uniqueId: string, number: nat, device: int, role: string, name: string, battery: bool)

  function AsRestorable(id: string, r: Record): RestorableEndpoint
    requires Restorable(id, r)
  {
    RestorableEndpoint(id, r.number, RestoreDevice(id, r).value, r.role.value, r.name.value, r.battery)
  }

  /** `restorable`: the entries to rebuild, in the order the map is visited. */
  function Restorables(endpoints: map<string, Record>, order: seq<string>): seq<RestorableEndpoint>
    requires forall id :: id in order ==> id in endpoints
  {
    if order == [] then []
    else
      var id := order[|order| - 1];
      var init := Restorables(endpoints, order[..|order| - 1]);
      if Restorable(id, endpoints[id]) then init + [AsRestorable(id, endpoints[id])] else init
  }

  /** `order` visits every entry once. */
  ghost predicate Visits(order: seq<string>, endpoints: map<string, Record>) {
    && (forall i, j :: 0 <= i < j < |order| ==> order[i] != order[j])
    && (forall id :: id in order <==> id in endpoints)
  }

  // --- the same, in place --------------------------------------------------

  class EndpointMapStore {
    var endpoints: map<string, Record>
    var present: bool
    var problem: bool
    var compared: bool
    var dirty: bool
    var disk: Disk
    var tick: nat
    const writes: Writes

    ghost function Now(): Store
      reads this
    {
      Store(endpoints, present, problem, compared, dirty, disk, tick)
    }

    constructor (disk: Disk, writes: Writes, tick: nat)
      ensures Now() == Store(map[], false, false, false, false, disk, tick) && this.writes == writes
    {
      endpoints, present, problem, compared, dirty := map[], false, false, false, false;
      this.disk, this.writes, this.tick := disk, writes, tick;
    }

    method LoadFile()
      modifies this
      ensures Now() == LoadStore(old(Now()))
    {
      var loaded := Load(disk);
      endpoints, present, problem := loaded.endpoints, loaded.present, loaded.problem;
      compared, dirty := false, false;
    }

    method ListRestorable() returns (entries: seq<RestorableEndpoint>, order: seq<string>)
      ensures Visits(order, endpoints) && entries == Restorables(endpoints, order)
    {
      entries, order := [], [];
      var left := endpoints.Keys;
      while left != {}
        invariant left <= endpoints.Keys
        invariant forall i, j :: 0 <= i < j < |order| ==> order[i] != order[j]
        invariant forall id :: id in order <==> id in endpoints && id !in left
        invariant entries == Restorables(endpoints, order)
      {
        SomeText(left);
        var id :| id in left;
        left := left - {id};
        assert (order + [id])[..|order|] == order;
        order := order + [id];
        var r := endpoints[id];
        if r.role.None? || r.name.None? || r.orphaned || r.supersededBy.Some? { continue; }
        if RestoreDevice(id, r).None? { continue; }
        entries := entries + [AsRestorable(id, r)];
      }
    }

    method PersistNow() returns (ok: bool)
      modifies this
      ensures Now() == Persist(old(Now()), writes) && ok == writes(old(tick))
    {
      ok := writes(tick);
      tick := tick + 1;
      if ok {
        disk, present, dirty, problem := Written(endpoints), true, false, false;
      } else {
        dirty := true;
      }
    }

    /** One turn of `check`'s loop. */
    method CompareEntry(e: LiveNumber, drift: seq<DriftEntry>, changed: bool)
      returns (drift': seq<DriftEntry>, changed': bool)
      modifies this`endpoints
      ensures Comparison(endpoints, drift', changed') == CompareOne(Comparison(old(endpoints), drift, changed), e)
    {
      drift' := drift;
      if e.uniqueId !in endpoints {
        endpoints := endpoints[e.uniqueId := RecordFor(e)];
        return drift, true;
      }
      var r := endpoints[e.uniqueId];
      var noted := Refresh(r, e);
      changed' := changed || noted != r;
      if noted.numberVoid {
        endpoints := endpoints[e.uniqueId := noted.(number := e.number, numberVoid := false)];
        return drift, true;
      }
      endpoints := endpoints[e.uniqueId := noted];
      if noted.number != e.number {
        drift' := drift + [DriftEntry(e.uniqueId, noted.number, e.number)];
      }
    }

    /** `check`: records the unseen, refreshes the seen, adopts the void, reports the rest. */
    method CheckLive(live: seq<LiveNumber>) returns (drift: seq<DriftEntry>)
      modifies this
      ensures Checking(Now(), drift) == Check(old(Now()), live, writes)
    {
      drift := [];
      var changed := false;
      for i := 0 to |live|
        invariant CompareAll(Comparison(old(endpoints), [], false), live)
               == CompareAll(Comparison(endpoints, drift, changed), live[i..])
        invariant Now() == old(Now()).(endpoints := endpoints)
      {
        drift, changed := CompareEntry(live[i], drift, changed);
      }
      if changed || dirty {
        var _ := PersistNow();
      }
      if |live| > 0 { compared := true; }
    }

    /** One turn of `forget`'s loop; says whether there was anything new to mark. */
    method ForgetEntry(id: string, successor: Option<string>) returns (changed: bool)
      modifies this`endpoints
      ensures endpoints == if id in old(endpoints) then old(endpoints)[id := ForgetOne(old(endpoints)[id], successor)]
                           else old(endpoints)
      ensures changed <==> endpoints != old(endpoints)
    {
      if id !in endpoints || (endpoints[id].role.None? && endpoints[id].name.None?) { return false; }
      var r := endpoints[id];
      var newlySuperseded := successor.Some? && r.supersededBy.None?;
      if r.orphaned && !newlySuperseded { return false; }
      endpoints := endpoints[id := r.(orphaned := true,
                                      supersededBy := if newlySuperseded then successor else r.supersededBy)];
      assert endpoints[id] != r;
      changed := true;
    }

    /** `forget`, one identity at a time as the source marks them. */
    method ForgetThese(ids: seq<string>, successor: Option<string>)
      modifies this
      ensures Now() == Forget(old(Now()), ids, successor, writes)
    {
      var changed := 0;
      assert ForgetIn(endpoints, ids[..0], successor) == endpoints;
      for i := 0 to |ids|
        invariant endpoints == ForgetIn(old(endpoints), ids[..i], successor)
        invariant changed == 0 <==> endpoints == old(endpoints)
        invariant changed >= 0 && Now() == old(Now()).(endpoints := endpoints)
      {
        ForgetStep(old(endpoints), ids, i, successor);
        var marked := ForgetEntry(ids[i], successor);
        if marked { changed := changed + 1; }
      }
      assert ids[..|ids|] == ids;
      if changed > 0 {
        var _ := PersistNow();
      }
    }

    method DestroyThese(ids: seq<string>)
      modifies this
      ensures Now() == Destroy(old(Now()), ids, writes)
    {
      var removed := 0;
      for i := 0 to |ids|
        invariant endpoints == old(endpoints) - set k | 0 <= k < i :: ids[k]
        invariant removed == 0 <==> endpoints == old(endpoints)
        invariant removed >= 0 && Now() == old(Now()).(endpoints := endpoints)
      {
        if ids[i] in endpoints { removed := removed + 1; }
        endpoints := endpoints - {ids[i]};
      }
      assert (set k | 0 <= k < |ids| :: ids[k]) == set id | id in ids;
      if removed > 0 {
        var _ := PersistNow();
      }
    }

    method VoidEvery() returns (ok: bool)
      modifies this
      ensures Now() == VoidNumbers(old(Now()), writes)
      ensures ok <==> old(endpoints) != map[] && writes(old(tick))
    {
      if |endpoints| == 0 {
        assert endpoints == map[];
        return false;
      }
      endpoints, compared := VoidAll(endpoints), false;
      ok := PersistNow();
    }

    method SeedFrom(numbers: seq<LiveNumber>) returns (refused: bool, ok: bool)
      modifies this
      ensures refused <==> Seed(old(Now()), numbers, writes).None?
      ensures Now() == if refused then old(Now()) else Seed(old(Now()), numbers, writes).value
      ensures ok <==> !refused && writes(old(tick))
    {
      if |endpoints| > 0 && |numbers| < |endpoints| { return true, false; }
      endpoints, problem, compared := FromLive(numbers), false, |numbers| > 0;
      refused := false;
      ok := PersistNow();
    }

    method RebuildFrom(live: seq<LiveNumber>) returns (ok: bool)
      modifies this
      ensures Rebuilt(Now(), ok) == Rebuild(old(Now()), live, writes)
    {
      endpoints, problem := FromLive(live), false;
      ok := PersistNow();
      compared := ok && |live| > 0;
    }

    method DiscardAll() returns (ok: bool)
      modifies this
      ensures Now() == Discard(old(Now()), writes) && ok == writes(old(tick))
    {
      endpoints, problem, compared, dirty := map[], false, false, false;
      ok := writes(tick);
      tick := tick + 1;
      if ok { disk, present := Absent, false; }
    }
  }

  /** Marking one more identity; what differs from the start keeps differing. */
  lemma ForgetStep(endpoints: map<string, Record>, ids: seq<string>, i: nat, successor: Option<string>)
    requires i < |ids|
    ensures var before := ForgetIn(endpoints, ids[..i], successor);
            ForgetIn(endpoints, ids[..i + 1], successor)
            == if ids[i] in before then before[ids[i] := ForgetOne(before[ids[i]], successor)] else before
    ensures ForgetIn(endpoints, ids[..i], successor) != endpoints ==>
              ForgetIn(endpoints, ids[..i + 1], successor) != endpoints
  {
    assert ids[..i + 1] == ids[..i] + [ids[i]];
    var before, after := ForgetIn(endpoints, ids[..i], successor), ForgetIn(endpoints, ids[..i + 1], successor);
    if before != endpoints {
      var id :| id in endpoints && before[id] != endpoints[id];
      assert after[id] == before[id];
    }
  }
}
