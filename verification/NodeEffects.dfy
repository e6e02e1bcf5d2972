/** What each piece of the node's bookkeeping does to the map, record by record. */
module NodeEffects {
  import opened Protocol
  import opened Registry
  import opened RegistryProofs
  import opened EndpointMap
  import opened EndpointMapProofs
  import opened Node

  ghost predicate WritesHold(writes: Writes) { forall k :: writes(k) }

  /** The file is what the next start needs: absent over nothing, or memory written out. */
  ghost predicate Sane(s: Store) {
    !s.dirty && ((s.disk == Absent && s.endpoints == map[]) || OnDisk(s))
  }

  lemma SaneMirrors(s: Store)
    requires Sane(s)
    ensures Mirrors(s) && !Load(s.disk).problem
  {
    assert s.endpoints == map[] ==> NormalMap(s.endpoints) == map[];
  }

  lemma PersistIsSane(s: Store, writes: Writes)
    requires WritesHold(writes)
    ensures Sane(Persist(s, writes)) && Persist(s, writes).endpoints == s.endpoints
  {
    LoadAfterWrite(s.endpoints);
  }

  // --- the live set, listed ------------------------------------------------

  lemma LiveNumbersListed(w: World)
    ensures forall d :: d in w.live ==> LiveNumberOf(w, d) in LiveNumbers(w)
    ensures forall e :: e in LiveNumbers(w) ==> exists d :: d in w.live && e == LiveNumberOf(w, d)
  {
    var devices, live := SortedDevices(w.live.Keys), LiveNumbers(w);
    forall d | d in w.live ensures LiveNumberOf(w, d) in live {
      var i :| 0 <= i < |devices| && devices[i] == d;
      assert live[i] == LiveNumberOf(w, d);
    }
    forall e | e in live ensures exists d :: d in w.live && e == LiveNumberOf(w, d) {
      var i :| 0 <= i < |live| && live[i] == e;
      assert devices[i] in w.live;
    }
  }

  lemma LiveNumbersApart(w: World)
    requires DistinctLive(w.live)
    ensures DistinctEntries(LiveNumbers(w))
  {
    var devices, live := SortedDevices(w.live.Keys), LiveNumbers(w);
    forall i, j | 0 <= i < j < |live| ensures live[i].uniqueId != live[j].uniqueId {
      assert devices[i] in w.live && devices[j] in w.live && devices[i] != devices[j];
    }
  }

  lemma LiveNumbersIds(w: World)
    ensures UniqueIds(LiveNumbers(w)) == Ids(w.live)
  {
    var live := LiveNumbers(w);
    LiveNumbersListed(w);
    forall id | id in Ids(w.live) ensures id in UniqueIds(live) {
      var d :| d in w.live && w.live[d].publishedAs == id;
      assert LiveNumberOf(w, d) in live;
    }
    forall e | e in live ensures e.uniqueId in Ids(w.live) {}
  }

  lemma LiveNumbersMembers(w: World)
    requires DistinctLive(w.live)
    ensures DistinctEntries(LiveNumbers(w)) && UniqueIds(LiveNumbers(w)) == Ids(w.live)
    ensures forall d :: d in w.live ==> LiveNumberOf(w, d) in LiveNumbers(w)
    ensures forall e :: e in LiveNumbers(w) ==> exists d :: d in w.live && e == LiveNumberOf(w, d)
  {
    LiveNumbersListed(w);
    LiveNumbersApart(w);
    LiveNumbersIds(w);
  }

  /** A map made of the live set: one record for each live identity, under its number. */
  lemma RebuiltEntries(w: World)
    requires DistinctLive(w.live)
    ensures var m := FromLive(LiveNumbers(w));
            && m.Keys == Ids(w.live)
            && forall d :: d in w.live ==>
                 w.live[d].publishedAs in m && m[w.live[d].publishedAs] == RecordFor(LiveNumberOf(w, d))
  {
    var live := LiveNumbers(w);
    LiveNumbersMembers(w);
    FromLiveKeys(live);
    forall d | d in w.live
      ensures w.live[d].publishedAs in FromLive(live)
      ensures FromLive(live)[w.live[d].publishedAs] == RecordFor(LiveNumberOf(w, d))
    {
      assert LiveNumberOf(w, d) in live;
    }
  }

  lemma DrivenMembers(live: map<int, LiveEntry>)
    requires DistinctLive(live)
    ensures DrivenIds(LiveDriven(live)) == Ids(live)
    ensures forall x :: x in LiveDriven(live) <==> x.device in live && x.id == live[x.device].publishedAs
  {
    var devices, r := SortedDevices(live.Keys), LiveDriven(live);
    forall x: Driven | x.device in live && x.id == live[x.device].publishedAs ensures x in r {
      var i :| 0 <= i < |devices| && devices[i] == x.device;
      assert r[i] == x;
    }
    forall x | x in r ensures x.device in live && x.id == live[x.device].publishedAs {
      var i :| 0 <= i < |r| && r[i] == x;
      assert devices[i] in live;
    }
    forall id | id in Ids(live) ensures id in DrivenIds(r) {
      var d :| d in live && live[d].publishedAs == id;
      assert Driven(id, d) in r;
    }
  }

  // --- the drift check -----------------------------------------------------

  /** The record an endpoint live under device `d` must have for a restart to rebuild it. */
  ghost predicate FullRecord(r: Record, d: int, e: LiveEntry) {
    && r.role == Some(e.role) && r.name == Some(e.name) && r.deviceId == Some(d)
    && !r.orphaned && r.supersededBy.None? && (e.battery ==> r.battery)
  }

  ghost predicate Recorded(endpoints: map<string, Record>, d: int, e: LiveEntry) {
    e.publishedAs in endpoints && FullRecord(endpoints[e.publishedAs], d, e)
  }

  lemma CheckedIsFull(endpoints: map<string, Record>, w: World, d: int)
    requires d in w.live
    ensures FullRecord(CheckedRecord(endpoints, LiveNumberOf(w, d)), d, w.live[d])
  {
  }

  /** After a check every live endpoint's record is the settled one and nothing else changed. */
  lemma CheckSettles(w: World, s: Store, writes: Writes)
    requires DistinctLive(w.live)
    ensures var after := Check(s, LiveNumbers(w), writes).store.endpoints;
            && after.Keys == s.endpoints.Keys + Ids(w.live)
            && (forall id :: id in s.endpoints && id !in Ids(w.live) ==> after[id] == s.endpoints[id])
            && (forall d :: d in w.live ==>
                  after[w.live[d].publishedAs] == CheckedRecord(s.endpoints, LiveNumberOf(w, d)))
  {
    LiveNumbersMembers(w);
    CheckExactly(s, LiveNumbers(w), writes);
    forall d | d in w.live
      ensures Check(s, LiveNumbers(w), writes).store.endpoints[w.live[d].publishedAs]
           == CheckedRecord(s.endpoints, LiveNumberOf(w, d))
    {
      assert LiveNumberOf(w, d) in LiveNumbers(w);
    }
  }

  /** In particular every live endpoint is recorded in full. */
  lemma CheckRecords(w: World, s: Store, writes: Writes)
    requires DistinctLive(w.live)
    ensures forall d :: d in w.live ==> Recorded(Check(s, LiveNumbers(w), writes).store.endpoints, d, w.live[d])
  {
    CheckSettles(w, s, writes);
    forall d | d in w.live ensures Recorded(Check(s, LiveNumbers(w), writes).store.endpoints, d, w.live[d]) {
      assert w.live[d].publishedAs in Ids(w.live);
      CheckedIsFull(s.endpoints, w, d);
    }
  }

  lemma CheckStaysSane(s: Store, live: seq<LiveNumber>, writes: Writes)
    requires Sane(s) && WritesHold(writes)
    ensures Sane(Check(s, live, writes).store)
  {
    var c := CompareAll(Comparison(s.endpoints, [], false), live);
    CompareAllSteps(Comparison(s.endpoints, [], false), live);
    PersistIsSane(s.(endpoints := c.endpoints), writes);
  }

  // --- what a mutation took away -------------------------------------------

  lemma {:induction false} DepartedMembers(before: seq<Driven>, ids: set<string>)
    ensures forall x :: x in Departed(before, ids) <==> x in before && x.id !in ids
    ensures (forall i, j :: 0 <= i < j < |before| ==> before[i].id != before[j].id)
        ==> (forall i, j :: 0 <= i < j < |Departed(before, ids)| ==>
               Departed(before, ids)[i].id != Departed(before, ids)[j].id)
  {
    if before != [] {
      assert before == [before[0]] + before[1..];
      DepartedMembers(before[1..], ids);
      var rest := Departed(before[1..], ids);
      forall k | 0 <= k < |rest| ensures rest[k] in before[1..] {}
      assert forall i :: 0 <= i < |before[1..]| ==> before[1..][i] == before[i + 1];
    }
  }

  ghost predicate DistinctDepartures(ds: seq<Departure>) {
    forall i, j :: 0 <= i < j < |ds| ==> ds[i].id != ds[j].id
  }

  lemma HeadDeparture(ds: seq<Departure>)
    requires DistinctDepartures(ds) && ds != []
    ensures DistinctDepartures(ds[1..])
    ensures forall d :: d in ds <==> d == ds[0] || d in ds[1..]
    ensures forall d :: d in ds[1..] ==> d.id != ds[0].id
  {
    assert ds == [ds[0]] + ds[1..];
    assert forall i :: 0 <= i < |ds[1..]| ==> ds[1..][i] == ds[i + 1];
  }

  lemma ForgetNextAt(f: Forgetting, d: Departure, hard: bool, writes: Writes)
    ensures ForgetNext(f, d, hard, writes).store.endpoints ==
            if d.successor.Some? && d.id in f.store.endpoints
            then f.store.endpoints[d.id := ForgetOne(f.store.endpoints[d.id], d.successor)] else f.store.endpoints
  {
    ForgetSingle(f.store.endpoints, d.id, d.successor);
  }

  /** Of the departures, those with a successor marked so far. */
  ghost predicate PartlyMarked(m0: map<string, Record>, m: map<string, Record>, ds: seq<Departure>) {
    && m.Keys == m0.Keys
    && (forall id :: id in m0 && (forall d :: d in ds ==> d.id != id) ==> m[id] == m0[id])
    && (forall d :: d in ds && d.id in m0 ==>
          m[d.id] == if d.successor.Some? then ForgetOne(m0[d.id], d.successor) else m0[d.id])
  }

  /** Superseded departures are marked where they stand, the rest untouched so far. */
  lemma {:induction false} ForgetEachAt(f: Forgetting, ds: seq<Departure>, hard: bool, writes: Writes)
    requires DistinctDepartures(ds)
    ensures PartlyMarked(f.store.endpoints, ForgetEach(f, ds, hard, writes).store.endpoints, ds)
    decreases |ds|
  {
    if ds != [] {
      HeadDeparture(ds);
      ForgetNextAt(f, ds[0], hard, writes);
      ForgetEachAt(ForgetNext(f, ds[0], hard, writes), ds[1..], hard, writes);
    }
  }

  /** The ordinary departures are those without a successor, and a soft one that nothing
      replaced is remembered under its device. */
  lemma {:induction false} ForgetEachOrdinary(f: Forgetting, ds: seq<Departure>, hard: bool, writes: Writes)
    ensures forall id :: id in ForgetEach(f, ds, hard, writes).ordinary <==>
              id in f.ordinary || exists d :: d in ds && d.id == id && d.successor.None?
    decreases |ds|
  {
    if ds != [] {
      assert ds == [ds[0]] + ds[1..];
      var next := ForgetNext(f, ds[0], hard, writes);
      ForgetEachOrdinary(next, ds[1..], hard, writes);
      forall id | id in f.ordinary || exists d :: d in ds && d.id == id && d.successor.None?
        ensures id in ForgetEach(next, ds[1..], hard, writes).ordinary
      {
        if id !in next.ordinary {
          var d :| d in ds && d.id == id && d.successor.None?;
          assert d in ds[1..];
        }
      }
    }
  }

  lemma {:induction false} ForgetEachSane(f: Forgetting, ds: seq<Departure>, hard: bool, writes: Writes)
    requires Sane(f.store) && WritesHold(writes)
    ensures Sane(ForgetEach(f, ds, hard, writes).store)
    decreases |ds|
  {
    if ds != [] {
      var next := ForgetNext(f, ds[0], hard, writes);
      if next.store != f.store { PersistIsSane(f.store.(endpoints := next.store.endpoints), writes); }
      ForgetEachSane(next, ds[1..], hard, writes);
    }
  }

  /** The departures of one mutation, seen from the live set before it. */
  lemma DeparturesOf(before: map<int, LiveEntry>, after: map<int, LiveEntry>, hard: bool)
    requires DistinctLive(before)
    ensures var ds := Departures(LiveDriven(before), after, Ids(after), hard);
            && DistinctDepartures(ds)
            && (forall d :: d in ds ==> (
                  && d.device in before && d.id == before[d.device].publishedAs && d.id !in Ids(after)
                  && d == DepartureOf(Driven(d.id, d.device), LiveDriven(before), after, hard)))
            && (forall x :: x in before && before[x].publishedAs !in Ids(after)
                  ==> DepartureOf(Driven(before[x].publishedAs, x), LiveDriven(before), after, hard) in ds)
  {
    var all := LiveDriven(before);
    var gone := Departed(all, Ids(after));
    var ds := Departures(all, after, Ids(after), hard);
    DrivenMembers(before);
    DepartedMembers(all, Ids(after));
    forall i, j | 0 <= i < j < |all| ensures all[i].id != all[j].id {
      assert all[i] in all && all[j] in all && all[i].device != all[j].device;
    }
    forall d | d in ds
      ensures d.device in before && d.id == before[d.device].publishedAs && d.id !in Ids(after)
      ensures d == DepartureOf(Driven(d.id, d.device), all, after, hard)
    {
      var i :| 0 <= i < |ds| && ds[i] == d;
      assert gone[i] in gone;
    }
    forall x | x in before && before[x].publishedAs !in Ids(after)
      ensures DepartureOf(Driven(before[x].publishedAs, x), all, after, hard) in ds
    {
      var y := Driven(before[x].publishedAs, x);
      assert y in gone;
      var i :| 0 <= i < |gone| && gone[i] == y;
      assert ds[i] == DepartureOf(y, all, after, hard);
    }
  }

  ghost function DepartureFor(before: map<int, LiveEntry>, after: map<int, LiveEntry>, d: int, hard: bool): Departure
    requires d in before
  {
    DepartureOf(Driven(before[d].publishedAs, d), LiveDriven(before), after, hard)
  }

  /** `m` is `m0` with exactly the departed records marked. */
  ghost predicate MarkedFrom(m0: map<string, Record>, m: map<string, Record>, ds: seq<Departure>) {
    && m.Keys == m0.Keys
    && (forall id :: id in m0 && (forall d :: d in ds ==> d.id != id) ==> m[id] == m0[id])
    && (forall d :: d in ds && d.id in m0 ==> m[d.id] == ForgetOne(m0[d.id], d.successor))
  }

  /** The identities among the departures that nothing superseded. */
  ghost predicate Ordinary(ordinary: seq<string>, ds: seq<Departure>) {
    forall id :: id in ordinary <==> exists d :: d in ds && d.id == id && d.successor.None?
  }

  lemma ForgetAfterEach(m: map<string, Record>, mid: map<string, Record>, ordinary: seq<string>, ds: seq<Departure>)
    requires DistinctDepartures(ds) && PartlyMarked(m, mid, ds) && Ordinary(ordinary, ds)
    ensures MarkedFrom(m, ForgetIn(mid, ordinary, None), ds)
  {
    forall d | d in ds && d.id in m ensures ForgetIn(mid, ordinary, None)[d.id] == ForgetOne(m[d.id], d.successor) {
      forall e | e in ds && e.id == d.id ensures e == d { SameDeparture(ds, d, e); }
    }
  }

  lemma SameDeparture(ds: seq<Departure>, d: Departure, e: Departure)
    requires DistinctDepartures(ds) && d in ds && e in ds && d.id == e.id
    ensures d == e
  {
  }

  lemma SoftlyForgotten(store: Store, lastRemoved: map<int, string>, ds: seq<Departure>, writes: Writes)
    requires DistinctDepartures(ds)
    ensures var f := ForgetEach(Forgetting(store, lastRemoved, []), ds, false, writes);
            MarkedFrom(store.endpoints, Forget(f.store, f.ordinary, None, writes).endpoints, ds)
  {
    var f0 := Forgetting(store, lastRemoved, []);
    ForgetEachAt(f0, ds, false, writes);
    ForgetEachOrdinary(f0, ds, false, writes);
    var f := ForgetEach(f0, ds, false, writes);
    ForgetAfterEach(store.endpoints, f.store.endpoints, f.ordinary, ds);
  }

  /** A soft removal marks each departed record, retired if a later generation took its
      device over in the same mutation and un-exported otherwise; nothing else changes. */
  lemma SoftRemovals(n: Node, before: map<int, LiveEntry>, env: Env)
    requires DistinctLive(before)
    ensures var m0, m := n.store.endpoints, ForgetRemoved(n, LiveDriven(before), false, env).store.endpoints;
            && m.Keys == m0.Keys
            && (forall id :: id in m0 && (id !in Ids(before) || id in Ids(n.world.live)) ==> m[id] == m0[id])
            && (forall d :: d in before && before[d].publishedAs in m0 && before[d].publishedAs !in Ids(n.world.live)
                  ==> m[before[d].publishedAs]
                      == ForgetOne(m0[before[d].publishedAs], DepartureFor(before, n.world.live, d, false).successor))
  {
    var ds := Departures(LiveDriven(before), n.world.live, Ids(n.world.live), false);
    DeparturesOf(before, n.world.live, false);
    SoftlyForgotten(n.store, n.lastRemoved, ds, env.writes);
    MarkedMeans(n.store.endpoints, ForgetRemoved(n, LiveDriven(before), false, env).store.endpoints, ds, before,
                n.world.live);
  }

  /** The later generation of `id` that one mutation brought to the device that drove it. */
  ghost function BroughtFor(before: map<int, LiveEntry>, after: map<int, LiveEntry>, d: int): Option<string>
    requires d in before
  {
    if d in after && after[d].publishedAs !in Ids(before) && Supersedes(before[d].publishedAs, after[d].publishedAs)
    then Some(after[d].publishedAs) else None
  }

  lemma DepartureMeans(before: map<int, LiveEntry>, after: map<int, LiveEntry>, d: int, hard: bool)
    requires DistinctLive(before) && d in before
    ensures var x := DepartureFor(before, after, d, hard);
            && x.id == before[d].publishedAs && x.device == d
            && x.successor == (if hard then None else BroughtFor(before, after, d))
            && (x.replaced <==> d in after && after[d].publishedAs !in Ids(before))
  {
    DrivenMembers(before);
  }

  /** The pairing rule in terms of the two live sets: of what left in a soft mutation, the record
      whose device got a later generation of it is retired in its favour, any other un-exported;
      one that never carried a role or a label is left as it is. */
  lemma SoftMarksExactly(n: Node, before: map<int, LiveEntry>, d: int, env: Env)
    requires DistinctLive(before) && d in before && before[d].publishedAs !in Ids(n.world.live)
    requires before[d].publishedAs in n.store.endpoints
    ensures var r := n.store.endpoints[before[d].publishedAs];
            var m := ForgetRemoved(n, LiveDriven(before), false, env).store.endpoints;
            && before[d].publishedAs in m
            && m[before[d].publishedAs] ==
               if r.role.None? && r.name.None? then r
               else r.(orphaned := true,
                       supersededBy := if r.supersededBy.Some? then r.supersededBy
                                       else BroughtFor(before, n.world.live, d))
  {
    SoftRemovals(n, before, env);
    DepartureMeans(before, n.world.live, d, false);
  }

  lemma MarkedMeans(m0: map<string, Record>, m: map<string, Record>, ds: seq<Departure>,
                    before: map<int, LiveEntry>, after: map<int, LiveEntry>)
    requires MarkedFrom(m0, m, ds)
    requires forall d :: d in ds ==> d.device in before && d.id == before[d.device].publishedAs && d.id !in Ids(after)
    requires forall x :: x in before && before[x].publishedAs !in Ids(after) ==>
               DepartureFor(before, after, x, false) in ds
    ensures m.Keys == m0.Keys
    ensures forall id :: id in m0 && (id !in Ids(before) || id in Ids(after)) ==> m[id] == m0[id]
    ensures forall d :: d in before && before[d].publishedAs in m0 && before[d].publishedAs !in Ids(after)
              ==> m[before[d].publishedAs]
                  == ForgetOne(m0[before[d].publishedAs], DepartureFor(before, after, d, false).successor)
  {
    forall id | id in m0 && (id !in Ids(before) || id in Ids(after)) ensures m[id] == m0[id] {
      assert forall d :: d in ds ==> d.id != id;
    }
    forall d | d in before && before[d].publishedAs in m0 && before[d].publishedAs !in Ids(after)
      ensures m[before[d].publishedAs]
              == ForgetOne(m0[before[d].publishedAs], DepartureFor(before, after, d, false).successor)
    {
      assert DepartureFor(before, after, d, false).id == before[d].publishedAs;
    }
  }

  lemma HardlyForgotten(store: Store, lastRemoved: map<int, string>, ds: seq<Departure>, writes: Writes)
    requires DistinctDepartures(ds) && forall d :: d in ds ==> d.successor.None?
    ensures var f := ForgetEach(Forgetting(store, lastRemoved, []), ds, true, writes);
            Destroy(f.store, f.ordinary, writes).endpoints == store.endpoints - set d | d in ds :: d.id
  {
    var f0 := Forgetting(store, lastRemoved, []);
    ForgetEachAt(f0, ds, true, writes);
    ForgetEachOrdinary(f0, ds, true, writes);
    var f := ForgetEach(f0, ds, true, writes);
    assert f.store.endpoints == store.endpoints by {
      forall id | id in store.endpoints ensures f.store.endpoints[id] == store.endpoints[id] {
        if exists d :: d in ds && d.id == id {
          var d :| d in ds && d.id == id;
          assert d.successor.None?;
        }
      }
    }
    assert (set id | id in f.ordinary) == set d | d in ds :: d.id;
  }

  /** A hard removal drops the departed records and touches nothing else. */
  lemma HardRemovals(n: Node, before: map<int, LiveEntry>, env: Env)
    requires DistinctLive(before)
    ensures ForgetRemoved(n, LiveDriven(before), true, env).store.endpoints
         == n.store.endpoints - (Ids(before) - Ids(n.world.live))
  {
    var after := n.world.live;
    var ds := Departures(LiveDriven(before), after, Ids(after), true);
    DeparturesOf(before, after, true);
    forall d | d in ds ensures d.successor.None? {
      assert d == DepartureOf(Driven(d.id, d.device), LiveDriven(before), after, true);
    }
    HardlyForgotten(n.store, n.lastRemoved, ds, env.writes);
    assert (set d | d in ds :: d.id) == Ids(before) - Ids(after) by {
      forall id | id in Ids(before) - Ids(after) ensures id in set d | d in ds :: d.id {
        var d :| d in before && before[d].publishedAs == id;
        assert DepartureFor(before, after, d, true) in ds;
      }
    }
  }

  lemma ForgetRemovedSane(n: Node, before: seq<Driven>, hard: bool, env: Env)
    requires Sane(n.store) && WritesHold(env.writes)
    ensures Sane(ForgetRemoved(n, before, hard, env).store)
  {
    var ds := Departures(before, n.world.live, Ids(n.world.live), hard);
    var f0 := Forgetting(n.store, n.lastRemoved, []);
    var f := ForgetEach(f0, ds, hard, env.writes);
    ForgetEachSane(f0, ds, hard, env.writes);
    var r := ForgetRemoved(n, before, hard, env).store;
    if r != f.store { PersistIsSane(f.store.(endpoints := r.endpoints), env.writes); }
  }
}
