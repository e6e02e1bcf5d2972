/** What a restart rebuilds from the file a faithful node left behind. */
module NodeRestart {
  import opened Protocol
  import opened Reconcile
  import opened Registry
  import opened RegistryProofs
  import opened RegistryCommands
  import opened RegistryWithin
  import opened EndpointMap
  import opened EndpointMapProofs
  import opened Node
  import opened NodeEffects
  import opened NodeFaith

  // --- the specs a start asks for ------------------------------------------

  predicate Comes(id: string, r: Record) { Restorable(id, r) && Supported(r.role.value) }

  function SpecFor(id: string, r: Record): EndpointSpec
    requires Comes(id, r)
  {
    EndpointSpec(RestoreDevice(id, r).value, r.role.value, r.name.value, false, r.battery, id)
  }

  lemma RestoreStep(m: map<string, Record>, order: seq<string>)
    requires order != [] && forall id :: id in order ==> id in m
    ensures var id, init := order[|order| - 1], order[..|order| - 1];
            RestoreSpecs(Restorables(m, order))
            == RestoreSpecs(Restorables(m, init)) + if Comes(id, m[id]) then [SpecFor(id, m[id])] else []
  {
    var id, init := order[|order| - 1], order[..|order| - 1];
    var entries := Restorables(m, init);
    if Restorable(id, m[id]) {
      assert (entries + [AsRestorable(id, m[id])])[..|entries|] == entries;
    }
  }

  /** One spec for each entry that comes back, and no other. */
  lemma {:induction false} RestoreSpecsMembers(m: map<string, Record>, order: seq<string>)
    requires forall id :: id in order ==> id in m
    ensures var specs := RestoreSpecs(Restorables(m, order));
            && (forall s :: s in specs ==> s.publishedAs in order && Comes(s.publishedAs, m[s.publishedAs])
                                           && s == SpecFor(s.publishedAs, m[s.publishedAs]))
            && (forall id :: id in order && Comes(id, m[id]) ==> SpecFor(id, m[id]) in specs)
            && ((forall i, j :: 0 <= i < j < |order| ==> order[i] != order[j]) ==> DistinctIds(specs))
    decreases |order|
  {
    if order != [] {
      var id, init := order[|order| - 1], order[..|order| - 1];
      assert order == init + [id];
      RestoreStep(m, order);
      RestoreSpecsMembers(m, init);
      var before := RestoreSpecs(Restorables(m, init));
      forall k | 0 <= k < |before| ensures before[k].publishedAs in init { assert before[k] in before; }
    }
  }

  // --- what they are for a faithful node -----------------------------------

  /** The same accessory, as a controller sees it; a battery is never lost. */
  predicate SameAccessory(a: LiveEntry, b: LiveEntry) {
    a.publishedAs == b.publishedAs && a.role == b.role && a.name == b.name && (a.battery ==> b.battery)
  }

  /** Every named accessory is back under its own device, and nothing else is live. */
  ghost predicate Rebuilds(before: map<int, LiveEntry>, after: map<int, LiveEntry>) {
    && (forall d :: d in after <==> d in before && before[d].name != "")
    && (forall d :: d in after ==> SameAccessory(before[d], after[d]))
  }

  /** The spec that brings `e` back under `d`. */
  predicate Answers(s: EndpointSpec, d: int, e: LiveEntry) {
    s.device == d && s.publishedAs == e.publishedAs && s.role == e.role && s.name == e.name && (e.battery ==> s.battery)
  }

  lemma NormalComes(m: map<string, Record>, id: string)
    requires id in m
    ensures Comes(id, NormalMap(m)[id]) <==> ComesBack(id, m[id])
  {
  }

  /** A record that comes back belongs to a live, named accessory, and its spec answers it. */
  lemma ComersAreLive(m: map<string, Record>, w: World, id: string)
    requires Buried(m, w.live) && AllRecorded(m, w.live) && RolesKnown(w.live) && id in m
    ensures Comes(id, NormalMap(m)[id]) ==>
              exists d :: d in w.live && w.live[d].name != "" && Answers(SpecFor(id, NormalMap(m)[id]), d, w.live[d])
  {
    if Comes(id, NormalMap(m)[id]) {
      NormalComes(m, id);
      var d :| d in w.live && w.live[d].publishedAs == id;
      assert Recorded(m, d, w.live[d]);
      FullComesBack(id, m[id], d, w.live[d]);
      assert Answers(SpecFor(id, NormalMap(m)[id]), d, w.live[d]);
    }
  }

  lemma NamedComesBack(m: map<string, Record>, w: World, d: int)
    requires AllRecorded(m, w.live) && RolesKnown(w.live) && d in w.live && w.live[d].name != ""
    ensures w.live[d].publishedAs in m && Comes(w.live[d].publishedAs, NormalMap(m)[w.live[d].publishedAs])
    ensures Answers(SpecFor(w.live[d].publishedAs, NormalMap(m)[w.live[d].publishedAs]), d, w.live[d])
  {
    var id := w.live[d].publishedAs;
    assert Recorded(m, d, w.live[d]);
    FullComesBack(id, m[id], d, w.live[d]);
    NormalComes(m, id);
  }

  /** `specs` asks for exactly the named accessories of `live`. */
  ghost predicate AsksFor(specs: seq<EndpointSpec>, live: map<int, LiveEntry>) {
    && (forall s :: s in specs ==>
          s.device in live && live[s.device].name != "" && Answers(s, s.device, live[s.device]))
    && (forall d :: d in live && live[d].name != "" ==> exists s :: s in specs && s.device == d)
    && DistinctIds(specs) && DistinctDevices(specs)
  }

  lemma AnswersApart(specs: seq<EndpointSpec>, live: map<int, LiveEntry>)
    requires DistinctIds(specs)
    requires forall s :: s in specs ==> s.device in live && Answers(s, s.device, live[s.device])
    ensures DistinctDevices(specs)
  {
    forall i, j | 0 <= i < j < |specs| ensures specs[i].device != specs[j].device {
      assert specs[i] in specs && specs[j] in specs;
    }
  }

  lemma FaithfulAsks(m: map<string, Record>, w: World, order: seq<string>)
    requires Buried(m, w.live) && AllRecorded(m, w.live) && RolesKnown(w.live) && Visits(order, NormalMap(m))
    ensures AsksFor(RestoreSpecs(Restorables(NormalMap(m), order)), w.live)
  {
    var specs := RestoreSpecs(Restorables(NormalMap(m), order));
    RestoreSpecsMembers(NormalMap(m), order);
    forall s | s in specs
      ensures s.device in w.live && w.live[s.device].name != "" && Answers(s, s.device, w.live[s.device])
    {
      ComersAreLive(m, w, s.publishedAs);
    }
    forall d | d in w.live && w.live[d].name != "" ensures exists s :: s in specs && s.device == d {
      NamedComesBack(m, w, d);
      assert SpecFor(w.live[d].publishedAs, NormalMap(m)[w.live[d].publishedAs]) in specs;
    }
    AnswersApart(specs, w.live);
  }

  // --- restoring them ------------------------------------------------------

  /** A restore that counts every spec has them all live. */
  lemma {:induction false} CompleteRestore(w: World, specs: seq<EndpointSpec>, fate: Fate)
    requires Restore(w, specs, fate).count == |specs|
    ensures Restore(w, specs, fate).world.live.Keys == w.live.Keys + DevicesOf(specs)
    decreases |specs|
  {
    if specs != [] {
      assert specs == [specs[0]] + specs[1..];
      var c := Create(w, specs[0], fate);
      RestoreCount(c.world, specs[1..], fate);
      CreateShape(w, specs[0], fate);
      CompleteRestore(c.world, specs[1..], fate);
      assert DevicesOf(specs) == {specs[0].device} + DevicesOf(specs[1..]);
    }
  }

  lemma RestoredRebuilds(w: World, specs: seq<EndpointSpec>, live: map<int, LiveEntry>, fate: Fate)
    requires Coherent(w) && w.live == map[] && AsksFor(specs, live)
    requires forall s :: s in specs ==> Supported(s.role)
    requires Restore(w, specs, fate).count == |specs|
    ensures Coherent(Restore(w, specs, fate).world) && Rebuilds(live, Restore(w, specs, fate).world.live)
    ensures forall s :: s in specs ==>
              var after := Restore(w, specs, fate).world.live;
              s.device in after && after[s.device] == EntryFor(s, after[s.device].endpoint)
  {
    var v := Restore(w, specs, fate).world;
    RestoreKeeps(w, specs, fate);
    RestoreShape(w, specs, fate);
    CompleteRestore(w, specs, fate);
    forall d | d in v.live ensures d in live && live[d].name != "" && SameAccessory(live[d], v.live[d]) {
      var s :| s in specs && s.device == d;
      assert Answers(s, d, live[d]);
    }
  }

  // --- start ---------------------------------------------------------------

  /** The specs the next start of this node restores. */
  function NextSpecs(n: Node, order: seq<string>): seq<EndpointSpec>
    requires forall id :: id in order ==> id in Load(n.store.disk).endpoints
  {
    RestoreSpecs(Restorables(Load(n.store.disk).endpoints, order))
  }

  /** matter.js accepts every one of them. */
  predicate RestoresAll(n: Node, order: seq<string>, env: Env)
    requires forall id :: id in order ==> id in Load(n.store.disk).endpoints
  {
    Restore(NewProcess(n, true).world, NextSpecs(n, order), env.fate).count == |NextSpecs(n, order)|
  }

  lemma FreshIsCoherent(n: Node, readable: bool)
    ensures Coherent(NewProcess(n, readable).world) && NewProcess(n, readable).world.live == map[]
  {
    assert Ids(map[]) == {};
  }

  lemma NextSpecsSupported(n: Node, order: seq<string>)
    requires forall id :: id in order ==> id in Load(n.store.disk).endpoints
    ensures forall s :: s in NextSpecs(n, order) ==> Supported(s.role)
  {
    RestoreSpecsMembers(Load(n.store.disk).endpoints, order);
  }

  /** The records that were read back are those of what was rebuilt. */
  lemma RebuiltIsFaithful(m: map<string, Record>, w: World, order: seq<string>, after: map<int, LiveEntry>)
    requires Buried(m, w.live) && AllRecorded(m, w.live) && RolesKnown(w.live) && Visits(order, NormalMap(m))
    requires Rebuilds(w.live, after)
    requires forall s :: s in RestoreSpecs(Restorables(NormalMap(m), order)) ==>
               s.device in after && after[s.device] == EntryFor(s, after[s.device].endpoint)
    ensures Buried(NormalMap(m), after) && AllRecorded(NormalMap(m), after)
  {
    var m' := NormalMap(m);
    RestoreSpecsMembers(m', order);
    forall id | id in m' && ComesBack(id, m'[id]) ensures id in Ids(after) {
      assert Comes(id, m'[id]);
      assert SpecFor(id, m'[id]) in RestoreSpecs(Restorables(m', order));
    }
    forall d | d in after ensures Recorded(m', d, after[d]) {
      NamedComesBack(m, w, d);
      assert Recorded(m, d, w.live[d]);
      assert SpecFor(w.live[d].publishedAs, m'[w.live[d].publishedAs]) in RestoreSpecs(Restorables(m', order));
    }
  }

  /** The part of a start before the identity check, on a node whose file can be read. */
  lemma RestoredState(n: Node, order: seq<string>, env: Env)
    requires Faithful(n) && RolesKnown(n.world.live) && Sane(n.store)
    requires Visits(order, Load(n.store.disk).endpoints) && RestoresAll(n, order, env)
    ensures var fresh0 := NewProcess(n, true);
            var r := RestoreEndpoints(fresh0.(store := LoadStore(fresh0.store)), order, env);
            && r.world == Restore(fresh0.world, NextSpecs(n, order), env.fate).world
            && r.store.endpoints == NormalMap(n.store.endpoints) && !r.store.problem
            && Coherent(r.world) && Rebuilds(n.world.live, r.world.live) && Faithful(r)
  {
    SaneMirrors(n.store);
    var w0 := NewProcess(n, true).world;
    var specs := NextSpecs(n, order);
    FreshIsCoherent(n, true);
    NextSpecsSupported(n, order);
    FaithfulAsks(n.store.endpoints, n.world, order);
    RestoredRebuilds(w0, specs, n.world.live, env.fate);
    RebuiltIsFaithful(n.store.endpoints, n.world, order, Restore(w0, specs, env.fate).world.live);
  }

  lemma SeededNothing(s: Store, writes: Writes)
    ensures Seed(s, [], writes).Some? ==> Seed(s, [], writes).value.endpoints == map[] && s.endpoints == map[]
  {
    if s.endpoints != map[] { assert |s.endpoints| > 0; }
  }

  lemma AssertingKeeps(n: Node, env: Env)
    ensures AssertIdentity(n, env).world == n.world
    ensures AssertIdentity(n, env).store.endpoints == n.store.endpoints
    ensures AssertIdentity(n, env).refusal ==
            if n.refusal.Some? then n.refusal else RefuseReasonFor(n.fabrics > 0, n.store.problem, n.marker)
  {
    SeededNothing(n.store, env.writes);
  }

  /** Restart refinement: a faithful node's file rebuilds exactly its named accessories, each
      under the device that drove it with its identity, role, name and any battery, no two on
      one device, and the restarted node is faithful again. It serves unless no fabric is
      left while the witness on disk says there was one. */
  lemma RestartRebuilds(n: Node, order: seq<string>, withdrawal: seq<string>, env: Env)
    requires Faithful(n) && RolesKnown(n.world.live) && Sane(n.store)
    requires Visits(order, Load(n.store.disk).endpoints) && RestoresAll(n, order, env)
    ensures var r := Start(NewProcess(n, true), order, withdrawal, env);
            && (r.refusal.None? <==> n.fabrics > 0 || !n.markerOnDisk)
            && (r.refusal.None? ==> Rebuilds(n.world.live, r.world.live) && Coherent(r.world) && Faithful(r))
  {
    var f := NewProcess(n, true);
    var restored := RestoreEndpoints(f.(store := LoadStore(f.store)), order, env);
    RestoredState(n, order, env);
    AssertingKeeps(restored.(fabricCount := restored.fabrics), env);
  }

  /** Without faults the restore is complete. */
  lemma FaultFreeRestoresAll(n: Node, order: seq<string>, env: Env)
    requires Faithful(n) && RolesKnown(n.world.live) && Sane(n.store) && WatchesHold(env.fate)
             && (forall k :: env.fate.adds(k))
    requires Visits(order, Load(n.store.disk).endpoints)
    ensures RestoresAll(n, order, env)
  {
    SaneMirrors(n.store);
    FaithfulAsks(n.store.endpoints, n.world, order);
    RestoreSucceeds(NewProcess(n, true).world, NextSpecs(n, order), env.fate);
  }
}
