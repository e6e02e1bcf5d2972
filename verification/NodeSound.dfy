/** Drift and the refusal over every run whose storage works: whatever matter.js refuses and
    however badly a reconcile, upsert, removal or restore ends, no number is called drifted
    that the allocator kept, and no start refuses over a fabric store that is still there. */
module NodeSound {
  import opened Protocol
  import opened Reconcile
  import opened Registry
  import opened RegistryProofs
  import opened RegistryCommands
  import opened RegistryWithin
  import opened EndpointMap
  import opened EndpointMapProofs
  import opened Node
  import opened NodeEffects
  import opened NodeFaith
  import opened NodeRestart
  import opened NodeRuns
  import opened NodeSafety

  // --- the invariant -------------------------------------------------------

  /** The witness, in memory and on disk, says exactly whether there is a fabric. */
  predicate Witnessed(n: Node) {
    n.fabricCount == n.fabrics && (n.marker <==> n.fabrics > 0) && n.markerOnDisk == n.marker
  }

  /** Serving, and reporting no drift. */
  predicate Quiet(n: Node) { n.refusal.None? && n.drift == [] }

  /** The map trusts matter.js's numbers only and would be read back. */
  ghost predicate MapSound(s: Store, w: World) { Sane(s) && Trusted(s.endpoints, w.numbers) }

  /** The live set may disagree with the aggregator, the sinks and the map in every way a
      failure can bring about; its identities are distinct and numbered. */
  ghost predicate Sound(n: Node) {
    LiveWithin(n.world) && Numbered(n.world) && MapSound(n.store, n.world) && Witnessed(n) && Quiet(n)
  }

  /** Writes and deletes reach the disk; adds, closes, attribute writes and subscriptions may
      fail in any pattern. */
  ghost predicate StorageHolds(env: Env) { WritesHold(env.writes) && forall k :: env.identityWrites(k) }

  /** After an erase matter.js numbers what is live afresh, each endpoint its own number. */
  ghost predicate LawfulAllocation(w: World, a: Allocation) {
    Numbered(w.(numbers := a.numbers, nextNumber := a.next))
  }

  /** What a run asks of matter.js, and only where it erases: on a factory reset and when the
      last fabric goes. An unreadable identity file is the one start excluded. */
  ghost predicate SoundOp(n: Node, op: NodeOp) {
    match op
    case Client(_, RemoveFabricCmd(found, _, a)) => found && n.fabrics == 1 ==> LawfulAllocation(n.world, a)
    case Client(_, ResetCmd(_, erased)) => erased.Some? ==> LawfulAllocation(n.world, erased.value)
    case Client(_, _) => true
    case Fabrics(count, a) => n.fabrics > 0 && count == 0 ==> LawfulAllocation(n.world, a)
    case Restart(readable, _, _) => readable
  }

  // --- a change of the live set --------------------------------------------

  lemma MovedSound(n: Node, w: World)
    requires Sound(n) && LiveWithin(w) && Grows(n.world, w)
    ensures Sound(n.(world := w))
  {
    GrownTrusted(n.store.endpoints, n.world, w);
  }

  lemma CheckSound(n: Node, env: Env)
    requires Sound(n) && WritesHold(env.writes)
    ensures Sound(CheckDrift(n, env))
  {
    CheckStaysSane(n.store, LiveNumbers(n.world), env.writes);
    CheckKeepsTrusted(n.world, n.store, env.writes);
  }

  /** The bookkeeping after an attach or a removal, against any snapshot of the live set. */
  lemma BookkeepingSound(n: Node, before: map<int, LiveEntry>, hard: bool, env: Env)
    requires Sound(n) && DistinctLive(before) && WritesHold(env.writes)
    ensures Sound(CheckDrift(ForgetRemoved(n, LiveDriven(before), hard, env), env))
  {
    ForgetRemovedSane(n, LiveDriven(before), hard, env);
    if hard { HardKeepsTrusted(n, before, env); } else { SoftKeepsTrusted(n, before, env); }
    CheckSound(ForgetRemoved(n, LiveDriven(before), hard, env), env);
  }

  lemma AttachSound(n: Node, desired: seq<EndpointSpec>, replaceAll: bool, order: seq<string>, env: Env)
    requires Sound(n) && WritesHold(env.writes)
    ensures Sound(Attach(n, desired, replaceAll, order, env).node)
  {
    var w := ReconcileTo(n.world, desired, replaceAll, order, env.fate).world;
    AbortKeepsDistinct(n.world, desired, replaceAll, order, env.fate);
    ReconcileGrows(n.world, desired, replaceAll, order, env.fate);
    MovedSound(n, w);
    BookkeepingSound(n.(world := w), n.world.live, false, env);
  }

  lemma RemoveSound(n: Node, device: int, env: Env)
    requires Sound(n) && WritesHold(env.writes)
    ensures Sound(RemoveCommand(n, device, env).node)
  {
    var w := Remove(n.world, device, env.fate).world;
    RemoveWithin(n.world, device, env.fate);
    RemoveGrows(n.world, device, env.fate);
    MovedSound(n, w);
    BookkeepingSound(n.(world := w), n.world.live, true, env);
  }

  lemma PairingSound(n: Node, spec: EndpointSpec, env: Env)
    requires Sound(n) && WritesHold(env.writes)
    ensures Sound(NoteSupersession(n, spec, env))
  {
    var m0, m := n.store.endpoints, NoteSupersession(n, spec, env).store.endpoints;
    PairingEffect(n, spec, env);
    if NoteSupersession(n, spec, env).store != n.store { PersistIsSane(n.store.(endpoints := m), env.writes); }
    forall id | id in m ensures m[id].number == m0[id].number && m[id].numberVoid == m0[id].numberVoid {
      ForgottenStaysDown(id, m0[id], Some(spec.publishedAs));
    }
  }

  lemma UpsertSound(n: Node, spec: EndpointSpec, env: Env)
    requires Sound(n) && WritesHold(env.writes)
    ensures Sound(CheckDrift(n.(world := Upsert(n.world, spec, env.fate).world), env))
    ensures Sound(UpsertCommand(n, spec, env).node)
  {
    var w := Upsert(n.world, spec, env.fate).world;
    UpsertWithin(n.world, spec, env.fate);
    UpsertGrows(n.world, spec, env.fate);
    MovedSound(n, w);
    CheckSound(n.(world := w), env);
    PairingSound(CheckDrift(n.(world := w), env), spec, env);
  }

  // --- fabrics, reset, rebuild ---------------------------------------------

  /** Voiding trusts nothing: sound over any numbers. */
  lemma VoidingSound(s: Store, v: World, writes: Writes)
    requires Sane(s) && WritesHold(writes)
    ensures MapSound(VoidNumbers(s, writes), v)
  {
    PersistIsSane(s.(endpoints := VoidAll(s.endpoints), compared := false), writes);
  }

  lemma NotingSound(n: Node, count: nat, a: Allocation, env: Env)
    requires Sound(n) && StorageHolds(env) && (n.fabrics > 0 && count == 0 ==> LawfulAllocation(n.world, a))
    ensures Sound(FabricsChanged(SetFabrics(n, count, a), env))
    ensures count <= n.fabrics ==> Sound(NoteFabrics(SetFabrics(n, count, a), env))
  {
    VoidingSound(n.store, Erase(n, a).world, env.writes);
  }

  lemma RemoveFabricSound(n: Node, found: bool, observed: bool, a: Allocation, env: Env)
    requires Sound(n) && StorageHolds(env) && (found && n.fabrics == 1 ==> LawfulAllocation(n.world, a))
    ensures Sound(RemoveFabric(n, found, observed, a, env))
  {
    RemoveFabricIsNoting(n, found, observed, a, env);
    NotingSound(n, if found && n.fabrics > 0 then n.fabrics - 1 else n.fabrics, a, env);
  }

  lemma ResetSound(n: Node, preserve: bool, a: Allocation, env: Env)
    requires Sound(n) && StorageHolds(env) && LawfulAllocation(n.world, a)
    ensures Sound(FactoryReset(n, preserve, a, env))
  {
    VoidingSound(n.store, Erase(n, a).world, env.writes);
  }

  lemma RebuiltTrusted(live: seq<LiveNumber>, numbers: map<string, nat>)
    requires DistinctEntries(live)
    requires forall e :: e in live ==> e.uniqueId in numbers && numbers[e.uniqueId] == e.number
    ensures Trusted(FromLive(live), numbers)
  {
    var m := FromLive(live);
    FromLiveKeys(live);
    forall id | id in m ensures id in numbers && numbers[id] == m[id].number {
      var e :| e in live && e.uniqueId == id;
      assert m[id] == RecordFor(e);
    }
  }

  lemma RebuildSound(n: Node, env: Env)
    requires Sound(n) && StorageHolds(env)
    ensures Sound(RebuildCommand(n, env).node)
  {
    var live := LiveNumbers(n.world);
    LiveNumbersMembers(n.world);
    LiveNumbersTrue(n.world);
    RebuiltTrusted(live, n.world.numbers);
    PersistIsSane(n.store.(endpoints := FromLive(live), problem := false), env.writes);
  }

  // --- restart -------------------------------------------------------------

  /** A start on good storage serves, with the map it read, whatever could not be restored. */
  lemma StartServes(n: Node, order: seq<string>, withdrawal: seq<string>, env: Env)
    requires Sane(n.store) && Witnessed(n) && Visits(order, Load(n.store.disk).endpoints) && StorageHolds(env)
    ensures var r := Start(NewProcess(n, true), order, withdrawal, env);
            && Witnessed(r) && Quiet(r) && r.store.endpoints == NormalMap(n.store.endpoints) && Sane(r.store)
            && r.world == Restore(NewProcess(n, true).world, NextSpecs(n, order), env.fate).world
  {
    var f := NewProcess(n, true);
    var loaded := LoadStore(n.store);
    SaneMirrors(n.store);
    LoadedIsNormal(n.store.disk);
    assert Sane(loaded);
    var restored := RestoreEndpoints(f.(store := loaded), order, env);
    AssertingKeeps(restored.(fabricCount := restored.fabrics), env);
    SeededNothing(loaded, env.writes);
    PersistIsSane(loaded.(endpoints := map[], problem := false, compared := false), env.writes);
  }

  lemma RestoredNumbered(n: Node, specs: seq<EndpointSpec>, fate: Fate)
    requires Numbered(n.world)
    ensures var v := Restore(NewProcess(n, true).world, specs, fate).world;
            Numbered(v) && LiveWithin(v) && Grows(n.world.(children := map[]), v)
  {
    var w0 := NewProcess(n, true).world;
    assert LiveWithin(w0);
    RestoreGrows(w0, specs, fate);
    RestoreWithin(w0, specs, fate);
  }

  lemma NormalTrusted(m: map<string, Record>, numbers: map<string, nat>)
    requires Trusted(m, numbers)
    ensures Trusted(NormalMap(m), numbers)
  {
  }

  lemma RestartSound(n: Node, order: seq<string>, withdrawal: seq<string>, env: Env)
    requires Sound(n) && StorageHolds(env) && Visits(order, Load(n.store.disk).endpoints)
    ensures Sound(Start(NewProcess(n, true), order, withdrawal, env))
  {
    var r := Start(NewProcess(n, true), order, withdrawal, env);
    StartServes(n, order, withdrawal, env);
    RestoredNumbered(n, NextSpecs(n, order), env.fate);
    NormalTrusted(n.store.endpoints, n.world.numbers);
    GrownTrusted(NormalMap(n.store.endpoints), n.world.(children := map[]), r.world);
  }

  // --- whole runs ----------------------------------------------------------

  lemma CommandSound(n: Node, attached: bool, c: Command, env: Env)
    requires Sound(n) && StorageHolds(env) && SoundOp(n, Client(attached, c))
    ensures Sound(Execute(n, c, env))
  {
    match c
    case AttachCmd(desired, replaceAll, order) => AttachSound(n, desired, replaceAll, order, env);
    case UpsertCmd(spec) => UpsertSound(n, spec, env);
    case RemoveCmd(device) => RemoveSound(n, device, env);
    case RemoveFabricCmd(found, observed, a) => RemoveFabricSound(n, found, observed, a, env);
    case ResetCmd(preserve, erased) => if erased.Some? { ResetSound(n, preserve, erased.value, env); }
    case RebuildCmd => RebuildSound(n, env);
  }

  lemma StepSound(n: Node, op: NodeOp, env: Env)
    requires Sound(n) && StorageHolds(env) && SoundOp(n, op)
    ensures Sound(StepNode(n, op, env))
  {
    match op
    case Client(attached, c) => CommandSound(n, attached, c, env);
    case Fabrics(count, a) => NotingSound(n, count, a, env);
    case Restart(readable, order, withdrawal) =>
      if Visits(order, Load(n.store.disk).endpoints) { RestartSound(n, order, withdrawal, env); }
  }

  ghost predicate SoundOps(n: Node, ops: seq<NodeOp>, env: Env) {
    forall i :: 0 <= i < |ops| ==> SoundOp(RunNode(n, ops[..i], env), ops[i])
  }

  lemma SoundOpsSplit(n: Node, ops: seq<NodeOp>, env: Env)
    requires ops != [] && SoundOps(n, ops, env)
    ensures SoundOps(n, ops[..|ops| - 1], env)
    ensures SoundOp(RunNode(n, ops[..|ops| - 1], env), ops[|ops| - 1])
  {
    var init := ops[..|ops| - 1];
    forall i | 0 <= i < |init| ensures SoundOp(RunNode(n, init[..i], env), init[i]) {
      assert init[..i] == ops[..i] && init[i] == ops[i];
    }
    assert ops[..|init|] == init;
  }

  /** Over every run on working storage, whatever matter.js refuses and whatever that leaves
      behind, incomplete restores included: the node serves, reports no drift, its witness is
      set in memory and on disk exactly when there is a fabric, and every number the map trusts
      is the one matter.js holds. */
  lemma {:induction false} SoundRun(n: Node, ops: seq<NodeOp>, env: Env)
    requires Sound(n) && StorageHolds(env) && SoundOps(n, ops, env)
    ensures Sound(RunNode(n, ops, env))
    decreases |ops|
  {
    if ops != [] {
      var init, last := ops[..|ops| - 1], ops[|ops| - 1];
      SoundOpsSplit(n, ops, env);
      SoundRun(n, init, env);
      StepSound(RunNode(n, init, env), last, env);
    }
  }

  /** The one refusal left after such a run: its fabrics vanished while the node was down.
      Then, and only then, the next start refuses. */
  lemma RefusesOnlyWhenFabricsVanished(n: Node, ops: seq<NodeOp>, order: seq<string>, withdrawal: seq<string>,
                                       env: Env, found: nat)
    requires Sound(n) && StorageHolds(env) && SoundOps(n, ops, env)
    requires Visits(order, Load(RunNode(n, ops, env).store.disk).endpoints)
    ensures var r := RunNode(n, ops, env);
            Start(NewProcess(r.(fabrics := found), true), order, withdrawal, env).refusal ==
            if found == 0 && r.fabrics > 0 then Some(FabricStorageLost) else None
  {
    SoundRun(n, ops, env);
    StartRefuses(RunNode(n, ops, env), order, withdrawal, env, found);
  }

  lemma StartRefuses(n: Node, order: seq<string>, withdrawal: seq<string>, env: Env, found: nat)
    requires Sane(n.store) && Witnessed(n) && Visits(order, Load(n.store.disk).endpoints)
    ensures Start(NewProcess(n.(fabrics := found), true), order, withdrawal, env).refusal ==
            if found == 0 && n.fabrics > 0 then Some(FabricStorageLost) else None
  {
    var f := NewProcess(n.(fabrics := found), true);
    SaneMirrors(n.store);
    var restored := RestoreEndpoints(f.(store := LoadStore(f.store)), order, env);
    AssertingKeeps(restored.(fabricCount := restored.fabrics), env);
  }

  // --- where drift is called that a reset path caused -----------------------

  /** `now` is trusted under another number, which is what `e` reports. */
  predicate DriftsAs(endpoints: map<string, Record>, now: LiveNumber, e: DriftEntry) {
    Drifts(endpoints, now) && e == DriftEntry(now.uniqueId, endpoints[now.uniqueId].number, now.number)
  }

  /** The last fabric of a node leaves and matter.js erases its numbers. The map goes on
      trusting only numbers matter.js holds exactly if the node had its witness, or matter.js
      happens to hand out every trusted number again. The next check reports nothing if it had,
      and otherwise exactly the live identities it trusted under another number. */
  lemma LastFabricDrift(n: Node, a: Allocation, e: DriftEntry, env: Env)
    requires n.fabricCount == n.fabrics > 0 && DistinctLive(n.world.live)
    ensures var left := FabricsChanged(SetFabrics(n, 0, a), env);
            && (Trusted(left.store.endpoints, a.numbers) <==> n.marker || Trusted(n.store.endpoints, a.numbers))
            && (e in CheckDrift(left, env).drift <==>
                  && !n.marker
                  && exists d :: d in n.world.live && DriftsAs(n.store.endpoints, LiveNumberOf(left.world, d), e))
  {
    DriftIsExact(FabricsChanged(SetFabrics(n, 0, a), env), e, env);
  }

  /** Such a node: a start that refused over a broken map with no witness on disk, then a
      confirmed rebuild. */
  lemma UnwitnessedServer(n: Node, order: seq<string>, env: Env)
    requires UnwitnessedStart(n, true) && Visits(order, Load(n.store.disk).endpoints) && WritesHold(env.writes)
    ensures var r := RebuildCommand(Start(NewProcess(n, true), order, [], env), env).node;
            && r.refusal.None? && !r.marker && r.fabricCount == r.fabrics == n.fabrics > 0
            && Coherent(r.world) && r.world.live == map[] && r.store.endpoints == map[]
  {
    FreshIsCoherent(n, true);
    var started := Start(NewProcess(n, true), order, [], env);
    assert started.world == NewProcess(n, true).world;
    assert LiveNumbers(started.world) == [];
  }

  lemma OnlyOne(live: map<int, LiveEntry>, spec: EndpointSpec)
    requires Exactly(live, [spec])
    ensures live.Keys == {spec.device} && live[spec.device].publishedAs == spec.publishedAs
    ensures Ids(live) == {spec.publishedAs} && DistinctLive(live)
  {
    assert [spec][0] in [spec];
  }

  /** The first record of a node with nothing live and nothing recorded carries the number the
      accessory got. */
  lemma FirstRecord(n: Node, w: World, spec: EndpointSpec, env: Env)
    requires n.world.live == map[] && n.store.endpoints == map[] && Exactly(w.live, [spec])
    ensures var marked := ForgetRemoved(n.(world := w), LiveDriven(n.world.live), false, env);
            var m := CheckDrift(marked, env).store.endpoints;
            && m.Keys == {spec.publishedAs} && !m[spec.publishedAs].numberVoid
            && m[spec.publishedAs].number == NumberIn(w, spec.publishedAs)
  {
    var moved := n.(world := w);
    var marked := ForgetRemoved(moved, LiveDriven(n.world.live), false, env);
    OnlyOne(w.live, spec);
    SoftRemovals(moved, n.world.live, env);
    assert marked.store.endpoints == map[];
    CheckSettles(w, marked.store, env.writes);
    assert spec.device in w.live;
  }

  lemma AttachLeavesWitness(n: Node, desired: seq<EndpointSpec>, replaceAll: bool, order: seq<string>, env: Env)
    ensures var r := Attach(n, desired, replaceAll, order, env).node;
            && r.refusal == n.refusal && r.fabrics == n.fabrics && r.fabricCount == n.fabricCount
            && r.marker == n.marker
  {
  }

  lemma FirstAccessory(n: Node, spec: EndpointSpec, env: Env)
    requires Coherent(n.world) && n.world.live == map[] && n.store.endpoints == map[]
    requires NothingFails(env.fate) && Supported(spec.role)
    ensures var served := Attach(n, [spec], false, [], env).node;
            && Exactly(served.world.live, [spec])
            && served.store.endpoints.Keys == {spec.publishedAs} && !served.store.endpoints[spec.publishedAs].numberVoid
            && served.store.endpoints[spec.publishedAs].number == NumberIn(served.world, spec.publishedAs)
  {
    AttachMovesWorld(n, [spec], false, [], env);
    FirstReconcile(n.world, [spec], env.fate);
    FirstRecord(n, ReconcileTo(n.world, [spec], false, [], env.fate).world, spec, env);
  }

  /** A lone accessory is called drifted at the last fabric exactly when its number moved. */
  lemma LoneDrift(n: Node, spec: EndpointSpec, a: Allocation, env: Env)
    requires n.fabricCount == n.fabrics > 0 && !n.marker && Exactly(n.world.live, [spec])
    requires spec.publishedAs in n.store.endpoints && !n.store.endpoints[spec.publishedAs].numberVoid
    ensures var left := FabricsChanged(SetFabrics(n, 0, a), env);
            var was, now := n.store.endpoints[spec.publishedAs].number, NumberIn(left.world, spec.publishedAs);
            DriftEntry(spec.publishedAs, was, now) in CheckDrift(left, env).drift <==> was != now
  {
    var left := FabricsChanged(SetFabrics(n, 0, a), env);
    var e := DriftEntry(spec.publishedAs, n.store.endpoints[spec.publishedAs].number,
                        NumberIn(left.world, spec.publishedAs));
    OnlyOne(n.world.live, spec);
    LastFabricDrift(n, a, e, env);
    assert DriftsAs(n.store.endpoints, LiveNumberOf(left.world, spec.device), e) <==> e.expected != e.actual;
  }

  /** The false drift is reached from any unwitnessed start: rebuild, attach one accessory, let
      the last fabric go. The next check calls the accessory drifted exactly when matter.js
      numbered it differently after its own erase. */
  lemma FalseDriftArises(n: Node, spec: EndpointSpec, order: seq<string>, a: Allocation, env: Env)
    requires UnwitnessedStart(n, true) && Visits(order, Load(n.store.disk).endpoints)
    requires WritesHold(env.writes) && NothingFails(env.fate) && Supported(spec.role)
    ensures var r := RebuildCommand(Start(NewProcess(n, true), order, [], env), env).node;
            var served := Attach(r, [spec], false, [], env).node;
            var left := FabricsChanged(SetFabrics(served, 0, a), env);
            var was, now := NumberIn(served.world, spec.publishedAs), NumberIn(left.world, spec.publishedAs);
            && served.refusal.None? && spec.device in served.world.live
            && (DriftEntry(spec.publishedAs, was, now) in CheckDrift(left, env).drift <==> was != now)
  {
    var r := RebuildCommand(Start(NewProcess(n, true), order, [], env), env).node;
    UnwitnessedServer(n, order, env);
    FirstAccessory(r, spec, env);
    AttachLeavesWitness(r, [spec], false, [], env);
    LoneDrift(Attach(r, [spec], false, [], env).node, spec, a, env);
  }
}
