/** Runs that keep the map faithful to the live set, which is what a restart rebuilds from,
    and runs that in addition keep live set, aggregator and sinks in agreement. */
module NodeClean {
  import opened Protocol
  import opened Reconcile
  import opened Registry
  import opened RegistryProofs
  import opened RegistryCommands
  import opened RegistryWithin
  import opened EndpointMap
  import opened EndpointMapProofs
  import opened Node
  import opened NodeEffects
  import opened NodeFaith
  import opened NodeRestart
  import opened NodeRuns
  import opened NodeSound

  // --- the map and the live set --------------------------------------------

  /** The map records the live set: all of it, or nothing at all right after a reset that
      discarded the map; and nothing that is not live would come back. */
  ghost predicate MapKept(m: map<string, Record>, live: map<int, LiveEntry>) {
    RolesKnown(live) && Buried(m, live) && (AllRecorded(m, live) || m == map[])
  }

  /** Nothing is said of aggregator and sinks: an endpoint may be stranded there, or an entry
      lost from the live set by an abort. */
  ghost predicate Kept(n: Node) { Sound(n) && MapKept(n.store.endpoints, n.world.live) }

  /** The two outcomes of an upsert that break faith: a named accessory lost to a failed battery
      gain, and a stale pairing completed. */
  ghost predicate UpsertKeepsMap(n: Node, spec: EndpointSpec, env: Env) {
    && !(LosesOnGain(n.world, spec, env.fate) && n.world.live[spec.device].name != "")
    && !(Upsert(n.world, spec, env.fate).verdict == Done && StalePairing(n, spec))
  }

  /** What a run must not come to: one of those two outcomes, or a restart that could not bring
      back every restorable accessory. Any attach and any removal may fail in any way. */
  ghost predicate KeptOp(n: Node, op: NodeOp, env: Env) {
    && SoundOp(n, op)
    && match op
       case Client(_, UpsertCmd(spec)) => UpsertKeepsMap(n, spec, env)
       case Restart(_, order, _) => Visits(order, Load(n.store.disk).endpoints) ==> RestoresAll(n, order, env)
       case _ => true
  }

  // --- the commands --------------------------------------------------------

  lemma AttachKept(n: Node, desired: seq<EndpointSpec>, replaceAll: bool, order: seq<string>, env: Env)
    requires Kept(n) && WritesHold(env.writes)
    ensures Kept(Attach(n, desired, replaceAll, order, env).node)
  {
    AttachSound(n, desired, replaceAll, order, env);
    AttachKeepsFaith(n, desired, replaceAll, order, env);
    CommandWithin(n, AttachCmd(desired, replaceAll, order), env);
  }

  lemma RemoveKept(n: Node, device: int, env: Env)
    requires Kept(n) && WritesHold(env.writes)
    ensures Kept(RemoveCommand(n, device, env).node)
  {
    RemoveSound(n, device, env);
    RemoveKeepsFaith(n, device, env);
    CommandWithin(n, RemoveCmd(device), env);
  }

  lemma UpsertCheckedKept(n: Node, spec: EndpointSpec, env: Env)
    requires Kept(n) && UpsertKeepsMap(n, spec, env)
    ensures Faithful(CheckDrift(n.(world := Upsert(n.world, spec, env.fate).world), env))
  {
    var v := Upsert(n.world, spec, env.fate).world;
    if AllRecorded(n.store.endpoints, n.world.live) {
      UpsertedFaith(n, spec, env);
    } else {
      UpsertWithin(n.world, spec, env.fate);
      CheckKeepsBuried(v, n.store, env.writes);
      CheckRecords(v, n.store, env.writes);
    }
  }

  lemma UpsertKept(n: Node, spec: EndpointSpec, env: Env)
    requires Kept(n) && WritesHold(env.writes) && UpsertKeepsMap(n, spec, env)
    ensures Kept(UpsertCommand(n, spec, env).node)
  {
    var o := Upsert(n.world, spec, env.fate);
    var checked := CheckDrift(n.(world := o.world), env);
    UpsertSound(n, spec, env);
    CommandWithin(n, UpsertCmd(spec), env);
    UpsertMovesWorld(n, spec, env);
    UpsertCheckedKept(n, spec, env);
    if o.verdict == Done {
      StaleAlike(n, checked, spec, env);
      PairingFaith(checked, spec, env);
    }
  }

  // --- fabrics, reset, rebuild ---------------------------------------------

  lemma VoidingKept(s: Store, live: map<int, LiveEntry>, writes: Writes)
    requires MapKept(s.endpoints, live)
    ensures MapKept(VoidNumbers(s, writes).endpoints, live)
  {
    var m := VoidAll(s.endpoints);
    forall id | id in m ensures ComesBack(id, m[id]) <==> ComesBack(id, s.endpoints[id]) {
      assert Normal(m[id]) == Normal(s.endpoints[id]).(numberVoid := true);
    }
    forall d | d in live && Recorded(s.endpoints, d, live[d]) ensures Recorded(m, d, live[d]) {}
  }

  /** The observer after any change of the fabric table. */
  lemma NotingKept(n: Node, count: nat, a: Allocation, env: Env)
    requires MapKept(n.store.endpoints, n.world.live)
    ensures var r := FabricsChanged(SetFabrics(n, count, a), env); MapKept(r.store.endpoints, r.world.live)
    ensures var r := NoteFabrics(SetFabrics(n, count, a), env); MapKept(r.store.endpoints, r.world.live)
  {
    VoidingKept(n.store, n.world.live, env.writes);
  }

  lemma RemoveFabricKept(n: Node, found: bool, observed: bool, a: Allocation, env: Env)
    requires MapKept(n.store.endpoints, n.world.live)
    ensures var r := RemoveFabric(n, found, observed, a, env); MapKept(r.store.endpoints, r.world.live)
  {
    RemoveFabricIsNoting(n, found, observed, a, env);
    NotingKept(n, if found && n.fabrics > 0 then n.fabrics - 1 else n.fabrics, a, env);
  }

  lemma ResetKept(n: Node, preserve: bool, erased: Option<Allocation>, env: Env)
    requires MapKept(n.store.endpoints, n.world.live)
    ensures var r := ResetCommand(n, preserve, erased, env); MapKept(r.store.endpoints, r.world.live)
  {
    VoidingKept(n.store, n.world.live, env.writes);
    ResetKeepsLive(n, preserve, erased, env);
  }

  lemma RebuiltRecords(w: World)
    requires DistinctLive(w.live)
    ensures var m := FromLive(LiveNumbers(w)); AllRecorded(m, w.live) && m.Keys == Ids(w.live)
  {
    RebuiltEntries(w);
    forall d | d in w.live ensures Recorded(FromLive(LiveNumbers(w)), d, w.live[d]) {}
  }

  lemma RebuiltKept(w: World)
    requires DistinctLive(w.live) && RolesKnown(w.live)
    ensures MapKept(FromLive(LiveNumbers(w)), w.live)
  {
    RebuiltRecords(w);
  }

  lemma RebuildKept(n: Node, env: Env)
    requires MapKept(n.store.endpoints, n.world.live) && DistinctLive(n.world.live)
    ensures MapKept(RebuildCommand(n, env).node.store.endpoints, n.world.live)
  {
    RebuildsOrRefuses(n, env);
    RebuiltKept(n.world);
  }

  // --- restart -------------------------------------------------------------

  lemma VisitsSomething(order: seq<string>, m: map<string, Record>)
    requires Visits(order, m)
    ensures order != [] ==> exists id :: id in m
  {
    if order != [] { assert order[0] in m; }
  }

  /** Right after a discarding reset there is nothing to restore. */
  lemma RestartOfNothing(n: Node, order: seq<string>, env: Env)
    requires n.store.endpoints == map[] && Sane(n.store) && Visits(order, Load(n.store.disk).endpoints)
    ensures var v := Restore(NewProcess(n, true).world, NextSpecs(n, order), env.fate).world;
            Coherent(v) && v.live == map[]
  {
    SaneMirrors(n.store);
    VisitsSomething(order, Load(n.store.disk).endpoints);
    FreshIsCoherent(n, true);
  }

  /** Whatever the run before left in aggregator and sinks, a complete restart ends in agreement
      and as faithful as the map it found. */
  lemma RestartKept(n: Node, order: seq<string>, withdrawal: seq<string>, env: Env)
    requires Kept(n) && StorageHolds(env) && Visits(order, Load(n.store.disk).endpoints) && RestoresAll(n, order, env)
    ensures var r := Start(NewProcess(n, true), order, withdrawal, env); Kept(r) && Coherent(r.world)
  {
    var r := Start(NewProcess(n, true), order, withdrawal, env);
    RestartSound(n, order, withdrawal, env);
    StartServes(n, order, withdrawal, env);
    if AllRecorded(n.store.endpoints, n.world.live) {
      RestartRebuilds(n, order, withdrawal, env);
      CoherentWithin(r.world);
    } else {
      RestartOfNothing(n, order, env);
    }
  }

  // --- whole runs ----------------------------------------------------------

  lemma CommandKept(n: Node, attached: bool, c: Command, env: Env)
    requires Kept(n) && StorageHolds(env) && KeptOp(n, Client(attached, c), env)
    ensures Kept(Execute(n, c, env))
  {
    CommandSound(n, attached, c, env);
    match c
    case AttachCmd(desired, replaceAll, order) => AttachKept(n, desired, replaceAll, order, env);
    case UpsertCmd(spec) => UpsertKept(n, spec, env);
    case RemoveCmd(device) => RemoveKept(n, device, env);
    case RemoveFabricCmd(found, observed, a) => RemoveFabricKept(n, found, observed, a, env);
    case ResetCmd(preserve, erased) => ResetKept(n, preserve, erased, env);
    case RebuildCmd =>
      RebuildKeepsWorld(n, env);
      RebuildKept(n, env);
  }

  lemma StepKept(n: Node, op: NodeOp, env: Env)
    requires Kept(n) && StorageHolds(env) && KeptOp(n, op, env)
    ensures Kept(StepNode(n, op, env))
  {
    StepSound(n, op, env);
    match op
    case Client(attached, c) => CommandKept(n, attached, c, env);
    case Fabrics(count, a) => NotingKept(n, count, a, env);
    case Restart(readable, order, withdrawal) =>
      if Visits(order, Load(n.store.disk).endpoints) { RestartKept(n, order, withdrawal, env); }
  }

  ghost predicate KeptOps(n: Node, ops: seq<NodeOp>, env: Env) {
    forall i :: 0 <= i < |ops| ==> KeptOp(RunNode(n, ops[..i], env), ops[i], env)
  }

  lemma KeptOpsSplit(n: Node, ops: seq<NodeOp>, env: Env)
    requires ops != [] && KeptOps(n, ops, env)
    ensures KeptOps(n, ops[..|ops| - 1], env)
    ensures KeptOp(RunNode(n, ops[..|ops| - 1], env), ops[|ops| - 1], env)
  {
    var init := ops[..|ops| - 1];
    forall i | 0 <= i < |init| ensures KeptOp(RunNode(n, init[..i], env), init[i], env) {
      assert init[..i] == ops[..i] && init[i] == ops[i];
    }
    assert ops[..|init|] == init;
  }

  /** Over every such run, with attaches and removals aborted half-way, endpoints stranded and
      entries lost: the map records what is live and nothing else would come back. */
  lemma {:induction false} KeptRun(n: Node, ops: seq<NodeOp>, env: Env)
    requires Kept(n) && StorageHolds(env) && KeptOps(n, ops, env)
    ensures Kept(RunNode(n, ops, env))
    decreases |ops|
  {
    if ops != [] {
      var init, last := ops[..|ops| - 1], ops[|ops| - 1];
      KeptOpsSplit(n, ops, env);
      KeptRun(n, init, env);
      StepKept(RunNode(n, init, env), last, env);
    }
  }

  /** A node over storage as installed: whatever numbers matter.js kept, no file, no fabric. */
  ghost predicate Blank(n: Node) {
    && Numbered(n.world) && n.world.live == map[] && n.world.children == map[] && n.world.sinks == map[]
    && n.store.disk == Absent && n.store.endpoints == map[] && !n.store.dirty
    && n.fabrics == n.fabricCount == 0 && !n.marker && !n.markerOnDisk && Quiet(n)
  }

  lemma BlankIsGood(n: Node)
    requires Blank(n)
    ensures Good(n)
  {
    assert Ids(map[]) == {};
  }

  /** Restart refinement over whole runs: from storage as installed, whatever the attaches and
      removals of the run came to, a complete restart brings back exactly the named accessories
      live at its end, in agreement again, unless a reset has just discarded the map under live
      endpoints and no command has checked it since. */
  lemma RunThenRestart(n: Node, ops: seq<NodeOp>, order: seq<string>, withdrawal: seq<string>, env: Env)
    requires Blank(n) && StorageHolds(env) && KeptOps(n, ops, env)
    requires var r := RunNode(n, ops, env);
             && (r.store.endpoints == map[] ==> r.world.live == map[])
             && Visits(order, Load(r.store.disk).endpoints) && RestoresAll(r, order, env)
    ensures var r := RunNode(n, ops, env);
            var again := Start(NewProcess(r, true), order, withdrawal, env);
            && Rebuilds(r.world.live, again.world.live) && Faithful(again) && Coherent(again.world)
            && Kept(again) && again.refusal.None?
  {
    BlankIsGood(n);
    KeptRun(n, ops, env);
    var r := RunNode(n, ops, env);
    RestartKept(r, order, withdrawal, env);
    RestartRebuilds(r, order, withdrawal, env);
  }

  // --- runs that stay in agreement -----------------------------------------

  ghost predicate Good(n: Node) { Kept(n) && Coherent(n.world) }

  /** In addition, whatever failed in a command was recovered. */
  ghost predicate LawfulOp(n: Node, op: NodeOp, env: Env) {
    && KeptOp(n, op, env)
    && match op
       case Client(_, AttachCmd(desired, replaceAll, order)) =>
         LawfulAttach(n.world, desired, replaceAll, order, env.fate)
       case Client(_, UpsertCmd(spec)) => UpsertRecovers(n.world, spec, env.fate)
       case Client(_, RemoveCmd(device)) => device !in n.world.live || CloseRecovers(n.world, env.fate)
       case _ => true
  }

  /** When no two calls of one recovery fail together, an attach with at most one rekey and a
      removal are always lawful, and so is an upsert that keeps the map. */
  lemma RecoveringCommandsAreLawful(n: Node, attached: bool, c: Command, env: Env)
    requires Recovers(env.fate) && Coherent(n.world)
    requires match c
             case AttachCmd(desired, replaceAll, order) =>
               Requested(n.world, desired, order) && |PlanOf(LiveComposition(n.world.live), order, desired).rekey| <= 1
             case UpsertCmd(spec) => UpsertKeepsMap(n, spec, env)
             case RemoveCmd(_) => true
             case _ => false
    ensures LawfulOp(n, Client(attached, c), env)
  {
    match c
    case AttachCmd(desired, replaceAll, order) =>
      var plan := PlanOf(LiveComposition(n.world.live), order, desired);
      if ReconcileTo(n.world, desired, replaceAll, order, env.fate).verdict == Aborted {
        RequestIsPlanned(n.world, desired, order);
        AbortKeepsCoherent(n.world, LiveComposition(n.world.live), desired, plan, env.fate);
      }
    case UpsertCmd(spec) => RecoversUpsert(n.world, spec, env.fate);
    case RemoveCmd(_) =>
  }

  lemma KeptLiveCoherent(before: World, after: World)
    requires KeepsLive(before, after) && Coherent(before)
    ensures Coherent(after)
  {
    forall d | d in after.live ensures Linked(after, d, after.live[d]) { assert Linked(before, d, before.live[d]); }
  }

  lemma CommandKeepsAgreement(n: Node, attached: bool, c: Command, env: Env)
    requires Good(n) && LawfulOp(n, Client(attached, c), env)
    ensures Coherent(Execute(n, c, env).world)
  {
    match c
    case AttachCmd(desired, replaceAll, order) =>
      AttachMovesWorld(n, desired, replaceAll, order, env);
      AttachWorldGood(n.world, desired, replaceAll, order, env.fate);
    case UpsertCmd(spec) =>
      UpsertMovesWorld(n, spec, env);
      UpsertKeeps(n.world, spec, env.fate);
    case RemoveCmd(device) =>
      RemoveMovesWorld(n, device, env);
      RemoveKeeps(n.world, device, env.fate);
    case RemoveFabricCmd(found, observed, a) =>
      RemoveFabricKeepsLive(n, found, observed, a, env);
      KeptLiveCoherent(n.world, Execute(n, c, env).world);
    case ResetCmd(preserve, erased) =>
      ResetKeepsLive(n, preserve, erased, env);
      KeptLiveCoherent(n.world, Execute(n, c, env).world);
    case RebuildCmd => RebuildKeepsWorld(n, env);
  }

  /** Each kind of step keeps the whole invariant. */
  lemma StepKeepsGood(n: Node, op: NodeOp, env: Env)
    requires Good(n) && StorageHolds(env) && LawfulOp(n, op, env)
    ensures Good(StepNode(n, op, env))
  {
    StepKept(n, op, env);
    match op
    case Client(attached, c) => CommandKeepsAgreement(n, attached, c, env);
    case Fabrics(count, a) =>
      FabricsKeepLive(n, count, a, env);
      KeptLiveCoherent(n.world, StepNode(n, op, env).world);
    case Restart(readable, order, withdrawal) =>
      if Visits(order, Load(n.store.disk).endpoints) { RestartKept(n, order, withdrawal, env); }
  }

  ghost predicate LawfulRun(n: Node, ops: seq<NodeOp>, env: Env) {
    forall i :: 0 <= i < |ops| ==> LawfulOp(RunNode(n, ops[..i], env), ops[i], env)
  }

  lemma LawfulOpsSplit(n: Node, ops: seq<NodeOp>, env: Env)
    requires ops != [] && LawfulRun(n, ops, env)
    ensures LawfulRun(n, ops[..|ops| - 1], env)
    ensures LawfulOp(RunNode(n, ops[..|ops| - 1], env), ops[|ops| - 1], env)
  {
    var init := ops[..|ops| - 1];
    forall i | 0 <= i < |init| ensures LawfulOp(RunNode(n, init[..i], env), init[i], env) {
      assert init[..i] == ops[..i] && init[i] == ops[i];
    }
    assert ops[..|init|] == init;
  }

  /** Over every run whose failures were recovered, restarts included: live set, aggregator,
      sinks, map, numbers and witness agree after every step. */
  lemma {:induction false} CleanRun(n: Node, ops: seq<NodeOp>, env: Env)
    requires Good(n) && StorageHolds(env) && LawfulRun(n, ops, env)
    ensures Good(RunNode(n, ops, env))
    decreases |ops|
  {
    if ops != [] {
      var init, last := ops[..|ops| - 1], ops[|ops| - 1];
      LawfulOpsSplit(n, ops, env);
      CleanRun(n, init, env);
      StepKeepsGood(RunNode(n, init, env), last, env);
    }
  }

  lemma FirstIsLawful(n: Node, desired: seq<EndpointSpec>, env: Env)
    requires LawfulAttach(n.world, desired, false, [], env.fate)
    ensures LawfulOp(n, Client(true, AttachCmd(desired, false, [])), env)
  {
  }

  lemma AttachIsServed(n: Node, desired: seq<EndpointSpec>, env: Env)
    requires n.refusal.None?
    ensures StepNode(n, Client(true, AttachCmd(desired, false, [])), env) == Attach(n, desired, false, [], env).node
  {
  }

  /** Lawful runs start with any parsed attach: when nothing fails, the first one is lawful and
      leaves exactly what it asked for. */
  lemma FirstAttach(n: Node, desired: seq<EndpointSpec>, env: Env)
    requires Blank(n) && StorageHolds(env) && NothingFails(env.fate)
    requires DistinctDevices(desired) && DistinctIds(desired) && forall s :: s in desired ==> Supported(s.role)
    ensures LawfulOp(n, Client(true, AttachCmd(desired, false, [])), env)
    ensures Exactly(StepNode(n, Client(true, AttachCmd(desired, false, [])), env).world.live, desired)
  {
    BlankIsGood(n);
    FirstReconcile(n.world, desired, env.fate);
    FirstIsLawful(n, desired, env);
    AttachIsServed(n, desired, env);
    AttachMovesWorld(n, desired, false, [], env);
  }
}
