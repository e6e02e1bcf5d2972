/** Whole runs of the node: client frames, fabric changes and restarts, in any order and
    under any pattern of failures. */
module NodeRuns {
  import opened Protocol
  import opened Reconcile
  import opened Registry
  import opened EndpointMap
  import opened EndpointMapProofs
  import opened Node
  import opened NodeEffects
  import opened NodeRestart
  import opened RegistryWithin

  datatype NodeOp =
    | Client(attached: bool, command: Command)
    | Fabrics(count: nat, allocation: Allocation)
    | Restart(readable: bool, order: seq<string>, withdrawal: seq<string>)

  /** A restart whose `order` does not visit the map is no start at all and does nothing. */
  ghost function StepNode(n: Node, op: NodeOp, env: Env): Node {
    match op
    case Client(attached, command) => Serve(n, attached, command, env)
    case Fabrics(count, a) => FabricsChanged(SetFabrics(n, count, a), env)
    case Restart(readable, order, withdrawal) =>
      if Visits(order, Load(n.store.disk).endpoints) then Start(NewProcess(n, readable), order, withdrawal, env) else n
  }

  ghost function RunNode(n: Node, ops: seq<NodeOp>, env: Env): Node
    decreases |ops|
  {
    if ops == [] then n else StepNode(RunNode(n, ops[..|ops| - 1], env), ops[|ops| - 1], env)
  }

  // --- the map under the node ----------------------------------------------

  lemma {:induction false} RunStoreJoins(s: Store, a: seq<StoreOp>, b: seq<StoreOp>, writes: Writes)
    ensures RunStore(s, a + b, writes) == RunStore(RunStore(s, a, writes), b, writes)
    decreases |b|
  {
    if b == [] {
      assert a + b == a;
    } else {
      assert (a + b)[..|a + b| - 1] == a + b[..|b| - 1];
      RunStoreJoins(s, a, b[..|b| - 1], writes);
    }
  }

  lemma RunOne(s: Store, op: StoreOp, writes: Writes)
    ensures RunStore(s, [op], writes) == StepStore(s, op, writes)
  {
    assert [op][..0] == [];
    assert RunStore(s, [], writes) == s;
  }

  lemma RunTwo(s: Store, ops: seq<StoreOp>, op: StoreOp, writes: Writes)
    ensures RunStore(s, ops + [op], writes) == StepStore(RunStore(s, ops, writes), op, writes)
  {
    assert (ops + [op])[..|ops + [op]| - 1] == ops;
  }

  /** The map operations behind one batch of departures. */
  function ForgetTrace(ds: seq<Departure>): seq<StoreOp> {
    if ds == [] then []
    else (if ds[0].successor.Some? then [ForgetOp([ds[0].id], ds[0].successor)] else []) + ForgetTrace(ds[1..])
  }

  lemma {:induction false} ForgetEachIsRun(f: Forgetting, ds: seq<Departure>, hard: bool, writes: Writes)
    ensures ForgetEach(f, ds, hard, writes).store == RunStore(f.store, ForgetTrace(ds), writes)
    decreases |ds|
  {
    if ds != [] {
      var head := if ds[0].successor.Some? then [ForgetOp([ds[0].id], ds[0].successor)] else [];
      var next := ForgetNext(f, ds[0], hard, writes);
      if ds[0].successor.Some? { RunOne(f.store, head[0], writes); }
      assert next.store == RunStore(f.store, head, writes);
      ForgetEachIsRun(next, ds[1..], hard, writes);
      RunStoreJoins(f.store, head, ForgetTrace(ds[1..]), writes);
    }
  }

  ghost function ForgetRemovedTrace(n: Node, before: seq<Driven>, hard: bool, env: Env): seq<StoreOp> {
    var ds := Departures(before, n.world.live, Ids(n.world.live), hard);
    var f := ForgetEach(Forgetting(n.store, n.lastRemoved, []), ds, hard, env.writes);
    ForgetTrace(ds) + [if hard then DestroyOp(f.ordinary) else ForgetOp(f.ordinary, None)]
  }

  lemma ForgetRemovedIsRun(n: Node, before: seq<Driven>, hard: bool, env: Env)
    ensures ForgetRemoved(n, before, hard, env).store
            == RunStore(n.store, ForgetRemovedTrace(n, before, hard, env), env.writes)
  {
    var ds := Departures(before, n.world.live, Ids(n.world.live), hard);
    var f := ForgetEach(Forgetting(n.store, n.lastRemoved, []), ds, hard, env.writes);
    ForgetEachIsRun(Forgetting(n.store, n.lastRemoved, []), ds, hard, env.writes);
    RunTwo(n.store, ForgetTrace(ds), if hard then DestroyOp(f.ordinary) else ForgetOp(f.ordinary, None), env.writes);
  }

  /** The map operations behind one change of the live set: what left it, then the check. */
  ghost function MutationTrace(n: Node, w: World, hard: bool, env: Env): seq<StoreOp> {
    ForgetRemovedTrace(n.(world := w), LiveDriven(n.world.live), hard, env) + [CheckOp(LiveNumbers(w))]
  }

  ghost function UpsertTrace(n: Node, spec: EndpointSpec, env: Env): seq<StoreOp> {
    var o := Upsert(n.world, spec, env.fate);
    [CheckOp(LiveNumbers(o.world))]
    + if o.verdict == Done && spec.device in n.lastRemoved && Supersedes(n.lastRemoved[spec.device], spec.publishedAs)
      then [ForgetOp([n.lastRemoved[spec.device]], Some(spec.publishedAs))] else []
  }

  function NoteFabricsTrace(n: Node): seq<StoreOp> {
    if n.fabricCount > 0 && n.fabrics == 0 && n.marker then [VoidOp] else []
  }

  function ResetTrace(n: Node, preserve: bool): seq<StoreOp> {
    if preserve then [VoidOp] else [DiscardOp]
  }

  ghost function CommandTrace(n: Node, c: Command, env: Env): seq<StoreOp> {
    match c
    case AttachCmd(desired, replaceAll, order) =>
      MutationTrace(n, ReconcileTo(n.world, desired, replaceAll, order, env.fate).world, false, env)
    case UpsertCmd(spec) => UpsertTrace(n, spec, env)
    case RemoveCmd(device) => MutationTrace(n, Remove(n.world, device, env.fate).world, true, env)
    case RemoveFabricCmd(found, observed, a) =>
      var left := if found && n.fabrics > 0 then SetFabrics(n, n.fabrics - 1, a) else n;
      if observed then NoteFabricsTrace(NoteWitness(left, env)) else NoteFabricsTrace(left)
    case ResetCmd(preserve, erased) => if erased.Some? then ResetTrace(n, preserve) else []
    case RebuildCmd => if n.refusal == Some(IdentityUnreadable) then [] else [RebuildOp(LiveNumbers(n.world))]
  }

  ghost function StartTrace(n: Node, readable: bool, order: seq<string>, env: Env): seq<StoreOp> {
    var s := LoadStore(n.store);
    [LoadOp] + if readable && n.fabrics > 0 && !s.problem && !s.present then [SeedOp([])] else []
  }

  ghost function OpTrace(n: Node, op: NodeOp, env: Env): seq<StoreOp> {
    match op
    case Client(attached, c) =>
      if GateFor(n.refusal, attached, NameOf(c)) == Accepted then CommandTrace(n, c, env) else []
    case Fabrics(count, a) => NoteFabricsTrace(NoteWitness(SetFabrics(n, count, a), env))
    case Restart(readable, order, withdrawal) =>
      if Visits(order, Load(n.store.disk).endpoints) then StartTrace(n, readable, order, env) else []
  }

  lemma CheckIsRun(n: Node, ops: seq<StoreOp>, s: Store, env: Env)
    requires n.store == RunStore(s, ops, env.writes)
    ensures CheckDrift(n, env).store == RunStore(s, ops + [CheckOp(LiveNumbers(n.world))], env.writes)
  {
    RunTwo(s, ops, CheckOp(LiveNumbers(n.world)), env.writes);
  }

  lemma MutationIsRun(n: Node, w: World, hard: bool, env: Env)
    ensures CheckDrift(ForgetRemoved(n.(world := w), LiveDriven(n.world.live), hard, env), env).store
         == RunStore(n.store, MutationTrace(n, w, hard, env), env.writes)
  {
    var moved := n.(world := w);
    ForgetRemovedIsRun(moved, LiveDriven(n.world.live), hard, env);
    CheckIsRun(ForgetRemoved(moved, LiveDriven(n.world.live), hard, env),
               ForgetRemovedTrace(moved, LiveDriven(n.world.live), hard, env), n.store, env);
  }

  lemma UpsertIsRun(n: Node, spec: EndpointSpec, env: Env)
    ensures UpsertCommand(n, spec, env).node.store == RunStore(n.store, UpsertTrace(n, spec, env), env.writes)
  {
    var o := Upsert(n.world, spec, env.fate);
    RunOne(n.store, CheckOp(LiveNumbers(o.world)), env.writes);
    if o.verdict == Done && spec.device in n.lastRemoved && Supersedes(n.lastRemoved[spec.device], spec.publishedAs) {
      RunTwo(n.store, [CheckOp(LiveNumbers(o.world))],
             ForgetOp([n.lastRemoved[spec.device]], Some(spec.publishedAs)), env.writes);
    } else {
      assert UpsertTrace(n, spec, env) == [CheckOp(LiveNumbers(o.world))];
    }
  }

  lemma NoteFabricsIsRun(n: Node, env: Env)
    ensures NoteFabrics(n, env).store == RunStore(n.store, NoteFabricsTrace(n), env.writes)
  {
    RunOne(n.store, VoidOp, env.writes);
  }

  /** Looking at the fabric table again right after an observation changes nothing. */
  lemma ObservedTwice(n: Node, env: Env)
    ensures NoteFabrics(FabricsChanged(n, env), env) == FabricsChanged(n, env)
  {
  }

  lemma RemoveFabricIsRun(n: Node, found: bool, observed: bool, a: Allocation, env: Env)
    ensures RemoveFabric(n, found, observed, a, env).store
         == RunStore(n.store, CommandTrace(n, RemoveFabricCmd(found, observed, a), env), env.writes)
  {
    var left := if found && n.fabrics > 0 then SetFabrics(n, n.fabrics - 1, a) else n;
    assert left.store == n.store;
    if observed {
      ObservedTwice(left, env);
      NoteFabricsIsRun(NoteWitness(left, env), env);
    } else {
      NoteFabricsIsRun(left, env);
    }
  }

  lemma ResetIsRun(n: Node, preserve: bool, a: Allocation, env: Env)
    ensures FactoryReset(n, preserve, a, env).store == RunStore(n.store, ResetTrace(n, preserve), env.writes)
  {
    RunOne(n.store, VoidOp, env.writes);
    RunOne(n.store, DiscardOp, env.writes);
  }

  lemma AssertedStore(n: Node, env: Env)
    ensures AssertIdentity(n, env).store ==
            if n.refusal.None? && n.fabrics > 0 && !n.store.problem && !n.store.present
            then StepStore(n.store, SeedOp([]), env.writes) else n.store
  {
  }

  /** The only thing a start writes is the map it seeds where none existed. */
  lemma StartedStore(n: Node, readable: bool, order: seq<string>, withdrawal: seq<string>, env: Env)
    requires Visits(order, Load(n.store.disk).endpoints)
    ensures var s := LoadStore(n.store);
            Start(NewProcess(n, readable), order, withdrawal, env).store ==
            if readable && n.fabrics > 0 && !s.problem && !s.present then StepStore(s, SeedOp([]), env.writes) else s
  {
    var f := NewProcess(n, readable);
    var restored := RestoreEndpoints(f.(store := LoadStore(f.store)), order, env);
    assert restored.store == LoadStore(n.store) && restored.fabrics == n.fabrics && restored.refusal == f.refusal;
    AssertedStore(restored.(fabricCount := restored.fabrics), env);
  }

  lemma StartIsRun(n: Node, readable: bool, order: seq<string>, withdrawal: seq<string>, env: Env)
    requires Visits(order, Load(n.store.disk).endpoints)
    ensures Start(NewProcess(n, readable), order, withdrawal, env).store
         == RunStore(n.store, StartTrace(n, readable, order, env), env.writes)
  {
    StartedStore(n, readable, order, withdrawal, env);
    RunOne(n.store, LoadOp, env.writes);
    RunTwo(n.store, [LoadOp], SeedOp([]), env.writes);
  }

  lemma AttachIsRun(n: Node, desired: seq<EndpointSpec>, replaceAll: bool, order: seq<string>, env: Env)
    ensures Attach(n, desired, replaceAll, order, env).node.store
         == RunStore(n.store,
                     MutationTrace(n, ReconcileTo(n.world, desired, replaceAll, order, env.fate).world, false, env),
                     env.writes)
  {
    MutationIsRun(n, ReconcileTo(n.world, desired, replaceAll, order, env.fate).world, false, env);
  }

  lemma RemoveIsRun(n: Node, device: int, env: Env)
    ensures RemoveCommand(n, device, env).node.store
         == RunStore(n.store, MutationTrace(n, Remove(n.world, device, env.fate).world, true, env), env.writes)
  {
    MutationIsRun(n, Remove(n.world, device, env.fate).world, true, env);
  }

  lemma RebuildIsRun(n: Node, env: Env)
    ensures RebuildCommand(n, env).node.store == RunStore(n.store, CommandTrace(n, RebuildCmd, env), env.writes)
  {
    RunOne(n.store, RebuildOp(LiveNumbers(n.world)), env.writes);
  }

  lemma CommandIsRun(n: Node, c: Command, env: Env)
    ensures Execute(n, c, env).store == RunStore(n.store, CommandTrace(n, c, env), env.writes)
  {
    match c
    case AttachCmd(desired, replaceAll, order) => AttachIsRun(n, desired, replaceAll, order, env);
    case UpsertCmd(spec) => UpsertIsRun(n, spec, env);
    case RemoveCmd(device) => RemoveIsRun(n, device, env);
    case RemoveFabricCmd(found, observed, a) => RemoveFabricIsRun(n, found, observed, a, env);
    case ResetCmd(preserve, erased) => if erased.Some? { ResetIsRun(n, preserve, erased.value, env); }
    case RebuildCmd => RebuildIsRun(n, env);
  }

  /** Every step of the node is a run of map operations, named by its trace. */
  lemma StepIsRun(n: Node, op: NodeOp, env: Env)
    ensures StepNode(n, op, env).store == RunStore(n.store, OpTrace(n, op, env), env.writes)
  {
    match op
    case Client(attached, c) => CommandIsRun(n, c, env);
    case Fabrics(count, a) => NoteFabricsIsRun(NoteWitness(SetFabrics(n, count, a), env), env);
    case Restart(readable, order, withdrawal) =>
      if Visits(order, Load(n.store.disk).endpoints) { StartIsRun(n, readable, order, withdrawal, env); }
  }

  ghost function RunTrace(n: Node, ops: seq<NodeOp>, env: Env): seq<StoreOp>
    decreases |ops|
  {
    if ops == [] then []
    else RunTrace(n, ops[..|ops| - 1], env) + OpTrace(RunNode(n, ops[..|ops| - 1], env), ops[|ops| - 1], env)
  }

  lemma {:induction false} RunIsRun(n: Node, ops: seq<NodeOp>, env: Env)
    ensures RunNode(n, ops, env).store == RunStore(n.store, RunTrace(n, ops, env), env.writes)
    decreases |ops|
  {
    if ops != [] {
      var init := ops[..|ops| - 1];
      var mid := RunNode(n, init, env);
      RunIsRun(n, init, env);
      StepIsRun(mid, ops[|ops| - 1], env);
      RunStoreJoins(n.store, RunTrace(n, init, env), OpTrace(mid, ops[|ops| - 1], env), env.writes);
    }
  }

  /** Over every run of the node, whatever fails: when it reports `driftChecked`, the file on
      disk decodes to the map in memory, and something was compared, seeded or rebuilt since
      the map was last loaded, voided or discarded. */
  lemma NodeCheckedMeansOnDisk(n: Node, ops: seq<NodeOp>, env: Env)
    requires n.store == FreshStore(n.store.disk, n.store.tick)
    ensures var s := RunNode(n, ops, env).store;
            s.Checked() ==> OnDisk(s) && exists i :: EarnedAt(n.store, RunTrace(n, ops, env), env.writes, i)
  {
    RunIsRun(n, ops, env);
    CheckedMeansOnDisk(n.store.disk, n.store.tick, RunTrace(n, ops, env), env.writes);
    CheckedHasACause(n.store, RunTrace(n, ops, env), env.writes);
  }

  /** What a client is told after a check is exactly which trusted numbers moved. */
  lemma DriftIsExact(n: Node, d: DriftEntry, env: Env)
    requires DistinctLive(n.world.live)
    ensures d in CheckDrift(n, env).drift <==>
            exists device :: device in n.world.live &&
              var e := LiveNumberOf(n.world, device);
              Drifts(n.store.endpoints, e)
              && d == DriftEntry(e.uniqueId, n.store.endpoints[e.uniqueId].number, e.number)
  {
    var live := LiveNumbers(n.world);
    LiveNumbersMembers(n.world);
    CheckExactly(n.store, live, env.writes);
    DriftSeqMembers(n.store.endpoints, live, d);
  }

  // --- distinct identities along every run ---------------------------------

  lemma NotingKeepsWorld(n: Node, env: Env)
    ensures NoteFabrics(n, env).world == n.world && NoteWitness(n, env).world == n.world
  {
  }

  /** Everything but an attach, an upsert, a removal and a restart leaves the live set and the
      aggregator as they are. */
  predicate KeepsLive(before: World, after: World) {
    && after.live == before.live && after.children == before.children
    && after.sinks == before.sinks && after.nextHandle == before.nextHandle
  }

  lemma FabricsKeepLive(n: Node, count: nat, a: Allocation, env: Env)
    ensures KeepsLive(n.world, FabricsChanged(SetFabrics(n, count, a), env).world)
    ensures KeepsLive(n.world, NoteFabrics(SetFabrics(n, count, a), env).world)
  {
    var m := SetFabrics(n, count, a);
    NotingKeepsWorld(m, env);
    NotingKeepsWorld(NoteWitness(m, env), env);
  }

  /** A removed fabric is a change of the fabric table, whether or not its observer was heard. */
  lemma RemoveFabricIsNoting(n: Node, found: bool, observed: bool, a: Allocation, env: Env)
    ensures var m := SetFabrics(n, if found && n.fabrics > 0 then n.fabrics - 1 else n.fabrics, a);
            RemoveFabric(n, found, observed, a, env) == if observed then FabricsChanged(m, env) else NoteFabrics(m, env)
  {
    var left := if found && n.fabrics > 0 then SetFabrics(n, n.fabrics - 1, a) else n;
    assert SetFabrics(n, n.fabrics, a) == n;
    ObservedTwice(left, env);
  }

  lemma RemoveFabricKeepsLive(n: Node, found: bool, observed: bool, a: Allocation, env: Env)
    ensures KeepsLive(n.world, RemoveFabric(n, found, observed, a, env).world)
  {
    RemoveFabricIsNoting(n, found, observed, a, env);
    FabricsKeepLive(n, if found && n.fabrics > 0 then n.fabrics - 1 else n.fabrics, a, env);
  }

  lemma ResetKeepsLive(n: Node, preserve: bool, erased: Option<Allocation>, env: Env)
    ensures KeepsLive(n.world, ResetCommand(n, preserve, erased, env).world)
  {
    if erased.Some? {
      var cleared := ClearWitness(Erase(n, erased.value), env);
      var kept := if preserve then cleared else cleared.(store := Discard(cleared.store, env.writes));
      NotingKeepsWorld(kept.(drift := [], refusal := None), env);
    }
  }

  lemma RebuildKeepsWorld(n: Node, env: Env)
    ensures RebuildCommand(n, env).node.world == n.world
  {
  }

  lemma RebuildsOrRefuses(n: Node, env: Env)
    ensures RebuildCommand(n, env).node.store.endpoints ==
            if n.refusal == Some(IdentityUnreadable) then n.store.endpoints else FromLive(LiveNumbers(n.world))
  {
  }

  lemma KeptLiveWithin(before: World, after: World)
    requires KeepsLive(before, after)
    ensures LiveWithin(before) ==> LiveWithin(after)
    ensures RolesKnown(before.live) ==> RolesKnown(after.live)
  {
  }

  // The bookkeeping after a mutation leaves the world the mutation left.
  lemma AttachMovesWorld(n: Node, desired: seq<EndpointSpec>, replaceAll: bool, order: seq<string>, env: Env)
    ensures Attach(n, desired, replaceAll, order, env).node.world
         == ReconcileTo(n.world, desired, replaceAll, order, env.fate).world
  {
  }

  lemma UpsertMovesWorld(n: Node, spec: EndpointSpec, env: Env)
    ensures UpsertCommand(n, spec, env).node.world == Upsert(n.world, spec, env.fate).world
  {
  }

  lemma RemoveMovesWorld(n: Node, device: int, env: Env)
    ensures RemoveCommand(n, device, env).node.world == Remove(n.world, device, env.fate).world
  {
  }

  lemma CommandWithin(n: Node, c: Command, env: Env)
    requires LiveWithin(n.world)
    ensures LiveWithin(Execute(n, c, env).world)
    ensures RolesKnown(n.world.live) ==> RolesKnown(Execute(n, c, env).world.live)
  {
    var v := Execute(n, c, env).world;
    match c
    case AttachCmd(desired, replaceAll, order) =>
      AttachMovesWorld(n, desired, replaceAll, order, env);
      AbortKeepsDistinct(n.world, desired, replaceAll, order, env.fate);
    case UpsertCmd(spec) =>
      UpsertMovesWorld(n, spec, env);
      UpsertWithin(n.world, spec, env.fate);
    case RemoveCmd(device) =>
      RemoveMovesWorld(n, device, env);
      RemoveWithin(n.world, device, env.fate);
    case RemoveFabricCmd(found, observed, a) =>
      RemoveFabricKeepsLive(n, found, observed, a, env);
      KeptLiveWithin(n.world, v);
    case ResetCmd(preserve, erased) =>
      ResetKeepsLive(n, preserve, erased, env);
      KeptLiveWithin(n.world, v);
    case RebuildCmd => RebuildKeepsWorld(n, env);
  }

  lemma StartWithin(n: Node, readable: bool, order: seq<string>, withdrawal: seq<string>, env: Env)
    requires Visits(order, Load(n.store.disk).endpoints)
    ensures var r := Start(NewProcess(n, readable), order, withdrawal, env);
            LiveWithin(r.world) && RolesKnown(r.world.live)
  {
    var f := NewProcess(n, readable);
    var loaded := f.(store := LoadStore(f.store));
    var restored := RestoreEndpoints(loaded, order, env);
    var specs := RestoreSpecs(Restorables(loaded.store.endpoints, order));
    assert LiveWithin(loaded.world);
    RestoreWithin(loaded.world, specs, env.fate);
    RestoreSpecsMembers(loaded.store.endpoints, order);
    RestoreKnown(loaded.world, specs, env.fate);
    AssertingKeeps(restored.(fabricCount := restored.fabrics), env);
    AbortKeepsDistinct(restored.world, [], true, withdrawal, env.fate);
  }

  lemma StepWithin(n: Node, op: NodeOp, env: Env)
    requires LiveWithin(n.world)
    ensures LiveWithin(StepNode(n, op, env).world)
    ensures RolesKnown(n.world.live) ==> RolesKnown(StepNode(n, op, env).world.live)
  {
    match op
    case Client(attached, c) => CommandWithin(n, c, env);
    case Fabrics(count, a) =>
      FabricsKeepLive(n, count, a, env);
      KeptLiveWithin(n.world, StepNode(n, op, env).world);
    case Restart(readable, order, withdrawal) =>
      if Visits(order, Load(n.store.disk).endpoints) { StartWithin(n, readable, order, withdrawal, env); }
  }

  /** Over every run, whatever fails and whatever earlier failures left behind: live identities
      are distinct and each is one of the aggregator's. */
  lemma {:induction false} RunWithin(n: Node, ops: seq<NodeOp>, env: Env)
    requires LiveWithin(n.world)
    ensures LiveWithin(RunNode(n, ops, env).world)
    ensures RolesKnown(n.world.live) ==> RolesKnown(RunNode(n, ops, env).world.live)
    decreases |ops|
  {
    if ops != [] {
      RunWithin(n, ops[..|ops| - 1], env);
      StepWithin(RunNode(n, ops[..|ops| - 1], env), ops[|ops| - 1], env);
    }
  }

  /** Every check among these operations is of distinct identities. */
  predicate ChecksDistinct(ops: seq<StoreOp>) { forall op :: op in ops && op.CheckOp? ==> DistinctEntries(op.live) }

  lemma {:induction false} ForgettingChecksNothing(ds: seq<Departure>)
    ensures forall op :: op in ForgetTrace(ds) ==> op.ForgetOp?
  {
    if ds != [] { ForgettingChecksNothing(ds[1..]); }
  }

  lemma MutationChecksDistinct(n: Node, w: World, hard: bool, env: Env)
    requires LiveWithin(w)
    ensures ChecksDistinct(MutationTrace(n, w, hard, env))
  {
    ForgettingChecksNothing(Departures(LiveDriven(n.world.live), w.live, Ids(w.live), hard));
    LiveNumbersMembers(w);
  }

  lemma CommandChecksDistinct(n: Node, c: Command, env: Env)
    requires LiveWithin(n.world)
    ensures ChecksDistinct(CommandTrace(n, c, env))
  {
    match c
    case AttachCmd(desired, replaceAll, order) =>
      AbortKeepsDistinct(n.world, desired, replaceAll, order, env.fate);
      MutationChecksDistinct(n, ReconcileTo(n.world, desired, replaceAll, order, env.fate).world, false, env);
    case UpsertCmd(spec) =>
      UpsertWithin(n.world, spec, env.fate);
      LiveNumbersMembers(Upsert(n.world, spec, env.fate).world);
    case RemoveCmd(device) =>
      RemoveWithin(n.world, device, env.fate);
      MutationChecksDistinct(n, Remove(n.world, device, env.fate).world, true, env);
    case RemoveFabricCmd(found, observed, a) =>
    case ResetCmd(preserve, erased) =>
    case RebuildCmd =>
  }

  lemma OpChecksDistinct(n: Node, op: NodeOp, env: Env)
    requires LiveWithin(n.world)
    ensures ChecksDistinct(OpTrace(n, op, env))
  {
    if op.Client? { CommandChecksDistinct(n, op.command, env); }
  }

  lemma {:induction false} RunChecksDistinct(n: Node, ops: seq<NodeOp>, env: Env)
    requires LiveWithin(n.world)
    ensures ChecksDistinct(RunTrace(n, ops, env))
    decreases |ops|
  {
    if ops != [] {
      var init := ops[..|ops| - 1];
      RunChecksDistinct(n, init, env);
      RunWithin(n, init, env);
      OpChecksDistinct(RunNode(n, init, env), ops[|ops| - 1], env);
    }
  }

  // --- what sticks along every run -----------------------------------------

  /** Operations that cannot move a trusted number: all but destroy of it, void, seed, rebuild
      and discard. */
  predicate SparesBaseline(op: StoreOp, id: string) { op.CheckOp? || LeavesBaseline(op, id) }

  /** Once a trusted number has moved, every later check that sees the identity live says so,
      across any run, restarts included and whatever fails but writes, whose map operations
      destroy, void, seed, rebuild or discard nothing of it. */
  lemma NodeDriftSticks(n: Node, ops: seq<NodeOp>, env: Env, id: string, number: nat, device: int)
    requires Mirrors(n.store) && !n.store.dirty && WritesHold(env.writes) && Baseline(n.store, id, number)
    requires LiveWithin(n.world) && forall op :: op in RunTrace(n, ops, env) ==> SparesBaseline(op, id)
    requires device in RunNode(n, ops, env).world.live && RunNode(n, ops, env).world.live[device].publishedAs == id
    requires NumberIn(RunNode(n, ops, env).world, id) != number
    ensures var r := RunNode(n, ops, env);
            DriftEntry(id, number, NumberIn(r.world, id)) in CheckDrift(r, env).drift
  {
    var r := RunNode(n, ops, env);
    RunIsRun(n, ops, env);
    RunWithin(n, ops, env);
    RunChecksDistinct(n, ops, env);
    LiveNumbersMembers(r.world);
    DriftSticks(n.store, RunTrace(n, ops, env), env.writes, id, number, LiveNumbers(r.world),
                LiveNumberOf(r.world, device));
  }

  /** Operations that do not bring a retired identity back: it is not live at a check, a seed or
      a rebuild. */
  predicate SparesRetired(op: StoreOp, id: string) {
    if op.CheckOp? then forall e :: e in op.live ==> e.uniqueId != id else LeavesRetired(op, id)
  }

  /** A retired identity is not restorable anywhere along a run, restarts included, in which it
      is not live at a check and no rebuild replaces its record. */
  lemma NodeRetiredStaysRetired(n: Node, ops: seq<NodeOp>, env: Env, id: string, successor: string)
    requires Mirrors(n.store) && !n.store.dirty && WritesHold(env.writes) && successor != ""
    requires LiveWithin(n.world)
    requires Retired(n.store, id, successor) && forall op :: op in RunTrace(n, ops, env) ==> SparesRetired(op, id)
    ensures var m := RunNode(n, ops, env).store.endpoints; id in m ==> !Restorable(id, m[id])
    ensures Retired(RunNode(n, ops, env).store, id, successor)
  {
    RunIsRun(n, ops, env);
    RunChecksDistinct(n, ops, env);
    RetiredStaysRetired(n.store, RunTrace(n, ops, env), env.writes, id, successor);
  }
}
