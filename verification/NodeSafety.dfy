/** What holds of the node whatever fails: its witness, its events, and the refusal. */
module NodeSafety {
  import opened Protocol
  import opened Reconcile
  import opened Registry
  import opened RegistryProofs
  import opened RegistryCommands
  import opened EndpointMap
  import opened EndpointMapProofs
  import opened Node
  import opened NodeEffects
  import opened NodeRestart
  import opened NodeRuns

  // --- the commissioning witness -------------------------------------------

  /** The node has seen the fabric table as it is; it never keeps a witness of nothing while
      serving, and never lacks one for something unless its identity is a stand-in. */
  predicate WitnessHolds(n: Node) {
    && n.fabricCount == n.fabrics
    && (n.refusal.None? ==> (n.marker ==> n.fabrics > 0))
    && (n.refusal != Some(IdentityUnreadable) ==> (n.fabrics > 0 ==> n.marker))
  }

  /** A start over fabrics whose witness never reached the disk and whose map is broken. */
  predicate UnwitnessedStart(n: Node, readable: bool) {
    readable && n.fabrics > 0 && !n.markerOnDisk && Load(n.store.disk).problem
  }

  /** `assertEndpointIdentity` leaves the witness right, with that one exception. */
  lemma AssertingWitness(n: Node, env: Env)
    requires n.fabricCount == n.fabrics && (n.refusal.None? || n.refusal == Some(IdentityUnreadable))
    ensures WitnessHolds(AssertIdentity(n, env))
            <==> !(n.refusal.None? && n.fabrics > 0 && n.store.problem && !n.marker)
  {
  }

  lemma StartWitness(n: Node, readable: bool, order: seq<string>, withdrawal: seq<string>, env: Env)
    requires Visits(order, Load(n.store.disk).endpoints)
    ensures WitnessHolds(Start(NewProcess(n, readable), order, withdrawal, env)) <==> !UnwitnessedStart(n, readable)
  {
    var f := NewProcess(n, readable);
    var restored := RestoreEndpoints(f.(store := LoadStore(f.store)), order, env);
    AssertingWitness(restored.(fabricCount := restored.fabrics), env);
  }

  /** What a start does, from storage alone: it refuses for an unreadable identity first; over
      fabrics, exactly when there is a file that is no endpoint map; without fabrics, exactly
      when the witness says there were some. It carries nothing over from the process before, and
      exports nothing from a file it cannot use or under an identity it cannot read. */
  lemma StartDecides(n: Node, readable: bool, order: seq<string>, withdrawal: seq<string>, env: Env)
    requires Visits(order, Load(n.store.disk).endpoints)
    ensures var r := Start(NewProcess(n, readable), order, withdrawal, env);
            && r.refusal == (if !readable then Some(IdentityUnreadable)
                             else if n.fabrics > 0 then
                               (if n.store.disk != Absent && !Usable(n.store.disk) then Some(MapUnreadable) else None)
                             else if n.markerOnDisk then Some(FabricStorageLost) else None)
            && r.drift == [] && r.lastRemoved == map[] && r.events == []
            && r.store.endpoints == Load(n.store.disk).endpoints
            && (!readable || !Usable(n.store.disk) ==> r.world.live == map[] && r.world.children == map[])
  {
    var f := NewProcess(n, readable);
    LoadTells(n.store.disk);
    NothingVisited(order, Load(n.store.disk).endpoints);
    var restored := RestoreEndpoints(f.(store := LoadStore(f.store)), order, env);
    AssertingKeeps(restored.(fabricCount := restored.fabrics), env);
  }

  /** The one write of a start: the empty map of a paired node that never had a file. */
  lemma StartWrites(n: Node, readable: bool, order: seq<string>, withdrawal: seq<string>, env: Env)
    requires Visits(order, Load(n.store.disk).endpoints)
    ensures Start(NewProcess(n, readable), order, withdrawal, env).store.disk ==
            if readable && n.fabrics > 0 && n.store.disk == Absent && env.writes(n.store.tick)
            then Written(map[]) else n.store.disk
  {
    LoadTells(n.store.disk);
    StartedStore(n, readable, order, withdrawal, env);
  }

  lemma FabricWitness(n: Node, count: nat, a: Allocation, env: Env)
    requires WitnessHolds(n)
    ensures WitnessHolds(FabricsChanged(SetFabrics(n, count, a), env))
    ensures count <= n.fabrics ==> WitnessHolds(NoteFabrics(SetFabrics(n, count, a), env))
  {
  }

  lemma RemoveFabricWitness(n: Node, found: bool, observed: bool, a: Allocation, env: Env)
    requires WitnessHolds(n)
    ensures WitnessHolds(RemoveFabric(n, found, observed, a, env))
  {
    var count := if found && n.fabrics > 0 then n.fabrics - 1 else n.fabrics;
    var left := if found && n.fabrics > 0 then SetFabrics(n, n.fabrics - 1, a) else n;
    assert SetFabrics(n, n.fabrics, a) == n;
    assert left == SetFabrics(n, count, a);
    FabricWitness(n, count, a, env);
    ObservedTwice(left, env);
  }

  /** Nothing the bookkeeping after a command writes bears on the witness. */
  lemma BookkeepingLeavesWitness(n: Node, w: World, before: seq<Driven>, hard: bool, env: Env)
    requires WitnessHolds(n)
    ensures WitnessHolds(CheckDrift(n.(world := w), env))
    ensures WitnessHolds(CheckDrift(ForgetRemoved(n.(world := w), before, hard, env), env))
  {
  }

  lemma ResetWitness(n: Node, preserve: bool, erased: Option<Allocation>, env: Env)
    requires WitnessHolds(n)
    ensures WitnessHolds(ResetCommand(n, preserve, erased, env))
  {
  }

  lemma RebuildWitness(n: Node, env: Env)
    requires WitnessHolds(n)
    ensures WitnessHolds(RebuildCommand(n, env).node)
  {
  }

  // --- the witness on disk -------------------------------------------------

  /** The witness in the file follows the one in memory when it changes and the write reaches the
      disk, and stays what it was otherwise. */
  predicate FollowsOnDisk(before: Node, after: Node, env: Env) {
    after.markerOnDisk ==
    if after.marker != before.marker && env.identityWrites(before.identityTick) then after.marker
    else before.markerOnDisk
  }

  lemma FabricsFollow(n: Node, count: nat, a: Allocation, env: Env)
    ensures FollowsOnDisk(n, FabricsChanged(SetFabrics(n, count, a), env), env)
    ensures FollowsOnDisk(n, NoteFabrics(SetFabrics(n, count, a), env), env)
  {
  }

  lemma ResetFollows(n: Node, preserve: bool, erased: Option<Allocation>, env: Env)
    ensures FollowsOnDisk(n, ResetCommand(n, preserve, erased, env), env)
  {
  }

  lemma RebuildFollows(n: Node, env: Env)
    ensures FollowsOnDisk(n, RebuildCommand(n, env).node, env)
  {
  }

  /** Nothing the bookkeeping after a command writes is the witness. */
  lemma BookkeepingFollows(n: Node, w: World, before: seq<Driven>, hard: bool, env: Env)
    ensures FollowsOnDisk(n, CheckDrift(ForgetRemoved(n.(world := w), before, hard, env), env), env)
  {
  }

  lemma UpsertFollows(n: Node, spec: EndpointSpec, env: Env)
    ensures FollowsOnDisk(n, UpsertCommand(n, spec, env).node, env)
  {
  }

  lemma RemoveFabricFollows(n: Node, found: bool, observed: bool, a: Allocation, env: Env)
    ensures FollowsOnDisk(n, RemoveFabric(n, found, observed, a, env), env)
  {
    RemoveFabricIsNoting(n, found, observed, a, env);
    FabricsFollow(n, if found && n.fabrics > 0 then n.fabrics - 1 else n.fabrics, a, env);
  }

  lemma CommandFollows(n: Node, c: Command, env: Env)
    ensures FollowsOnDisk(n, Execute(n, c, env), env)
  {
    match c
    case AttachCmd(desired, replaceAll, order) =>
      BookkeepingFollows(n, ReconcileTo(n.world, desired, replaceAll, order, env.fate).world,
                         LiveDriven(n.world.live), false, env);
    case UpsertCmd(spec) => UpsertFollows(n, spec, env);
    case RemoveCmd(device) =>
      BookkeepingFollows(n, Remove(n.world, device, env.fate).world, LiveDriven(n.world.live), true, env);
    case RemoveFabricCmd(found, observed, a) => RemoveFabricFollows(n, found, observed, a, env);
    case ResetCmd(preserve, erased) => ResetFollows(n, preserve, erased, env);
    case RebuildCmd => RebuildFollows(n, env);
  }

  /** Over any frame and any fabric change, whatever fails. */
  lemma WitnessFollows(n: Node, op: NodeOp, env: Env)
    requires !op.Restart?
    ensures FollowsOnDisk(n, StepNode(n, op, env), env)
  {
    match op
    case Client(attached, c) => CommandFollows(n, c, env);
    case Fabrics(count, a) => FabricsFollow(n, count, a, env);
  }

  /** And over a start, which reads the witness from the file, or has none if it cannot. */
  lemma StartFollows(n: Node, readable: bool, order: seq<string>, withdrawal: seq<string>, env: Env)
    requires Visits(order, Load(n.store.disk).endpoints)
    ensures FollowsOnDisk(NewProcess(n, readable), Start(NewProcess(n, readable), order, withdrawal, env), env)
    ensures NewProcess(n, readable).marker == (readable && n.markerOnDisk)
  {
    var f := NewProcess(n, readable);
    var restored := RestoreEndpoints(f.(store := LoadStore(f.store)), order, env);
    assert restored.marker == f.marker && restored.markerOnDisk == f.markerOnDisk;
  }

  /** When the last fabric leaves a node that has its witness, the witness goes, the numbers of every
      record are void and nothing is reported drifted any more; without a witness the event is all. */
  lemma LastFabricLeaves(n: Node, a: Allocation, env: Env)
    requires n.fabricCount == n.fabrics > 0
    ensures var r := FabricsChanged(SetFabrics(n, 0, a), env);
            && r.fabricCount == r.fabrics == 0 && !r.marker && r.events == n.events + [Decommissioned]
            && r.world == n.world.(numbers := a.numbers, nextNumber := a.next) && r.refusal == n.refusal
            && (n.marker ==> r.drift == [] && r.store.endpoints == VoidAll(n.store.endpoints))
            && (!n.marker ==> r.drift == n.drift && r.store == n.store)
  {
    if n.store.endpoints == map[] { assert VoidAll(n.store.endpoints) == map[]; }
  }

  // --- what a reset and a rebuild leave ------------------------------------

  /** Any reset whose erase worked: no fabric, no witness, no refusal, no drift reported, the live
      set as it was under matter.js's fresh numbers. */
  lemma ResetLeaves(n: Node, preserve: bool, a: Allocation, env: Env)
    ensures var r := FactoryReset(n, preserve, a, env);
            && r.fabrics == r.fabricCount == 0 && !r.marker && r.refusal.None? && r.drift == []
            && r.world == n.world.(numbers := a.numbers, nextNumber := a.next)
  {
  }

  /** One that does not preserve: memory holds nothing; if the delete works there is no file and
      the next start restores nothing, and if it fails the old file is still there. */
  lemma DiscardingReset(n: Node, a: Allocation, order: seq<string>, withdrawal: seq<string>, env: Env)
    requires Visits(order, Load(FactoryReset(n, false, a, env).store.disk).endpoints)
    ensures var r := FactoryReset(n, false, a, env);
            && r.store.endpoints == map[] && !r.store.compared && !r.store.dirty
            && r.store.disk == (if env.writes(n.store.tick) then Absent else n.store.disk)
            && (env.writes(n.store.tick) ==> Start(NewProcess(r, true), order, withdrawal, env).world.live == map[])
  {
    var r := FactoryReset(n, false, a, env);
    if env.writes(n.store.tick) {
      assert Load(r.store.disk).endpoints == map[];
      NothingVisited(order, Load(r.store.disk).endpoints);
      NothingRestored(NewProcess(r, true), order, withdrawal, env);
    }
  }

  lemma NothingVisited(order: seq<string>, m: map<string, Record>)
    requires Visits(order, m)
    ensures order != [] ==> exists id :: id in m
  {
    if order != [] { assert order[0] in m; }
  }

  lemma NothingRestored(f: Node, order: seq<string>, withdrawal: seq<string>, env: Env)
    requires f.world.live == map[] && order == []
    ensures Start(f, order, withdrawal, env).world.live == map[]
  {
    var restored := RestoreEndpoints(f.(store := LoadStore(f.store)), order, env);
    AssertingKeeps(restored.(fabricCount := restored.fabrics), env);
  }

  lemma VoidingExactly(s: Store, writes: Writes)
    ensures var v := VoidNumbers(s, writes);
            && v.endpoints.Keys == s.endpoints.Keys
            && (forall id :: id in s.endpoints ==> v.endpoints[id] == s.endpoints[id].(numberVoid := true))
            && (s.endpoints != map[] ==>
                  && !v.compared && (v.dirty <==> !writes(s.tick))
                  && v.disk == (if writes(s.tick) then Written(v.endpoints) else s.disk))
            && (s.endpoints == map[] ==> v == s)
  {
    assert VoidAll(s.endpoints).Keys == s.endpoints.Keys;
  }

  lemma PreservingIsVoiding(n: Node, a: Allocation, env: Env)
    ensures FactoryReset(n, true, a, env).store == VoidNumbers(n.store, env.writes)
  {
  }

  /** One that preserves: every record is kept as it was but for its number, which is void; a map
      that is not empty is written, or owed. */
  lemma PreservingReset(n: Node, a: Allocation, env: Env)
    ensures var before, r := n.store, FactoryReset(n, true, a, env).store;
            && r.endpoints.Keys == before.endpoints.Keys
            && (forall id :: id in before.endpoints ==> r.endpoints[id] == before.endpoints[id].(numberVoid := true))
            && (before.endpoints != map[] ==>
                  && !r.compared && (r.dirty <==> !env.writes(before.tick))
                  && r.disk == (if env.writes(before.tick) then Written(r.endpoints) else before.disk))
            && (before.endpoints == map[] ==> r == before)
  {
    PreservingIsVoiding(n, a, env);
    VoidingExactly(n.store, env.writes);
  }

  /** What a rebuild records: exactly what is live, under matter.js's numbers. */
  lemma RebuildRecords(n: Node, env: Env)
    requires DistinctLive(n.world.live) && n.refusal != Some(IdentityUnreadable)
    ensures var m := RebuildCommand(n, env).node.store.endpoints;
            && m.Keys == Ids(n.world.live)
            && forall d :: d in n.world.live ==>
                 n.world.live[d].publishedAs in m
                 && m[n.world.live[d].publishedAs] == RecordFor(LiveNumberOf(n.world, d))
  {
    RebuildsOrRefuses(n, env);
    RebuiltEntries(n.world);
  }

  lemma NothingLive(w: World)
    ensures LiveNumbers(w) == [] <==> w.live == map[]
  {
    LiveNumbersListed(w);
    if w.live != map[] {
      SomeNumber(w.live.Keys);
      var d :| d in w.live;
      assert LiveNumberOf(w, d) in LiveNumbers(w);
    }
  }

  /** A rebuild is refused over an unreadable identity alone, and done exactly if its write reached
      the disk. Done, it serves, reports no drift and is on disk; aborted, it goes on reporting and
      refusing what it did, over the file there was. */
  lemma RebuildExactly(n: Node, env: Env)
    ensures var r := RebuildCommand(n, env);
            && r.verdict == (if n.refusal == Some(IdentityUnreadable) then Refused
                             else if env.writes(n.store.tick) then Done else Aborted)
            && (r.verdict == Refused ==> r.node == n)
            && (r.verdict == Aborted ==> r.node == n.(store := r.node.store)
                                         && r.node.store.disk == n.store.disk && r.node.store.dirty)
            && (r.verdict == Done ==>
                  && r.node.refusal.None? && r.node.drift == []
                  && r.node.store.disk == Written(r.node.store.endpoints) && !r.node.store.dirty
                  && r.node.marker == (n.marker && n.fabrics > 0)
                  && (r.node.store.compared <==> n.world.live != map[]))
  {
    NothingLive(n.world);
  }

  /** A client is told of drift exactly when a live identity is trusted under another number. */
  lemma DriftIsTold(n: Node, env: Env)
    requires DistinctLive(n.world.live)
    ensures var drifts := exists d :: d in n.world.live && Drifts(n.store.endpoints, LiveNumberOf(n.world, d));
            && CheckDrift(n, env).events == (if drifts then n.events + [DriftDetected] else n.events)
            && (CheckDrift(n, env).drift != [] <==> drifts)
  {
    var drift := CheckDrift(n, env).drift;
    if drift != [] {
      assert drift[0] in drift;
      DriftIsExact(n, drift[0], env);
    }
    if d :| d in n.world.live && Drifts(n.store.endpoints, LiveNumberOf(n.world, d)) {
      var e := LiveNumberOf(n.world, d);
      DriftIsExact(n, DriftEntry(e.uniqueId, n.store.endpoints[e.uniqueId].number, e.number), env);
    }
  }

  lemma CommandWitness(n: Node, c: Command, env: Env)
    requires WitnessHolds(n)
    ensures WitnessHolds(Execute(n, c, env))
  {
    match c
    case AttachCmd(desired, replaceAll, order) =>
      BookkeepingLeavesWitness(n, ReconcileTo(n.world, desired, replaceAll, order, env.fate).world,
                               LiveDriven(n.world.live), false, env);
    case UpsertCmd(spec) => BookkeepingLeavesWitness(n, Upsert(n.world, spec, env.fate).world, [], false, env);
    case RemoveCmd(device) =>
      BookkeepingLeavesWitness(n, Remove(n.world, device, env.fate).world, LiveDriven(n.world.live), true, env);
    case RemoveFabricCmd(found, observed, a) => RemoveFabricWitness(n, found, observed, a, env);
    case ResetCmd(preserve, erased) => ResetWitness(n, preserve, erased, env);
    case RebuildCmd => RebuildWitness(n, env);
  }

  lemma StepWitness(n: Node, op: NodeOp, env: Env)
    requires WitnessHolds(n) && (op.Restart? ==> !UnwitnessedStart(n, op.readable))
    ensures WitnessHolds(StepNode(n, op, env))
  {
    match op
    case Client(attached, c) => CommandWitness(n, c, env);
    case Fabrics(count, a) => FabricWitness(n, count, a, env);
    case Restart(readable, order, withdrawal) =>
      if Visits(order, Load(n.store.disk).endpoints) { StartWitness(n, readable, order, withdrawal, env); }
  }

  /** No restart of the run is an unwitnessed one. */
  ghost predicate WitnessedStarts(n: Node, ops: seq<NodeOp>, env: Env) {
    forall i :: 0 <= i < |ops| && ops[i].Restart? ==> !UnwitnessedStart(RunNode(n, ops[..i], env), ops[i].readable)
  }

  lemma PrefixStarts(n: Node, ops: seq<NodeOp>, env: Env)
    requires ops != [] && WitnessedStarts(n, ops, env)
    ensures WitnessedStarts(n, ops[..|ops| - 1], env)
  {
    var init := ops[..|ops| - 1];
    forall i | 0 <= i < |init| && init[i].Restart?
      ensures !UnwitnessedStart(RunNode(n, init[..i], env), init[i].readable)
    {
      assert init[..i] == ops[..i] && init[i] == ops[i];
    }
  }

  /** Over every run, whatever writes fail: while the node serves, its witness is set exactly
      when there is a fabric. */
  lemma {:induction false} WitnessWhileServing(n: Node, ops: seq<NodeOp>, env: Env)
    requires WitnessHolds(n) && WitnessedStarts(n, ops, env)
    ensures WitnessHolds(RunNode(n, ops, env))
    ensures RunNode(n, ops, env).refusal.None? ==> (RunNode(n, ops, env).marker <==> RunNode(n, ops, env).fabrics > 0)
    decreases |ops|
  {
    if ops != [] {
      var init, last := ops[..|ops| - 1], ops[|ops| - 1];
      PrefixStarts(n, ops, env);
      WitnessWhileServing(n, init, env);
      assert ops[|ops| - 1] == last;
      StepWitness(RunNode(n, init, env), last, env);
    }
  }

  /** The exception is real: after an unwitnessed start a confirmed rebuild serves paired
      controllers with no witness at all. */
  lemma UnwitnessedRebuildServes(n: Node, order: seq<string>, withdrawal: seq<string>, env: Env)
    requires UnwitnessedStart(n, true) && Visits(order, Load(n.store.disk).endpoints) && (forall k :: env.writes(k))
    ensures var r := RebuildCommand(Start(NewProcess(n, true), order, withdrawal, env), env);
            r.verdict == Done && r.node.refusal.None? && r.node.fabrics > 0 && !r.node.marker
  {
  }

  // --- the events ----------------------------------------------------------

  /** The commissioning state after these events, or `None` if one arrived out of turn. */
  function Replay(on: bool, events: seq<Event>): Option<bool> {
    if events == [] then Some(on)
    else
      match Replay(on, events[..|events| - 1])
      case None => None
      case Some(now) =>
        match events[|events| - 1]
        case Commissioned => if now then None else Some(true)
        case Decommissioned => if now then Some(false) else None
        case DriftDetected => Some(now)
  }

  /** What the events say is what the node last saw. */
  predicate Told(n: Node, first: bool) { Replay(first, n.events) == Some(n.fabricCount > 0) }

  lemma OneMore(on: bool, events: seq<Event>, e: Event)
    ensures Replay(on, events + [e]) ==
            match Replay(on, events)
            case None => None
            case Some(now) =>
              match e
              case Commissioned => if now then None else Some(true)
              case Decommissioned => if now then Some(false) else None
              case DriftDetected => Some(now)
  {
    assert (events + [e])[..|events|] == events;
  }

  lemma NoteFabricsTells(n: Node, first: bool, env: Env)
    requires Told(n, first)
    ensures Told(NoteFabrics(n, env), first)
  {
    OneMore(first, n.events, Commissioned);
    OneMore(first, n.events, Decommissioned);
  }

  lemma CheckTells(n: Node, first: bool, env: Env)
    requires Told(n, first)
    ensures Told(CheckDrift(n, env), first)
  {
    OneMore(first, n.events, DriftDetected);
  }

  lemma UpsertTells(n: Node, spec: EndpointSpec, first: bool, env: Env)
    requires Told(n, first)
    ensures Told(UpsertCommand(n, spec, env).node, first)
  {
    CheckTells(n.(world := Upsert(n.world, spec, env.fate).world), first, env);
  }

  lemma RemoveFabricTells(n: Node, found: bool, observed: bool, a: Allocation, first: bool, env: Env)
    requires Told(n, first)
    ensures Told(RemoveFabric(n, found, observed, a, env), first)
  {
    var left := if found && n.fabrics > 0 then SetFabrics(n, n.fabrics - 1, a) else n;
    NoteFabricsTells(left, first, env);
    NoteFabricsTells(NoteWitness(left, env), first, env);
    ObservedTwice(left, env);
  }

  lemma ResetTells(n: Node, preserve: bool, a: Allocation, first: bool, env: Env)
    requires Told(n, first)
    ensures Told(FactoryReset(n, preserve, a, env), first)
  {
    var cleared := ClearWitness(Erase(n, a), env);
    var kept := if preserve then cleared else cleared.(store := Discard(cleared.store, env.writes));
    NoteFabricsTells(kept.(drift := [], refusal := None), first, env);
  }

  lemma CommandTells(n: Node, c: Command, first: bool, env: Env)
    requires Told(n, first)
    ensures Told(Execute(n, c, env), first)
  {
    match c
    case AttachCmd(desired, replaceAll, order) =>
      var o := ReconcileTo(n.world, desired, replaceAll, order, env.fate);
      CheckTells(ForgetRemoved(n.(world := o.world), LiveDriven(n.world.live), false, env), first, env);
    case UpsertCmd(spec) => UpsertTells(n, spec, first, env);
    case RemoveCmd(device) =>
      var o := Remove(n.world, device, env.fate);
      CheckTells(ForgetRemoved(n.(world := o.world), LiveDriven(n.world.live), true, env), first, env);
    case RemoveFabricCmd(found, observed, a) => RemoveFabricTells(n, found, observed, a, first, env);
    case ResetCmd(preserve, erased) => if erased.Some? { ResetTells(n, preserve, erased.value, first, env); }
    case RebuildCmd =>
  }

  /** `commissioned` and `decommissioned` strictly alternate over every run of one process,
      whatever fails, and the last of them says whether a fabric was last seen. */
  lemma {:induction false} EventsAlternate(n: Node, ops: seq<NodeOp>, first: bool, env: Env)
    requires Told(n, first) && forall op :: op in ops ==> !op.Restart?
    ensures Told(RunNode(n, ops, env), first)
    decreases |ops|
  {
    if ops != [] {
      var init, last := ops[..|ops| - 1], ops[|ops| - 1];
      assert last in ops && forall op :: op in init ==> op in ops;
      EventsAlternate(n, init, first, env);
      var mid := RunNode(n, init, env);
      match last {
        case Client(attached, c) => CommandTells(mid, c, first, env);
        case Fabrics(count, a) => NoteFabricsTells(NoteWitness(SetFabrics(mid, count, a), env), first, env);
        case Restart(_, _, _) =>
      }
    }
  }

  function Opposite(e: Event): Event { if e == Commissioned then Decommissioned else Commissioned }

  /** What alternating means: between two events of one kind there is one of the other. */
  lemma {:induction false} ReplayAlternates(on: bool, events: seq<Event>, i: nat, j: nat)
    requires Replay(on, events).Some? && i < j < |events|
    requires events[i] == events[j] && events[i] != DriftDetected
    ensures exists k :: i < k < j && events[k] == Opposite(events[i])
    decreases |events|
  {
    if j < |events| - 1 {
      ReplayAlternates(on, events[..|events| - 1], i, j);
      var k :| i < k < j && events[..|events| - 1][k] == Opposite(events[i]);
      assert events[k] == Opposite(events[i]);
    } else {
      assert events[..j] == events[..|events| - 1];
      StateHolds(on, events[..j], i);
      if k :| i < k < j && events[..j][k] == Opposite(events[i]) {
        assert events[k] == Opposite(events[i]);
      }
    }
  }

  /** With nothing of the other kind since, the state is still the one event `i` set. */
  lemma {:induction false} StateHolds(on: bool, events: seq<Event>, i: nat)
    requires Replay(on, events).Some? && i < |events| && events[i] != DriftDetected
    ensures Replay(on, events) == Some(events[i] == Commissioned)
         || exists k :: i < k < |events| && events[k] == Opposite(events[i])
    decreases |events|
  {
    if i < |events| - 1 {
      var init := events[..|events| - 1];
      StateHolds(on, init, i);
      if k :| i < k < |init| && init[k] == Opposite(events[i]) {
        assert events[k] == Opposite(events[i]);
      } else if events[|events| - 1] == Opposite(events[i]) {
        assert i < |init| < |events| && events[|init|] == Opposite(events[i]);
      }
    }
  }

  // --- refusing ------------------------------------------------------------

  /** A refusing node that exports nothing. */
  predicate RefusesEmpty(n: Node) { n.refusal.Some? && n.world.live == map[] }

  lemma RestoredWithin(n: Node, order: seq<string>, env: Env)
    requires n.world.live == map[] && forall id :: id in order ==> id in n.store.endpoints
    ensures DistinctLive(RestoreEndpoints(n, order, env).world.live)
  {
    assert LiveWithin(n.world);
    RestoreWithin(n.world, RestoreSpecs(Restorables(n.store.endpoints, order)), env.fate);
  }

  lemma WithdrawnIsEmpty(n: Node, order: seq<string>, env: Env)
    requires DistinctLive(n.world.live) && (forall k :: env.fate.closes(k))
             && Enumerates(order, LiveComposition(n.world.live))
    ensures Withdraw(n, order, env).refusal == n.refusal
    ensures n.refusal.Some? ==> RefusesEmpty(Withdraw(n, order, env))
  {
    WithdrawalEmpties(n.world, order, env.fate);
  }

  /** Whatever was restored, and however badly, a start that ends up refusing has withdrawn
      every endpoint, given that closes succeed. */
  lemma StartRefusesEmpty(n: Node, readable: bool, order: seq<string>, withdrawal: seq<string>, env: Env)
    requires Visits(order, Load(n.store.disk).endpoints) && (forall k :: env.fate.closes(k))
    requires var f := NewProcess(n, readable);
             Enumerates(withdrawal,
                        LiveComposition(RestoreEndpoints(f.(store := LoadStore(f.store)), order, env).world.live))
    ensures var r := Start(NewProcess(n, readable), order, withdrawal, env);
            r.refusal.Some? ==> RefusesEmpty(r)
  {
    var f := NewProcess(n, readable);
    var loaded := f.(store := LoadStore(f.store));
    var restored := RestoreEndpoints(loaded, order, env);
    var seen := restored.(fabricCount := restored.fabrics);
    RestoredWithin(loaded, order, env);
    AssertingKeeps(seen, env);
    WithdrawnIsEmpty(AssertIdentity(seen, env), withdrawal, env);
  }

  /** A rebuild confirmed at this point succeeds. */
  ghost predicate RebuildSucceeds(n: Node, op: NodeOp, env: Env) {
    op.Client? && op.command == RebuildCmd && RebuildCommand(n, env).verdict == Done
  }

  /** Of everything that changes state, a refusing node accepts only the rebuild. */
  lemma OnlyRebuildPasses(n: Node, attached: bool, c: Command)
    requires n.refusal.Some?
    ensures GateFor(n.refusal, attached, NameOf(c)) == Accepted <==> c == RebuildCmd
  {
    assert "rebuild_endpoint_map" in RECOVERY_COMMANDS;
    assert "get_status"[0] == 'g' && "get_pairing"[0] == 'g' && "rebuild_endpoint_map"[2] == 'b';
    if c != RebuildCmd {
      assert NameOf(c)[0] != 'g' && NameOf(c)[2] != 'b';
    }
  }

  /** While refusing, three commands pass and no other, from any client; while serving, a client
      that has not attached may attach and do nothing else. */
  lemma GateExactly(refusal: Option<Reason>, attached: bool, command: string)
    ensures refusal.Some? ==>
              GateFor(refusal, attached, command) ==
              if command == "get_status" || command == "get_pairing" || command == "rebuild_endpoint_map"
              then Accepted else EndpointMapInvalid
    ensures refusal.None? ==>
              GateFor(refusal, attached, command) == if command == "attach" || attached then Accepted else NotAttached
  {
  }

  /** Over every run of frames from clients that never attach, a serving node stays as it was. */
  lemma {:induction false} StrangersChangeNothing(n: Node, ops: seq<NodeOp>, env: Env)
    requires n.refusal.None?
    requires forall op :: op in ops ==> op.Client? && !op.attached && !op.command.AttachCmd?
    ensures RunNode(n, ops, env) == n
    decreases |ops|
  {
    if ops != [] {
      var init, last := ops[..|ops| - 1], ops[|ops| - 1];
      assert last in ops && forall op :: op in init ==> op in ops;
      StrangersChangeNothing(n, init, env);
      OnlyAttachIsCalledAttach(last.command);
      GateExactly(n.refusal, false, NameOf(last.command));
    }
  }

  lemma OnlyAttachIsCalledAttach(c: Command)
    ensures NameOf(c) == "attach" <==> c.AttachCmd?
  {
    assert "attach"[0] == 'a';
    if !c.AttachCmd? { assert NameOf(c)[0] != 'a'; }
  }

  lemma NotingLeavesRefusal(n: Node, env: Env)
    ensures NoteFabrics(n, env).refusal == n.refusal && NoteFabrics(n, env).world == n.world
    ensures NoteWitness(n, env).refusal == n.refusal && NoteWitness(n, env).world == n.world
  {
  }

  lemma FabricsLeaveRefusal(n: Node, count: nat, a: Allocation, env: Env)
    ensures FabricsChanged(SetFabrics(n, count, a), env).refusal == n.refusal
    ensures FabricsChanged(SetFabrics(n, count, a), env).world.live == n.world.live
  {
    var m := SetFabrics(n, count, a);
    NotingLeavesRefusal(m, env);
    NotingLeavesRefusal(NoteWitness(m, env), env);
  }

  lemma RebuildOutcome(n: Node, env: Env)
    ensures RebuildCommand(n, env).verdict != Done ==>
              RebuildCommand(n, env).node.refusal == n.refusal && RebuildCommand(n, env).node.world == n.world
    ensures n.refusal == Some(IdentityUnreadable) ==> RebuildCommand(n, env).verdict != Done
  {
  }

  /** One step: still refusing for the same reason with nothing live, or a rebuild succeeded,
      which an unreadable identity never allows. */
  lemma RefusalStep(n: Node, op: NodeOp, env: Env)
    requires RefusesEmpty(n) && !op.Restart?
    ensures var r := StepNode(n, op, env);
            RebuildSucceeds(n, op, env) || (RefusesEmpty(r) && r.refusal == n.refusal)
    ensures n.refusal == Some(IdentityUnreadable) ==> !RebuildSucceeds(n, op, env)
  {
    RebuildOutcome(n, env);
    match op
    case Client(attached, c) => OnlyRebuildPasses(n, attached, c);
    case Fabrics(count, a) => FabricsLeaveRefusal(n, count, a, env);
  }

  ghost predicate RebuiltAt(n: Node, ops: seq<NodeOp>, env: Env, i: nat)
    requires i < |ops|
  {
    RebuildSucceeds(RunNode(n, ops[..i], env), ops[i], env)
  }

  /** Some step of the run was a rebuild that succeeded. */
  ghost predicate RebuiltWithin(n: Node, ops: seq<NodeOp>, env: Env) {
    exists i: nat :: i < |ops| && RebuiltAt(n, ops, env, i)
  }

  lemma RebuiltAlike(n: Node, ops: seq<NodeOp>, env: Env, i: nat)
    requires i + 1 < |ops|
    ensures RebuiltAt(n, ops[..|ops| - 1], env, i) == RebuiltAt(n, ops, env, i)
  {
    assert ops[..|ops| - 1][..i] == ops[..i];
  }

  lemma RebuiltAlready(n: Node, ops: seq<NodeOp>, env: Env)
    requires ops != [] && RebuiltWithin(n, ops[..|ops| - 1], env)
    ensures RebuiltWithin(n, ops, env)
  {
    var i: nat :| i < |ops[..|ops| - 1]| && RebuiltAt(n, ops[..|ops| - 1], env, i);
    RebuiltAlike(n, ops, env, i);
  }

  lemma RebuiltLast(n: Node, ops: seq<NodeOp>, env: Env)
    requires ops != [] && RebuildSucceeds(RunNode(n, ops[..|ops| - 1], env), ops[|ops| - 1], env)
    ensures RebuiltWithin(n, ops, env)
  {
    assert RebuiltAt(n, ops, env, |ops| - 1);
  }

  /** Refusal safety over whole runs: until a rebuild succeeds, no client frame and no fabric
      change makes anything live or lifts the refusal. */
  lemma {:induction false} RefusalIsSafe(n: Node, ops: seq<NodeOp>, env: Env)
    requires RefusesEmpty(n) && forall op :: op in ops ==> !op.Restart?
    ensures RebuiltWithin(n, ops, env)
         || (RefusesEmpty(RunNode(n, ops, env)) && RunNode(n, ops, env).refusal == n.refusal)
    decreases |ops|
  {
    if ops != [] {
      var init, last := ops[..|ops| - 1], ops[|ops| - 1];
      assert last in ops && forall op :: op in init ==> op in ops;
      RefusalIsSafe(n, init, env);
      if RebuiltWithin(n, init, env) {
        RebuiltAlready(n, ops, env);
      } else {
        RefusalStep(RunNode(n, init, env), last, env);
        if RebuildSucceeds(RunNode(n, init, env), last, env) { RebuiltLast(n, ops, env); }
      }
    }
  }

  /** An unreadable identity is never cleared: only the operator's repair and a restart can. */
  lemma {:induction false} IdentityRefusalIsFinal(n: Node, ops: seq<NodeOp>, env: Env)
    requires RefusesEmpty(n) && n.refusal == Some(IdentityUnreadable) && forall op :: op in ops ==> !op.Restart?
    ensures RefusesEmpty(RunNode(n, ops, env)) && RunNode(n, ops, env).refusal == Some(IdentityUnreadable)
    decreases |ops|
  {
    if ops != [] {
      var init, last := ops[..|ops| - 1], ops[|ops| - 1];
      assert last in ops && forall op :: op in init ==> op in ops;
      IdentityRefusalIsFinal(n, init, env);
      RefusalStep(RunNode(n, init, env), last, env);
    }
  }
}
