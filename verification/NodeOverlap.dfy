/** Commands of two sockets that overlap. The registry lets one mutation in at a time, but a
    node command reads its snapshot of the live set when its frame arrives and does its
    bookkeeping when its own mutation is over, so the two can be apart. */
module NodeOverlap {
  import opened Protocol
  import opened Reconcile
  import opened Registry
  import opened RegistryProofs
  import opened RegistryCommands
  import opened RegistryWithin
  import opened EndpointMap
  import opened EndpointMapProofs
  import opened Node
  import opened NodeEffects
  import opened NodeFaith
  import opened NodeRuns
  import opened NodeSound

  // --- what an old snapshot costs ------------------------------------------

  /** The bookkeeping of an attach, or of a removal if `hard`, against a snapshot. */
  ghost function Bookkeep(n: Node, before: map<int, LiveEntry>, hard: bool, env: Env): Node {
    CheckDrift(ForgetRemoved(n, LiveDriven(before), hard, env), env)
  }

  /** Everything that would come back was live in the snapshot or is live now. */
  ghost predicate Covered(m: map<string, Record>, before: map<int, LiveEntry>, live: map<int, LiveEntry>) {
    forall id :: id in m && ComesBack(id, m[id]) ==> id in Ids(before) || id in Ids(live)
  }

  lemma SoftlyBuriedExactly(n: Node, before: map<int, LiveEntry>, env: Env)
    requires DistinctLive(before)
    ensures Buried(ForgetRemoved(n, LiveDriven(before), false, env).store.endpoints, n.world.live)
       <==> Covered(n.store.endpoints, before, n.world.live)
  {
    var m0, m := n.store.endpoints, ForgetRemoved(n, LiveDriven(before), false, env).store.endpoints;
    SoftRemovals(n, before, env);
    forall id | id in m && id !in Ids(n.world.live)
      ensures ComesBack(id, m[id]) <==> id !in Ids(before) && ComesBack(id, m0[id])
    {
      if id in Ids(before) {
        var d :| d in before && before[d].publishedAs == id;
        ForgottenStaysDown(id, m0[id], DepartureFor(before, n.world.live, d, false).successor);
      }
    }
  }

  lemma HardlyBuriedExactly(n: Node, before: map<int, LiveEntry>, env: Env)
    requires DistinctLive(before)
    ensures Buried(ForgetRemoved(n, LiveDriven(before), true, env).store.endpoints, n.world.live)
       <==> Covered(n.store.endpoints, before, n.world.live)
  {
    HardRemovals(n, before, env);
  }

  lemma CheckBuriesNothing(w: World, s: Store, writes: Writes)
    requires DistinctLive(w.live)
    ensures Buried(Check(s, LiveNumbers(w), writes).store.endpoints, w.live) <==> Buried(s.endpoints, w.live)
  {
    CheckSettles(w, s, writes);
  }

  /** Bookkeeping against any snapshot records everything live, and leaves nothing else that
      would come back exactly if whatever would have was live in the snapshot or is live now. */
  lemma OverlapExactly(n: Node, before: map<int, LiveEntry>, hard: bool, env: Env)
    requires DistinctLive(before) && DistinctLive(n.world.live)
    ensures Faithful(Bookkeep(n, before, hard, env)) <==> Covered(n.store.endpoints, before, n.world.live)
  {
    var marked := ForgetRemoved(n, LiveDriven(before), hard, env);
    if hard { HardlyBuriedExactly(n, before, env); } else { SoftlyBuriedExactly(n, before, env); }
    CheckBuriesNothing(n.world, marked.store, env.writes);
    CheckRecords(n.world, marked.store, env.writes);
  }

  /** Of what was live, everything named that is gone now was in the snapshot. */
  ghost predicate SawWhatLeft(live: map<int, LiveEntry>, before: map<int, LiveEntry>, after: map<int, LiveEntry>) {
    forall d :: d in live && live[d].name != "" && live[d].publishedAs !in Ids(after) ==>
      live[d].publishedAs in Ids(before)
  }

  lemma CoveredByLive(n: Node, before: map<int, LiveEntry>, after: map<int, LiveEntry>)
    requires Faithful(n) && RolesKnown(n.world.live)
    ensures Covered(n.store.endpoints, before, after) <==> SawWhatLeft(n.world.live, before, after)
  {
    var m, live := n.store.endpoints, n.world.live;
    forall d | d in live
      ensures live[d].publishedAs in m
      ensures ComesBack(live[d].publishedAs, m[live[d].publishedAs]) <==> live[d].name != ""
    {
      assert Recorded(m, d, live[d]);
      FullComesBack(live[d].publishedAs, m[live[d].publishedAs], d, live[d]);
    }
    if SawWhatLeft(live, before, after) {
      forall id | id in m && ComesBack(id, m[id]) ensures id in Ids(before) || id in Ids(after) {
        var d :| d in live && live[d].publishedAs == id;
      }
    }
  }

  /** An attach over a faithful node, whenever its snapshot was read and whatever it comes to,
      leaves the node faithful exactly if every named accessory that left during its turn was
      already in that snapshot. */
  lemma AttachFromKeepsFaithExactly(n: Node, before: map<int, LiveEntry>, desired: seq<EndpointSpec>, replaceAll: bool,
                                    order: seq<string>, env: Env)
    requires Faithful(n) && LiveWithin(n.world) && RolesKnown(n.world.live) && DistinctLive(before)
    ensures var r := AttachFrom(n, LiveDriven(before), desired, replaceAll, order, env).node;
            Faithful(r) <==> SawWhatLeft(n.world.live, before, r.world.live)
  {
    var w := ReconcileTo(n.world, desired, replaceAll, order, env.fate).world;
    AbortKeepsDistinct(n.world, desired, replaceAll, order, env.fate);
    OverlapExactly(n.(world := w), before, false, env);
    CoveredByLive(n, before, w.live);
  }

  /** And so does a removal. */
  lemma RemoveFromKeepsFaithExactly(n: Node, before: map<int, LiveEntry>, device: int, env: Env)
    requires Faithful(n) && LiveWithin(n.world) && RolesKnown(n.world.live) && DistinctLive(before)
    ensures var r := RemoveFrom(n, LiveDriven(before), device, env).node;
            Faithful(r) <==> SawWhatLeft(n.world.live, before, r.world.live)
  {
    var w := Remove(n.world, device, env.fate).world;
    RemoveWithin(n.world, device, env.fate);
    OverlapExactly(n.(world := w), before, true, env);
    CoveredByLive(n, before, w.live);
  }

  // --- how it arises -------------------------------------------------------

  /** The first attach records what it brought, under a name and a role a restart can use. */
  lemma BroughtIsRecorded(n: Node, y: EndpointSpec)
    requires Faithful(n) && y.device in n.world.live && Meets(n.world.live[y.device], y)
    requires y.name != "" && Supported(y.role)
    ensures y.publishedAs in n.store.endpoints && ComesBack(y.publishedAs, n.store.endpoints[y.publishedAs])
  {
    assert Recorded(n.store.endpoints, y.device, n.world.live[y.device]);
    FullComesBack(y.publishedAs, n.store.endpoints[y.publishedAs], y.device, n.world.live[y.device]);
  }

  /** What an attach closes without having seen it in its snapshot stays recorded as it was. */
  lemma UnseenIsForgotten(n: Node, before: map<int, LiveEntry>, id: string, env: Env)
    requires DistinctLive(before) && DistinctLive(n.world.live)
    requires id in n.store.endpoints && id !in Ids(before) && id !in Ids(n.world.live)
    ensures var m := Bookkeep(n, before, false, env).store.endpoints;
            id in m && m[id] == n.store.endpoints[id]
  {
    SoftRemovals(n, before, env);
    CheckSettles(n.world, ForgetRemoved(n, LiveDriven(before), false, env).store, env.writes);
  }

  lemma FirstBrings(n: Node, first: seq<EndpointSpec>, all1: bool, order1: seq<string>, y: EndpointSpec, env: Env)
    requires NothingFails(env.fate) && Buried(n.store.endpoints, n.world.live)
    requires Requested(n.world, first, order1) && !MassRemoval(LiveComposition(n.world.live), first, all1)
    requires (forall s :: s in first ==> Supported(s.role)) && y in first && y.name != ""
    ensures var one := Attach(n, first, all1, order1, env).node;
            y.publishedAs in one.store.endpoints && ComesBack(y.publishedAs, one.store.endpoints[y.publishedAs])
  {
    CoherentWithin(n.world);
    AttachKeepsFaith(n, first, all1, order1, env);
    FreeAttachSucceeds(n.world, first, all1, order1, env.fate);
    AttachMovesWorld(n, first, all1, order1, env);
    BroughtIsRecorded(Attach(n, first, all1, order1, env).node, y);
  }

  lemma SecondCloses(one: Node, before: map<int, LiveEntry>, second: seq<EndpointSpec>, all2: bool, order2: seq<string>,
                     id: string, env: Env)
    requires NothingFails(env.fate) && DistinctLive(before) && (forall s :: s in second ==> Supported(s.role))
    requires Requested(one.world, second, order2) && !MassRemoval(LiveComposition(one.world.live), second, all2)
    requires id in one.store.endpoints && id !in Ids(before) && id !in IdsOf(second)
    ensures var two := AttachFrom(one, LiveDriven(before), second, all2, order2, env);
            && two.verdict == Done && Exactly(two.node.world.live, second) && id !in Ids(two.node.world.live)
            && id in two.node.store.endpoints && two.node.store.endpoints[id] == one.store.endpoints[id]
  {
    var w := ReconcileTo(one.world, second, all2, order2, env.fate).world;
    FreeAttachSucceeds(one.world, second, all2, order2, env.fate);
    CoherentWithin(w);
    UnseenIsForgotten(one.(world := w), before, id, env);
  }

  /** With nothing failing: while one attach brings a named accessory, a second one that does not
      want it arrives over another socket. The first records it, the second closes it, and since
      its snapshot is older than the accessory nobody marks the record: the next start brings
      back what the last command removed. */
  lemma OverlapResurrects(n: Node, first: seq<EndpointSpec>, second: seq<EndpointSpec>, all1: bool, all2: bool,
                          order1: seq<string>, order2: seq<string>, y: EndpointSpec, env: Env)
    requires NothingFails(env.fate) && Buried(n.store.endpoints, n.world.live)
    requires (forall s :: s in first ==> Supported(s.role)) && forall s :: s in second ==> Supported(s.role)
    requires Requested(n.world, first, order1) && !MassRemoval(LiveComposition(n.world.live), first, all1)
    requires var one := Attach(n, first, all1, order1, env).node;
             Requested(one.world, second, order2) && !MassRemoval(LiveComposition(one.world.live), second, all2)
    requires y in first && y.name != "" && y.publishedAs !in Ids(n.world.live) && y.publishedAs !in IdsOf(second)
    ensures var two := AttachFrom(Attach(n, first, all1, order1, env).node, LiveDriven(n.world.live), second, all2,
                                  order2, env);
            && two.verdict == Done && Exactly(two.node.world.live, second) && y.publishedAs !in Ids(two.node.world.live)
            && y.publishedAs in two.node.store.endpoints
            && ComesBack(y.publishedAs, two.node.store.endpoints[y.publishedAs])
  {
    CoherentWithin(n.world);
    FirstBrings(n, first, all1, order1, y, env);
    SecondCloses(Attach(n, first, all1, order1, env).node, n.world.live, second, all2, order2, y.publishedAs, env);
  }

  // --- what no overlap can touch -------------------------------------------

  /** The pieces overlapping commands fall into: a snapshot read, one command's whole mutation,
      and the bookkeeping that follows it. */
  datatype Piece =
    | Snapshot(frame: nat)
    | Reconciling(desired: seq<EndpointSpec>, replaceAll: bool, order: seq<string>)
    | Upserting(spec: EndpointSpec)
    | Removing(device: int)
    | Settling(frame: nat, hard: bool)     // forget what left since that frame's snapshot, then check
    | Checking
    | Pairing(spec: EndpointSpec)

  datatype Desk = Desk(node: Node, snapshots: map<nat, map<int, LiveEntry>>)

  ghost function Do(k: Desk, p: Piece, env: Env): Desk {
    var n := k.node;
    match p
    case Snapshot(frame) => k.(snapshots := k.snapshots[frame := n.world.live])
    case Reconciling(desired, replaceAll, order) =>
      k.(node := n.(world := ReconcileTo(n.world, desired, replaceAll, order, env.fate).world))
    case Upserting(spec) => k.(node := n.(world := Upsert(n.world, spec, env.fate).world))
    case Removing(device) => k.(node := n.(world := Remove(n.world, device, env.fate).world))
    case Settling(frame, hard) =>
      if frame in k.snapshots then k.(node := Bookkeep(n, k.snapshots[frame], hard, env)) else k
    case Checking => k.(node := CheckDrift(n, env))
    case Pairing(spec) => k.(node := NoteSupersession(n, spec, env))
  }

  ghost function DoAll(k: Desk, pieces: seq<Piece>, env: Env): Desk
    decreases |pieces|
  {
    if pieces == [] then k else Do(DoAll(k, pieces[..|pieces| - 1], env), pieces[|pieces| - 1], env)
  }

  ghost predicate DeskSound(k: Desk) {
    Sound(k.node) && forall f :: f in k.snapshots ==> DistinctLive(k.snapshots[f])
  }

  lemma PieceSound(k: Desk, p: Piece, env: Env)
    requires DeskSound(k) && WritesHold(env.writes)
    ensures DeskSound(Do(k, p, env))
  {
    var n := k.node;
    match p
    case Snapshot(frame) =>
    case Reconciling(desired, replaceAll, order) =>
      AbortKeepsDistinct(n.world, desired, replaceAll, order, env.fate);
      ReconcileGrows(n.world, desired, replaceAll, order, env.fate);
      MovedSound(n, ReconcileTo(n.world, desired, replaceAll, order, env.fate).world);
    case Upserting(spec) =>
      UpsertWithin(n.world, spec, env.fate);
      UpsertGrows(n.world, spec, env.fate);
      MovedSound(n, Upsert(n.world, spec, env.fate).world);
    case Removing(device) =>
      RemoveWithin(n.world, device, env.fate);
      RemoveGrows(n.world, device, env.fate);
      MovedSound(n, Remove(n.world, device, env.fate).world);
    case Settling(frame, hard) =>
      if frame in k.snapshots { BookkeepingSound(n, k.snapshots[frame], hard, env); }
    case Checking => CheckSound(n, env);
    case Pairing(spec) => PairingSound(n, spec, env);
  }

  /** However the commands of any number of sockets fall into one another, at these pieces and in
      any order, and whatever fails but writes: no drift is reported, no identity is driven twice
      and the map trusts only matter.js's numbers. */
  lemma {:induction false} OverlapIsSound(k: Desk, pieces: seq<Piece>, env: Env)
    requires DeskSound(k) && WritesHold(env.writes)
    ensures DeskSound(DoAll(k, pieces, env))
    decreases |pieces|
  {
    if pieces != [] {
      OverlapIsSound(k, pieces[..|pieces| - 1], env);
      PieceSound(DoAll(k, pieces[..|pieces| - 1], env), pieces[|pieces| - 1], env);
    }
  }
}
