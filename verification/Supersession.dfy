/** Retiring an identity when its device moves to a later generation: in one attach, or over
    a removal and a later upsert, the map ends up saying the same. */
module Supersession {
  import opened Protocol
  import opened Reconcile
  import opened Registry
  import opened RegistryProofs
  import opened RegistryCommands
  import opened RegistryWithin
  import opened EndpointMap
  import opened EndpointMapProofs
  import opened Node
  import opened NodeEffects
  import opened NodeFaith
  import opened NodeRuns

  /** What every path must leave of the record. */
  function RetiredRecord(r: Record, successor: string): Record { r.(orphaned := true, supersededBy := Some(successor)) }

  /** Neither the device nor the identity is live. */
  ghost predicate Away(w: World, device: int, id: string) {
    DistinctLive(w.live) && device !in w.live && id !in Ids(w.live)
  }

  // --- in one attach -------------------------------------------------------

  lemma CreatedIs(before: map<int, LiveEntry>, after: map<int, LiveEntry>, d: int)
    requires DistinctLive(before)
    ensures CreatedFor(LiveDriven(before), after, d) ==
            if d in after && after[d].publishedAs !in Ids(before) then Some(after[d].publishedAs) else None
  {
    DrivenMembers(before);
  }

  /** The device of a departed identity now drives a later generation of it. */
  lemma RetiredByMutation(n: Node, before: map<int, LiveEntry>, d: int, env: Env)
    requires DistinctLive(before) && DistinctLive(n.world.live) && d in before && d in n.world.live
    requires Recorded(n.store.endpoints, d, before[d])
    requires before[d].publishedAs !in Ids(n.world.live) && n.world.live[d].publishedAs !in Ids(before)
    requires Supersedes(before[d].publishedAs, n.world.live[d].publishedAs)
    ensures var id := before[d].publishedAs;
            var m := CheckDrift(ForgetRemoved(n, LiveDriven(before), false, env), env).store.endpoints;
            id in m && m[id] == RetiredRecord(n.store.endpoints[id], n.world.live[d].publishedAs)
  {
    var marked := ForgetRemoved(n, LiveDriven(before), false, env);
    SoftRemovals(n, before, env);
    CreatedIs(before, n.world.live, d);
    CheckSettles(n.world, marked.store, env.writes);
  }

  lemma RetiredInOneAttach(n: Node, desired: seq<EndpointSpec>, replaceAll: bool, order: seq<string>,
                           d: int, spec: EndpointSpec, env: Env)
    requires Requested(n.world, desired, order) && Attach(n, desired, replaceAll, order, env).verdict == Done
    requires d in n.world.live && Recorded(n.store.endpoints, d, n.world.live[d])
    requires spec in desired && spec.device == d && Supersedes(n.world.live[d].publishedAs, spec.publishedAs)
    requires n.world.live[d].publishedAs !in IdsOf(desired) && spec.publishedAs !in Ids(n.world.live)
    ensures var id := n.world.live[d].publishedAs;
            var m := Attach(n, desired, replaceAll, order, env).node.store.endpoints;
            id in m && m[id] == RetiredRecord(n.store.endpoints[id], spec.publishedAs)
  {
    var v := ReconcileTo(n.world, desired, replaceAll, order, env.fate).world;
    ReconcileExact(n.world, desired, replaceAll, order, env.fate);
    SinksNameDrivers(v, desired);
    RetiredByMutation(n.(world := v), n.world.live, d, env);
  }

  // --- by a removal first --------------------------------------------------

  /** The one departure of its device, which nothing superseded and nothing replaced. */
  ghost predicate Unanswered(ds: seq<Departure>, e: Departure, device: int) {
    && e in ds && e.device == device && e.successor.None? && !e.replaced
    && (forall d :: d in ds && d.device == device ==> d == e)
  }

  lemma {:induction false} ForgetEachRemembers(f: Forgetting, ds: seq<Departure>, writes: Writes, device: int)
    ensures forall e :: Unanswered(ds, e, device) ==>
              device in ForgetEach(f, ds, false, writes).lastRemoved
              && ForgetEach(f, ds, false, writes).lastRemoved[device] == e.id
    decreases |ds|
  {
    if ds != [] {
      assert ds == [ds[0]] + ds[1..];
      ForgetEachRemembers(ForgetNext(f, ds[0], false, writes), ds[1..], writes, device);
      forall e | Unanswered(ds, e, device)
        ensures device in ForgetEach(f, ds, false, writes).lastRemoved
        ensures ForgetEach(f, ds, false, writes).lastRemoved[device] == e.id
      {
        if e in ds[1..] {
          assert Unanswered(ds[1..], e, device);
        } else {
          assert forall d :: d in ds[1..] ==> d.device != device;
          OnlyUnanswered(ForgetNext(f, ds[0], false, writes), ds[1..], writes, device);
        }
      }
    }
  }

  /** What a device drove has gone, and this mutation put nothing new in its place. */
  ghost predicate LeftEmpty(before: map<int, LiveEntry>, after: map<int, LiveEntry>, d: int) {
    && d in before && before[d].publishedAs !in Ids(after)
    && !(d in after && after[d].publishedAs !in Ids(before))
  }

  lemma NotedUnder(n: Node, before: map<int, LiveEntry>, d: int)
    requires DistinctLive(before)
    ensures var ds := Departures(LiveDriven(before), n.world.live, Ids(n.world.live), false);
            && (LeftEmpty(before, n.world.live, d) ==>
                  Unanswered(ds, DepartureFor(before, n.world.live, d, false), d))
            && (forall e :: e in ds && e.device == d ==>
                  d in before && before[d].publishedAs !in Ids(n.world.live)
                  && e == DepartureFor(before, n.world.live, d, false))
  {
    DeparturesOf(before, n.world.live, false);
    if d in before { DepartureMeans(before, n.world.live, d, false); }
  }

  lemma {:induction false} OnlyUnanswered(f: Forgetting, ds: seq<Departure>, writes: Writes, device: int)
    requires forall e :: e in ds && e.device == device ==> e.successor.Some? || e.replaced
    ensures var r := ForgetEach(f, ds, false, writes).lastRemoved;
            (device in r <==> device in f.lastRemoved) && (device in r ==> r[device] == f.lastRemoved[device])
    decreases |ds|
  {
    if ds != [] {
      assert ds == [ds[0]] + ds[1..];
      OnlyUnanswered(ForgetNext(f, ds[0], false, writes), ds[1..], writes, device);
    }
  }

  /** A soft mutation remembers, under each device, exactly what it took from it and put nothing
      new in the place of; every other memory stays. */
  lemma RemembersExactly(n: Node, before: map<int, LiveEntry>, d: int, env: Env)
    requires DistinctLive(before)
    ensures var after := ForgetRemoved(n, LiveDriven(before), false, env).lastRemoved;
            if LeftEmpty(before, n.world.live, d) then d in after && after[d] == before[d].publishedAs
            else (d in after <==> d in n.lastRemoved) && (d in after ==> after[d] == n.lastRemoved[d])
  {
    var ds := Departures(LiveDriven(before), n.world.live, Ids(n.world.live), false);
    var f := Forgetting(n.store, n.lastRemoved, []);
    NotedUnder(n, before, d);
    if d in before { DepartureMeans(before, n.world.live, d, false); }
    if LeftEmpty(before, n.world.live, d) {
      ForgetEachRemembers(f, ds, env.writes, d);
    } else {
      OnlyUnanswered(f, ds, env.writes, d);
    }
  }

  lemma {:induction false} HardForgetsNoMemory(f: Forgetting, ds: seq<Departure>, writes: Writes)
    ensures ForgetEach(f, ds, true, writes).lastRemoved == f.lastRemoved
    decreases |ds|
  {
    if ds != [] { HardForgetsNoMemory(ForgetNext(f, ds[0], true, writes), ds[1..], writes); }
  }

  /** Removed, remembered under its device, and waiting to be paired. */
  ghost predicate Pending(n: Node, d: int, id: string, r: Record) {
    && Away(n.world, d, id)
    && id in n.store.endpoints && n.store.endpoints[id] == r
    && d in n.lastRemoved && n.lastRemoved[d] == id
  }

  lemma RemovedRecord(n: Node, before: map<int, LiveEntry>, d: int, env: Env)
    requires DistinctLive(before) && d in before && Away(n.world, d, before[d].publishedAs)
    requires Recorded(n.store.endpoints, d, before[d])
    ensures var id := before[d].publishedAs;
            var m := CheckDrift(ForgetRemoved(n, LiveDriven(before), false, env), env).store.endpoints;
            id in m && m[id] == n.store.endpoints[id].(orphaned := true)
  {
    SoftRemovals(n, before, env);
    CreatedIs(before, n.world.live, d);
    CheckSettles(n.world, ForgetRemoved(n, LiveDriven(before), false, env).store, env.writes);
  }

  lemma RemovedByAttach(n: Node, desired: seq<EndpointSpec>, replaceAll: bool, order: seq<string>, d: int, env: Env)
    requires Requested(n.world, desired, order) && Attach(n, desired, replaceAll, order, env).verdict == Done
    requires d in n.world.live && Recorded(n.store.endpoints, d, n.world.live[d])
    requires d !in DevicesOf(desired) && n.world.live[d].publishedAs !in IdsOf(desired)
    ensures var id := n.world.live[d].publishedAs;
            Pending(Attach(n, desired, replaceAll, order, env).node, d, id, n.store.endpoints[id].(orphaned := true))
  {
    var v := ReconcileTo(n.world, desired, replaceAll, order, env.fate).world;
    var moved := n.(world := v);
    ReconcileExact(n.world, desired, replaceAll, order, env.fate);
    SinksNameDrivers(v, desired);
    RemembersExactly(moved, n.world.live, d, env);
    RemovedRecord(moved, n.world.live, d, env);
  }

  // --- what may happen in between ------------------------------------------

  /** Anything the plugin sends over the live set, except an upsert that would pair this very
      identity with another device that also remembers it. */
  predicate LeavesPending(n: Node, op: NodeOp, id: string) {
    op.Client? &&
    match op.command
    case AttachCmd(_, _, _) => true
    case UpsertCmd(spec) => !(spec.device in n.lastRemoved && n.lastRemoved[spec.device] == id)
    case RemoveCmd(_) => true
    case _ => false
  }

  lemma AttachKeepsPending(n: Node, w: World, d: int, id: string, r: Record, env: Env)
    requires Pending(n, d, id, r) && Away(w, d, id)
    ensures Pending(CheckDrift(ForgetRemoved(n.(world := w), LiveDriven(n.world.live), false, env), env), d, id, r)
  {
    var moved := n.(world := w);
    SoftRemovals(moved, n.world.live, env);
    RemembersExactly(moved, n.world.live, d, env);
    CheckSettles(w, ForgetRemoved(moved, LiveDriven(n.world.live), false, env).store, env.writes);
  }

  lemma RemoveKeepsPending(n: Node, w: World, d: int, id: string, r: Record, env: Env)
    requires Pending(n, d, id, r) && Away(w, d, id)
    ensures Pending(CheckDrift(ForgetRemoved(n.(world := w), LiveDriven(n.world.live), true, env), env), d, id, r)
  {
    var moved := n.(world := w);
    HardRemovals(moved, n.world.live, env);
    HardForgetsNoMemory(Forgetting(n.store, n.lastRemoved, []),
                        Departures(LiveDriven(n.world.live), w.live, Ids(w.live), true), env.writes);
    CheckSettles(w, ForgetRemoved(moved, LiveDriven(n.world.live), true, env).store, env.writes);
  }

  lemma UpsertKeepsPending(n: Node, spec: EndpointSpec, d: int, id: string, r: Record, env: Env)
    requires Pending(n, d, id, r) && Away(Upsert(n.world, spec, env.fate).world, d, id)
    requires !(spec.device in n.lastRemoved && n.lastRemoved[spec.device] == id)
    ensures Pending(UpsertCommand(n, spec, env).node, d, id, r)
  {
    var o := Upsert(n.world, spec, env.fate);
    var checked := CheckDrift(n.(world := o.world), env);
    CheckSettles(o.world, n.store, env.writes);
    PairingEffect(checked, spec, env);
  }

  lemma PendingCommand(n: Node, c: Command, d: int, id: string, r: Record, env: Env)
    requires Pending(n, d, id, r) && LeavesPending(n, Client(true, c), id) && Away(Execute(n, c, env).world, d, id)
    ensures Pending(Execute(n, c, env), d, id, r)
  {
    match c
    case AttachCmd(desired, replaceAll, order) =>
      AttachKeepsPending(n, ReconcileTo(n.world, desired, replaceAll, order, env.fate).world, d, id, r, env);
    case UpsertCmd(spec) => UpsertKeepsPending(n, spec, d, id, r, env);
    case RemoveCmd(device) => RemoveKeepsPending(n, Remove(n.world, device, env.fate).world, d, id, r, env);
  }

  lemma PendingStep(n: Node, op: NodeOp, d: int, id: string, r: Record, env: Env)
    requires Pending(n, d, id, r) && LeavesPending(n, op, id) && Away(StepNode(n, op, env).world, d, id)
    ensures Pending(StepNode(n, op, env), d, id, r)
  {
    if GateFor(n.refusal, op.attached, NameOf(op.command)) == Accepted {
      PendingCommand(n, op.command, d, id, r, env);
    }
  }

  /** Neither comes back and nobody else claims the pairing, at any step of the run. */
  ghost predicate StaysAway(n: Node, ops: seq<NodeOp>, d: int, id: string, env: Env)
    decreases |ops|
  {
    ops != [] ==>
      var mid := RunNode(n, ops[..|ops| - 1], env);
      && StaysAway(n, ops[..|ops| - 1], d, id, env)
      && LeavesPending(mid, ops[|ops| - 1], id)
      && Away(StepNode(mid, ops[|ops| - 1], env).world, d, id)
  }

  lemma {:induction false} PendingRun(n: Node, ops: seq<NodeOp>, d: int, id: string, r: Record, env: Env)
    requires Pending(n, d, id, r) && StaysAway(n, ops, d, id, env)
    ensures Pending(RunNode(n, ops, env), d, id, r)
    decreases |ops|
  {
    if ops != [] {
      PendingRun(n, ops[..|ops| - 1], d, id, r, env);
      PendingStep(RunNode(n, ops[..|ops| - 1], env), ops[|ops| - 1], d, id, r, env);
    }
  }

  // --- the later upsert ----------------------------------------------------

  lemma PairedByUpsert(n: Node, spec: EndpointSpec, id: string, r: Record, env: Env)
    requires Pending(n, spec.device, id, r) && Supersedes(id, spec.publishedAs)
    requires UpsertCommand(n, spec, env).verdict == Done && r.role.Some? && r.supersededBy.None?
    ensures var m := UpsertCommand(n, spec, env).node.store.endpoints;
            id in m && m[id] == RetiredRecord(r, spec.publishedAs)
  {
    var o := Upsert(n.world, spec, env.fate);
    var checked := CheckDrift(n.(world := o.world), env);
    SupersedesIsStrictOrder(id, spec.publishedAs, id);
    UpsertedIs(n.world, spec, env.fate);
    IdsWith(n.world.live, spec.device, o.world.live[spec.device]);
    CheckSettles(o.world, n.store, env.writes);
    PairingEffect(checked, spec, env);
  }

  /** A successful upsert for a device that drove nothing adds that one entry. */
  lemma UpsertedIs(w: World, spec: EndpointSpec, fate: Fate)
    requires spec.device !in w.live && DistinctLive(w.live) && Upsert(w, spec, fate).verdict == Done
    ensures var v := Upsert(w, spec, fate).world;
            && spec.device in v.live && v.live[spec.device].publishedAs == spec.publishedAs
            && v.live == w.live[spec.device := v.live[spec.device]] && spec.publishedAs !in Ids(w.live)
  {
    CreateShape(w, spec, fate);
  }

  /** Path independence: an identity retired in one attach, or removed by an attach and, after
      anything else, followed by a separate upsert of a later generation, leaves the same
      record, its number kept, un-exported and superseded by the same identity. */
  lemma PathIndependence(n: Node, d: int, spec: EndpointSpec,
                         together: seq<EndpointSpec>, all1: bool, order1: seq<string>, env1: Env,
                         without: seq<EndpointSpec>, all2: bool, order2: seq<string>, between: seq<NodeOp>, env2: Env)
    requires d in n.world.live && Recorded(n.store.endpoints, d, n.world.live[d])
    requires spec.device == d && Supersedes(n.world.live[d].publishedAs, spec.publishedAs)
    requires spec.publishedAs !in Ids(n.world.live)
    // one attach
    requires Requested(n.world, together, order1) && Attach(n, together, all1, order1, env1).verdict == Done
    requires spec in together && n.world.live[d].publishedAs !in IdsOf(together)
    // an attach that removes it, other commands, then the upsert
    requires Requested(n.world, without, order2) && Attach(n, without, all2, order2, env2).verdict == Done
    requires d !in DevicesOf(without) && n.world.live[d].publishedAs !in IdsOf(without)
    requires StaysAway(Attach(n, without, all2, order2, env2).node, between, d, n.world.live[d].publishedAs, env2)
    requires var mid := RunNode(Attach(n, without, all2, order2, env2).node, between, env2);
             UpsertCommand(mid, spec, env2).verdict == Done
    ensures var id := n.world.live[d].publishedAs;
            var one := Attach(n, together, all1, order1, env1).node.store.endpoints;
            var mid := RunNode(Attach(n, without, all2, order2, env2).node, between, env2);
            var two := UpsertCommand(mid, spec, env2).node.store.endpoints;
            && id in one && id in two && one[id] == two[id] == RetiredRecord(n.store.endpoints[id], spec.publishedAs)
            && !Restorable(id, one[id]) && one[id].number == n.store.endpoints[id].number
  {
    var id := n.world.live[d].publishedAs;
    var r := n.store.endpoints[id].(orphaned := true);
    var removed := Attach(n, without, all2, order2, env2).node;
    RetiredInOneAttach(n, together, all1, order1, d, spec, env1);
    RemovedByAttach(n, without, all2, order2, d, env2);
    PendingRun(removed, between, d, id, r, env2);
    PairedByUpsert(RunNode(removed, between, env2), spec, id, r, env2);
  }

  /** The same without assuming that any command succeeded: when nothing fails, any two
      desired sets of supported roles, one with the new identity in place of the old and one
      without the device, lead to the same record. */
  lemma FaultFreePathsMeet(n: Node, d: int, spec: EndpointSpec, together: seq<EndpointSpec>, without: seq<EndpointSpec>,
                           order: seq<string>, env: Env)
    requires NothingFails(env.fate) && Requested(n.world, together, order) && Requested(n.world, without, order)
    requires forall s :: s in together + without ==> Supported(s.role)
    requires d in n.world.live && Recorded(n.store.endpoints, d, n.world.live[d])
    requires spec.device == d && Supersedes(n.world.live[d].publishedAs, spec.publishedAs)
    requires spec.publishedAs !in Ids(n.world.live) && spec.publishedAs !in IdsOf(without)
    requires spec in together && n.world.live[d].publishedAs !in IdsOf(together)
    requires d !in DevicesOf(without) && n.world.live[d].publishedAs !in IdsOf(without)
    ensures var id := n.world.live[d].publishedAs;
            var one := Attach(n, together, true, order, env).node.store.endpoints;
            var two := UpsertCommand(Attach(n, without, true, order, env).node, spec, env).node.store.endpoints;
            id in one && id in two && one[id] == two[id] == RetiredRecord(n.store.endpoints[id], spec.publishedAs)
  {
    var removed := Attach(n, without, true, order, env).node;
    assert forall s :: s in together ==> s in together + without;
    assert forall s :: s in without ==> s in together + without;
    FreeAttachSucceeds(n.world, together, true, order, env.fate);
    FreeAttachSucceeds(n.world, without, true, order, env.fate);
    FreeUpsertSucceeds(removed.world, spec, env.fate);
    NothingBetween(removed, d, n.world.live[d].publishedAs, env);
    PathIndependence(n, d, spec, together, true, order, env, without, true, order, [], env);
  }

  lemma NothingBetween(n: Node, d: int, id: string, env: Env)
    ensures RunNode(n, [], env) == n && StaysAway(n, [], d, id, env)
  {
  }

  /** A removed identity exported again under another device is what makes a later create for
      its old device stale: the memory under the old device is still there. */
  lemma StalePairingArises(n: Node, d: int, id: string, r: Record, elsewhere: EndpointSpec, later: EndpointSpec,
                           env: Env)
    requires Pending(n, d, id, r) && Coherent(n.world) && NothingFails(env.fate)
    requires elsewhere.publishedAs == id && elsewhere.device != d && elsewhere.device !in n.world.live
    requires Supported(elsewhere.role) && later.device == d && Supersedes(id, later.publishedAs)
    ensures var again := UpsertCommand(n, elsewhere, env);
            again.verdict == Done && id in Ids(again.node.world.live) && StalePairing(again.node, later)
  {
    FreeUpsertSucceeds(n.world, elsewhere, env.fate);
    UpsertedIs(n.world, elsewhere, env.fate);
    IdsWith(n.world.live, elsewhere.device, Upsert(n.world, elsewhere, env.fate).world.live[elsewhere.device]);
  }

  /** The hazard of the memory: an identity remembered under one device that has since gone
      live on another is retired by an upsert for the first, live as it is, and the next
      start would not bring it back. */
  lemma StalePairingBuriesALiveIdentity(n: Node, spec: EndpointSpec, env: Env)
    requires Faithful(n) && LiveWithin(n.world) && RolesKnown(n.world.live)
    requires UpsertCommand(n, spec, env).verdict == Done && StalePairing(n, spec)
    ensures var id, after := n.lastRemoved[spec.device], UpsertCommand(n, spec, env).node;
            id in Ids(after.world.live) && id in after.store.endpoints && !ComesBack(id, after.store.endpoints[id])
  {
    var id := n.lastRemoved[spec.device];
    var o := Upsert(n.world, spec, env.fate);
    var checked := CheckDrift(n.(world := o.world), env);
    UpsertedFaith(n, spec, env);
    StaleAlike(n, checked, spec, env);
    PairingEffect(checked, spec, env);
    var d :| d in o.world.live && o.world.live[d].publishedAs == id;
    assert Recorded(checked.store.endpoints, d, o.world.live[d]);
    ForgottenStaysDown(id, checked.store.endpoints[id], Some(spec.publishedAs));
  }
}
