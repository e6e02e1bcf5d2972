/** The node that ties the live set to the persisted map (`node.ts`), its commissioning
    witness (`storage.ts`), and the gate in front of it (`ws-server.ts`). */
module Node {
  import opened Protocol
  import opened Reconcile
  import opened Registry
  import opened EndpointMap

  datatype Reason = MapUnreadable | FabricStorageLost | IdentityUnreadable

  datatype Event = Commissioned | Decommissioned | DriftDetected

  /** Every outcome the environment decides: matter.js calls, map writes, identity writes. */
  datatype Env = Env(fate: Fate, writes: Writes, identityWrites: nat -> bool)

  datatype Node = Node(
    world: World, store: Store,
    refusal: Option<Reason>,
    drift: seq<DriftEntry>,
    fabrics: nat,                  // what matter.js holds now
    fabricCount: nat,              // what the node last saw
    marker: bool,                 // commissionedAt, in memory
    markerOnDisk: bool,           // commissionedAt, in identity.json
    identityTick: nat,
    lastRemoved: map<int, string>,
    events: seq<Event>)

  // --- the live set as the map sees it -------------------------------------

  lemma {:induction false} MinExists(s: set<int>)
    requires s != {}
    ensures exists m :: m in s && forall x :: x in s ==> m <= x
  {
    SomeNumber(s);
    var d :| d in s;
    var rest := s - {d};
    assert s == rest + {d};
    if rest != {} {
      MinExists(rest);
      var m :| m in rest && forall x :: x in rest ==> m <= x;
      var least := if d < m then d else m;
      assert least in s;
      assert forall x :: x in s ==> least <= x;
    } else {
      assert d in s && forall x :: x in s ==> d <= x;
    }
  }

  function Least(s: set<int>): (m: int)
    requires s != {}
    ensures m in s && forall x :: x in s ==> m <= x
  {
    MinExists(s);
    var m :| m in s && forall x :: x in s ==> m <= x;
    m
  }

  /** Device ids in ascending order, the order of every readout. */
  function SortedDevices(s: set<int>): (r: seq<int>)
    ensures forall d :: d in r <==> d in s
    ensures forall i, j :: 0 <= i < j < |r| ==> r[i] < r[j]
    decreases |s|
  {
    if s == {} then [] else
      var m := Least(s);
      [m] + SortedDevices(s - {m})
  }

  function NumberIn(w: World, id: string): nat { if id in w.numbers then w.numbers[id] else 0 }

  function LiveNumberOf(w: World, device: int): LiveNumber
    requires device in w.live
  {
    var e := w.live[device];
    LiveNumber(e.publishedAs, NumberIn(w, e.publishedAs), Some(e.role), Some(e.name), Some(e.battery), Some(device))
  }

  /** `liveIdentities`. */
  function LiveNumbers(w: World): (r: seq<LiveNumber>)
    ensures |r| == |SortedDevices(w.live.Keys)|
    ensures forall i :: 0 <= i < |r| ==> r[i] == LiveNumberOf(w, SortedDevices(w.live.Keys)[i])
  {
    var devices := SortedDevices(w.live.Keys);
    seq(|devices|, i requires 0 <= i < |devices| => LiveNumberOf(w, devices[i]))
  }

  /** An identity and the device driving it. */
  datatype Driven = Driven(id: string, device: int)

  /** `livePublishedIdentities`. */
  function LiveDriven(live: map<int, LiveEntry>): (r: seq<Driven>)
    ensures |r| == |SortedDevices(live.Keys)|
    ensures forall i :: 0 <= i < |r| ==>
              r[i] == Driven(live[SortedDevices(live.Keys)[i]].publishedAs, SortedDevices(live.Keys)[i])
  {
    var devices := SortedDevices(live.Keys);
    seq(|devices|, i requires 0 <= i < |devices| => Driven(live[devices[i]].publishedAs, devices[i]))
  }

  function DrivenIds(s: seq<Driven>): set<string> { set x | x in s :: x.id }

  // --- bookkeeping after a mutation ----------------------------------------

  function CheckDrift(n: Node, env: Env): Node {
    var r := Check(n.store, LiveNumbers(n.world), env.writes);
    n.(store := r.store, drift := r.drift, events := if r.drift == [] then n.events else n.events + [DriftDetected])
  }

  /** The identity this mutation created for a device, if any. */
  function CreatedFor(before: seq<Driven>, live: map<int, LiveEntry>, device: int): Option<string> {
    if device in live && live[device].publishedAs !in DrivenIds(before) then Some(live[device].publishedAs) else None
  }

  function Departed(before: seq<Driven>, ids: set<string>): seq<Driven> {
    if before == [] then []
    else if before[0].id in ids then Departed(before[1..], ids)
    else [before[0]] + Departed(before[1..], ids)
  }

  /** One identity that left the live set: the later generation that took its device over in
      the same mutation, and whether anything at all was created for that device. */
  datatype Departure = Departure(id: string, device: int, successor: Option<string>, replaced: bool)

  /** A hard removal is never a supersession: nothing follows a deleted device. */
  function DepartureOf(x: Driven, before: seq<Driven>, live: map<int, LiveEntry>, hard: bool): Departure {
    var created := CreatedFor(before, live, x.device);
    Departure(x.id, x.device,
              if !hard && created.Some? && Supersedes(x.id, created.value) then created else None,
              created.Some?)
  }

  function Departures(before: seq<Driven>, live: map<int, LiveEntry>, ids: set<string>, hard: bool): (r: seq<Departure>)
    ensures |r| == |Departed(before, ids)|
    ensures forall i :: 0 <= i < |r| ==> r[i] == DepartureOf(Departed(before, ids)[i], before, live, hard)
  {
    var gone := Departed(before, ids);
    seq(|gone|, i requires 0 <= i < |gone| => DepartureOf(gone[i], before, live, hard))
  }

  datatype Forgetting = Forgetting(store: Store, lastRemoved: map<int, string>, ordinary: seq<string>)

  /** A superseded identity is retired at once; any other is ordinary, and a soft one is
      remembered if nothing was created for its device. */
  function ForgetNext(f: Forgetting, d: Departure, hard: bool, writes: Writes): Forgetting {
    if d.successor.Some? then
      f.(store := Forget(f.store, [d.id], d.successor, writes))
    else
      f.(ordinary := f.ordinary + [d.id],
         lastRemoved := if !hard && !d.replaced then f.lastRemoved[d.device := d.id] else f.lastRemoved)
  }

  function ForgetEach(f: Forgetting, departures: seq<Departure>, hard: bool, writes: Writes): Forgetting
    decreases |departures|
  {
    if departures == [] then f
    else ForgetEach(ForgetNext(f, departures[0], hard, writes), departures[1..], hard, writes)
  }

  ghost function ForgetRemoved(n: Node, before: seq<Driven>, hard: bool, env: Env): Node {
    var departures := Departures(before, n.world.live, Ids(n.world.live), hard);
    var f := ForgetEach(Forgetting(n.store, n.lastRemoved, []), departures, hard, env.writes);
    n.(lastRemoved := f.lastRemoved,
       store := if hard then Destroy(f.store, f.ordinary, env.writes)
                else Forget(f.store, f.ordinary, None, env.writes))
  }

  /** The second half of a supersession whose create arrived as a command of its own. */
  function NoteSupersession(n: Node, spec: EndpointSpec, env: Env): Node {
    var taken := n.(lastRemoved := n.lastRemoved - {spec.device});
    if spec.device in n.lastRemoved && Supersedes(n.lastRemoved[spec.device], spec.publishedAs) then
      taken.(store := Forget(n.store, [n.lastRemoved[spec.device]], Some(spec.publishedAs), env.writes))
    else taken
  }

  // --- client commands -----------------------------------------------------

  datatype Answer = Answer(node: Node, verdict: Verdict)

  /** What follows the snapshot: `before` was read when the frame arrived, which is before the
      registry was free if another socket's command held it. */
  ghost function AttachFrom(n: Node, before: seq<Driven>, desired: seq<EndpointSpec>, replaceAll: bool,
                            order: seq<string>, env: Env): Answer {
    var o := ReconcileTo(n.world, desired, replaceAll, order, env.fate);
    Answer(CheckDrift(ForgetRemoved(n.(world := o.world), before, false, env), env), o.verdict)
  }

  /** An attach that nothing overlaps. */
  ghost function Attach(n: Node, desired: seq<EndpointSpec>, replaceAll: bool, order: seq<string>, env: Env): Answer {
    AttachFrom(n, LiveDriven(n.world.live), desired, replaceAll, order, env)
  }

  ghost function UpsertCommand(n: Node, spec: EndpointSpec, env: Env): Answer {
    var o := Upsert(n.world, spec, env.fate);
    var checked := CheckDrift(n.(world := o.world), env);
    Answer(if o.verdict == Done then NoteSupersession(checked, spec, env) else checked, o.verdict)
  }

  ghost function RemoveFrom(n: Node, before: seq<Driven>, device: int, env: Env): Answer {
    var o := Remove(n.world, device, env.fate);
    Answer(CheckDrift(ForgetRemoved(n.(world := o.world), before, true, env), env), o.verdict)
  }

  ghost function RemoveCommand(n: Node, device: int, env: Env): Answer {
    RemoveFrom(n, LiveDriven(n.world.live), device, env)
  }

  // --- fabrics and the witness ---------------------------------------------

  /** What erasing leaves: fresh numbers for whatever is live, as matter.js allocates them. */
  datatype Allocation = Allocation(numbers: map<string, nat>, next: nat)

  function Erase(n: Node, a: Allocation): Node {
    n.(fabrics := 0, world := n.world.(numbers := a.numbers, nextNumber := a.next))
  }

  function MarkWitness(n: Node, env: Env): Node {
    if n.marker then n
    else n.(marker := true, markerOnDisk := env.identityWrites(n.identityTick) || n.markerOnDisk,
            identityTick := n.identityTick + 1)
  }

  function ClearWitness(n: Node, env: Env): Node {
    if !n.marker then n
    else n.(marker := false, markerOnDisk := !env.identityWrites(n.identityTick) && n.markerOnDisk,
            identityTick := n.identityTick + 1)
  }

  function NoteWitness(n: Node, env: Env): Node { if n.marker || n.fabrics == 0 then n else MarkWitness(n, env) }

  function NoteLastFabricGone(n: Node, env: Env): Node {
    if !n.marker then n
    else
      var cleared := ClearWitness(n, env);
      cleared.(store := VoidNumbers(n.store, env.writes), drift := [])
  }

  function NoteFabrics(n: Node, env: Env): Node {
    var seen := n.(fabricCount := n.fabrics);
    if n.fabricCount == 0 && n.fabrics > 0 then seen.(events := n.events + [Commissioned])
    else if n.fabricCount > 0 && n.fabrics == 0 then
      var gone := NoteLastFabricGone(seen, env);
      gone.(events := gone.events + [Decommissioned])
    else seen
  }

  /** matter.js's table now holds `count` fabrics; emptying it erases matter.js's own store. */
  function SetFabrics(n: Node, count: nat, a: Allocation): Node {
    if n.fabrics > 0 && count == 0 then Erase(n, a) else n.(fabrics := count)
  }

  /** The `fabricsChanged` observer. */
  function FabricsChanged(n: Node, env: Env): Node { NoteFabrics(NoteWitness(n, env), env) }

  /** `remove_fabric`: the leave if the index has a fabric behind it, the observation if one
      arrives, then the re-check either way. */
  function RemoveFabric(n: Node, found: bool, observed: bool, a: Allocation, env: Env): Node {
    var left := if found && n.fabrics > 0 then SetFabrics(n, n.fabrics - 1, a) else n;
    NoteFabrics(if observed then FabricsChanged(left, env) else left, env)
  }

  function FactoryReset(n: Node, preserve: bool, a: Allocation, env: Env): Node {
    var cleared := ClearWitness(Erase(n, a), env);
    var kept := if preserve then cleared else cleared.(store := Discard(cleared.store, env.writes));
    var noted := NoteFabrics(kept.(drift := [], refusal := None), env);
    if preserve then noted.(store := VoidNumbers(noted.store, env.writes)) else noted
  }

  /** `factory_reset`: an erase that throws leaves everything as it was. */
  function ResetCommand(n: Node, preserve: bool, erased: Option<Allocation>, env: Env): Node {
    if erased.None? then n else FactoryReset(n, preserve, erased.value, env)
  }

  function RebuildCommand(n: Node, env: Env): Answer {
    if n.refusal == Some(IdentityUnreadable) then Answer(n, Refused)
    else
      var r := Rebuild(n.store, LiveNumbers(n.world), env.writes);
      if !r.persisted then Answer(n.(store := r.store), Aborted)
      else
        var served := n.(store := r.store, drift := [], refusal := None);
        Answer(if n.fabrics == 0 then ClearWitness(served, env) else served, Done)
  }

  // --- start ---------------------------------------------------------------

  function RefuseReasonFor(commissioned: bool, mapProblem: bool, marker: bool): Option<Reason> {
    if commissioned then (if mapProblem then Some(MapUnreadable) else None)
    else if marker then Some(FabricStorageLost) else None
  }

  /** The specs a start rebuilds: restorable entries of a role this build knows, all unreachable. */
  function RestoreSpecs(entries: seq<RestorableEndpoint>): seq<EndpointSpec> {
    if entries == [] then []
    else
      var init := RestoreSpecs(entries[..|entries| - 1]);
      var e := entries[|entries| - 1];
      if Supported(e.role) then init + [EndpointSpec(e.device, e.role, e.name, false, e.battery, e.uniqueId)] else init
  }

  /** A new process over the same storage. An unreadable identity is replaced in memory by a
      fresh one, which was never commissioned. */
  function NewProcess(n: Node, readable: bool): Node {
    var w := n.world;
    Node(World(map[], map[], map[], w.numbers, w.nextNumber, w.nextHandle, 0, w.tick),
         Store(map[], false, false, false, false, n.store.disk, n.store.tick),
         if readable then None else Some(IdentityUnreadable), [],
         n.fabrics, 0, readable && n.markerOnDisk, n.markerOnDisk, n.identityTick, map[], [])
  }

  function RestoreEndpoints(n: Node, order: seq<string>, env: Env): Node
    requires forall id :: id in order ==> id in n.store.endpoints
  {
    if n.refusal.Some? || n.store.problem then n
    else n.(world := Restore(n.world, RestoreSpecs(Restorables(n.store.endpoints, order)), env.fate).world)
  }

  /** `assertEndpointIdentity`: refuse, or serve (bootstrapping a map that never existed). */
  function AssertIdentity(n: Node, env: Env): Node {
    if n.refusal.Some? then n
    else
      var reason := RefuseReasonFor(n.fabrics > 0, n.store.problem, n.marker);
      if reason.Some? then n.(refusal := reason)
      else
        var seeded := if n.fabrics > 0 && !n.store.present && Seed(n.store, [], env.writes).Some?
                      then n.(store := Seed(n.store, [], env.writes).value) else n;
        NoteWitness(seeded, env)
  }

  ghost function Withdraw(n: Node, order: seq<string>, env: Env): Node {
    if n.refusal.None? || n.world.live == map[] then n
    else n.(world := ReconcileTo(n.world, [], true, order, env.fate).world)
  }

  /** `start`, on a new process: `order` visits the map, `withdrawal` the restored live set. */
  ghost function Start(n: Node, order: seq<string>, withdrawal: seq<string>, env: Env): Node
    requires forall id :: id in order ==> id in Load(n.store.disk).endpoints
  {
    var restored := RestoreEndpoints(n.(store := LoadStore(n.store)), order, env);
    Withdraw(AssertIdentity(restored.(fabricCount := restored.fabrics), env), withdrawal, env)
  }

  // --- the gate ------------------------------------------------------------

  const RECOVERY_COMMANDS: set<string> := {"get_status", "get_pairing", "rebuild_endpoint_map"}

  datatype Gate = Accepted | EndpointMapInvalid | NotAttached

  /** The two gates every client frame passes, refusal first. */
  function GateFor(refusal: Option<Reason>, attached: bool, command: string): Gate {
    if refusal.Some? then (if command in RECOVERY_COMMANDS then Accepted else EndpointMapInvalid)
    else if command != "attach" && !attached then NotAttached
    else Accepted
  }

  datatype Command =
    | AttachCmd(desired: seq<EndpointSpec>, replaceAll: bool, order: seq<string>)
    | UpsertCmd(spec: EndpointSpec)
    | RemoveCmd(device: int)
    | RemoveFabricCmd(found: bool, observed: bool, allocation: Allocation)
    | ResetCmd(preserve: bool, erased: Option<Allocation>)
    | RebuildCmd

  function NameOf(c: Command): string {
    match c
    case AttachCmd(_, _, _) => "attach"
    case UpsertCmd(_) => "upsert_endpoint"
    case RemoveCmd(_) => "remove_endpoint"
    case RemoveFabricCmd(_, _, _) => "remove_fabric"
    case ResetCmd(_, _) => "factory_reset"
    case RebuildCmd => "rebuild_endpoint_map"
  }

  ghost function Execute(n: Node, c: Command, env: Env): Node {
    match c
    case AttachCmd(desired, replaceAll, order) => Attach(n, desired, replaceAll, order, env).node
    case UpsertCmd(spec) => UpsertCommand(n, spec, env).node
    case RemoveCmd(device) => RemoveCommand(n, device, env).node
    case RemoveFabricCmd(found, observed, a) => RemoveFabric(n, found, observed, a, env)
    case ResetCmd(preserve, erased) => ResetCommand(n, preserve, erased, env)
    case RebuildCmd => RebuildCommand(n, env).node
  }

  ghost function Serve(n: Node, attached: bool, c: Command, env: Env): Node {
    if GateFor(n.refusal, attached, NameOf(c)) == Accepted then Execute(n, c, env) else n
  }

  // --- the same, in place --------------------------------------------------

  class BridgeNode {
    const env: Env
    const registry: EndpointRegistry
    const store: EndpointMapStore
    var refusal: Option<Reason>
    var drift: seq<DriftEntry>
    var fabrics: nat
    var fabricCount: nat
    var marker: bool
    var markerOnDisk: bool
    var identityTick: nat
    var lastRemoved: map<int, string>
    var events: seq<Event>

    ghost function Now(): Node
      reads this, registry, store
    {
      Node(registry.Now(), store.Now(), refusal, drift, fabrics, fabricCount, marker, markerOnDisk, identityTick,
           lastRemoved, events)
    }

    /** The parts share the node's environment. */
    ghost predicate Wired() { registry.fate == env.fate && store.writes == env.writes }

    constructor (env: Env, storage: Node, readable: bool)
      ensures Now() == NewProcess(storage, readable) && Wired() && this.env == env && fresh(registry) && fresh(store)
    {
      this.env := env;
      registry := new EndpointRegistry(env.fate, storage.world.numbers, storage.world.nextNumber,
                                       storage.world.nextHandle, storage.world.tick);
      store := new EndpointMapStore(storage.store.disk, env.writes, storage.store.tick);
      refusal := if readable then None else Some(IdentityUnreadable);
      drift, fabrics, fabricCount := [], storage.fabrics, 0;
      marker, markerOnDisk := readable && storage.markerOnDisk, storage.markerOnDisk;
      identityTick := storage.identityTick;
      lastRemoved, events := map[], [];
    }

    function NumberFor(id: string): nat
      reads registry
    {
      if id in registry.numbers then registry.numbers[id] else 0
    }

    method LiveIdentities() returns (live: seq<LiveNumber>)
      ensures live == LiveNumbers(registry.Now())
    {
      var devices := SortedDevices(registry.live.Keys);
      live := [];
      for i := 0 to |devices|
        invariant |live| == i
        invariant forall k :: 0 <= k < i ==> live[k] == LiveNumberOf(registry.Now(), devices[k])
      {
        var e := registry.live[devices[i]];
        live := live + [LiveNumber(e.publishedAs, NumberFor(e.publishedAs), Some(e.role), Some(e.name),
                                   Some(e.battery), Some(devices[i]))];
      }
    }

    method CheckDriftNow()
      requires Wired()
      modifies this, store
      ensures Now() == CheckDrift(old(Now()), env)
    {
      var live := LiveIdentities();
      drift := store.CheckLive(live);
      if |drift| > 0 { events := events + [DriftDetected]; }
    }

    /** `forgetRemoved`: what this mutation took away, measured against the live set before it. */
    method ForgetRemovedNow(before: seq<Driven>, hard: bool)
      requires Wired()
      modifies this`lastRemoved, store
      ensures Now() == ForgetRemoved(old(Now()), before, hard, env)
    {
      var live := registry.live;
      var after := set d | d in live :: live[d].publishedAs;
      var departures := Departures(before, live, after, hard);
      var ordinary: seq<string> := [];
      for i := 0 to |departures|
        invariant ForgetEach(Forgetting(old(store.Now()), old(lastRemoved), []), departures, hard, env.writes)
               == ForgetEach(Forgetting(store.Now(), lastRemoved, ordinary), departures[i..], hard, env.writes)
      {
        var d := departures[i];
        if d.successor.Some? {
          store.ForgetThese([d.id], d.successor);
        } else {
          ordinary := ordinary + [d.id];
          if !hard && !d.replaced { lastRemoved := lastRemoved[d.device := d.id]; }
        }
      }
      if hard {
        store.DestroyThese(ordinary);
      } else {
        store.ForgetThese(ordinary, None);
      }
    }

    method NoteSupersessionNow(spec: EndpointSpec)
      requires Wired()
      modifies this`lastRemoved, store
      ensures Now() == NoteSupersession(old(Now()), spec, env)
    {
      var remembered := if spec.device in lastRemoved then Some(lastRemoved[spec.device]) else None;
      lastRemoved := lastRemoved - {spec.device};
      if remembered.Some? && Supersedes(remembered.value, spec.publishedAs) {
        store.ForgetThese([remembered.value], Some(spec.publishedAs));
      }
    }

    /** `reconcile` from its turn in the queue on, with the snapshot it arrived with; the order in
        which the live map was visited is returned. */
    method ReconcileFrom(before: seq<Driven>, desired: seq<EndpointSpec>, replaceAll: bool)
      returns (verdict: Verdict, order: seq<string>)
      requires Wired() && DistinctLive(registry.live)
      modifies this, registry, store
      ensures Enumerates(order, LiveComposition(old(registry.live)))
      ensures Answer(Now(), verdict) == AttachFrom(old(Now()), before, desired, replaceAll, order, env)
    {
      verdict, order := registry.ReconcileNow(desired, replaceAll);
      ForgetRemovedNow(before, false);
      CheckDriftNow();
    }

    method Reconcile(desired: seq<EndpointSpec>, replaceAll: bool) returns (verdict: Verdict, order: seq<string>)
      requires Wired() && DistinctLive(registry.live)
      modifies this, registry, store
      ensures Enumerates(order, LiveComposition(old(registry.live)))
      ensures Answer(Now(), verdict) == Attach(old(Now()), desired, replaceAll, order, env)
    {
      var before := LiveDriven(registry.live);
      verdict, order := ReconcileFrom(before, desired, replaceAll);
    }

    method UpsertEndpoint(spec: EndpointSpec) returns (verdict: Verdict)
      requires Wired() && DistinctLive(registry.live)
      modifies this, registry, store
      ensures Answer(Now(), verdict) == UpsertCommand(old(Now()), spec, env)
    {
      verdict := registry.UpsertEndpoint(spec);
      CheckDriftNow();
      if verdict == Done { NoteSupersessionNow(spec); }
    }

    method RemoveEndpointFrom(before: seq<Driven>, device: int) returns (verdict: Verdict)
      requires Wired()
      modifies this, registry, store
      ensures Answer(Now(), verdict) == RemoveFrom(old(Now()), before, device, env)
    {
      verdict := registry.RemoveEndpoint(device);
      ForgetRemovedNow(before, true);
      CheckDriftNow();
    }

    method RemoveEndpoint(device: int) returns (verdict: Verdict)
      requires Wired()
      modifies this, registry, store
      ensures Answer(Now(), verdict) == RemoveCommand(old(Now()), device, env)
    {
      var before := LiveDriven(registry.live);
      verdict := RemoveEndpointFrom(before, device);
    }

    method Mark()
      modifies this
      ensures Now() == MarkWitness(old(Now()), env)
    {
      if marker { return; }
      marker, markerOnDisk := true, env.identityWrites(identityTick) || markerOnDisk;
      identityTick := identityTick + 1;
    }

    method Clear()
      modifies this
      ensures Now() == ClearWitness(old(Now()), env)
    {
      if !marker { return; }
      marker, markerOnDisk := false, !env.identityWrites(identityTick) && markerOnDisk;
      identityTick := identityTick + 1;
    }

    method NoteCommissioningWitness()
      modifies this
      ensures Now() == NoteWitness(old(Now()), env)
    {
      if marker || fabrics == 0 { return; }
      Mark();
    }

    method NoteLastFabricGoneNow()
      requires Wired()
      modifies this, store
      ensures Now() == NoteLastFabricGone(old(Now()), env)
    {
      if !marker { return; }
      Clear();
      var _ := store.VoidEvery();
      drift := [];
    }

    method NoteFabricsNow()
      requires Wired()
      modifies this, store
      ensures Now() == NoteFabrics(old(Now()), env)
    {
      var was := fabricCount;
      fabricCount := fabrics;
      if was == 0 && fabrics > 0 {
        events := events + [Commissioned];
      } else if was > 0 && fabrics == 0 {
        NoteLastFabricGoneNow();
        events := events + [Decommissioned];
      }
    }

    method EraseNow(a: Allocation)
      modifies this`fabrics, registry
      ensures Now() == Erase(old(Now()), a)
    {
      fabrics := 0;
      registry.numbers, registry.nextNumber := a.numbers, a.next;
    }

    method FactoryResetNow(preserve: bool, erased: Option<Allocation>)
      requires Wired()
      modifies this, registry, store
      ensures Now() == ResetCommand(old(Now()), preserve, erased, env)
    {
      if erased.None? { return; }
      EraseNow(erased.value);
      Clear();
      if !preserve {
        var _ := store.DiscardAll();
      }
      drift, refusal := [], None;
      NoteFabricsNow();
      if preserve {
        var _ := store.VoidEvery();
      }
    }

    method RebuildEndpointMap() returns (verdict: Verdict)
      requires Wired()
      modifies this, store
      ensures Answer(Now(), verdict) == RebuildCommand(old(Now()), env)
    {
      if refusal == Some(IdentityUnreadable) { return Refused; }
      var live := LiveIdentities();
      var persisted := store.RebuildFrom(live);
      if !persisted { return Aborted; }
      drift, refusal := [], None;
      if fabrics == 0 { Clear(); }
      verdict := Done;
    }

    method RestoreEndpointsNow() returns (order: seq<string>)
      requires Wired()
      modifies registry
      ensures Visits(order, store.endpoints)
      ensures Now() == RestoreEndpoints(old(Now()), order, env)
    {
      var entries;
      entries, order := store.ListRestorable();
      if refusal.Some? || store.problem { return; }
      var specs: seq<EndpointSpec> := [];
      for i := 0 to |entries|
        invariant specs == RestoreSpecs(entries[..i])
      {
        assert entries[..i + 1][..i] == entries[..i];
        var e := entries[i];
        if Supported(e.role) {
          specs := specs + [EndpointSpec(e.device, e.role, e.name, false, e.battery, e.uniqueId)];
        }
      }
      assert entries[..|entries|] == entries;
      var _ := registry.RestoreAll(specs);
    }

    method AssertEndpointIdentity()
      requires Wired()
      modifies this, store
      ensures Now() == AssertIdentity(old(Now()), env)
    {
      if refusal.Some? { return; }
      var reason := RefuseReasonFor(fabrics > 0, store.problem, marker);
      if reason.Some? {
        refusal := reason;
        return;
      }
      if fabrics > 0 && !store.present {
        var _, _ := store.SeedFrom([]);
      }
      NoteCommissioningWitness();
    }

    method WithdrawRestoredIfRefusing() returns (order: seq<string>)
      requires Wired() && DistinctLive(registry.live)
      modifies registry
      ensures Enumerates(order, LiveComposition(old(registry.live)))
      ensures Now() == Withdraw(old(Now()), order, env)
    {
      if refusal.None? || |registry.live| == 0 {
        var composition;
        composition, order := registry.ComposeLive();
        return;
      }
      var verdict;
      verdict, order := registry.ReconcileNow([], true);
    }

    /** `start`, on the node just constructed over its storage. */
    method StartNow() returns (order: seq<string>, withdrawal: seq<string>)
      requires Wired() && registry.live == map[]
      modifies this, registry, store
      ensures Visits(order, Load(old(store.disk)).endpoints)
      ensures Now() == Start(old(Now()), order, withdrawal, env)
      ensures var loaded := old(Now()).(store := LoadStore(old(Now()).store));
              Enumerates(withdrawal, LiveComposition(RestoreEndpoints(loaded, order, env).world.live))
    {
      store.LoadFile();
      ghost var before := registry.Now();
      order := RestoreEndpointsNow();
      RestoreWithin(before, RestoreSpecs(Restorables(store.endpoints, order)), env.fate);
      fabricCount := fabrics;
      AssertEndpointIdentity();
      withdrawal := WithdrawRestoredIfRefusing();
    }
  }
}
