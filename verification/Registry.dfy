/** The live endpoint set (`registry.ts`): the aggregator's children, the registry's own
    map of who drives what, and the command sinks, changed together by every operation.
    Each operation is first a function from world to world, then a method that does it in
    place and is proved to compute that function. */
module Registry {
  import opened Protocol
  import opened Reconcile

  /** What the registry remembers of one live endpoint; `endpoint` names the object. */
  datatype LiveEntry = LiveEntry(endpoint: nat, role: string, name: string, battery: bool, publishedAs: string)

  /** What matter.js will answer at each tick: any pattern of failed adds, closes,
      attribute writes, colour-temperature bounds writes and subscriptions. `labelled` says
      whether the live cluster already reads both wanted labels, which a controller may have
      changed. */
  datatype Fate = Fate(adds: nat -> bool, closes: nat -> bool, sets: nat -> bool, bounds: nat -> bool,
                       watches: nat -> bool, labelled: nat -> bool)

  datatype World = World(
    live: map<int, LiveEntry>,      // device -> the endpoint it drives
    children: map<string, nat>,     // the aggregator: Endpoint.id -> endpoint object
    sinks: map<string, int>,        // command sinks: Endpoint.id -> device
    numbers: map<string, nat>,      // matter.js's persisted Endpoint.id -> number
    nextNumber: nat, nextHandle: nat,
    bumps: nat,                     // how often the configuration-change hook fired
    tick: nat)

  datatype Step = Step(world: World, ok: bool)

  // --- queries -------------------------------------------------------------

  ghost function Ids(live: map<int, LiveEntry>): set<string> { set d | d in live :: live[d].publishedAs }

  ghost predicate DistinctLive(live: map<int, LiveEntry>) {
    forall d, e :: d in live && e in live && live[d].publishedAs == live[e].publishedAs ==> d == e
  }

  ghost function DeviceFor(live: map<int, LiveEntry>, id: string): (r: Option<int>)
    ensures r.Some? ==> r.value in live && live[r.value].publishedAs == id
    ensures r.None? <==> id !in Ids(live)
  {
    if d :| d in live && live[d].publishedAs == id then Some(d) else None
  }

  function CompositionOf(device: int, e: LiveEntry): Composition { Composition(device, e.role, e.battery) }

  ghost function LiveComposition(live: map<int, LiveEntry>): map<string, Composition> {
    map id | id in Ids(live) :: CompositionOf(DeviceFor(live, id).value, live[DeviceFor(live, id).value])
  }

  // --- one endpoint --------------------------------------------------------

  function Watch(w: World, id: string, device: int, fate: Fate): Step {
    if fate.watches(w.tick) then Step(w.(sinks := w.sinks[id := device], tick := w.tick + 1), true)
    else Step(w.(sinks := w.sinks - {id}, tick := w.tick + 1), false)
  }

  function Unwatch(w: World, id: string): World { w.(sinks := w.sinks - {id}) }

  /** matter.js hands an id its persisted number, or a fresh one the first time. */
  function Added(w: World, id: string): World {
    w.(children := w.children[id := w.nextHandle], nextHandle := w.nextHandle + 1,
       numbers := if id in w.numbers then w.numbers else w.numbers[id := w.nextNumber],
       nextNumber := if id in w.numbers then w.nextNumber else w.nextNumber + 1,
       tick := w.tick + 1)
  }

  function EntryFor(spec: EndpointSpec, endpoint: nat): LiveEntry {
    LiveEntry(endpoint, spec.role, spec.name, spec.battery, spec.publishedAs)
  }

  function Create(w: World, spec: EndpointSpec, fate: Fate): Step {
    if !fate.adds(w.tick) || spec.publishedAs in w.children then Step(w.(tick := w.tick + 1), false)
    else
      var watched := Watch(Added(w, spec.publishedAs), spec.publishedAs, spec.device, fate);
      if watched.ok then
        Step(watched.world.(live := w.live[spec.device := EntryFor(spec, w.nextHandle)]), true)
      else
        var t := watched.world.tick;
        Step(watched.world.(tick := t + 1,
               children := if fate.closes(t) then watched.world.children - {spec.publishedAs}
                           else watched.world.children),
             false)
  }

  /** Label if it differs, reachability, colour-temperature bounds (whose failure is caught and
      costs nothing here), then states. */
  function Update(w: World, spec: EndpointSpec, fate: Fate): Step {
    if spec.device !in w.live then Step(w, false)
    else if !fate.labelled(w.tick) && !fate.sets(w.tick) then Step(w.(tick := w.tick + 1), false)
    else
      var named := w.(live := w.live[spec.device := w.live[spec.device].(name := spec.name)], tick := w.tick + 1);
      if !fate.sets(named.tick) then Step(named.(tick := named.tick + 1), false)
      else Step(named.(tick := named.tick + 3), fate.sets(named.tick + 2))
  }

  function CloseOne(w: World, device: int, fate: Fate): Step
    requires device in w.live
  {
    var id := w.live[device].publishedAs;
    var quiet := Unwatch(w, id).(tick := w.tick + 1);
    if fate.closes(w.tick) then Step(quiet.(children := w.children - {id}, live := w.live - {device}), true)
    else Step(Watch(quiet, id, device, fate).world, false)
  }

  /** A rekey between its two phases: the entry is out of `live`, held here. */
  datatype Stashed = Stashed(spec: EndpointSpec, from: int, entry: LiveEntry)

  function RekeyOne(w: World, s: Stashed, fate: Fate): Step {
    if s.spec.device in w.live then Step(w, false)
    else
      var watched := Watch(Unwatch(w, s.entry.publishedAs), s.spec.publishedAs, s.spec.device, fate);
      if watched.ok then
        Update(watched.world.(live := w.live[s.spec.device := s.entry]), s.spec, fate)
      else
        var back := Watch(watched.world, s.entry.publishedAs, s.from, fate);
        Step(if back.ok then back.world.(live := w.live[s.from := s.entry]) else back.world, false)
  }

  // --- batches -------------------------------------------------------------

  datatype Batch = Batch(world: World, ok: bool, touched: bool)

  function RemoveMany(w: World, devices: seq<int>, touched: bool, fate: Fate): Batch
    decreases |devices|
  {
    if devices == [] then Batch(w, true, touched)
    else if devices[0] !in w.live then RemoveMany(w, devices[1..], touched, fate)
    else
      var closed := CloseOne(w, devices[0], fate);
      if closed.ok then RemoveMany(closed.world, devices[1..], true, fate) else Batch(closed.world, false, touched)
  }

  datatype Vacated = Vacated(world: World, ok: bool, stash: seq<Stashed>)

  /** Phase 1 of the rekeys: free every key before any target is claimed. */
  function Vacate(w: World, rekeys: seq<Rekey>, stash: seq<Stashed>): Vacated
    decreases |rekeys|
  {
    if rekeys == [] then Vacated(w, true, stash)
    else if rekeys[0].from !in w.live then Vacated(w, false, stash)
    else Vacate(w.(live := w.live - {rekeys[0].from}), rekeys[1..],
                stash + [Stashed(rekeys[0].spec, rekeys[0].from, w.live[rekeys[0].from])])
  }

  /** Phase 2. */
  function RekeyAll(w: World, stash: seq<Stashed>, fate: Fate): Step
    decreases |stash|
  {
    if stash == [] then Step(w, true)
    else
      var r := RekeyOne(w, stash[0], fate);
      if r.ok then RekeyAll(r.world, stash[1..], fate) else r
  }

  function CreateAll(w: World, specs: seq<EndpointSpec>, touched: bool, fate: Fate): Batch
    decreases |specs|
  {
    if specs == [] then Batch(w, true, touched)
    else
      var c := Create(w, specs[0], fate);
      if c.ok then CreateAll(c.world, specs[1..], true, fate) else Batch(c.world, false, touched)
  }

  function UpdateAll(w: World, specs: seq<EndpointSpec>, fate: Fate): Step
    decreases |specs|
  {
    if specs == [] then Step(w, true)
    else
      var u := Update(w, specs[0], fate);
      if u.ok then UpdateAll(u.world, specs[1..], fate) else u
  }

  // --- the commands --------------------------------------------------------

  datatype Verdict = Done | Refused | Aborted

  datatype Outcome = Outcome(world: World, verdict: Verdict)

  function Bump(w: World): World { w.(bumps := w.bumps + 1) }

  function Abort(b: Batch): Outcome { Outcome(if b.touched then Bump(b.world) else b.world, Aborted) }

  /** The devices now driving these identities; one that is not live is skipped. */
  ghost function Resolve(live: map<int, LiveEntry>, ids: seq<string>): seq<int> {
    if ids == [] then [] else
      match DeviceFor(live, ids[0])
      case None => Resolve(live, ids[1..])
      case Some(d) => [d] + Resolve(live, ids[1..])
  }

  function SpecIds(specs: seq<EndpointSpec>): (r: seq<string>)
    ensures |r| == |specs| && forall i :: 0 <= i < |r| ==> r[i] == specs[i].publishedAs
  {
    seq(|specs|, i requires 0 <= i < |specs| => specs[i].publishedAs)
  }

  ghost function Removals(live: map<int, LiveEntry>, plan: Plan): seq<int> {
    Resolve(live, plan.remove) + Resolve(live, SpecIds(plan.recreate))
  }

  /** Removals, then rekeys in two phases, then creates, then updates. */
  ghost function Apply(w: World, plan: Plan, fate: Fate): Outcome {
    var removed := RemoveMany(w, Removals(w.live, plan), false, fate);
    if !removed.ok then Abort(removed) else
      var vacated := Vacate(removed.world, plan.rekey, []);
      if !vacated.ok then Abort(Batch(vacated.world, false, removed.touched)) else
        var rekeyed := RekeyAll(vacated.world, vacated.stash, fate);
        if !rekeyed.ok then Abort(Batch(rekeyed.world, false, removed.touched)) else
          var created := CreateAll(rekeyed.world, plan.create + plan.recreate, removed.touched, fate);
          if !created.ok then Abort(created) else
            var updated := UpdateAll(created.world, plan.update, fate);
            if !updated.ok then Abort(Batch(updated.world, false, created.touched))
            else Outcome(if plan.create != [] || plan.recreate != [] || plan.remove != []
                         then Bump(updated.world) else updated.world, Done)
  }

  /** `reconcile`: `order` is how the live map is iterated. */
  ghost function ReconcileTo(w: World, desired: seq<EndpointSpec>, replaceAll: bool, order: seq<string>,
                             fate: Fate): Outcome {
    if exists s :: s in desired && !Supported(s.role) then Outcome(w, Refused)
    else if MassRemoval(LiveComposition(w.live), desired, replaceAll) then Outcome(w, Refused)
    else Apply(w, PlanOf(LiveComposition(w.live), order, desired), fate)
  }

  /** `upsert_endpoint`. */
  ghost function Upsert(w: World, spec: EndpointSpec, fate: Fate): Outcome {
    if !Supported(spec.role) then Outcome(w, Refused)
    else if spec.device !in w.live then
      if spec.publishedAs in Ids(w.live) then Outcome(w, Refused)
      else
        var c := Create(w, spec, fate);
        if c.ok then Outcome(Bump(c.world), Done) else Outcome(c.world, Aborted)
    else
      var e := w.live[spec.device];
      if e.publishedAs != spec.publishedAs || e.role != spec.role then Outcome(w, Refused)
      else if spec.battery && !e.battery then
        var closed := CloseOne(w, spec.device, fate);
        if !closed.ok then Outcome(closed.world, Aborted)
        else
          var c := Create(closed.world, spec, fate);
          Outcome(Bump(c.world), if c.ok then Done else Aborted)
      else
        var u := Update(w, spec, fate);
        Outcome(u.world, if u.ok then Done else Aborted)
  }

  /** `remove_endpoint`; removing what is not live is a success that changes nothing. */
  function Remove(w: World, device: int, fate: Fate): Outcome {
    if device !in w.live then Outcome(w, Done) else
      var closed := CloseOne(w, device, fate);
      if closed.ok then Outcome(Bump(closed.world), Done) else Outcome(closed.world, Aborted)
  }

  datatype Restored = Restored(world: World, count: nat)

  /** `restore`: whatever cannot be created is skipped. */
  function Restore(w: World, specs: seq<EndpointSpec>, fate: Fate): Restored
    decreases |specs|
  {
    if specs == [] then Restored(w, 0) else
      var c := Create(w, specs[0], fate);
      var rest := Restore(c.world, specs[1..], fate);
      if c.ok then Restored(rest.world, rest.count + 1) else rest
  }

  /** Live identities are distinct and each is one of the aggregator's. Unlike agreement of
      all three views this holds whatever fails and whatever is restored. */
  ghost predicate LiveWithin(w: World) { DistinctLive(w.live) && Ids(w.live) <= w.children.Keys }

  lemma CreateWithin(w: World, spec: EndpointSpec, fate: Fate)
    requires LiveWithin(w)
    ensures LiveWithin(Create(w, spec, fate).world)
  {
    var v := Create(w, spec, fate).world;
    if Create(w, spec, fate).ok {
      forall d | d in v.live && d != spec.device ensures v.live[d].publishedAs != spec.publishedAs {
        assert w.live[d].publishedAs in Ids(w.live);
      }
    } else {
      assert v.live == w.live;
      assert spec.publishedAs !in w.children ==> spec.publishedAs !in Ids(w.live);
    }
  }

  lemma {:induction false} RestoreWithin(w: World, specs: seq<EndpointSpec>, fate: Fate)
    requires LiveWithin(w)
    ensures LiveWithin(Restore(w, specs, fate).world)
    decreases |specs|
  {
    if specs != [] {
      CreateWithin(w, specs[0], fate);
      RestoreWithin(Create(w, specs[0], fate).world, specs[1..], fate);
    }
  }

  // --- the same, in place --------------------------------------------------

  class EndpointRegistry {
    var live: map<int, LiveEntry>
    var children: map<string, nat>
    var sinks: map<string, int>
    var numbers: map<string, nat>
    var nextNumber: nat
    var nextHandle: nat
    var bumps: nat
    var tick: nat
    const fate: Fate

    ghost function Now(): World
      reads this
    {
      World(live, children, sinks, numbers, nextNumber, nextHandle, bumps, tick)
    }

    constructor (fate: Fate, numbers: map<string, nat>, nextNumber: nat, nextHandle: nat, tick: nat)
      ensures Now() == World(map[], map[], map[], numbers, nextNumber, nextHandle, 0, tick)
      ensures this.fate == fate
    {
      live, children, sinks, bumps := map[], map[], map[], 0;
      this.fate, this.numbers, this.nextNumber := fate, numbers, nextNumber;
      this.nextHandle, this.tick := nextHandle, tick;
    }

    method DeviceIdFor(id: string) returns (r: Option<int>)
      requires DistinctLive(live)
      ensures r == DeviceFor(live, id)
    {
      var left := live.Keys;
      while |left| != 0
        invariant left <= live.Keys
        invariant forall d :: d in live && d !in left ==> live[d].publishedAs != id
      {
        SomeNumber(left);
        var d :| d in left;
        if live[d].publishedAs == id { return Some(d); }
        left := left - {d};
      }
      r := None;
    }

    /** `liveComposition`, together with the order in which the map was visited. */
    method ComposeLive() returns (composition: map<string, Composition>, order: seq<string>)
      requires DistinctLive(live)
      ensures composition == LiveComposition(live) && Enumerates(order, composition)
    {
      composition, order := map[], [];
      var left := live.Keys;
      while |left| != 0
        invariant left <= live.Keys
        invariant forall id :: id in composition ==>
                    var d := composition[id].device;
                    d in live && d !in left && live[d].publishedAs == id && composition[id] == CompositionOf(d, live[d])
        invariant forall d :: d in live && d !in left ==> live[d].publishedAs in composition
        invariant Enumerates(order, composition)
      {
        SomeNumber(left);
        var d :| d in left;
        assert live[d].publishedAs !in composition;
        composition := composition[live[d].publishedAs := CompositionOf(d, live[d])];
        assert live[d].publishedAs !in order;
        order := order + [live[d].publishedAs];
        left := left - {d};
      }
      assert composition.Keys == Ids(live);
    }

    method WatchCommands(id: string, device: int) returns (ok: bool)
      modifies this`sinks, this`tick
      ensures Step(Now(), ok) == Watch(old(Now()), id, device, fate)
    {
      sinks := sinks[id := device];
      ok := fate.watches(tick);
      tick := tick + 1;
      if !ok { sinks := sinks - {id}; }
    }

    method CreateEndpoint(spec: EndpointSpec) returns (ok: bool)
      modifies this
      ensures Step(Now(), ok) == Create(old(Now()), spec, fate)
    {
      var added := fate.adds(tick) && spec.publishedAs !in children;
      tick := tick + 1;
      if !added { return false; }
      var endpoint := nextHandle;
      children, nextHandle := children[spec.publishedAs := endpoint], nextHandle + 1;
      if spec.publishedAs !in numbers {
        numbers, nextNumber := numbers[spec.publishedAs := nextNumber], nextNumber + 1;
      }
      assert Now() == Added(old(Now()), spec.publishedAs);
      ok := WatchCommands(spec.publishedAs, spec.device);
      if !ok {
        if fate.closes(tick) { children := children - {spec.publishedAs}; }
        tick := tick + 1;
        return;
      }
      live := live[spec.device := EntryFor(spec, endpoint)];
    }

    method UpdateEndpoint(spec: EndpointSpec) returns (ok: bool)
      modifies this`live, this`tick
      ensures Step(Now(), ok) == Update(old(Now()), spec, fate)
    {
      if spec.device !in live { return false; }
      if !fate.labelled(tick) && !fate.sets(tick) {
        tick := tick + 1;
        return false;
      }
      live, tick := live[spec.device := live[spec.device].(name := spec.name)], tick + 1;
      ok := fate.sets(tick);          // reachability
      tick := tick + 1;
      if !ok { return; }
      var _ := fate.bounds(tick);     // bounds, caught
      tick := tick + 1;
      ok := fate.sets(tick);          // states
      tick := tick + 1;
    }

    method CloseEndpoint(device: int) returns (ok: bool)
      requires device in live
      modifies this
      ensures Step(Now(), ok) == CloseOne(old(Now()), device, fate)
    {
      var id := live[device].publishedAs;
      sinks := sinks - {id};
      ok := fate.closes(tick);
      tick := tick + 1;
      if !ok {
        var _ := WatchCommands(id, device);
        return;
      }
      children := children - {id};
      live := live - {device};
    }

    method RekeyEndpoint(s: Stashed) returns (ok: bool)
      modifies this
      ensures Step(Now(), ok) == RekeyOne(old(Now()), s, fate)
    {
      if s.spec.device in live { return false; }
      sinks := sinks - {s.entry.publishedAs};
      ok := WatchCommands(s.spec.publishedAs, s.spec.device);
      if !ok {
        var back := WatchCommands(s.entry.publishedAs, s.from);
        if back { live := live[s.from := s.entry]; }
        return;
      }
      live := live[s.spec.device := s.entry];
      ok := UpdateEndpoint(s.spec);
    }

    method RemoveEach(devices: seq<int>) returns (ok: bool, touched: bool)
      modifies this
      ensures Batch(Now(), ok, touched) == RemoveMany(old(Now()), devices, false, fate)
    {
      touched := false;
      for i := 0 to |devices|
        invariant RemoveMany(old(Now()), devices, false, fate) == RemoveMany(Now(), devices[i..], touched, fate)
      {
        if devices[i] in live {
          ok := CloseEndpoint(devices[i]);
          if !ok { return; }
          touched := true;
        }
      }
      ok := true;
    }

    method VacateEach(rekeys: seq<Rekey>) returns (ok: bool, stash: seq<Stashed>)
      modifies this`live
      ensures Vacated(Now(), ok, stash) == Vacate(old(Now()), rekeys, [])
    {
      stash := [];
      for i := 0 to |rekeys|
        invariant Vacate(old(Now()), rekeys, []) == Vacate(Now(), rekeys[i..], stash)
      {
        if rekeys[i].from !in live { return false, stash; }
        stash := stash + [Stashed(rekeys[i].spec, rekeys[i].from, live[rekeys[i].from])];
        live := live - {rekeys[i].from};
      }
      ok := true;
    }

    method RekeyEach(stash: seq<Stashed>) returns (ok: bool)
      modifies this
      ensures Step(Now(), ok) == RekeyAll(old(Now()), stash, fate)
    {
      for i := 0 to |stash|
        invariant RekeyAll(old(Now()), stash, fate) == RekeyAll(Now(), stash[i..], fate)
      {
        ok := RekeyEndpoint(stash[i]);
        if !ok { return; }
      }
      ok := true;
    }

    method CreateEach(specs: seq<EndpointSpec>, touchedBefore: bool) returns (ok: bool, touched: bool)
      modifies this
      ensures Batch(Now(), ok, touched) == CreateAll(old(Now()), specs, touchedBefore, fate)
    {
      touched := touchedBefore;
      for i := 0 to |specs|
        invariant CreateAll(old(Now()), specs, touchedBefore, fate) == CreateAll(Now(), specs[i..], touched, fate)
      {
        ok := CreateEndpoint(specs[i]);
        if !ok { return; }
        touched := true;
      }
      ok := true;
    }

    method UpdateEach(specs: seq<EndpointSpec>) returns (ok: bool)
      modifies this`live, this`tick
      ensures Step(Now(), ok) == UpdateAll(old(Now()), specs, fate)
    {
      for i := 0 to |specs|
        invariant UpdateAll(old(Now()), specs, fate) == UpdateAll(Now(), specs[i..], fate)
      {
        ok := UpdateEndpoint(specs[i]);
        if !ok { return; }
      }
      ok := true;
    }

    method ResolveEach(ids: seq<string>) returns (devices: seq<int>)
      requires DistinctLive(live)
      ensures devices == Resolve(live, ids)
    {
      devices := [];
      for i := 0 to |ids|
        invariant Resolve(live, ids) == devices + Resolve(live, ids[i..])
      {
        var d := DeviceIdFor(ids[i]);
        if d.Some? { devices := devices + [d.value]; }
      }
    }

    /** The part of `reconcileNow` between the plan and the abort handler. */
    method ApplyPlan(plan: Plan) returns (ok: bool, touched: bool)
      requires DistinctLive(live)
      modifies this
      ensures Apply(old(Now()), plan, fate) ==
              if !ok then Abort(Batch(Now(), ok, touched))
              else Outcome(if plan.create != [] || plan.recreate != [] || plan.remove != []
                           then Bump(Now()) else Now(), Done)
    {
      var removed := ResolveEach(plan.remove);
      var recreated := ResolveEach(SpecIds(plan.recreate));
      ok, touched := RemoveEach(removed + recreated);
      if !ok { return; }
      var stash;
      ok, stash := VacateEach(plan.rekey);
      if !ok { return; }
      ok := RekeyEach(stash);
      if !ok { return; }
      ok, touched := CreateEach(plan.create + plan.recreate, touched);
      if !ok { return; }
      ok := UpdateEach(plan.update);
    }

    method AllSupported(specs: seq<EndpointSpec>) returns (ok: bool)
      ensures ok <==> forall s :: s in specs ==> Supported(s.role)
    {
      for i := 0 to |specs|
        invariant forall k :: 0 <= k < i ==> Supported(specs[k].role)
      {
        if !Supported(specs[i].role) { return false; }
      }
      ok := true;
    }

    /** Everything after the gates, the abort handler included. */
    method RunPlan(plan: Plan) returns (verdict: Verdict)
      requires DistinctLive(live)
      modifies this
      ensures Outcome(Now(), verdict) == Apply(old(Now()), plan, fate)
    {
      var ok, touched := ApplyPlan(plan);
      if ok { touched := plan.create != [] || plan.recreate != [] || plan.remove != []; }
      if touched { bumps := bumps + 1; }
      verdict := if ok then Done else Aborted;
    }

    /** `reconcileNow`. */
    method ReconcileNow(desired: seq<EndpointSpec>, replaceAll: bool) returns (verdict: Verdict, order: seq<string>)
      requires DistinctLive(live)
      modifies this
      ensures Enumerates(order, LiveComposition(old(live)))
      ensures Outcome(Now(), verdict) == ReconcileTo(old(Now()), desired, replaceAll, order, fate)
    {
      var composition;
      composition, order := ComposeLive();
      var supported := AllSupported(desired);
      if !supported { return Refused, order; }
      var plan := PlanReconcile(composition, order, desired, replaceAll);
      if plan.None? { return Refused, order; }
      verdict := RunPlan(plan.value);
    }

    method UpsertEndpoint(spec: EndpointSpec) returns (verdict: Verdict)
      requires DistinctLive(live)
      modifies this
      ensures Outcome(Now(), verdict) == Upsert(old(Now()), spec, fate)
    {
      if !Supported(spec.role) { return Refused; }
      var ok;
      if spec.device !in live {
        var claimedBy := DeviceIdFor(spec.publishedAs);
        if claimedBy.Some? { return Refused; }
        ok := CreateEndpoint(spec);
        if !ok { return Aborted; }
        bumps := bumps + 1;
        return Done;
      }
      var existing := live[spec.device];
      if existing.publishedAs != spec.publishedAs { return Refused; }
      if existing.role != spec.role { return Refused; }
      if spec.battery && !existing.battery {
        ok := CloseEndpoint(spec.device);
        if !ok { return Aborted; }
        ok := CreateEndpoint(spec);
        bumps := bumps + 1;
        return if ok then Done else Aborted;
      }
      ok := UpdateEndpoint(spec);
      verdict := if ok then Done else Aborted;
    }

    method RemoveEndpoint(device: int) returns (verdict: Verdict)
      modifies this
      ensures Outcome(Now(), verdict) == Remove(old(Now()), device, fate)
    {
      if device !in live { return Done; }
      var ok := CloseEndpoint(device);
      if !ok { return Aborted; }
      bumps := bumps + 1;
      verdict := Done;
    }

    method RestoreAll(specs: seq<EndpointSpec>) returns (count: nat)
      modifies this
      ensures Restored(Now(), count) == Restore(old(Now()), specs, fate)
    {
      count := 0;
      for i := 0 to |specs|
        invariant Restore(old(Now()), specs, fate)
               == var rest := Restore(Now(), specs[i..], fate); Restored(rest.world, rest.count + count)
      {
        var ok := CreateEndpoint(specs[i]);
        if ok { count := count + 1; }
      }
    }
  }
}
