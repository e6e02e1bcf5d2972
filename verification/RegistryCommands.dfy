/** The other commands over the live set, and the numbers matter.js hands out under all of
    them. */
module RegistryCommands {
  import opened Protocol
  import opened Reconcile
  import opened Registry
  import opened RegistryProofs

  // --- numbers -------------------------------------------------------------

  /** Every child has a number and no two identities share one. */
  ghost predicate Numbered(w: World) {
    && w.children.Keys <= w.numbers.Keys
    && (forall id :: id in w.numbers ==> w.numbers[id] < w.nextNumber)
    && (forall a, b :: a in w.numbers && b in w.numbers && w.numbers[a] == w.numbers[b] ==> a == b)
  }

  /** `after` forgets no number, moves none, and stays lawful. */
  ghost predicate Grows(before: World, after: World) {
    && (forall id :: id in before.numbers ==> id in after.numbers && after.numbers[id] == before.numbers[id])
    && (Numbered(before) ==> Numbered(after))
  }

  lemma AddedGrows(w: World, id: string)
    ensures Grows(w, Added(w, id))
  {
  }

  lemma CreateGrows(w: World, spec: EndpointSpec, fate: Fate)
    ensures Grows(w, Create(w, spec, fate).world)
  {
    var a := Added(w, spec.publishedAs);
    AddedGrows(w, spec.publishedAs);
    var v := Create(w, spec, fate).world;
    if v.children.Keys <= a.children.Keys && v.numbers == a.numbers && v.nextNumber == a.nextNumber {
      assert Grows(a, v);
    } else {
      assert v == w.(tick := w.tick + 1);
    }
  }

  lemma UpdateGrows(w: World, spec: EndpointSpec, fate: Fate)
    ensures Grows(w, Update(w, spec, fate).world)
  {
    UpdateShape(w, spec, fate);
  }

  lemma CloseGrows(w: World, device: int, fate: Fate)
    requires device in w.live
    ensures Grows(w, CloseOne(w, device, fate).world)
  {
  }

  lemma SameNumbersGrow(before: World, after: World)
    requires after.numbers == before.numbers && after.nextNumber == before.nextNumber
    requires after.children == before.children
    ensures Grows(before, after)
  {
  }

  lemma RekeyGrows(w: World, s: Stashed, fate: Fate)
    ensures Grows(w, RekeyOne(w, s, fate).world)
  {
    var watched := Watch(Unwatch(w, s.entry.publishedAs), s.spec.publishedAs, s.spec.device, fate);
    UpdateShape(watched.world.(live := w.live[s.spec.device := s.entry]), s.spec, fate);
    SameNumbersGrow(w, RekeyOne(w, s, fate).world);
  }

  lemma {:induction false} RemoveManyGrows(w: World, devices: seq<int>, touched: bool, fate: Fate)
    ensures Grows(w, RemoveMany(w, devices, touched, fate).world)
    decreases |devices|
  {
    if devices != [] {
      if devices[0] !in w.live {
        RemoveManyGrows(w, devices[1..], touched, fate);
      } else {
        var c := CloseOne(w, devices[0], fate);
        CloseGrows(w, devices[0], fate);
        if c.ok { RemoveManyGrows(c.world, devices[1..], true, fate); }
      }
    }
  }

  lemma {:induction false} VacateGrows(w: World, rekeys: seq<Rekey>, stash: seq<Stashed>)
    ensures Grows(w, Vacate(w, rekeys, stash).world)
    decreases |rekeys|
  {
    if rekeys != [] && rekeys[0].from in w.live {
      VacateGrows(w.(live := w.live - {rekeys[0].from}), rekeys[1..],
                  stash + [Stashed(rekeys[0].spec, rekeys[0].from, w.live[rekeys[0].from])]);
    }
  }

  lemma {:induction false} RekeyAllGrows(w: World, stash: seq<Stashed>, fate: Fate)
    ensures Grows(w, RekeyAll(w, stash, fate).world)
    decreases |stash|
  {
    if stash != [] {
      RekeyGrows(w, stash[0], fate);
      var r := RekeyOne(w, stash[0], fate);
      if r.ok { RekeyAllGrows(r.world, stash[1..], fate); }
    }
  }

  lemma {:induction false} CreateAllGrows(w: World, specs: seq<EndpointSpec>, touched: bool, fate: Fate)
    ensures Grows(w, CreateAll(w, specs, touched, fate).world)
    decreases |specs|
  {
    if specs != [] {
      CreateGrows(w, specs[0], fate);
      var c := Create(w, specs[0], fate);
      if c.ok { CreateAllGrows(c.world, specs[1..], true, fate); }
    }
  }

  lemma {:induction false} UpdateAllGrows(w: World, specs: seq<EndpointSpec>, fate: Fate)
    ensures Grows(w, UpdateAll(w, specs, fate).world)
    decreases |specs|
  {
    if specs != [] {
      UpdateGrows(w, specs[0], fate);
      var u := Update(w, specs[0], fate);
      if u.ok { UpdateAllGrows(u.world, specs[1..], fate); }
    }
  }

  lemma {:induction false} RestoreGrows(w: World, specs: seq<EndpointSpec>, fate: Fate)
    ensures Grows(w, Restore(w, specs, fate).world)
    decreases |specs|
  {
    if specs != [] {
      CreateGrows(w, specs[0], fate);
      RestoreGrows(Create(w, specs[0], fate).world, specs[1..], fate);
    }
  }

  lemma ApplyGrows(w: World, plan: Plan, fate: Fate)
    ensures Grows(w, Apply(w, plan, fate).world)
  {
    ApplyPhases(w, plan, fate);
    RemoveManyGrows(w, Removals(w.live, plan), false, fate);
    VacateGrows(Phase1(w, plan, fate).world, plan.rekey, []);
    RekeyAllGrows(Phase2(w, plan, fate).world, Phase2(w, plan, fate).stash, fate);
    CreateAllGrows(Phase3(w, plan, fate).world, plan.create + plan.recreate, Phase1(w, plan, fate).touched, fate);
    UpdateAllGrows(Phase4(w, plan, fate).world, plan.update, fate);
  }

  lemma ReconcileGrows(w: World, desired: seq<EndpointSpec>, replaceAll: bool, order: seq<string>, fate: Fate)
    ensures Grows(w, ReconcileTo(w, desired, replaceAll, order, fate).world)
  {
    ApplyGrows(w, PlanOf(LiveComposition(w.live), order, desired), fate);
  }

  lemma UpsertGrows(w: World, spec: EndpointSpec, fate: Fate)
    ensures Grows(w, Upsert(w, spec, fate).world)
  {
    CreateGrows(w, spec, fate);
    UpdateGrows(w, spec, fate);
    if spec.device in w.live {
      CloseGrows(w, spec.device, fate);
      CreateGrows(CloseOne(w, spec.device, fate).world, spec, fate);
    }
  }

  lemma RemoveGrows(w: World, device: int, fate: Fate)
    ensures Grows(w, Remove(w, device, fate).world)
  {
    if device in w.live { CloseGrows(w, device, fate); }
  }

  /** Whatever fails, a number once given to an identity stays its own, and is never given
      to another, for as long as matter.js's store is not erased. */
  lemma NumbersAreNeverReissued(before: World, after: World, id: string, other: string)
    requires Grows(before, after) && Numbered(before) && id in before.numbers
    requires other in after.numbers && after.numbers[other] == before.numbers[id]
    ensures other == id
  {
    assert after.numbers[id] == before.numbers[id];
  }

  // --- upsert and remove ---------------------------------------------------

  /** The calls of an upsert that can strand an endpoint: the create of a new accessory or of
      one that gains a battery, and the close before the latter. */
  ghost predicate UpsertRecovers(w: World, spec: EndpointSpec, fate: Fate) {
    Supported(spec.role) ==>
      if spec.device !in w.live then spec.publishedAs in Ids(w.live) || CreateRecovers(w, spec, fate)
      else GainsBattery(w, spec) ==>
        if CloseOne(w, spec.device, fate).ok then CreateRecovers(CloseOne(w, spec.device, fate).world, spec, fate)
        else CloseRecovers(w, fate)
  }

  /** The same accessory, asking for a battery it does not have yet. */
  predicate GainsBattery(w: World, spec: EndpointSpec) {
    && spec.device in w.live
    && w.live[spec.device].publishedAs == spec.publishedAs && w.live[spec.device].role == spec.role
    && spec.battery && !w.live[spec.device].battery
  }

  lemma RecoversUpsert(w: World, spec: EndpointSpec, fate: Fate)
    requires Recovers(fate)
    ensures UpsertRecovers(w, spec, fate)
  {
  }

  /** `upsert_endpoint` keeps the three views in agreement exactly when no endpoint is stranded,
      and fires the hook exactly when the child set changed unless a new accessory was. */
  lemma UpsertKeeps(w: World, spec: EndpointSpec, fate: Fate)
    requires Coherent(w)
    ensures Coherent(Upsert(w, spec, fate).world) <==> UpsertRecovers(w, spec, fate)
    ensures DistinctLive(Upsert(w, spec, fate).world.live)
    ensures var v := Upsert(w, spec, fate).world;
            v.bumps == (w.bumps + if v.children != w.children then 1 else 0) <==>
            UpsertRecovers(w, spec, fate) || spec.device in w.live
  {
    if Supported(spec.role) {
      if spec.device !in w.live {
        CreateShape(w, spec, fate);
        CreateKeeps(w, spec, fate);
        BumpDecides(Create(w, spec, fate).world);
        if Create(w, spec, fate).ok { IdsWith(w.live, spec.device, EntryFor(spec, w.nextHandle)); }
      } else {
        UpsertExistingKeeps(w, spec, fate);
      }
    }
  }

  lemma UpsertExistingKeeps(w: World, spec: EndpointSpec, fate: Fate)
    requires Coherent(w) && Supported(spec.role) && spec.device in w.live
    ensures Coherent(Upsert(w, spec, fate).world) <==> UpsertRecovers(w, spec, fate)
    ensures DistinctLive(Upsert(w, spec, fate).world.live)
    ensures var v := Upsert(w, spec, fate).world;
            v.bumps == w.bumps + if v.children != w.children then 1 else 0
  {
    var e := w.live[spec.device];
    if GainsBattery(w, spec) {
      GainKeeps(w, spec, fate);
    } else if e.publishedAs == spec.publishedAs && e.role == spec.role {
      UpdateShape(w, spec, fate);
      NothingHeld(w);
      UpdateKeeps(w, [], spec, fate);
      NothingHeld(Update(w, spec, fate).world);
    }
  }

  /** The recreate of a battery gain. */
  lemma GainKeeps(w: World, spec: EndpointSpec, fate: Fate)
    requires Coherent(w) && Supported(spec.role) && GainsBattery(w, spec)
    ensures Coherent(Upsert(w, spec, fate).world) <==> UpsertRecovers(w, spec, fate)
    ensures DistinctLive(Upsert(w, spec, fate).world.live)
    ensures var v := Upsert(w, spec, fate).world;
            v.bumps == w.bumps + if v.children != w.children then 1 else 0
  {
    var c := CloseOne(w, spec.device, fate);
    assert Linked(w, spec.device, w.live[spec.device]);
    CloseKeeps(w, spec.device, fate);
    if c.ok {
      CreateShape(c.world, spec, fate);
      CreateKeeps(c.world, spec, fate);
      BumpDecides(Create(c.world, spec, fate).world);
      assert w.children[spec.publishedAs] < w.nextHandle;
      if Create(c.world, spec, fate).ok { IdsWith(c.world.live, spec.device, EntryFor(spec, c.world.nextHandle)); }
    }
  }

  /** A successful upsert leaves its device driving exactly the requested accessory and every
      other entry alone; it never moves an identity between devices. */
  lemma UpsertExact(w: World, spec: EndpointSpec, fate: Fate)
    requires Upsert(w, spec, fate).verdict == Done
    ensures var v := Upsert(w, spec, fate).world;
            && v.live.Keys == w.live.Keys + {spec.device} && Meets(v.live[spec.device], spec)
            && (forall d :: d in w.live && d != spec.device ==> v.live[d] == w.live[d])
            && (spec.device in w.live ==> w.live[spec.device].publishedAs == spec.publishedAs)
  {
    if spec.device !in w.live {
      CreateShape(w, spec, fate);
    } else if spec.battery && !w.live[spec.device].battery {
      CloseShape(w, spec.device, fate);
      CreateShape(CloseOne(w, spec.device, fate).world, spec, fate);
    } else {
      UpdateShape(w, spec, fate);
    }
  }

  /** The one way an upsert can lose an accessory: a battery gain whose old endpoint closed
      and whose new one could not be created, or was created and could not be watched. */
  ghost predicate LosesOnGain(w: World, spec: EndpointSpec, fate: Fate) {
    && Supported(spec.role) && GainsBattery(w, spec)
    && CloseOne(w, spec.device, fate).ok
    && var t := CloseOne(w, spec.device, fate).world.tick;
       !fate.adds(t) || !fate.watches(t + 1)
  }

  /** Whatever fails, an upsert loses an identity exactly then, and only that one. */
  lemma UpsertLosesExactly(w: World, spec: EndpointSpec, fate: Fate)
    requires DistinctLive(w.live)
    ensures LosesOnGain(w, spec, fate) <==> !(Ids(w.live) <= Ids(Upsert(w, spec, fate).world.live))
    ensures var v := Upsert(w, spec, fate).world;
            LosesOnGain(w, spec, fate) ==> v.live == w.live - {spec.device}
  {
    var v := Upsert(w, spec, fate).world;
    UpdateShape(w, spec, fate);
    if spec.device !in w.live {
      CreateShape(w, spec, fate);
      SameIds(w.live, v.live);
    } else if !LosesOnGain(w, spec, fate) {
      KeptByUpsert(w, spec, fate);
      SameIds(w.live, v.live);
    } else {
      var c := CloseOne(w, spec.device, fate);
      CloseShape(w, spec.device, fate);
      CreateShape(c.world, spec, fate);
      IdsWithout(w.live, spec.device);
      assert spec.publishedAs in Ids(w.live);
    }
  }

  lemma SameIds(a: map<int, LiveEntry>, b: map<int, LiveEntry>)
    requires forall d :: d in a ==> d in b && b[d].publishedAs == a[d].publishedAs
    ensures Ids(a) <= Ids(b)
  {
    forall id | id in Ids(a) ensures id in Ids(b) {
      var d :| d in a && a[d].publishedAs == id;
      assert b[d].publishedAs == id;
    }
  }

  lemma KeptByUpsert(w: World, spec: EndpointSpec, fate: Fate)
    requires spec.device in w.live && !LosesOnGain(w, spec, fate)
    ensures var v := Upsert(w, spec, fate).world;
            forall d :: d in w.live ==> d in v.live && v.live[d].publishedAs == w.live[d].publishedAs
  {
    UpdateShape(w, spec, fate);
    if Supported(spec.role) && GainsBattery(w, spec) {
      var c := CloseOne(w, spec.device, fate);
      CloseShape(w, spec.device, fate);
      if c.ok {
        assert spec.publishedAs !in c.world.children;
        CreateShape(c.world, spec, fate);
      }
    }
  }

  /** A removal takes out its device alone, or nothing when the close fails; agreement survives
      exactly when the endpoint closes or is watched again; the hook fires exactly on change. */
  lemma RemoveKeeps(w: World, device: int, fate: Fate)
    requires Coherent(w)
    ensures var r := Remove(w, device, fate);
            && (Coherent(r.world) <==> device !in w.live || CloseRecovers(w, fate))
            && DistinctLive(r.world.live)
            && r.world.live == (if r.verdict == Done then w.live - {device} else w.live)
            && r.world.bumps == w.bumps + if r.world.children != w.children then 1 else 0
  {
    if device in w.live {
      assert Linked(w, device, w.live[device]);
      CloseKeeps(w, device, fate);
      BumpDecides(CloseOne(w, device, fate).world);
      IdsWithout(w.live, device);
    } else {
      assert w.live - {device} == w.live;
    }
  }

  // --- restore -------------------------------------------------------------

  /** Whatever fails, what was live stays and whatever could be restored is live as its spec
      says. */
  lemma {:induction false} RestoreShape(w: World, specs: seq<EndpointSpec>, fate: Fate)
    requires DistinctDevices(specs) && DevicesOf(specs) !! w.live.Keys
    ensures var v := Restore(w, specs, fate).world;
            && SubLive(w.live, v.live) && v.live.Keys <= w.live.Keys + DevicesOf(specs)
            && (forall s :: s in specs && s.device in v.live ==>
                  v.live[s.device] == EntryFor(s, v.live[s.device].endpoint))
    decreases |specs|
  {
    if specs != [] {
      SplitSpecs(specs);
      CreateShape(w, specs[0], fate);
      RestoreShape(Create(w, specs[0], fate).world, specs[1..], fate);
    }
  }

  /** No create of the restore leaves an endpoint behind. */
  ghost predicate RestoreRecovers(w: World, specs: seq<EndpointSpec>, fate: Fate)
    decreases |specs|
  {
    specs != [] ==>
      CreateRecovers(w, specs[0], fate) && RestoreRecovers(Create(w, specs[0], fate).world, specs[1..], fate)
  }

  /** An endpoint left behind stays behind: its identity can no longer be added. */
  lemma {:induction false} StrayStays(w: World, specs: seq<EndpointSpec>, fate: Fate, id: string)
    requires id in w.children && id !in Ids(w.live)
    ensures id in Restore(w, specs, fate).world.children && id !in Ids(Restore(w, specs, fate).world.live)
    decreases |specs|
  {
    if specs != [] {
      var c := Create(w, specs[0], fate).world;
      CreateShape(w, specs[0], fate);
      forall d | d in c.live ensures c.live[d].publishedAs != id {
        if d in w.live { assert w.live[d].publishedAs in Ids(w.live); }
      }
      StrayStays(c, specs[1..], fate, id);
    }
  }

  /** Restoring specs of distinct devices over a coherent world keeps it coherent exactly when
      none of the creates that failed left its endpoint behind. */
  lemma {:induction false} RestoreKeeps(w: World, specs: seq<EndpointSpec>, fate: Fate)
    requires Coherent(w) && DistinctDevices(specs) && DevicesOf(specs) !! w.live.Keys
    requires forall s :: s in specs ==> Supported(s.role)
    ensures Coherent(Restore(w, specs, fate).world) <==> RestoreRecovers(w, specs, fate)
    ensures Recovers(fate) || Restore(w, specs, fate).count == |specs| ==> RestoreRecovers(w, specs, fate)
    ensures Restore(w, specs, fate).count <= |specs|
    decreases |specs|
  {
    if specs != [] {
      SplitSpecs(specs);
      CreateKeeps(w, specs[0], fate);
      CreateShape(w, specs[0], fate);
      var c := Create(w, specs[0], fate);
      RestoreCount(c.world, specs[1..], fate);
      if CreateRecovers(w, specs[0], fate) {
        RestoreKeeps(c.world, specs[1..], fate);
      } else {
        StrayStays(c.world, specs[1..], fate, specs[0].publishedAs);
      }
    }
  }

  lemma {:induction false} RestoreCount(w: World, specs: seq<EndpointSpec>, fate: Fate)
    ensures Restore(w, specs, fate).count <= |specs|
    decreases |specs|
  {
    if specs != [] { RestoreCount(Create(w, specs[0], fate).world, specs[1..], fate); }
  }

  /** Each spec is tried in its turn, whatever became of those before it, and the successes are
      counted. */
  lemma {:induction false} RestoreInTurn(w: World, first: seq<EndpointSpec>, rest: seq<EndpointSpec>, fate: Fate)
    ensures var one := Restore(w, first, fate);
            var two := Restore(one.world, rest, fate);
            Restore(w, first + rest, fate) == Restored(two.world, one.count + two.count)
    ensures forall s :: Restore(w, [s], fate) ==
              Restored(Create(w, s, fate).world, if Create(w, s, fate).ok then 1 else 0)
    decreases |first|
  {
    forall s ensures Restore(w, [s], fate).world == Create(w, s, fate).world {
      assert [s][1..] == [];
    }
    if first == [] {
      assert first + rest == rest;
    } else {
      assert (first + rest)[1..] == first[1..] + rest;
      RestoreInTurn(Create(w, first[0], fate).world, first[1..], rest, fate);
    }
  }

  lemma SplitIds(specs: seq<EndpointSpec>)
    requires specs != [] && DistinctIds(specs)
    ensures DistinctIds(specs[1..])
    ensures IdsOf(specs) == {specs[0].publishedAs} + IdsOf(specs[1..])
    ensures specs[0].publishedAs !in IdsOf(specs[1..])
  {
    assert specs == [specs[0]] + specs[1..];
    assert forall i :: 0 <= i < |specs[1..]| ==> specs[1..][i] == specs[i + 1];
  }

  /** With adds and subscriptions working every restorable accessory comes back. */
  lemma {:induction false} RestoreSucceeds(w: World, specs: seq<EndpointSpec>, fate: Fate)
    requires WatchesHold(fate) && (forall k :: fate.adds(k))
    requires DistinctDevices(specs) && DistinctIds(specs)
    requires DevicesOf(specs) !! w.live.Keys && IdsOf(specs) !! w.children.Keys
    ensures Restore(w, specs, fate).world.live.Keys == w.live.Keys + DevicesOf(specs)
    ensures Restore(w, specs, fate).count == |specs|
    decreases |specs|
  {
    if specs != [] {
      SplitSpecs(specs);
      SplitIds(specs);
      CreateShape(w, specs[0], fate);
      RestoreSucceeds(Create(w, specs[0], fate).world, specs[1..], fate);
    }
  }

  // --- withdrawing everything ----------------------------------------------

  lemma {:induction false} RemoveManyClears(w: World, devices: seq<int>, touched: bool, fate: Fate)
    requires (forall k :: fate.closes(k)) && (forall d :: d in w.live ==> d in devices)
    ensures RemoveMany(w, devices, touched, fate).ok && RemoveMany(w, devices, touched, fate).world.live == map[]
    decreases |devices|
  {
    if devices == [] {
      assert forall d :: d !in w.live;
    } else {
      assert devices == [devices[0]] + devices[1..];
      if devices[0] !in w.live {
        RemoveManyClears(w, devices[1..], touched, fate);
      } else {
        RemoveManyClears(CloseOne(w, devices[0], fate).world, devices[1..], true, fate);
      }
    }
  }

  /** The withdrawal `reconcile([], true)` empties any live set, coherent or not, when the
      closes succeed. */
  lemma WithdrawalEmpties(w: World, order: seq<string>, fate: Fate)
    requires DistinctLive(w.live) && (forall k :: fate.closes(k)) && Enumerates(order, LiveComposition(w.live))
    ensures ReconcileTo(w, [], true, order, fate).verdict == Done
    ensures ReconcileTo(w, [], true, order, fate).world.live == map[]
  {
    var plan := PlanOf(LiveComposition(w.live), order, []);
    LiveIsComposed(w.live);
    assert IdsOf([]) == {};
    forall d | d in w.live ensures d in Removals(w.live, plan) {
      ResolveMembers(w.live, plan.remove, d);
    }
    RemoveManyClears(w, Removals(w.live, plan), false, fate);
    ApplyPhases(w, plan, fate);
  }

  // --- agreement, with lawful numbers --------------------------------------

  ghost predicate WorldGood(w: World) { Coherent(w) && Numbered(w) }

  /** If it aborts, what failed was recovered. */
  ghost predicate LawfulAttach(w: World, desired: seq<EndpointSpec>, replaceAll: bool, order: seq<string>, fate: Fate) {
    && Requested(w, desired, order)
    && (ReconcileTo(w, desired, replaceAll, order, fate).verdict == Aborted
        ==> Recovered(w, PlanOf(LiveComposition(w.live), order, desired), fate))
  }

  lemma AttachWorldGood(w: World, desired: seq<EndpointSpec>, replaceAll: bool, order: seq<string>, fate: Fate)
    requires WorldGood(w) && LawfulAttach(w, desired, replaceAll, order, fate)
    ensures var v := ReconcileTo(w, desired, replaceAll, order, fate).world; WorldGood(v) && Grows(w, v)
  {
    var o := ReconcileTo(w, desired, replaceAll, order, fate);
    ReconcileGrows(w, desired, replaceAll, order, fate);
    if o.verdict == Done {
      ReconcileExact(w, desired, replaceAll, order, fate);
    } else if o.verdict == Aborted {
      RequestIsPlanned(w, desired, order);
      AbortExactly(w, LiveComposition(w.live), desired, PlanOf(LiveComposition(w.live), order, desired), fate);
    } else {
      RefusedLeavesWorld(w, desired, replaceAll, order, fate);
    }
  }

  lemma RefusedLeavesWorld(w: World, desired: seq<EndpointSpec>, replaceAll: bool, order: seq<string>, fate: Fate)
    requires ReconcileTo(w, desired, replaceAll, order, fate).verdict == Refused
    ensures ReconcileTo(w, desired, replaceAll, order, fate).world == w
  {
    ApplyPhases(w, PlanOf(LiveComposition(w.live), order, desired), fate);
  }

  // --- when nothing fails --------------------------------------------------

  lemma FreeUpsertSucceeds(w: World, spec: EndpointSpec, fate: Fate)
    requires Coherent(w) && NothingFails(fate) && Supported(spec.role)
    requires spec.device !in w.live && spec.publishedAs !in Ids(w.live)
    ensures Upsert(w, spec, fate).verdict == Done
  {
    CreateShape(w, spec, fate);
  }

  lemma FreeAttachSucceeds(w: World, desired: seq<EndpointSpec>, replaceAll: bool, order: seq<string>, fate: Fate)
    requires Requested(w, desired, order) && NothingFails(fate) && forall s :: s in desired ==> Supported(s.role)
    requires !MassRemoval(LiveComposition(w.live), desired, replaceAll)
    ensures var o := ReconcileTo(w, desired, replaceAll, order, fate);
            && o.verdict == Done && Coherent(o.world) && Exactly(o.world.live, desired)
            && o.world.live.Keys == DevicesOf(desired) && Ids(o.world.live) == IdsOf(desired)
  {
    FaultFreeReconcileSucceeds(w, desired, replaceAll, order, fate);
    ReconcileExact(w, desired, replaceAll, order, fate);
    SinksNameDrivers(ReconcileTo(w, desired, replaceAll, order, fate).world, desired);
  }

  lemma FirstReconcile(w: World, desired: seq<EndpointSpec>, fate: Fate)
    requires Coherent(w) && w.live == map[] && NothingFails(fate)
    requires DistinctDevices(desired) && DistinctIds(desired) && forall s :: s in desired ==> Supported(s.role)
    ensures Requested(w, desired, []) && ReconcileTo(w, desired, false, [], fate).verdict == Done
    ensures Exactly(ReconcileTo(w, desired, false, [], fate).world.live, desired)
  {
    assert LiveComposition(w.live).Keys == {};
    FreeAttachSucceeds(w, desired, false, [], fate);
  }
}
