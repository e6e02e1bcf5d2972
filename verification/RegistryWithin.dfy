/** What holds of the live set whatever fails, recovered or not: identities are distinct and
    each is one of the aggregator's children, before and after every command. */
module RegistryWithin {
  import opened Protocol
  import opened Reconcile
  import opened Registry
  import opened RegistryProofs

  /** The same between the two rekey phases: live and held identities are distinct, apart, and
      all in the aggregator. */
  ghost predicate Within(w: World, stash: seq<Stashed>) {
    && DistinctLive(w.live)
    && (forall i, j :: 0 <= i < j < |stash| ==> stash[i].entry.publishedAs != stash[j].entry.publishedAs)
    && Ids(w.live) !! StashIds(stash)
    && Ids(w.live) + StashIds(stash) <= w.children.Keys
  }

  ghost predicate RolesKnown(live: map<int, LiveEntry>) { forall d :: d in live ==> Supported(live[d].role) }

  ghost predicate StashKnown(stash: seq<Stashed>) { forall s :: s in stash ==> Supported(s.entry.role) }

  lemma NothingWithin(w: World)
    ensures Within(w, []) <==> LiveWithin(w)
    ensures StashKnown([])
  {
    assert StashIds([]) == {};
  }

  lemma StillWithin(w: World, stash: seq<Stashed>)
    requires Within(w, stash)
    ensures LiveWithin(w)
  {
  }

  // --- one endpoint --------------------------------------------------------

  lemma CloseWithin(w: World, device: int, fate: Fate)
    requires LiveWithin(w) && device in w.live
    ensures LiveWithin(CloseOne(w, device, fate).world)
    ensures RolesKnown(w.live) ==> RolesKnown(CloseOne(w, device, fate).world.live)
  {
    IdsWithout(w.live, device);
  }

  lemma RenameIds(live: map<int, LiveEntry>, device: int, name: string)
    requires device in live
    ensures var v := live[device := live[device].(name := name)];
            Ids(v) == Ids(live) && (DistinctLive(live) ==> DistinctLive(v)) && (RolesKnown(live) ==> RolesKnown(v))
  {
    var v := live[device := live[device].(name := name)];
    forall id | id in Ids(live) ensures id in Ids(v) {
      var d :| d in live && live[d].publishedAs == id;
      assert v[d].publishedAs == id;
    }
    forall id | id in Ids(v) ensures id in Ids(live) {
      var d :| d in v && v[d].publishedAs == id;
      assert live[d].publishedAs == id;
    }
  }

  lemma UpdateWithin(w: World, stash: seq<Stashed>, spec: EndpointSpec, fate: Fate)
    requires Within(w, stash)
    ensures Within(Update(w, spec, fate).world, stash)
    ensures RolesKnown(w.live) ==> RolesKnown(Update(w, spec, fate).world.live)
  {
    UpdateShape(w, spec, fate);
    if spec.device in w.live { RenameIds(w.live, spec.device, spec.name); }
  }

  lemma CreateKnown(w: World, spec: EndpointSpec, fate: Fate)
    requires RolesKnown(w.live) && Supported(spec.role)
    ensures RolesKnown(Create(w, spec, fate).world.live)
  {
    CreateShape(w, spec, fate);
  }

  // --- batches -------------------------------------------------------------

  lemma {:induction false} RemoveManyWithin(w: World, devices: seq<int>, touched: bool, fate: Fate)
    requires LiveWithin(w)
    ensures LiveWithin(RemoveMany(w, devices, touched, fate).world)
    ensures RolesKnown(w.live) ==> RolesKnown(RemoveMany(w, devices, touched, fate).world.live)
    decreases |devices|
  {
    if devices != [] {
      if devices[0] !in w.live {
        RemoveManyWithin(w, devices[1..], touched, fate);
      } else {
        var c := CloseOne(w, devices[0], fate);
        CloseWithin(w, devices[0], fate);
        if c.ok { RemoveManyWithin(c.world, devices[1..], true, fate); }
      }
    }
  }

  lemma HoldOne(w: World, k: Rekey, stash: seq<Stashed>)
    requires Within(w, stash) && k.from in w.live
    ensures Within(w.(live := w.live - {k.from}), stash + [Stashed(k.spec, k.from, w.live[k.from])])
  {
    var id := w.live[k.from].publishedAs;
    var more := stash + [Stashed(k.spec, k.from, w.live[k.from])];
    IdsWithout(w.live, k.from);
    assert id in Ids(w.live);
    assert StashIds(more) == StashIds(stash) + {id};
    forall i | 0 <= i < |stash| ensures stash[i].entry.publishedAs != id {
      assert stash[i] in stash && stash[i].entry.publishedAs in StashIds(stash);
    }
  }

  lemma {:induction false} VacateWithin(w: World, rekeys: seq<Rekey>, stash: seq<Stashed>)
    requires Within(w, stash)
    ensures Within(Vacate(w, rekeys, stash).world, Vacate(w, rekeys, stash).stash)
    ensures RolesKnown(w.live) && StashKnown(stash) ==>
              RolesKnown(Vacate(w, rekeys, stash).world.live) && StashKnown(Vacate(w, rekeys, stash).stash)
    decreases |rekeys|
  {
    if rekeys != [] && rekeys[0].from in w.live {
      HoldOne(w, rekeys[0], stash);
      VacateWithin(w.(live := w.live - {rekeys[0].from}), rekeys[1..],
                   stash + [Stashed(rekeys[0].spec, rekeys[0].from, w.live[rekeys[0].from])]);
    }
  }

  lemma HeadApart(stash: seq<Stashed>)
    requires stash != []
    requires forall i, j :: 0 <= i < j < |stash| ==> stash[i].entry.publishedAs != stash[j].entry.publishedAs
    ensures StashIds(stash) == {stash[0].entry.publishedAs} + StashIds(stash[1..])
    ensures stash[0].entry.publishedAs !in StashIds(stash[1..])
    ensures forall i, j :: 0 <= i < j < |stash[1..]| ==>
              stash[1..][i].entry.publishedAs != stash[1..][j].entry.publishedAs
    ensures StashKnown(stash) ==> StashKnown(stash[1..]) && Supported(stash[0].entry.role)
  {
    var rest := stash[1..];
    assert stash == [stash[0]] + rest;
    assert forall i :: 0 <= i < |rest| ==> rest[i] == stash[i + 1];
  }

  /** The head of the stash put into the live map, under whatever key and over whatever is
      there. */
  lemma PlaceWithin(w: World, v: World, stash: seq<Stashed>, device: int)
    requires Within(w, stash) && stash != []
    requires v.live == w.live[device := stash[0].entry] && v.children == w.children
    ensures Within(v, stash[1..])
    ensures RolesKnown(w.live) && StashKnown(stash) ==> RolesKnown(v.live)
  {
    HeadApart(stash);
    IdsOver(w.live, device, stash[0].entry);
  }

  lemma DropWithin(w: World, v: World, stash: seq<Stashed>)
    requires Within(w, stash) && stash != [] && v.live == w.live && v.children == w.children
    ensures Within(v, stash[1..])
  {
    HeadApart(stash);
  }

  lemma RekeyOneWithin(w: World, stash: seq<Stashed>, fate: Fate)
    requires Within(w, stash) && stash != []
    ensures Within(RekeyOne(w, stash[0], fate).world, stash[1..])
    ensures RolesKnown(w.live) && StashKnown(stash) ==>
              RolesKnown(RekeyOne(w, stash[0], fate).world.live) && StashKnown(stash[1..])
  {
    var s := stash[0];
    HeadApart(stash);
    var watched := Watch(Unwatch(w, s.entry.publishedAs), s.spec.publishedAs, s.spec.device, fate);
    if s.spec.device in w.live {
      DropWithin(w, w, stash);
    } else if watched.ok {
      var moved := watched.world.(live := w.live[s.spec.device := s.entry]);
      PlaceWithin(w, moved, stash, s.spec.device);
      UpdateWithin(moved, stash[1..], s.spec, fate);
    } else if fate.watches(watched.world.tick) {
      PlaceWithin(w, RekeyOne(w, s, fate).world, stash, s.from);
    } else {
      DropWithin(w, RekeyOne(w, s, fate).world, stash);
    }
  }

  lemma {:induction false} RekeyAllWithin(w: World, stash: seq<Stashed>, fate: Fate)
    requires Within(w, stash)
    ensures LiveWithin(RekeyAll(w, stash, fate).world)
    ensures RolesKnown(w.live) && StashKnown(stash) ==> RolesKnown(RekeyAll(w, stash, fate).world.live)
    decreases |stash|
  {
    if stash == [] {
      NothingWithin(w);
    } else {
      var r := RekeyOne(w, stash[0], fate);
      RekeyOneWithin(w, stash, fate);
      StillWithin(r.world, stash[1..]);
      if r.ok { RekeyAllWithin(r.world, stash[1..], fate); }
    }
  }

  lemma {:induction false} CreateAllWithin(w: World, specs: seq<EndpointSpec>, touched: bool, fate: Fate)
    requires LiveWithin(w)
    ensures LiveWithin(CreateAll(w, specs, touched, fate).world)
    ensures RolesKnown(w.live) && (forall s :: s in specs ==> Supported(s.role)) ==>
              RolesKnown(CreateAll(w, specs, touched, fate).world.live)
    decreases |specs|
  {
    if specs != [] {
      var c := Create(w, specs[0], fate);
      CreateWithin(w, specs[0], fate);
      if RolesKnown(w.live) && Supported(specs[0].role) { CreateKnown(w, specs[0], fate); }
      if c.ok { CreateAllWithin(c.world, specs[1..], true, fate); }
    }
  }

  lemma {:induction false} UpdateAllWithin(w: World, specs: seq<EndpointSpec>, fate: Fate)
    requires LiveWithin(w)
    ensures LiveWithin(UpdateAll(w, specs, fate).world)
    ensures RolesKnown(w.live) ==> RolesKnown(UpdateAll(w, specs, fate).world.live)
    decreases |specs|
  {
    if specs != [] {
      var u := Update(w, specs[0], fate);
      NothingWithin(w);
      UpdateWithin(w, [], specs[0], fate);
      NothingWithin(u.world);
      if u.ok { UpdateAllWithin(u.world, specs[1..], fate); }
    }
  }

  lemma {:induction false} RestoreKnown(w: World, specs: seq<EndpointSpec>, fate: Fate)
    requires RolesKnown(w.live) && forall s :: s in specs ==> Supported(s.role)
    ensures RolesKnown(Restore(w, specs, fate).world.live)
    decreases |specs|
  {
    if specs != [] {
      CreateKnown(w, specs[0], fate);
      RestoreKnown(Create(w, specs[0], fate).world, specs[1..], fate);
    }
  }

  // --- the commands --------------------------------------------------------

  lemma ApplyWithin(w: World, plan: Plan, fate: Fate)
    requires LiveWithin(w)
    ensures LiveWithin(Apply(w, plan, fate).world)
    ensures RolesKnown(w.live) && (forall s :: s in plan.create + plan.recreate ==> Supported(s.role)) ==>
              RolesKnown(Apply(w, plan, fate).world.live)
  {
    var one, two, three := Phase1(w, plan, fate), Phase2(w, plan, fate), Phase3(w, plan, fate);
    var four := Phase4(w, plan, fate);
    ApplyPhases(w, plan, fate);
    RemoveManyWithin(w, Removals(w.live, plan), false, fate);
    NothingWithin(one.world);
    VacateWithin(one.world, plan.rekey, []);
    StillWithin(two.world, two.stash);
    RekeyAllWithin(two.world, two.stash, fate);
    CreateAllWithin(three.world, plan.create + plan.recreate, one.touched, fate);
    UpdateAllWithin(four.world, plan.update, fate);
  }

  /** Live identities stay distinct and among the aggregator's children wherever a reconcile
      stops, whatever failed, recovered or not, however many rekeys there are, and whatever
      state earlier failures left behind. */
  lemma AbortKeepsDistinct(w: World, desired: seq<EndpointSpec>, replaceAll: bool, order: seq<string>, fate: Fate)
    requires LiveWithin(w)
    ensures LiveWithin(ReconcileTo(w, desired, replaceAll, order, fate).world)
    ensures RolesKnown(w.live) ==> RolesKnown(ReconcileTo(w, desired, replaceAll, order, fate).world.live)
  {
    ApplyWithin(w, PlanOf(LiveComposition(w.live), order, desired), fate);
  }

  lemma UpsertWithin(w: World, spec: EndpointSpec, fate: Fate)
    requires LiveWithin(w)
    ensures LiveWithin(Upsert(w, spec, fate).world)
    ensures RolesKnown(w.live) ==> RolesKnown(Upsert(w, spec, fate).world.live)
  {
    if Supported(spec.role) {
      CreateWithin(w, spec, fate);
      if RolesKnown(w.live) { CreateKnown(w, spec, fate); }
      NothingWithin(w);
      UpdateWithin(w, [], spec, fate);
      NothingWithin(Update(w, spec, fate).world);
      if spec.device in w.live { RecreateWithin(w, spec, fate); }
    }
  }

  lemma RecreateWithin(w: World, spec: EndpointSpec, fate: Fate)
    requires LiveWithin(w) && spec.device in w.live && Supported(spec.role)
    ensures LiveWithin(CloseOne(w, spec.device, fate).world)
    ensures LiveWithin(Create(CloseOne(w, spec.device, fate).world, spec, fate).world)
    ensures RolesKnown(w.live) ==>
              && RolesKnown(CloseOne(w, spec.device, fate).world.live)
              && RolesKnown(Create(CloseOne(w, spec.device, fate).world, spec, fate).world.live)
  {
    var c := CloseOne(w, spec.device, fate).world;
    CloseWithin(w, spec.device, fate);
    CreateWithin(c, spec, fate);
    if RolesKnown(c.live) { CreateKnown(c, spec, fate); }
  }

  lemma RemoveWithin(w: World, device: int, fate: Fate)
    requires LiveWithin(w)
    ensures LiveWithin(Remove(w, device, fate).world)
    ensures RolesKnown(w.live) ==> RolesKnown(Remove(w, device, fate).world.live)
  {
    if device in w.live { CloseWithin(w, device, fate); }
  }

  /** Agreement of the three views is more than this. */
  lemma CoherentWithin(w: World)
    requires Coherent(w)
    ensures LiveWithin(w) && RolesKnown(w.live)
  {
    forall d | d in w.live ensures Supported(w.live[d].role) { assert Linked(w, d, w.live[d]); }
  }
}
