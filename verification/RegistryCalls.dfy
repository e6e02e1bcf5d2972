/** When a command succeeds, call by call: a reconcile, upsert or removal is done exactly when
    every call it depends on worked, and colour-temperature bounds are none of those. */
module RegistryCalls {
  import opened Protocol
  import opened Reconcile
  import opened Registry
  import opened RegistryProofs

  /** A call to matter.js. Each takes one tick. */
  datatype Call = Add | Close | Subscribe | WriteLabel | WriteReachable | WriteBounds | WriteStates

  /** Nothing depends on the bounds; a label that is already right needs no write. */
  predicate Answered(c: Call, tick: nat, fate: Fate) {
    match c
    case Add => fate.adds(tick)
    case Close => fate.closes(tick)
    case Subscribe => fate.watches(tick)
    case WriteLabel => fate.labelled(tick) || fate.sets(tick)
    case WriteReachable => fate.sets(tick)
    case WriteBounds => true
    case WriteStates => fate.sets(tick)
  }

  ghost predicate AllAnswered(calls: seq<Call>, tick: nat, fate: Fate) {
    forall i :: 0 <= i < |calls| ==> Answered(calls[i], tick + i, fate)
  }

  const CREATING: seq<Call> := [Add, Subscribe]
  const UPDATING: seq<Call> := [WriteLabel, WriteReachable, WriteBounds, WriteStates]
  const REKEYING: seq<Call> := [Subscribe] + UPDATING

  function Repeat(n: nat, calls: seq<Call>): seq<Call> {
    if n == 0 then [] else calls + Repeat(n - 1, calls)
  }

  lemma AnsweredInTurn(a: seq<Call>, b: seq<Call>, tick: nat, fate: Fate)
    ensures AllAnswered(a + b, tick, fate) <==> AllAnswered(a, tick, fate) && AllAnswered(b, tick + |a|, fate)
  {
    if AllAnswered(a + b, tick, fate) {
      forall i | 0 <= i < |a| ensures Answered(a[i], tick + i, fate) { assert (a + b)[i] == a[i]; }
      forall i | 0 <= i < |b| ensures Answered(b[i], tick + |a| + i, fate) { assert (a + b)[|a| + i] == b[i]; }
    }
  }

  lemma AnsweredOnce(c: Call, tick: nat, fate: Fate)
    ensures AllAnswered([c], tick, fate) <==> Answered(c, tick, fate)
  {
    assert [c][0] == c;
  }

  /** Whether it worked, and when it was over. */
  datatype Ended = Ended(ok: bool, tick: nat)

  function Answer(s: Step): Ended { Ended(s.ok, s.world.tick) }

  function AnswerOf(b: Batch): Ended { Ended(b.ok, b.world.tick) }

  /** It worked exactly if these calls from `tick` on were all answered, and then took as many. */
  ghost predicate Depends(e: Ended, calls: seq<Call>, tick: nat, fate: Fate) {
    (e.ok <==> AllAnswered(calls, tick, fate)) && (e.ok ==> e.tick == tick + |calls|)
  }

  lemma Chained(a: Ended, b: Ended, first: seq<Call>, second: seq<Call>, tick: nat, fate: Fate)
    requires Depends(a, first, tick, fate) && (a.ok ==> Depends(b, second, a.tick, fate))
    ensures Depends(if a.ok then b else a, first + second, tick, fate)
  {
    AnsweredInTurn(first, second, tick, fate);
  }

  lemma OneMore(n: nat, calls: seq<Call>, tick: nat, head: Ended, rest: Ended, fate: Fate)
    requires n > 0 && Depends(head, calls, tick, fate)
    requires head.ok ==> Depends(rest, Repeat(n - 1, calls), head.tick, fate)
    ensures Depends(if head.ok then rest else head, Repeat(n, calls), tick, fate)
  {
    Chained(head, rest, calls, Repeat(n - 1, calls), tick, fate);
  }

  // --- one endpoint --------------------------------------------------------

  /** An update of a live endpoint works exactly if its label was right or written and its
      reachability and states were written, whatever became of its bounds. The name is noted as
      soon as the label is right. */
  lemma UpdateExactly(w: World, spec: EndpointSpec, fate: Fate)
    requires spec.device in w.live
    ensures var r, t := Update(w, spec, fate), w.tick;
            && (r.ok <==> (fate.labelled(t) || fate.sets(t)) && fate.sets(t + 1) && fate.sets(t + 3))
            && Depends(Answer(r), UPDATING, t, fate)
            && r.world.live == (if fate.labelled(t) || fate.sets(t)
                                then w.live[spec.device := w.live[spec.device].(name := spec.name)] else w.live)
  {
    if AllAnswered(UPDATING, w.tick, fate) {
      assert Answered(UPDATING[0], w.tick + 0, fate) && Answered(UPDATING[1], w.tick + 1, fate);
      assert Answered(UPDATING[3], w.tick + 3, fate);
    }
  }

  lemma CreateExactly(w: World, spec: EndpointSpec, fate: Fate)
    requires spec.publishedAs !in w.children
    ensures Depends(Answer(Create(w, spec, fate)), CREATING, w.tick, fate)
  {
    if AllAnswered(CREATING, w.tick, fate) {
      assert Answered(CREATING[0], w.tick + 0, fate) && Answered(CREATING[1], w.tick + 1, fate);
    }
  }

  lemma CloseExactly(w: World, device: int, fate: Fate)
    requires device in w.live
    ensures Depends(Answer(CloseOne(w, device, fate)), [Close], w.tick, fate)
  {
    AnsweredOnce(Close, w.tick, fate);
  }

  lemma RekeyExactly(w: World, s: Stashed, fate: Fate)
    requires s.spec.device !in w.live
    ensures Depends(Answer(RekeyOne(w, s, fate)), REKEYING, w.tick, fate)
  {
    AnsweredOnce(Subscribe, w.tick, fate);
    AnsweredInTurn([Subscribe], UPDATING, w.tick, fate);
    var watched := Watch(Unwatch(w, s.entry.publishedAs), s.spec.publishedAs, s.spec.device, fate);
    if watched.ok { UpdateExactly(watched.world.(live := w.live[s.spec.device := s.entry]), s.spec, fate); }
  }

  // --- batches -------------------------------------------------------------

  ghost function Closing(live: map<int, LiveEntry>, devices: seq<int>): set<int> { set d | d in devices && d in live }

  /** A removal batch closes each live device once. */
  lemma {:induction false} RemoveManyExactly(w: World, devices: seq<int>, touched: bool, fate: Fate)
    ensures Depends(AnswerOf(RemoveMany(w, devices, touched, fate)), Repeat(|Closing(w.live, devices)|, [Close]),
                    w.tick, fate)
    decreases |devices|
  {
    if devices == [] {
      assert Closing(w.live, devices) == {};
    } else {
      var d, rest := devices[0], devices[1..];
      assert devices == [d] + rest;
      if d !in w.live {
        assert Closing(w.live, devices) == Closing(w.live, rest);
        RemoveManyExactly(w, rest, touched, fate);
      } else {
        var c := CloseOne(w, d, fate);
        var n := |Closing(w.live, devices)|;
        CloseExactly(w, d, fate);
        ClosingOne(w.live, devices);
        if c.ok { RemoveManyExactly(c.world, rest, true, fate); }
        OneMore(n, [Close], w.tick, Answer(c), AnswerOf(RemoveMany(c.world, rest, true, fate)), fate);
      }
    }
  }

  lemma ClosingOne(live: map<int, LiveEntry>, devices: seq<int>)
    requires devices != [] && devices[0] in live
    ensures |Closing(live, devices)| == |Closing(live - {devices[0]}, devices[1..])| + 1
  {
    assert devices == [devices[0]] + devices[1..];
    assert Closing(live, devices) == {devices[0]} + Closing(live - {devices[0]}, devices[1..]);
  }

  /** Every held entry keeps its identity and has a target of its own. */
  ghost predicate OwnTargets(stash: seq<Stashed>) {
    && (forall s :: s in stash ==> s.spec.publishedAs == s.entry.publishedAs)
    && (forall i, j :: 0 <= i < j < |stash| ==> stash[i].spec.device != stash[j].spec.device)
  }

  lemma RekeyLeadsOn(w: World, stash: seq<Stashed>, fate: Fate)
    requires OwnTargets(stash) && w.live.Keys !! Targets(stash) && stash != []
    ensures Depends(Answer(RekeyOne(w, stash[0], fate)), REKEYING, w.tick, fate)
    ensures OwnTargets(stash[1..])
    ensures RekeyOne(w, stash[0], fate).ok ==> RekeyOne(w, stash[0], fate).world.live.Keys !! Targets(stash[1..])
  {
    assert stash == [stash[0]] + stash[1..];
    assert forall i :: 0 <= i < |stash[1..]| ==> stash[1..][i] == stash[i + 1];
    assert stash[0].spec.device in Targets(stash) && Targets(stash[1..]) <= Targets(stash);
    RekeyExactly(w, stash[0], fate);
    RekeyOneMoves(w, stash[0], fate);
  }

  lemma {:induction false} RekeyAllExactly(w: World, stash: seq<Stashed>, fate: Fate)
    requires OwnTargets(stash) && w.live.Keys !! Targets(stash)
    ensures Depends(Answer(RekeyAll(w, stash, fate)), Repeat(|stash|, REKEYING), w.tick, fate)
    decreases |stash|
  {
    if stash != [] {
      var one := RekeyOne(w, stash[0], fate);
      RekeyLeadsOn(w, stash, fate);
      if one.ok { RekeyAllExactly(one.world, stash[1..], fate); }
      OneMore(|stash|, REKEYING, w.tick, Answer(one), Answer(RekeyAll(one.world, stash[1..], fate)), fate);
    }
  }

  lemma {:induction false} CreateAllExactly(w: World, specs: seq<EndpointSpec>, touched: bool, fate: Fate)
    requires DistinctIds(specs) && IdsOf(specs) !! w.children.Keys
    ensures Depends(AnswerOf(CreateAll(w, specs, touched, fate)), Repeat(|specs|, CREATING), w.tick, fate)
    decreases |specs|
  {
    if specs != [] {
      var s, rest := specs[0], specs[1..];
      assert specs == [s] + rest;
      assert s.publishedAs in IdsOf(specs) && IdsOf(rest) <= IdsOf(specs);
      assert forall i :: 0 <= i < |rest| ==> rest[i] == specs[i + 1];
      CreateExactly(w, s, fate);
      CreateShape(w, s, fate);
      var c := Create(w, s, fate);
      if c.ok {
        assert s.publishedAs !in IdsOf(rest);
        CreateAllExactly(c.world, rest, true, fate);
      }
      OneMore(|specs|, CREATING, w.tick, Answer(c), AnswerOf(CreateAll(c.world, rest, true, fate)), fate);
    }
  }

  lemma {:induction false} UpdateAllExactly(w: World, specs: seq<EndpointSpec>, fate: Fate)
    requires DevicesOf(specs) <= w.live.Keys
    ensures Depends(Answer(UpdateAll(w, specs, fate)), Repeat(|specs|, UPDATING), w.tick, fate)
    decreases |specs|
  {
    if specs != [] {
      var s, rest := specs[0], specs[1..];
      assert specs == [s] + rest;
      assert s.device in DevicesOf(specs) && DevicesOf(rest) <= DevicesOf(specs);
      UpdateExactly(w, s, fate);
      var u := Update(w, s, fate);
      if u.ok { UpdateAllExactly(u.world, rest, fate); }
      OneMore(|specs|, UPDATING, w.tick, Answer(u), Answer(UpdateAll(u.world, rest, fate)), fate);
    }
  }

  // --- the phases of a reconcile -------------------------------------------

  lemma GoneIsClosed(w: World, plan: Plan)
    requires DistinctLive(w.live)
    ensures Closing(w.live, Removals(w.live, plan)) == Gone(w.live, plan)
  {
    forall d | d in Gone(w.live, plan) ensures d in w.live { GoneMembers(w.live, plan, d); }
  }

  lemma RemovalsExactly(w: World, comp: map<string, Composition>, desired: seq<EndpointSpec>, plan: Plan, fate: Fate)
    requires Planned(w, comp, desired, plan)
    ensures Depends(AnswerOf(Phase1(w, plan, fate)), Repeat(|Gone(w.live, plan)|, [Close]), w.tick, fate)
  {
    GoneIsClosed(w, plan);
    RemoveManyExactly(w, Removals(w.live, plan), false, fate);
  }

  lemma RekeysExactly(w: World, comp: map<string, Composition>, desired: seq<EndpointSpec>, plan: Plan, fate: Fate)
    requires Planned(w, comp, desired, plan) && Phase1(w, plan, fate).ok
    ensures Phase2(w, plan, fate).ok
    ensures Depends(Answer(Phase3(w, plan, fate)), Repeat(|plan.rekey|, REKEYING),
                    Phase1(w, plan, fate).world.tick, fate)
  {
    var two := Phase2(w, plan, fate);
    AfterVacating(w, comp, desired, plan, fate);
    KindsApart(comp, desired, plan);
    TargetsOfHeld(w.live, plan.rekey);
    RekeyAllExactly(two.world, two.stash, fate);
  }

  lemma CreatesExactly(w: World, comp: map<string, Composition>, desired: seq<EndpointSpec>, plan: Plan, fate: Fate)
    requires Planned(w, comp, desired, plan) && Phase1(w, plan, fate).ok && Phase3(w, plan, fate).ok
    ensures Depends(AnswerOf(Phase4(w, plan, fate)), Repeat(|plan.create| + |plan.recreate|, CREATING),
                    Phase3(w, plan, fate).world.tick, fate)
  {
    CreatesReady(w, comp, desired, plan, fate);
    IdentitiesAreFree(w, comp, desired, plan, fate);
    CreateAllExactly(Phase3(w, plan, fate).world, plan.create + plan.recreate, Phase1(w, plan, fate).touched, fate);
  }

  lemma UpdatesExactly(w: World, comp: map<string, Composition>, desired: seq<EndpointSpec>, plan: Plan, fate: Fate)
    requires Planned(w, comp, desired, plan) && Phase1(w, plan, fate).ok && Phase3(w, plan, fate).ok
    requires Phase4(w, plan, fate).ok
    ensures Depends(Answer(Phase5(w, plan, fate)), Repeat(|plan.update|, UPDATING),
                    Phase4(w, plan, fate).world.tick, fate)
  {
    UpdatesReady(w, comp, desired, plan, fate);
    UpdateAllExactly(Phase4(w, plan, fate).world, plan.update, fate);
  }

  /** The calls a plan comes to: one close for each device that gives its endpoint up, then the
      rekeys, the creates and the updates. */
  ghost function CallsOf(live: map<int, LiveEntry>, plan: Plan): seq<Call> {
    Repeat(|Gone(live, plan)|, [Close])
    + (Repeat(|plan.rekey|, REKEYING)
       + (Repeat(|plan.create| + |plan.recreate|, CREATING) + Repeat(|plan.update|, UPDATING)))
  }

  /** How far four phases got, each run only if the one before it worked. */
  function LastOf(a: Ended, b: Ended, c: Ended, d: Ended): Ended {
    if !a.ok then a else if !b.ok then b else if !c.ok then c else d
  }

  lemma FourInTurn(a: Ended, b: Ended, c: Ended, d: Ended, ca: seq<Call>, cb: seq<Call>, cc: seq<Call>, cd: seq<Call>,
                   tick: nat, fate: Fate)
    requires Depends(a, ca, tick, fate) && (a.ok ==> Depends(b, cb, a.tick, fate))
    requires a.ok && b.ok ==> Depends(c, cc, b.tick, fate)
    requires a.ok && b.ok && c.ok ==> Depends(d, cd, c.tick, fate)
    ensures Depends(LastOf(a, b, c, d), ca + (cb + (cc + cd)), tick, fate)
  {
    var cThenD := if c.ok then d else c;
    var bThenC := if b.ok then cThenD else b;
    if a.ok {
      if b.ok { Chained(c, d, cc, cd, b.tick, fate); }
      Chained(b, cThenD, cb, cc + cd, a.tick, fate);
    }
    Chained(a, bThenC, ca, cb + (cc + cd), tick, fate);
  }

  ghost function Through(w: World, plan: Plan, fate: Fate): Ended {
    LastOf(AnswerOf(Phase1(w, plan, fate)), Answer(Phase3(w, plan, fate)), AnswerOf(Phase4(w, plan, fate)),
           Answer(Phase5(w, plan, fate)))
  }

  /** Each phase that is reached depends on its own calls. */
  ghost predicate PhasesDepend(w: World, plan: Plan, fate: Fate) {
    var one, three, four, five :=
      AnswerOf(Phase1(w, plan, fate)), Answer(Phase3(w, plan, fate)), AnswerOf(Phase4(w, plan, fate)),
      Answer(Phase5(w, plan, fate));
    && Depends(one, Repeat(|Gone(w.live, plan)|, [Close]), w.tick, fate)
    && (one.ok ==> Depends(three, Repeat(|plan.rekey|, REKEYING), one.tick, fate))
    && (one.ok && three.ok ==> Depends(four, Repeat(|plan.create| + |plan.recreate|, CREATING), three.tick, fate))
    && (one.ok && three.ok && four.ok ==> Depends(five, Repeat(|plan.update|, UPDATING), four.tick, fate))
  }

  lemma EachPhaseDepends(w: World, comp: map<string, Composition>, desired: seq<EndpointSpec>, plan: Plan, fate: Fate)
    requires Planned(w, comp, desired, plan)
    ensures PhasesDepend(w, plan, fate)
    ensures Phase1(w, plan, fate).ok ==> Phase2(w, plan, fate).ok
  {
    RemovalsExactly(w, comp, desired, plan, fate);
    if Phase1(w, plan, fate).ok {
      RekeysExactly(w, comp, desired, plan, fate);
      if Phase3(w, plan, fate).ok {
        CreatesExactly(w, comp, desired, plan, fate);
        if Phase4(w, plan, fate).ok { UpdatesExactly(w, comp, desired, plan, fate); }
      }
    }
  }

  lemma PhasesExactly(w: World, plan: Plan, fate: Fate)
    requires PhasesDepend(w, plan, fate)
    ensures Depends(Through(w, plan, fate), CallsOf(w.live, plan), w.tick, fate)
  {
    FourInTurn(AnswerOf(Phase1(w, plan, fate)), Answer(Phase3(w, plan, fate)), AnswerOf(Phase4(w, plan, fate)),
               Answer(Phase5(w, plan, fate)),
               Repeat(|Gone(w.live, plan)|, [Close]), Repeat(|plan.rekey|, REKEYING),
               Repeat(|plan.create| + |plan.recreate|, CREATING), Repeat(|plan.update|, UPDATING), w.tick, fate);
  }

  lemma AppliedExactly(w: World, comp: map<string, Composition>, desired: seq<EndpointSpec>, plan: Plan, fate: Fate)
    requires Planned(w, comp, desired, plan)
    ensures Apply(w, plan, fate).verdict == if AllAnswered(CallsOf(w.live, plan), w.tick, fate) then Done else Aborted
  {
    EachPhaseDepends(w, comp, desired, plan, fate);
    PhasesExactly(w, plan, fate);
    ApplyPhases(w, plan, fate);
  }

  // --- the commands --------------------------------------------------------

  /** A reconcile is refused by its two gates alone, done exactly if every call its plan comes to
      was answered, and aborted otherwise. */
  lemma ReconcileVerdict(w: World, desired: seq<EndpointSpec>, replaceAll: bool, order: seq<string>, fate: Fate)
    requires Requested(w, desired, order)
    ensures ReconcileTo(w, desired, replaceAll, order, fate).verdict ==
            if (exists s :: s in desired && !Supported(s.role))
               || MassRemoval(LiveComposition(w.live), desired, replaceAll) then Refused
            else if AllAnswered(CallsOf(w.live, PlanOf(LiveComposition(w.live), order, desired)), w.tick, fate)
            then Done else Aborted
  {
    var comp := LiveComposition(w.live);
    var plan := PlanOf(comp, order, desired);
    if (forall s :: s in desired ==> Supported(s.role)) && !MassRemoval(comp, desired, replaceAll) {
      RequestIsPlanned(w, desired, order);
      AppliedExactly(w, comp, desired, plan, fate);
    }
  }

  /** What an upsert calls: a create, an update, or for a battery gained a close and a create. */
  function UpsertCalls(w: World, spec: EndpointSpec): seq<Call> {
    if spec.device !in w.live then CREATING
    else if spec.battery && !w.live[spec.device].battery then [Close] + CREATING
    else UPDATING
  }

  /** The same for an upsert: refused for a role, for an identity live on another device or for a
      device that drives something else; otherwise done exactly if its calls were answered. */
  lemma UpsertVerdict(w: World, spec: EndpointSpec, fate: Fate)
    requires Coherent(w)
    ensures Upsert(w, spec, fate).verdict ==
            if !Supported(spec.role) || (spec.device !in w.live && spec.publishedAs in Ids(w.live))
               || (spec.device in w.live
                   && (w.live[spec.device].publishedAs != spec.publishedAs || w.live[spec.device].role != spec.role))
            then Refused
            else if AllAnswered(UpsertCalls(w, spec), w.tick, fate) then Done else Aborted
    ensures Upsert(w, spec, fate).verdict == Refused ==> Upsert(w, spec, fate).world == w
  {
    if spec.device !in w.live {
      if spec.publishedAs !in Ids(w.live) { CreateExactly(w, spec, fate); }
    } else {
      UpdateExactly(w, spec, fate);
      var c := CloseOne(w, spec.device, fate);
      CloseExactly(w, spec.device, fate);
      assert Linked(w, spec.device, w.live[spec.device]);
      if w.live[spec.device].publishedAs == spec.publishedAs && c.ok {
        CreateExactly(c.world, spec, fate);
        Chained(Answer(c), Answer(Create(c.world, spec, fate)), [Close], CREATING, w.tick, fate);
      } else {
        AnsweredInTurn([Close], CREATING, w.tick, fate);
      }
    }
  }

  /** A removal is never refused: it is done where there is nothing to remove, and otherwise exactly
      if the close was answered. */
  lemma RemoveVerdict(w: World, device: int, fate: Fate)
    ensures Remove(w, device, fate).verdict ==
            if device !in w.live || fate.closes(w.tick) then Done else Aborted
  {
  }

  // --- bounds --------------------------------------------------------------

  /** The same answers to everything but bounds writes. */
  ghost predicate SameButBounds(a: Fate, b: Fate) { b == a.(bounds := b.bounds) }

  lemma UpdateIgnoresBounds(w: World, spec: EndpointSpec, a: Fate, b: Fate)
    requires SameButBounds(a, b)
    ensures Update(w, spec, a) == Update(w, spec, b)
  {
  }

  lemma CreateIgnoresBounds(w: World, spec: EndpointSpec, a: Fate, b: Fate)
    requires SameButBounds(a, b)
    ensures Create(w, spec, a) == Create(w, spec, b)
  {
  }

  lemma CloseIgnoresBounds(w: World, device: int, a: Fate, b: Fate)
    requires SameButBounds(a, b) && device in w.live
    ensures CloseOne(w, device, a) == CloseOne(w, device, b)
  {
  }

  lemma RekeyIgnoresBounds(w: World, s: Stashed, a: Fate, b: Fate)
    requires SameButBounds(a, b)
    ensures RekeyOne(w, s, a) == RekeyOne(w, s, b)
  {
    var watched := Watch(Unwatch(w, s.entry.publishedAs), s.spec.publishedAs, s.spec.device, a);
    UpdateIgnoresBounds(watched.world.(live := w.live[s.spec.device := s.entry]), s.spec, a, b);
  }

  lemma {:induction false} RemoveManyIgnoresBounds(w: World, devices: seq<int>, touched: bool, a: Fate, b: Fate)
    requires SameButBounds(a, b)
    ensures RemoveMany(w, devices, touched, a) == RemoveMany(w, devices, touched, b)
    decreases |devices|
  {
    if devices != [] {
      if devices[0] !in w.live {
        RemoveManyIgnoresBounds(w, devices[1..], touched, a, b);
      } else {
        RemoveManyIgnoresBounds(CloseOne(w, devices[0], a).world, devices[1..], true, a, b);
      }
    }
  }

  lemma {:induction false} RekeyAllIgnoresBounds(w: World, stash: seq<Stashed>, a: Fate, b: Fate)
    requires SameButBounds(a, b)
    ensures RekeyAll(w, stash, a) == RekeyAll(w, stash, b)
    decreases |stash|
  {
    if stash != [] {
      RekeyIgnoresBounds(w, stash[0], a, b);
      RekeyAllIgnoresBounds(RekeyOne(w, stash[0], a).world, stash[1..], a, b);
    }
  }

  lemma {:induction false} CreateAllIgnoresBounds(w: World, specs: seq<EndpointSpec>, touched: bool, a: Fate, b: Fate)
    requires SameButBounds(a, b)
    ensures CreateAll(w, specs, touched, a) == CreateAll(w, specs, touched, b)
    decreases |specs|
  {
    if specs != [] {
      CreateIgnoresBounds(w, specs[0], a, b);
      CreateAllIgnoresBounds(Create(w, specs[0], a).world, specs[1..], true, a, b);
    }
  }

  lemma {:induction false} UpdateAllIgnoresBounds(w: World, specs: seq<EndpointSpec>, a: Fate, b: Fate)
    requires SameButBounds(a, b)
    ensures UpdateAll(w, specs, a) == UpdateAll(w, specs, b)
    decreases |specs|
  {
    if specs != [] {
      UpdateIgnoresBounds(w, specs[0], a, b);
      UpdateAllIgnoresBounds(Update(w, specs[0], a).world, specs[1..], a, b);
    }
  }

  lemma ApplyIgnoresBounds(w: World, plan: Plan, a: Fate, b: Fate)
    requires SameButBounds(a, b)
    ensures Apply(w, plan, a) == Apply(w, plan, b)
  {
    RemoveManyIgnoresBounds(w, Removals(w.live, plan), false, a, b);
    var two := Phase2(w, plan, a);
    RekeyAllIgnoresBounds(two.world, two.stash, a, b);
    CreateAllIgnoresBounds(Phase3(w, plan, a).world, plan.create + plan.recreate, Phase1(w, plan, a).touched, a, b);
    UpdateAllIgnoresBounds(Phase4(w, plan, a).world, plan.update, a, b);
    ApplyPhases(w, plan, a);
    ApplyPhases(w, plan, b);
  }

  lemma UpsertIgnoresBounds(w: World, spec: EndpointSpec, a: Fate, b: Fate)
    requires SameButBounds(a, b)
    ensures Upsert(w, spec, a) == Upsert(w, spec, b)
  {
    UpdateIgnoresBounds(w, spec, a, b);
    CreateIgnoresBounds(w, spec, a, b);
    if spec.device in w.live {
      CloseIgnoresBounds(w, spec.device, a, b);
      CreateIgnoresBounds(CloseOne(w, spec.device, a).world, spec, a, b);
    }
  }

  /** Bounds are advisory: whatever matter.js answers to every bounds write of a command, the
      command ends the same, in the same world. */
  lemma BoundsNeverMatter(w: World, desired: seq<EndpointSpec>, replaceAll: bool, order: seq<string>,
                          spec: EndpointSpec, a: Fate, b: Fate)
    requires SameButBounds(a, b)
    ensures ReconcileTo(w, desired, replaceAll, order, a) == ReconcileTo(w, desired, replaceAll, order, b)
    ensures Upsert(w, spec, a) == Upsert(w, spec, b)
  {
    ApplyIgnoresBounds(w, PlanOf(LiveComposition(w.live), order, desired), a, b);
    UpsertIgnoresBounds(w, spec, a, b);
  }
}
