/** The registry behind its mutation chain. Each command is a coroutine that awaits matter.js
    once per endpoint, carrying its plan and stash across the awaits; run with the registry to
    itself it is the command, and under any interleaving the chain makes it so. */
module RegistryQueue {
  import opened Protocol
  import opened Reconcile
  import opened Registry
  import opened RegistryProofs
  import opened RegistryCommands
  import opened Serialize

  /** The four mutating entry points, every one of them serialised. */
  datatype Mutation =
    | ReconcileLive(desired: seq<EndpointSpec>, replaceAll: bool, order: seq<string>)
    | UpsertOne(spec: EndpointSpec)
    | RemoveOne(device: int)
    | RestoreMany(specs: seq<EndpointSpec>)

  ghost function Perform(w: World, m: Mutation, fate: Fate): Outcome {
    match m
    case ReconcileLive(desired, replaceAll, order) => ReconcileTo(w, desired, replaceAll, order, fate)
    case UpsertOne(spec) => Upsert(w, spec, fate)
    case RemoveOne(device) => Remove(w, device, fate)
    case RestoreMany(specs) => Outcome(Restore(w, specs, fate).world, Done)
  }

  // --- the commands, turn by turn ------------------------------------------

  /** Where a command is and what it carries there. */
  datatype Locals =
    | Starting(m: Mutation)
    | Removing(devices: seq<int>, touched: bool, plan: Plan)
    | Rekeying(stash: seq<Stashed>, touched: bool, plan: Plan)
    | Creating(specs: seq<EndpointSpec>, touched: bool, plan: Plan)
    | Updating(specs: seq<EndpointSpec>, touched: bool, plan: Plan)
    | Recreating(spec: EndpointSpec)         // the second half of a battery gain
    | Restoring(specs: seq<EndpointSpec>)
    | Announcing(thrown: bool)               // the configuration-change hook, then the end

  /** The abort handler: announce what was touched, then rethrow. */
  function Abandon(w: World, touched: bool): Turn<World, Locals> {
    if touched then Go(w, Announcing(true)) else Throw(w)
  }

  ghost function StartTurn(w: World, m: Mutation, fate: Fate): Turn<World, Locals> {
    match m
    case ReconcileLive(desired, replaceAll, order) =>
      if (exists s :: s in desired && !Supported(s.role)) || MassRemoval(LiveComposition(w.live), desired, replaceAll)
      then Throw(w)
      else
        var plan := PlanOf(LiveComposition(w.live), order, desired);
        Go(w, Removing(Removals(w.live, plan), false, plan))
    case UpsertOne(spec) => UpsertTurn(w, spec, fate)
    case RemoveOne(device) =>
      if device !in w.live then Return(w)
      else
        var c := CloseOne(w, device, fate);
        if c.ok then Go(c.world, Announcing(false)) else Throw(c.world)
    case RestoreMany(specs) => Go(w, Restoring(specs))
  }

  ghost function UpsertTurn(w: World, spec: EndpointSpec, fate: Fate): Turn<World, Locals> {
    if !Supported(spec.role) then Throw(w)
    else if spec.device !in w.live then
      if spec.publishedAs in Ids(w.live) then Throw(w)
      else
        var c := Create(w, spec, fate);
        if c.ok then Go(c.world, Announcing(false)) else Throw(c.world)
    else if w.live[spec.device].publishedAs != spec.publishedAs || w.live[spec.device].role != spec.role then Throw(w)
    else if spec.battery && !w.live[spec.device].battery then
      var c := CloseOne(w, spec.device, fate);
      if c.ok then Go(c.world, Recreating(spec)) else Throw(c.world)
    else
      var u := Update(w, spec, fate);
      if u.ok then Return(u.world) else Throw(u.world)
  }

  /** One turn of any command: one close, rekey, create or update, or a step between two
      phases that awaits nothing. */
  ghost function RegistryTurn(w: World, l: Locals, fate: Fate): Turn<World, Locals> {
    match l
    case Starting(m) => StartTurn(w, m, fate)
    case Removing(devices, touched, plan) =>
      if devices == [] then
        var v := Vacate(w, plan.rekey, []);
        if v.ok then Go(v.world, Rekeying(v.stash, touched, plan)) else Abandon(v.world, touched)
      else if devices[0] !in w.live then Go(w, Removing(devices[1..], touched, plan))
      else
        var c := CloseOne(w, devices[0], fate);
        if c.ok then Go(c.world, Removing(devices[1..], true, plan)) else Abandon(c.world, touched)
    case Rekeying(stash, touched, plan) =>
      if stash == [] then Go(w, Creating(plan.create + plan.recreate, touched, plan))
      else
        var r := RekeyOne(w, stash[0], fate);
        if r.ok then Go(r.world, Rekeying(stash[1..], touched, plan)) else Abandon(r.world, touched)
    case Creating(specs, touched, plan) =>
      if specs == [] then Go(w, Updating(plan.update, touched, plan))
      else
        var c := Create(w, specs[0], fate);
        if c.ok then Go(c.world, Creating(specs[1..], true, plan)) else Abandon(c.world, touched)
    case Updating(specs, touched, plan) =>
      if specs == [] then
        if plan.create != [] || plan.recreate != [] || plan.remove != [] then Go(w, Announcing(false)) else Return(w)
      else
        var u := Update(w, specs[0], fate);
        if u.ok then Go(u.world, Updating(specs[1..], touched, plan)) else Abandon(u.world, touched)
    case Recreating(spec) =>
      var c := Create(w, spec, fate);
      Go(c.world, Announcing(!c.ok))
    case Restoring(specs) =>
      if specs == [] then Return(w) else Go(Create(w, specs[0], fate).world, Restoring(specs[1..]))
    case Announcing(thrown) => if thrown then Throw(Bump(w)) else Return(Bump(w))
  }

  /** Phases left, then endpoints left in this one. */
  function TurnsLeft(l: Locals): (nat, nat) {
    match l
    case Starting(_) => (5, 0)
    case Removing(devices, _, _) => (4, |devices|)
    case Rekeying(stash, _, _) => (3, |stash|)
    case Creating(specs, _, _) => (2, |specs|)
    case Updating(specs, _, _) => (1, |specs|)
    case Recreating(_) => (1, 0)
    case Restoring(specs) => (1, |specs|)
    case Announcing(_) => (0, 0)
  }

  function NameFor(m: Mutation): string {
    match m
    case ReconcileLive(_, _, _) => "reconcile"
    case UpsertOne(_) => "upsert_endpoint"
    case RemoveOne(_) => "remove_endpoint"
    case RestoreMany(_) => "restore"
  }

  ghost function JobFor(m: Mutation, fate: Fate): Job<World, Locals> {
    Job(NameFor(m), Starting(m), (w, l) => RegistryTurn(w, l, fate), TurnsLeft)
  }

  lemma CommandsEnd(m: Mutation, fate: Fate)
    ensures Ends(JobFor(m, fate))
  {
    var job := JobFor(m, fate);
    forall w, l | job.turn(w, l).Go? ensures Smaller(job.size(job.turn(w, l).locals), job.size(l)) {
      TurnShrinks(w, l, fate);
    }
  }

  lemma TurnShrinks(w: World, l: Locals, fate: Fate)
    requires RegistryTurn(w, l, fate).Go?
    ensures Smaller(TurnsLeft(RegistryTurn(w, l, fate).locals), TurnsLeft(l))
  {
  }

  // --- run alone, they are the commands ------------------------------------

  /** What a command's coroutine comes to when it has settled. */
  function Settled(o: Outcome): Ended<World> { Ended(o.world, o.verdict != Done) }

  /** The rest of a reconcile after each phase, as `Apply` continues. */
  function AfterUpdates(u: Step, touched: bool, plan: Plan): Outcome {
    if !u.ok then Abort(Batch(u.world, false, touched))
    else Outcome(if plan.create != [] || plan.recreate != [] || plan.remove != [] then Bump(u.world) else u.world, Done)
  }

  function AfterBuilds(b: Batch, plan: Plan, fate: Fate): Outcome {
    if !b.ok then Abort(b) else AfterUpdates(UpdateAll(b.world, plan.update, fate), b.touched, plan)
  }

  function AfterMoves(r: Step, touched: bool, plan: Plan, fate: Fate): Outcome {
    if !r.ok then Abort(Batch(r.world, false, touched))
    else AfterBuilds(CreateAll(r.world, plan.create + plan.recreate, touched, fate), plan, fate)
  }

  function AfterCloses(b: Batch, plan: Plan, fate: Fate): Outcome {
    if !b.ok then Abort(b)
    else
      var v := Vacate(b.world, plan.rekey, []);
      if !v.ok then Abort(Batch(v.world, false, b.touched))
      else AfterMoves(RekeyAll(v.world, v.stash, fate), b.touched, plan, fate)
  }

  lemma ApplyIsPhases(w: World, plan: Plan, fate: Fate)
    ensures Apply(w, plan, fate) == AfterCloses(RemoveMany(w, Removals(w.live, plan), false, fate), plan, fate)
  {
  }

  /** `job` runs this registry's turns. */
  ghost predicate Runs(job: Job<World, Locals>, fate: Fate) {
    && Ends(job) && (forall w, l :: job.turn(w, l) == RegistryTurn(w, l, fate))
  }

  ghost function After(job: Job<World, Locals>, turn: Turn<World, Locals>): Ended<World>
    requires Ends(job)
  {
    match turn
    case Return(t) => Ended(t, false)
    case Throw(t) => Ended(t, true)
    case Go(t, l) => RunAlone(job, t, l)
  }

  lemma Unfold(job: Job<World, Locals>, w: World, l: Locals, fate: Fate)
    requires Runs(job, fate)
    ensures RunAlone(job, w, l) == After(job, RegistryTurn(w, l, fate))
  {
  }

  lemma AnnouncingRuns(job: Job<World, Locals>, w: World, thrown: bool, fate: Fate)
    requires Runs(job, fate)
    ensures RunAlone(job, w, Announcing(thrown)) == Ended(Bump(w), thrown)
  {
    Unfold(job, w, Announcing(thrown), fate);
  }

  lemma {:induction false} UpdatingRuns(job: Job<World, Locals>, w: World, specs: seq<EndpointSpec>, touched: bool,
                                        plan: Plan, fate: Fate)
    requires Runs(job, fate)
    ensures RunAlone(job, w, Updating(specs, touched, plan))
            == Settled(AfterUpdates(UpdateAll(w, specs, fate), touched, plan))
    decreases |specs|
  {
    Unfold(job, w, Updating(specs, touched, plan), fate);
    if specs == [] {
      AnnouncingRuns(job, w, false, fate);
    } else {
      var u := Update(w, specs[0], fate);
      AnnouncingRuns(job, u.world, true, fate);
      if u.ok { UpdatingRuns(job, u.world, specs[1..], touched, plan, fate); }
    }
  }

  lemma {:induction false} CreatingRuns(job: Job<World, Locals>, w: World, specs: seq<EndpointSpec>, touched: bool,
                                        plan: Plan, fate: Fate)
    requires Runs(job, fate)
    ensures RunAlone(job, w, Creating(specs, touched, plan))
            == Settled(AfterBuilds(CreateAll(w, specs, touched, fate), plan, fate))
    decreases |specs|
  {
    Unfold(job, w, Creating(specs, touched, plan), fate);
    if specs == [] {
      UpdatingRuns(job, w, plan.update, touched, plan, fate);
    } else {
      var c := Create(w, specs[0], fate);
      AnnouncingRuns(job, c.world, true, fate);
      if c.ok { CreatingRuns(job, c.world, specs[1..], true, plan, fate); }
    }
  }

  lemma {:induction false} RekeyingRuns(job: Job<World, Locals>, w: World, stash: seq<Stashed>, touched: bool,
                                        plan: Plan, fate: Fate)
    requires Runs(job, fate)
    ensures RunAlone(job, w, Rekeying(stash, touched, plan))
            == Settled(AfterMoves(RekeyAll(w, stash, fate), touched, plan, fate))
    decreases |stash|
  {
    Unfold(job, w, Rekeying(stash, touched, plan), fate);
    if stash == [] {
      CreatingRuns(job, w, plan.create + plan.recreate, touched, plan, fate);
    } else {
      var r := RekeyOne(w, stash[0], fate);
      AnnouncingRuns(job, r.world, true, fate);
      if r.ok { RekeyingRuns(job, r.world, stash[1..], touched, plan, fate); }
    }
  }

  lemma {:induction false} RemovingRuns(job: Job<World, Locals>, w: World, devices: seq<int>, touched: bool, plan: Plan,
                                        fate: Fate)
    requires Runs(job, fate)
    ensures RunAlone(job, w, Removing(devices, touched, plan))
            == Settled(AfterCloses(RemoveMany(w, devices, touched, fate), plan, fate))
    decreases |devices|
  {
    Unfold(job, w, Removing(devices, touched, plan), fate);
    if devices == [] {
      var v := Vacate(w, plan.rekey, []);
      AnnouncingRuns(job, v.world, true, fate);
      if v.ok { RekeyingRuns(job, v.world, v.stash, touched, plan, fate); }
    } else if devices[0] !in w.live {
      RemovingRuns(job, w, devices[1..], touched, plan, fate);
    } else {
      var c := CloseOne(w, devices[0], fate);
      AnnouncingRuns(job, c.world, true, fate);
      if c.ok { RemovingRuns(job, c.world, devices[1..], true, plan, fate); }
    }
  }

  lemma {:induction false} RestoringRuns(job: Job<World, Locals>, w: World, specs: seq<EndpointSpec>, fate: Fate)
    requires Runs(job, fate)
    ensures RunAlone(job, w, Restoring(specs)) == Ended(Restore(w, specs, fate).world, false)
    decreases |specs|
  {
    Unfold(job, w, Restoring(specs), fate);
    if specs != [] { RestoringRuns(job, Create(w, specs[0], fate).world, specs[1..], fate); }
  }

  lemma ReconcileRuns(job: Job<World, Locals>, w: World, desired: seq<EndpointSpec>, replaceAll: bool,
                      order: seq<string>, fate: Fate)
    requires Runs(job, fate)
    ensures RunAlone(job, w, Starting(ReconcileLive(desired, replaceAll, order)))
         == Settled(ReconcileTo(w, desired, replaceAll, order, fate))
  {
    var plan := PlanOf(LiveComposition(w.live), order, desired);
    Unfold(job, w, Starting(ReconcileLive(desired, replaceAll, order)), fate);
    RemovingRuns(job, w, Removals(w.live, plan), false, plan, fate);
    ApplyIsPhases(w, plan, fate);
  }

  lemma UpsertRuns(job: Job<World, Locals>, w: World, spec: EndpointSpec, fate: Fate)
    requires Runs(job, fate)
    ensures RunAlone(job, w, Starting(UpsertOne(spec))) == Settled(Upsert(w, spec, fate))
  {
    Unfold(job, w, Starting(UpsertOne(spec)), fate);
    if spec.device !in w.live {
      AnnouncingRuns(job, Create(w, spec, fate).world, false, fate);
    } else {
      var c := CloseOne(w, spec.device, fate);
      var made := Create(c.world, spec, fate);
      Unfold(job, c.world, Recreating(spec), fate);
      AnnouncingRuns(job, made.world, !made.ok, fate);
    }
  }

  lemma RemoveRuns(job: Job<World, Locals>, w: World, device: int, fate: Fate)
    requires Runs(job, fate)
    ensures RunAlone(job, w, Starting(RemoveOne(device))) == Settled(Remove(w, device, fate))
  {
    Unfold(job, w, Starting(RemoveOne(device)), fate);
    if device in w.live { AnnouncingRuns(job, CloseOne(w, device, fate).world, false, fate); }
  }

  /** Every command's coroutine, run with the registry to itself, ends, does exactly what the
      command specifies, and throws exactly when that is refused or aborts. */
  lemma CoroutinePerforms(w: World, m: Mutation, fate: Fate)
    ensures Ends(JobFor(m, fate))
    ensures RunAlone(JobFor(m, fate), w, JobFor(m, fate).start) == Settled(Perform(w, m, fate))
  {
    var job := JobFor(m, fate);
    CommandsEnd(m, fate);
    match m
    case ReconcileLive(desired, replaceAll, order) => ReconcileRuns(job, w, desired, replaceAll, order, fate);
    case UpsertOne(spec) => UpsertRuns(job, w, spec, fate);
    case RemoveOne(device) => RemoveRuns(job, w, device, fate);
    case RestoreMany(specs) =>
      Unfold(job, w, Starting(m), fate);
      RestoringRuns(job, w, specs, fate);
  }

  // --- many at once --------------------------------------------------------

  ghost function PerformAll(w: World, ms: seq<Mutation>, fate: Fate): World
    decreases |ms|
  {
    if ms == [] then w else Perform(PerformAll(w, ms[..|ms| - 1], fate), ms[|ms| - 1], fate).world
  }

  ghost predicate Submitted(jobs: seq<Job<World, Locals>>, ms: seq<Mutation>, fate: Fate) {
    |jobs| == |ms| && forall i :: 0 <= i < |jobs| ==> jobs[i] == JobFor(ms[i], fate)
  }

  lemma {:induction false} SequentialIsPerformAll(w: World, jobs: seq<Job<World, Locals>>, ms: seq<Mutation>,
                                                  fate: Fate)
    requires AllEnd(jobs) && Submitted(jobs, ms, fate)
    ensures Sequential(w, jobs) == PerformAll(w, ms, fate)
    decreases |jobs|
  {
    if jobs != [] {
      var last := |jobs| - 1;
      SequentialIsPerformAll(w, jobs[..last], ms[..last], fate);
      CoroutinePerforms(PerformAll(w, ms[..last], fate), ms[last], fate);
    }
  }

  /** What keeps the registry's three views in agreement, command by command. */
  ghost predicate LawfulMutation(w: World, m: Mutation, fate: Fate) {
    match m
    case ReconcileLive(desired, replaceAll, order) => LawfulAttach(w, desired, replaceAll, order, fate)
    case RestoreMany(specs) =>
      && DistinctDevices(specs) && DevicesOf(specs) !! w.live.Keys && (forall s :: s in specs ==> Supported(s.role))
      && RestoreRecovers(w, specs, fate)
    case UpsertOne(spec) => UpsertRecovers(w, spec, fate)
    case RemoveOne(device) => device !in w.live || CloseRecovers(w, fate)
  }

  ghost predicate LawfulQueue(w: World, ms: seq<Mutation>, fate: Fate)
    decreases |ms|
  {
    ms != [] ==>
      LawfulQueue(w, ms[..|ms| - 1], fate) && LawfulMutation(PerformAll(w, ms[..|ms| - 1], fate), ms[|ms| - 1], fate)
  }

  lemma MutationKeepsGood(w: World, m: Mutation, fate: Fate)
    requires WorldGood(w) && LawfulMutation(w, m, fate)
    ensures WorldGood(Perform(w, m, fate).world)
  {
    match m
    case ReconcileLive(desired, replaceAll, order) => AttachWorldGood(w, desired, replaceAll, order, fate);
    case UpsertOne(spec) => UpsertKeeps(w, spec, fate); UpsertGrows(w, spec, fate);
    case RemoveOne(device) => RemoveKeeps(w, device, fate); RemoveGrows(w, device, fate);
    case RestoreMany(specs) => RestoreKeeps(w, specs, fate); RestoreGrows(w, specs, fate);
  }

  lemma {:induction false} QueueKeepsGood(w: World, ms: seq<Mutation>, fate: Fate)
    requires WorldGood(w) && LawfulQueue(w, ms, fate)
    ensures WorldGood(PerformAll(w, ms, fate))
    decreases |ms|
  {
    if ms != [] {
      QueueKeepsGood(w, ms[..|ms| - 1], fate);
      MutationKeepsGood(PerformAll(w, ms[..|ms| - 1], fate), ms[|ms| - 1], fate);
    }
  }

  /** However the event loop interleaves the turns of registry commands with one another's
      arrival, once all are answered the registry is that of the commands performed whole, one
      after another, and in agreement if each was lawful at its turn. */
  lemma ConcurrentCommandsAreSequential(w: World, schedule: seq<Event<World, Locals>>, ms: seq<Mutation>, fate: Fate)
    requires var c := Run(Idle(w), schedule);
             && Submitted(c.submitted, ms, fate)
             && forall i :: 0 <= i < |ms| ==> ResultOf(i) < |c.promises| && HasSettled(c.promises[ResultOf(i)])
    ensures Run(Idle(w), schedule).shared == PerformAll(w, ms, fate)
    ensures WorldGood(w) && LawfulQueue(w, ms, fate) ==> WorldGood(Run(Idle(w), schedule).shared)
  {
    AllRecorded(Idle(w), schedule);
    forall i | 0 <= i < |ms| ensures Ends(JobFor(ms[i], fate)) { CommandsEnd(ms[i], fate); }
    SameAsSequential(w, schedule);
    SequentialIsPerformAll(w, Run(Idle(w), schedule).submitted, ms, fate);
    if WorldGood(w) && LawfulQueue(w, ms, fate) { QueueKeepsGood(w, ms, fate); }
  }
}
