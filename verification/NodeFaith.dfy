/** The persisted map stays faithful to the live set through every command: what is live is
    recorded in full, and nothing that is not live would come back at a restart. */
module NodeFaith {
  import opened Protocol
  import opened Reconcile
  import opened Registry
  import opened RegistryProofs
  import opened RegistryCommands
  import opened RegistryWithin
  import opened EndpointMap
  import opened EndpointMapProofs
  import opened Node
  import opened NodeEffects

  // --- the invariants ------------------------------------------------------

  /** The next start would rebuild this entry: it is restorable once read back from the
      file, in a role this build knows. */
  predicate ComesBack(id: string, r: Record) { Restorable(id, Normal(r)) && Supported(Normal(r).role.value) }

  /** Nothing that is not live comes back. */
  ghost predicate Buried(m: map<string, Record>, live: map<int, LiveEntry>) {
    forall id :: id in m && id !in Ids(live) ==> !ComesBack(id, m[id])
  }

  /** Everything live is recorded in full. */
  ghost predicate AllRecorded(m: map<string, Record>, live: map<int, LiveEntry>) {
    forall d :: d in live ==> Recorded(m, d, live[d])
  }

  ghost predicate Faithful(n: Node) {
    Buried(n.store.endpoints, n.world.live) && AllRecorded(n.store.endpoints, n.world.live)
  }

  /** Every number the map trusts is the one matter.js holds. */
  ghost predicate Trusted(m: map<string, Record>, numbers: map<string, nat>) {
    forall id :: id in m && !m[id].numberVoid ==> id in numbers && numbers[id] == m[id].number
  }

  // --- the bookkeeping steps -----------------------------------------------

  lemma ForgottenStaysDown(id: string, r: Record, successor: Option<string>)
    ensures !ComesBack(id, ForgetOne(r, successor))
    ensures ForgetOne(r, successor).number == r.number && ForgetOne(r, successor).numberVoid == r.numberVoid
  {
  }

  lemma FullComesBack(id: string, r: Record, d: int, e: LiveEntry)
    requires FullRecord(r, d, e) && Supported(e.role)
    ensures ComesBack(id, r) <==> e.name != ""
    ensures ComesBack(id, r) ==>
              AsRestorable(id, Normal(r)) == RestorableEndpoint(id, r.number, d, e.role, e.name, r.battery)
  {
    SupportedIsNamed(e.role);
  }

  lemma CheckKeepsBuried(w: World, s: Store, writes: Writes)
    requires DistinctLive(w.live) && Buried(s.endpoints, w.live)
    ensures Buried(Check(s, LiveNumbers(w), writes).store.endpoints, w.live)
  {
    CheckSettles(w, s, writes);
  }

  lemma SoftKeepsBuried(n: Node, before: map<int, LiveEntry>, env: Env)
    requires DistinctLive(before) && Buried(n.store.endpoints, before)
    ensures Buried(ForgetRemoved(n, LiveDriven(before), false, env).store.endpoints, n.world.live)
  {
    var m0, m := n.store.endpoints, ForgetRemoved(n, LiveDriven(before), false, env).store.endpoints;
    SoftRemovals(n, before, env);
    forall id | id in m && id !in Ids(n.world.live) ensures !ComesBack(id, m[id]) {
      if id in Ids(before) {
        var d :| d in before && before[d].publishedAs == id;
        ForgottenStaysDown(id, m0[id], DepartureFor(before, n.world.live, d, false).successor);
      }
    }
  }

  lemma HardKeepsBuried(n: Node, before: map<int, LiveEntry>, env: Env)
    requires DistinctLive(before) && Buried(n.store.endpoints, before)
    ensures Buried(ForgetRemoved(n, LiveDriven(before), true, env).store.endpoints, n.world.live)
  {
    HardRemovals(n, before, env);
  }

  lemma LiveNumbersTrue(w: World)
    requires DistinctLive(w.live) && Ids(w.live) <= w.numbers.Keys
    ensures forall e :: e in LiveNumbers(w) ==> e.uniqueId in w.numbers && w.numbers[e.uniqueId] == e.number
  {
    LiveNumbersMembers(w);
    forall e | e in LiveNumbers(w) ensures e.uniqueId in w.numbers && w.numbers[e.uniqueId] == e.number {
      var d :| d in w.live && e == LiveNumberOf(w, d);
      assert w.live[d].publishedAs in Ids(w.live);
    }
  }

  lemma CheckTrusts(s: Store, live: seq<LiveNumber>, numbers: map<string, nat>, writes: Writes)
    requires DistinctEntries(live) && Trusted(s.endpoints, numbers)
    requires forall e :: e in live ==> e.uniqueId in numbers && numbers[e.uniqueId] == e.number
    ensures Trusted(Check(s, live, writes).store.endpoints, numbers)
    ensures Check(s, live, writes).drift == []
  {
    CheckExactly(s, live, writes);
    NoDrift(s.endpoints, live);
    var m := Check(s, live, writes).store.endpoints;
    forall id | id in m && !m[id].numberVoid ensures id in numbers && numbers[id] == m[id].number {
      if id in UniqueIds(live) {
        var e :| e in live && e.uniqueId == id;
        assert m[id] == CheckedRecord(s.endpoints, e);
      }
    }
  }

  /** A check of a live set whose numbers the map already trusts finds no drift and trusts
      nothing wrong. */
  lemma CheckKeepsTrusted(w: World, s: Store, writes: Writes)
    requires DistinctLive(w.live) && Ids(w.live) <= w.numbers.Keys && Trusted(s.endpoints, w.numbers)
    ensures Trusted(Check(s, LiveNumbers(w), writes).store.endpoints, w.numbers)
    ensures Check(s, LiveNumbers(w), writes).drift == []
  {
    LiveNumbersMembers(w);
    LiveNumbersTrue(w);
    CheckTrusts(s, LiveNumbers(w), w.numbers, writes);
  }

  lemma {:induction false} NoDrift(m: map<string, Record>, live: seq<LiveNumber>)
    requires forall e :: e in live ==> !Drifts(m, e)
    ensures DriftSeq(m, live) == []
  {
    if live != [] {
      assert live[0] in live;
      NoDrift(m, live[1..]);
    }
  }

  lemma SoftKeepsTrusted(n: Node, before: map<int, LiveEntry>, env: Env)
    requires DistinctLive(before) && Trusted(n.store.endpoints, n.world.numbers)
    ensures Trusted(ForgetRemoved(n, LiveDriven(before), false, env).store.endpoints, n.world.numbers)
  {
    var m0, m := n.store.endpoints, ForgetRemoved(n, LiveDriven(before), false, env).store.endpoints;
    SoftRemovals(n, before, env);
    forall id | id in m ensures m[id].number == m0[id].number && m[id].numberVoid == m0[id].numberVoid {
      if id in Ids(before) && id !in Ids(n.world.live) {
        var d :| d in before && before[d].publishedAs == id;
        ForgottenStaysDown(id, m0[id], DepartureFor(before, n.world.live, d, false).successor);
      }
    }
  }

  lemma HardKeepsTrusted(n: Node, before: map<int, LiveEntry>, env: Env)
    requires DistinctLive(before) && Trusted(n.store.endpoints, n.world.numbers)
    ensures Trusted(ForgetRemoved(n, LiveDriven(before), true, env).store.endpoints, n.world.numbers)
  {
    HardRemovals(n, before, env);
  }

  lemma GrownTrusted(m: map<string, Record>, before: World, after: World)
    requires Trusted(m, before.numbers) && Grows(before, after)
    ensures Trusted(m, after.numbers)
  {
  }

  // --- attach and remove ---------------------------------------------------

  /** Whatever an attach comes to, refused, done or aborted, it leaves the map faithful. */
  lemma AttachKeepsFaith(n: Node, desired: seq<EndpointSpec>, replaceAll: bool, order: seq<string>, env: Env)
    requires LiveWithin(n.world) && Buried(n.store.endpoints, n.world.live)
    ensures Faithful(Attach(n, desired, replaceAll, order, env).node)
  {
    var o := ReconcileTo(n.world, desired, replaceAll, order, env.fate);
    var moved := n.(world := o.world);
    AbortKeepsDistinct(n.world, desired, replaceAll, order, env.fate);
    var marked := ForgetRemoved(moved, LiveDriven(n.world.live), false, env);
    SoftKeepsBuried(moved, n.world.live, env);
    CheckKeepsBuried(o.world, marked.store, env.writes);
    CheckRecords(o.world, marked.store, env.writes);
  }

  lemma RemoveKeepsFaith(n: Node, device: int, env: Env)
    requires LiveWithin(n.world) && Buried(n.store.endpoints, n.world.live)
    ensures Faithful(RemoveCommand(n, device, env).node)
  {
    var o := Remove(n.world, device, env.fate);
    var moved := n.(world := o.world);
    RemoveWithin(n.world, device, env.fate);
    var dropped := ForgetRemoved(moved, LiveDriven(n.world.live), true, env);
    HardKeepsBuried(moved, n.world.live, env);
    CheckKeepsBuried(o.world, dropped.store, env.writes);
    CheckRecords(o.world, dropped.store, env.writes);
  }

  // --- what becomes of the records -----------------------------------------

  /** An attach drops no record: whatever left is marked, whatever is live is there. */
  lemma AttachDropsNothing(n: Node, desired: seq<EndpointSpec>, replaceAll: bool, order: seq<string>, env: Env)
    requires LiveWithin(n.world)
    ensures var r := Attach(n, desired, replaceAll, order, env).node;
            r.store.endpoints.Keys == n.store.endpoints.Keys + Ids(r.world.live)
  {
    var o := ReconcileTo(n.world, desired, replaceAll, order, env.fate);
    var moved := n.(world := o.world);
    AbortKeepsDistinct(n.world, desired, replaceAll, order, env.fate);
    SoftRemovals(moved, n.world.live, env);
    CheckSettles(o.world, ForgetRemoved(moved, LiveDriven(n.world.live), false, env).store, env.writes);
  }

  /** The identity a removal took out of the live set, if it took one. */
  function Taken(w: World, device: int, fate: Fate): set<string> {
    if Remove(w, device, fate).verdict == Done && device in w.live then {w.live[device].publishedAs} else {}
  }

  lemma TakenLeaves(w: World, device: int, fate: Fate)
    requires DistinctLive(w.live)
    ensures Ids(w.live) - Ids(Remove(w, device, fate).world.live) == Taken(w, device, fate)
  {
    if device in w.live {
      CloseShape(w, device, fate);
      IdsWithout(w.live, device);
      assert w.live[device].publishedAs in Ids(w.live);
    }
  }

  /** A removal that is done drops the record of what it removed and no other; one that is not
      drops none. */
  lemma RemovalDestroys(n: Node, device: int, env: Env)
    requires LiveWithin(n.world)
    ensures var r := RemoveCommand(n, device, env).node;
            r.store.endpoints.Keys ==
            n.store.endpoints.Keys - Taken(n.world, device, env.fate) + Ids(r.world.live)
  {
    var w := Remove(n.world, device, env.fate).world;
    var moved := n.(world := w);
    RemoveWithin(n.world, device, env.fate);
    TakenLeaves(n.world, device, env.fate);
    HardRemovals(moved, n.world.live, env);
    CheckSettles(w, ForgetRemoved(moved, LiveDriven(n.world.live), true, env).store, env.writes);
  }

  // --- upsert, exactly -----------------------------------------------------

  /** A remembered removal about to be paired with a create although the identity has since
      gone live again on another device. */
  ghost predicate StalePairing(n: Node, spec: EndpointSpec) {
    && spec.device in n.lastRemoved
    && Supersedes(n.lastRemoved[spec.device], spec.publishedAs)
    && n.lastRemoved[spec.device] in Ids(n.world.live)
  }

  /** The memory of a device is used up by the first create that is told of, whatever comes of it. */
  lemma PairingForgets(n: Node, spec: EndpointSpec, env: Env)
    ensures NoteSupersession(n, spec, env) ==
            n.(lastRemoved := n.lastRemoved - {spec.device}, store := NoteSupersession(n, spec, env).store)
  {
  }

  lemma PairingEffect(n: Node, spec: EndpointSpec, env: Env)
    ensures var m0, m := n.store.endpoints, NoteSupersession(n, spec, env).store.endpoints;
            var paired := spec.device in n.lastRemoved && Supersedes(n.lastRemoved[spec.device], spec.publishedAs);
            m == if paired && n.lastRemoved[spec.device] in m0
                 then m0[n.lastRemoved[spec.device] :=
                           ForgetOne(m0[n.lastRemoved[spec.device]], Some(spec.publishedAs))]
                 else m0
  {
    if spec.device in n.lastRemoved {
      ForgetSingle(n.store.endpoints, n.lastRemoved[spec.device], Some(spec.publishedAs));
    }
  }

  /** Pairing over a faithful map breaks faith exactly when it is stale. */
  lemma PairingFaith(n: Node, spec: EndpointSpec, env: Env)
    requires AllRecorded(n.store.endpoints, n.world.live)
    ensures Buried(n.store.endpoints, n.world.live) ==>
              Buried(NoteSupersession(n, spec, env).store.endpoints, n.world.live)
    ensures AllRecorded(NoteSupersession(n, spec, env).store.endpoints, n.world.live) <==> !StalePairing(n, spec)
  {
    var m0, m := n.store.endpoints, NoteSupersession(n, spec, env).store.endpoints;
    PairingEffect(n, spec, env);
    forall id | id in m0 ensures !ComesBack(id, ForgetOne(m0[id], Some(spec.publishedAs))) {
      ForgottenStaysDown(id, m0[id], Some(spec.publishedAs));
    }
    if StalePairing(n, spec) {
      var id := n.lastRemoved[spec.device];
      var d :| d in n.world.live && n.world.live[d].publishedAs == id;
      assert Recorded(m0, d, n.world.live[d]);
      assert !Recorded(m, d, n.world.live[d]);
    } else {
      forall d | d in n.world.live ensures Recorded(m, d, n.world.live[d]) {
        assert Recorded(m0, d, n.world.live[d]) && n.world.live[d].publishedAs in Ids(n.world.live);
      }
    }
  }

  /** An upsert's own part, before any pairing: the map is faithful unless a battery gain
      lost an accessory that carries a name. */
  lemma UpsertedFaith(n: Node, spec: EndpointSpec, env: Env)
    requires Faithful(n) && LiveWithin(n.world) && RolesKnown(n.world.live)
    ensures var v := Upsert(n.world, spec, env.fate).world;
            var checked := CheckDrift(n.(world := v), env);
            && AllRecorded(checked.store.endpoints, v.live)
            && (Buried(checked.store.endpoints, v.live)
                <==> !(LosesOnGain(n.world, spec, env.fate) && n.world.live[spec.device].name != ""))
  {
    var w, m := n.world, n.store.endpoints;
    var v := Upsert(w, spec, env.fate).world;
    UpsertWithin(w, spec, env.fate);
    CheckRecords(v, n.store, env.writes);
    UpsertLosesExactly(w, spec, env.fate);
    if LosesOnGain(w, spec, env.fate) {
      IdsWithout(w.live, spec.device);
      LostIsSettled(n, spec, v, env);
    } else {
      forall id | id in m && id !in Ids(v.live) ensures id !in Ids(w.live) {}
      CheckKeepsBuried(v, n.store, env.writes);
    }
  }

  /** The lost identity's record is untouched by the check that follows. */
  lemma LostIsSettled(n: Node, spec: EndpointSpec, v: World, env: Env)
    requires Faithful(n) && RolesKnown(n.world.live) && spec.device in n.world.live && DistinctLive(v.live)
    requires v.live == n.world.live - {spec.device}
             && Ids(v.live) == Ids(n.world.live) - {n.world.live[spec.device].publishedAs}
    ensures Buried(Check(n.store, LiveNumbers(v), env.writes).store.endpoints, v.live)
            <==> n.world.live[spec.device].name == ""
  {
    var e := n.world.live[spec.device];
    var m, after := n.store.endpoints, Check(n.store, LiveNumbers(v), env.writes).store.endpoints;
    CheckSettles(v, n.store, env.writes);
    assert Recorded(m, spec.device, e);
    assert e.publishedAs in Ids(n.world.live) && e.publishedAs !in Ids(v.live);
    assert after[e.publishedAs] == m[e.publishedAs];
    FullComesBack(e.publishedAs, m[e.publishedAs], spec.device, e);
  }

  lemma DoneMeansNotLost(w: World, spec: EndpointSpec, fate: Fate)
    requires Upsert(w, spec, fate).verdict == Done
    ensures !LosesOnGain(w, spec, fate)
  {
  }

  /** A live identity after a successful upsert that the new spec supersedes was live before. */
  lemma LiveBeforeToo(w: World, spec: EndpointSpec, fate: Fate, id: string)
    requires Upsert(w, spec, fate).verdict == Done && id != spec.publishedAs
    ensures id in Ids(Upsert(w, spec, fate).world.live) <==> id in Ids(w.live)
  {
    var v := Upsert(w, spec, fate).world;
    UpsertExact(w, spec, fate);
    if id in Ids(v.live) {
      var d :| d in v.live && v.live[d].publishedAs == id;
      assert w.live[d].publishedAs == id;
    }
    if id in Ids(w.live) {
      var d :| d in w.live && w.live[d].publishedAs == id;
      assert v.live[d].publishedAs == id;
    }
  }

  /** The check between an upsert and its pairing does not change whether the pairing is stale. */
  lemma StaleAlike(n: Node, checked: Node, spec: EndpointSpec, env: Env)
    requires Upsert(n.world, spec, env.fate).verdict == Done
    requires checked.lastRemoved == n.lastRemoved && checked.world == Upsert(n.world, spec, env.fate).world
    ensures StalePairing(checked, spec) <==> StalePairing(n, spec)
  {
    if spec.device in n.lastRemoved {
      var was := n.lastRemoved[spec.device];
      SupersedesIsStrictOrder(was, spec.publishedAs, was);
      if was != spec.publishedAs { LiveBeforeToo(n.world, spec, env.fate, was); }
    }
  }

  /** An upsert leaves the map faithful exactly when it neither loses a named accessory to a
      failed battery gain nor succeeds with a stale pairing. */
  lemma UpsertKeepsFaithExactly(n: Node, spec: EndpointSpec, env: Env)
    requires Faithful(n) && LiveWithin(n.world) && RolesKnown(n.world.live)
    ensures Faithful(UpsertCommand(n, spec, env).node) <==>
            && !(LosesOnGain(n.world, spec, env.fate) && n.world.live[spec.device].name != "")
            && !(UpsertCommand(n, spec, env).verdict == Done && StalePairing(n, spec))
  {
    var o := Upsert(n.world, spec, env.fate);
    var checked := CheckDrift(n.(world := o.world), env);
    UpsertedFaith(n, spec, env);
    if o.verdict == Done {
      DoneMeansNotLost(n.world, spec, env.fate);
      PairingFaith(checked, spec, env);
      StaleAlike(n, checked, spec, env);
    }
  }
}
