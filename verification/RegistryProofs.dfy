/** What a reconcile guarantees: the live set it leaves, what survives an abort, and when
    the configuration-change hook fires. */
module RegistryProofs {
  import opened Protocol
  import opened Reconcile
  import opened Registry

  // --- the invariant -------------------------------------------------------

  /** A live entry's endpoint is in the aggregator and its sink names its driver. */
  ghost predicate Linked(w: World, device: int, e: LiveEntry) {
    && e.publishedAs in w.children && w.children[e.publishedAs] == e.endpoint
    && e.publishedAs in w.sinks && w.sinks[e.publishedAs] == device
    && Supported(e.role)
  }

  ghost predicate HandlesOk(w: World) { forall id :: id in w.children ==> w.children[id] < w.nextHandle }

  /** The three views agree: aggregator, live map and command sinks. */
  ghost predicate Coherent(w: World) {
    && (forall d :: d in w.live ==> Linked(w, d, w.live[d]))
    && DistinctLive(w.live)
    && w.children.Keys == Ids(w.live)
    && w.sinks.Keys == Ids(w.live)
    && HandlesOk(w)
  }

  ghost function StashIds(stash: seq<Stashed>): set<string> { set s | s in stash :: s.entry.publishedAs }

  ghost predicate DistinctStash(stash: seq<Stashed>) {
    && (forall i, j :: 0 <= i < j < |stash| ==> stash[i].entry.publishedAs != stash[j].entry.publishedAs)
    && (forall i, j :: 0 <= i < j < |stash| ==> stash[i].spec.device != stash[j].spec.device)
  }

  ghost predicate LiveLinked(w: World) { forall d :: d in w.live ==> Linked(w, d, w.live[d]) }

  ghost predicate StashLinked(w: World, stash: seq<Stashed>) { forall s :: s in stash ==> Linked(w, s.from, s.entry) }

  /** Live and held entries never share an identity. */
  ghost predicate Apart(live: map<int, LiveEntry>, stash: seq<Stashed>) {
    && DistinctLive(live) && DistinctStash(stash)
    && Ids(live) !! StashIds(stash)
    && (forall s :: s in stash ==> s.spec.publishedAs == s.entry.publishedAs)
  }

  /** Coherence while `stash` is held between the two rekey phases. */
  ghost predicate CoherentHolding(w: World, stash: seq<Stashed>) {
    && LiveLinked(w) && StashLinked(w, stash) && Apart(w.live, stash)
    && w.children.Keys == Ids(w.live) + StashIds(stash)
    && w.sinks.Keys == w.children.Keys
    && HandlesOk(w)
  }

  /** Subscribing to an endpoint's own observables works: the role table's contract. */
  ghost predicate WatchesHold(fate: Fate) { forall k :: fate.watches(k) }

  ghost predicate NothingFails(fate: Fate) {
    WatchesHold(fate) && forall k :: fate.adds(k) && fate.closes(k) && fate.sets(k)
  }

  /** No two calls of one recovery fail together: an endpoint that would not close can be
      watched again, and one that could not be watched can be taken back out, or watched
      again as it was. */
  ghost predicate Recovers(fate: Fate) {
    forall k: nat ::
      && (fate.closes(k) || fate.watches(k + 1))
      && (fate.watches(k) || (fate.watches(k + 1) && fate.closes(k + 1)))
  }

  /** Closing works, or the endpoint is watched again. */
  predicate CloseRecovers(w: World, fate: Fate) { fate.closes(w.tick) || fate.watches(w.tick + 1) }

  /** Nothing was added, or it is watched, or it is taken back out. */
  predicate CreateRecovers(w: World, spec: EndpointSpec, fate: Fate) {
    !fate.adds(w.tick) || spec.publishedAs in w.children || fate.watches(w.tick + 1) || fate.closes(w.tick + 2)
  }

  ghost predicate SameAllocation(a: World, b: World) {
    a.numbers == b.numbers && a.nextNumber == b.nextNumber && a.nextHandle == b.nextHandle
  }

  lemma IdsWithout(live: map<int, LiveEntry>, device: int)
    requires DistinctLive(live) && device in live
    ensures Ids(live - {device}) == Ids(live) - {live[device].publishedAs}
    ensures DistinctLive(live - {device})
  {
    var less := live - {device};
    forall id | id in Ids(live) && id != live[device].publishedAs ensures id in Ids(less) {
      var d :| d in live && live[d].publishedAs == id;
      assert d in less && less[d].publishedAs == id;
    }
  }

  lemma IdsWith(live: map<int, LiveEntry>, device: int, e: LiveEntry)
    requires DistinctLive(live) && device !in live && e.publishedAs !in Ids(live)
    ensures Ids(live[device := e]) == Ids(live) + {e.publishedAs}
    ensures DistinctLive(live[device := e])
  {
    var more := live[device := e];
    forall id | id in Ids(live) + {e.publishedAs} ensures id in Ids(more) {
      if id == e.publishedAs {
        assert more[device].publishedAs == id;
      } else {
        var d :| d in live && live[d].publishedAs == id;
        assert d in more && more[d].publishedAs == id;
      }
    }
  }

  // --- single steps --------------------------------------------------------

  lemma CloseShape(w: World, device: int, fate: Fate)
    requires device in w.live
    ensures var r := CloseOne(w, device, fate);
            && SameAllocation(r.world, w) && r.world.bumps == w.bumps && (r.ok <==> fate.closes(w.tick))
            && r.world.live == (if r.ok then w.live - {device} else w.live)
            && r.world.children == (if r.ok then w.children - {w.live[device].publishedAs} else w.children)
  {
  }

  /** Wherever a close fails, agreement survives exactly when the endpoint is watched again. */
  lemma CloseKeeps(w: World, device: int, fate: Fate)
    requires Coherent(w) && device in w.live
    ensures var r := CloseOne(w, device, fate);
            && (Coherent(r.world) <==> CloseRecovers(w, fate))
            && SameAllocation(r.world, w) && r.world.bumps == w.bumps
            && (r.ok <==> fate.closes(w.tick))
    ensures var r := CloseOne(w, device, fate);
            r.world.live == if r.ok then w.live - {device} else w.live
    ensures var r := CloseOne(w, device, fate);
            r.world.children == if r.ok then w.children - {w.live[device].publishedAs} else w.children
  {
    var id := w.live[device].publishedAs;
    var r := CloseOne(w, device, fate);
    assert id in Ids(w.live) && Linked(w, device, w.live[device]);
    if r.ok {
      IdsWithout(w.live, device);
      forall d | d in r.world.live ensures Linked(r.world, d, r.world.live[d]) { assert Linked(w, d, w.live[d]); }
    } else if fate.watches(w.tick + 1) {
      assert r.world.sinks == w.sinks;
      forall d | d in r.world.live ensures Linked(r.world, d, r.world.live[d]) { assert Linked(w, d, w.live[d]); }
    } else {
      assert id !in r.world.sinks;
    }
  }

  /** What a create leaves, whichever of its three calls fails. */
  lemma CreateShape(w: World, spec: EndpointSpec, fate: Fate)
    ensures var r := Create(w, spec, fate);
            && (r.ok <==> fate.adds(w.tick) && spec.publishedAs !in w.children && fate.watches(w.tick + 1))
            && (r.ok ==> CreateRecovers(w, spec, fate))
            && r.world.live == (if r.ok then w.live[spec.device := EntryFor(spec, w.nextHandle)] else w.live)
            && r.world.children ==
                 (if r.ok || !CreateRecovers(w, spec, fate) then w.children[spec.publishedAs := w.nextHandle]
                  else w.children)
            && (if r.ok then r.world.sinks == w.sinks[spec.publishedAs := spec.device]
                else (r.world.sinks == w.sinks
                      || (spec.publishedAs !in w.children && r.world.sinks == w.sinks - {spec.publishedAs})))
            && r.world.bumps == w.bumps && r.world.nextHandle >= w.nextHandle
            && (r.world.children != w.children ==>
                  r.world.nextHandle == w.nextHandle + 1 && spec.publishedAs !in w.children)
  {
    if spec.publishedAs !in w.children {
      assert w.children[spec.publishedAs := w.nextHandle] - {spec.publishedAs} == w.children;
      assert w.sinks[spec.publishedAs := spec.device] - {spec.publishedAs} == w.sinks - {spec.publishedAs};
    }
  }

  lemma CreatedKeeps(w: World, spec: EndpointSpec, fate: Fate)
    requires Coherent(w) && spec.device !in w.live && Supported(spec.role) && Create(w, spec, fate).ok
    ensures Coherent(Create(w, spec, fate).world)
  {
    var r := Create(w, spec, fate);
    CreateShape(w, spec, fate);
    IdsWith(w.live, spec.device, EntryFor(spec, w.nextHandle));
    forall d | d in r.world.live ensures Linked(r.world, d, r.world.live[d]) {
      if d != spec.device { assert Linked(w, d, w.live[d]); }
    }
  }

  /** Wherever a create fails, agreement survives exactly when nothing was left behind in the
      aggregator. */
  lemma CreateKeeps(w: World, spec: EndpointSpec, fate: Fate)
    requires Coherent(w) && spec.device !in w.live && Supported(spec.role)
    ensures Coherent(Create(w, spec, fate).world) <==> CreateRecovers(w, spec, fate)
  {
    var r := Create(w, spec, fate);
    CreateShape(w, spec, fate);
    if r.ok {
      CreatedKeeps(w, spec, fate);
    } else if CreateRecovers(w, spec, fate) {
      assert spec.publishedAs !in w.children ==> w.sinks - {spec.publishedAs} == w.sinks;
      forall d | d in r.world.live ensures Linked(r.world, d, r.world.live[d]) { assert Linked(w, d, w.live[d]); }
    } else {
      assert spec.publishedAs in r.world.children && spec.publishedAs !in Ids(r.world.live);
    }
  }

  /** An update touches one entry's name and nothing else. */
  lemma UpdateShape(w: World, spec: EndpointSpec, fate: Fate)
    ensures var r := Update(w, spec, fate);
            r.world == w.(live := r.world.live, tick := r.world.tick)
    ensures var r := Update(w, spec, fate);
            r.world.live == w.live ||
            (spec.device in w.live && r.world.live == w.live[spec.device := w.live[spec.device].(name := spec.name)])
    ensures var r := Update(w, spec, fate);
            r.ok ==> spec.device in w.live && r.world.live[spec.device] == w.live[spec.device].(name := spec.name)
    ensures spec.device in w.live && (forall k :: fate.sets(k)) ==> Update(w, spec, fate).ok
    ensures (forall k :: !fate.sets(k)) ==> !Update(w, spec, fate).ok
  {
  }

  lemma RenameKeepsHolding(w: World, stash: seq<Stashed>, device: int, name: string, tick: nat)
    requires CoherentHolding(w, stash) && device in w.live
    ensures CoherentHolding(w.(live := w.live[device := w.live[device].(name := name)], tick := tick), stash)
    ensures CoherentHolding(w.(tick := tick), stash)
  {
    var v := w.(live := w.live[device := w.live[device].(name := name)], tick := tick);
    assert Ids(v.live) == Ids(w.live) by {
      forall id | id in Ids(w.live) ensures id in Ids(v.live) {
        var d :| d in w.live && w.live[d].publishedAs == id;
        assert v.live[d].publishedAs == id;
      }
    }
    forall d | d in v.live ensures Linked(v, d, v.live[d]) { assert Linked(w, d, w.live[d]); }
    forall s | s in stash ensures Linked(v, s.from, s.entry) { assert Linked(w, s.from, s.entry); }
    forall s | s in stash ensures Linked(w.(tick := tick), s.from, s.entry) { assert Linked(w, s.from, s.entry); }
    forall d | d in w.live ensures Linked(w.(tick := tick), d, w.live[d]) { assert Linked(w, d, w.live[d]); }
  }

  lemma NothingHeld(w: World)
    ensures CoherentHolding(w, []) <==> Coherent(w)
  {
  }

  lemma UpdateKeeps(w: World, stash: seq<Stashed>, spec: EndpointSpec, fate: Fate)
    requires CoherentHolding(w, stash)
    ensures CoherentHolding(Update(w, spec, fate).world, stash)
  {
    var r := Update(w, spec, fate);
    UpdateShape(w, spec, fate);
    if spec.device in w.live {
      RenameKeepsHolding(w, stash, spec.device, spec.name, r.world.tick);
    }
  }

  // --- batches -------------------------------------------------------------

  ghost predicate SubLive(a: map<int, LiveEntry>, b: map<int, LiveEntry>) {
    forall d :: d in a ==> d in b && a[d] == b[d]
  }

  ghost predicate SubChildren(a: map<string, nat>, b: map<string, nat>) {
    forall id :: id in a ==> id in b && a[id] == b[id]
  }

  /** The close that ends the removals early, if one does, is recovered. */
  ghost predicate RemovalsRecover(w: World, devices: seq<int>, fate: Fate)
    decreases |devices|
  {
    devices != [] ==>
      if devices[0] !in w.live then RemovalsRecover(w, devices[1..], fate)
      else if CloseOne(w, devices[0], fate).ok then
        RemovalsRecover(CloseOne(w, devices[0], fate).world, devices[1..], fate)
      else CloseRecovers(w, fate)
  }

  lemma {:induction false} RemoveManyKeeps(w: World, devices: seq<int>, touched: bool, fate: Fate)
    requires Coherent(w)
    ensures var r := RemoveMany(w, devices, touched, fate);
            && (Coherent(r.world) <==> RemovalsRecover(w, devices, fate))
            && (r.ok || Recovers(fate) ==> RemovalsRecover(w, devices, fate))
            && DistinctLive(r.world.live) && SameAllocation(r.world, w) && r.world.bumps == w.bumps
    ensures var r := RemoveMany(w, devices, touched, fate);
            SubLive(r.world.live, w.live) && SubChildren(r.world.children, w.children)
    ensures var r := RemoveMany(w, devices, touched, fate);
            r.ok ==> r.world.live.Keys == w.live.Keys - set d | d in devices
    ensures var r := RemoveMany(w, devices, touched, fate);
            r.touched <==> touched || r.world.children.Keys != w.children.Keys
    ensures (forall k :: fate.closes(k)) ==> RemoveMany(w, devices, touched, fate).ok
    decreases |devices|
  {
    if devices == [] {
    } else if devices[0] !in w.live {
      RemoveManyKeeps(w, devices[1..], touched, fate);
      assert devices == [devices[0]] + devices[1..];
    } else {
      var closed := CloseOne(w, devices[0], fate);
      CloseKeeps(w, devices[0], fate);
      if closed.ok {
        RemoveManyKeeps(closed.world, devices[1..], true, fate);
        assert devices == [devices[0]] + devices[1..];
        var id := w.live[devices[0]].publishedAs;
        assert id in w.children && id !in closed.world.children by { assert Linked(w, devices[0], w.live[devices[0]]); }
      }
    }
  }

  ghost function Held(live: map<int, LiveEntry>, rekeys: seq<Rekey>): (r: seq<Stashed>)
    requires forall k :: k in rekeys ==> k.from in live
    ensures |r| == |rekeys|
    ensures forall i :: 0 <= i < |r| ==> r[i] == Stashed(rekeys[i].spec, rekeys[i].from, live[rekeys[i].from])
  {
    seq(|rekeys|, i requires 0 <= i < |rekeys| => Stashed(rekeys[i].spec, rekeys[i].from, live[rekeys[i].from]))
  }

  /** A lawful rekey batch: each source is live under the spec's identity, no source or
      target twice. */
  ghost predicate LawfulRekeys(live: map<int, LiveEntry>, rekeys: seq<Rekey>) {
    && (forall k :: k in rekeys ==> k.from in live && live[k.from].publishedAs == k.spec.publishedAs)
    && (forall i, j :: 0 <= i < j < |rekeys| ==> rekeys[i].from != rekeys[j].from)
    && (forall i, j :: 0 <= i < j < |rekeys| ==> rekeys[i].spec.device != rekeys[j].spec.device)
  }

  lemma StashOne(w: World, k: Rekey, stash: seq<Stashed>)
    requires CoherentHolding(w, stash)
    requires k.from in w.live && w.live[k.from].publishedAs == k.spec.publishedAs
    requires forall s :: s in stash ==> s.spec.device != k.spec.device
    ensures CoherentHolding(w.(live := w.live - {k.from}), stash + [Stashed(k.spec, k.from, w.live[k.from])])
  {
    var v := w.(live := w.live - {k.from});
    var more := stash + [Stashed(k.spec, k.from, w.live[k.from])];
    IdsWithout(w.live, k.from);
    forall d | d in v.live ensures Linked(v, d, v.live[d]) { assert Linked(w, d, w.live[d]); }
    forall s | s in more ensures Linked(v, s.from, s.entry) {
      assert Linked(w, k.from, w.live[k.from]);
      if s in stash { assert Linked(w, s.from, s.entry); }
    }
    assert StashIds(more) == StashIds(stash) + {k.spec.publishedAs};
    forall i | 0 <= i < |stash| ensures stash[i].entry.publishedAs != k.spec.publishedAs {
      assert stash[i] in stash && stash[i].entry.publishedAs in StashIds(stash);
      assert w.live[k.from].publishedAs in Ids(w.live);
    }
  }

  ghost function Froms(rekeys: seq<Rekey>): set<int> { set k | k in rekeys :: k.from }

  lemma {:induction false} VacateShape(w: World, rekeys: seq<Rekey>, stash: seq<Stashed>)
    requires LawfulRekeys(w.live, rekeys)
    ensures Vacate(w, rekeys, stash)
         == Vacated(w.(live := w.live - Froms(rekeys)), true, stash + Held(w.live, rekeys))
    decreases |rekeys|
  {
    if rekeys == [] {
      assert w.live - Froms(rekeys) == w.live;
    } else {
      var k, rest := rekeys[0], rekeys[1..];
      assert rekeys == [k] + rest;
      var v := w.(live := w.live - {k.from});
      var head := Stashed(k.spec, k.from, w.live[k.from]);
      VacateShape(v, rest, stash + [head]);
      assert Held(w.live, rekeys) == [head] + Held(v.live, rest);
      assert Froms(rekeys) == {k.from} + Froms(rest);
      assert v.live - Froms(rest) == w.live - Froms(rekeys);
      assert stash + [head] + Held(v.live, rest) == stash + Held(w.live, rekeys);
    }
  }

  lemma {:induction false} VacateHolds(w: World, rekeys: seq<Rekey>, stash: seq<Stashed>)
    requires CoherentHolding(w, stash) && LawfulRekeys(w.live, rekeys)
    requires forall s, k :: s in stash && k in rekeys ==> s.spec.device != k.spec.device
    ensures CoherentHolding(Vacate(w, rekeys, stash).world, Vacate(w, rekeys, stash).stash)
    decreases |rekeys|
  {
    if rekeys != [] {
      var k, rest := rekeys[0], rekeys[1..];
      assert rekeys == [k] + rest;
      StashOne(w, k, stash);
      var v := w.(live := w.live - {k.from});
      assert LawfulRekeys(v.live, rest);
      VacateHolds(v, rest, stash + [Stashed(k.spec, k.from, w.live[k.from])]);
    }
  }

  /** The held entries put back under their new drivers. */
  ghost function Installed(live: map<int, LiveEntry>, stash: seq<Stashed>): map<int, LiveEntry>
    decreases |stash|
  {
    if stash == [] then live
    else Installed(live[stash[0].spec.device := stash[0].entry.(name := stash[0].spec.name)], stash[1..])
  }

  ghost function Targets(stash: seq<Stashed>): set<int> { set s | s in stash :: s.spec.device }

  lemma HeadTargets(stash: seq<Stashed>)
    requires DistinctStash(stash) && stash != []
    ensures Targets(stash) == {stash[0].spec.device} + Targets(stash[1..])
    ensures stash[0].spec.device !in Targets(stash[1..])
    ensures DistinctStash(stash[1..])
    ensures forall s :: s in stash <==> s == stash[0] || s in stash[1..]
  {
    var rest := stash[1..];
    assert stash == [stash[0]] + rest;
    assert forall i :: 0 <= i < |rest| ==> rest[i] == stash[i + 1];
  }

  lemma {:induction false} InstalledAt(live: map<int, LiveEntry>, stash: seq<Stashed>)
    requires DistinctStash(stash) && live.Keys !! Targets(stash)
    ensures Installed(live, stash).Keys == live.Keys + Targets(stash)
    ensures forall d :: d in live ==> Installed(live, stash)[d] == live[d]
    ensures forall s :: s in stash ==> Installed(live, stash)[s.spec.device] == s.entry.(name := s.spec.name)
    decreases |stash|
  {
    if stash != [] {
      HeadTargets(stash);
      var s := stash[0];
      var more := live[s.spec.device := s.entry.(name := s.spec.name)];
      InstalledAt(more, stash[1..]);
      assert more[s.spec.device] == s.entry.(name := s.spec.name);
    }
  }

  lemma ReclaimApart(live: map<int, LiveEntry>, stash: seq<Stashed>)
    requires Apart(live, stash) && stash != [] && stash[0].spec.device !in live
    ensures var more := live[stash[0].spec.device := stash[0].entry];
            Apart(more, stash[1..]) && Ids(more) + StashIds(stash[1..]) == Ids(live) + StashIds(stash)
  {
    HeadIsApart(stash);
    assert stash[0] in stash;
    IdsWith(live, stash[0].spec.device, stash[0].entry);
  }

  lemma ReclaimLinks(w: World, v: World, stash: seq<Stashed>)
    requires CoherentHolding(w, stash) && stash != [] && stash[0].spec.device !in w.live
    requires v.live == w.live[stash[0].spec.device := stash[0].entry] && v.children == w.children
    requires v.sinks == w.sinks[stash[0].spec.publishedAs := stash[0].spec.device]
    ensures LiveLinked(v) && StashLinked(v, stash[1..])
  {
    var s, rest := stash[0], stash[1..];
    assert s in stash && Linked(w, s.from, s.entry);
    HeadIsApart(stash);
    forall d | d in v.live ensures Linked(v, d, v.live[d]) {
      if d != s.spec.device {
        assert Linked(w, d, w.live[d]);
        assert w.live[d].publishedAs in Ids(w.live);
      }
    }
    forall t | t in rest ensures Linked(v, t.from, t.entry) {
      assert t in stash && Linked(w, t.from, t.entry);
      assert t.entry.publishedAs in StashIds(rest);
    }
  }

  /** One rekey that re-watches its endpoint: held entry back in `live` under its target. */
  lemma ReclaimKeeps(w: World, v: World, stash: seq<Stashed>)
    requires CoherentHolding(w, stash) && stash != [] && stash[0].spec.device !in w.live
    requires v.live == w.live[stash[0].spec.device := stash[0].entry] && v.children == w.children
    requires v.sinks == w.sinks[stash[0].spec.publishedAs := stash[0].spec.device] && v.nextHandle == w.nextHandle
    ensures CoherentHolding(v, stash[1..])
  {
    ReclaimApart(w.live, stash);
    ReclaimLinks(w, v, stash);
    assert stash[0] in stash && Linked(w, stash[0].from, stash[0].entry);
  }

  lemma HeadIsApart(stash: seq<Stashed>)
    requires DistinctStash(stash) && stash != []
    ensures StashIds(stash) == {stash[0].entry.publishedAs} + StashIds(stash[1..])
    ensures stash[0].entry.publishedAs !in StashIds(stash[1..])
    ensures DistinctStash(stash[1..])
  {
    var rest := stash[1..];
    assert stash == [stash[0]] + rest;
    assert forall i :: 0 <= i < |rest| ==> rest[i] == stash[i + 1];
  }

  /** The world of a rekey just after its entry is re-watched and put back. */
  function Reclaimed(w: World, s: Stashed): World {
    w.(live := w.live[s.spec.device := s.entry], sinks := w.sinks[s.spec.publishedAs := s.spec.device],
       tick := w.tick + 1)
  }

  lemma RekeyOneShape(w: World, s: Stashed, fate: Fate)
    requires s.spec.publishedAs == s.entry.publishedAs && s.spec.device !in w.live && fate.watches(w.tick)
    ensures RekeyOne(w, s, fate) == Update(Reclaimed(w, s), s.spec, fate)
  {
    var watched := Watch(Unwatch(w, s.entry.publishedAs), s.spec.publishedAs, s.spec.device, fate);
    assert watched.world.sinks == w.sinks[s.spec.publishedAs := s.spec.device];
    assert watched.world.(live := w.live[s.spec.device := s.entry]) == Reclaimed(w, s);
  }

  /** One phase-2 step whose endpoint is watched for its new driver, whichever way its
      attribute writes go: the head of the stash is live again under its target and coherence
      holds for the rest. */
  lemma RekeyOneHolds(w: World, stash: seq<Stashed>, fate: Fate)
    requires CoherentHolding(w, stash) && stash != [] && stash[0].spec.device !in w.live && fate.watches(w.tick)
    ensures CoherentHolding(RekeyOne(w, stash[0], fate).world, stash[1..])
  {
    var s := stash[0];
    assert s in stash;
    RekeyOneShape(w, s, fate);
    ReclaimKeeps(w, Reclaimed(w, s), stash);
    UpdateKeeps(Reclaimed(w, s), stash[1..], s.spec, fate);
  }

  lemma RekeyOneMoves(w: World, s: Stashed, fate: Fate)
    requires s.spec.publishedAs == s.entry.publishedAs && s.spec.device !in w.live
    ensures var r := RekeyOne(w, s, fate);
            && SameAllocation(r.world, w) && r.world.children == w.children && r.world.bumps == w.bumps
            && (r.ok ==> fate.watches(w.tick) && r.world.live == w.live[s.spec.device := s.entry.(name := s.spec.name)])
            && (fate.watches(w.tick) && (forall k :: fate.sets(k)) ==> r.ok)
            && ((forall k :: !fate.sets(k)) ==> !r.ok)
  {
    if fate.watches(w.tick) {
      RekeyOneShape(w, s, fate);
      UpdateShape(Reclaimed(w, s), s.spec, fate);
    }
  }

  /** The world of a rekey whose endpoint could not be watched: its old watcher is restored and
      its entry put back under its old driver, over whatever is there by now, or, when that
      watch fails as well, neither is. */
  function PutBack(w: World, s: Stashed, back: bool): World {
    if back then w.(live := w.live[s.from := s.entry],
                    sinks := (w.sinks - {s.spec.publishedAs})[s.entry.publishedAs := s.from], tick := w.tick + 2)
    else w.(sinks := w.sinks - {s.spec.publishedAs}, tick := w.tick + 2)
  }

  lemma RekeyOneRestores(w: World, s: Stashed, fate: Fate)
    requires s.spec.publishedAs == s.entry.publishedAs && s.spec.device !in w.live && !fate.watches(w.tick)
    ensures RekeyOne(w, s, fate).world == PutBack(w, s, fate.watches(w.tick + 1))
  {
    var id := s.entry.publishedAs;
    assert w.sinks - {id} - {id} == w.sinks - {id};
  }

  /** What putting an entry back loses: the entry it overwrites, or itself if it is not put
      back. */
  function RestoreLost(w: World, s: Stashed, back: bool): set<string> {
    if !back then {s.entry.publishedAs}
    else if s.from in w.live then {w.live[s.from].publishedAs}
    else {}
  }

  /** What the failing step of phase 2 itself loses: nothing when its endpoint was watched for
      its new driver, else what its restore loses. */
  function HeadLost(w: World, s: Stashed, fate: Fate): set<string> {
    if fate.watches(w.tick) then {} else RestoreLost(w, s, fate.watches(w.tick + 1))
  }

  /** Every identity an aborted phase 2 loses: what the failing step loses and whatever it did
      not reach. */
  ghost function Lost(w: World, stash: seq<Stashed>, fate: Fate): set<string>
    decreases |stash|
  {
    if stash == [] then {}
    else if RekeyOne(w, stash[0], fate).ok then Lost(RekeyOne(w, stash[0], fate).world, stash[1..], fate)
    else HeadLost(w, stash[0], fate) + StashIds(stash[1..])
  }

  lemma IdsOver(live: map<int, LiveEntry>, device: int, e: LiveEntry)
    requires DistinctLive(live) && e.publishedAs !in Ids(live)
    ensures Ids(live[device := e])
            == Ids(live) - (if device in live then {live[device].publishedAs} else {}) + {e.publishedAs}
    ensures DistinctLive(live[device := e])
  {
    if device in live {
      IdsWithout(live, device);
      IdsWith(live - {device}, device, e);
      assert live[device := e] == (live - {device})[device := e];
    } else {
      IdsWith(live, device, e);
    }
  }

  /** `lost` is what the aggregator still shows and the live map has forgotten, and agreement
      survives when that is nothing. */
  ghost predicate Loses(v: World, lost: set<string>) {
    && DistinctLive(v.live) && Ids(v.live) !! lost && v.children.Keys == Ids(v.live) + lost
    && (lost == {} ==> Coherent(v))
  }

  lemma HoldingLoses(v: World, rest: seq<Stashed>)
    requires CoherentHolding(v, rest)
    ensures Loses(v, StashIds(rest))
  {
    if StashIds(rest) == {} {
      assert rest != [] ==> rest[0].entry.publishedAs in StashIds(rest);
      NothingHeld(v);
    }
  }

  /** A held entry's children and identities, apart from the rest of the stash. */
  lemma HeadHeld(w: World, stash: seq<Stashed>)
    requires CoherentHolding(w, stash) && stash != []
    ensures var id, rest := stash[0].entry.publishedAs, StashIds(stash[1..]);
            && DistinctLive(w.live) && w.children.Keys == Ids(w.live) + {id} + rest
            && id !in Ids(w.live) && id !in rest && Ids(w.live) !! rest
    ensures Linked(w, stash[0].from, stash[0].entry)
  {
    HeadIsApart(stash);
    assert stash[0] in stash;
    assert stash[0].entry.publishedAs in StashIds(stash);
  }

  lemma RestoredLoses(w: World, stash: seq<Stashed>, back: bool)
    requires CoherentHolding(w, stash) && stash != []
    ensures Loses(PutBack(w, stash[0], back), RestoreLost(w, stash[0], back) + StashIds(stash[1..]))
  {
    var s := stash[0];
    HeadHeld(w, stash);
    if back {
      IdsOver(w.live, s.from, s.entry);
      if s.from in w.live {
        assert w.live[s.from].publishedAs in Ids(w.live);
      } else if StashIds(stash[1..]) == {} {
        RestoredCoherent(w, stash);
      }
    }
  }

  lemma RestoredCoherent(w: World, stash: seq<Stashed>)
    requires CoherentHolding(w, stash) && stash != [] && stash[0].from !in w.live && StashIds(stash[1..]) == {}
    ensures Coherent(PutBack(w, stash[0], true))
  {
    var s := stash[0];
    var v := PutBack(w, s, true);
    HeadHeld(w, stash);
    IdsWith(w.live, s.from, s.entry);
    forall d | d in v.live ensures Linked(v, d, v.live[d]) {
      if d != s.from {
        assert Linked(w, d, w.live[d]) && w.live[d].publishedAs in Ids(w.live);
      }
    }
  }

  lemma WatchedLoses(w: World, stash: seq<Stashed>, fate: Fate)
    requires CoherentHolding(w, stash) && stash != [] && stash[0].spec.device !in w.live && fate.watches(w.tick)
    ensures Loses(RekeyOne(w, stash[0], fate).world, StashIds(stash[1..]))
  {
    RekeyOneHolds(w, stash, fate);
    HoldingLoses(RekeyOne(w, stash[0], fate).world, stash[1..]);
  }

  lemma UnwatchedLoses(w: World, stash: seq<Stashed>, fate: Fate)
    requires CoherentHolding(w, stash) && stash != [] && stash[0].spec.device !in w.live && !fate.watches(w.tick)
    ensures Loses(RekeyOne(w, stash[0], fate).world, HeadLost(w, stash[0], fate) + StashIds(stash[1..]))
  {
    assert stash[0] in stash;
    RekeyOneRestores(w, stash[0], fate);
    RestoredLoses(w, stash, fate.watches(w.tick + 1));
  }

  /** The failing step of phase 2 loses exactly that, and the identities stay distinct. */
  lemma RekeyOneFails(w: World, stash: seq<Stashed>, fate: Fate)
    requires CoherentHolding(w, stash) && stash != [] && stash[0].spec.device !in w.live
             && !RekeyOne(w, stash[0], fate).ok
    ensures Loses(RekeyOne(w, stash[0], fate).world, HeadLost(w, stash[0], fate) + StashIds(stash[1..]))
  {
    if fate.watches(w.tick) {
      WatchedLoses(w, stash, fate);
      assert {} + StashIds(stash[1..]) == StashIds(stash[1..]);
    } else {
      UnwatchedLoses(w, stash, fate);
    }
  }

  /** For a single held entry whose old driver is free: agreement survives the step exactly
      when its endpoint is watched for one driver or the other. */
  lemma RekeyOneExactly(w: World, s: Stashed, fate: Fate)
    requires CoherentHolding(w, [s]) && s.spec.device !in w.live && s.from !in w.live
    ensures Coherent(RekeyOne(w, s, fate).world) <==> fate.watches(w.tick) || fate.watches(w.tick + 1)
  {
    var v := RekeyOne(w, s, fate).world;
    assert [s][1..] == [] && StashIds([]) == {};
    assert s in [s];
    if fate.watches(w.tick) {
      WatchedLoses(w, [s], fate);
    } else {
      RekeyOneFailed(w, s, fate);
      RekeyOneFails(w, [s], fate);
      LossDecides(v, HeadLost(w, s, fate) + StashIds([s][1..]));
    }
  }

  lemma RekeyOneFailed(w: World, s: Stashed, fate: Fate)
    requires s.spec.device !in w.live && !fate.watches(w.tick)
    ensures !RekeyOne(w, s, fate).ok
  {
  }

  /** Phase 2, whatever fails: what is lost is exactly `Lost`. */
  lemma {:induction false} RekeyAllHolds(w: World, stash: seq<Stashed>, fate: Fate)
    requires CoherentHolding(w, stash) && w.live.Keys !! Targets(stash)
    ensures Loses(RekeyAll(w, stash, fate).world, Lost(w, stash, fate))
    ensures var r := RekeyAll(w, stash, fate);
            r.ok ==> Lost(w, stash, fate) == {} && r.world.live == Installed(w.live, stash)
    ensures var r := RekeyAll(w, stash, fate);
            SameAllocation(r.world, w) && r.world.children == w.children && r.world.bumps == w.bumps
    decreases |stash|
  {
    if stash == [] {
      NothingHeld(w);
    } else {
      var rest := stash[1..];
      HeadTargets(stash);
      assert stash[0] in stash;
      RekeyOneMoves(w, stash[0], fate);
      var one := RekeyOne(w, stash[0], fate);
      if one.ok {
        RekeyOneHolds(w, stash, fate);
        RekeyAllHolds(one.world, rest, fate);
      } else {
        RekeyOneFails(w, stash, fate);
      }
    }
  }

  /** Without faults phase 2 succeeds. */
  lemma {:induction false} RekeyAllSucceeds(w: World, stash: seq<Stashed>, fate: Fate)
    requires CoherentHolding(w, stash) && w.live.Keys !! Targets(stash)
    requires WatchesHold(fate) && forall k :: fate.sets(k)
    ensures RekeyAll(w, stash, fate).ok
    decreases |stash|
  {
    if stash != [] {
      HeadTargets(stash);
      RekeyOneHolds(w, stash, fate);
      assert stash[0] in stash;
      RekeyOneMoves(w, stash[0], fate);
      RekeyAllSucceeds(RekeyOne(w, stash[0], fate).world, stash[1..], fate);
    }
  }

  lemma SplitSpecs(specs: seq<EndpointSpec>)
    requires specs != [] && DistinctDevices(specs)
    ensures DistinctDevices(specs[1..])
    ensures specs[0] in specs && specs[0].device !in DevicesOf(specs[1..])
    ensures DevicesOf(specs) == {specs[0].device} + DevicesOf(specs[1..])
    ensures forall s :: s in specs <==> s == specs[0] || s in specs[1..]
  {
    assert specs == [specs[0]] + specs[1..];
    assert forall i :: 0 <= i < |specs[1..]| ==> specs[1..][i] == specs[i + 1];
  }

  /** The create that ends the creates early, if one does, is recovered. */
  ghost predicate CreatesRecover(w: World, specs: seq<EndpointSpec>, fate: Fate)
    decreases |specs|
  {
    specs != [] ==>
      if Create(w, specs[0], fate).ok then CreatesRecover(Create(w, specs[0], fate).world, specs[1..], fate)
      else CreateRecovers(w, specs[0], fate)
  }

  lemma {:induction false} CreateAllKeeps(w: World, specs: seq<EndpointSpec>, touched: bool, fate: Fate)
    requires Coherent(w) && DistinctDevices(specs) && DevicesOf(specs) !! w.live.Keys
    requires forall s :: s in specs ==> Supported(s.role)
    ensures Coherent(CreateAll(w, specs, touched, fate).world) <==> CreatesRecover(w, specs, fate)
    ensures CreateAll(w, specs, touched, fate).ok || Recovers(fate) ==> CreatesRecover(w, specs, fate)
    ensures CreateAll(w, specs, touched, fate).world.bumps == w.bumps
    ensures DistinctLive(CreateAll(w, specs, touched, fate).world.live)
    decreases |specs|
  {
    if specs != [] {
      SplitSpecs(specs);
      CreateKeeps(w, specs[0], fate);
      CreateShape(w, specs[0], fate);
      var c := Create(w, specs[0], fate);
      if c.ok {
        CreateAllKeeps(c.world, specs[1..], true, fate);
      }
    }
  }

  lemma {:induction false} CreateAllLive(w: World, specs: seq<EndpointSpec>, touched: bool, fate: Fate)
    requires DistinctDevices(specs) && DevicesOf(specs) !! w.live.Keys
    ensures var r := CreateAll(w, specs, touched, fate);
            SubLive(w.live, r.world.live) && (r.ok ==> r.world.live.Keys == w.live.Keys + DevicesOf(specs))
    decreases |specs|
  {
    if specs != [] {
      SplitSpecs(specs);
      CreateShape(w, specs[0], fate);
      var c := Create(w, specs[0], fate);
      if c.ok {
        CreateAllLive(c.world, specs[1..], true, fate);
      }
    }
  }

  /** Each created endpoint is a new object, built to its spec. */
  lemma {:induction false} CreateAllBuilds(w: World, specs: seq<EndpointSpec>, touched: bool, fate: Fate)
    requires Coherent(w) && DistinctDevices(specs) && DevicesOf(specs) !! w.live.Keys
    requires forall s :: s in specs ==> Supported(s.role)
    requires CreateAll(w, specs, touched, fate).ok
    ensures var r := CreateAll(w, specs, touched, fate);
            forall s :: s in specs ==>
              s.device in r.world.live && r.world.live[s.device] == EntryFor(s, r.world.live[s.device].endpoint)
              && r.world.live[s.device].endpoint >= w.nextHandle
    decreases |specs|
  {
    if specs != [] {
      SplitSpecs(specs);
      CreateKeeps(w, specs[0], fate);
      CreateShape(w, specs[0], fate);
      var c := Create(w, specs[0], fate);
      CreateAllBuilds(c.world, specs[1..], true, fate);
      CreateAllLive(c.world, specs[1..], true, fate);
      assert c.world.live[specs[0].device] == EntryFor(specs[0], w.nextHandle);
    }
  }

  /** Children already there stay; new ones are new objects; `touched` tells whether one was
      created, which is all the difference there is unless one was left behind. */
  lemma {:induction false} CreateAllTouches(w: World, specs: seq<EndpointSpec>, touched: bool, fate: Fate)
    requires Coherent(w) && DistinctDevices(specs) && DevicesOf(specs) !! w.live.Keys
    requires forall s :: s in specs ==> Supported(s.role)
    ensures var r := CreateAll(w, specs, touched, fate);
            && SubChildren(w.children, r.world.children)
            && (forall id :: id in r.world.children && id !in w.children ==> r.world.children[id] >= w.nextHandle)
            && (r.touched || !CreatesRecover(w, specs, fate) <==> touched || r.world.children.Keys != w.children.Keys)
    decreases |specs|
  {
    if specs != [] {
      SplitSpecs(specs);
      CreateKeeps(w, specs[0], fate);
      CreateShape(w, specs[0], fate);
      var c := Create(w, specs[0], fate);
      var id := specs[0].publishedAs;
      if c.ok {
        CreateAllTouches(c.world, specs[1..], true, fate);
        TouchedStays(c.world, specs[1..], fate);
        assert id !in w.children && id in c.world.children;
      } else if !CreateRecovers(w, specs[0], fate) {
        assert id !in w.children && id in c.world.children;
      }
    }
  }

  lemma {:induction false} TouchedStays(w: World, specs: seq<EndpointSpec>, fate: Fate)
    ensures CreateAll(w, specs, true, fate).touched
    decreases |specs|
  {
    if specs != [] && Create(w, specs[0], fate).ok { TouchedStays(Create(w, specs[0], fate).world, specs[1..], fate); }
  }

  /** Without faults every create lands, as long as no identity is there already. */
  lemma {:induction false} CreateAllSucceeds(w: World, specs: seq<EndpointSpec>, touched: bool, fate: Fate)
    requires Coherent(w) && DistinctDevices(specs) && DevicesOf(specs) !! w.live.Keys
    requires DistinctIds(specs) && IdsOf(specs) !! w.children.Keys
    requires forall s :: s in specs ==> Supported(s.role)
    requires WatchesHold(fate) && forall k :: fate.adds(k)
    ensures CreateAll(w, specs, touched, fate).ok
    decreases |specs|
  {
    if specs != [] {
      SplitSpecs(specs);
      var s, rest := specs[0], specs[1..];
      assert s.publishedAs in IdsOf(specs);
      CreateKeeps(w, s, fate);
      CreateShape(w, s, fate);
      var c := Create(w, s, fate);
      assert forall i :: 0 <= i < |rest| ==> rest[i] == specs[i + 1];
      assert IdsOf(rest) <= IdsOf(specs) && s.publishedAs !in IdsOf(rest);
      CreateAllSucceeds(c.world, rest, true, fate);
    }
  }

  lemma {:induction false} UpdateAllKeeps(w: World, specs: seq<EndpointSpec>, fate: Fate)
    requires Coherent(w) && DistinctDevices(specs) && DevicesOf(specs) <= w.live.Keys
    ensures var r := UpdateAll(w, specs, fate);
            Coherent(r.world) && r.world == w.(live := r.world.live, tick := r.world.tick)
    ensures (forall k :: fate.sets(k)) ==> UpdateAll(w, specs, fate).ok
    decreases |specs|
  {
    if specs != [] {
      SplitSpecs(specs);
      NothingHeld(w);
      UpdateKeeps(w, [], specs[0], fate);
      UpdateShape(w, specs[0], fate);
      var u := Update(w, specs[0], fate);
      NothingHeld(u.world);
      if u.ok {
        UpdateAllKeeps(u.world, specs[1..], fate);
      }
    }
  }

  /** Updates rename entries in place and do nothing else to them. */
  lemma {:induction false} UpdateAllRenames(w: World, specs: seq<EndpointSpec>, fate: Fate)
    requires DistinctDevices(specs) && DevicesOf(specs) <= w.live.Keys
    ensures var r := UpdateAll(w, specs, fate).world.live;
            && r.Keys == w.live.Keys
            && (forall d :: d in w.live ==> r[d] == w.live[d].(name := r[d].name))
            && (forall d :: d in w.live && d !in DevicesOf(specs) ==> r[d] == w.live[d])
    ensures var r := UpdateAll(w, specs, fate);
            r.ok ==> forall s :: s in specs ==> r.world.live[s.device].name == s.name
    decreases |specs|
  {
    if specs != [] {
      SplitSpecs(specs);
      UpdateShape(w, specs[0], fate);
      var u := Update(w, specs[0], fate);
      if u.ok {
        UpdateAllRenames(u.world, specs[1..], fate);
      }
    }
  }

  // --- the plan against the live set ---------------------------------------

  /** `comp` describes `live` by identity. */
  ghost predicate Composed(comp: map<string, Composition>, live: map<int, LiveEntry>) {
    && (forall d :: d in live ==> live[d].publishedAs in comp && comp[live[d].publishedAs] == CompositionOf(d, live[d]))
    && (forall id :: id in comp ==> comp[id].device in live && live[comp[id].device].publishedAs == id)
  }

  lemma LiveIsComposed(live: map<int, LiveEntry>)
    requires DistinctLive(live)
    ensures Composed(LiveComposition(live), live)
  {
    forall d | d in live
      ensures live[d].publishedAs in LiveComposition(live)
      ensures LiveComposition(live)[live[d].publishedAs] == CompositionOf(d, live[d])
    {
      assert live[d].publishedAs in Ids(live);
    }
  }

  ghost predicate DistinctRekeys(rekeys: seq<Rekey>) {
    && (forall i, j :: 0 <= i < j < |rekeys| ==> rekeys[i].spec.device != rekeys[j].spec.device)
    && (forall i, j :: 0 <= i < j < |rekeys| ==> rekeys[i].spec.publishedAs != rekeys[j].spec.publishedAs)
  }

  /** A plan by membership: every spec in its bucket, nothing twice. */
  ghost predicate Sorted(comp: map<string, Composition>, desired: seq<EndpointSpec>, plan: Plan) {
    && (forall s :: s in plan.create <==> s in desired && BucketOf(comp, s) == ToCreate)
    && (forall s :: s in plan.update <==> s in desired && BucketOf(comp, s) == ToUpdate)
    && (forall s :: s in plan.recreate <==> s in desired && BucketOf(comp, s) == ToRecreate)
    && (forall k :: k in plan.rekey <==> k.spec in desired && BucketOf(comp, k.spec) == ToRekey
                                         && k.from == comp[k.spec.publishedAs].device)
    && (forall id :: id in plan.remove <==> id in comp && id !in IdsOf(desired))
    && DistinctDevices(plan.update) && DistinctRekeys(plan.rekey)
    && DistinctDevices(plan.create) && DistinctIds(plan.create)
    && DistinctDevices(plan.recreate) && DistinctIds(plan.recreate)
  }

  lemma PlanIsSorted(comp: map<string, Composition>, order: seq<string>, desired: seq<EndpointSpec>)
    requires Enumerates(order, comp) && DistinctDevices(desired) && DistinctIds(desired)
    ensures Sorted(comp, desired, PlanOf(comp, order, desired))
  {
    var plan := PlanOf(comp, order, desired);
    var moved := InBucket(comp, desired, ToRekey);
    InBucketDistinct(comp, desired, ToCreate);
    InBucketDistinct(comp, desired, ToUpdate);
    InBucketDistinct(comp, desired, ToRecreate);
    InBucketDistinct(comp, desired, ToRekey);
    forall k: Rekey | k.spec in desired && BucketOf(comp, k.spec) == ToRekey
        && k.from == comp[k.spec.publishedAs].device
      ensures k in plan.rekey
    {
      var i :| 0 <= i < |moved| && moved[i] == k.spec;
      assert plan.rekey[i] == k;
    }
    forall k | k in plan.rekey
      ensures k.spec in desired && BucketOf(comp, k.spec) == ToRekey && k.from == comp[k.spec.publishedAs].device
    {
      var i :| 0 <= i < |plan.rekey| && plan.rekey[i] == k;
      assert moved[i] in moved;
    }
  }

  lemma {:induction false} ResolveMembers(live: map<int, LiveEntry>, ids: seq<string>, d: int)
    requires DistinctLive(live)
    ensures d in Resolve(live, ids) <==> d in live && live[d].publishedAs in ids
  {
    if ids != [] {
      ResolveMembers(live, ids[1..], d);
      assert ids == [ids[0]] + ids[1..];
      var found := DeviceFor(live, ids[0]);
      if d in live && live[d].publishedAs == ids[0] { assert ids[0] in Ids(live); }
    }
  }

  ghost function Gone(live: map<int, LiveEntry>, plan: Plan): set<int> { set d | d in Removals(live, plan) }

  lemma GoneMembers(live: map<int, LiveEntry>, plan: Plan, d: int)
    requires DistinctLive(live)
    ensures d in Gone(live, plan) <==>
            d in live && (live[d].publishedAs in plan.remove || live[d].publishedAs in IdsOf(plan.recreate))
  {
    ResolveMembers(live, plan.remove, d);
    ResolveMembers(live, SpecIds(plan.recreate), d);
    if d in live && live[d].publishedAs in IdsOf(plan.recreate) {
      var i :| 0 <= i < |plan.recreate| && plan.recreate[i].publishedAs == live[d].publishedAs;
      assert SpecIds(plan.recreate)[i] == live[d].publishedAs;
    }
  }

  ghost function RekeyTargets(rekeys: seq<Rekey>): set<int> { set k | k in rekeys :: k.spec.device }

  ghost function RekeyIds(rekeys: seq<Rekey>): set<string> { set k | k in rekeys :: k.spec.publishedAs }

  lemma DistinctDevicesInjective(specs: seq<EndpointSpec>, a: EndpointSpec, b: EndpointSpec)
    requires DistinctDevices(specs) && a in specs && b in specs && a.device == b.device
    ensures a == b
  {
  }

  lemma SameIdentity(desired: seq<EndpointSpec>)
    requires DistinctIds(desired)
    ensures forall s, t :: s in desired && t in desired && s.publishedAs == t.publishedAs ==> s == t
  {
  }

  lemma SameDevice(desired: seq<EndpointSpec>)
    requires DistinctDevices(desired)
    ensures forall s, t :: s in desired && t in desired && s.device == t.device ==> s == t
  {
  }

  /** Sources are live under the identities they move, once each. */
  lemma RekeysFit(live: map<int, LiveEntry>, comp: map<string, Composition>, desired: seq<EndpointSpec>, plan: Plan)
    requires DistinctLive(live) && Composed(comp, live) && Sorted(comp, desired, plan)
    ensures LawfulRekeys(live, plan.rekey)
    ensures forall k :: k in plan.rekey ==>
              live[k.from].role == k.spec.role && (k.spec.battery ==> live[k.from].battery)
  {
    forall k | k in plan.rekey
      ensures k.from in live && live[k.from].publishedAs == k.spec.publishedAs
      ensures live[k.from].role == k.spec.role && (k.spec.battery ==> live[k.from].battery)
    {
      assert comp[k.spec.publishedAs] == CompositionOf(k.from, live[k.from]);
    }
    forall i, j | 0 <= i < j < |plan.rekey| ensures plan.rekey[i].from != plan.rekey[j].from {
      assert plan.rekey[i] in plan.rekey && plan.rekey[j] in plan.rekey;
    }
  }

  lemma UpdatesFit(live: map<int, LiveEntry>, comp: map<string, Composition>, desired: seq<EndpointSpec>, plan: Plan,
                   s: EndpointSpec)
    requires DistinctLive(live) && Composed(comp, live) && Sorted(comp, desired, plan) && s in plan.update
    ensures s.device in live && live[s.device].publishedAs == s.publishedAs
    ensures live[s.device].role == s.role && (s.battery ==> live[s.device].battery)
  {
    assert comp[s.publishedAs] == CompositionOf(s.device, live[s.device]);
  }

  /** A live endpoint neither removed nor vacated is updated in place. */
  lemma StayerIsUpdated(live: map<int, LiveEntry>, comp: map<string, Composition>, desired: seq<EndpointSpec>,
                        plan: Plan, d: int)
    requires DistinctLive(live) && Composed(comp, live) && Sorted(comp, desired, plan)
    requires d in live && d !in Gone(live, plan) && d !in Froms(plan.rekey)
    ensures d in DevicesOf(plan.update)
  {
    GoneMembers(live, plan, d);
    var id := live[d].publishedAs;
    assert comp[id] == CompositionOf(d, live[d]);
    assert id in IdsOf(desired);
    var s :| s in desired && s.publishedAs == id;
    assert BucketOf(comp, s) == ToRekey <==> Rekey(s, d) in plan.rekey;
    assert s in plan.update;
  }

  lemma MoverStays(live: map<int, LiveEntry>, comp: map<string, Composition>, desired: seq<EndpointSpec>, plan: Plan,
                   d: int, s: EndpointSpec)
    requires DistinctLive(live) && Composed(comp, live) && Sorted(comp, desired, plan) && DistinctIds(desired)
    requires d in live && live[d].publishedAs == s.publishedAs && s in desired
    requires BucketOf(comp, s) == ToUpdate || BucketOf(comp, s) == ToRekey
    ensures d !in Gone(live, plan)
    ensures BucketOf(comp, s) == ToUpdate ==> d !in Froms(plan.rekey)
  {
    GoneMembers(live, plan, d);
    SameIdentity(desired);
    assert s.publishedAs in IdsOf(desired);
    assert comp[s.publishedAs] == CompositionOf(d, live[d]);
    forall k | k in plan.rekey && k.from == d ensures k.spec == s {
      assert k.from == comp[k.spec.publishedAs].device;
    }
  }

  /** Once the removals and the vacated rekeys are gone, what is left is exactly what the
      plan updates in place. */
  lemma RemainderIsUpdates(live: map<int, LiveEntry>, comp: map<string, Composition>, desired: seq<EndpointSpec>,
                           plan: Plan)
    requires DistinctLive(live) && Composed(comp, live) && Sorted(comp, desired, plan) && DistinctIds(desired)
    ensures Froms(plan.rekey) !! Gone(live, plan)
    ensures live.Keys - Gone(live, plan) - Froms(plan.rekey) == DevicesOf(plan.update)
  {
    RekeysFit(live, comp, desired, plan);
    forall k | k in plan.rekey ensures k.from !in Gone(live, plan) {
      MoverStays(live, comp, desired, plan, k.from, k.spec);
    }
    forall d | d in live.Keys - Gone(live, plan) - Froms(plan.rekey) ensures d in DevicesOf(plan.update) {
      StayerIsUpdated(live, comp, desired, plan, d);
    }
    forall s | s in plan.update ensures s.device in live.Keys - Gone(live, plan) - Froms(plan.rekey) {
      UpdatesFit(live, comp, desired, plan, s);
      MoverStays(live, comp, desired, plan, s.device, s);
    }
  }

  /** The devices and identities of the three kinds of survivor never clash. */
  lemma KindsApart(comp: map<string, Composition>, desired: seq<EndpointSpec>, plan: Plan)
    requires Sorted(comp, desired, plan) && DistinctIds(desired) && DistinctDevices(desired)
    ensures DevicesOf(plan.update) !! RekeyTargets(plan.rekey)
    ensures DevicesOf(plan.create + plan.recreate) !! DevicesOf(plan.update) + RekeyTargets(plan.rekey)
    ensures IdsOf(plan.create + plan.recreate) !! IdsOf(plan.update) + RekeyIds(plan.rekey)
  {
    SameDevice(desired);
    SameIdentity(desired);
  }

  lemma CreatesDistinct(comp: map<string, Composition>, desired: seq<EndpointSpec>, plan: Plan)
    requires Sorted(comp, desired, plan) && DistinctIds(desired) && DistinctDevices(desired)
    ensures DistinctDevices(plan.create + plan.recreate) && DistinctIds(plan.create + plan.recreate)
  {
    SameDevice(desired);
    SameIdentity(desired);
    forall s, t | s in plan.create && t in plan.recreate
      ensures s.device != t.device && s.publishedAs != t.publishedAs
    {
      assert BucketOf(comp, s) != BucketOf(comp, t);
    }
    JoinDistinct(plan.create, plan.recreate);
  }

  lemma JoinDistinct(a: seq<EndpointSpec>, b: seq<EndpointSpec>)
    requires DistinctDevices(a) && DistinctIds(a) && DistinctDevices(b) && DistinctIds(b)
    requires forall s, t :: s in a && t in b ==> s.device != t.device && s.publishedAs != t.publishedAs
    ensures DistinctDevices(a + b) && DistinctIds(a + b)
  {
  }

  lemma AllDesiredPlanned(comp: map<string, Composition>, desired: seq<EndpointSpec>, plan: Plan)
    requires Sorted(comp, desired, plan)
    ensures DevicesOf(desired)
            == DevicesOf(plan.update) + RekeyTargets(plan.rekey) + DevicesOf(plan.create + plan.recreate)
  {
    forall s | s in desired
      ensures s in plan.create + plan.recreate || s in plan.update || exists k :: k in plan.rekey && k.spec == s
    {
      if BucketOf(comp, s) == ToRekey { assert Rekey(s, comp[s.publishedAs].device) in plan.rekey; }
    }
  }

  // --- the five phases of one reconcile ------------------------------------

  /** Everything the phases need to know about the plan they carry out. */
  ghost predicate Planned(w: World, comp: map<string, Composition>, desired: seq<EndpointSpec>, plan: Plan) {
    && Coherent(w) && Composed(comp, w.live) && Sorted(comp, desired, plan)
    && DistinctDevices(desired) && DistinctIds(desired)
    && (forall s :: s in desired ==> Supported(s.role))
  }

  ghost function Phase1(w: World, plan: Plan, fate: Fate): Batch { RemoveMany(w, Removals(w.live, plan), false, fate) }

  ghost function Phase2(w: World, plan: Plan, fate: Fate): Vacated {
    Vacate(Phase1(w, plan, fate).world, plan.rekey, [])
  }

  ghost function Phase3(w: World, plan: Plan, fate: Fate): Step {
    RekeyAll(Phase2(w, plan, fate).world, Phase2(w, plan, fate).stash, fate)
  }

  ghost function Phase4(w: World, plan: Plan, fate: Fate): Batch {
    CreateAll(Phase3(w, plan, fate).world, plan.create + plan.recreate, Phase1(w, plan, fate).touched, fate)
  }

  ghost function Phase5(w: World, plan: Plan, fate: Fate): Step {
    UpdateAll(Phase4(w, plan, fate).world, plan.update, fate)
  }

  lemma AfterRemovals(w: World, comp: map<string, Composition>, desired: seq<EndpointSpec>, plan: Plan, fate: Fate)
    requires Planned(w, comp, desired, plan)
    ensures var r := Phase1(w, plan, fate);
            && (Coherent(r.world) <==> RemovalsRecover(w, Removals(w.live, plan), fate))
            && (r.ok || Recovers(fate) ==> RemovalsRecover(w, Removals(w.live, plan), fate))
            && DistinctLive(r.world.live) && SubLive(r.world.live, w.live) && SubChildren(r.world.children, w.children)
            && SameAllocation(r.world, w) && r.world.bumps == w.bumps
            && (r.ok ==> r.world.live.Keys == w.live.Keys - Gone(w.live, plan))
            && (r.touched <==> r.world.children.Keys != w.children.Keys)
            && ((forall k :: fate.closes(k)) ==> r.ok)
  {
    RemoveManyKeeps(w, Removals(w.live, plan), false, fate);
  }

  lemma HeldAlike(a: map<int, LiveEntry>, b: map<int, LiveEntry>, rekeys: seq<Rekey>)
    requires SubLive(a, b) && LawfulRekeys(b, rekeys) && Froms(rekeys) <= a.Keys
    ensures LawfulRekeys(a, rekeys) && Held(a, rekeys) == Held(b, rekeys)
  {
    forall k | k in rekeys ensures k.from in a { assert k.from in Froms(rekeys); }
  }

  /** Between the two rekey phases every source key is free and only the endpoints updated
      in place are left. */
  lemma AfterVacating(w: World, comp: map<string, Composition>, desired: seq<EndpointSpec>, plan: Plan, fate: Fate)
    requires Planned(w, comp, desired, plan) && Phase1(w, plan, fate).ok
    ensures var one, r := Phase1(w, plan, fate).world, Phase2(w, plan, fate);
            && LawfulRekeys(w.live, plan.rekey)
            && r == Vacated(one.(live := one.live - Froms(plan.rekey)), true, Held(w.live, plan.rekey))
            && CoherentHolding(r.world, r.stash)
            && r.world.live.Keys == DevicesOf(plan.update) && SubLive(r.world.live, w.live)
  {
    var one := Phase1(w, plan, fate).world;
    AfterRemovals(w, comp, desired, plan, fate);
    RekeysFit(w.live, comp, desired, plan);
    RemainderIsUpdates(w.live, comp, desired, plan);
    HeldAlike(one.live, w.live, plan.rekey);
    NothingHeld(one);
    VacateHolds(one, plan.rekey, []);
    VacateShape(one, plan.rekey, []);
    assert [] + Held(w.live, plan.rekey) == Held(w.live, plan.rekey);
  }

  lemma TargetsOfHeld(live: map<int, LiveEntry>, rekeys: seq<Rekey>)
    requires LawfulRekeys(live, rekeys)
    ensures Targets(Held(live, rekeys)) == RekeyTargets(rekeys)
  {
    var stash := Held(live, rekeys);
    forall k | k in rekeys ensures k.spec.device in Targets(stash) {
      var i :| 0 <= i < |rekeys| && rekeys[i] == k;
      assert stash[i] in stash;
    }
    forall s | s in stash ensures s.spec.device in RekeyTargets(rekeys) {
      var i :| 0 <= i < |stash| && stash[i] == s;
      assert rekeys[i] in rekeys;
    }
  }

  lemma AfterRekeys(w: World, comp: map<string, Composition>, desired: seq<EndpointSpec>, plan: Plan, fate: Fate)
    requires Planned(w, comp, desired, plan) && Phase1(w, plan, fate).ok
    ensures var two, r := Phase2(w, plan, fate), Phase3(w, plan, fate);
            && |two.stash| == |plan.rekey| && Loses(r.world, Lost(two.world, two.stash, fate))
            && (r.ok ==> Coherent(r.world) && r.world.live == Installed(two.world.live, two.stash))
            && SameAllocation(r.world, w) && r.world.children == Phase1(w, plan, fate).world.children
            && r.world.bumps == w.bumps
            && (WatchesHold(fate) && (forall k :: fate.sets(k)) ==> r.ok)
  {
    var two := Phase2(w, plan, fate);
    AfterVacating(w, comp, desired, plan, fate);
    AfterRemovals(w, comp, desired, plan, fate);
    KindsApart(comp, desired, plan);
    TargetsOfHeld(w.live, plan.rekey);
    RekeyAllHolds(two.world, two.stash, fate);
    if WatchesHold(fate) && forall k :: fate.sets(k) { RekeyAllSucceeds(two.world, two.stash, fate); }
  }

  lemma AfterInstalling(w: World, comp: map<string, Composition>, desired: seq<EndpointSpec>, plan: Plan, fate: Fate)
    requires Planned(w, comp, desired, plan) && Phase1(w, plan, fate).ok && Phase3(w, plan, fate).ok
    ensures LawfulRekeys(w.live, plan.rekey)
    ensures var stash, live := Held(w.live, plan.rekey), Phase3(w, plan, fate).world.live;
            && live.Keys == DevicesOf(plan.update) + RekeyTargets(plan.rekey)
            && (forall d :: d in DevicesOf(plan.update) ==> d in w.live && live[d] == w.live[d])
            && (forall s :: s in stash ==>
                  s.spec.device in live && live[s.spec.device] == s.entry.(name := s.spec.name))
  {
    var two := Phase2(w, plan, fate);
    AfterVacating(w, comp, desired, plan, fate);
    AfterRekeys(w, comp, desired, plan, fate);
    KindsApart(comp, desired, plan);
    TargetsOfHeld(w.live, plan.rekey);
    InstalledAt(two.world.live, two.stash);
    forall s | s in two.stash ensures s.spec.device in Targets(two.stash) {}
  }

  /** After the rekeys: exactly the identities that survive in place, each under the
      device that desires it and still the object it was. */
  lemma SurvivorsInPlace(w: World, comp: map<string, Composition>, desired: seq<EndpointSpec>, plan: Plan, fate: Fate)
    requires Planned(w, comp, desired, plan) && Phase1(w, plan, fate).ok && Phase3(w, plan, fate).ok
    ensures LawfulRekeys(w.live, plan.rekey)
    ensures var live := Phase3(w, plan, fate).world.live;
            && live.Keys == DevicesOf(plan.update) + RekeyTargets(plan.rekey)
            && (forall s :: s in plan.update ==> s.device in w.live && live[s.device] == w.live[s.device])
            && (forall k :: k in plan.rekey ==> live[k.spec.device] == w.live[k.from].(name := k.spec.name))
  {
    AfterInstalling(w, comp, desired, plan, fate);
    var live, stash := Phase3(w, plan, fate).world.live, Held(w.live, plan.rekey);
    forall s | s in plan.update ensures s.device in w.live && live[s.device] == w.live[s.device] {
      assert s.device in DevicesOf(plan.update);
    }
    forall k | k in plan.rekey ensures live[k.spec.device] == w.live[k.from].(name := k.spec.name) {
      var i :| 0 <= i < |plan.rekey| && plan.rekey[i] == k;
      assert stash[i] in stash;
    }
  }

  lemma CreatesReady(w: World, comp: map<string, Composition>, desired: seq<EndpointSpec>, plan: Plan, fate: Fate)
    requires Planned(w, comp, desired, plan) && Phase1(w, plan, fate).ok && Phase3(w, plan, fate).ok
    ensures var three, made := Phase3(w, plan, fate).world, plan.create + plan.recreate;
            && Coherent(three) && DistinctDevices(made) && DistinctIds(made)
            && DevicesOf(made) !! three.live.Keys && (forall s :: s in made ==> Supported(s.role))
  {
    AfterRekeys(w, comp, desired, plan, fate);
    SurvivorsInPlace(w, comp, desired, plan, fate);
    CreatesDistinct(comp, desired, plan);
    KindsApart(comp, desired, plan);
  }

  /** After the creates: every desired device is live, and nothing else is. */
  lemma AfterCreates(w: World, comp: map<string, Composition>, desired: seq<EndpointSpec>, plan: Plan, fate: Fate)
    requires Planned(w, comp, desired, plan) && Phase1(w, plan, fate).ok && Phase3(w, plan, fate).ok
    ensures var three, r := Phase3(w, plan, fate).world, Phase4(w, plan, fate);
            && (Coherent(r.world) <==> CreatesRecover(three, plan.create + plan.recreate, fate))
            && (r.ok || Recovers(fate) ==> CreatesRecover(three, plan.create + plan.recreate, fate))
            && DistinctLive(r.world.live) && r.world.bumps == w.bumps && SubLive(three.live, r.world.live)
            && (r.ok ==> r.world.live.Keys == DevicesOf(desired))
            && (r.ok ==> forall s :: s in plan.create || s in plan.recreate ==>
                  s.device in r.world.live && r.world.live[s.device] == EntryFor(s, r.world.live[s.device].endpoint)
                  && r.world.live[s.device].endpoint >= w.nextHandle)
  {
    var three, made := Phase3(w, plan, fate).world, plan.create + plan.recreate;
    var touched := Phase1(w, plan, fate).touched;
    AfterRekeys(w, comp, desired, plan, fate);
    CreatesReady(w, comp, desired, plan, fate);
    CreateAllKeeps(three, made, touched, fate);
    CreateAllLive(three, made, touched, fate);
    if Phase4(w, plan, fate).ok {
      CreateAllBuilds(three, made, touched, fate);
      SurvivorsInPlace(w, comp, desired, plan, fate);
      AllDesiredPlanned(comp, desired, plan);
    }
  }

  lemma UpdatesReady(w: World, comp: map<string, Composition>, desired: seq<EndpointSpec>, plan: Plan, fate: Fate)
    requires Planned(w, comp, desired, plan) && Phase1(w, plan, fate).ok && Phase3(w, plan, fate).ok
             && Phase4(w, plan, fate).ok
    ensures Coherent(Phase4(w, plan, fate).world) && DevicesOf(plan.update) <= Phase4(w, plan, fate).world.live.Keys
  {
    AfterCreates(w, comp, desired, plan, fate);
    forall s | s in plan.update ensures s.device in Phase4(w, plan, fate).world.live {
      assert s in desired && s.device in DevicesOf(desired);
    }
  }

  // --- theorems ------------------------------------------------------------

  /** Phase by phase, what `Apply` returns. */
  lemma ApplyPhases(w: World, plan: Plan, fate: Fate)
    ensures Apply(w, plan, fate) ==
      var one, two, three, four, five :=
        Phase1(w, plan, fate), Phase2(w, plan, fate), Phase3(w, plan, fate), Phase4(w, plan, fate),
        Phase5(w, plan, fate);
      if !one.ok then Abort(one)
      else if !two.ok then Abort(Batch(two.world, false, one.touched))
      else if !three.ok then Abort(Batch(three.world, false, one.touched))
      else if !four.ok then Abort(four)
      else if !five.ok then Abort(Batch(five.world, false, four.touched))
      else Outcome(if plan.create != [] || plan.recreate != [] || plan.remove != []
                   then Bump(five.world) else five.world, Done)
  {
  }

  /** The callers' side of a reconcile: a coherent world and a parsed desired set. */
  ghost predicate Requested(w: World, desired: seq<EndpointSpec>, order: seq<string>) {
    Coherent(w) && DistinctDevices(desired) && DistinctIds(desired) && Enumerates(order, LiveComposition(w.live))
  }

  lemma RequestIsPlanned(w: World, desired: seq<EndpointSpec>, order: seq<string>)
    requires Requested(w, desired, order) && (forall s :: s in desired ==> Supported(s.role))
    ensures Planned(w, LiveComposition(w.live), desired, PlanOf(LiveComposition(w.live), order, desired))
  {
    LiveIsComposed(w.live);
    PlanIsSorted(LiveComposition(w.live), order, desired);
  }

  ghost predicate Meets(e: LiveEntry, s: EndpointSpec) {
    e.publishedAs == s.publishedAs && e.role == s.role && e.name == s.name && (s.battery ==> e.battery)
  }

  /** The live entry that `s` keeps in place, if any: same identity, same role, no battery gained. */
  ghost predicate Keeps(e: LiveEntry, s: EndpointSpec) {
    e.publishedAs == s.publishedAs && e.role == s.role && !(s.battery && !e.battery)
  }

  ghost predicate Exactly(live: map<int, LiveEntry>, desired: seq<EndpointSpec>) {
    live.Keys == DevicesOf(desired) && forall s :: s in desired ==> s.device in live && Meets(live[s.device], s)
  }

  /** What becomes of one desired spec over the phases, by bucket. */
  lemma EntryByBucket(w: World, comp: map<string, Composition>, desired: seq<EndpointSpec>, plan: Plan, fate: Fate,
                      s: EndpointSpec)
    requires Planned(w, comp, desired, plan) && s in desired
    requires Phase1(w, plan, fate).ok && Phase3(w, plan, fate).ok && Phase4(w, plan, fate).ok
             && Phase5(w, plan, fate).ok
    ensures s.device in Phase5(w, plan, fate).world.live
    ensures var e := Phase5(w, plan, fate).world.live[s.device];
            match BucketOf(comp, s)
            case ToUpdate => s.device in w.live && e == w.live[s.device].(name := s.name)
            case ToRekey =>
              comp[s.publishedAs].device in w.live && e == w.live[comp[s.publishedAs].device].(name := s.name)
            case _ => e == EntryFor(s, e.endpoint) && e.endpoint >= w.nextHandle
  {
    var four, five := Phase4(w, plan, fate).world, Phase5(w, plan, fate).world.live;
    SurvivorsInPlace(w, comp, desired, plan, fate);
    AfterCreates(w, comp, desired, plan, fate);
    UpdatesReady(w, comp, desired, plan, fate);
    UpdateAllRenames(four, plan.update, fate);
    assert s.device in DevicesOf(desired);
    if BucketOf(comp, s) == ToUpdate {
      assert s in plan.update;
    } else {
      NotUpdated(comp, desired, plan, s);
      if BucketOf(comp, s) == ToRekey { assert Rekey(s, comp[s.publishedAs].device) in plan.rekey; }
    }
  }

  /** The entry a successful run of the phases leaves for one desired spec. */
  lemma PlannedEntry(w: World, comp: map<string, Composition>, desired: seq<EndpointSpec>, plan: Plan, fate: Fate,
                     s: EndpointSpec)
    requires Planned(w, comp, desired, plan) && s in desired
    requires Phase1(w, plan, fate).ok && Phase3(w, plan, fate).ok && Phase4(w, plan, fate).ok
             && Phase5(w, plan, fate).ok
    ensures s.device in Phase5(w, plan, fate).world.live
    ensures Meets(Phase5(w, plan, fate).world.live[s.device], s)
    ensures forall d :: d in w.live && w.live[d].publishedAs == s.publishedAs ==>
              var e := Phase5(w, plan, fate).world.live[s.device];
              if Keeps(w.live[d], s) then e == w.live[d].(name := s.name)
              else e.endpoint >= w.nextHandle && e.battery == s.battery
  {
    EntryByBucket(w, comp, desired, plan, fate, s);
    if s.publishedAs in comp {
      var d := comp[s.publishedAs].device;
      assert comp[s.publishedAs] == CompositionOf(d, w.live[d]);
    }
  }

  lemma NotUpdated(comp: map<string, Composition>, desired: seq<EndpointSpec>, plan: Plan, s: EndpointSpec)
    requires Sorted(comp, desired, plan) && DistinctDevices(desired) && s in desired && BucketOf(comp, s) != ToUpdate
    ensures s.device !in DevicesOf(plan.update)
  {
    forall t | t in plan.update ensures t.device != s.device {
      if t.device == s.device { DistinctDevicesInjective(desired, s, t); }
    }
  }

  /** A successful reconcile leaves exactly the desired live set, driver swaps and longer
      cycles included, with aggregator, live map and sinks in agreement. */
  lemma ReconcileExact(w: World, desired: seq<EndpointSpec>, replaceAll: bool, order: seq<string>, fate: Fate)
    requires Requested(w, desired, order)
    requires ReconcileTo(w, desired, replaceAll, order, fate).verdict == Done
    ensures var v := ReconcileTo(w, desired, replaceAll, order, fate).world;
            Coherent(v) && Exactly(v.live, desired)
    ensures var v := ReconcileTo(w, desired, replaceAll, order, fate).world;
            forall s, d :: s in desired && d in w.live && w.live[d].publishedAs == s.publishedAs ==>
              s.device in v.live &&
              if Keeps(w.live[d], s) then v.live[s.device] == w.live[d].(name := s.name)
              else v.live[s.device].endpoint >= w.nextHandle && v.live[s.device].battery == s.battery
  {
    var comp := LiveComposition(w.live);
    var plan := PlanOf(comp, order, desired);
    RequestIsPlanned(w, desired, order);
    ApplyPhases(w, plan, fate);
    AfterCreates(w, comp, desired, plan, fate);
    UpdatesReady(w, comp, desired, plan, fate);
    var four, five := Phase4(w, plan, fate).world, Phase5(w, plan, fate).world;
    UpdateAllKeeps(four, plan.update, fate);
    UpdateAllRenames(four, plan.update, fate);
    var v := ReconcileTo(w, desired, replaceAll, order, fate).world;
    assert v.live == five.live;
    BumpKeeps(five);
    forall s | s in desired
      ensures s.device in v.live && Meets(v.live[s.device], s)
      ensures forall d :: d in w.live && w.live[d].publishedAs == s.publishedAs ==>
                if Keeps(w.live[d], s) then v.live[s.device] == w.live[d].(name := s.name)
                else v.live[s.device].endpoint >= w.nextHandle && v.live[s.device].battery == s.battery
    {
      PlannedEntry(w, comp, desired, plan, fate, s);
    }
  }

  lemma BumpKeeps(w: World)
    requires Coherent(w)
    ensures Coherent(Bump(w))
  {
    assert forall d :: d in w.live ==> Linked(w, d, w.live[d]);
    forall d | d in Bump(w).live ensures Linked(Bump(w), d, Bump(w).live[d]) {}
  }

  /** What exact and coherent mean together: the aggregator holds the desired identities and
      every command reaches the device that now drives its identity. */
  lemma SinksNameDrivers(v: World, desired: seq<EndpointSpec>)
    requires Coherent(v) && Exactly(v.live, desired)
    ensures v.children.Keys == IdsOf(desired)
    ensures forall s :: s in desired ==> s.publishedAs in v.sinks && v.sinks[s.publishedAs] == s.device
  {
    assert Ids(v.live) == IdsOf(desired) by {
      forall id | id in Ids(v.live) ensures id in IdsOf(desired) {
        var d :| d in v.live && v.live[d].publishedAs == id;
        assert d in DevicesOf(desired);
      }
      forall s | s in desired ensures s.publishedAs in Ids(v.live) {
        assert v.live[s.device].publishedAs == s.publishedAs;
      }
    }
    forall s | s in desired ensures s.publishedAs in v.sinks && v.sinks[s.publishedAs] == s.device {
      assert Linked(v, s.device, v.live[s.device]);
    }
  }

  /** With no faults a reconcile that is not refused always succeeds. */
  lemma FaultFreeReconcileSucceeds(w: World, desired: seq<EndpointSpec>, replaceAll: bool, order: seq<string>,
                                   fate: Fate)
    requires Requested(w, desired, order)
    requires NothingFails(fate)
    ensures ReconcileTo(w, desired, replaceAll, order, fate).verdict ==
            if (exists s :: s in desired && !Supported(s.role))
                || MassRemoval(LiveComposition(w.live), desired, replaceAll)
            then Refused else Done
  {
    if (forall s :: s in desired ==> Supported(s.role)) && !MassRemoval(LiveComposition(w.live), desired, replaceAll) {
      var plan := PlanOf(LiveComposition(w.live), order, desired);
      RequestIsPlanned(w, desired, order);
      PhasesSucceed(w, LiveComposition(w.live), desired, plan, fate);
      ApplyPhases(w, plan, fate);
    }
  }

  lemma PhasesSucceed(w: World, comp: map<string, Composition>, desired: seq<EndpointSpec>, plan: Plan, fate: Fate)
    requires Planned(w, comp, desired, plan)
    requires NothingFails(fate)
    ensures Phase1(w, plan, fate).ok && Phase2(w, plan, fate).ok && Phase3(w, plan, fate).ok
    ensures Phase4(w, plan, fate).ok && Phase5(w, plan, fate).ok
  {
    AfterRemovals(w, comp, desired, plan, fate);
    AfterVacating(w, comp, desired, plan, fate);
    AfterRekeys(w, comp, desired, plan, fate);
    CreatesReady(w, comp, desired, plan, fate);
    IdentitiesAreFree(w, comp, desired, plan, fate);
    CreateAllSucceeds(Phase3(w, plan, fate).world, plan.create + plan.recreate, Phase1(w, plan, fate).touched, fate);
    UpdatesReady(w, comp, desired, plan, fate);
    UpdateAllKeeps(Phase4(w, plan, fate).world, plan.update, fate);
  }

  /** No identity about to be created is still in the aggregator. */
  lemma IdentitiesAreFree(w: World, comp: map<string, Composition>, desired: seq<EndpointSpec>, plan: Plan, fate: Fate)
    requires Planned(w, comp, desired, plan) && Phase1(w, plan, fate).ok && Phase3(w, plan, fate).ok
    ensures IdsOf(plan.create + plan.recreate) !! Phase3(w, plan, fate).world.children.Keys
  {
    var three := Phase3(w, plan, fate).world;
    AfterRekeys(w, comp, desired, plan, fate);
    SurvivorsInPlace(w, comp, desired, plan, fate);
    KindsApart(comp, desired, plan);
    forall id | id in three.children ensures id in IdsOf(plan.update) + RekeyIds(plan.rekey) {
      var d :| d in three.live && three.live[d].publishedAs == id;
      if d in DevicesOf(plan.update) {
        var s :| s in plan.update && s.device == d;
        UpdatesFit(w.live, comp, desired, plan, s);
      } else {
        var k :| k in plan.rekey && k.spec.device == d;
        RekeysFit(w.live, comp, desired, plan);
      }
    }
  }

  /** A reconcile without the intent to replace everything never empties the live set. */
  lemma NeverEmptied(w: World, desired: seq<EndpointSpec>, order: seq<string>, fate: Fate)
    requires Requested(w, desired, order) && w.live != map[]
    requires ReconcileTo(w, desired, false, order, fate).verdict == Done
    ensures ReconcileTo(w, desired, false, order, fate).world.live != map[]
  {
    ReconcileExact(w, desired, false, order, fate);
    SomethingDesired(w.live, desired);
    assert desired[0] in desired;
  }

  lemma SomethingDesired(live: map<int, LiveEntry>, desired: seq<EndpointSpec>)
    requires DistinctLive(live) && live != map[] && !MassRemoval(LiveComposition(live), desired, false)
    ensures desired != []
  {
    LiveIsComposed(live);
    SomeNumber(live.Keys);
    var d :| d in live.Keys;
    assert live[d].publishedAs in LiveComposition(live);
  }

  // --- aborts --------------------------------------------------------------

  /** An abort of the rekeys loses exactly the entries phase 2 did not reach and what the
      failing step itself lost: still in the aggregator, no longer in the live map. */
  lemma AbortLosesExactly(w: World, comp: map<string, Composition>, desired: seq<EndpointSpec>, plan: Plan, fate: Fate)
    requires Planned(w, comp, desired, plan) && Phase1(w, plan, fate).ok && !Phase3(w, plan, fate).ok
    ensures var two := Phase2(w, plan, fate);
            var v := Apply(w, plan, fate).world;
            && |two.stash| == |plan.rekey|
            && v.children.Keys - Ids(v.live) == Lost(two.world, two.stash, fate)
            && (Coherent(v) <==> Lost(two.world, two.stash, fate) == {})
  {
    AfterVacating(w, comp, desired, plan, fate);
    AfterRekeys(w, comp, desired, plan, fate);
    ApplyPhases(w, plan, fate);
    LossDecides(Phase3(w, plan, fate).world, Lost(Phase2(w, plan, fate).world, Phase2(w, plan, fate).stash, fate));
  }

  lemma LossDecides(v: World, lost: set<string>)
    requires Loses(v, lost)
    ensures v.children.Keys - Ids(v.live) == lost
    ensures Coherent(v) <==> lost == {}
    ensures Coherent(Bump(v)) <==> lost == {}
  {
    if Coherent(v) { BumpKeeps(v); }
  }

  /** Each call whose failure ends a reconcile is recovered: the close that fails is watched
      again, the rekeys lose nothing, the create that fails leaves nothing behind. */
  ghost predicate Recovered(w: World, plan: Plan, fate: Fate) {
    && RemovalsRecover(w, Removals(w.live, plan), fate)
    && (Phase1(w, plan, fate).ok ==>
          var two := Phase2(w, plan, fate);
          && Lost(two.world, two.stash, fate) == {}
          && (Phase3(w, plan, fate).ok ==>
                CreatesRecover(Phase3(w, plan, fate).world, plan.create + plan.recreate, fate)))
  }

  lemma BumpDecides(w: World)
    ensures Coherent(Bump(w)) <==> Coherent(w)
  {
    if Coherent(w) { BumpKeeps(w); }
    if Coherent(Bump(w)) {
      forall d | d in w.live ensures Linked(w, d, w.live[d]) { assert Linked(Bump(w), d, Bump(w).live[d]); }
    }
  }

  /** Wherever a reconcile stops, whatever failed and however many rekeys it had, the three
      views agree afterwards exactly when the failure was recovered. */
  lemma AbortExactly(w: World, comp: map<string, Composition>, desired: seq<EndpointSpec>, plan: Plan, fate: Fate)
    requires Planned(w, comp, desired, plan)
    ensures Coherent(Apply(w, plan, fate).world) <==> Recovered(w, plan, fate)
  {
    ApplyPhases(w, plan, fate);
    AfterRemovals(w, comp, desired, plan, fate);
    BumpDecides(Phase1(w, plan, fate).world);
    if Phase1(w, plan, fate).ok {
      AfterVacating(w, comp, desired, plan, fate);
      AfterRekeys(w, comp, desired, plan, fate);
      if Phase3(w, plan, fate).ok {
        RekeysLostNothing(w, comp, desired, plan, fate);
        LateStop(w, comp, desired, plan, fate);
      } else {
        AbortLosesExactly(w, comp, desired, plan, fate);
      }
    }
  }

  lemma RekeysLostNothing(w: World, comp: map<string, Composition>, desired: seq<EndpointSpec>, plan: Plan, fate: Fate)
    requires Planned(w, comp, desired, plan) && Phase1(w, plan, fate).ok && Phase3(w, plan, fate).ok
    ensures Lost(Phase2(w, plan, fate).world, Phase2(w, plan, fate).stash, fate) == {}
  {
    AfterRekeys(w, comp, desired, plan, fate);
    LossDecides(Phase3(w, plan, fate).world, Lost(Phase2(w, plan, fate).world, Phase2(w, plan, fate).stash, fate));
  }

  /** Past the rekeys the creates decide. */
  lemma LateStop(w: World, comp: map<string, Composition>, desired: seq<EndpointSpec>, plan: Plan, fate: Fate)
    requires Planned(w, comp, desired, plan) && Phase1(w, plan, fate).ok && Phase3(w, plan, fate).ok
    ensures var recover := CreatesRecover(Phase3(w, plan, fate).world, plan.create + plan.recreate, fate);
            && (Coherent(Phase4(w, plan, fate).world) <==> recover)
            && (Coherent(Bump(Phase4(w, plan, fate).world)) <==> recover)
            && (Phase4(w, plan, fate).ok ==> recover)
    ensures Phase4(w, plan, fate).ok ==>
              Coherent(Phase5(w, plan, fate).world) && Coherent(Bump(Phase5(w, plan, fate).world))
  {
    AfterCreates(w, comp, desired, plan, fate);
    BumpDecides(Phase4(w, plan, fate).world);
    if Phase4(w, plan, fate).ok {
      UpdatesReady(w, comp, desired, plan, fate);
      UpdateAllKeeps(Phase4(w, plan, fate).world, plan.update, fate);
      BumpKeeps(Phase5(w, plan, fate).world);
    }
  }

  /** One rekey at most: its old driver is free when it has to go back there. */
  lemma SingleRekeyRecovers(w: World, comp: map<string, Composition>, desired: seq<EndpointSpec>, plan: Plan,
                            fate: Fate)
    requires Planned(w, comp, desired, plan) && Recovers(fate) && |plan.rekey| <= 1 && Phase1(w, plan, fate).ok
    ensures Lost(Phase2(w, plan, fate).world, Phase2(w, plan, fate).stash, fate) == {}
  {
    var two := Phase2(w, plan, fate);
    AfterVacating(w, comp, desired, plan, fate);
    if plan.rekey != [] {
      assert plan.rekey[0] in plan.rekey && two.stash[0].from in Froms(plan.rekey);
      LastLosesNothing(two.world, two.stash, fate);
    }
  }

  lemma LastLosesNothing(w: World, stash: seq<Stashed>, fate: Fate)
    requires |stash| == 1 && Recovers(fate) && stash[0].from !in w.live
    ensures Lost(w, stash, fate) == {}
  {
    assert stash[1..] == [] && StashIds([]) == {};
    assert fate.watches(w.tick) || fate.watches(w.tick + 1);
  }

  /** With at most one rekey and no two calls of one recovery failing together, wherever a
      planned reconcile stops the three views agree. */
  lemma AbortKeepsCoherent(w: World, comp: map<string, Composition>, desired: seq<EndpointSpec>, plan: Plan, fate: Fate)
    requires Planned(w, comp, desired, plan) && Recovers(fate) && |plan.rekey| <= 1
    ensures Coherent(Apply(w, plan, fate).world) && Recovered(w, plan, fate)
  {
    AbortExactly(w, comp, desired, plan, fate);
    AfterRemovals(w, comp, desired, plan, fate);
    if Phase1(w, plan, fate).ok {
      SingleRekeyRecovers(w, comp, desired, plan, fate);
      if Phase3(w, plan, fate).ok { AfterCreates(w, comp, desired, plan, fate); }
    }
  }

  /** Every attribute write refused, everything else granted. */
  function WritesFail(): Fate { Fate(k => true, k => true, k => false, k => false, k => true, k => false) }

  /** With two rekeys or more, refusing the first attribute write loses an entry. */
  lemma TwoRekeysCanLose(w: World, comp: map<string, Composition>, desired: seq<EndpointSpec>, plan: Plan)
    requires Planned(w, comp, desired, plan) && |plan.rekey| >= 2
    ensures Recovers(WritesFail()) && !Coherent(Apply(w, plan, WritesFail()).world)
  {
    var fate := WritesFail();
    var two := Phase2(w, plan, fate);
    AfterRemovals(w, comp, desired, plan, fate);
    AfterVacating(w, comp, desired, plan, fate);
    KindsApart(comp, desired, plan);
    TargetsOfHeld(w.live, plan.rekey);
    FirstRekeyFails(two.world, two.stash);
    AbortLosesExactly(w, comp, desired, plan, fate);
  }

  lemma FirstRekeyFails(w: World, stash: seq<Stashed>)
    requires CoherentHolding(w, stash) && w.live.Keys !! Targets(stash) && |stash| >= 2
    ensures !RekeyAll(w, stash, WritesFail()).ok && Lost(w, stash, WritesFail()) != {}
  {
    assert stash[0] in stash && stash[0].spec.device in Targets(stash);
    RekeyOneMoves(w, stash[0], WritesFail());
    assert stash[1] in stash[1..] && stash[1].entry.publishedAs in StashIds(stash[1..]);
  }

  /** Abort safety, exactly: a reconcile that passes the gates leaves aggregator, live map
      and sinks in agreement under every pattern of failed adds, closes, attribute writes and
      subscriptions in which no two calls of one recovery fail together, iff its plan has at
      most one rekey. */
  lemma AbortSafety(w: World, desired: seq<EndpointSpec>, replaceAll: bool, order: seq<string>)
    requires Requested(w, desired, order)
    requires forall s :: s in desired ==> Supported(s.role)
    requires !MassRemoval(LiveComposition(w.live), desired, replaceAll)
    ensures (forall fate: Fate :: Recovers(fate) ==> Coherent(ReconcileTo(w, desired, replaceAll, order, fate).world))
       <==> |PlanOf(LiveComposition(w.live), order, desired).rekey| <= 1
  {
    var comp := LiveComposition(w.live);
    var plan := PlanOf(comp, order, desired);
    RequestIsPlanned(w, desired, order);
    if |plan.rekey| <= 1 {
      forall fate: Fate | Recovers(fate) ensures Coherent(ReconcileTo(w, desired, replaceAll, order, fate).world) {
        AbortKeepsCoherent(w, comp, desired, plan, fate);
      }
    } else {
      TwoRekeysCanLose(w, comp, desired, plan);
      assert !Coherent(ReconcileTo(w, desired, replaceAll, order, WritesFail()).world);
    }
  }

  // --- the configuration-change hook ---------------------------------------

  /** Removal, then whatever was added since: the aggregator's children differ from before
      exactly when a close or an add went through, or a create left its endpoint behind. */
  lemma TouchedMeansChanged(w: World, comp: map<string, Composition>, desired: seq<EndpointSpec>, plan: Plan,
                            fate: Fate)
    requires Planned(w, comp, desired, plan) && Phase1(w, plan, fate).ok && Phase3(w, plan, fate).ok
    ensures Phase4(w, plan, fate).touched
            || !CreatesRecover(Phase3(w, plan, fate).world, plan.create + plan.recreate, fate)
       <==> Phase4(w, plan, fate).world.children != w.children
  {
    var one, three, four := Phase1(w, plan, fate), Phase3(w, plan, fate).world, Phase4(w, plan, fate);
    AfterRemovals(w, comp, desired, plan, fate);
    AfterRekeys(w, comp, desired, plan, fate);
    CreatesReady(w, comp, desired, plan, fate);
    CreateAllTouches(three, plan.create + plan.recreate, one.touched, fate);
    ChangedByRemovalOrNewObject(w.children, three.children, four.world.children, w.nextHandle);
  }

  /** Children only removed, then only new objects added: the result differs iff one of the
      two happened, even when an identity comes back. */
  lemma ChangedByRemovalOrNewObject(before: map<string, nat>, mid: map<string, nat>, after: map<string, nat>,
                                    bound: nat)
    requires SubChildren(mid, before) && SubChildren(mid, after)
    requires forall id :: id in before ==> before[id] < bound
    requires forall id :: id in after && id !in mid ==> after[id] >= bound
    ensures after != before <==> mid.Keys != before.Keys || after.Keys != mid.Keys
  {
    if mid.Keys != before.Keys {
      var id :| id in before.Keys && id !in mid.Keys;
      assert id !in after || after[id] != before[id];
    } else {
      assert mid == before;
      if after.Keys == mid.Keys { assert after == mid; }
    }
  }

  lemma {:induction false} CreatingTouches(w: World, specs: seq<EndpointSpec>, touched: bool, fate: Fate)
    ensures CreateAll(w, specs, touched, fate).ok && specs != [] ==> CreateAll(w, specs, touched, fate).touched
    ensures touched ==> CreateAll(w, specs, touched, fate).touched
    ensures specs == [] ==> CreateAll(w, specs, touched, fate).touched == touched
    decreases |specs|
  {
    if specs != [] {
      var c := Create(w, specs[0], fate);
      if c.ok { CreatingTouches(c.world, specs[1..], true, fate); }
    }
  }

  lemma RemovingTouches(w: World, comp: map<string, Composition>, desired: seq<EndpointSpec>, plan: Plan, fate: Fate)
    requires Planned(w, comp, desired, plan) && Phase1(w, plan, fate).ok
    ensures plan.remove != [] || plan.recreate != [] ==> Phase1(w, plan, fate).touched
    ensures plan.remove == [] && plan.recreate == [] ==> !Phase1(w, plan, fate).touched
  {
    AfterRemovals(w, comp, desired, plan, fate);
    var one := Phase1(w, plan, fate).world;
    if plan.remove != [] || plan.recreate != [] {
      var id := if plan.remove != [] then plan.remove[0] else plan.recreate[0].publishedAs;
      assert plan.remove != [] ==> plan.remove[0] in plan.remove;
      assert plan.remove == [] ==> plan.recreate[0] in plan.recreate;
      var d := comp[id].device;
      GoneMembers(w.live, plan, d);
      assert Linked(w, d, w.live[d]) && id in w.children;
      assert id !in Ids(one.live);
    } else {
      assert Removals(w.live, plan) == [];
    }
  }

  lemma HookAfterCreates(w: World, comp: map<string, Composition>, desired: seq<EndpointSpec>, plan: Plan, fate: Fate)
    requires Planned(w, comp, desired, plan) && Phase1(w, plan, fate).ok && Phase3(w, plan, fate).ok
    ensures var four, five := Phase4(w, plan, fate), Phase5(w, plan, fate).world;
            && four.world.bumps == w.bumps
            && (four.ok ==> five.bumps == w.bumps && five.children == four.world.children)
            && (four.ok ==> (four.touched <==> plan.create != [] || plan.recreate != [] || plan.remove != []))
  {
    AfterCreates(w, comp, desired, plan, fate);
    if Phase4(w, plan, fate).ok {
      UpdatesReady(w, comp, desired, plan, fate);
      UpdateAllKeeps(Phase4(w, plan, fate).world, plan.update, fate);
      RemovingTouches(w, comp, desired, plan, fate);
      CreatingTouches(Phase3(w, plan, fate).world, plan.create + plan.recreate, Phase1(w, plan, fate).touched, fate);
    }
  }

  /** The one change of the child set no hook announces: the first thing to touch it is a
      create whose endpoint could be neither watched nor taken back out. */
  ghost predicate LeftBehindUnseen(w: World, plan: Plan, fate: Fate) {
    && Phase1(w, plan, fate).ok && Phase3(w, plan, fate).ok && !Phase4(w, plan, fate).touched
    && !CreatesRecover(Phase3(w, plan, fate).world, plan.create + plan.recreate, fate)
  }

  /** The hook fires exactly once when the aggregator's child set was touched and not at all
      otherwise, wherever the reconcile stops and whatever failed, with that one exception; a
      batch of rekeys and updates never fires it. */
  lemma HookFiresExactly(w: World, comp: map<string, Composition>, desired: seq<EndpointSpec>, plan: Plan, fate: Fate)
    requires Planned(w, comp, desired, plan)
    ensures var v := Apply(w, plan, fate).world;
            v.bumps == (w.bumps + if v.children != w.children then 1 else 0) <==> !LeftBehindUnseen(w, plan, fate)
    ensures Recovers(fate) ==> !LeftBehindUnseen(w, plan, fate)
  {
    var one := Phase1(w, plan, fate);
    ApplyPhases(w, plan, fate);
    AfterRemovals(w, comp, desired, plan, fate);
    SameWhenNothingGone(one.world.children, w.children);
    if one.ok {
      AfterVacating(w, comp, desired, plan, fate);
      AfterRekeys(w, comp, desired, plan, fate);
      if Phase3(w, plan, fate).ok {
        AfterCreates(w, comp, desired, plan, fate);
        TouchedMeansChanged(w, comp, desired, plan, fate);
        HookAfterCreates(w, comp, desired, plan, fate);
      }
    }
  }

  lemma SameWhenNothingGone(a: map<string, nat>, b: map<string, nat>)
    requires SubChildren(a, b)
    ensures a == b <==> a.Keys == b.Keys
  {
    if a.Keys == b.Keys { assert a == b; }
  }
}
