/** Spec parsing and the reconcile planner (`reconcile.ts`): what one `attach` has to do
    to the live endpoint set, and when it must be refused. */
module Reconcile {
  import opened Protocol

  // --- parsing the wire ----------------------------------------------------

  /** One entry of the `endpoints` list: a JSON object with whatever these keys hold, or some
      other value. */
  datatype WireSpec =
    | NotObject
    | Wire(device: Option<Json>, role: Option<Json>, name: Option<Json>, reachable: Option<Json>, battery: Option<Json>,
           publishedAs: Option<Json>, states: Option<Json>, options: Option<Json>)

  datatype ParseError = UnknownRole | MalformedArgs

  datatype Result<+T, +E> = Ok(value: T) | Err(error: E)

  predicate IsText(v: Option<Json>) { v.Some? && v.value.JStr? }

  predicate HasInteger(v: Option<Json>) { v.Some? && IsInteger(v.value) }

  /** Absent, or a boolean. */
  predicate IsFlag(v: Option<Json>) { v.Some? ==> v.value.JBool? }

  function FlagOr(v: Option<Json>, fallback: bool): bool
    requires IsFlag(v)
  {
    if v.Some? then v.value.b else fallback
  }

  /** Absent, or an object. */
  predicate IsObject(v: Option<Json>) { v.Some? ==> v.value.JStruct? }

  /** The plugin's `EndpointSpec.to_wire`; an empty `publishedAs` asks for the default. */
  function ToWire(spec: EndpointSpec): WireSpec {
    Wire(Some(JNum(spec.device as real)), Some(JStr(spec.role)), Some(JStr(spec.name)), Some(JBool(spec.reachable)),
         if spec.battery then Some(JBool(true)) else None,
         if spec.publishedAs != "" && spec.publishedAs != PublishedIdFor(spec.device, 1)
         then Some(JStr(spec.publishedAs)) else None,
         Some(JStruct), Some(JStruct))
  }

  /** The plugin's `EndpointSpec.from_wire`, for frames whose values have the types `to_wire`
      gives them. */
  function FromWire(wire: WireSpec): Option<EndpointSpec> {
    if wire.NotObject? || !HasInteger(wire.device) || !IsText(wire.role) || !IsFlag(wire.reachable)
        || !IsFlag(wire.battery)
       || (wire.name.Some? && !IsText(wire.name)) || (wire.publishedAs.Some? && !IsText(wire.publishedAs))
    then None
    else Some(EndpointSpec(wire.device.value.r.Floor, wire.role.value.s,
                           if wire.name.Some? then wire.name.value.s else "",
                           FlagOr(wire.reachable, true), FlagOr(wire.battery, false),
                           if wire.publishedAs.Some? then wire.publishedAs.value.s else ""))
  }

  /** The node's `parseEndpointSpec`, check by check in its order. */
  function ParseEndpointSpec(wire: WireSpec): Result<EndpointSpec, ParseError> {
    if wire.NotObject? || !HasInteger(wire.device) || !IsText(wire.role) then Err(MalformedArgs)
    else if !Supported(wire.role.value.s) then Err(UnknownRole)
    else if !IsText(wire.name) || !IsFlag(wire.reachable) || !IsFlag(wire.battery) then Err(MalformedArgs)
    else if wire.publishedAs.Some? && !wire.publishedAs.value.JStr? then Err(MalformedArgs)
    else
      var device := wire.device.value.r.Floor;
      var publishedAs := if wire.publishedAs.Some? then wire.publishedAs.value.s else PublishedIdFor(device, 1);
      if ParsePublishedId(publishedAs).None? || !IsObject(wire.states) || !IsObject(wire.options)
      then Err(MalformedArgs)
      else Ok(EndpointSpec(device, wire.role.value.s, wire.name.value.s, FlagOr(wire.reachable, true),
                           FlagOr(wire.battery, false), publishedAs))
  }

  /** Absent, or of this kind. */
  predicate NoneOrBool(v: Option<Json>) { v.None? || v.value.JBool? }

  predicate NoneOrObject(v: Option<Json>) { v.None? || v.value.JStruct? }

  /** What a lawful entry is, key by key: a whole number for the device, texts for role, name and
      any identity, booleans and objects where they are given. */
  ghost predicate LawfulEntry(wire: WireSpec) {
    && wire.Wire? && wire.device.Some? && wire.device.value.JNum?
    && wire.device.value.r == wire.device.value.r.Floor as real
    && wire.role.Some? && wire.role.value.JStr? && Supported(wire.role.value.s)
    && wire.name.Some? && wire.name.value.JStr?
    && NoneOrBool(wire.reachable) && NoneOrBool(wire.battery) && NoneOrObject(wire.states) && NoneOrObject(wire.options)
    && (wire.publishedAs.None? || wire.publishedAs.value.JStr?)
    && ParsePublishedId(if wire.publishedAs.Some? then wire.publishedAs.value.s
                        else PublishedIdFor(wire.device.value.r.Floor, 1)).Some?
  }

  /** Exactly those are accepted, reachable unless they say otherwise, without a battery unless they
      say so, and under the identity they name or the first of their device; the one refusal with a
      code of its own is a role outside the vocabulary, and only where device and role have the
      right types. */
  lemma ParsedExactly(wire: WireSpec)
    ensures ParseEndpointSpec(wire).Ok? <==> LawfulEntry(wire)
    ensures LawfulEntry(wire) ==>
              ParseEndpointSpec(wire).value ==
              EndpointSpec(wire.device.value.r.Floor, wire.role.value.s, wire.name.value.s,
                           wire.reachable != Some(JBool(false)), wire.battery == Some(JBool(true)),
                           if wire.publishedAs.Some? then wire.publishedAs.value.s
                           else PublishedIdFor(wire.device.value.r.Floor, 1))
    ensures ParseEndpointSpec(wire) == Err(UnknownRole) <==>
            && wire.Wire? && wire.device.Some? && wire.device.value.JNum?
            && wire.device.value.r == wire.device.value.r.Floor as real
            && wire.role.Some? && wire.role.value.JStr? && !Supported(wire.role.value.s)
  {
  }

  /** The identity a plugin spec means: the one it names, or the default for its device. */
  function MeantIdentity(spec: EndpointSpec): string {
    if spec.publishedAs == "" then PublishedIdFor(spec.device, 1) else spec.publishedAs
  }

  /** A plugin spec reaches the node carrying exactly the identity it means, or is refused
      exactly when its role or that identity is unlawful; every other field survives. */
  lemma PluginSpecReachesNode(spec: EndpointSpec)
    ensures ParseEndpointSpec(ToWire(spec)) ==
            if !Supported(spec.role) then Err(UnknownRole)
            else if ParsePublishedId(MeantIdentity(spec)).None? then Err(MalformedArgs)
            else Ok(spec.(publishedAs := MeantIdentity(spec)))
  {
  }

  /** The plugin reads back its own frame; only the spelled-out default collapses to "". */
  lemma PluginWireRoundTrip(spec: EndpointSpec)
    ensures FromWire(ToWire(spec)).Some?
    ensures var back := FromWire(ToWire(spec)).value;
            back.(publishedAs := MeantIdentity(back)) == spec.(publishedAs := MeantIdentity(spec))
            && ToWire(back) == ToWire(spec)
  {
  }

  method ParseEach(wires: seq<WireSpec>) returns (r: Result<seq<EndpointSpec>, ParseError>)
    ensures r.Ok? ==> |r.value| == |wires|
    ensures r.Ok? ==> forall i :: 0 <= i < |wires| ==> ParseEndpointSpec(wires[i]) == Ok(r.value[i])
    ensures r.Err? ==> exists i :: 0 <= i < |wires| && ParseEndpointSpec(wires[i]) == Err(r.error) &&
                                   forall k :: 0 <= k < i ==> ParseEndpointSpec(wires[k]).Ok?
  {
    var specs: seq<EndpointSpec> := [];
    for i := 0 to |wires|
      invariant |specs| == i
      invariant forall k :: 0 <= k < i ==> ParseEndpointSpec(wires[k]) == Ok(specs[k])
    {
      var parsed := ParseEndpointSpec(wires[i]);
      if parsed.Err? { return Err(parsed.error); }
      specs := specs + [parsed.value];
    }
    r := Ok(specs);
  }

  /** The two uniqueness sweeps: no device and no identity twice. */
  method CheckUnique(specs: seq<EndpointSpec>) returns (unique: bool)
    ensures unique <==> DistinctDevices(specs) && DistinctIds(specs)
  {
    var seen: set<int>, seenIds: set<string> := {}, {};
    for i := 0 to |specs|
      invariant seen == set k | 0 <= k < i :: specs[k].device
      invariant seenIds == set k | 0 <= k < i :: specs[k].publishedAs
      invariant forall j, k :: 0 <= j < k < i ==> specs[j].device != specs[k].device
      invariant forall j, k :: 0 <= j < k < i ==> specs[j].publishedAs != specs[k].publishedAs
    {
      if specs[i].device in seen || specs[i].publishedAs in seenIds { return false; }
      seen, seenIds := seen + {specs[i].device}, seenIds + {specs[i].publishedAs};
    }
    unique := true;
  }

  /** The node's `parseEndpointSpecs`: every entry parsed first, then uniqueness. */
  method ParseEndpointSpecs(wires: seq<WireSpec>) returns (r: Result<seq<EndpointSpec>, ParseError>)
    ensures r.Ok? ==> |r.value| == |wires|
    ensures r.Ok? ==> forall i :: 0 <= i < |wires| ==> ParseEndpointSpec(wires[i]) == Ok(r.value[i])
    ensures r.Ok? ==> DistinctDevices(r.value) && DistinctIds(r.value)
    ensures r.Err? && (forall i :: 0 <= i < |wires| ==> ParseEndpointSpec(wires[i]).Ok?) ==>
              var specs := seq(|wires|, i requires 0 <= i < |wires| => ParseEndpointSpec(wires[i]).value);
              r.error == MalformedArgs && !(DistinctDevices(specs) && DistinctIds(specs))
  {
    r := ParseEach(wires);
    if r.Ok? {
      var unique := CheckUnique(r.value);
      if !unique {
        assert r.value == seq(|wires|, i requires 0 <= i < |wires| => ParseEndpointSpec(wires[i]).value);
        r := Err(MalformedArgs);
      }
    }
  }

  // --- planning ------------------------------------------------------------

  /** What the planner knows about one live identity. */
  datatype Composition = Composition(device: int, role: string, battery: bool)

  datatype Rekey = Rekey(spec: EndpointSpec, from: int)

  datatype Plan = Plan(
    create: seq<EndpointSpec>, update: seq<EndpointSpec>, recreate: seq<EndpointSpec>,
    rekey: seq<Rekey>, remove: seq<string>)

  datatype Bucket = ToCreate | ToUpdate | ToRecreate | ToRekey

  function BucketOf(live: map<string, Composition>, spec: EndpointSpec): Bucket {
    if spec.publishedAs !in live then ToCreate else
      var l := live[spec.publishedAs];
      if l.role == spec.role && !(spec.battery && !l.battery) then
        if l.device != spec.device then ToRekey else ToUpdate
      else ToRecreate
  }

  function InBucket(live: map<string, Composition>, specs: seq<EndpointSpec>, b: Bucket): (r: seq<EndpointSpec>)
    ensures forall s :: s in r <==> s in specs && BucketOf(live, s) == b
  {
    if specs == [] then [] else
      var init := InBucket(live, specs[..|specs| - 1], b);
      assert specs == specs[..|specs| - 1] + [specs[|specs| - 1]];
      if BucketOf(live, specs[|specs| - 1]) == b then init + [specs[|specs| - 1]] else init
  }

  lemma {:induction false} InBucketDistinct(live: map<string, Composition>, specs: seq<EndpointSpec>, b: Bucket)
    ensures DistinctDevices(specs) ==> DistinctDevices(InBucket(live, specs, b))
    ensures DistinctIds(specs) ==> DistinctIds(InBucket(live, specs, b))
  {
    if specs != [] {
      var init, last := specs[..|specs| - 1], specs[|specs| - 1];
      InBucketDistinct(live, init, b);
      var r := InBucket(live, init, b);
      forall i | 0 <= i < |r|
        ensures DistinctDevices(specs) ==> r[i].device != last.device
        ensures DistinctIds(specs) ==> r[i].publishedAs != last.publishedAs
      {
        assert r[i] in init;
      }
    }
  }

  function Rekeys(live: map<string, Composition>, specs: seq<EndpointSpec>): (r: seq<Rekey>)
    requires forall s :: s in specs ==> s.publishedAs in live
    ensures |r| == |specs|
    ensures forall i :: 0 <= i < |r| ==> r[i] == Rekey(specs[i], live[specs[i].publishedAs].device)
  {
    seq(|specs|, i requires 0 <= i < |specs| => Rekey(specs[i], live[specs[i].publishedAs].device))
  }

  function IdsOf(specs: seq<EndpointSpec>): set<string> { set s | s in specs :: s.publishedAs }

  function DevicesOf(specs: seq<EndpointSpec>): set<int> { set s | s in specs :: s.device }

  function Unwanted(order: seq<string>, wanted: set<string>): (r: seq<string>)
    ensures forall p :: p in r <==> p in order && p !in wanted
    ensures (forall i, j :: 0 <= i < j < |order| ==> order[i] != order[j])
        ==> (forall i, j :: 0 <= i < j < |r| ==> r[i] != r[j])
  {
    if order == [] then [] else
      var init := Unwanted(order[..|order| - 1], wanted);
      assert order == order[..|order| - 1] + [order[|order| - 1]];
      if order[|order| - 1] in wanted then init else init + [order[|order| - 1]]
  }

  /** `order` is how iterating the live map visits its identities, each exactly once. */
  ghost predicate Enumerates(order: seq<string>, live: map<string, Composition>) {
    && (forall i, j :: 0 <= i < j < |order| ==> order[i] != order[j])
    && (forall p :: p in order <==> p in live)
  }

  /** The plan as one expression: each desired spec in its bucket, each live identity
      nobody desires removed. */
  function PlanOf(live: map<string, Composition>, order: seq<string>, desired: seq<EndpointSpec>): Plan {
    Plan(InBucket(live, desired, ToCreate), InBucket(live, desired, ToUpdate), InBucket(live, desired, ToRecreate),
         Rekeys(live, InBucket(live, desired, ToRekey)), Unwanted(order, IdsOf(desired)))
  }

  /** The mass-removal guard stated by effect: something was live, the caller did not ask
      to replace everything, and neither an identity nor a device is kept. */
  ghost predicate MassRemoval(live: map<string, Composition>, desired: seq<EndpointSpec>, replaceAll: bool) {
    && live != map[]
    && !replaceAll
    && IdsOf(desired) !! live.Keys
    && (forall p, s :: p in live && s in desired ==> live[p].device != s.device)
  }

  lemma {:induction false} DistinctCount<T>(s: seq<T>)
    requires forall i, j :: 0 <= i < j < |s| ==> s[i] != s[j]
    ensures |set x | x in s| == |s|
  {
    if s != [] {
      var init := s[..|s| - 1];
      DistinctCount(init);
      assert (set x | x in s) == (set x | x in init) + {s[|s| - 1]};
    } else {
      assert (set x | x in s) == {};
    }
  }

  /** One more spec goes to the end of its own bucket and to no other. */
  lemma SweepStep(live: map<string, Composition>, desired: seq<EndpointSpec>, i: nat)
    requires i < |desired|
    ensures forall b :: InBucket(live, desired[..i + 1], b) ==
                        InBucket(live, desired[..i], b) + if BucketOf(live, desired[i]) == b then [desired[i]] else []
    ensures BucketOf(live, desired[i]) == ToRekey ==>
              Rekeys(live, InBucket(live, desired[..i], ToRekey) + [desired[i]]) ==
              Rekeys(live, InBucket(live, desired[..i], ToRekey))
                  + [Rekey(desired[i], live[desired[i].publishedAs].device)]
    ensures IdsOf(desired[..i + 1]) == IdsOf(desired[..i]) + {desired[i].publishedAs}
  {
    assert desired[..i + 1] == desired[..i] + [desired[i]] && desired[..i + 1][..i] == desired[..i];
  }

  /** The planner's first sweep: each desired spec into its bucket. */
  method SortDesired(live: map<string, Composition>, desired: seq<EndpointSpec>)
    returns (create: seq<EndpointSpec>, update: seq<EndpointSpec>, recreate: seq<EndpointSpec>, rekeys: seq<Rekey>,
             wanted: set<string>)
    ensures create == InBucket(live, desired, ToCreate) && update == InBucket(live, desired, ToUpdate)
    ensures recreate == InBucket(live, desired, ToRecreate)
    ensures rekeys == Rekeys(live, InBucket(live, desired, ToRekey))
    ensures wanted == IdsOf(desired)
  {
    create, update, recreate, rekeys, wanted := [], [], [], [], {};
    for i := 0 to |desired|
      invariant create == InBucket(live, desired[..i], ToCreate)
      invariant update == InBucket(live, desired[..i], ToUpdate)
      invariant recreate == InBucket(live, desired[..i], ToRecreate)
      invariant rekeys == Rekeys(live, InBucket(live, desired[..i], ToRekey))
      invariant wanted == IdsOf(desired[..i])
    {
      var spec := desired[i];
      SweepStep(live, desired, i);
      wanted := wanted + {spec.publishedAs};
      if spec.publishedAs !in live {
        create := create + [spec];
      } else {
        var l := live[spec.publishedAs];
        if l.role == spec.role && !(spec.battery && !l.battery) {
          if l.device != spec.device {
            rekeys := rekeys + [Rekey(spec, l.device)];
          } else {
            update := update + [spec];
          }
        } else {
          recreate := recreate + [spec];
        }
      }
    }
    assert desired[..|desired|] == desired;
  }

  /** The guard's own arithmetic: live, minus removed, plus removed-but-still-exported. */
  method Survivors(live: map<string, Composition>, remove: seq<string>, create: seq<EndpointSpec>)
    returns (survivors: int)
    requires |remove| <= |live| && forall p :: p in remove ==> p in live
    ensures survivors == 0 <==> |remove| == |live| && forall p :: p in remove ==> live[p].device !in DevicesOf(create)
  {
    var created := set s | s in create :: s.device;
    var stillExported := 0;
    for i := 0 to |remove|
      invariant 0 <= stillExported <= i
      invariant stillExported == 0 <==> forall k :: 0 <= k < i ==> live[remove[k]].device !in created
    {
      if live[remove[i]].device in created { stillExported := stillExported + 1; }
    }
    survivors := |live| - |remove| + stillExported;
  }

  /** The planner: a sweep over the desired specs, one over the live identities, then the
      guard by counting survivors. What it returns is the plan above, and what the count
      refuses is exactly a mass removal. */
  method PlanReconcile(live: map<string, Composition>, order: seq<string>, desired: seq<EndpointSpec>, replaceAll: bool)
    returns (plan: Option<Plan>)
    requires Enumerates(order, live)
    ensures plan == if MassRemoval(live, desired, replaceAll) then None else Some(PlanOf(live, order, desired))
  {
    var create, update, recreate, rekeys, wanted := SortDesired(live, desired);
    var remove: seq<string> := [];
    for i := 0 to |order|
      invariant remove == Unwanted(order[..i], wanted)
    {
      assert order[..i + 1] == order[..i] + [order[i]] && order[..i + 1][..i] == order[..i];
      if order[i] !in wanted { remove := remove + [order[i]]; }
    }
    assert order[..|order|] == order;
    GuardCounts(live, order, desired, remove);
    var survivors := Survivors(live, remove, create);
    GuardMeaning(live, order, desired, replaceAll);
    if |live| > 0 && survivors == 0 && !replaceAll {
      return None;
    }
    plan := Some(Plan(create, update, recreate, rekeys, remove));
  }

  /** Every live identity is removed iff none is desired. */
  lemma GuardCounts(live: map<string, Composition>, order: seq<string>, desired: seq<EndpointSpec>, remove: seq<string>)
    requires Enumerates(order, live) && remove == Unwanted(order, IdsOf(desired))
    ensures |remove| <= |live|
    ensures |remove| == |live| <==> IdsOf(desired) !! live.Keys
  {
    GoneCount(live, order, IdsOf(desired));
    SubsetCount(live.Keys - IdsOf(desired), live.Keys);
    assert |live| == |live.Keys|;
  }

  lemma SubsetCount<T>(a: set<T>, b: set<T>)
    requires a <= b
    ensures |a| <= |b| && (|a| == |b| <==> a == b)
  {
    assert b == a + (b - a);
    assert |b| == |a| + |b - a|;
  }

  lemma GuardMeaning(live: map<string, Composition>, order: seq<string>, desired: seq<EndpointSpec>, replaceAll: bool)
    requires Enumerates(order, live)
    ensures MassRemoval(live, desired, replaceAll) <==>
            && |live| > 0 && !replaceAll && IdsOf(desired) !! live.Keys
            && forall p :: p in Unwanted(order, IdsOf(desired)) ==>
                 live[p].device !in DevicesOf(InBucket(live, desired, ToCreate))
  {
    assert |live| > 0 <==> live != map[];
    if IdsOf(desired) !! live.Keys {
      forall s | s in desired ensures BucketOf(live, s) == ToCreate {
        assert s.publishedAs in IdsOf(desired);
      }
    }
  }

  /** Every desired spec lands in exactly one bucket and every live identity is either
      desired or removed: nothing is forgotten and nothing is done twice. */
  lemma PlanPartitions(live: map<string, Composition>, order: seq<string>, desired: seq<EndpointSpec>)
    requires Enumerates(order, live) && DistinctIds(desired)
    ensures var plan := PlanOf(live, order, desired);
            |desired| == |plan.create| + |plan.update| + |plan.recreate| + |plan.rekey|
    ensures var plan := PlanOf(live, order, desired);
            |live| == |plan.update| + |plan.recreate| + |plan.rekey| + |plan.remove|
  {
    BucketsCount(live, desired);
    KeptCount(live, order, desired);
  }

  /** The identities that stay live and the ones that go, counted by identity. */
  lemma KeptCount(live: map<string, Composition>, order: seq<string>, desired: seq<EndpointSpec>)
    requires Enumerates(order, live) && DistinctIds(desired)
    ensures |live.Keys| == |InBucket(live, desired, ToUpdate)| + |InBucket(live, desired, ToRecreate)|
                      + |InBucket(live, desired, ToRekey)| + |Unwanted(order, IdsOf(desired))|
  {
    GoneCount(live, order, IdsOf(desired));
    BucketsDisjoint(live, desired, ToUpdate, ToRecreate);
    BucketsDisjoint(live, desired, ToUpdate, ToRekey);
    BucketsDisjoint(live, desired, ToRecreate, ToRekey);
    KeptCover(live, desired);
    FourParts(BucketIds(live, desired, ToUpdate), BucketIds(live, desired, ToRecreate),
              BucketIds(live, desired, ToRekey),
              live.Keys, IdsOf(desired));
  }

  lemma GoneCount(live: map<string, Composition>, order: seq<string>, wanted: set<string>)
    requires Enumerates(order, live)
    ensures |Unwanted(order, wanted)| == |live.Keys - wanted|
  {
    var remove := Unwanted(order, wanted);
    DistinctCount(remove);
    assert (set p | p in remove) == live.Keys - wanted;
  }

  lemma KeptCover(live: map<string, Composition>, desired: seq<EndpointSpec>)
    requires DistinctIds(desired)
    ensures live.Keys * IdsOf(desired)
         == BucketIds(live, desired, ToUpdate) + BucketIds(live, desired, ToRecreate)
            + BucketIds(live, desired, ToRekey)
  {
    forall p | p in live && p in IdsOf(desired)
      ensures p in BucketIds(live, desired, ToUpdate) + BucketIds(live, desired, ToRecreate)
              + BucketIds(live, desired, ToRekey)
    {
      var s :| s in desired && s.publishedAs == p;
      var b := BucketOf(live, s);
      assert b != ToCreate && p in BucketIds(live, desired, b);
    }
  }

  lemma FourParts(a: set<string>, b: set<string>, c: set<string>, live: set<string>, wanted: set<string>)
    requires a !! b && a !! c && b !! c && live * wanted == a + b + c
    ensures |live| == |a| + |b| + |c| + |live - wanted|
  {
    assert |a + b| == |a| + |b|;
    assert |a + b + c| == |a + b| + |c|;
    assert live == (a + b + c) + (live - wanted);
  }

  /** The identities of one bucket: as many as its specs, and each live unless to be created. */
  function BucketIds(live: map<string, Composition>, desired: seq<EndpointSpec>, b: Bucket): (r: set<string>)
    requires DistinctIds(desired)
    ensures |r| == |InBucket(live, desired, b)|
    ensures r <= IdsOf(desired)
    ensures b != ToCreate ==> r <= live.Keys
    ensures forall s :: s in desired && BucketOf(live, s) == b ==> s.publishedAs in r
  {
    InBucketDistinct(live, desired, b);
    IdsCount(InBucket(live, desired, b));
    IdsOf(InBucket(live, desired, b))
  }

  lemma BucketsDisjoint(live: map<string, Composition>, desired: seq<EndpointSpec>, b1: Bucket, b2: Bucket)
    requires DistinctIds(desired) && b1 != b2
    ensures BucketIds(live, desired, b1) !! BucketIds(live, desired, b2)
  {
    forall s, t | s in InBucket(live, desired, b1) && t in InBucket(live, desired, b2)
      ensures s.publishedAs != t.publishedAs
    {
      if s.publishedAs == t.publishedAs { DistinctIdsInjective(desired, s, t); }
    }
  }

  lemma DistinctIdsInjective(specs: seq<EndpointSpec>, a: EndpointSpec, b: EndpointSpec)
    requires DistinctIds(specs) && a in specs && b in specs && a.publishedAs == b.publishedAs
    ensures a == b
  {
  }

  lemma {:induction false} IdsCount(specs: seq<EndpointSpec>)
    requires DistinctIds(specs)
    ensures |IdsOf(specs)| == |specs|
  {
    if specs == [] {
      assert IdsOf(specs) == {};
    } else {
      var init, last := specs[..|specs| - 1], specs[|specs| - 1];
      IdsCount(init);
      assert IdsOf(specs) == IdsOf(init) + {last.publishedAs};
    }
  }

  lemma {:induction false} BucketsCount(live: map<string, Composition>, specs: seq<EndpointSpec>)
    ensures |specs| == |InBucket(live, specs, ToCreate)| + |InBucket(live, specs, ToUpdate)|
                       + |InBucket(live, specs, ToRecreate)| + |InBucket(live, specs, ToRekey)|
  {
    if specs != [] { BucketsCount(live, specs[..|specs| - 1]); }
  }
}
