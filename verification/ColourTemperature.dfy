/** Per-device colour-temperature bounds, from what the plugin stores (`ct_bounds.py`) to the
    attributes the node writes one key at a time (`endpoints.ts`). */
module ColourTemperature {
  import opened Protocol
  import opened Units

  // --- what the plugin stores and sends ------------------------------------

  datatype StoredKey = SeedMin | SeedMax | LearnedMin | LearnedMax

  /** A stored bound is a plain integer; anything else is not one. */
  datatype StoredValue = Int(n: int) | NotInt

  type Stored = map<StoredKey, StoredValue>

  datatype Bounds = Bounds(min: int, max: int)

  const GENERIC: Bounds := Bounds(MIREDS_MIN, MIREDS_MAX)

  /** Learned, else seed, else generic. */
  function Side(s: Stored, learned: StoredKey, seed: StoredKey, generic: int): int {
    if learned in s && s[learned].Int? then s[learned].n
    else if seed in s && s[seed].Int? then s[seed].n
    else generic
  }

  function EffectiveBounds(s: Stored): Bounds {
    Bounds(Side(s, LearnedMin, SeedMin, MIREDS_MIN), Side(s, LearnedMax, SeedMax, MIREDS_MAX))
  }

  /** Side by side: a learned bound wins whatever else is stored, then the seed, then the generic
      bound, and nothing stored for one side moves the other. */
  lemma BoundsByPrecedence(s: Stored, n: int, v: StoredValue)
    ensures LearnedMin in s && s[LearnedMin] == Int(n) ==> EffectiveBounds(s).min == n
    ensures LearnedMax in s && s[LearnedMax] == Int(n) ==> EffectiveBounds(s).max == n
    ensures (LearnedMin !in s || s[LearnedMin].NotInt?) && SeedMin in s && s[SeedMin] == Int(n) ==>
              EffectiveBounds(s).min == n
    ensures (LearnedMax !in s || s[LearnedMax].NotInt?) && SeedMax in s && s[SeedMax] == Int(n) ==>
              EffectiveBounds(s).max == n
    ensures (LearnedMin !in s || s[LearnedMin].NotInt?) && (SeedMin !in s || s[SeedMin].NotInt?) ==>
              EffectiveBounds(s).min == 153
    ensures (LearnedMax !in s || s[LearnedMax].NotInt?) && (SeedMax !in s || s[SeedMax].NotInt?) ==>
              EffectiveBounds(s).max == 500
    ensures EffectiveBounds(s[LearnedMax := v]).min == EffectiveBounds(s).min
    ensures EffectiveBounds(s[SeedMax := v]).min == EffectiveBounds(s).min
    ensures EffectiveBounds(s[LearnedMin := v]).max == EffectiveBounds(s).max
    ensures EffectiveBounds(s[SeedMin := v]).max == EffectiveBounds(s).max
  {
  }

  predicate HasStored(s: Stored) { s != map[] }

  /** One of the two wire options, as the node finds it. */
  datatype OptionValue = Missing | Number(n: real) | NotNumber

  datatype Wire = Wire(min: OptionValue, max: OptionValue)

  /** `wire_options`: the effective pair goes out whenever anything at all is stored. */
  function WireOptions(s: Stored): Wire {
    if HasStored(s) then Wire(Number(EffectiveBounds(s).min as real), Number(EffectiveBounds(s).max as real))
    else Wire(Missing, Missing)
  }

  /** Presence decides, not difference: with anything stored both bounds are sent, with nothing
      neither is. */
  lemma SentExactly(s: Stored)
    ensures s == map[] ==> WireOptions(s) == Wire(Missing, Missing)
    ensures s != map[] ==>
              WireOptions(s) == Wire(Number(EffectiveBounds(s).min as real), Number(EffectiveBounds(s).max as real))
  {
  }

  // --- what the node makes of it -------------------------------------------

  predicate Lawful(b: Bounds) { MIREDS_MIN <= b.min < b.max <= MIREDS_MAX }

  predicate IsInt(v: OptionValue) { v.Number? && v.n == v.n.Floor as real }

  /** `extractCtBounds`. */
  function ExtractBounds(w: Wire): Option<Bounds> {
    if IsInt(w.min) && IsInt(w.max) && Lawful(Bounds(w.min.n.Floor, w.max.n.Floor))
    then Some(Bounds(w.min.n.Floor, w.max.n.Floor)) else None
  }

  /** A pair is usable exactly if both options are whole numbers, in order and in 153 to 500. */
  lemma UsableExactly(w: Wire, b: Bounds)
    ensures ExtractBounds(w) == Some(b) <==>
            w == Wire(Number(b.min as real), Number(b.max as real)) && 153 <= b.min < b.max <= 500
  {
  }

  /** What is stored reaches the node as its effective pair, exactly when there is something
      stored and that pair is lawful. */
  lemma StoredReachesNode(s: Stored)
    ensures ExtractBounds(WireOptions(s)) ==
            if HasStored(s) && Lawful(EffectiveBounds(s)) then Some(EffectiveBounds(s)) else None
  {
  }

  // --- the attributes ------------------------------------------------------

  /** The four ColorControl attributes the bounds live in. */
  datatype Color = Color(physicalMin: int, physicalMax: int, temperature: int, coupleMin: int)

  datatype Attribute = PhysicalMin | PhysicalMax | Temperature | CoupleMin

  datatype Write = Write(attribute: Attribute, value: int)

  /** The couple minimum lies between the physical minimum and the colour temperature, as
      they stand when it is written (Color Control, section 3.2 of the Matter Application
      Cluster Specification). */
  predicate Allowed(c: Color, w: Write) { w.attribute == CoupleMin ==> c.physicalMin <= w.value <= c.temperature }

  function Apply(c: Color, w: Write): Color {
    match w.attribute
    case PhysicalMin => c.(physicalMin := w.value)
    case PhysicalMax => c.(physicalMax := w.value)
    case Temperature => c.(temperature := w.value)
    case CoupleMin => c.(coupleMin := w.value)
  }

  /** `endpoint.set`: the keys one at a time, each checked against what the others hold by
      then; `None` when one is refused, which undoes them all. */
  function SetKeys(c: Color, writes: seq<Write>): Option<Color>
    decreases |writes|
  {
    if writes == [] then Some(c)
    else if Allowed(c, writes[0]) then SetKeys(Apply(c, writes[0]), writes[1..])
    else None
  }

  /** The patch of `applyCtBoundsUpdate`, in its own key order. */
  function BoundsPatch(c: Color, b: Bounds): seq<Write> {
    [Write(PhysicalMin, b.min), Write(PhysicalMax, b.max), Write(Temperature, Clamp(c.temperature, b.min, b.max)),
     Write(CoupleMin, b.min)]
  }

  /** The same patch with its last two keys the other way round. */
  function SwappedPatch(c: Color, b: Bounds): seq<Write> {
    [Write(PhysicalMin, b.min), Write(PhysicalMax, b.max), Write(CoupleMin, b.min),
     Write(Temperature, Clamp(c.temperature, b.min, b.max))]
  }

  function Settled(c: Color, b: Bounds): Color { Color(b.min, b.max, Clamp(c.temperature, b.min, b.max), b.min) }

  lemma OneKey(c: Color, w: Write, rest: seq<Write>)
    ensures SetKeys(c, [w] + rest) == if Allowed(c, w) then SetKeys(Apply(c, w), rest) else None
  {
    assert ([w] + rest)[1..] == rest;
  }

  lemma FourKeys(c: Color, w0: Write, w1: Write, w2: Write, w3: Write)
    ensures var c1 := Apply(c, w0);
            var c2 := Apply(c1, w1);
            var c3 := Apply(c2, w2);
            SetKeys(c, [w0, w1, w2, w3]) ==
            if Allowed(c, w0) && Allowed(c1, w1) && Allowed(c2, w2) && Allowed(c3, w3) then Some(Apply(c3, w3))
            else None
  {
    var c1 := Apply(c, w0);
    var c2 := Apply(c1, w1);
    OneKey(c, w0, [w1, w2, w3]);
    OneKey(c1, w1, [w2, w3]);
    OneKey(c2, w2, [w3]);
    OneKey(Apply(c2, w2), w3, []);
    assert [w0, w1, w2, w3] == [w0] + [w1, w2, w3] && [w1, w2, w3] == [w1] + [w2, w3];
    assert [w2, w3] == [w2] + [w3] && [w3] == [w3] + [];
  }

  /** The order the source writes is never refused, from any state; with the last two keys
      swapped it is refused exactly when the new minimum is above the live temperature. */
  lemma WriteOrderMatters(c: Color, b: Bounds)
    requires Lawful(b)
    ensures SetKeys(c, BoundsPatch(c, b)) == Some(Settled(c, b))
    ensures SetKeys(c, SwappedPatch(c, b)).None? <==> b.min > c.temperature
  {
    FourKeys(c, Write(PhysicalMin, b.min), Write(PhysicalMax, b.max),
             Write(Temperature, Clamp(c.temperature, b.min, b.max)), Write(CoupleMin, b.min));
    FourKeys(c, Write(PhysicalMin, b.min), Write(PhysicalMax, b.max), Write(CoupleMin, b.min),
             Write(Temperature, Clamp(c.temperature, b.min, b.max)));
  }

  /** `createEndpoint`: the whole state is validated as one, so the order is free here. */
  function Created(w: Wire, seed: Option<real>): Color {
    var temperature := if seed.Some? then ClampMireds(seed.value) else MIREDS_MIN;
    match ExtractBounds(w)
    case None => Color(MIREDS_MIN, MIREDS_MAX, temperature, MIREDS_MIN)
    case Some(b) => Color(b.min, b.max, Clamp(temperature, b.min, b.max), b.min)
  }

  predicate SameBounds(c: Color, b: Bounds) { c.physicalMin == b.min && c.physicalMax == b.max }

  /** `applyCtBoundsUpdate`; `lands` is matter.js's answer to the write. */
  function Updated(c: Color, w: Wire, lands: bool): Color {
    match ExtractBounds(w)
    case None => c
    case Some(b) =>
      if SameBounds(c, b) || !lands then c
      else match SetKeys(c, BoundsPatch(c, b)) case None => c case Some(d) => d
  }

  /** The update writes, and the accessory's own configuration version is then bumped. */
  predicate Rewrites(c: Color, w: Wire, lands: bool) {
    ExtractBounds(w).Some? && !SameBounds(c, ExtractBounds(w).value) && lands
  }

  /** A `colorTempMireds` push: clamped to the generic band, then to the live bounds. */
  function Pushed(c: Color, mireds: real, lands: bool): Color {
    if lands then c.(temperature := Clamp(ClampMireds(mireds), c.physicalMin, c.physicalMax)) else c
  }

  /** `t` is what a wanted temperature comes to between two bounds: to the nearest whole mired, or
      the end it lies beyond. */
  predicate Nearest(wanted: real, lo: int, hi: int, t: int) {
    && lo <= t <= hi
    && (wanted < lo as real ==> t == lo) && (wanted > hi as real ==> t == hi)
    && (lo as real <= wanted <= hi as real ==> wanted - 0.5 <= t as real <= wanted + 0.5)
  }

  /** A delivered push leaves the temperature it asked for, as near as the live bounds allow, and
      nothing else; an undelivered one leaves everything. */
  lemma PushExactly(c: Color, mireds: real, lands: bool)
    requires MIREDS_MIN <= c.physicalMin <= c.physicalMax <= MIREDS_MAX
    ensures Pushed(c, mireds, lands) == c.(temperature := Pushed(c, mireds, lands).temperature)
    ensures if lands then Nearest(mireds, c.physicalMin, c.physicalMax, Pushed(c, mireds, lands).temperature)
            else Pushed(c, mireds, lands) == c
  {
  }

  /** A bounds update writes exactly if it brings a lawful pair that is not the live one and is
      delivered; then the bounds are that pair, the couple minimum its lower end, and the
      temperature where it was, as near as the new bounds allow. The version is bumped exactly then. */
  lemma UpdateExactly(c: Color, w: Wire, lands: bool)
    ensures var d, b := Updated(c, w, lands), ExtractBounds(w);
            && (Rewrites(c, w, lands) <==> b.Some? && lands && !SameBounds(c, b.value))
            && (if Rewrites(c, w, lands)
                then SameBounds(d, b.value) && d.coupleMin == b.value.min
                     && Nearest(c.temperature as real, b.value.min, b.value.max, d.temperature)
                else d == c)
  {
    var b := ExtractBounds(w);
    if b.Some? { WriteOrderMatters(c, b.value); }
  }

  /** A new light starts in its bounds, the generic ones unless the plugin's are lawful, as near to
      its seed as they allow, or at the cool end without one. */
  lemma CreatedExactly(w: Wire, seed: Option<real>)
    ensures var c, b := Created(w, seed), ExtractBounds(w);
            && SameBounds(c, if b.Some? then b.value else Bounds(153, 500)) && c.coupleMin == c.physicalMin
            && Nearest(if seed.Some? then seed.value else 153.0, c.physicalMin, c.physicalMax, c.temperature)
  {
  }

  // --- in place ------------------------------------------------------------

  class ColorEndpoint {
    var physicalMin: int
    var physicalMax: int
    var temperature: int
    var coupleMin: int
    var version: nat        // the accessory's own ConfigurationVersion

    ghost function Now(): Color
      reads this
    {
      Color(physicalMin, physicalMax, temperature, coupleMin)
    }

    constructor (w: Wire, seed: Option<real>)
      ensures Now() == Created(w, seed) && version == 0
    {
      version := 0;
      var t := if seed.Some? then ClampMireds(seed.value) else MIREDS_MIN;
      var b := ExtractBounds(w);
      if b.Some? {
        physicalMin, physicalMax, coupleMin := b.value.min, b.value.max, b.value.min;
        temperature := Clamp(t, b.value.min, b.value.max);
      } else {
        physicalMin, physicalMax, coupleMin, temperature := MIREDS_MIN, MIREDS_MAX, MIREDS_MIN, t;
      }
    }

    /** `endpoint.set`, key by key; a refused key puts everything back. */
    method Set(writes: seq<Write>) returns (ok: bool)
      modifies this`physicalMin, this`physicalMax, this`temperature, this`coupleMin
      ensures ok <==> SetKeys(old(Now()), writes).Some?
      ensures Now() == if ok then SetKeys(old(Now()), writes).value else old(Now())
    {
      var min, max, temp, couple := physicalMin, physicalMax, temperature, coupleMin;
      for i := 0 to |writes|
        invariant SetKeys(old(Now()), writes) == SetKeys(Now(), writes[i..])
      {
        var v := writes[i].value;
        match writes[i].attribute {
          case PhysicalMin => physicalMin := v;
          case PhysicalMax => physicalMax := v;
          case Temperature => temperature := v;
          case CoupleMin =>
            if !(physicalMin <= v <= temperature) {
              physicalMin, physicalMax, temperature, coupleMin := min, max, temp, couple;
              return false;
            }
            coupleMin := v;
        }
      }
      ok := true;
    }

    /** `lands` is matter.js's answer to the write, `bumps` to the version bump after it. */
    method ApplyBoundsUpdate(w: Wire, lands: bool, bumps: bool)
      modifies this
      ensures Now() == Updated(old(Now()), w, lands)
      ensures version == old(version) + if Rewrites(old(Now()), w, lands) && bumps then 1 else 0
    {
      var desired := ExtractBounds(w);
      if desired.None? { return; }
      var b := desired.value;
      if (physicalMin == b.min && physicalMax == b.max) || !lands { return; }
      WriteOrderMatters(Now(), b);
      var ok := Set([Write(PhysicalMin, b.min), Write(PhysicalMax, b.max),
                     Write(Temperature, Clamp(temperature, b.min, b.max)), Write(CoupleMin, b.min)]);
      if ok && bumps { version := version + 1; }
    }

    method ApplyPush(mireds: real, lands: bool)
      modifies this`temperature
      ensures Now() == Pushed(old(Now()), mireds, lands)
    {
      var clamped := ClampMireds(mireds);
      if lands { temperature := Clamp(clamped, physicalMin, physicalMax); }
    }
  }

  // --- runs ----------------------------------------------------------------

  /** What reaches an endpoint: a reconcile carrying the stored options of that moment, or a
      pushed colour temperature. */
  datatype Op = Reconcile(stored: Stored, lands: bool) | Push(mireds: real, lands: bool)

  function Run(stored: Stored, seed: Option<real>, ops: seq<Op>): Color {
    if ops == [] then Created(WireOptions(stored), seed)
    else
      var c := Run(stored, seed, ops[..|ops| - 1]);
      match ops[|ops| - 1]
      case Reconcile(s, lands) => Updated(c, WireOptions(s), lands)
      case Push(mireds, lands) => Pushed(c, mireds, lands)
  }

  /** 153 <= min < max <= 500, the temperature within them, the couple minimum at the bottom. */
  predicate InBounds(c: Color) {
    Lawful(Bounds(c.physicalMin, c.physicalMax)) && c.physicalMin <= c.temperature <= c.physicalMax
    && c.coupleMin == c.physicalMin
  }

  /** The last usable pair the plugin delivered, or the generic domain if it never did. */
  function LastUsable(stored: Stored, ops: seq<Op>): Bounds {
    if ops == [] then (if HasStored(stored) && Lawful(EffectiveBounds(stored)) then EffectiveBounds(stored)
                       else GENERIC)
    else
      match ops[|ops| - 1]
      case Reconcile(s, lands) =>
        if lands && HasStored(s) && Lawful(EffectiveBounds(s)) then EffectiveBounds(s)
        else LastUsable(stored, ops[..|ops| - 1])
      case Push(_, _) => LastUsable(stored, ops[..|ops| - 1])
  }

  /** Over every run of reconciles and pushes, delivered or not: the attributes stay in bounds,
      and the live bounds are the last usable pair the plugin's stored options came to. */
  lemma {:induction false} BoundsFollowThePlugin(stored: Stored, seed: Option<real>, ops: seq<Op>)
    ensures InBounds(Run(stored, seed, ops))
    ensures SameBounds(Run(stored, seed, ops), LastUsable(stored, ops))
    decreases |ops|
  {
    StoredReachesNode(stored);
    if ops != [] {
      var init := ops[..|ops| - 1];
      BoundsFollowThePlugin(stored, seed, init);
      var c := Run(stored, seed, init);
      match ops[|ops| - 1] {
        case Reconcile(s, lands) =>
          StoredReachesNode(s);
          if HasStored(s) && Lawful(EffectiveBounds(s)) { WriteOrderMatters(c, EffectiveBounds(s)); }
        case Push(mireds, lands) =>
      }
    }
  }

  /** The rule `wire_options` replaced: send the pair only when it differs from the generic one. */
  function TrapdoorOptions(s: Stored): Wire {
    if EffectiveBounds(s) == GENERIC then Wire(Missing, Missing) else WireOptions(s)
  }

  /** Why presence and not difference decides: after a delivered reconcile of lawful stored
      bounds the live bounds are theirs, a re-widening to 153-500 included, whereas the
      replaced rule loses exactly the re-widening of an endpoint that was narrower. */
  lemma ReWideningReachesTheNode(c: Color, s: Stored)
    requires InBounds(c) && HasStored(s) && Lawful(EffectiveBounds(s))
    ensures SameBounds(Updated(c, WireOptions(s), true), EffectiveBounds(s))
    ensures SameBounds(Updated(c, TrapdoorOptions(s), true), EffectiveBounds(s))
       <==> !(EffectiveBounds(s) == GENERIC && !SameBounds(c, GENERIC))
  {
    StoredReachesNode(s);
    WriteOrderMatters(c, EffectiveBounds(s));
  }
}
