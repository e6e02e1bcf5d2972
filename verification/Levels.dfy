/** State pushes to a dimmer (`applyStates` in `endpoints.ts`) and the level they retain. */
module Levels {
  import opened Protocol
  import opened Units

  /** One `set_state`: each key the dimmer speaks, if sent, and whether it came with strangers.
      `onOffLands` and `restLands` are matter.js's two answers. */
  datatype Push = Push(onOff: Option<Json>, level: Option<Json>, battery: Option<Json>, strangers: bool,
                       onOffLands: bool, restLands: bool)

  /** An endpoint of role `dimmableLight`; `battery` is `None` when it was made without one. */
  datatype Dimmer = Dimmer(onOff: bool, currentLevel: int, battery: Option<int>)

  datatype Applied = Accepted | Refused | Failed

  datatype Outcome = Outcome(dimmer: Dimmer, applied: Applied)

  /** What the role's converter makes of the keys, each on its own. */
  datatype Patch = Patch(onOff: Option<bool>, currentLevel: Option<int>)

  function StatePatch(onOff: Option<Json>, level: Option<Json>): Patch {
    Patch(if onOff.Some? && onOff.value.JBool? then Some(onOff.value.b) else None,
          if level.Some? && level.value.JNum? then Some(PercentToCurrentLevel(level.value.r)) else None)
  }

  predicate Consumable(battery: Option<Json>) { battery.Some? && battery.value.JNum? }

  /** Anything left for the role once a consumable battery reading is taken out. */
  predicate RestEmpty(p: Push) {
    p.onOff.None? && p.level.None? && !p.strangers && (p.battery.None? || Consumable(p.battery))
  }

  /** `retainLevelWhileOff`: a pushed level of exactly 0 never writes `currentLevel`. */
  function Retained(patch: Patch, level: Option<Json>): Patch {
    if level == Some(JNum(0.0)) then patch.(currentLevel := None) else patch
  }

  /** `applyStates`: the refusals, then the on/off act and the residual write, each of which
      may fail without stopping the other. */
  function ApplyStates(d: Dimmer, p: Push): Outcome {
    var patch := StatePatch(p.onOff, p.level);
    if Consumable(p.battery) && d.battery.None? then Outcome(d, Refused)
    else if !Consumable(p.battery) && !RestEmpty(p) && patch == Patch(None, None) then Outcome(d, Refused)
    else
      var kept := Retained(patch, p.level);
      var switched := if kept.onOff.Some? && p.onOffLands then d.(onOff := kept.onOff.value) else d;
      var onOffOk := kept.onOff.None? || p.onOffLands;
      if kept.currentLevel.None? && !Consumable(p.battery) then Outcome(switched, if onOffOk then Accepted else Failed)
      else
        var written :=
          if !p.restLands then switched
          else switched.(currentLevel := if kept.currentLevel.Some? then kept.currentLevel.value else d.currentLevel,
                         battery := if Consumable(p.battery) then Some(PercentToBatteryRemaining(p.battery.value.r))
                                    else d.battery);
        Outcome(written, if onOffOk && p.restLands then Accepted else Failed)
  }

  function RunPushes(d: Dimmer, pushes: seq<Push>): Dimmer {
    if pushes == [] then d else ApplyStates(RunPushes(d, pushes[..|pushes| - 1]), pushes[|pushes| - 1]).dimmer
  }

  // --- one push ------------------------------------------------------------

  predicate SaysSwitch(p: Push) { p.onOff.Some? && p.onOff.value.JBool? }

  predicate SaysLevel(p: Push) { p.level.Some? && p.level.value.JNum? }

  predicate SaysBattery(p: Push) { p.battery.Some? && p.battery.value.JNum? }

  /** It asks for a battery that is not there, or it says something of which nothing can be used. */
  predicate Refuses(d: Dimmer, p: Push) {
    || (SaysBattery(p) && d.battery.None?)
    || (!SaysSwitch(p) && !SaysLevel(p) && !SaysBattery(p)
        && (p.onOff.Some? || p.level.Some? || p.battery.Some? || p.strangers))
  }

  /** A boolean delivered to this dimmer. */
  predicate SetsSwitch(d: Dimmer, p: Push) { SaysSwitch(p) && p.onOffLands && !Refuses(d, p) }

  /** A level that is a number other than 0, delivered to this dimmer. */
  predicate SetsLevel(d: Dimmer, p: Push) {
    SaysLevel(p) && p.level.value.r != 0.0 && p.restLands && !Refuses(d, p)
  }

  /** A battery reading delivered to this dimmer. */
  predicate SetsBattery(d: Dimmer, p: Push) { SaysBattery(p) && p.restLands && !Refuses(d, p) }

  /** What a push does to each attribute: the switch, the level and the battery are set by what it
      says of them and by nothing else. */
  lemma PushExactly(d: Dimmer, p: Push)
    ensures var r := ApplyStates(d, p).dimmer;
            && r.onOff == (if SetsSwitch(d, p) then p.onOff.value.b else d.onOff)
            && r.currentLevel == (if SetsLevel(d, p) then PercentToCurrentLevel(p.level.value.r) else d.currentLevel)
            && r.battery ==
               (if SetsBattery(d, p) then Some(PercentToBatteryRemaining(p.battery.value.r)) else d.battery)
            && (r.battery.Some? <==> d.battery.Some?)
  {
  }

  /** A push is refused exactly when it asks for a battery that is not there, or says something
      of which no key can be used; nothing is written then. A level of 0 can be used. Otherwise it
      is accepted exactly if everything it says was delivered. */
  lemma AppliedExactly(d: Dimmer, p: Push)
    ensures ApplyStates(d, p).applied ==
            if Refuses(d, p) then Refused
            else if (SaysSwitch(p) ==> p.onOffLands)
                    && ((SaysLevel(p) && p.level.value.r != 0.0) || SaysBattery(p) ==> p.restLands) then Accepted
            else Failed
    ensures Refuses(d, p) ==> ApplyStates(d, p).dimmer == d
    ensures p.level == Some(JNum(0.0)) && !SaysBattery(p) ==> ApplyStates(d, p).applied != Refused
  {
  }

  // --- whole runs ----------------------------------------------------------

  /** Only whether there is a battery decides what a dimmer refuses, and that never changes. */
  lemma {:induction false} BatteryIsForever(d: Dimmer, pushes: seq<Push>)
    ensures RunPushes(d, pushes).battery.Some? <==> d.battery.Some?
    ensures forall p :: Refuses(RunPushes(d, pushes), p) <==> Refuses(d, p)
  {
    if pushes != [] {
      BatteryIsForever(d, pushes[..|pushes| - 1]);
      PushExactly(RunPushes(d, pushes[..|pushes| - 1]), pushes[|pushes| - 1]);
    }
  }

  /** Push `i` is the last of the run that set the level. */
  ghost predicate LastLevel(d: Dimmer, pushes: seq<Push>, i: nat) {
    i < |pushes| && SetsLevel(d, pushes[i]) && forall j :: i < j < |pushes| ==> !SetsLevel(d, pushes[j])
  }

  /** Over every sequence of pushes, whatever on/off keys go with them: the level is the
      conversion of the last non-zero number delivered, or where it started. */
  lemma {:induction false} LevelIsLastNonZero(d: Dimmer, pushes: seq<Push>)
    ensures forall i: nat :: LastLevel(d, pushes, i) ==>
              RunPushes(d, pushes).currentLevel == PercentToCurrentLevel(pushes[i].level.value.r)
    ensures (forall p :: p in pushes ==> !SetsLevel(d, p)) ==> RunPushes(d, pushes).currentLevel == d.currentLevel
  {
    if pushes != [] {
      var init, last := pushes[..|pushes| - 1], pushes[|pushes| - 1];
      assert last in pushes && forall p :: p in init ==> p in pushes;
      assert Refuses(RunPushes(d, init), last) <==> Refuses(d, last) by { BatteryIsForever(d, init); }
      LevelIsLastNonZero(d, init);
      PushExactly(RunPushes(d, init), last);
      forall i: nat | LastLevel(d, pushes, i)
        ensures RunPushes(d, pushes).currentLevel == PercentToCurrentLevel(pushes[i].level.value.r)
      {
        if i < |init| {
          assert !SetsLevel(d, pushes[|pushes| - 1]);
          assert LastLevel(d, init, i);
        }
      }
    }
  }

  /** A pushed 0 is never the Lighting minimum by accident: a run of pushes that are all zero
      or carry no level leaves the level where it was, whatever they say about on and off. */
  lemma ZerosLeaveTheLevel(d: Dimmer, pushes: seq<Push>)
    requires forall p :: p in pushes ==> p.level.None? || p.level == Some(JNum(0.0))
    ensures RunPushes(d, pushes).currentLevel == d.currentLevel
  {
    LevelIsLastNonZero(d, pushes);
  }

  ghost predicate LastSwitch(d: Dimmer, pushes: seq<Push>, i: nat) {
    i < |pushes| && SetsSwitch(d, pushes[i]) && forall j :: i < j < |pushes| ==> !SetsSwitch(d, pushes[j])
  }

  /** Over every sequence of pushes: on or off as the last boolean delivered said, or as before. */
  lemma {:induction false} SwitchIsLastDelivered(d: Dimmer, pushes: seq<Push>)
    ensures forall i: nat :: LastSwitch(d, pushes, i) ==> RunPushes(d, pushes).onOff == pushes[i].onOff.value.b
    ensures (forall p :: p in pushes ==> !SetsSwitch(d, p)) ==> RunPushes(d, pushes).onOff == d.onOff
  {
    if pushes != [] {
      var init, last := pushes[..|pushes| - 1], pushes[|pushes| - 1];
      assert last in pushes && forall p :: p in init ==> p in pushes;
      assert Refuses(RunPushes(d, init), last) <==> Refuses(d, last) by { BatteryIsForever(d, init); }
      SwitchIsLastDelivered(d, init);
      PushExactly(RunPushes(d, init), last);
      forall i: nat | LastSwitch(d, pushes, i) ensures RunPushes(d, pushes).onOff == pushes[i].onOff.value.b {
        if i < |init| {
          assert !SetsSwitch(d, pushes[|pushes| - 1]);
          assert LastSwitch(d, init, i);
        }
      }
    }
  }

  ghost predicate LastReading(d: Dimmer, pushes: seq<Push>, i: nat) {
    i < |pushes| && SetsBattery(d, pushes[i]) && forall j :: i < j < |pushes| ==> !SetsBattery(d, pushes[j])
  }

  /** And the battery reads the last percentage delivered, in the units Matter keeps it in, or as before. */
  lemma {:induction false} BatteryIsLastReading(d: Dimmer, pushes: seq<Push>)
    ensures forall i: nat :: LastReading(d, pushes, i) ==>
              RunPushes(d, pushes).battery == Some(PercentToBatteryRemaining(pushes[i].battery.value.r))
    ensures (forall p :: p in pushes ==> !SetsBattery(d, p)) ==> RunPushes(d, pushes).battery == d.battery
  {
    if pushes != [] {
      var init, last := pushes[..|pushes| - 1], pushes[|pushes| - 1];
      assert last in pushes && forall p :: p in init ==> p in pushes;
      assert Refuses(RunPushes(d, init), last) <==> Refuses(d, last) by { BatteryIsForever(d, init); }
      BatteryIsLastReading(d, init);
      PushExactly(RunPushes(d, init), last);
      forall i: nat | LastReading(d, pushes, i)
        ensures RunPushes(d, pushes).battery == Some(PercentToBatteryRemaining(pushes[i].battery.value.r))
      {
        if i < |init| {
          assert !SetsBattery(d, pushes[|pushes| - 1]);
          assert LastReading(d, init, i);
        }
      }
    }
  }

  // --- frames --------------------------------------------------------------

  predicate Lands(p: Push) { p.onOffLands && p.restLands }

  function OnOffFrame(p: Push): Push { p.(level := None) }

  function LevelFrame(p: Push): Push { p.(onOff := None, battery := None, strangers := false) }

  lemma SwitchThenLevel(d: Dimmer, p: Push)
    requires Lands(p) && p.level.Some? && p.onOff.Some? && ApplyStates(d, p).applied == Accepted
    requires ApplyStates(d, OnOffFrame(p)).applied == Accepted && ApplyStates(d, LevelFrame(p)).applied == Accepted
    ensures ApplyStates(ApplyStates(d, OnOffFrame(p)).dimmer, LevelFrame(p)).dimmer == ApplyStates(d, p).dimmer
  {
  }

  lemma LevelThenSwitch(d: Dimmer, p: Push)
    requires Lands(p) && p.level.Some? && p.onOff.Some? && ApplyStates(d, p).applied == Accepted
    requires ApplyStates(d, OnOffFrame(p)).applied == Accepted && ApplyStates(d, LevelFrame(p)).applied == Accepted
    ensures ApplyStates(ApplyStates(d, LevelFrame(p)).dimmer, OnOffFrame(p)).dimmer == ApplyStates(d, p).dimmer
  {
  }

  /** A combined push ends where its two halves do, sent as separate frames in either order,
      as long as all of them are delivered. */
  lemma SplitEitherWay(d: Dimmer, p: Push)
    requires Lands(p) && p.level.Some? && p.onOff.Some?
    requires ApplyStates(d, p).applied == Accepted
    requires ApplyStates(d, OnOffFrame(p)).applied == Accepted && ApplyStates(d, LevelFrame(p)).applied == Accepted
    ensures RunPushes(d, [OnOffFrame(p), LevelFrame(p)]) == ApplyStates(d, p).dimmer
    ensures RunPushes(d, [LevelFrame(p), OnOffFrame(p)]) == ApplyStates(d, p).dimmer
  {
    TwoPushes(d, OnOffFrame(p), LevelFrame(p));
    TwoPushes(d, LevelFrame(p), OnOffFrame(p));
    SwitchThenLevel(d, p);
    LevelThenSwitch(d, p);
  }

  lemma TwoPushes(d: Dimmer, a: Push, b: Push)
    ensures RunPushes(d, [a, b]) == ApplyStates(ApplyStates(d, a).dimmer, b).dimmer
  {
    assert [a, b][..1] == [a] && [a][..0] == [];
    assert RunPushes(d, []) == d;
  }
}
