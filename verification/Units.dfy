/** The unit converters of `endpoints.ts`, over the reals. */
module Units {

  const MATTER_LEVEL_MAX: int := 254
  const HUE_DEGREES_MAX: int := 360
  const PERCENT100THS_CLOSED: int := 10_000
  const BATTERY_REMAINING_MAX: int := 200
  const MIREDS_MIN: int := 153
  const MIREDS_MAX: int := 500

  function Clamp(v: int, lo: int, hi: int): int { if v < lo then lo else if v > hi then hi else v }

  function ClampReal(v: real, lo: real, hi: real): real { if v < lo then lo else if v > hi then hi else v }

  /** Half up, toward +infinity, whatever the sign. */
  function RoundHalfUp(v: real): int { (v + 0.5).Floor }

  function PercentToMatter(percent: real): int {
    Clamp(RoundHalfUp(ClampReal(percent, 0.0, 100.0) * MATTER_LEVEL_MAX as real / 100.0), 0, MATTER_LEVEL_MAX)
  }

  function MatterToPercent(level: real): int {
    Clamp(RoundHalfUp(ClampReal(level, 0.0, MATTER_LEVEL_MAX as real) * 100.0 / MATTER_LEVEL_MAX as real), 0, 100)
  }

  /** What is written to `currentLevel`, which the Lighting feature keeps at 1 or above. */
  function PercentToCurrentLevel(percent: real): int {
    if PercentToMatter(percent) < 1 then 1 else PercentToMatter(percent)
  }

  function PercentToBatteryRemaining(percent: real): int { Clamp(RoundHalfUp(percent * 2.0), 0, BATTERY_REMAINING_MAX) }

  function ClampMireds(mireds: real): int { Clamp(RoundHalfUp(mireds), MIREDS_MIN, MIREDS_MAX) }

  function DegreesToMatterHue(degrees: real): int {
    var inRange := ClampReal(degrees, 0.0, HUE_DEGREES_MAX as real);
    Clamp(RoundHalfUp(inRange * MATTER_LEVEL_MAX as real / HUE_DEGREES_MAX as real),
          0, MATTER_LEVEL_MAX)
  }

  function MatterHueToDegrees(hue: real): int {
    var inRange := ClampReal(hue, 0.0, MATTER_LEVEL_MAX as real);
    Clamp(RoundHalfUp(inRange * HUE_DEGREES_MAX as real / MATTER_LEVEL_MAX as real),
          0, HUE_DEGREES_MAX)
  }

  /** 100 is open on the wire and 0 in Matter. */
  function PositionToPercent100ths(position: real): int {
    RoundHalfUp((100.0 - ClampReal(position, 0.0, 100.0)) * 100.0)
  }

  function Percent100thsToPosition(percent100ths: real): int {
    Clamp(100 - RoundHalfUp(ClampReal(percent100ths, 0.0, PERCENT100THS_CLOSED as real) / 100.0), 0, 100)
  }

  /** Half-percent units: twice the percentage, to the nearest whole, kept within 0 and 200. */
  predicate HalfPercents(percent: real, units: int) {
    && 0 <= units <= 200
    && (percent <= 0.0 ==> units == 0) && (percent >= 100.0 ==> units == 200)
    && (0.0 <= percent <= 100.0 ==> 2.0 * percent - 0.5 <= units as real <= 2.0 * percent + 0.5)
  }

  /** A battery percentage is kept in half-percent units. */
  lemma BatteryInHalfPercents(percent: real)
    ensures HalfPercents(percent, PercentToBatteryRemaining(percent))
  {
  }

  // --- rounding ------------------------------------------------------------

  lemma RoundsWithinHalf(v: real)
    ensures v - 0.5 < RoundHalfUp(v) as real <= v + 0.5
  {
  }

  lemma RoundMonotone(a: real, b: real)
    requires a <= b
    ensures RoundHalfUp(a) <= RoundHalfUp(b)
  {
  }

  lemma RoundBetween(v: real, lo: int, hi: int)
    requires lo as real <= v <= hi as real
    ensures lo <= RoundHalfUp(v) <= hi
  {
    RoundsWithinHalf(v);
  }

  // --- monotone, in range --------------------------------------------------

  lemma PercentToMatterMonotone(p: real, q: real)
    requires p <= q
    ensures 0 <= PercentToMatter(p) <= PercentToMatter(q) <= MATTER_LEVEL_MAX
    ensures 1 <= PercentToCurrentLevel(p) <= PercentToCurrentLevel(q) <= MATTER_LEVEL_MAX
    ensures PercentToMatter(0.0) == 0 && PercentToMatter(100.0) == MATTER_LEVEL_MAX
  {
    RoundMonotone(ClampReal(p, 0.0, 100.0) * MATTER_LEVEL_MAX as real / 100.0,
                  ClampReal(q, 0.0, 100.0) * MATTER_LEVEL_MAX as real / 100.0);
  }

  lemma MatterToPercentMonotone(a: real, b: real)
    requires a <= b
    ensures 0 <= MatterToPercent(a) <= MatterToPercent(b) <= 100
  {
    RoundMonotone(ClampReal(a, 0.0, 254.0) * 100.0 / 254.0, ClampReal(b, 0.0, 254.0) * 100.0 / 254.0);
  }

  lemma HueMonotone(a: real, b: real)
    requires a <= b
    ensures 0 <= DegreesToMatterHue(a) <= DegreesToMatterHue(b) <= MATTER_LEVEL_MAX
    ensures 0 <= MatterHueToDegrees(a) <= MatterHueToDegrees(b) <= HUE_DEGREES_MAX
  {
    RoundMonotone(ClampReal(a, 0.0, 360.0) * 254.0 / 360.0, ClampReal(b, 0.0, 360.0) * 254.0 / 360.0);
    RoundMonotone(ClampReal(a, 0.0, 254.0) * 360.0 / 254.0, ClampReal(b, 0.0, 254.0) * 360.0 / 254.0);
  }

  lemma PositionAntitone(a: real, b: real)
    requires a <= b
    ensures PERCENT100THS_CLOSED >= PositionToPercent100ths(a) >= PositionToPercent100ths(b) >= 0
    ensures 100 >= Percent100thsToPosition(a) >= Percent100thsToPosition(b) >= 0
  {
    RoundMonotone((100.0 - ClampReal(b, 0.0, 100.0)) * 100.0, (100.0 - ClampReal(a, 0.0, 100.0)) * 100.0);
    RoundMonotone(ClampReal(a, 0.0, 10000.0) / 100.0, ClampReal(b, 0.0, 10000.0) / 100.0);
    RoundBetween((100.0 - ClampReal(a, 0.0, 100.0)) * 100.0, 0, 10000);
    RoundBetween((100.0 - ClampReal(b, 0.0, 100.0)) * 100.0, 0, 10000);
  }

  // --- round trips ---------------------------------------------------------

  /** A percentage comes back within 0.5 + 50/254 of itself. */
  lemma PercentRoundTrip(p: real)
    requires 0.0 <= p <= 100.0
    ensures p - (0.5 + 50.0 / 254.0) <= MatterToPercent(PercentToMatter(p) as real) as real <= p + (0.5 + 50.0 / 254.0)
  {
    var there := PercentToMatter(p);
    RoundBetween(p * 254.0 / 100.0, 0, 254);
    RoundsWithinHalf(p * 254.0 / 100.0);
    RoundBetween(there as real * 100.0 / 254.0, 0, 100);
    RoundsWithinHalf(there as real * 100.0 / 254.0);
  }

  /** So every whole percentage survives exactly. */
  lemma WholePercentSurvives(p: int)
    requires 0 <= p <= 100
    ensures MatterToPercent(PercentToMatter(p as real) as real) == p
    ensures p > 0 ==> MatterToPercent(PercentToCurrentLevel(p as real) as real) == p
    ensures MatterToPercent(PercentToCurrentLevel(0.0) as real) == 0
  {
    PercentRoundTrip(p as real);
    if p > 0 { RoundBetween(p as real * 254.0 / 100.0, 1, 254); }
  }

  /** A hue comes back within 0.5 + 180/254 degrees, less than one Matter step. */
  lemma HueRoundTrip(degrees: real)
    requires 0.0 <= degrees <= 360.0
    ensures var back := MatterHueToDegrees(DegreesToMatterHue(degrees) as real) as real;
            degrees - (0.5 + 180.0 / 254.0) <= back <= degrees + (0.5 + 180.0 / 254.0)
    ensures 0.5 + 180.0 / 254.0 < 360.0 / 254.0
  {
    var there := DegreesToMatterHue(degrees);
    RoundBetween(degrees * 254.0 / 360.0, 0, 254);
    RoundsWithinHalf(degrees * 254.0 / 360.0);
    RoundBetween(there as real * 360.0 / 254.0, 0, 360);
    RoundsWithinHalf(there as real * 360.0 / 254.0);
  }

  /** The other way round nothing is lost: every Matter hue survives a trip through degrees. */
  lemma MatterHueSurvives(hue: int)
    requires 0 <= hue <= 254
    ensures DegreesToMatterHue(MatterHueToDegrees(hue as real) as real) == hue
  {
    var there := MatterHueToDegrees(hue as real);
    RoundBetween(hue as real * 360.0 / 254.0, 0, 360);
    RoundsWithinHalf(hue as real * 360.0 / 254.0);
    RoundBetween(there as real * 254.0 / 360.0, 0, 254);
    RoundsWithinHalf(there as real * 254.0 / 360.0);
  }

  /** A covering position comes back within 0.505, so every whole one exactly. */
  lemma PositionRoundTrip(p: real)
    requires 0.0 <= p <= 100.0
    ensures p - 0.505 <= Percent100thsToPosition(PositionToPercent100ths(p) as real) as real <= p + 0.505
  {
    var there := PositionToPercent100ths(p);
    RoundBetween((100.0 - p) * 100.0, 0, 10000);
    RoundsWithinHalf((100.0 - p) * 100.0);
    RoundBetween(there as real / 100.0, 0, 100);
    RoundsWithinHalf(there as real / 100.0);
  }

  lemma WholePositionSurvives(p: int)
    requires 0 <= p <= 100
    ensures Percent100thsToPosition(PositionToPercent100ths(p as real) as real) == p
  {
    PositionRoundTrip(p as real);
  }
}
