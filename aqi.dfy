/**
 * The PM2.5 to air-quality-index conversion of sarima.py:15-32: a
 * piecewise-linear map through the PM2.5 breakpoints of India's National Air
 * Quality Index (published by the Central Pollution Control Board), capped at
 * 500 and rounded half to even as Python's `round` does. Concentrations are
 * exact reals; a reading that is not a number is `None`.
 */
module Aqi {
  import opened Wrappers

  /**
   * Python 3 `round` of a number to an integer: the nearest integer, and the
   * even one of the two when v lies exactly half way.
   */
  function RoundHalfEven(v: real): (r: int)
    ensures v - 0.5 <= r as real <= v + 0.5
    ensures (r as real == v - 0.5 || r as real == v + 0.5) ==> r % 2 == 0
  {
    var f := v.Floor;
    var d := v - f as real;
    if d < 0.5 then f
    else if d > 0.5 then f + 1
    else if f % 2 == 0 then f
    else f + 1
  }

  /** The two contract clauses of `RoundHalfEven` pin its result down: no other integer meets them. */
  lemma {:induction false} RoundHalfEvenUnique(v: real, k: int)
    requires v - 0.5 <= k as real <= v + 0.5
    requires (k as real == v - 0.5 || k as real == v + 0.5) ==> k % 2 == 0
    ensures k == RoundHalfEven(v)
  {
    var r := RoundHalfEven(v);
  }

  /** Rounding keeps integers as they are. */
  lemma {:induction false} RoundInteger(k: int)
    ensures RoundHalfEven(k as real) == k
  {
    RoundHalfEvenUnique(k as real, k);
  }

  /** Rounding never reverses an order. */
  lemma {:induction false} RoundMonotone(v: real, w: real)
    requires v <= w
    ensures RoundHalfEven(v) <= RoundHalfEven(w)
  {
    var rv, rw := RoundHalfEven(v), RoundHalfEven(w);
  }

  /**
   * The value before rounding, branch for branch as in sarima.py:19-31.
   * Every test is `<=`, so a breakpoint is computed by the band below it;
   * only the last band is capped.
   */
  function RawAqi(pm: real): (a: real)
    ensures a <= 500.0
    ensures pm >= 0.0 ==> a >= 0.0
    ensures pm < 0.0 ==> a < 0.0
  {
    if pm <= 30.0 then (50.0 / 30.0) * pm
    else if pm <= 60.0 then 50.0 + (50.0 / 30.0) * (pm - 30.0)
    else if pm <= 90.0 then 100.0 + (100.0 / 30.0) * (pm - 60.0)
    else if pm <= 120.0 then 200.0 + (100.0 / 30.0) * (pm - 90.0)
    else if pm <= 250.0 then 300.0 + (100.0 / 130.0) * (pm - 120.0)
    else Min(400.0 + (100.0 / 250.0) * (pm - 250.0), 500.0)
  }

  function Min(a: real, b: real): real {
    if a <= b then a else b
  }

  /** `calculate_aqi_pm25`: a missing reading gives a missing index, a present one always gives one. */
  function AqiPm25(pm: Option<real>): (r: Option<int>)
    ensures r.Some? <==> pm.Some?
  {
    match pm
    case None => None
    case Some(c) => Some(RoundHalfEven(RawAqi(c)))
  }

  /**
   * The index never exceeds 500, lies in [0, 500] for a concentration that is
   * not negative, and is at most 0 for a negative one, which the source does
   * not reject.
   */
  lemma {:induction false} AqiBounds(c: real)
    ensures AqiPm25(Some(c)).value <= 500
    ensures c >= 0.0 ==> 0 <= AqiPm25(Some(c)).value
    ensures c < 0.0 ==> AqiPm25(Some(c)).value <= 0
  {
    var a := RawAqi(c);
    RoundMonotone(a, 500.0);
    RoundInteger(500);
    RoundInteger(0);
    if c >= 0.0 {
      RoundMonotone(0.0, a);
    } else {
      RoundMonotone(a, 0.0);
    }
  }

  /**
   * Between any two concentrations the value before rounding rises by at most
   * 10/3 per unit, the steepest slope, so it has no jump at a breakpoint; up to
   * 500 it rises by at least 2/5 per unit, the shallowest slope.
   */
  lemma {:induction false} RawAqiSlopes(a: real, b: real)
    requires a <= b
    ensures RawAqi(b) - RawAqi(a) <= (10.0 / 3.0) * (b - a)
    ensures b <= 500.0 ==> RawAqi(b) - RawAqi(a) >= (2.0 / 5.0) * (b - a)
  {
  }

  /** The value before rounding never decreases, and strictly increases up to 500. */
  lemma {:induction false} RawAqiMonotone(a: real, b: real)
    requires a <= b
    ensures RawAqi(a) <= RawAqi(b)
    ensures a < b <= 500.0 ==> RawAqi(a) < RawAqi(b)
  {
    RawAqiSlopes(a, b);
  }

  /** The rounded index never decreases as the concentration grows. */
  lemma {:induction false} AqiMonotone(a: real, b: real)
    requires a <= b
    ensures AqiPm25(Some(a)).value <= AqiPm25(Some(b)).value
  {
    RawAqiMonotone(a, b);
    RoundMonotone(RawAqi(a), RawAqi(b));
  }

  /**
   * The cap: the value before rounding is 500 exactly from a concentration of
   * 500 on, and the rounded index is 500 exactly from 498.75 on, where the
   * value reaches 499.5 and the tie goes to the even 500.
   */
  lemma {:induction false} AqiCap(c: real)
    ensures RawAqi(c) == 500.0 <==> c >= 500.0
    ensures AqiPm25(Some(c)) == Some(500) <==> c >= 498.75
  {
    var a := RawAqi(c);
    if c >= 498.75 {
      RoundMonotone(499.5, a);
      RoundMonotone(a, 500.0);
      RoundInteger(500);
      RoundHalfEvenUnique(499.5, 500);
    } else {
      RawAqiMonotone(c, 498.75);
    }
  }

  /**
   * The breakpoint table of the index for PM2.5, (concentration, index):
   * good up to 30, satisfactory to 60, moderate to 90, poor to 120, very poor
   * to 250, severe above, with the top of the severe band placed at 500.
   */
  const Breakpoints: seq<(real, real)> :=
    [(0.0, 0.0), (30.0, 50.0), (60.0, 100.0), (90.0, 200.0), (120.0, 300.0), (250.0, 400.0), (500.0, 500.0)]

  predicate Increasing(t: seq<(real, real)>) {
    forall k | 0 < k < |t| :: t[k - 1].0 < t[k].0
  }

  /** The line through two breakpoints, evaluated at pm. */
  function Segment(lo: (real, real), hi: (real, real), pm: real): real
    requires lo.0 < hi.0
  {
    lo.1 + (hi.1 - lo.1) / (hi.0 - lo.0) * (pm - lo.0)
  }

  /**
   * Linear interpolation in a breakpoint table from breakpoint k on: pm is
   * placed on the segment whose upper end is the first breakpoint at or above
   * it, the first segment extended downwards and the last one upwards.
   */
  function Interpolate(t: seq<(real, real)>, k: nat, pm: real): real
    requires k + 2 <= |t| && Increasing(t)
    decreases |t| - k
  {
    if k + 2 == |t| || pm <= t[k + 1].0 then Segment(t[k], t[k + 1], pm)
    else Interpolate(t, k + 1, pm)
  }

  /** The index as the table defines it: interpolation, capped at the top of the scale. */
  function TableAqi(pm: real): real {
    Min(Interpolate(Breakpoints, 0, pm), 500.0)
  }

  /** The constants of sarima.py:19-31 are the slopes of the breakpoint table. */
  lemma {:induction false} RawAqiIsTable(pm: real)
    ensures RawAqi(pm) == TableAqi(pm)
  {
    var t := Breakpoints;
    if pm > 30.0 {
      assert Interpolate(t, 0, pm) == Interpolate(t, 1, pm);
      if pm > 60.0 {
        assert Interpolate(t, 1, pm) == Interpolate(t, 2, pm);
        if pm > 90.0 {
          assert Interpolate(t, 2, pm) == Interpolate(t, 3, pm);
          if pm > 120.0 {
            assert Interpolate(t, 3, pm) == Interpolate(t, 4, pm);
            if pm > 250.0 {
              assert Interpolate(t, 4, pm) == Interpolate(t, 5, pm);
              assert Interpolate(t, 5, pm) == Segment(t[5], t[6], pm);
            }
          }
        }
      }
    }
  }

  /** The index of each breakpoint, before and after rounding. */
  lemma {:induction false} BreakpointValues()
    ensures forall k | 0 <= k < |Breakpoints| :: RawAqi(Breakpoints[k].0) == Breakpoints[k].1
    ensures forall k | 0 <= k < |Breakpoints| :: AqiPm25(Some(Breakpoints[k].0)) == Some(Breakpoints[k].1.Floor)
  {
  }
}
