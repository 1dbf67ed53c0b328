/**
 * Structural Breadth Confirmation: the mean share of stocks above their
 * 50-day and 200-day moving averages, as a fraction.
 */
module Sbc {
  import opened Wrappers
  import opened Numeric
  import opened Readings

  /** What the result reports besides its value. */
  datatype Message = NoMessage | MissingBoth | Ma200Only | Ma50Only | OutOfRange

  datatype SbcResult = SbcResult(
    value: Option<real>,
    pctMa50: Option<real>,
    pctMa200: Option<real>,
    isValid: bool,
    message: Message)

  /** Percentages in [0, 100]. */
  predicate InRange(pct: real)
  {
    0.0 <= pct <= 100.0
  }

  /**
   * Both percentages present and in range: their mean as a fraction. With
   * one missing, the other alone scaled to a fraction, unchecked for range;
   * a remaining percentage of exactly zero reads as falsy, so the result is
   * then valid without a value.
   */
  function Calculate(pctMa50: Option<real>, pctMa200: Option<real>): (r: SbcResult)
    ensures r.pctMa50 == pctMa50 && r.pctMa200 == pctMa200
    ensures r.isValid <==> (pctMa50.Some? || pctMa200.Some?) && (pctMa50.None? || pctMa200.None? || (InRange(pctMa50.value) && InRange(pctMa200.value)))
    ensures pctMa50.None? && pctMa200.None? ==> r.message == MissingBoth && r.value.None?
    ensures pctMa50.None? && pctMa200.Some? ==> r.message == Ma200Only
    ensures pctMa50.Some? && pctMa200.None? ==> r.message == Ma50Only
    ensures pctMa50.None? != pctMa200.None? ==>
      var single := if pctMa50.Some? then pctMa50.value else pctMa200.value;
      (r.value.None? <==> single == 0.0) && (r.value.Some? ==> r.value.value * 100.0 == single)
    ensures pctMa50.Some? && pctMa200.Some? ==>
      (r.value.Some? <==> r.isValid) && (r.message == OutOfRange <==> !r.isValid) && (r.isValid ==> r.message == NoMessage)
    ensures pctMa50.Some? && pctMa200.Some? && r.isValid ==>
      0.0 <= r.value.value <= 1.0 && r.value.value * 200.0 == pctMa50.value + pctMa200.value
  {
    if pctMa50.None? && pctMa200.None? then
      SbcResult(None, None, None, false, MissingBoth)
    else if pctMa50.None? then
      SbcResult(if pctMa200.value != 0.0 then Some(pctMa200.value / 100.0) else None, None, pctMa200, true, Ma200Only)
    else if pctMa200.None? then
      SbcResult(if pctMa50.value != 0.0 then Some(pctMa50.value / 100.0) else None, pctMa50, None, true, Ma50Only)
    else if !InRange(pctMa50.value) || !InRange(pctMa200.value) then
      SbcResult(None, pctMa50, pctMa200, false, OutOfRange)
    else
      var sbc := ((pctMa50.value + pctMa200.value) / 2.0) / 100.0;
      assert 0.0 <= sbc <= 1.0 by { DivFraction(pctMa50.value + pctMa200.value, 200.0); }
      SbcResult(Some(sbc), pctMa50, pctMa200, true, NoMessage)
  }

  /** A lone percentage is not range-checked, so the value can leave [0, 1]; a lone zero is valid yet has no value. */
  lemma SingleInputUnchecked()
    ensures Calculate(None, Some(150.0)).isValid && Calculate(None, Some(150.0)).value == Some(1.5)
    ensures Calculate(Some(0.0), None).isValid && Calculate(Some(0.0), None).value.None?
    ensures !Calculate(Some(150.0), Some(50.0)).isValid
  {
  }

  /** The reading of `sbc` as a percentage: above 70, 55, 45, 30, or below. */
  function Interpret(sbc: real): (g: Grade)
    ensures g == VeryStrong <==> sbc * 100.0 > 70.0
    ensures g == Strong <==> 55.0 < sbc * 100.0 <= 70.0
    ensures g == Balanced <==> 45.0 < sbc * 100.0 <= 55.0
    ensures g == Weak <==> 30.0 < sbc * 100.0 <= 45.0
    ensures g == VeryWeak <==> sbc * 100.0 <= 30.0
  {
    GradeOf(sbc * 100.0, 70.0, 55.0, 45.0, 30.0)
  }

  /** More stocks above their averages never read weaker. */
  lemma InterpretMonotone(x: real, y: real)
    requires x <= y
    ensures Interpret(x).Rank() <= Interpret(y).Rank()
  {
    GradeMonotone(x * 100.0, y * 100.0, 70.0, 55.0, 45.0, 30.0);
  }

  /** How far short-term breadth runs ahead of long-term breadth. */
  datatype MaDivergence = MaDivergence(amount: real, reading: Tilt)

  /**
   * `pct_ma50 - pct_ma200`: above 15 points short-term breadth is
   * improving, below -15 it is deteriorating, and otherwise aligned.
   */
  function AssessMaDivergence(pctMa50: real, pctMa200: real): (d: MaDivergence)
    ensures d.amount + pctMa200 == pctMa50
    ensures d.reading == Above <==> pctMa50 > pctMa200 + 15.0
    ensures d.reading == Below <==> pctMa50 < pctMa200 - 15.0
    ensures d.reading == Level <==> pctMa200 - 15.0 <= pctMa50 <= pctMa200 + 15.0
  {
    var amount := pctMa50 - pctMa200;
    MaDivergence(amount, TiltOf(amount, 15.0))
  }
}
