/**
 * Volume Participation Breadth: the share of the day's volume that
 * traded in advancing stocks, with its three error cases.
 */
module Vpb {
  import opened Wrappers
  import opened Numeric
  import opened Readings

  /** Why no VPB value could be computed. */
  datatype Problem = MissingVolume | NegativeVolume | ZeroTotalVolume

  datatype VpbResult = VpbResult(
    value: Option<real>,
    vAdv: real,
    vDec: real,
    totalVolume: real,
    isValid: bool,
    problem: Option<Problem>)

  /**
   * The advancing share of the total volume. Missing or negative inputs
   * and a zero total are reported instead of a value; a negative input
   * keeps the inputs and their sum, the other two errors report zeros.
   */
  function Calculate(vAdv: Option<real>, vDec: Option<real>): (r: VpbResult)
    ensures r.isValid <==> r.value.Some?
    ensures r.isValid <==> r.problem.None?
    ensures r.problem == Some(MissingVolume) <==> vAdv.None? || vDec.None?
    ensures r.problem == Some(NegativeVolume) <==>
      vAdv.Some? && vDec.Some? && (vAdv.value < 0.0 || vDec.value < 0.0)
    ensures r.problem == Some(ZeroTotalVolume) <==>
      vAdv.Some? && vDec.Some? && vAdv.value >= 0.0 && vDec.value >= 0.0 && vAdv.value + vDec.value == 0.0
    ensures r.problem == Some(MissingVolume) || r.problem == Some(ZeroTotalVolume) ==>
      r.vAdv == 0.0 && r.vDec == 0.0 && r.totalVolume == 0.0
    ensures r.problem == Some(NegativeVolume) || r.isValid ==>
      r.vAdv == vAdv.value && r.vDec == vDec.value && r.totalVolume == vAdv.value + vDec.value
    ensures r.isValid ==> r.totalVolume > 0.0 && 0.0 <= r.value.value <= 1.0
    ensures r.isValid ==> r.value.value * r.totalVolume == r.vAdv
  {
    if vAdv.None? || vDec.None? then
      VpbResult(None, 0.0, 0.0, 0.0, false, Some(MissingVolume))
    else if vAdv.value < 0.0 || vDec.value < 0.0 then
      VpbResult(None, vAdv.value, vDec.value, vAdv.value + vDec.value, false, Some(NegativeVolume))
    else
      var total := vAdv.value + vDec.value;
      if total == 0.0 then
        VpbResult(None, 0.0, 0.0, 0.0, false, Some(ZeroTotalVolume))
      else
        var share := vAdv.value / total;
        assert 0.0 <= share <= 1.0 by { DivFraction(vAdv.value, total); }
        VpbResult(Some(share), vAdv.value, vDec.value, total, true, None)
  }

  /** A share is computed exactly when both volumes are present, neither is negative and they do not sum to zero. */
  lemma ValidExactly(vAdv: Option<real>, vDec: Option<real>)
    ensures Calculate(vAdv, vDec).isValid <==>
      vAdv.Some? && vDec.Some? && vAdv.value >= 0.0 && vDec.value >= 0.0 && vAdv.value + vDec.value != 0.0
  {
  }

  /** The advancing and declining shares of the same day add up to one. */
  lemma SharesComplement(a: real, b: real)
    requires Calculate(Some(a), Some(b)).isValid
    ensures Calculate(Some(b), Some(a)).isValid
    ensures Calculate(Some(a), Some(b)).value.value + Calculate(Some(b), Some(a)).value.value == 1.0
  {
    var x, y := Calculate(Some(a), Some(b)).value.value, Calculate(Some(b), Some(a)).value.value;
    assert x * (a + b) == a && y * (a + b) == b;
    assert (x + y) * (a + b) == 1.0 * (a + b);
  }

  /** 3000 against 1000 is 0.75; an all-advancing or all-declining day is 1 or 0; equal volumes give 0.5. */
  lemma Samples()
    ensures Calculate(Some(3000.0), Some(1000.0)).value == Some(0.75)
    ensures Calculate(Some(1000.0), Some(0.0)).value == Some(1.0)
    ensures Calculate(Some(0.0), Some(1000.0)).value == Some(0.0)
    ensures Calculate(Some(500.0), Some(500.0)).value == Some(0.5)
  {
  }

  /** The reading: above 0.7, above 0.55, above 0.45, above 0.3, or below. */
  function Interpret(vpb: real): (g: Grade)
    ensures g == VeryStrong <==> vpb > 0.7
    ensures g == Strong <==> 0.55 < vpb <= 0.7
    ensures g == Balanced <==> 0.45 < vpb <= 0.55
    ensures g == Weak <==> 0.3 < vpb <= 0.45
    ensures g == VeryWeak <==> vpb <= 0.3
  {
    GradeOf(vpb, 0.7, 0.55, 0.45, 0.3)
  }

  /** More volume on the advancing side never reads weaker. */
  lemma InterpretMonotone(x: real, y: real)
    requires x <= y
    ensures Interpret(x).Rank() <= Interpret(y).Rank()
  {
    GradeMonotone(x, y, 0.7, 0.55, 0.45, 0.3);
  }
}
