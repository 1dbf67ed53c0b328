/**
 * Issue Participation Breadth: the share of the day's issues that
 * advanced, with its three error cases, and its divergence from the
 * volume-weighted share.
 */
module Ipb {
  import opened Wrappers
  import opened Numeric
  import opened Readings

  /** Why no IPB value could be computed. */
  datatype Problem = MissingCount | NegativeCount | ZeroTotalIssues

  datatype IpbResult = IpbResult(
    value: Option<real>,
    nAdv: int,
    nDec: int,
    totalIssues: int,
    isValid: bool,
    problem: Option<Problem>)

  /**
   * The advancing share of the issues. A missing count reports zero
   * counts, a negative count keeps both counts and their sum, and a zero
   * total reports zeros; none of the three has a value.
   */
  function Calculate(nAdv: Option<int>, nDec: Option<int>): (r: IpbResult)
    ensures r.isValid <==> r.value.Some?
    ensures r.isValid <==> r.problem.None?
    ensures r.problem == Some(MissingCount) <==> nAdv.None? || nDec.None?
    ensures r.problem == Some(NegativeCount) <==>
      nAdv.Some? && nDec.Some? && (nAdv.value < 0 || nDec.value < 0)
    ensures r.problem == Some(ZeroTotalIssues) <==>
      nAdv.Some? && nDec.Some? && nAdv.value == 0 && nDec.value == 0
    ensures r.problem == Some(MissingCount) || r.problem == Some(ZeroTotalIssues) ==>
      r.nAdv == 0 && r.nDec == 0 && r.totalIssues == 0
    ensures r.problem == Some(NegativeCount) || r.isValid ==>
      r.nAdv == nAdv.value && r.nDec == nDec.value && r.totalIssues == nAdv.value + nDec.value
    ensures r.isValid ==> r.totalIssues > 0 && 0.0 <= r.value.value <= 1.0
    ensures r.isValid ==> r.value.value * r.totalIssues as real == r.nAdv as real
  {
    if nAdv.None? || nDec.None? then
      IpbResult(None, 0, 0, 0, false, Some(MissingCount))
    else if nAdv.value < 0 || nDec.value < 0 then
      IpbResult(None, nAdv.value, nDec.value, nAdv.value + nDec.value, false, Some(NegativeCount))
    else
      var total := nAdv.value + nDec.value;
      if total == 0 then
        IpbResult(None, 0, 0, 0, false, Some(ZeroTotalIssues))
      else
        var share := nAdv.value as real / total as real;
        assert 0.0 <= share <= 1.0 by { DivFraction(nAdv.value as real, total as real); }
        IpbResult(Some(share), nAdv.value, nDec.value, total, true, None)
  }

  /** A share is computed exactly when both counts are present, neither is negative and they do not sum to zero. */
  lemma ValidExactly(nAdv: Option<int>, nDec: Option<int>)
    ensures Calculate(nAdv, nDec).isValid <==>
      nAdv.Some? && nDec.Some? && nAdv.value >= 0 && nDec.value >= 0 && nAdv.value + nDec.value != 0
  {
  }

  /** 300 against 200 is 0.6; an all-advancing or all-declining day is 1 or 0. */
  lemma Samples()
    ensures Calculate(Some(300), Some(200)).value == Some(0.6)
    ensures Calculate(Some(500), Some(0)).value == Some(1.0)
    ensures Calculate(Some(0), Some(500)).value == Some(0.0)
    ensures Calculate(Some(0), Some(0)).problem == Some(ZeroTotalIssues)
  {
  }

  /** The reading: above 0.7, above 0.55, above 0.45, above 0.3, or below. */
  function Interpret(ipb: real): (g: Grade)
    ensures g == VeryStrong <==> ipb > 0.7
    ensures g == Strong <==> 0.55 < ipb <= 0.7
    ensures g == Balanced <==> 0.45 < ipb <= 0.55
    ensures g == Weak <==> 0.3 < ipb <= 0.45
    ensures g == VeryWeak <==> ipb <= 0.3
  {
    GradeOf(ipb, 0.7, 0.55, 0.45, 0.3)
  }

  /** More advancing issues never read weaker. */
  lemma InterpretMonotone(x: real, y: real)
    requires x <= y
    ensures Interpret(x).Rank() <= Interpret(y).Rank()
  {
    GradeMonotone(x, y, 0.7, 0.55, 0.45, 0.3);
  }

  /** How far volume breadth runs ahead of issue breadth. */
  datatype Divergence = Divergence(amount: real, reading: Tilt)

  /**
   * `vpb - ipb`: above 0.1 the volume is concentrated in few (mega-cap)
   * names, below -0.1 many names rise on little volume, else aligned.
   */
  function CalculateDivergence(ipb: real, vpb: real): (d: Divergence)
    ensures d.amount + ipb == vpb
    ensures d.reading == Above <==> vpb > ipb + 0.1
    ensures d.reading == Below <==> vpb < ipb - 0.1
    ensures d.reading == Level <==> ipb - 0.1 <= vpb <= ipb + 0.1
  {
    var amount := vpb - ipb;
    Divergence(amount, TiltOf(amount, 0.1))
  }

  /** Exchanging the two breadths negates the divergence and swaps its reading. */
  lemma DivergenceAntisymmetric(ipb: real, vpb: real)
    ensures CalculateDivergence(vpb, ipb).amount == -CalculateDivergence(ipb, vpb).amount
    ensures CalculateDivergence(ipb, vpb).reading == Above <==> CalculateDivergence(vpb, ipb).reading == Below
    ensures CalculateDivergence(ipb, vpb).reading == Level <==> CalculateDivergence(vpb, ipb).reading == Level
  {
  }
}
