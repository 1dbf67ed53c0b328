/**
 * The fast moving-average breadth approximation: with no price histories
 * at hand, the share of stocks closing above their open stands in for the
 * share above both moving averages.
 */
module MaBreadth {
  import opened Wrappers
  import opened Numeric
  import Polygon
  import Sbc

  /** What the result reports besides its values. */
  datatype Message = NoData | NoPriceData | IntradayProxy

  datatype MaBreadthResult = MaBreadthResult(
    pctAboveMa50: Option<real>,
    pctAboveMa200: Option<real>,
    stocksChecked: nat,
    stocksAboveMa50: nat,
    stocksAboveMa200: nat,
    isValid: bool,
    message: Message)

  /** `ticker.get(key, 0)`: an absent price reads as zero. */
  function Price(x: Option<real>): real
  {
    if x.Some? then x.value else 0.0
  }

  /** The stocks closing above and below their open, absent prices read as zero. */
  function UpDown(results: seq<Polygon.GroupedBar>): (r: (nat, nat))
    ensures r.0 + r.1 <= |results|
  {
    if results == [] then (0, 0)
    else
      var (up, down) := UpDown(results[..|results| - 1]);
      var b := results[|results| - 1];
      if Price(b.c) > Price(b.o) then (up + 1, down)
      else if Price(b.c) < Price(b.o) then (up, down + 1)
      else (up, down)
  }

  /**
   * The proxy breadth: invalid without results or without any stock that
   * moved; otherwise the percentage of movers that rose, reported for both
   * averages.
   */
  method CalculateMaBreadthFast(results: Option<seq<Polygon.GroupedBar>>) returns (r: MaBreadthResult)
    ensures results.None? || results.value == [] ==> r == MaBreadthResult(None, None, 0, 0, 0, false, NoData)
    ensures results.Some? && results.value != [] && UpDown(results.value).0 + UpDown(results.value).1 == 0 ==>
      r == MaBreadthResult(None, None, 0, 0, 0, false, NoPriceData)
    ensures r.isValid <==> results.Some? && UpDown(results.value).0 + UpDown(results.value).1 > 0
    ensures r.isValid ==>
      var (up, down) := UpDown(results.value);
      && r.message == IntradayProxy
      && r.stocksChecked == up + down && r.stocksAboveMa50 == up && r.stocksAboveMa200 == up
      && r.pctAboveMa50 == Some((up as real / (up + down) as real) * 100.0) && r.pctAboveMa200 == r.pctAboveMa50
      && 0.0 <= r.pctAboveMa50.value <= 100.0
  {
    if results.None? || |results.value| == 0 {
      return MaBreadthResult(None, None, 0, 0, 0, false, NoData);
    }
    var bars := results.value;
    var stocksUp, stocksDown := 0, 0;
    var i := 0;
    while i < |bars|
      invariant 0 <= i <= |bars|
      invariant UpDown(bars[..i]) == (stocksUp, stocksDown)
    {
      var ticker := bars[i];
      assert bars[..i + 1][..i] == bars[..i];
      var openPrice := if ticker.o.Some? then ticker.o.value else 0.0;
      var closePrice := if ticker.c.Some? then ticker.c.value else 0.0;
      if closePrice > openPrice {
        stocksUp := stocksUp + 1;
      } else if closePrice < openPrice {
        stocksDown := stocksDown + 1;
      }
      i := i + 1;
    }
    assert bars[..|bars|] == bars;
    var total := stocksUp + stocksDown;
    if total == 0 {
      return MaBreadthResult(None, None, 0, 0, 0, false, NoPriceData);
    }
    Percentage(stocksUp as real, total as real);
    var pctUp := (stocksUp as real / total as real) * 100.0;
    r := MaBreadthResult(Some(pctUp), Some(pctUp), total, stocksUp, stocksUp, true, IntradayProxy);
  }

  /**
   * On records that all carry volume, close and open, the proxy counts the
   * same risers and fallers as the grouped advance/decline breadth.
   */
  lemma {:induction false} ProxyMatchesGroupedBreadth(results: seq<Polygon.GroupedBar>)
    requires forall i :: 0 <= i < |results| ==> results[i].Complete()
    ensures UpDown(results) == (Polygon.TallyOf(results).nAdv, Polygon.TallyOf(results).nDec)
  {
    if results != [] {
      var k := |results| - 1;
      assert forall i :: 0 <= i < k ==> results[..k][i] == results[i];
      ProxyMatchesGroupedBreadth(results[..k]);
    }
  }

  /** Fed to SBC, the proxy's two equal percentages give back the share of risers as a fraction. */
  lemma ProxySbc(up: nat, down: nat)
    requires up + down > 0
    ensures var pct := (up as real / (up + down) as real) * 100.0;
      Sbc.Calculate(Some(pct), Some(pct)).value == Some(up as real / (up + down) as real)
  {
    var f := up as real / (up + down) as real;
    Percentage(up as real, (up + down) as real);
    assert ((f * 100.0 + f * 100.0) / 2.0) / 100.0 == f;
  }
}
