/**
 * The pure helpers of the FMP client: approximate advance/decline breadth
 * from the gainers, losers and most-active lists, and breadth from a
 * screener universe. Fetching the lists is not modelled.
 */
module Fmp {
  import opened Wrappers
  import opened Types
  import Polygon

  /** The entries of one FMP stock record the breadth helpers read; an absent key is None. */
  datatype FmpStock = FmpStock(volume: Option<real>, change: Option<real>, changesPercentage: Option<real>)

  /** `stock.get(key, 0) or 0`: an absent entry reads as zero. */
  function OrZero(x: Option<real>): (r: real)
    ensures x.Some? ==> r == x.value
    ensures x.None? ==> r == 0.0
  {
    if x.Some? then x.value else 0.0
  }

  /** `change or changesPercentage or 0`: the first entry that is present and nonzero, else zero. */
  function Direction(s: FmpStock): (d: real)
    ensures s.change.Some? && s.change.value != 0.0 ==> d == s.change.value
    ensures (s.change.None? || s.change.value == 0.0) ==> d == OrZero(s.changesPercentage)
  {
    if s.change.Some? && s.change.value != 0.0 then s.change.value
    else OrZero(s.changesPercentage)
  }

  /** A total kept only when positive. */
  function PositiveOrNone(x: real): (r: Option<real>)
    ensures r.Some? <==> x > 0.0
    ensures r.Some? ==> r.value == x
  {
    if x > 0.0 then Some(x) else None
  }

  /** A count kept only when positive. */
  function PositiveCountOrNone(n: int): (r: Option<int>)
    ensures r.Some? <==> n > 0
    ensures r.Some? ==> r.value == n
  {
    if n > 0 then Some(n) else None
  }

  /** The volume of the most-active stocks, split by the sign of their percentage change. */
  function ActiveVolumes(actives: seq<FmpStock>): (t: (real, real))
  {
    if actives == [] then (0.0, 0.0)
    else
      var (up, down) := ActiveVolumes(actives[..|actives| - 1]);
      var s := actives[|actives| - 1];
      var change := OrZero(s.changesPercentage);
      if change > 0.0 then (up + OrZero(s.volume), down)
      else if change < 0.0 then (up, down + OrZero(s.volume))
      else (up, down)
  }

  /**
   * Screener breadth: the counts are the lengths of the gainers and losers
   * lists, the volumes those of the most-active stocks by direction; each
   * field is absent unless positive.
   */
  method CalculateBreadthFromScreener(gainers: seq<FmpStock>, losers: seq<FmpStock>, actives: seq<FmpStock>)
    returns (r: BreadthData)
    ensures r.nAdv == PositiveCountOrNone(|gainers|) && r.nDec == PositiveCountOrNone(|losers|)
    ensures r.vAdv == PositiveOrNone(ActiveVolumes(actives).0) && r.vDec == PositiveOrNone(ActiveVolumes(actives).1)
  {
    var vAdv, vDec := 0.0, 0.0;
    var i := 0;
    while i < |actives|
      invariant 0 <= i <= |actives|
      invariant ActiveVolumes(actives[..i]) == (vAdv, vDec)
    {
      var stock := actives[i];
      assert actives[..i + 1][..i] == actives[..i];
      var volume := if stock.volume.Some? then stock.volume.value else 0.0;
      var change := if stock.changesPercentage.Some? then stock.changesPercentage.value else 0.0;
      if change > 0.0 {
        vAdv := vAdv + volume;
      } else if change < 0.0 {
        vDec := vDec + volume;
      }
      i := i + 1;
    }
    assert actives[..|actives|] == actives;
    r := BreadthData(PositiveOrNone(vAdv), PositiveOrNone(vDec), PositiveCountOrNone(|gainers|), PositiveCountOrNone(|losers|));
  }

  /** One stock's contribution to universe breadth: counted by the sign of its direction, skipped at zero. */
  function UniverseStep(t: Polygon.Tally, s: FmpStock): Polygon.Tally
  {
    var change := Direction(s);
    if change > 0.0 then Polygon.Tally(t.vAdv + OrZero(s.volume), t.vDec, t.nAdv + 1, t.nDec)
    else if change < 0.0 then Polygon.Tally(t.vAdv, t.vDec + OrZero(s.volume), t.nAdv, t.nDec + 1)
    else t
  }

  /** The tally of a screener universe, taken in order. */
  function UniverseTally(stocks: seq<FmpStock>): (t: Polygon.Tally)
    ensures t.nAdv + t.nDec <= |stocks|
  {
    if stocks == [] then Polygon.Tally(0.0, 0.0, 0, 0)
    else UniverseStep(UniverseTally(stocks[..|stocks| - 1]), stocks[|stocks| - 1])
  }

  /** Universe breadth: the tally by direction, each field absent unless positive. */
  method CalculateBreadthFromUniverse(stocks: seq<FmpStock>) returns (r: BreadthData)
    ensures var t := UniverseTally(stocks);
      r == BreadthData(PositiveOrNone(t.vAdv), PositiveOrNone(t.vDec), PositiveCountOrNone(t.nAdv), PositiveCountOrNone(t.nDec))
  {
    var vAdv, vDec, nAdv, nDec := 0.0, 0.0, 0, 0;
    var i := 0;
    while i < |stocks|
      invariant 0 <= i <= |stocks|
      invariant UniverseTally(stocks[..i]) == Polygon.Tally(vAdv, vDec, nAdv, nDec)
    {
      var stock := stocks[i];
      assert stocks[..i + 1][..i] == stocks[..i];
      var volume := if stock.volume.Some? then stock.volume.value else 0.0;
      var change := if stock.change.Some? && stock.change.value != 0.0 then stock.change.value
                    else if stock.changesPercentage.Some? then stock.changesPercentage.value
                    else 0.0;
      assert change == Direction(stock);
      if change == 0.0 {
        i := i + 1;
        continue;
      }
      if change > 0.0 {
        vAdv := vAdv + volume;
        nAdv := nAdv + 1;
      } else if change < 0.0 {
        vDec := vDec + volume;
        nDec := nDec + 1;
      }
      i := i + 1;
    }
    assert stocks[..|stocks|] == stocks;
    r := BreadthData(PositiveOrNone(vAdv), PositiveOrNone(vDec), PositiveCountOrNone(nAdv), PositiveCountOrNone(nDec));
  }

  /** With no negative volumes, a side with no stocks has no volume. */
  lemma {:induction false} UniverseVolumeNeedsCount(stocks: seq<FmpStock>)
    requires forall i :: 0 <= i < |stocks| ==> OrZero(stocks[i].volume) >= 0.0
    ensures var t := UniverseTally(stocks);
      && t.vAdv >= 0.0 && t.vDec >= 0.0
      && (t.nAdv == 0 ==> t.vAdv == 0.0) && (t.nDec == 0 ==> t.vDec == 0.0)
  {
    if stocks != [] {
      var k := |stocks| - 1;
      assert forall i :: 0 <= i < k ==> stocks[..k][i] == stocks[i];
      UniverseVolumeNeedsCount(stocks[..k]);
    }
  }

  /** So, with no negative volumes, a present volume comes with a present count on the same side. */
  lemma UniverseVolumeImpliesCount(stocks: seq<FmpStock>)
    requires forall i :: 0 <= i < |stocks| ==> OrZero(stocks[i].volume) >= 0.0
    ensures var t := UniverseTally(stocks);
      && (PositiveOrNone(t.vAdv).Some? ==> PositiveCountOrNone(t.nAdv).Some?)
      && (PositiveOrNone(t.vDec).Some? ==> PositiveCountOrNone(t.nDec).Some?)
  {
    UniverseVolumeNeedsCount(stocks);
  }

  /** A stock whose change and percentage change are both absent or zero is skipped. */
  lemma UniverseSkipsFlat(stocks: seq<FmpStock>, s: FmpStock)
    requires Direction(s) == 0.0
    ensures UniverseTally(stocks + [s]) == UniverseTally(stocks)
  {
    assert (stocks + [s])[..|stocks|] == stocks;
  }
}
