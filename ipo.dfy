/**
 * Institutional Participation Overlay: the fraction of stocks whose
 * relative volume is unusual, by a dual filter that demands both more
 * than the stock's own threshold and more than the universe median.
 */
module Ipo {
  import opened Wrappers
  import opened Numeric
  import opened Sorting
  import opened Readings

  /** What the result reports besides its value. */
  datatype Message = NoMessage | MissingData | LengthMismatch | Simplified

  datatype IpoResult = IpoResult(
    value: Option<real>,
    spikeCount: nat,
    totalStocks: nat,
    universeMedian: Option<real>,
    isValid: bool,
    message: Message)

  /** The threshold a stock gets when no per-stock thresholds are supplied. */
  const DEFAULT_THRESHOLD: real := 2.0

  /** `[x] * n`. */
  function Uniform(x: real, n: nat): (r: seq<real>)
    ensures |r| == n
    ensures forall i :: 0 <= i < n ==> r[i] == x
  {
    if n == 0 then [] else Uniform(x, n - 1) + [x]
  }

  /** Does one stock pass the dual filter? */
  predicate Spike(relVol: real, threshold: real, median: real)
  {
    relVol > threshold && relVol > median
  }

  /** The number of positions whose value passes the dual filter against its own threshold. */
  function Spikes(values: seq<real>, thresholds: seq<real>, median: real): (c: nat)
    requires |values| == |thresholds|
    ensures c <= |values|
  {
    if values == [] then 0
    else
      var k := |values| - 1;
      Spikes(values[..k], thresholds[..k], median) + (if Spike(values[k], thresholds[k], median) then 1 else 0)
  }

  /**
   * The dual-filter fraction. No values (absent or empty) and thresholds
   * of the wrong length are errors; absent thresholds default to 2.0 for
   * every stock and an absent median is computed from the values.
   */
  method Calculate(values: Option<seq<real>>, thresholds: Option<seq<real>>, universeMedian: Option<real>)
    returns (r: IpoResult)
    ensures values.None? || values.value == [] ==> r == IpoResult(None, 0, 0, None, false, MissingData)
    ensures values.Some? && values.value != [] ==>
      var n := |values.value|;
      var ths := if thresholds.Some? then thresholds.value else Uniform(DEFAULT_THRESHOLD, n);
      && (|ths| != n ==> r == IpoResult(None, 0, n, universeMedian, false, LengthMismatch))
      && (|ths| == n ==>
            var m := if universeMedian.Some? then universeMedian.value else Median(values.value);
            && r.isValid && r.message == NoMessage && r.totalStocks == n
            && r.universeMedian == Some(m)
            && r.spikeCount == Spikes(values.value, ths, m)
            && r.value == Some(r.spikeCount as real / n as real)
            && 0.0 <= r.value.value <= 1.0)
  {
    if values.None? || |values.value| == 0 {
      return IpoResult(None, 0, 0, None, false, MissingData);
    }
    var vs := values.value;
    var n := |vs|;
    var ths := if thresholds.Some? then thresholds.value else Uniform(DEFAULT_THRESHOLD, n);
    if |ths| != n {
      return IpoResult(None, 0, n, universeMedian, false, LengthMismatch);
    }
    var m := if universeMedian.Some? then universeMedian.value else Median(vs);
    var count := CountSpikes(vs, ths, m);
    var ipo := count as real / n as real;
    DivFraction(count as real, n as real);
    r := IpoResult(Some(ipo), count, n, Some(m), true, NoMessage);
  }

  /** The loop over the stocks that counts the dual-filter spikes. */
  method CountSpikes(vs: seq<real>, ths: seq<real>, m: real) returns (count: nat)
    requires |vs| == |ths|
    ensures count == Spikes(vs, ths, m)
  {
    var n := |vs|;
    count := 0;
    var i := 0;
    while i < n
      invariant 0 <= i <= n
      invariant count == Spikes(vs[..i], ths[..i], m)
    {
      if vs[i] > ths[i] && vs[i] > m {
        count := count + 1;
      }
      assert vs[..i + 1][..i] == vs[..i] && ths[..i + 1][..i] == ths[..i];
      i := i + 1;
    }
    assert vs[..n] == vs && ths[..n] == ths;
  }

  /** `sum(1 for v in values if v > threshold and v > median)`. */
  function CountAboveBoth(values: seq<real>, threshold: real, median: real): (c: nat)
    ensures c <= |values|
  {
    if values == [] then 0
    else (if Spike(values[0], threshold, median) then 1 else 0) + CountAboveBoth(values[1..], threshold, median)
  }

  /** Counting from the back gives the same number. */
  lemma {:induction false} CountAboveBothSnoc(values: seq<real>, threshold: real, median: real)
    requires values != []
    ensures var k := |values| - 1;
      CountAboveBoth(values, threshold, median)
        == CountAboveBoth(values[..k], threshold, median) + (if Spike(values[k], threshold, median) then 1 else 0)
  {
    var k := |values| - 1;
    if k > 0 {
      CountAboveBothSnoc(values[1..], threshold, median);
      assert values[1..][..k - 1] == values[..k][1..];
    }
  }

  /** The fixed-threshold count is the dual filter with every stock given that threshold. */
  lemma {:induction false} CountAboveBothIsSpikes(values: seq<real>, threshold: real, median: real)
    ensures CountAboveBoth(values, threshold, median) == Spikes(values, Uniform(threshold, |values|), median)
  {
    if values != [] {
      var k := |values| - 1;
      CountAboveBothSnoc(values, threshold, median);
      CountAboveBothIsSpikes(values[..k], threshold, median);
      assert Uniform(threshold, |values|)[..k] == Uniform(threshold, k);
    }
  }

  /** Passing the dual filter implies lying strictly above the median. */
  lemma {:induction false} CountAboveBothBelowCountGreater(values: seq<real>, threshold: real, median: real)
    ensures CountAboveBoth(values, threshold, median) <= CountGreater(values, median)
  {
    if values != [] {
      CountAboveBothBelowCountGreater(values[1..], threshold, median);
    }
  }

  /** The fixed-threshold count against the computed median is a dual-filter count of at most half the stocks. */
  lemma SimpleCount(vs: seq<real>, threshold: real)
    requires vs != []
    ensures CountAboveBoth(vs, threshold, Median(vs)) == Spikes(vs, Uniform(threshold, |vs|), Median(vs))
    ensures 2 * CountAboveBoth(vs, threshold, Median(vs)) <= |vs|
  {
    var m := Median(vs);
    CountAboveBothIsSpikes(vs, threshold, m);
    CountAboveBothBelowCountGreater(vs, threshold, m);
    MedianCountAbove(vs);
  }

  /** The fixed-threshold fraction of a nonempty list against a given median. */
  function FixedThresholdResult(vs: seq<real>, threshold: real, median: real): (r: IpoResult)
    requires vs != []
    ensures r.isValid && r.message == Simplified && r.totalStocks == |vs| && r.universeMedian == Some(median)
    ensures r.spikeCount == CountAboveBoth(vs, threshold, median)
    ensures r.value.Some? && r.value.value * |vs| as real == r.spikeCount as real
    ensures 0.0 <= r.value.value <= 1.0
  {
    var count := CountAboveBoth(vs, threshold, median);
    var ipo := count as real / |vs| as real;
    assert 0.0 <= ipo <= 1.0 by { DivFraction(count as real, |vs| as real); }
    IpoResult(Some(ipo), count, |vs|, Some(median), true, Simplified)
  }

  /**
   * The fallback with one fixed threshold for every stock and the median
   * computed from the values. Since a spike must lie strictly above that
   * median, at most half of the stocks (rounded down) can spike.
   */
  function CalculateSimple(values: Option<seq<real>>, threshold: real): (r: IpoResult)
    ensures values.None? || values.value == [] ==> r == IpoResult(None, 0, 0, None, false, MissingData)
    ensures values.Some? && values.value != [] ==>
      var n := |values.value|;
      && r.isValid && r.message == Simplified && r.totalStocks == n
      && r.universeMedian == Some(Median(values.value))
      && r.spikeCount == Spikes(values.value, Uniform(threshold, n), Median(values.value))
      && 2 * r.spikeCount <= n
      && r.value == Some(r.spikeCount as real / n as real)
      && 0.0 <= r.value.value <= 1.0
  {
    if values.None? || values.value == [] then
      IpoResult(None, 0, 0, None, false, MissingData)
    else
      SimpleCount(values.value, threshold);
      FixedThresholdResult(values.value, threshold, Median(values.value))
  }

  /** The dual filter on the five-stock sample counts two; either test alone failing blocks a spike. */
  lemma DualFilterSamples()
    ensures Spikes([3.0, 1.5, 2.5, 0.8, 1.2], [2.0, 2.0, 2.0, 2.0, 2.0], 1.5) == 2
    ensures Spikes([2.5], [2.0], 3.0) == 0
    ensures Spikes([1.8], [2.0], 1.5) == 0
  {
    var vs, ts := [3.0, 1.5, 2.5, 0.8, 1.2], [2.0, 2.0, 2.0, 2.0, 2.0];
    assert vs[..4][..3] == vs[..3] && ts[..4][..3] == ts[..3];
    assert vs[..3][..2] == vs[..2] && ts[..3][..2] == ts[..2];
    assert vs[..2][..1] == vs[..1] && ts[..2][..1] == ts[..1];
    assert Spikes(vs[..1], ts[..1], 1.5) == 1;
    assert Spikes(vs[..2], ts[..2], 1.5) == 1;
    assert Spikes(vs[..3], ts[..3], 1.5) == 2;
    assert Spikes(vs[..4], ts[..4], 1.5) == 2;
  }

  /** As at most half of the stocks can spike, the fallback's fraction is at most one half. */
  lemma SimpleAtMostHalf(values: Option<seq<real>>, threshold: real)
    ensures CalculateSimple(values, threshold).value.Some? ==> CalculateSimple(values, threshold).value.value <= 0.5
  {
    var r := CalculateSimple(values, threshold);
    if r.value.Some? {
      HalfBound(r.spikeCount as real, |values.value| as real);
    }
  }

  lemma HalfBound(c: real, n: real)
    requires n > 0.0 && 2.0 * c <= n
    ensures c / n <= 0.5
  {
    var q := c / n;
    assert q * n == c;
    ScaleStrict(q, 0.5, n);
  }

  /** A list that never exceeds the threshold has no spikes, whatever the median. */
  lemma {:induction false} CountAboveBothQuiet(values: seq<real>, threshold: real, median: real)
    requires forall i :: 0 <= i < |values| ==> values[i] <= threshold
    ensures CountAboveBoth(values, threshold, median) == 0
  {
    if values != [] {
      CountAboveBothQuiet(values[1..], threshold, median);
    }
  }

  /** Relative volumes all below 2.0 give no spikes and a zero fraction, whatever the median. */
  lemma QuietDaySample(median: real)
    ensures FixedThresholdResult([0.5, 0.6, 0.7, 0.8, 0.9], 2.0, median).spikeCount == 0
    ensures FixedThresholdResult([0.5, 0.6, 0.7, 0.8, 0.9], 2.0, median).value == Some(0.0)
  {
    CountAboveBothQuiet([0.5, 0.6, 0.7, 0.8, 0.9], 2.0, median);
  }

  /** [6, 5.5, 5, 4.5, 4] against its median 5: only 6 and 5.5 spike: 2 of 5, a fraction of 0.4. */
  lemma HighSpikeSample()
    ensures FixedThresholdResult([6.0, 5.5, 5.0, 4.5, 4.0], 2.0, 5.0).spikeCount == 2
    ensures FixedThresholdResult([6.0, 5.5, 5.0, 4.5, 4.0], 2.0, 5.0).value == Some(0.4)
  {
    var vs := [6.0, 5.5, 5.0, 4.5, 4.0];
    assert vs[1..][1..] == [5.0, 4.5, 4.0];
    CountAboveBothQuiet([5.0, 4.5, 4.0], 5.0, 2.0);
  }

  /** The reading of `ipo` as a percentage: above 20, 10, 5, 2, or below. */
  function Interpret(ipo: real): (g: Grade)
    ensures g == VeryStrong <==> ipo * 100.0 > 20.0
    ensures g == Strong <==> 10.0 < ipo * 100.0 <= 20.0
    ensures g == Balanced <==> 5.0 < ipo * 100.0 <= 10.0
    ensures g == Weak <==> 2.0 < ipo * 100.0 <= 5.0
    ensures g == VeryWeak <==> ipo * 100.0 <= 2.0
  {
    GradeOf(ipo * 100.0, 20.0, 10.0, 5.0, 2.0)
  }

  /** More spiking stocks never read weaker. */
  lemma InterpretMonotone(x: real, y: real)
    requires x <= y
    ensures Interpret(x).Rank() <= Interpret(y).Rank()
  {
    GradeMonotone(x * 100.0, y * 100.0, 20.0, 10.0, 5.0, 2.0);
  }

  /** Today's volume over the average volume, undefined for a non-positive average. */
  function RelativeVolume(currentVolume: real, avgVolume: real): (r: Option<real>)
    ensures r.None? <==> avgVolume <= 0.0
    ensures r.Some? ==> r.value * avgVolume == currentVolume
  {
    if avgVolume <= 0.0 then None else Some(currentVolume / avgVolume)
  }
}
