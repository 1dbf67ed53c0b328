/**
 * Normalisation arithmetic: the unclipped z-score, the strict and the
 * tie-aware percentile rank, and the trailing-window mean and standard
 * deviation.
 */
module Methods {
  import opened Wrappers
  import opened Numeric

  /**
   * `(value - mean) / std`, or 0.0 when there is no spread (`std` zero or
   * missing). Nothing is clipped.
   */
  function ZscoreNormalize(value: real, mean: real, std: Option<real>): (z: real)
    ensures std.None? || std.value == 0.0 ==> z == 0.0
    ensures std.Some? && std.value != 0.0 ==> z * std.value == value - mean
  {
    if std.None? || std.value == 0.0 then 0.0 else (value - mean) / std.value
  }

  /** No clipping: every z-score, however extreme, is reached by some value. */
  lemma ZscoreUnclipped(mean: real, std: real, target: real)
    requires std != 0.0
    ensures ZscoreNormalize(mean + target * std, mean, Some(std)) == target
  {
    var z := ZscoreNormalize(mean + target * std, mean, Some(std));
    MulDivCancel(target, std);
    assert target * std == std * target;
  }

  /** With positive spread, a larger value never gets a smaller z-score. */
  lemma ZscoreMonotone(v: real, w: real, mean: real, std: real)
    requires std > 0.0 && v <= w
    ensures ZscoreNormalize(v, mean, Some(std)) <= ZscoreNormalize(w, mean, Some(std))
  {
    DivMonotone(v - mean, w - mean, std);
  }

  /**
   * Percentage of the history strictly below `value`; 50.0 for an empty
   * history. Ties count as not below.
   */
  function PercentileRank(value: real, history: seq<real>): (p: real)
    ensures 0.0 <= p <= 100.0
    ensures history == [] ==> p == 50.0
    ensures history != [] ==> p * |history| as real == 100.0 * CountLess(history, value) as real
  {
    if history == [] then 50.0
    else
      var n := |history| as real;
      var c := CountLess(history, value) as real;
      Percentage(c, n);
      (c / n) * 100.0
  }

  /** For a fixed history the rank never falls as the value rises. */
  lemma PercentileRankMonotone(history: seq<real>, v: real, w: real)
    requires v <= w
    ensures PercentileRank(v, history) <= PercentileRank(w, history)
  {
    if history != [] {
      CountLessMonotone(history, v, w);
      var n := |history| as real;
      DivMonotone(CountLess(history, v) as real, CountLess(history, w) as real, n);
    }
  }

  /** Below the whole history the rank is 0; above it, 100. */
  lemma PercentileRankExtremes(history: seq<real>, value: real)
    requires history != []
    ensures (forall i :: 0 <= i < |history| ==> value <= history[i]) ==> PercentileRank(value, history) == 0.0
    ensures (forall i :: 0 <= i < |history| ==> history[i] < value) ==> PercentileRank(value, history) == 100.0
  {
    if forall i :: 0 <= i < |history| ==> value <= history[i] {
      CountLessNone(history, value);
    }
    if forall i :: 0 <= i < |history| ==> history[i] < value {
      CountLessAll(history, value);
    }
  }

  lemma {:induction false} CountLessNone(s: seq<real>, v: real)
    requires forall i :: 0 <= i < |s| ==> v <= s[i]
    ensures CountLess(s, v) == 0
  {
    if s != [] {
      CountLessNone(s[1..], v);
    }
  }

  lemma {:induction false} CountLessAll(s: seq<real>, v: real)
    requires forall i :: 0 <= i < |s| ==> s[i] < v
    ensures CountLess(s, v) == |s|
  {
    if s != [] {
      CountLessAll(s[1..], v);
    }
  }

  /** The elements strictly below `value` plus half of those equal to it. */
  function MidRank(history: seq<real>, value: real): (r: real)
    ensures CountLess(history, value) as real <= r <= (CountLess(history, value) + CountEqual(history, value)) as real
    ensures r <= |history| as real
  {
    CountsPartition(history, value);
    CountLess(history, value) as real + CountEqual(history, value) as real / 2.0
  }

  /**
   * Midpoint rank: elements equal to `value` count half. 50.0 for an
   * empty history.
   */
  function PercentileRankWithTies(value: real, history: seq<real>): (p: real)
    ensures 0.0 <= p <= 100.0
    ensures history == [] ==> p == 50.0
    ensures history != [] ==> p * |history| as real == 100.0 * MidRank(history, value)
  {
    if history == [] then 50.0
    else
      var n := |history| as real;
      var rank := MidRank(history, value);
      Percentage(rank, n);
      (rank / n) * 100.0
  }

  /** Counting ties as half can only raise the rank, and changes nothing when the value does not occur. */
  lemma TiesRankAtLeastStrict(value: real, history: seq<real>)
    ensures PercentileRank(value, history) <= PercentileRankWithTies(value, history)
    ensures value !in history ==> PercentileRankWithTies(value, history) == PercentileRank(value, history)
  {
    if history != [] {
      var n := |history| as real;
      var c := CountLess(history, value) as real;
      DivMonotone(c, MidRank(history, value), n);
      if value !in history {
        CountEqualAbsent(history, value);
      }
    }
  }

  /** Python's `s[-k:]`: the last `k` elements, but all of `s` for `k == 0` and a suffix after `-k` for negative `k`. */
  function PyTail(s: seq<real>, k: int): (r: seq<real>)
    ensures 0 < k <= |s| ==> |r| == k && r == s[|s| - k..]
    ensures k == 0 ==> r == s
  {
    if k > 0 then (if k <= |s| then s[|s| - k..] else s)
    else if -k <= |s| then s[-k..] else []
  }

  /** numpy would produce NaN for an empty slice; the model excludes that case. */
  ghost predicate TailNonEmpty(values: seq<real>, window: int)
  {
    |values| < window || |PyTail(values, window)| > 0
  }

  /** Mean of the last `window` values, or None when there are fewer than `window`. */
  function RollingMean(values: seq<real>, window: int): (r: Option<real>)
    requires TailNonEmpty(values, window)
    ensures r.None? <==> |values| < window
    ensures r.Some? && window > 0 ==> r.value == Mean(values[|values| - window..])
  {
    if |values| < window then None else Some(Mean(PyTail(values, window)))
  }

  /** The mean of a constant window is that constant. */
  lemma RollingMeanOfConstant(values: seq<real>, window: int, c: real)
    requires 0 < window <= |values|
    requires forall i :: 0 <= i < |values| ==> values[i] == c
    ensures RollingMean(values, window) == Some(c)
  {
    var t := values[|values| - window..];
    assert forall i :: 0 <= i < |t| ==> t[i] == c;
    MeanOfConstant(t, c);
    assert PyTail(values, window) == t;
  }

  /** Standard deviation (`ddof` degrees of freedom removed) of the last `window` values, or None when there are fewer. */
  function RollingStd(math: Maths, values: seq<real>, window: int, ddof: nat): (r: Option<real>)
    requires |values| < window || |PyTail(values, window)| > ddof
    requires math.Valid()
    ensures r.None? <==> |values| < window
    ensures r.Some? ==> r.value >= 0.0
  {
    if |values| < window then None
    else
      var recent := PyTail(values, window);
      VarianceNonNegative(recent, ddof);
      Some(Std(math, recent, ddof))
  }
}
