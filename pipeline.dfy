/**
 * The normalisation pipeline: it z-scores today's features against their
 * rolling baselines (excluding, never imputing, those without one), feeds
 * the day into the baselines afterwards, and turns the raw composite into
 * the inverted 0..100 score through the composite history.
 */
module Pipeline {
  import opened Wrappers
  import opened Numeric
  import opened Seqs
  import opened Constants
  import opened Types
  import opened Methods
  import opened Rolling

  /** The record key under which a stored day keeps its raw composite. */
  const RAW_COMPOSITE: string := "raw_composite"

  /** Below this many stored composites the score falls back to a fixed sigmoid. */
  const MIN_COMPOSITE_HISTORY: nat := 10

  /** Every record that has a raw composite holds a number there. */
  predicate CompositesPresent(records: seq<HistoryRecord>)
  {
    forall i | 0 <= i < |records| :: RAW_COMPOSITE in records[i].values ==> records[i].values[RAW_COMPOSITE].Some?
  }

  /** The raw composites the records carry, in order, whether or not a record has a date. */
  function StoredComposites(records: seq<HistoryRecord>): (r: seq<real>)
    requires CompositesPresent(records)
    ensures |r| <= |records|
    ensures (forall i | 0 <= i < |records| :: RAW_COMPOSITE !in records[i].values) ==> r == []
  {
    if records == [] then []
    else
      var last := records[|records| - 1];
      StoredComposites(records[..|records| - 1])
        + (if RAW_COMPOSITE in last.values then [last.values[RAW_COMPOSITE].value] else [])
  }

  /** COMPLETE with nothing excluded, INSUFFICIENT with nothing scored, PARTIAL otherwise. */
  function StatusOf(excluded: seq<string>, zScores: map<string, real>): (status: BaselineStatus)
    ensures status == Complete <==> excluded == []
    ensures status == Partial <==> excluded != [] && zScores.Keys != {}
    ensures status == Insufficient <==> excluded != [] && zScores.Keys == {}
  {
    assert |zScores| == |zScores.Keys|;
    if |excluded| == 0 then Complete
    else if |zScores| > 0 then Partial
    else Insufficient
  }

  /** The loop of `load_from_records` that gathers the records' raw composites, in order. */
  method CollectComposites(records: seq<HistoryRecord>) returns (composites: seq<real>)
    requires CompositesPresent(records)
    ensures composites == StoredComposites(records)
  {
    composites := [];
    var i := 0;
    while i < |records|
      invariant 0 <= i <= |records|
      invariant composites == StoredComposites(records[..i])
    {
      var record := records[i];
      assert records[..i + 1][..i] == records[..i];
      if RAW_COMPOSITE in record.values {
        composites := composites + [record.values[RAW_COMPOSITE].value];
      }
      i := i + 1;
    }
    assert records[..i] == records;
  }

  /** Today's non-None feature values, keyed by feature name: what is fed into the baselines. */
  function Forwarded(features: FeatureSet): (m: map<string, Option<real>>)
    ensures forall n :: Supplies(m, n) <==> n in FEATURE_NAMES && features.Value(n).Some?
    ensures forall n | n in m :: m[n] == features.Value(n)
  {
    map n | n in FEATURE_NAMES && features.Value(n).Some? :: features.Value(n)
  }

  /** The score without enough history: 100 minus the sigmoid (midpoint 0, steepness 0.5) in percent. */
  function SparseScore(math: Maths, composite: real): (s: real)
    requires math.Valid()
    ensures 0.0 < s < 100.0
  {
    100.0 - Sigmoid(math, composite, 0.0, 0.5) * 100.0
  }

  /** A rank at or below 1 is moved into [1, 25], any other into [75, 99], as close to `sigmoidPct` as that allows. */
  function ClampTail(pct: real, sigmoidPct: real): (r: real)
    ensures pct <= 1.0 ==> 1.0 <= r <= 25.0
    ensures pct > 1.0 ==> 75.0 <= r <= 99.0
    ensures pct <= 1.0 && 1.0 <= sigmoidPct <= 25.0 ==> r == sigmoidPct
    ensures pct > 1.0 && 75.0 <= sigmoidPct <= 99.0 ==> r == sigmoidPct
  {
    if pct <= 1.0 then
      var lowered := if sigmoidPct < 25.0 then sigmoidPct else 25.0;
      if lowered < 1.0 then 1.0 else lowered
    else
      var raised := if sigmoidPct > 75.0 then sigmoidPct else 75.0;
      if raised > 99.0 then 99.0 else raised
  }

  /**
   * The inverted score of `composite` against `history`: 100 minus its
   * percentile rank, with the rank pulled off 0 and 100 by a sigmoid
   * over the history's mean and population spread when it sits in a
   * tail, and a fixed sigmoid when the history is too short.
   */
  function InvertedScore(math: Maths, history: seq<real>, composite: real): (score: real)
    requires math.Valid()
    ensures 0.0 <= score <= 100.0
    ensures |history| < MIN_COMPOSITE_HISTORY ==> 0.0 < score < 100.0
    ensures |history| >= MIN_COMPOSITE_HISTORY && 1.0 < PercentileRank(composite, history) < 99.0 ==>
      score == 100.0 - PercentileRank(composite, history)
    ensures |history| >= MIN_COMPOSITE_HISTORY && PercentileRank(composite, history) <= 1.0 ==> 75.0 <= score
    ensures |history| >= MIN_COMPOSITE_HISTORY && PercentileRank(composite, history) >= 99.0 ==> score <= 25.0
    ensures (|history| >= MIN_COMPOSITE_HISTORY && PercentileRank(composite, history) <= 1.0
             && Std(math, history, 0) > 0.0) ==> 75.0 <= score <= 99.0
    ensures (|history| >= MIN_COMPOSITE_HISTORY && PercentileRank(composite, history) >= 99.0
             && Std(math, history, 0) > 0.0) ==> 1.0 <= score <= 25.0
  {
    if |history| < MIN_COMPOSITE_HISTORY then SparseScore(math, composite)
    else
      var pct := PercentileRank(composite, history);
      if pct <= 1.0 || pct >= 99.0 then
        var spread := Std(math, history, 0);
        if spread > 0.0 then
          var sigmoidPct := Sigmoid(math, composite, Mean(history), 1.0 / spread) * 100.0;
          100.0 - ClampTail(pct, sigmoidPct)
        else 100.0 - pct
      else 100.0 - pct
  }

  /** A lower score never comes from a lower composite, for a long enough history and a rank off the tails. */
  lemma InvertedScoreAntitone(math: Maths, history: seq<real>, c: real, d: real)
    requires math.Valid()
    requires |history| >= MIN_COMPOSITE_HISTORY && c <= d
    requires 1.0 < PercentileRank(c, history) < 99.0 && 1.0 < PercentileRank(d, history) < 99.0
    ensures InvertedScore(math, history, d) <= InvertedScore(math, history, c)
  {
    PercentileRankMonotone(history, c, d);
  }

  /** The rolling baselines of the four features and the composite history. */
  class NormalizationPipeline {
    const window: nat
    const minObservations: nat
    const calculator: MultiFeatureRollingCalculator
    var compositeHistory: seq<real>

    /** The calculator tracks exactly the four features, with the pipeline's window and threshold. */
    ghost predicate Valid()
      reads calculator, calculator.Repr
    {
      && calculator.Valid()
      && this !in calculator.Repr
      && calculator.window == window
      && calculator.minObservations == minObservations
      && calculator.names == FEATURE_NAMES
    }

    constructor (window: nat, minObservations: nat)
      requires 2 <= minObservations
      ensures Valid()
      ensures this.window == window && this.minObservations == minObservations
      ensures compositeHistory == []
      ensures forall n | n in calculator.stats :: calculator.stats[n].values == [] && calculator.stats[n].dates == []
      ensures fresh(calculator) && fresh(calculator.Repr)
    {
      this.window := window;
      this.minObservations := minObservations;
      FeatureNamesAreWeightKeys();
      calculator := new MultiFeatureRollingCalculator(FEATURE_NAMES, window, minObservations);
      compositeHistory := [];
    }

    /** Feature `name` gets no z-score today: it has no value, or its baseline is not ready. */
    ghost predicate IsExcluded(features: FeatureSet, name: string)
      reads calculator, calculator.Repr
      requires Valid()
    {
      features.Value(name).None? || name !in calculator.stats || !calculator.stats[name].IsReady()
    }

    /** The unclipped z-score of a feature that is not excluded: 0.0 when its window has no spread. */
    ghost function ZscoreOf(math: Maths, features: FeatureSet, name: string): (z: real)
      reads calculator, calculator.Repr
      requires Valid() && math.Valid() && !IsExcluded(features, name)
      ensures var stats := calculator.stats[name];
        && (stats.Std(math).value == 0.0 ==> z == 0.0)
        && (stats.Std(math).value != 0.0 ==> z * stats.Std(math).value == features.Value(name).value - stats.Mean().value)
    {
      ZscoreNormalize(features.Value(name).value, calculator.stats[name].Mean().value, calculator.stats[name].Std(math))
    }

    /**
     * The z-scores and the excluded names, in order, that scoring the
     * names `ns` one after the other produces.
     */
    ghost function Normalized(math: Maths, features: FeatureSet, ns: seq<string>): (r: (map<string, real>, seq<string>))
      reads calculator, calculator.Repr
      requires Valid() && math.Valid()
      ensures |r.1| <= |ns|
    {
      if ns == [] then (map[], [])
      else
        var init := Normalized(math, features, ns[..|ns| - 1]);
        var n := ns[|ns| - 1];
        if IsExcluded(features, n) then (init.0, init.1 + [n])
        else (init.0[n := ZscoreOf(math, features, n)], init.1)
    }

    /** Scoring one more name extends the previous result by that name alone. */
    lemma NormalizedNext(math: Maths, features: FeatureSet, ns: seq<string>, i: nat)
      requires Valid() && math.Valid() && i < |ns|
      ensures var init := Normalized(math, features, ns[..i]);
        Normalized(math, features, ns[..i + 1])
          == if IsExcluded(features, ns[i]) then (init.0, init.1 + [ns[i]])
             else (init.0[ns[i] := ZscoreOf(math, features, ns[i])], init.1)
    {
      assert ns[..i + 1][..i] == ns[..i];
    }

    /** Every name of `ns` is either z-scored, with its unclipped z-score, or excluded, never both. */
    lemma {:induction false} NormalizedPartition(math: Maths, features: FeatureSet, ns: seq<string>)
      requires Valid() && math.Valid()
      ensures var r := Normalized(math, features, ns);
        && (forall n :: n in r.1 <==> n in ns && IsExcluded(features, n))
        && (forall n :: n in r.0 <==> n in ns && !IsExcluded(features, n))
        && (forall n | n in r.0 :: r.0[n] == ZscoreOf(math, features, n))
    {
      if ns != [] {
        var init := ns[..|ns| - 1];
        NormalizedPartition(math, features, init);
        assert forall m :: m in ns <==> m in init || m == ns[|ns| - 1];
      }
    }

    /**
     * Z-scores every feature that has a value and a ready baseline, with
     * nothing clipped, and lists the others as excluded, in the order
     * VPB, IPB, SBC, IPO. The status is COMPLETE with nothing excluded,
     * INSUFFICIENT with nothing scored and PARTIAL otherwise. Nothing
     * changes: neither the baselines nor the composite history.
     */
    method Normalize(math: Maths, features: FeatureSet) returns (zScores: map<string, real>, excluded: seq<string>, status: BaselineStatus)
      requires Valid() && math.Valid()
      ensures (zScores, excluded) == Normalized(math, features, FEATURE_NAMES)
      ensures status == StatusOf(excluded, zScores)
    {
      zScores, excluded := NormalizeNames(math, features, FEATURE_NAMES);
      status := StatusOf(excluded, zScores);
    }

    /** The loop of Normalize, over the names `ns` in order. */
    method NormalizeNames(math: Maths, features: FeatureSet, ns: seq<string>) returns (zScores: map<string, real>, excluded: seq<string>)
      requires Valid() && math.Valid()
      ensures (zScores, excluded) == Normalized(math, features, ns)
    {
      zScores := map[];
      excluded := [];
      var i := 0;
      while i < |ns|
        invariant 0 <= i <= |ns|
        invariant (zScores, excluded) == Normalized(math, features, ns[..i])
      {
        var name := ns[i];
        NormalizedNext(math, features, ns, i);
        var z := NormalizeFeature(math, features, name);
        if z.None? {
          excluded := excluded + [name];
        } else {
          zScores := zScores[name := z.value];
        }
        i := i + 1;
      }
      assert ns[..i] == ns;
    }

    /** One step of Normalize: the z-score of `name`, or None when it is excluded. */
    method NormalizeFeature(math: Maths, features: FeatureSet, name: string) returns (z: Option<real>)
      requires Valid() && math.Valid()
      ensures z.None? <==> IsExcluded(features, name)
      ensures z.Some? ==> z.value == ZscoreOf(math, features, name)
    {
      var value := features.Value(name);
      if value.None? {
        return None;
      }
      var stats := calculator.GetStats(name);
      if stats.None? || !stats.value.IsReady() {
        return None;
      }
      z := Some(ZscoreNormalize(value.value, stats.value.Mean().value, stats.value.Std(math)));
    }

    /** Feeds today's non-None feature values, and the trade date, into the baselines. */
    method AddObservation(features: FeatureSet)
      requires Valid()
      modifies calculator.Repr
      ensures Valid()
      ensures calculator.Windows() == ObserveValues(old(calculator.Windows()), Forwarded(features), window)
      ensures calculator.DateWindows() == ObserveDates(old(calculator.DateWindows()), features.tradeDate, Forwarded(features), window)
    {
      calculator.AddObservation(features.tradeDate, Forwarded(features));
    }

    /**
     * Appends a composite, then keeps only the newest `window` when the
     * history is longer. A window of 0 keeps everything, since `xs[-0:]`
     * is all of `xs`.
     */
    method AddCompositeToHistory(composite: real)
      requires Valid()
      modifies this
      ensures Valid()
      ensures window > 0 ==> compositeHistory == Newest(old(compositeHistory) + [composite], window)
      ensures window > 0 ==> |compositeHistory| <= window
      ensures window == 0 ==> compositeHistory == old(compositeHistory) + [composite]
      ensures |compositeHistory| > 0 && compositeHistory[|compositeHistory| - 1] == composite
    {
      compositeHistory := compositeHistory + [composite];
      if |compositeHistory| > window {
        compositeHistory := PyTail(compositeHistory, window);
      }
    }

    /**
     * Feeds the dated records into the baselines and returns how many; the
     * raw composite of every record that has one, dated or not, is appended
     * to the composite history, untrimmed.
     */
    method LoadFromRecords(records: seq<HistoryRecord>) returns (count: nat)
      requires Valid()
      requires CompositesPresent(records)
      modifies this, calculator.Repr
      ensures Valid()
      ensures count == DatedCount(records)
      ensures calculator.Windows() == ReplayValues(old(calculator.Windows()), records, window)
      ensures calculator.DateWindows() == ReplayDates(old(calculator.DateWindows()), records, window)
      ensures compositeHistory == old(compositeHistory) + StoredComposites(records)
    {
      AppendStoredComposites(records);
      count := calculator.LoadFromHistory(records);
    }

    /** The composite half of LoadFromRecords: the baselines are left as they are. */
    method AppendStoredComposites(records: seq<HistoryRecord>)
      requires Valid()
      requires CompositesPresent(records)
      modifies this
      ensures Valid()
      ensures calculator.Windows() == old(calculator.Windows())
      ensures calculator.DateWindows() == old(calculator.DateWindows())
      ensures compositeHistory == old(compositeHistory) + StoredComposites(records)
    {
      var composites := CollectComposites(records);
      compositeHistory := compositeHistory + composites;
      CalculatorUntouched(this);
    }

    /** The inverted 0..100 score of `composite` against the stored composite history. */
    function CalculatePercentile(math: Maths, composite: real): (score: real)
      reads this
      requires math.Valid()
      ensures score == InvertedScore(math, compositeHistory, composite)
      ensures 0.0 <= score <= 100.0
    {
      InvertedScore(math, compositeHistory, composite)
    }
  }

  /** A step that leaves the calculator and its windows untouched keeps the pipeline valid and its baselines as they were. */
  twostate lemma CalculatorUntouched(p: NormalizationPipeline)
    requires old(p.Valid())
    requires unchanged(p.calculator) && unchanged(p.calculator.Repr)
    ensures p.Valid()
    ensures p.calculator.Windows() == old(p.calculator.Windows())
    ensures p.calculator.DateWindows() == old(p.calculator.DateWindows())
  {
  }

  /** Forwarding only the non-None values changes exactly the windows of the features that have a value today. */
  lemma ForwardedChangesOnlyPresent(ws: map<string, seq<real>>, features: FeatureSet, w: nat, n: string)
    requires n in ws
    ensures features.Value(n).None? ==> ObserveValues(ws, Forwarded(features), w)[n] == ws[n]
    ensures n in FEATURE_NAMES && features.Value(n).Some? ==>
      ObserveValues(ws, Forwarded(features), w)[n] == Push(ws[n], features.Value(n).value, w)
  {
  }
}
