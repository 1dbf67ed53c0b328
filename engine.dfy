/**
 * The scoring engine: one trading day's calculation. It normalises the
 * features against the baselines as they stand before today, combines the
 * z-scores into the raw composite, ranks that against the composite
 * history before today, classifies the band, explains the result, and only
 * then feeds the day into the baselines and the composite history.
 */
module Engine {
  import opened Wrappers
  import opened Numeric
  import opened Seqs
  import opened Constants
  import opened Types
  import opened Methods
  import opened Rolling
  import opened Pipeline
  import opened Composite
  import opened Explain

  /** `feature_map.get(name, 0.0) or 0.0`: the feature's value today, 0.0 when it has none. */
  function RawValueOf(features: FeatureSet, name: string): real
  {
    match features.Value(name)
    case None => 0.0
    case Some(v) => v
  }

  /** `_enrich_components`: every component as it was, with the raw feature value filled in. */
  function Enriched(cs: seq<ScoreComponent>, features: FeatureSet): (r: seq<ScoreComponent>)
    ensures |r| == |cs|
    ensures forall i :: 0 <= i < |cs| ==>
      && r[i].name == cs[i].name && r[i].weight == cs[i].weight
      && r[i].zscore == cs[i].zscore && r[i].contribution == cs[i].contribution
      && (features.Value(cs[i].name).Some? ==> r[i].rawValue == features.Value(cs[i].name).value)
      && (features.Value(cs[i].name).None? ==> r[i].rawValue == 0.0)
  {
    if cs == [] then []
    else [cs[0].(rawValue := RawValueOf(features, cs[0].name))] + Enriched(cs[1..], features)
  }

  /** The loop of `_enrich_components`. */
  method EnrichComponents(cs: seq<ScoreComponent>, features: FeatureSet) returns (enriched: seq<ScoreComponent>)
    ensures enriched == Enriched(cs, features)
  {
    enriched := [];
    var i := 0;
    while i < |cs|
      invariant 0 <= i <= |cs|
      invariant |enriched| == i
      invariant forall k :: 0 <= k < i ==> enriched[k] == cs[k].(rawValue := RawValueOf(features, cs[k].name))
    {
      var c := cs[i];
      var rawValue := RawValueOf(features, c.name);
      enriched := enriched + [ScoreComponent(c.name, c.weight, rawValue, c.zscore, c.contribution)];
      i := i + 1;
    }
    EnrichedAt(cs, features);
  }

  lemma EnrichedAt(cs: seq<ScoreComponent>, features: FeatureSet)
    ensures forall k :: 0 <= k < |cs| ==> Enriched(cs, features)[k] == cs[k].(rawValue := RawValueOf(features, cs[k].name))
  {
  }

  /** Filling in raw values keeps the contributions, hence their sum. */
  lemma {:induction false} EnrichedContributions(cs: seq<ScoreComponent>, features: FeatureSet)
    ensures Contributions(Enriched(cs, features)) == Contributions(cs)
  {
    var e := Enriched(cs, features);
    assert |Contributions(e)| == |Contributions(cs)|;
    forall i | 0 <= i < |cs| ensures Contributions(e)[i] == Contributions(cs)[i] {
    }
  }

  /** `classify_band`. */
  function ClassifyBand(score: real): (b: Band)
    ensures b == BandFromScore(score)
  {
    BandFromScore(score)
  }

  /**
   * The divergence sentence the engine appends: the reading of VPB z minus
   * IPB z, only when both are present and the gap exceeds 1 in size.
   */
  function DivergenceSentence(cs: seq<ScoreComponent>): (r: Option<DivergenceReading>)
    ensures r.Some? <==>
      && LastZscore(cs, "VPB").Some? && LastZscore(cs, "IPB").Some?
      && Abs(LastZscore(cs, "VPB").value - LastZscore(cs, "IPB").value) > VPB_IPB_DIVERGENCE_WARN
    ensures r.Some? ==> r.value == ReadDivergence(LastZscore(cs, "VPB").value - LastZscore(cs, "IPB").value)
  {
    var v, p := LastZscore(cs, "VPB"), LastZscore(cs, "IPB");
    if v.Some? && p.Some? && Abs(v.value - p.value) > VPB_IPB_DIVERGENCE_WARN then
      Some(ReadDivergence(v.value - p.value))
    else None
  }

  /** The appended sentence is always one of the two strong readings. */
  lemma DivergenceSentenceIsStrong(cs: seq<ScoreComponent>)
    ensures DivergenceSentence(cs).Some? ==> DivergenceSentence(cs).value in {StrongNarrow, StrongBroad}
  {
    if DivergenceSentence(cs).Some? {
      StrongReadingIffFlagged(LastZscore(cs, "VPB").value - LastZscore(cs, "IPB").value);
    }
  }

  /** `_default_explanation`: the band's description, the top two drivers and the excluded names. */
  function DefaultExplanation(band: Band, cs: seq<ScoreComponent>, excluded: seq<string>): ExplanationBody
  {
    Default(band, TopDrivers(cs, 2), excluded)
  }

  /** Step 5 of `calculate`: the generator's lines when a generator is given, the default paragraph otherwise. */
  function ExplanationBodyFor(useGenerator: bool, band: Band, cs: seq<ScoreComponent>, excluded: seq<string>, status: BaselineStatus): ExplanationBody
  {
    if useGenerator then Structured(Generated(band, cs, excluded, status))
    else DefaultExplanation(band, cs, excluded)
  }

  /**
   * The result of one day, given the z-scores, exclusions and status that
   * normalising today's features against the baselines gives, and the
   * composite history as it stood before today.
   */
  function DayResult(math: Maths, features: FeatureSet, useGenerator: bool, zScores: map<string, real>,
                     excluded: seq<string>, status: BaselineStatus, history: seq<real>): BMIResult
    requires math.Valid()
  {
    var composite := WeightedSum(zScores, WEIGHTS);
    var components := Enriched(Components(zScores, WEIGHTS), features);
    var score := InvertedScore(math, history, composite);
    var band := BandFromScore(score);
    var body := ExplanationBodyFor(useGenerator, band, components, excluded, status);
    BMIResult(features.tradeDate, score, band, Explanation(body, DivergenceSentence(components)),
              components, composite, status, excluded)
  }

  /**
   * The day's score lies in [0, 100] and its band is the band of that
   * score; the raw composite is the weighted sum of the z-scores and the
   * sum of the components' contributions; the components keep the
   * z-scores unclipped and carry today's feature values; the result keeps
   * the trade date, status and exclusions it was given.
   */
  lemma DayResultConsistent(math: Maths, features: FeatureSet, useGenerator: bool, zScores: map<string, real>,
                            excluded: seq<string>, status: BaselineStatus, history: seq<real>)
    requires math.Valid()
    ensures var r := DayResult(math, features, useGenerator, zScores, excluded, status, history);
      && 0.0 <= r.score <= 100.0
      && r.band == BandFromScore(r.score)
      && r.rawComposite == WeightedSum(zScores, WEIGHTS)
      && r.rawComposite == Sum(Contributions(r.components))
      && (forall c | c in r.components :: c.name in zScores && c.zscore == zScores[c.name]
            && c.rawValue == RawValueOf(features, c.name))
      && r.tradeDate == features.tradeDate && r.status == status && r.excludedFeatures == excluded
  {
    var cs := Components(zScores, WEIGHTS);
    var r := DayResult(math, features, useGenerator, zScores, excluded, status, history);
    ContributionsSumToComposite(zScores, WEIGHTS);
    EnrichedContributions(cs, features);
    ComponentFields(zScores, WEIGHTS);
    EnrichedAt(cs, features);
    forall c | c in r.components ensures c.name in zScores && c.zscore == zScores[c.name] && c.rawValue == RawValueOf(features, c.name) {
      var i :| 0 <= i < |r.components| && r.components[i] == c;
      assert cs[i] in cs && FromWeights(cs[i], zScores, WEIGHTS);
    }
  }

  /**
   * With every feature excluded the engine still answers: raw composite 0,
   * no components, status INSUFFICIENT, and no divergence sentence.
   */
  lemma AllExcludedDay(math: Maths, features: FeatureSet, useGenerator: bool, history: seq<real>)
    requires math.Valid()
    ensures var r := DayResult(math, features, useGenerator, map[], FEATURE_NAMES, StatusOf(FEATURE_NAMES, map[]), history);
      && r.rawComposite == 0.0 && r.components == [] && r.status == Insufficient
      && r.explanation.divergence.None?
  {
    NothingPresent(map[], WEIGHTS);
  }

  /**
   * The divergence sentence is there exactly when the result's own VPB/IPB
   * divergence is defined and exceeds 1 in size, and then it is a strong
   * reading of it.
   */
  lemma DayDivergenceMatchesResult(math: Maths, features: FeatureSet, useGenerator: bool, zScores: map<string, real>,
                                   excluded: seq<string>, status: BaselineStatus, history: seq<real>)
    requires math.Valid()
    ensures var r := DayResult(math, features, useGenerator, zScores, excluded, status, history);
      && (r.explanation.divergence.Some? <==>
            r.VpbIpbDivergence().Some? && Abs(r.VpbIpbDivergence().value) > VPB_IPB_DIVERGENCE_WARN)
      && (r.explanation.divergence.Some? ==>
            r.explanation.divergence.value == ReadDivergence(r.VpbIpbDivergence().value)
            && r.explanation.divergence.value in {StrongNarrow, StrongBroad})
  {
    var r := DayResult(math, features, useGenerator, zScores, excluded, status, history);
    DivergenceSentenceIsStrong(r.components);
  }

  /** The scoring engine over a normalisation pipeline it shares with its caller. */
  class BMIEngine {
    const pipeline: NormalizationPipeline

    ghost predicate Valid()
      reads pipeline.calculator, pipeline.calculator.Repr
    {
      pipeline.Valid()
    }

    /** Uses the given pipeline, or a new one with the default window of 63 and threshold of 21. */
    constructor (p: Option<NormalizationPipeline>)
      requires p.Some? ==> p.value.Valid()
      ensures Valid()
      ensures p.Some? ==> pipeline == p.value
      ensures p.None? ==>
        fresh(pipeline) && pipeline.window == ROLLING_WINDOW
        && pipeline.minObservations == MIN_OBSERVATIONS && pipeline.compositeHistory == []
    {
      if p.Some? {
        pipeline := p.value;
      } else {
        pipeline := new NormalizationPipeline(ROLLING_WINDOW, MIN_OBSERVATIONS);
      }
    }

    /**
     * Steps 1 to 6 of `calculate`: everything that only reads the
     * baselines and the composite history. `useGenerator` says whether an
     * explanation generator was passed.
     */
    method Score(math: Maths, features: FeatureSet, useGenerator: bool) returns (result: BMIResult)
      requires Valid() && math.Valid()
      ensures var n := old(pipeline.Normalized(math, features, FEATURE_NAMES));
        result == DayResult(math, features, useGenerator, n.0, n.1, StatusOf(n.1, n.0), old(pipeline.compositeHistory))
    {
      ghost var n := pipeline.Normalized(math, features, FEATURE_NAMES);
      var zScores, excluded, status := pipeline.Normalize(math, features);
      assert zScores == n.0 && excluded == n.1;
      var composite, components := CalculateComposite(zScores);
      components := EnrichComponents(components, features);
      assert composite == WeightedSum(n.0, WEIGHTS);
      assert components == Enriched(Components(n.0, WEIGHTS), features);
      var score := pipeline.CalculatePercentile(math, composite);
      assert score == InvertedScore(math, pipeline.compositeHistory, composite);
      var band := ClassifyBand(score);
      var body := ExplainStep(useGenerator, band, components, excluded, status);
      var sentence := DivergenceStep(components);
      result := BMIResult(features.tradeDate, score, band, Explanation(body, sentence),
                          components, composite, status, excluded);
      assert status == StatusOf(n.1, n.0);
      assert result == DayResult(math, features, useGenerator, zScores, excluded, status, pipeline.compositeHistory);
    }

    /**
     * `calculate`: scores the day against the baselines and the composite
     * history as they stood before it, then feeds today's feature values
     * into the baselines and appends the raw composite to the history, so
     * the day never ranks against itself.
     */
    method Calculate(math: Maths, features: FeatureSet, useGenerator: bool) returns (result: BMIResult)
      requires Valid() && math.Valid()
      modifies pipeline, pipeline.calculator.Repr
      ensures Valid()
      ensures var n := old(pipeline.Normalized(math, features, FEATURE_NAMES));
        result == DayResult(math, features, useGenerator, n.0, n.1, StatusOf(n.1, n.0), old(pipeline.compositeHistory))
      ensures pipeline.calculator.Windows()
        == ObserveValues(old(pipeline.calculator.Windows()), Forwarded(features), pipeline.window)
      ensures pipeline.calculator.DateWindows()
        == ObserveDates(old(pipeline.calculator.DateWindows()), features.tradeDate, Forwarded(features), pipeline.window)
      ensures pipeline.window > 0 ==>
        pipeline.compositeHistory == Newest(old(pipeline.compositeHistory) + [result.rawComposite], pipeline.window)
      ensures pipeline.window == 0 ==> pipeline.compositeHistory == old(pipeline.compositeHistory) + [result.rawComposite]
    {
      result := Score(math, features, useGenerator);
      CalculatorUntouched(pipeline);
      Record(features, result.rawComposite);
    }

    /** Step 7 of `calculate`: today's features into the baselines, the raw composite into the history. */
    method Record(features: FeatureSet, composite: real)
      requires Valid()
      modifies pipeline, pipeline.calculator.Repr
      ensures Valid()
      ensures pipeline.calculator.Windows()
        == ObserveValues(old(pipeline.calculator.Windows()), Forwarded(features), pipeline.window)
      ensures pipeline.calculator.DateWindows()
        == ObserveDates(old(pipeline.calculator.DateWindows()), features.tradeDate, Forwarded(features), pipeline.window)
      ensures pipeline.window > 0 ==>
        pipeline.compositeHistory == Newest(old(pipeline.compositeHistory) + [composite], pipeline.window)
      ensures pipeline.window == 0 ==> pipeline.compositeHistory == old(pipeline.compositeHistory) + [composite]
    {
      pipeline.AddObservation(features);
      label observed:
      pipeline.AddCompositeToHistory(composite);
      CalculatorUntouched@observed(pipeline);
    }
  }

  /** Step 5 of `calculate`. */
  method ExplainStep(useGenerator: bool, band: Band, cs: seq<ScoreComponent>, excluded: seq<string>, status: BaselineStatus)
    returns (body: ExplanationBody)
    ensures body == ExplanationBodyFor(useGenerator, band, cs, excluded, status)
  {
    if useGenerator {
      var lines := Generate(band, cs, excluded, status);
      body := Structured(lines);
    } else {
      body := DefaultExplanation(band, cs, excluded);
    }
  }

  /** Step 6 of `calculate`: the divergence reading, kept only when the gap exceeds 1 in size. */
  method DivergenceStep(cs: seq<ScoreComponent>) returns (sentence: Option<DivergenceReading>)
    ensures sentence == DivergenceSentence(cs)
  {
    var divergence, reading := AssessVpbIpbDivergence(cs);
    sentence := None;
    if divergence.Some? && Abs(divergence.value) > VPB_IPB_DIVERGENCE_WARN {
      sentence := reading;
    }
  }
}
