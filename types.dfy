/**
 * The value types of the index: bands, baseline status, score
 * components, the daily result, the feature set and the universe
 * snapshot, with the classifiers defined on them.
 */
module Types {
  import opened Wrappers
  import opened Numeric
  import opened Constants

  /** A trading day, as a day number; only its identity and order matter here. */
  type Date = int

  /** Interpretation bands; a lower score is healthier breadth. */
  datatype Band = Green | LightGreen | Yellow | Red {

    /** Position in the order GREEN < LIGHT_GREEN < YELLOW < RED. */
    function Rank(): (k: nat)
      ensures k < |BAND_THRESHOLDS|
      ensures BAND_THRESHOLDS[k].0 == Name()
    {
      match this
      case Green => 0
      case LightGreen => 1
      case Yellow => 2
      case Red => 3
    }

    function Name(): string
    {
      match this
      case Green => "GREEN"
      case LightGreen => "LIGHT_GREEN"
      case Yellow => "YELLOW"
      case Red => "RED"
    }
  }

  /** `Band.from_score`: each threshold belongs to the lower band. */
  function BandFromScore(score: real): (b: Band)
    ensures b == Green <==> score <= 25.0
    ensures b == LightGreen <==> 25.0 < score <= 50.0
    ensures b == Yellow <==> 50.0 < score <= 75.0
    ensures b == Red <==> 75.0 < score
  {
    if score <= 25.0 then Green
    else if score <= 50.0 then LightGreen
    else if score <= 75.0 then Yellow
    else Red
  }

  /** A higher score never gives a healthier band. */
  lemma BandFromScoreMonotone(s: real, t: real)
    requires s <= t
    ensures BandFromScore(s).Rank() <= BandFromScore(t).Rank()
  {
  }

  /**
   * The band of a score in [0, 100] is the BAND_THRESHOLDS row whose
   * range holds it, read as (lower, upper] (and [0, 25] for GREEN).
   */
  lemma BandFromScoreMatchesThresholds(score: real)
    requires 0.0 <= score <= 100.0
    ensures var row := BAND_THRESHOLDS[BandFromScore(score).Rank()];
      (row.1 < score || score == 0.0) && score <= row.2
  {
  }

  datatype BaselineStatus = Complete | Partial | Insufficient

  /** `ScoreComponent.direction`. */
  datatype Direction = Elevated | Depressed | Neutral

  /** One weighted breadth dimension of the composite. */
  datatype ScoreComponent = ScoreComponent(name: string, weight: real, rawValue: real, zscore: real, contribution: real) {

    /** `|contribution| * 100`, for display. */
    function ContributionPct(): (p: real)
      ensures p >= 0.0
      ensures p == 0.0 <==> contribution == 0.0
      ensures p == 100.0 * contribution || p == -100.0 * contribution
    {
      Abs(contribution) * 100.0
    }

    /** Elevated above +0.5, depressed below -0.5; exactly +-0.5 is neutral. */
    function Direction(): (d: Direction)
      ensures d == Elevated <==> zscore > 0.5
      ensures d == Depressed <==> zscore < -0.5
      ensures d == Neutral <==> -0.5 <= zscore <= 0.5
    {
      if zscore > 0.5 then Elevated
      else if zscore < -0.5 then Depressed
      else Neutral
    }
  }

  /**
   * The z-score of the last component called `name`: the scan in which
   * every later match overwrites an earlier one.
   */
  function LastZscore(cs: seq<ScoreComponent>, name: string): (r: Option<real>)
    ensures r.None? <==> forall i :: 0 <= i < |cs| ==> cs[i].name != name
    ensures r.Some? ==>
      exists i :: (0 <= i < |cs| && cs[i].name == name && cs[i].zscore == r.value
                   && forall j :: i < j < |cs| ==> cs[j].name != name)
  {
    if cs == [] then None
    else if cs[|cs| - 1].name == name then Some(cs[|cs| - 1].zscore)
    else
      var r := LastZscore(cs[..|cs| - 1], name);
      assert forall i :: 0 <= i < |cs| - 1 ==> cs[..|cs| - 1][i] == cs[i];
      r
  }

  /** Scanning one more component updates the z-score of its name only. */
  lemma LastZscoreNext(cs: seq<ScoreComponent>, i: nat, name: string)
    requires i < |cs|
    ensures LastZscore(cs[..i + 1], name)
      == if cs[i].name == name then Some(cs[i].zscore) else LastZscore(cs[..i], name)
  {
    assert cs[..i + 1][..i] == cs[..i];
  }

  /** The wording of the explanation text is not modelled; these are its parts. */
  datatype Arrow = Up | Down | Flat

  /** A line of the structured explanation. */
  datatype Line =
    | Blank
    | Headline(band: Band)
    | DriversHeading
    | DriverBullet(name: string, direction: Direction, zscore: real, arrow: Arrow)
    | DivergenceNote(narrowLeadership: bool)
    | StatusWarning(status: BaselineStatus)
    | ExcludedNote(names: seq<string>)

  /** The five readings of a VPB - IPB gap. */
  datatype DivergenceReading = StrongNarrow | ModerateNarrow | StrongBroad | ModerateBroad | Aligned

  /** An explanation: structured lines or the engine's one-paragraph default, plus an optional divergence sentence. */
  datatype ExplanationBody =
    | Structured(lines: seq<Line>)
    | Default(band: Band, drivers: seq<ScoreComponent>, excluded: seq<string>)

  datatype Explanation = Explanation(body: ExplanationBody, divergence: Option<DivergenceReading>)

  /** Result of one trading day's calculation. */
  datatype BMIResult = BMIResult(
    tradeDate: Date,
    score: real,
    band: Band,
    explanation: Explanation,
    components: seq<ScoreComponent>,
    rawComposite: real,
    status: BaselineStatus,
    excludedFeatures: seq<string>)
  {
    /** `is_healthy`: GREEN or LIGHT_GREEN. */
    function IsHealthy(): (h: bool)
      ensures h <==> band.Rank() <= 1
    {
      band == Green || band == LightGreen
    }

    /** `vpb_ipb_divergence`: VPB z minus IPB z when both components are present. */
    function VpbIpbDivergence(): (d: Option<real>)
      ensures d.Some? <==>
        ((exists i :: 0 <= i < |components| && components[i].name == "VPB")
         && (exists j :: 0 <= j < |components| && components[j].name == "IPB"))
      ensures d.Some? ==> d.value == LastZscore(components, "VPB").value - LastZscore(components, "IPB").value
    {
      var v := LastZscore(components, "VPB");
      var p := LastZscore(components, "IPB");
      if v.Some? && p.Some? then Some(v.value - p.value) else None
    }
  }

  /** A result whose band is that of its score is healthy exactly when the score is at most 50. */
  lemma HealthyIffScoreAtMost50(r: BMIResult)
    requires r.band == BandFromScore(r.score)
    ensures r.IsHealthy() <==> r.score <= 50.0
  {
  }

  /** Raw inputs and computed breadth metrics for one day. */
  datatype FeatureSet = FeatureSet(
    tradeDate: Date,
    vAdv: Option<real>,
    vDec: Option<real>,
    nAdv: Option<int>,
    nDec: Option<int>,
    pctMa50: Option<real>,
    pctMa200: Option<real>,
    relVolValues: Option<seq<real>>,
    universeMedianRelvol: Option<real>,
    vpb: Option<real>,
    ipb: Option<real>,
    sbc: Option<real>,
    ipo: Option<real>,
    normalized: map<string, real>)
  {
    /** The `{"VPB": vpb, "IPB": ipb, "SBC": sbc, "IPO": ipo}` lookup. */
    function Value(name: string): (v: Option<real>)
      ensures name !in FEATURE_NAMES ==> v.None?
      ensures name == "VPB" ==> v == vpb
      ensures name == "IPB" ==> v == ipb
      ensures name == "SBC" ==> v == sbc
      ensures name == "IPO" ==> v == ipo
    {
      if name == "VPB" then vpb
      else if name == "IPB" then ipb
      else if name == "SBC" then sbc
      else if name == "IPO" then ipo
      else None
    }
  }

  /** The `v_adv`, `v_dec`, `n_adv`, `n_dec` dictionary a breadth source returns; an absent key reads as None. */
  datatype BreadthData = BreadthData(vAdv: Option<real>, vDec: Option<real>, nAdv: Option<int>, nDec: Option<int>)

  /** The `pct_ma50` and `pct_ma200` dictionary of moving-average breadth. */
  datatype MaBreadthData = MaBreadthData(pctMa50: Option<real>, pctMa200: Option<real>)

  /** The `rel_vol_values` and `universe_median` dictionary of relative volumes. */
  datatype VolumeData = VolumeData(relVolValues: Option<seq<real>>, universeMedian: Option<real>)

  /** Universe construction criteria. */
  datatype UniverseConfig = UniverseConfig(
    minMarketCap: real,
    minPrice: real,
    minVolume: real,
    exchanges: seq<string>,
    minFreeFloatCap: Option<real>,
    maxResults: int,
    sizeChangeWarnPct: real)

  function DefaultUniverseConfig(): (c: UniverseConfig)
    ensures c.minMarketCap == 2000000000.0 && c.minPrice == 5.0 && c.minVolume == 1000000.0
    ensures c.minFreeFloatCap == Some(1000000000.0) && c.sizeChangeWarnPct == 0.10
  {
    UniverseConfig(2000000000.0, 5.0, 1000000.0, ["NYSE", "NASDAQ"], Some(1000000000.0), 2000, 0.10)
  }

  /** One day's universe. */
  datatype UniverseSnapshot = UniverseSnapshot(
    tradeDate: Date,
    tickers: seq<string>,
    count: int,
    medianMarketCap: Option<real>,
    medianVolume: Option<real>,
    previousCount: Option<int>)
  {
    /** Relative size change from the previous day; undefined without a nonzero previous count. */
    function SizeChangePct(): (r: Option<real>)
      ensures r.None? <==> previousCount.None? || previousCount.value == 0
      ensures r.Some? ==> r.value * previousCount.value as real == (count - previousCount.value) as real
    {
      if previousCount.None? || previousCount.value == 0 then None
      else Some((count - previousCount.value) as real / previousCount.value as real)
    }

    /** Warns when the size moved by more than 10%. */
    function SizeChangeWarning(): (w: bool)
      ensures w <==> SizeChangePct().Some? && Abs(SizeChangePct().value) > 0.10
    {
      var change := SizeChangePct();
      change.Some? && Abs(change.value) > 0.10
    }
  }

  /**
   * The warning in whole numbers, for a positive previous count p: it fires
   * exactly when the universe grew or shrank by more than a tenth of p.
   */
  lemma SizeChangeWarningIntegral(u: UniverseSnapshot)
    requires u.previousCount.Some? && u.previousCount.value > 0
    ensures var p := u.previousCount.value;
      u.SizeChangeWarning() <==> 10 * (u.count - p) > p || 10 * (u.count - p) < -p
  {
    var p := u.previousCount.value as real;
    var d := (u.count - u.previousCount.value) as real;
    var c := u.SizeChangePct().value;
    TenthBand(c, p, d);
    assert u.SizeChangeWarning() <==> c > 0.10 || c < -0.10;
  }

  /** For c * p == d with p positive: c is outside [-0.1, 0.1] exactly when d is outside [-p/10, p/10]. */
  lemma TenthBand(c: real, p: real, d: real)
    requires p > 0.0 && c * p == d
    ensures c > 0.10 <==> d > 0.10 * p
    ensures c < -0.10 <==> d < -0.10 * p
  {
    ScaleStrict(c, 0.10, p);
    ScaleStrict(-0.10, c, p);
  }
}
