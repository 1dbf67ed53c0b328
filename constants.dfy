/**
 * The frozen constants of the index: component weights, the rolling
 * baseline's window and readiness threshold, the band thresholds, the
 * divergence warning level and the feature names.
 */
module Constants {
  import opened Numeric
  import opened Seqs

  /** Component weights, in the order the composite visits them. */
  const WEIGHTS: seq<(string, real)> := [("VPB", 0.30), ("IPB", 0.25), ("SBC", 0.25), ("IPO", 0.20)]

  /** Trading days in the rolling baseline (about three months). */
  const ROLLING_WINDOW: nat := 63

  /** Observations needed before a baseline is usable (about one month). */
  const MIN_OBSERVATIONS: nat := 21

  /** Each band's (name, lower bound, upper bound) on the 0..100 score. */
  const BAND_THRESHOLDS: seq<(string, real, real)> :=
    [("GREEN", 0.0, 25.0), ("LIGHT_GREEN", 25.0, 50.0), ("YELLOW", 50.0, 75.0), ("RED", 75.0, 100.0)]

  /** Stock-specific relative-volume quantile of the IPO dual filter. */
  const IPO_PERCENTILE_THRESHOLD: real := 90.0

  /** A VPB/IPB z-score gap beyond this is flagged. */
  const VPB_IPB_DIVERGENCE_WARN: real := 1.0

  const FEATURE_NAMES: seq<string> := ["VPB", "IPB", "SBC", "IPO"]

  /** The weights alone, in order. */
  function WeightValues(ws: seq<(string, real)>): (r: seq<real>)
    ensures |r| == |ws|
    ensures forall i :: 0 <= i < |ws| ==> r[i] == ws[i].1
  {
    if ws == [] then [] else [ws[0].1] + WeightValues(ws[1..])
  }

  /** The weighted names alone, in order. */
  function WeightKeys(ws: seq<(string, real)>): (r: seq<string>)
    ensures |r| == |ws|
    ensures forall i :: 0 <= i < |ws| ==> r[i] == ws[i].0
  {
    if ws == [] then [] else [ws[0].0] + WeightKeys(ws[1..])
  }

  /** `WEIGHTS.get(name)`. */
  function WeightOf(name: string): (r: real)
    ensures r > 0.0 <==> name in FEATURE_NAMES
    ensures name in FEATURE_NAMES ==> (name, r) in WEIGHTS
  {
    if name == "VPB" then assert WEIGHTS[0] == (name, 0.30); 0.30
    else if name == "IPB" then assert WEIGHTS[1] == (name, 0.25); 0.25
    else if name == "SBC" then assert WEIGHTS[2] == (name, 0.25); 0.25
    else if name == "IPO" then assert WEIGHTS[3] == (name, 0.20); 0.20
    else 0.0
  }

  /** The weights sum to one (checked when the constants are loaded). */
  lemma WeightsSumToOne()
    ensures Sum(WeightValues(WEIGHTS)) == 1.0
  {
    assert WeightValues(WEIGHTS) == [0.30, 0.25, 0.25, 0.20];
    assert [0.30, 0.25, 0.25, 0.20][1..] == [0.25, 0.25, 0.20];
    assert [0.25, 0.25, 0.20][1..] == [0.25, 0.20];
    assert [0.25, 0.20][1..] == [0.20];
    assert [0.20][1..] == [];
  }

  /** Every weight is positive and none exceeds VPB's. */
  lemma WeightsPositiveVpbLargest()
    ensures WEIGHTS[0].0 == "VPB"
    ensures forall i :: 0 <= i < |WEIGHTS| ==> 0.0 < WEIGHTS[i].1 <= WEIGHTS[0].1
  {
  }

  /** The readiness threshold fits in the window. */
  lemma ReadinessWithinWindow()
    ensures 2 <= MIN_OBSERVATIONS <= ROLLING_WINDOW
  {
  }

  /** The bands tile [0, 100]: each upper bound is the next lower bound. */
  lemma BandThresholdsContiguous()
    ensures BAND_THRESHOLDS[0].1 == 0.0 && BAND_THRESHOLDS[|BAND_THRESHOLDS| - 1].2 == 100.0
    ensures forall i :: 0 <= i < |BAND_THRESHOLDS| - 1 ==> BAND_THRESHOLDS[i].2 == BAND_THRESHOLDS[i + 1].1
    ensures forall i :: 0 <= i < |BAND_THRESHOLDS| ==> BAND_THRESHOLDS[i].1 < BAND_THRESHOLDS[i].2
  {
  }

  /** FEATURE_NAMES lists the weighted names, in the same order, each once. */
  lemma FeatureNamesAreWeightKeys()
    ensures WeightKeys(WEIGHTS) == FEATURE_NAMES
    ensures Distinct(FEATURE_NAMES)
  {
  }
}
