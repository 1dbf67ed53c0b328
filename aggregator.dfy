/**
 * The feature aggregator: runs the four calculators on one day's raw
 * inputs and collects their values, together with the inputs, into a
 * feature set.
 */
module Aggregator {
  import opened Wrappers
  import opened Constants
  import opened Sorting
  import opened Types
  import Vpb
  import Ipb
  import Sbc
  import Ipo
  import Readings

  /** The fixed threshold the aggregator hands to the simplified IPO calculation. */
  const IPO_THRESHOLD: real := 2.0

  /**
   * One day's feature set. IPO uses the fixed-threshold fallback, and the
   * median relative volume is the given one unless that is absent or zero,
   * in which case it is the one IPO computed (absent without values).
   */
  function Calculate(
    tradeDate: Date,
    vAdv: Option<real>, vDec: Option<real>,
    nAdv: Option<int>, nDec: Option<int>,
    pctMa50: Option<real>, pctMa200: Option<real>,
    relVolValues: Option<seq<real>>, universeMedianRelvol: Option<real>): (fs: FeatureSet)
    ensures fs.tradeDate == tradeDate && fs.vAdv == vAdv && fs.vDec == vDec && fs.nAdv == nAdv && fs.nDec == nDec
    ensures fs.pctMa50 == pctMa50 && fs.pctMa200 == pctMa200 && fs.relVolValues == relVolValues
    ensures fs.normalized == map[]
    ensures fs.vpb == Vpb.Calculate(vAdv, vDec).value && fs.ipb == Ipb.Calculate(nAdv, nDec).value
    ensures fs.sbc == Sbc.Calculate(pctMa50, pctMa200).value
    ensures fs.ipo == Ipo.CalculateSimple(relVolValues, IPO_THRESHOLD).value
    ensures fs.universeMedianRelvol == MedianRelvol(universeMedianRelvol, relVolValues)
  {
    var vpb := Vpb.Calculate(vAdv, vDec);
    var ipb := Ipb.Calculate(nAdv, nDec);
    var sbc := Sbc.Calculate(pctMa50, pctMa200);
    var ipo := Ipo.CalculateSimple(relVolValues, IPO_THRESHOLD);
    FeatureSet(tradeDate, vAdv, vDec, nAdv, nDec, pctMa50, pctMa200, relVolValues, MedianRelvol(universeMedianRelvol, relVolValues),
               vpb.value, ipb.value, sbc.value, ipo.value, map[])
  }

  /**
   * `universe_median_relvol or ipo_result.universe_median`: the given
   * median unless it is absent or zero, else the median IPO computed,
   * which is absent when there are no values.
   */
  function MedianRelvol(given: Option<real>, relVolValues: Option<seq<real>>): (m: Option<real>)
    ensures given.Some? && given.value != 0.0 ==> m == given
    ensures given.None? || given.value == 0.0 ==>
      m == (if relVolValues.Some? && relVolValues.value != [] then Some(Median(relVolValues.value)) else None)
  {
    if given.Some? && given.value != 0.0 then given
    else Ipo.CalculateSimple(relVolValues, IPO_THRESHOLD).universeMedian
  }

  /** VPB is present exactly for usable volumes, and is then the advancing share of volume, in [0, 1]. */
  lemma VpbFeature(
    tradeDate: Date,
    vAdv: Option<real>, vDec: Option<real>,
    nAdv: Option<int>, nDec: Option<int>,
    pctMa50: Option<real>, pctMa200: Option<real>,
    relVolValues: Option<seq<real>>, universeMedianRelvol: Option<real>)
    ensures var fs := Calculate(tradeDate, vAdv, vDec, nAdv, nDec, pctMa50, pctMa200, relVolValues, universeMedianRelvol);
      && (fs.vpb.Some? <==> vAdv.Some? && vDec.Some? && vAdv.value >= 0.0 && vDec.value >= 0.0 && vAdv.value + vDec.value != 0.0)
      && (fs.vpb.Some? ==> 0.0 <= fs.vpb.value <= 1.0 && fs.vpb.value * (vAdv.value + vDec.value) == vAdv.value)
  {
    Vpb.ValidExactly(vAdv, vDec);
  }

  /** IPB is present exactly for usable counts, and is then the advancing share of issues, in [0, 1]. */
  lemma IpbFeature(
    tradeDate: Date,
    vAdv: Option<real>, vDec: Option<real>,
    nAdv: Option<int>, nDec: Option<int>,
    pctMa50: Option<real>, pctMa200: Option<real>,
    relVolValues: Option<seq<real>>, universeMedianRelvol: Option<real>)
    ensures var fs := Calculate(tradeDate, vAdv, vDec, nAdv, nDec, pctMa50, pctMa200, relVolValues, universeMedianRelvol);
      && (fs.ipb.Some? <==> nAdv.Some? && nDec.Some? && nAdv.value >= 0 && nDec.value >= 0 && nAdv.value + nDec.value != 0)
      && (fs.ipb.Some? ==> 0.0 <= fs.ipb.value <= 1.0 && fs.ipb.value * (nAdv.value + nDec.value) as real == nAdv.value as real)
  {
    Ipb.ValidExactly(nAdv, nDec);
  }

  /** IPO is present exactly for a nonempty list of relative volumes, and is then at most one half. */
  lemma IpoFeature(
    tradeDate: Date,
    vAdv: Option<real>, vDec: Option<real>,
    nAdv: Option<int>, nDec: Option<int>,
    pctMa50: Option<real>, pctMa200: Option<real>,
    relVolValues: Option<seq<real>>, universeMedianRelvol: Option<real>)
    ensures var fs := Calculate(tradeDate, vAdv, vDec, nAdv, nDec, pctMa50, pctMa200, relVolValues, universeMedianRelvol);
      && (fs.ipo.Some? <==> relVolValues.Some? && relVolValues.value != [])
      && (fs.ipo.Some? ==> 0.0 <= fs.ipo.value <= 0.5)
  {
    Ipo.SimpleAtMostHalf(relVolValues, IPO_THRESHOLD);
  }

  /**
   * The feature set from the three raw dictionaries, each possibly absent.
   * An absent dictionary behaves as an empty one: all its entries are
   * missing, so the features built on them are missing too.
   */
  function FromRawData(tradeDate: Date, polygon: Option<BreadthData>, ma: Option<MaBreadthData>, volume: Option<VolumeData>): (fs: FeatureSet)
    ensures polygon.Some? ==>
      fs.vAdv == polygon.value.vAdv && fs.vDec == polygon.value.vDec && fs.nAdv == polygon.value.nAdv && fs.nDec == polygon.value.nDec
    ensures polygon.None? ==> fs.vAdv.None? && fs.vDec.None? && fs.nAdv.None? && fs.nDec.None? && fs.vpb.None? && fs.ipb.None?
    ensures ma.Some? ==> fs.pctMa50 == ma.value.pctMa50 && fs.pctMa200 == ma.value.pctMa200
    ensures ma.None? ==> fs.pctMa50.None? && fs.pctMa200.None? && fs.sbc.None?
    ensures volume.Some? ==> fs.relVolValues == volume.value.relVolValues
    ensures volume.None? ==> fs.relVolValues.None? && fs.ipo.None? && fs.universeMedianRelvol.None?
    ensures fs.tradeDate == tradeDate
  {
    var p := if polygon.Some? then polygon.value else BreadthData(None, None, None, None);
    var m := if ma.Some? then ma.value else MaBreadthData(None, None);
    var v := if volume.Some? then volume.value else VolumeData(None, None);
    Calculate(tradeDate, p.vAdv, p.vDec, p.nAdv, p.nDec, m.pctMa50, m.pctMa200, v.relVolValues, v.universeMedian)
  }

  /** An absent dictionary and an empty one give the same feature set. */
  lemma AbsentIsEmpty(tradeDate: Date, polygon: Option<BreadthData>, ma: Option<MaBreadthData>, volume: Option<VolumeData>)
    ensures FromRawData(tradeDate, None, ma, volume) == FromRawData(tradeDate, Some(BreadthData(None, None, None, None)), ma, volume)
    ensures FromRawData(tradeDate, polygon, None, volume) == FromRawData(tradeDate, polygon, Some(MaBreadthData(None, None)), volume)
    ensures FromRawData(tradeDate, polygon, ma, None) == FromRawData(tradeDate, polygon, ma, Some(VolumeData(None, None)))
  {
  }

  /** The present features by name. */
  function GetValidFeatures(fs: FeatureSet): (valid: map<string, real>)
    ensures forall k :: k in valid <==> k in FEATURE_NAMES && fs.Value(k).Some?
    ensures forall k | k in valid :: valid[k] == fs.Value(k).value
  {
    map k | k in FEATURE_NAMES && fs.Value(k).Some? :: fs.Value(k).value
  }

  /** The names among `names` whose feature is missing, in the order of `names`. */
  function MissingAmong(fs: FeatureSet, names: seq<string>): (r: seq<string>)
    ensures forall k :: k in r <==> k in names && fs.Value(k).None?
    ensures |r| <= |names|
  {
    if names == [] then []
    else (if fs.Value(names[0]).None? then [names[0]] else []) + MissingAmong(fs, names[1..])
  }

  /** The missing features, in the order VPB, IPB, SBC, IPO. */
  function GetMissingFeatures(fs: FeatureSet): (missing: seq<string>)
    ensures forall k :: k in missing <==> k in FEATURE_NAMES && fs.Value(k).None?
  {
    MissingAmong(fs, FEATURE_NAMES)
  }

  /** Every feature name is either valid or missing, and never both. */
  lemma ValidMissingPartition(fs: FeatureSet)
    ensures forall k | k in FEATURE_NAMES :: k in GetValidFeatures(fs) <==> k !in GetMissingFeatures(fs)
    ensures forall k | k in GetValidFeatures(fs) :: k in FEATURE_NAMES
    ensures forall k | k in GetMissingFeatures(fs) :: k in FEATURE_NAMES
  {
  }

  /**
   * VPB minus IPB with its reading, when both are present. Above 0.1 the
   * volume is led by few large names, below -0.1 breadth outruns volume.
   */
  function VpbIpbDivergence(fs: FeatureSet): (d: Option<Ipb.Divergence>)
    ensures d.None? <==> fs.vpb.None? || fs.ipb.None?
    ensures d.Some? ==> d.value.amount == fs.vpb.value - fs.ipb.value
    ensures d.Some? ==> (d.value.reading == Readings.Above <==> fs.vpb.value - fs.ipb.value > 0.1)
    ensures d.Some? ==> (d.value.reading == Readings.Below <==> fs.vpb.value - fs.ipb.value < -0.1)
  {
    if fs.vpb.None? || fs.ipb.None? then None
    else Some(Ipb.CalculateDivergence(fs.ipb.value, fs.vpb.value))
  }
}
