/**
 * The weighted composite S_BMI = 0.30 Z_VPB + 0.25 Z_IPB + 0.25 Z_SBC +
 * 0.20 Z_IPO over the features that have a z-score, its components, their
 * shares of the total, the ranking of drivers and the VPB/IPB divergence
 * reading.
 */
module Composite {
  import opened Wrappers
  import opened Numeric
  import opened Seqs
  import opened Sorting
  import opened Constants
  import opened Types

  /** A component's contribution: its weight times its z-score. */
  function ContributionOf(weight: real, z: real): real
  {
    weight * z
  }

  /** The component of the weighted name `w`, when it has a z-score; nothing otherwise. */
  function Term(zScores: map<string, real>, w: (string, real)): seq<ScoreComponent>
  {
    if w.0 in zScores then [ScoreComponent(w.0, w.1, 0.0, zScores[w.0], ContributionOf(w.1, zScores[w.0]))] else []
  }

  /** The components of the weighted names `ws` that have a z-score, in the order of `ws`. */
  function Components(zScores: map<string, real>, ws: seq<(string, real)>): (cs: seq<ScoreComponent>)
    ensures |cs| <= |ws|
  {
    if ws == [] then [] else Components(zScores, ws[..|ws| - 1]) + Term(zScores, ws[|ws| - 1])
  }

  /** Sum of weight times z-score over the names of `ws` that have one; the others count as 0. */
  function WeightedSum(zScores: map<string, real>, ws: seq<(string, real)>): real
  {
    if ws == [] then 0.0
    else
      var w := ws[|ws| - 1];
      WeightedSum(zScores, ws[..|ws| - 1]) + (if w.0 in zScores then ContributionOf(w.1, zScores[w.0]) else 0.0)
  }

  /** The z-score of `name`, or 0 when it has none. */
  function ZOrZero(zScores: map<string, real>, name: string): real
  {
    if name in zScores then zScores[name] else 0.0
  }

  /** The composite is the frozen formula with a missing feature counted as 0: nothing is re-weighted. */
  lemma CompositeFormula(zScores: map<string, real>)
    ensures WeightedSum(zScores, WEIGHTS)
      == 0.30 * ZOrZero(zScores, "VPB") + 0.25 * ZOrZero(zScores, "IPB")
       + 0.25 * ZOrZero(zScores, "SBC") + 0.20 * ZOrZero(zScores, "IPO")
  {
    var w3: seq<(string, real)> := [("VPB", 0.30), ("IPB", 0.25), ("SBC", 0.25)];
    var w2: seq<(string, real)> := [("VPB", 0.30), ("IPB", 0.25)];
    var w1: seq<(string, real)> := [("VPB", 0.30)];
    assert WEIGHTS[..3] == w3 && w3[..2] == w2 && w2[..1] == w1 && w1[..0] == [];
    assert WeightedSum(zScores, w1) == 0.30 * ZOrZero(zScores, "VPB");
    assert WeightedSum(zScores, w2) == WeightedSum(zScores, w1) + 0.25 * ZOrZero(zScores, "IPB");
    assert WeightedSum(zScores, w3) == WeightedSum(zScores, w2) + 0.25 * ZOrZero(zScores, "SBC");
    assert WeightedSum(zScores, WEIGHTS) == WeightedSum(zScores, w3) + 0.20 * ZOrZero(zScores, "IPO");
  }

  /** The four-feature sample: 0.30 * 1.5 + 0.25 * 1.0 + 0.25 * -0.5 + 0.20 * 0.8 = 0.735. */
  lemma CompositeSample()
    ensures WeightedSum(map["VPB" := 1.5, "IPB" := 1.0, "SBC" := -0.5, "IPO" := 0.8], WEIGHTS) == 0.735
  {
    CompositeFormula(map["VPB" := 1.5, "IPB" := 1.0, "SBC" := -0.5, "IPO" := 0.8]);
  }

  /** With only VPB 1.0 and IPB 0.5 the composite is 0.30 + 0.125, not divided by the 0.55 of weight used. */
  lemma CompositeNotReweighted()
    ensures WeightedSum(map["VPB" := 1.0, "IPB" := 0.5], WEIGHTS) == 0.30 * 1.0 + 0.25 * 0.5
  {
    CompositeFormula(map["VPB" := 1.0, "IPB" := 0.5]);
  }

  /** The contributions of the components, in order. */
  function Contributions(cs: seq<ScoreComponent>): (r: seq<real>)
    ensures |r| == |cs|
    ensures forall i :: 0 <= i < |cs| ==> r[i] == cs[i].contribution
  {
    if cs == [] then [] else [cs[0].contribution] + Contributions(cs[1..])
  }

  lemma ContributionsAppend(a: seq<ScoreComponent>, b: seq<ScoreComponent>)
    ensures Contributions(a + b) == Contributions(a) + Contributions(b)
  {
  }

  /** The composite is the sum of the component contributions. */
  lemma {:induction false} ContributionsSumToComposite(zScores: map<string, real>, ws: seq<(string, real)>)
    ensures Sum(Contributions(Components(zScores, ws))) == WeightedSum(zScores, ws)
  {
    if ws != [] {
      var init := ws[..|ws| - 1];
      ContributionsSumToComposite(zScores, init);
      ContributionsAppend(Components(zScores, init), Term(zScores, ws[|ws| - 1]));
      SumAppend(Contributions(Components(zScores, init)), Contributions(Term(zScores, ws[|ws| - 1])));
    }
  }

  /** The names of the components, in order. */
  function Names(cs: seq<ScoreComponent>): (r: seq<string>)
    ensures |r| == |cs|
    ensures forall i :: 0 <= i < |cs| ==> r[i] == cs[i].name
  {
    if cs == [] then [] else [cs[0].name] + Names(cs[1..])
  }

  lemma NameAt(cs: seq<ScoreComponent>, i: nat)
    requires i < |cs|
    ensures cs[i].name in Names(cs)
  {
    assert Names(cs)[i] == cs[i].name;
  }

  /** The names of `names` that have a z-score, in order. */
  function PresentNames(names: seq<string>, zScores: map<string, real>): (r: seq<string>)
    ensures |r| <= |names|
  {
    if names == [] then []
    else
      var n := names[|names| - 1];
      PresentNames(names[..|names| - 1], zScores) + (if n in zScores then [n] else [])
  }

  /**
   * A component built from the weights: it carries its weight and its
   * z-score unchanged (nothing is clipped), a contribution of weight
   * times z-score and a raw value of 0.
   */
  ghost predicate FromWeights(c: ScoreComponent, zScores: map<string, real>, ws: seq<(string, real)>)
  {
    && c.name in zScores
    && c.zscore == zScores[c.name]
    && c.contribution == c.weight * c.zscore
    && c.rawValue == 0.0
    && (c.name, c.weight) in ws
  }

  /** Every component is built from a weighted name and its z-score. */
  lemma {:induction false} ComponentFields(zScores: map<string, real>, ws: seq<(string, real)>)
    ensures forall c | c in Components(zScores, ws) :: FromWeights(c, zScores, ws)
  {
    if ws != [] {
      var init := ws[..|ws| - 1];
      var w := ws[|ws| - 1];
      ComponentFields(zScores, init);
      var ci := Components(zScores, init);
      assert Components(zScores, ws) == ci + Term(zScores, w);
      forall c | c in Components(zScores, ws) ensures FromWeights(c, zScores, ws) {
        if c in ci {
          assert FromWeights(c, zScores, init);
          var k :| 0 <= k < |init| && init[k] == (c.name, c.weight);
          assert ws[k] == init[k];
        } else {
          assert c in Term(zScores, w);
        }
      }
    }
  }

  lemma NamesAppend(a: seq<ScoreComponent>, b: seq<ScoreComponent>)
    ensures Names(a + b) == Names(a) + Names(b)
  {
  }

  lemma {:induction false} WeightKeysSnoc(ws: seq<(string, real)>)
    requires ws != []
    ensures WeightKeys(ws) == WeightKeys(ws[..|ws| - 1]) + [ws[|ws| - 1].0]
  {
    if |ws| > 1 {
      WeightKeysSnoc(ws[1..]);
      assert ws[1..][..|ws| - 2] == ws[..|ws| - 1][1..];
    }
  }

  lemma PresentNamesSnoc(names: seq<string>, n: string, zScores: map<string, real>)
    ensures PresentNames(names + [n], zScores) == PresentNames(names, zScores) + (if n in zScores then [n] else [])
  {
    assert (names + [n])[..|names|] == names;
  }

  /** The components are the weighted names that have a z-score, in the weights' order. */
  lemma {:induction false} ComponentNames(zScores: map<string, real>, ws: seq<(string, real)>)
    ensures Names(Components(zScores, ws)) == PresentNames(WeightKeys(ws), zScores)
  {
    if ws != [] {
      var init := ws[..|ws| - 1];
      var w := ws[|ws| - 1];
      ComponentNames(zScores, init);
      WeightKeysSnoc(ws);
      PresentNamesSnoc(WeightKeys(init), w.0, zScores);
      NamesAppend(Components(zScores, init), Term(zScores, w));
      assert Names(Term(zScores, w)) == if w.0 in zScores then [w.0] else [];
    }
  }

  /** Keys that are not weighted names play no part in the composite or its components. */
  lemma {:induction false} OnlyWeightedNamesCount(zScores: map<string, real>, other: map<string, real>, ws: seq<(string, real)>)
    requires forall i :: 0 <= i < |ws| ==> (ws[i].0 in zScores <==> ws[i].0 in other)
    requires forall i :: 0 <= i < |ws| && ws[i].0 in zScores ==> zScores[ws[i].0] == other[ws[i].0]
    ensures Components(zScores, ws) == Components(other, ws)
    ensures WeightedSum(zScores, ws) == WeightedSum(other, ws)
  {
    if ws != [] {
      var k := |ws| - 1;
      OnlyWeightedNamesCount(zScores, other, ws[..k]);
      assert ws[k].0 in zScores <==> ws[k].0 in other;
      assert Term(zScores, ws[k]) == Term(other, ws[k]);
    }
  }

  /** Without any weighted name the composite is 0 and there are no components. */
  lemma {:induction false} NothingPresent(zScores: map<string, real>, ws: seq<(string, real)>)
    requires forall i :: 0 <= i < |ws| ==> ws[i].0 !in zScores
    ensures Components(zScores, ws) == [] && WeightedSum(zScores, ws) == 0.0
  {
    if ws != [] {
      NothingPresent(zScores, ws[..|ws| - 1]);
    }
  }

  /**
   * `calculate_composite`: visits the weights in order, skips names
   * without a z-score, and adds up weight times z-score, which is the
   * composite as it stands (it is not divided by the weight used).
   */
  method CalculateComposite(zScores: map<string, real>) returns (composite: real, components: seq<ScoreComponent>)
    ensures composite == WeightedSum(zScores, WEIGHTS)
    ensures components == Components(zScores, WEIGHTS)
  {
    composite, components := CompositeOver(zScores, WEIGHTS);
  }

  /** The loop of CalculateComposite, over the weighted names `ws`. */
  method CompositeOver(zScores: map<string, real>, ws: seq<(string, real)>) returns (weightedSum: real, components: seq<ScoreComponent>)
    ensures weightedSum == WeightedSum(zScores, ws)
    ensures components == Components(zScores, ws)
  {
    components := [];
    weightedSum := 0.0;
    var i := 0;
    while i < |ws|
      invariant 0 <= i <= |ws|
      invariant weightedSum == WeightedSum(zScores, ws[..i])
      invariant components == Components(zScores, ws[..i])
    {
      var (name, weight) := ws[i];
      assert ws[..i + 1][..i] == ws[..i] && ws[..i + 1][i] == (name, weight);
      if name in zScores {
        var z := zScores[name];
        var contribution := ContributionOf(weight, z);
        weightedSum := weightedSum + contribution;
        components := components + [ScoreComponent(name, weight, 0.0, z, contribution)];
      }
      i := i + 1;
    }
    assert ws[..i] == ws;
  }

  /** `|contribution|` of each component, in order. */
  function AbsContributions(cs: seq<ScoreComponent>): (r: seq<real>)
    ensures |r| == |cs|
    ensures forall i :: 0 <= i < |cs| ==> r[i] == Abs(cs[i].contribution) && r[i] >= 0.0
  {
    if cs == [] then [] else [Abs(cs[0].contribution)] + AbsContributions(cs[1..])
  }

  /** A component's share of `total` in percent, or 0 when `total` is 0. */
  function ShareOf(c: ScoreComponent, total: real): real
  {
    if total == 0.0 then 0.0 else (Abs(c.contribution) / total) * 100.0
  }

  /** The share of each component, as a percentage of `total`. */
  function Shares(cs: seq<ScoreComponent>, total: real): (r: seq<real>)
    ensures |r| == |cs|
    ensures forall i :: 0 <= i < |cs| ==> r[i] == ShareOf(cs[i], total)
  {
    if cs == [] then [] else [ShareOf(cs[0], total)] + Shares(cs[1..], total)
  }

  /** The shares add up to the summed magnitudes as a percentage of `total`. */
  lemma {:induction false} SharesSum(cs: seq<ScoreComponent>, total: real)
    requires total != 0.0
    ensures Sum(Shares(cs, total)) == (Sum(AbsContributions(cs)) / total) * 100.0
  {
    if cs != [] {
      SharesSum(cs[1..], total);
      assert Shares(cs, total)[1..] == Shares(cs[1..], total);
      assert AbsContributions(cs)[1..] == AbsContributions(cs[1..]);
      assert Shares(cs, total)[0] == (Abs(cs[0].contribution) / total) * 100.0;
      PercentAdd(Abs(cs[0].contribution), Sum(AbsContributions(cs[1..])), total);
    }
  }

  /** The last component called `name`: the one a dict comprehension over `cs` keeps. */
  function LastNamed(cs: seq<ScoreComponent>, name: string): (r: Option<ScoreComponent>)
    ensures r.None? <==> name !in Names(cs)
    ensures r.Some? ==> r.value in cs && r.value.name == name
  {
    if cs == [] then None
    else
      var k := |cs| - 1;
      assert Names(cs) == Names(cs[..k]) + [cs[k].name];
      if cs[k].name == name then Some(cs[k]) else LastNamed(cs[..k], name)
  }

  /** With distinct names, the last component of a name is the only one. */
  lemma {:induction false} LastNamedDistinct(cs: seq<ScoreComponent>, i: nat)
    requires i < |cs| && Distinct(Names(cs))
    ensures LastNamed(cs, cs[i].name) == Some(cs[i])
  {
    var k := |cs| - 1;
    if i < k {
      assert Names(cs[..k]) == Names(cs)[..k];
      assert Names(cs)[i] != Names(cs)[k];
      LastNamedDistinct(cs[..k], i);
    }
  }

  /**
   * `get_component_contributions`: each name mapped to its component's
   * share of the summed magnitudes, in percent, or to 0 when that sum is 0;
   * a later component overwrites an earlier one of the same name.
   */
  function ContributionShares(cs: seq<ScoreComponent>): (m: map<string, real>)
    ensures forall n :: n in m <==> n in Names(cs)
  {
    var total := Sum(AbsContributions(cs));
    map n | n in Names(cs) :: ShareOf(LastNamed(cs, n).value, total)
  }

  /** When the contributions are all 0, every name gets 0. */
  lemma ContributionSharesAllZero(cs: seq<ScoreComponent>)
    requires Sum(AbsContributions(cs)) == 0.0
    ensures forall n | n in ContributionShares(cs) :: ContributionShares(cs)[n] == 0.0
  {
  }

  /** Shares of the summed magnitudes themselves add up to 100. */
  lemma SharesOfWhole(cs: seq<ScoreComponent>)
    requires Sum(AbsContributions(cs)) != 0.0
    ensures Sum(Shares(cs, Sum(AbsContributions(cs)))) == 100.0
  {
    SharesSum(cs, Sum(AbsContributions(cs)));
    PercentOfWhole(Sum(AbsContributions(cs)));
  }

  /** The value `m` gives each component's name, in order. */
  function ValuesAt(m: map<string, real>, cs: seq<ScoreComponent>): (r: seq<real>)
    requires forall c | c in cs :: c.name in m
    ensures |r| == |cs|
    ensures forall i :: 0 <= i < |cs| ==> r[i] == m[cs[i].name]
  {
    if cs == [] then [] else [m[cs[0].name]] + ValuesAt(m, cs[1..])
  }

  /** Each name present maps to the share of the last component with that name. */
  lemma ContributionSharesLookup(cs: seq<ScoreComponent>, n: string)
    requires n in Names(cs)
    ensures n in ContributionShares(cs)
    ensures ContributionShares(cs)[n] == ShareOf(LastNamed(cs, n).value, Sum(AbsContributions(cs)))
  {
  }

  /** With distinct names, each name gets its own component's share of the summed magnitudes. */
  lemma ContributionShareAt(cs: seq<ScoreComponent>, i: nat)
    requires Distinct(Names(cs)) && i < |cs|
    ensures cs[i].name in ContributionShares(cs)
    ensures ContributionShares(cs)[cs[i].name] == ShareOf(cs[i], Sum(AbsContributions(cs)))
  {
    NameAt(cs, i);
    LastNamedDistinct(cs, i);
    ContributionSharesLookup(cs, cs[i].name);
  }

  /** Every component's name is a key of the share map. */
  lemma NamesInShares(cs: seq<ScoreComponent>)
    ensures forall c | c in cs :: c.name in ContributionShares(cs)
  {
    forall c | c in cs ensures c.name in Names(cs) {
      var i :| 0 <= i < |cs| && cs[i] == c;
      NameAt(cs, i);
    }
  }

  /** With distinct names, reading the map back in component order gives the per-component shares. */
  lemma ContributionSharesInOrder(cs: seq<ScoreComponent>)
    requires Distinct(Names(cs))
    ensures forall c | c in cs :: c.name in ContributionShares(cs)
    ensures ValuesAt(ContributionShares(cs), cs) == Shares(cs, Sum(AbsContributions(cs)))
  {
    NamesInShares(cs);
    var m, shares := ContributionShares(cs), Shares(cs, Sum(AbsContributions(cs)));
    forall i | 0 <= i < |cs| ensures m[cs[i].name] == shares[i] {
      ContributionShareAt(cs, i);
    }
  }

  /** With distinct names and some nonzero contribution, the percentages add up to 100. */
  lemma ContributionSharesSumTo100(cs: seq<ScoreComponent>)
    requires Distinct(Names(cs))
    requires Sum(AbsContributions(cs)) != 0.0
    ensures Sum(ValuesAt(ContributionShares(cs), cs)) == 100.0
  {
    ContributionSharesInOrder(cs);
    SharesOfWhole(cs);
  }

  /** The ranking key of a driver: the magnitude of its z-score. */
  function AbsZ(c: ScoreComponent): real
  {
    Abs(c.zscore)
  }

  /** `a` may come before `b` among the drivers: its |z| is at least as large. */
  function ByAbsZDesc(a: ScoreComponent, b: ScoreComponent): bool
  {
    AbsZ(b) <= AbsZ(a)
  }

  /** `get_top_drivers`: the first `n` components after a stable sort by descending |z|. */
  function TopDrivers(cs: seq<ScoreComponent>, n: int): seq<ScoreComponent>
  {
    PyHead(SortBy(cs, ByAbsZDesc), n)
  }

  /** Ordering by descending |z| is ordering by the key |z|. */
  lemma ByAbsZDescIsKeyOrder()
    ensures forall a, b :: ByAbsZDesc(a, b) <==> AbsZ(b) <= AbsZ(a)
  {
  }

  /** Every component comes ahead of those with a smaller |z|. */
  ghost predicate RankedByAbsZ(s: seq<ScoreComponent>)
  {
    forall i, j :: 0 <= i < j < |s| ==> AbsZ(s[j]) <= AbsZ(s[i])
  }

  /** Sorting by descending |z| ranks the components. */
  lemma SortedByAbsZ(cs: seq<ScoreComponent>)
    ensures RankedByAbsZ(SortBy(cs, ByAbsZDesc))
  {
    assert Total(ByAbsZDesc) && Transitive(ByAbsZDesc);
    SortBySorted(cs, ByAbsZDesc);
  }

  /** Whatever the head keeps from a sorted sequence is ranked no lower than what it drops. */
  lemma HeadRanked(t: seq<ScoreComponent>, r: seq<ScoreComponent>)
    requires RankedByAbsZ(t)
    requires |r| <= |t| && r == t[..|r|]
    ensures RankedByAbsZ(r)
    ensures multiset(r) <= multiset(t)
    ensures forall i, c :: 0 <= i < |r| && c in multiset(t) - multiset(r) ==> AbsZ(c) <= AbsZ(r[i])
  {
    assert t == r + t[|r|..];
    assert multiset(t) == multiset(r) + multiset(t[|r|..]);
    forall i, c | 0 <= i < |r| && c in multiset(t) - multiset(r) ensures AbsZ(c) <= AbsZ(r[i]) {
      assert c in multiset(t[|r|..]);
      var j :| 0 <= j < |t[|r|..]| && t[|r|..][j] == c;
      assert t[i] == r[i] && t[|r| + j] == c;
    }
  }

  /**
   * The top drivers are `min(n, |cs|)` of the components (for `n >= 0`),
   * in descending |z|, and no component left out has a larger |z| than
   * one that was picked.
   */
  lemma TopDriversRanked(cs: seq<ScoreComponent>, n: int)
    ensures var r := TopDrivers(cs, n);
      && (0 <= n ==> |r| == if n < |cs| then n else |cs|)
      && multiset(r) <= multiset(cs)
      && RankedByAbsZ(r)
      && (forall i, c :: 0 <= i < |r| && c in multiset(cs) - multiset(r) ==> AbsZ(c) <= AbsZ(r[i]))
  {
    var t := SortBy(cs, ByAbsZDesc);
    var r := PyHead(t, n);
    assert r == TopDrivers(cs, n) && |r| <= |t| && r == t[..|r|];
    SortedByAbsZ(cs);
    HeadRanked(t, r);
  }

  /** Ties keep their input order: the picked components of each |z| are the first ones of that |z| in `cs`. */
  lemma TopDriversStable(cs: seq<ScoreComponent>, n: int, k: real)
    ensures var kept, top := KeepKey(cs, AbsZ, k), KeepKey(TopDrivers(cs, n), AbsZ, k);
      |top| <= |kept| && top == kept[..|top|]
  {
    var t := SortBy(cs, ByAbsZDesc);
    var r := TopDrivers(cs, n);
    ByAbsZDescIsKeyOrder();
    SortByKeepKey(cs, ByAbsZDesc, AbsZ, k);
    assert t == r + t[|r|..];
    KeepKeyAppend(r, t[|r|..], AbsZ, k);
  }

  /** The reading of a VPB - IPB z-score gap: the first test that holds of > 1, > 0.5, < -1, < -0.5. */
  function ReadDivergence(d: real): (r: DivergenceReading)
    ensures r == StrongNarrow <==> d > 1.0
    ensures r == ModerateNarrow <==> 0.5 < d <= 1.0
    ensures r == StrongBroad <==> d < -1.0
    ensures r == ModerateBroad <==> -1.0 <= d < -0.5
    ensures r == Aligned <==> -0.5 <= d <= 0.5
  {
    if d > 1.0 then StrongNarrow
    else if d > 0.5 then ModerateNarrow
    else if d < -1.0 then StrongBroad
    else if d < -0.5 then ModerateBroad
    else Aligned
  }

  /** A strong reading is exactly a gap beyond the warning level, which is what the engine flags. */
  lemma StrongReadingIffFlagged(d: real)
    ensures ReadDivergence(d) in {StrongNarrow, StrongBroad} <==> Abs(d) > VPB_IPB_DIVERGENCE_WARN
  {
  }

  /**
   * `assess_vpb_ipb_divergence`: scans the components (a later VPB or IPB
   * overwrites an earlier one) and reads VPB z minus IPB z; nothing when
   * either is missing.
   */
  method AssessVpbIpbDivergence(cs: seq<ScoreComponent>) returns (divergence: Option<real>, reading: Option<DivergenceReading>)
    ensures divergence.None? <==> LastZscore(cs, "VPB").None? || LastZscore(cs, "IPB").None?
    ensures divergence.Some? ==> divergence.value == LastZscore(cs, "VPB").value - LastZscore(cs, "IPB").value
    ensures reading.Some? <==> divergence.Some?
    ensures reading.Some? ==> reading.value == ReadDivergence(divergence.value)
  {
    var vpbZ, ipbZ := ScanVpbIpb(cs);
    if vpbZ.None? || ipbZ.None? {
      return None, None;
    }
    var d := vpbZ.value - ipbZ.value;
    divergence, reading := Some(d), Some(ReadDivergence(d));
  }

  /** The scan shared by the composite assessment and the explanation: the last VPB and IPB z-scores. */
  method ScanVpbIpb(cs: seq<ScoreComponent>) returns (vpbZ: Option<real>, ipbZ: Option<real>)
    ensures vpbZ == LastZscore(cs, "VPB") && ipbZ == LastZscore(cs, "IPB")
  {
    vpbZ, ipbZ := None, None;
    var i := 0;
    while i < |cs|
      invariant 0 <= i <= |cs|
      invariant vpbZ == LastZscore(cs[..i], "VPB") && ipbZ == LastZscore(cs[..i], "IPB")
    {
      LastZscoreNext(cs, i, "VPB");
      LastZscoreNext(cs, i, "IPB");
      if cs[i].name == "VPB" {
        vpbZ := Some(cs[i].zscore);
      } else if cs[i].name == "IPB" {
        ipbZ := Some(cs[i].zscore);
      }
      i := i + 1;
    }
    assert cs[..i] == cs;
  }
}
