/**
 * The pure helpers of the Polygon client: advance/decline breadth from
 * the grouped daily response, and moving-average breadth from per-ticker
 * price histories. Fetching the data is not modelled.
 */
module Polygon {
  import opened Wrappers
  import opened Numeric
  import opened Types

  /** One ticker's entry of the grouped daily response; an absent key is None. */
  datatype GroupedBar = GroupedBar(v: Option<real>, c: Option<real>, o: Option<real>)
  {
    predicate Complete()
    {
      v.Some? && c.Some? && o.Some?
    }

    predicate Advancing()
    {
      Complete() && c.value > o.value
    }

    predicate Declining()
    {
      Complete() && c.value < o.value
    }
  }

  /** Volumes and counts of the advancing and the declining records. */
  datatype Tally = Tally(vAdv: real, vDec: real, nAdv: nat, nDec: nat)

  /** Adds up two tallies field by field. */
  function Combine(a: Tally, b: Tally): Tally
  {
    Tally(a.vAdv + b.vAdv, a.vDec + b.vDec, a.nAdv + b.nAdv, a.nDec + b.nDec)
  }

  /**
   * One record's contribution: a complete record closing above its open
   * adds its volume and one to the advancing side, below its open to the
   * declining side; an unchanged or incomplete record adds nothing.
   */
  function Step(t: Tally, b: GroupedBar): Tally
  {
    if b.Advancing() then Tally(t.vAdv + b.v.value, t.vDec, t.nAdv + 1, t.nDec)
    else if b.Declining() then Tally(t.vAdv, t.vDec + b.v.value, t.nAdv, t.nDec + 1)
    else t
  }

  /** The tally of a batch of records, taken in order. */
  function TallyOf(bars: seq<GroupedBar>): (t: Tally)
    ensures t.nAdv + t.nDec <= |bars|
  {
    if bars == [] then Tally(0.0, 0.0, 0, 0)
    else Step(TallyOf(bars[..|bars| - 1]), bars[|bars| - 1])
  }

  /** A step commutes with adding a tally on the left. */
  lemma StepCombine(t: Tally, u: Tally, b: GroupedBar)
    ensures Step(Combine(t, u), b) == Combine(t, Step(u, b))
  {
  }

  /** Tallying two batches separately and adding the results gives the tally of both together. */
  lemma {:induction false} TallyAppend(a: seq<GroupedBar>, b: seq<GroupedBar>)
    ensures TallyOf(a + b) == Combine(TallyOf(a), TallyOf(b))
  {
    if b == [] {
      assert a + b == a;
    } else {
      var k := |b| - 1;
      var ab := a + b;
      assert ab[..|ab| - 1] == a + b[..k];
      assert ab[|ab| - 1] == b[k];
      TallyAppend(a, b[..k]);
      assert TallyOf(ab) == Step(Combine(TallyOf(a), TallyOf(b[..k])), b[k]);
      assert TallyOf(b) == Step(TallyOf(b[..k]), b[k]);
      StepCombine(TallyOf(a), TallyOf(b[..k]), b[k]);
    }
  }

  /** A record without volume, close or open, or with an unchanged price, changes nothing. */
  lemma TallySkips(bars: seq<GroupedBar>, b: GroupedBar)
    requires !b.Complete() || b.c.value == b.o.value
    ensures TallyOf(bars + [b]) == TallyOf(bars)
  {
    assert (bars + [b])[..|bars|] == bars;
  }

  /**
   * Breadth from the grouped daily response: all four fields absent when
   * there are no results, and otherwise all four present, from the tally.
   */
  method CalculateBreadthFromGrouped(results: Option<seq<GroupedBar>>) returns (r: BreadthData)
    ensures results.None? || results.value == [] ==> r == BreadthData(None, None, None, None)
    ensures results.Some? && results.value != [] ==>
      var t := TallyOf(results.value);
      r == BreadthData(Some(t.vAdv), Some(t.vDec), Some(t.nAdv), Some(t.nDec))
  {
    if results.None? || |results.value| == 0 {
      return BreadthData(None, None, None, None);
    }
    var bars := results.value;
    var vAdv, vDec, nAdv, nDec := 0.0, 0.0, 0, 0;
    var i := 0;
    while i < |bars|
      invariant 0 <= i <= |bars|
      invariant TallyOf(bars[..i]) == Tally(vAdv, vDec, nAdv, nDec)
    {
      var b := bars[i];
      assert bars[..i + 1][..i] == bars[..i];
      if b.v.Some? && b.c.Some? && b.o.Some? {
        if b.c.value > b.o.value {
          vAdv := vAdv + b.v.value;
          nAdv := nAdv + 1;
        } else if b.c.value < b.o.value {
          vDec := vDec + b.v.value;
          nDec := nDec + 1;
        }
      }
      i := i + 1;
    }
    assert bars[..|bars|] == bars;
    r := BreadthData(Some(vAdv), Some(vDec), Some(nAdv), Some(nDec));
  }

  /** The closing prices of one ticker's bars, skipping bars without one. */
  function Closes(bars: seq<Option<real>>): (closes: seq<real>)
    ensures |closes| <= |bars|
  {
    if bars == [] then []
    else
      var k := |bars| - 1;
      Closes(bars[..k]) + (if bars[k].Some? then [bars[k].value] else [])
  }

  /** The mean of the last `k` closes. */
  function MeanOfLast(closes: seq<real>, k: nat): real
    requires 0 < k <= |closes|
  {
    Sum(closes[|closes| - k..]) / k as real
  }

  /** A ticker counts only with at least 200 bars and at least 200 closes. */
  predicate Qualifies(bars: seq<Option<real>>)
  {
    |bars| >= 200 && |Closes(bars)| >= 200
  }

  /** Whether a qualifying ticker's last close is above its 50-day and its 200-day mean. */
  function AboveAverages(bars: seq<Option<real>>): (bool, bool)
    requires Qualifies(bars)
  {
    var closes := Closes(bars);
    var current := closes[|closes| - 1];
    (current > MeanOfLast(closes, 50), current > MeanOfLast(closes, 200))
  }

  /** Qualifying tickers, and how many of them close above each average. */
  datatype MaTally = MaTally(above50: nat, above200: nat, valid: nat)

  function MaTallyOf(histories: seq<seq<Option<real>>>): (t: MaTally)
    ensures t.above50 <= t.valid && t.above200 <= t.valid && t.valid <= |histories|
  {
    if histories == [] then MaTally(0, 0, 0)
    else
      var k := |histories| - 1;
      var t := MaTallyOf(histories[..k]);
      if !Qualifies(histories[k]) then t
      else
        var (a50, a200) := AboveAverages(histories[k]);
        MaTally(t.above50 + (if a50 then 1 else 0), t.above200 + (if a200 then 1 else 0), t.valid + 1)
  }

  /** Counts the qualifying tickers and those above each average. */
  method TallyMa(histories: seq<seq<Option<real>>>) returns (t: MaTally)
    ensures t == MaTallyOf(histories)
  {
    var above50, above200, valid := 0, 0, 0;
    var i := 0;
    while i < |histories|
      invariant 0 <= i <= |histories|
      invariant MaTallyOf(histories[..i]) == MaTally(above50, above200, valid)
    {
      var bars := histories[i];
      assert histories[..i + 1][..i] == histories[..i];
      if |bars| >= 200 {
        var closes := Closes(bars);
        if |closes| >= 200 {
          var current := closes[|closes| - 1];
          var ma50 := Sum(closes[|closes| - 50..]) / 50.0;
          var ma200 := Sum(closes[|closes| - 200..]) / 200.0;
          assert AboveAverages(bars) == (current > ma50, current > ma200);
          valid := valid + 1;
          if current > ma50 {
            above50 := above50 + 1;
          }
          if current > ma200 {
            above200 := above200 + 1;
          }
        }
      }
      i := i + 1;
    }
    assert histories[..|histories|] == histories;
    t := MaTally(above50, above200, valid);
  }

  /**
   * The percentage of qualifying tickers above their 50-day and 200-day
   * means; both absent when no ticker qualifies.
   */
  method CalculateMaBreadth(histories: seq<seq<Option<real>>>) returns (r: MaBreadthData)
    ensures MaTallyOf(histories).valid == 0 <==> r == MaBreadthData(None, None)
    ensures r.pctMa50.Some? <==> r.pctMa200.Some?
    ensures r.pctMa50.Some? ==>
      var t := MaTallyOf(histories);
      && r.pctMa50.value == (t.above50 as real / t.valid as real) * 100.0 && 0.0 <= r.pctMa50.value <= 100.0
      && r.pctMa200.value == (t.above200 as real / t.valid as real) * 100.0 && 0.0 <= r.pctMa200.value <= 100.0
  {
    if |histories| == 0 {
      return MaBreadthData(None, None);
    }
    var t := TallyMa(histories);
    if t.valid == 0 {
      return MaBreadthData(None, None);
    }
    Percentage(t.above50 as real, t.valid as real);
    Percentage(t.above200 as real, t.valid as real);
    r := MaBreadthData(Some((t.above50 as real / t.valid as real) * 100.0), Some((t.above200 as real / t.valid as real) * 100.0));
  }
}
