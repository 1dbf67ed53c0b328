/**
 * Rolling baselines: one bounded FIFO window of (date, value) observations
 * per feature, and the calculator that keeps one such window for each
 * tracked feature.
 */
module Rolling {
  import opened Wrappers
  import opened Numeric
  import opened Seqs
  import opened Methods
  import opened Types

  /** The observations of a single feature, at most `window` of them, oldest first. */
  class RollingStats {
    const featureName: string
    const window: nat
    const minObservations: nat
    var values: seq<real>
    var dates: seq<Date>

    /**
     * Values and dates are evicted together, so they stay aligned and
     * within the window. A threshold of at least two keeps the sample
     * standard deviation defined whenever the window is ready.
     */
    ghost predicate Valid()
      reads this
    {
      |values| == |dates| <= window && 2 <= minObservations
    }

    constructor (featureName: string, window: nat, minObservations: nat)
      requires 2 <= minObservations
      ensures Valid()
      ensures this.featureName == featureName && this.window == window && this.minObservations == minObservations
      ensures values == [] && dates == []
    {
      this.featureName := featureName;
      this.window := window;
      this.minObservations := minObservations;
      values := [];
      dates := [];
    }

    /** Appends at the newest end; when full, the oldest value and its date leave together. */
    method Add(value: real, date: Date)
      requires Valid()
      modifies this
      ensures Valid()
      ensures values == Push(old(values), value, window)
      ensures dates == Push(old(dates), date, window)
    {
      values := Push(values, value, window);
      dates := Push(dates, date, window);
    }

    /** Adds the pairs of `vs` and `ds` in order, stopping at the shorter one. */
    method AddBulk(vs: seq<real>, ds: seq<Date>)
      requires Valid()
      modifies this
      ensures Valid()
      ensures var k := if |vs| < |ds| then |vs| else |ds|;
        values == Fed(old(values), vs, k, window) && dates == Fed(old(dates), ds, k, window)
    {
      var k := if |vs| < |ds| then |vs| else |ds|;
      ghost var v0, d0 := values, dates;
      FedNone(v0, vs, window);
      FedNone(d0, ds, window);
      var i := 0;
      while i < k
        invariant 0 <= i <= k
        invariant Valid()
        invariant values == Fed(v0, vs, i, window)
        invariant dates == Fed(d0, ds, i, window)
      {
        NewestPushNext(v0, vs, i, window);
        NewestPushNext(d0, ds, i, window);
        Add(vs[i], ds[i]);
        i := i + 1;
      }
    }

    function Count(): (c: nat)
      reads this
      requires Valid()
      ensures c <= window
    {
      |values|
    }

    function IsReady(): bool
      reads this
    {
      |values| >= minObservations
    }

    /** The window's mean, or None until it is ready. */
    function Mean(): (m: Option<real>)
      reads this
      requires Valid()
      ensures m.None? <==> !IsReady()
      ensures m.Some? ==> |values| > 0 && m.value == Numeric.Mean(values)
    {
      if !IsReady() then None else Some(Numeric.Mean(values))
    }

    /** The window's sample standard deviation (ddof 1), or None until it is ready. */
    function Std(math: Maths): (s: Option<real>)
      reads this
      requires Valid() && math.Valid()
      ensures s.None? <==> !IsReady()
      ensures s.Some? ==> |values| > 1 && s.value >= 0.0 && (s.value == 0.0 <==> Variance(values, 1) == 0.0)
    {
      if !IsReady() then None
      else
        VarianceNonNegative(values, 1);
        Some(Numeric.Std(math, values, 1))
    }

    method Clear()
      requires Valid()
      modifies this
      ensures Valid()
      ensures values == [] && dates == []
    {
      values := [];
      dates := [];
    }
  }

  /** One day's record from the history: its date (if any) and its feature values by name. */
  datatype HistoryRecord = HistoryRecord(date: Option<Date>, values: map<string, Option<real>>)

  /** True when `features` supplies a value for `name`. */
  predicate Supplies(features: map<string, Option<real>>, name: string)
  {
    name in features && features[name].Some?
  }

  /** The windows after one observation: each supplied, tracked feature takes its value. */
  function ObserveValues(ws: map<string, seq<real>>, features: map<string, Option<real>>, w: nat): map<string, seq<real>>
  {
    map n | n in ws :: if Supplies(features, n) then Push(ws[n], features[n].value, w) else ws[n]
  }

  /** The date windows after one observation: each supplied, tracked feature records the date. */
  function ObserveDates(ds: map<string, seq<Date>>, date: Date, features: map<string, Option<real>>, w: nat): map<string, seq<Date>>
  {
    map n | n in ds :: if Supplies(features, n) then Push(ds[n], date, w) else ds[n]
  }

  /** Feeding every dated record in order; undated records are skipped. */
  function ReplayValues(ws: map<string, seq<real>>, rs: seq<HistoryRecord>, w: nat): (r: map<string, seq<real>>)
    ensures r.Keys == ws.Keys
  {
    if rs == [] then ws
    else
      var before := ReplayValues(ws, rs[..|rs| - 1], w);
      var last := rs[|rs| - 1];
      if last.date.None? then before else ObserveValues(before, last.values, w)
  }

  function ReplayDates(ds: map<string, seq<Date>>, rs: seq<HistoryRecord>, w: nat): (r: map<string, seq<Date>>)
    ensures r.Keys == ds.Keys
  {
    if rs == [] then ds
    else
      var before := ReplayDates(ds, rs[..|rs| - 1], w);
      var last := rs[|rs| - 1];
      if last.date.None? then before else ObserveDates(before, last.date.value, last.values, w)
  }

  /** The number of records that have a date. */
  function DatedCount(rs: seq<HistoryRecord>): (c: nat)
    ensures c <= |rs|
  {
    if rs == [] then 0 else DatedCount(rs[..|rs| - 1]) + (if rs[|rs| - 1].date.Some? then 1 else 0)
  }

  /** The values a sequence of records supplies for `name`, from dated records only, in order. */
  function SuppliedValues(rs: seq<HistoryRecord>, name: string): seq<real>
  {
    if rs == [] then []
    else
      var last := rs[|rs| - 1];
      SuppliedValues(rs[..|rs| - 1], name)
        + (if last.date.Some? && Supplies(last.values, name) then [last.values[name].value] else [])
  }

  /** One observation changes exactly the windows of the features it supplies. */
  lemma ObserveTouchesOnlySupplied(ws: map<string, seq<real>>, features: map<string, Option<real>>, w: nat, n: string)
    requires n in ws
    ensures n in ObserveValues(ws, features, w)
    ensures !Supplies(features, n) ==> ObserveValues(ws, features, w)[n] == ws[n]
    ensures Supplies(features, n) && w > 0 ==>
      var r := ObserveValues(ws, features, w)[n];
      |r| > 0 && r[|r| - 1] == features[n].value && |r| <= w
  {
  }

  /**
   * Replaying a history leaves each tracked window holding the newest `w`
   * of everything it held before followed by everything supplied for it.
   */
  lemma {:induction false} ReplayIsNewest(ws: map<string, seq<real>>, rs: seq<HistoryRecord>, w: nat, n: string)
    requires n in ws && |ws[n]| <= w
    ensures ReplayValues(ws, rs, w)[n] == Newest(ws[n] + SuppliedValues(rs, n), w)
  {
    if rs == [] {
      assert ws[n] + [] == ws[n];
    } else {
      var init := rs[..|rs| - 1];
      ReplayIsNewest(ws, init, w, n);
      var prefix := ws[n] + SuppliedValues(init, n);
      if SuppliesLast(rs, n) {
        var x := rs[|rs| - 1].values[n].value;
        ReplayLastSupplied(ws, rs, w, n);
        NewestPush(prefix, x, w);
        assert ws[n] + SuppliedValues(rs, n) == prefix + [x];
      } else {
        ReplayLastSkipped(ws, rs, w, n);
        assert ws[n] + SuppliedValues(rs, n) == prefix;
      }
    }
  }

  /** The last record is dated and supplies `n`. */
  predicate SuppliesLast(rs: seq<HistoryRecord>, n: string)
  {
    rs != [] && rs[|rs| - 1].date.Some? && Supplies(rs[|rs| - 1].values, n)
  }

  /** A last record that supplies `n` pushes its value onto the window of `n`. */
  lemma ReplayLastSupplied(ws: map<string, seq<real>>, rs: seq<HistoryRecord>, w: nat, n: string)
    requires n in ws && SuppliesLast(rs, n)
    ensures var init, x := rs[..|rs| - 1], rs[|rs| - 1].values[n].value;
      && ReplayValues(ws, rs, w)[n] == Push(ReplayValues(ws, init, w)[n], x, w)
      && SuppliedValues(rs, n) == SuppliedValues(init, n) + [x]
  {
  }

  /** A last record that does not supply `n` leaves the window of `n` alone. */
  lemma ReplayLastSkipped(ws: map<string, seq<real>>, rs: seq<HistoryRecord>, w: nat, n: string)
    requires n in ws && rs != [] && !SuppliesLast(rs, n)
    ensures var init := rs[..|rs| - 1];
      && ReplayValues(ws, rs, w)[n] == ReplayValues(ws, init, w)[n]
      && SuppliedValues(rs, n) == SuppliedValues(init, n)
  {
    var init := rs[..|rs| - 1];
    assert SuppliedValues(rs, n) == SuppliedValues(init, n) + [];
  }

  /** Keeps one rolling window per tracked feature name. */
  class MultiFeatureRollingCalculator {
    const window: nat
    const minObservations: nat
    const names: seq<string>
    const stats: map<string, RollingStats>
    ghost const Repr: set<object>

    ghost predicate Valid()
      reads this, Repr
    {
      && Repr == (set n | n in stats :: stats[n] as object)
      && (forall n :: n in stats <==> n in names)
      && Distinct(names)
      && 2 <= minObservations
      && (forall n | n in stats ::
            && stats[n].Valid()
            && stats[n].window == window
            && stats[n].minObservations == minObservations
            && stats[n].featureName == n)
      && (forall n, m | n in stats && m in stats && n != m :: stats[n] != stats[m])
    }

    /** The value window of every tracked feature. */
    function Windows(): (r: map<string, seq<real>>)
      reads this, Repr
      requires Valid()
      ensures r.Keys == stats.Keys
      ensures forall n | n in r :: |r[n]| <= window
    {
      map n | n in stats :: stats[n].values
    }

    /** The date window of every tracked feature. */
    function DateWindows(): (r: map<string, seq<Date>>)
      reads this, Repr
      requires Valid()
      ensures r.Keys == stats.Keys
      ensures forall n | n in r :: |r[n]| <= window
    {
      map n | n in stats :: stats[n].dates
    }

    /** One empty window per distinct name, in first-occurrence order. */
    constructor (featureNames: seq<string>, window: nat, minObservations: nat)
      requires 2 <= minObservations
      ensures Valid()
      ensures this.window == window && this.minObservations == minObservations
      ensures forall n :: n in names <==> n in featureNames
      ensures Distinct(featureNames) ==> names == featureNames
      ensures forall n | n in stats :: stats[n].values == [] && stats[n].dates == []
      ensures fresh(Repr)
    {
      var m: map<string, RollingStats> := map[];
      var ns: seq<string> := [];
      var i := 0;
      while i < |featureNames|
        invariant 0 <= i <= |featureNames|
        invariant forall n :: n in m <==> n in ns
        invariant forall n :: n in ns <==> n in featureNames[..i]
        invariant Distinct(ns)
        invariant Distinct(featureNames) ==> ns == featureNames[..i]
        invariant forall n | n in m ::
            && fresh(m[n])
            && m[n].Valid()
            && m[n].window == window
            && m[n].minObservations == minObservations
            && m[n].featureName == n
            && m[n].values == [] && m[n].dates == []
        invariant forall n, k | n in m && k in m && n != k :: m[n] != m[k]
      {
        var name := featureNames[i];
        if name !in m {
          var s := new RollingStats(name, window, minObservations);
          m := m[name := s];
          ns := ns + [name];
        }
        assert featureNames[..i + 1] == featureNames[..i] + [name];
        i := i + 1;
      }
      assert featureNames[..i] == featureNames;
      this.window := window;
      this.minObservations := minObservations;
      names := ns;
      stats := m;
      Repr := (set n | n in m :: m[n] as object);
    }

    /** Adds one observation to the window of the tracked feature `k`; no other window changes. */
    method AddTo(k: string, value: real, date: Date)
      requires Valid() && k in stats
      modifies stats[k]
      ensures Valid()
      ensures stats[k].values == Push(old(stats[k].values), value, window)
      ensures stats[k].dates == Push(old(stats[k].dates), date, window)
      ensures forall n | n in stats && n != k :: stats[n].values == old(stats[n].values) && stats[n].dates == old(stats[n].dates)
    {
      stats[k].Add(value, date);
    }

    /**
     * Adds `date` and the value of every tracked feature that `features`
     * supplies (a non-None value); every other window is left as it was.
     * The keys are visited in no particular order: each touches only its own window.
     */
    method AddObservation(date: Date, features: map<string, Option<real>>)
      requires Valid()
      modifies Repr
      ensures Valid()
      ensures Windows() == ObserveValues(old(Windows()), features, window)
      ensures DateWindows() == ObserveDates(old(DateWindows()), date, features, window)
    {
      ghost var w0, d0 := Windows(), DateWindows();
      var keys := features.Keys;
      ghost var done: set<string> := {};
      while keys != {}
        invariant Valid()
        invariant keys + done == features.Keys && keys !! done
        invariant Observed(done, features, date, w0, d0)
        decreases keys
      {
        var k :| k in keys;
        ObserveKey(k, date, features, done, w0, d0);
        keys := keys - {k};
        done := done + {k};
      }
      ObservedAllValues(features, date, w0, d0);
      ObservedAllDates(features, date, w0, d0);
    }

    /** Once every key of `features` is handled, the value windows are those of ObserveValues. */
    lemma ObservedAllValues(features: map<string, Option<real>>, date: Date,
                            w0: map<string, seq<real>>, d0: map<string, seq<Date>>)
      requires Valid() && Observed(features.Keys, features, date, w0, d0)
      ensures Windows() == ObserveValues(w0, features, window)
    {
      var wv, ov := Windows(), ObserveValues(w0, features, window);
      forall n | n in stats
        ensures wv[n] == ov[n]
      {
        assert Supplies(features, n) ==> n in features.Keys;
      }
    }

    /** Once every key of `features` is handled, the date windows are those of ObserveDates. */
    lemma ObservedAllDates(features: map<string, Option<real>>, date: Date,
                           w0: map<string, seq<real>>, d0: map<string, seq<Date>>)
      requires Valid() && Observed(features.Keys, features, date, w0, d0)
      ensures DateWindows() == ObserveDates(d0, date, features, window)
    {
      var dv, od := DateWindows(), ObserveDates(d0, date, features, window);
      forall n | n in stats
        ensures dv[n] == od[n]
      {
        assert Supplies(features, n) ==> n in features.Keys;
      }
    }

    /**
     * Every tracked window holds its starting contents `w0`/`d0`, with the
     * observation pushed when its name is among `done` and supplied.
     */
    ghost predicate Observed(done: set<string>, features: map<string, Option<real>>, date: Date,
                             w0: map<string, seq<real>>, d0: map<string, seq<Date>>)
      reads this, Repr
      requires Valid()
    {
      && w0.Keys == stats.Keys && d0.Keys == stats.Keys
      && (forall n | n in stats ::
            stats[n].values == (if n in done && Supplies(features, n) then Push(w0[n], features[n].value, window) else w0[n]))
      && (forall n | n in stats ::
            stats[n].dates == (if n in done && Supplies(features, n) then Push(d0[n], date, window) else d0[n]))
    }

    /** One step of AddObservation: the key `k` of `features` is handled. */
    method ObserveKey(k: string, date: Date, features: map<string, Option<real>>, ghost done: set<string>,
                      ghost w0: map<string, seq<real>>, ghost d0: map<string, seq<Date>>)
      requires Valid() && k in features && k !in done
      requires Observed(done, features, date, w0, d0)
      modifies Repr
      ensures Valid()
      ensures Observed(done + {k}, features, date, w0, d0)
    {
      if k in stats && features[k].Some? {
        AddTo(k, features[k].value, date);
        forall n | n in stats
          ensures stats[n].values == (if n in done + {k} && Supplies(features, n) then Push(w0[n], features[n].value, window) else w0[n])
          ensures stats[n].dates == (if n in done + {k} && Supplies(features, n) then Push(d0[n], date, window) else d0[n])
        {
          if n != k {
            assert n in done + {k} <==> n in done;
          }
        }
      } else {
        assert forall n | n in stats :: n in done + {k} && Supplies(features, n) <==> n in done && Supplies(features, n);
      }
    }

    /** `_stats.get(name)`. */
    function GetStats(name: string): (s: Option<RollingStats>)
      reads this
      ensures s.Some? <==> name in stats
      ensures s.Some? ==> s.value == stats[name]
    {
      if name in stats then Some(stats[name]) else None
    }

    /** The names among `ns` whose window is ready (`ready`) or not ready (`!ready`), in order. */
    function Filter(ns: seq<string>, ready: bool): (r: seq<string>)
      reads this, Repr
      requires Valid()
      requires forall n | n in ns :: n in stats
      ensures forall n :: n in r <==> n in ns && stats[n].IsReady() == ready
      ensures |r| <= |ns|
      ensures Subsequence(r, ns)
    {
      if ns == [] then []
      else
        var rest := Filter(ns[1..], ready);
        if stats[ns[0]].IsReady() == ready then
          assert ([ns[0]] + rest)[1..] == rest;
          [ns[0]] + rest
        else rest
    }

    function GetReadyFeatures(): (r: seq<string>)
      reads this, Repr
      requires Valid()
      ensures forall n :: n in r <==> n in stats && stats[n].IsReady()
      ensures Subsequence(r, names)
    {
      Filter(names, true)
    }

    function GetNotReadyFeatures(): (r: seq<string>)
      reads this, Repr
      requires Valid()
      ensures forall n :: n in r <==> n in stats && !stats[n].IsReady()
      ensures Subsequence(r, names)
    {
      Filter(names, false)
    }

    /** The (value - mean) / std of a tracked, ready feature with nonzero spread; None otherwise. */
    function GetZscore(math: Maths, name: string, value: real): (z: Option<real>)
      reads this, Repr
      requires Valid() && math.Valid()
      ensures z.None? <==> name !in stats || !stats[name].IsReady() || stats[name].Std(math).value == 0.0
      ensures z.Some? ==> z.value * stats[name].Std(math).value == value - stats[name].Mean().value
    {
      if name !in stats || !stats[name].IsReady() then None
      else
        var mean := stats[name].Mean().value;
        var std := stats[name].Std(math).value;
        if std == 0.0 then None else Some(ZscoreNormalize(value, mean, Some(std)))
    }

    /** The share of a tracked, ready feature's window strictly below `value`, in percent; None otherwise. */
    function GetPercentile(name: string, value: real): (p: Option<real>)
      reads this, Repr
      requires Valid()
      ensures p.None? <==> name !in stats || !stats[name].IsReady()
      ensures p.Some? ==> p.value == PercentileRank(value, stats[name].values)
    {
      if name !in stats || !stats[name].IsReady() then None
      else
        Some(PercentileRank(value, stats[name].values))
    }

    /**
     * Feeds every record that has a date through AddObservation, in order,
     * and returns how many it fed. Repeated dates are fed again.
     */
    method LoadFromHistory(records: seq<HistoryRecord>) returns (count: nat)
      requires Valid()
      modifies Repr
      ensures Valid()
      ensures count == DatedCount(records)
      ensures Windows() == ReplayValues(old(Windows()), records, window)
      ensures DateWindows() == ReplayDates(old(DateWindows()), records, window)
    {
      count := 0;
      var i := 0;
      while i < |records|
        invariant 0 <= i <= |records|
        invariant Valid()
        invariant count == DatedCount(records[..i])
        invariant Windows() == ReplayValues(old(Windows()), records[..i], window)
        invariant DateWindows() == ReplayDates(old(DateWindows()), records[..i], window)
      {
        var record := records[i];
        assert records[..i + 1][..i] == records[..i];
        assert records[..i + 1][i] == record;
        if record.date.Some? {
          AddObservation(record.date.value, record.values);
          count := count + 1;
        }
        i := i + 1;
      }
      assert records[..i] == records;
    }
  }

  /** The tracked names split into ready and not ready, with none in both and none left out. */
  lemma ReadyPartition(c: MultiFeatureRollingCalculator)
    requires c.Valid()
    ensures forall n :: n in c.names <==> (n in c.GetReadyFeatures() || n in c.GetNotReadyFeatures())
    ensures forall n :: !(n in c.GetReadyFeatures() && n in c.GetNotReadyFeatures())
  {
  }

  /**
   * `get_zscore` and `zscore_normalize` agree whenever the former has a
   * value; on a ready window with zero spread the former gives None and the
   * latter 0.0.
   */
  lemma GetZscoreAgreesWithNormalize(c: MultiFeatureRollingCalculator, math: Maths, name: string, value: real)
    requires c.Valid() && math.Valid()
    requires name in c.stats && c.stats[name].IsReady()
    ensures var std := c.stats[name].Std(math);
      var z := c.GetZscore(math, name, value);
      var zn := ZscoreNormalize(value, c.stats[name].Mean().value, std);
      (z.Some? ==> z.value == zn) && (z.None? ==> zn == 0.0)
  {
  }
}
