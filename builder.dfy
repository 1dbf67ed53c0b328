/**
 * The universe builder's pure steps: the liquidity filters, the ticker
 * de-duplication across exchanges, and the assembly of one day's snapshot.
 * Fetching candidates, loading the previous count and saving the snapshot
 * are I/O and not modelled; the previous count is a parameter.
 */
module Builder {
  import opened Wrappers
  import opened Types
  import opened Sorting
  import opened Seqs
  import opened Text

  /** The entries of one screener candidate the builder reads; an absent key is None, an absent symbol "". */
  datatype Candidate = Candidate(
    symbol: string,
    price: Option<real>,
    volume: Option<real>,
    marketCap: Option<real>,
    freeFloat: Option<real>)

  /** `stock.get(key, 0) or 0`: an absent entry reads as zero. */
  function OrZero(x: Option<real>): real
  {
    if x.Some? then x.value else 0.0
  }

  /** Python truthiness of an optional number: present and nonzero. */
  predicate Truthy(x: Option<real>)
  {
    x.Some? && x.value != 0.0
  }

  /**
   * A candidate survives the filters: it has a symbol, its price, volume and
   * market cap reach the minimums, and, when a free-float minimum is set and
   * the candidate reports its free-float percentage, its free-float cap
   * reaches that minimum.
   */
  predicate Passes(config: UniverseConfig, c: Candidate)
  {
    && c.symbol != []
    && OrZero(c.price) >= config.minPrice
    && OrZero(c.volume) >= config.minVolume
    && OrZero(c.marketCap) >= config.minMarketCap
    && !(Truthy(config.minFreeFloatCap) && c.freeFloat.Some?
         && OrZero(c.marketCap) * (c.freeFloat.value / 100.0) < config.minFreeFloatCap.value)
  }

  /** The candidates that pass, in their original order. */
  function Kept(config: UniverseConfig, cs: seq<Candidate>): (r: seq<Candidate>)
    ensures |r| <= |cs|
    ensures forall c :: c in r <==> c in cs && Passes(config, c)
  {
    if cs == [] then []
    else
      var c := cs[|cs| - 1];
      Kept(config, cs[..|cs| - 1]) + (if Passes(config, c) then [c] else [])
  }

  /** Filtering works batch by batch, keeping the order. */
  lemma {:induction false} KeptAppend(config: UniverseConfig, a: seq<Candidate>, b: seq<Candidate>)
    ensures Kept(config, a + b) == Kept(config, a) + Kept(config, b)
  {
    if b == [] {
      assert a + b == a;
    } else {
      var k := |b| - 1;
      assert (a + b)[..|a + b| - 1] == a + b[..k];
      assert (a + b)[|a + b| - 1] == b[k];
      KeptAppend(config, a, b[..k]);
    }
  }

  /** Filtering an already filtered list changes nothing. */
  lemma {:induction false} KeptIdempotent(config: UniverseConfig, cs: seq<Candidate>)
    ensures Kept(config, Kept(config, cs)) == Kept(config, cs)
  {
    if cs != [] {
      var k := |cs| - 1;
      var c := cs[k];
      KeptIdempotent(config, cs[..k]);
      var rest := if Passes(config, c) then [c] else [];
      KeptAppend(config, Kept(config, cs[..k]), rest);
      if Passes(config, c) {
        assert Kept(config, [c]) == Kept(config, [])  + [c] by {
          assert [c][..0] == [];
        }
      }
    }
  }

  /** `_apply_filters`: the candidates that pass, in order. */
  method ApplyFilters(config: UniverseConfig, candidates: seq<Candidate>) returns (filtered: seq<Candidate>)
    ensures filtered == Kept(config, candidates)
  {
    filtered := [];
    var i := 0;
    while i < |candidates|
      invariant 0 <= i <= |candidates|
      invariant filtered == Kept(config, candidates[..i])
    {
      var stock := candidates[i];
      assert candidates[..i + 1][..i] == candidates[..i];
      i := i + 1;
      var price := if stock.price.Some? then stock.price.value else 0.0;
      var volume := if stock.volume.Some? then stock.volume.value else 0.0;
      var marketCap := if stock.marketCap.Some? then stock.marketCap.value else 0.0;
      if |stock.symbol| == 0 {
        continue;
      }
      if price < config.minPrice {
        continue;
      }
      if volume < config.minVolume {
        continue;
      }
      if marketCap < config.minMarketCap {
        continue;
      }
      if config.minFreeFloatCap.Some? && config.minFreeFloatCap.value != 0.0 {
        var freeFloat := stock.freeFloat;
        if freeFloat.Some? {
          var freeFloatCap := marketCap * (freeFloat.value / 100.0);
          if freeFloatCap < config.minFreeFloatCap.value {
            continue;
          }
        }
      }
      filtered := filtered + [stock];
    }
    assert candidates[..|candidates|] == candidates;
  }

  /** The upper-cased nonempty symbols in order of first appearance, each once. */
  function Unique(cs: seq<Candidate>): (r: seq<string>)
    ensures Distinct(r)
    ensures forall s | s in r :: s != [] && Upper(s) == s
  {
    if cs == [] then []
    else
      var u := Unique(cs[..|cs| - 1]);
      var s := Upper(cs[|cs| - 1].symbol);
      UpperIdempotent(cs[|cs| - 1].symbol);
      if s != [] && s !in u then u + [s] else u
  }

  /** A candidate carries `s`: its symbol is nonempty and upper-cases to `s`. */
  predicate Carries(c: Candidate, s: string)
  {
    c.symbol != [] && Upper(c.symbol) == s
  }

  /** A symbol is among the unique ones exactly when some candidate carries it, in any case. */
  lemma {:induction false} UniqueMembers(cs: seq<Candidate>, s: string)
    ensures s in Unique(cs) <==> exists c :: c in cs && Carries(c, s)
  {
    if cs != [] {
      var k := |cs| - 1;
      UniqueMembers(cs[..k], s);
      assert cs == cs[..k] + [cs[k]];
      assert forall c :: c in cs <==> c in cs[..k] || c == cs[k];
      var u, x := Unique(cs[..k]), Upper(cs[k].symbol);
      assert |x| == |cs[k].symbol|;
      assert Unique(cs) == if x != [] && x !in u then u + [x] else u;
      assert s in Unique(cs) <==> s in u || Carries(cs[k], s);
    }
  }

  /** `_deduplicate`: the unique upper-cased symbols, sorted. */
  method Deduplicate(candidates: seq<Candidate>) returns (tickers: seq<string>)
    ensures tickers == SortStrings(Unique(candidates))
  {
    var seen: set<string> := {};
    var unique: seq<string> := [];
    var i := 0;
    while i < |candidates|
      invariant 0 <= i <= |candidates|
      invariant unique == Unique(candidates[..i])
      invariant forall s :: s in seen <==> s in unique
    {
      var stock := candidates[i];
      assert candidates[..i + 1][..i] == candidates[..i];
      var symbol := Upper(stock.symbol);
      if |symbol| != 0 && symbol !in seen {
        seen := seen + {symbol};
        unique := unique + [symbol];
      }
      i := i + 1;
    }
    assert candidates[..|candidates|] == candidates;
    tickers := SortStrings(unique);
  }

  /** The numeric entries the snapshot summarises. */
  datatype Field = MarketCap | Volume

  function Get(c: Candidate, field: Field): Option<real>
  {
    match field
    case MarketCap => c.marketCap
    case Volume => c.volume
  }

  /** The values of one entry across the candidates, where truthy, in order. */
  function TruthyValues(cs: seq<Candidate>, field: Field): (r: seq<real>)
    ensures |r| <= |cs|
    ensures forall x | x in r :: x != 0.0
  {
    if cs == [] then []
    else
      var v := Get(cs[|cs| - 1], field);
      TruthyValues(cs[..|cs| - 1], field) + (if Truthy(v) then [v.value] else [])
  }

  /** `statistics.median(xs) if xs else None`. */
  function MedianOrNone(xs: seq<real>): (m: Option<real>)
    ensures m.None? <==> xs == []
  {
    if xs == [] then None else Some(Median(xs))
  }

  /** The snapshot built when the screener returns no candidates. */
  function EmptySnapshot(tradeDate: Date): UniverseSnapshot
  {
    UniverseSnapshot(tradeDate, [], 0, None, None, None)
  }

  /**
   * One day's universe from the screener candidates: empty without
   * candidates; otherwise the filtered, de-duplicated, upper-cased tickers
   * in sorted order, their count, and the medians of the filtered
   * candidates' market caps and volumes.
   */
  method BuildUniverse(config: UniverseConfig, tradeDate: Date, candidates: seq<Candidate>, previousCount: Option<int>)
    returns (snapshot: UniverseSnapshot)
    ensures candidates == [] ==> snapshot == EmptySnapshot(tradeDate)
    ensures candidates != [] ==>
      var filtered := Kept(config, candidates);
      && snapshot.tradeDate == tradeDate
      && multiset(snapshot.tickers) == multiset(Unique(filtered))
      && SortedBy(snapshot.tickers, LexLe)
      && snapshot.count == |snapshot.tickers|
      && snapshot.medianMarketCap == MedianOrNone(TruthyValues(filtered, MarketCap))
      && snapshot.medianVolume == MedianOrNone(TruthyValues(filtered, Volume))
      && snapshot.previousCount == previousCount
  {
    if |candidates| == 0 {
      return EmptySnapshot(tradeDate);
    }
    var filtered := ApplyFilters(config, candidates);
    var uniqueTickers := Deduplicate(filtered);
    var marketCaps := TruthyValues(filtered, MarketCap);
    var volumes := TruthyValues(filtered, Volume);
    var medianMarketCap := MedianOrNone(marketCaps);
    var medianVolume := MedianOrNone(volumes);
    snapshot := UniverseSnapshot(tradeDate, SortStrings(uniqueTickers), |uniqueTickers|, medianMarketCap, medianVolume, previousCount);
  }

  /**
   * What the snapshot's tickers are: each once, upper-case, and exactly the
   * upper-cased symbols of the candidates that pass the filters.
   */
  lemma SnapshotTickers(config: UniverseConfig, candidates: seq<Candidate>, tickers: seq<string>)
    requires multiset(tickers) == multiset(Unique(Kept(config, candidates)))
    ensures Distinct(tickers)
    ensures forall t | t in tickers :: t != [] && Upper(t) == t
    ensures forall t :: t in tickers <==> exists c :: c in candidates && Passes(config, c) && Carries(c, t)
  {
    var filtered := Kept(config, candidates);
    DistinctPermutation(Unique(filtered), tickers);
    forall t
      ensures t in tickers <==> exists c :: c in candidates && Passes(config, c) && Carries(c, t)
    {
      assert t in tickers <==> t in multiset(Unique(filtered));
      UniqueMembers(filtered, t);
    }
  }

  /** Every candidate the filters keep meets the price, volume and market-cap minimums. */
  lemma KeptMeetsMinimums(config: UniverseConfig, candidates: seq<Candidate>)
    ensures forall c | c in Kept(config, candidates) ::
      c.symbol != [] && OrZero(c.price) >= config.minPrice && OrZero(c.volume) >= config.minVolume
      && OrZero(c.marketCap) >= config.minMarketCap
  {
  }

  /**
   * The minimums are inclusive: a candidate exactly at the default price,
   * volume, market cap and free-float cap passes.
   */
  lemma MinimumsInclusive()
    ensures Passes(DefaultUniverseConfig(), Candidate("ABC", Some(5.0), Some(1000000.0), Some(2000000000.0), Some(50.0)))
    ensures !Passes(DefaultUniverseConfig(), Candidate("ABC", Some(5.0), Some(1000000.0), Some(2000000000.0), Some(49.0)))
  {
  }
}
