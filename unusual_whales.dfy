/**
 * The pure helpers of the Unusual Whales client: the guardrail that
 * refuses dark-pool endpoints, and relative volumes with their median
 * from flow alerts. Requests, authentication and caching are not modelled.
 */
module UnusualWhales {
  import opened Wrappers
  import opened Types
  import opened Sorting
  import opened Text

  /** The endpoint templates, as (name, template) pairs; `{ticker}` is filled in before a request. */
  const ENDPOINTS: seq<(string, string)> := [
    ("lit_flow_recent", "/api/lit-flow/recent"),
    ("lit_flow_ticker", "/api/lit-flow/{ticker}"),
    ("flow_alerts", "/api/option-trades/flow-alerts"),
    ("stock_flow_recent", "/api/stock/{ticker}/flow-recent"),
    ("stock_flow_alerts", "/api/stock/{ticker}/flow-alerts"),
    ("market_tide", "/api/market/market-tide"),
    ("market_spike", "/api/market/spike"),
    ("total_options_volume", "/api/market/total-options-volume")
  ]

  /** Dark-pool endpoint prefixes this system must never call. */
  const EXCLUDED_ENDPOINTS: seq<string> := ["/api/darkpool", "/api/darkpool/", "/api/darkpool/recent", "/darkpool"]

  /** An endpoint is refused when, lower-cased, it starts with an excluded prefix. */
  predicate Excluded(endpoint: string)
  {
    exists i :: 0 <= i < |EXCLUDED_ENDPOINTS| && EXCLUDED_ENDPOINTS[i] <= Lower(endpoint)
  }

  /** The guardrail run before every request: false exactly when the endpoint is refused. */
  method ValidateEndpoint(endpoint: string) returns (allowed: bool)
    ensures allowed <==> !Excluded(endpoint)
  {
    var endpointLower := Lower(endpoint);
    var i := 0;
    while i < |EXCLUDED_ENDPOINTS|
      invariant 0 <= i <= |EXCLUDED_ENDPOINTS|
      invariant forall j :: 0 <= j < i ==> !(EXCLUDED_ENDPOINTS[j] <= endpointLower)
    {
      if EXCLUDED_ENDPOINTS[i] <= endpointLower {
        return false;
      }
      i := i + 1;
    }
    return true;
  }

  /** The two longer prefixes add nothing: an endpoint is refused exactly when it starts with `/api/darkpool` or `/darkpool`. */
  lemma ExcludedByTwoPrefixes(endpoint: string)
    ensures Excluded(endpoint) <==> "/api/darkpool" <= Lower(endpoint) || "/darkpool" <= Lower(endpoint)
  {
    var e := Lower(endpoint);
    if "/api/darkpool/" <= e {
      assert "/api/darkpool" <= e by {
        assert forall k :: 0 <= k < 13 ==> "/api/darkpool"[k] == "/api/darkpool/"[k];
      }
    }
    if "/api/darkpool/recent" <= e {
      assert "/api/darkpool" <= e by {
        assert forall k :: 0 <= k < 13 ==> "/api/darkpool"[k] == "/api/darkpool/recent"[k];
      }
    }
    assert EXCLUDED_ENDPOINTS[0] == "/api/darkpool" && EXCLUDED_ENDPOINTS[3] == "/darkpool";
  }

  /**
   * An endpoint is allowed when, lower-cased, neither its second nor its
   * sixth character is `d`: it then starts with neither `/darkpool` nor
   * `/api/darkpool`.
   */
  lemma AllowedWithoutD(endpoint: string)
    requires |endpoint| > 5 && LowerChar(endpoint[1]) != 'd' && LowerChar(endpoint[5]) != 'd'
    ensures !Excluded(endpoint)
  {
    var e := Lower(endpoint);
    ExcludedByTwoPrefixes(endpoint);
    assert !("/api/darkpool" <= e) by {
      assert "/api/darkpool"[5] == 'd' && e[5] == LowerChar(endpoint[5]);
    }
    assert !("/darkpool" <= e) by {
      assert "/darkpool"[1] == 'd' && e[1] == LowerChar(endpoint[1]);
    }
  }

  /** Every configured template is allowed. */
  lemma TemplatesAllowed()
    ensures forall i :: 0 <= i < |ENDPOINTS| ==> !Excluded(ENDPOINTS[i].1)
  {
    forall i | 0 <= i < |ENDPOINTS|
      ensures !Excluded(ENDPOINTS[i].1)
    {
      AllowedWithoutD(ENDPOINTS[i].1);
    }
  }

  /** The per-ticker endpoints are allowed whatever the ticker. */
  lemma TickerEndpointsAllowed(ticker: string)
    ensures !Excluded("/api/lit-flow/" + ticker)
    ensures !Excluded("/api/stock/" + ticker + "/flow-recent")
    ensures !Excluded("/api/stock/" + ticker + "/flow-alerts")
  {
    AllowedWithoutD("/api/lit-flow/" + ticker);
    AllowedWithoutD("/api/stock/" + ticker + "/flow-recent");
    AllowedWithoutD("/api/stock/" + ticker + "/flow-alerts");
  }

  /** A prefix without upper-case letters survives lower-casing. */
  lemma LowerKeepsPrefix(p: string, rest: string)
    requires forall k :: 0 <= k < |p| ==> !('A' <= p[k] <= 'Z')
    ensures p <= Lower(p + rest)
  {
    var e := Lower(p + rest);
    assert forall k :: 0 <= k < |p| ==> e[k] == LowerChar((p + rest)[k]) == p[k];
  }

  /** Conversely, anything under `/api/darkpool` or `/darkpool` is refused, whatever follows. */
  lemma DarkPoolRefused(rest: string)
    ensures Excluded("/api/darkpool" + rest)
    ensures Excluded("/darkpool" + rest)
  {
    LowerKeepsPrefix(EXCLUDED_ENDPOINTS[0], rest);
    LowerKeepsPrefix(EXCLUDED_ENDPOINTS[3], rest);
  }

  /** The entries of one flow alert the volume helper reads; an absent key is None. */
  datatype FlowAlert = FlowAlert(volume: Option<real>, avgVolume: Option<real>, averageVolume: Option<real>)

  /** `alert.get("volume", 0)`. */
  function AlertVolume(a: FlowAlert): real
  {
    if a.volume.Some? then a.volume.value else 0.0
  }

  /** `avg_volume or average_volume`, zero when neither is present and nonzero. */
  function AlertAverage(a: FlowAlert): real
  {
    if a.avgVolume.Some? && a.avgVolume.value != 0.0 then a.avgVolume.value
    else if a.averageVolume.Some? then a.averageVolume.value
    else 0.0
  }

  /** The relative volumes of the alerts with positive volume and average, in order. */
  function RelVols(alerts: seq<FlowAlert>): (values: seq<real>)
    ensures |values| <= |alerts|
  {
    if alerts == [] then []
    else
      var a := alerts[|alerts| - 1];
      RelVols(alerts[..|alerts| - 1])
        + (if AlertVolume(a) > 0.0 && AlertAverage(a) > 0.0 then [AlertVolume(a) / AlertAverage(a)] else [])
  }

  /** Every relative volume kept is positive. */
  lemma {:induction false} RelVolsPositive(alerts: seq<FlowAlert>)
    ensures forall i :: 0 <= i < |RelVols(alerts)| ==> RelVols(alerts)[i] > 0.0
  {
    if alerts != [] {
      RelVolsPositive(alerts[..|alerts| - 1]);
    }
  }

  /**
   * Relative volumes of the flow alerts and their median; with no alerts,
   * or none with a positive volume and average, the list is empty and the
   * median absent.
   */
  method CalculateRelativeVolumeSpikes(alerts: seq<FlowAlert>) returns (r: VolumeData)
    ensures r.relVolValues == Some(RelVols(alerts))
    ensures r.universeMedian.None? <==> RelVols(alerts) == []
    ensures r.universeMedian.Some? ==> r.universeMedian.value == Median(RelVols(alerts))
  {
    if |alerts| == 0 {
      return VolumeData(Some([]), None);
    }
    var volumes: seq<real> := [];
    var i := 0;
    while i < |alerts|
      invariant 0 <= i <= |alerts|
      invariant volumes == RelVols(alerts[..i])
    {
      var alert := alerts[i];
      assert alerts[..i + 1][..i] == alerts[..i];
      var vol := if alert.volume.Some? then alert.volume.value else 0.0;
      var avgVol := if alert.avgVolume.Some? && alert.avgVolume.value != 0.0 then alert.avgVolume.value
                    else if alert.averageVolume.Some? then alert.averageVolume.value
                    else 0.0;
      if vol > 0.0 && avgVol > 0.0 {
        volumes := volumes + [vol / avgVol];
      }
      i := i + 1;
    }
    assert alerts[..|alerts|] == alerts;
    if |volumes| == 0 {
      return VolumeData(Some([]), None);
    }
    r := VolumeData(Some(volumes), Some(Median(volumes)));
  }

  /** The median of the kept relative volumes is positive and lies within their range. */
  lemma MedianPositive(alerts: seq<FlowAlert>)
    requires RelVols(alerts) != []
    ensures Median(RelVols(alerts)) > 0.0
    ensures exists j :: 0 <= j < |RelVols(alerts)| && Median(RelVols(alerts)) <= RelVols(alerts)[j]
  {
    RelVolsPositive(alerts);
    MedianWithinRange(RelVols(alerts));
  }
}
