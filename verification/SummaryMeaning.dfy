/**
 * What the summary of a load run says, in terms of its results alone
 * (ops/executor/report.go:39-120, 350-369): how many results have which fields.
 */
module SummaryMeaning {
  import opened Latency
  import opened Options
  import opened OrderNumber
  import opened Report

  lemma {:induction false} CountIsCard(rs: seq<RequestResult>, p: RequestResult -> bool, n: nat)
    requires n <= |rs|
    ensures CountIf(rs, p, n) == |set i | 0 <= i < n && p(rs[i])|
  {
    var all := set i | 0 <= i < n && p(rs[i]);
    if n > 0 {
      var fewer := set i | 0 <= i < n - 1 && p(rs[i]);
      CountIsCard(rs, p, n - 1);
      if p(rs[n - 1]) {
        assert all == fewer + {n - 1};
      } else {
        assert all == fewer;
      }
    }
  }

  lemma CountIs(rs: seq<RequestResult>, p: RequestResult -> bool, chosen: set<int>)
    requires forall i :: i in chosen <==> 0 <= i < |rs| && p(rs[i])
    ensures CountIf(rs, p, |rs|) == |chosen|
  {
    CountIsCard(rs, p, |rs|);
    assert chosen == set i | 0 <= i < |rs| && p(rs[i]);
  }

  lemma Successes(rs: seq<RequestResult>)
    ensures CountIf(rs, Succeeded, |rs|) ==
            |set i | 0 <= i < |rs| && rs[i].err.None? && rs[i].httpStatus == 200 && rs[i].code == "OK"
                     && (rs[i].trackAcceptedKnown ==> rs[i].trackAccepted)|
  {
    CountIs(rs, Succeeded, set i | 0 <= i < |rs| && rs[i].err.None? && rs[i].httpStatus == 200 && rs[i].code == "OK"
                                   && (rs[i].trackAcceptedKnown ==> rs[i].trackAccepted));
  }

  lemma Failures(rs: seq<RequestResult>)
    ensures CountIf(rs, NetworkFailed, |rs|) ==
            |set i | 0 <= i < |rs| && rs[i].err.Some? && rs[i].err.value != OpenModelDropped|
    ensures CountIf(rs, Dropped, |rs|) == |set i | 0 <= i < |rs| && rs[i].err == Some(OpenModelDropped)|
  {
    CountIs(rs, NetworkFailed, set i | 0 <= i < |rs| && rs[i].err.Some? && rs[i].err.value != OpenModelDropped);
    CountIs(rs, Dropped, set i | 0 <= i < |rs| && rs[i].err == Some(OpenModelDropped));
  }

  lemma Tracks(rs: seq<RequestResult>)
    ensures CountIf(rs, TrackKept, |rs|) == |set i | 0 <= i < |rs| && rs[i].trackAcceptedKnown && rs[i].trackAccepted|
    ensures CountIf(rs, TrackShed, |rs|) == |set i | 0 <= i < |rs| && rs[i].trackAcceptedKnown && !rs[i].trackAccepted|
  {
    CountIs(rs, TrackKept, set i | 0 <= i < |rs| && rs[i].trackAcceptedKnown && rs[i].trackAccepted);
    CountIs(rs, TrackShed, set i | 0 <= i < |rs| && rs[i].trackAcceptedKnown && !rs[i].trackAccepted);
  }

  /**
   * A success is a request answered with status 200 and code OK that was not a degraded
   * track; drops are the open model's own and do not count as network errors.
   */
  lemma SummaryCounts(classify: string -> string, rs: seq<RequestResult>, sorted: seq<int>)
    ensures var s := SummaryOf(classify, rs, sorted);
            && s.total == |rs|
            && s.success == |set i | 0 <= i < |rs| && rs[i].err.None? && rs[i].httpStatus == 200 && rs[i].code == "OK"
                                     && (rs[i].trackAcceptedKnown ==> rs[i].trackAccepted)|
            && s.networkErrors == |set i | 0 <= i < |rs| && rs[i].err.Some? && rs[i].err.value != OpenModelDropped|
            && s.localDrops == |set i | 0 <= i < |rs| && rs[i].err == Some(OpenModelDropped)|
            && s.trackAccepted == |set i | 0 <= i < |rs| && rs[i].trackAcceptedKnown && rs[i].trackAccepted|
            && s.trackDegraded == |set i | 0 <= i < |rs| && rs[i].trackAcceptedKnown && !rs[i].trackAccepted|
  {
    hide CountIf, Succeeded, NetworkFailed, Dropped, TrackKept, TrackShed;
    OutcomesCount(rs, |rs|);
    Successes(rs);
    Failures(rs);
    Tracks(rs);
  }

  /** Orders are counted once each, by their trimmed number, on every answered request. */
  lemma SummaryOrders(classify: string -> string, rs: seq<RequestResult>, sorted: seq<int>)
    ensures SummaryOf(classify, rs, sorted).uniqueOrders ==
            |set i | 0 <= i < |rs| && rs[i].err.None? && rs[i].httpStatus == 200 && rs[i].code == "OK"
                     && TrimSpace(rs[i].orderNo) != "" :: TrimSpace(rs[i].orderNo)|
  {
    OrdersAre(rs, |rs|);
    var orders := set i | 0 <= i < |rs| && rs[i].err.None? && rs[i].httpStatus == 200 && rs[i].code == "OK"
                          && TrimSpace(rs[i].orderNo) != "" :: TrimSpace(rs[i].orderNo);
    forall order ensures order in orders <==> order in OutcomesOf(rs, |rs|).orders {
      if order in OutcomesOf(rs, |rs|).orders {
        var i :| 0 <= i < |rs| && Ordered(rs[i]) && TrimSpace(rs[i].orderNo) == order;
      }
    }
    assert orders == OutcomesOf(rs, |rs|).orders;
  }

  lemma Statuses(rs: seq<RequestResult>, status: int)
    ensures CountIf(rs, HasStatus(status), |rs|) == |set i | 0 <= i < |rs| && rs[i].httpStatus == status|
  {
    CountIs(rs, HasStatus(status), set i | 0 <= i < |rs| && rs[i].httpStatus == status);
  }

  lemma Codes(rs: seq<RequestResult>, key: string)
    ensures CountIf(rs, HasCode(key), |rs|) ==
            |set i | 0 <= i < |rs| && key == (if TrimSpace(rs[i].code) == "" then "<empty>" else rs[i].code)|
  {
    hide TrimSpace;
    CountIs(rs, HasCode(key),
            set i | 0 <= i < |rs| && key == (if TrimSpace(rs[i].code) == "" then "<empty>" else rs[i].code));
  }

  lemma ErrorKinds(classify: string -> string, rs: seq<RequestResult>, key: string)
    ensures CountIf(rs, HasErrKind(classify, key), |rs|) ==
            |set i | 0 <= i < |rs| && rs[i].err.Some?
                     && key == (if rs[i].err.value.Failed? then classify(rs[i].err.value.message) else "local_drop")|
  {
    CountIs(rs, HasErrKind(classify, key),
            set i | 0 <= i < |rs| && rs[i].err.Some?
                    && key == (if rs[i].err.value.Failed? then classify(rs[i].err.value.message) else "local_drop"));
  }

  /** The three statistics: by status, by code (a blank one as "<empty>") and by kind of error. */
  lemma SummaryStats(classify: string -> string, rs: seq<RequestResult>, sorted: seq<int>, status: int, key: string)
    ensures var stats := SummaryOf(classify, rs, sorted).stats;
            && Get(stats.http, status) == |set i | 0 <= i < |rs| && rs[i].httpStatus == status|
            && Get(stats.code, key) ==
               |set i | 0 <= i < |rs| && key == (if TrimSpace(rs[i].code) == "" then "<empty>" else rs[i].code)|
            && Get(stats.error, key) ==
               |set i | 0 <= i < |rs| && rs[i].err.Some?
                        && key == (if rs[i].err.value.Failed? then classify(rs[i].err.value.message) else "local_drop")|
  {
    hide CountIf, HasStatus, HasCode, HasErrKind, StatsOf;
    StatsCount(classify, rs, |rs|, status, key);
    Statuses(rs, status);
    Codes(rs, key);
    ErrorKinds(classify, rs, key);
  }

  // ------------------------------------------------------------ latencies

  lemma {:induction false} AtMostIsCard(data: seq<int>, v: int, n: nat)
    requires n <= |data|
    ensures AtMost(data, v, n) == |set i | 0 <= i < n && data[i] <= v|
  {
    var low := set i | 0 <= i < n && data[i] <= v;
    if n > 0 {
      AtMostIsCard(data, v, n - 1);
      var fewer := set i | 0 <= i < n - 1 && data[i] <= v;
      assert low == if data[n - 1] <= v then fewer + {n - 1} else fewer;
    }
  }

  lemma {:induction false} BelowIsCard(data: seq<int>, v: int, n: nat)
    requires n <= |data|
    ensures Below(data, v, n) == |set i | 0 <= i < n && data[i] < v|
  {
    var low := set i | 0 <= i < n && data[i] < v;
    if n > 0 {
      BelowIsCard(data, v, n - 1);
      var fewer := set i | 0 <= i < n - 1 && data[i] < v;
      assert low == if data[n - 1] < v then fewer + {n - 1} else fewer;
    }
  }

  /** The counts of the latencies, taken on the results. */
  lemma LatencyCounts(rs: seq<RequestResult>, v: int)
    ensures var all := LatenciesOf(rs, |rs|).all;
            && |all| == |rs|
            && AtMost(all, v, |all|) == |set i | 0 <= i < |rs| && rs[i].latency <= v|
            && Below(all, v, |all|) == |set i | 0 <= i < |rs| && rs[i].latency < v|
  {
    var all := LatenciesOf(rs, |rs|).all;
    LatenciesAre(rs, |rs|);
    AtMostIsCard(all, v, |all|);
    BelowIsCard(all, v, |all|);
    assert (set i | 0 <= i < |rs| && rs[i].latency < v) == (set i | 0 <= i < |all| && all[i] < v);
    assert (set i | 0 <= i < |rs| && rs[i].latency <= v) == (set i | 0 <= i < |all| && all[i] <= v);
  }

  /** v is the p-quantile of the results' latencies: the one of rank floor((n-1)p), counted from 0. */
  ghost predicate QuantileOf(rs: seq<RequestResult>, p: real, v: int)
    requires rs != []
  {
    && (exists i :: 0 <= i < |rs| && rs[i].latency == v)
    && |set i | 0 <= i < |rs| && rs[i].latency < v| <= ((|rs| - 1) as real * p).Floor
       < |set i | 0 <= i < |rs| && rs[i].latency <= v|
  }

  lemma PercentileIsQuantile(rs: seq<RequestResult>, sorted: seq<int>, p: real)
    requires rs != [] && SortedLatencies(rs, sorted) && 0.0 < p < 1.0
    ensures QuantileOf(rs, p, Percentile(sorted, p))
  {
    hide AtMost, Below, LatenciesOf, Percentile, Ascending;
    var all, v := LatenciesOf(rs, |rs|).all, Percentile(sorted, p);
    LatencyCounts(rs, v);
    PercentileIsOrderStatistic(all, sorted, p);
    LatencyIsOne(rs, v);
  }

  lemma LatencyIsOne(rs: seq<RequestResult>, v: int)
    requires v in LatenciesOf(rs, |rs|).all
    ensures exists i :: 0 <= i < |rs| && rs[i].latency == v
  {
    LatenciesAre(rs, |rs|);
    var i :| 0 <= i < |rs| && LatenciesOf(rs, |rs|).all[i] == v;
    assert rs[i].latency == v;
  }

  function TotalLatency(rs: seq<RequestResult>): int
  {
    if rs == [] then 0 else rs[0].latency + TotalLatency(rs[1..])
  }

  lemma {:induction false} TotalSnoc(rs: seq<RequestResult>, r: RequestResult)
    ensures TotalLatency(rs + [r]) == TotalLatency(rs) + r.latency
  {
    if rs == [] {
      assert [r][1..] == [];
    } else {
      assert (rs + [r])[1..] == rs[1..] + [r];
      TotalSnoc(rs[1..], r);
    }
  }

  lemma {:induction false} SumIsTotal(rs: seq<RequestResult>, n: nat)
    requires n <= |rs|
    ensures LatenciesOf(rs, n).sum == TotalLatency(rs[..n])
  {
    if n > 0 {
      SumIsTotal(rs, n - 1);
      TotalSnoc(rs[..n - 1], rs[n - 1]);
      assert rs[..n] == rs[..n - 1] + [rs[n - 1]];
    }
  }

  /** P50, P95 and P99 are the quantiles at 0.50, 0.95 and 0.99. */
  lemma SummaryQuantiles(classify: string -> string, rs: seq<RequestResult>, sorted: seq<int>)
    requires rs != [] && SortedLatencies(rs, sorted)
    ensures var s := SummaryOf(classify, rs, sorted);
            QuantileOf(rs, 0.50, s.p50) && QuantileOf(rs, 0.95, s.p95) && QuantileOf(rs, 0.99, s.p99)
  {
    PercentileIsQuantile(rs, sorted, 0.50);
    PercentileIsQuantile(rs, sorted, 0.95);
    PercentileIsQuantile(rs, sorted, 0.99);
  }

  /** Max is the greatest latency, or 0 when none is positive. */
  lemma SummaryMax(classify: string -> string, rs: seq<RequestResult>, sorted: seq<int>)
    ensures var s := SummaryOf(classify, rs, sorted);
            && (forall i :: 0 <= i < |rs| ==> rs[i].latency <= s.max)
            && s.max >= 0 && (s.max > 0 ==> exists i :: 0 <= i < |rs| && rs[i].latency == s.max)
  {
    var l := LatenciesOf(rs, |rs|);
    LatenciesAre(rs, |rs|);
    if l.max > 0 { LatencyIsOne(rs, l.max); }
  }

  /** Mean is the average latency, cut off toward zero. */
  lemma SummaryMean(classify: string -> string, rs: seq<RequestResult>, sorted: seq<int>)
    requires rs != []
    ensures var mean, total := SummaryOf(classify, rs, sorted).mean, TotalLatency(rs);
            && (total >= 0 ==> mean * |rs| <= total < (mean + 1) * |rs|)
            && (total <= 0 ==> (mean - 1) * |rs| < total <= mean * |rs|)
  {
    hide SummaryOf, TotalLatency, GoDiv;
    MeanIs(classify, rs, sorted);
    GoDivMeaning(TotalLatency(rs), |rs|);
  }

  lemma MeanIs(classify: string -> string, rs: seq<RequestResult>, sorted: seq<int>)
    requires rs != []
    ensures SummaryOf(classify, rs, sorted).mean == GoDiv(TotalLatency(rs), |rs|)
  {
    hide LatenciesOf, TotalLatency, GoDiv, Percentile, StatsOf, OutcomesOf;
    SumIsTotal(rs, |rs|);
    assert rs[..|rs|] == rs;
  }

  // ------------------------------------------------------------ one result

  /** What each outcome of a request, and a dropped tick, add to the counters. */
  lemma ReplyOutcomes(latency: int, reply: Reply)
    ensures var r := ExecuteOne(latency, reply);
            && r.latency == latency && r.httpStatus == reply.status && r.code == reply.code
            && OutcomesOf([r], 1) ==
               match reply
               case PurchaseReply(status, code, orderNo) =>
                 Outcomes(0, 0, 0, 0, if status == 200 && code == "OK" then 1 else 0,
                          if status == 200 && code == "OK" && TrimSpace(orderNo) != "" then {TrimSpace(orderNo)} else {})
               case TrackReply(status, code, accepted) =>
                 Outcomes(0, 0, if accepted then 1 else 0, if accepted then 0 else 1,
                          if status == 200 && code == "OK" && accepted then 1 else 0, {})
               case PurchaseError(_, _, _) => Outcomes(0, 1, 0, 0, 0, {})
               case TrackError(_, _, _) => Outcomes(0, 1, 0, 1, 0, {})
    ensures OutcomesOf([DROP], 1) == Outcomes(1, 0, 0, 0, 0, {})
  {
    hide OutcomesOf, TrimSpace;
    OneOutcome(ExecuteOne(latency, reply));
    OneOutcome(DROP);
    BlankIsBlank();
    if reply.PurchaseReply? { TrimSpaceIdempotent(reply.orderNo); }
  }

  lemma OneOutcome(r: RequestResult)
    ensures OutcomesOf([r], 1) == AddOutcome(Outcomes(0, 0, 0, 0, 0, {}), r)
  {
    assert OutcomesOf([r], 0) == Outcomes(0, 0, 0, 0, 0, {});
  }

  lemma BlankIsBlank()
    ensures TrimSpace("") == ""
  {
  }

  // ------------------------------------------------------------ the verdict

  /** Which check of assertScenario fails, in their order; a negative limit is off. */
  lemma VerdictReasons(idempotency: bool, maxNetworkErrors: int, expectMaxSuccess: int, s: Summary)
    ensures var verdict := AssertScenario(idempotency, maxNetworkErrors, expectMaxSuccess, s);
            var counted := if idempotency then s.uniqueOrders else s.success;
            && (verdict == NetworkErrorsExceeded <==> 0 <= maxNetworkErrors < s.networkErrors)
            && (verdict == SuccessExceeded <==> verdict != NetworkErrorsExceeded && 0 <= expectMaxSuccess < counted)
            && (verdict == NotIdempotent <==>
                  verdict != NetworkErrorsExceeded && verdict != SuccessExceeded && idempotency && s.uniqueOrders >= 2)
  {
  }
}
