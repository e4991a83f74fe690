/**
 * The load generator's summary (ops/executor/report.go:39-120). Latencies are unbounded
 * integers and percentile ranks are reals.
 */
module Report {
  import opened Options
  import opened Latency
  import opened OrderNumber

  datatype Error = OpenModelDropped | Failed(message: string)

  datatype RequestResult = RequestResult(
    latency: int,
    httpStatus: int,
    code: string,
    orderNo: string,
    trackAccepted: bool,
    trackAcceptedKnown: bool,
    err: Option<Error>)

  const STATUS_OK := 200

  /** classifyNetworkError; `classify` stands for its table of message patterns. */
  function ErrKind(classify: string -> string, err: Error): string
  {
    match err
    case OpenModelDropped => "local_drop"
    case Failed(message) => classify(message)
  }

  /** The variables of summarize's loop: latencies, statistics by key, and outcome counters. */
  datatype Latencies = Latencies(all: seq<int>, sum: int, max: int)

  datatype Stats = Stats(http: map<int, nat>, code: map<string, nat>, error: map<string, nat>)

  datatype Outcomes = Outcomes(
    localDrops: nat,
    networkErrors: nat,
    trackAccepted: nat,
    trackDegraded: nat,
    success: nat,
    orders: set<string>)

  function Bump<K>(stats: map<K, nat>, key: K): map<K, nat>
  {
    stats[key := (if key in stats then stats[key] else 0) + 1]
  }

  function CodeKey(r: RequestResult): string
  {
    if TrimSpace(r.code) != "" then r.code else "<empty>"
  }

  predicate Answered(r: RequestResult)
  {
    r.err.None? && r.httpStatus == STATUS_OK && r.code == "OK"
  }

  predicate Succeeded(r: RequestResult)
  {
    Answered(r) && (!r.trackAcceptedKnown || r.trackAccepted)
  }

  predicate Ordered(r: RequestResult)
  {
    Answered(r) && TrimSpace(r.orderNo) != ""
  }

  predicate Dropped(r: RequestResult)
  {
    r.err == Some(OpenModelDropped)
  }

  predicate NetworkFailed(r: RequestResult)
  {
    r.err.Some? && r.err.value.Failed?
  }

  predicate Errored(r: RequestResult)
  {
    r.err.Some?
  }

  predicate TrackKept(r: RequestResult)
  {
    r.trackAcceptedKnown && r.trackAccepted
  }

  predicate TrackShed(r: RequestResult)
  {
    r.trackAcceptedKnown && !r.trackAccepted
  }

  function One(b: bool): nat
  {
    if b then 1 else 0
  }

  function AddLatency(l: Latencies, r: RequestResult): Latencies
  {
    Latencies(l.all + [r.latency], l.sum + r.latency, if r.latency > l.max then r.latency else l.max)
  }

  function AddStats(classify: string -> string, t: Stats, r: RequestResult): Stats
  {
    Stats(Bump(t.http, r.httpStatus), Bump(t.code, CodeKey(r)),
          if r.err.Some? then Bump(t.error, ErrKind(classify, r.err.value)) else t.error)
  }

  function AddOutcome(o: Outcomes, r: RequestResult): Outcomes
  {
    Outcomes(
      o.localDrops + One(Dropped(r)),
      o.networkErrors + One(NetworkFailed(r)),
      o.trackAccepted + One(TrackKept(r)),
      o.trackDegraded + One(TrackShed(r)),
      o.success + One(Succeeded(r)),
      if Ordered(r) then o.orders + {TrimSpace(r.orderNo)} else o.orders)
  }

  /** The first n turns of the loop, variable by variable. */
  function LatenciesOf(rs: seq<RequestResult>, n: nat): Latencies
    requires n <= |rs|
  {
    if n == 0 then Latencies([], 0, 0) else AddLatency(LatenciesOf(rs, n - 1), rs[n - 1])
  }

  function StatsOf(classify: string -> string, rs: seq<RequestResult>, n: nat): Stats
    requires n <= |rs|
  {
    if n == 0 then Stats(map[], map[], map[]) else AddStats(classify, StatsOf(classify, rs, n - 1), rs[n - 1])
  }

  function OutcomesOf(rs: seq<RequestResult>, n: nat): Outcomes
    requires n <= |rs|
  {
    if n == 0 then Outcomes(0, 0, 0, 0, 0, {}) else AddOutcome(OutcomesOf(rs, n - 1), rs[n - 1])
  }

  method CountStats(classify: string -> string, before: Stats, r: RequestResult) returns (after: Stats)
    ensures after == AddStats(classify, before, r)
  {
    after := before.(http := Bump(before.http, r.httpStatus));
    if TrimSpace(r.code) != "" {
      after := after.(code := Bump(after.code, r.code));
    } else {
      after := after.(code := Bump(after.code, "<empty>"));
    }
    if r.err.Some? {
      after := after.(error := Bump(after.error, ErrKind(classify, r.err.value)));
    }
  }

  method CountOutcome(before: Outcomes, r: RequestResult) returns (after: Outcomes)
    ensures after == AddOutcome(before, r)
  {
    after := before;
    if r.err.Some? {
      if r.err.value.OpenModelDropped? {
        after := after.(localDrops := after.localDrops + 1);
      } else {
        after := after.(networkErrors := after.networkErrors + 1);
      }
    }
    if r.trackAcceptedKnown {
      if r.trackAccepted {
        after := after.(trackAccepted := after.trackAccepted + 1);
      } else {
        after := after.(trackDegraded := after.trackDegraded + 1);
      }
    }
    if r.err.None? && r.httpStatus == STATUS_OK && r.code == "OK" {
      if !r.trackAcceptedKnown || r.trackAccepted {
        after := after.(success := after.success + 1);
      }
      if TrimSpace(r.orderNo) != "" {
        after := after.(orders := after.orders + {TrimSpace(r.orderNo)});
      }
    }
  }

  /** summarize's loop. */
  method Tally(classify: string -> string, rs: seq<RequestResult>)
    returns (latencies: Latencies, stats: Stats, outcomes: Outcomes)
    ensures latencies == LatenciesOf(rs, |rs|) && stats == StatsOf(classify, rs, |rs|) && outcomes == OutcomesOf(rs, |rs|)
  {
    latencies, stats, outcomes := Latencies([], 0, 0), Stats(map[], map[], map[]), Outcomes(0, 0, 0, 0, 0, {});
    for n := 0 to |rs|
      invariant latencies == LatenciesOf(rs, n) && stats == StatsOf(classify, rs, n) && outcomes == OutcomesOf(rs, n)
    {
      latencies := AddLatency(latencies, rs[n]);
      stats := CountStats(classify, stats, rs[n]);
      outcomes := CountOutcome(outcomes, rs[n]);
    }
  }

  // ------------------------------------------------------------ counts

  function CountIf(rs: seq<RequestResult>, p: RequestResult -> bool, n: nat): nat
    requires n <= |rs|
  {
    if n == 0 then 0 else CountIf(rs, p, n - 1) + One(p(rs[n - 1]))
  }

  ghost function SumValues<K(!new)>(m: map<K, nat>): nat
    decreases |m|
  {
    if m == map[] then 0
    else
      var k :| k in m;
      m[k] + SumValues(m - {k})
  }

  lemma {:induction false} SumRemove<K(!new)>(m: map<K, nat>, k: K)
    requires k in m
    ensures SumValues(m) == m[k] + SumValues(m - {k})
    decreases |m|
  {
    var j :| j in m && SumValues(m) == m[j] + SumValues(m - {j});
    if j != k {
      SumRemove(m - {j}, k);
      SumRemove(m - {k}, j);
      assert m - {j} - {k} == m - {k} - {j};
    }
  }

  /** One more of a key adds one to the total. */
  lemma SumBump<K(!new)>(m: map<K, nat>, k: K)
    ensures SumValues(Bump(m, k)) == SumValues(m) + 1
  {
    SumRemove(Bump(m, k), k);
    assert Bump(m, k) - {k} == m - {k};
    if k in m { SumRemove(m, k); } else { assert m - {k} == m; }
  }

  lemma StatsGrow(classify: string -> string, t: Stats, r: RequestResult)
    ensures var t' := AddStats(classify, t, r);
            && SumValues(t'.http) == SumValues(t.http) + 1
            && SumValues(t'.code) == SumValues(t.code) + 1
            && SumValues(t'.error) == SumValues(t.error) + One(Errored(r))
  {
    SumBump(t.http, r.httpStatus);
    SumBump(t.code, CodeKey(r));
    if r.err.Some? { SumBump(t.error, ErrKind(classify, r.err.value)); }
  }

  lemma OutcomeGrows(o: Outcomes, r: RequestResult)
    ensures var o' := AddOutcome(o, r);
            && o'.networkErrors + o'.localDrops == o.networkErrors + o.localDrops + One(Errored(r))
            && o'.success <= o.success + One(!Errored(r))
  {
  }

  lemma {:induction false} StatsSums(classify: string -> string, rs: seq<RequestResult>, n: nat)
    requires n <= |rs|
    ensures var t := StatsOf(classify, rs, n);
            SumValues(t.http) == n && SumValues(t.code) == n && SumValues(t.error) == CountIf(rs, Errored, n)
  {
    if n > 0 {
      var before := StatsOf(classify, rs, n - 1);
      StatsSums(classify, rs, n - 1);
      StatsGrow(classify, before, rs[n - 1]);
      assert StatsOf(classify, rs, n) == AddStats(classify, before, rs[n - 1]);
    }
  }

  lemma {:induction false} OutcomesSum(rs: seq<RequestResult>, n: nat)
    requires n <= |rs|
    ensures var o := OutcomesOf(rs, n);
            && o.networkErrors + o.localDrops == CountIf(rs, Errored, n)
            && o.success + CountIf(rs, Errored, n) <= n
  {
    if n > 0 {
      OutcomesSum(rs, n - 1);
      OutcomeGrows(OutcomesOf(rs, n - 1), rs[n - 1]);
    }
  }

  function Get<K>(m: map<K, nat>, k: K): nat
  {
    if k in m then m[k] else 0
  }

  function HasStatus(status: int): RequestResult -> bool
  {
    (r: RequestResult) => r.httpStatus == status
  }

  function HasCode(code: string): RequestResult -> bool
  {
    (r: RequestResult) => CodeKey(r) == code
  }

  function HasErrKind(classify: string -> string, kind: string): RequestResult -> bool
  {
    (r: RequestResult) => r.err.Some? && ErrKind(classify, r.err.value) == kind
  }

  lemma StatsAt(classify: string -> string, t: Stats, r: RequestResult, status: int, key: string)
    ensures var t' := AddStats(classify, t, r);
            && Get(t'.http, status) == Get(t.http, status) + One(HasStatus(status)(r))
            && Get(t'.code, key) == Get(t.code, key) + One(HasCode(key)(r))
            && Get(t'.error, key) == Get(t.error, key) + One(HasErrKind(classify, key)(r))
  {
  }

  /** Each entry counts the results with its key. */
  lemma {:induction false} StatsCount(classify: string -> string, rs: seq<RequestResult>, n: nat, status: int, key: string)
    requires n <= |rs|
    ensures var t := StatsOf(classify, rs, n);
            && Get(t.http, status) == CountIf(rs, HasStatus(status), n)
            && Get(t.code, key) == CountIf(rs, HasCode(key), n)
            && Get(t.error, key) == CountIf(rs, HasErrKind(classify, key), n)
  {
    if n > 0 {
      StatsCount(classify, rs, n - 1, status, key);
      StatsAt(classify, StatsOf(classify, rs, n - 1), rs[n - 1], status, key);
    }
  }

  lemma {:induction false} OutcomesCount(rs: seq<RequestResult>, n: nat)
    requires n <= |rs|
    ensures var o := OutcomesOf(rs, n);
            && o.success == CountIf(rs, Succeeded, n)
            && o.localDrops == CountIf(rs, Dropped, n)
            && o.networkErrors == CountIf(rs, NetworkFailed, n)
            && o.trackAccepted == CountIf(rs, TrackKept, n)
            && o.trackDegraded == CountIf(rs, TrackShed, n)
  {
    if n > 0 { OutcomesCount(rs, n - 1); }
  }

  lemma {:induction false} LatenciesAre(rs: seq<RequestResult>, n: nat)
    requires n <= |rs|
    ensures var l := LatenciesOf(rs, n);
            && |l.all| == n && (forall i :: 0 <= i < n ==> l.all[i] == rs[i].latency <= l.max)
            && l.max >= 0 && (l.max == 0 || l.max in l.all)
  {
    if n > 0 { LatenciesAre(rs, n - 1); }
  }

  lemma SumStep(lo: int, sum: int, max: int, n: nat, x: int, max': int)
    requires lo * n <= sum <= max * n && lo <= x <= max' && max <= max'
    ensures lo * (n + 1) <= sum + x <= max' * (n + 1)
  {
    assert max * n <= max' * n;
  }

  lemma {:induction false} SumBetween(rs: seq<RequestResult>, n: nat, lo: int)
    requires n <= |rs| && forall i :: 0 <= i < n ==> lo <= rs[i].latency
    ensures lo * n <= LatenciesOf(rs, n).sum <= LatenciesOf(rs, n).max * n
  {
    if n > 0 {
      SumBetween(rs, n - 1, lo);
      var l, l' := LatenciesOf(rs, n - 1), LatenciesOf(rs, n);
      SumStep(lo, l.sum, l.max, n - 1, rs[n - 1].latency, l'.max);
    }
  }

  // ------------------------------------------------------------ the summary

  datatype Summary = Summary(
    total: nat,
    success: nat,
    uniqueOrders: nat,
    networkErrors: nat,
    localDrops: nat,
    trackAccepted: nat,
    trackDegraded: nat,
    mean: int,
    p50: int,
    p95: int,
    p99: int,
    max: int,
    stats: Stats)

  /** The summary of the results, given their latencies in order. */
  function SummaryOf(classify: string -> string, rs: seq<RequestResult>, sorted: seq<int>): Summary
  {
    var l, o := LatenciesOf(rs, |rs|), OutcomesOf(rs, |rs|);
    Summary(|rs|, o.success, |o.orders|, o.networkErrors, o.localDrops, o.trackAccepted, o.trackDegraded,
            if rs == [] then 0 else GoDiv(l.sum, |rs|),
            Percentile(sorted, 0.50), Percentile(sorted, 0.95), Percentile(sorted, 0.99), l.max,
            StatsOf(classify, rs, |rs|))
  }

  ghost predicate SortedLatencies(rs: seq<RequestResult>, sorted: seq<int>)
  {
    Ascending(sorted) && multiset(sorted) == multiset(LatenciesOf(rs, |rs|).all)
  }

  method Summarize(classify: string -> string, rs: seq<RequestResult>) returns (s: Summary)
    ensures exists sorted :: SortedLatencies(rs, sorted) && s == SummaryOf(classify, rs, sorted)
  {
    if |rs| == 0 {
      assert SortedLatencies(rs, []);
      return Summary(0, 0, 0, 0, 0, 0, 0, 0, 0, 0, 0, 0, Stats(map[], map[], map[]));
    }
    var l, stats, o := Tally(classify, rs);
    var latencies := SortLatencies(l.all);
    LatenciesSorted(l.all);
    s := Summary(|rs|, o.success, |o.orders|, o.networkErrors, o.localDrops, o.trackAccepted, o.trackDegraded,
                 GoDiv(l.sum, |rs|),
                 Percentile(latencies, 0.50), Percentile(latencies, 0.95), Percentile(latencies, 0.99), l.max, stats);
    assert SortedLatencies(rs, latencies);
  }

  /** HTTP and code counts each sum to Total, error kinds to NetworkErrors + LocalDrops; no result is both. */
  lemma TalliesSum(classify: string -> string, rs: seq<RequestResult>, sorted: seq<int>)
    ensures var s := SummaryOf(classify, rs, sorted);
            && SumValues(s.stats.http) == SumValues(s.stats.code) == s.total
            && SumValues(s.stats.error) == s.networkErrors + s.localDrops
            && s.success + s.networkErrors + s.localDrops <= s.total
  {
    StatsSums(classify, rs, |rs|);
    OutcomesSum(rs, |rs|);
  }

  /** For every list of results: P50 <= P95 <= P99 <= Max, and the mean lies between any lower bound and Max. */
  lemma LatencyOrder(classify: string -> string, rs: seq<RequestResult>, sorted: seq<int>, lo: int)
    requires rs != [] && SortedLatencies(rs, sorted)
    requires forall i :: 0 <= i < |rs| ==> lo <= rs[i].latency
    ensures var s := SummaryOf(classify, rs, sorted);
            lo <= s.p50 <= s.p95 <= s.p99 <= s.max && lo <= s.mean <= s.max
  {
    var l := LatenciesOf(rs, |rs|);
    LatenciesAre(rs, |rs|);
    SumBetween(rs, |rs|, lo);
    PercentilesOrdered(sorted, 0.50, 0.95);
    PercentilesOrdered(sorted, 0.95, 0.99);
    MeanBetween(l.sum, |rs|, lo, l.max);
    assert |multiset(sorted)| == |multiset(l.all)|;
    SortedAmong(sorted, l.all, Rank(|sorted|, 0.99));
    SortedAmong(sorted, l.all, Rank(|sorted|, 0.50));
  }

  lemma SortedAmong(sorted: seq<int>, all: seq<int>, k: nat)
    requires multiset(sorted) == multiset(all) && k < |sorted|
    ensures sorted[k] in all
  {
    assert sorted[k] in multiset(all);
  }

  // ------------------------------------------------------------ unique orders

  /** What executeOne gets back: a purchase carries no order number with an error, a track no order number at all. */
  datatype Reply =
    | PurchaseReply(status: int, code: string, orderNo: string)
    | TrackReply(status: int, code: string, accepted: bool)
    | PurchaseError(status: int, code: string, message: string)
    | TrackError(status: int, code: string, message: string)

  function ExecuteOne(latency: int, reply: Reply): RequestResult
  {
    match reply
    case PurchaseReply(status, code, orderNo) => RequestResult(latency, status, code, TrimSpace(orderNo), false, false, None)
    case TrackReply(status, code, accepted) => RequestResult(latency, status, code, "", accepted, true, None)
    case PurchaseError(status, code, message) => RequestResult(latency, status, code, "", false, false, Some(Failed(message)))
    case TrackError(status, code, message) => RequestResult(latency, status, code, "", false, true, Some(Failed(message)))
  }

  /** The result an open run records for a dropped tick. */
  const DROP := RequestResult(0, 0, "", "", false, false, Some(OpenModelDropped))

  ghost predicate Recorded(r: RequestResult)
  {
    r == DROP || exists latency, reply :: r == ExecuteOne(latency, reply)
  }

  /** An order comes only with a success. */
  lemma RecordedOrder(r: RequestResult)
    requires Recorded(r) && Ordered(r)
    ensures Succeeded(r)
  {
  }

  lemma {:induction false} OrdersBound(rs: seq<RequestResult>, n: nat)
    requires n <= |rs| && forall i :: 0 <= i < n && Ordered(rs[i]) ==> Succeeded(rs[i])
    ensures |OutcomesOf(rs, n).orders| <= OutcomesOf(rs, n).success
  {
    if n > 0 { OrdersBound(rs, n - 1); }
  }

  /** For the results of a run, UniqueOrders <= Success. */
  lemma UniqueOrdersBound(classify: string -> string, rs: seq<RequestResult>, sorted: seq<int>)
    requires forall i :: 0 <= i < |rs| ==> Recorded(rs[i])
    ensures var s := SummaryOf(classify, rs, sorted); s.uniqueOrders <= s.success
  {
    forall i | 0 <= i < |rs| && Ordered(rs[i]) ensures Succeeded(rs[i]) {
      RecordedOrder(rs[i]);
    }
    OrdersBound(rs, |rs|);
  }

  /** Of other results it need not hold: a degraded track with an order number counts as an order only. */
  lemma DegradedOrderCounts(orderNo: string)
    requires TrimSpace(orderNo) != ""
    ensures var rs := [RequestResult(1, 200, "OK", orderNo, false, true, None)];
            OutcomesOf(rs, 1).orders == {TrimSpace(orderNo)} && OutcomesOf(rs, 1).success == 0
  {
    var r := RequestResult(1, 200, "OK", orderNo, false, true, None);
    assert Ordered(r) && !Succeeded(r);
    assert OutcomesOf([r], 0) == Outcomes(0, 0, 0, 0, 0, {});
    assert OutcomesOf([r], 1) == AddOutcome(OutcomesOf([r], 0), r);
  }

  // ------------------------------------------------------------ the verdict

  datatype Verdict = Pass | NetworkErrorsExceeded | SuccessExceeded | NotIdempotent

  /** assertScenario; negative limits are off. */
  function AssertScenario(idempotency: bool, maxNetworkErrors: int, expectMaxSuccess: int, s: Summary): Verdict
  {
    if maxNetworkErrors >= 0 && s.networkErrors > maxNetworkErrors then NetworkErrorsExceeded
    else if expectMaxSuccess >= 0 && (if idempotency then s.uniqueOrders else s.success) > expectMaxSuccess then SuccessExceeded
    else if idempotency && s.uniqueOrders > 1 then NotIdempotent
    else Pass
  }

  ghost predicate OneOrder(rs: seq<RequestResult>)
  {
    forall i, j :: 0 <= i < j < |rs| && Ordered(rs[i]) && Ordered(rs[j]) ==> TrimSpace(rs[i].orderNo) == TrimSpace(rs[j].orderNo)
  }

  lemma {:induction false} OrdersAre(rs: seq<RequestResult>, n: nat)
    requires n <= |rs|
    ensures forall i :: 0 <= i < n && Ordered(rs[i]) ==> TrimSpace(rs[i].orderNo) in OutcomesOf(rs, n).orders
    ensures forall order :: order in OutcomesOf(rs, n).orders ==>
              exists i :: 0 <= i < n && Ordered(rs[i]) && TrimSpace(rs[i].orderNo) == order
  {
    if n > 0 { OrdersAre(rs, n - 1); }
  }

  lemma AtMostOne<T>(s: set<T>)
    ensures |s| <= 1 <==> forall x, y :: x in s && y in s ==> x == y
  {
    if |s| > 1 {
      var x :| x in s;
      assert |s - {x}| == |s| - 1;
      var y :| y in s - {x};
    } else if x, y :| x in s && y in s && x != y {
      assert {x, y} <= s && |{x, y}| == 2;
      SubsetCard({x, y}, s);
    }
  }

  lemma SubsetCard<T>(a: set<T>, b: set<T>)
    requires a <= b
    ensures |a| <= |b|
  {
    assert b == a + (b - a);
  }

  lemma OneOrderMeansOne(rs: seq<RequestResult>)
    ensures |OutcomesOf(rs, |rs|).orders| <= 1 <==> OneOrder(rs)
  {
    var orders := OutcomesOf(rs, |rs|).orders;
    OrdersAre(rs, |rs|);
    AtMostOne(orders);
    if OneOrder(rs) {
      forall x, y | x in orders && y in orders ensures x == y {
        var i :| 0 <= i < |rs| && Ordered(rs[i]) && TrimSpace(rs[i].orderNo) == x;
        var j :| 0 <= j < |rs| && Ordered(rs[j]) && TrimSpace(rs[j].orderNo) == y;
        assert i < j || j < i || i == j;
      }
    }
  }

  ghost predicate NoOrder(rs: seq<RequestResult>)
  {
    forall i :: 0 <= i < |rs| ==> !Ordered(rs[i])
  }

  lemma NoOrderMeansNone(rs: seq<RequestResult>)
    ensures |OutcomesOf(rs, |rs|).orders| == 0 <==> NoOrder(rs)
  {
    var orders := OutcomesOf(rs, |rs|).orders;
    OrdersAre(rs, |rs|);
    if order :| order in orders {
      var i :| 0 <= i < |rs| && Ordered(rs[i]) && TrimSpace(rs[i].orderNo) == order;
    }
  }

  /**
   * The idempotency scenario passes exactly when network errors are within their limit and
   * all orders the results carry are one; a success limit of 0 asks for none at all, and
   * any other success limit adds nothing.
   */
  lemma {:induction false} IdempotencyVerdict(classify: string -> string, rs: seq<RequestResult>, sorted: seq<int>,
                                              maxNetworkErrors: int, expectMaxSuccess: int)
    ensures AssertScenario(true, maxNetworkErrors, expectMaxSuccess, SummaryOf(classify, rs, sorted)) == Pass
            <==> && (maxNetworkErrors < 0 || CountIf(rs, NetworkFailed, |rs|) <= maxNetworkErrors)
                 && OneOrder(rs)
                 && (expectMaxSuccess == 0 ==> NoOrder(rs))
  {
    OutcomesCount(rs, |rs|);
    OneOrderMeansOne(rs);
    NoOrderMeansNone(rs);
  }

  /** The other scenarios pass exactly when network errors and successes are within their limits. */
  lemma StressVerdict(classify: string -> string, rs: seq<RequestResult>, sorted: seq<int>,
                      maxNetworkErrors: int, expectMaxSuccess: int)
    ensures AssertScenario(false, maxNetworkErrors, expectMaxSuccess, SummaryOf(classify, rs, sorted)) == Pass
            <==> && (maxNetworkErrors < 0 || CountIf(rs, NetworkFailed, |rs|) <= maxNetworkErrors)
                 && (expectMaxSuccess < 0 || CountIf(rs, Succeeded, |rs|) <= expectMaxSuccess)
  {
    OutcomesCount(rs, |rs|);
  }
}
