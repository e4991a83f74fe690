/** The accounting of a load run, from the producer's ticks to the printed summary. */
module LoadSummary {
  import opened LoadGen
  import opened Report

  /** What the worker that took index idx got back, and how long it took. */
  datatype Call = Call(latency: int, reply: Reply)

  function ResultOf(calls: nat -> Call, r: Result): RequestResult
  {
    match r
    case Executed(idx) => ExecuteOne(calls(idx).latency, calls(idx).reply)
    case Dropped(_) => DROP
  }

  /** The slice runClosedScenario and runOpenScenario return. */
  function ResultsOf(calls: nat -> Call, results: seq<Result>): seq<RequestResult>
  {
    seq(|results|, i requires 0 <= i < |results| => ResultOf(calls, results[i]))
  }

  lemma DropsOnly(calls: nat -> Call, r: Result)
    ensures Report.Dropped(ResultOf(calls, r)) <==> r.Dropped?
    ensures Recorded(ResultOf(calls, r))
  {
    if r.Executed? {
      var call := calls(r.idx);
      assert ResultOf(calls, r) == ExecuteOne(call.latency, call.reply);
    }
  }

  /** The ticks whose drop is among the first n results. */
  function DropsSeen(results: seq<Result>, n: nat): set<nat>
    requires n <= |results|
  {
    set i | 0 <= i < n && results[i].Dropped? :: results[i].idx
  }

  lemma DropsSeenNext(results: seq<Result>, n: nat)
    requires n < |results|
    requires forall i, j :: 0 <= i < j < |results| ==> results[i].idx != results[j].idx
    ensures |DropsSeen(results, n + 1)| == |DropsSeen(results, n)| + One(results[n].Dropped?)
  {
    if results[n].Dropped? {
      assert results[n].idx !in DropsSeen(results, n);
      assert DropsSeen(results, n + 1) == DropsSeen(results, n) + {results[n].idx};
    } else {
      assert DropsSeen(results, n + 1) == DropsSeen(results, n);
    }
  }

  lemma {:induction false} DropsCounted(rs: seq<RequestResult>, results: seq<Result>, n: nat)
    requires n <= |results| == |rs|
    requires forall i :: 0 <= i < |results| ==> (Report.Dropped(rs[i]) <==> results[i].Dropped?)
    requires forall i, j :: 0 <= i < j < |results| ==> results[i].idx != results[j].idx
    ensures CountIf(rs, Report.Dropped, n) == |DropsSeen(results, n)|
  {
    if n > 0 {
      DropsCounted(rs, results, n - 1);
      DropsSeenNext(results, n - 1);
    }
  }

  lemma RunDrops(calls: nat -> Call, results: seq<Result>)
    requires forall i, j :: 0 <= i < j < |results| ==> results[i].idx != results[j].idx
    ensures CountIf(ResultsOf(calls, results), Report.Dropped, |results|) == |DropsSeen(results, |results|)|
  {
    var rs := ResultsOf(calls, results);
    forall i | 0 <= i < |results| ensures Report.Dropped(rs[i]) <==> results[i].Dropped? {
      DropsOnly(calls, results[i]);
    }
    DropsCounted(rs, results, |results|);
  }

  lemma RunRecorded(calls: nat -> Call, results: seq<Result>)
    ensures forall i :: 0 <= i < |results| ==> Recorded(ResultsOf(calls, results)[i])
  {
    forall i | 0 <= i < |results| ensures Recorded(ResultsOf(calls, results)[i]) {
      DropsOnly(calls, results[i]);
    }
  }

  /**
   * An open run's summary: Total is the number of ticks, LocalDrops the number of ticks
   * that found the queue full, and what remains are executed requests.
   */
  lemma OpenRunSummary(c: Config, s: State, calls: nat -> Call, classify: string -> string, sorted: seq<int>)
    requires ValidConfig(c) && c.mode == OpenModel && Reachable(c, s) && s.pc == Returned
    ensures var summary := SummaryOf(classify, ResultsOf(calls, s.results), sorted);
            && summary.total == s.sent
            && summary.localDrops == |s.dropped|
            && summary.success + summary.networkErrors <= s.sent - |s.dropped|
            && summary.uniqueOrders <= summary.success
  {
    var rs := ResultsOf(calls, s.results);
    OpenScenario(c, s);
    EveryIndexOnce(c, s);
    RunDrops(calls, s.results);
    AllDropsSeen(c, s);
    OutcomesCount(rs, |rs|);
    TalliesSum(classify, rs, sorted);
    RunRecorded(calls, s.results);
    UniqueOrdersBound(classify, rs, sorted);
  }

  lemma AllDropsSeen(c: Config, s: State)
    requires ValidConfig(c) && c.mode == OpenModel && Reachable(c, s) && s.pc == Returned
    ensures DropsSeen(s.results, |s.results|) == s.dropped
  {
    OpenScenario(c, s);
    EveryIndexOnce(c, s);
    forall i: nat | i in s.dropped ensures i in DropsSeen(s.results, |s.results|) {
      assert Dropped(i) in s.results;
    }
  }

  /** A closed run with workers: Total is the number of requests, and nothing is dropped. */
  lemma ClosedRunSummary(c: Config, s: State, calls: nat -> Call, classify: string -> string, sorted: seq<int>)
    requires c.mode == ClosedModel && Reachable(c, s) && s.pc == Returned && c.concurrency >= 1
    ensures var summary := SummaryOf(classify, ResultsOf(calls, s.results), sorted);
            && summary.total == c.requests
            && summary.localDrops == 0
            && summary.success + summary.networkErrors <= c.requests
            && summary.uniqueOrders <= summary.success
  {
    var rs := ResultsOf(calls, s.results);
    ClosedScenario(c, s);
    EveryIndexOnce(c, s);
    RunDrops(calls, s.results);
    assert DropsSeen(s.results, |s.results|) == {};
    OutcomesCount(rs, |rs|);
    TalliesSum(classify, rs, sorted);
    RunRecorded(calls, s.results);
    UniqueOrdersBound(classify, rs, sorted);
  }

  // ------------------------------------------------------------ what the counters count

  /** The executed indices among the first n results whose reply is of the given kind. */
  function ExecutedWith(calls: nat -> Call, results: seq<Result>, kind: Reply -> bool, n: nat): set<nat>
    requires n <= |results|
  {
    set i | 0 <= i < n && results[i].Executed? && kind(calls(results[i].idx).reply) :: results[i].idx
  }

  lemma ExecutedWithNext(calls: nat -> Call, results: seq<Result>, kind: Reply -> bool, n: nat)
    requires n < |results| && forall i, j :: 0 <= i < j < |results| ==> results[i].idx != results[j].idx
    ensures |ExecutedWith(calls, results, kind, n + 1)| ==
            |ExecutedWith(calls, results, kind, n)| + One(results[n].Executed? && kind(calls(results[n].idx).reply))
  {
    var before, after := ExecutedWith(calls, results, kind, n), ExecutedWith(calls, results, kind, n + 1);
    if results[n].Executed? && kind(calls(results[n].idx).reply) {
      assert results[n].idx !in before;
      assert after == before + {results[n].idx};
    } else {
      assert after == before;
    }
  }

  lemma {:induction false} ExecutedCounted(calls: nat -> Call, results: seq<Result>, kind: Reply -> bool,
                                           rs: seq<RequestResult>, p: RequestResult -> bool, n: nat)
    requires n <= |results| == |rs| && forall i, j :: 0 <= i < j < |results| ==> results[i].idx != results[j].idx
    requires forall i :: 0 <= i < |rs| ==> (p(rs[i]) <==> results[i].Executed? && kind(calls(results[i].idx).reply))
    ensures CountIf(rs, p, n) == |ExecutedWith(calls, results, kind, n)|
  {
    if n > 0 {
      ExecutedCounted(calls, results, kind, rs, p, n - 1);
      ExecutedWithNext(calls, results, kind, n - 1);
    }
  }

  /** A reply that counts as a success: status 200, code OK, and for a track that it was accepted. */
  predicate Served(reply: Reply)
  {
    reply.status == 200 && reply.code == "OK" && (reply.PurchaseReply? || (reply.TrackReply? && reply.accepted))
  }

  predicate Broken(reply: Reply)
  {
    reply.PurchaseError? || reply.TrackError?
  }

  lemma ResultKind(calls: nat -> Call, r: Result)
    ensures Succeeded(ResultOf(calls, r)) <==> r.Executed? && Served(calls(r.idx).reply)
    ensures NetworkFailed(ResultOf(calls, r)) <==> r.Executed? && Broken(calls(r.idx).reply)
  {
  }

  /** Success and NetworkErrors count the executed requests by what they got back. */
  lemma RunCounts(calls: nat -> Call, results: seq<Result>, classify: string -> string, sorted: seq<int>)
    requires forall i, j :: 0 <= i < j < |results| ==> results[i].idx != results[j].idx
    ensures var summary := SummaryOf(classify, ResultsOf(calls, results), sorted);
            && summary.success == |ExecutedWith(calls, results, Served, |results|)|
            && summary.networkErrors == |ExecutedWith(calls, results, Broken, |results|)|
  {
    hide CountIf, ExecutedWith, Succeeded, NetworkFailed, Served, Broken, ResultOf, OutcomesOf, StatsOf, LatenciesOf;
    var rs := ResultsOf(calls, results);
    OutcomesCount(rs, |rs|);
    forall i | 0 <= i < |rs|
      ensures Succeeded(rs[i]) <==> results[i].Executed? && Served(calls(results[i].idx).reply)
      ensures NetworkFailed(rs[i]) <==> results[i].Executed? && Broken(calls(results[i].idx).reply)
    {
      ResultKind(calls, results[i]);
    }
    ExecutedCounted(calls, results, Served, rs, Succeeded, |rs|);
    ExecutedCounted(calls, results, Broken, rs, NetworkFailed, |rs|);
  }

  lemma ExecutedSet(calls: nat -> Call, results: seq<Result>, kind: Reply -> bool, all: set<nat>)
    requires forall i: nat :: i in all <==> Executed(i) in results && kind(calls(i).reply)
    ensures ExecutedWith(calls, results, kind, |results|) == all
  {
    var found := ExecutedWith(calls, results, kind, |results|);
    forall i: nat ensures i in found <==> i in all {
      if i in all {
        var k :| 0 <= k < |results| && results[k] == Executed(i);
      }
      if i in found {
        var k :| 0 <= k < |results| && results[k].Executed? && kind(calls(results[k].idx).reply) && results[k].idx == i;
        assert results[k] == Executed(i);
      }
    }
  }

  lemma ClosedIndex(c: Config, s: State, i: nat)
    requires c.mode == ClosedModel && Reachable(c, s) && s.pc == Returned && c.concurrency >= 1
    ensures Executed(i) in s.results <==> i < c.requests
  {
    ClosedScenario(c, s);
    UptoOnce(c.requests, i);
    if i < c.requests {
      assert i in multiset(Indices(s.results));
      var k :| 0 <= k < |s.results| && Indices(s.results)[k] == i;
      assert s.results[k] == Executed(i);
    }
    if Executed(i) in s.results {
      var k :| 0 <= k < |s.results| && s.results[k] == Executed(i);
      assert Indices(s.results)[k] == i;
      assert i in multiset(Indices(s.results));
    }
  }

  lemma OpenIndex(c: Config, s: State, i: nat)
    requires ValidConfig(c) && c.mode == OpenModel && Reachable(c, s) && s.pc == Returned
    ensures Executed(i) in s.results <==> i < s.sent && i !in s.dropped
  {
    OpenScenario(c, s);
    ReachableInv(c, s);
  }

  /** A closed run with workers: of all its requests, whichever worker took them and in whatever order. */
  lemma ClosedRunCounts(c: Config, s: State, calls: nat -> Call, classify: string -> string, sorted: seq<int>)
    requires c.mode == ClosedModel && Reachable(c, s) && s.pc == Returned && c.concurrency >= 1
    ensures var summary := SummaryOf(classify, ResultsOf(calls, s.results), sorted);
            && summary.success == |set i: nat | i < c.requests && Served(calls(i).reply)|
            && summary.networkErrors == |set i: nat | i < c.requests && Broken(calls(i).reply)|
  {
    hide Reachable, ExecutedWith, SummaryOf, ResultsOf, Served, Broken;
    EveryIndexOnce(c, s);
    RunCounts(calls, s.results, classify, sorted);
    forall i: nat ensures Executed(i) in s.results <==> i < c.requests {
      ClosedIndex(c, s, i);
    }
    ExecutedSet(calls, s.results, Served, set i: nat | i < c.requests && Served(calls(i).reply));
    ExecutedSet(calls, s.results, Broken, set i: nat | i < c.requests && Broken(calls(i).reply));
  }

  /** An open run: of the ticks that were not dropped. */
  lemma OpenRunCounts(c: Config, s: State, calls: nat -> Call, classify: string -> string, sorted: seq<int>)
    requires ValidConfig(c) && c.mode == OpenModel && Reachable(c, s) && s.pc == Returned
    ensures var summary := SummaryOf(classify, ResultsOf(calls, s.results), sorted);
            && summary.success == |set i: nat | i < s.sent && i !in s.dropped && Served(calls(i).reply)|
            && summary.networkErrors == |set i: nat | i < s.sent && i !in s.dropped && Broken(calls(i).reply)|
  {
    hide Reachable, ExecutedWith, SummaryOf, ResultsOf, Served, Broken;
    EveryIndexOnce(c, s);
    RunCounts(calls, s.results, classify, sorted);
    forall i: nat ensures Executed(i) in s.results <==> i < s.sent && i !in s.dropped {
      OpenIndex(c, s, i);
    }
    ExecutedSet(calls, s.results, Served, set i: nat | i < s.sent && i !in s.dropped && Served(calls(i).reply));
    ExecutedSet(calls, s.results, Broken, set i: nat | i < s.sent && i !in s.dropped && Broken(calls(i).reply));
  }
}
