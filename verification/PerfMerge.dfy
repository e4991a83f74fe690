/** ops/backend/scheduler/perf_merge.go: attaching monitor samples to load-test progress points. */
module PerfMerge {
  import opened Options
  import opened Samples

  function PreferFloat(current: Option<real>, fallback: Option<real>): Option<real>
  {
    if current.Some? then current else fallback
  }

  function AttachMonitorSample(sample: PerfProgress, monitor: MonitorSample): PerfProgress
  {
    var mine, theirs := sample.metrics, monitor.metrics;
    sample.(metrics := Metrics(
      PreferFloat(mine.promQps, theirs.promQps),
      PreferFloat(mine.promP99LatencyMs, theirs.promP99LatencyMs),
      PreferFloat(mine.promErrorRate, theirs.promErrorRate),
      PreferFloat(mine.purchaseKafkaPublishRate, theirs.purchaseKafkaPublishRate),
      PreferFloat(mine.purchaseKafkaPublishFailed, theirs.purchaseKafkaPublishFailed),
      PreferFloat(mine.orderStateConsumeRate, theirs.orderStateConsumeRate)))
  }

  function AbsInt64(v: int): (d: nat)
    ensures d >= v && d >= -v && (d == v || d == -v)
  {
    if v < 0 then -v else v
  }

  function ChooseNearest(ts: int, previous: Option<MonitorSample>, next: Option<MonitorSample>): Option<MonitorSample>
  {
    if previous.None? then next
    else if next.None? then previous
    else if AbsInt64(previous.value.ts - ts) <= AbsInt64(next.value.ts - ts) then previous
    else next
  }

  // ------------------------------------------------------------ the two-pointer walk

  /** The inner loop: the first index at or after k whose sample is later than ts. */
  function Skip(ms: seq<MonitorSample>, k: nat, ts: int): (j: nat)
    requires k <= |ms|
    ensures k <= j <= |ms|
    decreases |ms| - k
  {
    if k < |ms| && ms[k].ts <= ts then Skip(ms, k + 1, ts) else k
  }

  lemma {:induction false} SkipMeaning(ms: seq<MonitorSample>, k: nat, ts: int)
    requires k <= |ms|
    ensures forall i :: k <= i < Skip(ms, k, ts) ==> ms[i].ts <= ts
    ensures Skip(ms, k, ts) < |ms| ==> ms[Skip(ms, k, ts)].ts > ts
    decreases |ms| - k
  {
    if k < |ms| && ms[k].ts <= ts { SkipMeaning(ms, k + 1, ts); }
  }

  /** The monitor index after the progress points up to and including i. */
  function Cursor(ps: seq<PerfProgress>, ms: seq<MonitorSample>, i: nat): (c: nat)
    requires i < |ps|
    ensures c <= |ms|
  {
    Skip(ms, if i == 0 then 0 else Cursor(ps, ms, i - 1), ps[i].ts)
  }

  /** Which monitor sample the walk pairs with a time, given its cursor. */
  function MatchIndex(ms: seq<MonitorSample>, ts: int, cursor: nat): (k: nat)
    requires ms != [] && cursor <= |ms|
    ensures k < |ms|
  {
    if cursor == 0 then 0
    else if cursor == |ms| then cursor - 1
    else if AbsInt64(ms[cursor - 1].ts - ts) <= AbsInt64(ms[cursor].ts - ts) then cursor - 1
    else cursor
  }

  /** The walk's pick for point i. */
  function PickAt(ps: seq<PerfProgress>, ms: seq<MonitorSample>, i: nat): (k: nat)
    requires ms != [] && i < |ps|
    ensures k < |ms|
  {
    MatchIndex(ms, ps[i].ts, Cursor(ps, ms, i))
  }

  function MergedAt(ps: seq<PerfProgress>, ms: seq<MonitorSample>, i: nat): PerfProgress
    requires i < |ps|
  {
    if ms == [] then ps[i] else AttachMonitorSample(ps[i], ms[PickAt(ps, ms, i)])
  }

  function Merged(ps: seq<PerfProgress>, ms: seq<MonitorSample>): seq<PerfProgress>
  {
    seq(|ps|, i requires 0 <= i < |ps| => MergedAt(ps, ms, i))
  }

  function Before(ms: seq<MonitorSample>, cursor: nat): Option<MonitorSample>
    requires cursor <= |ms|
  {
    if cursor == 0 then None else Some(ms[cursor - 1])
  }

  function After(ms: seq<MonitorSample>, cursor: nat): Option<MonitorSample>
  {
    if cursor < |ms| then Some(ms[cursor]) else None
  }

  lemma ChoiceIsPick(ms: seq<MonitorSample>, ts: int, cursor: nat)
    requires ms != [] && cursor <= |ms|
    ensures ChooseNearest(ts, Before(ms, cursor), After(ms, cursor)) == Some(ms[MatchIndex(ms, ts, cursor)])
  {
  }

  /** The body of the loop over the progress points: move the monitor index on, then attach. */
  method MergeOne(perfSample: PerfProgress, monitorSamples: seq<MonitorSample>, start: nat)
    returns (merged: PerfProgress, monitorIndex: nat)
    requires monitorSamples != [] && start <= |monitorSamples|
    ensures monitorIndex == Skip(monitorSamples, start, perfSample.ts)
    ensures merged == AttachMonitorSample(perfSample, monitorSamples[MatchIndex(monitorSamples, perfSample.ts, monitorIndex)])
  {
    monitorIndex := start;
    var previous := Before(monitorSamples, start);
    while monitorIndex < |monitorSamples| && monitorSamples[monitorIndex].ts <= perfSample.ts
      invariant start <= monitorIndex <= |monitorSamples|
      invariant Skip(monitorSamples, start, perfSample.ts) == Skip(monitorSamples, monitorIndex, perfSample.ts)
      invariant previous == Before(monitorSamples, monitorIndex)
    {
      previous := Some(monitorSamples[monitorIndex]);
      monitorIndex := monitorIndex + 1;
    }
    var next := if monitorIndex < |monitorSamples| then Some(monitorSamples[monitorIndex]) else None;
    var matched := ChooseNearest(perfSample.ts, previous, next);
    ChoiceIsPick(monitorSamples, perfSample.ts, monitorIndex);
    if matched.None? {
      merged := perfSample;
    } else {
      merged := AttachMonitorSample(perfSample, matched.value);
    }
  }

  method MergePerfProgressSamples(perfSamples: seq<PerfProgress>, monitorSamples: seq<MonitorSample>)
    returns (out: seq<PerfProgress>)
    ensures out == Merged(perfSamples, monitorSamples)
  {
    if |perfSamples| == 0 || |monitorSamples| == 0 {
      return perfSamples;
    }
    out := [];
    var monitorIndex := 0;
    for i := 0 to |perfSamples|
      invariant |out| == i && monitorIndex <= |monitorSamples|
      invariant monitorIndex == if i == 0 then 0 else Cursor(perfSamples, monitorSamples, i - 1)
      invariant forall j :: 0 <= j < i ==> out[j] == MergedAt(perfSamples, monitorSamples, j)
    {
      var merged;
      merged, monitorIndex := MergeOne(perfSamples[i], monitorSamples, monitorIndex);
      assert monitorIndex == Cursor(perfSamples, monitorSamples, i);
      out := out + [merged];
    }
  }

  // ------------------------------------------------------------ brute force

  /** Whether candidate j replaces the best so far: closer, or as close and not later than ts. */
  predicate Replaces(ms: seq<MonitorSample>, ts: int, j: nat, best: nat)
    requires j < |ms| && best < |ms|
  {
    var d, e := AbsInt64(ms[j].ts - ts), AbsInt64(ms[best].ts - ts);
    d < e || (d == e && ms[j].ts <= ts)
  }

  /** The nearest of the first n samples, by looking at every one of them. */
  function BruteNearest(ms: seq<MonitorSample>, ts: int, n: nat): (k: nat)
    requires 0 < n <= |ms|
    ensures k < n
  {
    if n == 1 then 0
    else
      var best := BruteNearest(ms, ts, n - 1);
      if Replaces(ms, ts, n - 1, best) then n - 1 else best
  }

  /** Nothing is closer, and a later sample is picked only when no earlier one is as close. */
  lemma {:induction false} BruteNearestMeaning(ms: seq<MonitorSample>, ts: int, n: nat)
    requires 0 < n <= |ms| && SortedMonitors(ms)
    ensures var k := BruteNearest(ms, ts, n);
            forall j :: 0 <= j < n ==>
              && AbsInt64(ms[k].ts - ts) <= AbsInt64(ms[j].ts - ts)
              && (ms[k].ts > ts && AbsInt64(ms[k].ts - ts) == AbsInt64(ms[j].ts - ts) ==> ms[j].ts > ts && k <= j)
              && (ms[k].ts <= ts && ms[j].ts == ms[k].ts ==> j <= k)
  {
    if n > 1 { BruteNearestMeaning(ms, ts, n - 1); }
  }

  /** With the cursor between the samples up to ts and those after it, the walk's pick is the nearest. */
  lemma MatchIsNearest(ms: seq<MonitorSample>, ts: int, cursor: nat)
    requires ms != [] && SortedMonitors(ms) && cursor <= |ms|
    requires forall i :: 0 <= i < cursor ==> ms[i].ts <= ts
    requires forall i :: cursor <= i < |ms| ==> ms[i].ts > ts
    ensures MatchIndex(ms, ts, cursor) == BruteNearest(ms, ts, |ms|)
  {
    BruteNearestMeaning(ms, ts, |ms|);
    var k, m := BruteNearest(ms, ts, |ms|), MatchIndex(ms, ts, cursor);
    assert AbsInt64(ms[k].ts - ts) <= AbsInt64(ms[m].ts - ts);
    if 0 < cursor { assert AbsInt64(ms[k].ts - ts) <= AbsInt64(ms[cursor - 1].ts - ts); }
    if cursor < |ms| { assert AbsInt64(ms[k].ts - ts) <= AbsInt64(ms[cursor].ts - ts); }
  }

  /** For a nondecreasing series the cursor separates earlier from later samples. */
  lemma {:induction false} CursorSeparates(ps: seq<PerfProgress>, ms: seq<MonitorSample>, i: nat)
    requires SortedPerf(ps) && SortedMonitors(ms) && i < |ps|
    ensures forall k :: 0 <= k < Cursor(ps, ms, i) ==> ms[k].ts <= ps[i].ts
    ensures forall k :: Cursor(ps, ms, i) <= k < |ms| ==> ms[k].ts > ps[i].ts
  {
    if i > 0 { CursorSeparates(ps, ms, i - 1); }
    SkipMeaning(ms, if i == 0 then 0 else Cursor(ps, ms, i - 1), ps[i].ts);
    var c := Cursor(ps, ms, i);
    forall k | c <= k < |ms| ensures ms[k].ts > ps[i].ts {
      assert ms[c].ts <= ms[k].ts;
    }
  }

  ghost predicate PicksNearest(ps: seq<PerfProgress>, ms: seq<MonitorSample>)
  {
    ms != [] ==> forall i :: 0 <= i < |ps| ==> PickAt(ps, ms, i) == BruteNearest(ms, ps[i].ts, |ms|)
  }

  lemma SortedPicksNearest(ps: seq<PerfProgress>, ms: seq<MonitorSample>)
    requires SortedPerf(ps) && SortedMonitors(ms)
    ensures PicksNearest(ps, ms)
  {
    if ms != [] {
      forall i | 0 <= i < |ps| ensures PickAt(ps, ms, i) == BruteNearest(ms, ps[i].ts, |ms|) {
        CursorSeparates(ps, ms, i);
        MatchIsNearest(ms, ps[i].ts, Cursor(ps, ms, i));
      }
    }
  }

  function PlainMonitor(ts: int): MonitorSample
  {
    MonitorSample(ts, "", 0.0, 0.0, 0.0, 0, 0, 0, 0, Metrics(None, None, None, None, None, None))
  }

  /** A series that steps back in time makes the walk miss the nearest sample. */
  lemma StepBackMissesNearest(ps: seq<PerfProgress>, i: nat) returns (ms: seq<MonitorSample>)
    requires i + 1 < |ps| && ps[i].ts > ps[i + 1].ts
    ensures SortedMonitors(ms) && !PicksNearest(ps, ms)
  {
    ms := [PlainMonitor(ps[i + 1].ts), PlainMonitor(ps[i].ts)];
    var before := if i == 0 then 0 else Cursor(ps, ms, i - 1);
    SkipMeaning(ms, before, ps[i].ts);
    assert Cursor(ps, ms, i) == 2;
    assert Cursor(ps, ms, i + 1) == 2;
    assert PickAt(ps, ms, i + 1) == 1;
    assert BruteNearest(ms, ps[i + 1].ts, 1) == 0;
    assert BruteNearest(ms, ps[i + 1].ts, 2) == 0;
  }

  lemma {:induction false} UnsortedStepsBack(ps: seq<PerfProgress>, a: nat, b: nat) returns (i: nat)
    requires a < b < |ps| && ps[a].ts > ps[b].ts
    ensures i + 1 < |ps| && ps[i].ts > ps[i + 1].ts
    decreases b - a
  {
    if ps[a].ts > ps[a + 1].ts {
      i := a;
    } else {
      i := UnsortedStepsBack(ps, a + 1, b);
    }
  }

  /**
   * The two-pointer merge equals the brute-force search on every sorted monitor series
   * exactly when the progress points are in time order.
   */
  lemma MergeCorrectExactlyOnSorted(ps: seq<PerfProgress>)
    ensures SortedPerf(ps) <==> forall ms :: SortedMonitors(ms) ==> PicksNearest(ps, ms)
  {
    if SortedPerf(ps) {
      forall ms | SortedMonitors(ms) ensures PicksNearest(ps, ms) {
        SortedPicksNearest(ps, ms);
      }
    } else {
      var a, b :| 0 <= a < b < |ps| && ps[a].ts > ps[b].ts;
      var i := UnsortedStepsBack(ps, a, b);
      var ms := StepBackMissesNearest(ps, i);
    }
  }

  // ------------------------------------------------------------ what merging changes

  predicate Extends(before: Option<real>, after: Option<real>)
  {
    before.Some? ==> after == before
  }

  predicate ExtendsAll(before: Metrics, after: Metrics)
  {
    && Extends(before.promQps, after.promQps)
    && Extends(before.promP99LatencyMs, after.promP99LatencyMs)
    && Extends(before.promErrorRate, after.promErrorRate)
    && Extends(before.purchaseKafkaPublishRate, after.purchaseKafkaPublishRate)
    && Extends(before.purchaseKafkaPublishFailed, after.purchaseKafkaPublishFailed)
    && Extends(before.orderStateConsumeRate, after.orderStateConsumeRate)
  }

  /**
   * Merging keeps length, order and every field outside the six metrics, and never
   * overwrites a metric that is already set.
   */
  lemma MergePreserves(ps: seq<PerfProgress>, ms: seq<MonitorSample>)
    ensures |Merged(ps, ms)| == |ps|
    ensures forall i :: 0 <= i < |ps| ==>
              && Merged(ps, ms)[i].(metrics := ps[i].metrics) == ps[i]
              && ExtendsAll(ps[i].metrics, Merged(ps, ms)[i].metrics)
  {
    forall i | 0 <= i < |ps|
      ensures MergedAt(ps, ms, i).(metrics := ps[i].metrics) == ps[i] && ExtendsAll(ps[i].metrics, MergedAt(ps, ms, i).metrics)
    {
    }
  }

  /** One metric after merging: the point's own if it has one, and otherwise the sample's. */
  ghost predicate Filled(own: Option<real>, offered: Option<real>, after: Option<real>)
  {
    (own.Some? ==> after == own) && (own.None? ==> after == offered)
  }

  /** The point with the metrics it lacks taken from the sample, metric by metric, and nothing else changed. */
  ghost predicate FilledFrom(point: PerfProgress, sample: MonitorSample, after: PerfProgress)
  {
    && after.(metrics := point.metrics) == point
    && Filled(point.metrics.promQps, sample.metrics.promQps, after.metrics.promQps)
    && Filled(point.metrics.promP99LatencyMs, sample.metrics.promP99LatencyMs, after.metrics.promP99LatencyMs)
    && Filled(point.metrics.promErrorRate, sample.metrics.promErrorRate, after.metrics.promErrorRate)
    && Filled(point.metrics.purchaseKafkaPublishRate, sample.metrics.purchaseKafkaPublishRate,
              after.metrics.purchaseKafkaPublishRate)
    && Filled(point.metrics.purchaseKafkaPublishFailed, sample.metrics.purchaseKafkaPublishFailed,
              after.metrics.purchaseKafkaPublishFailed)
    && Filled(point.metrics.orderStateConsumeRate, sample.metrics.orderStateConsumeRate, after.metrics.orderStateConsumeRate)
  }

  lemma AttachFills(point: PerfProgress, sample: MonitorSample)
    ensures FilledFrom(point, sample, AttachMonitorSample(point, sample))
  {
  }

  /**
   * Of series in time order: each point takes what it lacks from a sample at minimum
   * distance; a later one only when no earlier one is as close.
   */
  lemma MergeMeaning(ps: seq<PerfProgress>, ms: seq<MonitorSample>, i: nat) returns (k: nat)
    requires SortedPerf(ps) && SortedMonitors(ms) && ms != [] && i < |ps|
    ensures k < |ms| && FilledFrom(ps[i], ms[k], Merged(ps, ms)[i])
    ensures var t := ps[i].ts;
            forall j :: 0 <= j < |ms| ==>
              && AbsInt64(ms[k].ts - t) <= AbsInt64(ms[j].ts - t)
              && (ms[k].ts > t && AbsInt64(ms[k].ts - t) == AbsInt64(ms[j].ts - t) ==> ms[j].ts > t)
  {
    SortedPicksNearest(ps, ms);
    BruteNearestMeaning(ms, ps[i].ts, |ms|);
    k := PickAt(ps, ms, i);
    AttachFills(ps[i], ms[k]);
    assert Merged(ps, ms)[i] == MergedAt(ps, ms, i);
  }

  lemma {:induction false} CursorSameTimes(ps: seq<PerfProgress>, qs: seq<PerfProgress>, ms: seq<MonitorSample>, i: nat)
    requires |ps| == |qs| && i < |ps| && forall j :: 0 <= j < |ps| ==> ps[j].ts == qs[j].ts
    ensures Cursor(ps, ms, i) == Cursor(qs, ms, i)
  {
    if i > 0 { CursorSameTimes(ps, qs, ms, i - 1); }
  }

  /** Merging again with the same monitor samples changes nothing. */
  lemma MergeIdempotent(ps: seq<PerfProgress>, ms: seq<MonitorSample>)
    ensures Merged(Merged(ps, ms), ms) == Merged(ps, ms)
  {
    var qs := Merged(ps, ms);
    forall i | 0 <= i < |ps| ensures MergedAt(qs, ms, i) == qs[i] {
      CursorSameTimes(ps, qs, ms, i);
    }
  }
}
