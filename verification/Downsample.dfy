/**
 * ops/backend/store/sample_store.go:172-193 (downsample) and
 * ops/backend/api/sample_handler.go:139-154 (autoStep).
 */
module Downsampling {
  import opened Options
  import opened Samples

  /** The end of the bucket that starts at b, searching from n: the first sample a step or more after b. */
  function BucketEnd(samples: seq<MonitorSample>, step: int, b: nat, n: nat): (e: nat)
    requires b < n <= |samples|
    ensures n <= e <= |samples|
    decreases |samples| - n
  {
    if n < |samples| && samples[n].ts - samples[b].ts < step then BucketEnd(samples, step, b, n + 1) else n
  }

  /** Greedy bucketing from b on: the last sample of the first bucket, then the rest likewise. */
  function BucketsFrom(samples: seq<MonitorSample>, step: int, b: nat): seq<MonitorSample>
    requires b <= |samples|
    decreases |samples| - b
  {
    if b == |samples| then []
    else
      var e := BucketEnd(samples, step, b, b + 1);
      [samples[e - 1]] + BucketsFrom(samples, step, e)
  }

  function Buckets(samples: seq<MonitorSample>, step: int): seq<MonitorSample>
  {
    BucketsFrom(samples, step, 0)
  }

  /** `done` closes the buckets that start at `starts`; the last start opens the current bucket. */
  ghost predicate Closed(samples: seq<MonitorSample>, step: int, starts: seq<nat>, done: seq<nat>)
  {
    && |starts| == |done| + 1 && starts[0] == 0
    && (forall j :: 0 <= j < |starts| ==> starts[j] <= |samples|)
    && (forall j {:trigger done[j]} :: 0 <= j < |done| ==> ClosedAt(samples, step, starts[j], done[j], starts[j + 1]))
  }

  /** One bucket: from b to last, all within a step of b, and the next sample is not. */
  ghost predicate ClosedAt(samples: seq<MonitorSample>, step: int, b: nat, last: nat, next: nat)
  {
    && b <= last < |samples| && next == last + 1
    && (forall k :: b <= k <= last ==> samples[k].ts - samples[b].ts < step)
    && (next < |samples| ==> samples[next].ts - samples[b].ts >= step)
  }

  lemma {:induction false} BucketEndUnique(samples: seq<MonitorSample>, step: int, b: nat, n: nat, last: nat, next: nat)
    requires ClosedAt(samples, step, b, last, next) && b < n <= next
    ensures BucketEnd(samples, step, b, n) == next
    decreases next - n
  {
    if n < next { BucketEndUnique(samples, step, b, n + 1, last, next); }
  }

  ghost predicate SuffixFrom(out: seq<MonitorSample>, j: nat, suffix: seq<MonitorSample>)
  {
    j <= |out| && |suffix| == |out| - j && forall i :: 0 <= i < |suffix| ==> suffix[i] == out[j + i]
  }

  lemma PrependSuffix(out: seq<MonitorSample>, j: nat, suffix: seq<MonitorSample>)
    requires j < |out| && SuffixFrom(out, j + 1, suffix)
    ensures SuffixFrom(out, j, [out[j]] + suffix)
  {
  }

  lemma GreedyUnfold(samples: seq<MonitorSample>, step: int, b: nat, last: nat, next: nat)
    requires ClosedAt(samples, step, b, last, next)
    ensures BucketsFrom(samples, step, b) == [samples[last]] + BucketsFrom(samples, step, next)
  {
    BucketEndUnique(samples, step, b, b + 1, last, next);
  }

  lemma {:induction false} ClosedIsGreedy(samples: seq<MonitorSample>, step: int, starts: seq<nat>, done: seq<nat>,
        out: seq<MonitorSample>, j: nat)
    requires Closed(samples, step, starts, done) && j <= |done| && starts[|done|] == |samples|
    requires |out| == |done| && forall i :: 0 <= i < |done| ==> done[i] < |samples| && out[i] == samples[done[i]]
    ensures SuffixFrom(out, j, BucketsFrom(samples, step, starts[j]))
    decreases |done| - j
  {
    if j < |done| {
      ClosedIsGreedy(samples, step, starts, done, out, j + 1);
      GreedyUnfold(samples, step, starts[j], done[j], starts[j + 1]);
      PrependSuffix(out, j, BucketsFrom(samples, step, starts[j + 1]));
    }
  }

  lemma CloseNext(samples: seq<MonitorSample>, step: int, starts: seq<nat>, done: seq<nat>, i: nat)
    requires Closed(samples, step, starts, done)
    requires i > 0 && ClosedAt(samples, step, starts[|done|], i - 1, i)
    ensures Closed(samples, step, starts + [i], done + [i - 1])
  {
  }

  method Downsample(samples: seq<MonitorSample>, stepMs: int) returns (result: seq<MonitorSample>)
    requires stepMs > 0
    ensures result == Buckets(samples, stepMs)
  {
    if |samples| == 0 {
      return samples;
    }
    result := [];
    var bucketStart := samples[0].ts;
    var lastInBucket: Option<MonitorSample> := None;
    ghost var starts: seq<nat>, done: seq<nat> := [0], [];
    for i := 0 to |samples|
      invariant Closed(samples, stepMs, starts, done)
      invariant if i == 0 then starts[|done|] == 0 else starts[|done|] < i
      invariant bucketStart == samples[starts[|done|]].ts
      invariant forall k :: starts[|done|] <= k < i ==> samples[k].ts - bucketStart < stepMs
      invariant lastInBucket == if i == 0 then None else Some(samples[i - 1])
      invariant |result| == |done| && forall j :: 0 <= j < |done| ==> done[j] < |samples| && result[j] == samples[done[j]]
    {
      var s := samples[i];
      if s.ts - bucketStart >= stepMs {
        if lastInBucket.Some? {
          result := result + [lastInBucket.value];
          CloseNext(samples, stepMs, starts, done, i);
          starts, done := starts + [i], done + [i - 1];
        }
        bucketStart := s.ts;
      }
      lastInBucket := Some(s);
    }
    if lastInBucket.Some? {
      result := result + [lastInBucket.value];
      CloseNext(samples, stepMs, starts, done, |samples|);
      starts, done := starts + [|samples|], done + [|samples| - 1];
      ClosedIsGreedy(samples, stepMs, starts, done, result, 0);
      assert result == Buckets(samples, stepMs);
    }
  }

  // ------------------------------------------------------------ what greedy bucketing keeps

  lemma {:induction false} BucketEndMeaning(samples: seq<MonitorSample>, step: int, b: nat, n: nat)
    requires b < n <= |samples|
    ensures forall i :: n <= i < BucketEnd(samples, step, b, n) ==> samples[i].ts - samples[b].ts < step
    ensures BucketEnd(samples, step, b, n) < |samples| ==>
              samples[BucketEnd(samples, step, b, n)].ts - samples[b].ts >= step
    decreases |samples| - n
  {
    if n < |samples| && samples[n].ts - samples[b].ts < step { BucketEndMeaning(samples, step, b, n + 1); }
  }

  /** `out` lists the samples at the positions `kept`, all at or after b, the last sample last. */
  ghost predicate Selects(samples: seq<MonitorSample>, b: nat, kept: seq<nat>, out: seq<MonitorSample>)
  {
    && |kept| == |out|
    && (forall i :: 0 <= i < |kept| ==> b <= kept[i] < |samples| && out[i] == samples[kept[i]])
    && (forall i, j :: 0 <= i < j < |kept| ==> kept[i] < kept[j])
    && (b < |samples| ==> kept != [] && kept[|kept| - 1] == |samples| - 1)
  }

  /** A kept sample at or after sample j, by less than a step. */
  ghost predicate Represented(samples: seq<MonitorSample>, step: int, kept: seq<nat>, j: nat)
    requires j < |samples|
  {
    exists i :: 0 <= i < |kept| && j <= kept[i] < |samples| && samples[kept[i]].ts - samples[j].ts < step
  }

  ghost predicate Covers(samples: seq<MonitorSample>, step: int, b: nat, kept: seq<nat>)
  {
    forall j :: b <= j < |samples| ==> Represented(samples, step, kept, j)
  }

  /** The positions greedy bucketing keeps. */
  function Kept(samples: seq<MonitorSample>, step: int, b: nat): seq<nat>
    requires b <= |samples|
    decreases |samples| - b
  {
    if b == |samples| then []
    else
      var e := BucketEnd(samples, step, b, b + 1);
      [e - 1] + Kept(samples, step, e)
  }

  lemma SelectsNothing(samples: seq<MonitorSample>)
    ensures Selects(samples, |samples|, [], [])
  {
  }

  lemma {:induction false} GreedySelects(samples: seq<MonitorSample>, step: int, b: nat)
    requires b <= |samples|
    ensures Selects(samples, b, Kept(samples, step, b), BucketsFrom(samples, step, b))
    decreases |samples| - b
  {
    hide Selects;
    if b == |samples| {
      SelectsNothing(samples);
    } else {
      var e := BucketEnd(samples, step, b, b + 1);
      GreedySelects(samples, step, e);
      PrependSelects(samples, b, e, Kept(samples, step, e), BucketsFrom(samples, step, e));
    }
  }

  lemma {:induction false} GreedyCovers(samples: seq<MonitorSample>, step: int, b: nat)
    requires step > 0 && b <= |samples| && SortedMonitors(samples)
    ensures Covers(samples, step, b, Kept(samples, step, b))
    decreases |samples| - b
  {
    if b < |samples| {
      var e := BucketEnd(samples, step, b, b + 1);
      GreedyCovers(samples, step, e);
      BucketEndMeaning(samples, step, b, b + 1);
      PrependCovers(samples, step, b, e, Kept(samples, step, e));
    }
  }

  lemma PrependSelects(samples: seq<MonitorSample>, b: nat, e: nat, kept: seq<nat>, out: seq<MonitorSample>)
    requires b < e <= |samples| && Selects(samples, e, kept, out) && (e == |samples| ==> kept == [])
    ensures Selects(samples, b, [e - 1] + kept, [samples[e - 1]] + out)
  {
  }

  lemma PrependCovers(samples: seq<MonitorSample>, step: int, b: nat, e: nat, kept: seq<nat>)
    requires b < e <= |samples| && SortedMonitors(samples) && Covers(samples, step, e, kept)
    requires step > 0 && forall i :: b + 1 <= i < e ==> samples[i].ts - samples[b].ts < step
    ensures Covers(samples, step, b, [e - 1] + kept)
  {
    var kept' := [e - 1] + kept;
    forall j | b <= j < |samples| ensures Represented(samples, step, kept', j) {
      if j < e {
        assert samples[b].ts <= samples[j].ts;
        assert kept'[0] == e - 1;
      } else {
        assert Represented(samples, step, kept, j);
        var i :| 0 <= i < |kept| && j <= kept[i] < |samples| && samples[kept[i]].ts - samples[j].ts < step;
        assert kept'[i + 1] == kept[i];
      }
    }
  }

  /**
   * Downsampling keeps a subsequence, in order, that ends in the last sample, and
   * represents every sample by one at or after it and less than a step away.
   */
  lemma BucketsMeaning(samples: seq<MonitorSample>, step: int) returns (kept: seq<nat>)
    requires step > 0 && SortedMonitors(samples)
    ensures Selects(samples, 0, kept, Buckets(samples, step)) && Covers(samples, step, 0, kept)
  {
    kept := Kept(samples, step, 0);
    GreedySelects(samples, step, 0);
    GreedyCovers(samples, step, 0);
  }

  /** n buckets a step apart fit in a span of time. */
  predicate Fits(n: int, span: int, step: int)
  {
    (n - 1) * step <= span
  }

  lemma FitsOneMore(n: nat, part: int, whole: int, step: int)
    requires step > 0 && Fits(n, part, step) && part + step <= whole
    ensures Fits(n + 1, whole, step)
  {
    assert n * step == (n - 1) * step + step;
  }

  lemma FitsBound(n: nat, span: int, step: int)
    requires step > 0 && 0 <= span && Fits(n, span, step)
    ensures n <= span / step + 1
  {
    var q, r := span / step, span % step;
    assert step * (q + 1 - (n - 1)) == span - r + step - (n - 1) * step;
    FactorPositive(step, q + 1 - (n - 1));
  }

  lemma FactorPositive(step: int, k: int)
    requires step > 0 && step * k > 0
    ensures k > 0
  {
  }

  lemma {:induction false} BucketsFit(samples: seq<MonitorSample>, step: int, b: nat)
    requires step > 0 && b < |samples| && SortedMonitors(samples)
    ensures Fits(|BucketsFrom(samples, step, b)|, samples[|samples| - 1].ts - samples[b].ts, step)
    decreases |samples| - b
  {
    var e := BucketEnd(samples, step, b, b + 1);
    var last := samples[|samples| - 1].ts;
    BucketEndMeaning(samples, step, b, b + 1);
    if e < |samples| {
      BucketsFit(samples, step, e);
      FitsOneMore(|BucketsFrom(samples, step, e)|, last - samples[e].ts, last - samples[b].ts, step);
    }
  }

  /** The number of output samples is bounded by the span of the input. */
  lemma LengthBound(samples: seq<MonitorSample>, step: int)
    requires step > 0 && samples != [] && SortedMonitors(samples)
    ensures |Buckets(samples, step)| <= (samples[|samples| - 1].ts - samples[0].ts) / step + 1
  {
    BucketsFit(samples, step, 0);
    FitsBound(|Buckets(samples, step)|, samples[|samples| - 1].ts - samples[0].ts, step);
  }

  const MINUTE_MS := 60 * 1000
  const HOUR_MS := 60 * MINUTE_MS

  /** autoStep, on a range in milliseconds; 0 asks for raw samples. */
  function AutoStep(rangeMs: int): int
  {
    if rangeMs <= 10 * MINUTE_MS then 0
    else if rangeMs <= 30 * MINUTE_MS then 2000
    else if rangeMs <= HOUR_MS then 5000
    else if rangeMs <= 5 * HOUR_MS then 15000
    else if rangeMs <= 24 * HOUR_MS then 60000
    else 300000
  }

  /** The step grows with the range; these are the longest ranges of each step, and the next ones. */
  lemma AutoStepGrows(a: int, b: int)
    ensures a <= b ==> AutoStep(a) <= AutoStep(b)
    ensures AutoStep(600000) == 0 && AutoStep(600001) == 2000 && AutoStep(1800000) == 2000 && AutoStep(1800001) == 5000
    ensures AutoStep(3600000) == 5000 && AutoStep(3600001) == 15000 && AutoStep(18000000) == 15000
    ensures AutoStep(18000001) == 60000 && AutoStep(86400000) == 60000 && AutoStep(86400001) == 300000
    ensures a <= 600000 ==> AutoStep(a) == 0
    ensures a > 86400000 ==> AutoStep(a) == 300000
    ensures AutoStep(a) > 0 ==> 240 * AutoStep(a) <= a
  {
  }

  /** Any range over 10 minutes and up to 7 days comes back with at most 2017 samples. */
  lemma AutoStepBound(samples: seq<MonitorSample>, startMs: int, endMs: int)
    requires SortedMonitors(samples) && forall i :: 0 <= i < |samples| ==> startMs <= samples[i].ts <= endMs
    requires 10 * MINUTE_MS < endMs - startMs <= 7 * 24 * HOUR_MS
    ensures AutoStep(endMs - startMs) > 0
    ensures |Buckets(samples, AutoStep(endMs - startMs))| <= 2017
  {
    if samples != [] {
      LengthBound(samples, AutoStep(endMs - startMs));
    }
  }
}
