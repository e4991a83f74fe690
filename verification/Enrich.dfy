/** ops/backend/scheduler/perf_merge.go:34-51: enriching a progress series from the sample store. */
module Enrichment {
  import opened Options
  import opened Samples
  import opened PerfMerge
  import opened SampleStores

  const LOOKBACK_MS := 5000
  const LOOKAHEAD_MS := 1500

  function WindowStart(samples: seq<PerfProgress>): int
    requires samples != []
  {
    var start := samples[0].ts - LOOKBACK_MS;
    if start < 0 then 0 else start
  }

  function WindowEnd(samples: seq<PerfProgress>): int
    requires samples != []
  {
    var end := samples[|samples| - 1].ts + LOOKAHEAD_MS;
    if end < WindowStart(samples) then WindowStart(samples) else end
  }

  function Enriched(zone: Zone, files: Files, samples: seq<PerfProgress>): seq<PerfProgress>
  {
    if samples == [] then samples
    else
      var monitorSamples := QueryRaw(zone, files, WindowStart(samples), WindowEnd(samples));
      if monitorSamples == [] then samples else Merged(samples, monitorSamples)
  }

  method EnrichPerfProgressSeries(store: SampleStore, samples: seq<PerfProgress>) returns (out: seq<PerfProgress>)
    ensures out == Enriched(store.zone, store.Readable(), samples)
  {
    if |samples| == 0 {
      return samples;
    }
    var startMs, endMs := WindowStart(samples), WindowEnd(samples);
    var monitorSamples := store.Query(startMs, endMs, 0);
    assert monitorSamples == QueryRaw(store.zone, store.Readable(), startMs, endMs);
    if |monitorSamples| == 0 {
      return samples;
    }
    out := MergePerfProgressSamples(samples, monitorSamples);
  }

  /** enrichPerfProgress, for one point as it comes in; a point without a time is left alone. */
  method EnrichPerfProgress(store: SampleStore, sample: PerfProgress) returns (out: PerfProgress)
    ensures out == EnrichedPoint(store.zone, store.Readable(), sample)
  {
    if sample.ts <= 0 {
      return sample;
    }
    var startMs := sample.ts - LOOKBACK_MS;
    if startMs < 0 {
      startMs := 0;
    }
    var monitorSamples := store.Query(startMs, sample.ts + LOOKAHEAD_MS, 0);
    assert monitorSamples == QueryRaw(store.zone, store.Readable(), WindowStart([sample]), WindowEnd([sample]));
    if |monitorSamples| == 0 {
      return sample;
    }
    var merged := MergePerfProgressSamples([sample], monitorSamples);
    out := merged[0];
  }

  /** A point on its own is enriched as a series of one. */
  function EnrichedPoint(zone: Zone, files: Files, sample: PerfProgress): PerfProgress
  {
    if sample.ts <= 0 then sample else Enriched(zone, files, [sample])[0]
  }

  /** Where the window of a series begins and ends, in milliseconds; `first` and `last` are its outer points. */
  ghost predicate InWindow(first: int, last: int, ts: int)
  {
    var from := if first < 5000 then 0 else first - 5000;
    from <= ts && (ts <= last + 1500 || ts == from)
  }

  lemma WindowMeaning(samples: seq<PerfProgress>, ts: int)
    requires samples != []
    ensures WindowStart(samples) <= ts <= WindowEnd(samples) <==> InWindow(samples[0].ts, samples[|samples| - 1].ts, ts)
  {
  }

  /** The sample is nearest to t among those of the window, and if it is later than t no earlier one is as near. */
  ghost predicate NearestInWindow(history: seq<MonitorSample>, first: int, last: int, t: int, pick: MonitorSample)
  {
    && pick in history && InWindow(first, last, pick.ts)
    && forall x :: x in history && InWindow(first, last, x.ts) ==>
         && AbsInt64(pick.ts - t) <= AbsInt64(x.ts - t)
         && (pick.ts > t && AbsInt64(pick.ts - t) == AbsInt64(x.ts - t) ==> x.ts > t)
  }

  lemma SeriesSamples(zone: Zone, history: seq<MonitorSample>, samples: seq<PerfProgress>)
    requires HourlyZone(zone) && samples != []
    ensures var ms := QueryRaw(zone, StoreOf(zone, history), WindowStart(samples), WindowEnd(samples));
            && SortedMonitors(ms)
            && forall x :: x in ms <==> x in history && InWindow(samples[0].ts, samples[|samples| - 1].ts, x.ts)
  {
    hide QueryRaw, StoreOf;
    RawSorted(zone, StoreOf(zone, history), WindowStart(samples), WindowEnd(samples));
    var ms := QueryRaw(zone, StoreOf(zone, history), WindowStart(samples), WindowEnd(samples));
    forall x ensures x in ms <==> x in history && InWindow(samples[0].ts, samples[|samples| - 1].ts, x.ts) {
      FoundIffAppended(zone, history, WindowStart(samples), WindowEnd(samples), x);
      WindowMeaning(samples, x.ts);
    }
  }

  /**
   * End to end, for a series in time order after any history of appended samples: the
   * window reaches from 5 s before its first point, but not before 0, to 1.5 s after its
   * last. Without a sample there, the series stays as it is; otherwise each point takes
   * what it lacks from the nearest one.
   */
  lemma EnrichedFromNearest(zone: Zone, history: seq<MonitorSample>, samples: seq<PerfProgress>, i: nat)
    returns (pick: Option<MonitorSample>)
    requires HourlyZone(zone) && SortedPerf(samples) && i < |samples|
    ensures var first, last := samples[0].ts, samples[|samples| - 1].ts;
            var after := Enriched(zone, StoreOf(zone, history), samples);
            && |after| == |samples|
            && (pick.None? ==> after == samples && forall x :: x in history ==> !InWindow(first, last, x.ts))
            && (pick.Some? ==> NearestInWindow(history, first, last, samples[i].ts, pick.value)
                               && FilledFrom(samples[i], pick.value, after[i]))
  {
    hide QueryRaw, StoreOf, WindowStart, WindowEnd, FilledFrom, InWindow;
    var ms := QueryRaw(zone, StoreOf(zone, history), WindowStart(samples), WindowEnd(samples));
    SeriesSamples(zone, history, samples);
    pick := None;
    if ms == [] {
      assert forall x :: x in history && InWindow(samples[0].ts, samples[|samples| - 1].ts, x.ts) ==> x in ms;
    } else {
      var k := MergeMeaning(samples, ms, i);
      pick := Some(ms[k]);
      assert ms[k] in ms;
    }
  }

  /** A live point after any history of appended samples; one without a time stays as it is. */
  lemma EnrichedPointFromNearest(zone: Zone, history: seq<MonitorSample>, point: PerfProgress)
    returns (pick: Option<MonitorSample>)
    requires HourlyZone(zone)
    ensures var after := EnrichedPoint(zone, StoreOf(zone, history), point);
            && (pick.None? ==> after == point && (point.ts > 0 ==> forall x :: x in history ==> !InWindow(point.ts, point.ts, x.ts)))
            && (pick.Some? ==> point.ts > 0 && NearestInWindow(history, point.ts, point.ts, point.ts, pick.value)
                               && FilledFrom(point, pick.value, after))
  {
    hide Enriched, StoreOf;
    pick := None;
    if point.ts > 0 {
      pick := EnrichedFromNearest(zone, history, [point], 0);
    }
  }
}
