/**
 * ops/backend/store/sample_store.go: monitor samples in hourly files. The disk is a map
 * from paths to the samples written there; JSON encoding and decoding is the identity.
 * The local time zone is the function from a moment (UTC milliseconds) to its file.
 */
module SampleStores {
  import opened Options
  import opened Samples
  import opened Calendar
  import opened Downsampling
  import opened Sorting

  const HOUR := 3600000

  /** baseDir/2006-01-02/15.jsonl, with the day as a day number. */
  datatype Path = Path(day: int, hour: int)

  type Zone = int -> Path

  type Files = map<Path, seq<MonitorSample>>

  /** One more line in a file, which is created when missing. */
  function Put(files: Files, path: Path, sample: MonitorSample): Files
  {
    files[path := (if path in files then files[path] else []) + [sample]]
  }

  /** O_CREATE. */
  function Opened(files: Files, path: Path): Files
  {
    if path in files then files else files[path := []]
  }

  lemma OpenedThenPut(files: Files, path: Path, sample: MonitorSample)
    ensures Opened(files, path)[path := Opened(files, path)[path] + [sample]] == Put(files, path, sample)
  {
  }

  /** time.Truncate(time.Hour), which rounds down in absolute time. */
  function TruncateHour(ms: int): int
  {
    ms / HOUR * HOUR
  }

  /** The existing files Query visits, from the hour `cur` on. */
  function Walk(zone: Zone, files: Files, cur: int, endMs: int): seq<Path>
    decreases endMs - cur
  {
    if cur > endMs then []
    else (if zone(cur) in files then [zone(cur)] else []) + Walk(zone, files, cur + HOUR, endMs)
  }

  function InRange(samples: seq<MonitorSample>, startMs: int, endMs: int): seq<MonitorSample>
  {
    if samples == [] then []
    else
      var last := samples[|samples| - 1];
      InRange(samples[..|samples| - 1], startMs, endMs) +
      (if startMs <= last.ts <= endMs then [last] else [])
  }

  function ReadAll(files: Files, paths: seq<Path>, startMs: int, endMs: int): seq<MonitorSample>
  {
    if paths == [] then []
    else
      (if paths[0] in files then InRange(files[paths[0]], startMs, endMs) else [])
      + ReadAll(files, paths[1..], startMs, endMs)
  }

  lemma ReadNext(files: Files, path: Path, rest: seq<Path>, startMs: int, endMs: int)
    ensures ReadAll(files, [path] + rest, startMs, endMs)
            == (if path in files then InRange(files[path], startMs, endMs) else []) + ReadAll(files, rest, startMs, endMs)
  {
    assert ([path] + rest)[1..] == rest;
  }

  /** A file that is there but cannot be read adds nothing, as if it were not there. */
  lemma {:induction false} SkipUnreadable(zone: Zone, files: Files, unreadable: set<Path>, cur: int, startMs: int, endMs: int)
    ensures ReadAll(files - unreadable, Walk(zone, files, cur, endMs), startMs, endMs)
            == ReadAll(files - unreadable, Walk(zone, files - unreadable, cur, endMs), startMs, endMs)
    decreases endMs - cur
  {
    if cur <= endMs {
      SkipUnreadable(zone, files, unreadable, cur + HOUR, startMs, endMs);
      var all, seen := Walk(zone, files, cur + HOUR, endMs), Walk(zone, files - unreadable, cur + HOUR, endMs);
      assert [] + all == all && [] + seen == seen;
      ReadNext(files - unreadable, zone(cur), all, startMs, endMs);
      ReadNext(files - unreadable, zone(cur), seen, startMs, endMs);
    }
  }

  function Moment(sample: MonitorSample): int
  {
    sample.ts
  }

  /** sort.Slice by timestamp; the order of equal timestamps is not promised and not used. */
  function SortByTime(samples: seq<MonitorSample>): seq<MonitorSample>
  {
    SortBy(samples, Moment)
  }

  /** What Query returns with step 0. */
  function QueryRaw(zone: Zone, files: Files, startMs: int, endMs: int): seq<MonitorSample>
  {
    SortByTime(ReadAll(files, Walk(zone, files, TruncateHour(startMs), endMs), startMs, endMs))
  }

  function QueryResult(zone: Zone, files: Files, startMs: int, endMs: int, stepMs: int): seq<MonitorSample>
  {
    var all := QueryRaw(zone, files, startMs, endMs);
    if stepMs > 0 && all != [] then Buckets(all, stepMs) else all
  }

  /**
   * With a step, the result keeps a subsequence of the raw one that ends in its last
   * sample and has one at or after every sample by less than a step; without, it is the raw one.
   */
  lemma QueryResultMeaning(zone: Zone, files: Files, startMs: int, endMs: int, stepMs: int)
    ensures var raw, result := QueryRaw(zone, files, startMs, endMs), QueryResult(zone, files, startMs, endMs, stepMs);
            && (stepMs <= 0 ==> result == raw)
            && (stepMs > 0 ==> exists kept :: Selects(raw, 0, kept, result) && Covers(raw, stepMs, 0, kept))
            && (stepMs > 0 && raw != [] ==> |result| <= (raw[|raw| - 1].ts - raw[0].ts) / stepMs + 1)
  {
    hide QueryRaw, Selects, Covers, Buckets;
    var raw := QueryRaw(zone, files, startMs, endMs);
    if stepMs > 0 {
      if raw == [] {
        NothingToSelect(stepMs);
      } else {
        RawSorted(zone, files, startMs, endMs);
        var kept := BucketsMeaning(raw, stepMs);
        LengthBound(raw, stepMs);
        assert Selects(raw, 0, kept, Buckets(raw, stepMs)) && Covers(raw, stepMs, 0, kept);
      }
    }
  }

  lemma NothingToSelect(stepMs: int)
    ensures Selects([], 0, [], []) && Covers([], stepMs, 0, [])
  {
  }

  lemma RawSorted(zone: Zone, files: Files, startMs: int, endMs: int)
    ensures SortedMonitors(QueryRaw(zone, files, startMs, endMs))
  {
    SortByTimeSorts(ReadAll(files, Walk(zone, files, TruncateHour(startMs), endMs), startMs, endMs));
  }

  function KeptDays(files: Files, expired: int -> bool): Files
  {
    map path | path in files && !expired(path.day) :: files[path]
  }

  lemma AnyOf<T>(s: set<T>) returns (x: T)
    requires s != {}
    ensures x in s
  {
    x :| x in s;
  }

  /** Cleanup's test: the day's directory, by name. */
  predicate ExpiredDay(day: int, cutoff: int)
  {
    Expired(DayName(day), DayName(cutoff))
  }

  /** The files Cleanup leaves. */
  function Retained(files: Files, cutoff: int): Files
  {
    KeptDays(files, day => ExpiredDay(day, cutoff))
  }

  /** Nothing of a day at or after the cutoff goes; in the years 0 to 9999 everything before it does. */
  lemma RetainedDays(files: Files, cutoff: int)
    ensures forall path :: path in files && path.day >= cutoff ==> path in Retained(files, cutoff)
    ensures forall path :: path in files && FourDigitYear(path.day) && FourDigitYear(cutoff) ==>
              (path in Retained(files, cutoff) <==> path.day >= cutoff)
  {
    forall path | path in files
      ensures path.day >= cutoff ==> path in Retained(files, cutoff)
      ensures FourDigitYear(path.day) && FourDigitYear(cutoff) ==> (path in Retained(files, cutoff) <==> path.day >= cutoff)
    {
      ExpiredMeansEarlier(path.day, cutoff);
    }
  }

  class SampleStore {
    const zone: Zone
    var files: Files
    var curFile: Option<Path>   // the open handle
    var curPath: Option<Path>   // the path it was opened for; "" in the source is None
    var unreadable: set<Path>   // the files whose reads fail for the time being

    constructor (zone: Zone)
      ensures this.zone == zone && files == map[] && curFile == None && curPath == None && unreadable == {}
    {
      this.zone := zone;
      files, curFile, curPath, unreadable := map[], None, None, {};
    }

    /** What a query gets to see. */
    function Readable(): Files
      reads `files, `unreadable
    {
      files - unreadable
    }

    /** The open handle belongs to the remembered path. */
    ghost predicate Valid()
      reads this
    {
      curFile.Some? ==> curFile == curPath
    }

    /**
     * `openOk` is whether creating the directory and opening the file succeed, `writeOk`
     * whether the line is written. A handle whose file Cleanup has removed still accepts
     * writes, which no reader sees.
     */
    method Append(sample: MonitorSample, openOk: bool, writeOk: bool) returns (ok: bool)
      requires Valid()
      modifies `files, `curFile, `curPath
      ensures Valid()
      ensures var target := zone(sample.ts);
              var held := old(curPath) == Some(target);
              && ok == ((if held then old(curFile).Some? else openOk) && writeOk)
              && files == (if held then
                             if ok && target in old(files) then Put(old(files), target, sample) else old(files)
                           else
                             if ok then Put(old(files), target, sample)
                             else if openOk then Opened(old(files), target) else old(files))
              && curPath == (if held || openOk then Some(target) else old(curPath))
              && curFile == (if held then old(curFile) else if openOk then Some(target) else None)
      ensures var target := zone(sample.ts);
              && files - {target} == old(files) - {target}
              && (ok && (old(curPath) != Some(target) || target in old(files)) ==>
                    target in files && files[target] == (if target in old(files) then old(files)[target] else []) + [sample])
              && (!ok ==> forall path :: path in old(files) ==> path in files && files[path] == old(files)[path])
              && (openOk && old(curPath) != Some(target) ==> target in files)
    {
      var target := zone(sample.ts);
      if curPath != Some(target) {
        if curFile.Some? {
          curFile := None;
        }
        if !openOk {
          return false;
        }
        files := Opened(files, target);
        curFile := Some(target);
        curPath := Some(target);
      }
      if curFile.None? || !writeOk {
        return false;
      }
      if target in files {
        OpenedThenPut(old(files), target, sample);
        files := files[target := files[target] + [sample]];
      }
      ok := true;
    }

    /** The files that exist among those of the hours from startMs to endMs. */
    method FilesInRange(startMs: int, endMs: int) returns (paths: seq<Path>)
      ensures paths == Walk(zone, files, TruncateHour(startMs), endMs)
    {
      paths := [];
      var cur := TruncateHour(startMs);
      while cur <= endMs
        invariant Walk(zone, files, TruncateHour(startMs), endMs) == paths + Walk(zone, files, cur, endMs)
        decreases endMs - cur
      {
        if zone(cur) in files {
          paths := paths + [zone(cur)];
        }
        cur := cur + HOUR;
      }
    }

    /** The second loop of Query; a file that cannot be read is skipped. */
    method ReadFiles(paths: seq<Path>, startMs: int, endMs: int) returns (all: seq<MonitorSample>)
      ensures all == ReadAll(Readable(), paths, startMs, endMs)
    {
      all := [];
      for i := 0 to |paths|
        invariant ReadAll(Readable(), paths, startMs, endMs) == all + ReadAll(Readable(), paths[i..], startMs, endMs)
      {
        assert paths[i..] == [paths[i]] + paths[i + 1..];
        ReadNext(Readable(), paths[i], paths[i + 1..], startMs, endMs);
        if paths[i] !in files || paths[i] in unreadable {
          continue;
        }
        all := all + InRange(files[paths[i]], startMs, endMs);
      }
    }

    method Query(startMs: int, endMs: int, stepMs: int) returns (samples: seq<MonitorSample>)
      ensures samples == QueryResult(zone, Readable(), startMs, endMs, stepMs)
      ensures stepMs <= 0 ==> samples == QueryRaw(zone, Readable(), startMs, endMs)
      ensures stepMs > 0 ==> exists kept ::
                var raw := QueryRaw(zone, Readable(), startMs, endMs);
                Selects(raw, 0, kept, samples) && Covers(raw, stepMs, 0, kept)
      ensures stepMs > 0 ==>
                var raw := QueryRaw(zone, Readable(), startMs, endMs);
                raw != [] ==> |samples| <= (raw[|raw| - 1].ts - raw[0].ts) / stepMs + 1
    {
      QueryResultMeaning(zone, Readable(), startMs, endMs, stepMs);
      var paths := FilesInRange(startMs, endMs);
      SkipUnreadable(zone, files, unreadable, TruncateHour(startMs), startMs, endMs);
      var all := ReadFiles(paths, startMs, endMs);
      samples := SortByTime(all);
      if stepMs > 0 && |samples| > 0 {
        samples := Downsample(samples, stepMs);
      }
    }

    /** The loop of Cleanup, with its test on a day's directory as a parameter. */
    method RemoveDays(expired: int -> bool)
      modifies this`files
      ensures files == KeptDays(old(files), expired)
    {
      var entries := set path | path in files :: path.day;
      while entries != {}
        invariant forall path :: path in files <==> path in old(files) && (path.day in entries || !expired(path.day))
        invariant forall path :: path in files ==> files[path] == old(files)[path]
        decreases |entries|
      {
        ghost var some := AnyOf(entries);
        var day :| day in entries;
        if expired(day) {
          files := map path | path in files && path.day != day :: files[path];
        }
        entries := entries - {day};
      }
    }

    /**
     * `cutoff` is the day retainDays before today. The directories are compared with it by
     * name; no day at or after it is touched.
     */
    method Cleanup(cutoff: int)
      modifies this`files
      ensures files == Retained(old(files), cutoff)
      ensures forall path :: path in old(files) && path.day >= cutoff ==> path in files && files[path] == old(files)[path]
    {
      RetainedDays(files, cutoff);
      RemoveDays(day => ExpiredDay(day, cutoff));
    }

    method Close()
      modifies `curFile
      ensures curFile == None
    {
      if curFile.Some? {
        curFile := None;
      }
    }
  }

  // ------------------------------------------------------------ the disk after a run of appends

  /** The disk after appending a history of samples, every open and write succeeding. */
  function StoreOf(zone: Zone, history: seq<MonitorSample>): Files
  {
    if history == [] then map[]
    else
      var last := history[|history| - 1];
      Put(StoreOf(zone, history[..|history| - 1]), zone(last.ts), last)
  }

  /** Every run of Appends on one store builds exactly that disk. */
  method AppendAll(store: SampleStore, history: seq<MonitorSample>)
    requires store.Valid() && store.files == map[] && store.curFile == None && store.curPath == None
    modifies store
    ensures store.Valid() && store.files == StoreOf(store.zone, history)
  {
    for i := 0 to |history|
      invariant store.Valid() && store.files == StoreOf(store.zone, history[..i])
      invariant store.curPath.Some? ==> store.curFile == store.curPath && store.curPath.value in store.files
    {
      assert history[..i + 1][..i] == history[..i];
      var ok := store.Append(history[i], true, true);
    }
    assert history[..|history|] == history;
  }

  function Visits(paths: seq<Path>, path: Path): nat
  {
    multiset(paths)[path]
  }

  lemma LastCount(samples: seq<MonitorSample>, x: MonitorSample)
    requires samples != []
    ensures multiset(samples)[x] ==
            multiset(samples[..|samples| - 1])[x] + if samples[|samples| - 1] == x then 1 else 0
  {
    assert samples == samples[..|samples| - 1] + [samples[|samples| - 1]];
  }

  lemma {:induction false} InRangeCount(samples: seq<MonitorSample>, startMs: int, endMs: int, x: MonitorSample)
    ensures multiset(InRange(samples, startMs, endMs))[x] ==
            if startMs <= x.ts <= endMs then multiset(samples)[x] else 0
  {
    if samples != [] {
      InRangeCount(samples[..|samples| - 1], startMs, endMs, x);
      LastCount(samples, x);
    }
  }

  /** A sample is in the file of its own moment, as often as it was appended, and nowhere else. */
  lemma {:induction false} StoreCount(zone: Zone, history: seq<MonitorSample>, path: Path, x: MonitorSample)
    ensures path in StoreOf(zone, history) ==>
              multiset(StoreOf(zone, history)[path])[x] == if zone(x.ts) == path then multiset(history)[x] else 0
    ensures path !in StoreOf(zone, history) ==> (zone(x.ts) == path ==> multiset(history)[x] == 0)
  {
    if history != [] {
      var front, last := history[..|history| - 1], history[|history| - 1];
      StoreCount(zone, front, path, x);
      assert history == front + [last];
    }
  }

  /** How often x comes back from the given files. */
  function Copies(visits: nat, appended: nat, inRange: bool): nat
  {
    if inRange then visits * appended else 0
  }

  lemma OneMoreVisit(visits: nat, appended: nat, inRange: bool)
    ensures Copies(visits + 1, appended, inRange) == Copies(visits, appended, inRange) + if inRange then appended else 0
  {
  }

  lemma FewVisits(visits: nat, appended: nat, inRange: bool)
    ensures visits == 1 ==> Copies(visits, appended, inRange) == if inRange then appended else 0
    ensures visits == 0 || appended == 0 ==> Copies(visits, appended, inRange) == 0
    ensures visits >= 2 && appended == 1 && inRange ==> Copies(visits, appended, inRange) >= 2
  {
  }

  lemma ReadFirst(files: Files, paths: seq<Path>, startMs: int, endMs: int, x: MonitorSample)
    requires paths != [] && paths[0] in files
    ensures multiset(ReadAll(files, paths, startMs, endMs))[x] ==
            multiset(InRange(files[paths[0]], startMs, endMs))[x] + multiset(ReadAll(files, paths[1..], startMs, endMs))[x]
  {
  }

  lemma {:induction false} ReadAllCount(zone: Zone, history: seq<MonitorSample>, paths: seq<Path>, startMs: int, endMs: int,
        x: MonitorSample)
    requires forall i :: 0 <= i < |paths| ==> paths[i] in StoreOf(zone, history)
    ensures multiset(ReadAll(StoreOf(zone, history), paths, startMs, endMs))[x] ==
            Copies(Visits(paths, zone(x.ts)), multiset(history)[x], startMs <= x.ts <= endMs)
  {
    if paths != [] {
      var files, first, rest := StoreOf(zone, history), paths[0], paths[1..];
      ReadAllCount(zone, history, rest, startMs, endMs, x);
      FirstVisit(paths, zone(x.ts));
      OneMoreVisit(Visits(rest, zone(x.ts)), multiset(history)[x], startMs <= x.ts <= endMs);
      StoreCount(zone, history, first, x);
      InRangeCount(files[first], startMs, endMs, x);
      ReadFirst(files, paths, startMs, endMs, x);
    }
  }

  lemma FirstVisit(paths: seq<Path>, path: Path)
    requires paths != []
    ensures Visits(paths, path) == Visits(paths[1..], path) + if paths[0] == path then 1 else 0
  {
    assert paths == [paths[0]] + paths[1..];
  }

  lemma SortByTimeSorts(samples: seq<MonitorSample>)
    ensures SortedMonitors(SortByTime(samples)) && multiset(SortByTime(samples)) == multiset(samples)
  {
    var out := SortByTime(samples);
    SortBySorts(samples, Moment);
    forall i, j | 0 <= i < j < |out| ensures out[i].ts <= out[j].ts {
      assert Moment(out[i]) <= Moment(out[j]);
    }
  }

  lemma {:induction false} WalkExists(zone: Zone, files: Files, cur: int, endMs: int)
    ensures forall i :: 0 <= i < |Walk(zone, files, cur, endMs)| ==> Walk(zone, files, cur, endMs)[i] in files
    decreases endMs - cur
  {
    if cur <= endMs { WalkExists(zone, files, cur + HOUR, endMs); }
  }

  /**
   * The law of Query, in any time zone: the result is sorted, and every sample in the
   * range comes back once per append and per visited hour whose file is the sample's.
   */
  lemma QueryLaw(zone: Zone, history: seq<MonitorSample>, startMs: int, endMs: int, x: MonitorSample)
    ensures var files := StoreOf(zone, history);
            var result := QueryRaw(zone, files, startMs, endMs);
            && SortedMonitors(result)
            && multiset(result)[x] ==
               Copies(Visits(Walk(zone, files, TruncateHour(startMs), endMs), zone(x.ts)), multiset(history)[x],
                      startMs <= x.ts <= endMs)
  {
    var files := StoreOf(zone, history);
    var paths := Walk(zone, files, TruncateHour(startMs), endMs);
    WalkExists(zone, files, TruncateHour(startMs), endMs);
    ReadAllCount(zone, history, paths, startMs, endMs, x);
    SortByTimeSorts(ReadAll(files, paths, startMs, endMs));
  }

  // ------------------------------------------------------------ when Query is exact

  /** Two moments share a file exactly when they share an hour of absolute time. */
  ghost predicate HourlyZone(zone: Zone)
  {
    forall t, u :: zone(t) == zone(u) <==> t / HOUR == u / HOUR
  }

  /** Query returns exactly the appended samples of the range, for every history and range. */
  ghost predicate Exact(zone: Zone, history: seq<MonitorSample>, startMs: int, endMs: int)
  {
    multiset(QueryRaw(zone, StoreOf(zone, history), startMs, endMs)) == multiset(InRange(history, startMs, endMs))
  }

  lemma {:induction false} WalkVisitsOnce(zone: Zone, files: Files, cur: int, endMs: int, t: int)
    requires HourlyZone(zone) && cur % HOUR == 0 && zone(t) in files
    ensures Visits(Walk(zone, files, cur, endMs), zone(t)) == if cur <= TruncateHour(t) <= endMs then 1 else 0
    decreases endMs - cur
  {
    if cur <= endMs {
      WalkVisitsOnce(zone, files, cur + HOUR, endMs, t);
      assert zone(cur) == zone(t) <==> cur == TruncateHour(t);
    }
  }

  lemma OnceInHourlyZone(zone: Zone, history: seq<MonitorSample>, startMs: int, endMs: int, x: MonitorSample)
    requires HourlyZone(zone)
    ensures multiset(QueryRaw(zone, StoreOf(zone, history), startMs, endMs))[x] ==
            multiset(InRange(history, startMs, endMs))[x]
  {
    var visits := Visits(Walk(zone, StoreOf(zone, history), TruncateHour(startMs), endMs), zone(x.ts));
    var appended, inRange := multiset(history)[x], startMs <= x.ts <= endMs;
    assert appended > 0 && inRange ==> visits == 1 by {
      StoreCount(zone, history, zone(x.ts), x);
      if appended > 0 && inRange {
        WalkVisitsOnce(zone, StoreOf(zone, history), TruncateHour(startMs), endMs, x.ts);
      }
    }
    FewVisits(visits, appended, inRange);
    InRangeCount(history, startMs, endMs, x);
    QueryLaw(zone, history, startMs, endMs, x);
  }

  lemma ExactInHourlyZone(zone: Zone, history: seq<MonitorSample>, startMs: int, endMs: int)
    requires HourlyZone(zone)
    ensures Exact(zone, history, startMs, endMs)
  {
    forall x
      ensures multiset(QueryRaw(zone, StoreOf(zone, history), startMs, endMs))[x] ==
              multiset(InRange(history, startMs, endMs))[x]
    {
      OnceInHourlyZone(zone, history, startMs, endMs, x);
    }
  }

  function At(ts: int): MonitorSample
  {
    MonitorSample(ts, "", 0.0, 0.0, 0.0, 0, 0, 0, 0, Metrics(None, None, None, None, None, None))
  }

  /** The disk with one sample. */
  lemma OneSample(zone: Zone, s: MonitorSample)
    ensures StoreOf(zone, [s]) == map[zone(s.ts) := [s]]
  {
    assert [s][..0] == [];
    assert StoreOf(zone, [s]) == Put(map[], zone(s.ts), s);
    assert [] + [s] == [s];
  }

  /** A moment whose file is not the file of the start of its hour is missed by a query for that moment. */
  lemma MissedWithinHour(zone: Zone, t: int)
    requires zone(t) != zone(TruncateHour(t))
    ensures !Exact(zone, [At(t)], t, t)
  {
    var x := At(t);
    var files := StoreOf(zone, [x]);
    OneSample(zone, x);
    var cur := TruncateHour(t);
    assert Walk(zone, files, cur + HOUR, t) == [];
    assert Walk(zone, files, cur, t) == [];
    QueryLaw(zone, [x], t, t, x);
    InRangeCount([x], t, t, x);
    assert multiset(QueryRaw(zone, files, t, t))[x] == 0;
    assert multiset(InRange([x], t, t))[x] == 1;
  }

  /** Two different hours with one file: a query over both reads the file twice. */
  lemma DuplicatedAcrossHours(zone: Zone, t: int, u: int)
    requires t < u && t % HOUR == 0 && u % HOUR == 0 && zone(t) == zone(u)
    ensures !Exact(zone, [At(t)], t, u)
  {
    var x := At(t);
    var files := StoreOf(zone, [x]);
    VisitedTwice(zone, t, u);
    var visits := Visits(Walk(zone, files, TruncateHour(t), u), zone(t));
    FewVisits(visits, 1, true);
    assert multiset([x])[x] == 1;
    InRangeCount([x], t, u, x);
    QueryLaw(zone, [x], t, u, x);
  }

  lemma VisitedTwice(zone: Zone, t: int, u: int)
    requires t < u && t % HOUR == 0 && u % HOUR == 0 && zone(t) == zone(u)
    ensures Visits(Walk(zone, StoreOf(zone, [At(t)]), TruncateHour(t), u), zone(t)) >= 2
  {
    var files := StoreOf(zone, [At(t)]);
    OneSample(zone, At(t));
    var rest := Walk(zone, files, t + HOUR, u);
    WalkReaches(zone, files, t + HOUR, u, u);
    var paths := Walk(zone, files, t, u);
    assert paths == [zone(t)] + rest;
    FirstVisit(paths, zone(t));
    assert paths[1..] == rest;
  }

  lemma {:induction false} WalkReaches(zone: Zone, files: Files, cur: int, endMs: int, u: int)
    requires cur <= u <= endMs && (u - cur) % HOUR == 0 && zone(u) in files
    ensures Visits(Walk(zone, files, cur, endMs), zone(u)) >= 1
    decreases endMs - cur
  {
    if cur < u { WalkReaches(zone, files, cur + HOUR, endMs, u); }
  }

  /**
   * Query is exact for every history and every range if and only if the zone gives each
   * hour of absolute time one file of its own. It fails for zones off the whole hour (a
   * file is missed) and over a clock change that repeats an hour (a file is read twice).
   */
  lemma QueryExactIff(zone: Zone)
    ensures HourlyZone(zone) <==>
            forall history: seq<MonitorSample>, startMs, endMs :: Exact(zone, history, startMs, endMs)
  {
    if HourlyZone(zone) {
      forall history: seq<MonitorSample>, startMs, endMs ensures Exact(zone, history, startMs, endMs) {
        ExactInHourlyZone(zone, history, startMs, endMs);
      }
    } else {
      var t, u :| !(zone(t) == zone(u) <==> t / HOUR == u / HOUR);
      if zone(t) != zone(TruncateHour(t)) {
        MissedWithinHour(zone, t);
      } else if zone(u) != zone(TruncateHour(u)) {
        MissedWithinHour(zone, u);
      } else {
        var a, b := TruncateHour(t), TruncateHour(u);
        if a < b { DuplicatedAcrossHours(zone, a, b); } else { DuplicatedAcrossHours(zone, b, a); }
      }
    }
  }

  // ------------------------------------------------------------ the size of an API answer

  lemma {:induction false} InRangeOnly(samples: seq<MonitorSample>, startMs: int, endMs: int)
    ensures forall i :: 0 <= i < |InRange(samples, startMs, endMs)| ==>
              startMs <= InRange(samples, startMs, endMs)[i].ts <= endMs
  {
    if samples != [] { InRangeOnly(samples[..|samples| - 1], startMs, endMs); }
  }

  lemma {:induction false} ReadAllOnly(files: Files, paths: seq<Path>, startMs: int, endMs: int)
    ensures forall i :: 0 <= i < |ReadAll(files, paths, startMs, endMs)| ==>
              startMs <= ReadAll(files, paths, startMs, endMs)[i].ts <= endMs
  {
    if paths != [] {
      ReadAllOnly(files, paths[1..], startMs, endMs);
      if paths[0] in files { InRangeOnly(files[paths[0]], startMs, endMs); }
    }
  }

  /** Whatever is on disk, Query's result is in time order and within the range. */
  lemma QueryInRange(zone: Zone, files: Files, startMs: int, endMs: int)
    ensures SortedMonitors(QueryRaw(zone, files, startMs, endMs))
    ensures forall i :: 0 <= i < |QueryRaw(zone, files, startMs, endMs)| ==>
              startMs <= QueryRaw(zone, files, startMs, endMs)[i].ts <= endMs
  {
    var all := ReadAll(files, Walk(zone, files, TruncateHour(startMs), endMs), startMs, endMs);
    var sorted := QueryRaw(zone, files, startMs, endMs);
    SortByTimeSorts(all);
    ReadAllOnly(files, Walk(zone, files, TruncateHour(startMs), endMs), startMs, endMs);
    forall i | 0 <= i < |sorted| ensures startMs <= sorted[i].ts <= endMs {
      assert sorted[i] in multiset(sorted);
      assert sorted[i] in all;
    }
  }

  lemma FoundIffAppended(zone: Zone, history: seq<MonitorSample>, startMs: int, endMs: int, x: MonitorSample)
    requires HourlyZone(zone)
    ensures x in QueryRaw(zone, StoreOf(zone, history), startMs, endMs) <==> x in history && startMs <= x.ts <= endMs
  {
    hide QueryRaw, StoreOf, InRange;
    OnceInHourlyZone(zone, history, startMs, endMs, x);
    InRangeCount(history, startMs, endMs, x);
    assert x in QueryRaw(zone, StoreOf(zone, history), startMs, endMs)
           <==> multiset(QueryRaw(zone, StoreOf(zone, history), startMs, endMs))[x] > 0;
    assert x in history <==> multiset(history)[x] > 0;
  }

  /** The answer has a sample at or after x by less than a step. */
  ghost predicate FollowedIn(answer: seq<MonitorSample>, x: MonitorSample, stepMs: int)
  {
    exists i :: 0 <= i < |answer| && 0 <= answer[i].ts - x.ts < stepMs
  }

  lemma SelectionFollows(raw: seq<MonitorSample>, stepMs: int, kept: seq<nat>, answer: seq<MonitorSample>)
    requires SortedMonitors(raw) && Selects(raw, 0, kept, answer) && Covers(raw, stepMs, 0, kept)
    ensures SortedMonitors(answer)
    ensures forall y :: y in answer ==> y in raw
    ensures forall x :: x in raw ==> FollowedIn(answer, x, stepMs)
  {
    forall x | x in raw ensures FollowedIn(answer, x, stepMs) {
      var j :| 0 <= j < |raw| && raw[j] == x;
      assert Represented(raw, stepMs, kept, j);
      var i :| 0 <= i < |kept| && j <= kept[i] < |raw| && raw[kept[i]].ts - raw[j].ts < stepMs;
      assert answer[i] == raw[kept[i]] && raw[j].ts <= raw[kept[i]].ts;
    }
  }

  /**
   * What a query with a step answers after any history of appends, where hours and files
   * correspond: samples of the range only, in time order, and for every appended sample
   * of the range one at or after it by less than a step.
   */
  lemma DownsampledAnswer(zone: Zone, history: seq<MonitorSample>, startMs: int, endMs: int, stepMs: int,
                          kept: seq<nat>, answer: seq<MonitorSample>)
    requires HourlyZone(zone) && stepMs > 0
    requires var raw := QueryRaw(zone, StoreOf(zone, history), startMs, endMs);
             Selects(raw, 0, kept, answer) && Covers(raw, stepMs, 0, kept)
    ensures SortedMonitors(answer)
    ensures forall y :: y in answer ==> y in history && startMs <= y.ts <= endMs
    ensures forall x :: x in history && startMs <= x.ts <= endMs ==> FollowedIn(answer, x, stepMs)
  {
    hide QueryRaw, StoreOf, Selects, Covers, FollowedIn;
    var raw := QueryRaw(zone, StoreOf(zone, history), startMs, endMs);
    RawSorted(zone, StoreOf(zone, history), startMs, endMs);
    SelectionFollows(raw, stepMs, kept, answer);
    forall x ensures x in raw <==> x in history && startMs <= x.ts <= endMs {
      FoundIffAppended(zone, history, startMs, endMs, x);
    }
  }

  /** With the automatic step, a range over 10 minutes and up to 7 days is answered with at most 2017 samples. */
  lemma AutomaticAnswerBound(zone: Zone, files: Files, startMs: int, endMs: int)
    requires 10 * MINUTE_MS < endMs - startMs <= 7 * 24 * HOUR_MS
    ensures |QueryResult(zone, files, startMs, endMs, AutoStep(endMs - startMs))| <= 2017
  {
    QueryInRange(zone, files, startMs, endMs);
    AutoStepBound(QueryRaw(zone, files, startMs, endMs), startMs, endMs);
  }

  /** Local time at a fixed offset from UTC. */
  function FixedOffset(offsetMs: int): Zone
  {
    (t: int) => Path((t + offsetMs) / HOUR / 24, (t + offsetMs) / HOUR % 24)
  }

  /** A fixed offset gives every hour its own file exactly when it is a whole number of hours. */
  lemma FixedOffsetHourly(offsetMs: int)
    ensures HourlyZone(FixedOffset(offsetMs)) <==> offsetMs % HOUR == 0
  {
    var zone := FixedOffset(offsetMs);
    if offsetMs % HOUR == 0 {
      forall t, u ensures zone(t) == zone(u) <==> t / HOUR == u / HOUR {
        var a, b := (t + offsetMs) / HOUR, (u + offsetMs) / HOUR;
        assert a == t / HOUR + offsetMs / HOUR && b == u / HOUR + offsetMs / HOUR;
        assert a == 24 * (a / 24) + a % 24 && b == 24 * (b / 24) + b % 24;
      }
    } else {
      // the start of an hour, and the last moment before local time turns the hour over
      var t := HOUR - offsetMs % HOUR;
      assert (0 + offsetMs) / HOUR != (t + offsetMs) / HOUR;
      var a, b := offsetMs / HOUR, (t + offsetMs) / HOUR;
      assert a == 24 * (a / 24) + a % 24 && b == 24 * (b / 24) + b % 24;
      assert zone(0) != zone(t) && 0 / HOUR == t / HOUR;
    }
  }
}
