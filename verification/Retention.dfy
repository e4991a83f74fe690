/** Appends, cleanups and queries of the sample store together (ops/backend/store/sample_store.go:48-118). */
module Retention {
  import opened Options
  import opened Samples
  import opened SampleStores

  /** Both disks hold the same file at the path, or none. */
  predicate SameFile(files: Files, files': Files, path: Path)
  {
    (path in files <==> path in files') && (path in files ==> files[path] == files'[path])
  }

  /** The hours Query looks at. */
  predicate Visited(cur: int, startMs: int, endMs: int)
  {
    TruncateHour(startMs) <= cur <= endMs && cur % HOUR == 0
  }

  lemma {:induction false} WalkFrame(zone: Zone, files: Files, files': Files, cur: int, endMs: int)
    requires cur % HOUR == 0
    requires forall c :: cur <= c <= endMs && c % HOUR == 0 ==> SameFile(files, files', zone(c))
    ensures Walk(zone, files, cur, endMs) == Walk(zone, files', cur, endMs)
    ensures forall i :: 0 <= i < |Walk(zone, files, cur, endMs)| ==> SameFile(files, files', Walk(zone, files, cur, endMs)[i])
    decreases endMs - cur
  {
    if cur <= endMs { WalkFrame(zone, files, files', cur + HOUR, endMs); }
  }

  lemma {:induction false} ReadFrame(files: Files, files': Files, paths: seq<Path>, startMs: int, endMs: int)
    requires forall i :: 0 <= i < |paths| ==> SameFile(files, files', paths[i])
    ensures ReadAll(files, paths, startMs, endMs) == ReadAll(files', paths, startMs, endMs)
  {
    if paths != [] {
      assert SameFile(files, files', paths[0]);
      ReadFrame(files, files', paths[1..], startMs, endMs);
    }
  }

  /** Query depends on the files of the hours it visits only. */
  lemma QueryFrame(zone: Zone, files: Files, files': Files, startMs: int, endMs: int)
    requires forall cur :: Visited(cur, startMs, endMs) ==> SameFile(files, files', zone(cur))
    ensures QueryRaw(zone, files, startMs, endMs) == QueryRaw(zone, files', startMs, endMs)
  {
    var first := TruncateHour(startMs);
    forall c | first <= c <= endMs && c % HOUR == 0 ensures SameFile(files, files', zone(c)) {
      assert Visited(c, startMs, endMs);
    }
    WalkFrame(zone, files, files', first, endMs);
    ReadFrame(files, files', Walk(zone, files, first, endMs), startMs, endMs);
  }

  /** Every hour of the range lies on a day at or after the cutoff. */
  ghost predicate Within(zone: Zone, cutoff: int, startMs: int, endMs: int)
  {
    forall cur :: Visited(cur, startMs, endMs) ==> zone(cur).day >= cutoff
  }

  /** A cleanup is invisible to every query over days it retains. */
  lemma CleanupKeepsQuery(zone: Zone, files: Files, cutoff: int, startMs: int, endMs: int)
    requires Within(zone, cutoff, startMs, endMs)
    ensures QueryRaw(zone, Retained(files, cutoff), startMs, endMs) == QueryRaw(zone, files, startMs, endMs)
  {
    RetainedDays(files, cutoff);
    QueryFrame(zone, Retained(files, cutoff), files, startMs, endMs);
  }

  // ------------------------------------------------------------ runs

  datatype StoreEvent = Appended(sample: MonitorSample) | Cleaned(cutoff: int)

  /** The files, and the path the open handle was opened for. */
  datatype Disk = Disk(files: Files, held: Option<Path>)

  /** One event, opens and writes succeeding. A line written to a removed file is lost. */
  function Step(zone: Zone, disk: Disk, event: StoreEvent): Disk
  {
    match event
    case Appended(sample) =>
      var target := zone(sample.ts);
      if disk.held == Some(target) && target !in disk.files then disk
      else Disk(Put(disk.files, target, sample), Some(target))
    case Cleaned(cutoff) => disk.(files := Retained(disk.files, cutoff))
  }

  function After(zone: Zone, events: seq<StoreEvent>): Disk
  {
    if events == [] then Disk(map[], None)
    else Step(zone, After(zone, events[..|events| - 1]), events[|events| - 1])
  }

  /** A run of Append and Cleanup calls on one store builds exactly that disk. */
  method RunAll(store: SampleStore, events: seq<StoreEvent>)
    requires store.Valid() && store.files == map[] && store.curFile == None && store.curPath == None
    modifies store
    ensures store.Valid() && store.files == After(store.zone, events).files
  {
    for i := 0 to |events|
      invariant store.Valid() && store.curFile == store.curPath
      invariant Disk(store.files, store.curPath) == After(store.zone, events[..i])
    {
      assert events[..i + 1][..i] == events[..i];
      match events[i]
      case Appended(sample) => var ok := store.Append(sample, true, true);
      case Cleaned(cutoff) => store.Cleanup(cutoff);
    }
    assert events[..|events|] == events;
  }

  function Appends(events: seq<StoreEvent>): seq<MonitorSample>
  {
    if events == [] then []
    else
      var last := events[|events| - 1];
      Appends(events[..|events| - 1]) + (if last.Appended? then [last.sample] else [])
  }

  /** No cleanup of the run had a cutoff after the day. */
  ghost predicate Spared(events: seq<StoreEvent>, day: int)
  {
    forall i :: 0 <= i < |events| && events[i].Cleaned? ==> day >= events[i].cutoff
  }

  /** The file of a spared day is as if nothing had ever been cleaned up. */
  lemma {:induction false} SparedFile(zone: Zone, events: seq<StoreEvent>, path: Path)
    requires Spared(events, path.day)
    ensures SameFile(After(zone, events).files, StoreOf(zone, Appends(events)), path)
    ensures After(zone, events).held == Some(path) ==> path in After(zone, events).files
  {
    if events != [] {
      var front, last := events[..|events| - 1], events[|events| - 1];
      SparedFile(zone, front, path);
      match last
      case Appended(sample) =>
        var samples := Appends(front);
        assert Appends(events)[..|samples|] == samples;
      case Cleaned(cutoff) =>
        assert Appends(events) == Appends(front);
        RetainedDays(After(zone, front).files, cutoff);
    }
  }

  /**
   * In every run of appends and cleanups, a query whose hours lie on days no cleanup had
   * reached returns what it would have returned without any cleanup; where hours and files
   * correspond, that is exactly the appended samples of the range.
   */
  lemma QueryAfterRun(zone: Zone, events: seq<StoreEvent>, startMs: int, endMs: int)
    requires forall cur :: Visited(cur, startMs, endMs) ==> Spared(events, zone(cur).day)
    ensures QueryRaw(zone, After(zone, events).files, startMs, endMs) == QueryRaw(zone, StoreOf(zone, Appends(events)), startMs, endMs)
    ensures HourlyZone(zone) ==>
              multiset(QueryRaw(zone, After(zone, events).files, startMs, endMs)) == multiset(InRange(Appends(events), startMs, endMs))
  {
    forall cur | Visited(cur, startMs, endMs)
      ensures SameFile(After(zone, events).files, StoreOf(zone, Appends(events)), zone(cur))
    {
      SparedFile(zone, events, zone(cur));
    }
    QueryFrame(zone, After(zone, events).files, StoreOf(zone, Appends(events)), startMs, endMs);
    if HourlyZone(zone) { ExactInHourlyZone(zone, Appends(events), startMs, endMs); }
  }

  /**
   * The condition is needed: a cleanup that reaches today removes the open file, and what
   * is then appended to its hour is lost although its day is never cleaned again.
   */
  lemma AppendAfterRemovalIsLost(zone: Zone, sample: MonitorSample, cutoff: int)
    requires ExpiredDay(zone(sample.ts).day, cutoff)
    ensures After(zone, [Appended(sample), Cleaned(cutoff), Appended(sample)]).files == map[]
  {
    var events := [Appended(sample), Cleaned(cutoff), Appended(sample)];
    var path := zone(sample.ts);
    assert events[..2] == [Appended(sample), Cleaned(cutoff)] && events[..2][..1] == [Appended(sample)];
    assert [Appended(sample)][..0] == [];
    assert After(zone, events[..2][..1]) == Step(zone, After(zone, []), Appended(sample));
    assert After(zone, events[..2]) == Disk(Retained(Put(map[], path, sample), cutoff), Some(path));
    assert Retained(Put(map[], path, sample), cutoff) == map[];
  }
}
