/**
 * What a job leaves on disk and what a fresh scheduler reads back
 * (ops/backend/scheduler/scheduler.go:501-584).
 */
module Restart {
  import opened Options
  import Jobs = JobIndex
  import opened JobLog
  import opened JobRecords
  import opened Sorting

  /** One job's directory: meta.json, final.log and the hourly files. */
  datatype JobDir = JobDir(meta: Option<JobDetail>, finalLog: Option<string>, archives: HourFiles)

  const EMPTY_DIR := JobDir(None, None, map[])

  /** persistJobMeta: an empty log leaves final.log as it was. */
  function Persisted(dir: JobDir, detail: JobDetail, log: string): JobDir
  {
    dir.(meta := Some(detail), finalLog := if log == "" then dir.finalLog else Some(log))
  }

  /** What persistJobMeta's ignored errors come to: no directory, or a write that leaves its file as it was. */
  datatype Saving = NoDirectory | Tried(meta: bool, log: bool)

  const ALL_SAVED := Tried(true, true)

  function Saved(disk: map<Jobs.JobId, JobDir>, id: Jobs.JobId, detail: JobDetail, log: string,
                 saving: Saving): map<Jobs.JobId, JobDir>
  {
    if saving.NoDirectory? then disk
    else
      var dir := if id in disk then disk[id] else EMPTY_DIR;
      var written := Persisted(dir, detail, log);
      disk[id := dir.(meta := if saving.meta then written.meta else dir.meta,
                      finalLog := if saving.log then written.finalLog else dir.finalLog)]
  }

  /** The record after the first n hourly files of the sorted listing. */
  function RestoreHours(path: string, files: HourFiles, listing: seq<Hour>, n: nat): LogState
    requires n <= |listing|
  {
    if n == 0 then EMPTY_LOG
    else
      AddArchive(RestoreHours(path, files, listing, n - 1), listing[n - 1], PathOf(path, listing[n - 1]),
                 |FileText(files, listing[n - 1])|)
  }

  /** loadPersistedJobs on one job; the hourly names sort before "final.log". */
  function Restored(path: string, dir: JobDir, listing: seq<Hour>): LogState
  {
    RestoreHours(path, dir.archives, listing, |listing|)
    .(log := FinalText(dir))
  }

  function FinalText(dir: JobDir): string
  {
    if dir.finalLog.Some? then dir.finalLog.value else ""
  }

  /** What Glob and sort.Strings return for the hourly files. */
  ghost predicate SortedListing(listing: seq<Hour>, files: HourFiles)
  {
    Increasing(listing) && Lists(listing, files)
  }

  lemma {:induction false} CountBelow(a: seq<Hour>, b: seq<Hour>, n: nat)
    requires Increasing(a) && Increasing(b) && n <= |a|
    requires forall h :: h in a <==> h in b
    ensures n <= |b| && forall i :: 0 <= i < n ==> a[i] == b[i]
  {
    if n > 0 {
      CountBelow(a, b, n - 1);
      assert a[n - 1] in b && (n - 1 < |b| ==> b[n - 1] in a);
      var k :| 0 <= k < |b| && b[k] == a[n - 1];
      assert k >= n - 1;
      var j :| 0 <= j < |a| && a[j] == b[n - 1];
      assert j >= n - 1;
    }
  }

  /** A directory has one sorted listing. */
  lemma ListingUnique(a: seq<Hour>, b: seq<Hour>, files: HourFiles)
    requires SortedListing(a, files) && SortedListing(b, files)
    ensures a == b
  {
    ListsMembers(a, files);
    ListsMembers(b, files);
    CountBelow(a, b, |a|);
    CountBelow(b, a, |b|);
  }

  lemma ListsMembers(hours: seq<Hour>, files: HourFiles)
    requires Lists(hours, files)
    ensures forall h :: h in hours <==> h in files
  {
    forall h | h in files ensures h in hours {
      var i :| 0 <= i < |hours| && hours[i] == h;
    }
  }

  lemma AppendsAtEnd(hours: seq<Hour>, n: nat)
    requires Increasing(hours) && n < |hours|
    ensures InsertHour(hours[..n], hours[n]) == hours[..n + 1]
  {
    assert Position(hours[..n], hours[n], n) == n;
  }

  /** The record after reading the files of the given hours, `size` bytes in all. */
  ghost predicate IndexOf(r: LogState, path: string, hours: seq<Hour>, size: int)
  {
    && r.log == "" && r.archivedHours == hours && r.archivedBytes == size
    && (forall h :: h in r.archivedByHour <==> h in hours)
    && (forall h :: h in r.archivedByHour ==> r.archivedByHour[h] == PathOf(path, h))
  }

  lemma RestoreStep(r: LogState, path: string, listing: seq<Hour>, n: nat, size: int, bytes: int)
    requires Increasing(listing) && n < |listing| && IndexOf(r, path, listing[..n], size)
    ensures IndexOf(AddArchive(r, listing[n], PathOf(path, listing[n]), bytes), path, listing[..n + 1], size + bytes)
  {
    var hour := listing[n];
    var r' := AddArchive(r, hour, PathOf(path, hour), bytes);
    assert hour !in listing[..n];
    AppendsAtEnd(listing, n);
    assert listing[..n + 1] == listing[..n] + [hour];
    assert r'.archivedByHour == r.archivedByHour[hour := PathOf(path, hour)];
    forall h ensures h in listing[..n + 1] <==> h in listing[..n] || h == hour {
    }
  }

  lemma {:induction false} RestoreMeaning(path: string, files: HourFiles, listing: seq<Hour>, n: nat)
    requires Increasing(listing) && n <= |listing|
    ensures IndexOf(RestoreHours(path, files, listing, n), path, listing[..n], |Concat(listing, files, n)|)
  {
    if n > 0 {
      RestoreMeaning(path, files, listing, n - 1);
      RestoreStep(RestoreHours(path, files, listing, n - 1), path, listing, n - 1, |Concat(listing, files, n - 1)|,
                  |FileText(files, listing[n - 1])|);
    }
  }

  lemma IndexIsPathIndex(r: LogState, path: string, files: HourFiles)
    requires IndexOf(r, path, r.archivedHours, r.archivedBytes) && Lists(r.archivedHours, files)
    ensures r.archivedByHour == PathIndex(path, files)
  {
    ListsMembers(r.archivedHours, files);
  }

  lemma {:induction false} RestoredIndex(store: Store, path: string, listing: seq<Hour>)
    requires StoreInv(store, path) && SortedListing(listing, store.files)
    ensures RestoreHours(path, store.files, listing, |listing|) == store.state.(log := "")
  {
    ListingUnique(listing, store.state.archivedHours, store.files);
    RestoreMeaning(path, store.files, listing, |listing|);
    assert listing[..|listing|] == listing;
    IndexIsPathIndex(RestoreHours(path, store.files, listing, |listing|), path, store.files);
  }

  /**
   * Restart round trip: the detail always comes back, and the log state does exactly when
   * the buffer held something to overwrite an older final.log with, or there was none.
   */
  lemma RestartRoundTrip(store: Store, path: string, dir: JobDir, detail: JobDetail, listing: seq<Hour>)
    requires StoreInv(store, path) && dir.archives == store.files && SortedListing(listing, store.files)
    ensures Persisted(dir, detail, store.state.log).meta == Some(detail)
    ensures Restored(path, Persisted(dir, detail, store.state.log), listing) == store.state
            <==> store.state.log != "" || dir.finalLog.None? || dir.finalLog == Some("")
  {
    RestoredIndex(store, path, listing);
  }

  lemma AppendLeavesText(store: Store, path: string, e: Entry, maxBytes: int)
    ensures Append(store, path, e.line, maxBytes, e.hour, e.written).state.log != ""
  {
    assert |Terminated(e.line)| > 0;
  }

  /**
   * A job that wrote at least one line, as every job does, comes back from a restart with
   * its log text, its archive index and the very bytes it had, whatever its directory held.
   */
  lemma FinishedJobRoundTrip(path: string, maxBytes: int, entries: seq<Entry>, dir: JobDir, detail: JobDetail, listing: seq<Hour>)
    requires entries != []
    requires var store := AppendAll(EMPTY_STORE, path, maxBytes, entries, |entries|);
             dir.archives == store.files && SortedListing(listing, store.files)
    ensures var store := AppendAll(EMPTY_STORE, path, maxBytes, entries, |entries|);
            var after := Persisted(dir, detail, store.state.log);
            && after.meta == Some(detail) && after.archives == store.files
            && Restored(path, after, listing) == store.state
            && LogText(Restored(path, after, listing)) == LogText(store.state)
  {
    var n := |entries|;
    EmptyStoreInv(path);
    LogAccounting(EMPTY_STORE, path, maxBytes, entries, n);
    AppendLeavesText(AppendAll(EMPTY_STORE, path, maxBytes, entries, n - 1), path, entries[n - 1], maxBytes);
    RestartRoundTrip(AppendAll(EMPTY_STORE, path, maxBytes, entries, n), path, dir, detail, listing);
  }

  lemma EmptyStoreInv(path: string)
    ensures StoreInv(EMPTY_STORE, path)
  {
    assert PathIndex(path, map[]) == map[];
  }

  // ------------------------------------------------------------ reading back

  /** The state is what the directory at `path` restores to. */
  ghost predicate ReadBack(state: LogState, path: string, dir: JobDir)
  {
    exists listing :: SortedListing(listing, dir.archives) && state == Restored(path, dir, listing)
  }

  /** What is read back is in step with the directory ... */
  lemma ReadBackSound(state: LogState, path: string, dir: JobDir)
    requires ReadBack(state, path, dir)
    ensures StoreInv(Store(state, dir.archives), path) && state.log == FinalText(dir)
  {
    var listing :| SortedListing(listing, dir.archives) && state == Restored(path, dir, listing);
    RestoreMeaning(path, dir.archives, listing, |listing|);
    assert listing[..|listing|] == listing;
    IndexIsPathIndex(RestoreHours(path, dir.archives, listing, |listing|), path, dir.archives);
  }

  /** ... and there is only one log state that is. */
  lemma ReadBackIs(store: Store, path: string, dir: JobDir, state: LogState)
    requires StoreInv(store, path) && store.files == dir.archives && store.state.log == FinalText(dir)
    requires ReadBack(state, path, dir)
    ensures state == store.state
  {
    var listing :| SortedListing(listing, dir.archives) && state == Restored(path, dir, listing);
    RestoredIndex(store, path, listing);
  }

  /** Glob and sort.Strings on the hourly files. */
  method SortedHours(files: HourFiles) returns (listing: seq<Hour>)
    ensures SortedListing(listing, files)
  {
    listing := [];
    var todo := files.Keys;
    ghost var taken: HourFiles := map[];
    while todo != {}
      invariant todo <= files.Keys && taken.Keys == files.Keys - todo
      invariant SortedListing(listing, taken)
      decreases |todo|
    {
      var hour :| hour in todo;
      ListsMembers(listing, taken);
      InsertHourIncreasing(listing, hour);
      InsertHourLists(listing, hour, "", taken);
      listing := InsertHour(listing, hour);
      taken := WriteChunk(taken, hour, "");
      todo := todo - {hour};
    }
    SameKeysSameListing(listing, taken, files);
  }

  lemma SameKeysSameListing(listing: seq<Hour>, files: HourFiles, files': HourFiles)
    requires Lists(listing, files) && files.Keys == files'.Keys
    ensures Lists(listing, files')
  {
  }

  /** The hourly files, added in listing order. */
  method ReadArchives(rec: JobRecord, path: string, files: HourFiles, listing: seq<Hour>)
    requires rec.State() == EMPTY_LOG
    modifies rec`archivedBytes, rec`archivedByHour, rec`archivedHours
    ensures rec.State() == RestoreHours(path, files, listing, |listing|)
  {
    var n := 0;
    while n < |listing|
      invariant n <= |listing|
      invariant rec.State() == RestoreHours(path, files, listing, n)
    {
      rec.AddArchive(listing[n], PathOf(path, listing[n]), |FileText(files, listing[n])|);
      n := n + 1;
    }
  }

  /** One turn of loadPersistedJobs' second loop. */
  method RestoreJob(path: string, dir: JobDir, detail: JobDetail) returns (rec: JobRecord)
    ensures fresh(rec) && rec.id == detail.id && rec.detail == detail && rec.seqNo == 0
    ensures ReadBack(rec.State(), path, dir)
    ensures StoreInv(Store(rec.State(), dir.archives), path)
    ensures rec.log == if dir.finalLog.Some? then dir.finalLog.value else ""
    ensures rec.perfSamples == [] && rec.perfReport == detail.perfReport
  {
    rec := new JobRecord(detail);
    var listing := SortedHours(dir.archives);
    ReadArchives(rec, path, dir.archives, listing);
    var text := rec.log;
    if dir.finalLog.Some? {
      rec.log := rec.log + dir.finalLog.value;
    }
    assert text == "" && (dir.finalLog.Some? ==> text + dir.finalLog.value == dir.finalLog.value);
    assert rec.State() == Restored(path, dir, listing);
    ReadBackSound(rec.State(), path, dir);
  }

  predicate ByCreation(details: seq<JobDetail>)
  {
    forall i, j :: 0 <= i < j < |details| ==> details[i].createdAt <= details[j].createdAt
  }

  function CreatedAt(detail: JobDetail): int
  {
    detail.createdAt
  }

  lemma SortedByCreation(details: seq<JobDetail>)
    ensures ByCreation(SortBy(details, CreatedAt)) && multiset(SortBy(details, CreatedAt)) == multiset(details)
  {
    var out := SortBy(details, CreatedAt);
    SortBySorts(details, CreatedAt);
    forall i, j | 0 <= i < j < |out| ensures out[i].createdAt <= out[j].createdAt {
      assert CreatedAt(out[i]) <= CreatedAt(out[j]);
    }
  }

  ghost predicate HasId(details: seq<JobDetail>, id: Jobs.JobId)
  {
    exists i :: 0 <= i < |details| && details[i].id == id
  }

  /** The `exists` check: of several records with one id, the first is restored. */
  ghost function KeepNew(kept: seq<JobDetail>, detail: JobDetail): seq<JobDetail>
  {
    if HasId(kept, detail.id) then kept else kept + [detail]
  }

  ghost function Kept(details: seq<JobDetail>, n: nat): seq<JobDetail>
    requires n <= |details|
  {
    if n == 0 then [] else KeepNew(Kept(details, n - 1), details[n - 1])
  }

  ghost predicate DistinctIds(details: seq<JobDetail>)
  {
    forall i, j :: 0 <= i < j < |details| ==> details[i].id != details[j].id
  }

  lemma {:induction false} KeptMembers(details: seq<JobDetail>, n: nat)
    requires n <= |details|
    ensures DistinctIds(Kept(details, n))
    ensures forall i :: 0 <= i < |Kept(details, n)| ==> Kept(details, n)[i] in details
    ensures forall i :: 0 <= i < n ==> HasId(Kept(details, n), details[i].id)
  {
    if n > 0 {
      KeptMembers(details, n - 1);
      var before, after := Kept(details, n - 1), Kept(details, n);
      forall i | 0 <= i < n ensures HasId(after, details[i].id) {
        if i < n - 1 {
          var j :| 0 <= j < |before| && before[j].id == details[i].id;
          assert after[j].id == details[i].id;
        } else if !HasId(before, details[i].id) {
          assert after[|before|] == details[i];
        }
      }
    }
  }

  lemma {:induction false} KeptOrder(details: seq<JobDetail>, n: nat)
    requires ByCreation(details) && n <= |details|
    ensures ByCreation(Kept(details, n))
    ensures forall i, k :: 0 <= i < |Kept(details, n)| && n <= k < |details| ==>
              Kept(details, n)[i].createdAt <= details[k].createdAt
  {
    if n > 0 { KeptOrder(details, n - 1); }
  }

  /** A record of the same id that is no younger. */
  ghost predicate StandsFor(kept: seq<JobDetail>, detail: JobDetail)
  {
    exists i :: 0 <= i < |kept| && kept[i].id == detail.id && kept[i].createdAt <= detail.createdAt
  }

  /** Of several records with one id, the oldest is kept. */
  lemma {:induction false} KeptOldest(details: seq<JobDetail>, n: nat)
    requires ByCreation(details) && n <= |details|
    ensures forall i :: 0 <= i < n ==> StandsFor(Kept(details, n), details[i])
  {
    if n > 0 {
      KeptOldest(details, n - 1);
      KeptOrder(details, n - 1);
      var before, after := Kept(details, n - 1), Kept(details, n);
      forall i | 0 <= i < n ensures StandsFor(after, details[i]) {
        if i < n - 1 {
          assert StandsFor(before, details[i]);
          var j :| 0 <= j < |before| && before[j].id == details[i].id && before[j].createdAt <= details[i].createdAt;
          assert after[j] == before[j];
        } else if HasId(before, details[i].id) {
          var j :| 0 <= j < |before| && before[j].id == details[i].id;
          assert after[j] == before[j];
        } else {
          assert after[|before|] == details[i];
        }
      }
    }
  }

  /** Some directory's meta.json holds the record. */
  ghost predicate OnDisk(disk: map<Jobs.JobId, JobDir>, detail: JobDetail)
  {
    exists name :: name in disk && disk[name].meta == Some(detail)
  }

  /** The first loop of loadPersistedJobs: the directories with a readable meta.json. */
  method CollectMetas(disk: map<Jobs.JobId, JobDir>, entries: seq<Jobs.JobId>) returns (loaded: seq<JobDetail>)
    requires forall name :: name in entries <==> name in disk
    ensures forall d :: d in loaded <==> OnDisk(disk, d)
  {
    loaded := [];
    for n := 0 to |entries|
      invariant forall d :: d in loaded ==> OnDisk(disk, d)
      invariant forall i :: 0 <= i < n && disk[entries[i]].meta.Some? ==> disk[entries[i]].meta.value in loaded
    {
      if disk[entries[n]].meta.Some? {
        loaded := loaded + [disk[entries[n]].meta.value];
      }
    }
  }

  /** The records a restart finds, oldest first. */
  method LoadSorted(disk: map<Jobs.JobId, JobDir>, entries: seq<Jobs.JobId>) returns (sorted: seq<JobDetail>)
    requires forall name :: name in entries <==> name in disk
    ensures ByCreation(sorted)
    ensures forall d :: d in sorted <==> OnDisk(disk, d)
  {
    var loaded := CollectMetas(disk, entries);
    sorted := SortBy(loaded, CreatedAt);
    SortedByCreation(loaded);
    forall d ensures d in sorted <==> OnDisk(disk, d) {
      assert d in sorted <==> d in multiset(sorted);
      assert d in loaded <==> d in multiset(loaded);
    }
  }

  lemma KeptIsLoaded(disk: map<Jobs.JobId, JobDir>, sorted: seq<JobDetail>)
    requires ByCreation(sorted) && forall d :: d in sorted <==> OnDisk(disk, d)
    ensures var restored := Kept(sorted, |sorted|);
            && DistinctIds(restored) && ByCreation(restored)
            && (forall i :: 0 <= i < |restored| ==> OnDisk(disk, restored[i]))
            && (forall d :: OnDisk(disk, d) ==> HasId(restored, d.id) && StandsFor(restored, d))
  {
    KeptMembers(sorted, |sorted|);
    KeptOrder(sorted, |sorted|);
    KeptOldest(sorted, |sorted|);
    forall d | OnDisk(disk, d) ensures HasId(Kept(sorted, |sorted|), d.id) && StandsFor(Kept(sorted, |sorted|), d) {
      var i :| 0 <= i < |sorted| && sorted[i] == d;
    }
  }
}
