/**
 * The scheduler's table of jobs and its log directory
 * (ops/backend/scheduler/scheduler.go:95-97, 501-584): what the mutable scheduler keeps
 * true of them, and how a table that has just been loaded satisfies it.
 */
module JobTable {
  import opened Decimal
  import opened JobIndex
  import Log = JobLog
  import opened JobRecords
  import opened JobScript
  import opened Options
  import opened Restart

  ghost function Statuses(jobs: map<JobId, JobRecord>): map<JobId, Status>
    reads jobs.Values`detail
  {
    map id | id in jobs :: jobs[id].detail.status
  }

  ghost function TableIndex(jobs: map<JobId, JobRecord>, jobList: seq<JobId>): Index
    reads jobs.Values`detail
  {
    Index(Statuses(jobs), jobList)
  }

  /** Every record is under its own id. */
  ghost predicate JobsNamed(jobs: map<JobId, JobRecord>)
    reads jobs.Values`detail
  {
    forall id :: id in jobs ==> jobs[id].id == jobs[id].detail.id == id
  }

  function DirOf(disk: map<JobId, JobDir>, id: JobId): JobDir
  {
    if id in disk then disk[id] else EMPTY_DIR
  }

  function JobPath(logRootDir: string, id: JobId): string
  {
    logRootDir + "/" + id
  }

  /** Where an hour of a job's log is kept; no two jobs or hours share a file. */
  lemma HourlyFiles(logRootDir: string, id: JobId, g: Log.Hour, other: JobId, h: Log.Hour)
    requires g < 10_000_000_000 && h < 10_000_000_000
    ensures Log.PathOf(JobPath(logRootDir, id), g) == logRootDir + "/" + id + "/" + Padded(g, 10) + ".log"
    ensures Log.PathOf(JobPath(logRootDir, id), g) == Log.PathOf(JobPath(logRootDir, other), h) <==> id == other && g == h
  {
    var dir, dir' := JobPath(logRootDir, id), JobPath(logRootDir, other);
    if Log.PathOf(dir, g) == Log.PathOf(dir', h) {
      assert |dir| == |dir'|;
      assert Log.PathOf(dir, g)[..|dir|] == dir && Log.PathOf(dir', h)[..|dir'|] == dir';
      assert dir[|logRootDir| + 1..] == id && dir'[|logRootDir| + 1..] == other;
      Log.PathsDiffer(dir, g, h);
    }
  }

  /** The directory holds the final record and the text left in the buffer. */
  predicate Durable(detail: JobDetail, log: string, dir: JobDir)
  {
    dir.meta == Some(detail) && FinalText(dir) == log
  }

  /** What of a record matters to its directory. */
  datatype Image = Image(detail: JobDetail, log: Log.LogState)

  ghost function Images(jobs: map<JobId, JobRecord>): map<JobId, Image>
    reads jobs.Values`detail, jobs.Values`log
    reads jobs.Values`archivedBytes, jobs.Values`archivedByHour, jobs.Values`archivedHours
  {
    map id | id in jobs :: Image(jobs[id].detail, jobs[id].State())
  }

  /** The record's log index describes the job's files, and a finished job is on disk as it is in memory. */
  ghost predicate ImageSound(image: Image, dir: JobDir, path: string)
  {
    && Log.StoreInv(Log.Store(image.log, dir.archives), path)
    && (image.detail.status.Terminal() ==> Durable(image.detail, image.log.log, dir))
  }

  ghost predicate LogsSound(images: map<JobId, Image>, disk: map<JobId, JobDir>, logRootDir: string)
  {
    forall id :: id in images ==> ImageSound(images[id], DirOf(disk, id), JobPath(logRootDir, id))
  }

  /** The log directory holds final records only, each under its own id. */
  ghost predicate DiskFinished(disk: map<JobId, JobDir>)
  {
    forall name :: name in disk && disk[name].meta.Some? ==>
      disk[name].meta.value.id == name && disk[name].meta.value.status.Terminal()
  }

  // ------------------------------------------------------------ trimming and registering

  lemma StatusesDrop(jobs: map<JobId, JobRecord>, ids: set<JobId>)
    ensures Statuses(jobs - ids) == Statuses(jobs) - ids
  {
  }

  lemma NoneGone(ids: seq<JobId>)
    ensures ToSet(ids[..0]) == {}
  {
  }

  lemma GoneNext(ids: seq<JobId>, k: nat)
    requires k < |ids|
    ensures ToSet(ids[..k + 1]) == ToSet(ids[..k]) + {ids[k]}
  {
    assert ids[..k + 1] == ids[..k] + [ids[k]];
  }

  lemma DropOne<V>(m: map<JobId, V>, gone: set<JobId>, id: JobId)
    ensures m - gone - {id} == m - (gone + {id})
  {
  }

  lemma JobsDrop(jobs: map<JobId, JobRecord>, gone: set<JobId>)
    requires JobsNamed(jobs)
    ensures JobsNamed(jobs - gone)
    ensures (jobs - gone).Keys == jobs.Keys - gone
  {
  }

  lemma {:induction false} TrimmedIndex(jobs: map<JobId, JobRecord>, jobList: seq<JobId>, maxJobs: int)
    requires WellFormed(TableIndex(jobs, jobList))
    ensures var index := TableIndex(jobs, jobList);
            && TableIndex(jobs - Gone(index, maxJobs), jobList[TrimCount(index, maxJobs)..]) == Trimmed(index, maxJobs)
            && WellFormed(Trimmed(index, maxJobs))
  {
    TrimmedMeaning(TableIndex(jobs, jobList), maxJobs);
    StatusesDrop(jobs, Gone(TableIndex(jobs, jobList), maxJobs));
  }

  /** A record StartJob has just made, under an id nobody has used. */
  ghost predicate Fresh(rec: JobRecord, jobs: map<JobId, JobRecord>, disk: map<JobId, JobDir>)
    reads rec`detail, rec`log, rec`archivedBytes, rec`archivedByHour, rec`archivedHours
  {
    && rec.id !in jobs && rec.id !in disk
    && rec.detail.id == rec.id && rec.detail.status == Queued && rec.State() == Log.EMPTY_LOG
  }

  lemma StatusesAdd(jobs: map<JobId, JobRecord>, rec: JobRecord)
    ensures Statuses(jobs[rec.id := rec]) == Statuses(jobs)[rec.id := rec.detail.status]
    ensures Statuses(jobs).Keys == jobs.Keys
  {
  }

  lemma RegisteredIndex(jobs: map<JobId, JobRecord>, jobList: seq<JobId>, rec: JobRecord)
    requires WellFormed(TableIndex(jobs, jobList)) && rec.id !in jobs && rec.detail.status == Queued
    ensures TableIndex(jobs[rec.id := rec], jobList + [rec.id]) == Registered(TableIndex(jobs, jobList), rec.id)
    ensures WellFormed(Registered(TableIndex(jobs, jobList), rec.id))
  {
    StatusesAdd(jobs, rec);
    RegisteredWellFormed(TableIndex(jobs, jobList), rec.id);
  }

  lemma JobsAdd(jobs: map<JobId, JobRecord>, rec: JobRecord)
    requires JobsNamed(jobs) && rec.detail.id == rec.id
    ensures JobsNamed(jobs[rec.id := rec])
  {
  }

  /** Indexing a fresh job and trimming others leaves every record sound. */
  lemma LogsKept(jobs: map<JobId, JobRecord>, rec: JobRecord, gone: set<JobId>,
                 disk: map<JobId, JobDir>, logRootDir: string)
    requires LogsSound(Images(jobs), disk, logRootDir) && Fresh(rec, jobs, disk)
    ensures LogsSound(Images(jobs[rec.id := rec] - gone), disk, logRootDir)
  {
    EmptyStoreInv(JobPath(logRootDir, rec.id));
    forall id | id in jobs ensures ImageSound(Images(jobs)[id], DirOf(disk, id), JobPath(logRootDir, id)) {
    }
  }

  // ------------------------------------------------------------ one job changes

  /** Changing a status leaves the index in step. */
  lemma StatusOnly(index: Index, id: JobId, status: Status)
    requires WellFormed(index) && id in index.status
    ensures WellFormed(index.(status := index.status[id := status]))
  {
  }

  /** When one record and its directory change, the others stay sound. */
  lemma OthersSound(images: map<JobId, Image>, images': map<JobId, Image>, id: JobId,
                    disk: map<JobId, JobDir>, disk': map<JobId, JobDir>, logRootDir: string)
    requires LogsSound(images, disk, logRootDir)
    requires images' - {id} == images - {id} && disk' - {id} == disk - {id}
    requires id in images' ==> ImageSound(images'[id], DirOf(disk', id), JobPath(logRootDir, id))
    ensures LogsSound(images', disk', logRootDir)
  {
    forall k | k in images' && k != id ensures ImageSound(images'[k], DirOf(disk', k), JobPath(logRootDir, k)) {
      assert k in images' - {id} && (images' - {id})[k] == images'[k];
      assert k in disk' <==> k in disk' - {id};
      assert k in disk <==> k in disk - {id};
    }
  }

  lemma SameNames(disk: map<JobId, JobDir>, disk': map<JobId, JobDir>, id: JobId)
    requires disk' - {id} == disk - {id}
    ensures forall name :: name != id ==> (name in disk' <==> name in disk)
  {
    forall name | name != id ensures name in disk' <==> name in disk {
      assert name in disk' - {id} <==> name in disk';
      assert name in disk - {id} <==> name in disk;
    }
  }

  /** Persisting a final record keeps the directory finished. */
  lemma DiskStaysFinished(disk: map<JobId, JobDir>, disk': map<JobId, JobDir>, detail: JobDetail)
    requires DiskFinished(disk) && detail.status.Terminal()
    requires detail.id in disk' && disk'[detail.id].meta == Some(detail)
    requires disk' - {detail.id} == disk - {detail.id}
    ensures DiskFinished(disk')
  {
    forall name | name in disk' && name != detail.id ensures name in disk && disk[name] == disk'[name] {
      assert name in disk' - {detail.id};
    }
  }

  /** Archiving a chunk does, too. */
  lemma ArchivesKeepFinished(disk: map<JobId, JobDir>, disk': map<JobId, JobDir>, id: JobId)
    requires DiskFinished(disk) && disk' - {id} == disk - {id}
    requires DirOf(disk', id).meta == DirOf(disk, id).meta
    ensures DiskFinished(disk')
  {
    forall name | name in disk' && name != id ensures name in disk && disk[name] == disk'[name] {
      assert name in disk' - {id};
    }
  }

  /** While a job has not ended, its detail may change freely. */
  lemma DetailKeepsLogs(images: map<JobId, Image>, images': map<JobId, Image>, id: JobId,
                        disk: map<JobId, JobDir>, logRootDir: string)
    requires LogsSound(images, disk, logRootDir) && images' - {id} == images - {id}
    requires id in images && id in images' && images'[id].log == images[id].log && !images'[id].detail.status.Terminal()
    ensures LogsSound(images', disk, logRootDir)
  {
    assert ImageSound(images[id], DirOf(disk, id), JobPath(logRootDir, id));
    OthersSound(images, images', id, disk, disk, logRootDir);
  }

  /** A line appended to a job that has not ended leaves the table and its directory sound. */
  lemma LineKeepsLogs(images: map<JobId, Image>, images': map<JobId, Image>, id: JobId,
                      disk: map<JobId, JobDir>, disk': map<JobId, JobDir>, logRootDir: string,
                      line: string, maxBytes: int, hour: Log.Hour, written: bool)
    requires LogsSound(images, disk, logRootDir) && DiskFinished(disk)
    requires images' - {id} == images - {id} && disk' - {id} == disk - {id}
    requires id in images && id in images' && images'[id].detail == images[id].detail
    requires !images[id].detail.status.Terminal()
    requires var before := Log.Store(images[id].log, DirOf(disk, id).archives);
             Log.Store(images'[id].log, DirOf(disk', id).archives)
             == Log.Append(before, JobPath(logRootDir, id), line, maxBytes, hour, written)
    requires DirOf(disk', id).meta == DirOf(disk, id).meta
    ensures LogsSound(images', disk', logRootDir) && DiskFinished(disk')
  {
    assert ImageSound(images[id], DirOf(disk, id), JobPath(logRootDir, id));
    Log.AppendStep(Log.Store(images[id].log, DirOf(disk, id).archives), JobPath(logRootDir, id), line, maxBytes, hour, written);
    OthersSound(images, images', id, disk, disk', logRootDir);
    ArchivesKeepFinished(disk, disk', id);
  }

  /** The last line of a job and its persisted record do, too. */
  lemma EndKeepsLogs(images: map<JobId, Image>, images': map<JobId, Image>, id: JobId,
                     disk: map<JobId, JobDir>, disk': map<JobId, JobDir>, logRootDir: string,
                     line: string, maxBytes: int, hour: Log.Hour, written: bool)
    requires LogsSound(images, disk, logRootDir) && DiskFinished(disk)
    requires images' - {id} == images - {id} && disk' - {id} == disk - {id}
    requires id in images && id in images' && images'[id].detail.id == id && images'[id].detail.status.Terminal()
    requires var before := Log.Store(images[id].log, DirOf(disk, id).archives);
             Log.Store(images'[id].log, DirOf(disk', id).archives)
             == Log.Append(before, JobPath(logRootDir, id), line, maxBytes, hour, written)
    requires id in disk' && disk'[id] == Persisted(disk'[id], images'[id].detail, images'[id].log.log)
    ensures LogsSound(images', disk', logRootDir) && DiskFinished(disk')
  {
    var before, path := Log.Store(images[id].log, DirOf(disk, id).archives), JobPath(logRootDir, id);
    assert ImageSound(images[id], DirOf(disk, id), path);
    Log.AppendStep(before, path, line, maxBytes, hour, written);
    AppendLeavesText(before, path, Log.Entry(line, hour, written), maxBytes);
    OthersSound(images, images', id, disk, disk', logRootDir);
    DiskStaysFinished(disk, disk', images'[id].detail);
  }

  // ------------------------------------------------------------ loading

  ghost predicate RestoredAs(rec: JobRecord, detail: JobDetail, logRootDir: string, disk: map<JobId, JobDir>)
    reads rec
  {
    && rec.id == detail.id && rec.detail == detail && rec.seqNo == 0
    && ReadBack(rec.State(), JobPath(logRootDir, detail.id), DirOf(disk, detail.id))
  }

  /** Map and list hold exactly the restored records, in order, each with the log its directory holds. */
  ghost predicate Restores(jobs: map<JobId, JobRecord>, jobList: seq<JobId>, restored: seq<JobDetail>,
                           logRootDir: string, disk: map<JobId, JobDir>)
    reads jobs.Values
  {
    && |jobList| == |restored|
    && (forall i :: 0 <= i < |restored| ==> jobList[i] == restored[i].id)
    && (forall i :: 0 <= i < |restored| ==>
          restored[i].id in jobs && RestoredAs(jobs[restored[i].id], restored[i], logRootDir, disk))
    && (forall id :: id in jobs <==> HasId(restored, id))
  }

  lemma RestoresNone(logRootDir: string, disk: map<JobId, JobDir>)
    ensures Restores(map[], [], [], logRootDir, disk)
  {
  }

  lemma RestoresIds(jobs: map<JobId, JobRecord>, jobList: seq<JobId>, restored: seq<JobDetail>,
                    logRootDir: string, disk: map<JobId, JobDir>, id: JobId)
    requires Restores(jobs, jobList, restored, logRootDir, disk)
    ensures id in jobs <==> HasId(restored, id)
  {
  }

  lemma HasIdSnoc(details: seq<JobDetail>, detail: JobDetail, id: JobId)
    ensures HasId(details + [detail], id) <==> HasId(details, id) || id == detail.id
  {
    var more := details + [detail];
    assert more[|details|] == detail;
    if HasId(details, id) {
      var i :| 0 <= i < |details| && details[i].id == id;
      assert more[i].id == id;
    }
  }

  lemma RestoresAdd(jobs: map<JobId, JobRecord>, jobList: seq<JobId>, restored: seq<JobDetail>,
                    logRootDir: string, disk: map<JobId, JobDir>, rec: JobRecord)
    requires Restores(jobs, jobList, restored, logRootDir, disk)
    requires !HasId(restored, rec.id) && RestoredAs(rec, rec.detail, logRootDir, disk)
    ensures Restores(jobs[rec.id := rec], jobList + [rec.id], restored + [rec.detail], logRootDir, disk)
  {
    forall id ensures id in jobs[rec.id := rec] <==> HasId(restored + [rec.detail], id) {
      HasIdSnoc(restored, rec.detail, id);
    }
  }

  /** The index a restart builds is in step, as the scheduler needs it from then on. */
  lemma RestoredWellFormed(jobs: map<JobId, JobRecord>, jobList: seq<JobId>, restored: seq<JobDetail>,
                           logRootDir: string, disk: map<JobId, JobDir>)
    requires Restores(jobs, jobList, restored, logRootDir, disk) && DistinctIds(restored)
    ensures WellFormed(TableIndex(jobs, jobList)) && JobsNamed(jobs)
  {
    forall id ensures id in jobList <==> id in jobs {
      if id in jobList {
        var i :| 0 <= i < |jobList| && jobList[i] == id;
        assert restored[i].id == id;
      }
      if id in jobs {
        var i :| 0 <= i < |restored| && restored[i].id == id;
        assert jobList[i] == id;
      }
    }
    forall id | id in jobs ensures jobs[id].id == jobs[id].detail.id == id {
      var i :| 0 <= i < |restored| && restored[i].id == id;
    }
  }

  /** A record that is on a finished disk is there under its own id. */
  lemma OnDiskUnderId(disk: map<JobId, JobDir>, detail: JobDetail)
    requires DiskFinished(disk)
    ensures OnDisk(disk, detail) <==> detail.id in disk && disk[detail.id].meta == Some(detail)
    ensures OnDisk(disk, detail) ==> detail.status.Terminal()
  {
  }

  /** A loaded table satisfies what the running scheduler needs, and holds finished jobs only. */
  lemma LoadedTable(jobs: map<JobId, JobRecord>, jobList: seq<JobId>, restored: seq<JobDetail>,
                    logRootDir: string, disk: map<JobId, JobDir>)
    requires Restores(jobs, jobList, restored, logRootDir, disk) && DistinctIds(restored) && DiskFinished(disk)
    requires forall i :: 0 <= i < |restored| ==> OnDisk(disk, restored[i])
    ensures WellFormed(TableIndex(jobs, jobList)) && JobsNamed(jobs) && LogsSound(Images(jobs), disk, logRootDir)
    ensures forall id :: id in jobs ==> jobs[id].detail.status.Terminal()
  {
    RestoredWellFormed(jobs, jobList, restored, logRootDir, disk);
    forall id | id in jobs
      ensures jobs[id].detail.status.Terminal() && ImageSound(Images(jobs)[id], DirOf(disk, id), JobPath(logRootDir, id))
    {
      var i :| 0 <= i < |restored| && restored[i].id == id;
      OnDiskUnderId(disk, restored[i]);
      ReadBackSound(jobs[id].State(), JobPath(logRootDir, id), DirOf(disk, id));
    }
  }

  /** Exactly the records of a finished directory are loaded: no two of them share an id. */
  lemma LoadedExactly(restored: seq<JobDetail>, disk: map<JobId, JobDir>)
    requires DiskFinished(disk)
    requires forall i :: 0 <= i < |restored| ==> OnDisk(disk, restored[i])
    requires forall d :: OnDisk(disk, d) ==> HasId(restored, d.id)
    ensures forall d :: d in restored <==> OnDisk(disk, d)
  {
    forall d | OnDisk(disk, d) ensures d in restored {
      var i :| 0 <= i < |restored| && restored[i].id == d.id;
      OnDiskUnderId(disk, restored[i]);
      OnDiskUnderId(disk, d);
    }
  }

  /**
   * The restart round trip of one record: what is read back from the directory of a sound,
   * finished record is that record's log state, with the same text.
   */
  lemma SoundRecordComesBack(image: Image, dir: JobDir, path: string, state: Log.LogState)
    requires ImageSound(image, dir, path) && image.detail.status.Terminal() && ReadBack(state, path, dir)
    ensures state == image.log && Log.LogText(state) == Log.LogText(image.log)
    ensures dir.meta == Some(image.detail)
  {
    ReadBackIs(Log.Store(image.log, dir.archives), path, dir, state);
  }

  /** ... and of a table: every finished record is loaded, as it was. */
  lemma FinishedComesBack(images: map<JobId, Image>, disk: map<JobId, JobDir>, logRootDir: string,
                          jobs: map<JobId, JobRecord>, jobList: seq<JobId>, restored: seq<JobDetail>, id: JobId)
    requires LogsSound(images, disk, logRootDir)
    requires id in images && images[id].detail.id == id && images[id].detail.status.Terminal()
    requires Restores(jobs, jobList, restored, logRootDir, disk)
    requires forall d :: d in restored <==> OnDisk(disk, d)
    ensures id in jobs && Images(jobs)[id] == images[id]
  {
    var path := JobPath(logRootDir, id);
    assert ImageSound(images[id], DirOf(disk, id), path);
    assert id in disk && OnDisk(disk, images[id].detail);
    var i :| 0 <= i < |restored| && restored[i] == images[id].detail;
    SoundRecordComesBack(images[id], DirOf(disk, id), path, jobs[id].State());
  }
}
