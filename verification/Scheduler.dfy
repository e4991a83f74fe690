/**
 * The Scheduler (ops/backend/scheduler/scheduler.go) as the mutable object it is: the job
 * map, the ordered job list, the subscriber channels and the log directory. Stream.dfy
 * and Fleet.dfy interleave these methods; here each one runs alone.
 */
module Schedulers {
  import opened Channels
  import opened Enrichment
  import opened JobIndex
  import opened JobTable
  import Log = JobLog
  import opened JobRecords
  import opened JobScript
  import opened Options
  import opened Restart
  import opened Samples
  import opened SampleStores
  import opened Subscribers

  class Scheduler {
    const maxJobs: int
    const maxLogSize: int
    const logRootDir: string
    const sampleStore: SampleStore
    var jobs: map<JobId, JobRecord>
    var jobList: seq<JobId>
    var subs: map<JobId, map<SubId, Channel>>
    var disk: map<JobId, JobDir>
    ghost var open: set<Channel>   // the channels made and not yet closed

    /** The fields New sets before it loads the persisted jobs; `disk` is what it finds. */
    constructor (maxJobs: int, maxLogSize: int, logRootDir: string, sampleStore: SampleStore,
                 disk: map<JobId, JobDir>)
      ensures this.maxJobs == maxJobs && this.maxLogSize == maxLogSize && this.logRootDir == logRootDir
      ensures this.sampleStore == sampleStore && this.disk == disk
      ensures jobs == map[] && jobList == [] && subs == map[] && open == {}
    {
      this.maxJobs, this.maxLogSize, this.logRootDir := maxJobs, maxLogSize, logRootDir;
      this.sampleStore, this.disk := sampleStore, disk;
      jobs, jobList, subs, open := map[], [], map[], {};
    }

    ghost function StatusIndex(): Index
      reads `jobs, `jobList, jobs.Values`detail
    {
      TableIndex(jobs, jobList)
    }

    /** List and map are in step, channels are in place, and memory and directory agree. */
    ghost predicate Valid()
      reads `jobs, `jobList, `subs, `disk, `open, open`closed, jobs.Values`detail, jobs.Values`log
      reads jobs.Values`archivedBytes, jobs.Values`archivedByHour, jobs.Values`archivedHours
    {
      IndexValid() && SubsValid() && LogsValid()
    }

    /**
     * Every record's log index describes its files, and the directory holds the finished
     * jobs of the table as they are, and finished jobs only.
     */
    ghost predicate LogsValid()
      reads `jobs, `disk, jobs.Values`detail, jobs.Values`log
      reads jobs.Values`archivedBytes, jobs.Values`archivedByHour, jobs.Values`archivedHours
    {
      LogsSound(Images(jobs), disk, logRootDir) && DiskFinished(disk)
    }

    ghost predicate IndexValid()
      reads `jobs, `jobList, jobs.Values`detail
    {
      WellFormed(TableIndex(jobs, jobList)) && JobsNamed(jobs)
    }

    ghost predicate SubsValid()
      reads `jobs, `subs, `open, open`closed
    {
      Placed(subs, jobs.Keys, open) && AllOpen(open)
    }

    ghost function RecordOf(id: JobId): set<JobRecord>
      reads `jobs
    {
      if id in jobs then {jobs[id]} else {}
    }

    function LogDir(id: JobId): string
    {
      JobPath(logRootDir, id)
    }

    /** A job's log with its hourly files, as JobLog.dfy sees it. */
    ghost function StoreOf(id: JobId): Log.Store
      requires id in jobs
      reads `jobs, `disk, jobs.Values`log
      reads jobs.Values`archivedBytes, jobs.Values`archivedByHour, jobs.Values`archivedHours
    {
      Log.Store(jobs[id].State(), DirOf(disk, id).archives)
    }

    // ---------------------------------------------------------- the index

    /** The body of the trimming loop; false is its `break`. */
    method TrimOldest() returns (trimmed: bool)
      requires subs.Keys <= jobs.Keys && |jobList| > maxJobs > 0
      modifies `jobs, `jobList, `subs
      ensures trimmed ==>
                var oldest := old(jobList)[0];
                && jobList == old(jobList)[1..]
                && jobs == old(jobs) - {oldest} && subs == old(subs) - {oldest}
                && TrimCount(old(StatusIndex()), maxJobs) == 1 + TrimCount(StatusIndex(), maxJobs)
      ensures !trimmed ==>
                && jobList == old(jobList) && jobs == old(jobs) && subs == old(subs)
                && TrimCount(StatusIndex(), maxJobs) == 0
    {
      var oldestID := jobList[0];
      StatusesDrop(jobs, {oldestID});
      if oldestID !in jobs {
        jobList := jobList[1..];
        return true;
      }
      var rec := jobs[oldestID];
      if rec.detail.status == Queued || rec.detail.status == Running {
        return false;
      }
      jobList := jobList[1..];
      jobs := jobs - {oldestID};
      subs := subs - {oldestID};
      return true;
    }

    method TrimLoop()
      requires subs.Keys <= jobs.Keys
      modifies `jobs, `jobList, `subs
      ensures jobList == old(jobList)[TrimCount(old(StatusIndex()), maxJobs)..]
      ensures jobs == old(jobs) - Gone(old(StatusIndex()), maxJobs)
      ensures subs == old(subs) - Gone(old(StatusIndex()), maxJobs)
    {
      hide ToSet, Statuses;
      ghost var k, ids, gone, total := 0, jobList, {}, TrimCount(StatusIndex(), maxJobs);
      NoneGone(ids);
      if maxJobs <= 0 {
        return;
      }
      while |jobList| > maxJobs
        invariant k <= |ids| && jobList == ids[k..] && gone == ToSet(ids[..k])
        invariant jobs == old(jobs) - gone && subs == old(subs) - gone
        invariant total == k + TrimCount(StatusIndex(), maxJobs)
        decreases |jobList|
      {
        GoneNext(ids, k);
        DropOne(old(jobs), gone, ids[k]);
        DropOne(old(subs), gone, ids[k]);
        var trimmed := TrimOldest();
        if !trimmed {
          break;
        }
        gone := gone + {ids[k]};
        k := k + 1;
      }
    }

    method TrimJobsLocked()
      requires IndexValid() && SubsValid()
      modifies `jobs, `jobList, `subs
      ensures IndexValid() && SubsValid()
      ensures StatusIndex() == Trimmed(old(StatusIndex()), maxJobs)
      ensures jobs == old(jobs) - Gone(old(StatusIndex()), maxJobs)
      ensures subs == old(subs) - Gone(old(StatusIndex()), maxJobs)
    {
      ghost var gone := Gone(StatusIndex(), maxJobs);
      TrimmedIndex(jobs, jobList, maxJobs);
      JobsDrop(jobs, gone);
      PlacedDrop(subs, jobs.Keys, open, gone);
      TrimLoop();
    }

    method AddJob(rec: JobRecord)
      requires IndexValid() && SubsValid()
      requires rec.id !in jobs && rec.detail.id == rec.id && rec.detail.status == Queued
      modifies `jobs, `jobList
      ensures IndexValid() && SubsValid()
      ensures StatusIndex() == Registered(old(StatusIndex()), rec.id)
      ensures jobs == old(jobs)[rec.id := rec]
    {
      RegisteredIndex(jobs, jobList, rec);
      JobsAdd(jobs, rec);
      PlacedMore(subs, jobs.Keys, jobs[rec.id := rec].Keys, open);
      jobs := jobs[rec.id := rec];
      jobList := jobList + [rec.id];
    }

    method AddAndTrim(rec: JobRecord)
      requires IndexValid() && SubsValid()
      requires rec.id !in jobs && rec.detail.id == rec.id && rec.detail.status == Queued
      modifies `jobs, `jobList, `subs
      ensures IndexValid() && SubsValid() && rec.id in jobs
      ensures var before := Registered(old(StatusIndex()), rec.id);
              && StatusIndex() == Trimmed(before, maxJobs)
              && jobs == old(jobs)[rec.id := rec] - Gone(before, maxJobs)
              && subs == old(subs) - Gone(before, maxJobs)
    {
      ghost var index := StatusIndex();
      AddJob(rec);
      NewJobStays(index, rec.id, maxJobs);
      TrimJobsLocked();
    }

    /** StartJob's critical section, for the record it has just made. */
    method Register(rec: JobRecord)
      requires Valid() && Fresh(rec, jobs, disk)
      modifies `jobs, `jobList, `subs
      ensures Valid() && rec.id in jobs
      ensures var before := Registered(old(StatusIndex()), rec.id);
              && StatusIndex() == Trimmed(before, maxJobs)
              && jobs == old(jobs)[rec.id := rec] - Gone(before, maxJobs)
              && subs == old(subs) - Gone(before, maxJobs)
    {
      hide ImageSound, DiskFinished;
      LogsKept(jobs, rec, Gone(Registered(StatusIndex(), rec.id), maxJobs), disk, logRootDir);
      AddAndTrim(rec);
    }

    // ---------------------------------------------------------- subscribers

    /** `subId` is a fresh id. */
    method Subscribe(id: JobId, subId: SubId) returns (ch: Option<Channel>)
      requires Valid() && subId !in SubsOf(subs, id)
      modifies `subs, `open
      ensures Valid()
      ensures id !in jobs ==> ch.None? && subs == old(subs) && open == old(open)
      ensures id in jobs ==>
                && ch.Some? && fresh(ch.value) && ch.value.buf == [] && !ch.value.closed && open == old(open) + {ch.value}
                && subs == With(old(subs), id, subId, ch.value)
      ensures id in jobs ==>
                && id in subs && subId in subs[id] && subs[id][subId] == ch.value
                && subs[id] - {subId} == (if id in old(subs) then old(subs)[id] else map[])
                && subs - {id} == old(subs) - {id}
    {
      hide LogsSound, DiskFinished, WellFormed, TableIndex, JobsNamed;
      if id !in jobs {
        return None;
      }
      var made := new Channel(id, subId);
      PlacedWith(subs, jobs.Keys, open, made);
      open := open + {made};
      subs := With(subs, id, subId, made);
      WithMeaning(old(subs), id, subId, made);
      ch := Some(made);
    }

    /** The closure Subscribe returns; the channel itself stays open. */
    method Cancel(id: JobId, subId: SubId)
      requires Valid()
      modifies `subs
      ensures Valid()
      ensures subs == Without(old(subs), id, subId)
      ensures subs - {id} == old(subs) - {id}
      ensures id in subs ==> id in old(subs) && subs[id] == old(subs)[id] - {subId} && subs[id] != map[]
      ensures id !in subs && id in old(subs) ==> old(subs)[id] - {subId} == map[]
    {
      hide LogsSound, DiskFinished, WellFormed, TableIndex, JobsNamed, Placed, AllOpen;
      PlacedWithout(subs, jobs.Keys, open, id, subId);
      if id !in subs {
        NothingToCancel(subs, id, subId);
        return;
      }
      var left := subs[id] - {subId};
      if left == map[] {
        subs := subs - {id};
      } else {
        subs := subs[id := left];
      }
    }

    /** Every registered subscriber of the job is offered the event, and no other channel changes. */
    method Publish(id: JobId, event: Envelope)
      requires SubsValid()
      modifies SubsOf(subs, id).Values`buf
      ensures id in subs ==> forall sub :: sub in subs[id] ==> subs[id][sub].buf == Enqueued(old(subs[id][sub].buf), event)
    {
      SendAll(id, SubsOf(subs, id), event);
    }

    /** The job's channels are closed, each once; every other registered channel stays open. */
    method CloseJobSubs(id: JobId)
      requires SubsValid()
      modifies `subs, `open, SubsOf(subs, id).Values`closed
      ensures SubsValid() && subs == old(subs) - {id} && open == old(open) - SubsOf(old(subs), id).Values
      ensures id in old(subs) ==> forall sub :: sub in old(subs)[id] ==> old(subs)[id][sub].closed
    {
      PlacedClose(subs, jobs.Keys, open, id);
      var taken := SubsOf(subs, id);
      subs := subs - {id};
      open := open - taken.Values;
      CloseAll(id, taken);
    }

    method NextSeq(id: JobId) returns (n: int)
      modifies RecordOf(id)`seqNo
      ensures id in jobs ==> n == jobs[id].seqNo == old(jobs[id].seqNo) + 1
      ensures id !in jobs ==> n == 0
    {
      if id !in jobs {
        return 0;
      }
      n := jobs[id].NextSeqLocked();
    }

    /** nextSeq and publish: subscribers get the next number, on an event of this job. */
    method PublishNext(id: JobId, kind: Message, body: string)
      requires SubsValid()
      modifies RecordOf(id)`seqNo, SubsOf(subs, id).Values`buf
      ensures id in jobs ==> jobs[id].seqNo == old(jobs[id].seqNo) + 1
      ensures forall sub :: sub in SubsOf(subs, id) ==>
                && id in jobs
                && SubsOf(subs, id)[sub].buf ==
                   Enqueued(old(SubsOf(subs, id)[sub].buf), Envelope(kind, id, jobs[id].seqNo, body))
    {
      var n := NextSeq(id);
      Publish(id, Envelope(kind, id, n, body));
    }

    // ---------------------------------------------------------- the log

    /** appendJobLog up to the publication; `written` is whether the archive write succeeds. */
    method AppendToStore(id: JobId, line: string, hour: Log.Hour, written: bool)
      modifies `disk, RecordOf(id)`log
      modifies RecordOf(id)`archivedBytes, RecordOf(id)`archivedByHour, RecordOf(id)`archivedHours
      ensures id !in jobs ==> disk == old(disk)
      ensures id in jobs ==>
                && StoreOf(id) == Log.Append(old(StoreOf(id)), LogDir(id), line, maxLogSize, hour, written)
                && disk - {id} == old(disk) - {id}
                && DirOf(disk, id) == DirOf(old(disk), id).(archives := DirOf(disk, id).archives)
    {
      if id !in jobs {
        return;
      }
      var rec := jobs[id];
      ghost var before := StoreOf(id);
      var overflow := rec.AppendLogWithTrim(line, maxLogSize);
      OverflowIsFront(before.state.log + Log.Terminated(line), overflow, rec.log);
      if |overflow| > 0 && written {
        disk := disk[id := DirOf(disk, id).(archives := Log.WriteChunk(DirOf(disk, id).archives, hour, overflow))];
        rec.AddArchive(hour, Log.PathOf(LogDir(id), hour), |overflow|);
      }
    }

    /** ... and what it leaves is sound, unless the job has ended. */
    method AppendLine(id: JobId, line: string, hour: Log.Hour, written: bool)
      requires JobsNamed(jobs) && LogsValid()
      modifies `disk, RecordOf(id)`log
      modifies RecordOf(id)`archivedBytes, RecordOf(id)`archivedByHour, RecordOf(id)`archivedHours
      ensures LogsValid() || (id in jobs && jobs[id].detail.status.Terminal())
      ensures id !in jobs ==> disk == old(disk)
      ensures id in jobs ==>
                && StoreOf(id) == Log.Append(old(StoreOf(id)), LogDir(id), line, maxLogSize, hour, written)
                && disk - {id} == old(disk) - {id}
                && DirOf(disk, id) == DirOf(old(disk), id).(archives := DirOf(disk, id).archives)
    {
      hide LogsSound, DiskFinished, Log.Append;
      AppendToStore(id, line, hour, written);
      if id in jobs && !jobs[id].detail.status.Terminal() {
        assert Images(jobs) - {id} == old(Images(jobs)) - {id};
        LineKeepsLogs(old(Images(jobs)), Images(jobs), id, old(disk), disk, logRootDir, line, maxLogSize, hour, written);
      }
    }

    method AppendJobLog(id: JobId, line: string, source: Option<string>, hour: Log.Hour, written: bool)
      requires Valid()
      modifies `disk, RecordOf(id)`log
      modifies RecordOf(id)`archivedBytes, RecordOf(id)`archivedByHour, RecordOf(id)`archivedHours
      modifies RecordOf(id)`seqNo, SubsOf(subs, id).Values`buf
      ensures Valid() || (id in jobs && jobs[id].detail.status.Terminal())
      ensures id !in jobs ==> disk == old(disk)
      ensures id in jobs ==>
                && StoreOf(id) == Log.Append(old(StoreOf(id)), LogDir(id), line, maxLogSize, hour, written)
                && disk - {id} == old(disk) - {id}
                && DirOf(disk, id) == DirOf(old(disk), id).(archives := DirOf(disk, id).archives)
                && jobs[id].seqNo == old(jobs[id].seqNo) + (if source.Some? then 1 else 0)
      ensures forall sub :: sub in SubsOf(subs, id) && source.Some? ==>
                && id in jobs
                && SubsOf(subs, id)[sub].buf ==
                   Enqueued(old(SubsOf(subs, id)[sub].buf), Envelope(LineMsg, id, jobs[id].seqNo, line))
      ensures source.None? ==>
                forall sub :: sub in SubsOf(subs, id) ==> SubsOf(subs, id)[sub].buf == old(SubsOf(subs, id)[sub].buf)
    {
      hide LogsSound, DiskFinished, Log.Append, WellFormed, TableIndex, Statuses, JobsNamed, Placed, AllOpen, Enqueued;
      hide Images, DirOf;
      AppendLine(id, line, hour, written);
      if source.Some? {
        PublishNext(id, LineMsg, line);
      }
    }

    // ---------------------------------------------------------- a running job

    /** updateJob with a closure that sets fields of the detail, its id excepted. */
    method UpdateJob(id: JobId, detail: JobDetail)
      requires id in jobs && IndexValid() && detail.id == id
      modifies RecordOf(id)`detail
      ensures IndexValid() && jobs[id].detail == detail
    {
      hide WellFormed;
      StatusOnly(StatusIndex(), id, detail.status);
      jobs[id].detail := detail;
      assert StatusIndex() == old(StatusIndex()).(status := old(StatusIndex()).status[id := detail.status]);
    }

    method SetRunning(id: JobId, start: int)
      requires id in jobs && IndexValid() && LogsValid() && !jobs[id].detail.status.Terminal()
      modifies RecordOf(id)`detail
      ensures IndexValid() && LogsValid()
      ensures jobs[id].detail == old(jobs[id].detail).(status := Running, startedAt := start)
    {
      hide LogsSound, DiskFinished, WellFormed;
      ghost var images := Images(jobs);
      UpdateJob(id, jobs[id].detail.(status := Running, startedAt := start));
      assert Images(jobs) - {id} == images - {id};
      DetailKeepsLogs(images, Images(jobs), id, disk, logRootDir);
    }

    /** The status and the two lines of onStarted, which may fall into different hours. */
    method RecordStart(id: JobId, start: int, started: string, pid: string, hours: (Log.Hour, Log.Hour), written: (bool, bool))
      requires Valid() && id in jobs && !jobs[id].detail.status.Terminal()
      modifies `disk, RecordOf(id)`detail, RecordOf(id)`log
      modifies RecordOf(id)`archivedBytes, RecordOf(id)`archivedByHour, RecordOf(id)`archivedHours
      ensures Valid()
      ensures jobs[id].detail == old(jobs[id].detail).(status := Running, startedAt := start)
      ensures StoreOf(id) == Log.Append(Log.Append(old(StoreOf(id)), LogDir(id), started, maxLogSize, hours.0, written.0),
                                        LogDir(id), pid, maxLogSize, hours.1, written.1)
    {
      hide LogsSound, DiskFinished, Log.Append, WellFormed, TableIndex, JobsNamed, Placed, AllOpen, Images, DirOf;
      SetRunning(id, start);
      AppendLine(id, started, hours.0, written.0);
      AppendLine(id, pid, hours.1, written.1);
    }

    /** The executor announces a job before it ends it. */
    method OnStarted(id: JobId, start: int, started: string, pid: string, state: string,
                     hours: (Log.Hour, Log.Hour), written: (bool, bool))
      requires Valid() && (id in jobs ==> !jobs[id].detail.status.Terminal())
      modifies `disk, RecordOf(id)`detail, RecordOf(id)`log
      modifies RecordOf(id)`archivedBytes, RecordOf(id)`archivedByHour, RecordOf(id)`archivedHours
      modifies RecordOf(id)`seqNo, SubsOf(subs, id).Values`buf
      ensures Valid()
      ensures id in jobs ==>
                && jobs[id].detail == old(jobs[id].detail).(status := Running, startedAt := start)
                && StoreOf(id) == Log.Append(Log.Append(old(StoreOf(id)), LogDir(id), started, maxLogSize, hours.0, written.0),
                                             LogDir(id), pid, maxLogSize, hours.1, written.1)
                && jobs[id].seqNo == old(jobs[id].seqNo) + 1
      ensures id in jobs && id in subs ==> forall sub :: sub in subs[id] ==>
                subs[id][sub].buf == Enqueued(old(subs[id][sub].buf), Envelope(StateMsg, id, jobs[id].seqNo, state))
    {
      hide LogsSound, DiskFinished, Log.Append, WellFormed, TableIndex, JobsNamed, Placed, AllOpen, Images, DirOf;
      hide Enqueued;
      if id in jobs {
        RecordStart(id, start, started, pid, hours, written);
        PublishNext(id, StateMsg, state);
      }
    }

    /** The update and the publication of a progress line; the point is enriched first. */
    method RecordProgress(id: JobId, progress: PerfProgress, report: Option<PerfReport>, point: string)
      requires SubsValid()
      modifies RecordOf(id)`perfSamples, RecordOf(id)`perfReport, RecordOf(id)`seqNo, SubsOf(subs, id).Values`buf
      ensures id in jobs ==>
                && jobs[id].perfSamples ==
                   old(jobs[id].perfSamples) + [EnrichedPoint(sampleStore.zone, sampleStore.Readable(), progress)]
                && jobs[id].perfReport == (if report.Some? then report else old(jobs[id].perfReport))
                && jobs[id].seqNo == old(jobs[id].seqNo) + 1
      ensures id in subs ==> forall sub :: sub in subs[id] ==>
                && id in jobs
                && subs[id][sub].buf == Enqueued(old(subs[id][sub].buf), Envelope(PerfMsg, id, jobs[id].seqNo, point))
    {
      hide EnrichedPoint, Placed, AllOpen, Enqueued;
      var enriched := EnrichPerfProgress(sampleStore, progress);
      if id in jobs {
        jobs[id].AddPerfSample(enriched, report);
      }
      PublishNext(id, PerfMsg, point);
    }

    /** A progress line is recorded on the job; any line ends in the log, tagged with its source. */
    method OnLogLine(id: JobId, progress: Option<PerfProgress>, report: Option<PerfReport>, point: string,
                     formatted: string, source: string, hour: Log.Hour, written: bool)
      requires Valid() && (id in jobs ==> !jobs[id].detail.status.Terminal())
      modifies `disk, RecordOf(id)`perfSamples, RecordOf(id)`perfReport
      modifies RecordOf(id)`log, RecordOf(id)`archivedBytes, RecordOf(id)`archivedByHour, RecordOf(id)`archivedHours
      modifies RecordOf(id)`seqNo, SubsOf(subs, id).Values`buf
      ensures Valid()
      ensures id in jobs ==>
                && StoreOf(id) == Log.Append(old(StoreOf(id)), LogDir(id), formatted, maxLogSize, hour, written)
                && jobs[id].perfSamples ==
                   old(jobs[id].perfSamples) +
                   (if progress.Some? then [EnrichedPoint(sampleStore.zone, sampleStore.Readable(), progress.value)] else [])
                && jobs[id].seqNo == old(jobs[id].seqNo) + (if progress.Some? then 1 else 0) + (if source != "" then 1 else 0)
      ensures id in jobs && id in subs && progress.None? && source != "" ==> forall sub :: sub in subs[id] ==>
                subs[id][sub].buf == Enqueued(old(subs[id][sub].buf), Envelope(LineMsg, id, jobs[id].seqNo, formatted))
      ensures id in jobs && id in subs && progress.Some? && source != "" ==> forall sub :: sub in subs[id] ==>
                subs[id][sub].buf ==
                Enqueued(Enqueued(old(subs[id][sub].buf), Envelope(PerfMsg, id, jobs[id].seqNo - 1, point)),
                         Envelope(LineMsg, id, jobs[id].seqNo, formatted))
    {
      hide LogsSound, DiskFinished, Log.Append, WellFormed, TableIndex, JobsNamed, Placed, AllOpen, Images, DirOf;
      hide EnrichedPoint;
      if progress.Some? {
        RecordProgress(id, progress.value, report, point);
      }
      AppendJobLog(id, formatted, if source == "" then None else Some(source), hour, written);
    }

    // ---------------------------------------------------------- the end of a job

    /** The report over the samples recorded so far, then the final fields. */
    ghost function FinalDetail(id: JobId, status: Status, exitCode: int, end: int): JobDetail
      requires id in jobs
      reads `jobs, jobs.Values`detail, jobs.Values`perfReport, jobs.Values`perfSamples, sampleStore
    {
      var rec := jobs[id];
      Reported(rec.detail, rec.perfReport, rec.perfSamples, sampleStore.zone, sampleStore.Readable())
      .(status := status, exitCode := exitCode, finishedAt := end)
    }

    method SetFinished(id: JobId, status: Status, exitCode: int, end: int)
      requires id in jobs && IndexValid()
      modifies RecordOf(id)`detail, RecordOf(id)`perfSamples, RecordOf(id)`perfReport
      ensures IndexValid()
      ensures jobs[id].detail == old(FinalDetail(id, status, exitCode, end))
      ensures var detail, was := jobs[id].detail, old(jobs[id].detail);
              && detail.status == status && detail.exitCode == exitCode && detail.finishedAt == end
              && detail == was.(status := status, exitCode := exitCode, finishedAt := end, perfReport := detail.perfReport)
      ensures old(jobs[id].perfSamples) == [] ==> jobs[id].detail.perfReport == old(jobs[id].detail.perfReport)
      ensures old(jobs[id].perfSamples) != [] ==>
                && jobs[id].detail.perfReport.Some?
                && jobs[id].detail.perfReport.value.samples ==
                   Enriched(sampleStore.zone, sampleStore.Readable(), old(jobs[id].perfSamples))
    {
      hide FinalReport, WellFormed;
      jobs[id].FinalizePerfReport(sampleStore);
      assert StatusIndex() == old(StatusIndex());
      UpdateJob(id, jobs[id].detail.(status := status, exitCode := exitCode, finishedAt := end));
    }

    /** persistJobMeta; what goes wrong is ignored. */
    method PersistJobMeta(id: JobId, saving: Saving)
      requires id in jobs
      modifies `disk
      ensures disk == Saved(old(disk), id, jobs[id].detail, jobs[id].log, saving)
      ensures disk - {id} == old(disk) - {id} && (saving.NoDirectory? ==> disk == old(disk))
      ensures saving.Tried? ==>
                var dir, was := DirOf(disk, id), DirOf(old(disk), id);
                && id in disk && dir.archives == was.archives
                && dir.meta == (if saving.meta then Some(jobs[id].detail) else was.meta)
                && dir.finalLog == (if saving.log && jobs[id].log != "" then Some(jobs[id].log) else was.finalLog)
    {
      var rec := jobs[id];
      if saving.NoDirectory? {
        return;
      }
      var dir := DirOf(disk, id);
      if saving.meta {
        dir := dir.(meta := Some(rec.detail));
      }
      if rec.log != "" && saving.log {
        dir := dir.(finalLog := Some(rec.log));
      }
      disk := disk[id := dir];
    }

    /** The last line of a job, and what its directory holds after persistJobMeta. */
    method EndLog(id: JobId, line: string, hour: Log.Hour, written: bool, saving: Saving)
      requires id in jobs
      modifies `disk, RecordOf(id)`log
      modifies RecordOf(id)`archivedBytes, RecordOf(id)`archivedByHour, RecordOf(id)`archivedHours
      ensures StoreOf(id) == Log.Append(old(StoreOf(id)), LogDir(id), line, maxLogSize, hour, written)
      ensures disk - {id} == old(disk) - {id}
      ensures saving == ALL_SAVED ==> id in disk && disk[id] == Persisted(disk[id], jobs[id].detail, jobs[id].log)
    {
      hide Log.Append;
      AppendToStore(id, line, hour, written);
      PersistJobMeta(id, saving);
    }

    /** With the record already final, this makes the directory agree with it again. */
    method EndLogSound(id: JobId, line: string, hour: Log.Hour, written: bool, saving: Saving,
                       ghost images: map<JobId, Image>)
      requires id in jobs && id in images && JobsNamed(jobs)
      requires jobs[id].detail.id == id && jobs[id].detail.status.Terminal()
      requires Images(jobs) - {id} == images - {id} && images[id].log == jobs[id].State()
      requires LogsSound(images, disk, logRootDir) && DiskFinished(disk)
      modifies `disk, RecordOf(id)`log
      modifies RecordOf(id)`archivedBytes, RecordOf(id)`archivedByHour, RecordOf(id)`archivedHours
      ensures saving == ALL_SAVED ==> LogsValid() && id in disk
      ensures StoreOf(id) == Log.Append(old(StoreOf(id)), LogDir(id), line, maxLogSize, hour, written)
      ensures disk - {id} == old(disk) - {id}
    {
      hide LogsSound, DiskFinished, Log.Append, DirOf;
      EndLog(id, line, hour, written, saving);
      if saving == ALL_SAVED {
        assert Images(jobs) - {id} == old(Images(jobs)) - {id};
        EndKeepsLogs(images, Images(jobs), id, old(disk), disk, logRootDir, line, maxLogSize, hour, written);
      }
    }

    /** The first half of a job's end: its final record, its last line, and both on disk. */
    method Conclude(id: JobId, status: Status, exitCode: int, end: int, line: string,
                    hour: Log.Hour, written: bool, saving: Saving)
      requires id in jobs && IndexValid() && LogsValid() && status.Terminal()
      modifies `disk, RecordOf(id)`detail, RecordOf(id)`perfSamples, RecordOf(id)`perfReport
      modifies RecordOf(id)`log, RecordOf(id)`archivedBytes, RecordOf(id)`archivedByHour, RecordOf(id)`archivedHours
      ensures IndexValid() && (saving == ALL_SAVED ==> LogsValid() && id in disk)
      ensures jobs[id].detail == old(FinalDetail(id, status, exitCode, end))
      ensures StoreOf(id) == Log.Append(old(StoreOf(id)), LogDir(id), line, maxLogSize, hour, written)
      ensures disk - {id} == old(disk) - {id}
    {
      hide LogsSound, DiskFinished, Log.Append, Reported, WellFormed, Statuses;
      ghost var images := Images(jobs);
      SetFinished(id, status, exitCode, end);
      assert Images(jobs) - {id} == images - {id};
      EndLogSound(id, line, hour, written, saving, images);
    }

    /** The second half: subscribers are offered the error, if any, then Done, and their channels are closed. */
    method Dismiss(id: JobId, err: Option<string>)
      requires SubsValid() && id in jobs
      modifies `subs, `open, RecordOf(id)`seqNo, SubsOf(subs, id).Values
      ensures SubsValid() && subs == old(subs) - {id}
      ensures jobs[id].seqNo == old(jobs[id].seqNo) + (if err.Some? then 2 else 1)
      ensures forall sub :: sub in SubsOf(old(subs), id) ==>
                var ch := SubsOf(old(subs), id)[sub];
                && ch.closed
                && (err.None? ==> ch.buf == Enqueued(old(ch.buf), Envelope(DoneMsg, id, jobs[id].seqNo, "")))
                && (err.Some? ==> ch.buf == Enqueued(Enqueued(old(ch.buf), Envelope(ErrorMsg, id, jobs[id].seqNo - 1, err.value)),
                                                     Envelope(DoneMsg, id, jobs[id].seqNo, "")))
    {
      if err.Some? {
        PublishNext(id, ErrorMsg, err.value);
      }
      PublishNext(id, DoneMsg, "");
      CloseJobSubs(id);
    }

    /**
     * onFinished (no error) and failJob, run alone: a job still indexed gets its final
     * record, which is persisted together with its log; then its subscribers are dismissed.
     * When a write fails, only this job's own directory may disagree with its record.
     */
    method Finish(id: JobId, status: Status, exitCode: int, end: int, err: Option<string>, line: string,
                  hour: Log.Hour, written: bool, saving: Saving)
      requires Valid() && status.Terminal()
      modifies `subs, `open, `disk, RecordOf(id), SubsOf(subs, id).Values
      ensures IndexValid() && SubsValid()
      ensures id !in jobs || saving == ALL_SAVED ==> Valid()
      ensures id !in jobs ==> disk == old(disk) && subs == old(subs)
      ensures id in jobs ==>
                && jobs[id].detail == old(FinalDetail(id, status, exitCode, end))
                && StoreOf(id) == Log.Append(old(StoreOf(id)), LogDir(id), line, maxLogSize, hour, written)
                && disk - {id} == old(disk) - {id} && subs == old(subs) - {id} && (saving == ALL_SAVED ==> id in disk)
      ensures id in jobs ==> forall sub :: sub in SubsOf(old(subs), id) ==>
                var ch := SubsOf(old(subs), id)[sub];
                && ch.closed
                && (err.None? ==> ch.buf == Enqueued(old(ch.buf), Envelope(DoneMsg, id, jobs[id].seqNo, "")))
                && (err.Some? ==> ch.buf == Enqueued(Enqueued(old(ch.buf), Envelope(ErrorMsg, id, jobs[id].seqNo - 1, err.value)),
                                                     Envelope(DoneMsg, id, jobs[id].seqNo, "")))
    {
      hide LogsSound, DiskFinished, Log.Append, FinalDetail, WellFormed, TableIndex, Images, DirOf, Placed, AllOpen, JobsNamed;
      if id in jobs {
        Conclude(id, status, exitCode, end, line, hour, written, saving);
        Dismiss(id, err);
      }
    }

    // ---------------------------------------------------------- the restart

    /** The body of its second loop. */
    method RestoreNext(detail: JobDetail, ghost restored: seq<JobDetail>)
      requires Restores(jobs, jobList, restored, logRootDir, disk)
      modifies `jobs, `jobList
      ensures Restores(jobs, jobList, KeepNew(restored, detail), logRootDir, disk)
    {
      hide Restores, ReadBack;
      RestoresIds(jobs, jobList, restored, logRootDir, disk, detail.id);
      if detail.id !in jobs {
        var rec := RestoreJob(LogDir(detail.id), DirOf(disk, detail.id), detail);
        RestoresAdd(jobs, jobList, restored, logRootDir, disk, rec);
        jobs := jobs[detail.id := rec];
        jobList := jobList + [detail.id];
      }
    }

    /** loadPersistedJobs on a fresh scheduler; `entries` is the listing of the log directory. */
    method LoadPersistedJobs(entries: seq<JobId>) returns (ghost restored: seq<JobDetail>)
      requires jobs == map[] && jobList == []
      requires forall name :: name in entries <==> name in disk
      modifies `jobs, `jobList
      ensures Restores(jobs, jobList, restored, logRootDir, disk)
      ensures DistinctIds(restored) && ByCreation(restored)
      ensures forall i :: 0 <= i < |restored| ==> OnDisk(disk, restored[i])
      ensures forall d :: OnDisk(disk, d) ==> HasId(restored, d.id) && StandsFor(restored, d)
    {
      hide Restores, ByCreation, DistinctIds, OnDisk, HasId, StandsFor;
      var sorted := LoadSorted(disk, entries);
      var n := 0;
      RestoresNone(logRootDir, disk);
      while n < |sorted|
        invariant n <= |sorted|
        invariant Restores(jobs, jobList, Kept(sorted, n), logRootDir, disk)
      {
        RestoreNext(sorted[n], Kept(sorted, n));
        n := n + 1;
      }
      restored := Kept(sorted, n);
      KeptIsLoaded(disk, sorted);
    }

    /** New, on whatever is there; a directory of finished jobs gives a sound table of finished jobs. */
    static method New(maxJobs: int, maxLogSize: int, logRootDir: string, sampleStore: SampleStore,
                      disk: map<JobId, JobDir>, entries: seq<JobId>)
      returns (s: Scheduler, ghost restored: seq<JobDetail>)
      requires forall name :: name in entries <==> name in disk
      ensures fresh(s)
      ensures s.maxJobs == maxJobs && s.maxLogSize == maxLogSize && s.logRootDir == logRootDir && s.disk == disk
      ensures Restores(s.jobs, s.jobList, restored, logRootDir, disk)
      ensures DistinctIds(restored) && ByCreation(restored)
      ensures forall d :: OnDisk(disk, d) ==> HasId(restored, d.id) && StandsFor(restored, d)
      ensures DiskFinished(disk) ==>
                && s.Valid()
                && (forall d :: d in restored <==> OnDisk(disk, d))
                && (forall id :: id in s.jobs ==> s.jobs[id].detail.status.Terminal())
    {
      hide Restores, ByCreation, DistinctIds, OnDisk, HasId, StandsFor, LogsSound, DiskFinished, TableIndex, JobsNamed, WellFormed;
      s := new Scheduler(maxJobs, maxLogSize, logRootDir, sampleStore, disk);
      restored := s.LoadPersistedJobs(entries);
      if DiskFinished(disk) {
        LoadedTable(s.jobs, s.jobList, restored, logRootDir, disk);
        LoadedExactly(restored, disk);
      }
    }
  }

  /**
   * The process ends and a new one loads the directory: every finished job is there
   * again, with the record, the log and the archive index it had, and nothing is running.
   */
  method Reopen(s: Scheduler, entries: seq<JobId>) returns (r: Scheduler)
    requires s.Valid()
    requires forall name :: name in entries <==> name in s.disk
    ensures fresh(r) && r.Valid() && r.disk == s.disk
    ensures forall id :: id in r.jobs ==> r.jobs[id].detail.status.Terminal()
    ensures forall id :: id in s.jobs && s.jobs[id].detail.status.Terminal() ==>
              id in r.jobs && r.jobs[id].detail == s.jobs[id].detail && r.jobs[id].State() == s.jobs[id].State()
  {
    hide LogsSound, DiskFinished, Restores, OnDisk, WellFormed, TableIndex, Placed, AllOpen;
    ghost var restored;
    r, restored := Scheduler.New(s.maxJobs, s.maxLogSize, s.logRootDir, s.sampleStore, s.disk, entries);
    forall id | id in s.jobs && s.jobs[id].detail.status.Terminal()
      ensures id in r.jobs && r.jobs[id].detail == s.jobs[id].detail && r.jobs[id].State() == s.jobs[id].State()
    {
      FinishedComesBack(Images(s.jobs), s.disk, s.logRootDir, r.jobs, r.jobList, restored, id);
    }
  }

  /** A job that finishes just before the process ends comes back with that end, and prints the same log. */
  method FinishAndReopen(s: Scheduler, id: JobId, status: Status, exitCode: int, end: int, err: Option<string>,
                         line: string, hour: Log.Hour, written: bool, entries: seq<JobId>)
    returns (r: Scheduler, before: string, after: string)
    requires s.Valid() && status.Terminal() && id in s.jobs
    requires forall name :: name in entries <==> name in s.disk || name == id
    modifies s`subs, s`open, s`disk, s.RecordOf(id), SubsOf(s.subs, id).Values
    ensures fresh(r) && s.Valid() && r.Valid() && id in r.jobs
    ensures r.jobs[id].detail == s.jobs[id].detail
    ensures s.jobs[id].detail.status == status && s.jobs[id].detail.exitCode == exitCode
    ensures before == Log.LogText(s.jobs[id].State()) && after == before
  {
    hide LogsSound, DiskFinished, Log.Append, WellFormed, TableIndex, Placed, AllOpen, JobsNamed;
    hide Reported, Log.LogText, DirOf, Images;
    s.Finish(id, status, exitCode, end, err, line, hour, written, ALL_SAVED);
    before := s.jobs[id].LogText();
    SameNames(old(s.disk), s.disk, id);
    r := Reopen(s, entries);
    after := r.jobs[id].LogText();
  }

  lemma OverflowIsFront(log: string, overflow: string, rest: string)
    requires overflow + rest == log
    ensures overflow == log[..|overflow|] && rest == log[|overflow|..]
  {
  }
}
