/** jobRecord, the scheduler's mutable record of one job (ops/backend/scheduler/scheduler.go:23-80, 447-460). */
module JobRecords {
  import opened Options
  import opened Enrichment
  import opened JobIndex
  import opened JobLog
  import opened JobScript
  import opened Samples
  import opened SampleStores

  /** A load test's report: its time, configuration and summary as one text, and its series. */
  datatype PerfReport = PerfReport(heading: string, samples: seq<PerfProgress>)

  /** Times are nanoseconds; zero is "not yet". */
  datatype JobDetail = JobDetail(
    id: JobId,
    taskId: string,
    status: Status,
    createdAt: int,
    startedAt: int,
    finishedAt: int,
    exitCode: int,
    taskName: string,
    args: seq<string>,
    perfReport: Option<PerfReport>)

  /** The report finalizePerfReport leaves: the enriched series under the heading of the last report line. */
  function FinalReport(report: Option<PerfReport>, series: seq<PerfProgress>): PerfReport
  {
    PerfReport(if report.Some? then report.value.heading else "", series)
  }

  /** A job's detail after finalizePerfReport; a job without progress lines keeps it. */
  function Reported(detail: JobDetail, report: Option<PerfReport>, samples: seq<PerfProgress>,
                    zone: Zone, files: Files): JobDetail
  {
    if samples == [] then detail
    else detail.(perfReport := Some(FinalReport(report, Enriched(zone, files, samples))))
  }

  class JobRecord {
    const id: JobId
    var detail: JobDetail
    var log: string
    var archivedBytes: int
    var archivedByHour: map<Hour, string>
    var archivedHours: seq<Hour>
    var perfSamples: seq<PerfProgress>
    var perfReport: Option<PerfReport>
    var seqNo: int

    /** The value JobLog.dfy reasons about. */
    ghost function State(): LogState
      reads `log, `archivedBytes, `archivedByHour, `archivedHours
    {
      LogState(log, archivedBytes, archivedByHour, archivedHours)
    }

    constructor (detail: JobDetail)
      ensures this.detail == detail && id == detail.id
      ensures State() == EMPTY_LOG && seqNo == 0
      ensures perfSamples == [] && perfReport == detail.perfReport
    {
      this.id := detail.id;
      this.detail := detail;
      log := "";
      archivedBytes := 0;
      archivedByHour := map[];
      archivedHours := [];
      perfSamples := [];
      perfReport := detail.perfReport;
      seqNo := 0;
    }

    method AppendLog(line: string)
      modifies `log
      ensures log == old(log) + Terminated(line)
    {
      log := log + line;
      if line == "" || line[|line| - 1] != '\n' {
        log := log + "\n";
      }
    }

    /** Nothing is lost: the overflow and what stays are the log as appended. */
    method AppendLogWithTrim(line: string, maxBytes: int) returns (overflow: string)
      modifies `log
      ensures overflow + log == old(log) + (if line != "" && line[|line| - 1] == '\n' then line else line + ['\n'])
      ensures maxBytes <= 0 ==> overflow == ""
      ensures maxBytes > 0 ==> |log| <= maxBytes && (overflow != "" ==> |log| == maxBytes)
      ensures overflow + log == old(log) + Terminated(line)
      ensures |overflow| == OverflowSize(old(log) + Terminated(line), maxBytes)
    {
      AppendLog(line);
      if maxBytes <= 0 || |log| <= maxBytes {
        return "";
      }
      var overflowSize := |log| - maxBytes;
      overflow := log[..overflowSize];
      log := log[overflowSize..];
    }

    method AddArchive(hour: Hour, path: string, bytes: int)
      modifies `archivedBytes, `archivedByHour, `archivedHours
      ensures State() == JobLog.AddArchive(old(State()), hour, path, bytes)
    {
      archivedBytes := archivedBytes + bytes;
      if hour !in archivedByHour {
        archivedByHour := archivedByHour[hour := path];
        InsertArchivedHour(hour);
      }
    }

    /** append and sort.Strings: the list was in order, so only the new key moves. */
    method InsertArchivedHour(hour: Hour)
      modifies `archivedHours
      ensures archivedHours == InsertHour(old(archivedHours), hour)
    {
      var k := |archivedHours|;
      while k > 0 && archivedHours[k - 1] > hour
        invariant 0 <= k <= |archivedHours|
        invariant Position(archivedHours, hour, k) == Position(archivedHours, hour, |archivedHours|)
      {
        k := k - 1;
      }
      archivedHours := archivedHours[..k] + [hour] + archivedHours[k..];
    }

    method LogText() returns (text: string)
      ensures text == JobLog.LogText(State())
    {
      if archivedBytes <= 0 {
        return log;
      }
      var latest := "";
      if |archivedHours| > 0 {
        var last := archivedHours[|archivedHours| - 1];
        if last in archivedByHour {
          latest := archivedByHour[last];
        }
      }
      text := Banner(archivedBytes, latest) + log;
    }

    /** The update of onLogLine; the final report line carries a report as well. */
    method AddPerfSample(progress: PerfProgress, report: Option<PerfReport>)
      modifies `perfSamples, `perfReport
      ensures perfSamples == old(perfSamples) + [progress]
      ensures perfReport == if report.Some? then report else old(perfReport)
    {
      perfSamples := perfSamples + [progress];
      if report.Some? {
        perfReport := report;
      }
    }

    method FinalizePerfReport(store: SampleStore)
      modifies `detail, `perfSamples, `perfReport
      ensures detail == Reported(old(detail), old(perfReport), old(perfSamples), store.zone, store.Readable())
      ensures perfSamples == Enriched(store.zone, store.Readable(), old(perfSamples))
      ensures old(perfSamples) == [] ==> detail == old(detail) && perfReport == old(perfReport)
      ensures old(perfSamples) != [] ==>
                && perfReport.Some? && perfReport.value.samples == perfSamples
                && (old(perfReport).Some? ==> perfReport.value.heading == old(perfReport).value.heading)
                && detail.perfReport == perfReport
                && detail.(perfReport := old(detail).perfReport) == old(detail)
    {
      if |perfSamples| == 0 {
        return;
      }
      perfSamples := EnrichPerfProgressSeries(store, perfSamples);
      if perfReport.None? {
        perfReport := Some(PerfReport("", []));
      }
      perfReport := Some(perfReport.value.(samples := perfSamples));
      detail := detail.(perfReport := perfReport);
    }

    method NextSeqLocked() returns (n: int)
      modifies `seqNo
      ensures n == seqNo == old(seqNo) + 1
    {
      seqNo := seqNo + 1;
      n := seqNo;
    }
  }
}
