/**
 * The whole scheduler: every job's stream system of Stream.dfy side by side, tied
 * together by StartJob, which indexes a new job and trims old ones in one critical
 * section (ops/backend/scheduler/scheduler.go:167-171, 462-480).
 */
module Fleet {
  import opened Channels
  import opened JobScript
  import opened JobIndex
  import opened Stream

  datatype Fleet = Fleet(jobs: map<JobId, JobState>, jobList: seq<JobId>, maxJobs: int)

  datatype FleetAction =
    | StartJob(id: JobId, script: seq<Op>)
    | Local(id: JobId, action: Action)

  /** What trimJobsLocked sees: the jobs still indexed and their statuses. */
  function IndexOf(f: Fleet): Index
  {
    Index(map id | id in f.jobs && f.jobs[id].present :: f.jobs[id].status, f.jobList)
  }

  ghost predicate FleetEnabled(f: Fleet, a: FleetAction)
  {
    match a
    case StartJob(id, script) => id !in f.jobs && exists t: nat :: Shape(script, t)
    case Local(id, action) => id in f.jobs && !action.Trim? && Enabled(f.jobs[id], action)
  }

  /** A job as trimJobsLocked leaves it. */
  function TrimJob(s: JobState): JobState
  {
    if Enabled(s, Trim) then Apply(s, Trim) else s
  }

  /** The jobs the trimming of a StartJob takes out of the index. */
  function Removed(f: Fleet, id: JobId): set<JobId>
  {
    var before := Registered(IndexOf(f), id);
    ToSet(before.jobList[..TrimCount(before, f.maxJobs)])
  }

  /** StartJob's critical section. */
  function Started(f: Fleet, id: JobId, script: seq<Op>): Fleet
  {
    var jobs := f.jobs[id := InitJob(script)];
    var removed := Removed(f, id);
    Fleet(map k | k in jobs :: if k in removed then TrimJob(jobs[k]) else jobs[k],
          Trimmed(Registered(IndexOf(f), id), f.maxJobs).jobList, f.maxJobs)
  }

  function FleetApply(f: Fleet, a: FleetAction): Fleet
    requires a.Local? ==> a.id in f.jobs && Enabled(f.jobs[a.id], a.action)
  {
    match a
    case StartJob(id, script) => Started(f, id, script)
    case Local(id, action) => f.(jobs := f.jobs[id := Apply(f.jobs[id], action)])
  }

  ghost predicate FleetExecution(f: Fleet, actions: seq<FleetAction>, f': Fleet)
    decreases |actions|
  {
    if actions == [] then f == f'
    else FleetEnabled(f, actions[0]) && FleetExecution(FleetApply(f, actions[0]), actions[1..], f')
  }

  /** The state of a job is one its own stream system can reach. */
  ghost predicate JobReachable(s: JobState)
  {
    Reachable(s.script, s) && exists t: nat :: Shape(s.script, t)
  }

  ghost predicate FleetInv(f: Fleet)
  {
    && WellFormed(IndexOf(f))
    && forall id :: id in f.jobs ==> JobReachable(f.jobs[id])
  }

  /** After loadPersistedJobs: finished jobs nobody is watching. */
  ghost predicate InitialFleet(f: Fleet)
  {
    && WellFormed(IndexOf(f))
    && forall id :: id in f.jobs ==>
         JobReachable(f.jobs[id]) && Finished(f.jobs[id]) && f.jobs[id].handlers == map[]
  }

  lemma JobStep(s: JobState, a: Action)
    requires JobReachable(s) && Enabled(s, a)
    ensures JobReachable(Apply(s, a))
  {
    var actions :| Execution(InitJob(s.script), actions, s);
    ExecutionSnoc(InitJob(s.script), actions, s, a);
    assert Apply(s, a).script == s.script;
  }

  lemma NewJob(script: seq<Op>, t: nat)
    requires Shape(script, t)
    ensures JobReachable(InitJob(script))
  {
    assert Execution(InitJob(script), [], InitJob(script));
  }

  lemma PresenceChangesOnlyByTrim(s: JobState, a: Action)
    requires Enabled(s, a) && !a.Trim?
    ensures Apply(s, a).present == s.present
  {
  }

  lemma LocalStep(f: Fleet, id: JobId, action: Action)
    requires FleetInv(f) && FleetEnabled(f, Local(id, action))
    ensures FleetInv(FleetApply(f, Local(id, action)))
  {
    var f' := FleetApply(f, Local(id, action));
    JobStep(f.jobs[id], action);
    PresenceChangesOnlyByTrim(f.jobs[id], action);
    assert IndexOf(f').status.Keys == IndexOf(f).status.Keys;
    forall k ensures k in f'.jobList <==> k in IndexOf(f').status {
      assert k in IndexOf(f).jobList <==> k in IndexOf(f).status;
    }
  }

  /** Every removed job was indexed and finished: its stream system takes a Trim step. */
  lemma RemovedAreTrimmable(f: Fleet, id: JobId)
    requires WellFormed(IndexOf(f)) && id !in f.jobs
    ensures WellFormed(Registered(IndexOf(f), id))
    ensures forall k :: k in Removed(f, id) ==> k in f.jobs && f.jobs[k].present && f.jobs[k].status.Terminal()
  {
    var before := Registered(IndexOf(f), id);
    RegisteredWellFormed(IndexOf(f), id);
    TrimmedMeaning(before, f.maxJobs);
    forall k | k in Removed(f, id) ensures k in f.jobs && f.jobs[k].present && f.jobs[k].status.Terminal() {
      var i :| 0 <= i < TrimCount(before, f.maxJobs) && before.jobList[i] == k;
      assert k in before.status && !Active(before.status[k]);
    }
  }

  /** Job by job, the effect of StartJob. */
  lemma StartedJob(f: Fleet, id: JobId, script: seq<Op>, k: JobId)
    requires WellFormed(IndexOf(f)) && id !in f.jobs && k in Started(f, id, script).jobs
    ensures k == id ==> Started(f, id, script).jobs[k] == InitJob(script)
    ensures k != id ==> k in f.jobs
    ensures k != id && k in Removed(f, id) ==>
              Enabled(f.jobs[k], Trim) && Started(f, id, script).jobs[k] == Apply(f.jobs[k], Trim)
    ensures k != id && k !in Removed(f, id) ==> Started(f, id, script).jobs[k] == f.jobs[k]
  {
    RemovedAreTrimmable(f, id);
  }

  /** The index StartJob leaves is the one trimJobsLocked computes. */
  lemma {:induction false} StartIndex(f: Fleet, id: JobId, script: seq<Op>)
    requires WellFormed(IndexOf(f)) && id !in f.jobs
    ensures IndexOf(Started(f, id, script)) == Trimmed(Registered(IndexOf(f), id), f.maxJobs)
  {
    var f' := Started(f, id, script);
    var before := Registered(IndexOf(f), id);
    RemovedAreTrimmable(f, id);
    var status, status' := Trimmed(before, f.maxJobs).status, IndexOf(f').status;
    assert status == before.status - Removed(f, id);
    forall k ensures k in status' <==> k in status {
      if k in f'.jobs { StartedJob(f, id, script, k); }
    }
    forall k | k in status' ensures status'[k] == status[k] {
      StartedJob(f, id, script, k);
    }
    assert status' == status;
  }

  lemma StartStep(f: Fleet, id: JobId, script: seq<Op>)
    requires FleetInv(f) && FleetEnabled(f, StartJob(id, script))
    ensures FleetInv(FleetApply(f, StartJob(id, script)))
  {
    var f' := Started(f, id, script);
    StartIndex(f, id, script);
    RemovedAreTrimmable(f, id);
    TrimmedMeaning(Registered(IndexOf(f), id), f.maxJobs);
    var t: nat :| Shape(script, t);
    NewJob(script, t);
    forall k | k in f'.jobs ensures JobReachable(f'.jobs[k]) {
      StartedJob(f, id, script, k);
      if k in Removed(f, id) && k != id { JobStep(f.jobs[k], Trim); }
    }
  }

  lemma {:induction false} FleetInvExecution(f: Fleet, actions: seq<FleetAction>, f': Fleet)
    requires FleetInv(f) && FleetExecution(f, actions, f')
    ensures FleetInv(f')
    decreases |actions|
  {
    if actions != [] {
      match actions[0]
      case StartJob(id, script) =>
        StartStep(f, id, script);
        FleetInvExecution(FleetApply(f, actions[0]), actions[1..], f');
      case Local(id, action) =>
        LocalStep(f, id, action);
        FleetInvExecution(FleetApply(f, actions[0]), actions[1..], f');
    }
  }

  /**
   * In every run of any number of jobs, subscribers and cancellations: the index names
   * every indexed job exactly once, only indexed jobs have registered subscribers, an
   * active job is always indexed, and every job is in a state its own stream system
   * reaches, so that all results of Stream.dfy hold of it.
   */
  lemma AllRuns(f: Fleet, actions: seq<FleetAction>, f': Fleet)
    requires InitialFleet(f) && FleetExecution(f, actions, f')
    ensures NoDup(f'.jobList)
    ensures forall id :: id in f'.jobList <==> id in f'.jobs && f'.jobs[id].present
    ensures forall id :: id in f'.jobs ==> JobReachable(f'.jobs[id]) && !f'.jobs[id].panicked
    ensures forall id :: id in f'.jobs && f'.jobs[id].subs != {} ==> id in f'.jobList
    ensures forall id :: id in f'.jobs && !f'.jobs[id].status.Terminal() ==> id in f'.jobList
  {
    FleetInvExecution(f, actions, f');
    forall id ensures id in f'.jobList <==> id in f'.jobs && f'.jobs[id].present {
      assert id in IndexOf(f').jobList <==> id in IndexOf(f').status;
    }
    forall id | id in f'.jobs
      ensures !f'.jobs[id].panicked
      ensures !f'.jobs[id].present ==> f'.jobs[id].subs == {} && f'.jobs[id].status.Terminal()
    {
      var s := f'.jobs[id];
      var t: nat :| Shape(s.script, t);
      ReachableAt(s.script, t, s, 0);
    }
  }

  /** The stream theorem at the level of the whole scheduler. */
  lemma AllRunsTerminateStreams(f: Fleet, actions: seq<FleetAction>, f': Fleet, id: JobId, h: SubId)
    requires InitialFleet(f) && FleetExecution(f, actions, f')
    requires id in f'.jobs && Finished(f'.jobs[id])
    ensures Stuck(f'.jobs[id], h) <==> InLoop(f'.jobs[id], h) && h in f'.jobs[id].orphans
    ensures f'.jobs[id].orphans != {} ==> id !in f'.jobList
  {
    FleetInvExecution(f, actions, f');
    var s := f'.jobs[id];
    var t: nat :| Shape(s.script, t);
    ReachableAt(s.script, t, s, h);
    StreamTermination(s.script, t, s, h);
    assert id in IndexOf(f').jobList <==> id in IndexOf(f').status;
  }

  /**
   * One StartJob: the new job is indexed and queued, no active job leaves the index or
   * changes, and the jobs that leave are a prefix of the list.
   */
  lemma StartJobEffect(f: Fleet, id: JobId, script: seq<Op>) returns (n: nat)
    requires FleetInv(f) && FleetEnabled(f, StartJob(id, script))
    ensures var f' := FleetApply(f, StartJob(id, script));
            && id in f'.jobs && f'.jobs[id] == InitJob(script)
            && n <= |f.jobList| && f'.jobList == f.jobList[n..] + [id]
            && (forall k :: k in f.jobs && !f.jobs[k].status.Terminal() ==> k in f'.jobs && f'.jobs[k] == f.jobs[k])
  {
    var before := Registered(IndexOf(f), id);
    n := TrimCount(before, f.maxJobs);
    StartedJob(f, id, script, id);
    forall k | k in f.jobs && !f.jobs[k].status.Terminal() ensures Started(f, id, script).jobs[k] == f.jobs[k] {
      RemovedAreTrimmable(f, id);
      StartedJob(f, id, script, k);
    }
    PrefixWithoutNew(f, id);
  }

  /** The new job is queued, so trimming stops before it. */
  lemma PrefixWithoutNew(f: Fleet, id: JobId)
    requires WellFormed(IndexOf(f)) && id !in f.jobs
    ensures TrimCount(Registered(IndexOf(f), id), f.maxJobs) <= |f.jobList|
  {
    var before := Registered(IndexOf(f), id);
    RegisteredWellFormed(IndexOf(f), id);
    TrimKeepsActive(before, f.maxJobs, id);
  }

  lemma StoppedIndex(f: Fleet)
    requires WellFormed(IndexOf(f)) && Stops(IndexOf(f), f.maxJobs) && f.maxJobs > 0
    ensures |f.jobList| <= f.maxJobs || (f.jobList[0] in f.jobs && !f.jobs[f.jobList[0]].status.Terminal())
  {
  }

  /** ... and trimming stopped at the limit or at an active job. */
  lemma StartJobStopsTrimming(f: Fleet, id: JobId, script: seq<Op>)
    requires FleetInv(f) && FleetEnabled(f, StartJob(id, script)) && f.maxJobs > 0
    ensures var f' := FleetApply(f, StartJob(id, script));
            || |f'.jobList| <= f.maxJobs
            || (f'.jobList[0] in f'.jobs && !f'.jobs[f'.jobList[0]].status.Terminal())
  {
    StartIndex(f, id, script);
    RegisteredWellFormed(IndexOf(f), id);
    TrimmedMeaning(Registered(IndexOf(f), id), f.maxJobs);
    StoppedIndex(FleetApply(f, StartJob(id, script)));
  }
}
