/**
 * Where the fleet's runs start: the table New loads (ops/backend/scheduler/scheduler.go:108-125)
 * is the index of an initial fleet of Fleet.dfy.
 */
module FleetRestart {
  import opened Fleet
  import opened JobIndex
  import opened JobScript
  import opened Schedulers
  import opened Stream
  import opened StreamWitness

  /** A script that ends with the given status. */
  lemma EndingScript(status: Status) returns (script: seq<Op>, t: nat)
    requires status.Terminal()
    ensures Shape(script, t) && script[t] == SetStatus(status)
  {
    if status == Success {
      SmallScriptIs();
      script, t := SmallScript(), 6;
    } else {
      RefusalGivesShape("");
      script, t := RefusedScript(""), 1;
    }
  }

  /** A restored job is in a state its stream system reaches when nobody watches it. */
  lemma EndedJob(status: Status) returns (s: JobState)
    requires status.Terminal()
    ensures JobReachable(s) && Finished(s) && s.handlers == map[] && s.present && s.status == status
  {
    var script, t := EndingScript(status);
    var actions;
    actions, s := OwnerAlone(script, t, [], InitJob(script));
    assert Reachable(script, s);
    ReachableInv(script, t, s);
  }

  /** Every well-formed index of ended jobs is the index of an initial fleet. */
  lemma RestoredFleet(index: Index, maxJobs: int) returns (f: Fleet)
    requires WellFormed(index) && forall id :: id in index.status ==> index.status[id].Terminal()
    ensures InitialFleet(f) && IndexOf(f) == index && f.maxJobs == maxJobs
  {
    var succeeded := EndedJob(Success);
    var failed := EndedJob(Failure);
    f := Fleet(map id | id in index.status :: if index.status[id] == Success then succeeded else failed,
               index.jobList, maxJobs);
    assert IndexOf(f).status == index.status;
  }

  /** What New leaves on a directory of finished jobs is where the fleet's runs start. */
  lemma NewSchedulerStartsFleet(s: Scheduler) returns (f: Fleet)
    requires s.Valid() && forall id :: id in s.jobs ==> s.jobs[id].detail.status.Terminal()
    ensures InitialFleet(f) && IndexOf(f) == s.StatusIndex() && f.maxJobs == s.maxJobs
  {
    f := RestoredFleet(s.StatusIndex(), s.maxJobs);
  }

  /** A job under a new id can always be started, with the script of any trace of the executor or of a refusal. */
  lemma AnyJobStarts(f: Fleet, id: JobId, trace: seq<ET.Event>, isPerf: string -> bool, err: string)
    requires id !in f.jobs
    ensures ET.ValidTrace(trace) ==> FleetEnabled(f, StartJob(id, StartedScript(trace, isPerf)))
    ensures FleetEnabled(f, StartJob(id, RefusedScript(err)))
  {
    if ET.ValidTrace(trace) { var t := TraceGivesShape(trace, isPerf); }
    RefusalGivesShape(err);
  }
}
