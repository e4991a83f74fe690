/**
 * What a run of the whole scheduler does to one job, and the stream theorems that follow
 * from conditions on the StartJob calls of the run.
 */
module FleetStreams {
  import opened Channels
  import opened JobScript
  import opened JobIndex
  import opened Stream
  import opened StreamWindow
  import opened Fleet

  /** The step, if any, that a fleet action is for one job. */
  function StepOf(f: Fleet, a: FleetAction, id: JobId): seq<Action>
  {
    match a
    case StartJob(new', _) => if id in f.jobs && id in Removed(f, new') then [Trim] else []
    case Local(k, action) => if k == id then [action] else []
  }

  /** The part of a fleet run that concerns one job. */
  ghost function JobSteps(f: Fleet, actions: seq<FleetAction>, id: JobId): seq<Action>
    decreases |actions|
  {
    if actions == [] || !FleetEnabled(f, actions[0]) then []
    else StepOf(f, actions[0], id) + JobSteps(FleetApply(f, actions[0]), actions[1..], id)
  }

  /** Where a job's own run begins. */
  function Start(f: Fleet, f': Fleet, id: JobId): JobState
    requires id in f'.jobs
  {
    if id in f.jobs then f.jobs[id] else InitJob(f'.jobs[id].script)
  }

  lemma OneStep(f: Fleet, a: FleetAction, id: JobId)
    requires FleetInv(f) && FleetEnabled(f, a)
    ensures FleetInv(FleetApply(f, a))
    ensures id in f.jobs ==> id in FleetApply(f, a).jobs
    ensures id in f.jobs && StepOf(f, a, id) == [] ==> FleetApply(f, a).jobs[id] == f.jobs[id]
    ensures StepOf(f, a, id) != [] ==>
              var x := StepOf(f, a, id)[0];
              && StepOf(f, a, id) == [x] && id in f.jobs
              && Enabled(f.jobs[id], x) && FleetApply(f, a).jobs[id] == Apply(f.jobs[id], x)
    ensures id !in f.jobs && id in FleetApply(f, a).jobs ==>
              FleetApply(f, a).jobs[id] == InitJob(FleetApply(f, a).jobs[id].script)
  {
    match a
    case StartJob(new', script) =>
      StartStep(f, new', script);
      if id in Started(f, new', script).jobs { StartedJob(f, new', script, id); }
    case Local(k, action) =>
      LocalStep(f, k, action);
  }

  lemma ExecutionCons(s: JobState, a: Action, rest: seq<Action>, s': JobState)
    requires Enabled(s, a) && Execution(Apply(s, a), rest, s')
    ensures Execution(s, [a] + rest, s')
  {
    assert ([a] + rest)[1..] == rest;
  }

  lemma {:induction false} JobStays(f: Fleet, actions: seq<FleetAction>, f': Fleet, id: JobId)
    requires FleetInv(f) && FleetExecution(f, actions, f') && id in f.jobs
    ensures id in f'.jobs && f'.jobs[id].script == f.jobs[id].script
    decreases |actions|
  {
    if actions != [] {
      OneStep(f, actions[0], id);
      if StepOf(f, actions[0], id) != [] { HistoryGrows(f.jobs[id], StepOf(f, actions[0], id)[0]); }
      JobStays(FleetApply(f, actions[0]), actions[1..], f', id);
    }
  }

  /** A job that is not there yet begins with its StartJob. */
  lemma SameStart(f: Fleet, a: FleetAction, rest: seq<FleetAction>, f': Fleet, id: JobId)
    requires FleetInv(f) && FleetEnabled(f, a) && FleetExecution(FleetApply(f, a), rest, f') && id in f'.jobs
    ensures StepOf(f, a, id) == [] ==> Start(f, f', id) == Start(FleetApply(f, a), f', id)
    ensures StepOf(f, a, id) != [] ==>
              && id in f.jobs && Start(f, f', id) == f.jobs[id]
              && id in FleetApply(f, a).jobs && Start(FleetApply(f, a), f', id) == FleetApply(f, a).jobs[id]
  {
    OneStep(f, a, id);
    if id in FleetApply(f, a).jobs { JobStays(FleetApply(f, a), rest, f', id); }
  }

  /** Every job of a fleet run goes through an execution of its own stream system. */
  lemma {:induction false} JobRun(f: Fleet, actions: seq<FleetAction>, f': Fleet, id: JobId)
    requires FleetInv(f) && FleetExecution(f, actions, f') && id in f'.jobs
    ensures Execution(Start(f, f', id), JobSteps(f, actions, id), f'.jobs[id])
    decreases |actions|
  {
    if actions != [] {
      var f1, rest := FleetApply(f, actions[0]), actions[1..];
      OneStep(f, actions[0], id);
      JobRun(f1, rest, f', id);
      SameStart(f, actions[0], rest, f', id);
      var steps := JobSteps(f1, rest, id);
      if StepOf(f, actions[0], id) == [] {
        assert [] + steps == steps;
      } else {
        ExecutionCons(f.jobs[id], StepOf(f, actions[0], id)[0], steps, f'.jobs[id]);
      }
    }
  }

  /** No StartJob of the run trims a job somebody is registered for. */
  ghost predicate TrimsUnwatched(f: Fleet, actions: seq<FleetAction>)
    decreases |actions|
  {
    actions != [] && FleetEnabled(f, actions[0]) ==>
      && (actions[0].StartJob? ==>
            forall id :: id in f.jobs && id in Removed(f, actions[0].id) ==> f.jobs[id].subs == {})
      && TrimsUnwatched(FleetApply(f, actions[0]), actions[1..])
  }

  /** No StartJob of the run trims a job between its terminal status and the end of its closeJobSubs. */
  ghost predicate TrimsClosed(f: Fleet, actions: seq<FleetAction>)
    decreases |actions|
  {
    actions != [] && FleetEnabled(f, actions[0]) ==>
      && (actions[0].StartJob? ==>
            forall id :: id in f.jobs && id in Removed(f, actions[0].id) ==> !InClosingWindow(f.jobs[id]))
      && TrimsClosed(FleetApply(f, actions[0]), actions[1..])
  }

  lemma {:induction false} UnwatchedPerJob(f: Fleet, actions: seq<FleetAction>, f': Fleet, id: JobId)
    requires FleetInv(f) && FleetExecution(f, actions, f') && TrimsUnwatched(f, actions) && id in f'.jobs
    ensures TrimsFindNoSubscriber(Start(f, f', id), JobSteps(f, actions, id))
    decreases |actions|
  {
    if actions != [] {
      var f1, rest := FleetApply(f, actions[0]), actions[1..];
      OneStep(f, actions[0], id);
      UnwatchedPerJob(f1, rest, f', id);
      var steps := JobSteps(f1, rest, id);
      SameStart(f, actions[0], rest, f', id);
      if StepOf(f, actions[0], id) == [] {
        assert [] + steps == steps;
      } else {
        assert (StepOf(f, actions[0], id) + steps)[1..] == steps;
      }
    }
  }

  lemma {:induction false} ClosedPerJob(f: Fleet, actions: seq<FleetAction>, f': Fleet, id: JobId)
    requires FleetInv(f) && FleetExecution(f, actions, f') && TrimsClosed(f, actions) && id in f'.jobs
    ensures NoTrimInClosingWindow(Start(f, f', id), JobSteps(f, actions, id))
    decreases |actions|
  {
    if actions != [] {
      var f1, rest := FleetApply(f, actions[0]), actions[1..];
      OneStep(f, actions[0], id);
      ClosedPerJob(f1, rest, f', id);
      var steps := JobSteps(f1, rest, id);
      SameStart(f, actions[0], rest, f', id);
      if StepOf(f, actions[0], id) == [] {
        assert [] + steps == steps;
      } else {
        assert (StepOf(f, actions[0], id) + steps)[1..] == steps;
      }
    }
  }

  lemma QuietStart(s: JobState, t: nat, h: SubId)
    requires Inv(s, t) && Finished(s) && s.handlers == map[]
    ensures WindowInv(s, h, false) && s.orphans == {}
  {
    forall g: SubId ensures g !in s.orphans && g !in s.subs { assert RegistryInv(s, g); }
  }

  lemma NewStart(script: seq<Op>, t: nat, h: SubId)
    requires Shape(script, t)
    ensures Inv(InitJob(script), t) && WindowInv(InitJob(script), h, false)
  {
  }

  /** A job starts its run with nobody registered: it is new, or was restored as finished. */
  lemma StartState(f: Fleet, actions: seq<FleetAction>, f': Fleet, id: JobId, h: SubId) returns (t: nat)
    requires InitialFleet(f) && FleetExecution(f, actions, f') && id in f'.jobs
    ensures Inv(Start(f, f', id), t) && WindowInv(Start(f, f', id), h, false) && Start(f, f', id).orphans == {}
    ensures Shape(f'.jobs[id].script, t)
  {
    hide Shape, Inv, WindowInv;
    FleetInvExecution(f, actions, f');
    t :| Shape(f'.jobs[id].script, t);
    if id in f.jobs {
      JobStays(f, actions, f', id);
      ReachableInv(f.jobs[id].script, t, f.jobs[id]);
      QuietStart(f.jobs[id], t, h);
    } else {
      NewStart(f'.jobs[id].script, t, h);
    }
  }

  /**
   * If no StartJob of a run trims a job somebody is registered for, no handler of any job
   * is left waiting on an open channel.
   */
  lemma NobodyStranded(f: Fleet, actions: seq<FleetAction>, f': Fleet, id: JobId, h: SubId)
    requires InitialFleet(f) && FleetExecution(f, actions, f') && id in f'.jobs
    requires TrimsUnwatched(f, actions)
    ensures !Stuck(f'.jobs[id], h)
  {
    var t := StartState(f, actions, f', id, h);
    JobRun(f, actions, f', id);
    UnwatchedPerJob(f, actions, f', id);
    OrphansComeFromTrims(Start(f, f', id), JobSteps(f, actions, id), f'.jobs[id]);
    if Finished(f'.jobs[id]) { AllRunsTerminateStreams(f, actions, f', id, h); }
  }

  /**
   * If no StartJob of a run trims a job between its terminal status and its close, the
   * handlers stranded are exactly those that subscribed after their job's closeJobSubs had
   * taken the subscribers and found the job gone at their status check.
   */
  lemma StrandedOnlyIfLateInFleet(f: Fleet, actions: seq<FleetAction>, f': Fleet, id: JobId, h: SubId)
    requires InitialFleet(f) && FleetExecution(f, actions, f') && id in f'.jobs && Finished(f'.jobs[id])
    requires TrimsClosed(f, actions)
    ensures Stuck(f'.jobs[id], h) <==>
              At(f'.jobs[id], h, Waiting(false)) && SubscribesLate(Start(f, f', id), JobSteps(f, actions, id), h)
  {
    var t := StartState(f, actions, f', id, h);
    JobRun(f, actions, f', id);
    ClosedPerJob(f, actions, f', id);
    StrandedFrom(Start(f, f', id), t, JobSteps(f, actions, id), f'.jobs[id], h);
  }
}
