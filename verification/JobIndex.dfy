/**
 * The scheduler's job index and trimJobsLocked
 * (ops/backend/scheduler/scheduler.go:462-480) as functions on values.
 */
module JobIndex {
  import opened JobScript

  type JobId = string

  datatype Index = Index(status: map<JobId, Status>, jobList: seq<JobId>)

  predicate Active(status: Status)
  {
    status.Queued? || status.Running?
  }

  predicate NoDup(ids: seq<JobId>)
  {
    forall i, j :: 0 <= i < j < |ids| ==> ids[i] != ids[j]
  }

  /** The list names every indexed job exactly once. */
  ghost predicate WellFormed(index: Index)
  {
    && NoDup(index.jobList)
    && forall id :: id in index.jobList <==> id in index.status
  }

  /** How many entries the trimming loop takes off the front of the list. */
  function TrimCount(index: Index, maxJobs: int): (n: nat)
    ensures n <= |index.jobList|
    decreases |index.jobList|
  {
    if maxJobs <= 0 || |index.jobList| <= maxJobs then 0
    else
      var oldest := index.jobList[0];
      if oldest !in index.status then 1 + TrimCount(index.(jobList := index.jobList[1..]), maxJobs)
      else if Active(index.status[oldest]) then 0
      else 1 + TrimCount(Index(index.status - {oldest}, index.jobList[1..]), maxJobs)
  }

  function ToSet(ids: seq<JobId>): set<JobId>
  {
    set id | id in ids
  }

  function Trimmed(index: Index, maxJobs: int): Index
  {
    var n := TrimCount(index, maxJobs);
    Index(index.status - ToSet(index.jobList[..n]), index.jobList[n..])
  }

  /** The jobs trimming takes out. */
  function Gone(index: Index, maxJobs: int): set<JobId>
  {
    ToSet(index.jobList[..TrimCount(index, maxJobs)])
  }

  function Rest(index: Index): Index
    requires index.jobList != []
  {
    Index(index.status - {index.jobList[0]}, index.jobList[1..])
  }

  lemma ToSetCons(head: JobId, tail: seq<JobId>)
    ensures ToSet([head] + tail) == {head} + ToSet(tail)
  {
  }

  lemma DropBoth(status: map<JobId, Status>, a: set<JobId>, b: set<JobId>)
    ensures (status - a) - b == status - (a + b)
  {
  }

  /** One turn of the loop. */
  lemma {:induction false} TrimTurn(index: Index, maxJobs: int)
    requires WellFormed(index) && TrimCount(index, maxJobs) > 0
    ensures maxJobs > 0 && |index.jobList| > maxJobs
    ensures index.jobList[0] in index.status && !Active(index.status[index.jobList[0]])
    ensures TrimCount(index, maxJobs) == 1 + TrimCount(Rest(index), maxJobs)
    ensures Trimmed(index, maxJobs) == Trimmed(Rest(index), maxJobs)
  {
    assert index.jobList[0] in index.jobList;
    var n := TrimCount(index, maxJobs);
    var oldest, kept := index.jobList[0], Rest(index).jobList[..n - 1];
    assert index.jobList[..n] == [oldest] + kept;
    ToSetCons(oldest, kept);
    DropBoth(index.status, {oldest}, ToSet(kept));
  }

  /** Where the loop may stop. */
  ghost predicate Stops(after: Index, maxJobs: int)
  {
    maxJobs > 0 && |after.jobList| > maxJobs ==>
      after.jobList[0] in after.status && Active(after.status[after.jobList[0]])
  }

  lemma {:induction false} TrimmedStops(index: Index, maxJobs: int)
    requires WellFormed(index)
    ensures WellFormed(Trimmed(index, maxJobs)) && Stops(Trimmed(index, maxJobs), maxJobs)
    decreases |index.jobList|
  {
    if TrimCount(index, maxJobs) > 0 {
      TrimTurn(index, maxJobs);
      RestWellFormed(index);
      TrimmedStops(Rest(index), maxJobs);
    } else {
      NothingTrimmed(index, maxJobs);
    }
  }

  lemma {:induction false} TrimmedWereFinished(index: Index, maxJobs: int, i: nat)
    requires WellFormed(index) && i < TrimCount(index, maxJobs)
    ensures index.jobList[i] in index.status && !Active(index.status[index.jobList[i]])
    ensures |index.jobList| - i > maxJobs > 0
    decreases |index.jobList|
  {
    TrimTurn(index, maxJobs);
    if i > 0 {
      var rest := Rest(index);
      RestWellFormed(index);
      assert rest.jobList[i - 1] == index.jobList[i];
      TrimmedWereFinished(rest, maxJobs, i - 1);
    }
  }

  /**
   * Trimming removes a prefix of finished jobs, each while the list was over its limit;
   * it keeps list and map in step, and stops only at the limit or at an active job.
   */
  lemma {:induction false} TrimmedMeaning(index: Index, maxJobs: int)
    requires WellFormed(index)
    ensures WellFormed(Trimmed(index, maxJobs)) && Stops(Trimmed(index, maxJobs), maxJobs)
    ensures forall i :: 0 <= i < TrimCount(index, maxJobs) ==>
              && index.jobList[i] in index.status && !Active(index.status[index.jobList[i]])
              && |index.jobList| - i > maxJobs > 0
  {
    TrimmedStops(index, maxJobs);
    forall i | 0 <= i < TrimCount(index, maxJobs)
      ensures index.jobList[i] in index.status && !Active(index.status[index.jobList[i]]) && |index.jobList| - i > maxJobs > 0
    {
      TrimmedWereFinished(index, maxJobs, i);
    }
  }

  /** An active job keeps its place in the index. */
  lemma TrimKeepsActive(index: Index, maxJobs: int, id: JobId)
    requires WellFormed(index) && id in index.status && Active(index.status[id])
    ensures id in Trimmed(index, maxJobs).status && Trimmed(index, maxJobs).status[id] == index.status[id]
    ensures id in Trimmed(index, maxJobs).jobList
  {
    TrimmedMeaning(index, maxJobs);
    assert forall i :: 0 <= i < TrimCount(index, maxJobs) ==> index.jobList[i] != id;
  }

  lemma NothingTrimmed(index: Index, maxJobs: int)
    requires WellFormed(index) && TrimCount(index, maxJobs) == 0
    ensures Trimmed(index, maxJobs) == index
    ensures maxJobs > 0 && |index.jobList| > maxJobs ==>
              index.jobList[0] in index.status && Active(index.status[index.jobList[0]])
  {
    if |index.jobList| > 0 { assert index.jobList[0] in index.jobList; }
    assert ToSet(index.jobList[..0]) == {};
    assert Trimmed(index, maxJobs).status == index.status;
  }

  lemma RestWellFormed(index: Index)
    requires WellFormed(index) && index.jobList != []
    ensures WellFormed(Rest(index))
  {
    var rest := index.jobList[1..];
    forall id ensures id in rest <==> id in index.status && id != index.jobList[0] {
      assert index.jobList == [index.jobList[0]] + rest;
      if id in rest {
        var i :| 0 <= i < |rest| && rest[i] == id;
        assert index.jobList[i + 1] == id;
      }
    }
  }

  /** StartJob's critical section: index the new job, then trim. */
  function Registered(index: Index, id: JobId): Index
  {
    Index(index.status[id := Queued], index.jobList + [id])
  }

  lemma RegisteredWellFormed(index: Index, id: JobId)
    requires WellFormed(index) && id !in index.status
    ensures WellFormed(Registered(index, id))
  {
  }

  /** The job StartJob adds is queued, so its own trimming leaves it. */
  lemma NewJobStays(index: Index, id: JobId, maxJobs: int)
    requires WellFormed(index) && id !in index.status
    ensures WellFormed(Registered(index, id)) && id !in Gone(Registered(index, id), maxJobs)
  {
    RegisteredWellFormed(index, id);
    TrimKeepsActive(Registered(index, id), maxJobs, id);
  }
}
