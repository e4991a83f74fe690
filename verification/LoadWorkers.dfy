/**
 * How much the two load generators do at once (ops/executor/scenario.go:69-88, 103-195):
 * the number of workers, that all of them can be busy, and who may have to wait for whom.
 */
module LoadWorkers {
  import opened LoadGen

  /** In every state there are Concurrency workers; a closed run has no more than it has requests. */
  lemma WorkersFixed(c: Config, s: State)
    requires ValidConfig(c) && Reachable(c, s)
    ensures c.mode == OpenModel ==> |s.workers| == c.concurrency
    ensures c.mode == ClosedModel ==>
              |s.workers| == (if c.concurrency < 0 then 0 else if c.concurrency < c.requests then c.concurrency else c.requests)
  {
    ReachableInv(c, s);
  }

  lemma {:induction false} ExecutionSnoc(s: State, actions: seq<Action>, s': State, a: Action)
    requires Execution(s, actions, s') && Enabled(s', a)
    ensures Execution(s, actions + [a], Apply(s', a))
    decreases |actions|
  {
    if actions == [] {
      assert Execution(Apply(s, a), [], Apply(s', a));
      assert [a][1..] == [];
    } else {
      ExecutionSnoc(Apply(s, actions[0]), actions[1..], s', a);
      assert (actions + [a])[1..] == actions[1..] + [a];
    }
  }

  lemma ReachStep(c: Config, s: State, a: Action) returns (s': State)
    requires Reachable(c, s) && Enabled(s, a)
    ensures s' == Apply(s, a) && Reachable(c, s')
  {
    var actions :| Execution(Init(c), actions, s);
    ExecutionSnoc(Init(c), actions, s, a);
    s' := Apply(s, a);
  }

  /** The producer sends the first n indices before any worker takes one. */
  lemma {:induction false} SendFirst(c: Config, n: nat) returns (s: State)
    requires ValidConfig(c) && n <= JobsCap(c) && (c.mode == ClosedModel ==> n <= c.requests)
    ensures Reachable(c, s) && s.config == c && s.pc == Producing
    ensures |s.jobs| == s.sent == n && s.workers == Init(c).workers
  {
    if n == 0 {
      s := Init(c);
      assert Execution(Init(c), [], s);
    } else {
      s := SendFirst(c, n - 1);
      s := ReachStep(c, s, SendJob);
    }
  }

  predicate FirstBusy(workers: seq<Worker>, n: nat)
  {
    n <= |workers| && forall w :: 0 <= w < |workers| ==> (if w < n then workers[w].Executing? else workers[w] == Idle)
  }

  /** Then the first n workers take one each. */
  lemma {:induction false} TakeFirst(c: Config, all: nat, n: nat) returns (s: State)
    requires ValidConfig(c) && n <= all <= JobsCap(c) && (c.mode == ClosedModel ==> all <= c.requests)
    requires n <= |Init(c).workers|
    ensures Reachable(c, s) && |s.workers| == |Init(c).workers| && |s.jobs| == all - n && FirstBusy(s.workers, n)
  {
    if n == 0 {
      s := SendFirst(c, all);
    } else {
      s := TakeFirst(c, all, n - 1);
      s := ReachStep(c, s, Take(n - 1));
    }
  }

  lemma {:induction false} AllBusy(workers: seq<Worker>)
    requires forall w :: 0 <= w < |workers| ==> workers[w].Executing?
    ensures Busy(workers) == |workers|
  {
    if workers != [] { AllBusy(workers[1..]); }
  }

  /** All workers can be busy at the same time: the load is as concurrent as configured. */
  lemma FullConcurrency(c: Config) returns (s: State)
    requires ValidConfig(c)
    ensures Reachable(c, s)
    ensures c.mode == OpenModel ==> Busy(s.workers) == c.concurrency
    ensures c.mode == ClosedModel ==>
              Busy(s.workers) == (if c.concurrency < 0 then 0 else if c.concurrency < c.requests then c.concurrency else c.requests)
  {
    var n := |Init(c).workers|;
    s := TakeFirst(c, n, n);
    AllBusy(s.workers);
    WorkersFixed(c, s);
  }

  /** The closed model's channels hold all requests: neither its producer nor a worker ever waits for room. */
  lemma ClosedNeverBlocks(c: Config, s: State, w: nat)
    requires c.mode == ClosedModel && Reachable(c, s)
    ensures s.pc == Producing && s.sent < c.requests ==> Enabled(s, SendJob)
    ensures w < |s.workers| && s.workers[w].Executing? ==> Enabled(s, SendResult(w))
  {
    ReachableInv(c, s);
    if w < |s.workers| && s.workers[w].Executing? { SomeoneBusy(s.workers, w); }
  }

  lemma {:induction false} SomeoneBusy(workers: seq<Worker>, w: nat)
    requires w < |workers| && workers[w].Executing?
    ensures Busy(workers) >= 1
  {
    if w > 0 { SomeoneBusy(workers[1..], w - 1); }
  }

  /** The open model's results wait in a channel of four times Concurrency slots, between 128 and 8192. */
  lemma OpenResultRoom(c: Config, s: State, w: nat)
    requires ValidConfig(c) && c.mode == OpenModel && Reachable(c, s)
    ensures var cap := if 4 * c.concurrency < 128 then 128 else if 4 * c.concurrency > 8192 then 8192 else 4 * c.concurrency;
            && (Enabled(s, SendDrop) <==> s.pc.OfferingDrop? && |s.out| < cap)
            && (Enabled(s, SendResult(w)) <==> w < |s.workers| && s.workers[w].Executing? && |s.out| < cap)
  {
    ReachableInv(c, s);
  }

  // ------------------------------------------------------------ first in, first out

  predicate InOrder(jobs: seq<nat>, sent: nat)
  {
    (forall i, j :: 0 <= i < j < |jobs| ==> jobs[i] < jobs[j]) && forall i :: 0 <= i < |jobs| ==> jobs[i] < sent
  }

  lemma {:induction false} JobsInOrder(s: State, actions: seq<Action>, s': State)
    requires InOrder(s.jobs, s.sent) && Execution(s, actions, s')
    ensures InOrder(s'.jobs, s'.sent)
    decreases |actions|
  {
    if actions != [] { JobsInOrder(Apply(s, actions[0]), actions[1..], s'); }
  }

  /** A worker that takes a job gets the oldest one queued. */
  lemma OldestFirst(c: Config, s: State, w: nat)
    requires Reachable(c, s) && Enabled(s, Take(w))
    ensures var s' := Apply(s, Take(w));
            && s'.workers[w].Executing? && s'.workers[w].idx in s.jobs
            && forall i :: 0 <= i < |s'.jobs| ==> s'.workers[w].idx < s'.jobs[i]
  {
    var actions :| Execution(Init(c), actions, s);
    JobsInOrder(Init(c), actions, s);
  }

  /** Results are collected in the order they were offered. */
  lemma ResultsInOrder(s: State, a: Action)
    requires Enabled(s, a)
    ensures s.results + s.out <= Apply(s, a).results + Apply(s, a).out
    ensures s.results <= Apply(s, a).results
  {
  }
}
