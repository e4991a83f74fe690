/**
 * Runs of the executor end (ops/backend/executor/executor.go:99-172): given finite output,
 * no run waits for ever, not even for internalExecMu, and every execution is finite.
 */
module ExecutorProgress {
  import opened ExecutorTrace
  import opened Options

  /** The next step of a run that is not waiting for the lock. */
  lemma RunMoves(p: Process, r: nat) returns (a: Action)
    requires r < |p.runs| && RunInv(p.runs[r]) && p.runs[r].pc != ChannelClosed
    requires p.runs[r].kind == Internal && p.runs[r].pc == Announced ==> p.owner == None
    ensures Enabled(p, a) && a.r == r
  {
    var run := p.runs[r];
    if run.pc == Begin {
      a := SendStarted(r, 0);
    } else if run.kind == Internal && run.pc == Announced {
      a := Lock(r);
    } else if run.pc == Holding {
      a := Redirect(r);
    } else if run.pc == Redirected {
      a := Restore(r);
    } else if run.pc == Reported {
      a := if run.kind == Internal then Unlock(r) else CloseChannel(r);
    } else if run.pc == Unlocked {
      a := CloseChannel(r);
    } else if !run.out.done {
      a := if run.out.left == [] then EndReader(r, Stdout, None) else SendLine(r, Stdout);
    } else if !run.err.done {
      a := if run.err.left == [] then EndReader(r, Stderr, None) else SendLine(r, Stderr);
    } else {
      a := SendTerminal(r, Finished(0));
    }
  }

  /** No deadlock: while some run has not closed its channel, some run can move. */
  lemma SomeRunMoves(p: Process, actions: seq<Action>, q: Process, r: nat) returns (a: Action)
    requires Initial(p) && Execution(p, actions, q) && r < |q.runs| && q.runs[r].pc != ChannelClosed
    ensures Enabled(q, a)
  {
    InvInitial(p);
    InvExecution(p, actions, q);
    if q.runs[r].kind == Internal && q.runs[r].pc == Announced && q.owner.Some? {
      a := RunMoves(q, q.owner.value);
    } else {
      a := RunMoves(q, r);
    }
  }

  function PcRank(pc: Pc): nat
  {
    match pc
    case Begin => 7
    case Announced => 6
    case Holding => 5
    case Redirected => 4
    case Restored => 3
    case Reported => 2
    case Unlocked => 1
    case ChannelClosed => 0
  }

  function ReaderWork(reader: Reader): nat
  {
    |reader.left| + if reader.done then 0 else 1
  }

  /** What a run has left to do. */
  function RunWork(run: Run): nat
  {
    PcRank(run.pc) + ReaderWork(run.out) + ReaderWork(run.err)
  }

  function Work(runs: seq<Run>): nat
  {
    if runs == [] then 0 else RunWork(runs[0]) + Work(runs[1..])
  }

  lemma {:induction false} WorkUpdate(runs: seq<Run>, r: nat, run: Run)
    requires r < |runs|
    ensures Work(runs[r := run]) + RunWork(runs[r]) == Work(runs) + RunWork(run)
  {
    if r == 0 {
      assert runs[0 := run][1..] == runs[1..];
    } else {
      WorkUpdate(runs[1..], r - 1, run);
      assert runs[r := run][1..] == runs[1..][r - 1 := run];
    }
  }

  lemma StepWorks(p: Process, a: Action)
    requires Enabled(p, a)
    ensures RunWork(Apply(p, a).runs[a.r]) < RunWork(p.runs[a.r])
    ensures Apply(p, a).runs == p.runs[a.r := Apply(p, a).runs[a.r]]
  {
  }

  /** Every execution is bounded by the output there is to read and eight steps and two ends of readers a run. */
  lemma {:induction false} ExecutionsEnd(p: Process, actions: seq<Action>, q: Process)
    requires Execution(p, actions, q)
    ensures |actions| + Work(q.runs) <= Work(p.runs)
    decreases |actions|
  {
    if actions != [] {
      var p1 := Apply(p, actions[0]);
      StepWorks(p, actions[0]);
      WorkUpdate(p.runs, actions[0].r, p1.runs[actions[0].r]);
      ExecutionsEnd(p1, actions[1..], q);
    }
  }
}
