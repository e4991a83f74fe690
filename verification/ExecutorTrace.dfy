/**
 * ops/backend/executor/executor.go: the event channel one run produces, and the
 * process-wide stdout/stderr redirection of the "internal" tasks.
 *
 * Every goroutine of a run is a component of `Run`; a step is one channel send,
 * one lock operation or one assignment to os.Stdout/os.Stderr.
 */
module ExecutorTrace {
  import opened Options

  datatype Source = Stdout | Stderr

  datatype Event =
    | Started(pid: int)
    | LogLine(source: Source, line: string)
    | Finished(exitCode: int)
    | Failed(exitCode: int, err: Option<string>)
  {
    predicate Terminal() { Finished? || Failed? }
  }

  /** The shape every consumer of the channel may rely on. */
  ghost predicate ValidTrace(trace: seq<Event>)
  {
    && 2 <= |trace|
    && trace[0].Started?
    && trace[|trace| - 1].Terminal()
    && forall i :: 0 < i < |trace| - 1 ==> trace[i].LogLine?
  }

  /** The lines one source contributed to a trace, in channel order. */
  function LinesOf(trace: seq<Event>, source: Source): (lines: seq<string>)
  {
    if trace == [] then []
    else
      var last := trace[|trace| - 1];
      LinesOf(trace[..|trace| - 1], source) +
      (if last.LogLine? && last.source == source then [last.line] else [])
  }

  /** pipeStream: `sent` is what it put on the channel, `left` what the pipe still holds. */
  datatype Reader = Reader(sent: seq<string>, left: seq<string>, scanErr: Option<string>, done: bool)

  datatype Kind = External | Internal

  /** Where the goroutine that owns a run is. `Holding` to `Restored` run under internalExecMu. */
  datatype Pc = Begin | Announced | Holding | Redirected | Restored | Reported | Unlocked | ChannelClosed

  datatype Run = Run(kind: Kind, pc: Pc, out: Reader, err: Reader, savedOut: int, savedErr: int, trace: seq<Event>)

  /** Handle numbers: the process's own streams, and the pipe writers a run installs. */
  const ORIGINAL_OUT := -1
  const ORIGINAL_ERR := -2

  /** All runs of the process, the lock's owner and the two global stream variables. */
  datatype Process = Process(runs: seq<Run>, owner: Option<nat>, stdout: int, stderr: int)

  datatype Action =
    | SendStarted(r: nat, pid: int)
    | Lock(r: nat)
    | Redirect(r: nat)
    | SendLine(r: nat, source: Source)
    | EndReader(r: nat, source: Source, scanErr: Option<string>)
    | Restore(r: nat)
    | SendTerminal(r: nat, event: Event)
    | Unlock(r: nat)
    | CloseChannel(r: nat)

  function InitRun(kind: Kind, outLines: seq<string>, errLines: seq<string>): Run
  {
    Run(kind, Begin, Reader([], outLines, None, false), Reader([], errLines, None, false), 0, 0, [])
  }

  function PipeOf(run: Run, source: Source): Reader
  {
    if source == Stdout then run.out else run.err
  }

  function WithPipe(run: Run, source: Source, reader: Reader): Run
  {
    if source == Stdout then run.(out := reader) else run.(err := reader)
  }

  /** Readers of an external command start at once; those of an internal task after the redirect. */
  predicate Reading(run: Run)
  {
    match run.kind
    case External => run.pc == Announced
    case Internal => run.pc == Redirected || run.pc == Restored
  }

  predicate Enabled(p: Process, a: Action)
  {
    && a.r < |p.runs|
    && var run := p.runs[a.r];
       match a
       case SendStarted(_, _) => run.pc == Begin
       case Lock(_) => run.kind == Internal && run.pc == Announced && p.owner == None
       case Redirect(_) => run.pc == Holding
       case SendLine(_, src) => Reading(run) && !PipeOf(run, src).done && PipeOf(run, src).left != []
       case EndReader(_, src, scanErr) =>
         && Reading(run) && !PipeOf(run, src).done
         // an internal task's writer is closed by the run itself, so its reader drains the pipe;
         // cmd.Wait closes an external command's pipe and may cut its reader short
         && (run.kind == Internal ==> PipeOf(run, src).left == [] && run.pc == Restored && scanErr == None)
       case Restore(_) => run.pc == Redirected
       case SendTerminal(_, event) =>
         && event.Terminal()
         && (event.Failed? ==> event.err.Some?)
         && (run.kind == Internal ==> event.exitCode == (if event.Failed? then 1 else 0))
         && run.out.done && run.err.done
         && run.pc == (if run.kind == External then Announced else Restored)
       case Unlock(_) => run.kind == Internal && run.pc == Reported
       case CloseChannel(_) => run.pc == (if run.kind == External then Reported else Unlocked)
  }

  function Apply(p: Process, a: Action): Process
    requires Enabled(p, a)
  {
    var run := p.runs[a.r];
    match a
    case SendStarted(r, pid) =>
      p.(runs := p.runs[r := run.(pc := Announced, trace := run.trace + [Started(pid)])])
    case Lock(r) =>
      p.(runs := p.runs[r := run.(pc := Holding)], owner := Some(r))
    case Redirect(r) =>
      p.(runs := p.runs[r := run.(pc := Redirected, savedOut := p.stdout, savedErr := p.stderr)],
         stdout := 2 * r, stderr := 2 * r + 1)
    case SendLine(r, src) =>
      var reader := PipeOf(run, src);
      var line := reader.left[0];
      var reader' := reader.(sent := reader.sent + [line], left := reader.left[1..]);
      p.(runs := p.runs[r := WithPipe(run, src, reader').(trace := run.trace + [LogLine(src, line)])])
    case EndReader(r, src, scanErr) =>
      var reader := PipeOf(run, src).(scanErr := scanErr, done := true);
      var trace := if scanErr.Some? then run.trace + [LogLine(src, scanErr.value)] else run.trace;
      p.(runs := p.runs[r := WithPipe(run, src, reader).(trace := trace)])
    case Restore(r) =>
      p.(runs := p.runs[r := run.(pc := Restored)], stdout := run.savedOut, stderr := run.savedErr)
    case SendTerminal(r, event) =>
      p.(runs := p.runs[r := run.(pc := Reported, trace := run.trace + [event])])
    case Unlock(r) =>
      p.(runs := p.runs[r := run.(pc := Unlocked)], owner := None)
    case CloseChannel(r) =>
      p.(runs := p.runs[r := run.(pc := ChannelClosed)])
  }

  /** What pipeStream put on the channel: the lines it read, then possibly one scanner error line. */
  function Output(reader: Reader): seq<string>
  {
    reader.sent + (if reader.scanErr.Some? then [reader.scanErr.value] else [])
  }

  predicate UnderLock(pc: Pc)
  {
    pc == Holding || pc == Redirected || pc == Restored
  }

  predicate HasReported(pc: Pc)
  {
    pc == Reported || pc == Unlocked || pc == ChannelClosed
  }

  ghost predicate RunInv(run: Run)
  {
    && (run.pc == Begin ==> run.trace == [] && !run.out.done && !run.err.done)
    && (run.pc != Begin ==> run.trace != [] && run.trace[0].Started?)
    && (HasReported(run.pc) ==>
          && 2 <= |run.trace| && run.trace[|run.trace| - 1].Terminal()
          && run.out.done && run.err.done)
    && (forall i :: 0 < i < (if HasReported(run.pc) then |run.trace| - 1 else |run.trace|) ==> run.trace[i].LogLine?)
    && LinesOf(run.trace, Stdout) == Output(run.out)
    && LinesOf(run.trace, Stderr) == Output(run.err)
    && (!run.out.done ==> run.out.scanErr == None) && (!run.err.done ==> run.err.scanErr == None)
    && (run.kind == External ==> !UnderLock(run.pc) && run.pc != Unlocked)
    && (run.kind == Internal ==>
          && (run.out.done ==> run.out.left == [] && run.out.scanErr == None)
          && (run.err.done ==> run.err.left == [] && run.err.scanErr == None))
  }

  ghost predicate LockInv(p: Process)
  {
    // the lock is held exactly by the run between Lock and Unlock
    && (p.owner.Some? ==> p.owner.value < |p.runs| && p.runs[p.owner.value].kind == Internal)
    && (forall r :: 0 <= r < |p.runs| && p.runs[r].kind == Internal ==>
          ((UnderLock(p.runs[r].pc) || p.runs[r].pc == Reported) <==> p.owner == Some(r)))
    // the streams are replaced exactly while the owner is redirected
    && (p.owner.Some? && p.runs[p.owner.value].pc == Redirected ==>
          && p.stdout == 2 * p.owner.value && p.stderr == 2 * p.owner.value + 1
          && p.runs[p.owner.value].savedOut == ORIGINAL_OUT && p.runs[p.owner.value].savedErr == ORIGINAL_ERR)
    && (!(p.owner.Some? && p.runs[p.owner.value].pc == Redirected) ==>
          p.stdout == ORIGINAL_OUT && p.stderr == ORIGINAL_ERR)
  }

  ghost predicate Inv(p: Process)
  {
    && (forall r :: 0 <= r < |p.runs| ==> RunInv(p.runs[r]))
    && LockInv(p)
  }

  predicate Initial(p: Process)
  {
    && p.owner == None && p.stdout == ORIGINAL_OUT && p.stderr == ORIGINAL_ERR
    && forall r :: 0 <= r < |p.runs| ==>
         p.runs[r] == InitRun(p.runs[r].kind, p.runs[r].out.left, p.runs[r].err.left)
  }

  lemma LinesOfSnoc(trace: seq<Event>, event: Event, source: Source)
    ensures LinesOf(trace + [event], source) ==
            LinesOf(trace, source) + (if event.LogLine? && event.source == source then [event.line] else [])
  {
    assert (trace + [event])[..|trace|] == trace;
  }

  /** Sending one more event keeps the per-source projections in step with the readers. */
  lemma SendKeepsShape(run: Run, run': Run, event: Event)
    requires RunInv(run) && !HasReported(run.pc)
    requires run'.trace == run.trace + [event] && run'.kind == run.kind
    requires if run.pc == Begin then event.Started? && run'.pc == Announced && run'.out == run.out && run'.err == run.err
             else if event.Terminal() then run'.pc == Reported && run'.out == run.out && run'.err == run.err
                                           && run.out.done && run.err.done
             else event.LogLine? && run'.pc == run.pc
    requires event.LogLine? && event.source == Stdout ==>
               run'.err == run.err && Output(run'.out) == Output(run.out) + [event.line]
    requires event.LogLine? && event.source == Stderr ==>
               run'.out == run.out && Output(run'.err) == Output(run.err) + [event.line]
    requires (!run'.out.done ==> run'.out.scanErr == None) && (!run'.err.done ==> run'.err.scanErr == None)
    requires run'.kind == Internal ==>
               && (run'.out.done ==> run'.out.left == [] && run'.out.scanErr == None)
               && (run'.err.done ==> run'.err.left == [] && run'.err.scanErr == None)
    ensures RunInv(run')
  {
    LinesOfSnoc(run.trace, event, Stdout);
    LinesOfSnoc(run.trace, event, Stderr);
  }

  lemma SendLineStep(p: Process, a: Action)
    requires a.SendLine? && Enabled(p, a) && RunInv(p.runs[a.r])
    ensures RunInv(Apply(p, a).runs[a.r])
  {
    var run := p.runs[a.r];
    SendKeepsShape(run, Apply(p, a).runs[a.r], LogLine(a.source, PipeOf(run, a.source).left[0]));
  }

  lemma EndReaderStep(p: Process, a: Action)
    requires a.EndReader? && Enabled(p, a) && RunInv(p.runs[a.r])
    ensures RunInv(Apply(p, a).runs[a.r])
  {
    var run := p.runs[a.r];
    if a.scanErr.Some? {
      SendKeepsShape(run, Apply(p, a).runs[a.r], LogLine(a.source, a.scanErr.value));
    }
  }

  lemma OwnerStep(p: Process, a: Action)
    requires Enabled(p, a) && !a.SendLine? && !a.EndReader? && RunInv(p.runs[a.r])
    ensures RunInv(Apply(p, a).runs[a.r])
  {
    var run := p.runs[a.r];
    var run' := Apply(p, a).runs[a.r];
    if a.SendStarted? {
      SendKeepsShape(run, run', Started(a.pid));
    } else if a.SendTerminal? {
      SendKeepsShape(run, run', a.event);
    }
  }

  lemma LockStep(p: Process, a: Action)
    requires LockInv(p) && Enabled(p, a) && !a.SendLine? && !a.EndReader?
    requires p.runs[a.r].kind == External ==> !UnderLock(p.runs[a.r].pc)
    ensures LockInv(Apply(p, a))
  {
  }

  /** Sending lines touches neither the lock nor the streams. */
  lemma LineStepKeepsLock(p: Process, a: Action)
    requires LockInv(p) && Enabled(p, a) && (a.SendLine? || a.EndReader?)
    ensures LockInv(Apply(p, a))
  {
    var q := Apply(p, a);
    var run, run' := p.runs[a.r], q.runs[a.r];
    assert run'.pc == run.pc && run'.kind == run.kind && run'.savedOut == run.savedOut && run'.savedErr == run.savedErr;
    assert forall r :: 0 <= r < |p.runs| ==> q.runs[r].pc == p.runs[r].pc && q.runs[r].kind == p.runs[r].kind;
  }

  lemma InvStep(p: Process, a: Action)
    requires Inv(p) && Enabled(p, a)
    ensures Inv(Apply(p, a))
  {
    assert RunInv(p.runs[a.r]);
    if a.SendLine? || a.EndReader? {
      if a.SendLine? { SendLineStep(p, a); } else { EndReaderStep(p, a); }
      LineStepKeepsLock(p, a);
    } else {
      OwnerStep(p, a);
      LockStep(p, a);
    }
    var q := Apply(p, a);
    forall r | 0 <= r < |q.runs| ensures RunInv(q.runs[r]) {
      if r != a.r { assert q.runs[r] == p.runs[r]; }
    }
  }

  /** A run of the process: every action enabled where it is taken. */
  ghost predicate Execution(p: Process, actions: seq<Action>, q: Process)
    decreases |actions|
  {
    if actions == [] then p == q
    else Enabled(p, actions[0]) && Execution(Apply(p, actions[0]), actions[1..], q)
  }

  lemma {:induction false} InvExecution(p: Process, actions: seq<Action>, q: Process)
    requires Inv(p) && Execution(p, actions, q)
    ensures Inv(q)
    decreases |actions|
  {
    if actions != [] {
      InvStep(p, actions[0]);
      InvExecution(Apply(p, actions[0]), actions[1..], q);
    }
  }

  lemma InvInitial(p: Process)
    requires Initial(p)
    ensures Inv(p)
  {
    forall r | 0 <= r < |p.runs| ensures RunInv(p.runs[r]) {
      assert p.runs[r] == InitRun(p.runs[r].kind, p.runs[r].out.left, p.runs[r].err.left);
    }
  }

  /**
   * Main result: in every execution, a closed channel carried Started, then an
   * interleaving of the two streams' lines in their own orders, then exactly one
   * terminal event. An internal task's streams are delivered in full.
   */
  lemma ClosedChannelTrace(p: Process, actions: seq<Action>, q: Process, r: nat)
    requires Initial(p) && Execution(p, actions, q)
    requires r < |q.runs| && q.runs[r].pc == ChannelClosed
    ensures ValidTrace(q.runs[r].trace)
    ensures LinesOf(q.runs[r].trace, Stdout) == Output(q.runs[r].out)
    ensures LinesOf(q.runs[r].trace, Stderr) == Output(q.runs[r].err)
    ensures r < |p.runs|
    ensures q.runs[r].kind == Internal ==>
              LinesOf(q.runs[r].trace, Stdout) == p.runs[r].out.left && LinesOf(q.runs[r].trace, Stderr) == p.runs[r].err.left
  {
    InvInitial(p);
    InvExecution(p, actions, q);
    PipesConserved(p, actions, q, r);
  }

  /** What a reader sent and what its pipe still holds always make up the process's output. */
  lemma {:induction false} PipesConserved(p: Process, actions: seq<Action>, q: Process, r: nat)
    requires Execution(p, actions, q) && r < |q.runs|
    ensures r < |p.runs| && p.runs[r].kind == q.runs[r].kind
    ensures q.runs[r].out.sent + q.runs[r].out.left == p.runs[r].out.sent + p.runs[r].out.left
    ensures q.runs[r].err.sent + q.runs[r].err.left == p.runs[r].err.sent + p.runs[r].err.left
    decreases |actions|
  {
    if actions != [] {
      PipesConserved(Apply(p, actions[0]), actions[1..], q, r);
      var a := actions[0];
      if a.SendLine? && a.r == r {
        var reader := PipeOf(p.runs[r], a.source);
        assert reader.left == [reader.left[0]] + reader.left[1..];
        assert reader.sent + [reader.left[0]] + reader.left[1..] == reader.sent + reader.left;
      }
    }
  }

  /** Main result: whenever internalExecMu is free, os.Stdout and os.Stderr are the process's own. */
  lemma StreamsOriginalWhenUnlocked(p: Process, actions: seq<Action>, q: Process)
    requires Initial(p) && Execution(p, actions, q)
    ensures q.owner == None ==> q.stdout == ORIGINAL_OUT && q.stderr == ORIGINAL_ERR
    ensures q.owner.Some? ==> q.owner.value < |q.runs|
    ensures q.stdout != ORIGINAL_OUT ==>
              q.owner.Some? && q.stdout == 2 * q.owner.value && q.stderr == 2 * q.owner.value + 1
  {
    InvInitial(p);
    InvExecution(p, actions, q);
  }
}
