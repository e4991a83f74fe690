/**
 * From the process to the browser: every line of a run's output is in the job's script,
 * and so in the log snapshot of every stream handler or offered on its channel
 * (ops/backend/executor/executor.go:192-202, ops/backend/scheduler/scheduler.go:282-366,
 * ops/backend/api/task_handler.go:99-147).
 */
module LiveOutput {
  import ET = ExecutorTrace
  import opened Channels
  import opened JobScript
  import opened Stream

  // ------------------------------------------------------------ from the trace to the script

  /** One tagged append for each line, in the lines' order, and each followed by its message. */
  ghost predicate LinesAt(ops: seq<Op>, lines: seq<ET.Event>, at: seq<nat>)
  {
    && |at| == |lines|
    && (forall k, l :: 0 <= k < l < |at| ==> at[k] < at[l])
    && (forall k :: 0 <= k < |at| ==> at[k] + 1 < |ops| && ops[at[k]] == Append(true) && ops[at[k] + 1] == Emit(LineMsg))
  }

  /** Just before the append of a line, its point is published if and only if the line parses as a report. */
  ghost predicate PointsAt(ops: seq<Op>, lines: seq<ET.Event>, at: seq<nat>, isPerf: string -> bool)
    requires |at| == |lines|
  {
    forall k :: 0 <= k < |at| ==>
      (0 < at[k] <= |ops| && ops[at[k] - 1] == Emit(PerfMsg)
       <==> && lines[k].LogLine? && lines[k].source == ET.Stdout && lines[k].line != "" && lines[k].line[0] == '{'
            && isPerf(lines[k].line))
  }

  /** There are no other tagged appends, line messages or points. */
  ghost predicate NothingElse(ops: seq<Op>, at: seq<nat>)
  {
    && (forall j :: 0 <= j < |ops| && ops[j] == Append(true) ==> j in at)
    && (forall j :: 0 <= j < |ops| && ops[j] == Emit(LineMsg) ==> j > 0 && j - 1 in at)
    && (forall j :: 0 <= j < |ops| && ops[j] == Emit(PerfMsg) ==> j + 1 in at)
  }

  ghost predicate CarriesLines(ops: seq<Op>, lines: seq<ET.Event>, at: seq<nat>, isPerf: string -> bool)
  {
    LinesAt(ops, lines, at) && PointsAt(ops, lines, at, isPerf) && NothingElse(ops, at)
  }

  predicate LineOp(op: Op)
  {
    op == Append(true) || op == Emit(LineMsg) || op == Emit(PerfMsg)
  }

  /** What every started job does before its first line. */
  const PROLOGUE := [Append(false), SetStatus(Running), Append(false), Append(false), Guard(1), Emit(StateMsg)]

  lemma LinesNext(ops: seq<Op>, lines: seq<ET.Event>, at: seq<nat>, line: ET.Event, extra: seq<Op>)
    requires LinesAt(ops, lines, at)
    requires |extra| >= 2 && extra[|extra| - 2] == Append(true) && extra[|extra| - 1] == Emit(LineMsg)
    ensures LinesAt(ops + extra, lines + [line], at + [|ops| + |extra| - 2])
  {
  }

  lemma PointsNext(ops: seq<Op>, lines: seq<ET.Event>, at: seq<nat>, isPerf: string -> bool, line: ET.Event)
    requires LinesAt(ops, lines, at) && PointsAt(ops, lines, at, isPerf) && NothingElse(ops, at) && line.LogLine?
    ensures PointsAt(ops + HandlerOps(line, isPerf), lines + [line],
                     at + [|ops| + |HandlerOps(line, isPerf)| - 2], isPerf)
  {
    var extra := HandlerOps(line, isPerf);
    assert extra == [Append(true), Emit(LineMsg)] || extra == [Emit(PerfMsg), Append(true), Emit(LineMsg)];
    assert |ops| > 0 && ops[|ops| - 1] == Emit(PerfMsg) ==> |ops| in at;
  }

  lemma NothingElseNext(ops: seq<Op>, at: seq<nat>, extra: seq<Op>)
    requires NothingElse(ops, at)
    requires extra == [Append(true), Emit(LineMsg)] || extra == [Emit(PerfMsg), Append(true), Emit(LineMsg)]
    ensures NothingElse(ops + extra, at + [|ops| + |extra| - 2])
  {
    var at' := at + [|ops| + |extra| - 2];
    assert at'[|at|] == |ops| + |extra| - 2;
    assert forall j :: j in at ==> j in at';
  }

  lemma CarriesNext(ops: seq<Op>, lines: seq<ET.Event>, at: seq<nat>, isPerf: string -> bool, line: ET.Event)
    requires CarriesLines(ops, lines, at, isPerf) && line.LogLine?
    ensures CarriesLines(ops + HandlerOps(line, isPerf), lines + [line], at + [|ops| + |HandlerOps(line, isPerf)| - 2], isPerf)
    ensures forall j :: 0 <= j < |HandlerOps(line, isPerf)| ==> LineOp(HandlerOps(line, isPerf)[j])
  {
    hide PointsAt, NothingElse;
    var extra := HandlerOps(line, isPerf);
    assert extra == [Append(true), Emit(LineMsg)] || extra == [Emit(PerfMsg), Append(true), Emit(LineMsg)];
    LinesNext(ops, lines, at, line, extra);
    PointsNext(ops, lines, at, isPerf, line);
    NothingElseNext(ops, at, extra);
  }

  lemma CarriesToTheEnd(ops: seq<Op>, lines: seq<ET.Event>, at: seq<nat>, isPerf: string -> bool, tail: seq<Op>)
    requires CarriesLines(ops, lines, at, isPerf) && forall j :: 0 <= j < |tail| ==> !LineOp(tail[j])
    ensures CarriesLines(ops + tail, lines, at, isPerf)
  {
    assert forall j :: 0 <= j < |ops| ==> (ops + tail)[j] == ops[j];
    assert forall j :: |ops| <= j < |ops + tail| ==> (ops + tail)[j] == tail[j - |ops|];
  }

  /** A prologue, and after it operations for lines only. */
  ghost predicate Opens(ops: seq<Op>)
  {
    |ops| >= 6 && ops[..6] == PROLOGUE && forall j :: 6 <= j < |ops| ==> LineOp(ops[j])
  }

  lemma OpensNext(ops: seq<Op>, extra: seq<Op>)
    requires Opens(ops) && forall j :: 0 <= j < |extra| ==> LineOp(extra[j])
    ensures Opens(ops + extra)
  {
    assert (ops + extra)[..6] == ops[..6];
  }

  lemma StartCarries(started: ET.Event, isPerf: string -> bool)
    requires started.Started?
    ensures [Append(false)] + EventOps([started], isPerf) == PROLOGUE
    ensures CarriesLines(PROLOGUE, [], [], isPerf) && Opens(PROLOGUE)
  {
    assert EventOps([started], isPerf) == HandlerOps(started, isPerf) + EventOps([], isPerf);
    assert PROLOGUE[..6] == PROLOGUE;
  }

  lemma {:induction false} FrontCarries(front: seq<ET.Event>, isPerf: string -> bool) returns (at: seq<nat>)
    requires front != [] && front[0].Started? && forall i :: 0 < i < |front| ==> front[i].LogLine?
    ensures CarriesLines([Append(false)] + EventOps(front, isPerf), front[1..], at, isPerf)
    ensures Opens([Append(false)] + EventOps(front, isPerf))
    decreases |front|
  {
    hide CarriesLines, Opens, LineOp, HandlerOps;
    if |front| == 1 {
      assert front == [front[0]] && front[1..] == [];
      StartCarries(front[0], isPerf);
      at := [];
    } else {
      var before, last := front[..|front| - 1], front[|front| - 1];
      var ops := [Append(false)] + EventOps(before, isPerf);
      at := FrontCarries(before, isPerf);
      CarriesNext(ops, before[1..], at, isPerf, last);
      OpensNext(ops, HandlerOps(last, isPerf));
      assert front == before + [last] && front[1..] == before[1..] + [last];
      EventOpsSnoc(before, last, isPerf);
      Associative([Append(false)], EventOps(before, isPerf), HandlerOps(last, isPerf));
      at := at + [|ops| + |HandlerOps(last, isPerf)| - 2];
    }
  }

  /** After the prologue's six operations, operations for lines only, and then the given ones. */
  ghost predicate LinesThen(script: seq<Op>, tail: seq<Op>)
  {
    && 6 + |tail| <= |script| && script[|script| - |tail|..] == tail
    && forall j :: 6 <= j < |script| - |tail| ==> script[j] in {Append(true), Emit(LineMsg), Emit(PerfMsg)}
  }

  /**
   * The whole script of a started job, for every trace: its prologue, then for each line
   * of the trace and in that order its tagged append and messages and nothing else, then
   * the epilogue its last event calls for.
   */
  lemma ScriptCarriesTrace(trace: seq<ET.Event>, isPerf: string -> bool) returns (at: seq<nat>)
    requires ET.ValidTrace(trace)
    ensures CarriesLines(StartedScript(trace, isPerf), trace[1..|trace| - 1], at, isPerf)
    ensures var script := StartedScript(trace, isPerf);
            && |script| >= 6
            && script[..6] == [Append(false), SetStatus(Running), Append(false), Append(false), Guard(1), Emit(StateMsg)]
    ensures trace[|trace| - 1].Finished? ==>
              LinesThen(StartedScript(trace, isPerf),
                        [SetStatus(Success), Append(false), Guard(3), Persist, Emit(DoneMsg), CloseSubs])
    ensures trace[|trace| - 1].Failed? && trace[|trace| - 1].err.None? ==>
              LinesThen(StartedScript(trace, isPerf),
                        [SetStatus(Failure), Append(false), Guard(3), Persist, Emit(DoneMsg), CloseSubs])
    ensures trace[|trace| - 1].Failed? && trace[|trace| - 1].err.Some? ==>
              LinesThen(StartedScript(trace, isPerf),
                        [SetStatus(Failure), Append(false), Guard(4), Persist, Emit(ErrorMsg), Emit(DoneMsg), CloseSubs])
  {
    hide CarriesLines;
    var front, last := trace[..|trace| - 1], trace[|trace| - 1];
    var ops := [Append(false)] + EventOps(front, isPerf);
    at := FrontCarries(front, isPerf);
    CarriesToTheEnd(ops, front[1..], at, isPerf, HandlerOps(last, isPerf));
    ScriptSplits(front, last, isPerf);
    assert trace == front + [last] && front[1..] == trace[1..|trace| - 1];
    assert StartedScript(trace, isPerf) == ops + HandlerOps(last, isPerf);
  }

  // ------------------------------------------------------------ from the trace to the handlers

  /**
   * When the job's goroutine is done, every log line of its trace is in the log a handler
   * in the receive loop was sent as its snapshot, or was offered on the handler's channel.
   */
  lemma EveryLineReachesHandlers(trace: seq<ET.Event>, isPerf: string -> bool, s: JobState, h: SubId) returns (at: seq<nat>)
    requires ET.ValidTrace(trace) && Reachable(StartedScript(trace, isPerf), s)
    requires Finished(s) && At(s, h, Waiting(true))
    ensures CarriesLines(StartedScript(trace, isPerf), trace[1..|trace| - 1], at, isPerf)
    ensures s.handlers[h].seen.Some? && s.handlers[h].seen.value <= |s.history|
    ensures forall k :: 0 <= k < |trace| - 2 ==>
              at[k] in s.history[..s.handlers[h].seen.value] || Offered(s.handlers[h], at[k] + 1)
  {
    var script := StartedScript(trace, isPerf);
    var t := TraceGivesShape(trace, isPerf);
    at := ScriptCarriesTrace(trace, isPerf);
    ReachableInv(script, t, s);
    ReachableSnapshots(script, t, s);
    assert HandlerInv(s, h);
    forall k | 0 <= k < |trace| - 2
      ensures at[k] in s.history[..s.handlers[h].seen.value] || Offered(s.handlers[h], at[k] + 1)
    {
      NoLostLine(script, t, s, h, at[k]);
    }
  }

  // ------------------------------------------------------------ from the process to the trace

  /** The i-th line of a source is an event of the trace, and later lines are later events. */
  lemma {:induction false} LinesInTrace(trace: seq<ET.Event>, source: ET.Source) returns (pos: seq<nat>)
    ensures |pos| == |ET.LinesOf(trace, source)|
    ensures forall i, j :: 0 <= i < j < |pos| ==> pos[i] < pos[j]
    ensures forall i :: 0 <= i < |pos| ==>
              pos[i] < |trace| && trace[pos[i]] == ET.LogLine(source, ET.LinesOf(trace, source)[i])
    decreases |trace|
  {
    pos := [];
    if trace != [] {
      var front, last := trace[..|trace| - 1], trace[|trace| - 1];
      pos := LinesInTrace(front, source);
      if last.LogLine? && last.source == source {
        pos := pos + [|trace| - 1];
      }
    }
  }

  /**
   * End to end: every line an internal task printed, on either stream, reached every
   * handler in the receive loop, by snapshot or by offer; `order` says where in the
   * script each line went, and lines of one stream keep their order.
   */
  lemma EveryPrintedLine(p: ET.Process, actions: seq<ET.Action>, q: ET.Process, r: nat, source: ET.Source,
                         isPerf: string -> bool, s: JobState, h: SubId) returns (order: seq<nat>)
    requires ET.Initial(p) && ET.Execution(p, actions, q) && r < |q.runs|
    requires q.runs[r].pc == ET.ChannelClosed && q.runs[r].kind == ET.Internal
    requires Reachable(StartedScript(q.runs[r].trace, isPerf), s) && Finished(s) && At(s, h, Waiting(true))
    ensures r < |p.runs| && |order| == |ET.PipeOf(p.runs[r], source).left|
    ensures forall i, j :: 0 <= i < j < |order| ==> order[i] < order[j]
    ensures s.handlers[h].seen.Some? && s.handlers[h].seen.value <= |s.history|
    ensures forall i :: 0 <= i < |order| ==>
              order[i] in s.history[..s.handlers[h].seen.value] || Offered(s.handlers[h], order[i] + 1)
  {
    hide ET.Execution, ET.Initial, ET.LinesOf, Reachable, PointsAt, NothingElse, StartedScript, EventOps, Offered;
    var trace := q.runs[r].trace;
    ET.ClosedChannelTrace(p, actions, q, r);
    var at := EveryLineReachesHandlers(trace, isPerf, s, h);
    var pos := LinesInTrace(trace, source);
    assert forall i :: 0 <= i < |pos| ==> 0 < pos[i] < |trace| - 1;
    order := seq(|pos|, i requires 0 <= i < |pos| => at[pos[i] - 1]);
  }
}
