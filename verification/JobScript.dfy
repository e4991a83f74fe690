/**
 * ops/backend/scheduler/scheduler.go: what the goroutine that owns a job does for
 * each executor event, as a script of operations. Each operation is one critical
 * section, except `Emit` (nextSeq, capture of the subscribers, one send each) and
 * `CloseSubs` (taking the subscribers, one close each), which Stream.dfy splits.
 */
module JobScript {
  import opened Options
  import opened ExecutorTrace

  datatype Status = Queued | Running | Success | Failure
  {
    predicate Terminal() { Success? || Failure? }
  }

  datatype Message = StateMsg | PerfMsg | LineMsg | ErrorMsg | DoneMsg

  datatype Op =
    | SetStatus(status: Status)   // updateJob
    | Append(tagged: bool)        // appendJobLog up to the archive; tagged when a source is given
    | Guard(skip: nat)            // leave the handler when the job is no longer indexed
    | Persist                     // persistJobMeta
    | Emit(message: Message)      // nextSeq, then publish
    | CloseSubs                   // closeJobSubs

  /** failJob. */
  function FailOps(err: Option<string>): seq<Op>
  {
    if err.Some? then
      [SetStatus(Failure), Append(false), Guard(4), Persist, Emit(ErrorMsg), Emit(DoneMsg), CloseSubs]
    else
      [SetStatus(Failure), Append(false), Guard(3), Persist, Emit(DoneMsg), CloseSubs]
  }

  /** consumeExecution's dispatch. `isPerf` says which stdout lines parse as load-generator reports. */
  function HandlerOps(event: Event, isPerf: string -> bool): seq<Op>
  {
    match event
    case Started(_) => [SetStatus(Running), Append(false), Append(false), Guard(1), Emit(StateMsg)]
    case LogLine(source, line) =>
      (if source == Stdout && line != [] && line[0] == '{' && isPerf(line) then [Emit(PerfMsg)] else []) +
      [Append(true), Emit(LineMsg)]
    case Finished(_) =>
      [SetStatus(Success), Append(false), Guard(3), Persist, Emit(DoneMsg), CloseSubs]
    case Failed(_, err) => FailOps(err)
  }

  function EventOps(trace: seq<Event>, isPerf: string -> bool): seq<Op>
  {
    if trace == [] then [] else HandlerOps(trace[0], isPerf) + EventOps(trace[1..], isPerf)
  }

  /** StartJob after the job is indexed: either the executor refuses to start, or its events are consumed. */
  function StartedScript(trace: seq<Event>, isPerf: string -> bool): seq<Op>
  {
    [Append(false)] + EventOps(trace, isPerf)
  }

  function RefusedScript(err: string): seq<Op>
  {
    [Append(false)] + FailOps(Some(err))
  }

  /** The operation at `j` leaves the job active and keeps a tagged line next to its message. */
  predicate ActiveAt(ops: seq<Op>, j: nat)
    requires j < |ops|
  {
    match ops[j]
    case SetStatus(status) => !status.Terminal()
    case Append(tagged) => tagged ==> j + 1 < |ops| && ops[j + 1] == Emit(LineMsg)
    case Guard(skip) => j + skip < |ops|
    case Persist => false
    case Emit(message) =>
      && message != DoneMsg
      && (message == LineMsg ==> 0 < j && ops[j - 1] == Append(true))
    case CloseSubs => false
  }

  ghost predicate ActiveOps(ops: seq<Op>)
  {
    forall j :: 0 <= j < |ops| ==> ActiveAt(ops, j)
  }

  predicate ShapeAt(s: seq<Op>, t: int, j: nat)
    requires j < |s| && t <= |s|
  {
    match s[j]
    case SetStatus(status) => if status.Terminal() then j == t else j < t
    case Append(tagged) => tagged ==> j + 1 < t && s[j + 1] == Emit(LineMsg)
    case Guard(skip) =>
      && j + 1 + skip <= |s|
      && (t < j ==> j + 1 + skip == |s|)
    case Persist => t < j
    case Emit(message) =>
      && (message == DoneMsg ==> j == |s| - 2)
      && (message == LineMsg ==> 0 < j && s[j - 1] == Append(true))
    case CloseSubs => j == |s| - 1
  }

  /**
   * What the stream theorems need of a script; `t` is where the status becomes
   * terminal. Every guard past `t` leaves the script.
   */
  ghost predicate Shape(s: seq<Op>, t: int)
  {
    && 0 <= t < |s| - 2
    && s[t].SetStatus? && s[t].status.Terminal()
    && s[|s| - 2] == Emit(DoneMsg) && s[|s| - 1] == CloseSubs
    && forall j :: 0 <= j < |s| ==> ShapeAt(s, t, j)
  }

  lemma ActiveConcat(a: seq<Op>, b: seq<Op>)
    requires ActiveOps(a) && ActiveOps(b)
    ensures ActiveOps(a + b)
  {
    var ops := a + b;
    forall j | 0 <= j < |ops| ensures ActiveAt(ops, j) {
      if j < |a| { assert ActiveAt(a, j); } else { assert ActiveAt(b, j - |a|); }
    }
  }

  lemma HandlerActive(event: Event, isPerf: string -> bool)
    requires !event.Terminal()
    ensures ActiveOps(HandlerOps(event, isPerf))
  {
    var ops := HandlerOps(event, isPerf);
    if event.LogLine? {
      assert ops == [Append(true), Emit(LineMsg)] || ops == [Emit(PerfMsg), Append(true), Emit(LineMsg)];
    }
  }

  lemma {:induction false} EventsActive(trace: seq<Event>, isPerf: string -> bool)
    requires forall i :: 0 <= i < |trace| ==> !trace[i].Terminal()
    ensures ActiveOps(EventOps(trace, isPerf))
  {
    if trace != [] {
      HandlerActive(trace[0], isPerf);
      EventsActive(trace[1..], isPerf);
      ActiveConcat(HandlerOps(trace[0], isPerf), EventOps(trace[1..], isPerf));
    }
  }

  lemma {:induction false} EventOpsSnoc(trace: seq<Event>, event: Event, isPerf: string -> bool)
    ensures EventOps(trace + [event], isPerf) == EventOps(trace, isPerf) + HandlerOps(event, isPerf)
  {
    if trace == [] {
      assert EventOps([event], isPerf) == HandlerOps(event, isPerf) + EventOps([], isPerf);
    } else {
      assert (trace + [event])[1..] == trace[1..] + [event];
      EventOpsSnoc(trace[1..], event, isPerf);
    }
  }

  lemma ActiveThenTerminal(pre: seq<Op>, event: Event, isPerf: string -> bool)
    requires ActiveOps(pre) && event.Terminal()
    ensures Shape(pre + HandlerOps(event, isPerf), |pre|)
  {
    var tail := HandlerOps(event, isPerf);
    var s := pre + tail;
    forall j | 0 <= j < |s| ensures ShapeAt(s, |pre|, j) {
      if j < |pre| { assert ActiveAt(pre, j); } else { assert s[j] == tail[j - |pre|]; }
    }
  }

  lemma {:induction false} FrontActive(front: seq<Event>, isPerf: string -> bool)
    requires forall i :: 0 <= i < |front| ==> !front[i].Terminal()
    ensures ActiveOps([Append(false)] + EventOps(front, isPerf))
  {
    EventsActive(front, isPerf);
    ActiveConcat([Append(false)], EventOps(front, isPerf));
  }

  lemma ScriptSplits(front: seq<Event>, last: Event, isPerf: string -> bool)
    ensures StartedScript(front + [last], isPerf) == [Append(false)] + EventOps(front, isPerf) + HandlerOps(last, isPerf)
  {
    EventOpsSnoc(front, last, isPerf);
    Associative([Append(false)], EventOps(front, isPerf), HandlerOps(last, isPerf));
  }

  lemma Associative(a: seq<Op>, b: seq<Op>, c: seq<Op>)
    ensures a + (b + c) == a + b + c
  {
  }

  lemma FrontThenTerminal(front: seq<Event>, last: Event, isPerf: string -> bool)
    requires forall i :: 0 <= i < |front| ==> !front[i].Terminal()
    requires last.Terminal()
    ensures Shape(StartedScript(front + [last], isPerf), 1 + |EventOps(front, isPerf)|)
  {
    FrontActive(front, isPerf);
    ActiveThenTerminal([Append(false)] + EventOps(front, isPerf), last, isPerf);
    ScriptSplits(front, last, isPerf);
  }

  /** Any executor trace drives the job through a script of the required shape. */
  lemma TraceGivesShape(trace: seq<Event>, isPerf: string -> bool) returns (t: nat)
    requires ValidTrace(trace)
    ensures Shape(StartedScript(trace, isPerf), t)
  {
    var front, last := trace[..|trace| - 1], trace[|trace| - 1];
    FrontThenTerminal(front, last, isPerf);
    assert trace == front + [last];
    t := 1 + |EventOps(front, isPerf)|;
  }

  lemma RefusalGivesShape(err: string)
    ensures Shape(RefusedScript(err), 1)
  {
    ActiveThenTerminal([Append(false)], Failed(-1, Some(err)), line => false);
  }

  /** The statuses a script sets, in order. */
  function StatusChanges(ops: seq<Op>): seq<Status>
  {
    if ops == [] then []
    else (if ops[0].SetStatus? then [ops[0].status] else []) + StatusChanges(ops[1..])
  }

  lemma {:induction false} StatusChangesConcat(a: seq<Op>, b: seq<Op>)
    ensures StatusChanges(a + b) == StatusChanges(a) + StatusChanges(b)
  {
    var ab := a + b;
    if a == [] {
      assert ab == b;
    } else {
      var head := if a[0].SetStatus? then [a[0].status] else [];
      StatusChangesConcat(a[1..], b);
      assert ab[0] == a[0] && ab[1..] == a[1..] + b;
      assert head + (StatusChanges(a[1..]) + StatusChanges(b)) == head + StatusChanges(a[1..]) + StatusChanges(b);
    }
  }

  lemma {:induction false} QuietOps(ops: seq<Op>)
    requires forall i :: 0 <= i < |ops| ==> !ops[i].SetStatus?
    ensures StatusChanges(ops) == []
  {
    if ops != [] { QuietOps(ops[1..]); }
  }

  function StatusesOf(event: Event): seq<Status>
  {
    match event
    case Started(_) => [Running]
    case LogLine(_, _) => []
    case Finished(_) => [Success]
    case Failed(_, _) => [Failure]
  }

  lemma HandlerStatusChanges(event: Event, isPerf: string -> bool)
    ensures StatusChanges(HandlerOps(event, isPerf)) == StatusesOf(event)
  {
    var ops := HandlerOps(event, isPerf);
    if event.LogLine? {
      QuietOps(ops);
    } else {
      QuietOps(ops[1..]);
      assert ops[0].SetStatus? && [ops[0].status] == StatusesOf(event);
      assert StatusesOf(event) + [] == StatusesOf(event);
    }
  }

  lemma {:induction false} LinesChangeNothing(lines: seq<Event>, isPerf: string -> bool)
    requires forall i :: 0 <= i < |lines| ==> lines[i].LogLine?
    ensures StatusChanges(EventOps(lines, isPerf)) == []
  {
    if lines != [] {
      LinesChangeNothing(lines[1..], isPerf);
      HandlerStatusChanges(lines[0], isPerf);
      StatusChangesConcat(HandlerOps(lines[0], isPerf), EventOps(lines[1..], isPerf));
    }
  }

  lemma FrontStatusChanges(front: seq<Event>, isPerf: string -> bool)
    requires front != [] && front[0].Started? && forall i :: 0 < i < |front| ==> front[i].LogLine?
    ensures StatusChanges(EventOps(front, isPerf)) == [Running]
  {
    StatusChangesConcat(HandlerOps(front[0], isPerf), EventOps(front[1..], isPerf));
    HandlerStatusChanges(front[0], isPerf);
    LinesChangeNothing(front[1..], isPerf);
  }

  /** A started job goes to Running and then to the terminal status its last event calls for, and nowhere else. */
  lemma StartedJobStatuses(trace: seq<Event>, isPerf: string -> bool)
    requires ValidTrace(trace)
    ensures StatusChanges(StartedScript(trace, isPerf)) == [Running, if trace[|trace| - 1].Finished? then Success else Failure]
  {
    var front, last := trace[..|trace| - 1], trace[|trace| - 1];
    assert trace == front + [last];
    EventOpsSnoc(front, last, isPerf);
    FrontStatusChanges(front, isPerf);
    HandlerStatusChanges(last, isPerf);
    StatusChangesConcat(EventOps(front, isPerf), HandlerOps(last, isPerf));
    StatusChangesConcat([Append(false)], EventOps(trace, isPerf));
    QuietOps([Append(false)]);
  }
}
