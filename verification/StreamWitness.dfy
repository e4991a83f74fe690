/**
 * Two runs that leave a StreamJobLog handler on a channel nobody will close, one with
 * and one without a trim between the terminal status and closeJobSubs.
 */
module StreamWitness {
  import ET = ExecutorTrace
  import opened JobScript
  import opened Stream
  import opened StreamWindow

  function SmallScript(): seq<Op>
  {
    StartedScript([ET.Started(7), ET.Finished(0)], line => false)
  }

  lemma SmallScriptIs()
    ensures SmallScript() ==
            [Append(false), SetStatus(Running), Append(false), Append(false), Guard(1), Emit(StateMsg),
             SetStatus(Success), Append(false), Guard(3), Persist, Emit(DoneMsg), CloseSubs]
    ensures Shape(SmallScript(), 6)
  {
    var trace := [ET.Started(7), ET.Finished(0)];
    var isPerf := (line: string) => false;
    assert trace[1..] == [ET.Finished(0)] && trace[1..][1..] == [];
    assert EventOps(trace[1..], isPerf) == HandlerOps(ET.Finished(0), isPerf) + [];
    var s := SmallScript();
    assert s == [Append(false)] + (HandlerOps(ET.Started(7), isPerf) + HandlerOps(ET.Finished(0), isPerf));
    forall j | 0 <= j < |s| ensures ShapeAt(s, 6, j) {}
  }

  /** One more step of a run under construction. */
  lemma Step(script: seq<Op>, actions: seq<Action>, s: JobState, a: Action) returns (actions': seq<Action>, s': JobState)
    requires Execution(InitJob(script), actions, s) && Enabled(s, a)
    ensures s' == Apply(s, a) && Execution(InitJob(script), actions', s')
    ensures NoTrimInClosingWindow(InitJob(script), actions) && (a.Trim? ==> !InClosingWindow(s)) ==>
              NoTrimInClosingWindow(InitJob(script), actions')
  {
    ExecutionSnoc(InitJob(script), actions, s, a);
    actions', s' := actions + [a], Apply(s, a);
    if NoTrimInClosingWindow(InitJob(script), actions) && (a.Trim? ==> !InClosingWindow(s)) {
      WindowSnoc(InitJob(script), actions, s, a);
    }
  }

  /** The owner runs to the end of its script with nobody subscribed and the job indexed. */
  lemma {:induction false} OwnerAlone(script: seq<Op>, t: nat, actions: seq<Action>, s: JobState)
    returns (actions': seq<Action>, s': JobState)
    requires Shape(script, t) && s.script == script && s.phase == Ready && s.pc <= |script|
    requires s.present && s.subs == {} && s.handlers == map[] && s.orphans == {}
    requires Execution(InitJob(script), actions, s) && NoTrimInClosingWindow(InitJob(script), actions)
    ensures Execution(InitJob(script), actions', s') && NoTrimInClosingWindow(InitJob(script), actions')
    ensures Finished(s') && s'.present && s'.phase == Ready && s'.subs == {} && s'.handlers == map[] && s'.orphans == {}
    decreases |script| - s.pc
  {
    if s.pc == |script| {
      return actions, s;
    }
    assert ShapeAt(script, t, s.pc);
    actions', s' := Step(script, actions, s, Advance);
    if s.script[s.pc].Emit? {
      actions', s' := Step(script, actions', s', Capture);
      actions', s' := Step(script, actions', s', EndSend);
    } else if s.script[s.pc].CloseSubs? {
      actions', s' := Step(script, actions', s', EndClose);
    }
    actions', s' := OwnerAlone(script, t, actions', s');
  }

  /**
   * A subscriber that arrives after closeJobSubs, whose job is trimmed before its
   * status check, waits for ever: no trim fell between the terminal status and the close.
   */
  lemma TrimAfterCloseStrandsHandler() returns (actions: seq<Action>, s: JobState)
    ensures Shape(SmallScript(), 6) && Execution(InitJob(SmallScript()), actions, s)
    ensures NoTrimInClosingWindow(InitJob(SmallScript()), actions)
    ensures Stuck(s, 0) && s.handlers[0].pc == Waiting(false)
  {
    SmallScriptIs();
    var script := SmallScript();
    actions, s := OwnerAlone(script, 6, [], InitJob(script));
    assert s.status.Terminal() by {
      assert Reachable(script, s);
      ReachableInv(script, 6, s);
    }
    actions, s := Step(script, actions, s, Subscribe(0));
    actions, s := Step(script, actions, s, Snapshot(0));
    actions, s := Step(script, actions, s, Trim);
    actions, s := Step(script, actions, s, Check(0));
  }

  lemma ReachStep(script: seq<Op>, s: JobState, a: Action) returns (s': JobState)
    requires Reachable(script, s) && Enabled(s, a)
    ensures s' == Apply(s, a) && Reachable(script, s')
  {
    var actions :| Execution(InitJob(script), actions, s);
    ExecutionSnoc(InitJob(script), actions, s, a);
    s' := Apply(s, a);
  }

  /** The owner executes operations that are neither messages nor closes, one step each. */
  lemma {:induction false} QuietAdvance(script: seq<Op>, s: JobState, n: nat) returns (s': JobState)
    requires Reachable(script, s) && s.script == script && s.phase == Ready && s.present && s.pc + n <= |script|
    requires forall j :: s.pc <= j < s.pc + n ==> !script[j].Emit? && !script[j].CloseSubs?
    ensures Reachable(script, s')
    ensures s'.script == script && s'.pc == s.pc + n && s'.phase == Ready && s'.present
    ensures s'.subs == s.subs && s'.handlers == s.handlers
    decreases n
  {
    s' := s;
    if n > 0 {
      s' := QuietAdvance(script, s, n - 1);
      s' := ReachStep(script, s', Advance);
    }
  }

  /** A job announced as running, which nobody is watching yet. */
  lemma RunningJob() returns (s: JobState)
    ensures Reachable(SmallScript(), s) && s.script == SmallScript()
    ensures s.pc == 6 && s.phase == Ready && s.present && s.handlers == map[] && !s.status.Terminal()
  {
    SmallScriptIs();
    var script := SmallScript();
    assert Execution(InitJob(script), [], InitJob(script));
    s := QuietAdvance(script, InitJob(script), 5);
    s := ReachStep(script, s, Advance);
    s := ReachStep(script, s, Capture);
    s := ReachStep(script, s, EndSend);
    ReachableInv(script, 6, s);
  }

  /** ... and then with one handler in its receive loop. */
  lemma RunningJobWithHandler() returns (s: JobState)
    ensures Reachable(SmallScript(), s)
    ensures s.script == SmallScript() && s.pc == 6 && s.phase == Ready && s.present
    ensures 0 in s.handlers
    ensures s.handlers[0].pc == Waiting(true) && s.handlers[0].buf == [] && !s.handlers[0].closed
  {
    s := RunningJob();
    s := ReachStep(SmallScript(), s, Subscribe(0));
    s := ReachStep(SmallScript(), s, Snapshot(0));
    s := ReachStep(SmallScript(), s, Check(0));
  }

  /** A trim between the terminal status and closeJobSubs strands a handler that was already waiting. */
  lemma TrimBeforeCloseStrandsHandler() returns (s: JobState)
    ensures Shape(SmallScript(), 6) && Reachable(SmallScript(), s)
    ensures Stuck(s, 0) && s.handlers[0].pc == Waiting(true) && s.handlers[0].buf == []
  {
    var script := SmallScript();
    s := RunningJobWithHandler();
    SmallScriptIs();
    s := ReachStep(script, s, Advance);
    s := ReachStep(script, s, Trim);
    s := ReachStep(script, s, Advance);
    s := ReachStep(script, s, Advance);
  }
}
