/**
 * Runs without a trim between the terminal status and the end of closeJobSubs: which
 * stream handlers such a run can still strand, and exactly when.
 */
module StreamWindow {
  import opened Channels
  import opened JobScript
  import opened Stream

  /** The status is terminal and closeJobSubs has not finished. */
  predicate InClosingWindow(s: JobState)
  {
    s.status.Terminal() && !Finished(s)
  }

  ghost predicate NoTrimInClosingWindow(s: JobState, actions: seq<Action>)
    decreases |actions|
  {
    actions != [] && Enabled(s, actions[0]) ==>
      && (actions[0].Trim? ==> !InClosingWindow(s))
      && NoTrimInClosingWindow(Apply(s, actions[0]), actions[1..])
  }

  lemma {:induction false} WindowSnoc(s: JobState, actions: seq<Action>, s': JobState, a: Action)
    requires Execution(s, actions, s') && Enabled(s', a)
    requires NoTrimInClosingWindow(s, actions) && (a.Trim? ==> !InClosingWindow(s'))
    ensures NoTrimInClosingWindow(s, actions + [a])
    decreases |actions|
  {
    if actions == [] {
      assert ([a])[1..] == [];
    } else {
      assert (actions + [a])[1..] == actions[1..] + [a];
      WindowSnoc(Apply(s, actions[0]), actions[1..], s', a);
    }
  }

  /** closeJobSubs has taken the subscribers. */
  predicate PastTaking(s: JobState)
  {
    s.phase.Closing? || Finished(s)
  }

  /** The handler subscribes, at some point of the run, after closeJobSubs has taken the subscribers. */
  ghost predicate SubscribesLate(s: JobState, actions: seq<Action>, h: SubId)
    decreases |actions|
  {
    && actions != [] && Enabled(s, actions[0])
    && ((actions[0] == Subscribe(h) && PastTaking(s)) || SubscribesLate(Apply(s, actions[0]), actions[1..], h))
  }

  /** What holds of one handler along such a run; `late` is whether it has subscribed late so far. */
  ghost predicate WindowInv(s: JobState, h: SubId, late: bool)
  {
    && (!Finished(s) ==> s.present && s.orphans == {})
    && (late ==> PastTaking(s) && h in s.handlers && !s.handlers[h].closed && !ClosingTodo(s, h) && !At(s, h, Waiting(true)))
    && (PastTaking(s) && h in s.subs ==> late)
    && (!PastTaking(s) && h in s.handlers && s.handlers[h].pc != Cancelled ==> h in s.subs)
    && (PastTaking(s) && h in s.handlers && !late ==>
          s.handlers[h].closed || ClosingTodo(s, h) || s.handlers[h].pc == Cancelled)
  }

  lemma WindowStep(s: JobState, t: nat, a: Action, h: SubId, late: bool)
    requires OwnerInv(s, t) && RegistryInv(s, h) && Enabled(s, a) && WindowInv(s, h, late)
    requires a.Trim? ==> !InClosingWindow(s)
    ensures WindowInv(Apply(s, a), h, late || (a == Subscribe(h) && PastTaking(s)))
  {
    if OwnerAction(a) { WindowStepOwner(s, t, a, h, late); } else { WindowStepOther(s, t, a, h, late); }
  }

  lemma WindowStepOwner(s: JobState, t: nat, a: Action, h: SubId, late: bool)
    requires OwnerInv(s, t) && RegistryInv(s, h) && Enabled(s, a) && WindowInv(s, h, late) && OwnerAction(a)
    ensures WindowInv(Apply(s, a), h, late)
  {
    if a.Advance? { assert ShapeAt(s.script, t, s.pc); }
  }

  lemma WindowStepOther(s: JobState, t: nat, a: Action, h: SubId, late: bool)
    requires OwnerInv(s, t) && RegistryInv(s, h) && Enabled(s, a) && WindowInv(s, h, late) && !OwnerAction(a)
    requires a.Trim? ==> !InClosingWindow(s)
    ensures WindowInv(Apply(s, a), h, late || (a == Subscribe(h) && PastTaking(s)))
  {
  }

  lemma {:induction false} WindowExecution(s: JobState, t: nat, actions: seq<Action>, s': JobState, h: SubId, late: bool)
    requires Inv(s, t) && WindowInv(s, h, late)
    requires Execution(s, actions, s') && NoTrimInClosingWindow(s, actions)
    ensures WindowInv(s', h, late || SubscribesLate(s, actions, h))
    decreases |actions|
  {
    if actions != [] {
      var a := actions[0];
      WindowStep(s, t, a, h, late);
      InvStep(s, t, a);
      WindowExecution(Apply(s, a), t, actions[1..], s', h, late || (a == Subscribe(h) && PastTaking(s)));
    }
  }

  lemma StrandedFrom(start: JobState, t: nat, actions: seq<Action>, s: JobState, h: SubId)
    requires Inv(start, t) && WindowInv(start, h, false)
    requires Execution(start, actions, s) && NoTrimInClosingWindow(start, actions) && Finished(s)
    ensures Stuck(s, h) <==> At(s, h, Waiting(false)) && SubscribesLate(start, actions, h)
  {
    WindowExecution(start, t, actions, s, h, false);
    InvExecution(start, t, actions, s);
    assert RegistryInv(s, h);
  }

  /**
   * Stream termination for runs without a trim between the terminal status and the close:
   * a handler is left on an open channel if and only if it subscribed after closeJobSubs
   * had taken the subscribers and its job was gone at its status check. A handler that
   * subscribed in time, or found its job at the check, is never stranded.
   */
  lemma StrandedOnlyIfLate(script: seq<Op>, t: nat, actions: seq<Action>, s: JobState, h: SubId)
    requires Shape(script, t) && Execution(InitJob(script), actions, s) && Finished(s)
    requires NoTrimInClosingWindow(InitJob(script), actions)
    ensures Stuck(s, h) <==> At(s, h, Waiting(false)) && SubscribesLate(InitJob(script), actions, h)
  {
    assert Inv(InitJob(script), t);
    StrandedFrom(InitJob(script), t, actions, s, h);
  }
}
