/**
 * The live log stream of one job: the goroutine that owns the job
 * (ops/backend/scheduler/scheduler.go) against any number of StreamJobLog handlers
 * (ops/backend/api/task_handler.go), their cancellations, and trimJobsLocked run by
 * other StartJob calls. A step is one critical section or one channel operation.
 */
module Stream {
  import opened Channels
  import opened Options
  import opened JobScript

  /** `origin` is the script position of the Emit that made the envelope. */
  datatype Envelope = Envelope(origin: nat, seqNo: nat)

  /** One `select { case ch <- event: default: }`; `backlog` is the channel's length at that moment. */
  datatype Offer = Offer(env: Envelope, backlog: nat)

  /**
   * Waiting is the receive loop. `found` tells whether GetJob still knew the job at
   * the status check: a missing job falls through to the loop like an active one.
   */
  datatype HandlerPc = Subscribed | Snapshotted | Waiting(found: bool) | Returning | Cancelled

  /** `seen` is how much of the job's log history the snapshot covered. */
  datatype Handler = Handler(
    pc: HandlerPc,
    seen: Option<nat>,
    buf: seq<Envelope>,
    closed: bool,
    received: seq<Envelope>,
    offers: seq<Offer>)

  datatype Phase =
    | Ready
    | Sequenced(env: Envelope)
    | Sending(env: Envelope, todo: set<SubId>)
    | Closing(todo: set<SubId>)

  /**
   * `history` lists the script positions of the appends made so far: the job's
   * archives, the overflow in flight and the buffer hold exactly these lines.
   * `present` says whether the job is in the scheduler's index. `orphans` records
   * the subscribers whose channels trimJobsLocked dropped without closing.
   */
  datatype JobState = JobState(
    script: seq<Op>,
    pc: nat,
    phase: Phase,
    status: Status,
    present: bool,
    seqNo: nat,
    history: seq<nat>,
    subs: set<SubId>,
    handlers: map<SubId, Handler>,
    orphans: set<SubId>,
    panicked: bool)

  datatype Action =
    | Advance                     // the owner starts the next operation
    | Capture                     // publish reads the subscribers
    | Send(h: SubId)
    | EndSend
    | Close(h: SubId)
    | EndClose
    | Subscribe(h: SubId)
    | Snapshot(h: SubId)
    | NoFlusher(h: SubId)         // the response writer cannot stream
    | Check(h: SubId)
    | Receive(h: SubId)
    | SeeClosed(h: SubId)
    | ClientGone(h: SubId)
    | Cancel(h: SubId)
    | Trim

  function InitJob(script: seq<Op>): JobState
  {
    JobState(script, 0, Ready, Queued, true, 0, [], {}, map[], {}, false)
  }

  predicate Finished(s: JobState)
  {
    s.pc == |s.script|
  }

  predicate At(s: JobState, h: SubId, pc: HandlerPc)
  {
    h in s.handlers && s.handlers[h].pc == pc
  }

  predicate InLoop(s: JobState, h: SubId)
  {
    h in s.handlers && s.handlers[h].pc.Waiting?
  }

  /** The steps of the goroutine that owns the job. */
  predicate OwnerAction(a: Action)
  {
    a.Advance? || a.Capture? || a.Send? || a.EndSend? || a.Close? || a.EndClose?
  }

  predicate Enabled(s: JobState, a: Action)
  {
    match a
    case Advance => s.phase.Ready? && s.pc < |s.script|
    case Capture => s.phase.Sequenced?
    case Send(h) => s.phase.Sending? && h in s.phase.todo && h in s.handlers
    case EndSend => s.phase.Sending? && s.phase.todo == {}
    case Close(h) => s.phase.Closing? && h in s.phase.todo && h in s.handlers
    case EndClose => s.phase.Closing? && s.phase.todo == {}
    case Subscribe(h) => s.present && h !in s.handlers
    case Snapshot(h) => At(s, h, Subscribed)
    case NoFlusher(h) => At(s, h, Subscribed)
    case Check(h) => At(s, h, Snapshotted)
    case Receive(h) => InLoop(s, h) && s.handlers[h].buf != []
    case SeeClosed(h) => InLoop(s, h) && s.handlers[h].buf == [] && s.handlers[h].closed
    case ClientGone(h) => InLoop(s, h)
    case Cancel(h) => At(s, h, Returning)
    case Trim => s.present && s.status.Terminal()
  }

  /** The owner's next critical section. */
  function AdvanceOwner(s: JobState): JobState
    requires s.phase.Ready? && s.pc < |s.script|
  {
    match s.script[s.pc]
    case SetStatus(status) => s.(pc := s.pc + 1, status := if s.present then status else s.status)
    case Append(_) => s.(pc := s.pc + 1, history := if s.present then s.history + [s.pc] else s.history)
    case Guard(skip) => s.(pc := if s.present then s.pc + 1 else s.pc + 1 + skip)
    case Persist => s.(pc := s.pc + 1)
    case Emit(_) =>
      if s.present then s.(seqNo := s.seqNo + 1, phase := Sequenced(Envelope(s.pc, s.seqNo + 1)))
      else s.(phase := Sequenced(Envelope(s.pc, 0)))
    case CloseSubs => s.(subs := {}, phase := Closing(s.subs))
  }

  /** A non-blocking send; sending on a closed channel panics. */
  function Deliver(handler: Handler, env: Envelope): Handler
  {
    handler.(
      offers := handler.offers + [Offer(env, |handler.buf|)],
      buf := Enqueued(handler.buf, env))
  }

  function WithHandler(s: JobState, h: SubId, handler: Handler): JobState
  {
    s.(handlers := s.handlers[h := handler])
  }

  function Apply(s: JobState, a: Action): JobState
    requires Enabled(s, a)
  {
    match a
    case Advance => AdvanceOwner(s)
    case Capture => s.(phase := Sending(s.phase.env, s.subs))
    case Send(h) =>
      WithHandler(s, h, Deliver(s.handlers[h], s.phase.env)).(
        phase := Sending(s.phase.env, s.phase.todo - {h}),
        panicked := s.panicked || s.handlers[h].closed)
    case EndSend => s.(pc := s.pc + 1, phase := Ready)
    case Close(h) =>
      WithHandler(s, h, s.handlers[h].(closed := true)).(
        phase := Closing(s.phase.todo - {h}),
        panicked := s.panicked || s.handlers[h].closed)
    case EndClose => s.(pc := s.pc + 1, phase := Ready)
    case Subscribe(h) =>
      WithHandler(s, h, Handler(Subscribed, None, [], false, [], [])).(subs := s.subs + {h})
    case Snapshot(h) =>
      WithHandler(s, h, s.handlers[h].(pc := Snapshotted, seen := if s.present then Some(|s.history|) else None))
    case NoFlusher(h) => WithHandler(s, h, s.handlers[h].(pc := Returning))
    case Check(h) =>
      WithHandler(s, h, s.handlers[h].(
        pc := if s.present && s.status.Terminal() then Returning else Waiting(s.present)))
    case Receive(h) =>
      var handler := s.handlers[h];
      WithHandler(s, h, handler.(buf := handler.buf[1..], received := handler.received + [handler.buf[0]]))
    case SeeClosed(h) => WithHandler(s, h, s.handlers[h].(pc := Returning))
    case ClientGone(h) => WithHandler(s, h, s.handlers[h].(pc := Returning))
    case Cancel(h) => WithHandler(s, h, s.handlers[h].(pc := Cancelled)).(subs := s.subs - {h})
    case Trim => s.(present := false, subs := {}, orphans := s.orphans + s.subs)
  }

  ghost predicate Execution(s: JobState, actions: seq<Action>, s': JobState)
    decreases |actions|
  {
    if actions == [] then s == s'
    else Enabled(s, actions[0]) && Execution(Apply(s, actions[0]), actions[1..], s')
  }

  // ------------------------------------------------------------ invariants

  predicate ClosingTodo(s: JobState, h: SubId)
  {
    s.phase.Closing? && h in s.phase.todo
  }

  predicate SendingTodo(s: JobState, h: SubId)
  {
    s.phase.Sending? && h in s.phase.todo
  }

  /** The owner's own position: pc, phase and status agree, and the history lists the appends done. */
  ghost predicate OwnerInv(s: JobState, t: nat)
  {
    && Shape(s.script, t)
    && s.pc <= |s.script|
    && (s.status.Terminal() <==> t < s.pc)
    && (t < s.pc ==> s.status == s.script[t].status)
    && (!s.present ==> s.status.Terminal() && s.subs == {})
    && (s.phase.Sequenced? || s.phase.Sending? ==>
          s.pc < |s.script| && s.script[s.pc].Emit? && s.phase.env.origin == s.pc)
    && (s.phase.Sequenced? && s.present ==> s.phase.env.seqNo == s.seqNo)
    && (s.phase.Sending? && s.phase.todo != {} ==> s.phase.env.seqNo == s.seqNo)
    && (s.phase.Closing? ==> s.pc == |s.script| - 1)
    && (s.orphans != {} ==> !s.present)
  }

  ghost predicate HistoryInv(s: JobState)
  {
    && (forall k :: 0 <= k < |s.history| ==>
          s.history[k] < s.pc && s.history[k] < |s.script| && s.script[s.history[k]].Append?)
    && (forall k, l :: 0 <= k < l < |s.history| ==> s.history[k] < s.history[l])
    && (forall j :: 0 <= j < s.pc && j < |s.script| && s.script[j] == Append(true) ==> j in s.history)
  }

  /** Who holds a reference to a handler's channel. */
  ghost predicate RegistryInv(s: JobState, h: SubId)
  {
    && (h in s.subs || h in s.orphans || ClosingTodo(s, h) || SendingTodo(s, h) ==> h in s.handlers)
    && !(h in s.subs && h in s.orphans)
    && (ClosingTodo(s, h) ==> h !in s.subs && h !in s.orphans)
    && (h in s.handlers && s.handlers[h].closed ==>
          && h !in s.subs && h !in s.orphans && !ClosingTodo(s, h)
          && (s.phase.Closing? || Finished(s)))
    // a handler that has not cancelled is known to someone, or already closed
    && (h in s.handlers && s.handlers[h].pc != Cancelled && !s.handlers[h].closed ==>
          h in s.subs || h in s.orphans || ClosingTodo(s, h))
    // a subscriber that entered the loop beside an active job is seen by closeJobSubs
    && (h in s.subs && InLoop(s, h) ==> s.handlers[h].pc.found && !s.phase.Closing? && !Finished(s))
  }

  predicate Consecutive(offers: seq<Offer>)
  {
    forall i :: 0 < i < |offers| ==>
      && offers[i].env.seqNo == offers[i - 1].env.seqNo + 1
      && offers[i - 1].env.origin < offers[i].env.origin
  }

  function LastOffer(handler: Handler): Envelope
    requires handler.offers != []
  {
    handler.offers[|handler.offers| - 1].env
  }

  /** The number the next envelope offered to a registered subscriber will carry, minus one. */
  predicate OfferPending(s: JobState, h: SubId)
  {
    s.phase.Sequenced? || SendingTodo(s, h)
  }

  ghost predicate OfferInv(s: JobState, h: SubId)
    requires h in s.handlers
  {
    var handler := s.handlers[h];
    && Consecutive(handler.offers)
    && (handler.offers != [] ==>
          && LastOffer(handler).origin <= s.pc && LastOffer(handler).origin < |s.script|
          && s.script[LastOffer(handler).origin].Emit?
          && (LastOffer(handler).origin == s.pc ==> s.phase.Sending? && h !in s.phase.todo))
    && (handler.offers != [] && h in s.subs ==>
          LastOffer(handler).seqNo == (if OfferPending(s, h) then s.seqNo - 1 else s.seqNo))
    && (handler.offers != [] && SendingTodo(s, h) ==> LastOffer(handler).seqNo == s.seqNo - 1)
  }

  /** The envelopes a channel accepted: a full buffer is the only reason to drop one. */
  function Accepted(offers: seq<Offer>): seq<Envelope>
  {
    if offers == [] then []
    else
      var last := offers[|offers| - 1];
      Accepted(offers[..|offers| - 1]) + (if last.backlog < CHANNEL_CAP then [last.env] else [])
  }

  ghost predicate DeliveryInv(handler: Handler)
  {
    && handler.received + handler.buf == Accepted(handler.offers)
    && |handler.buf| <= CHANNEL_CAP
    && forall i :: 0 <= i < |handler.offers| ==> handler.offers[i].backlog <= CHANNEL_CAP
  }

  predicate Offered(handler: Handler, origin: nat)
  {
    exists i :: 0 <= i < |handler.offers| && handler.offers[i].env.origin == origin
  }

  /** Once Done was offered to everyone registered, a handler that waits beside the job has it last. */
  predicate DoneDue(s: JobState, h: SubId)
  {
    || (s.pc == |s.script| - 2 && s.phase.Sending? && h !in s.phase.todo && h in s.subs)
    || (s.pc == |s.script| - 1 && h in s.subs)
    || ClosingTodo(s, h)
    || (h in s.handlers && s.handlers[h].closed)
  }

  ghost predicate DoneInv(s: JobState, h: SubId)
    requires h in s.handlers && 2 <= |s.script|
  {
    At(s, h, Waiting(true)) && DoneDue(s, h) ==>
      s.handlers[h].offers != [] && LastOffer(s.handlers[h]).origin == |s.script| - 2
  }

  /** A tagged line appended after the handler's snapshot, whose publication is past this handler. */
  predicate LineDue(s: JobState, h: SubId, j: nat)
  {
    j + 1 < s.pc || (j + 1 == s.pc && s.phase.Sending? && h !in s.phase.todo)
  }

  ghost predicate LineInv(s: JobState, h: SubId)
    requires h in s.handlers
  {
    var handler := s.handlers[h];
    handler.seen.Some? ==>
      && handler.seen.value <= |s.history|
      && (handler.pc != Cancelled ==>
            forall k :: handler.seen.value <= k < |s.history| && s.history[k] < |s.script| ==>
              s.script[s.history[k]] == Append(true) && LineDue(s, h, s.history[k]) ==> Offered(handler, s.history[k] + 1))
  }

  ghost predicate HandlerInv(s: JobState, h: SubId)
    requires h in s.handlers && 2 <= |s.script|
  {
    && OfferInv(s, h)
    && DeliveryInv(s.handlers[h])
    && DoneInv(s, h)
    && LineInv(s, h)
  }

  ghost predicate Inv(s: JobState, t: nat)
  {
    && OwnerInv(s, t)
    && HistoryInv(s)
    && !s.panicked
    && (forall h: SubId :: RegistryInv(s, h))
    && (forall h :: h in s.handlers ==> HandlerInv(s, h))
  }

  // ------------------------------------------------------------ one step

  lemma OwnerStep(s: JobState, t: nat, a: Action)
    requires OwnerInv(s, t) && Enabled(s, a)
    ensures OwnerInv(Apply(s, a), t)
  {
    if a.Advance? { assert ShapeAt(s.script, t, s.pc); }
  }

  lemma HistoryStep(s: JobState, t: nat, a: Action)
    requires OwnerInv(s, t) && HistoryInv(s) && Enabled(s, a)
    ensures HistoryInv(Apply(s, a))
  {
    if a.Advance? {
      HistoryStepAdvance(s, t);
    } else {
      var s' := Apply(s, a);
      assert s'.history == s.history && s'.script == s.script;
      assert s'.pc == s.pc || (s'.pc == s.pc + 1 && !s.script[s.pc].Append?);
    }
  }

  lemma HistoryStepAdvance(s: JobState, t: nat)
    requires OwnerInv(s, t) && HistoryInv(s) && Enabled(s, Advance)
    ensures HistoryInv(AdvanceOwner(s))
  {
    var s' := AdvanceOwner(s);
    assert ShapeAt(s.script, t, s.pc);
    assert s'.pc >= s.pc && s'.script == s.script;
    if s.script[s.pc].Append? {
      assert s'.history == if s.present then s.history + [s.pc] else s.history;
    } else {
      assert s'.history == s.history;
    }
    forall j | 0 <= j < s'.pc && j < |s.script| && s.script[j] == Append(true) ensures j in s'.history {
      TaggedIsRecorded(s, t, j);
    }
  }

  lemma TaggedIsRecorded(s: JobState, t: nat, j: nat)
    requires OwnerInv(s, t) && HistoryInv(s) && Enabled(s, Advance)
    requires j < AdvanceOwner(s).pc && j < |s.script| && s.script[j] == Append(true)
    ensures j in AdvanceOwner(s).history
  {
    assert ShapeAt(s.script, t, j) && ShapeAt(s.script, t, s.pc);
    if j < s.pc {
      assert j in s.history;
    } else {
      assert j == s.pc && AdvanceOwner(s).history[|s.history|] == j;
    }
  }

  lemma RegistryStep(s: JobState, t: nat, a: Action, h: SubId)
    requires OwnerInv(s, t) && RegistryInv(s, h) && Enabled(s, a)
    ensures RegistryInv(Apply(s, a), h)
  {
    if OwnerAction(a) { RegistryStepOwner(s, t, a, h); } else { RegistryStepOther(s, t, a, h); }
  }

  lemma RegistryStepOwner(s: JobState, t: nat, a: Action, h: SubId)
    requires OwnerInv(s, t) && RegistryInv(s, h) && Enabled(s, a) && OwnerAction(a)
    ensures RegistryInv(Apply(s, a), h)
  {
    if a.Advance? { assert ShapeAt(s.script, t, s.pc); }
  }

  lemma RegistryStepOther(s: JobState, t: nat, a: Action, h: SubId)
    requires OwnerInv(s, t) && RegistryInv(s, h) && Enabled(s, a) && !OwnerAction(a)
    ensures RegistryInv(Apply(s, a), h)
  {
  }

  lemma NoPanicStep(s: JobState, t: nat, a: Action)
    requires Inv(s, t) && Enabled(s, a)
    ensures !Apply(s, a).panicked
  {
    match a
    case Send(h) => assert RegistryInv(s, h);
    case Close(h) => assert RegistryInv(s, h);
    case _ =>
  }

  lemma OfferStep(s: JobState, t: nat, a: Action, h: SubId)
    requires OwnerInv(s, t) && RegistryInv(s, h) && Enabled(s, a) && h in Apply(s, a).handlers
    requires h in s.handlers ==> OfferInv(s, h)
    ensures OfferInv(Apply(s, a), h)
  {
    if a.Advance? {
      assert ShapeAt(s.script, t, s.pc);
      OfferStepAdvance(s, t, h);
    } else if a == Send(h) {
      OfferStepSend(s, t, h);
    } else if h in s.handlers {
      OfferStepOther(s, t, a, h);
    }
  }

  lemma OfferStepOther(s: JobState, t: nat, a: Action, h: SubId)
    requires OwnerInv(s, t) && RegistryInv(s, h) && Enabled(s, a) && h in s.handlers && OfferInv(s, h)
    requires a != Advance && a != Send(h)
    ensures OfferInv(Apply(s, a), h)
  {
    if OwnerAction(a) { OfferStepOwner(s, t, a, h); } else { OfferStepHandler(s, t, a, h); }
  }

  lemma OfferStepOwner(s: JobState, t: nat, a: Action, h: SubId)
    requires OwnerInv(s, t) && RegistryInv(s, h) && Enabled(s, a) && h in s.handlers && OfferInv(s, h)
    requires OwnerAction(a) && a != Advance && a != Send(h)
    ensures OfferInv(Apply(s, a), h)
  {
    assert Apply(s, a).handlers[h].offers == s.handlers[h].offers;
  }

  lemma OfferStepHandler(s: JobState, t: nat, a: Action, h: SubId)
    requires RegistryInv(s, h) && Enabled(s, a) && h in s.handlers && OfferInv(s, h)
    requires !OwnerAction(a)
    ensures OfferInv(Apply(s, a), h)
  {
    assert Apply(s, a).handlers[h].offers == s.handlers[h].offers;
    assert Apply(s, a).pc == s.pc && Apply(s, a).phase == s.phase && Apply(s, a).seqNo == s.seqNo;
  }

  lemma OfferStepAdvance(s: JobState, t: nat, h: SubId)
    requires OwnerInv(s, t) && Enabled(s, Advance) && h in s.handlers && OfferInv(s, h) && ShapeAt(s.script, t, s.pc)
    ensures OfferInv(AdvanceOwner(s), h)
  {
    assert AdvanceOwner(s).handlers[h] == s.handlers[h];
  }

  lemma ConsecutiveSnoc(offers: seq<Offer>, offer: Offer)
    requires Consecutive(offers)
    requires offers != [] ==> offer.env.seqNo == offers[|offers| - 1].env.seqNo + 1
    requires offers != [] ==> offers[|offers| - 1].env.origin < offer.env.origin
    ensures Consecutive(offers + [offer])
  {
  }

  lemma OfferStepSend(s: JobState, t: nat, h: SubId)
    requires OwnerInv(s, t) && Enabled(s, Send(h)) && OfferInv(s, h)
    ensures OfferInv(Apply(s, Send(h)), h)
  {
    var handler := s.handlers[h];
    ConsecutiveSnoc(handler.offers, Offer(s.phase.env, |handler.buf|));
    var handler' := Deliver(handler, s.phase.env);
    assert Apply(s, Send(h)).handlers[h] == handler';
    assert LastOffer(handler') == s.phase.env;
  }

  lemma AcceptedSnoc(offers: seq<Offer>, offer: Offer)
    ensures Accepted(offers + [offer]) ==
            Accepted(offers) + (if offer.backlog < CHANNEL_CAP then [offer.env] else [])
  {
    assert (offers + [offer])[..|offers|] == offers;
  }

  lemma DeliverKeeps(handler: Handler, env: Envelope)
    requires DeliveryInv(handler)
    ensures DeliveryInv(Deliver(handler, env))
  {
    AcceptedSnoc(handler.offers, Offer(env, |handler.buf|));
    assert handler.received + (handler.buf + [env]) == handler.received + handler.buf + [env];
  }

  lemma DeliveryStep(s: JobState, a: Action, h: SubId)
    requires Enabled(s, a) && h in Apply(s, a).handlers
    requires h in s.handlers ==> DeliveryInv(s.handlers[h])
    ensures DeliveryInv(Apply(s, a).handlers[h])
  {
    if a == Send(h) {
      DeliverKeeps(s.handlers[h], s.phase.env);
    } else if a == Receive(h) {
      var handler := s.handlers[h];
      assert handler.received + [handler.buf[0]] + handler.buf[1..] == handler.received + handler.buf;
    } else if h in s.handlers {
      var handler, handler' := s.handlers[h], Apply(s, a).handlers[h];
      assert handler'.received == handler.received && handler'.buf == handler.buf && handler'.offers == handler.offers;
    }
  }

  lemma DoneStep(s: JobState, t: nat, a: Action, h: SubId)
    requires OwnerInv(s, t) && RegistryInv(s, h) && Enabled(s, a) && h in Apply(s, a).handlers
    requires h in s.handlers ==> OfferInv(s, h) && DoneInv(s, h)
    ensures DoneInv(Apply(s, a), h)
  {
    if OwnerAction(a) {
      DoneStepOwner(s, t, a, h);
    } else if h in s.handlers {
      assert Apply(s, a).handlers[h].offers == s.handlers[h].offers;
    }
  }

  lemma DoneStepOwner(s: JobState, t: nat, a: Action, h: SubId)
    requires OwnerInv(s, t) && RegistryInv(s, h) && Enabled(s, a) && OwnerAction(a)
    requires h in s.handlers && DoneInv(s, h)
    ensures DoneInv(Apply(s, a), h)
  {
    if a.Advance? {
      DoneStepAdvance(s, t, h);
    } else if a == Send(h) {
      assert LastOffer(Apply(s, a).handlers[h]) == s.phase.env;
    } else {
      assert Apply(s, a).handlers[h].offers == s.handlers[h].offers;
    }
  }

  lemma DoneStepAdvance(s: JobState, t: nat, h: SubId)
    requires OwnerInv(s, t) && RegistryInv(s, h) && Enabled(s, Advance) && h in s.handlers && DoneInv(s, h)
    ensures DoneInv(AdvanceOwner(s), h)
  {
    assert ShapeAt(s.script, t, s.pc);
    assert AdvanceOwner(s).handlers == s.handlers;
  }

  /** Only a send to the handler adds to its offers. */
  lemma OffersKept(s: JobState, a: Action, h: SubId, origin: nat)
    requires Enabled(s, a) && h in s.handlers && Offered(s.handlers[h], origin)
    ensures h in Apply(s, a).handlers && Offered(Apply(s, a).handlers[h], origin)
  {
    var i :| 0 <= i < |s.handlers[h].offers| && s.handlers[h].offers[i].env.origin == origin;
    assert Apply(s, a).handlers[h].offers[i].env.origin == origin;
  }

  /** A line becomes due only by the send of its message to the handler. */
  lemma DueBySend(s: JobState, t: nat, a: Action, h: SubId, j: nat)
    requires OwnerInv(s, t) && RegistryInv(s, h) && Enabled(s, a) && h in s.handlers && s.handlers[h].pc != Cancelled
    requires j + 1 < |s.script| && s.script[j] == Append(true) && ShapeAt(s.script, t, j) && ShapeAt(s.script, t, j + 1)
    requires !LineDue(s, h, j) && LineDue(Apply(s, a), h, j)
    ensures a == Send(h) && s.phase.env.origin == j + 1
  {
    assert s.pc < |s.script| ==> ShapeAt(s.script, t, s.pc);
  }

  lemma LineStepAt(s: JobState, t: nat, a: Action, h: SubId, j: nat)
    requires OwnerInv(s, t) && RegistryInv(s, h) && Enabled(s, a)
    requires h in s.handlers && s.handlers[h].pc != Cancelled
    requires j < |s.script| && s.script[j] == Append(true) && LineDue(Apply(s, a), h, j)
    requires LineDue(s, h, j) ==> Offered(s.handlers[h], j + 1)
    ensures Offered(Apply(s, a).handlers[h], j + 1)
  {
    assert ShapeAt(s.script, t, j);
    assert ShapeAt(s.script, t, j + 1);
    if LineDue(s, h, j) {
      OffersKept(s, a, h, j + 1);
    } else {
      DueBySend(s, t, a, h, j);
      assert Apply(s, a).handlers[h].offers[|s.handlers[h].offers|].env == s.phase.env;
    }
  }

  /** The history only grows, by the line the owner is at. */
  lemma HistoryGrows(s: JobState, a: Action)
    requires Enabled(s, a)
    ensures Apply(s, a).history == s.history
            || (Apply(s, a).history == s.history + [s.pc] && a == Advance && Apply(s, a).pc == s.pc + 1)
    ensures Apply(s, a).script == s.script
  {
  }

  /** What a handler saw is fixed by its snapshot, and a cancelled handler stays cancelled. */
  lemma SeenKept(s: JobState, a: Action, h: SubId)
    requires Enabled(s, a) && h in s.handlers && a != Snapshot(h)
    ensures h in Apply(s, a).handlers && Apply(s, a).handlers[h].seen == s.handlers[h].seen
    ensures s.handlers[h].pc == Cancelled ==> Apply(s, a).handlers[h].pc == Cancelled
  {
  }

  lemma FreshSnapshot(s: JobState, a: Action, h: SubId)
    requires Enabled(s, a) && h in Apply(s, a).handlers && (h !in s.handlers || a == Snapshot(h))
    ensures LineInv(Apply(s, a), h)
  {
  }

  /** Past snapshots are only outrun by lines whose publication still has to reach the handler. */
  lemma LineStep(s: JobState, t: nat, a: Action, h: SubId)
    requires OwnerInv(s, t) && RegistryInv(s, h) && Enabled(s, a) && h in Apply(s, a).handlers
    requires h in s.handlers ==> LineInv(s, h)
    ensures LineInv(Apply(s, a), h)
  {
    if h !in s.handlers || a == Snapshot(h) {
      FreshSnapshot(s, a, h);
    } else {
      LineStepKnown(s, t, a, h);
    }
  }

  lemma LineStepKnown(s: JobState, t: nat, a: Action, h: SubId)
    requires OwnerInv(s, t) && RegistryInv(s, h) && Enabled(s, a)
    requires h in s.handlers && LineInv(s, h) && a != Snapshot(h)
    ensures LineInv(Apply(s, a), h)
  {
    var history, script, handler := Apply(s, a).history, s.script, s.handlers[h];
    HistoryGrows(s, a);
    SeenKept(s, a, h);
    if handler.seen.Some? && handler.pc != Cancelled {
      forall k | handler.seen.value <= k < |history| && history[k] < |script| && script[history[k]] == Append(true)
                 && LineDue(Apply(s, a), h, history[k])
        ensures Offered(Apply(s, a).handlers[h], history[k] + 1)
      {
        assert k < |s.history|;
        LineStepAt(s, t, a, h, history[k]);
      }
    }
  }

  lemma InvStep(s: JobState, t: nat, a: Action)
    requires Inv(s, t) && Enabled(s, a)
    ensures Inv(Apply(s, a), t)
  {
    var s' := Apply(s, a);
    OwnerStep(s, t, a);
    HistoryStep(s, t, a);
    NoPanicStep(s, t, a);
    forall h: SubId ensures RegistryInv(s', h) {
      RegistryStep(s, t, a, h);
    }
    forall h | h in s'.handlers ensures HandlerInv(s', h) {
      assert RegistryInv(s, h);
      assert h in s.handlers ==> HandlerInv(s, h);
      OfferStep(s, t, a, h);
      DeliveryStep(s, a, h);
      DoneStep(s, t, a, h);
      LineStep(s, t, a, h);
    }
  }

  lemma {:induction false} InvExecution(s: JobState, t: nat, actions: seq<Action>, s': JobState)
    requires Inv(s, t) && Execution(s, actions, s')
    ensures Inv(s', t)
    decreases |actions|
  {
    if actions != [] {
      var s1 := Apply(s, actions[0]);
      InvStep(s, t, actions[0]);
      InvExecution(s1, t, actions[1..], s');
    }
  }

  lemma {:induction false} ScriptFixed(s: JobState, actions: seq<Action>, s': JobState)
    requires Execution(s, actions, s')
    ensures s'.script == s.script
    decreases |actions|
  {
    if actions != [] {
      ScriptFixed(Apply(s, actions[0]), actions[1..], s');
    }
  }

  /** The states of a job that follows `script`, in every interleaving. */
  ghost predicate Reachable(script: seq<Op>, s: JobState)
  {
    exists actions :: Execution(InitJob(script), actions, s)
  }

  lemma ReachableInv(script: seq<Op>, t: nat, s: JobState)
    requires Shape(script, t) && Reachable(script, s)
    ensures Inv(s, t) && s.script == script
  {
    var actions :| Execution(InitJob(script), actions, s);
    assert Inv(InitJob(script), t);
    InvExecution(InitJob(script), t, actions, s);
    ScriptFixed(InitJob(script), actions, s);
  }

  /** The invariant as it concerns one handler. */
  lemma ReachableAt(script: seq<Op>, t: nat, s: JobState, h: SubId)
    requires Shape(script, t) && Reachable(script, s)
    ensures s.script == script && !s.panicked
    ensures OwnerInv(s, t) && HistoryInv(s) && RegistryInv(s, h)
    ensures h in s.handlers ==> HandlerInv(s, h)
  {
    ReachableInv(script, t, s);
  }

  // ------------------------------------------------------------ main results

  lemma {:induction false} OffersIncrease(offers: seq<Offer>, i: nat, j: nat)
    requires Consecutive(offers) && i <= j < |offers|
    ensures offers[j].env.seqNo == offers[i].env.seqNo + (j - i)
    ensures i < j ==> offers[i].env.origin < offers[j].env.origin
    decreases j - i
  {
    if i < j { OffersIncrease(offers, i, j - 1); }
  }

  lemma EarlierOrigins(offers: seq<Offer>, last: nat)
    requires Consecutive(offers) && (offers != [] ==> offers[|offers| - 1].env.origin <= last)
    ensures forall i :: 0 <= i < |offers| - 1 ==> offers[i].env.origin < last
  {
    forall i | 0 <= i < |offers| - 1 ensures offers[i].env.origin < last {
      OffersIncrease(offers, i, |offers| - 1);
    }
  }

  /** The close is not a message, so an offer comes from Done at the latest. */
  lemma LastOrigin(s: JobState, t: nat, h: SubId)
    requires OwnerInv(s, t) && h in s.handlers && OfferInv(s, h) && s.handlers[h].offers != []
    ensures LastOffer(s.handlers[h]).origin <= |s.script| - 2
  {
    assert s.script[|s.script| - 1] == CloseSubs;
  }

  /**
   * No channel is closed twice or sent on after closing; Done is the last envelope
   * offered on any channel; and a subscriber that joined beside an active job is
   * offered Done before its channel closes.
   */
  lemma ChannelProtocol(script: seq<Op>, t: nat, s: JobState, h: SubId)
    requires Shape(script, t) && Reachable(script, s)
    ensures !s.panicked
    ensures h in s.handlers ==>
              forall i :: 0 <= i < |s.handlers[h].offers| - 1 ==>
                s.handlers[h].offers[i].env.origin < |script| - 2
    ensures h in s.handlers && s.handlers[h].closed && s.handlers[h].pc == Waiting(true) ==>
              && s.handlers[h].offers != []
              && LastOffer(s.handlers[h]).origin == |script| - 2
              && script[|script| - 2] == Emit(DoneMsg)
  {
    ReachableAt(script, t, s, h);
    if h in s.handlers {
      if s.handlers[h].offers != [] { LastOrigin(s, t, h); }
      EarlierOrigins(s.handlers[h].offers, |script| - 2);
    }
  }

  /** A terminal status is never left, and a finished owner leaves the one its script sets. */
  lemma TerminalStatusStays(script: seq<Op>, t: nat, s: JobState, a: Action)
    requires Shape(script, t) && Reachable(script, s) && Enabled(s, a)
    ensures s.status.Terminal() ==> Apply(s, a).status == s.status
    ensures Finished(s) ==> s.status == script[t].status
  {
    ReachableInv(script, t, s);
    if a == Advance { assert ShapeAt(script, t, s.pc); }
  }

  lemma {:induction false} AcceptedIsSubsequence(offers: seq<Offer>)
    requires Consecutive(offers)
    ensures forall i, j :: 0 <= i < j < |Accepted(offers)| ==> Accepted(offers)[i].seqNo < Accepted(offers)[j].seqNo
    ensures forall i :: 0 <= i < |Accepted(offers)| ==> Accepted(offers)[i].seqNo <= LastOf(offers).seqNo
    ensures forall e :: e in Accepted(offers) <==>
              exists i :: 0 <= i < |offers| && offers[i].env == e && offers[i].backlog < CHANNEL_CAP
  {
    if offers != [] {
      var front, last := offers[..|offers| - 1], offers[|offers| - 1];
      AcceptedIsSubsequence(front);
      assert forall i :: 0 <= i < |front| ==> offers[i] == front[i];
      if front != [] { OffersIncrease(offers, |front| - 1, |front|); }
    }
  }

  function LastOf(offers: seq<Offer>): Envelope
  {
    if offers == [] then Envelope(0, 0) else offers[|offers| - 1].env
  }

  /**
   * What a subscriber reads from its channel: strictly increasing numbers. It was
   * offered every number of a run of consecutive ones, and a number is missing from
   * its channel exactly when all 256 slots were taken at that send.
   */
  lemma SequenceNumbers(script: seq<Op>, t: nat, s: JobState, h: SubId)
    requires Shape(script, t) && Reachable(script, s) && h in s.handlers
    ensures var handler := s.handlers[h];
            var delivered := handler.received + handler.buf;
            && (forall i, j :: 0 <= i < j < |delivered| ==> delivered[i].seqNo < delivered[j].seqNo)
            && (forall i :: 0 <= i < |handler.offers| ==>
                  handler.offers[i].env.seqNo == handler.offers[0].env.seqNo + i)
            && (forall i :: 0 <= i < |handler.offers| ==>
                  (handler.offers[i].env !in delivered <==> handler.offers[i].backlog == CHANNEL_CAP))
            && (forall e :: e in delivered ==> exists i :: 0 <= i < |handler.offers| && handler.offers[i].env == e)
  {
    ReachableAt(script, t, s, h);
    var handler := s.handlers[h];
    var offers := handler.offers;
    AcceptedIsSubsequence(offers);
    forall i | 0 <= i < |offers|
      ensures offers[i].env.seqNo == offers[0].env.seqNo + i
      ensures offers[i].env !in Accepted(offers) <==> offers[i].backlog == CHANNEL_CAP
    {
      OffersIncrease(offers, 0, i);
      if offers[i].env in Accepted(offers) {
        var k :| 0 <= k < |offers| && offers[k].env == offers[i].env && offers[k].backlog < CHANNEL_CAP;
        if k < i { OffersIncrease(offers, k, i); } else { OffersIncrease(offers, i, k); }
      }
    }
  }

  /** A handler that found its job at the status check has its snapshot: a job that is gone does not come back. */
  ghost predicate SeenInv(s: JobState)
  {
    forall h :: h in s.handlers ==>
      At(s, h, Waiting(true)) || (At(s, h, Snapshotted) && s.present) ==> s.handlers[h].seen.Some?
  }

  /** While a job is indexed, its history holds every line appended so far. */
  ghost predicate CompleteInv(s: JobState)
  {
    s.present ==> forall j :: 0 <= j < s.pc && j < |s.script| && s.script[j].Append? ==> j in s.history
  }

  ghost predicate SnapshotInv(s: JobState)
  {
    SeenInv(s) && CompleteInv(s)
  }

  lemma SeenStep(s: JobState, a: Action)
    requires SeenInv(s) && Enabled(s, a)
    ensures SeenInv(Apply(s, a))
  {
  }

  lemma CompleteStep(s: JobState, t: nat, a: Action)
    requires OwnerInv(s, t) && CompleteInv(s) && Enabled(s, a)
    ensures CompleteInv(Apply(s, a))
  {
    if a.EndClose? { assert s.script[s.pc] == CloseSubs; }
  }

  lemma {:induction false} SnapshotExecution(s: JobState, t: nat, actions: seq<Action>, s': JobState)
    requires Inv(s, t) && SnapshotInv(s) && Execution(s, actions, s')
    ensures SnapshotInv(s')
    decreases |actions|
  {
    hide Inv, SeenInv, CompleteInv;
    if actions != [] {
      assert OwnerInv(s, t) by { InvParts(s, t); }
      SeenStep(s, actions[0]);
      CompleteStep(s, t, actions[0]);
      InvStep(s, t, actions[0]);
      SnapshotExecution(Apply(s, actions[0]), t, actions[1..], s');
    }
  }

  lemma InvParts(s: JobState, t: nat)
    requires Inv(s, t)
    ensures OwnerInv(s, t)
  {
  }

  lemma ReachableSnapshots(script: seq<Op>, t: nat, s: JobState)
    requires Shape(script, t) && Reachable(script, s)
    ensures SnapshotInv(s)
  {
    var actions :| Execution(InitJob(script), actions, s);
    assert Inv(InitJob(script), t);
    SnapshotExecution(InitJob(script), t, actions, s);
  }

  /**
   * No lost line. Once the owner is past the publication of a tagged line (or never
   * appended it), a handler that found its job at the status check and has not left had
   * the line in the history its snapshot read, or was offered the line's envelope; so had
   * every other handler that took a snapshot and has not cancelled.
   */
  lemma NoLostLine(script: seq<Op>, t: nat, s: JobState, h: SubId, j: nat)
    requires Shape(script, t) && Reachable(script, s)
    requires At(s, h, Waiting(true)) || (h in s.handlers && s.handlers[h].seen.Some? && s.handlers[h].pc != Cancelled)
    requires j + 1 < s.pc && j < |script| && script[j] == Append(true)
    ensures s.handlers[h].seen.Some? && s.handlers[h].seen.value <= |s.history|
    ensures j in s.history[..s.handlers[h].seen.value] || Offered(s.handlers[h], j + 1)
  {
    ReachableSnapshots(script, t, s);
    ReachableAt(script, t, s, h);
    assert j in s.history;
    var k :| 0 <= k < |s.history| && s.history[k] == j;
    if k < s.handlers[h].seen.value {
      assert s.history[..s.handlers[h].seen.value][k] == j;
    } else {
      assert LineDue(s, h, s.history[k]);
    }
  }

  /** While a job is indexed, its log holds every line appended so far, tagged or not, and each once. */
  lemma HistoryComplete(script: seq<Op>, t: nat, s: JobState, j: nat)
    requires Shape(script, t) && Reachable(script, s) && s.present && j < s.pc && j < |script|
    ensures j in s.history <==> script[j].Append?
    ensures forall k, l :: 0 <= k < l < |s.history| ==> s.history[k] < s.history[l]
  {
    ReachableSnapshots(script, t, s);
    ReachableInv(script, t, s);
  }

  /** A handler left in the receive loop on a channel nobody will close. */
  predicate Stuck(s: JobState, h: SubId)
  {
    Finished(s) && InLoop(s, h) && !s.handlers[h].closed
  }

  /**
   * Stream termination. Once the owner is done, a handler still waits on an open
   * channel exactly when trimJobsLocked dropped that channel; with no such drop every
   * handler in the loop has its channel closed.
   */
  lemma StreamTermination(script: seq<Op>, t: nat, s: JobState, h: SubId)
    requires Shape(script, t) && Reachable(script, s) && Finished(s)
    ensures Stuck(s, h) <==> InLoop(s, h) && h in s.orphans
  {
    ReachableAt(script, t, s, h);
  }

  /** Every trim on the way found no subscriber registered for the job. */
  ghost predicate TrimsFindNoSubscriber(s: JobState, actions: seq<Action>)
    decreases |actions|
  {
    actions != [] && Enabled(s, actions[0]) ==>
      && (actions[0].Trim? ==> s.subs == {})
      && TrimsFindNoSubscriber(Apply(s, actions[0]), actions[1..])
  }

  lemma {:induction false} OrphansComeFromTrims(s: JobState, actions: seq<Action>, s': JobState)
    requires Execution(s, actions, s')
    ensures s.orphans <= s'.orphans
    ensures s.orphans == {} ==> (s'.orphans == {} <==> TrimsFindNoSubscriber(s, actions))
    decreases |actions|
  {
    if actions != [] {
      var s1 := Apply(s, actions[0]);
      OrphansComeFromTrims(s1, actions[1..], s');
      assert s1.orphans == if actions[0].Trim? then s.orphans + s.subs else s.orphans;
    }
  }

  /**
   * The run-level form: if no trim on the way met a registered subscriber of the job,
   * no handler is ever left on an open channel.
   */
  lemma NoHandlerLeftWaiting(script: seq<Op>, t: nat, actions: seq<Action>, s: JobState, h: SubId)
    requires Shape(script, t) && Execution(InitJob(script), actions, s)
    requires TrimsFindNoSubscriber(InitJob(script), actions)
    ensures !Stuck(s, h)
  {
    OrphansComeFromTrims(InitJob(script), actions, s);
    if Finished(s) {
      assert Reachable(script, s);
      StreamTermination(script, t, s, h);
    }
  }

  lemma {:induction false} ExecutionSnoc(s: JobState, actions: seq<Action>, s': JobState, a: Action)
    requires Execution(s, actions, s') && Enabled(s', a)
    ensures Execution(s, actions + [a], Apply(s', a))
    decreases |actions|
  {
    if actions == [] {
      assert Execution(Apply(s, a), [], Apply(s, a));
      assert ([a])[1..] == [];
    } else {
      ExecutionSnoc(Apply(s, actions[0]), actions[1..], s', a);
      assert (actions + [a])[1..] == actions[1..] + [a];
    }
  }

  // ------------------------------------------------------------ progress

  function PhaseRank(phase: Phase): nat
  {
    match phase
    case Ready => 3
    case Sequenced(_) => 2
    case Sending(_, _) => 1
    case Closing(_) => 1
  }

  function PhaseTodo(phase: Phase): set<SubId>
  {
    match phase
    case Sending(_, todo) => todo
    case Closing(todo) => todo
    case _ => {}
  }

  /** The owner never blocks: until its script ends one of its own steps is enabled. */
  lemma OwnerProgress(s: JobState, t: nat)
    requires Inv(s, t) && !Finished(s)
    ensures exists a :: OwnerAction(a) && Enabled(s, a)
  {
    match s.phase
    case Ready => assert Enabled(s, Advance);
    case Sequenced(_) => assert Enabled(s, Capture);
    case Sending(_, todo) =>
      if todo == {} { assert Enabled(s, EndSend); }
      else { var h :| h in todo; assert RegistryInv(s, h); assert Enabled(s, Send(h)); }
    case Closing(todo) =>
      if todo == {} { assert Enabled(s, EndClose); }
      else { var h :| h in todo; assert RegistryInv(s, h); assert Enabled(s, Close(h)); }
  }

  /** The owner's steps decrease (operations left, rank of the phase, channels left); nobody else's raise it. */
  lemma OwnerTerminates(s: JobState, t: nat, a: Action)
    requires OwnerInv(s, t) && Enabled(s, a)
    ensures var s' := Apply(s, a);
            if OwnerAction(a) then
              s'.pc > s.pc || (s'.pc == s.pc &&
                (PhaseRank(s'.phase) < PhaseRank(s.phase) ||
                 (PhaseRank(s'.phase) == PhaseRank(s.phase) && PhaseTodo(s'.phase) < PhaseTodo(s.phase))))
            else s'.pc == s.pc && s'.phase == s.phase
  {
  }

  /** The handler's own steps, leaving out the one only its client can cause. */
  predicate OwnStep(a: Action, h: SubId)
  {
    a == Snapshot(h) || a == Check(h) || a == Receive(h) || a == SeeClosed(h) || a == Cancel(h)
  }

  function HandlerMeasure(handler: Handler): nat
  {
    |handler.buf| +
    match handler.pc
    case Subscribed => 4
    case Snapshotted => 3
    case Waiting(_) => 2
    case Returning => 1
    case Cancelled => 0
  }

  /** After the owner is done a handler that is not stuck can move by itself until it has cancelled. */
  lemma HandlerProgress(script: seq<Op>, t: nat, s: JobState, h: SubId)
    requires Shape(script, t) && Reachable(script, s) && Finished(s) && h in s.handlers
    requires s.handlers[h].pc != Cancelled
    ensures (exists a :: OwnStep(a, h) && Enabled(s, a)) <==> !(Stuck(s, h) && s.handlers[h].buf == [])
  {
    ReachableAt(script, t, s, h);
    match s.handlers[h].pc
    case Subscribed => assert OwnStep(Snapshot(h), h) && Enabled(s, Snapshot(h));
    case Snapshotted => assert OwnStep(Check(h), h) && Enabled(s, Check(h));
    case Waiting(_) =>
      if s.handlers[h].buf != [] { assert OwnStep(Receive(h), h) && Enabled(s, Receive(h)); }
      else if s.handlers[h].closed { assert OwnStep(SeeClosed(h), h) && Enabled(s, SeeClosed(h)); }
    case Returning => assert OwnStep(Cancel(h), h) && Enabled(s, Cancel(h));
    case Cancelled =>
  }

  /** ... and it does so only finitely often: after the owner is done nothing feeds the handler again. */
  lemma HandlerTerminates(s: JobState, t: nat, a: Action, h: SubId)
    requires OwnerInv(s, t) && Enabled(s, a) && Finished(s) && h in s.handlers
    ensures Finished(Apply(s, a))
    ensures HandlerMeasure(Apply(s, a).handlers[h]) <= HandlerMeasure(s.handlers[h])
    ensures OwnStep(a, h) ==> HandlerMeasure(Apply(s, a).handlers[h]) < HandlerMeasure(s.handlers[h])
  {
  }

  /**
   * A handler leaves the receive loop with everything its channel accepted, after the
   * close, unless its client leaves, which it can at any time.
   */
  lemma LeavesLoop(script: seq<Op>, t: nat, s: JobState, a: Action, h: SubId)
    requires Shape(script, t) && Reachable(script, s) && InLoop(s, h)
    ensures Enabled(s, ClientGone(h)) && !InLoop(Apply(s, ClientGone(h)), h)
    ensures Enabled(s, a) && !InLoop(Apply(s, a), h) && a != ClientGone(h) ==>
              s.handlers[h].closed && s.handlers[h].received == Accepted(s.handlers[h].offers)
  {
    hide Reachable, Shape, OwnerInv, HistoryInv, RegistryInv, OfferInv, DoneInv, LineInv, DeliveryInv, Accepted, Apply;
    ReachableAt(script, t, s, h);
    if Enabled(s, a) { LoopStep(s, a, h); }
    LoopStep(s, ClientGone(h), h);
  }

  lemma LoopStep(s: JobState, a: Action, h: SubId)
    requires Enabled(s, a) && InLoop(s, h) && DeliveryInv(s.handlers[h])
    ensures InLoop(Apply(s, a), h) <==> !(a == ClientGone(h) || a == SeeClosed(h))
    ensures a == SeeClosed(h) ==> s.handlers[h].closed && s.handlers[h].received == Accepted(s.handlers[h].offers)
  {
  }

  /** A handler that has cancelled is not registered. */
  ghost predicate CancelledOut(s: JobState)
  {
    forall h :: h in s.subs ==> h in s.handlers && s.handlers[h].pc != Cancelled
  }

  lemma CancelledStep(s: JobState, a: Action)
    requires CancelledOut(s) && Enabled(s, a)
    ensures CancelledOut(Apply(s, a))
  {
  }

  lemma {:induction false} CancelledExecution(s: JobState, actions: seq<Action>, s': JobState)
    requires CancelledOut(s) && Execution(s, actions, s')
    ensures CancelledOut(s')
    decreases |actions|
  {
    hide CancelledOut;
    if actions != [] {
      CancelledStep(s, actions[0]);
      CancelledExecution(Apply(s, actions[0]), actions[1..], s');
    }
  }

  /** So no publication captures its channel any more, and cancelling touches no other handler. */
  lemma CancelForGood(script: seq<Op>, s: JobState, h: SubId)
    requires Reachable(script, s) && h in s.handlers
    ensures s.handlers[h].pc == Cancelled ==> h !in s.subs
    ensures s.handlers[h].pc == Cancelled && Enabled(s, Capture) ==> h !in Apply(s, Capture).phase.todo
    ensures Enabled(s, Cancel(h)) ==>
              && Apply(s, Cancel(h)).subs == s.subs - {h}
              && forall g :: g in s.handlers && g != h ==> Apply(s, Cancel(h)).handlers[g] == s.handlers[g]
  {
    var actions :| Execution(InitJob(script), actions, s);
    CancelledExecution(InitJob(script), actions, s);
  }
}
