/** Subscriber channels as the objects the scheduler registers, sends on and closes. */
module Subscribers {
  import opened Channels
  import opened JobIndex
  import opened JobScript

  datatype Envelope = Envelope(kind: Message, jobId: JobId, seqNo: int, body: string)

  /** A subscriber's channel; `job` and `sub` name the place it was made for. */
  class Channel {
    const job: JobId
    const sub: SubId
    var buf: seq<Envelope>
    var closed: bool

    constructor (job: JobId, sub: SubId)
      ensures this.job == job && this.sub == sub && buf == [] && !closed
    {
      this.job := job;
      this.sub := sub;
      buf := [];
      closed := false;
    }

    /** Sending on a closed channel panics. */
    method TrySend(event: Envelope)
      requires !closed
      modifies `buf
      ensures buf == Enqueued(old(buf), event)
    {
      if |buf| < CHANNEL_CAP {
        buf := buf + [event];
      }
    }

    /** Closing a closed channel panics. */
    method Close()
      requires !closed
      modifies `closed
      ensures closed
    {
      closed := true;
    }
  }

  type Subs = map<JobId, map<SubId, Channel>>

  /** The channels of one job, each in its own place. */
  ghost predicate InPlace(id: JobId, outputs: map<SubId, Channel>, open: set<Channel>)
  {
    forall sub :: sub in outputs ==> outputs[sub] in open && outputs[sub].job == id && outputs[sub].sub == sub
  }

  /** Every registered channel is one of `open` and belongs to an indexed job. */
  ghost predicate Placed(subs: Subs, ids: set<JobId>, open: set<Channel>)
  {
    forall id :: id in subs ==> id in ids && subs[id] != map[] && InPlace(id, subs[id], open)
  }

  ghost predicate AllOpen(open: set<Channel>)
    reads open`closed
  {
    forall ch :: ch in open ==> !ch.closed
  }

  /** The sends of a publication, to the channels it captured. */
  method SendAll(id: JobId, outputs: map<SubId, Channel>, event: Envelope)
    requires InPlace(id, outputs, outputs.Values) && AllOpen(outputs.Values)
    modifies outputs.Values`buf
    ensures forall sub :: sub in outputs ==> outputs[sub].buf == Enqueued(old(outputs[sub].buf), event)
  {
    var todo := outputs.Keys;
    while todo != {}
      invariant todo <= outputs.Keys
      invariant forall sub :: sub in outputs ==>
                  outputs[sub].buf == if sub in todo then old(outputs[sub].buf) else Enqueued(old(outputs[sub].buf), event)
      decreases |todo|
    {
      var sub :| sub in todo;
      outputs[sub].TrySend(event);
      todo := todo - {sub};
    }
  }

  method CloseAll(id: JobId, taken: map<SubId, Channel>)
    requires InPlace(id, taken, taken.Values) && AllOpen(taken.Values)
    modifies taken.Values`closed
    ensures forall sub :: sub in taken ==> taken[sub].closed
  {
    var todo := taken.Keys;
    while todo != {}
      invariant todo <= taken.Keys
      invariant forall sub :: sub in taken ==> taken[sub].closed == (sub !in todo)
      decreases |todo|
    {
      var sub :| sub in todo;
      taken[sub].Close();
      todo := todo - {sub};
    }
  }

  function SubsOf(subs: Subs, id: JobId): map<SubId, Channel>
  {
    if id in subs then subs[id] else map[]
  }

  function With(subs: Subs, id: JobId, subId: SubId, ch: Channel): Subs
  {
    subs[id := SubsOf(subs, id)[subId := ch]]
  }

  /** A job without subscribers has no entry. */
  function Without(subs: Subs, id: JobId, subId: SubId): Subs
  {
    var left := SubsOf(subs, id) - {subId};
    if left == map[] then subs - {id} else subs[id := left]
  }

  /** The new channel is registered in its place, and nothing else changes. */
  lemma WithMeaning(subs: Subs, id: JobId, subId: SubId, ch: Channel)
    requires subId !in SubsOf(subs, id)
    ensures var subs' := With(subs, id, subId, ch);
            && id in subs' && subId in subs'[id] && subs'[id][subId] == ch
            && subs'[id] - {subId} == (if id in subs then subs[id] else map[])
            && subs' - {id} == subs - {id}
  {
    assert SubsOf(subs, id)[subId := ch] - {subId} == SubsOf(subs, id);
  }

  lemma NothingToCancel(subs: Subs, id: JobId, subId: SubId)
    requires id !in subs
    ensures Without(subs, id, subId) == subs
  {
    assert subs - {id} == subs;
  }

  /** Cancelling takes back exactly what Subscribe added. */
  lemma CancelUndoesSubscribe(subs: Subs, id: JobId, subId: SubId, ch: Channel)
    requires subId !in SubsOf(subs, id) && (id in subs ==> subs[id] != map[])
    ensures Without(With(subs, id, subId, ch), id, subId) == subs
  {
    assert SubsOf(subs, id)[subId := ch] - {subId} == SubsOf(subs, id);
  }

  /** ... and cancelling twice is cancelling once. */
  lemma CancelTwice(subs: Subs, id: JobId, subId: SubId)
    requires id in subs ==> subs[id] != map[]
    ensures Without(Without(subs, id, subId), id, subId) == Without(subs, id, subId)
  {
    assert SubsOf(subs, id) - {subId} - {subId} == SubsOf(subs, id) - {subId};
  }

  lemma PlacedDrop(subs: Subs, ids: set<JobId>, open: set<Channel>, gone: set<JobId>)
    requires Placed(subs, ids, open)
    ensures Placed(subs - gone, ids - gone, open)
  {
  }

  lemma PlacedMore(subs: Subs, ids: set<JobId>, ids': set<JobId>, open: set<Channel>)
    requires Placed(subs, ids, open) && ids <= ids'
    ensures Placed(subs, ids', open)
  {
  }

  lemma PlacedWith(subs: Subs, ids: set<JobId>, open: set<Channel>, ch: Channel)
    requires Placed(subs, ids, open) && ch.job in ids
    ensures Placed(With(subs, ch.job, ch.sub, ch), ids, open + {ch})
  {
    var subs', open' := With(subs, ch.job, ch.sub, ch), open + {ch};
    assert ch.sub in subs'[ch.job];
    forall id | id in subs' ensures id in ids && subs'[id] != map[] && InPlace(id, subs'[id], open') {
      if id in subs { assert InPlace(id, subs[id], open); }
    }
  }

  lemma PlacedWithout(subs: Subs, ids: set<JobId>, open: set<Channel>, id: JobId, subId: SubId)
    requires Placed(subs, ids, open)
    ensures Placed(Without(subs, id, subId), ids, open)
  {
    if id in subs { assert InPlace(id, subs[id], open); }
  }

  /** Closing one job's channels leaves those of the others among the open ones. */
  lemma PlacedClose(subs: Subs, ids: set<JobId>, open: set<Channel>, id: JobId)
    requires Placed(subs, ids, open)
    ensures Placed(subs - {id}, ids, open - SubsOf(subs, id).Values)
  {
    forall other | other in subs && other != id ensures InPlace(other, subs[other], open - SubsOf(subs, id).Values) {
      assert InPlace(other, subs[other], open);
      if id in subs { assert InPlace(id, subs[id], open); }
    }
  }
}
