/**
 * ops/executor/scenario.go: runClosedScenario and runOpenScenario as one step system.
 * The main goroutine, the workers and the collector interleave over two bounded
 * channels; a step is one channel operation. executeOne is the time a worker spends
 * between taking an index and offering its result.
 */
module LoadGen {

  datatype Mode = ClosedModel | OpenModel

  datatype Config = Config(mode: Mode, requests: nat, concurrency: int)

  /** What validateConfig guarantees of the open model; the closed one is modelled for any concurrency. */
  predicate ValidConfig(c: Config)
  {
    c.mode == OpenModel ==> c.concurrency >= 1
  }

  function Min(a: int, b: int): int { if a < b then a else b }

  function Max(a: int, b: int): int { if a < b then b else a }

  function WorkerCount(c: Config): nat
  {
    match c.mode
    case ClosedModel => Max(0, Min(c.concurrency, c.requests))
    case OpenModel => Max(1, c.concurrency)
  }

  function JobsCap(c: Config): int
  {
    match c.mode
    case ClosedModel => c.requests
    case OpenModel => c.concurrency
  }

  function OutCap(c: Config): int
  {
    match c.mode
    case ClosedModel => c.requests
    case OpenModel => Min(Max(4 * c.concurrency, 128), 8192)
  }

  /** One requestResult, by the index it answers; a drop is the open model's local limiter. */
  datatype Result = Executed(idx: nat) | Dropped(idx: nat)

  datatype Worker = Idle | Executing(idx: nat) | Exited

  /** Main: producing, offering a drop result, in wg.Wait, waiting for the collector, returned. */
  datatype MainPc = Producing | OfferingDrop(idx: nat) | AwaitingWorkers | AwaitingCollector | Returned

  /** `dropped` records the ticks that found the job channel full. */
  datatype State = State(
    config: Config,
    pc: MainPc,
    sent: nat,
    jobs: seq<nat>,
    jobsClosed: bool,
    workers: seq<Worker>,
    out: seq<Result>,
    outClosed: bool,
    results: seq<Result>,
    collected: bool,
    dropped: set<nat>)

  datatype Action =
    | SendJob         // jobs <- i, or the tick's accepted branch
    | TickDrop        // the tick's default branch
    | SendDrop        // out <- drop result
    | CloseJobs       // all requests sent, or the timer fired
    | CloseOut        // wg.Wait returned
    | Return          // <-collectDone
    | Take(w: nat)
    | SendResult(w: nat)
    | Exit(w: nat)
    | Collect
    | EndCollect

  function Init(c: Config): State
  {
    State(c, Producing, 0, [], false, seq(WorkerCount(c), i => Idle), [], false, [], false, {})
  }

  /** The steps the open model's ticker causes. */
  predicate Tick(s: State, a: Action)
  {
    s.config.mode == OpenModel && (a == SendJob || a == TickDrop)
  }

  predicate Enabled(s: State, a: Action)
  {
    match a
    case SendJob => s.pc == Producing && |s.jobs| < JobsCap(s.config)
                    && (s.config.mode == ClosedModel ==> s.sent < s.config.requests)
    case TickDrop => s.pc == Producing && s.config.mode == OpenModel && |s.jobs| >= JobsCap(s.config)
    case SendDrop => s.pc.OfferingDrop? && |s.out| < OutCap(s.config)
    case CloseJobs => s.pc == Producing && (s.config.mode == ClosedModel ==> s.sent == s.config.requests)
    case CloseOut => s.pc == AwaitingWorkers && forall w :: 0 <= w < |s.workers| ==> s.workers[w] == Exited
    case Return => s.pc == AwaitingCollector && s.collected
    case Take(w) => w < |s.workers| && s.workers[w] == Idle && s.jobs != []
    case SendResult(w) => w < |s.workers| && s.workers[w].Executing? && |s.out| < OutCap(s.config)
    case Exit(w) => w < |s.workers| && s.workers[w] == Idle && s.jobs == [] && s.jobsClosed
    case Collect => !s.collected && s.out != []
    case EndCollect => !s.collected && s.out == [] && s.outClosed
  }

  function Apply(s: State, a: Action): State
    requires Enabled(s, a)
  {
    match a
    case SendJob => s.(jobs := s.jobs + [s.sent], sent := s.sent + 1)
    case TickDrop => s.(pc := OfferingDrop(s.sent), sent := s.sent + 1, dropped := s.dropped + {s.sent})
    case SendDrop => s.(out := s.out + [Dropped(s.pc.idx)], pc := Producing)
    case CloseJobs => s.(jobsClosed := true, pc := AwaitingWorkers)
    case CloseOut => s.(outClosed := true, pc := AwaitingCollector)
    case Return => s.(pc := Returned)
    case Take(w) => s.(workers := s.workers[w := Executing(s.jobs[0])], jobs := s.jobs[1..])
    case SendResult(w) =>
      s.(out := s.out + [Executed(s.workers[w].idx)], workers := s.workers[w := Idle])
    case Exit(w) => s.(workers := s.workers[w := Exited])
    case Collect => s.(results := s.results + [s.out[0]], out := s.out[1..])
    case EndCollect => s.(collected := true)
  }

  /** Sending on, or closing, a closed channel. */
  predicate Panics(s: State, a: Action)
  {
    match a
    case SendJob => s.jobsClosed
    case SendDrop => s.outClosed
    case SendResult(_) => s.outClosed
    case CloseJobs => s.jobsClosed
    case CloseOut => s.outClosed
    case _ => false
  }

  ghost predicate Execution(s: State, actions: seq<Action>, s': State)
    decreases |actions|
  {
    if actions == [] then s == s'
    else Enabled(s, actions[0]) && Execution(Apply(s, actions[0]), actions[1..], s')
  }

  ghost predicate Reachable(c: Config, s: State)
  {
    exists actions :: Execution(Init(c), actions, s)
  }

  // ------------------------------------------------------------ conservation

  function Indices(results: seq<Result>): seq<nat>
  {
    seq(|results|, i requires 0 <= i < |results| => results[i].idx)
  }

  /** How many workers are executing index x, and how many are executing at all. */
  function Holding(workers: seq<Worker>, x: nat): nat
  {
    if workers == [] then 0
    else (if workers[0] == Executing(x) then 1 else 0) + Holding(workers[1..], x)
  }

  function Busy(workers: seq<Worker>): (n: nat)
    ensures n <= |workers|
  {
    if workers == [] then 0
    else (if workers[0].Executing? then 1 else 0) + Busy(workers[1..])
  }

  /** How often index x exists in the system: queued, executing, offered, in the out channel or collected. */
  function Copies(s: State, x: nat): nat
  {
    multiset(s.jobs)[x] + Holding(s.workers, x) + (if s.pc == OfferingDrop(x) then 1 else 0)
    + multiset(Indices(s.out))[x] + multiset(Indices(s.results))[x]
  }

  function Items(s: State): nat
  {
    |s.jobs| + Busy(s.workers) + (if s.pc.OfferingDrop? then 1 else 0) + |s.out| + |s.results|
  }

  function Upto(n: nat): seq<nat>
  {
    seq(n, i requires 0 <= i < n => i)
  }

  lemma {:induction false} HoldingUpdate(workers: seq<Worker>, w: nat, x: Worker, k: nat)
    requires w < |workers|
    ensures Holding(workers[w := x], k) + (if workers[w] == Executing(k) then 1 else 0)
            == Holding(workers, k) + (if x == Executing(k) then 1 else 0)
    ensures Busy(workers[w := x]) + (if workers[w].Executing? then 1 else 0)
            == Busy(workers) + (if x.Executing? then 1 else 0)
  {
    if w == 0 {
      assert workers[w := x][1..] == workers[1..];
    } else {
      HoldingUpdate(workers[1..], w - 1, x, k);
      assert workers[w := x][1..] == workers[1..][w - 1 := x];
    }
  }

  lemma {:induction false} NobodyHolds(workers: seq<Worker>, k: nat)
    requires forall w :: 0 <= w < |workers| ==> !workers[w].Executing?
    ensures Holding(workers, k) == 0 && Busy(workers) == 0
  {
    if workers != [] { NobodyHolds(workers[1..], k); }
  }

  lemma SnocCount(ids: seq<nat>, id: nat, x: nat)
    ensures multiset(ids + [id])[x] == multiset(ids)[x] + if id == x then 1 else 0
  {
  }

  lemma HeadCount(ids: seq<nat>, x: nat)
    requires ids != []
    ensures multiset(ids)[x] == multiset(ids[1..])[x] + if ids[0] == x then 1 else 0
  {
    assert ids == [ids[0]] + ids[1..];
  }

  lemma IndicesSnoc(results: seq<Result>, r: Result)
    ensures Indices(results + [r]) == Indices(results) + [r.idx]
  {
  }

  lemma IndicesHead(results: seq<Result>)
    requires results != []
    ensures Indices(results) == [results[0].idx] + Indices(results[1..])
  {
  }

  lemma UptoSnoc(n: nat)
    ensures Upto(n + 1) == Upto(n) + [n]
  {
  }

  ghost predicate ControlInv(s: State)
  {
    && ValidConfig(s.config)
    && |s.workers| == WorkerCount(s.config)
    && |s.jobs| <= Max(JobsCap(s.config), 0)
    && |s.out| <= Max(OutCap(s.config), 0)
    && (s.jobsClosed <==> !(s.pc == Producing || s.pc.OfferingDrop?))
    && (s.outClosed <==> s.pc == AwaitingCollector || s.pc == Returned)
    && (s.outClosed ==> forall w :: 0 <= w < |s.workers| ==> s.workers[w] == Exited)
    && (forall w :: 0 <= w < |s.workers| && s.workers[w] == Exited ==> s.jobs == [] && s.jobsClosed)
    && (s.collected ==> s.outClosed && s.out == [])
    && (s.pc == Returned ==> s.collected)
    && (s.config.mode == ClosedModel ==>
          s.sent <= s.config.requests && !s.pc.OfferingDrop? && (s.jobsClosed ==> s.sent == s.config.requests))
  }

  /** Every index numbered so far exists exactly once. */
  ghost predicate ResultInv(s: State)
  {
    && Items(s) == s.sent
    && forall x: nat :: Copies(s, x) == if x < s.sent then 1 else 0
  }

  /** A result says whether its tick was dropped, and only accepted indices reach a worker. */
  ghost predicate DropInv(s: State)
  {
    && (forall i :: i in s.dropped ==> i < s.sent)
    && (s.config.mode == ClosedModel ==> s.dropped == {})
    && (forall k :: 0 <= k < |s.jobs| ==> s.jobs[k] < s.sent && s.jobs[k] !in s.dropped)
    && (forall w :: 0 <= w < |s.workers| && s.workers[w].Executing? ==>
          s.workers[w].idx < s.sent && s.workers[w].idx !in s.dropped)
    && (s.pc.OfferingDrop? ==> s.pc.idx in s.dropped)
    && (forall k :: 0 <= k < |s.out| ==> s.out[k].idx < s.sent && (s.out[k].Dropped? <==> s.out[k].idx in s.dropped))
    && (forall k :: 0 <= k < |s.results| ==>
          s.results[k].idx < s.sent && (s.results[k].Dropped? <==> s.results[k].idx in s.dropped))
  }

  ghost predicate Inv(s: State)
  {
    ControlInv(s) && ResultInv(s) && DropInv(s)
  }

  lemma ControlStep(s: State, a: Action)
    requires ControlInv(s) && Enabled(s, a)
    ensures ControlInv(Apply(s, a))
  {
  }

  lemma DropStep(s: State, a: Action)
    requires ControlInv(s) && DropInv(s) && Enabled(s, a)
    ensures DropInv(Apply(s, a))
  {
  }

  lemma CopiesSendResult(s: State, w: nat, x: nat)
    requires Enabled(s, SendResult(w))
    ensures Copies(Apply(s, SendResult(w)), x) == Copies(s, x) && Items(Apply(s, SendResult(w))) == Items(s)
  {
    var idx := s.workers[w].idx;
    var s' := Apply(s, SendResult(w));
    assert s' == s.(out := s'.out, workers := s'.workers);
    HoldingUpdate(s.workers, w, Idle, x);
    assert Holding(s'.workers, x) + (if idx == x then 1 else 0) == Holding(s.workers, x);
    IndicesSnoc(s.out, Executed(idx));
    SnocCount(Indices(s.out), idx, x);
  }

  lemma CopiesCollect(s: State, x: nat)
    requires Enabled(s, Collect)
    ensures Copies(Apply(s, Collect), x) == Copies(s, x) && Items(Apply(s, Collect)) == Items(s)
  {
    IndicesHead(s.out);
    HeadCount(Indices(s.out), x);
    IndicesSnoc(s.results, s.out[0]);
    SnocCount(Indices(s.results), s.out[0].idx, x);
  }

  lemma CopiesStep(s: State, a: Action, x: nat)
    requires Enabled(s, a)
    ensures Copies(Apply(s, a), x) == Copies(s, x) + if (a == SendJob || a == TickDrop) && x == s.sent then 1 else 0
    ensures Items(Apply(s, a)) == Items(s) + if a == SendJob || a == TickDrop then 1 else 0
  {
    match a
    case SendJob => SnocCount(s.jobs, s.sent, x);
    case SendDrop =>
      IndicesSnoc(s.out, Dropped(s.pc.idx));
      SnocCount(Indices(s.out), s.pc.idx, x);
    case Take(w) =>
      HoldingUpdate(s.workers, w, Executing(s.jobs[0]), x);
      HeadCount(s.jobs, x);
    case SendResult(w) => CopiesSendResult(s, w, x);
    case Exit(w) => HoldingUpdate(s.workers, w, Exited, x);
    case Collect => CopiesCollect(s, x);
    case _ =>
  }

  lemma ResultStep(s: State, a: Action)
    requires ResultInv(s) && Enabled(s, a)
    ensures ResultInv(Apply(s, a))
  {
    CopiesStep(s, a, 0);
    forall x: nat ensures Copies(Apply(s, a), x) == if x < Apply(s, a).sent then 1 else 0 {
      CopiesStep(s, a, x);
    }
  }

  lemma InitInv(c: Config)
    requires ValidConfig(c)
    ensures Inv(Init(c))
  {
    forall x: nat ensures Copies(Init(c), x) == 0 {
      NobodyHolds(Init(c).workers, x);
    }
    NobodyHolds(Init(c).workers, 0);
  }

  lemma {:induction false} InvExecution(s: State, actions: seq<Action>, s': State)
    requires Inv(s) && Execution(s, actions, s')
    ensures Inv(s') && s'.config == s.config
    decreases |actions|
  {
    if actions != [] {
      ControlStep(s, actions[0]);
      ResultStep(s, actions[0]);
      DropStep(s, actions[0]);
      InvExecution(Apply(s, actions[0]), actions[1..], s');
    }
  }

  lemma ReachableInv(c: Config, s: State)
    requires ValidConfig(c) && Reachable(c, s)
    ensures Inv(s) && s.config == c
  {
    var actions :| Execution(Init(c), actions, s);
    InitInv(c);
    InvExecution(Init(c), actions, s);
  }

  // ------------------------------------------------------------ main results

  /** No interleaving sends on, or closes, a closed channel. */
  lemma NoPanic(c: Config, s: State, a: Action)
    requires ValidConfig(c) && Reachable(c, s) && Enabled(s, a)
    ensures !Panics(s, a)
  {
    ReachableInv(c, s);
  }

  /**
   * No deadlock: until the scenario returns some step is enabled. In the open model the
   * producer always has its timer; all other waits end by the steps of the goroutines.
   */
  lemma NoDeadlock(c: Config, s: State)
    requires ValidConfig(c) && Reachable(c, s) && s.pc != Returned
    ensures exists a :: Enabled(s, a) && !Tick(s, a)
  {
    ReachableInv(c, s);
    if !s.collected && s.out != [] {
      assert Enabled(s, Collect);
    } else {
      match s.pc
      case Producing =>
        if c.mode == OpenModel || s.sent == c.requests { assert Enabled(s, CloseJobs); }
        else { assert Enabled(s, SendJob); }
      case OfferingDrop(_) => assert Enabled(s, SendDrop);
      case AwaitingWorkers =>
        if w :| 0 <= w < |s.workers| && s.workers[w] != Exited {
          match s.workers[w]
          case Idle => if s.jobs == [] { assert Enabled(s, Exit(w)); } else { assert Enabled(s, Take(w)); }
          case Executing(_) => OutHasRoom(s, w); assert Enabled(s, SendResult(w));
        } else {
          assert Enabled(s, CloseOut);
        }
      case AwaitingCollector => if s.collected { assert Enabled(s, Return); } else { assert Enabled(s, EndCollect); }
      case Returned =>
    }
  }

  /** A worker with a result in hand always finds room once the collector has caught up. */
  lemma OutHasRoom(s: State, w: nat)
    requires Inv(s) && w < |s.workers| && s.workers[w].Executing? && s.out == []
    ensures 0 < OutCap(s.config)
  {
    HoldingUpdate(s.workers, w, Idle, 0);
  }

  /** Work left: every step other than a tick decreases it, and nothing is left when main returns. */
  function Measure(s: State): nat
  {
    (match s.pc
     case Producing => 5
     case OfferingDrop(_) => 8
     case AwaitingWorkers => 4
     case AwaitingCollector => 2
     case Returned => 0)
    + (if s.config.mode == ClosedModel && s.sent < s.config.requests then 5 * (s.config.requests - s.sent) else 0)
    + 4 * |s.jobs| + WorkLeft(s.workers) + |s.out| + (if s.collected then 0 else 1)
  }

  function WorkLeft(workers: seq<Worker>): nat
  {
    if workers == [] then 0
    else (match workers[0] case Idle => 1 case Executing(_) => 3 case Exited => 0) + WorkLeft(workers[1..])
  }

  lemma {:induction false} WorkLeftUpdate(workers: seq<Worker>, w: nat, x: Worker)
    requires w < |workers|
    ensures WorkLeft(workers[w := x]) + WorkLeft([workers[w]]) == WorkLeft(workers) + WorkLeft([x])
  {
    if w == 0 {
      assert workers[w := x][1..] == workers[1..];
    } else {
      WorkLeftUpdate(workers[1..], w - 1, x);
      assert workers[w := x][1..] == workers[1..][w - 1 := x];
    }
  }

  lemma MeasureStep(s: State, a: Action)
    requires Enabled(s, a) && !Tick(s, a)
    ensures Measure(Apply(s, a)) < Measure(s)
  {
    match a
    case Take(w) => WorkLeftUpdate(s.workers, w, Executing(s.jobs[0]));
    case SendResult(w) => WorkLeftUpdate(s.workers, w, Idle);
    case Exit(w) => WorkLeftUpdate(s.workers, w, Exited);
    case _ =>
  }

  lemma MeasureTick(s: State, a: Action)
    requires Enabled(s, a) && Tick(s, a)
    ensures Measure(Apply(s, a)) <= Measure(s) + 4
  {
  }

  function Ticks(s: State, actions: seq<Action>): nat
  {
    if actions == [] then 0
    else (if Tick(s, actions[0]) then 1 else 0)
         + Ticks(s, actions[1..])
  }

  /**
   * Termination: the length of any execution is bounded by the initial work plus five
   * steps for each tick of the open model's clock. The closed model has no ticks.
   */
  lemma {:induction false} Terminates(s: State, actions: seq<Action>, s': State)
    requires Execution(s, actions, s')
    ensures |actions| + Measure(s') <= Measure(s) + 5 * Ticks(s, actions)
    ensures s.config.mode == ClosedModel ==> Ticks(s, actions) == 0
    decreases |actions|
  {
    if actions != [] {
      var s1 := Apply(s, actions[0]);
      Terminates(s1, actions[1..], s');
      TicksConfig(s1, s, actions[1..]);
      if Tick(s, actions[0]) { MeasureTick(s, actions[0]); } else { MeasureStep(s, actions[0]); }
    }
  }

  lemma {:induction false} TicksConfig(s: State, s': State, actions: seq<Action>)
    requires s.config == s'.config
    ensures Ticks(s, actions) == Ticks(s', actions)
  {
    if actions != [] { TicksConfig(s, s', actions[1..]); }
  }

  /**
   * Accounting at return, in both models: every index the producer numbered has exactly
   * one result and nothing else has, and a result is a drop exactly when its tick found
   * the job channel full. The one exception is a closed run without workers.
   */
  lemma EveryIndexOnce(c: Config, s: State)
    requires ValidConfig(c) && Reachable(c, s) && s.pc == Returned
    ensures WorkerCount(c) > 0 || c.requests == 0 ==>
              multiset(Indices(s.results)) == multiset(Upto(s.sent)) && |s.results| == s.sent
    ensures WorkerCount(c) == 0 ==> s.results == []
    ensures forall i, j :: 0 <= i < j < |s.results| ==> s.results[i].idx != s.results[j].idx
    ensures forall k :: 0 <= k < |s.results| ==> (s.results[k].Dropped? <==> s.results[k].idx in s.dropped)
  {
    ReachableInv(c, s);
    NobodyHolds(s.workers, 0);
    if |s.workers| > 0 {
      assert s.workers[0] == Exited;
      forall x: nat ensures multiset(Indices(s.results))[x] == multiset(Upto(s.sent))[x] {
        NobodyHolds(s.workers, x);
        UptoOnce(s.sent, x);
        assert Copies(s, x) == if x < s.sent then 1 else 0;
      }
      PermutationOfUpto(Indices(s.results), s.sent);
      assert forall i :: 0 <= i < |s.results| ==> Indices(s.results)[i] == s.results[i].idx;
    } else {
      WithoutWorkers(c, s);
    }
  }

  /** Without workers nothing leaves the job channel. */
  lemma WithoutWorkers(c: Config, s: State)
    requires ValidConfig(c) && Reachable(c, s) && WorkerCount(c) == 0
    ensures s.results == []
    ensures c.requests == 0 ==> s.sent == 0
  {
    ReachableInv(c, s);
    var actions :| Execution(Init(c), actions, s);
    NothingExecuted(Init(c), actions, s);
  }

  lemma {:induction false} NothingExecuted(s: State, actions: seq<Action>, s': State)
    requires Execution(s, actions, s')
    requires s.config.mode == ClosedModel && |s.workers| == 0 && s.out == [] && s.results == []
    requires !s.pc.OfferingDrop?
    ensures s'.results == []
    decreases |actions|
  {
    if actions != [] { NothingExecuted(Apply(s, actions[0]), actions[1..], s'); }
  }

  lemma PermutationOfUpto(ids: seq<nat>, n: nat)
    requires multiset(ids) == multiset(Upto(n))
    ensures forall i, j :: 0 <= i < j < |ids| ==> ids[i] != ids[j]
  {
    forall i, j | 0 <= i < j < |ids| ensures ids[i] != ids[j] {
      UptoOnce(n, ids[j]);
      assert ids == ids[..j] + [ids[j]] + ids[j + 1..];
      assert ids[i] in ids[..j];
      assert multiset(ids)[ids[j]] >= multiset(ids[..j])[ids[j]] + 1;
    }
  }

  lemma {:induction false} UptoOnce(n: nat, x: nat)
    ensures multiset(Upto(n))[x] == if x < n then 1 else 0
  {
    if n > 0 {
      UptoOnce(n - 1, x);
      UptoSnoc(n - 1);
    } else {
      assert Upto(0) == [];
    }
  }

  /**
   * The closed scenario returns exactly Requests results, one per index 0..Requests-1 and
   * each executed by a worker, if and only if it has a worker or nothing to do.
   */
  lemma ClosedScenario(c: Config, s: State)
    requires c.mode == ClosedModel && Reachable(c, s) && s.pc == Returned
    ensures s.sent == c.requests
    ensures (multiset(Indices(s.results)) == multiset(Upto(c.requests)) && |s.results| == c.requests)
            <==> (c.concurrency >= 1 || c.requests == 0)
    ensures forall k :: 0 <= k < |s.results| ==> s.results[k].Executed?
  {
    ReachableInv(c, s);
    EveryIndexOnce(c, s);
  }

  /** The open scenario: results = ticks = executed + dropped, and every accepted tick was executed. */
  lemma OpenScenario(c: Config, s: State)
    requires ValidConfig(c) && c.mode == OpenModel && Reachable(c, s) && s.pc == Returned
    ensures |s.results| == s.sent
    ensures forall i: nat :: i < s.sent && i !in s.dropped ==> Executed(i) in s.results
    ensures forall i: nat :: i in s.dropped ==> i < s.sent && Dropped(i) in s.results
    ensures forall i, j :: 0 <= i < j < |s.results| ==> s.results[i].idx != s.results[j].idx
  {
    ReachableInv(c, s);
    EveryIndexOnce(c, s);
    forall i: nat | i < s.sent ensures (if i in s.dropped then Dropped(i) else Executed(i)) in s.results {
      UptoOnce(s.sent, i);
      assert i in multiset(Indices(s.results));
      var k :| 0 <= k < |s.results| && Indices(s.results)[k] == i;
      assert s.results[k] == if i in s.dropped then Dropped(i) else Executed(i);
    }
  }

  /**
   * The open model's admission: at no time are more than 2 * Concurrency accepted jobs
   * queued or executing, and a tick is dropped exactly when Concurrency jobs are queued.
   */
  lemma OpenAdmission(c: Config, s: State)
    requires ValidConfig(c) && c.mode == OpenModel && Reachable(c, s)
    ensures |s.jobs| + Busy(s.workers) <= 2 * c.concurrency
    ensures Enabled(s, TickDrop) <==> s.pc == Producing && |s.jobs| == c.concurrency
    ensures Enabled(s, SendJob) <==> s.pc == Producing && |s.jobs| < c.concurrency
  {
    ReachableInv(c, s);
  }

  // ------------------------------------------------------------ token use

  /** How often executeOne's tokens[idx % len(tokens)] picks token t. */
  function Uses(ids: seq<nat>, tokens: nat, t: nat): nat
    requires tokens > 0
  {
    if ids == [] then 0 else (if ids[0] % tokens == t then 1 else 0) + Uses(ids[1..], tokens, t)
  }

  lemma {:induction false} UsesConcat(a: seq<nat>, b: seq<nat>, tokens: nat, t: nat)
    requires tokens > 0
    ensures Uses(a + b, tokens, t) == Uses(a, tokens, t) + Uses(b, tokens, t)
  {
    if a == [] {
      assert a + b == b;
    } else {
      assert (a + b)[1..] == a[1..] + b;
      UsesConcat(a[1..], b, tokens, t);
    }
  }

  lemma {:induction false} UsesPermutation(a: seq<nat>, b: seq<nat>, tokens: nat, t: nat)
    requires tokens > 0 && multiset(a) == multiset(b)
    ensures Uses(a, tokens, t) == Uses(b, tokens, t)
  {
    if a == [] {
      assert |multiset(b)| == |b|;
    } else {
      assert a[0] in multiset(b);
      var i :| 0 <= i < |b| && b[i] == a[0];
      var b' := b[..i] + b[i + 1..];
      assert b == b[..i] + [b[i]] + b[i + 1..];
      assert a == [a[0]] + a[1..];
      assert multiset(a) == multiset{a[0]} + multiset(a[1..]);
      assert multiset(b) == multiset{a[0]} + multiset(b');
      Cancel(multiset{a[0]}, multiset(a[1..]), multiset(b'));
      UsesPermutation(a[1..], b', tokens, t);
      UsesConcat(b[..i], [b[i]] + b[i + 1..], tokens, t);
      assert b == b[..i] + ([b[i]] + b[i + 1..]);
      UsesConcat(b[..i], b[i + 1..], tokens, t);
    }
  }

  lemma Cancel(x: multiset<nat>, a: multiset<nat>, b: multiset<nat>)
    requires x + a == x + b
    ensures a == b
  {
    forall k ensures a[k] == b[k] {
      assert (x + a)[k] == (x + b)[k];
    }
  }

  lemma {:induction false} UsesUpto(n: nat, tokens: nat, t: nat)
    requires t < tokens
    ensures Uses(Upto(n), tokens, t) == n / tokens + if t < n % tokens then 1 else 0
  {
    if n > 0 {
      UsesUpto(n - 1, tokens, t);
      UptoSnoc(n - 1);
      UsesConcat(Upto(n - 1), [n - 1], tokens, t);
      DivModSucc(n - 1, tokens);
    } else {
      assert Upto(0) == [];
    }
  }

  lemma DivModSucc(n: nat, d: nat)
    requires d > 0
    ensures n % d + 1 == d ==> (n + 1) / d == n / d + 1 && (n + 1) % d == 0
    ensures n % d + 1 < d ==> (n + 1) / d == n / d && (n + 1) % d == n % d + 1
  {
    var q, r := n / d, n % d;
    assert n == d * q + r;
    if r + 1 == d {
      assert n + 1 == d * (q + 1);
      DivModUnique(n + 1, d, q + 1, 0);
    } else {
      DivModUnique(n + 1, d, q, r + 1);
    }
  }

  lemma DivModUnique(n: nat, d: nat, q: nat, r: nat)
    requires d > 0 && n == d * q + r && r < d
    ensures n / d == q && n % d == r
  {
    var q', r' := n / d, n % d;
    assert d * (q - q') == r' - r;
    SmallMultiple(d, q - q', r' - r);
  }

  lemma SmallMultiple(d: int, k: int, r: int)
    requires d > 0 && d * k == r && -d < r < d
    ensures k == 0
  {
  }

  /** In a closed run with workers, token t is used floor(R/T) times, or once more for the first R mod T tokens. */
  lemma TokensBalanced(c: Config, s: State, tokens: nat, t: nat)
    requires c.mode == ClosedModel && Reachable(c, s) && s.pc == Returned && c.concurrency >= 1
    requires t < tokens
    ensures Uses(Indices(s.results), tokens, t) == c.requests / tokens + if t < c.requests % tokens then 1 else 0
  {
    ClosedScenario(c, s);
    UsesPermutation(Indices(s.results), Upto(c.requests), tokens, t);
    UsesUpto(c.requests, tokens, t);
  }
}
