/** Termination, deadlock freedom and shutdown of the pipeline. */
module PipelineProgress {
  import opened Model
  import opened Sums
  import opened Pipeline
  import opened PipelineSafety

  // ---------- Every run is short ----------

  function PendingCost(us: seq<Update>): int {
    7 * |us|
  }

  function OpenCost(open: bool): int {
    if open then 1 else 0
  }

  function ForwarderCost(x: Forwarder): int {
    match x
    case Receiving => 2
    case Sending(_) => 8
    case Ended => 1
    case Finished => 0
  }

  function DispatcherCost(d: Dispatcher): int {
    match d
    case Ranging => 2
    case Offering(_) => 7
    case Leaving(_) => 1
    case Left(_) => 0
  }

  function WorkerCost(x: Worker): int {
    match x
    case Idle => 2
    case Setting(_) => 6
    case Adding(_) => 5
    case Falling(_) => 4
    case Emitting(_) => 3
    case Exiting(_) => 1
    case Gone(_) => 0
  }

  function FanCost(f: Fan): int {
    SumInt(PendingCost, f.pending) + SumInt(OpenCost, f.open) + SumInt(ForwarderCost, f.forwarders)
    + (if f.closerDone then 0 else 1)
  }

  function PoolCost(p: Pool): int {
    SumInt(WorkerCost, p.workers) + (if p.closerDone then 0 else 1) + (if p.consumerDone then 0 else 1)
  }

  /** An upper bound on the steps still to come. */
  function Cost(s: State): int {
    FanCost(s.fan) + DispatcherCost(s.dispatcher) + PoolCost(s.pool) + (if s.cancelled then 0 else 1)
  }

  lemma ForwarderStepCosts(f: Fan, i: nat, m: ForwarderMove)
    requires i < |f.forwarders| == |f.open| == |f.pending| == |f.consumed| && ForwarderReady(f, true, i, m)
    ensures FanCost(FanAfter(f, i, m)) == FanCost(f) - 1
  {
    SumIntUpdate(ForwarderCost, f.forwarders, i, ForwarderAfter(f, i, m));
    match m
    case Receive => SumIntUpdate(PendingCost, f.pending, i, f.pending[i][1..]);
    case SourceClose => SumIntUpdate(OpenCost, f.open, i, false);
    case _ =>
  }

  lemma WorkerStepCosts(p: Pool, w: nat, m: WorkerMove)
    requires w < |p.workers| && Fits(p.workers[w], m)
    ensures PoolCost(PoolAfter(p, w, m)) < PoolCost(p)
  {
    SumIntUpdate(WorkerCost, p.workers, w, WorkerAfter(p.workers[w], m));
  }

  lemma StepCosts(s: State, a: Action)
    requires Shaped(s) && Enabled(s, a) && !Panics(s, a)
    ensures Cost(Apply(s, a)) < Cost(s)
  {
    match a
    case Forward(i, m) => ForwarderStepCosts(s.fan, i, m);
    case Merge(i) => SumIntUpdate(ForwarderCost, s.fan.forwarders, i, Receiving);
    case Hand(w) => SumIntUpdate(WorkerCost, s.pool.workers, w, Setting(s.dispatcher.v));
    case Work(w, m) => WorkerStepCosts(s.pool, w, m);
    case _ =>
  }

  lemma CostIsNatural(s: State)
    ensures Cost(s) >= 0
  {
    SumIntZero(PendingCost, s.fan.pending);
    SumIntZero(OpenCost, s.fan.open);
    SumIntZero(ForwarderCost, s.fan.forwarders);
    SumIntZero(WorkerCost, s.pool.workers);
  }

  lemma {:induction false} RunCosts(inputs: seq<seq<Update>>, s: State, run: seq<Action>)
    requires Inv(inputs, s) && IsRun(s, run)
    ensures |run| <= Cost(s)
    decreases |run|
  {
    CostIsNatural(s);
    if run != [] {
      NeverPanics(s, run[0]);
      InvStep(inputs, s, run[0]);
      StepCosts(s, run[0]);
      RunCosts(inputs, Apply(s, run[0]), run[1..]);
    }
  }

  lemma {:induction false} PendingTotal(inputs: seq<seq<Update>>)
    ensures SumInt(PendingCost, inputs) == 7 * |Flatten(inputs)|
  {
    if inputs != [] {
      PendingTotal(inputs[1..]);
    }
  }

  /**
   Whatever the interleaving, failures and cancellation, a pipeline over finite inputs stops after boundedly
   many steps.
   */
  lemma Termination(inputs: seq<seq<Update>>, workers: int, run: seq<Action>)
    requires IsRun(Init(inputs, workers), run)
    ensures |run| <= 7 * |Flatten(inputs)| + 3 * |inputs| + 2 * AtLeastOne(workers) + 6
  {
    var s := Init(inputs, workers);
    InvInit(inputs, workers);
    RunCosts(inputs, s, run);
    PendingTotal(inputs);
    FreshCounts(OpenCost, s.fan.open, true, 1);
    FreshCounts(ForwarderCost, s.fan.forwarders, Receiving, 2);
    FreshCounts(WorkerCost, s.pool.workers, Idle, 2);
  }

  // ---------- Deadlock freedom ----------

  ghost predicate FanDone(f: Fan) {
    f.closerDone && forall i :: 0 <= i < |f.forwarders| ==> f.forwarders[i].Finished?
  }

  ghost predicate PoolDone(p: Pool) {
    p.closerDone && p.consumerDone && forall w :: 0 <= w < |p.workers| ==> p.workers[w].Gone?
  }

  /** Every goroutine has returned and every channel is closed. */
  ghost predicate Final(s: State) {
    FanDone(s.fan) && s.dispatcher.Left? && PoolDone(s.pool)
  }

  /** Something other than a cancellation can happen. */
  ghost predicate CanMove(s: State)
    requires Shaped(s)
  {
    exists a :: a != Cancel && Enabled(s, a)
  }

  /** FanIn's output stays open while one of its forwarders is live. */
  lemma OpenWhileLive(inputs: seq<seq<Update>>, s: State, i: nat)
    requires Inv(inputs, s) && i < |s.fan.forwarders| && !s.fan.forwarders[i].Finished?
    ensures !s.fan.mergedClosed && s.fan.wait > 0
  {
    SumIntZero(Live, s.fan.forwarders);
    assert Live(s.fan.forwarders[i]) == 1;
  }

  /** `processed` stays open while a worker is there. */
  lemma OpenWhileStaffed(inputs: seq<seq<Update>>, s: State, w: nat)
    requires Inv(inputs, s) && w < |s.pool.workers| && !s.pool.workers[w].Gone?
    ensures !s.pool.outClosed
  {
    SumIntZero(Staffed, s.pool.workers);
    assert Staffed(s.pool.workers[w]) == 1;
  }

  /** A worker that is not idle and not gone can always move; an idle one can once the work channel is closed. */
  lemma WorkerMoves(inputs: seq<seq<Update>>, s: State, w: nat)
    requires Inv(inputs, s) && w < |s.pool.workers| && !s.pool.workers[w].Gone?
    requires s.pool.workers[w].Idle? ==> s.workClosed || s.cancelled
    ensures exists m :: Enabled(s, Work(w, m))
  {
    var x := s.pool.workers[w];
    OpenWhileStaffed(inputs, s, w);
    var m :=
      match x
      case Idle => if s.workClosed then StopOnClosed else StopOnCancel
      case Setting(_) => SetLatest(true)
      case Adding(_) => AddToWindow(true)
      case Falling(_) => Save(true)
      case Emitting(_) => Emit
      case _ => WorkerDone;
    assert WorkerReady(s, x, m);
    assert Enabled(s, Work(w, m));
  }

  lemma OfferingMoves(inputs: seq<seq<Update>>, s: State)
    requires Inv(inputs, s) && !s.cancelled && |s.pool.workers| >= 1 && s.dispatcher.Offering?
    ensures CanMove(s)
  {
    if s.pool.workers[0].Idle? {
      assert Enabled(s, Hand(0));
    } else {
      assert s.pool.workers[0].Gone? ==> s.workClosed;
      WorkerMoves(inputs, s, 0);
    }
  }

  lemma ForwarderMoves(inputs: seq<seq<Update>>, s: State, i: nat)
    requires Inv(inputs, s) && !s.cancelled && |s.pool.workers| >= 1
    requires i < |s.fan.forwarders| && !s.fan.forwarders[i].Finished?
    ensures CanMove(s)
  {
    var f := s.fan;
    match f.forwarders[i]
    case Receiving =>
      var m := if !f.open[i] then LeaveLoop else if f.pending[i] == [] then SourceClose else Receive;
      assert Enabled(s, Forward(i, m));
    case Ended => assert Enabled(s, Forward(i, ForwarderDone));
    case Sending(v) =>
      OpenWhileLive(inputs, s, i);
      if s.dispatcher.Ranging? {
        assert Enabled(s, Merge(i));
      } else {
        OfferingMoves(inputs, s);
      }
  }

  lemma PoolMoves(inputs: seq<seq<Update>>, s: State)
    requires Inv(inputs, s) && s.workClosed && !PoolDone(s.pool)
    ensures CanMove(s)
  {
    if w :| 0 <= w < |s.pool.workers| && !s.pool.workers[w].Gone? {
      WorkerMoves(inputs, s, w);
    } else {
      SumIntZero(Staffed, s.pool.workers);
      assert if s.pool.closerDone then Enabled(s, ConsumerEnd) else Enabled(s, PoolClose);
    }
  }

  lemma NotFinalMoves(inputs: seq<seq<Update>>, s: State)
    requires Inv(inputs, s) && !s.cancelled && |s.pool.workers| >= 1 && !Final(s)
    ensures CanMove(s)
  {
    if i :| 0 <= i < |s.fan.forwarders| && !s.fan.forwarders[i].Finished? {
      ForwarderMoves(inputs, s, i);
    } else if !s.fan.closerDone {
      SumIntZero(Live, s.fan.forwarders);
      assert Enabled(s, FanClose);
    } else {
      match s.dispatcher {
        case Ranging => assert Enabled(s, DispatchEnd);
        case Offering(_) => OfferingMoves(inputs, s);
        case Leaving(_) => assert Enabled(s, DispatchClose);
        case Left(_) => PoolMoves(inputs, s);
      }
    }
  }

  lemma FinalIsStill(inputs: seq<seq<Update>>, s: State)
    requires Inv(inputs, s) && Final(s)
    ensures !CanMove(s)
  {
    forall a | Enabled(s, a)
      ensures a == Cancel
    {}
  }

  /** Without cancellation the pipeline can stop in one way only: with every goroutine done and every channel closed. */
  lemma DeadlockFreedom(inputs: seq<seq<Update>>, workers: int, s: State)
    requires Reachable(inputs, workers, s) && !s.cancelled
    ensures Shaped(s) && (!CanMove(s) <==> Final(s))
  {
    ReachableInv(inputs, workers, s);
    if Final(s) {
      FinalIsStill(inputs, s);
    } else {
      NotFinalMoves(inputs, s);
    }
  }

  // ---------- Where runs stop ----------

  /**
   Nothing can happen any more: the pool is done, the dispatcher has returned, and all sources are closed. Forwarders
   have returned too, or hold an update that nobody will take; in the first case FanIn's output is closed.
   */
  ghost predicate Stuck(s: State)
    requires Shaped(s)
  {
    && PoolDone(s.pool) && s.dispatcher.Left?
    && (forall i :: 0 <= i < |s.fan.forwarders| ==>
          !s.fan.open[i] && (s.fan.forwarders[i].Finished? || s.fan.forwarders[i].Sending?))
    && (s.fan.closerDone || exists i :: 0 <= i < |s.fan.forwarders| && s.fan.forwarders[i].Sending?)
  }

  lemma StuckBut(inputs: seq<seq<Update>>, s: State, a: Action)
    requires Inv(inputs, s) && Stuck(s) && Enabled(s, a)
    ensures a == Cancel
  {
    SumIntZero(Live, s.fan.forwarders);
    if i :| 0 <= i < |s.fan.forwarders| && s.fan.forwarders[i].Sending? {
      OpenWhileLive(inputs, s, i);
    }
  }

  lemma StuckIsStill(inputs: seq<seq<Update>>, s: State)
    requires Inv(inputs, s) && Stuck(s)
    ensures !CanMove(s)
  {
    forall a | Enabled(s, a)
      ensures a == Cancel
    {
      StuckBut(inputs, s, a);
    }
  }

  /** A forwarder of a cancelled pipeline can move unless it has finished or is stuck in its send. */
  lemma CancelledForwarderMoves(inputs: seq<seq<Update>>, s: State, i: nat)
    requires Inv(inputs, s) && s.cancelled && i < |s.fan.forwarders|
    requires s.fan.open[i] || s.fan.forwarders[i].Receiving? || s.fan.forwarders[i].Ended?
    ensures CanMove(s)
  {
    var m := if s.fan.open[i] then SourceClose else if s.fan.forwarders[i].Receiving? then LeaveLoop else ForwarderDone;
    assert Enabled(s, Forward(i, m));
  }

  /** A cancelled dispatcher returns, unless it waits for FanIn. */
  lemma CancelledDispatcherMoves(inputs: seq<seq<Update>>, s: State)
    requires Inv(inputs, s) && s.cancelled && (s.dispatcher.Offering? || s.dispatcher.Leaving?)
    ensures CanMove(s)
  {
    assert Enabled(s, if s.dispatcher.Offering? then DispatchCancel else DispatchClose);
  }

  lemma CancelledMoves(inputs: seq<seq<Update>>, s: State)
    requires Inv(inputs, s) && s.cancelled && !Stuck(s)
    ensures CanMove(s)
  {
    var f := s.fan;
    if i :| 0 <= i < |f.forwarders| && (f.open[i] || f.forwarders[i].Receiving? || f.forwarders[i].Ended?) {
      CancelledForwarderMoves(inputs, s, i);
    } else if s.dispatcher.Offering? || s.dispatcher.Leaving? {
      CancelledDispatcherMoves(inputs, s);
    } else if !PoolDone(s.pool) {
      var a := CancelledPoolMoves(inputs, s);
    } else if i :| 0 <= i < |f.forwarders| && f.forwarders[i].Sending? {
      OpenWhileLive(inputs, s, i);
      assert s.dispatcher.Ranging? ==> Enabled(s, Merge(i));
    } else {
      SumIntZero(Live, f.forwarders);
      assert if f.closerDone then Enabled(s, DispatchEnd) else Enabled(s, FanClose);
    }
  }

  /**
   Cancelled or not, a run stops exactly where everything has returned but forwarders that still hold an update; so
   `workCh` and `processed` are always closed in the end. Without cancellation no forwarder is left behind.
   */
  lemma StuckExactly(inputs: seq<seq<Update>>, workers: int, s: State)
    requires Reachable(inputs, workers, s)
    ensures Shaped(s) && (!CanMove(s) <==> Stuck(s))
    ensures Stuck(s) ==> s.workClosed && s.pool.outClosed
    ensures Stuck(s) && !s.cancelled ==> Final(s)
  {
    ReachableInv(inputs, workers, s);
    if Stuck(s) {
      StuckIsStill(inputs, s);
      SumIntZero(Live, s.fan.forwarders);
      if !s.cancelled {
        forall i | 0 <= i < |s.fan.forwarders| ensures s.fan.forwarders[i].Finished? {
          if !s.fan.forwarders[i].Finished? {
            OpenWhileLive(inputs, s, i);
          }
        }
      }
    } else if s.cancelled {
      CancelledMoves(inputs, s);
    } else {
      NotFinalMoves(inputs, s);
    }
  }

  /** From its offer a cancelled dispatcher drops the update and closes `workCh` by two steps of its own. */
  lemma DispatcherLeaves(inputs: seq<seq<Update>>, workers: int, s: State)
    requires Reachable(inputs, workers, s) && s.cancelled && s.dispatcher.Offering?
    ensures Shaped(s) && IsRun(s, [DispatchCancel, DispatchClose])
    ensures var t := Exec(s, [DispatchCancel, DispatchClose]);
            t.dispatcher == Left(Some(s.dispatcher.v)) && t.workClosed && !t.panicked
  {
    ReachableInv(inputs, workers, s);
    var t := Apply(s, DispatchCancel);
    assert [DispatchCancel, DispatchClose][1..] == [DispatchClose];
    assert IsRun(t, [DispatchClose]);
  }

  /**
   Cancellation can come at any time and forces nothing: the dispatcher may still hand its update to any idle worker,
   and sources may go on sending.
   */
  lemma DispatcherChooses(inputs: seq<seq<Update>>, workers: int, s: State)
    requires Reachable(inputs, workers, s)
    ensures Shaped(s) && (Enabled(s, Cancel) <==> !s.cancelled)
    ensures s.dispatcher.Offering? ==> (Enabled(s, DispatchCancel) <==> s.cancelled)
    ensures s.dispatcher.Offering? ==>
              forall w: nat :: w < |s.pool.workers| ==> (Enabled(s, Hand(w)) <==> s.pool.workers[w].Idle?)
  {
    ReachableInv(inputs, workers, s);
  }

  lemma SourcesChoose(inputs: seq<seq<Update>>, workers: int, s: State, i: nat)
    requires Reachable(inputs, workers, s) && i < |inputs|
    ensures Shaped(s) && i < |s.fan.open|
    ensures Enabled(s, Forward(i, SourceClose)) <==> s.fan.open[i] && (s.cancelled || s.fan.pending[i] == [])
    ensures Enabled(s, Forward(i, Receive))
            <==> s.fan.open[i] && s.fan.forwarders[i].Receiving? && s.fan.pending[i] != []
  {
    ReachableInv(inputs, workers, s);
  }

  /** A worker in a `select` may take either branch that is ready, and every call may succeed or fail. */
  lemma WorkersChoose(inputs: seq<seq<Update>>, workers: int, s: State, w: nat, m: WorkerMove)
    requires Reachable(inputs, workers, s) && w < |s.pool.workers|
    ensures Shaped(s)
    ensures var x := s.pool.workers[w];
            Enabled(s, Work(w, m)) <==>
              match m
              case StopOnCancel => x.Idle? && s.cancelled
              case StopOnClosed => x.Idle? && s.workClosed
              case SetLatest(_) => x.Setting?
              case AddToWindow(_) => x.Adding?
              case Save(_) => x.Falling?
              case Emit => x.Emitting?
              case Skip => x.Emitting? && s.cancelled
              case WorkerDone => x.Exiting?
  {
    ReachableInv(inputs, workers, s);
    if s.pool.workers[w].Emitting? {
      OpenWhileStaffed(inputs, s, w);
    }
  }

  // ---------- Shutdown ----------

  /** A step of a worker, of the pool's closer or of the consumer. */
  predicate PoolOwn(a: Action) {
    a.Work? || a.PoolClose? || a.ConsumerEnd?
  }

  ghost predicate PoolCanMove(s: State)
    requires Shaped(s)
  {
    exists a :: PoolOwn(a) && Enabled(s, a)
  }

  lemma CancelledPoolMoves(inputs: seq<seq<Update>>, s: State) returns (a: Action)
    requires Inv(inputs, s) && s.cancelled && !PoolDone(s.pool)
    ensures PoolOwn(a) && Enabled(s, a)
  {
    if w :| 0 <= w < |s.pool.workers| && !s.pool.workers[w].Gone? {
      WorkerMoves(inputs, s, w);
      var m :| Enabled(s, Work(w, m));
      a := Work(w, m);
    } else {
      SumIntZero(Staffed, s.pool.workers);
      a := if s.pool.closerDone then ConsumerEnd else PoolClose;
    }
  }

  lemma DonePoolIsStill(inputs: seq<seq<Update>>, s: State)
    requires Inv(inputs, s) && PoolDone(s.pool)
    ensures !PoolCanMove(s)
  {
    forall a | Enabled(s, a)
      ensures !PoolOwn(a)
    {}
  }

  /** After cancellation the pool can finish alone, wherever the forwarders and the dispatcher are stuck. */
  lemma {:induction false} PoolFinishesAlone(inputs: seq<seq<Update>>, s: State) returns (run: seq<Action>)
    requires Inv(inputs, s) && s.cancelled
    ensures IsRun(s, run) && PoolDone(Exec(s, run).pool)
    ensures forall i :: 0 <= i < |run| ==> PoolOwn(run[i])
    ensures Exec(s, run).fan == s.fan && Exec(s, run).dispatcher == s.dispatcher
    decreases Cost(s)
  {
    if PoolDone(s.pool) {
      run := [];
    } else {
      var a := CancelledPoolMoves(inputs, s);
      NeverPanics(s, a);
      InvStep(inputs, s, a);
      StepCosts(s, a);
      CostIsNatural(s);
      CostIsNatural(Apply(s, a));
      var rest := PoolFinishesAlone(inputs, Apply(s, a));
      run := [a] + rest;
      assert run[1..] == rest;
    }
  }

  /**
   Once the context is cancelled no worker is ever blocked, so under fair scheduling each runs to its end:
   the pool's own steps run out exactly when all workers are gone, `processed` is closed and its consumer
   has returned. Some continuation gets there without a step of the forwarders or the dispatcher, and at
   most one result per worker stays unsent.
   */
  lemma Shutdown(inputs: seq<seq<Update>>, workers: int, s: State)
    requires Reachable(inputs, workers, s) && s.cancelled
    ensures Shaped(s)
    ensures forall w :: 0 <= w < |s.pool.workers| && !s.pool.workers[w].Gone? ==> exists m :: Enabled(s, Work(w, m))
    ensures !PoolCanMove(s) <==> PoolDone(s.pool)
    ensures exists run :: IsRun(s, run) && PoolDone(Exec(s, run).pool) && Exec(s, run).fan == s.fan
    ensures |s.pool.received| <= |s.pool.emitted| + AtLeastOne(workers)
  {
    ReachableInv(inputs, workers, s);
    Conservation(inputs, workers, s);
    forall w: nat | w < |s.pool.workers| && !s.pool.workers[w].Gone?
      ensures exists m :: Enabled(s, Work(w, m))
    {
      WorkerMoves(inputs, s, w);
    }
    if PoolDone(s.pool) {
      DonePoolIsStill(inputs, s);
    } else {
      var a := CancelledPoolMoves(inputs, s);
    }
    var run := PoolFinishesAlone(inputs, s);
  }
}
