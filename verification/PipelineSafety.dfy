/** What every reachable state of the pipeline satisfies, cancelled or not. */
module PipelineSafety {
  import opened Model
  import opened Sums
  import opened Pipeline
  import Redis

  // ---------- Closing ----------

  function Live(x: Forwarder): int {
    if x.Finished? then 0 else 1
  }

  function Staffed(x: Worker): int {
    if x.Gone? then 0 else 1
  }

  /** Each WaitGroup counts the goroutines that have not called Done, and guards its channel's one close. */
  ghost predicate ClosingInv(s: State) {
    var f, p := s.fan, s.pool;
    && Shaped(s)
    && !s.panicked
    && f.wait == SumInt(Live, f.forwarders)
    && f.mergedClosed == f.closerDone
    && (f.closerDone ==> f.wait == 0)
    && s.workClosed == s.dispatcher.Left?
    && p.wait == SumInt(Staffed, p.workers)
    && p.outClosed == p.closerDone
    && (p.closerDone ==> p.wait == 0)
    && (p.consumerDone ==> p.outClosed)
  }

  lemma NeverPanics(s: State, a: Action)
    requires ClosingInv(s) && Enabled(s, a)
    ensures !Panics(s, a)
  {
    var f, p := s.fan, s.pool;
    SumIntZero(Live, f.forwarders);
    SumIntZero(Staffed, p.workers);
  }

  lemma ClosingStep(s: State, a: Action)
    requires ClosingInv(s) && Enabled(s, a)
    ensures ClosingInv(Apply(s, a))
  {
    NeverPanics(s, a);
    var f, p := s.fan, s.pool;
    match a
    case Forward(i, m) => SumIntUpdate(Live, f.forwarders, i, ForwarderAfter(f, i, m));
    case Merge(i) => SumIntUpdate(Live, f.forwarders, i, Receiving);
    case Hand(w) => SumIntUpdate(Staffed, p.workers, w, Setting(s.dispatcher.v));
    case Work(w, m) => SumIntUpdate(Staffed, p.workers, w, WorkerAfter(p.workers[w], m));
    case _ =>
  }

  // ---------- Conservation ----------

  function ForwarderHolds(x: Forwarder): Option<Update> {
    if x.Sending? then Some(x.v) else None
  }

  /** The dispatcher's one update, offered to the workers or dropped at cancellation. */
  function DispatcherHolds(d: Dispatcher): seq<Update> {
    match d
    case Ranging => []
    case Offering(v) => [v]
    case Leaving(dropped) => if dropped.Some? then [dropped.value] else []
    case Left(dropped) => if dropped.Some? then [dropped.value] else []
  }

  /** An update a worker has received and not emitted. */
  function WorkerHolds(x: Worker): Option<Update> {
    match x
    case Idle => None
    case Setting(v) => Some(v)
    case Adding(v) => Some(v)
    case Falling(v) => Some(v)
    case Emitting(v) => Some(v)
    case Exiting(unsent) => unsent
    case Gone(unsent) => unsent
  }

  /** An update whose processing has no outcome yet. */
  function Unsettled(x: Worker): Option<Update> {
    if x.Setting? || x.Adding? || x.Falling? then Some(x.v) else None
  }

  function Values(ts: seq<Tagged>): seq<Update> {
    seq(|ts|, i requires 0 <= i < |ts| => ts[i].v)
  }

  ghost predicate FanBalance(f: Fan) {
    forall u :: Count(Flatten(f.consumed), u)
             == Count(Values(f.merged), u) + Count(HeldBy(ForwarderHolds, f.forwarders), u)
  }

  /** The dispatcher passes on what FanIn emits, in order and one at a time. */
  ghost predicate DispatchOrder(s: State) {
    Values(s.fan.merged) == s.pool.received + DispatcherHolds(s.dispatcher)
  }

  ghost predicate PoolBalance(p: Pool) {
    forall u :: Count(p.received, u) == Count(p.emitted, u) + Count(HeldBy(WorkerHolds, p.workers), u)
  }

  /** Added to a window, written as a fallback row, or lost. */
  function Outcomes(r: Store, u: Update): int {
    Count(r.added, u) + Count(r.fallen, u) + Count(r.lost, u)
  }

  /** Every received update is settled once. */
  ghost predicate Settled(p: Pool, r: Store) {
    forall u :: Count(p.received, u) == Outcomes(r, u) + Count(HeldBy(Unsettled, p.workers), u)
  }

  /** The windows and the rows are exactly those the settled updates made. */
  ghost predicate StoreMade(r: Store) {
    && r.windows == Redis.AddAll(r.added)
    && r.rows == seq(|r.fallen|, i requires 0 <= i < |r.fallen| => FallbackRow(r.fallen[i]))
  }

  lemma FanBalanceForward(f: Fan, i: nat, m: ForwarderMove)
    requires i < |f.forwarders| == |f.open| == |f.pending| == |f.consumed| && ForwarderReady(f, true, i, m)
    requires FanBalance(f)
    ensures FanBalance(FanAfter(f, i, m))
  {
    forall u
      ensures Count(Flatten(FanAfter(f, i, m).consumed), u)
           == Count(Values(f.merged), u) + Count(HeldBy(ForwarderHolds, FanAfter(f, i, m).forwarders), u)
    {
      HeldByUpdate(ForwarderHolds, f.forwarders, i, ForwarderAfter(f, i, m), u);
      if m.Receive? {
        FlattenAppend(f.consumed, i, f.pending[i][0], u);
      }
    }
  }

  lemma FanBalanceMerge(f: Fan, i: nat, t: Tagged)
    requires i < |f.forwarders| && f.forwarders[i] == Sending(t.v)
    requires FanBalance(f)
    ensures FanBalance(f.(forwarders := f.forwarders[i := Receiving], merged := f.merged + [t]))
  {
    assert Values(f.merged + [t]) == Values(f.merged) + [t.v];
    forall u
      ensures Count(Flatten(f.consumed), u)
           == Count(Values(f.merged + [t]), u) + Count(HeldBy(ForwarderHolds, f.forwarders[i := Receiving]), u)
    {
      HeldByUpdate(ForwarderHolds, f.forwarders, i, Receiving, u);
      CountAppend(Values(f.merged), t.v, u);
    }
  }

  lemma FanBalanceStep(s: State, a: Action)
    requires Shaped(s) && Enabled(s, a) && !Panics(s, a) && FanBalance(s.fan)
    ensures FanBalance(Apply(s, a).fan)
  {
    match a
    case Forward(i, m) => FanBalanceForward(s.fan, i, m);
    case Merge(i) => FanBalanceMerge(s.fan, i, Tagged(i, s.fan.forwarders[i].v));
    case _ =>
  }

  lemma DispatchOrderStep(s: State, a: Action)
    requires Shaped(s) && Enabled(s, a) && !Panics(s, a) && DispatchOrder(s)
    ensures DispatchOrder(Apply(s, a))
  {
    match a
    case Merge(i) =>
      var t := Tagged(i, s.fan.forwarders[i].v);
      assert Values(s.fan.merged + [t]) == Values(s.fan.merged) + [t.v];
    case _ =>
  }

  lemma PoolBalanceWork(p: Pool, w: nat, m: WorkerMove)
    requires w < |p.workers| && Fits(p.workers[w], m)
    requires PoolBalance(p)
    ensures PoolBalance(PoolAfter(p, w, m))
  {
    var q, x := PoolAfter(p, w, m), p.workers[w];
    forall u
      ensures Count(q.received, u) == Count(q.emitted, u) + Count(HeldBy(WorkerHolds, q.workers), u)
    {
      HeldByUpdate(WorkerHolds, p.workers, w, WorkerAfter(x, m), u);
      if m.Emit? {
        CountAppend(p.emitted, x.v, u);
      }
    }
  }

  lemma PoolBalanceStep(s: State, a: Action)
    requires Shaped(s) && Enabled(s, a) && !Panics(s, a) && PoolBalance(s.pool)
    ensures PoolBalance(Apply(s, a).pool)
  {
    match a
    case Hand(w) =>
      forall u
        ensures Count(s.pool.received + [s.dispatcher.v], u)
             == Count(s.pool.emitted, u) + Count(HeldBy(WorkerHolds, s.pool.workers[w := Setting(s.dispatcher.v)]), u)
      {
        HeldByUpdate(WorkerHolds, s.pool.workers, w, Setting(s.dispatcher.v), u);
        CountAppend(s.pool.received, s.dispatcher.v, u);
      }
    case Work(w, m) => PoolBalanceWork(s.pool, w, m);
    case _ =>
  }

  lemma SettledWork(p: Pool, r: Store, w: nat, m: WorkerMove)
    requires w < |p.workers| && Fits(p.workers[w], m)
    requires Settled(p, r)
    ensures Settled(PoolAfter(p, w, m), StoreAfter(r, p.workers[w], m))
  {
    var q, x := PoolAfter(p, w, m), p.workers[w];
    var t := StoreAfter(r, x, m);
    forall u
      ensures Count(q.received, u) == Outcomes(t, u) + Count(HeldBy(Unsettled, q.workers), u)
    {
      HeldByUpdate(Unsettled, p.workers, w, WorkerAfter(x, m), u);
      if m == AddToWindow(true) {
        CountAppend(r.added, x.v, u);
      } else if m == Save(true) {
        CountAppend(r.fallen, x.v, u);
      } else if m == Save(false) {
        CountAppend(r.lost, x.v, u);
      }
    }
  }

  lemma SettledStep(s: State, a: Action)
    requires Shaped(s) && Enabled(s, a) && !Panics(s, a) && Settled(s.pool, s.store)
    ensures Settled(Apply(s, a).pool, Apply(s, a).store)
  {
    match a
    case Hand(w) =>
      forall u
        ensures Count(s.pool.received + [s.dispatcher.v], u)
             == Outcomes(s.store, u) + Count(HeldBy(Unsettled, s.pool.workers[w := Setting(s.dispatcher.v)]), u)
      {
        HeldByUpdate(Unsettled, s.pool.workers, w, Setting(s.dispatcher.v), u);
        CountAppend(s.pool.received, s.dispatcher.v, u);
      }
    case Work(w, m) => SettledWork(s.pool, s.store, w, m);
    case _ =>
  }

  lemma StoreMadeWork(r: Store, x: Worker, m: WorkerMove)
    requires Fits(x, m) && StoreMade(r)
    ensures StoreMade(StoreAfter(r, x, m))
  {
    if m == AddToWindow(true) {
      assert (r.added + [x.v])[..|r.added|] == r.added;
    }
  }

  lemma StoreMadeStep(s: State, a: Action)
    requires Shaped(s) && Enabled(s, a) && !Panics(s, a) && StoreMade(s.store)
    ensures StoreMade(Apply(s, a).store)
  {
    match a
    case Work(w, m) => StoreMadeWork(s.store, s.pool.workers[w], m);
    case _ =>
  }

  // ---------- Order and end of input ----------

  /** The part of FanIn's output that came from source `i`, in order. */
  function From(ts: seq<Tagged>, i: nat): seq<Update> {
    if ts == [] then []
    else From(ts[..|ts| - 1], i) + (if ts[|ts| - 1].source == i then [ts[|ts| - 1].v] else [])
  }

  function ForwarderQueue(x: Forwarder): seq<Update> {
    if x.Sending? then [x.v] else []
  }

  ghost predicate OrderInv(inputs: seq<seq<Update>>, f: Fan) {
    && |f.pending| == |f.forwarders| == |f.consumed| == |inputs|
    && (forall j :: 0 <= j < |f.merged| ==> f.merged[j].source < |inputs|)
    && forall i :: 0 <= i < |inputs| ==>
         && From(f.merged, i) + ForwarderQueue(f.forwarders[i]) == f.consumed[i]
         && f.consumed[i] + f.pending[i] == inputs[i]
  }

  lemma OrderForward(inputs: seq<seq<Update>>, f: Fan, i: nat, m: ForwarderMove)
    requires i < |f.forwarders| == |f.open| == |f.pending| == |f.consumed| && ForwarderReady(f, true, i, m)
    requires OrderInv(inputs, f)
    ensures OrderInv(inputs, FanAfter(f, i, m))
  {
    if m.Receive? {
      assert f.pending[i] == [f.pending[i][0]] + f.pending[i][1..];
    }
  }

  lemma OrderStep(inputs: seq<seq<Update>>, s: State, a: Action)
    requires Shaped(s) && Enabled(s, a) && !Panics(s, a) && OrderInv(inputs, s.fan)
    ensures OrderInv(inputs, Apply(s, a).fan)
  {
    match a
    case Forward(i, m) => OrderForward(inputs, s.fan, i, m);
    case Merge(i) =>
      assert Apply(s, a).fan.merged[..|s.fan.merged|] == s.fan.merged;
    case _ =>
  }

  /** Loops end for a reason: their input is closed, or the context is cancelled. */
  ghost predicate FanEnding(f: Fan, cancelled: bool) {
    && |f.open| == |f.forwarders| == |f.pending|
    && forall i :: 0 <= i < |f.open| ==>
         && (!f.open[i] && !cancelled ==> f.pending[i] == [])
         && (f.forwarders[i].Ended? || f.forwarders[i].Finished? ==> !f.open[i])
  }

  ghost predicate PoolEnding(s: State) {
    && (s.dispatcher.Leaving? || s.dispatcher.Left? ==>
          if s.dispatcher.dropped.Some? then s.cancelled else s.fan.mergedClosed)
    && forall w :: 0 <= w < |s.pool.workers| && (s.pool.workers[w].Exiting? || s.pool.workers[w].Gone?) ==>
         s.cancelled || (s.workClosed && s.pool.workers[w].unsent.None?)
  }

  lemma FanEndingForward(f: Fan, cancelled: bool, i: nat, m: ForwarderMove)
    requires i < |f.forwarders| == |f.open| == |f.pending| == |f.consumed| && ForwarderReady(f, cancelled, i, m)
    requires FanEnding(f, cancelled)
    ensures FanEnding(FanAfter(f, i, m), cancelled)
  {}

  lemma FanEndingStep(s: State, a: Action)
    requires Shaped(s) && Enabled(s, a) && !Panics(s, a) && FanEnding(s.fan, s.cancelled)
    ensures FanEnding(Apply(s, a).fan, Apply(s, a).cancelled)
  {
    match a
    case Forward(i, m) => FanEndingForward(s.fan, s.cancelled, i, m);
    case _ =>
  }

  lemma PoolEndingStep(s: State, a: Action)
    requires Shaped(s) && Enabled(s, a) && !Panics(s, a) && PoolEnding(s)
    ensures PoolEnding(Apply(s, a))
  {}

  // ---------- Every reachable state ----------

  ghost predicate Inv(inputs: seq<seq<Update>>, s: State) {
    && ClosingInv(s)
    && FanEnding(s.fan, s.cancelled)
    && PoolEnding(s)
    && FanBalance(s.fan)
    && DispatchOrder(s)
    && PoolBalance(s.pool)
    && Settled(s.pool, s.store)
    && StoreMade(s.store)
    && OrderInv(inputs, s.fan)
  }

  lemma {:induction false} FreshCounts<T>(f: T -> int, xs: seq<T>, x: T, c: int)
    requires forall i :: 0 <= i < |xs| ==> xs[i] == x
    requires f(x) == c
    ensures SumInt(f, xs) == c * |xs|
  {
    if xs != [] {
      FreshCounts(f, xs[1..], x, c);
    }
  }

  lemma InitBalances(inputs: seq<seq<Update>>, workers: int)
    ensures var s := Init(inputs, workers);
            FanBalance(s.fan) && PoolBalance(s.pool) && Settled(s.pool, s.store)
  {
    var s := Init(inputs, workers);
    FlattenNothing(s.fan.consumed);
    HeldByNone(ForwarderHolds, s.fan.forwarders);
    HeldByNone(WorkerHolds, s.pool.workers);
    HeldByNone(Unsettled, s.pool.workers);
  }

  lemma InitCloses(inputs: seq<seq<Update>>, workers: int)
    ensures ClosingInv(Init(inputs, workers))
  {
    var s := Init(inputs, workers);
    FreshCounts(Live, s.fan.forwarders, Receiving, 1);
    FreshCounts(Staffed, s.pool.workers, Idle, 1);
  }

  lemma InvInit(inputs: seq<seq<Update>>, workers: int)
    ensures Inv(inputs, Init(inputs, workers))
  {
    InitCloses(inputs, workers);
    InitBalances(inputs, workers);
    assert OrderInv(inputs, Init(inputs, workers).fan);
  }

  lemma InvStep(inputs: seq<seq<Update>>, s: State, a: Action)
    requires Inv(inputs, s) && Enabled(s, a)
    ensures Inv(inputs, Apply(s, a))
  {
    NeverPanics(s, a);
    ClosingStep(s, a);
    FanEndingStep(s, a);
    PoolEndingStep(s, a);
    FanBalanceStep(s, a);
    DispatchOrderStep(s, a);
    PoolBalanceStep(s, a);
    SettledStep(s, a);
    StoreMadeStep(s, a);
    OrderStep(inputs, s, a);
  }

  lemma {:induction false} InvRun(inputs: seq<seq<Update>>, s: State, run: seq<Action>)
    requires Inv(inputs, s) && IsRun(s, run)
    ensures Inv(inputs, Exec(s, run))
    decreases |run|
  {
    if run != [] {
      InvStep(inputs, s, run[0]);
      InvRun(inputs, Apply(s, run[0]), run[1..]);
    }
  }

  /** `s` is a state some run of the pipeline over `inputs` reaches. */
  ghost predicate Reachable(inputs: seq<seq<Update>>, workers: int, s: State) {
    exists run :: IsRun(Init(inputs, workers), run) && Exec(Init(inputs, workers), run) == s
  }

  lemma ReachableInv(inputs: seq<seq<Update>>, workers: int, s: State)
    requires Reachable(inputs, workers, s)
    ensures Inv(inputs, s) && |s.pool.workers| == AtLeastOne(workers)
  {
    var run :| IsRun(Init(inputs, workers), run) && Exec(Init(inputs, workers), run) == s;
    InvInit(inputs, workers);
    InvRun(inputs, Init(inputs, workers), run);
  }

  // ---------- Main results ----------

  /**
   No send on a closed channel, no second close and no negative WaitGroup, ever; and each channel is
   closed only after every goroutine that sends on it has finished.
   */
  lemma CloseSafety(inputs: seq<seq<Update>>, workers: int, s: State)
    requires Reachable(inputs, workers, s)
    ensures Shaped(s) && !s.panicked
    ensures forall a :: Enabled(s, a) ==> !Panics(s, a)
    ensures s.fan.mergedClosed ==> forall i :: 0 <= i < |s.fan.forwarders| ==> s.fan.forwarders[i].Finished?
    ensures s.workClosed <==> s.dispatcher.Left?
    ensures s.pool.outClosed ==> forall w :: 0 <= w < |s.pool.workers| ==> s.pool.workers[w].Gone?
  {
    ReachableInv(inputs, workers, s);
    forall a | Enabled(s, a) ensures !Panics(s, a) {
      NeverPanics(s, a);
    }
    SumIntZero(Live, s.fan.forwarders);
    SumIntZero(Staffed, s.pool.workers);
    if s.fan.mergedClosed {
      forall i | 0 <= i < |s.fan.forwarders| ensures s.fan.forwarders[i].Finished? {
        assert Live(s.fan.forwarders[i]) == 0;
      }
    }
    if s.pool.outClosed {
      forall w | 0 <= w < |s.pool.workers| ensures s.pool.workers[w].Gone? {
        assert Staffed(s.pool.workers[w]) == 0;
      }
    }
  }

  /** What each step that may happen finds: an open channel to send on or to close, a WaitGroup still above zero. */
  lemma SendsAndCloses(inputs: seq<seq<Update>>, workers: int, s: State, a: Action)
    requires Reachable(inputs, workers, s) && Shaped(s) && Enabled(s, a)
    ensures match a
            case Merge(_) => !s.fan.mergedClosed
            case FanClose => !s.fan.mergedClosed
            case Hand(_) => !s.workClosed
            case DispatchClose => !s.workClosed
            case Work(_, Emit) => !s.pool.outClosed
            case PoolClose => !s.pool.outClosed
            case Forward(_, ForwarderDone) => s.fan.wait > 0
            case Work(_, WorkerDone) => s.pool.wait > 0
            case _ => true
  {
    ReachableInv(inputs, workers, s);
    SumIntZero(Live, s.fan.forwarders);
    SumIntZero(Staffed, s.pool.workers);
  }

  /**
   Cancelled or not, what the sources gave up is with a worker, in a forwarder's hand or in the
   dispatcher's; what the workers received is emitted or in a worker's hand. Nothing is dropped
   without cancellation.
   */
  lemma Conservation(inputs: seq<seq<Update>>, workers: int, s: State)
    requires Reachable(inputs, workers, s)
    ensures var inFan := HeldBy(ForwarderHolds, s.fan.forwarders);
            && multiset(Flatten(s.fan.consumed)) == multiset(s.pool.received + DispatcherHolds(s.dispatcher) + inFan)
            && |s.pool.received| <= |Flatten(s.fan.consumed)| <= |s.pool.received| + |inputs| + 1
    ensures var inPool := HeldBy(WorkerHolds, s.pool.workers);
            && multiset(s.pool.received) == multiset(s.pool.emitted + inPool)
            && |s.pool.emitted| <= |s.pool.received| <= |s.pool.emitted| + AtLeastOne(workers)
    ensures !s.cancelled ==>
              && (s.dispatcher.Leaving? || s.dispatcher.Left? ==> s.dispatcher.dropped.None?)
              && (forall w :: 0 <= w < |s.pool.workers| && s.pool.workers[w].Gone? ==>
                    s.pool.workers[w].unsent.None?)
  {
    ReachableInv(inputs, workers, s);
    var f, p := s.fan, s.pool;
    var inFan, inPool := HeldBy(ForwarderHolds, f.forwarders), HeldBy(WorkerHolds, p.workers);
    forall u
      ensures Count(Flatten(f.consumed), u) == Count(Values(f.merged) + inFan, u)
      ensures Count(p.received, u) == Count(p.emitted + inPool, u)
    {
      CountConcat(Values(f.merged), inFan, u);
      CountConcat(p.emitted, inPool, u);
    }
    CountsMatch(Flatten(f.consumed), Values(f.merged) + inFan);
    CountsMatch(p.received, p.emitted + inPool);
  }

  lemma Prefix<T>(xs: seq<T>, ys: seq<T>, zs: seq<T>)
    ensures xs <= (xs + ys) + zs
  {}

  /** FanIn keeps each source's order: the part of its output that came from a source is a prefix of that source. */
  lemma SourceOrder(inputs: seq<seq<Update>>, workers: int, s: State, i: nat)
    requires Reachable(inputs, workers, s) && i < |inputs|
    ensures From(s.fan.merged, i) <= inputs[i]
    ensures s.pool.received <= Values(s.fan.merged)
  {
    ReachableInv(inputs, workers, s);
    Prefix(From(s.fan.merged, i), ForwarderQueue(s.fan.forwarders[i]), s.fan.pending[i]);
  }

  /**
   Every update a worker received is settled at most once, and in one way only: it is in a window, it is
   one row with average, minimum and maximum equal to its price, it is lost, or its worker is still at it.
   */
  lemma ExactlyOnce(inputs: seq<seq<Update>>, workers: int, s: State)
    requires Reachable(inputs, workers, s)
    ensures multiset(s.pool.received)
         == multiset(s.store.added + s.store.fallen + s.store.lost + HeldBy(Unsettled, s.pool.workers))
    ensures s.store.windows == Redis.AddAll(s.store.added)
    ensures s.store.rows
            == seq(|s.store.fallen|, i requires 0 <= i < |s.store.fallen| => FallbackRow(s.store.fallen[i]))
  {
    ReachableInv(inputs, workers, s);
    var r, busy := s.store, HeldBy(Unsettled, s.pool.workers);
    var settled := r.added + r.fallen + r.lost + busy;
    forall u
      ensures Count(s.pool.received, u) == Count(settled, u)
    {
      CountConcat(r.added, r.fallen, u);
      CountConcat(r.added + r.fallen, r.lost, u);
      CountConcat(r.added + r.fallen + r.lost, busy, u);
    }
    CountsMatch(s.pool.received, settled);
  }
}
