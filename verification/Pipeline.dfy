/**
 The ingestion pipeline as a step system: FanIn's forwarders and closer, the pool's dispatcher,
 workers and closer, and the consumer that drains `processed`. Channels are unbuffered, so a send
 and its receive are one step. A send on a closed channel, a second close and a negative WaitGroup
 set `panicked`, and nothing runs afterwards.
 */
module Pipeline {
  import opened Model
  import Redis

  /** A forwarder: waiting on its source, holding an update, out of its loop, past `wg.Done()`. */
  datatype Forwarder = Receiving | Sending(v: Update) | Ended | Finished

  /** The dispatcher; `dropped` is the update in its hands when the context ended its loop. */
  datatype Dispatcher =
    | Ranging
    | Offering(v: Update)
    | Leaving(dropped: Option<Update>)
    | Left(dropped: Option<Update>)

  /** A worker; `unsent` is the update it had processed but not emitted when the context ended its loop. */
  datatype Worker =
    | Idle
    | Setting(v: Update)
    | Adding(v: Update)
    | Falling(v: Update)
    | Emitting(v: Update)
    | Exiting(unsent: Option<Update>)
    | Gone(unsent: Option<Update>)

  /** A forwarded update and the source it came from. */
  datatype Tagged = Tagged(source: nat, v: Update)

  /**
   FanIn and its sources. `pending` is what each source will still send, `open` whether its channel is
   open; `consumed` and `merged` record what left the sources and what reached the dispatcher.
   */
  datatype Fan = Fan(
    pending: seq<seq<Update>>, open: seq<bool>, forwarders: seq<Forwarder>,
    wait: int, closerDone: bool, mergedClosed: bool,
    consumed: seq<seq<Update>>, merged: seq<Tagged>)

  /** The pool's workers, closer and consumer; `received` and `emitted` record what passed through. */
  datatype Pool = Pool(
    workers: seq<Worker>, wait: int, closerDone: bool, outClosed: bool, consumerDone: bool,
    received: seq<Update>, emitted: seq<Update>)

  /** The cache and the table, with a record of how each processed update ended. */
  datatype Store = Store(
    latest: Redis.Latest, windows: Redis.Windows, rows: seq<Row>,
    added: seq<Update>, fallen: seq<Update>, lost: seq<Update>)

  datatype State = State(
    fan: Fan, dispatcher: Dispatcher, workClosed: bool, pool: Pool, store: Store,
    cancelled: bool, panicked: bool)

  /** What a forwarder and its source do by themselves. */
  datatype ForwarderMove = Receive | SourceClose | LeaveLoop | ForwarderDone

  /** What a worker does by itself; `ok` tells whether the cache or storage call succeeded. */
  datatype WorkerMove =
    | StopOnCancel
    | StopOnClosed
    | SetLatest(ok: bool)
    | AddToWindow(ok: bool)
    | Save(ok: bool)
    | Emit
    | Skip
    | WorkerDone

  datatype Action =
    | Forward(i: nat, fm: ForwarderMove)
    | FanClose
    | Merge(i: nat)
    | DispatchEnd
    | DispatchCancel
    | DispatchClose
    | Hand(w: nat)
    | Work(w: nat, wm: WorkerMove)
    | PoolClose
    | ConsumerEnd
    | Cancel

  function Init(inputs: seq<seq<Update>>, workers: int): State {
    var n, m := |inputs|, AtLeastOne(workers);
    State(
      Fan(inputs, seq(n, i => true), seq(n, i => Receiving), n, false, false, seq(n, i => []), []),
      Ranging, false,
      Pool(seq(m, i => Idle), m, false, false, false, [], []),
      Store(map[], map[], [], [], [], []),
      false, false)
  }

  predicate Shaped(s: State) {
    |s.fan.open| == |s.fan.forwarders| == |s.fan.consumed| == |s.fan.pending|
  }

  predicate ForwarderReady(f: Fan, cancelled: bool, i: nat, m: ForwarderMove)
    requires i < |f.forwarders| == |f.open| == |f.pending|
  {
    match m
    case Receive => f.open[i] && f.pending[i] != [] && f.forwarders[i].Receiving?
    case SourceClose => f.open[i] && (f.pending[i] == [] || cancelled)
    case LeaveLoop => !f.open[i] && f.forwarders[i].Receiving?
    case ForwarderDone => f.forwarders[i].Ended?
  }

  /** The point of its loop at which a worker makes the move. */
  predicate Fits(x: Worker, m: WorkerMove) {
    match m
    case StopOnCancel => x.Idle?
    case StopOnClosed => x.Idle?
    case SetLatest(ok) => x.Setting?
    case AddToWindow(ok) => x.Adding?
    case Save(ok) => x.Falling?
    case Emit => x.Emitting?
    case Skip => x.Emitting?
    case WorkerDone => x.Exiting?
  }

  /** Both branches of a `select` are ready when both conditions hold. */
  predicate WorkerReady(s: State, x: Worker, m: WorkerMove) {
    && Fits(x, m)
    && (m.StopOnCancel? || m.Skip? ==> s.cancelled)
    && (m.StopOnClosed? ==> s.workClosed)
    && (m.Emit? ==> s.pool.outClosed || !s.pool.consumerDone)
  }

  predicate Enabled(s: State, a: Action)
    requires Shaped(s)
  {
    var f, p := s.fan, s.pool;
    !s.panicked &&
    match a
    case Forward(i, m) => i < |f.forwarders| && ForwarderReady(f, s.cancelled, i, m)
    case FanClose => !f.closerDone && f.wait == 0
    case Merge(i) => i < |f.forwarders| && f.forwarders[i].Sending? && (f.mergedClosed || s.dispatcher.Ranging?)
    case DispatchEnd => s.dispatcher.Ranging? && f.mergedClosed
    case DispatchCancel => s.dispatcher.Offering? && s.cancelled
    case DispatchClose => s.dispatcher.Leaving?
    case Hand(w) => w < |p.workers| && s.dispatcher.Offering? && (s.workClosed || p.workers[w].Idle?)
    case Work(w, m) => w < |p.workers| && WorkerReady(s, p.workers[w], m)
    case PoolClose => !p.closerDone && p.wait == 0
    case ConsumerEnd => !p.consumerDone && p.outClosed
    case Cancel => !s.cancelled
  }

  function ForwarderAfter(f: Fan, i: nat, m: ForwarderMove): Forwarder
    requires i < |f.forwarders| == |f.open| == |f.pending| && ForwarderReady(f, true, i, m)
  {
    match m
    case Receive => Sending(f.pending[i][0])
    case SourceClose => f.forwarders[i]
    case LeaveLoop => Ended
    case ForwarderDone => Finished
  }

  function FanAfter(f: Fan, i: nat, m: ForwarderMove): Fan
    requires i < |f.forwarders| == |f.open| == |f.pending| == |f.consumed| && ForwarderReady(f, true, i, m)
  {
    var g := f.(forwarders := f.forwarders[i := ForwarderAfter(f, i, m)]);
    match m
    case Receive => g.(pending := f.pending[i := f.pending[i][1..]],
                       consumed := f.consumed[i := f.consumed[i] + [f.pending[i][0]]])
    case SourceClose => g.(open := f.open[i := false])
    case LeaveLoop => g
    case ForwarderDone => g.(wait := f.wait - 1)
  }

  function WorkerAfter(x: Worker, m: WorkerMove): Worker
    requires Fits(x, m)
  {
    match m
    case StopOnCancel => Exiting(None)
    case StopOnClosed => Exiting(None)
    case SetLatest(ok) => if ok then Adding(x.v) else Falling(x.v)
    case AddToWindow(ok) => if ok then Emitting(x.v) else Falling(x.v)
    case Save(ok) => Emitting(x.v)
    case Emit => Idle
    case Skip => Exiting(Some(x.v))
    case WorkerDone => Gone(x.unsent)
  }

  /** A call that fails leaves the cache and the table as they were. */
  function StoreAfter(r: Store, x: Worker, m: WorkerMove): Store
    requires Fits(x, m)
  {
    match m
    case SetLatest(true) => r.(latest := Redis.SetLatest(r.latest, x.v))
    case AddToWindow(true) => r.(windows := Redis.AddToWindow(r.windows, x.v), added := r.added + [x.v])
    case Save(true) => r.(rows := r.rows + [FallbackRow(x.v)], fallen := r.fallen + [x.v])
    case Save(false) => r.(lost := r.lost + [x.v])
    case _ => r
  }

  function PoolAfter(p: Pool, w: nat, m: WorkerMove): Pool
    requires w < |p.workers| && Fits(p.workers[w], m)
  {
    var q := p.(workers := p.workers[w := WorkerAfter(p.workers[w], m)]);
    match m
    case Emit => q.(emitted := p.emitted + [p.workers[w].v])
    case WorkerDone => q.(wait := p.wait - 1)
    case _ => q
  }

  /** The steps on which Go would panic. */
  predicate Panics(s: State, a: Action)
    requires Shaped(s) && Enabled(s, a)
  {
    match a
    case Forward(i, ForwarderDone) => s.fan.wait <= 0
    case FanClose => s.fan.mergedClosed
    case Merge(i) => s.fan.mergedClosed
    case DispatchClose => s.workClosed
    case Hand(w) => s.workClosed
    case Work(w, Emit) => s.pool.outClosed
    case Work(w, WorkerDone) => s.pool.wait <= 0
    case PoolClose => s.pool.outClosed
    case _ => false
  }

  function Apply(s: State, a: Action): State
    requires Shaped(s) && Enabled(s, a)
  {
    var f, p := s.fan, s.pool;
    if Panics(s, a) then s.(panicked := true) else
    match a
    case Forward(i, m) => s.(fan := FanAfter(f, i, m))
    case FanClose => s.(fan := f.(closerDone := true, mergedClosed := true))
    case Merge(i) =>
      var v := f.forwarders[i].v;
      s.(fan := f.(forwarders := f.forwarders[i := Receiving], merged := f.merged + [Tagged(i, v)]),
         dispatcher := Offering(v))
    case DispatchEnd => s.(dispatcher := Leaving(None))
    case DispatchCancel => s.(dispatcher := Leaving(Some(s.dispatcher.v)))
    case DispatchClose => s.(dispatcher := Left(s.dispatcher.dropped), workClosed := true)
    case Hand(w) =>
      var v := s.dispatcher.v;
      s.(dispatcher := Ranging,
         pool := p.(workers := p.workers[w := Setting(v)], received := p.received + [v]))
    case Work(w, m) => s.(pool := PoolAfter(p, w, m), store := StoreAfter(s.store, p.workers[w], m))
    case PoolClose => s.(pool := p.(closerDone := true, outClosed := true))
    case ConsumerEnd => s.(pool := p.(consumerDone := true))
    case Cancel => s.(cancelled := true)
  }

  lemma StepKeepsShape(s: State, a: Action)
    requires Shaped(s) && Enabled(s, a)
    ensures Shaped(Apply(s, a))
    ensures |Apply(s, a).fan.pending| == |s.fan.pending| && |Apply(s, a).pool.workers| == |s.pool.workers|
  {}

  /** `run` can be executed from `s`, each action enabled when its turn comes. */
  predicate IsRun(s: State, run: seq<Action>)
    requires Shaped(s)
    decreases |run|
  {
    run == [] ||
    (Enabled(s, run[0]) && (StepKeepsShape(s, run[0]); IsRun(Apply(s, run[0]), run[1..])))
  }

  function Exec(s: State, run: seq<Action>): (t: State)
    requires Shaped(s) && IsRun(s, run)
    ensures Shaped(t) && |t.fan.pending| == |s.fan.pending| && |t.pool.workers| == |s.pool.workers|
    decreases |run|
  {
    if run == [] then s else (StepKeepsShape(s, run[0]); Exec(Apply(s, run[0]), run[1..]))
  }
}
