/** What complete, uncancelled runs of the pipeline leave in the cache, for every interleaving. */
module PipelineResults {
  import opened Model
  import opened Sums
  import opened Pipeline
  import opened PipelineSafety
  import opened PipelineProgress
  import Redis
  import Storage

  // ---------- Nothing is lost or repeated ----------

  lemma {:induction false} SameLists<U>(xss: seq<seq<U>>, yss: seq<seq<U>>)
    requires |xss| == |yss| && forall i :: 0 <= i < |xss| ==> xss[i] == yss[i]
    ensures xss == yss
  {}

  /**
   A complete, uncancelled run has read all input, FanIn's output is a shuffle of it, and so is what the pool
   emits.
   */
  lemma CompleteRun(inputs: seq<seq<Update>>, workers: int, s: State)
    requires Reachable(inputs, workers, s) && !s.cancelled && Final(s)
    ensures s.fan.consumed == inputs
    ensures multiset(Values(s.fan.merged)) == multiset(Flatten(inputs))
    ensures s.pool.received == Values(s.fan.merged)
    ensures multiset(s.pool.emitted) == multiset(Flatten(inputs))
    ensures s.fan.mergedClosed && s.workClosed && s.pool.outClosed
  {
    ReachableInv(inputs, workers, s);
    var f, p := s.fan, s.pool;
    forall i | 0 <= i < |inputs| ensures f.consumed[i] == inputs[i] {
      assert f.forwarders[i].Finished?;
    }
    SameLists(f.consumed, inputs);
    HeldByNone(ForwarderHolds, f.forwarders);
    HeldByNone(WorkerHolds, p.workers);
    CountsMatch(Flatten(inputs), Values(f.merged));
    CountsMatch(p.received, p.emitted);
  }

  // ---------- Failures ----------

  /** No call to the cache failed during the run. */
  ghost predicate CacheWorked(run: seq<Action>) {
    forall i :: 0 <= i < |run| && run[i].Work? ==> run[i].wm != SetLatest(false) && run[i].wm != AddToWindow(false)
  }

  /** A worker's call to the cache for update `u` fails in this step. */
  predicate CacheFails(s: State, a: Action, u: Update)
    requires Shaped(s) && Enabled(s, a)
  {
    a.Work? && (a.wm == SetLatest(false) || a.wm == AddToWindow(false)) && s.pool.workers[a.w].v == u
  }

  /** A worker's write to the table for update `u` fails in this step. */
  predicate SaveFails(s: State, a: Action, u: Update)
    requires Shaped(s) && Enabled(s, a)
  {
    a.Work? && a.wm == Save(false) && s.pool.workers[a.w].v == u
  }

  /** How many calls to the cache failed for `u` during the run. */
  function CacheFailures(s: State, run: seq<Action>, u: Update): nat
    requires Shaped(s) && IsRun(s, run)
    decreases |run|
  {
    if run == [] then 0
    else
      StepKeepsShape(s, run[0]);
      (if CacheFails(s, run[0], u) then 1 else 0) + CacheFailures(Apply(s, run[0]), run[1..], u)
  }

  /** How many writes to the table failed for `u` during the run. */
  function SaveFailures(s: State, run: seq<Action>, u: Update): nat
    requires Shaped(s) && IsRun(s, run)
    decreases |run|
  {
    if run == [] then 0
    else
      StepKeepsShape(s, run[0]);
      (if SaveFails(s, run[0], u) then 1 else 0) + SaveFailures(Apply(s, run[0]), run[1..], u)
  }

  /** An update that a cache call refused and whose write to the table is still to come. */
  function Refused(x: Worker): Option<Update> {
    if x.Falling? then Some(x.v) else None
  }

  /** Updates that did not get into the cache: written, lost, or about to be one or the other. */
  function Outside(p: Pool, r: Store, u: Update): int {
    Count(r.fallen, u) + Count(r.lost, u) + Count(HeldBy(Refused, p.workers), u)
  }

  lemma LossWork(r: Store, x: Worker, m: WorkerMove, u: Update)
    requires Fits(x, m)
    ensures Count(StoreAfter(r, x, m).lost, u) == Count(r.lost, u) + (if m == Save(false) && x.v == u then 1 else 0)
    ensures Count(StoreAfter(r, x, m).fallen, u) == Count(r.fallen, u) + (if m == Save(true) && x.v == u then 1 else 0)
  {
    if m == Save(true) {
      CountAppend(r.fallen, x.v, u);
    } else if m == Save(false) {
      CountAppend(r.lost, x.v, u);
    }
  }

  lemma FailureWork(p: Pool, r: Store, w: nat, m: WorkerMove, u: Update)
    requires w < |p.workers| && Fits(p.workers[w], m)
    ensures var x := p.workers[w];
            Outside(PoolAfter(p, w, m), StoreAfter(r, x, m), u)
            == Outside(p, r, u) + (if (m == SetLatest(false) || m == AddToWindow(false)) && x.v == u then 1 else 0)
  {
    LossWork(r, p.workers[w], m, u);
    HeldByUpdate(Refused, p.workers, w, WorkerAfter(p.workers[w], m), u);
  }

  lemma FailureStep(s: State, a: Action, u: Update)
    requires Shaped(s) && Enabled(s, a) && !Panics(s, a)
    ensures Count(Apply(s, a).store.lost, u) == Count(s.store.lost, u) + (if SaveFails(s, a, u) then 1 else 0)
    ensures Outside(Apply(s, a).pool, Apply(s, a).store, u)
            == Outside(s.pool, s.store, u) + (if CacheFails(s, a, u) then 1 else 0)
  {
    match a
    case Work(w, m) =>
      LossWork(s.store, s.pool.workers[w], m, u);
      FailureWork(s.pool, s.store, w, m, u);
    case Hand(w) => HeldByUpdate(Refused, s.pool.workers, w, Setting(s.dispatcher.v), u);
    case _ =>
  }

  lemma {:induction false} FailureRun(inputs: seq<seq<Update>>, s: State, run: seq<Action>, u: Update)
    requires Inv(inputs, s) && IsRun(s, run)
    ensures Count(Exec(s, run).store.lost, u) == Count(s.store.lost, u) + SaveFailures(s, run, u)
    ensures Outside(Exec(s, run).pool, Exec(s, run).store, u)
            == Outside(s.pool, s.store, u) + CacheFailures(s, run, u)
    decreases |run|
  {
    if run != [] {
      NeverPanics(s, run[0]);
      InvStep(inputs, s, run[0]);
      FailureStep(s, run[0], u);
      FailureRun(inputs, Apply(s, run[0]), run[1..], u);
    }
  }

  /**
   In every run, an update is lost exactly as often as its own write to the table failed, and it is written,
   lost or on the way to the table exactly as often as one of its own cache calls failed.
   */
  lemma LossNeedsBothFailures(inputs: seq<seq<Update>>, workers: int, run: seq<Action>, u: Update)
    requires IsRun(Init(inputs, workers), run)
    ensures var s0, t := Init(inputs, workers), Exec(Init(inputs, workers), run);
            && Count(t.store.lost, u) == SaveFailures(s0, run, u)
            && Count(t.store.fallen, u) + Count(t.store.lost, u) + Count(HeldBy(Refused, t.pool.workers), u)
               == CacheFailures(s0, run, u)
  {
    var s := Init(inputs, workers);
    InvInit(inputs, workers);
    HeldByNone(Refused, s.pool.workers);
    FailureRun(inputs, s, run, u);
  }

  lemma {:induction false} NoCacheFailures(inputs: seq<seq<Update>>, s: State, run: seq<Action>, u: Update)
    requires Inv(inputs, s) && IsRun(s, run) && CacheWorked(run)
    ensures CacheFailures(s, run, u) == 0
    decreases |run|
  {
    if run != [] {
      InvStep(inputs, s, run[0]);
      WorkedOn(run);
      NoCacheFailures(inputs, Apply(s, run[0]), run[1..], u);
    }
  }

  lemma WorkedOn(run: seq<Action>)
    requires run != [] && CacheWorked(run)
    ensures run[0].Work? ==> run[0].wm != SetLatest(false) && run[0].wm != AddToWindow(false)
    ensures CacheWorked(run[1..])
  {}

  lemma CountsNothing<T>(xs: seq<T>)
    requires forall u :: Count(xs, u) <= 0
    ensures xs == []
  {
    if xs != [] {
      CountIsMultiplicity(xs, xs[0]);
    }
  }

  /** Without failures of the cache nothing goes to the table. */
  lemma NoFallback(inputs: seq<seq<Update>>, workers: int, run: seq<Action>)
    requires IsRun(Init(inputs, workers), run) && CacheWorked(run)
    ensures var r := Exec(Init(inputs, workers), run).store; r.fallen == [] && r.lost == []
  {
    InvInit(inputs, workers);
    var t := Exec(Init(inputs, workers), run);
    forall u ensures Count(t.store.fallen, u) <= 0 && Count(t.store.lost, u) <= 0 {
      LossNeedsBothFailures(inputs, workers, run, u);
      NoCacheFailures(inputs, Init(inputs, workers), run, u);
      CountIsMultiplicity(t.store.fallen, u);
      CountIsMultiplicity(t.store.lost, u);
      CountIsMultiplicity(HeldBy(Refused, t.pool.workers), u);
    }
    CountsNothing(t.store.fallen);
    CountsNothing(t.store.lost);
  }

  // ---------- The table ----------

  /** What stands behind the rows that workers wrote. */
  function Singles(us: seq<Update>): seq<Storage.Group> {
    seq(|us|, i requires 0 <= i < |us| => Storage.Single(us[i]))
  }

  /** In every reachable state the rows are those of one group for each fallback, in the order of the writes. */
  lemma ReachableTable(inputs: seq<seq<Update>>, workers: int, s: State)
    requires Reachable(inputs, workers, s)
    ensures s.store.rows == Storage.RowsFor(Singles(s.store.fallen))
    ensures forall r :: r in s.store.rows ==> Storage.Ordered(r)
  {
    ExactlyOnce(inputs, workers, s);
    forall i | 0 <= i < |s.store.fallen|
      ensures s.store.rows[i] == Storage.RowFor(Singles(s.store.fallen)[i]) && Storage.Ordered(s.store.rows[i])
    {
      Storage.FallbackIsGroupOfOne(s.store.fallen[i]);
      Storage.RowForIsOrdered(Storage.Single(s.store.fallen[i]));
    }
  }

  // ---------- Confluence ----------

  /** A complete run without cancellation and without cache errors. */
  ghost predicate CleanRun(inputs: seq<seq<Update>>, workers: int, run: seq<Action>) {
    && IsRun(Init(inputs, workers), run) && CacheWorked(run)
    && !Exec(Init(inputs, workers), run).cancelled && Final(Exec(Init(inputs, workers), run))
  }

  lemma AllAdded(inputs: seq<seq<Update>>, s: State)
    requires Inv(inputs, s) && Final(s) && multiset(s.pool.received) == multiset(Flatten(inputs))
    requires s.store.fallen == [] && s.store.lost == []
    ensures multiset(s.store.added) == multiset(Flatten(inputs))
  {
    HeldByNone(Unsettled, s.pool.workers);
    CountsMatch(s.pool.received, s.store.added);
  }

  /**
   For every interleaving and every number of workers, a complete run without cancellation or cache errors
   ends with the windows a plain loop over the inputs would leave.
   */
  lemma Confluence(inputs: seq<seq<Update>>, workers: int, run: seq<Action>)
    requires CleanRun(inputs, workers, run)
    ensures Exec(Init(inputs, workers), run).store.windows == Redis.AddAll(Flatten(inputs))
    ensures Exec(Init(inputs, workers), run).store.rows == []
  {
    var s := Exec(Init(inputs, workers), run);
    InvInit(inputs, workers);
    InvRun(inputs, Init(inputs, workers), run);
    CompleteRun(inputs, workers, s);
    NoFallback(inputs, workers, run);
    AllAdded(inputs, s);
    SameMembers(s.store.added, Flatten(inputs));
    Redis.AddAllOrderFree(s.store.added, Flatten(inputs));
  }

  // ---------- Latest entries with one worker ----------

  /** With one worker, the latest entries are those of the updates received, up to the one being set. */
  ghost predicate LatestFollows(p: Pool, latest: Redis.Latest) {
    && |p.workers| == 1
    && var n := |p.received|;
       match p.workers[0]
       case Setting(v) => n > 0 && p.received[n - 1] == v && latest == Redis.SetAll(p.received[..n - 1])
       case Falling(_) => false
       case _ => latest == Redis.SetAll(p.received)
  }

  lemma LatestWork(p: Pool, r: Store, w: nat, m: WorkerMove)
    requires w < |p.workers| && Fits(p.workers[w], m)
    requires LatestFollows(p, r.latest) && m != SetLatest(false) && m != AddToWindow(false)
    ensures LatestFollows(PoolAfter(p, w, m), StoreAfter(r, p.workers[w], m).latest)
  {
    if m.SetLatest? {
      var us, n := p.received, |p.received|;
      assert us == us[..n - 1] + [us[n - 1]];
      Redis.SetAllAppend(us[..n - 1], us[n - 1], KeyOf(us[n - 1]));
    }
  }

  lemma LatestStep(s: State, a: Action)
    requires Shaped(s) && Enabled(s, a) && !Panics(s, a) && LatestFollows(s.pool, s.store.latest)
    requires a.Work? ==> a.wm != SetLatest(false) && a.wm != AddToWindow(false)
    ensures LatestFollows(Apply(s, a).pool, Apply(s, a).store.latest)
  {
    match a
    case Hand(w) => assert (s.pool.received + [s.dispatcher.v])[..|s.pool.received|] == s.pool.received;
    case Work(w, m) => LatestWork(s.pool, s.store, w, m);
    case _ =>
  }

  lemma {:induction false} LatestRun(inputs: seq<seq<Update>>, s: State, run: seq<Action>)
    requires Inv(inputs, s) && IsRun(s, run) && CacheWorked(run) && LatestFollows(s.pool, s.store.latest)
    ensures LatestFollows(Exec(s, run).pool, Exec(s, run).store.latest)
    decreases |run|
  {
    if run != [] {
      NeverPanics(s, run[0]);
      InvStep(inputs, s, run[0]);
      WorkedOn(run);
      LatestStep(s, run[0]);
      LatestRun(inputs, Apply(s, run[0]), run[1..]);
    }
  }

  lemma {:induction false} EntryFromOneSource(ts: seq<Tagged>, i: nat, k: Key)
    requires forall j :: 0 <= j < |ts| && KeyOf(ts[j].v) == k ==> ts[j].source == i
    ensures Redis.Entry(Redis.SetAll(Values(ts)), k) == Redis.Entry(Redis.SetAll(From(ts, i)), k)
  {
    if ts != [] {
      var n := |ts| - 1;
      EntryFromOneSource(ts[..n], i, k);
      assert Values(ts) == Values(ts[..n]) + [ts[n].v];
      Redis.SetAllAppend(Values(ts[..n]), ts[n].v, k);
      Redis.SetAllAppend(From(ts[..n], i), ts[n].v, k);
      assert From(ts[..n], i) + [] == From(ts[..n], i);
    }
  }

  lemma {:induction false} SourceHasIt(ts: seq<Tagged>, j: nat)
    requires j < |ts|
    ensures ts[j].v in From(ts, ts[j].source)
  {
    if j < |ts| - 1 {
      SourceHasIt(ts[..|ts| - 1], j);
    }
  }

  /** Only source `i` sends updates of this key. */
  ghost predicate SoleSource(inputs: seq<seq<Update>>, i: nat, k: Key) {
    i < |inputs| && forall j, u :: 0 <= j < |inputs| && u in inputs[j] && KeyOf(u) == k ==> j == i
  }

  /** The latest entry that a run leaves under the key. */
  function LatestAfter(inputs: seq<seq<Update>>, workers: int, run: seq<Action>, k: Key): Option<Update>
    requires IsRun(Init(inputs, workers), run)
  {
    Redis.Entry(Exec(Init(inputs, workers), run).store.latest, k)
  }

  /**
   With one worker and no cancellation or cache errors, the final latest entry of a key that only one
   source sends is the one sequential processing of that source leaves.
   */
  lemma LatestWithOneWorker(inputs: seq<seq<Update>>, workers: int, run: seq<Action>, i: nat, k: Key)
    requires AtLeastOne(workers) == 1 && CleanRun(inputs, workers, run) && SoleSource(inputs, i, k)
    ensures LatestAfter(inputs, workers, run, k) == Redis.Entry(Redis.SetAll(inputs[i]), k)
  {
    var s := Exec(Init(inputs, workers), run);
    InvInit(inputs, workers);
    InvRun(inputs, Init(inputs, workers), run);
    LatestRun(inputs, Init(inputs, workers), run);
    CompleteRun(inputs, workers, s);
    var ts := s.fan.merged;
    assert s.fan.forwarders[i].Finished? && From(ts, i) == inputs[i];
    forall j | 0 <= j < |ts| && KeyOf(ts[j].v) == k
      ensures ts[j].source == i
    {
      SourceHasIt(ts, j);
      var from := ts[j].source;
      assert From(ts, from) + ForwarderQueue(s.fan.forwarders[from]) + s.fan.pending[from] == inputs[from];
      assert ts[j].v in inputs[from];
    }
    EntryFromOneSource(ts, i, k);
  }
}
