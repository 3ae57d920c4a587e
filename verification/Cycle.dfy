/**
 The aggregation cycle as a step system over the price windows. Between any two commands of a cycle time
 passes, workers add updates and keys may expire. Clock readings are separate from the commands that use
 them, and a failing read, save or deletion may happen at any point where the source handles one.
 */
module Cycle {
  import opened Model
  import opened Redis

  datatype Config = Config(ttl: Time, retention: Time, pairs: seq<string>, exchanges: seq<string>)

  /** One call to GetPricesInWindow: one exchange's window of a pair, or all exchanges' windows of it. */
  datatype Target = One(key: Key) | AllOf(pair: string)

  predicate Covers(t: Target, k: Key) {
    match t
    case One(key) => k == key
    case AllOf(pair) => k.symbol == pair
  }

  /** The pair and exchange of every read a cycle makes, in order; an empty exchange stands for all of them. */
  function Plan(pairs: seq<string>, exchanges: seq<string>): seq<(string, string)> {
    if exchanges == [] then PlanPairs(pairs, "") else PlanExchanges(pairs, exchanges)
  }

  function PlanExchanges(pairs: seq<string>, exchanges: seq<string>): seq<(string, string)> {
    if exchanges == [] then []
    else
      var n := |exchanges| - 1;
      PlanExchanges(pairs, exchanges[..n]) + PlanPairs(pairs, exchanges[n])
  }

  function PlanPairs(pairs: seq<string>, exchange: string): seq<(string, string)> {
    seq(|pairs|, i requires 0 <= i < |pairs| => (pairs[i], exchange))
  }

  function TargetOf(entry: (string, string)): Target {
    if entry.1 == "" then AllOf(entry.0) else One(Key(entry.1, entry.0))
  }

  /** The reads of a cycle, in order. */
  function Targets(c: Config): seq<Target> {
    var plan := Plan(c.pairs, c.exchanges);
    seq(|plan|, i requires 0 <= i < |plan| => TargetOf(plan[i]))
  }

  /** The aggregation is configured to look at this window. */
  predicate Configured(c: Config, k: Key) {
    k.symbol in c.pairs && (c.exchanges == [] || "" in c.exchanges || k.exchange in c.exchanges)
  }

  /**
   What a cycle has done so far: reads still to make, the clock of its first read, the updates read, and the reads
   that succeeded.
   */
  datatype Progress = Progress(todo: seq<Target>, since: Option<Time>, batch: set<Update>, made: set<Target>)

  datatype Phase =
    | Idle
    | Collecting(p: Progress)
    // a read of all exchanges: `must` are the matching keys present since the scan began
    | Scanning(p: Progress, pair: string, clock: Time, must: set<Key>)
    | Fetching(p: Progress, target: Target, clock: Time, keys: seq<Key>, got: set<Update>)
    | Stored(batch: set<Update>, since: Time, made: set<Target>)
    // `must` are the keys present since the deletion's scan began and not yet purged
    | Deleting(batch: set<Update>, clock: Time, must: set<Key>)

  datatype State = State(
    now: Time, windows: Windows, phase: Phase,
    arrived: set<Update>,            // every update ever added to a window
    saved: seq<set<Update>>,         // the updates behind each saved batch
    removed: set<Update>,            // the updates removed by DeleteOldPrices
    lastFull: Time,                  // clock of the last deletion that reached every key, or the start
    lastSaved: Option<Time>)         // clock of the last deletion that followed a save

  datatype Action =
    | Tick(d: nat)
    | Arrive(u: Update)
    | Expire(k: Key)
    | Start
    | ReadClock
    | ScanEnd(keys: seq<Key>)
    | Fetch
    | FetchEnd
    | ReadFail
    | Save(ok: bool)
    | DeleteClock
    | Purge(k: Key)
    | DeleteEnd(ok: bool)

  function Init(start: Time): State {
    State(start, map[], Idle, {}, [], {}, start, None)
  }

  predicate Enabled(c: Config, s: State, a: Action) {
    match a
    case Tick(d) => true
    case Arrive(u) => true
    case Expire(k) => true
    case Start => s.phase.Idle? && c.pairs != []
    case ReadClock => s.phase.Collecting? && s.phase.p.todo != []
    case ScanEnd(keys) =>
      && s.phase.Scanning?
      && (forall k :: k in s.phase.must ==> k in keys)
      && (forall k :: k in keys ==> k.symbol == s.phase.pair)
    case Fetch => s.phase.Fetching? && s.phase.keys != []
    case FetchEnd => s.phase.Fetching? && s.phase.keys == []
    case ReadFail => s.phase.Scanning? || s.phase.Fetching?
    case Save(ok) => s.phase.Collecting? && s.phase.p.todo == [] && s.phase.p.since.Some?
    case DeleteClock => s.phase.Stored?
    case Purge(k) => s.phase.Deleting?
    case DeleteEnd(ok) => s.phase.Deleting? && (ok ==> s.phase.must == {})
  }

  /** An expired key is no longer owed by the scan that is going on. */
  function Forget(ph: Phase, k: Key): Phase {
    match ph
    case Scanning(p, pair, clock, must) => Scanning(p, pair, clock, must - {k})
    case Deleting(batch, clock, must) => Deleting(batch, clock, must - {k})
    case _ => ph
  }

  function BeginRead(s: State): Phase
    requires s.phase.Collecting? && s.phase.p.todo != []
  {
    var p := s.phase.p;
    var q := p.(todo := p.todo[1..], since := if p.since.None? then Some(s.now) else p.since);
    match p.todo[0]
    case One(key) => Fetching(q, p.todo[0], s.now, [key], {})
    case AllOf(pair) => Scanning(q, pair, s.now, set k | k in s.windows && k.symbol == pair)
  }

  /**
   An empty batch is not saved and goes straight to the deletion; a batch whose save fails ends the cycle
   without one.
   */
  function SaveAfter(s: State, ok: bool): State
    requires s.phase.Collecting? && s.phase.p.since.Some?
  {
    var p := s.phase.p;
    if p.batch == {} then s.(phase := Stored({}, p.since.value, p.made))
    else if ok then s.(phase := Stored(p.batch, p.since.value, p.made), saved := s.saved + [p.batch])
    else s.(phase := Idle)
  }

  function PurgeAfter(c: Config, s: State, k: Key): State
    requires s.phase.Deleting?
  {
    var before := s.phase.clock - c.retention;
    s.(windows := PurgeKey(s.windows, k, before),
       phase := s.phase.(must := s.phase.must - {k}),
       removed := s.removed + (set u | u in Members(s.windows, k) && Stale(u, before)))
  }

  function Apply(c: Config, s: State, a: Action): State
    requires Enabled(c, s, a)
  {
    match a
    case Tick(d) => s.(now := s.now + d)
    case Arrive(u) => s.(windows := AddToWindow(s.windows, u), arrived := s.arrived + {u})
    case Expire(k) => s.(windows := s.windows - {k}, phase := Forget(s.phase, k))
    case Start => s.(phase := Collecting(Progress(Targets(c), None, {}, {})))
    case ReadClock => s.(phase := BeginRead(s))
    case ScanEnd(keys) => s.(phase := Fetching(s.phase.p, AllOf(s.phase.pair), s.phase.clock, keys, {}))
    case Fetch =>
      var f := s.phase;
      s.(phase := f.(keys := f.keys[1..], got := f.got + InWindow(Members(s.windows, f.keys[0]), f.clock, c.ttl)))
    case FetchEnd =>
      var p := s.phase.p;
      s.(phase := Collecting(p.(batch := p.batch + s.phase.got, made := p.made + {s.phase.target})))
    case ReadFail => s.(phase := Collecting(s.phase.p))
    case Save(ok) => SaveAfter(s, ok)
    case DeleteClock =>
      s.(phase := Deleting(s.phase.batch, s.now, s.windows.Keys),
         lastSaved := if s.phase.batch != {} then Some(s.now) else s.lastSaved)
    case Purge(k) => PurgeAfter(c, s, k)
    case DeleteEnd(ok) => s.(phase := Idle, lastFull := if ok then s.phase.clock else s.lastFull)
  }

  predicate IsRun(c: Config, s: State, run: seq<Action>)
    decreases |run|
  {
    run == [] || (Enabled(c, s, run[0]) && IsRun(c, Apply(c, s, run[0]), run[1..]))
  }

  function Exec(c: Config, s: State, run: seq<Action>): State
    requires IsRun(c, s, run)
    decreases |run|
  {
    if run == [] then s else Exec(c, Apply(c, s, run[0]), run[1..])
  }

  /** One step, then the rest. */
  lemma Then(c: Config, s: State, a: Action, rest: seq<Action>)
    requires Enabled(c, s, a) && IsRun(c, Apply(c, s, a), rest)
    ensures IsRun(c, s, [a] + rest) && Exec(c, s, [a] + rest) == Exec(c, Apply(c, s, a), rest)
  {
    assert ([a] + rest)[1..] == rest;
  }

  lemma {:induction false} ExecConcat(c: Config, s: State, xs: seq<Action>, ys: seq<Action>)
    requires IsRun(c, s, xs) && IsRun(c, Exec(c, s, xs), ys)
    ensures IsRun(c, s, xs + ys) && Exec(c, s, xs + ys) == Exec(c, Exec(c, s, xs), ys)
    decreases |xs|
  {
    if xs == [] {
      assert xs + ys == ys;
    } else {
      assert (xs + ys)[1..] == xs[1..] + ys;
      ExecConcat(c, Apply(c, s, xs[0]), xs[1..], ys);
    }
  }

  /**
   Whatever a cycle is doing, time may pass, updates may arrive and keys may expire, and none of that disturbs what it
   has read; and every command of a cycle may fail.
   */
  lemma AnythingMayHappen(c: Config, s: State, d: nat, u: Update, k: Key)
    ensures Enabled(c, s, Tick(d)) && Apply(c, s, Tick(d)) == s.(now := s.now + d)
    ensures Enabled(c, s, Arrive(u)) && u in Members(Apply(c, s, Arrive(u)).windows, KeyOf(u))
    ensures Apply(c, s, Arrive(u)).phase == s.phase
    ensures Enabled(c, s, Expire(k)) && k !in Apply(c, s, Expire(k)).windows
    ensures Collected(Apply(c, s, Expire(k)).phase) == Collected(s.phase)
    ensures s.phase.Scanning? || s.phase.Fetching? ==> Enabled(c, s, ReadFail)
    ensures s.phase.Collecting? && s.phase.p.todo == [] && s.phase.p.since.Some? ==>
              forall ok :: Enabled(c, s, Save(ok))
    ensures s.phase.Deleting? ==> Enabled(c, s, Purge(k)) && Enabled(c, s, DeleteEnd(false))
  {}

  /** Deletions after an empty batch do not count as ones after a save, nor incomplete ones as complete. */
  lemma DeletionClocks(c: Config, s: State)
    ensures s.phase.Stored? ==>
              && (s.phase.batch == {} ==> Apply(c, s, DeleteClock).lastSaved == s.lastSaved)
              && (s.phase.batch != {} ==> Apply(c, s, DeleteClock).lastSaved == Some(s.now))
    ensures s.phase.Deleting? ==>
              && Apply(c, s, DeleteEnd(false)).lastFull == s.lastFull
              && (s.phase.must == {} ==> Apply(c, s, DeleteEnd(true)).lastFull == s.phase.clock)
  {}

  /** What the cycle has read so far. */
  function Collected(ph: Phase): set<Update> {
    match ph
    case Idle => {}
    case Collecting(p) => p.batch
    case Scanning(p, pair, clock, must) => p.batch
    case Fetching(p, target, clock, keys, got) => p.batch + got
    case Stored(batch, since, made) => batch
    case Deleting(batch, clock, must) => batch
  }

  /** The updates behind saved batches. */
  function AllSaved(saved: seq<set<Update>>): set<Update> {
    if saved == [] then {} else AllSaved(saved[..|saved| - 1]) + saved[|saved| - 1]
  }
}
