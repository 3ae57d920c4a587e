/** One worker's handling of one update, and the fallback to the table. */
module Worker {
  import opened Model
  import Pipeline
  import Redis
  import Cache
  import Storage

  /** How the processing of an update ended. */
  datatype Outcome = Added | FellBack | Lost

  /** The moves lead a worker from `x` to `y`. */
  predicate Leads(x: Pipeline.Worker, moves: seq<Pipeline.WorkerMove>, y: Pipeline.Worker)
    decreases |moves|
  {
    if moves == [] then x == y
    else Pipeline.Fits(x, moves[0]) && Leads(Pipeline.WorkerAfter(x, moves[0]), moves[1..], y)
  }

  /** What the moves do to the cache and the table. */
  function Along(r: Pipeline.Store, x: Pipeline.Worker, moves: seq<Pipeline.WorkerMove>, y: Pipeline.Worker)
    : Pipeline.Store
    requires Leads(x, moves, y)
    decreases |moves|
  {
    if moves == [] then r
    else Along(Pipeline.StoreAfter(r, x, moves[0]), Pipeline.WorkerAfter(x, moves[0]), moves[1..], y)
  }

  /** One move, then the rest. */
  lemma FirstMove(r: Pipeline.Store, x: Pipeline.Worker, m: Pipeline.WorkerMove, rest: seq<Pipeline.WorkerMove>,
                  y: Pipeline.Worker)
    requires Pipeline.Fits(x, m) && Leads(Pipeline.WorkerAfter(x, m), rest, y)
    ensures Leads(x, [m] + rest, y)
    ensures Along(r, x, [m] + rest, y) == Along(Pipeline.StoreAfter(r, x, m), Pipeline.WorkerAfter(x, m), rest, y)
  {
    assert ([m] + rest)[1..] == rest;
  }

  class Pool {
    const workers: nat
    const cache: Cache.RedisAdapter
    const storage: Storage.PostgresAdapter

    constructor (workers: int, cache: Cache.RedisAdapter, storage: Storage.PostgresAdapter)
      ensures this.workers == AtLeastOne(workers) && this.cache == cache && this.storage == storage
    {
      this.workers := if workers <= 0 then 1 else workers;
      this.cache, this.storage := cache, storage;
    }

    function Contents(): Pipeline.Store
      reads cache, storage
    {
      Pipeline.Store(cache.latest, cache.windows, storage.rows, [], [], [])
    }

    method FallbackWrite(u: Update, fails: bool) returns (ok: bool)
      requires storage.Valid()
      modifies storage
      ensures storage.Valid() && ok == !fails
      ensures storage.rows == if ok then old(storage.rows) + [FallbackRow(u)] else old(storage.rows)
      ensures ok ==>
                var row := storage.rows[|storage.rows| - 1];
                && row.pair == u.symbol && row.exchange == u.exchange && row.timestamp == u.timestamp
                && row.average == row.min == row.max == u.price
      ensures storage.groups == if ok then old(storage.groups) + [Storage.Single(u)] else old(storage.groups)
    {
      var row := Row(u.symbol, u.exchange, u.timestamp, u.price, u.price, u.price);
      Storage.FallbackIsGroupOfOne(u);
      ok := storage.SaveAggregatedPrices([row], [Storage.Single(u)], fails);
    }

    /**
     The first three flags tell which calls fail. The update ends in one of three ways, and only the first touches
     its window, only the second the table. `moves` are the worker moves of the step system that the call makes.
     */
    method ProcessOne(u: Update, at: Time, setFails: bool, addFails: bool, saveFails: bool, expireFails: bool)
      returns (outcome: Outcome, ghost moves: seq<Pipeline.WorkerMove>)
      requires cache.Valid() && storage.Valid()
      modifies cache, storage
      ensures cache.Valid() && storage.Valid()
      ensures storage.groups == old(storage.groups) + if outcome.FellBack? then [Storage.Single(u)] else []
      ensures outcome == if !setFails && !addFails then Added else if saveFails then Lost else FellBack
      ensures cache.latest == if setFails then old(cache.latest) else Redis.SetLatest(old(cache.latest), u)
      ensures cache.windows == if outcome.Added? then Redis.AddToWindow(old(cache.windows), u) else old(cache.windows)
      ensures storage.rows == if outcome.FellBack? then old(storage.rows) + [FallbackRow(u)] else old(storage.rows)
      ensures Leads(Pipeline.Setting(u), moves, Pipeline.Emitting(u))
      ensures var after := Along(old(Contents()), Pipeline.Setting(u), moves, Pipeline.Emitting(u));
              && after.latest == cache.latest && after.windows == cache.windows && after.rows == storage.rows
              && (after.added == [u] <==> outcome.Added?)
              && (after.fallen == [u] <==> outcome.FellBack?)
              && (after.lost == [u] <==> outcome.Lost?)
    {
      ghost var before := Contents();
      var ok := cache.SetLatestPrice(u, at, setFails);
      if !ok {
        var saved := FallbackWrite(u, saveFails);
        moves := [Pipeline.SetLatest(false)] + ([Pipeline.Save(saved)] + []);
        FirstMove(before, Pipeline.Falling(u), Pipeline.Save(saved), [], Pipeline.Emitting(u));
        FirstMove(before, Pipeline.Setting(u), Pipeline.SetLatest(false), [Pipeline.Save(saved)] + [],
                  Pipeline.Emitting(u));
        return if saved then FellBack else Lost, moves;
      }
      ghost var mid := Pipeline.StoreAfter(before, Pipeline.Setting(u), Pipeline.SetLatest(true));
      ok := cache.AddPriceToWindow(u, at, addFails, expireFails);
      if !ok {
        var saved := FallbackWrite(u, saveFails);
        moves := [Pipeline.AddToWindow(false)] + ([Pipeline.Save(saved)] + []);
        FirstMove(mid, Pipeline.Falling(u), Pipeline.Save(saved), [], Pipeline.Emitting(u));
        FirstMove(mid, Pipeline.Adding(u), Pipeline.AddToWindow(false), [Pipeline.Save(saved)] + [],
                  Pipeline.Emitting(u));
        FirstMove(before, Pipeline.Setting(u), Pipeline.SetLatest(true), moves, Pipeline.Emitting(u));
        moves := [Pipeline.SetLatest(true)] + moves;
        return if saved then FellBack else Lost, moves;
      }
      moves := [Pipeline.SetLatest(true)] + ([Pipeline.AddToWindow(true)] + []);
      FirstMove(mid, Pipeline.Adding(u), Pipeline.AddToWindow(true), [], Pipeline.Emitting(u));
      FirstMove(before, Pipeline.Setting(u), Pipeline.SetLatest(true), [Pipeline.AddToWindow(true)] + [],
                Pipeline.Emitting(u));
      return Added, moves;
    }
  }
}
