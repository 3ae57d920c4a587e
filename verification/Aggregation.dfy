/** One aggregation cycle against a cache and a table that nobody else touches meanwhile. */
module Aggregation {
  import opened Model
  import opened Sums
  import opened Stats
  import opened Redis
  import opened Storage
  import opened Readings
  import opened Cycle
  import CycleRuns
  import Cache

  method GroupByExchange(ps: seq<Update>) returns (byExchange: map<string, seq<Update>>)
    ensures forall e :: e in byExchange <==> OfExchange(ps, e) != []
    ensures forall e :: e in byExchange ==> byExchange[e] == OfExchange(ps, e)
  {
    byExchange := map[];
    for i := 0 to |ps|
      invariant forall e :: e in byExchange <==> OfExchange(ps[..i], e) != []
      invariant forall e :: e in byExchange ==> byExchange[e] == OfExchange(ps[..i], e)
    {
      var p := ps[i];
      assert ps[..i + 1][..i] == ps[..i];
      byExchange := byExchange[p.exchange := (if p.exchange in byExchange then byExchange[p.exchange] else []) + [p]];
    }
    assert ps[..|ps|] == ps;
  }

  /** The commands of a cycle that fail: which of its reads, the save, and the key at which the deletion stops. */
  datatype Faults = Faults(failing: set<nat>, save: bool, deletion: Option<nat>)

  /** What a cycle leaves in the windows: after an error everything, otherwise what the deletion does not purge. */
  function Left(err: bool, w: Windows, scan: seq<Key>, faults: Faults, before: Time): Windows {
    if err then w else PurgeKeys(w, Cache.Reached(scan, faults.deletion), before)
  }

  /** Exactly the reads named have failed. */
  predicate FailedAt(log: seq<Reading>, failing: set<nat>) {
    forall i :: 0 <= i < |log| ==> (log[i].ok <==> i !in failing)
  }

  /** The reads so far: they follow the plan, the faults and the clock, and made the rows of the batch. */
  ghost predicate Gathered(explicit: bool, w: Windows, ttl: Time, failing: set<nat>, from: Time, now: Time,
                           plan: seq<(string, string)>, log: seq<Reading>, parts: seq<seq<Group>>, batch: seq<Row>) {
    && Follows(explicit, w, ttl, plan, log, parts)
    && Clocked(from, now, log) && FailedAt(log, failing) && Stamped(log, parts, now)
    && batch == RowsFor(Flatten(parts))
  }

  lemma ClockedStep(failing: set<nat>, from: Time, now: Time, now': Time, log: seq<Reading>, r: Reading)
    requires Clocked(from, now, log) && FailedAt(log, failing)
    requires now <= r.clock <= now' && (r.ok <==> |log| !in failing)
    ensures Clocked(from, now', log + [r]) && FailedAt(log + [r], failing)
  {}

  lemma StampedLater(log: seq<Reading>, parts: seq<seq<Group>>, now: Time, now': Time)
    requires |log| == |parts| && Stamped(log, parts, now) && now <= now'
    ensures Stamped(log, parts, now')
  {
    forall i | 0 <= i < |log| ensures StampedBy(log[i].clock, parts[i], now') {
      assert StampedBy(log[i].clock, parts[i], now);
    }
  }

  lemma StampedStep(log: seq<Reading>, parts: seq<seq<Group>>, now: Time, now': Time, r: Reading, part: seq<Group>)
    requires |log| == |parts| && Stamped(log, parts, now) && now <= now' && StampedBy(r.clock, part, now')
    ensures Stamped(log + [r], parts + [part], now')
  {
    StampedLater(log, parts, now, now');
  }

  lemma GatheredStep(explicit: bool, w: Windows, ttl: Time, failing: set<nat>, from: Time, now: Time, now': Time,
                     plan: seq<(string, string)>, log: seq<Reading>, parts: seq<seq<Group>>, batch: seq<Row>,
                     r: Reading, part: seq<Group>, extended: seq<Row>)
    requires Gathered(explicit, w, ttl, failing, from, now, plan, log, parts, batch)
    requires now <= r.clock <= now' && (r.ok <==> |log| !in failing)
    requires AsPlanned(explicit, w, ttl, (r.pair, r.exchange), r, part) && StampedBy(r.clock, part, now')
    requires extended == RowsFor(Flatten(parts) + part)
    ensures Gathered(explicit, w, ttl, failing, from, now', plan + [(r.pair, r.exchange)],
                     log + [r], parts + [part], extended)
  {
    FollowsStep(explicit, w, ttl, plan, log, parts, (r.pair, r.exchange), r, part);
    ClockedStep(failing, from, now, now', log, r);
    StampedStep(log, parts, now, now', r, part);
    FlattenSnoc(parts, part);
  }

  lemma GatheredLater(explicit: bool, w: Windows, ttl: Time, failing: set<nat>, from: Time, now: Time, now': Time,
                      plan: seq<(string, string)>, log: seq<Reading>, parts: seq<seq<Group>>, batch: seq<Row>)
    requires Gathered(explicit, w, ttl, failing, from, now, plan, log, parts, batch) && now <= now'
    ensures Gathered(explicit, w, ttl, failing, from, now', plan, log, parts, batch)
  {
    StampedLater(log, parts, now, now');
  }

  /** The reads of a cycle and what it did with them, as a run of the step system. */
  lemma RunOf(c: Config, s: State, w: Windows, w': Windows, start: Time, log: seq<Reading>, parts: seq<seq<Group>>,
              faults: Faults, cutoff: Time, scan: seq<Key>) returns (run: seq<Action>)
    requires s.phase.Idle? && c.pairs != [] && s.windows == w && s.now == start
    requires Gathered(c.exchanges != [], w, c.ttl, faults.failing, start, cutoff, Plan(c.pairs, c.exchanges),
                      log, parts, RowsFor(Flatten(parts)))
    requires w' == Left(Flatten(parts) != [] && faults.save, w, scan, faults, cutoff - c.retention)
    ensures IsRun(c, s, run) && CycleRuns.Undisturbed(run)
    ensures var t, groups := Exec(c, s, run), Flatten(parts);
            && t.phase.Idle? && t.now <= cutoff && t.windows == w'
            && t.saved == if groups == [] || faults.save then s.saved else s.saved + [Behind(groups)]
  {
    NothingReadIsDropped(c.exchanges != [], s.windows, c.ttl, Plan(c.pairs, c.exchanges), log, parts);
    forall i | 0 <= i < |log| ensures ReadFrom(s.windows, c.ttl, log[i]) {
      assert AsPlanned(c.exchanges != [], s.windows, c.ttl, Plan(c.pairs, c.exchanges)[i], log[i], parts[i]);
    }
    run := CycleRuns.CycleRun(c, s, cutoff, log, faults.save, cutoff, Cache.Reached(scan, faults.deletion));
    assert s.saved + [] == s.saved;
  }

  class Clock {
    var now: Time

    method Now() returns (t: Time)
      modifies this
      ensures t == now >= old(now)
    {
      var later :| later >= now;
      now := later;
      t := now;
    }
  }

  class AggregationService {
    const cache: Cache.RedisAdapter
    const storage: PostgresAdapter
    const clock: Clock
    var pairs: seq<string>
    var exchanges: seq<string>
    var retention: Time

    /** `pairs` are those the environment lists; no exchanges means all of them. */
    constructor (cache: Cache.RedisAdapter, storage: PostgresAdapter, clock: Clock, pairs: seq<string>)
      ensures this.cache == cache && this.storage == storage && this.clock == clock
      ensures this.pairs == pairs && exchanges == [] && retention == MINUTE
    {
      this.cache, this.storage, this.clock := cache, storage, clock;
      this.pairs, exchanges, retention := pairs, [], MINUTE;
    }

    /** The rows of a read of all exchanges: one for each exchange, in the map's arbitrary order. */
    method AppendGrouped(pair: string, prices: seq<Update>, batch: seq<Row>, ghost groups: seq<Group>)
      returns (extended: seq<Row>, ghost part: seq<Group>)
      requires batch == RowsFor(groups)
      modifies clock
      ensures clock.now >= old(clock.now)
      ensures IsGrouping(pair, prices, part) && StampedBy(old(clock.now), part, clock.now)
      ensures extended == RowsFor(groups + part)
    {
      var byExchange := GroupByExchange(prices);
      var rest := byExchange.Keys;
      extended, part := batch, [];
      assert groups + part == groups;
      while rest != {}
        invariant rest <= byExchange.Keys
        invariant clock.now >= old(clock.now) && StampedBy(old(clock.now), part, clock.now)
        invariant extended == RowsFor(groups + part)
        invariant IsPartialGrouping(pair, prices, byExchange.Keys - rest, part)
      {
        var e :| e in rest;
        var average, min, max := ComputeStats(byExchange[e]);
        var t := clock.Now();
        ghost var g: Group := Group(pair, e, t, byExchange[e]);
        GroupingGrows(pair, prices, byExchange.Keys - rest, part, g);
        AppendRow(groups + part, g);
        assert groups + (part + [g]) == groups + part + [g];
        assert byExchange.Keys - (rest - {e}) == byExchange.Keys - rest + {e};
        part := part + [g];
        extended := extended + [Row(pair, e, t, average, min, max)];
        rest := rest - {e};
      }
      GroupingDone(pair, prices, byExchange.Keys - rest, part);
    }

    /** One read and its contribution, appended to the batch. */
    method ReadTarget(explicit: bool, pair: string, exchange: string, fails: bool,
                      batch: seq<Row>, ghost groups: seq<Group>)
      returns (extended: seq<Row>, ghost r: Reading, ghost part: seq<Group>)
      requires batch == RowsFor(groups)
      modifies clock
      ensures old(clock.now) <= r.clock <= clock.now
      ensures r.pair == pair && r.exchange == exchange && r.ok == !fails
      ensures ReadFrom(cache.windows, cache.ttl, r)
      ensures Contributes(explicit, r, part) && StampedBy(r.clock, part, clock.now)
      ensures extended == RowsFor(groups + part)
    {
      var scan := [];
      var now := clock.Now();
      if exchange == "" {
        scan := cache.ScanWindows(pair);
      }
      var ok, prices;
      ghost var lists;
      ok, prices, lists := cache.GetPricesInWindow(pair, exchange, now, scan, fails);
      r := Reading(pair, exchange, now, ok, prices);
      extended, part := batch, [];
      assert groups + part == groups;
      if ok && |prices| > 0 {
        if explicit {
          var average, min, max := ComputeStats(prices);
          var t := clock.Now();
          part := [Group(pair, exchange, t, prices)];
          AppendRow(groups, part[0]);
          extended := batch + [Row(pair, exchange, t, average, min, max)];
        } else {
          extended, part := AppendGrouped(pair, prices, batch, groups);
        }
      }
    }

    /** The reads of every pair for one exchange, or for all of them. */
    method ReadPairs(exchange: string, failing: set<nat>, batch: seq<Row>, done: nat, ghost from: Time,
                     ghost plan: seq<(string, string)>, ghost log: seq<Reading>, ghost parts: seq<seq<Group>>)
      returns (extended: seq<Row>, done': nat, ghost log': seq<Reading>, ghost parts': seq<seq<Group>>)
      requires Gathered(exchanges != [], cache.windows, cache.ttl, failing, from, clock.now, plan, log, parts, batch)
      requires done == |log|
      modifies clock
      ensures Gathered(exchanges != [], cache.windows, cache.ttl, failing, from, clock.now,
                       plan + PlanPairs(pairs, exchange), log', parts', extended)
      ensures done' == |log'|
    {
      extended, done', log', parts' := batch, done, log, parts;
      ghost var mine := PlanPairs(pairs, exchange);
      ghost var r: Reading, part: seq<Group>;
      assert plan + mine[..0] == plan;
      var j := 0;
      while j < |pairs|
        invariant 0 <= j <= |pairs|
        invariant Gathered(exchanges != [], cache.windows, cache.ttl, failing, from, clock.now,
                           plan + mine[..j], log', parts', extended)
        invariant done' == |log'|
      {
        ghost var before, now := extended, clock.now;
        extended, r, part :=
          ReadTarget(|exchanges| > 0, pairs[j], exchange, done' in failing, extended, Flatten(parts'));
        GatheredStep(exchanges != [], cache.windows, cache.ttl, failing, from, now, clock.now,
                     plan + mine[..j], log', parts', before, r, part, extended);
        assert plan + mine[..j + 1] == plan + mine[..j] + [(pairs[j], exchange)];
        done', log', parts' := done' + 1, log' + [r], parts' + [part];
        j := j + 1;
      }
      assert mine[..j] == mine;
    }

    /** The reads of the cycle, in the order of the source's loops. */
    method ReadAll(failing: set<nat>) returns (batch: seq<Row>, ghost log: seq<Reading>, ghost parts: seq<seq<Group>>)
      modifies clock
      ensures Gathered(exchanges != [], cache.windows, cache.ttl, failing, old(clock.now), clock.now,
                       Plan(pairs, exchanges), log, parts, batch)
    {
      var done: nat := 0;
      batch, log, parts := [], [], [];
      ghost var from := clock.now;
      if |exchanges| > 0 {
        var i := 0;
        while i < |exchanges|
          invariant 0 <= i <= |exchanges|
          invariant Gathered(true, cache.windows, cache.ttl, failing, from, clock.now,
                             PlanExchanges(pairs, exchanges[..i]), log, parts, batch)
          invariant done == |log|
        {
          ghost var plan := PlanExchanges(pairs, exchanges[..i]);
          batch, done, log, parts := ReadPairs(exchanges[i], failing, batch, done, from, plan, log, parts);
          assert exchanges[..i + 1][..i] == exchanges[..i];
          i := i + 1;
        }
        assert exchanges[..i] == exchanges;
      } else {
        batch, done, log, parts := ReadPairs("", failing, batch, done, from, [], log, parts);
        assert [] + PlanPairs(pairs, "") == PlanPairs(pairs, "");
      }
    }

    /** Saves the batch, if there is one, and then deletes; a save that fails leaves the cache alone. */
    method StoreAndDelete(batch: seq<Row>, ghost groups: seq<Group>, faults: Faults)
      returns (err: bool, ghost cutoff: Time, ghost scan: seq<Key>)
      requires cache.Valid() && storage.Valid() && batch == RowsFor(groups)
      modifies cache, storage, clock
      ensures cache.Valid() && storage.Valid() && cache.latest == old(cache.latest)
      ensures err <==> groups != [] && faults.save
      ensures storage.rows == if err then old(storage.rows) else old(storage.rows) + RowsFor(groups)
      ensures storage.groups == if err then old(storage.groups) else old(storage.groups) + groups
      ensures old(clock.now) <= cutoff <= clock.now
      ensures !err ==> forall k :: k in scan <==> k in old(cache.windows)
      ensures cache.windows == Left(err, old(cache.windows), scan, faults, cutoff - retention)
    {
      cutoff, scan := clock.now, [];
      if |batch| > 0 {
        var ok := storage.SaveAggregatedPrices(batch, groups, faults.save);
        if !ok {
          return true, cutoff, scan;
        }
      }
      var now := clock.Now();
      var keys := cache.ScanAll();
      cutoff, scan := now, keys;
      var deleted := cache.DeleteOldPrices(now - retention, keys, faults.deletion);
      err := false;
    }

    function Configuration(): Config
      reads this
    {
      Config(cache.ttl, retention, pairs, exchanges)
    }

    /** The reads of a cycle with pairs, and what follows them. */
    method ReadAndStore(faults: Faults)
      returns (err: bool, ghost log: seq<Reading>, ghost parts: seq<seq<Group>>, ghost cutoff: Time,
               ghost scan: seq<Key>)
      requires cache.Valid() && storage.Valid()
      modifies cache, storage, clock
      ensures cache.Valid() && storage.Valid() && cache.latest == old(cache.latest)
      ensures err <==> Flatten(parts) != [] && faults.save
      ensures storage.rows == if err then old(storage.rows) else old(storage.rows) + RowsFor(Flatten(parts))
      ensures storage.groups == if err then old(storage.groups) else old(storage.groups) + Flatten(parts)
      ensures !err ==> forall k :: k in scan <==> k in old(cache.windows)
      ensures cache.windows == Left(err, old(cache.windows), scan, faults, cutoff - retention)
      ensures Gathered(exchanges != [], old(cache.windows), cache.ttl, faults.failing, old(clock.now), cutoff,
                       Plan(pairs, exchanges), log, parts, RowsFor(Flatten(parts)))
      ensures cutoff <= clock.now
    {
      var batch: seq<Row>;
      batch, log, parts := ReadAll(faults.failing);
      ghost var read := clock.now;
      err, cutoff, scan := StoreAndDelete(batch, Flatten(parts), faults);
      GatheredLater(exchanges != [], old(cache.windows), cache.ttl, faults.failing, old(clock.now), read, cutoff,
                    Plan(pairs, exchanges), log, parts, RowsFor(Flatten(parts)));
    }

    /**
     A cycle reads, saves the batch in one transaction and only then deletes, up to `cutoff - retention`. Without
     pairs, or when the save fails, nothing is deleted; a failed read costs its own prices only, and a failed
     deletion is ignored. `run` shows that the call is a run of the step system from any idle state with the
     same windows and clock, and that the batch it records stands behind the rows.
     */
    method AggregateAndStore(faults: Faults, ghost from: State)
      returns (err: bool, ghost log: seq<Reading>, ghost parts: seq<seq<Group>>, ghost cutoff: Time,
               ghost scan: seq<Key>, ghost run: seq<Action>)
      requires cache.Valid() && storage.Valid()
      requires from.phase.Idle? && from.windows == cache.windows && from.now == clock.now
      modifies cache, storage, clock
      ensures cache.Valid() && storage.Valid() && cache.latest == old(cache.latest)
      ensures err <==> pairs == [] || (Flatten(parts) != [] && faults.save)
      ensures storage.rows == if err then old(storage.rows) else old(storage.rows) + RowsFor(Flatten(parts))
      ensures storage.groups == if err then old(storage.groups) else old(storage.groups) + Flatten(parts)
      ensures !err ==> forall k :: k in scan <==> k in old(cache.windows)
      ensures cache.windows == Left(err, old(cache.windows), scan, faults, cutoff - retention)
      ensures pairs != [] ==>
                && Gathered(exchanges != [], old(cache.windows), cache.ttl, faults.failing, old(clock.now), cutoff,
                            Plan(pairs, exchanges), log, parts, RowsFor(Flatten(parts)))
                && cutoff <= clock.now
                && forall i :: 0 <= i < |log| ==> (log[i].ok <==> i !in faults.failing)
      ensures IsRun(Configuration(), from, run) && CycleRuns.Undisturbed(run)
      ensures var t, groups := Exec(Configuration(), from, run), Flatten(parts);
              && t.phase.Idle? && t.windows == cache.windows && t.now <= clock.now
              && t.saved == if err || groups == [] then from.saved else from.saved + [Behind(groups)]
    {
      log, parts, cutoff, scan, run := [], [], clock.now, [], [];
      if |pairs| == 0 {
        return true, log, parts, cutoff, scan, run;
      }
      err, log, parts, cutoff, scan := ReadAndStore(faults);
      run := RunOf(Configuration(), from, old(cache.windows), cache.windows, old(clock.now), log, parts, faults,
                   cutoff, scan);
    }
  }
}
