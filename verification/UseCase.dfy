/** The price queries: the table first, the cache when the table has no answer. */
module UseCase {
  import opened Model
  import opened Sums
  import opened Stats
  import opened Redis
  import opened Storage
  import Cache

  /** Go's zero time, the first instant of the year 1. */
  const ZERO_TIME: Time := -62_135_596_800 * SECOND

  // ---------- What the answers are ----------

  /** A query reads the clock for the table, for the cache's window, and for cutting it to the period. */
  datatype Clocks = Clocks(table: Time, window: Time, cut: Time)

  predicate Recent(u: Update, now: Time, period: Time) {
    period >= MINUTE || u.timestamp > now - period
  }

  predicate KeyMatches(k: Key, symbol: string, exchange: string) {
    k.symbol == symbol && (exchange == "" || k.exchange == exchange)
  }

  /** The entries the cache shows for a pair at one exchange, or at all of them. */
  function Shown(w: Windows, ttl: Time, now: Time, symbol: string, exchange: string): set<Update> {
    set k, u | k in w && KeyMatches(k, symbol, exchange) && u in w[k] && Visible(u, now, ttl) :: u
  }

  /** The entries a query can see in the cache. */
  function Seen(w: Windows, ttl: Time, at: Clocks, symbol: string, exchange: string, period: Time): set<Update> {
    set u | u in Shown(w, ttl, at.window, symbol, exchange) && Recent(u, at.cut, period)
  }

  /** What a query can see, entry by entry. */
  lemma SeenIs(w: Windows, ttl: Time, at: Clocks, symbol: string, exchange: string, period: Time, u: Update)
    ensures u in Seen(w, ttl, at, symbol, exchange, period) <==>
              && (exists k :: k in w && u in w[k] && k.symbol == symbol && (exchange == "" || k.exchange == exchange))
              && Unix(at.window - ttl) <= Unix(u.timestamp) <= Unix(at.window)
              && (period >= 60 * 1_000_000_000 || u.timestamp > at.cut - period)
  {
    if k :| k in w && u in w[k] && k.symbol == symbol && (exchange == "" || k.exchange == exchange) {
      assert KeyMatches(k, symbol, exchange);
      assert Visible(u, at.window, ttl) ==> u in Shown(w, ttl, at.window, symbol, exchange);
    }
    if u in Shown(w, ttl, at.window, symbol, exchange) {
      var k :| k in w && KeyMatches(k, symbol, exchange) && u in w[k] && Visible(u, at.window, ttl);
    }
    assert Recent(u, at.cut, period) <==> period >= 60 * 1_000_000_000 || u.timestamp > at.cut - period;
  }

  /**
   `ps` lists what the query can see. A scan that names a key more than once repeats all entries of that key
   equally often; a read of one exchange's window repeats none.
   */
  ghost predicate Lists(ps: seq<Update>, seen: set<Update>, once: bool) {
    && (forall u :: u in ps <==> u in seen)
    && (forall u, v :: u in seen && v in seen && KeyOf(u) == KeyOf(v) ==> multiset(ps)[u] == multiset(ps)[v])
    && (once ==> multiset(ps) == multiset(seen))
  }

  /** The mean of what the query can see. */
  ghost predicate AverageOver(seen: set<Update>, once: bool, average: real) {
    exists ps :: ps != [] && Lists(ps, seen, once) && average == Mean(ps)
  }

  /** The row carries the extremes and the average of what the query can see in the cache. */
  ghost predicate SumsUp(row: Row, seen: set<Update>, once: bool) {
    && (forall u :: u in seen ==> row.min <= u.price <= row.max)
    && (exists u :: u in seen && u.price == row.min)
    && (exists u :: u in seen && u.price == row.max)
    && AverageOver(seen, once, row.average)
  }

  ghost predicate HighestAnswer(found: seq<Row>, seen: set<Update>, once: bool, answer: Option<Row>) {
    if found != [] then answer.Some? && IsHighest(found, answer)
    else if seen == {} then answer == None
    else answer.Some? && SumsUp(answer.value, seen, once)
  }

  ghost predicate LowestAnswer(found: seq<Row>, seen: set<Update>, once: bool, answer: Option<Row>) {
    if found != [] then answer.Some? && IsLowest(found, answer)
    else if seen == {} then answer == None
    else answer.Some? && SumsUp(answer.value, seen, once)
  }

  /** The average query trusts the table only when its average is positive. */
  ghost predicate AverageAnswer(found: seq<Row>, seen: set<Update>, once: bool, answer: real) {
    if AverageOf(found) > 0.0 then answer == AverageOf(found)
    else if seen == {} then answer == 0.0
    else AverageOver(seen, once, answer)
  }

  /**
   The exchange and timestamp reported with a cache extreme: those of its first holder, or none if that is the
   first price.
   */
  predicate Reported(ps: seq<Update>, extreme: real, exchange: string, timestamp: Time)
    requires ps != []
  {
    if ps[0].price == extreme then exchange == "" && timestamp == ZERO_TIME
    else exists i :: 0 < i < |ps| && ps[i].price == extreme
                     && exchange == ps[i].exchange && timestamp == ps[i].timestamp
                     && forall j :: 0 <= j < i ==> ps[j].price != extreme
  }

  /**
   What is reported with a maximum whose first holder is at index `i`: that holder's exchange and timestamp, or neither
   if it is the first price of all.
   */
  lemma FirstHolder(ps: seq<Update>, i: nat, exchange: string, timestamp: Time)
    requires i < |ps| && Reported(ps, ps[i].price, exchange, timestamp)
    requires forall j :: 0 <= j < i ==> ps[j].price < ps[i].price
    ensures exchange == (if i == 0 then "" else ps[i].exchange)
    ensures timestamp == if i == 0 then -719_162 * 24 * 60 * 60 * 1_000_000_000 else ps[i].timestamp
  {
    if i > 0 {
      var k :| 0 < k < |ps| && ps[k].price == ps[i].price
               && exchange == ps[k].exchange && timestamp == ps[k].timestamp
               && forall j :: 0 <= j < k ==> ps[j].price != ps[i].price;
      assert k == i;
    }
  }

  lemma ShownByKeys(w: Windows, ttl: Time, now: Time, symbol: string, exchange: string, keys: seq<Key>, u: Update)
    requires forall k :: k in w && KeyMatches(k, symbol, exchange) ==> k in keys
    requires forall k :: k in keys ==> KeyMatches(k, symbol, exchange)
    ensures u in Shown(w, ttl, now, symbol, exchange) <==>
              exists i :: 0 <= i < |keys| && u in InWindow(Members(w, keys[i]), now, ttl)
  {
    if i :| 0 <= i < |keys| && u in InWindow(Members(w, keys[i]), now, ttl) {
      assert keys[i] in keys && keys[i] in w;
    }
  }

  /** How often an entry occurs in the lists read. */
  lemma {:induction false} Occurrences(w: Windows, ttl: Time, now: Time, keys: seq<Key>, lists: seq<seq<Update>>,
                                       u: Update)
    requires WellKeyed(w) && Cache.AreLists(w, ttl, now, keys, lists)
    ensures multiset(Flatten(lists))[u]
            == if u in InWindow(Members(w, KeyOf(u)), now, ttl) then multiset(keys)[KeyOf(u)] else 0
  {
    if keys != [] {
      Occurrences(w, ttl, now, keys[1..], lists[1..], u);
      assert keys == [keys[0]] + keys[1..];
      assert multiset(lists[0])[u] == multiset(InWindow(Members(w, keys[0]), now, ttl))[u];
      assert u in Members(w, keys[0]) ==> KeyOf(u) == keys[0];
    }
  }

  lemma ShownOccurrences(w: Windows, ttl: Time, now: Time, symbol: string, exchange: string, keys: seq<Key>,
                         lists: seq<seq<Update>>, u: Update)
    requires WellKeyed(w) && Cache.AreLists(w, ttl, now, keys, lists)
    requires forall k :: k in w && KeyMatches(k, symbol, exchange) ==> k in keys
    requires forall k :: k in keys ==> KeyMatches(k, symbol, exchange)
    ensures var times := multiset(Flatten(lists))[u];
            if u in Shown(w, ttl, now, symbol, exchange) then times == multiset(keys)[KeyOf(u)] > 0 else times == 0
  {
    Occurrences(w, ttl, now, keys, lists, u);
    ShownByKeys(w, ttl, now, symbol, exchange, keys, u);
    if i :| 0 <= i < |keys| && u in InWindow(Members(w, keys[i]), now, ttl) {
      assert KeyOf(u) == keys[i];
      assert keys[i] in multiset(keys);
    }
  }

  /** What is listed so evenly is listed as a query may see it. */
  lemma EvenLists(ps: seq<Update>, shown: set<Update>, keys: seq<Key>, once: bool)
    requires forall u :: if u in shown then multiset(ps)[u] == multiset(keys)[KeyOf(u)] > 0 else multiset(ps)[u] == 0
    requires once ==> |keys| == 1
    ensures Lists(ps, shown, once)
  {
    forall u ensures u in ps <==> u in shown {
      assert u in ps <==> u in multiset(ps);
    }
    if once {
      assert keys == [keys[0]];
      assert forall u :: multiset(ps)[u] == multiset(shown)[u];
    }
  }

  /** A successful read of the cache lists what it shows. */
  lemma ListsShown(w: Windows, ttl: Time, now: Time, symbol: string, exchange: string, scan: seq<Key>,
                   lists: seq<seq<Update>>)
    requires WellKeyed(w)
    requires exchange == "" ==> Cache.IsScan(w.Keys, symbol, scan)
    requires Cache.AreLists(w, ttl, now, if exchange != "" then [Key(exchange, symbol)] else scan, lists)
    ensures Lists(Flatten(lists), Shown(w, ttl, now, symbol, exchange), exchange != "")
  {
    var keys := if exchange != "" then [Key(exchange, symbol)] else scan;
    var shown := Shown(w, ttl, now, symbol, exchange);
    forall u
      ensures var times := multiset(Flatten(lists))[u];
              if u in shown then times == multiset(keys)[KeyOf(u)] > 0 else times == 0
    {
      ShownOccurrences(w, ttl, now, symbol, exchange, keys, lists, u);
    }
    EvenLists(Flatten(lists), shown, keys, exchange != "");
  }

  lemma AverageBetween(seen: set<Update>, once: bool, average: real, lo: real, hi: real)
    requires AverageOver(seen, once, average)
    requires forall u :: u in seen ==> lo <= u.price <= hi
    ensures lo <= average <= hi
  {
    var ps: seq<Update> :| ps != [] && Lists(ps, seen, once) && average == Mean(ps);
    MeanBetween(ps);
    Extremes(ps);
    var i :| 0 <= i < |ps| && ps[i].price == Lowest(ps);
    var j :| 0 <= j < |ps| && ps[j].price == Highest(ps);
    assert ps[i] in seen && ps[j] in seen;
  }

  lemma StatsSumUp(ps: seq<Update>, seen: set<Update>, once: bool, row: Row)
    requires ps != [] && Lists(ps, seen, once)
    requires row.average == Mean(ps) && row.min == Lowest(ps) && row.max == Highest(ps)
    ensures SumsUp(row, seen, once)
  {
    Extremes(ps);
    var i :| 0 <= i < |ps| && ps[i].price == Lowest(ps);
    var j :| 0 <= j < |ps| && ps[j].price == Highest(ps);
    assert ps[i] in ps && ps[j] in ps;
    forall u | u in seen ensures row.min <= u.price <= row.max {
      assert u in ps;
      var k :| 0 <= k < |ps| && ps[k] == u;
    }
  }

  function Newer(ps: seq<Update>, cutoff: Time): seq<Update> {
    if ps == [] then []
    else
      var n := |ps| - 1;
      Newer(ps[..n], cutoff) + (if ps[n].timestamp > cutoff then [ps[n]] else [])
  }

  lemma OneMore(ps: seq<Update>, p: Update, u: Update)
    ensures multiset(ps + [p])[u] == multiset(ps)[u] + (if p == u then 1 else 0)
  {}

  lemma {:induction false} NewerOccurrences(ps: seq<Update>, cutoff: Time, u: Update)
    ensures multiset(Newer(ps, cutoff))[u] == if u.timestamp > cutoff then multiset(ps)[u] else 0
  {
    if ps != [] {
      var before, p := ps[..|ps| - 1], ps[|ps| - 1];
      NewerOccurrences(before, cutoff, u);
      assert ps == before + [p];
      OneMore(before, p, u);
      OneMore(Newer(before, cutoff), p, u);
      assert Newer(before, cutoff) + [] == Newer(before, cutoff);
    }
  }

  /** Keeping the newer entries keeps a listing a listing. */
  lemma ListsNewer(all: seq<Update>, shown: set<Update>, seen: set<Update>, cutoff: Time, once: bool)
    requires Lists(all, shown, once)
    requires forall u :: u in seen <==> u in shown && u.timestamp > cutoff
    ensures Lists(Newer(all, cutoff), seen, once)
  {
    var ps := Newer(all, cutoff);
    forall u: Update
      ensures multiset(ps)[u] == if u.timestamp > cutoff then multiset(all)[u] else 0
      ensures u in ps <==> u in seen
    {
      NewerOccurrences(all, cutoff, u);
      assert u in ps <==> u in multiset(ps);
      assert u in all <==> u in multiset(all);
    }
    if once {
      assert forall u :: multiset(ps)[u] == multiset(seen)[u];
    }
  }

  /** What a query makes of a read is a listing of what it can see. */
  lemma ListsSeen(w: Windows, ttl: Time, at: Clocks, symbol: string, exchange: string, period: Time, all: seq<Update>)
    requires Lists(all, Shown(w, ttl, at.window, symbol, exchange), exchange != "")
    ensures var kept := if period >= MINUTE then all else Newer(all, at.cut - period);
            Lists(kept, Seen(w, ttl, at, symbol, exchange, period), exchange != "")
  {
    var shown, seen := Shown(w, ttl, at.window, symbol, exchange), Seen(w, ttl, at, symbol, exchange, period);
    if period >= MINUTE {
      assert seen == shown;
    } else {
      ListsNewer(all, shown, seen, at.cut - period, exchange != "");
    }
  }

  /** The same, for a read that may have failed. */
  lemma QueryLists(w: Windows, ttl: Time, at: Clocks, symbol: string, exchange: string, period: Time, fails: bool,
                   scan: seq<Key>, lists: seq<seq<Update>>, prices: seq<Update>)
    requires WellKeyed(w)
    requires exchange == "" ==> Cache.IsScan(w.Keys, symbol, scan)
    requires fails ==> prices == []
    requires !fails ==>
               && Cache.AreLists(w, ttl, at.window, if exchange != "" then [Key(exchange, symbol)] else scan, lists)
               && prices == if period >= MINUTE then Flatten(lists) else Newer(Flatten(lists), at.cut - period)
    ensures Lists(prices, if fails then {} else Seen(w, ttl, at, symbol, exchange, period), exchange != "")
  {
    if !fails {
      ListsShown(w, ttl, at.window, symbol, exchange, scan, lists);
      ListsSeen(w, ttl, at, symbol, exchange, period, Flatten(lists));
    }
  }

  method KeepNewer(all: seq<Update>, cutoff: Time) returns (prices: seq<Update>)
    ensures prices == Newer(all, cutoff)
  {
    prices := [];
    for i := 0 to |all|
      invariant prices == Newer(all[..i], cutoff)
    {
      assert all[..i + 1][..i] == all[..i];
      if all[i].timestamp > cutoff {
        prices := prices + [all[i]];
      }
    }
    assert all[..|all|] == all;
  }

  class PriceUseCase {
    const storage: PostgresAdapter
    const cache: Cache.RedisAdapter

    constructor (storage: PostgresAdapter, cache: Cache.RedisAdapter)
      ensures this.storage == storage && this.cache == cache
    {
      this.storage, this.cache := storage, cache;
    }

    /** What the cache can contribute; a failed read contributes nothing. */
    function SeenNow(at: Clocks, symbol: string, exchange: string, period: Time, fails: bool): set<Update>
      reads cache
    {
      if fails then {} else Seen(cache.windows, cache.ttl, at, symbol, exchange, period)
    }

    /** The rows the table can contribute. */
    function FoundNow(at: Clocks, symbol: string, exchange: string, period: Time, fails: bool): seq<Row>
      reads storage
    {
      if fails then [] else Matching(storage.rows, symbol, exchange, at.table - period)
    }

    /** The rows of the pair, at the exchange if one is given, that are no older than the period. */
    lemma FoundIs(at: Clocks, symbol: string, exchange: string, period: Time, fails: bool, r: Row)
      ensures multiset(FoundNow(at, symbol, exchange, period, fails))[r]
              == if !fails && r.pair == symbol && (exchange == "" || r.exchange == exchange)
                    && r.timestamp >= at.table - period
                 then multiset(storage.rows)[r] else 0
    {
      MatchingOccurrences(storage.rows, symbol, exchange, at.table - period, r);
    }

    /** Short periods are filtered to the nanosecond, on top of the cache's own window. */
    method GetPricesFromCache(symbol: string, exchange: string, at: Clocks, period: Time, fails: bool)
      returns (ok: bool, prices: seq<Update>)
      requires cache.Valid()
      ensures ok == !fails && (fails ==> prices == [])
      ensures Lists(prices, SeenNow(at, symbol, exchange, period, fails), exchange != "")
    {
      var scan := [];
      if exchange == "" {
        scan := cache.ScanWindows(symbol);
      }
      var all;
      ghost var lists;
      ok, all, lists := cache.GetPricesInWindow(symbol, exchange, at.window, scan, fails);
      prices := all;
      if ok && period < MINUTE {
        prices := KeepNewer(all, at.cut - period);
      }
      QueryLists(cache.windows, cache.ttl, at, symbol, exchange, period, fails, scan, lists, prices);
    }

    /** A cache error reads as no answer. */
    method ComputeHighestFromCache(symbol: string, exchange: string, at: Clocks, period: Time, fails: bool)
      returns (row: Option<Row>, ghost prices: seq<Update>)
      requires cache.Valid()
      ensures HighestAnswer([], SeenNow(at, symbol, exchange, period, fails), exchange != "", row)
      ensures Lists(prices, SeenNow(at, symbol, exchange, period, fails), exchange != "")
      ensures row.None? <==> prices == []
      ensures row.Some? ==>
                && row.value.pair == symbol && row.value.average == Mean(prices)
                && row.value.min == Lowest(prices) && row.value.max == Highest(prices)
                && Reported(prices, row.value.max, row.value.exchange, row.value.timestamp)
    {
      var ok, ps := GetPricesFromCache(symbol, exchange, at, period, fails);
      prices := ps;
      ghost var seen := SeenNow(at, symbol, exchange, period, fails);
      if !ok || |ps| == 0 {
        assert seen == {};
        return None, prices;
      }
      assert ps[0] in seen;
      var maxPrice := ps[0].price;
      var holder := Update("", "", 0.0, ZERO_TIME);
      for i := 0 to |ps|
        invariant i == 0 ==> maxPrice == ps[0].price
        invariant i > 0 ==> maxPrice == Highest(ps[..i])
        invariant Reported(ps, maxPrice, holder.exchange, holder.timestamp)
        invariant forall j :: 0 <= j < i ==> ps[j].price <= maxPrice
      {
        assert ps[..i + 1][..i] == ps[..i];
        if ps[i].price > maxPrice {
          maxPrice := ps[i].price;
          holder := ps[i];
        }
      }
      assert ps[..|ps|] == ps;
      var average, min, max := ComputeStats(ps);
      row := Some(Row(symbol, holder.exchange, holder.timestamp, average, min, max));
      StatsSumUp(ps, seen, exchange != "", row.value);
    }

    method ComputeLowestFromCache(symbol: string, exchange: string, at: Clocks, period: Time, fails: bool)
      returns (row: Option<Row>, ghost prices: seq<Update>)
      requires cache.Valid()
      ensures LowestAnswer([], SeenNow(at, symbol, exchange, period, fails), exchange != "", row)
      ensures Lists(prices, SeenNow(at, symbol, exchange, period, fails), exchange != "")
      ensures row.None? <==> prices == []
      ensures row.Some? ==>
                && row.value.pair == symbol && row.value.average == Mean(prices)
                && row.value.min == Lowest(prices) && row.value.max == Highest(prices)
                && Reported(prices, row.value.min, row.value.exchange, row.value.timestamp)
    {
      var ok, ps := GetPricesFromCache(symbol, exchange, at, period, fails);
      prices := ps;
      ghost var seen := SeenNow(at, symbol, exchange, period, fails);
      if !ok || |ps| == 0 {
        assert seen == {};
        return None, prices;
      }
      assert ps[0] in seen;
      var minPrice := ps[0].price;
      var holder := Update("", "", 0.0, ZERO_TIME);
      for i := 0 to |ps|
        invariant i == 0 ==> minPrice == ps[0].price
        invariant i > 0 ==> minPrice == Lowest(ps[..i])
        invariant Reported(ps, minPrice, holder.exchange, holder.timestamp)
        invariant forall j :: 0 <= j < i ==> ps[j].price >= minPrice
      {
        assert ps[..i + 1][..i] == ps[..i];
        if ps[i].price < minPrice {
          minPrice := ps[i].price;
          holder := ps[i];
        }
      }
      assert ps[..|ps|] == ps;
      var average, min, max := ComputeStats(ps);
      row := Some(Row(symbol, holder.exchange, holder.timestamp, average, min, max));
      StatsSumUp(ps, seen, exchange != "", row.value);
    }

    method ComputeAverageFromCache(symbol: string, exchange: string, at: Clocks, period: Time, fails: bool)
      returns (average: real)
      requires cache.Valid()
      ensures AverageAnswer([], SeenNow(at, symbol, exchange, period, fails), exchange != "", average)
    {
      var ok, ps := GetPricesFromCache(symbol, exchange, at, period, fails);
      if !ok || |ps| == 0 {
        assert SeenNow(at, symbol, exchange, period, fails) == {};
        return 0.0;
      }
      var min, max;
      average, min, max := ComputeStats(ps);
      assert ps[0] in SeenNow(at, symbol, exchange, period, fails);
    }

    /** A storage error is no error of the query: the cache answers instead. */
    method GetHighestPrice(symbol: string, exchange: string, at: Clocks, period: Time,
                           storageFails: bool, cacheFails: bool) returns (row: Option<Row>)
      requires cache.Valid()
      ensures HighestAnswer(FoundNow(at, symbol, exchange, period, storageFails),
                            SeenNow(at, symbol, exchange, period, cacheFails), exchange != "", row)
    {
      var ok, price := storage.GetHighestPrice(symbol, exchange, at.table, period, storageFails);
      if ok && price.Some? {
        return price;
      }
      ghost var prices;
      row, prices := ComputeHighestFromCache(symbol, exchange, at, period, cacheFails);
    }

    method GetLowestPrice(symbol: string, exchange: string, at: Clocks, period: Time,
                           storageFails: bool, cacheFails: bool) returns (row: Option<Row>)
      requires cache.Valid()
      ensures LowestAnswer(FoundNow(at, symbol, exchange, period, storageFails),
                            SeenNow(at, symbol, exchange, period, cacheFails), exchange != "", row)
    {
      var ok, price := storage.GetLowestPrice(symbol, exchange, at.table, period, storageFails);
      if ok && price.Some? {
        return price;
      }
      ghost var prices;
      row, prices := ComputeLowestFromCache(symbol, exchange, at, period, cacheFails);
    }

    method GetAveragePrice(symbol: string, exchange: string, at: Clocks, period: Time,
                           storageFails: bool, cacheFails: bool) returns (average: real)
      requires cache.Valid()
      ensures AverageAnswer(FoundNow(at, symbol, exchange, period, storageFails),
                            SeenNow(at, symbol, exchange, period, cacheFails), exchange != "", average)
    {
      var ok, stored := storage.GetAveragePrice(symbol, exchange, at.table, period, storageFails);
      if ok && stored > 0.0 {
        return stored;
      }
      average := ComputeAverageFromCache(symbol, exchange, at, period, cacheFails);
    }

    /** What the cache answers to the latest query. */
    ghost predicate CachedLatest(symbol: string, exchange: string, fails: bool, broken: set<Key>, scanFails: bool,
                                 price: Option<Update>)
      reads cache
    {
      if exchange != "" then price == if fails then None else Entry(cache.latest, Key(exchange, symbol))
      else if scanFails then price == None
      else Cache.IsLatest(Cache.Readable(cache.latest, Cache.KeysOf(cache.latest, symbol), broken), price)
    }

    /**
     The cache's entry if there is one; otherwise, and also after a cache error, the table's average of the last
     minute stands in for the price, at the time `now` of the answer, and an average of zero means there is none.
     `pages` are those the server's scan returns if all exchanges are asked for.
     */
    method GetLatestPrice(symbol: string, exchange: string, table: Time, now: Time, pages: seq<seq<Key>>,
                          broken: set<Key>, failAt: Option<nat>, cacheFails: bool, storageFails: bool)
      returns (ok: bool, price: Option<Update>, ghost cached: Option<Update>)
      requires cache.Valid()
      requires exchange == "" ==> Cache.IsScan(cache.latest.Keys, symbol, Flatten(pages))
      ensures CachedLatest(symbol, exchange, cacheFails, broken, failAt.Some? && failAt.value < |pages|, cached)
      ensures cached.Some? ==> ok && price == cached
      ensures cached.None? ==>
                var average := AverageOf(Matching(storage.rows, symbol, exchange, table - MINUTE));
                && ok == !storageFails
                && price == if ok && average != 0.0 then Some(Update(symbol, exchange, average, now)) else None
      ensures cached.None? && price.Some? ==>
                exists r :: r in storage.rows && r.pair == symbol && (exchange == "" || r.exchange == exchange)
                            && r.timestamp >= table - 60 * 1_000_000_000
      ensures price.Some? ==>
                price.value.symbol == symbol && (exchange != "" ==> price.value.exchange == exchange)
    {
      if exchange != "" {
        ok, price := cache.GetLatestPrice(symbol, exchange, cacheFails);
      } else {
        ok, price := cache.GetLatestPriceAny(symbol, pages, broken, failAt);
      }
      cached := price;
      if ok && price.Some? {
        return;
      }
      var average;
      ok, average := storage.GetAveragePrice(symbol, exchange, table, MINUTE, storageFails);
      if !ok {
        return false, None, cached;
      }
      if average == 0.0 {
        return true, None, cached;
      }
      ghost var found := Matching(storage.rows, symbol, exchange, table - MINUTE);
      assert found != [];
      MatchingOccurrences(storage.rows, symbol, exchange, table - MINUTE, found[0]);
      assert found[0] in found && found[0] in storage.rows;
      return true, Some(Update(symbol, exchange, average, now)), cached;
    }
  }

  // ---------- The three queries together ----------

  /** The lowest and the highest query answer together, and then the average lies between the two. */
  predicate InOrder(low: Option<Row>, average: real, high: Option<Row>) {
    (low.Some? <==> high.Some?) && (low.Some? && high.Some? ==> low.value.min <= average <= high.value.max)
  }

  lemma QueriesInOrder(found: seq<Row>, seen: set<Update>, once: bool,
                       low: Option<Row>, average: real, high: Option<Row>)
    requires forall r :: r in found ==> Ordered(r)
    requires found == [] || AverageOf(found) > 0.0
    requires LowestAnswer(found, seen, once, low) && HighestAnswer(found, seen, once, high)
    requires AverageAnswer(found, seen, once, average)
    ensures InOrder(low, average, high)
  {
    if found != [] {
      AnswersInOrder(found, low.value, high.value);
    } else if seen != {} {
      AverageBetween(seen, once, average, low.value.min, high.value.max);
    }
  }

  /** With the given matching rows, the three queries agree at one clock reading, whatever the cache holds. */
  ghost predicate AlwaysInOrder(found: seq<Row>, ttl: Time, now: Time, symbol: string, exchange: string,
                                period: Time) {
    forall w, low, average, high ::
      && WellKeyed(w)
      && LowestAnswer(found, SeenAt(w, ttl, now, symbol, exchange, period), exchange != "", low)
      && HighestAnswer(found, SeenAt(w, ttl, now, symbol, exchange, period), exchange != "", high)
      && AverageAnswer(found, SeenAt(w, ttl, now, symbol, exchange, period), exchange != "", average)
      ==> InOrder(low, average, high)
  }

  function SeenAt(w: Windows, ttl: Time, now: Time, symbol: string, exchange: string, period: Time): set<Update> {
    Seen(w, ttl, Clocks(now, now, now), symbol, exchange, period)
  }

  lemma {:induction false} ExtremeRows(found: seq<Row>) returns (low: Row, high: Row)
    requires found != []
    ensures IsLowest(found, Some(low)) && IsHighest(found, Some(high))
  {
    var n := |found| - 1;
    low, high := found[n], found[n];
    if n > 0 {
      var a, b := ExtremeRows(found[..n]);
      low := if a.min < low.min then a else low;
      high := if b.max > high.max then b else high;
    }
    assert found == found[..n] + [found[n]];
  }

  /** With one fresh entry in the cache, the query can see just that. */
  lemma OneSeen(ttl: Time, now: Time, symbol: string, exchange: string, period: Time, price: real)
    requires ttl >= 0 && period > 0
    ensures var u := Update(symbol, exchange, price, now); var w := map[KeyOf(u) := {u}];
            && WellKeyed(w) && SeenAt(w, ttl, now, symbol, exchange, period) == {u}
            && AverageOver({u}, exchange != "", price)
  {
    var u := Update(symbol, exchange, price, now);
    var w := map[KeyOf(u) := {u}];
    UnixOrder(now - ttl, now);
    assert KeyOf(u) in w && KeyMatches(KeyOf(u), symbol, exchange) && u in w[KeyOf(u)] && Visible(u, now, ttl);
    assert u in Shown(w, ttl, now, symbol, exchange);
    assert Recent(u, now, period);
    assert SeenAt(w, ttl, now, symbol, exchange, period) == {u};
    MeanOfOne(u);
    assert Lists([u], {u}, exchange != "");
  }

  /** A price above every row's maximum, seen in the cache when the table's average is not positive. */
  lemma OutOfOrder(found: seq<Row>, ttl: Time, now: Time, symbol: string, exchange: string, period: Time)
    requires ttl >= 0 && period > 0 && found != [] && AverageOf(found) <= 0.0
    ensures !AlwaysInOrder(found, ttl, now, symbol, exchange, period)
  {
    var low, high := ExtremeRows(found);
    var u := Update(symbol, exchange, high.max + 1.0, now);
    OneSeen(ttl, now, symbol, exchange, period, u.price);
    var seen := SeenAt(map[KeyOf(u) := {u}], ttl, now, symbol, exchange, period);
    assert LowestAnswer(found, seen, exchange != "", Some(low));
    assert HighestAnswer(found, seen, exchange != "", Some(high));
    assert AverageAnswer(found, seen, exchange != "", u.price);
    assert !InOrder(Some(low), u.price, Some(high));
  }

  /**
   With one clock, one state and no errors, the queries agree whatever the cache holds exactly when the table has no
   row for them or its average is positive: only then do all three use the table, or all three the cache.
   */
  lemma AgreeExactly(rows: seq<Row>, ttl: Time, now: Time, symbol: string, exchange: string, period: Time)
    requires ttl >= 0 && period > 0 && forall r :: r in rows ==> Ordered(r)
    ensures var found := Matching(rows, symbol, exchange, now - period);
            AlwaysInOrder(found, ttl, now, symbol, exchange, period) <==> found == [] || AverageOf(found) > 0.0
  {
    var found := Matching(rows, symbol, exchange, now - period);
    if found == [] || AverageOf(found) > 0.0 {
      forall w, low, average, high |
        && WellKeyed(w)
        && LowestAnswer(found, SeenAt(w, ttl, now, symbol, exchange, period), exchange != "", low)
        && HighestAnswer(found, SeenAt(w, ttl, now, symbol, exchange, period), exchange != "", high)
        && AverageAnswer(found, SeenAt(w, ttl, now, symbol, exchange, period), exchange != "", average)
        ensures InOrder(low, average, high)
      {
        QueriesInOrder(found, SeenAt(w, ttl, now, symbol, exchange, period), exchange != "", low, average, high);
      }
    } else {
      OutOfOrder(found, ttl, now, symbol, exchange, period);
    }
  }

  lemma {:induction false} PositiveSum(found: seq<Row>)
    requires forall r :: r in found ==> r.average > 0.0
    ensures SumOfAverages(found) >= 0.0 && (found != [] ==> SumOfAverages(found) > 0.0)
  {
    if found != [] {
      PositiveSum(found[..|found| - 1]);
    }
  }

  lemma PositiveAverage(found: seq<Row>)
    requires forall r :: r in found ==> r.average > 0.0
    ensures found == [] || AverageOf(found) > 0.0
  {
    PositiveSum(found);
    if found != [] {
      var total, n := SumOfAverages(found), |found| as real;
      assert total > 0.0 && n > 0.0;
      assert total / n > 0.0;
    }
  }

  /** With positive raw prices behind its rows, the three queries agree on any table its writers make. */
  lemma PositivePricesAgree(table: PostgresAdapter, ttl: Time, now: Time, symbol: string, exchange: string,
                            period: Time)
    requires ttl >= 0 && period > 0
    requires table.Valid() && forall g :: g in table.groups ==> Positive(g.prices)
    ensures AlwaysInOrder(Matching(table.rows, symbol, exchange, now - period), ttl, now, symbol, exchange, period)
  {
    var found := Matching(table.rows, symbol, exchange, now - period);
    forall r | r in table.rows ensures Ordered(r) && r.average > 0.0 {
      TableInvariant(table, r);
    }
    PositiveAverage(found);
    AgreeExactly(table.rows, ttl, now, symbol, exchange, period);
  }
}
