/** Reading every exchange by itself and reading all of them at once give the same batch. */
module Strategies {
  import opened Model
  import opened Sums
  import opened Stats
  import opened Redis
  import opened Storage
  import opened Cycle
  import opened CycleSafety
  import opened Readings
  import Cache

  // ---------- One pair ----------

  lemma {:induction false} OfExchangeConcat(ps: seq<Update>, qs: seq<Update>, e: string)
    ensures OfExchange(ps + qs, e) == OfExchange(ps, e) + OfExchange(qs, e)
  {
    if qs == [] {
      assert ps + qs == ps;
    } else {
      var n := |qs| - 1;
      assert (ps + qs)[..|ps| + n] == ps + qs[..n];
      OfExchangeConcat(ps, qs[..n], e);
    }
  }

  lemma {:induction false} OfExchangeUniform(ps: seq<Update>, e: string, e': string)
    requires forall u :: u in ps ==> u.exchange == e'
    ensures OfExchange(ps, e) == if e == e' then ps else []
  {
    if ps != [] {
      OfExchangeUniform(ps[..|ps| - 1], e, e');
    }
  }

  /** The lists read for the keys of one exchange; a scan may name a key more than once. */
  function ListsOf(keys: seq<Key>, lists: seq<seq<Update>>, e: string): seq<seq<Update>>
    requires |keys| == |lists|
  {
    if keys == [] then []
    else (if keys[0].exchange == e then [lists[0]] else []) + ListsOf(keys[1..], lists[1..], e)
  }

  /** Grouping by the entries' own exchange field picks out the lists of that exchange's keys. */
  lemma {:induction false} GroupingFollowsKeys(keys: seq<Key>, lists: seq<seq<Update>>, e: string)
    requires |keys| == |lists|
    requires forall i, u :: 0 <= i < |keys| && u in lists[i] ==> u.exchange == keys[i].exchange
    ensures OfExchange(Flatten(lists), e) == Flatten(ListsOf(keys, lists, e))
  {
    if keys != [] {
      var first, rest := lists[0], ListsOf(keys[1..], lists[1..], e);
      GroupingFollowsKeys(keys[1..], lists[1..], e);
      OfExchangeConcat(first, Flatten(lists[1..]), e);
      OfExchangeUniform(first, e, keys[0].exchange);
      if keys[0].exchange == e {
        assert ([first] + rest)[1..] == rest;
      } else {
        assert [] + rest == rest;
        assert [] + Flatten(rest) == Flatten(rest);
      }
    }
  }

  lemma {:induction false} ListsOfAre(keys: seq<Key>, lists: seq<seq<Update>>, e: string, one: seq<Update>)
    requires |keys| == |lists|
    requires forall i :: 0 <= i < |keys| && keys[i].exchange == e ==> Shuffle(lists[i], one)
    ensures forall i :: 0 <= i < |ListsOf(keys, lists, e)| ==> Shuffle(ListsOf(keys, lists, e)[i], one)
    ensures (exists k :: k in keys && k.exchange == e) <==> ListsOf(keys, lists, e) != []
  {
    if keys != [] {
      ListsOfAre(keys[1..], lists[1..], e, one);
      assert keys == [keys[0]] + keys[1..];
    }
  }

  lemma ShuffleOfSet(ps: seq<Update>, us: set<Update>)
    requires multiset(ps) == multiset(us)
    ensures forall u :: u in ps <==> u in us
    ensures ps == [] <==> us == {}
  {
    forall u ensures u in ps <==> u in us {
      assert u in ps <==> u in multiset(ps);
    }
    if us != {} {
      var u :| u in us;
      assert u in ps;
    }
    if ps != [] {
      assert ps[0] in ps;
    }
  }

  lemma ReadEntriesKeyed(w: Windows, ttl: Time, clock: Time, keys: seq<Key>, lists: seq<seq<Update>>)
    requires WellKeyed(w) && Cache.AreLists(w, ttl, clock, keys, lists)
    ensures forall i, u :: 0 <= i < |keys| && u in lists[i] ==> u.exchange == keys[i].exchange
  {
    forall i, u | 0 <= i < |keys| && u in lists[i]
      ensures u.exchange == keys[i].exchange
    {
      ShuffleOfSet(lists[i], InWindow(Members(w, keys[i]), clock, ttl));
      assert u in Members(w, keys[i]) && KeyOf(u) == keys[i];
    }
  }

  /** The entries that an explicit read of the pair's window at the exchange returns. */
  function Entries(w: Windows, ttl: Time, clock: Time, pair: string, exchange: string): set<Update> {
    InWindow(Members(w, Key(exchange, pair)), clock, ttl)
  }

  /** In a read of all exchanges, the group of an exchange has the statistics of the explicit read. */
  lemma GroupStats(w: Windows, ttl: Time, clock: Time, pair: string, keys: seq<Key>, lists: seq<seq<Update>>,
                   e: string, one: seq<Update>)
    requires WellKeyed(w) && Cache.AreLists(w, ttl, clock, keys, lists) && Cache.IsScan(w.Keys, pair, keys)
    requires multiset(one) == multiset(Entries(w, ttl, clock, pair, e))
    ensures OfExchange(Flatten(lists), e) == [] <==> one == []
    ensures one != [] ==> SameStats(OfExchange(Flatten(lists), e), one)
  {
    ReadEntriesKeyed(w, ttl, clock, keys, lists);
    GroupingFollowsKeys(keys, lists, e);
    forall i | 0 <= i < |keys| && keys[i].exchange == e ensures Shuffle(lists[i], one) {
      assert keys[i] in keys;
      assert keys[i] == Key(e, pair);
    }
    ListsOfAre(keys, lists, e, one);
    ShuffleOfSet(one, Entries(w, ttl, clock, pair, e));
    var mine := ListsOf(keys, lists, e);
    if one == [] {
      forall i | 0 <= i < |mine| ensures mine[i] == [] {
        assert Shuffle(mine[i], one);
        assert |multiset(mine[i])| == 0;
      }
      FlattenNothing(mine);
    } else {
      assert Key(e, pair) in w && Key(e, pair) in keys;
      CopiesKeepStats(mine, one);
    }
  }

  // ---------- Whole batches ----------

  predicate Distinct<T(==)>(xs: seq<T>) {
    forall i, j :: 0 <= i < j < |xs| ==> xs[i] != xs[j]
  }

  function GroupKey(g: Group): (string, string) {
    (g.pair, g.exchange)
  }

  /** At most one group for each pair and exchange. */
  ghost predicate OncePerKey(gs: seq<Group>) {
    forall i, j :: 0 <= i < j < |gs| ==> GroupKey(gs[i]) != GroupKey(gs[j])
  }

  /** The rows of the two groups differ at most in their timestamps. */
  ghost predicate SameRow(g: Group, h: Group) {
    GroupKey(g) == GroupKey(h) && SameStats(g.prices, h.prices)
  }

  /** The same rows up to order and timestamps. */
  ghost predicate SameBatch(gs: seq<Group>, hs: seq<Group>) {
    && OncePerKey(gs) && OncePerKey(hs)
    && (forall g :: g in gs ==> exists h :: h in hs && SameRow(g, h))
    && (forall h :: h in hs ==> exists g :: g in gs && SameRow(g, h))
  }

  lemma {:induction false} FlattenOnce(parts: seq<seq<Group>>)
    requires forall i :: 0 <= i < |parts| ==> OncePerKey(parts[i])
    requires forall i, j, g, h :: 0 <= i < j < |parts| && g in parts[i] && h in parts[j] ==> GroupKey(g) != GroupKey(h)
    ensures OncePerKey(Flatten(parts))
  {
    if parts != [] {
      var first, rest := parts[0], Flatten(parts[1..]);
      forall i, j, g, h | 0 <= i < j < |parts[1..]| && g in parts[1..][i] && h in parts[1..][j]
        ensures GroupKey(g) != GroupKey(h)
      {
        assert parts[1..][i] == parts[i + 1] && parts[1..][j] == parts[j + 1];
      }
      FlattenOnce(parts[1..]);
      forall a, b | 0 <= a < |first| && 0 <= b < |rest|
        ensures GroupKey(first[a]) != GroupKey(rest[b])
      {
        FlattenMembers(parts[1..], rest[b]);
        var j :| 0 <= j < |parts[1..]| && rest[b] in parts[1..][j];
        assert first[a] in parts[0] && rest[b] in parts[j + 1];
      }
    }
  }

  lemma PlanPairsDistinct(pairs: seq<string>, exchange: string)
    requires Distinct(pairs)
    ensures Distinct(PlanPairs(pairs, exchange))
  {}

  lemma {:induction false} PlanDistinct(pairs: seq<string>, exchanges: seq<string>)
    requires Distinct(pairs) && Distinct(exchanges)
    ensures Distinct(PlanExchanges(pairs, exchanges))
  {
    if exchanges != [] {
      var n := |exchanges| - 1;
      var before, last := PlanExchanges(pairs, exchanges[..n]), PlanPairs(pairs, exchanges[n]);
      PlanDistinct(pairs, exchanges[..n]);
      PlanPairsDistinct(pairs, exchanges[n]);
      forall i, j | 0 <= i < |before| && 0 <= j < |last|
        ensures before[i] != last[j]
      {
        assert before[i] in before;
        PlanExchangesEntries(pairs, exchanges[..n], before[i]);
      }
    }
  }

  /** All reads of the cycle succeeded, at one instant. */
  ghost predicate AtOneInstant(explicit: bool, w: Windows, ttl: Time, clock: Time, plan: seq<(string, string)>,
                               log: seq<Reading>, parts: seq<seq<Group>>) {
    && Follows(explicit, w, ttl, plan, log, parts)
    && forall i :: 0 <= i < |log| ==> log[i].ok && log[i].clock == clock
  }

  /** What an explicit read contributes. */
  lemma ExplicitPart(w: Windows, ttl: Time, clock: Time, r: Reading, part: seq<Group>)
    requires r.ok && r.exchange != "" && r.clock == clock && ReadFrom(w, ttl, r) && Contributes(true, r, part)
    ensures OncePerKey(part) && forall g :: g in part ==> GroupKey(g) == (r.pair, r.exchange)
    ensures part == [] <==> Entries(w, ttl, clock, r.pair, r.exchange) == {}
    ensures forall g :: g in part ==> multiset(g.prices) == multiset(Entries(w, ttl, clock, r.pair, r.exchange))
  {
    var keys, lists :|
      && r.prices == Flatten(lists)
      && Cache.AreLists(w, ttl, r.clock, keys, lists)
      && keys == [Key(r.exchange, r.pair)];
    assert Flatten(lists) == lists[0] + Flatten(lists[1..]);
    assert r.prices == lists[0];
    assert keys[0] == Key(r.exchange, r.pair);
    ShuffleOfSet(r.prices, Entries(w, ttl, clock, r.pair, r.exchange));
  }

  /** What a read of all exchanges contributes. */
  lemma GroupedPart(w: Windows, ttl: Time, clock: Time, r: Reading, part: seq<Group>, e: string, one: seq<Update>)
    requires WellKeyed(w)
    requires r.ok && r.exchange == "" && r.clock == clock && ReadFrom(w, ttl, r) && Contributes(false, r, part)
    requires multiset(one) == multiset(Entries(w, ttl, clock, r.pair, e))
    ensures OncePerKey(part) && forall g :: g in part ==> g.pair == r.pair
    ensures one != [] <==> exists g :: g in part && g.exchange == e
    ensures forall g :: g in part && g.exchange == e ==> SameStats(g.prices, one)
  {
    var keys, lists :|
      && r.prices == Flatten(lists)
      && Cache.AreLists(w, ttl, r.clock, keys, lists)
      && Cache.IsScan(w.Keys, r.pair, keys);
    GroupStats(w, ttl, clock, r.pair, keys, lists, e, one);
    if one != [] {
      var found := OfExchange(r.prices, e);
      assert found[0] in found;
      OfExchangeMember(r.prices, e, found[0]);
      assert found[0] in r.prices && found[0].exchange == e;
      var i :| 0 <= i < |part| && part[i].exchange == found[0].exchange;
      assert part[i] in part;
    }
    forall g | g in part && g.exchange == e
      ensures one != [] && SameStats(g.prices, one)
    {
      var i :| 0 <= i < |part| && part[i] == g;
    }
  }

  lemma ExplicitOnce(w: Windows, ttl: Time, clock: Time, c: Config, log: seq<Reading>, parts: seq<seq<Group>>)
    requires Distinct(c.pairs) && Distinct(c.exchanges) && c.exchanges != [] && "" !in c.exchanges
    requires AtOneInstant(true, w, ttl, clock, Plan(c.pairs, c.exchanges), log, parts)
    ensures OncePerKey(Flatten(parts))
  {
    var plan := Plan(c.pairs, c.exchanges);
    PlanDistinct(c.pairs, c.exchanges);
    forall i | 0 <= i < |log|
      ensures OncePerKey(parts[i]) && forall g :: g in parts[i] ==> GroupKey(g) == plan[i]
    {
      assert plan[i] in plan;
      PlanEntries(c, plan[i]);
      ExplicitPart(w, ttl, clock, log[i], parts[i]);
    }
    FlattenOnce(parts);
  }

  lemma GroupedOnce(w: Windows, ttl: Time, clock: Time, pairs: seq<string>, log: seq<Reading>, parts: seq<seq<Group>>)
    requires WellKeyed(w) && Distinct(pairs)
    requires AtOneInstant(false, w, ttl, clock, Plan(pairs, []), log, parts)
    ensures OncePerKey(Flatten(parts))
  {
    forall i | 0 <= i < |log|
      ensures OncePerKey(parts[i]) && forall g :: g in parts[i] ==> g.pair == pairs[i]
    {
      assert PlanPairs(pairs, "")[i] == (pairs[i], "");
    }
    FlattenOnce(parts);
  }

  /** Every group of the explicit batch holds what its window shows. */
  lemma ExplicitGroup(w: Windows, ttl: Time, clock: Time, c: Config, log: seq<Reading>, parts: seq<seq<Group>>,
                      g: Group)
    requires c.exchanges != [] && "" !in c.exchanges
    requires AtOneInstant(true, w, ttl, clock, Plan(c.pairs, c.exchanges), log, parts)
    requires g in Flatten(parts)
    ensures g.pair in c.pairs && multiset(g.prices) == multiset(Entries(w, ttl, clock, g.pair, g.exchange))
  {
    FlattenMembers(parts, g);
    var i :| 0 <= i < |parts| && g in parts[i];
    var plan := Plan(c.pairs, c.exchanges);
    assert plan[i] in plan;
    PlanEntries(c, plan[i]);
    ExplicitPart(w, ttl, clock, log[i], parts[i]);
  }

  /** Every group of the grouped batch has the statistics of what its window shows. */
  lemma GroupedGroup(w: Windows, ttl: Time, clock: Time, c: Config, log: seq<Reading>, parts: seq<seq<Group>>,
                     h: Group, one: seq<Update>)
    requires WellKeyed(w)
    requires AtOneInstant(false, w, ttl, clock, Plan(c.pairs, []), log, parts)
    requires h in Flatten(parts) && multiset(one) == multiset(Entries(w, ttl, clock, h.pair, h.exchange))
    ensures h.pair in c.pairs && SameStats(h.prices, one)
  {
    FlattenMembers(parts, h);
    var j :| 0 <= j < |parts| && h in parts[j];
    assert PlanPairs(c.pairs, "")[j] == (c.pairs[j], "");
    GroupedPair(log[j], parts[j], h);
    GroupedPart(w, ttl, clock, log[j], parts[j], h.exchange, one);
  }

  lemma GroupedPair(r: Reading, part: seq<Group>, h: Group)
    requires Contributes(false, r, part) && h in part
    ensures h.pair == r.pair
  {}

  /** The entries of a window, listed. */
  ghost function Listed(us: set<Update>): (ps: seq<Update>)
    ensures multiset(ps) == multiset(us)
  {
    if us == {} then []
    else
      var u :| u in us;
      assert us == (us - {u}) + {u};
      Listed(us - {u}) + [u]
  }

  /** The explicit read's group for a pair and exchange is in the grouped batch too. */
  lemma FoundGrouped(w: Windows, ttl: Time, clock: Time, c: Config, log: seq<Reading>, parts: seq<seq<Group>>, g: Group)
    requires WellKeyed(w) && g.pair in c.pairs
    requires AtOneInstant(false, w, ttl, clock, Plan(c.pairs, []), log, parts)
    requires multiset(g.prices) == multiset(Entries(w, ttl, clock, g.pair, g.exchange))
    ensures exists h :: h in Flatten(parts) && SameRow(g, h)
  {
    var j :| 0 <= j < |c.pairs| && c.pairs[j] == g.pair;
    assert PlanPairs(c.pairs, "")[j] == (g.pair, "");
    GroupedPart(w, ttl, clock, log[j], parts[j], g.exchange, g.prices);
    var h :| h in parts[j] && h.exchange == g.exchange;
    FlattenMembers(parts, h);
    assert SameRow(g, h);
  }

  /** The group of an exchange in the grouped batch is in the explicit one too. */
  lemma FoundExplicit(w: Windows, ttl: Time, clock: Time, c: Config, log: seq<Reading>, parts: seq<seq<Group>>,
                      pair: string, exchange: string)
    requires c.exchanges != [] && "" !in c.exchanges
    requires AtOneInstant(true, w, ttl, clock, Plan(c.pairs, c.exchanges), log, parts)
    requires pair in c.pairs && exchange in c.exchanges && Entries(w, ttl, clock, pair, exchange) != {}
    ensures exists g :: g in Flatten(parts) && GroupKey(g) == (pair, exchange)
                        && multiset(g.prices) == multiset(Entries(w, ttl, clock, pair, exchange))
  {
    var plan := Plan(c.pairs, c.exchanges);
    PlanEntries(c, (pair, exchange));
    var i :| 0 <= i < |plan| && plan[i] == (pair, exchange);
    ExplicitPart(w, ttl, clock, log[i], parts[i]);
    var g := parts[i][0];
    assert g in parts[i];
    FlattenMembers(parts, g);
  }

  /**
   With reads that succeed at one instant, and exchanges configured wherever a window shows entries, a cycle
   over explicit exchanges and a cycle that groups the reads of all exchanges aggregate the same rows, up to
   order and timestamps; a scan that names keys more than once makes no difference.
   */
  lemma StrategiesAgree(w: Windows, ttl: Time, clock: Time, c: Config,
                        log: seq<Reading>, parts: seq<seq<Group>>, log': seq<Reading>, parts': seq<seq<Group>>)
    requires WellKeyed(w)
    requires Distinct(c.pairs) && Distinct(c.exchanges) && c.exchanges != [] && "" !in c.exchanges
    requires forall k: Key ::
               k.symbol in c.pairs && InWindow(Members(w, k), clock, ttl) != {} ==> k.exchange in c.exchanges
    requires AtOneInstant(true, w, ttl, clock, Plan(c.pairs, c.exchanges), log, parts)
    requires AtOneInstant(false, w, ttl, clock, Plan(c.pairs, []), log', parts')
    ensures SameBatch(Flatten(parts), Flatten(parts'))
  {
    ExplicitOnce(w, ttl, clock, c, log, parts);
    GroupedOnce(w, ttl, clock, c.pairs, log', parts');
    forall g | g in Flatten(parts)
      ensures exists h :: h in Flatten(parts') && SameRow(g, h)
    {
      ExplicitGroup(w, ttl, clock, c, log, parts, g);
      FoundGrouped(w, ttl, clock, c, log', parts', g);
    }
    forall h | h in Flatten(parts')
      ensures exists g :: g in Flatten(parts) && SameRow(g, h)
    {
      var us := Entries(w, ttl, clock, h.pair, h.exchange);
      var one := Listed(us);
      GroupedGroup(w, ttl, clock, c, log', parts', h, one);
      ShuffleOfSet(one, us);
      FoundExplicit(w, ttl, clock, c, log, parts, h.pair, h.exchange);
      var g :| g in Flatten(parts) && GroupKey(g) == (h.pair, h.exchange) && multiset(g.prices) == multiset(us);
      GroupedGroup(w, ttl, clock, c, log', parts', h, g.prices);
      assert SameRow(g, h);
    }
  }

  /** Groups with the same key and statistics make the same row but for the timestamp. */
  lemma SameRows(g: Group, h: Group)
    requires SameRow(g, h)
    ensures RowFor(h) == RowFor(g).(timestamp := h.timestamp) && RowFor(g) == RowFor(h).(timestamp := g.timestamp)
  {}
}
