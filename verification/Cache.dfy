/** The Redis adapter: latest entries and price windows. */
module Cache {
  import opened Model
  import opened Sums
  import opened Redis
  import Expiry

  /** A scan for `symbol` lists every matching key there is, in any order and possibly more than once. */
  ghost predicate IsScan(keys: set<Key>, symbol: string, scan: seq<Key>) {
    forall k :: k in scan <==> k in keys && k.symbol == symbol
  }

  /** Sorted sets are listed by their scores, the timestamps' seconds; the order within a second is left open. */
  predicate ByScore(ps: seq<Update>) {
    forall i, j :: 0 <= i < j < |ps| ==> Unix(ps[i].timestamp) <= Unix(ps[j].timestamp)
  }

  /** `lists` holds the visible members of `keys`, key by key. */
  ghost predicate AreLists(w: Windows, ttl: Time, clock: Time, keys: seq<Key>, lists: seq<seq<Update>>) {
    && |lists| == |keys|
    && forall i :: 0 <= i < |keys| ==>
         multiset(lists[i]) == multiset(InWindow(Members(w, keys[i]), clock, ttl)) && ByScore(lists[i])
  }

  /** No entry up to the second of `before` is left. */
  ghost predicate Purged(w: Windows, before: Time) {
    forall k, u :: u in Members(w, k) ==> !Stale(u, before)
  }

  /** `best` is an update of `us` with the latest timestamp; there is none exactly when `us` is empty. */
  predicate IsLatest(us: set<Update>, best: Option<Update>) {
    match best
    case None => us == {}
    case Some(u) => u in us && forall v :: v in us ==> v.timestamp <= u.timestamp
  }

  /** The entries under the given keys that are present and can be read. */
  function Readable(latest: Latest, keys: set<Key>, broken: set<Key>): set<Update> {
    set k | k in keys && k in latest && k !in broken :: latest[k]
  }

  function KeysOf(latest: Latest, symbol: string): set<Key> {
    set k | k in latest && k.symbol == symbol
  }

  /** What the latest readable entry of a symbol is, entry by entry. */
  lemma ReadableIs(latest: Latest, symbol: string, broken: set<Key>, best: Option<Update>)
    requires IsLatest(Readable(latest, KeysOf(latest, symbol), broken), best)
    ensures forall k :: k in latest && k.symbol == symbol && k !in broken ==>
              best.Some? && latest[k].timestamp <= best.value.timestamp
    ensures best.Some? ==> exists k :: k in latest && k.symbol == symbol && k !in broken && best == Some(latest[k])
  {
    forall k | k in latest && k.symbol == symbol && k !in broken
      ensures best.Some? && latest[k].timestamp <= best.value.timestamp
    {
      assert latest[k] in Readable(latest, KeysOf(latest, symbol), broken);
    }
  }

  /** The keys that a deletion failing at `failAt` gets to. */
  function Reached(scan: seq<Key>, failAt: Option<nat>): seq<Key> {
    if failAt.None? || failAt.value >= |scan| then scan else scan[..failAt.value]
  }

  /** The first `n` keys hold nothing up to the second of `before`. */
  lemma PurgedUpTo(w: Windows, scan: seq<Key>, n: nat, before: Time)
    requires n <= |scan|
    ensures forall i, u :: 0 <= i < n && u in Members(PurgeKeys(w, scan[..n], before), scan[i]) ==>
              Unix(u.timestamp) > Unix(before)
  {
    forall i, u | 0 <= i < n && u in Members(PurgeKeys(w, scan[..n], before), scan[i])
      ensures Unix(u.timestamp) > Unix(before)
    {
      assert scan[..n][i] == scan[i];
      PurgeKeysMembers(w, scan[..n], before, scan[i]);
    }
  }

  /** Which entries the lists hold. */
  lemma ListedIs(w: Windows, ttl: Time, clock: Time, keys: seq<Key>, lists: seq<seq<Update>>, u: Update)
    requires AreLists(w, ttl, clock, keys, lists)
    ensures u in Flatten(lists) <==>
              exists k :: k in keys && k in w && u in w[k] && Unix(clock - ttl) <= Unix(u.timestamp) <= Unix(clock)
  {
    FlattenMembers(lists, u);
    forall i | 0 <= i < |keys|
      ensures u in lists[i] <==> u in InWindow(Members(w, keys[i]), clock, ttl)
    {
      assert u in lists[i] <==> u in multiset(lists[i]);
    }
    if i :| 0 <= i < |lists| && u in lists[i] {
      assert keys[i] in keys && keys[i] in w;
    }
  }

  lemma AllListed(w: Windows, ttl: Time, clock: Time, keys: seq<Key>, lists: seq<seq<Update>>)
    requires AreLists(w, ttl, clock, keys, lists)
    ensures forall i, a, b :: 0 <= i < |lists| && 0 <= a < b < |lists[i]| ==>
              Unix(lists[i][a].timestamp) <= Unix(lists[i][b].timestamp)
    ensures forall u :: u in Flatten(lists) <==>
              exists k :: k in keys && k in w && u in w[k] && Unix(clock - ttl) <= Unix(u.timestamp) <= Unix(clock)
  {
    forall u
      ensures u in Flatten(lists) <==>
                exists k :: k in keys && k in w && u in w[k] && Unix(clock - ttl) <= Unix(u.timestamp) <= Unix(clock)
    {
      ListedIs(w, ttl, clock, keys, lists, u);
    }
  }

  method LowestScore(us: set<Update>) returns (u: Update)
    requires us != {}
    ensures u in us && forall v :: v in us ==> Unix(u.timestamp) <= Unix(v.timestamp)
  {
    u :| u in us;
    var rest := us - {u};
    while rest != {}
      invariant rest < us && u in us
      invariant forall v :: v in us && v !in rest ==> Unix(u.timestamp) <= Unix(v.timestamp)
    {
      var v :| v in rest;
      if Unix(v.timestamp) < Unix(u.timestamp) {
        u := v;
      }
      rest := rest - {v};
    }
  }

  /** The members of a sorted set, by score. */
  method Enumerate(us: set<Update>) returns (out: seq<Update>)
    ensures multiset(out) == multiset(us) && ByScore(out)
  {
    out := [];
    var rest := us;
    while rest != {}
      invariant rest <= us
      invariant multiset(out) == multiset(us - rest) && ByScore(out)
      invariant forall i, v :: 0 <= i < |out| && v in rest ==> Unix(out[i].timestamp) <= Unix(v.timestamp)
    {
      var u := LowestScore(rest);
      assert us - (rest - {u}) == (us - rest) + {u};
      out := out + [u];
      rest := rest - {u};
    }
    assert us - rest == us;
  }

  /** Whether a command fails is up to the server; each method takes it as a parameter. */
  class RedisAdapter {
    const ttl: Time
    var latest: Latest
    var windows: Windows

    /** From when on the server may drop a latest entry, and a window. */
    var expiries: map<Key, Time>
    var deadlines: map<Key, Time>

    ghost predicate Valid()
      reads this
    {
      && WellKeyed(windows) && deadlines.Keys <= windows.Keys
      && forall k :: k in latest ==> KeyOf(latest[k]) == k
    }

    function Contents(): Expiry.Server
      reads this
    {
      Expiry.Server(windows, deadlines)
    }

    constructor (ttl: Time)
      ensures Valid() && this.ttl == ttl && latest == map[] && windows == map[]
    {
      this.ttl := ttl;
      latest, windows, expiries, deadlines := map[], map[], map[], map[];
    }

    /** The entry is replaced whatever its timestamp. */
    method SetLatestPrice(u: Update, at: Time, fails: bool) returns (ok: bool)
      requires Valid()
      modifies this
      ensures Valid() && Contents() == old(Contents()) && ok == !fails
      ensures latest == if ok then SetLatest(old(latest), u) else old(latest)
      ensures expiries == if ok then old(expiries)[KeyOf(u) := at + ttl] else old(expiries)
    {
      if fails {
        return false;
      }
      var key := Key(u.exchange, u.symbol);
      latest, expiries := latest[key := u], expiries[key := at + ttl];
      return true;
    }

    /** The failure of the second command, which sets the deadline, is ignored. */
    method AddPriceToWindow(u: Update, at: Time, fails: bool, expireFails: bool) returns (ok: bool)
      requires Valid()
      modifies this
      ensures Valid() && latest == old(latest) && expiries == old(expiries) && ok == !fails
      ensures windows == if ok then AddToWindow(old(windows), u) else old(windows)
      ensures var added := Expiry.After(ttl, old(Contents()), Expiry.ZAdd(at, u));
              Contents() == if fails then old(Contents())
                            else if expireFails then added
                            else Expiry.After(ttl, added, Expiry.Expire(at, KeyOf(u)))
    {
      if fails {
        return false;
      }
      var key := Key(u.exchange, u.symbol);
      AddKeepsKeys(windows, u);
      windows := windows[key := (if key in windows then windows[key] else {}) + {u}];
      if !expireFails {
        deadlines := deadlines[key := at + 2 * ttl];
      }
      return true;
    }

    /** A missing entry is no error. */
    method GetLatestPrice(symbol: string, exchange: string, fails: bool) returns (ok: bool, price: Option<Update>)
      requires Valid()
      ensures ok == !fails
      ensures price == if ok then Entry(latest, Key(exchange, symbol)) else None
      ensures price.Some? ==> price.value.symbol == symbol && price.value.exchange == exchange
    {
      var key := Key(exchange, symbol);
      if fails {
        return false, None;
      }
      if key !in latest {
        return true, None;
      }
      return true, Some(latest[key]);
    }

    /**
     The cursor scan over the pages of keys that the server returns. `broken` are the keys whose entry
     cannot be fetched or parsed during this call; `failAt` is the page whose fetch fails, if any.
     */
    method GetLatestPriceAny(symbol: string, pages: seq<seq<Key>>, broken: set<Key>, failAt: Option<nat>)
      returns (ok: bool, price: Option<Update>)
      requires Valid()
      requires IsScan(latest.Keys, symbol, Flatten(pages))
      ensures ok <==> failAt.None? || failAt.value >= |pages|
      ensures ok ==> IsLatest(Readable(latest, KeysOf(latest, symbol), broken), price)
      ensures ok ==> forall k :: k in latest && k.symbol == symbol && k !in broken ==>
                       price.Some? && latest[k].timestamp <= price.value.timestamp
      ensures price.Some? ==> exists k :: k in latest && k.symbol == symbol && k !in broken && price == Some(latest[k])
      ensures !ok ==> price == None
      ensures price.Some? ==> price.value.symbol == symbol
    {
      var best: Option<Update> := None;
      var latestTime: Time := 0;
      ghost var seen: set<Key> := {};
      var cursor := 0;
      while cursor < |pages|
        invariant 0 <= cursor <= |pages|
        invariant failAt.Some? ==> cursor <= failAt.value
        invariant forall k :: k in seen <==> exists c :: 0 <= c < cursor && k in pages[c]
        invariant IsLatest(Readable(latest, seen, broken), best)
        invariant best.Some? ==> latestTime == best.value.timestamp
      {
        if failAt == Some(cursor) {
          return false, None;
        }
        ghost var before := seen;
        var keys := pages[cursor];
        var i := 0;
        while i < |keys|
          invariant 0 <= i <= |keys|
          invariant forall k :: k in seen <==> k in before || k in keys[..i]
          invariant IsLatest(Readable(latest, seen, broken), best)
          invariant best.Some? ==> latestTime == best.value.timestamp
        {
          var key := keys[i];
          seen := seen + {key};
          assert keys[..i + 1] == keys[..i] + [key];
          if key in latest && key !in broken {
            assert Readable(latest, seen, broken) == Readable(latest, seen - {key}, broken) + {latest[key]};
            var price := latest[key];
            if best.None? || price.timestamp > latestTime {
              latestTime := price.timestamp;
              best := Some(price);
            }
          }
          i := i + 1;
        }
        assert keys[..i] == keys;
        cursor := cursor + 1;
      }
      forall k
        ensures k in seen <==> k in latest && k.symbol == symbol
      {
        FlattenMembers(pages, k);
      }
      assert seen == KeysOf(latest, symbol);
      ReadableIs(latest, symbol, broken, best);
      return true, best;
    }

    /** The window keys the server lists for a symbol. */
    method ScanWindows(symbol: string) returns (scan: seq<Key>)
      ensures IsScan(windows.Keys, symbol, scan)
    {
      scan := [];
      var rest := set k | k in windows && k.symbol == symbol;
      while rest != {}
        invariant forall k :: k in scan || k in rest <==> k in windows && k.symbol == symbol
      {
        var k :| k in rest;
        scan := scan + [k];
        rest := rest - {k};
      }
    }

    /** All window keys. */
    method ScanAll() returns (scan: seq<Key>)
      ensures forall k :: k in scan <==> k in windows
    {
      scan := [];
      var rest := windows.Keys;
      while rest != {}
        invariant forall k :: k in scan || k in rest <==> k in windows
      {
        var k :| k in rest;
        scan := scan + [k];
        rest := rest - {k};
      }
    }

    /** With no exchange given, `scan` is what the server's scan for the symbol returns. */
    method GetPricesInWindow(symbol: string, exchange: string, now: Time, scan: seq<Key>, fails: bool)
      returns (ok: bool, out: seq<Update>, ghost lists: seq<seq<Update>>)
      requires exchange == "" ==> IsScan(windows.Keys, symbol, scan)
      ensures ok == !fails
      ensures ok ==> out == Flatten(lists) &&
                     AreLists(windows, ttl, now, if exchange != "" then [Key(exchange, symbol)] else scan, lists)
      ensures ok ==> forall i, a, b :: 0 <= i < |lists| && 0 <= a < b < |lists[i]| ==>
                       Unix(lists[i][a].timestamp) <= Unix(lists[i][b].timestamp)
      ensures ok ==> forall u :: u in out <==>
                       exists k :: k in (if exchange != "" then [Key(exchange, symbol)] else scan) && k in windows
                                   && u in windows[k] && Unix(now - ttl) <= Unix(u.timestamp) <= Unix(now)
      ensures !ok ==> out == []
    {
      var keys := if exchange != "" then [Key(exchange, symbol)] else scan;
      ok, out, lists := !fails, [], [];
      if fails {
        return;
      }
      var i := 0;
      while i < |keys|
        invariant 0 <= i <= |keys|
        invariant AreLists(windows, ttl, now, keys[..i], lists)
        invariant out == Flatten(lists)
      {
        var key := keys[i];
        var results := Enumerate(InWindow(if key in windows then windows[key] else {}, now, ttl));
        FlattenSnoc(lists, results);
        out := out + results;
        lists := lists + [results];
        i := i + 1;
      }
      assert keys[..i] == keys;
      AllListed(windows, ttl, now, keys, lists);
    }

    /** Deletes key by key in scan order; an error at key `failAt` leaves it and those after it as they are. */
    method DeleteOldPrices(before: Time, scan: seq<Key>, failAt: Option<nat>) returns (ok: bool)
      requires Valid() && forall k :: k in scan <==> k in windows
      modifies this
      ensures Valid() && latest == old(latest) && expiries == old(expiries)
      ensures ok <==> Reached(scan, failAt) == scan
      ensures windows == PurgeKeys(old(windows), Reached(scan, failAt), before)
      ensures forall i, u :: 0 <= i < |scan| && (failAt.Some? ==> i < failAt.value) && u in Members(windows, scan[i])
                ==> Unix(u.timestamp) > Unix(before)
      ensures deadlines == map k | k in old(deadlines) && k in windows :: old(deadlines)[k]
      ensures ok ==> Purged(windows, before)
    {
      var i := 0;
      while i < |scan|
        invariant 0 <= i <= |scan|
        invariant latest == old(latest) && expiries == old(expiries) && (failAt.Some? ==> i <= failAt.value)
        invariant WellKeyed(windows) && windows == PurgeKeys(old(windows), scan[..i], before)
        invariant windows.Keys <= old(windows.Keys)
        invariant deadlines == map k | k in old(deadlines) && k in windows :: old(deadlines)[k]
      {
        if failAt == Some(i) {
          PurgedUpTo(old(windows), scan, i, before);
          return false;
        }
        var key := scan[i];
        var kept := set u | u in Members(windows, key) && !Stale(u, before);
        PurgeKeepsKeys(windows, key, before);
        if kept == {} {
          windows, deadlines := windows - {key}, deadlines - {key};
        } else {
          windows := windows[key := kept];
        }
        assert scan[..i + 1][..i] == scan[..i];
        i := i + 1;
      }
      assert scan[..i] == scan;
      PurgedUpTo(old(windows), scan, |scan|, before);
      forall k, u | u in Members(windows, k) ensures !Stale(u, before) {
        PurgeKeysMembers(old(windows), scan, before, k);
      }
      return true;
    }
  }
}
