/** What the reads of an aggregation cycle return, and the groups made of them. */
module Readings {
  import opened Model
  import opened Sums
  import opened Redis
  import opened Storage
  import Cache

  // ---------- Grouping a read by exchange ----------

  /** The prices of one exchange, in the order read. */
  function OfExchange(ps: seq<Update>, exchange: string): seq<Update> {
    if ps == [] then []
    else
      var n := |ps| - 1;
      OfExchange(ps[..n], exchange) + (if ps[n].exchange == exchange then [ps[n]] else [])
  }

  lemma {:induction false} OfExchangeMember(ps: seq<Update>, exchange: string, u: Update)
    ensures u in OfExchange(ps, exchange) <==> u in ps && u.exchange == exchange
  {
    if ps != [] {
      var n := |ps| - 1;
      assert ps == ps[..n] + [ps[n]];
      OfExchangeMember(ps[..n], exchange, u);
    }
  }

  /** One group for each exchange that occurs, with all its prices. */
  ghost predicate IsGrouping(pair: string, ps: seq<Update>, gs: seq<Group>) {
    && (forall i :: 0 <= i < |gs| ==> gs[i].pair == pair && gs[i].prices == OfExchange(ps, gs[i].exchange))
    && (forall i, j :: 0 <= i < j < |gs| ==> gs[i].exchange != gs[j].exchange)
    && (forall u :: u in ps ==> exists i :: 0 <= i < |gs| && gs[i].exchange == u.exchange)
  }

  /** The groups of the exchanges in `done`. */
  ghost predicate IsPartialGrouping(pair: string, ps: seq<Update>, done: set<string>, gs: seq<Group>) {
    && (forall i :: 0 <= i < |gs| ==> gs[i].pair == pair && gs[i].prices == OfExchange(ps, gs[i].exchange))
    && (forall i, j :: 0 <= i < j < |gs| ==> gs[i].exchange != gs[j].exchange)
    && (forall e :: e in done <==> exists i :: 0 <= i < |gs| && gs[i].exchange == e)
  }

  lemma GroupingGrows(pair: string, ps: seq<Update>, done: set<string>, gs: seq<Group>, g: Group)
    requires IsPartialGrouping(pair, ps, done, gs) && g.exchange !in done
    requires g.pair == pair && g.prices == OfExchange(ps, g.exchange)
    ensures IsPartialGrouping(pair, ps, done + {g.exchange}, gs + [g])
  {
    var hs := gs + [g];
    forall e
      ensures e in done + {g.exchange} <==> exists i :: 0 <= i < |hs| && hs[i].exchange == e
    {
      if e == g.exchange {
        assert hs[|gs|].exchange == e;
      } else if e in done {
        var i :| 0 <= i < |gs| && gs[i].exchange == e;
        assert hs[i].exchange == e;
      }
    }
  }

  lemma GroupingDone(pair: string, ps: seq<Update>, done: set<string>, gs: seq<Group>)
    requires IsPartialGrouping(pair, ps, done, gs)
    requires forall e :: OfExchange(ps, e) != [] ==> e in done
    ensures IsGrouping(pair, ps, gs)
  {
    forall u | u in ps
      ensures exists i :: 0 <= i < |gs| && gs[i].exchange == u.exchange
    {
      OfExchangeMember(ps, u.exchange, u);
      assert u in OfExchange(ps, u.exchange);
    }
  }

  /** One read of the cycle and its clock; an empty exchange stands for all of them. */
  datatype Reading = Reading(pair: string, exchange: string, clock: Time, ok: bool, prices: seq<Update>)

  /** The groups a read contributes to the batch. A failed or empty read contributes none. */
  ghost predicate Contributes(explicit: bool, r: Reading, gs: seq<Group>) {
    if !r.ok || r.prices == [] then gs == []
    else if explicit then |gs| == 1 && gs[0].pair == r.pair && gs[0].exchange == r.exchange && gs[0].prices == r.prices
    else IsGrouping(r.pair, r.prices, gs)
  }

  /** The read returned the visible members of its window or windows. */
  ghost predicate ReadFrom(w: Windows, ttl: Time, r: Reading) {
    r.ok ==> exists keys, lists ::
      && r.prices == Flatten(lists)
      && Cache.AreLists(w, ttl, r.clock, keys, lists)
      && (if r.exchange != "" then keys == [Key(r.exchange, r.pair)] else Cache.IsScan(w.Keys, r.pair, keys))
  }

  /** The clocks of the reads, in order and between the two times. */
  predicate Clocked(from: Time, to: Time, log: seq<Reading>) {
    && from <= to
    && (forall i :: 0 <= i < |log| ==> from <= log[i].clock <= to)
    && (forall i, j :: 0 <= i < j < |log| ==> log[i].clock <= log[j].clock)
  }

  /** Each group is stamped after its read and not after `to`. */
  ghost predicate Stamped(log: seq<Reading>, parts: seq<seq<Group>>, to: Time)
    requires |log| == |parts|
  {
    forall i :: 0 <= i < |log| ==> StampedBy(log[i].clock, parts[i], to)
  }

  ghost predicate StampedBy(from: Time, part: seq<Group>, to: Time) {
    forall g :: g in part ==> from <= g.timestamp <= to
  }

  /** The read is the one planned, and `part` is its contribution. */
  ghost predicate AsPlanned(explicit: bool, w: Windows, ttl: Time, entry: (string, string), r: Reading,
                            part: seq<Group>) {
    (r.pair, r.exchange) == entry && ReadFrom(w, ttl, r) && Contributes(explicit, r, part)
  }

  /** The reads made so far follow the plan, and `parts` are their contributions. */
  ghost predicate Follows(explicit: bool, w: Windows, ttl: Time, plan: seq<(string, string)>,
                          log: seq<Reading>, parts: seq<seq<Group>>) {
    && |log| == |parts| == |plan|
    && forall i :: 0 <= i < |log| ==> AsPlanned(explicit, w, ttl, plan[i], log[i], parts[i])
  }

  lemma FollowsStep(explicit: bool, w: Windows, ttl: Time, plan: seq<(string, string)>,
                    log: seq<Reading>, parts: seq<seq<Group>>, entry: (string, string), r: Reading, part: seq<Group>)
    requires Follows(explicit, w, ttl, plan, log, parts) && AsPlanned(explicit, w, ttl, entry, r, part)
    ensures Follows(explicit, w, ttl, plan + [entry], log + [r], parts + [part])
  {}

  lemma AppendRow(gs: seq<Group>, g: Group)
    ensures RowsFor(gs + [g]) == RowsFor(gs) + [RowFor(g)]
  {}

  /** What stands behind the groups' rows. */
  function Behind(gs: seq<Group>): set<Update> {
    set g, u | g in gs && u in g.prices :: u
  }

  function Elements(ps: seq<Update>): set<Update> {
    set u | u in ps
  }

  /** What a read adds to the batch. */
  function Yield(r: Reading): set<Update> {
    if r.ok then Elements(r.prices) else {}
  }

  /** What the successful reads returned. */
  function AllRead(log: seq<Reading>): set<Update> {
    if log == [] then {} else Yield(log[0]) + AllRead(log[1..])
  }

  lemma BehindPart(explicit: bool, r: Reading, part: seq<Group>)
    requires Contributes(explicit, r, part)
    ensures Behind(part) == Yield(r)
  {
    if r.ok && r.prices != [] {
      forall u ensures u in Behind(part) <==> u in r.prices {
        if explicit {
          assert u in part[0].prices <==> u in r.prices;
          assert part == [part[0]];
        } else {
          BehindGrouping(r.pair, r.prices, part, u);
        }
      }
    }
  }

  lemma BehindGrouping(pair: string, ps: seq<Update>, gs: seq<Group>, u: Update)
    requires IsGrouping(pair, ps, gs)
    ensures u in Behind(gs) <==> u in ps
  {
    if u in Behind(gs) {
      var i :| 0 <= i < |gs| && u in gs[i].prices;
      OfExchangeMember(ps, gs[i].exchange, u);
    }
    if u in ps {
      var i :| 0 <= i < |gs| && gs[i].exchange == u.exchange;
      OfExchangeMember(ps, u.exchange, u);
      assert gs[i] in gs && u in gs[i].prices;
    }
  }

  /** The groups of a cycle sum up exactly what its successful reads returned. */
  lemma {:induction false} NothingReadIsDropped(explicit: bool, w: Windows, ttl: Time, plan: seq<(string, string)>,
                                                log: seq<Reading>, parts: seq<seq<Group>>)
    requires Follows(explicit, w, ttl, plan, log, parts)
    ensures Behind(Flatten(parts)) == AllRead(log)
    ensures Flatten(parts) == [] <==> AllRead(log) == {}
  {
    if log != [] {
      NothingReadIsDropped(explicit, w, ttl, plan[1..], log[1..], parts[1..]);
      BehindPart(explicit, log[0], parts[0]);
      BehindBoth(parts[0], Flatten(parts[1..]));
    }
    BehindNothing(Flatten(parts));
  }

  lemma BehindBoth(gs: seq<Group>, hs: seq<Group>)
    ensures Behind(gs + hs) == Behind(gs) + Behind(hs)
  {}

  lemma BehindNothing(gs: seq<Group>)
    ensures gs == [] <==> Behind(gs) == {}
  {
    if gs != [] {
      assert gs[0] in gs && gs[0].prices[0] in gs[0].prices;
      assert gs[0].prices[0] in Behind(gs);
    }
  }
}
