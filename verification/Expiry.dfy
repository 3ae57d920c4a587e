/** Window keys carry a time to live of twice the cache's ttl; when readers notice that they expire. */
module Expiry {
  import opened Model
  import opened Redis

  /** The windows and, for the keys that have one, the time from which Redis may drop the key. */
  datatype Server = Server(windows: Windows, deadlines: map<Key, Time>)

  /**
   What reaches the server. `ZAdd` and `Expire` are the two commands of AddPriceToWindow, which other events may
   separate; an `Expire` that fails does not occur. `Drop` is the server letting a key expire.
   */
  datatype Event =
    | ZAdd(at: Time, u: Update)
    | Expire(at: Time, k: Key)
    | Purge(at: Time, k: Key, before: Time)
    | Drop(at: Time, k: Key)

  /** An `Expire` of a missing key does nothing, and is no error. */
  function After(ttl: Time, s: Server, e: Event): Server {
    match e
    case ZAdd(at, u) => s.(windows := AddToWindow(s.windows, u))
    case Expire(at, k) => if k in s.windows then s.(deadlines := s.deadlines[k := at + 2 * ttl]) else s
    case Purge(at, k, before) =>
      var w := PurgeKey(s.windows, k, before);
      Server(w, if k in w then s.deadlines else s.deadlines - {k})
    case Drop(at, k) => Server(s.windows - {k}, s.deadlines - {k})
  }

  /** The server after the events, from an empty one. */
  function Run(ttl: Time, events: seq<Event>): Server {
    if events == [] then Server(map[], map[])
    else After(ttl, Run(ttl, events[..|events| - 1]), events[|events| - 1])
  }

  function Now(start: Time, events: seq<Event>): Time {
    if events == [] then start else events[|events| - 1].at
  }

  /** Time does not run backwards, timestamps are not in the future, and keys are dropped at their deadline or later. */
  predicate Plausible(ttl: Time, start: Time, events: seq<Event>) {
    events == [] ||
    var before, e := events[..|events| - 1], events[|events| - 1];
    && Plausible(ttl, start, before)
    && Now(start, before) <= e.at
    && (e.ZAdd? ==> e.u.timestamp <= e.at)
    && (e.Drop? ==> var s := Run(ttl, before); e.k in s.deadlines && s.deadlines[e.k] <= e.at)
  }

  /** The same events on a server that never drops a key. */
  function WithoutDrops(events: seq<Event>): seq<Event> {
    if events == [] then []
    else
      var before, e := events[..|events| - 1], events[|events| - 1];
      if e.Drop? then WithoutDrops(before) else WithoutDrops(before) + [e]
  }

  /** What a read of the window at the given clock returns. */
  function Shows(ttl: Time, s: Server, k: Key, clock: Time): set<Update> {
    InWindow(Members(s.windows, k), clock, ttl)
  }

  /** No read from now on can tell the server from one that never dropped a key. */
  ghost predicate SameReads(ttl: Time, start: Time, events: seq<Event>) {
    forall k, clock :: clock >= Now(start, events) ==>
      Shows(ttl, Run(ttl, events), k, clock) == Shows(ttl, Run(ttl, WithoutDrops(events)), k, clock)
  }

  /** At no point of the run can a read tell. */
  ghost predicate Unnoticed(ttl: Time, start: Time, events: seq<Event>) {
    SameReads(ttl, start, events) && (events != [] ==> Unnoticed(ttl, start, events[..|events| - 1]))
  }

  /** Too old, in whole seconds, for every read from `now` on. */
  predicate Dead(ttl: Time, now: Time, u: Update) {
    Unix(u.timestamp) < Unix(now - ttl)
  }

  /** Every key is dropped only when all its members are dead. */
  ghost predicate Harmless(ttl: Time, events: seq<Event>) {
    events == [] ||
    var before, e := events[..|events| - 1], events[|events| - 1];
    && Harmless(ttl, before)
    && (e.Drop? ==> forall u :: u in Members(Run(ttl, before).windows, e.k) ==> Dead(ttl, e.at, u))
  }

  // ---------- Which runs readers cannot tell from runs without expiry ----------

  /** The dropping server lacks the entry only if it is dead. */
  predicate AlikeAt(ttl: Time, now: Time, a: Server, b: Server, k: Key, u: Update) {
    && (u in Members(a.windows, k) ==> u in Members(b.windows, k) && KeyOf(u) == k && u.timestamp <= now)
    && (u in Members(b.windows, k) && u !in Members(a.windows, k) ==> Dead(ttl, now, u))
  }

  ghost predicate Alike(ttl: Time, now: Time, a: Server, b: Server) {
    forall k, u :: AlikeAt(ttl, now, a, b, k, u)
  }

  lemma DeadLater(ttl: Time, now: Time, clock: Time, u: Update)
    requires Dead(ttl, now, u) && now <= clock
    ensures Dead(ttl, clock, u) && !Visible(u, clock, ttl)
  {
    UnixOrder(now - ttl, clock - ttl);
  }

  lemma AlikeStep(ttl: Time, now: Time, a: Server, b: Server, e: Event)
    requires Alike(ttl, now, a, b) && now <= e.at
    requires e.ZAdd? ==> e.u.timestamp <= e.at
    requires e.Drop? ==> forall u :: u in Members(a.windows, e.k) ==> Dead(ttl, e.at, u)
    ensures Alike(ttl, e.at, After(ttl, a, e), if e.Drop? then b else After(ttl, b, e))
  {
    var a', b' := After(ttl, a, e), if e.Drop? then b else After(ttl, b, e);
    forall k, u
      ensures AlikeAt(ttl, e.at, a', b', k, u)
    {
      assert AlikeAt(ttl, now, a, b, k, u);
      if Dead(ttl, now, u) {
        DeadLater(ttl, now, e.at, u);
      }
      if e.Purge? {
        PurgeKeyMembers(a.windows, e.k, e.before, k);
        PurgeKeyMembers(b.windows, e.k, e.before, k);
      }
    }
  }

  lemma {:induction false} HarmlessAlike(ttl: Time, start: Time, events: seq<Event>)
    requires Plausible(ttl, start, events) && Harmless(ttl, events)
    ensures Alike(ttl, Now(start, events), Run(ttl, events), Run(ttl, WithoutDrops(events)))
  {
    if events != [] {
      var before, e := events[..|events| - 1], events[|events| - 1];
      HarmlessAlike(ttl, start, before);
      AlikeStep(ttl, Now(start, before), Run(ttl, before), Run(ttl, WithoutDrops(before)), e);
      assert (WithoutDrops(before) + [e])[..|WithoutDrops(before)|] == WithoutDrops(before);
    }
  }

  lemma AlikeReads(ttl: Time, start: Time, events: seq<Event>)
    requires Alike(ttl, Now(start, events), Run(ttl, events), Run(ttl, WithoutDrops(events)))
    ensures SameReads(ttl, start, events)
  {
    var now, a, b := Now(start, events), Run(ttl, events), Run(ttl, WithoutDrops(events));
    forall k, clock | clock >= now
      ensures Shows(ttl, a, k, clock) == Shows(ttl, b, k, clock)
    {
      forall u: Update
        ensures u in Shows(ttl, a, k, clock) <==> u in Shows(ttl, b, k, clock)
      {
        assert AlikeAt(ttl, now, a, b, k, u);
        if Dead(ttl, now, u) {
          DeadLater(ttl, now, clock, u);
        }
      }
    }
  }

  /** A member that is not dead when its key is dropped is missed by a read at that moment. */
  lemma HarmIsNoticed(ttl: Time, start: Time, before: seq<Event>, e: Event, u: Update)
    requires Plausible(ttl, start, before + [e]) && Harmless(ttl, before) && e.Drop? && ttl >= 0
    requires u in Members(Run(ttl, before).windows, e.k) && !Dead(ttl, e.at, u)
    ensures !SameReads(ttl, start, before + [e])
  {
    var events := before + [e];
    assert events[..|before|] == before;
    HarmlessAlike(ttl, start, before);
    var a, b := Run(ttl, before), Run(ttl, WithoutDrops(before));
    assert AlikeAt(ttl, Now(start, before), a, b, e.k, u);
    UnixOrder(u.timestamp, e.at);
    assert u in Shows(ttl, Run(ttl, WithoutDrops(events)), e.k, e.at);
    assert u !in Shows(ttl, Run(ttl, events), e.k, e.at);
  }

  /**
   The exact condition: readers cannot tell, at any point of a run, that keys expire, if and only if every drop finds
   only members older than ttl in whole seconds. Second truncation and re-created keys are included.
   */
  lemma {:induction false} InvisibleExactly(ttl: Time, start: Time, events: seq<Event>)
    requires ttl >= 0 && Plausible(ttl, start, events)
    ensures Unnoticed(ttl, start, events) <==> Harmless(ttl, events)
  {
    if events != [] {
      var before, e := events[..|events| - 1], events[|events| - 1];
      InvisibleExactly(ttl, start, before);
      assert events == before + [e];
      if Harmless(ttl, before) && !Harmless(ttl, events) {
        var u :| u in Members(Run(ttl, before).windows, e.k) && !Dead(ttl, e.at, u);
        HarmIsNoticed(ttl, start, before, e, u);
      }
    }
    if Harmless(ttl, events) {
      HarmlessAlike(ttl, start, events);
      AlikeReads(ttl, start, events);
    }
  }

  // ---------- When the deadlines are refreshed ----------

  /** The keys with an addition whose deadline has not been set yet. */
  function Waiting(events: seq<Event>): set<Key> {
    if events == [] then {}
    else
      var before, e := Waiting(events[..|events| - 1]), events[|events| - 1];
      match e
      case ZAdd(at, u) => before + {KeyOf(u)}
      case Expire(at, k) => before - {k}
      case _ => before
  }

  /** No key is dropped between an addition to it and the next `Expire` of it. */
  predicate Refreshed(events: seq<Event>) {
    events == [] ||
    var before, e := events[..|events| - 1], events[|events| - 1];
    Refreshed(before) && (e.Drop? ==> e.k !in Waiting(before))
  }

  /** An addition waits for the next `Expire` of its key, and for nothing else. */
  lemma WaitsForExpire(events: seq<Event>, at: Time, u: Update)
    ensures Waiting(events + [ZAdd(at, u)]) == Waiting(events) + {KeyOf(u)}
    ensures Waiting(events + [ZAdd(at, u)] + [Expire(at, KeyOf(u))]) == Waiting(events) - {KeyOf(u)}
    ensures Refreshed(events) ==> Refreshed(events + [ZAdd(at, u)] + [Expire(at, KeyOf(u))] + [Drop(at, KeyOf(u))])
  {
    var added := events + [ZAdd(at, u)];
    var renewed := added + [Expire(at, KeyOf(u))];
    assert added[..|events|] == events && renewed[..|added|] == added;
    assert (renewed + [Drop(at, KeyOf(u))])[..|renewed|] == renewed;
  }

  predicate InTime(ttl: Time, s: Server, k: Key, u: Update) {
    k in s.deadlines && u.timestamp + 2 * ttl <= s.deadlines[k]
  }

  /** A key that is not waiting has a deadline twice ttl after every member. */
  ghost predicate DeadlinesInv(ttl: Time, now: Time, s: Server, waiting: set<Key>) {
    forall k, u :: u in Members(s.windows, k) ==> u.timestamp <= now && (k !in waiting ==> InTime(ttl, s, k, u))
  }

  lemma {:induction false} DeadlinesRun(ttl: Time, start: Time, events: seq<Event>)
    requires Plausible(ttl, start, events)
    ensures DeadlinesInv(ttl, Now(start, events), Run(ttl, events), Waiting(events))
  {
    if events != [] {
      var before, e := events[..|events| - 1], events[|events| - 1];
      DeadlinesRun(ttl, start, before);
      var s, t := Run(ttl, before), Run(ttl, events);
      forall k, u | u in Members(t.windows, k)
        ensures u.timestamp <= e.at && (k !in Waiting(events) ==> InTime(ttl, t, k, u))
      {
        if e.Purge? {
          PurgeKeyMembers(s.windows, e.k, e.before, k);
        }
        assert u in Members(s.windows, k) || e == ZAdd(e.at, u);
      }
    }
  }

  lemma {:induction false} RefreshedIsHarmless(ttl: Time, start: Time, events: seq<Event>)
    requires ttl >= SECOND && Plausible(ttl, start, events) && Refreshed(events)
    ensures Harmless(ttl, events)
  {
    if events != [] {
      var before, e := events[..|events| - 1], events[|events| - 1];
      RefreshedIsHarmless(ttl, start, before);
      DeadlinesRun(ttl, start, before);
      if e.Drop? {
        var s := Run(ttl, before);
        forall u | u in Members(s.windows, e.k) ensures Dead(ttl, e.at, u) {
          assert InTime(ttl, s, e.k, u);
          UnixOrder(e.at - ttl, u.timestamp);
        }
      }
    }
  }

  /** If no key is dropped between an addition and its deadline, expiry is invisible at every point of the run. */
  lemma ExpiryIsInvisible(ttl: Time, start: Time, events: seq<Event>)
    requires ttl >= SECOND && Plausible(ttl, start, events) && Refreshed(events)
    ensures Unnoticed(ttl, start, events)
  {
    RefreshedIsHarmless(ttl, start, events);
    InvisibleExactly(ttl, start, events);
  }

  // ---------- When they are not ----------

  /** The key may be dropped so that a read misses an update it would have returned. */
  ghost predicate CanBeMissed(ttl: Time, start: Time, events: seq<Event>, u: Update) {
    exists at, clock ::
      && Plausible(ttl, start, events + [Drop(at, KeyOf(u))]) && at <= clock
      && u in Shows(ttl, Run(ttl, events), KeyOf(u), clock)
      && u !in Shows(ttl, Run(ttl, events + [Drop(at, KeyOf(u))]), KeyOf(u), clock)
  }

  function Later(a: Time, b: Time): Time {
    if a < b then b else a
  }

  /**
   At any point of a run, in particular after an addition whose `Expire` failed or is still to come, an update
   can be missed if and only if its key has a deadline that, or after which, a read would still return it.
   */
  lemma MissedExactly(ttl: Time, start: Time, events: seq<Event>, u: Update)
    requires ttl >= 0 && Plausible(ttl, start, events) && u in Members(Run(ttl, events).windows, KeyOf(u))
    ensures var deadlines, now := Run(ttl, events).deadlines, Now(start, events);
            CanBeMissed(ttl, start, events, u) <==>
              KeyOf(u) in deadlines && Unix(u.timestamp) >= Unix(Later(now, deadlines[KeyOf(u)]) - ttl)
  {
    var k, s, now := KeyOf(u), Run(ttl, events), Now(start, events);
    if CanBeMissed(ttl, start, events, u) {
      var at, clock :|
        && Plausible(ttl, start, events + [Drop(at, k)]) && at <= clock
        && u in Shows(ttl, s, k, clock)
        && u !in Shows(ttl, Run(ttl, events + [Drop(at, k)]), k, clock);
      assert (events + [Drop(at, k)])[..|events|] == events;
      UnixOrder(Later(now, s.deadlines[k]) - ttl, clock - ttl);
    }
    if k in s.deadlines && Unix(u.timestamp) >= Unix(Later(now, s.deadlines[k]) - ttl) {
      var at := Later(now, s.deadlines[k]);
      assert (events + [Drop(at, k)])[..|events|] == events;
      DeadlinesRun(ttl, start, events);
      UnixOrder(u.timestamp, at);
      assert u in Shows(ttl, s, k, at);
      assert u !in Shows(ttl, Run(ttl, events + [Drop(at, k)]), k, at);
    }
  }

  lemma RunStep(ttl: Time, start: Time, events: seq<Event>, e: Event)
    ensures Run(ttl, events + [e]) == After(ttl, Run(ttl, events), e)
    ensures WithoutDrops(events + [e]) == if e.Drop? then WithoutDrops(events) else WithoutDrops(events) + [e]
    ensures Now(start, events + [e]) == e.at
    ensures Plausible(ttl, start, events + [e]) <==>
              && Plausible(ttl, start, events)
              && Now(start, events) <= e.at
              && (e.ZAdd? ==> e.u.timestamp <= e.at)
              && (e.Drop? ==> var s := Run(ttl, events); e.k in s.deadlines && s.deadlines[e.k] <= e.at)
  {
    assert (events + [e])[..|events|] == events;
  }

  /** Two additions to one key, each followed by its `Expire`, with the key's deadline just before the second one. */
  function LateExpire(start: Time, end: Time, first: Update, latest: Update): seq<Event> {
    [] + [ZAdd(start, first)] + [Expire(start, KeyOf(latest))] + [ZAdd(end, latest)] + [Drop(end, KeyOf(latest))]
    + [Expire(end, KeyOf(latest))]
  }

  lemma BeforeTheDrop(ttl: Time, start: Time, first: Update, latest: Update)
    requires ttl >= 0 && KeyOf(first) == KeyOf(latest) && first.timestamp <= start
    requires latest.timestamp <= start + 2 * ttl
    ensures var k, end := KeyOf(latest), start + 2 * ttl;
            var events := [] + [ZAdd(start, first)] + [Expire(start, k)] + [ZAdd(end, latest)];
            && Plausible(ttl, start, events) && Now(start, events) == end && WithoutDrops(events) == events
            && k in Run(ttl, events).deadlines && Run(ttl, events).deadlines[k] == end
            && latest in Members(Run(ttl, events).windows, k)
  {
    var k, end := KeyOf(latest), start + 2 * ttl;
    RunStep(ttl, start, [], ZAdd(start, first));
    RunStep(ttl, start, [] + [ZAdd(start, first)], Expire(start, k));
    RunStep(ttl, start, [] + [ZAdd(start, first)] + [Expire(start, k)], ZAdd(end, latest));
  }

  /**
   No command need fail: both additions are followed by their `Expire`, but the second one comes when the key has
   just expired under its old deadline, finds no key, and the new update is gone.
   */
  lemma LateDeadlineIsNoticed(ttl: Time, start: Time, first: Update, latest: Update)
    requires ttl >= SECOND && KeyOf(first) == KeyOf(latest)
    requires first.timestamp <= start && start + ttl <= latest.timestamp <= start + 2 * ttl
    ensures var k, end := KeyOf(latest), start + 2 * ttl; var events := LateExpire(start, end, first, latest);
            && Plausible(ttl, start, events)
            && latest in Shows(ttl, Run(ttl, WithoutDrops(events)), k, end)
            && latest !in Shows(ttl, Run(ttl, events), k, end)
  {
    var k, end := KeyOf(latest), start + 2 * ttl;
    var events := [] + [ZAdd(start, first)] + [Expire(start, k)] + [ZAdd(end, latest)];
    BeforeTheDrop(ttl, start, first, latest);
    RunStep(ttl, start, events, Drop(end, k));
    RunStep(ttl, start, events + [Drop(end, k)], Expire(end, k));
    RunStep(ttl, start, events, Expire(end, k));
    UnixOrder(end - ttl, latest.timestamp);
    UnixOrder(latest.timestamp, end);
  }
}
