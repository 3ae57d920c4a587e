/** How tight the bounds on the uses of an update are. */
module CycleLimits {
  import opened Model
  import opened Redis
  import opened Cycle
  import opened CycleSafety
  import opened CycleCounting
  import opened CycleLosses

  lemma {:induction false} SpacedConcat(c: Config, d: Time, u: Update, s: State, xs: seq<Action>, ys: seq<Action>)
    requires IsRun(c, s, xs) && SpacedRun(c, d, u, s, xs)
    requires IsRun(c, Exec(c, s, xs), ys) && SpacedRun(c, d, u, Exec(c, s, xs), ys)
    ensures IsRun(c, s, xs + ys) && Exec(c, s, xs + ys) == Exec(c, Exec(c, s, xs), ys)
    ensures SpacedRun(c, d, u, s, xs + ys)
    decreases |xs|
  {
    if xs == [] {
      assert xs + ys == ys;
    } else {
      assert (xs + ys)[1..] == xs[1..] + ys;
      SpacedConcat(c, d, u, Apply(c, s, xs[0]), xs[1..], ys);
    }
  }

  lemma SpacedThen(c: Config, d: Time, u: Update, s: State, a: Action, rest: seq<Action>)
    requires Enabled(c, s, a) && Spaced(c, d, u, s, a)
    requires IsRun(c, Apply(c, s, a), rest) && SpacedRun(c, d, u, Apply(c, s, a), rest)
    ensures IsRun(c, s, [a] + rest) && Exec(c, s, [a] + rest) == Exec(c, Apply(c, s, a), rest)
    ensures SpacedRun(c, d, u, s, [a] + rest)
  {
    assert ([a] + rest)[1..] == rest;
  }

  // ---------- Cycles that read and save the update again and again ----------

  /** The update is the only entry of the windows, and a read now returns it. */
  predicate Shown(c: Config, s: State, u: Update) {
    s.windows == map[KeyOf(u) := {u}] && Visible(u, s.now, c.ttl)
  }

  /** What a read now returns. */
  function Hit(t: Target, u: Update): set<Update> {
    if Covers(t, KeyOf(u)) then {u} else {}
  }

  /** The next read returns the update if it is of its window. */
  lemma HitOne(c: Config, d: Time, s: State, u: Update) returns (run: seq<Action>)
    requires s.phase.Collecting? && s.phase.p.todo != [] && Shown(c, s, u)
    ensures IsRun(c, s, run) && SpacedRun(c, d, u, s, run)
    ensures var p := s.phase.p;
            Exec(c, s, run)
            == s.(phase := Collecting(Progress(p.todo[1..], FirstClock(s), p.batch + Hit(p.todo[0], u),
                                               p.made + {p.todo[0]})))
  {
    var p, t := s.phase.p, s.phase.p.todo[0];
    var s1 := Apply(c, s, ReadClock);
    var keys := match t case One(key) => [key] case AllOf(pair) => if KeyOf(u).symbol == pair then [KeyOf(u)] else [];
    var s2 := if t.One? then s1 else Apply(c, s1, ScanEnd(keys));
    var s3 := if keys == [] then s2 else Apply(c, s2, Fetch);
    assert InWindow({u}, s.now, c.ttl) == {u};
    assert s3.phase.keys == [] && s3.phase.got == Hit(t, u);
    SpacedThen(c, d, u, s3, FetchEnd, []);
    run := [FetchEnd] + [];
    if keys != [] {
      SpacedThen(c, d, u, s2, Fetch, run);
      run := [Fetch] + run;
    }
    if t.AllOf? {
      SpacedThen(c, d, u, s1, ScanEnd(keys), run);
      run := [ScanEnd(keys)] + run;
    }
    SpacedThen(c, d, u, s, ReadClock, run);
    run := [ReadClock] + run;
  }

  /** All reads of the cycle; one that covers the update's window returns it. */
  lemma {:induction false} HitAll(c: Config, d: Time, s: State, u: Update) returns (run: seq<Action>, made: set<Target>)
    requires s.phase.Collecting? && s.phase.p.batch <= {u} && Shown(c, s, u)
    ensures IsRun(c, s, run) && SpacedRun(c, d, u, s, run)
    ensures var p := s.phase.p;
            var since := if p.todo != [] then FirstClock(s) else p.since;
            var batch := if u in p.batch || Todo(p.todo, KeyOf(u)) then {u} else {};
            Exec(c, s, run) == s.(phase := Collecting(Progress([], since, batch, made)))
    decreases |s.phase.p.todo|
  {
    var p := s.phase.p;
    if p.todo == [] {
      run, made := [], p.made;
      assert p == Progress([], p.since, if u in p.batch then {u} else {}, made);
    } else {
      var head := HitOne(c, d, s, u);
      var rest;
      rest, made := HitAll(c, d, Exec(c, s, head), u);
      SpacedConcat(c, d, u, s, head, rest);
      run := head + rest;
      assert p.todo == [p.todo[0]] + p.todo[1..];
    }
  }

  /** The batch is saved; the deletion leaves the update if it is younger than the retention. */
  lemma SaveAndKeep(c: Config, d: Time, s: State, u: Update) returns (run: seq<Action>)
    requires s.phase.Collecting? && s.phase.p.todo == [] && s.phase.p.since.Some? && s.phase.p.batch == {u}
    requires s.windows == map[KeyOf(u) := {u}]
    requires s.lastSaved.Some? ==> s.now - s.lastSaved.value >= d
    ensures IsRun(c, s, run) && SpacedRun(c, d, u, s, run)
    ensures var t := Exec(c, s, run);
            && t.phase.Idle? && t.now == s.now && t.lastSaved == Some(s.now)
            && Uses(t.saved, u) == Uses(s.saved, u) + 1
            && (!Stale(u, s.now - c.retention) ==> t.windows == s.windows)
  {
    var k := KeyOf(u);
    var s1 := Apply(c, s, Save(true));
    var s2 := Apply(c, s1, DeleteClock);
    var s3 := Apply(c, s2, Purge(k));
    if !Stale(u, s.now - c.retention) {
      NothingStale(s.windows, k, s.now - c.retention);
    }
    UsesAppend(s.saved, {u}, u);
    SpacedThen(c, d, u, s3, DeleteEnd(true), []);
    SpacedThen(c, d, u, s2, Purge(k), [DeleteEnd(true)] + []);
    SpacedThen(c, d, u, s1, DeleteClock, [Purge(k)] + ([DeleteEnd(true)] + []));
    SpacedThen(c, d, u, s, Save(true), [DeleteClock] + ([Purge(k)] + ([DeleteEnd(true)] + [])));
    run := [Save(true)] + ([DeleteClock] + ([Purge(k)] + ([DeleteEnd(true)] + [])));
  }

  /** After a wait, a cycle without failures. */
  lemma UsingCycle(c: Config, d: Time, s: State, wait: nat, u: Update) returns (run: seq<Action>)
    requires c.pairs != [] && Configured(c, KeyOf(u)) && s.phase.Idle? && Shown(c, s.(now := s.now + wait), u)
    requires s.lastSaved.Some? ==> s.now + wait - s.lastSaved.value >= d
    ensures IsRun(c, s, run) && SpacedRun(c, d, u, s, run)
    ensures var t := Exec(c, s, run);
            && t.phase.Idle? && t.now == s.now + wait && t.lastSaved == Some(t.now)
            && Uses(t.saved, u) == Uses(s.saved, u) + 1
            && (!Stale(u, t.now - c.retention) ==> t.windows == s.windows)
  {
    var s1 := Apply(c, s, Tick(wait));
    var s2 := Apply(c, s1, Start);
    TargetsExist(c);
    TargetsCover(c, KeyOf(u));
    var hits, made := HitAll(c, d, s2, u);
    var s3 := Exec(c, s2, hits);
    var tail := SaveAndKeep(c, d, s3, u);
    SpacedConcat(c, d, u, s2, hits, tail);
    SpacedThen(c, d, u, s1, Start, hits + tail);
    SpacedThen(c, d, u, s, Tick(wait), [Start] + (hits + tail));
    run := [Tick(wait)] + ([Start] + (hits + tail));
  }

  /** The second in which the update arrives. */
  function Second(u: Update): Time {
    Unix(u.timestamp) * SECOND
  }

  /** So long after its second the update can be read, and so long it is kept. */
  lemma SinceSecond(c: Config, u: Update, age: nat)
    ensures age <= c.ttl ==> Visible(u, Second(u) + age, c.ttl)
    ensures age < c.retention ==> !Stale(u, Second(u) + age - c.retention)
  {
    assert Second(u) <= u.timestamp < Second(u) + SECOND;
    UnixOrder(Second(u), Second(u) + age);
    UnixOrder(Second(u) + age - c.ttl, Second(u));
    assert Unix(Second(u)) == Unix(u.timestamp);
  }

  /** The update arrives at the start of its second, and `uses` cycles `d` apart save it, one after the other. */
  lemma {:induction false} UsingCycles(c: Config, d: nat, u: Update, uses: nat) returns (run: seq<Action>)
    requires c.pairs != [] && Configured(c, KeyOf(u)) && uses >= 1
    requires Span(d, uses) <= c.ttl && (uses >= 2 ==> Span(d, uses - 1) < c.retention)
    ensures IsRun(c, Init(Second(u)), run) && SpacedRun(c, d, u, Init(Second(u)), run)
    ensures var t := Exec(c, Init(Second(u)), run);
            && t.phase.Idle? && t.now == Second(u) + Span(d, uses) && t.lastSaved == Some(t.now)
            && Uses(t.saved, u) == uses
            && (Span(d, uses) < c.retention ==> t.windows == map[KeyOf(u) := {u}])
  {
    SinceSecond(c, u, Span(d, uses));
    var s := Init(Second(u));
    if uses == 1 {
      assert Members(map[], KeyOf(u)) + {u} == {u};
      var cycle := UsingCycle(c, d, Apply(c, s, Arrive(u)), 0, u);
      SpacedThen(c, d, u, s, Arrive(u), cycle);
      run := [Arrive(u)] + cycle;
    } else {
      var before := UsingCycles(c, d, u, uses - 1);
      var cycle := UsingCycle(c, d, Exec(c, s, before), d, u);
      SpacedConcat(c, d, u, s, before, cycle);
      run := before + cycle;
    }
  }

  // ---------- The exact bounds ----------

  /** No run spaced by `d` uses the update more than `most` times. */
  ghost predicate NeverMore(c: Config, d: Time, most: nat, u: Update) {
    forall start, run :: IsRun(c, Init(start), run) && SpacedRun(c, d, u, Init(start), run) ==>
      Uses(Exec(c, Init(start), run).saved, u) <= most
  }

  /**
   The exact bound: when windows are read for at least twice the retention, deletions `d` apart keep a configured update
   to `most` uses if and only if `most - 1` of those distances make up the retention. So two uses are the limit exactly
   for distances of at least the retention, and three for at least half of it.
   */
  lemma NeverMoreExactly(c: Config, d: nat, most: nat, u: Update)
    requires c.pairs != [] && Configured(c, KeyOf(u)) && 2 * c.retention <= c.ttl && most >= 2
    ensures NeverMore(c, d, most, u) <==> (most - 1) * d >= c.retention
  {
    if (most - 1) * d >= c.retention {
      forall start, run | IsRun(c, Init(start), run) && SpacedRun(c, d, u, Init(start), run)
        ensures Uses(Exec(c, Init(start), run).saved, u) <= most
      {
        BoundedUses(c, d, most, start, run, u);
      }
    } else {
      SpanIsProduct(d, most);
      assert Span(d, most + 1) == (if d == 0 then 0 else Span(d, most) + d);
      assert d <= Span(d, most);
      var run := UsingCycles(c, d, u, most + 1);
    }
  }

  /** Two uses are reached with any distance, by every configured update and whatever retention there is. */
  lemma TwiceIsReached(c: Config, d: nat, u: Update) returns (run: seq<Action>)
    requires c.pairs != [] && Configured(c, KeyOf(u)) && 0 < c.retention && d <= c.ttl
    ensures IsRun(c, Init(Second(u)), run) && SpacedRun(c, d, u, Init(Second(u)), run)
    ensures Uses(Exec(c, Init(Second(u)), run).saved, u) == 2
  {
    assert Span(d, 2) == (if d == 0 then 0 else Span(d, 1) + d);
    run := UsingCycles(c, d, u, 2);
  }

  /** Any distance shorter than the retention lets an update count a third time. */
  lemma CloserDeletionsCountMore(c: Config, d: nat, u: Update) returns (run: seq<Action>)
    requires c.pairs != [] && Configured(c, KeyOf(u)) && 2 * c.retention <= c.ttl && d < c.retention
    ensures IsRun(c, Init(Second(u)), run) && SpacedRun(c, d, u, Init(Second(u)), run)
    ensures Uses(Exec(c, Init(Second(u)), run).saved, u) == 3
  {
    SpanIsProduct(d, 2);
    SpanIsProduct(d, 3);
    run := UsingCycles(c, d, u, 3);
  }
}
