/** Exactly which updates the aggregation can lose. */
module CycleLosses {
  import opened Model
  import opened Redis
  import opened Cycle
  import opened CycleSafety

  // ---------- Only configured windows are aggregated ----------

  ghost predicate ConfiguredInv(c: Config, s: State) {
    && WellKeyed(s.windows)
    && (forall u :: u in Collected(s.phase) || u in AllSaved(s.saved) ==> Configured(c, KeyOf(u)))
    && (s.phase.Collecting? || s.phase.Scanning? || s.phase.Fetching? ==>
          forall k :: Todo(s.phase.p.todo, k) ==> Configured(c, k))
    && (s.phase.Scanning? ==> forall k: Key :: k.symbol == s.phase.pair ==> Configured(c, k))
    && (s.phase.Fetching? ==> forall k :: k in s.phase.keys ==> Configured(c, k))
  }

  lemma TargetsConfigured(c: Config)
    ensures forall k :: Todo(Targets(c), k) ==> Configured(c, k)
  {
    forall k | Todo(Targets(c), k) ensures Configured(c, k) {
      TargetsCover(c, k);
    }
  }

  lemma ConfiguredStep(c: Config, s: State, a: Action)
    requires Enabled(c, s, a) && ConfiguredInv(c, s)
    ensures ConfiguredInv(c, Apply(c, s, a))
  {
    KeysStep(c, s, a);
    match a
    case Start => TargetsConfigured(c);
    case ReadClock =>
      var todo := s.phase.p.todo;
      forall k | Covers(todo[0], k) || Todo(todo[1..], k) ensures Configured(c, k) {
        assert todo[0] in todo;
        assert Todo(todo, k);
      }
    case Fetch => assert s.phase.keys[0] in s.phase.keys;
    case Save(ok) => assert (s.saved + [s.phase.p.batch])[..|s.saved|] == s.saved;
    case _ =>
  }

  lemma {:induction false} ConfiguredRun(c: Config, s: State, run: seq<Action>)
    requires IsRun(c, s, run) && ConfiguredInv(c, s)
    ensures ConfiguredInv(c, Exec(c, s, run))
    decreases |run|
  {
    if run != [] {
      ConfiguredStep(c, s, run[0]);
      ConfiguredRun(c, Apply(c, s, run[0]), run[1..]);
    }
  }

  /**
   No batch ever holds an update of a window outside the configured pairs and exchanges, in any run, so such
   an update is lost once DeleteOldPrices, which visits every window, removes it.
   */
  lemma OnlyConfiguredIsSaved(c: Config, start: Time, run: seq<Action>, u: Update)
    requires IsRun(c, Init(start), run) && !Configured(c, KeyOf(u))
    ensures u !in AllSaved(Exec(c, Init(start), run).saved)
  {
    ConfiguredRun(c, Init(start), run);
  }

  /** With tight limits and reads that succeed, a removed update was saved if and only if its window is configured. */
  lemma SavedExactlyIfConfigured(c: Config, l: Limits, start: Time, run: seq<Action>, u: Update)
    requires Tight(c, l) && 0 <= l.span && 0 <= l.gap
    requires IsRun(c, Init(start), run) && TimelyRun(c, l, {}, u, Init(start), run)
    requires u in Exec(c, Init(start), run).removed
    ensures u in AllSaved(Exec(c, Init(start), run).saved) <==> Configured(c, KeyOf(u))
  {
    if Configured(c, KeyOf(u)) {
      TargetsCover(c, KeyOf(u));
      var t :| t in Targets(c) && Covers(t, KeyOf(u));
      assert t !in {};
      NothingDeletedUnread(c, l, {}, start, run, u);
    } else {
      OnlyConfiguredIsSaved(c, start, run, u);
    }
  }

  // ---------- Cycles that miss an update ----------

  lemma TimelyThen(c: Config, l: Limits, flaky: set<Target>, u: Update, s: State, a: Action, rest: seq<Action>)
    requires Enabled(c, s, a) && IsRun(c, Apply(c, s, a), rest)
    ensures IsRun(c, s, [a] + rest) && Exec(c, s, [a] + rest) == Exec(c, Apply(c, s, a), rest)
    ensures Timely(c, l, flaky, u, s, a) && TimelyRun(c, l, flaky, u, Apply(c, s, a), rest)
            ==> TimelyRun(c, l, flaky, u, s, [a] + rest)
  {
    assert ([a] + rest)[1..] == rest;
  }

  lemma {:induction false} TimelyConcat(c: Config, l: Limits, flaky: set<Target>, u: Update, s: State,
                                        xs: seq<Action>, ys: seq<Action>)
    requires IsRun(c, s, xs) && IsRun(c, Exec(c, s, xs), ys)
    ensures IsRun(c, s, xs + ys) && Exec(c, s, xs + ys) == Exec(c, Exec(c, s, xs), ys)
    ensures TimelyRun(c, l, flaky, u, s, xs) && TimelyRun(c, l, flaky, u, Exec(c, s, xs), ys)
            ==> TimelyRun(c, l, flaky, u, s, xs + ys)
    decreases |xs|
  {
    if xs == [] {
      assert xs + ys == ys;
    } else {
      assert (xs + ys)[1..] == xs[1..] + ys;
      TimelyConcat(c, l, flaky, u, Apply(c, s, xs[0]), xs[1..], ys);
    }
  }

  lemma TargetsExist(c: Config)
    requires c.pairs != []
    ensures Targets(c) != []
  {
    var exchange := if c.exchanges == [] then "" else c.exchanges[0];
    PlanEntries(c, (c.pairs[0], exchange));
  }

  /** The clock of the first read, once there is one. */
  function FirstClock(s: State): Option<Time>
    requires s.phase.Collecting?
  {
    if s.phase.p.since.None? then Some(s.now) else s.phase.p.since
  }

  /** Nothing but the update may be in the windows, and it is not returned by a read that does not fail. */
  predicate Missed(c: Config, s: State, failing: set<Target>, u: Update, t: Target) {
    && (s.windows == map[] || s.windows == map[KeyOf(u) := {u}])
    && (s.windows != map[] && Covers(t, KeyOf(u)) ==> t in failing || !Visible(u, s.now, c.ttl))
  }

  /** What the reads that do not fail add to the reads made. */
  function Succeeding(todo: seq<Target>, failing: set<Target>): set<Target> {
    set t | t in todo && t !in failing
  }

  /** The next read fails, or returns nothing. */
  lemma MissOne(c: Config, l: Limits, flaky: set<Target>, s: State, failing: set<Target>, u: Update)
    returns (run: seq<Action>)
    requires s.phase.Collecting? && s.phase.p.todo != [] && Missed(c, s, failing, u, s.phase.p.todo[0])
    ensures IsRun(c, s, run) && TimelyRun(c, l, flaky, u, s, run) && (failing == {} ==> ReadFail !in run)
    ensures var p := s.phase.p;
            Exec(c, s, run)
            == s.(phase := Collecting(Progress(p.todo[1..], FirstClock(s), p.batch,
                                               p.made + (if p.todo[0] in failing then {} else {p.todo[0]}))))
  {
    var p, t := s.phase.p, s.phase.p.todo[0];
    var s1 := Apply(c, s, ReadClock);
    if t in failing {
      TimelyThen(c, l, flaky, u, s1, ReadFail, []);
      run := [ReadFail] + [];
      assert p.made + {} == p.made;
    } else {
      run := MissQuietly(c, l, flaky, s1, u);
    }
    TimelyThen(c, l, flaky, u, s, ReadClock, run);
    run := [ReadClock] + run;
  }

  /** The rest of a read that succeeds and returns nothing. */
  lemma MissQuietly(c: Config, l: Limits, flaky: set<Target>, s: State, u: Update) returns (run: seq<Action>)
    requires s.phase.Scanning? || s.phase.Fetching?
    requires s.phase.Scanning? ==>
               s.phase.clock == s.now && s.phase.must == set k | k in s.windows && k.symbol == s.phase.pair
    requires s.phase.Fetching? ==>
               && s.phase.clock == s.now && s.phase.got == {}
               && s.phase.target.One? && s.phase.keys == [s.phase.target.key]
    requires var t := if s.phase.Scanning? then AllOf(s.phase.pair) else s.phase.target; Missed(c, s, {}, u, t)
    ensures IsRun(c, s, run) && TimelyRun(c, l, flaky, u, s, run) && ReadFail !in run
    ensures var p, t := s.phase.p, if s.phase.Scanning? then AllOf(s.phase.pair) else s.phase.target;
            Exec(c, s, run) == s.(phase := Collecting(p.(made := p.made + {t})))
  {
    var k := KeyOf(u);
    var keys := if s.phase.Fetching? then s.phase.keys
                else if s.windows != map[] && k.symbol == s.phase.pair then [k] else [];
    var s2 := if s.phase.Fetching? then s else Apply(c, s, ScanEnd(keys));
    var s3 := if keys == [] then s2 else Apply(c, s2, Fetch);
    assert s3.phase.keys == [] && s3.phase.got == {};
    TimelyThen(c, l, flaky, u, s3, FetchEnd, []);
    run := [FetchEnd] + [];
    if keys != [] {
      TimelyThen(c, l, flaky, u, s2, Fetch, run);
      run := [Fetch] + run;
    }
    if s.phase.Scanning? {
      TimelyThen(c, l, flaky, u, s, ScanEnd(keys), run);
      run := [ScanEnd(keys)] + run;
    }
    assert s.phase.p.batch + {} == s.phase.p.batch;
  }

  /** All reads of the cycle fail or return nothing. */
  lemma {:induction false} MissAll(c: Config, l: Limits, flaky: set<Target>, s: State, failing: set<Target>, u: Update)
    returns (run: seq<Action>)
    requires s.phase.Collecting? && forall t :: t in s.phase.p.todo ==> Missed(c, s, failing, u, t)
    ensures IsRun(c, s, run) && TimelyRun(c, l, flaky, u, s, run) && (failing == {} ==> ReadFail !in run)
    ensures var p := s.phase.p;
            var since := if p.todo != [] then FirstClock(s) else p.since;
            Exec(c, s, run)
            == s.(phase := Collecting(Progress([], since, p.batch, p.made + Succeeding(p.todo, failing))))
    decreases |s.phase.p.todo|
  {
    var p := s.phase.p;
    if p.todo == [] {
      run := [];
      assert p == Progress([], p.since, p.batch, p.made + Succeeding(p.todo, failing));
    } else {
      var head := MissOne(c, l, flaky, s, failing, u);
      var t := Exec(c, s, head);
      forall x | x in p.todo[1..] ensures Missed(c, t, failing, u, x) {
        assert Missed(c, s, failing, u, x);
      }
      var rest := MissAll(c, l, flaky, t, failing, u);
      TimelyConcat(c, l, flaky, u, s, head, rest);
      run := head + rest;
      assert p.todo == [p.todo[0]] + p.todo[1..];
      assert t.phase.p.made + Succeeding(p.todo[1..], failing) == p.made + Succeeding(p.todo, failing);
    }
  }

  /** The empty batch needs no save, and the entries of the only window are deleted if they are old enough. */
  lemma DeleteUnread(c: Config, l: Limits, flaky: set<Target>, s: State, u: Update) returns (run: seq<Action>)
    requires s.phase.Collecting? && s.phase.p.todo == [] && s.phase.p.since.Some? && s.phase.p.batch == {}
    requires s.windows == map[KeyOf(u) := {u}]
    ensures IsRun(c, s, run) && ReadFail !in run
    ensures var t := Exec(c, s, run);
            && t.phase.Idle? && t.now == s.now == t.lastFull && t.saved == s.saved
            && if Stale(u, s.now - c.retention) then u in t.removed else t.windows == s.windows
    ensures (Stale(u, s.now - c.retention) ==>
               && s.now - s.phase.p.since.value <= l.span && s.now - s.lastFull <= l.gap
               && forall t :: t in Targets(c) && t !in flaky ==> t in s.phase.p.made)
            ==> TimelyRun(c, l, flaky, u, s, run)
  {
    var k := KeyOf(u);
    var s1 := Apply(c, s, Save(true));
    var s2 := Apply(c, s1, DeleteClock);
    var s3 := Apply(c, s2, Purge(k));
    if !Stale(u, s.now - c.retention) {
      NothingStale(s.windows, k, s.now - c.retention);
    }
    TimelyThen(c, l, flaky, u, s3, DeleteEnd(true), []);
    TimelyThen(c, l, flaky, u, s2, Purge(k), [DeleteEnd(true)] + []);
    TimelyThen(c, l, flaky, u, s1, DeleteClock, [Purge(k)] + ([DeleteEnd(true)] + []));
    TimelyThen(c, l, flaky, u, s, Save(true), [DeleteClock] + ([Purge(k)] + ([DeleteEnd(true)] + [])));
    run := [Save(true)] + ([DeleteClock] + ([Purge(k)] + ([DeleteEnd(true)] + [])));
  }

  /** What makes a cycle that misses the update and then removes it a timely one. */
  predicate InTime(c: Config, l: Limits, flaky: set<Target>, s: State, wait: nat, failing: set<Target>, u: Update) {
    Stale(u, s.now + wait - c.retention) ==>
      && 0 <= l.span && s.now + wait - s.lastFull <= l.gap
      && forall t :: t in Targets(c) && t !in flaky ==> t !in failing
  }

  /** After a wait, a whole cycle that misses the update and deletes it if it is old enough. */
  lemma MissingCycle(c: Config, l: Limits, flaky: set<Target>, s: State, wait: nat, failing: set<Target>, u: Update)
    returns (run: seq<Action>)
    requires c.pairs != [] && s.phase.Idle? && s.windows == map[KeyOf(u) := {u}]
    requires forall t :: t in Targets(c) ==> Missed(c, s.(now := s.now + wait), failing, u, t)
    ensures IsRun(c, s, run) && (failing == {} ==> ReadFail !in run)
    ensures var t := Exec(c, s, run);
            && t.phase.Idle? && t.now == s.now + wait == t.lastFull && t.saved == s.saved
            && if Stale(u, t.now - c.retention) then u in t.removed else t.windows == s.windows
    ensures InTime(c, l, flaky, s, wait, failing, u) ==> TimelyRun(c, l, flaky, u, s, run)
  {
    var s1 := Apply(c, s, Tick(wait));
    var s2 := Apply(c, s1, Start);
    TargetsExist(c);
    var misses := MissAll(c, l, flaky, s2, failing, u);
    var s3 := Exec(c, s2, misses);
    var tail := DeleteUnread(c, l, flaky, s3, u);
    TimelyConcat(c, l, flaky, u, s2, misses, tail);
    TimelyThen(c, l, flaky, u, s1, Start, misses + tail);
    TimelyThen(c, l, flaky, u, s, Tick(wait), [Start] + (misses + tail));
    run := [Tick(wait)] + ([Start] + (misses + tail));
  }

  // ---------- Runs that lose an update ----------

  /** The last moment at which a deletion leaves the update. */
  function LastKeeping(c: Config, u: Update): Time {
    Unix(u.timestamp) * SECOND - 1 + c.retention
  }

  lemma KeptUntil(c: Config, u: Update, gap: Time)
    requires 1 <= gap
    ensures !Stale(u, LastKeeping(c, u) - c.retention) && Stale(u, LastKeeping(c, u) + gap - c.retention)
  {
    var second := Unix(u.timestamp) * SECOND;
    assert Unix(second) == Unix(u.timestamp) && Unix(second - 1) < Unix(u.timestamp);
    UnixOrder(second, second - 1 + gap);
  }

  /**
   The update arrives, a cycle whose reads all fail leaves it at the last moment, and the next one, `gap` later, removes
   it without having seen it.
   */
  lemma LostInTwo(c: Config, l: Limits, flaky: set<Target>, failing: set<Target>, u: Update) returns (run: seq<Action>)
    requires c.pairs != [] && 0 <= l.lag && 0 <= l.span && 1 <= l.gap && SECOND <= c.retention
    requires forall t :: t in Targets(c) && t !in flaky ==> t !in failing
    requires forall t :: t in Targets(c) && Covers(t, KeyOf(u)) ==>
               t in failing || !Visible(u, LastKeeping(c, u) + l.gap, c.ttl)
    ensures IsRun(c, Init(u.timestamp), run) && TimelyRun(c, l, flaky, u, Init(u.timestamp), run)
    ensures u in Exec(c, Init(u.timestamp), run).removed && Exec(c, Init(u.timestamp), run).saved == []
  {
    var s := Init(u.timestamp);
    assert Members(map[], KeyOf(u)) + {u} == {u};
    var s1 := Apply(c, s, Arrive(u));
    KeptUntil(c, u, l.gap);
    var wait := LastKeeping(c, u) - u.timestamp;
    var first := MissingCycle(c, l, flaky, s1, wait, set t | t in Targets(c) :: t, u);
    var s2 := Exec(c, s1, first);
    var second := MissingCycle(c, l, flaky, s2, l.gap, failing, u);
    TimelyConcat(c, l, flaky, u, s1, first, second);
    TimelyThen(c, l, flaky, u, s, Arrive(u), first + second);
    run := [Arrive(u)] + (first + second);
  }

  /** Without a read of its window that is sure to succeed, any update at all can be lost in time. */
  lemma LostWithoutSureRead(c: Config, l: Limits, flaky: set<Target>, u: Update) returns (run: seq<Action>)
    requires c.pairs != [] && 0 <= l.lag && 0 <= l.span && 1 <= l.gap && SECOND <= c.retention
    requires !Sure(flaky, Targets(c), KeyOf(u))
    ensures IsRun(c, Init(u.timestamp), run) && TimelyRun(c, l, flaky, u, Init(u.timestamp), run)
    ensures u in Exec(c, Init(u.timestamp), run).removed && Exec(c, Init(u.timestamp), run).saved == []
  {
    run := LostInTwo(c, l, flaky, set t | t in Targets(c) && Covers(t, KeyOf(u)) :: t, u);
  }

  /** If complete deletions may be too far apart, an update at the start of its second is lost in between. */
  lemma LostBetweenDeletions(c: Config, l: Limits, flaky: set<Target>, k: Key) returns (run: seq<Action>, u: Update)
    requires c.pairs != [] && 0 <= l.lag && 0 <= l.span && 1 <= l.gap && SECOND <= c.retention
    requires l.gap > c.ttl - c.retention + SECOND
    ensures KeyOf(u) == k && IsRun(c, Init(0), run) && TimelyRun(c, l, flaky, u, Init(0), run)
    ensures u in Exec(c, Init(0), run).removed && Exec(c, Init(0), run).saved == []
  {
    u := Update(k.symbol, k.exchange, 1.0, 0);
    UnixOrder(LastKeeping(c, u) + l.gap - c.ttl, 0);
    run := LostInTwo(c, l, flaky, {}, u);
  }

  /** If a deletion may come too long after its cycle's first read, an update that arrives after that read is lost. */
  lemma LostAfterRead(c: Config, l: Limits, flaky: set<Target>, k: Key)
    returns (run: seq<Action>, u: Update, start: Time)
    requires c.pairs != [] && 0 <= l.lag && 0 <= l.span && 0 <= l.gap
    requires l.lag + Min(l.span, l.gap) + SECOND > c.retention
    ensures KeyOf(u) == k && IsRun(c, Init(start), run) && TimelyRun(c, l, flaky, u, Init(start), run)
    ensures u in Exec(c, Init(start), run).removed && Exec(c, Init(start), run).saved == []
  {
    u, start := Update(k.symbol, k.exchange, 1.0, SECOND - 1), SECOND - 1 + l.lag;
    var wait := Min(l.span, l.gap);
    var s := Init(start);
    var s1 := Apply(c, s, Start);
    TargetsExist(c);
    var misses := MissAll(c, l, flaky, s1, {}, u);
    var s2 := Exec(c, s1, misses);
    var s3 := Apply(c, s2, Arrive(u));
    assert Members(map[], k) + {u} == {u};
    var s4 := Apply(c, s3, Tick(wait));
    var tail := DeleteUnread(c, l, flaky, s4, u);
    TimelyThen(c, l, flaky, u, s3, Tick(wait), tail);
    TimelyThen(c, l, flaky, u, s2, Arrive(u), [Tick(wait)] + tail);
    TimelyConcat(c, l, flaky, u, s1, misses, [Arrive(u)] + ([Tick(wait)] + tail));
    TimelyThen(c, l, flaky, u, s, Start, misses + ([Arrive(u)] + ([Tick(wait)] + tail)));
    run := [Start] + (misses + ([Arrive(u)] + ([Tick(wait)] + tail)));
  }

  // ---------- The exact conditions ----------

  /** In no timely run is the update deleted without having been saved. */
  ghost predicate NeverLost(c: Config, l: Limits, flaky: set<Target>, u: Update) {
    forall start, run ::
      IsRun(c, Init(start), run) && TimelyRun(c, l, flaky, u, Init(start), run)
      ==> u in Exec(c, Init(start), run).removed ==> u in AllSaved(Exec(c, Init(start), run).saved)
  }

  lemma SafeWithin(c: Config, l: Limits, flaky: set<Target>, u: Update)
    requires Tight(c, l) && Sure(flaky, Targets(c), KeyOf(u)) && 0 <= l.span && 0 <= l.gap
    ensures NeverLost(c, l, flaky, u)
  {
    forall start, run | IsRun(c, Init(start), run) && TimelyRun(c, l, flaky, u, Init(start), run)
                        && u in Exec(c, Init(start), run).removed
      ensures u in AllSaved(Exec(c, Init(start), run).saved)
    {
      NothingDeletedUnread(c, l, flaky, start, run, u);
    }
  }

  /** Within tight limits an update is safe if and only if a cycle makes some read of its window that does not fail. */
  lemma NeverLostExactly(c: Config, l: Limits, flaky: set<Target>, u: Update)
    requires c.pairs != [] && 0 <= l.lag && 0 <= l.span && 1 <= l.gap && Tight(c, l)
    ensures NeverLost(c, l, flaky, u) <==> Sure(flaky, Targets(c), KeyOf(u))
  {
    if Sure(flaky, Targets(c), KeyOf(u)) {
      SafeWithin(c, l, flaky, u);
    } else {
      var run := LostWithoutSureRead(c, l, flaky, u);
    }
  }

  /** No update of the window is ever lost. */
  ghost predicate WindowSafe(c: Config, l: Limits, flaky: set<Target>, k: Key) {
    forall u :: KeyOf(u) == k ==> NeverLost(c, l, flaky, u)
  }

  /**
   The exact condition for a window: its updates are safe in all timely runs if and only if some read of it does not
   fail, a deletion follows its cycle's first read soon enough for updates that arrive in between, and the last
   complete deletion soon enough for updates it left. Both limits are exact to the nanosecond.
   */
  lemma SafeExactly(c: Config, l: Limits, flaky: set<Target>, k: Key)
    requires c.pairs != [] && 0 <= l.lag && 0 <= l.span && 1 <= l.gap
    ensures WindowSafe(c, l, flaky, k) <==>
              && Sure(flaky, Targets(c), k)
              && l.lag + Min(l.span, l.gap) + SECOND <= c.retention
              && l.gap <= c.ttl - c.retention + SECOND
  {
    if l.lag + Min(l.span, l.gap) + SECOND > c.retention {
      var run, u, start := LostAfterRead(c, l, flaky, k);
      assert !NeverLost(c, l, flaky, u);
    } else if !Sure(flaky, Targets(c), k) {
      var u := Update(k.symbol, k.exchange, 1.0, 0);
      var run := LostWithoutSureRead(c, l, flaky, u);
      assert !NeverLost(c, l, flaky, u);
    } else if !Tight(c, l) {
      var run, u := LostBetweenDeletions(c, l, flaky, k);
      assert !NeverLost(c, l, flaky, u);
    } else {
      forall u | KeyOf(u) == k ensures NeverLost(c, l, flaky, u) {
        SafeWithin(c, l, flaky, u);
      }
    }
  }

  // ---------- Whatever the retention ----------

  /** The update arrives, grows older than the retention, and a cycle that misses it deletes it. */
  lemma LoseOne(c: Config, failing: set<Target>, start: Time, u: Update) returns (run: seq<Action>)
    requires c.pairs != [] && forall t :: t in Targets(c) && Covers(t, KeyOf(u)) ==> t in failing
    ensures IsRun(c, Init(start), run) && (failing == {} ==> ReadFail !in run)
    ensures u in Exec(c, Init(start), run).removed && Exec(c, Init(start), run).saved == []
  {
    var s := Init(start);
    var age := u.timestamp + c.retention - start;
    var wait := if age > 0 then age else 0;
    assert Members(map[], KeyOf(u)) + {u} == {u};
    UnixOrder(u.timestamp, start + wait - c.retention);
    var cycle := MissingCycle(c, Limits(0, 0, 0), {}, Apply(c, s, Arrive(u)), wait, failing, u);
    Then(c, s, Arrive(u), cycle);
    run := [Arrive(u)] + cycle;
  }

  /** With any retention and any pairs, some run whose reads all succeed removes an unconfigured update unread. */
  lemma UnconfiguredIsLost(c: Config, start: Time, u: Update) returns (run: seq<Action>)
    requires c.pairs != [] && !Configured(c, KeyOf(u))
    ensures IsRun(c, Init(start), run) && ReadFail !in run
    ensures u in Exec(c, Init(start), run).removed && u !in AllSaved(Exec(c, Init(start), run).saved)
  {
    TargetsCover(c, KeyOf(u));
    run := LoseOne(c, {}, start, u);
  }

  /** Any update at all can be lost when reads fail: a cycle that read nothing deletes all the same. */
  lemma FailedReadsLose(c: Config, start: Time, u: Update) returns (run: seq<Action>)
    requires c.pairs != []
    ensures IsRun(c, Init(start), run)
    ensures u in Exec(c, Init(start), run).removed && Exec(c, Init(start), run).saved == []
  {
    run := LoseOne(c, set t | t in Targets(c) :: t, start, u);
  }
}
