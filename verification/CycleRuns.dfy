/** What a cycle reads, saves and deletes by itself is a run of the cycle's step system. */
module CycleRuns {
  import opened Model
  import opened Sums
  import opened Redis
  import opened Readings
  import opened Cycle
  import CycleLosses
  import Cache

  /** A cycle under way: the clock has reached `now`, and the reads have left `p`. */
  function Under(s: State, now: Time, p: Progress): State {
    s.(now := now, phase := Collecting(p))
  }

  /** Nothing arrives or expires in between. */
  predicate Undisturbed(run: seq<Action>) {
    forall a :: a in run ==> !a.Arrive? && !a.Expire?
  }

  function First(since: Option<Time>, clock: Time): Option<Time> {
    if since.None? then Some(clock) else since
  }

  // ---------- Reads ----------

  lemma ElementsOf(ps: seq<Update>, us: set<Update>)
    requires multiset(ps) == multiset(us)
    ensures Elements(ps) == us
  {
    forall u ensures u in Elements(ps) <==> u in us {
      assert u in ps <==> u in multiset(ps);
    }
  }

  lemma FetchOne(c: Config, s: State, lists: seq<seq<Update>>)
    requires s.phase.Fetching? && lists != []
    requires Cache.AreLists(s.windows, c.ttl, s.phase.clock, s.phase.keys, lists)
    ensures var ph := s.phase;
            Apply(c, s, Fetch) == s.(phase := ph.(keys := ph.keys[1..], got := ph.got + Elements(lists[0])))
    ensures Cache.AreLists(s.windows, c.ttl, s.phase.clock, s.phase.keys[1..], lists[1..])
  {
    ElementsOf(lists[0], InWindow(Members(s.windows, s.phase.keys[0]), s.phase.clock, c.ttl));
  }

  lemma ElementsConcat(ps: seq<Update>, qs: seq<Update>)
    ensures Elements(ps + qs) == Elements(ps) + Elements(qs)
  {}

  /** Fetching the windows of all keys of a read. */
  lemma {:induction false} FetchAll(c: Config, s: State, lists: seq<seq<Update>>) returns (run: seq<Action>)
    requires s.phase.Fetching? && Cache.AreLists(s.windows, c.ttl, s.phase.clock, s.phase.keys, lists)
    ensures IsRun(c, s, run) && Undisturbed(run)
    ensures var p, got := s.phase.p, s.phase.got + Elements(Flatten(lists));
            Exec(c, s, run)
            == s.(phase := Collecting(p.(batch := p.batch + got, made := p.made + {s.phase.target})))
    decreases |lists|
  {
    if lists == [] {
      Then(c, s, FetchEnd, []);
      run := [FetchEnd] + [];
      assert s.phase.got + Elements(Flatten(lists)) == s.phase.got;
    } else {
      FetchOne(c, s, lists);
      var rest := FetchAll(c, Apply(c, s, Fetch), lists[1..]);
      Then(c, s, Fetch, rest);
      run := [Fetch] + rest;
      ElementsConcat(lists[0], Flatten(lists[1..]));
      assert s.phase.got + Elements(lists[0]) + Elements(Flatten(lists[1..]))
          == s.phase.got + Elements(Flatten(lists));
    }
  }

  /** The scan for all exchanges' windows, and the windows fetched. */
  lemma ScanRun(c: Config, s: State, keys: seq<Key>, lists: seq<seq<Update>>) returns (run: seq<Action>)
    requires s.phase.Scanning? && Enabled(c, s, ScanEnd(keys))
    requires Cache.AreLists(s.windows, c.ttl, s.phase.clock, keys, lists)
    ensures IsRun(c, s, run) && Undisturbed(run)
    ensures var p, got := s.phase.p, {} + Elements(Flatten(lists));
            Exec(c, s, run)
            == s.(phase := Collecting(p.(batch := p.batch + got, made := p.made + {AllOf(s.phase.pair)})))
  {
    var rest := FetchAll(c, Apply(c, s, ScanEnd(keys)), lists);
    Then(c, s, ScanEnd(keys), rest);
    run := [ScanEnd(keys)] + rest;
  }

  /** The reads that have succeeded once this one is over. */
  function Made(p: Progress, r: Reading): set<Target> {
    if r.ok then p.made + {TargetOf((r.pair, r.exchange))} else p.made
  }

  /** A read that succeeds, from its clock on. */
  lemma SuccessRun(c: Config, s: State, r: Reading) returns (run: seq<Action>)
    requires s.phase.Collecting? && s.phase.p.todo != [] && s.phase.p.todo[0] == TargetOf((r.pair, r.exchange))
    requires s.now == r.clock && r.ok && ReadFrom(s.windows, c.ttl, r)
    ensures var t := Apply(c, s, ReadClock);
            && IsRun(c, t, run) && Undisturbed(run)
            && Exec(c, t, run)
               == t.(phase := Collecting(t.phase.p.(batch := s.phase.p.batch + Yield(r), made := Made(s.phase.p, r))))
  {
    var keys, lists :|
      && r.prices == Flatten(lists)
      && Cache.AreLists(s.windows, c.ttl, r.clock, keys, lists)
      && (if r.exchange != "" then keys == [Key(r.exchange, r.pair)] else Cache.IsScan(s.windows.Keys, r.pair, keys));
    var t := Apply(c, s, ReadClock);
    if r.exchange != "" {
      assert t.phase.keys == keys;
      run := FetchAll(c, t, lists);
    } else {
      run := ScanRun(c, t, keys, lists);
    }
    assert {} + Elements(r.prices) == Yield(r);
  }

  lemma ReadRun(c: Config, s: State, r: Reading) returns (run: seq<Action>)
    requires s.phase.Collecting? && s.phase.p.todo != [] && s.phase.p.todo[0] == TargetOf((r.pair, r.exchange))
    requires s.now <= r.clock && ReadFrom(s.windows, c.ttl, r)
    ensures IsRun(c, s, run) && Undisturbed(run)
    ensures var p := s.phase.p;
            Exec(c, s, run)
            == Under(s, r.clock, Progress(p.todo[1..], First(p.since, r.clock), p.batch + Yield(r), Made(p, r)))
  {
    var s1 := Apply(c, s, Tick(r.clock - s.now));
    if r.ok {
      run := SuccessRun(c, s1, r);
    } else {
      Then(c, Apply(c, s1, ReadClock), ReadFail, []);
      run := [ReadFail] + [];
      assert s.phase.p.batch + Yield(r) == s.phase.p.batch;
    }
    Then(c, s1, ReadClock, run);
    Then(c, s, Tick(r.clock - s.now), [ReadClock] + run);
    run := [Tick(r.clock - s.now)] + ([ReadClock] + run);
  }

  /** All reads of a cycle, one after the other. */
  lemma {:induction false} ReadsRun(c: Config, s: State, to: Time, log: seq<Reading>)
    returns (run: seq<Action>, since: Option<Time>, made: set<Target>)
    requires s.phase.Collecting? && |s.phase.p.todo| == |log| && Clocked(s.now, to, log)
    requires forall i :: 0 <= i < |log| ==> s.phase.p.todo[i] == TargetOf((log[i].pair, log[i].exchange))
    requires forall i :: 0 <= i < |log| ==> ReadFrom(s.windows, c.ttl, log[i])
    ensures IsRun(c, s, run) && Undisturbed(run)
    ensures s.phase.p.since.Some? || log != [] ==> since.Some?
    ensures Exec(c, s, run) == Under(s, to, Progress([], since, s.phase.p.batch + AllRead(log), made))
    decreases |log|
  {
    if log == [] {
      Then(c, s, Tick(to - s.now), []);
      run, since, made := [Tick(to - s.now)] + [], s.phase.p.since, s.phase.p.made;
      assert s.phase.p.batch + AllRead(log) == s.phase.p.batch;
    } else {
      var head := ReadRun(c, s, log[0]);
      var t := Exec(c, s, head);
      var rest;
      rest, since, made := ReadsRun(c, t, to, log[1..]);
      ExecConcat(c, s, head, rest);
      run := head + rest;
      assert t.phase.p.batch + AllRead(log[1..]) == s.phase.p.batch + AllRead(log);
    }
  }

  // ---------- Save and deletion ----------

  /** Purging keys one after the other. */
  lemma {:induction false} PurgeAll(c: Config, s: State, keys: seq<Key>) returns (run: seq<Action>)
    requires s.phase.Deleting?
    ensures IsRun(c, s, run) && Undisturbed(run)
    ensures var t := Exec(c, s, run);
            && t.phase == s.phase.(must := s.phase.must - (set k | k in keys))
            && t.windows == PurgeKeys(s.windows, keys, s.phase.clock - c.retention)
            && t.saved == s.saved && t.now == s.now
  {
    if keys == [] {
      run := [];
      assert s.phase.must - (set k | k in keys) == s.phase.must;
    } else {
      var n := |keys| - 1;
      var head := PurgeAll(c, s, keys[..n]);
      var t := Exec(c, s, head);
      Then(c, t, Purge(keys[n]), []);
      ExecConcat(c, s, head, [Purge(keys[n])] + []);
      run := head + ([Purge(keys[n])] + []);
      assert keys == keys[..n] + [keys[n]];
      assert t.phase.must - {keys[n]} == s.phase.must - (set k | k in keys);
    }
  }

  /** The deletion at clock `cutoff`, which reaches the given keys. */
  lemma DeletionRun(c: Config, s: State, cutoff: Time, keys: seq<Key>) returns (run: seq<Action>)
    requires s.phase.Stored? && s.now <= cutoff
    ensures IsRun(c, s, run) && Undisturbed(run)
    ensures var t := Exec(c, s, run);
            && t.phase.Idle? && t.now == cutoff && t.saved == s.saved
            && t.windows == PurgeKeys(s.windows, keys, cutoff - c.retention)
  {
    var s1 := Apply(c, s, Tick(cutoff - s.now));
    var s2 := Apply(c, s1, DeleteClock);
    var purge := PurgeAll(c, s2, keys);
    var s3 := Exec(c, s2, purge);
    var end := DeleteEnd(s3.phase.must == {});
    Then(c, s3, end, []);
    ExecConcat(c, s2, purge, [end] + []);
    Then(c, s1, DeleteClock, purge + ([end] + []));
    Then(c, s, Tick(cutoff - s.now), [DeleteClock] + (purge + ([end] + [])));
    run := [Tick(cutoff - s.now)] + ([DeleteClock] + (purge + ([end] + [])));
  }

  /** How a cycle ends once its reads are made: saved or not, and with which keys purged at which clock. */
  lemma EndRun(c: Config, s: State, saveFails: bool, cutoff: Time, keys: seq<Key>) returns (run: seq<Action>)
    requires s.phase.Collecting? && s.phase.p.todo == [] && s.phase.p.since.Some? && s.now <= cutoff
    ensures IsRun(c, s, run) && Undisturbed(run)
    ensures var t, batch := Exec(c, s, run), s.phase.p.batch;
            && t.phase.Idle? && t.now <= cutoff
            && (if batch != {} && saveFails then t.windows == s.windows && t.saved == s.saved
                else && t.windows == PurgeKeys(s.windows, keys, cutoff - c.retention)
                     && t.saved == s.saved + (if batch == {} then [] else [batch]))
  {
    var t := Apply(c, s, Save(!saveFails));
    if t.phase.Stored? {
      run := DeletionRun(c, t, cutoff, keys);
    } else {
      run := [];
    }
    Then(c, s, Save(!saveFails), run);
    run := [Save(!saveFails)] + run;
  }

  /** A whole cycle. */
  lemma CycleRun(c: Config, s: State, to: Time, log: seq<Reading>, saveFails: bool, cutoff: Time, keys: seq<Key>)
    returns (run: seq<Action>)
    requires s.phase.Idle? && c.pairs != [] && Clocked(s.now, to, log) && to <= cutoff
    requires |log| == |Plan(c.pairs, c.exchanges)|
    requires forall i :: 0 <= i < |log| ==>
               (log[i].pair, log[i].exchange) == Plan(c.pairs, c.exchanges)[i] && ReadFrom(s.windows, c.ttl, log[i])
    ensures IsRun(c, s, run) && Undisturbed(run)
    ensures var t, batch := Exec(c, s, run), AllRead(log);
            && t.phase.Idle? && t.now <= cutoff
            && (if batch != {} && saveFails then t.windows == s.windows && t.saved == s.saved
                else && t.windows == PurgeKeys(s.windows, keys, cutoff - c.retention)
                     && t.saved == s.saved + (if batch == {} then [] else [batch]))
  {
    var s1 := Apply(c, s, Start);
    CycleLosses.TargetsExist(c);
    var gathering, since, made := ReadsRun(c, s1, to, log);
    var s2 := Exec(c, s1, gathering);
    assert {} + AllRead(log) == AllRead(log);
    var end := EndRun(c, s2, saveFails, cutoff, keys);
    ExecConcat(c, s1, gathering, end);
    Then(c, s, Start, gathering + end);
    run := [Start] + (gathering + end);
  }
}
