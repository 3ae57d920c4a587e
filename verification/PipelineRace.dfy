/** With more than one worker, the latest entry can end up older than the last update of its only source. */
module PipelineRace {
  import opened Model
  import opened Pipeline
  import opened PipelineSafety
  import opened PipelineProgress
  import opened PipelineResults
  import Redis

  lemma Then(s: State, a: Action, rest: seq<Action>)
    requires Shaped(s) && Enabled(s, a) && Shaped(Apply(s, a)) && IsRun(Apply(s, a), rest)
    ensures IsRun(s, [a] + rest) && Exec(s, [a] + rest) == Exec(Apply(s, a), rest)
    ensures CacheWorked(rest) && (a.Work? ==> a.wm != SetLatest(false) && a.wm != AddToWindow(false))
            ==> CacheWorked([a] + rest)
  {
    assert ([a] + rest)[1..] == rest;
    if CacheWorked(rest) && (a.Work? ==> a.wm != SetLatest(false) && a.wm != AddToWindow(false)) {
      forall i | 0 <= i < |[a] + rest| && ([a] + rest)[i].Work?
        ensures ([a] + rest)[i].wm != SetLatest(false) && ([a] + rest)[i].wm != AddToWindow(false)
      {
        assert i > 0 ==> ([a] + rest)[i] == rest[i - 1];
      }
    }
  }

  /** The single source is open and everything between it and the workers is idle. */
  predicate Flowing(s: State) {
    && Shaped(s) && !s.panicked && !s.workClosed && !s.cancelled && s.dispatcher.Ranging?
    && |s.fan.forwarders| == 1 && s.fan.open[0] && s.fan.forwarders[0].Receiving? && !s.fan.mergedClosed
  }

  /** The state after the source's next update has gone to worker `w`. */
  function Delivered(s: State, w: nat): State
    requires Flowing(s) && s.fan.pending[0] != [] && w < |s.pool.workers|
  {
    var f, v := s.fan, s.fan.pending[0][0];
    s.(fan := f.(pending := f.pending[0 := f.pending[0][1..]], consumed := f.consumed[0 := f.consumed[0] + [v]],
                 merged := f.merged + [Tagged(0, v)]),
       pool := s.pool.(workers := s.pool.workers[w := Setting(v)], received := s.pool.received + [v]))
  }

  lemma Deliver(inputs: seq<seq<Update>>, s: State, w: nat, rest: seq<Action>) returns (run: seq<Action>)
    requires Flowing(s) && s.fan.pending[0] != [] && w < |s.pool.workers| && s.pool.workers[w].Idle?
    requires IsRun(Delivered(s, w), rest)
    ensures IsRun(s, run) && Exec(s, run) == Exec(Delivered(s, w), rest)
    ensures CacheWorked(rest) ==> CacheWorked(run)
    ensures Inv(inputs, s) ==> Inv(inputs, Delivered(s, w))
  {
    var s1 := Apply(s, Forward(0, Receive));
    var s2 := Apply(s1, Merge(0));
    var s3 := Apply(s2, Hand(w));
    assert s3.fan.forwarders == s.fan.forwarders;
    assert s3 == Delivered(s, w);
    Then(s2, Hand(w), rest);
    Then(s1, Merge(0), [Hand(w)] + rest);
    Then(s, Forward(0, Receive), [Merge(0)] + ([Hand(w)] + rest));
    run := [Forward(0, Receive)] + ([Merge(0)] + ([Hand(w)] + rest));
    if Inv(inputs, s) {
      InvStep(inputs, s, Forward(0, Receive));
      InvStep(inputs, s1, Merge(0));
      InvStep(inputs, s2, Hand(w));
    }
  }

  // ---------- Any run can be completed without failures ----------

  /** No update is on its way to a worker, and none has still to be set. */
  predicate Drained(s: State) {
    && (forall i :: 0 <= i < |s.fan.pending| ==> s.fan.pending[i] == [])
    && (forall i :: 0 <= i < |s.fan.forwarders| ==> !s.fan.forwarders[i].Sending?)
    && !s.dispatcher.Offering?
    && (forall w :: 0 <= w < |s.pool.workers| ==> !s.pool.workers[w].Setting?)
  }

  lemma DrainedStep(s: State, a: Action)
    requires Shaped(s) && Enabled(s, a) && !Panics(s, a) && Drained(s)
    ensures Drained(Apply(s, a)) && Apply(s, a).store.latest == s.store.latest
  {}

  lemma GoodStep(inputs: seq<seq<Update>>, s: State) returns (a: Action)
    requires Inv(inputs, s) && !s.cancelled && |s.pool.workers| >= 1 && !Final(s)
    ensures Enabled(s, a) && a != Cancel && CacheWorked([a])
  {
    NotFinalMoves(inputs, s);
    a :| a != Cancel && Enabled(s, a);
    if a.Work? && a.wm == SetLatest(false) {
      a := Work(a.w, SetLatest(true));
    } else if a.Work? && a.wm == AddToWindow(false) {
      a := Work(a.w, AddToWindow(true));
    }
  }

  lemma {:induction false} Complete(inputs: seq<seq<Update>>, s: State) returns (run: seq<Action>)
    requires Inv(inputs, s) && !s.cancelled && |s.pool.workers| >= 1 && Drained(s)
    ensures IsRun(s, run) && CacheWorked(run)
    ensures !Exec(s, run).cancelled && Final(Exec(s, run)) && Exec(s, run).store.latest == s.store.latest
    decreases Cost(s)
  {
    if Final(s) {
      run := [];
    } else {
      var a := GoodStep(inputs, s);
      assert [a][0] == a;
      NeverPanics(s, a);
      InvStep(inputs, s, a);
      DrainedStep(s, a);
      StepCosts(s, a);
      CostIsNatural(s);
      CostIsNatural(Apply(s, a));
      var rest := Complete(inputs, Apply(s, a));
      Then(s, a, rest);
      run := [a] + rest;
    }
  }

  // ---------- The race ----------

  /** Both updates have been handed out, and the worker with the second one sets the entry first. */
  lemma Overtake(inputs: seq<seq<Update>>, s: State, older: Update, newer: Update) returns (run: seq<Action>)
    requires Inv(inputs, s) && !s.cancelled && !s.panicked && |s.pool.workers| >= 2
    requires s.pool.workers[0] == Setting(older) && s.pool.workers[1] == Setting(newer)
    requires Drained(s.(pool := s.pool.(workers := s.pool.workers[0 := Idle][1 := Idle])))
    requires KeyOf(older) == KeyOf(newer)
    ensures IsRun(s, run) && CacheWorked(run) && !Exec(s, run).cancelled && Final(Exec(s, run))
    ensures Redis.Entry(Exec(s, run).store.latest, KeyOf(newer)) == Some(older)
  {
    var first, second := Work(1, SetLatest(true)), Work(0, SetLatest(true));
    var s1 := Apply(s, first);
    InvStep(inputs, s, first);
    var s2 := Apply(s1, second);
    InvStep(inputs, s1, second);
    forall w | 0 <= w < |s2.pool.workers| ensures !s2.pool.workers[w].Setting? {
      assert w >= 2 ==> s2.pool.workers[w] == s.pool.workers[0 := Idle][1 := Idle][w];
    }
    var rest := Complete(inputs, s2);
    Then(s1, second, rest);
    Then(s, first, [second] + rest);
    run := [first] + ([second] + rest);
  }

  /** The source's two updates have gone to the first two workers. */
  function BothHanded(workers: int, older: Update, newer: Update): State
    requires AtLeastOne(workers) >= 2
  {
    Delivered(Delivered(Init([[older, newer]], workers), 0), 1)
  }

  lemma HandBoth(workers: int, older: Update, newer: Update, rest: seq<Action>) returns (run: seq<Action>)
    requires AtLeastOne(workers) >= 2 && IsRun(BothHanded(workers, older, newer), rest)
    ensures IsRun(Init([[older, newer]], workers), run)
    ensures Exec(Init([[older, newer]], workers), run) == Exec(BothHanded(workers, older, newer), rest)
    ensures CacheWorked(rest) ==> CacheWorked(run)
    ensures Inv([[older, newer]], BothHanded(workers, older, newer))
  {
    var inputs := [[older, newer]];
    InvInit(inputs, workers);
    run := Deliver(inputs, Delivered(Init(inputs, workers), 0), 1, rest);
    run := Deliver(inputs, Init(inputs, workers), 0, run);
  }

  /**
   With two or more workers, any two updates of one key from one source can leave the first as the latest entry,
   in a complete run without failures and without cancellation.
   */
  lemma LatestCanBeStale(workers: int, older: Update, newer: Update) returns (run: seq<Action>)
    requires AtLeastOne(workers) >= 2 && KeyOf(older) == KeyOf(newer)
    ensures CleanRun([[older, newer]], workers, run)
    ensures LatestAfter([[older, newer]], workers, run, KeyOf(newer)) == Some(older)
    ensures Redis.Entry(Redis.SetAll([older, newer]), KeyOf(newer)) == Some(newer)
  {
    var handed := HandBoth(workers, older, newer, []);
    var race := Overtake([[older, newer]], BothHanded(workers, older, newer), older, newer);
    run := HandBoth(workers, older, newer, race);
    Redis.SetAllAppend([older], newer, KeyOf(newer));
    assert [older] + [newer] == [older, newer];
  }

  /** Every clean run leaves, under each key with a sole source, what sequential processing leaves. */
  ghost predicate LatestIsSequential(workers: int) {
    forall inputs, run, i: nat, k :: CleanRun(inputs, workers, run) && SoleSource(inputs, i, k) ==>
      LatestAfter(inputs, workers, run, k) == Redis.Entry(Redis.SetAll(inputs[i]), k)
  }

  /** The latest entries follow their sources exactly when the pool has one worker. */
  lemma SequentialExactlyWithOneWorker(workers: int)
    ensures LatestIsSequential(workers) <==> AtLeastOne(workers) == 1
  {
    if AtLeastOne(workers) == 1 {
      forall inputs, run, i: nat, k | CleanRun(inputs, workers, run) && SoleSource(inputs, i, k)
        ensures LatestAfter(inputs, workers, run, k) == Redis.Entry(Redis.SetAll(inputs[i]), k)
      {
        LatestWithOneWorker(inputs, workers, run, i, k);
      }
    } else {
      var older, newer := Update("", "", 1.0, 0), Update("", "", 1.0, 1);
      var run := LatestCanBeStale(workers, older, newer);
      assert SoleSource([[older, newer]], 0, KeyOf(newer));
    }
  }
}
