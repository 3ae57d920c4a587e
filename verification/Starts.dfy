/** How starts and switches go in the step system of generations. */
module Starts {
  import opened Generations

  lemma {:induction false} Snoc(live: nat, from: State, run: seq<Action>, a: Action)
    requires IsRun(live, from, run) && Enabled(Exec(live, from, run), a)
    ensures IsRun(live, from, run + [a]) && Exec(live, from, run + [a]) == Apply(live, Exec(live, from, run), a)
    decreases |run|
  {
    if run == [] {
      assert ([] + [a])[1..] == [];
    } else {
      assert (run + [a])[1..] == run[1..] + [a];
      Snoc(live, Apply(live, from, run[0]), run[1..], a);
    }
  }

  /** What reconnect goroutines leave alone. */
  predicate SameButReconnects(s: State, t: State) {
    && t == s.(exchanges := t.exchanges)
    && |t.exchanges| == |s.exchanges|
    && forall e :: 0 <= e < |s.exchanges| ==> SameButReconnected(s.exchanges[e], t.exchanges[e])
  }

  predicate SameButReconnected(x: Exchange, y: Exchange) {
    && y == x.(connected := y.connected, mutex := y.mutex)
    && (x.connected ==> y.connected)
    && (!x.watched ==> y == x)
  }

  // ---------- The course of a start ----------

  /** An exchange whose turn is over: watched if its dial succeeded, and then connected unless it is a generator. */
  predicate Came(x: Exchange, ok: bool) {
    x.watched == ok && (x.connected <==> ok && x.kind.LiveMode?)
  }

  /** An exchange whose dial is still to begin or to end. */
  predicate Waits(x: Exchange, dialling: bool) {
    !x.watched && x.mutex == if dialling then Dialing(false, false) else Free
  }

  /** Whether the dial of the start's source `i` succeeds: the generator always does. */
  predicate Up(mode: Mode, i: nat, reachable: set<nat>) {
    mode.TestMode? || i in reachable
  }

  /** The start has got to source `j`, and perhaps begun to dial it; its exchanges are those from `first` on. */
  ghost predicate Got(s: State, first: nat, j: nat, dialling: bool, reachable: set<nat>) {
    && s.phase.Connecting? && s.phase.next == j <= |s.phase.ids| == |s.exchanges| - first
    && (forall i :: 0 <= i < |s.phase.ids| ==> s.phase.ids[i] == first + i)
    && (forall e :: first <= e < first + j ==> Came(s.exchanges[e], Up(s.mode, e - first, reachable)))
    && (forall e :: first + j <= e < |s.exchanges| ==> Waits(s.exchanges[e], e == first + j && dialling))
    && (s.phase.channels > 0 <==> exists i :: 0 <= i < j && Up(s.mode, i, reachable))
  }

  lemma StartKinds(s: State, first: nat, j: nat, dialling: bool, reachable: set<nat>)
    requires Inv(s) && Got(s, first, j, dialling, reachable)
    ensures forall e :: first <= e < |s.exchanges| ==> s.exchanges[e].kind == s.mode && s.exchanges[e].gen == Newest(s)
    ensures s.gens != [] && !s.gens[Newest(s)].cancelled
  {
    forall e | first <= e < |s.exchanges|
      ensures s.exchanges[e].kind == s.mode && s.exchanges[e].gen == Newest(s)
    {
      assert s.phase.ids[e - first] == e && s.phase.ids[e - first] in s.phase.ids;
      assert OwnIds(s, s.phase.ids) && ExchangeInv(s, e);
    }
  }

  /** The newest generation runs, or not. */
  function Finished(gens: seq<Generation>, running: bool): seq<Generation>
    requires gens != []
  {
    gens[|gens| - 1 := gens[|gens| - 1].(running := running)]
  }

  /** How a start ends. */
  lemma StartOutcome(live: nat, s: State, first: nat, reachable: set<nat>)
    requires Inv(s) && Got(s, first, Made(live, s.mode), false, reachable) && |s.phase.ids| == Made(live, s.mode)
    ensures s.phase.channels == 0 <==> s.mode.LiveMode? && forall i :: 0 <= i < live ==> i !in reachable
    ensures Enabled(s, Finish)
    ensures Apply(live, s, Finish)
            == if s.phase.channels == 0 then s.(phase := Unlocked)
               else s.(active := s.phase.ids, gens := Finished(s.gens, true), phase := Unlocked)
    ensures s.gens == Finished(s.gens, false)
  {
    StartKinds(s, first, Made(live, s.mode), false, reachable);
    assert s.mode.TestMode? ==> Up(s.mode, 0, reachable);
    assert s.mode.LiveMode? ==> forall i: nat :: Up(s.mode, i, reachable) <==> i in reachable;
  }

  /** What a start leaves of its exchanges. */
  lemma StartLeaves(live: nat, s: State, first: nat, reachable: set<nat>, e: nat)
    requires Inv(s) && Got(s, first, Made(live, s.mode), false, reachable) && |s.phase.ids| == Made(live, s.mode)
    requires first <= e < |s.exchanges|
    ensures var x := s.exchanges[e];
            && x.kind == s.mode && x.gen == Newest(s)
            && (x.connected <==> s.mode.LiveMode? && (e - first) in reachable)
            && (x.watched <==> Up(s.mode, e - first, reachable))
  {
    StartKinds(s, first, Made(live, s.mode), false, reachable);
    assert Came(s.exchanges[e], Up(s.mode, e - first, reachable));
  }

  lemma GotStart(live: nat, s: State, reachable: set<nat>)
    requires Inv(s) && s.phase.Making?
    ensures Got(Apply(live, s, NewGeneration), |s.exchanges|, 0, false, reachable)
  {}

  lemma GotDial(live: nat, s: State, first: nat, j: nat, reachable: set<nat>)
    requires Inv(s) && Got(s, first, j, false, reachable) && j < |s.phase.ids|
    ensures Enabled(s, Dial) && Got(Apply(live, s, Dial), first, j, true, reachable)
    ensures var x := s.exchanges[first + j];
            && x.mutex.Free? && x.gen < |s.gens| && !s.gens[x.gen].cancelled
            && Apply(live, s, Dial) == SetExchange(s, first + j, x.(mutex := Dialing(false, false)))
  {
    StartKinds(s, first, j, false, reachable);
    assert s.phase.ids[j] == first + j;
    assert Waits(s.exchanges[first + j], false);
  }

  lemma GotDialed(live: nat, s: State, first: nat, j: nat, reachable: set<nat>)
    requires Inv(s) && Got(s, first, j, true, reachable) && j < |s.phase.ids|
    ensures var x, ok := s.exchanges[first + j], Up(s.mode, j, reachable);
            && x.mutex == Dialing(false, false) && !x.watched && !x.connected && x.kind == s.mode && x.gen < |s.gens|
            && Enabled(s, Dialed(ok)) && Got(Apply(live, s, Dialed(ok)), first, j + 1, false, reachable)
            && Apply(live, s, Dialed(ok))
               == SetExchange(s, first + j, Connected(x, ok)).(
                    phase := Connecting(s.phase.ids, j + 1, s.phase.channels + (if ok then 1 else 0)))
  {
    StartKinds(s, first, j, true, reachable);
    assert s.phase.ids[j] == first + j;
    assert Waits(s.exchanges[first + j], true) && ExchangeInv(s, first + j);
    var ok := Up(s.mode, j, reachable);
    assert Up(s.mode, j, reachable) ==> exists i :: 0 <= i < j + 1 && Up(s.mode, i, reachable);
  }

  lemma GotReconnects(s: State, t: State, first: nat, j: nat, dialling: bool, reachable: set<nat>)
    requires Inv(t) && Got(s, first, j, dialling, reachable) && SameButReconnects(s, t)
    ensures Got(t, first, j, dialling, reachable)
  {
    forall e | first <= e < first + j ensures Came(t.exchanges[e], Up(t.mode, e - first, reachable)) {
      assert SameButReconnected(s.exchanges[e], t.exchanges[e]);
      assert Came(s.exchanges[e], Up(s.mode, e - first, reachable));
      assert ExchangeInv(t, e);
    }
    forall e | first + j <= e < |t.exchanges| ensures Waits(t.exchanges[e], e == first + j && dialling) {
      assert SameButReconnected(s.exchanges[e], t.exchanges[e]) && Waits(s.exchanges[e], e == first + j && dialling);
    }
  }

  // ---------- Runs without reconnects ----------

  lemma {:induction false} Joined(live: nat, s: State, xs: seq<Action>, ys: seq<Action>)
    requires IsRun(live, s, xs) && IsRun(live, Exec(live, s, xs), ys)
    ensures IsRun(live, s, xs + ys) && Exec(live, s, xs + ys) == Exec(live, Exec(live, s, xs), ys)
    decreases |xs|
  {
    if xs == [] {
      assert xs + ys == ys;
    } else {
      assert (xs + ys)[1..] == xs[1..] + ys;
      Joined(live, Apply(live, s, xs[0]), xs[1..], ys);
    }
  }

  lemma Then(live: nat, s: State, a: Action, rest: seq<Action>)
    requires Enabled(s, a) && IsRun(live, Apply(live, s, a), rest)
    ensures IsRun(live, s, [a] + rest) && Exec(live, s, [a] + rest) == Exec(live, Apply(live, s, a), rest)
  {
    assert ([a] + rest)[1..] == rest;
  }

  /** No exchange is being dialled. */
  predicate Quiet(s: State) {
    forall e :: 0 <= e < |s.exchanges| ==> s.exchanges[e].mutex.Free?
  }

  /** The newest generation has a pipeline. */
  predicate Running(s: State) {
    s.gens != [] && s.gens[Newest(s)].running
  }

  lemma {:induction false} DialRest(live: nat, s: State, first: nat, j: nat, reachable: set<nat>)
    returns (run: seq<Action>)
    requires Inv(s) && Quiet(s) && Got(s, first, j, false, reachable)
    ensures IsRun(live, s, run)
    ensures var t := Exec(live, s, run);
            && Inv(t) && Quiet(t) && t.mode == s.mode && |t.gens| == |s.gens| && t.phase.Connecting?
            && t.phase.ids == s.phase.ids && Got(t, first, |s.phase.ids|, false, reachable)
    decreases |s.phase.ids| - j
  {
    run := [];
    if j < |s.phase.ids| {
      GotDial(live, s, first, j, reachable);
      var s1 := Apply(live, s, Dial);
      InvStep(live, s, Dial);
      GotDialed(live, s1, first, j, reachable);
      var ok := Up(s1.mode, j, reachable);
      InvStep(live, s1, Dialed(ok));
      run := DialRest(live, Apply(live, s1, Dialed(ok)), first, j + 1, reachable);
      Then(live, s1, Dialed(ok), run);
      Then(live, s, Dial, [Dialed(ok)] + run);
      run := [Dial] + ([Dialed(ok)] + run);
    }
  }

  /** A start that reaches the given exchanges. */
  lemma StartRun(live: nat, s: State, reachable: set<nat>) returns (run: seq<Action>)
    requires Inv(s) && Quiet(s) && s.phase.Making?
    ensures IsRun(live, s, run)
    ensures var t := Exec(live, s, run);
            && Inv(t) && Quiet(t) && t.phase.Unlocked? && t.mode == s.mode
            && (Running(t) <==> s.mode.TestMode? || exists i :: 0 <= i < live && i in reachable)
  {
    var first := |s.exchanges|;
    GotStart(live, s, reachable);
    InvStep(live, s, NewGeneration);
    var s1 := Apply(live, s, NewGeneration);
    var dials := DialRest(live, s1, first, 0, reachable);
    var s2 := Exec(live, s1, dials);
    StartOutcome(live, s2, first, reachable);
    InvStep(live, s2, Finish);
    Then(live, s2, Finish, []);
    Joined(live, s1, dials, [Finish] + []);
    Then(live, s, NewGeneration, dials + ([Finish] + []));
    run := [NewGeneration] + (dials + ([Finish] + []));
  }

  lemma {:induction false} CloseRest(live: nat, s: State) returns (run: seq<Action>)
    requires Inv(s) && Quiet(s) && s.phase.Closing?
    ensures IsRun(live, s, run)
    ensures var t := Exec(live, s, run); Inv(t) && Quiet(t) && t.phase == Closing(s.phase.target, [])
    decreases |s.phase.rest|
  {
    run := [];
    if s.phase.rest != [] {
      assert s.phase.rest[0] in s.phase.rest;
      InvStep(live, s, CloseNext);
      run := CloseRest(live, Apply(live, s, CloseNext));
      Then(live, s, CloseNext, run);
      run := [CloseNext] + run;
    }
  }

  /** A switch whose start reaches the given exchanges. */
  lemma SwitchRun(live: nat, s: State, target: Mode, reachable: set<nat>) returns (run: seq<Action>)
    requires Inv(s) && Quiet(s) && s.phase.Unlocked? && target != s.mode
    ensures run != [] && run[0] == Lock(target) && IsRun(live, s, run)
    ensures var t := Exec(live, s, run);
            && Inv(t) && Quiet(t) && t.phase.Unlocked? && t.mode == target
            && (Running(t) <==> target.TestMode? || exists i :: 0 <= i < live && i in reachable)
  {
    InvStep(live, s, Lock(target));
    var s1 := Apply(live, s, Lock(target));
    InvStep(live, s1, CancelOld);
    var s2 := Apply(live, s1, CancelOld);
    var closes := CloseRest(live, s2);
    var s3 := Exec(live, s2, closes);
    InvStep(live, s3, SetMode);
    var start := StartRun(live, Apply(live, s3, SetMode), reachable);
    Then(live, s3, SetMode, start);
    Joined(live, s2, closes, [SetMode] + start);
    Then(live, s1, CancelOld, closes + ([SetMode] + start));
    Then(live, s, Lock(target), [CancelOld] + (closes + ([SetMode] + start)));
    run := [Lock(target)] + ([CancelOld] + (closes + ([SetMode] + start)));
  }

  /**
   A switch can fail: the application starts with an exchange connected, switches to the test mode and, when no exchange
   can be reached any more, back, which leaves the live mode set without a pipeline.
   */
  lemma SwitchCanFail(live: nat) returns (good: seq<Action>, failed: seq<Action>)
    requires live >= 1
    ensures IsRun(live, Init(), good) && IsRun(live, Exec(live, Init(), good), failed)
    ensures var s := Exec(live, Init(), good); s.phase.Unlocked? && s.mode.TestMode? && Running(s)
    ensures failed != [] && failed[0] == Lock(LiveMode)
    ensures var t := Exec(live, Exec(live, Init(), good), failed);
            Inv(t) && t.phase.Unlocked? && t.mode.LiveMode? && !Running(t)
  {
    InvInit();
    var start := StartRun(live, Init(), {0});
    var s := Exec(live, Init(), start);
    var away := SwitchRun(live, s, TestMode, {});
    Joined(live, Init(), start, away);
    good := start + away;
    failed := SwitchRun(live, Exec(live, s, away), LiveMode, {});
  }
}
