/**
 Mode switching as a step system. Each start of data processing makes a generation with its own context.
 While a switch holds the application lock, reconnect goroutines of this and earlier generations go on
 dialling. A dial whose context is cancelled when it starts fails; one overtaken by a cancellation may succeed.
 */
module Generations {
  datatype Mode = LiveMode | TestMode

  /** The mutex of an exchange, held by Connect for the whole dial; `dead` if the context was cancelled at its start. */
  datatype Mutex = Free | Dialing(dead: bool, reconnect: bool)

  /**
   An exchange: `connected` when its conn is not nil, `watched` once ReadPrices has been called and an error
   goroutine may reconnect it, `closed` once Close has returned. A test generator never has a conn.
   */
  datatype Exchange = Exchange(gen: nat, kind: Mode, connected: bool, mutex: Mutex, watched: bool, closed: bool)

  /** A generation: its context, and whether its fan-in and pool were started. */
  datatype Generation = Generation(kind: Mode, cancelled: bool, running: bool)

  /** Where the goroutine that holds the application lock is. */
  datatype Phase =
    | Unlocked
    | Locked(target: Mode)
    | Closing(target: Mode, rest: seq<nat>)
    | Making
    | Connecting(ids: seq<nat>, next: nat, channels: nat)

  datatype State = State(mode: Mode, gens: seq<Generation>, exchanges: seq<Exchange>, active: seq<nat>, phase: Phase)

  datatype Action =
    | Lock(target: Mode)
    | CancelOld
    | CloseNext
    | SetMode
    | NewGeneration
    | Dial
    | Dialed(ok: bool)
    | Finish
    | ReconnectDial(e: nat)
    | ReconnectDialed(e: nat, ok: bool)

  /** The newest generation, whose cancel function the application holds. */
  function Newest(s: State): int {
    |s.gens| - 1
  }

  /** How many exchanges a start in the given mode makes; `live` of them are enabled in the configuration. */
  function Made(live: nat, mode: Mode): nat {
    if mode.LiveMode? then live else 1
  }

  function Fresh(gen: nat, kind: Mode): Exchange {
    Exchange(gen, kind, false, Free, false, false)
  }

  /** Before the first start: as if an earlier generation without exchanges had been cancelled. */
  function Init(): State {
    State(LiveMode, [Generation(LiveMode, true, false)], [], [], Making)
  }

  /** The exchange the start is connecting. */
  predicate AtExchange(s: State) {
    s.phase.Connecting? && s.phase.next < |s.phase.ids| && s.phase.ids[s.phase.next] < |s.exchanges|
  }

  function Current(s: State): Exchange
    requires AtExchange(s)
  {
    s.exchanges[s.phase.ids[s.phase.next]]
  }

  predicate Enabled(s: State, a: Action) {
    s.gens != [] &&
    match a
    case Lock(target) => s.phase.Unlocked?
    case CancelOld => s.phase.Locked?
    case CloseNext =>
      && s.phase.Closing? && s.phase.rest != [] && s.phase.rest[0] < |s.exchanges|
      && s.exchanges[s.phase.rest[0]].mutex.Free?
    case SetMode => s.phase.Closing? && s.phase.rest == []
    case NewGeneration => s.phase.Making?
    case Dial => AtExchange(s) && Current(s).mutex.Free? && Current(s).gen < |s.gens|
    case Dialed(ok) =>
      && AtExchange(s) && Current(s).mutex.Dialing? && !Current(s).mutex.reconnect
      && (if Current(s).kind.TestMode? then ok else ok ==> !Current(s).mutex.dead)
    case Finish => s.phase.Connecting? && s.phase.next >= |s.phase.ids|
    case ReconnectDial(e) =>
      && e < |s.exchanges| && s.exchanges[e].watched && s.exchanges[e].kind.LiveMode? && s.exchanges[e].mutex.Free?
      && s.exchanges[e].gen < |s.gens|
    case ReconnectDialed(e, ok) =>
      && e < |s.exchanges| && s.exchanges[e].mutex.Dialing? && s.exchanges[e].mutex.reconnect
      && (ok ==> !s.exchanges[e].mutex.dead)
  }

  function SetExchange(s: State, e: nat, x: Exchange): State
    requires e < |s.exchanges|
  {
    s.(exchanges := s.exchanges[e := x])
  }

  /** Close waits for the mutex, drops the conn and leaves the exchange to its cancelled context. */
  function Close(x: Exchange): Exchange {
    x.(connected := false, closed := true)
  }

  /** Connect has returned; on success ReadPrices follows and the error goroutine starts watching. */
  function Connected(x: Exchange, ok: bool): Exchange {
    if ok then x.(connected := x.kind.LiveMode?, mutex := Free, watched := true) else x.(mutex := Free)
  }

  /** A failed dial leaves an earlier conn in place. */
  function Reconnected(x: Exchange, ok: bool): Exchange {
    x.(connected := ok || x.connected, mutex := Free)
  }

  function Apply(live: nat, s: State, a: Action): State
    requires Enabled(s, a)
  {
    match a
    case Lock(target) => if target == s.mode then s else s.(phase := Locked(target))
    case CancelOld =>
      var g := Newest(s);
      s.(gens := s.gens[g := s.gens[g].(cancelled := true)], phase := Closing(s.phase.target, s.active))
    case CloseNext =>
      var e := s.phase.rest[0];
      SetExchange(s, e, Close(s.exchanges[e])).(phase := Closing(s.phase.target, s.phase.rest[1..]))
    case SetMode => s.(active := [], mode := s.phase.target, phase := Making)
    case NewGeneration =>
      var g, n, made := |s.gens|, |s.exchanges|, Made(live, s.mode);
      s.(gens := s.gens + [Generation(s.mode, false, false)],
         exchanges := s.exchanges + seq(made, i => Fresh(g, s.mode)),
         phase := Connecting(seq(made, i => n + i), 0, 0))
    case Dial =>
      var x := Current(s);
      SetExchange(s, s.phase.ids[s.phase.next], x.(mutex := Dialing(s.gens[x.gen].cancelled, false)))
    case Dialed(ok) =>
      SetExchange(s, s.phase.ids[s.phase.next], Connected(Current(s), ok)).(
        phase := Connecting(s.phase.ids, s.phase.next + 1, s.phase.channels + (if ok then 1 else 0)))
    case Finish =>
      // without a connected exchange the start fails, and the new mode stays without a pipeline
      if s.phase.channels == 0 then s.(phase := Unlocked)
      else
        var g := Newest(s);
        s.(active := s.phase.ids, gens := s.gens[g := s.gens[g].(running := true)], phase := Unlocked)
    case ReconnectDial(e) =>
      var x := s.exchanges[e];
      SetExchange(s, e, x.(mutex := Dialing(s.gens[x.gen].cancelled, true)))
    case ReconnectDialed(e, ok) => SetExchange(s, e, Reconnected(s.exchanges[e], ok))
  }

  predicate IsRun(live: nat, s: State, run: seq<Action>)
    decreases |run|
  {
    run == [] || (Enabled(s, run[0]) && IsRun(live, Apply(live, s, run[0]), run[1..]))
  }

  function Exec(live: nat, s: State, run: seq<Action>): State
    requires IsRun(live, s, run)
    decreases |run|
  {
    if run == [] then s else Exec(live, Apply(live, s, run[0]), run[1..])
  }

  // ---------- Invariant ----------

  /** What holds of one exchange, whatever the lock holder is doing. */
  predicate ExchangeInv(s: State, e: nat)
    requires e < |s.exchanges|
  {
    var x := s.exchanges[e];
    && x.gen < |s.gens|
    && x.kind == s.gens[x.gen].kind
    && (x.closed ==> s.gens[x.gen].cancelled && !x.connected && (x.mutex.Dialing? ==> x.mutex.dead))
    && (!x.watched ==> !x.connected)
    && (x.kind.TestMode? ==> !x.connected && (x.mutex.Dialing? ==> !x.mutex.reconnect))
    && (x.mutex.Dialing? ==> (x.watched <==> x.mutex.reconnect))
    && (!x.watched && x.mutex.Dialing? ==> AtExchange(s) && s.phase.ids[s.phase.next] == e)
    && (x.gen < Newest(s) ==> x.closed || !x.watched)
    && (x.gen == Newest(s) ==>
          match s.phase
          case Unlocked => x.watched ==> e in s.active
          case Locked(target) => x.watched ==> e in s.active
          case Closing(target, rest) => x.watched && !x.closed ==> e in rest
          case Making => x.closed || !x.watched
          case Connecting(ids, next, channels) =>
            !x.closed && next <= |ids| && e in ids && (x.watched ==> channels > 0 && e in ids[..next]))
  }

  ghost predicate Inv(s: State) {
    && s.gens != []
    && (forall g :: 0 <= g < Newest(s) ==> s.gens[g].cancelled)
    && (s.phase.Closing? || s.phase.Making? ==> s.gens[Newest(s)].cancelled)
    && (s.phase.Unlocked? || s.phase.Locked? || s.phase.Connecting? ==>
          s.gens[Newest(s)].kind == s.mode && !s.gens[Newest(s)].cancelled)
    && (s.phase.Connecting? ==> s.active == [] && !s.gens[Newest(s)].running && StartInv(s, s.phase.ids, s.phase.next))
    && (s.phase.Making? ==> s.active == [])
    && (s.phase.Unlocked? || s.phase.Locked? ==> OwnIds(s, s.active))
    && (s.phase.Closing? ==> OwnIds(s, s.phase.rest))
    && (forall e :: 0 <= e < |s.exchanges| ==> ExchangeInv(s, e))
  }

  /** The ids name exchanges of the newest generation. */
  predicate OwnIds(s: State, ids: seq<nat>) {
    forall e :: e in ids ==> e < |s.exchanges| && s.exchanges[e].gen == Newest(s)
  }

  predicate StartInv(s: State, ids: seq<nat>, next: nat) {
    next <= |ids| && OwnIds(s, ids) && forall i, j :: 0 <= i < j < |ids| ==> ids[i] != ids[j]
  }

  lemma InvInit()
    ensures Inv(Init())
  {}

  /** Steps that touch one exchange's mutex. */
  predicate Dials(a: Action) {
    a.Dial? || a.Dialed? || a.ReconnectDial? || a.ReconnectDialed?
  }

  lemma DialStep(live: nat, s: State, a: Action, e: nat)
    requires Inv(s) && Enabled(s, a) && Dials(a) && e < |s.exchanges|
    ensures ExchangeInv(Apply(live, s, a), e)
  {
    assert ExchangeInv(s, e);
    if a.Dialed? {
      var ids, next := s.phase.ids, s.phase.next;
      assert ids[..next + 1] == ids[..next] + [ids[next]];
    }
  }

  lemma ExchangeStep(live: nat, s: State, a: Action, e: nat)
    requires Inv(s) && Enabled(s, a) && !Dials(a) && e < |Apply(live, s, a).exchanges|
    ensures ExchangeInv(Apply(live, s, a), e)
  {
    if e < |s.exchanges| {
      assert ExchangeInv(s, e);
    } else {
      assert Apply(live, s, a).phase.ids[e - |s.exchanges|] == e;
    }
    match a
    case CloseNext => assert s.phase.rest == [s.phase.rest[0]] + s.phase.rest[1..];
    case Finish => assert s.phase.ids[..s.phase.next] == s.phase.ids;
    case _ =>
  }

  lemma InvStep(live: nat, s: State, a: Action)
    requires Inv(s) && Enabled(s, a)
    ensures Inv(Apply(live, s, a))
  {
    var t := Apply(live, s, a);
    forall e | 0 <= e < |t.exchanges| ensures ExchangeInv(t, e) {
      if Dials(a) {
        DialStep(live, s, a, e);
      } else {
        ExchangeStep(live, s, a, e);
      }
    }
    if a.CloseNext? {
      forall e | e in s.phase.rest[1..] ensures e < |s.exchanges| && s.exchanges[e].gen == Newest(s) {
        assert e in s.phase.rest;
      }
    }
  }

  lemma {:induction false} InvRun(live: nat, s: State, run: seq<Action>)
    requires Inv(s) && IsRun(live, s, run)
    ensures Inv(Exec(live, s, run)) && |Exec(live, s, run).gens| >= |s.gens|
    decreases |run|
  {
    if run != [] {
      InvStep(live, s, run[0]);
      InvRun(live, Apply(live, s, run[0]), run[1..]);
    }
  }

  // ---------- Main results ----------

  /**
   Whenever the application lock is free, only the newest generation can have a running pipeline whose context
   is not cancelled, its sources are of the kind the current mode demands, and those are the exchanges that
   the next switch will close.
   */
  lemma GenerationSafety(live: nat, run: seq<Action>)
    requires IsRun(live, Init(), run) && Exec(live, Init(), run).phase.Unlocked?
    ensures var s := Exec(live, Init(), run);
            && (forall g :: 0 <= g < |s.gens| && s.gens[g].running && !s.gens[g].cancelled ==>
                  g == Newest(s) && s.gens[g].kind == s.mode)
            && (forall e :: e in s.active ==>
                  e < |s.exchanges| && s.exchanges[e].gen == Newest(s) && s.exchanges[e].kind == s.mode)
            && (forall e :: 0 <= e < |s.exchanges| && s.exchanges[e].connected ==> e in s.active)
  {
    InvInit();
    InvRun(live, Init(), run);
    var s := Exec(live, Init(), run);
    forall e | e in s.active
      ensures e < |s.exchanges| && s.exchanges[e].gen == Newest(s) && s.exchanges[e].kind == s.mode
    {
      assert OwnIds(s, s.active);
      assert ExchangeInv(s, e);
    }
    forall e | 0 <= e < |s.exchanges| && s.exchanges[e].connected
      ensures e in s.active
    {
      assert ExchangeInv(s, e);
    }
  }

  /**
   An exchange of an earlier generation has no conn, and never gets one again, whatever reconnects and
   switches follow.
   */
  lemma OldExchangesStayClosed(live: nat, run: seq<Action>, more: seq<Action>, e: nat)
    requires IsRun(live, Init(), run) && IsRun(live, Exec(live, Init(), run), more)
    requires var s := Exec(live, Init(), run); e < |s.exchanges| && s.exchanges[e].gen < Newest(s)
    ensures var t := Exec(live, Exec(live, Init(), run), more);
            e < |t.exchanges| && !t.exchanges[e].connected
  {
    InvInit();
    InvRun(live, Init(), run);
    OldStays(live, Exec(live, Init(), run), more, e);
  }

  lemma {:induction false} OldStays(live: nat, s: State, run: seq<Action>, e: nat)
    requires Inv(s) && IsRun(live, s, run) && e < |s.exchanges| && s.exchanges[e].gen < Newest(s)
    ensures var t := Exec(live, s, run); e < |t.exchanges| && !t.exchanges[e].connected
    decreases |run|
  {
    assert ExchangeInv(s, e);
    if run != [] {
      InvStep(live, s, run[0]);
      OldStays(live, Apply(live, s, run[0]), run[1..], e);
    }
  }

  /** A run whose requests all ask for the mode that is already set. */
  predicate OnlyAsksFor(run: seq<Action>, mode: Mode) {
    forall i :: 0 <= i < |run| && run[i].Lock? ==> run[i].target == mode
  }

  /**
   A switch whose start fails leaves its mode set: asking for that mode again does nothing, and no pipeline
   runs until the other mode is asked for.
   */
  lemma {:induction false} FailedStartIsSticky(live: nat, s: State, run: seq<Action>)
    requires Inv(s) && s.phase.Unlocked? && !s.gens[Newest(s)].running
    requires IsRun(live, s, run) && OnlyAsksFor(run, s.mode)
    ensures var t := Exec(live, s, run);
            && t.phase.Unlocked? && t.mode == s.mode && t.gens == s.gens
            && (forall g :: 0 <= g < |t.gens| && t.gens[g].running ==> t.gens[g].cancelled)
    decreases |run|
  {
    if run != [] {
      InvStep(live, s, run[0]);
      assert OnlyAsksFor(run[1..], s.mode);
      FailedStartIsSticky(live, Apply(live, s, run[0]), run[1..]);
    }
  }
}
