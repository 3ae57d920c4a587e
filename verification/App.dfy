/** The application's mode switch over its own fields, with reconnect goroutines running in between. */
module App {
  import opened Model
  import opened Generations
  import opened Starts
  import opened TcpExchange

  /** The first exchange still to be closed is closed, and others may have been reconnected. */
  predicate Stopped(s: State, t: State)
    requires s.phase.Closing? && s.phase.rest != []
  {
    && t == s.(exchanges := t.exchanges, phase := Closing(s.phase.target, s.phase.rest[1..]))
    && |t.exchanges| == |s.exchanges|
    && (forall e :: 0 <= e < |s.exchanges| && s.exchanges[e].closed ==> t.exchanges[e].closed)
    && s.phase.rest[0] < |t.exchanges| && t.exchanges[s.phase.rest[0]].closed
  }

  lemma HeldStays(a: seq<Held>, b: seq<Held>, c: seq<Held>)
    requires |a| <= |b| && SameSources(a, b[..|a|]) && SameSources(b, c)
    ensures SameSources(a, c[..|a|])
  {
    forall e | 0 <= e < |a| ensures c[e].source == a[e].source && c[e].gen == a[e].gen {
      assert b[..|a|][e] == b[e];
    }
  }

  /** A source of prices. The test generator always connects and has nothing that could be reconnected. */
  datatype Source = Tcp(x: TCPExchange) | TestGenerator

  /** What goroutines still hold: a source, its generation, and whether errors of it are watched for. */
  datatype Held = Held(source: Source, gen: nat, watched: bool)

  function NewlyHeld(list: seq<Source>, gen: nat): seq<Held> {
    seq(|list|, i requires 0 <= i < |list| => Held(list[i], gen, false))
  }

  /** The same sources, perhaps more of them watched. */
  predicate SameSources(a: seq<Held>, b: seq<Held>) {
    |a| == |b| && forall e :: 0 <= e < |a| ==> b[e].source == a[e].source && b[e].gen == a[e].gen
  }

  /** A source that has just been made. */
  predicate Unused(source: Source)
    reads if source.Tcp? then {source.x} else {}
  {
    source.Tcp? ==>
      source.x.Valid() && source.x.mutex.Free? && source.x.conn == None && source.x.readers == []
  }

  /** The exchange of the step system that the source stands for; whatever reads it does so under the given context. */
  predicate StandsFor(h: Held, y: Exchange, ctx: Context)
    reads if h.source.Tcp? then {h.source.x} else {}
  {
    && h.gen == y.gen && h.watched == y.watched
    && match h.source
       case TestGenerator => y.kind.TestMode? && !y.connected
       case Tcp(x) =>
         && y.kind.LiveMode? && x.Valid() && (x.conn.Some? <==> y.connected) && x.mutex == y.mutex
         && (forall r :: 0 <= r < |x.readers| ==> x.readers[r] == ctx) && (h.watched ==> x.readers != [])
  }

  /** The exchange is read, and every reader it ever had derives its context from the given one. */
  predicate ReadUnder(x: TCPExchange, ctx: Context)
    reads x
  {
    x.readers != [] && forall r :: 0 <= r < |x.readers| ==> x.readers[r] == ctx
  }

  class App {
    /** The number of enabled exchanges in the configuration. */
    const live: nat

    var mode: Mode
    var cancel: Context
    var exchanges: seq<Source>

    /** The context of each generation, and every source made so far. */
    var ctxs: seq<Context>
    var held: seq<Held>

    /** The state of the step system that the fields stand for. */
    ghost var s: State
    ghost var Repr: set<object>

    /** The objects belong to the application, and no two sources or generations share one. */
    ghost predicate Separate()
      reads this
    {
      && this in Repr
      && (forall g :: 0 <= g < |ctxs| ==> ctxs[g] in Repr)
      && (forall g, h :: 0 <= g < h < |ctxs| ==> ctxs[g] != ctxs[h])
      && (forall e :: 0 <= e < |held| && held[e].source.Tcp? ==> held[e].source.x in Repr)
      && (forall e, f :: 0 <= e < f < |held| && held[e].source.Tcp? ==> held[e].source != held[f].source)
    }

    /** The fields stand for the state. */
    ghost predicate Tied(t: State)
      reads this, Repr
    {
      && Separate()
      && mode == t.mode
      && |ctxs| == |t.gens| && (forall g :: 0 <= g < |ctxs| ==> ctxs[g].cancelled == t.gens[g].cancelled)
      && (!t.phase.Making? && ctxs != [] ==> cancel == ctxs[|ctxs| - 1])
      && |held| == |t.exchanges|
      && (forall e :: 0 <= e < |held| ==>
            held[e].gen < |ctxs| && StandsFor(held[e], t.exchanges[e], ctxs[held[e].gen]))
      && |exchanges| == |t.active|
      && forall i :: 0 <= i < |exchanges| ==> t.active[i] < |held| && exchanges[i] == held[t.active[i]].source
    }

    ghost predicate Valid()
      reads this, Repr
    {
      Tied(s) && Inv(s)
    }

    /** `run` leads from `from` to the present state. */
    ghost predicate At(from: State, run: seq<Action>)
      reads this, Repr
    {
      Valid() && IsRun(live, from, run) && Exec(live, from, run) == s
    }

    /** The context of the first generation is there, and its sources are still to be made. */
    constructor (live: nat)
      ensures Valid() && fresh(Repr) && this.live == live && s == Init()
      ensures cancel !in Repr && fresh(cancel) && !cancel.cancelled
    {
      var before := new Context();
      before.Cancel();
      var first := new Context();
      this.live, mode, exchanges, held := live, LiveMode, [], [];
      cancel, ctxs := first, [before];
      s, Repr := Init(), {this, before};
      InvInit();
    }

    /** The fields have followed a step of the system. */
    ghost method Follow(a: Action, from: State, run: seq<Action>) returns (longer: seq<Action>)
      requires Inv(s) && Enabled(s, a) && IsRun(live, from, run) && Exec(live, from, run) == s
      requires Tied(Apply(live, s, a))
      modifies this`s
      ensures At(from, longer) && s == Apply(live, old(s), a)
    {
      InvStep(live, s, a);
      Snoc(live, from, run, a);
      longer := run + [a];
      s := Apply(live, s, a);
    }

    method StartDial(e: nat, ctx: Context, reconnect: bool)
      requires Tied(s) && e < |held| && held[e].source.Tcp? && held[e].source.x.mutex.Free?
      modifies held[e].source.x`mutex
      ensures Tied(SetExchange(s, e, s.exchanges[e].(mutex := Dialing(ctx.cancelled, reconnect))))
    {
      held[e].source.x.Dial(ctx, reconnect);
    }

    method EndDial(e: nat, reachable: bool) returns (err: bool)
      requires Tied(s) && e < |held| && held[e].source.Tcp? && held[e].source.x.mutex.Dialing?
      modifies held[e].source.x
      ensures err <==> s.exchanges[e].mutex.dead || !reachable
      ensures Tied(SetExchange(s, e, s.exchanges[e].(mutex := Free, connected := !err || s.exchanges[e].connected)))
    {
      err := held[e].source.x.Dialed(reachable);
    }

    /** Reading starts after the mutex has been given up, so that a Close may have come in between. */
    method StartReading(e: nat, ghost t: State)
      requires Tied(t) && e < |held| && held[e].source.Tcp? && held[e].gen < |ctxs|
      modifies held[e].source.x
      ensures Tied(t) && held[e].source.x.readers != []
    {
      var reading, reader, conn := held[e].source.x.ReadPrices(ctxs[held[e].gen]);
    }

    // ---------- Reconnect goroutines ----------

    /** Only reconnects have happened. */
    twostate predicate Interfered()
      reads this
    {
      && mode == old(mode) && cancel == old(cancel) && exchanges == old(exchanges)
      && ctxs == old(ctxs) && held == old(held) && Repr == old(Repr)
      && SameButReconnects(old(s), s)
    }

    method StartReconnect(e: nat, ghost from: State, ghost run: seq<Action>) returns (ghost longer: seq<Action>)
      requires At(from, run) && e < |held| && held[e].watched && held[e].source.Tcp? && held[e].source.x.mutex.Free?
      modifies Repr
      ensures At(from, longer) && Interfered()
      ensures Enabled(old(s), ReconnectDial(e)) && s == Apply(live, old(s), ReconnectDial(e))
    {
      assert ExchangeInv(s, e);
      StartDial(e, ctxs[held[e].gen], true);
      longer := Follow(ReconnectDial(e), from, run);
    }

    method FinishReconnect(e: nat, reachable: bool, ghost from: State, ghost run: seq<Action>)
      returns (ok: bool, ghost longer: seq<Action>)
      requires At(from, run) && e < |held| && held[e].watched && held[e].source.Tcp?
      requires held[e].source.x.mutex.Dialing? && held[e].source.x.mutex.reconnect
      modifies Repr
      ensures At(from, longer) && Interfered() && held[e].source.x.mutex.Free?
      ensures ok <==> reachable && !old(held[e].source.x.mutex.dead)
      ensures Enabled(old(s), ReconnectDialed(e, ok)) && s == Apply(live, old(s), ReconnectDialed(e, ok))
    {
      assert ExchangeInv(s, e);
      var err := EndDial(e, reachable);
      ok := !err;
      longer := Follow(ReconnectDialed(e, ok), from, run);
    }

    /**
     Any number of dials by reconnect goroutines, of any generation, start or end, and any of them may start to read at
     any time.
     */
    method Interfere(ghost from: State, ghost run: seq<Action>) returns (ghost longer: seq<Action>)
      requires At(from, run)
      modifies Repr
      ensures At(from, longer) && Interfered()
    {
      longer := run;
      var steps: nat :| true;
      for i := 0 to steps
        invariant At(from, longer) && Interfered()
      {
        var starts: bool, reachable: bool := *, *;
        var e: nat :| true;
        if e < |held| && held[e].watched && held[e].source.Tcp? {
          var mutex := held[e].source.x.mutex;
          if starts {
            assert ExchangeInv(s, e);
            StartReading(e, s);
          } else if mutex.Free? {
            longer := StartReconnect(e, from, longer);
          } else if mutex.reconnect {
            var ok;
            ok, longer := FinishReconnect(e, reachable, from, longer);
          }
        }
      }
    }

    // ---------- Stopping a generation ----------

    method CancelOldContext(ghost from: State, ghost run: seq<Action>) returns (ghost longer: seq<Action>)
      requires At(from, run) && s.phase.Locked?
      modifies Repr
      ensures At(from, longer) && s == Apply(live, old(s), CancelOld) && cancel.cancelled
      ensures mode == old(mode) && cancel == old(cancel) && exchanges == old(exchanges)
      ensures ctxs == old(ctxs) && held == old(held) && Repr == old(Repr)
    {
      cancel.Cancel();
      longer := Follow(CancelOld, from, run);
    }

    /** The index under which the source is held. */
    method IndexOf(i: nat) returns (e: nat)
      requires Tied(s) && i < |exchanges| && exchanges[i].Tcp?
      ensures e == s.active[i] && e < |held| && held[e].source == exchanges[i]
    {
      e :| e < |held| && held[e].source == exchanges[i];
    }

    /** Close blocks while a reconnect goroutine holds the exchange's mutex. */
    method AwaitMutex(e: nat, ghost from: State, ghost run: seq<Action>) returns (ghost longer: seq<Action>)
      requires At(from, run) && s.phase.Closing? && e < |held| && held[e].source.Tcp?
      modifies Repr
      ensures At(from, longer) && Interfered() && held[e].source.x.mutex.Free?
    {
      longer := run;
      if held[e].source.x.mutex.Dialing? {
        assert ExchangeInv(s, e);
        var reachable: bool := *;
        var ok;
        ok, longer := FinishReconnect(e, reachable, from, longer);
      }
    }

    /** An error of closing is ignored. */
    method CloseSource(e: nat)
      requires Tied(s) && e < |held| && held[e].source.Tcp? && held[e].source.x.mutex.Free?
      modifies held[e].source.x
      ensures Tied(SetExchange(s, e, Generations.Close(s.exchanges[e])))
    {
      var fails: bool := *;
      var err := held[e].source.x.Close(fails);
    }

    /** The fields that stopping a generation leaves alone until the end. */
    twostate predicate SameFields()
      reads this
    {
      && mode == old(mode) && cancel == old(cancel) && exchanges == old(exchanges)
      && ctxs == old(ctxs) && held == old(held) && Repr == old(Repr)
    }

    method CloseTcp(e: nat, ghost from: State, ghost run: seq<Action>) returns (ghost longer: seq<Action>)
      requires At(from, run) && s.phase.Closing? && s.phase.rest != [] && e == s.phase.rest[0]
      requires e < |held| && held[e].source.Tcp?
      modifies Repr
      ensures At(from, longer) && SameFields() && Stopped(old(s), s)
    {
      longer := AwaitMutex(e, from, run);
      CloseSource(e);
      longer := Follow(CloseNext, from, longer);
    }

    method CloseGenerator(ghost from: State, ghost run: seq<Action>) returns (ghost longer: seq<Action>)
      requires At(from, run) && s.phase.Closing? && s.phase.rest != []
      requires s.phase.rest[0] < |held| && held[s.phase.rest[0]].source.TestGenerator?
      modifies Repr
      ensures At(from, longer) && SameFields() && Stopped(old(s), s)
    {
      assert ExchangeInv(s, s.phase.rest[0]);
      longer := Follow(CloseNext, from, run);
    }

    /** The first `i` exchanges are closed and the others are still to be closed. */
    ghost predicate ClosedTo(i: nat, t: State)
      reads this
    {
      && t.phase.Closing? && i <= |s.active| && s.phase == Closing(t.phase.target, s.active[i..])
      && s.active == t.active && s.gens == t.gens && |s.exchanges| == |t.exchanges|
      && forall j :: 0 <= j < i ==> s.active[j] < |s.exchanges| && s.exchanges[s.active[j]].closed
    }

    method CloseNextSource(i: nat, ghost t: State, ghost from: State, ghost run: seq<Action>)
      returns (ghost longer: seq<Action>)
      requires At(from, run) && ClosedTo(i, t) && i < |exchanges|
      modifies Repr
      ensures At(from, longer) && SameFields() && ClosedTo(i + 1, t)
    {
      if exchanges[i].Tcp? {
        var e := IndexOf(i);
        longer := CloseTcp(e, from, run);
      } else {
        longer := CloseGenerator(from, run);
      }
    }

    /** Every exchange of the generation is closed, while reconnects go on. */
    method CloseAll(ghost from: State, ghost run: seq<Action>) returns (ghost longer: seq<Action>)
      requires At(from, run) && s.phase.Closing? && s.phase.rest == s.active
      modifies Repr
      ensures At(from, longer) && SameFields() && ClosedTo(|exchanges|, old(s))
    {
      longer := run;
      var i := 0;
      while i < |exchanges|
        invariant 0 <= i <= |exchanges| && At(from, longer) && SameFields() && ClosedTo(i, old(s))
      {
        longer := Interfere(from, longer);
        longer := CloseNextSource(i, old(s), from, longer);
        i := i + 1;
      }
    }

    // ---------- Starting a generation ----------

    /** Earlier sources are still held. */
    twostate predicate StillHeld()
      reads this
    {
      |old(held)| <= |held| && SameSources(old(held), held[..|old(held)|])
    }

    method NewSources() returns (list: seq<Source>)
      ensures |list| == Made(live, mode)
      ensures forall i :: 0 <= i < |list| ==> Unused(list[i]) && (list[i].Tcp? <==> mode.LiveMode?)
      ensures forall i :: 0 <= i < |list| && list[i].Tcp? ==> fresh(list[i].x)
      ensures forall i, j :: 0 <= i < j < |list| ==> list[i] != list[j]
    {
      if mode.TestMode? {
        return [TestGenerator];
      }
      list := [];
      for k := 0 to live
        invariant |list| == k
        invariant forall i :: 0 <= i < k ==> list[i].Tcp? && fresh(list[i].x) && Unused(list[i])
        invariant forall i, j :: 0 <= i < j < k ==> list[i] != list[j]
      {
        var x := new TCPExchange();
        list := list + [Tcp(x)];
      }
    }

    method AdoptContext(ctx: Context)
      requires Tied(s) && s.phase.Making? && ctx !in Repr && !ctx.cancelled
      modifies this`ctxs, this`Repr
      ensures Tied(s.(gens := s.gens + [Generation(mode, false, false)]))
      ensures ctxs == old(ctxs) + [ctx] && Repr == old(Repr) + {ctx}
    {
      ctxs, Repr := ctxs + [ctx], Repr + {ctx};
    }

    method AdoptSources(list: seq<Source>, gen: nat, ghost t: State)
      requires Tied(t) && t.phase.Making? && gen < |ctxs|
      requires |list| == Made(live, mode) && forall i :: 0 <= i < |list| ==> Unused(list[i])
      requires forall i :: 0 <= i < |list| ==>
                 (list[i].Tcp? <==> mode.LiveMode?) && (list[i].Tcp? ==> list[i].x !in Repr)
      requires forall i, j :: 0 <= i < j < |list| && list[i].Tcp? ==> list[i] != list[j]
      modifies this`held, this`Repr
      ensures Tied(t.(exchanges := t.exchanges + seq(Made(live, mode), i => Fresh(gen, t.mode))))
      ensures held == old(held) + NewlyHeld(list, gen)
      ensures Repr == old(Repr) + (set i | 0 <= i < |list| && list[i].Tcp? :: list[i].x)
    {
      var news := NewlyHeld(list, gen);
      held, Repr := held + news, Repr + (set i | 0 <= i < |list| && list[i].Tcp? :: list[i].x);
    }

    /** The new context and the new sources become part of the application. */
    method Adopt(list: seq<Source>, ctx: Context)
      requires Tied(s) && s.phase.Making? && ctx == cancel && ctx !in Repr && !ctx.cancelled
      requires |list| == Made(live, mode) && forall i :: 0 <= i < |list| ==> Unused(list[i])
      requires forall i :: 0 <= i < |list| ==>
                 (list[i].Tcp? <==> mode.LiveMode?) && (list[i].Tcp? ==> list[i].x !in Repr)
      requires forall i, j :: 0 <= i < j < |list| && list[i].Tcp? ==> list[i] != list[j]
      requires Enabled(s, NewGeneration)
      modifies this`ctxs, this`held, this`Repr
      ensures Tied(Apply(live, s, NewGeneration))
      ensures ctxs == old(ctxs) + [ctx] && held == old(held) + NewlyHeld(list, |old(ctxs)|)
      ensures Repr == old(Repr) + {ctx} + (set i | 0 <= i < |list| && list[i].Tcp? :: list[i].x)
    {
      AdoptContext(ctx);
      AdoptSources(list, |ctxs| - 1, s.(gens := s.gens + [Generation(mode, false, false)]));
    }

    /** The sources of the mode, under the given context. */
    method MakeSources(ctx: Context, ghost reachable: set<nat>, ghost from: State, ghost run: seq<Action>)
      returns (list: seq<Source>, ghost longer: seq<Action>)
      requires At(from, run) && s.phase.Making? && ctx == cancel && ctx !in Repr && !ctx.cancelled
      modifies this
      ensures At(from, longer) && fresh(Repr - old(Repr) - {ctx})
      ensures Got(s, |old(held)|, 0, false, reachable) && s.phase.channels == 0
      ensures s.gens == old(s).gens + [Generation(mode, false, false)]
      ensures mode == old(mode) && cancel == old(cancel) && exchanges == old(exchanges)
      ensures ctxs == old(ctxs) + [ctx] && StillHeld()
      ensures |list| == Made(live, mode) && |held| == |old(held)| + |list|
      ensures forall i :: 0 <= i < |list| ==> held[|old(held)| + i].source == list[i]
    {
      GotStart(live, s, reachable);
      list := NewSources();
      Adopt(list, ctx);
      assert held[..|old(held)|] == old(held);
      longer := Follow(NewGeneration, from, run);
    }

    /** The dial of a source begins; there is nothing to dial for the generator. */
    method DialSource(e: nat)
      requires Tied(s) && e < |held| && s.exchanges[e].mutex.Free? && s.exchanges[e].gen < |s.gens|
      requires !s.gens[s.exchanges[e].gen].cancelled
      modifies Repr
      ensures SameFields() && s == old(s)
      ensures Tied(SetExchange(s, e, s.exchanges[e].(mutex := Dialing(false, false))))
    {
      if held[e].source.Tcp? {
        StartDial(e, ctxs[held[e].gen], false);
      } else {
        GeneratorMutex(e, Dialing(false, false));
      }
    }

    /** The generator has no mutex. */
    lemma GeneratorMutex(e: nat, mutex: Mutex)
      requires Tied(s) && e < |held| && held[e].source.TestGenerator?
      ensures Tied(SetExchange(s, e, s.exchanges[e].(mutex := mutex)))
    {}

    method BeginConnect(first: nat, j: nat, ghost reachable: set<nat>, ghost from: State, ghost run: seq<Action>)
      returns (ghost longer: seq<Action>)
      requires At(from, run) && Got(s, first, j, false, reachable) && first + j < |held|
      modifies Repr
      ensures At(from, longer) && SameFields() && Got(s, first, j, true, reachable)
      ensures s.gens == old(s).gens && s.phase == old(s).phase
    {
      GotDial(live, s, first, j, reachable);
      DialSource(first + j);
      longer := Follow(Dial, from, run);
    }

    method Watch(e: nat, ghost t: State, ghost x: Exchange)
      requires e < |held| == |t.exchanges| && Tied(SetExchange(t, e, x))
      requires held[e].source.Tcp? ==> held[e].source.x.readers != []
      modifies this`held
      ensures Tied(SetExchange(t, e, x.(watched := true))) && SameSources(old(held), held)
    {
      held := held[e := held[e].(watched := true)];
    }

    /** The dial ends; after a success, errors of the source are watched for. */
    method EndConnect(e: nat, reachable: bool) returns (ok: bool)
      requires Tied(s) && e < |held| && held[e].gen < |ctxs| && !held[e].watched && !s.exchanges[e].connected
      requires s.exchanges[e].mutex == Dialing(false, false)
      modifies Repr
      ensures s == old(s) && mode == old(mode) && cancel == old(cancel) && exchanges == old(exchanges)
      ensures ctxs == old(ctxs) && Repr == old(Repr) && SameSources(old(held), held)
      ensures ok == (held[e].source.TestGenerator? || reachable)
      ensures Tied(SetExchange(s, e, Connected(s.exchanges[e], ok)))
    {
      ghost var x := s.exchanges[e];
      if held[e].source.Tcp? {
        ok := DialAndRead(e, reachable);
        if ok {
          Watch(e, s, x.(mutex := Free, connected := true));
        }
      } else {
        ok := true;
        GeneratorMutex(e, Free);
        Watch(e, s, x.(mutex := Free));
      }
    }

    method DialAndRead(e: nat, reachable: bool) returns (ok: bool)
      requires Tied(s) && e < |held| && held[e].source.Tcp? && !s.exchanges[e].connected
      requires s.exchanges[e].mutex == Dialing(false, false)
      modifies held[e].source.x
      ensures ok == reachable && (ok ==> held[e].source.x.readers != [])
      ensures Tied(SetExchange(s, e, s.exchanges[e].(mutex := Free, connected := ok)))
    {
      var err := EndDial(e, reachable);
      ok := !err;
      if ok {
        StartReading(e, SetExchange(s, e, s.exchanges[e].(mutex := Free, connected := true)));
      }
    }

    /** The phase matters only while there is no context of the new generation yet. */
    lemma OtherPhase(t: State, phase: Phase)
      requires Tied(t) && !t.phase.Making? && !phase.Making?
      ensures Tied(t.(phase := phase))
    {}

    method DialNext(first: nat, j: nat, ghost reachable: set<nat>, ghost from: State, ghost run: seq<Action>)
      returns (ghost longer: seq<Action>)
      requires At(from, run) && Got(s, first, j, false, reachable) && first + j < |held|
      modifies Repr
      ensures At(from, longer) && SameFields() && Got(s, first, j, true, reachable)
      ensures s.gens == old(s).gens && s.phase == old(s).phase
    {
      longer := BeginConnect(first, j, reachable, from, run);
      ghost var t := s;
      longer := Interfere(from, longer);
      GotReconnects(t, s, first, j, true, reachable);
    }

    method SettleNext(first: nat, j: nat, reachable: set<nat>) returns (ok: bool)
      requires Valid() && Got(s, first, j, true, reachable) && first + j < |held|
      modifies Repr
      ensures s == old(s) && mode == old(mode) && cancel == old(cancel) && exchanges == old(exchanges)
      ensures ctxs == old(ctxs) && Repr == old(Repr) && SameSources(old(held), held)
      ensures Enabled(s, Dialed(ok)) && Tied(Apply(live, s, Dialed(ok)))
      ensures Got(Apply(live, s, Dialed(ok)), first, j + 1, false, reachable)
      ensures Apply(live, s, Dialed(ok)).gens == s.gens
      ensures Apply(live, s, Dialed(ok)).phase.channels == s.phase.channels + (if ok then 1 else 0)
    {
      GotDialed(live, s, first, j, reachable);
      ok := EndConnect(first + j, j in reachable);
      OtherPhase(SetExchange(s, first + j, Connected(s.exchanges[first + j], ok)), Apply(live, s, Dialed(ok)).phase);
    }

    method ConnectNext(first: nat, j: nat, reachable: set<nat>, ghost from: State, ghost run: seq<Action>)
      returns (ok: bool, ghost longer: seq<Action>)
      requires At(from, run) && Got(s, first, j, false, reachable) && first + j < |held|
      modifies Repr
      ensures At(from, longer) && Got(s, first, j + 1, false, reachable) && s.gens == old(s).gens
      ensures s.phase.channels == old(s).phase.channels + (if ok then 1 else 0)
      ensures mode == old(mode) && cancel == old(cancel) && exchanges == old(exchanges)
      ensures ctxs == old(ctxs) && Repr == old(Repr) && SameSources(old(held), held)
    {
      longer := DialNext(first, j, reachable, from, run);
      ok := SettleNext(first, j, reachable);
      longer := Follow(Dialed(ok), from, longer);
    }

    /** All sources of the start are dialled in turn, while reconnects of earlier ones go on. */
    method ConnectAll(first: nat, reachable: set<nat>, ghost from: State, ghost run: seq<Action>)
      returns (channels: nat, ghost longer: seq<Action>)
      requires At(from, run) && first <= |held| && Got(s, first, 0, false, reachable) && s.phase.channels == 0
      modifies Repr
      ensures ctxs == old(ctxs) && Repr == old(Repr) && SameSources(old(held), held)
      ensures At(from, longer) && Got(s, first, |held| - first, false, reachable) && s.gens == old(s).gens
      ensures channels == s.phase.channels
      ensures mode == old(mode) && cancel == old(cancel) && exchanges == old(exchanges)
    {
      longer, channels := run, 0;
      var j := 0;
      while first + j < |held|
        invariant first + j <= |held|
        invariant At(from, longer) && Got(s, first, j, false, reachable) && s.gens == old(s).gens
        invariant channels == s.phase.channels
        invariant mode == old(mode) && cancel == old(cancel) && exchanges == old(exchanges)
        invariant ctxs == old(ctxs) && Repr == old(Repr) && SameSources(old(held), held)
      {
        ghost var t := s;
        longer := Interfere(from, longer);
        GotReconnects(t, s, first, j, false, reachable);
        var ok;
        ok, longer := ConnectNext(first, j, reachable, from, longer);
        channels := if ok then channels + 1 else channels;
        j := j + 1;
      }
    }

    /** The sources that the application uses, connected as far as they could be reached. */
    predicate InUse(reachable: set<nat>)
      reads this, set i | 0 <= i < |exchanges| && exchanges[i].Tcp? :: exchanges[i].x
    {
      && |exchanges| == Made(live, mode)
      && forall i :: 0 <= i < |exchanges| ==>
           (exchanges[i].Tcp? <==> mode.LiveMode?)
           && (exchanges[i].Tcp? ==> (exchanges[i].x.conn.Some? <==> i in reachable))
           && (exchanges[i].Tcp? && i in reachable ==> ReadUnder(exchanges[i].x, cancel))
    }

    lemma NowInUse(first: nat, reachable: set<nat>)
      requires |held| == |s.exchanges| && |ctxs| == |s.gens| > 0 && cancel == ctxs[|ctxs| - 1]
      requires forall e :: first <= e < |held| ==>
                 held[e].gen < |ctxs| && StandsFor(held[e], s.exchanges[e], ctxs[held[e].gen])
      requires first + |exchanges| == |held| && |exchanges| == Made(live, mode) && mode == s.mode
      requires forall i :: 0 <= i < |exchanges| ==> held[first + i].source == exchanges[i]
      requires Inv(s) && Got(s, first, |exchanges|, false, reachable)
      ensures InUse(reachable)
    {
      forall i | 0 <= i < |exchanges|
        ensures exchanges[i].Tcp? <==> mode.LiveMode?
        ensures exchanges[i].Tcp? ==> (exchanges[i].x.conn.Some? <==> i in reachable)
        ensures exchanges[i].Tcp? && i in reachable ==> ReadUnder(exchanges[i].x, cancel)
      {
        StartLeaves(live, s, first, reachable, first + i);
        assert StandsFor(held[first + i], s.exchanges[first + i], ctxs[held[first + i].gen]);
      }
    }

    /** The application takes the sources into use. */
    method TakeIntoUse(first: nat, list: seq<Source>, reachable: set<nat>)
      requires Valid() && first + |list| == |held| && Got(s, first, |list|, false, reachable)
      requires |list| == Made(live, mode) && forall i :: 0 <= i < |list| ==> held[first + i].source == list[i]
      modifies this`exchanges
      ensures s.gens != [] && Tied(s.(active := s.phase.ids, gens := Finished(s.gens, true), phase := Unlocked))
      ensures exchanges == list && InUse(reachable)
    {
      UseSources(first, list);
      NowInUse(first, reachable);
    }

    method UseSources(first: nat, list: seq<Source>)
      requires Tied(s) && s.gens != [] && s.phase.Connecting? && |list| == |s.phase.ids| && first + |list| == |held|
      requires forall i :: 0 <= i < |list| ==> s.phase.ids[i] == first + i && held[first + i].source == list[i]
      modifies this`exchanges
      ensures Tied(s.(active := s.phase.ids, gens := Finished(s.gens, true), phase := Unlocked))
      ensures exchanges == list
    {
      exchanges := list;
    }

    /** Without any channel the start is an error, and the application keeps no source. */
    method FinishStart(first: nat, list: seq<Source>, channels: nat, reachable: set<nat>,
                       ghost from: State, ghost run: seq<Action>)
      returns (err: bool, ghost longer: seq<Action>)
      requires At(from, run) && first + |list| == |held| && Got(s, first, |list|, false, reachable)
      requires |list| == Made(live, mode) && channels == s.phase.channels
      requires forall i :: 0 <= i < |list| ==> held[first + i].source == list[i]
      modifies Repr
      ensures At(from, longer) && s.phase.Unlocked? && s.gens == Finished(old(s).gens, !err)
      ensures err <==> mode.LiveMode? && forall i :: 0 <= i < live ==> i !in reachable
      ensures if err then exchanges == [] else InUse(reachable)
      ensures mode == old(mode) && cancel == old(cancel) && ctxs == old(ctxs) && held == old(held) && Repr == old(Repr)
    {
      StartOutcome(live, s, first, reachable);
      err := channels == 0;
      if err {
        OtherPhase(s, Unlocked);
        longer := Follow(Finish, from, run);
      } else {
        longer := FinishInUse(first, list, reachable, from, run);
      }
    }

    method FinishInUse(first: nat, list: seq<Source>, reachable: set<nat>, ghost from: State, ghost run: seq<Action>)
      returns (ghost longer: seq<Action>)
      requires At(from, run) && first + |list| == |held| && Got(s, first, |list|, false, reachable)
      requires |list| == Made(live, mode) && s.phase.channels > 0
      requires forall i :: 0 <= i < |list| ==> held[first + i].source == list[i]
      modifies Repr
      ensures At(from, longer) && s.phase.Unlocked? && s.gens == Finished(old(s).gens, true) && InUse(reachable)
      ensures mode == old(mode) && cancel == old(cancel) && ctxs == old(ctxs) && held == old(held) && Repr == old(Repr)
    {
      StartOutcome(live, s, first, reachable);
      TakeIntoUse(first, list, reachable);
      longer := Follow(Finish, from, run);
    }

    method MakeAndConnect(ctx: Context, reachable: set<nat>, ghost from: State, ghost run: seq<Action>)
      returns (list: seq<Source>, channels: nat, ghost longer: seq<Action>)
      requires At(from, run) && s.phase.Making? && ctx == cancel && ctx !in Repr && !ctx.cancelled
      modifies Repr, ctx
      ensures At(from, longer) && fresh(Repr - old(Repr) - {ctx})
      ensures mode == old(mode) && cancel == ctx && ctxs == old(ctxs) + [ctx] && StillHeld()
      ensures |old(held)| + |list| == |held| && |list| == Made(live, mode)
      ensures forall i :: 0 <= i < |list| ==> held[|old(held)| + i].source == list[i]
      ensures Got(s, |old(held)|, |list|, false, reachable) && channels == s.phase.channels
      ensures s.gens == old(s).gens + [Generation(mode, false, false)]
    {
      list, longer := MakeSources(ctx, reachable, from, run);
      ghost var made := held;
      channels, longer := ConnectAll(|held| - |list|, reachable, from, longer);
      HeldStays(old(held), made, held);
    }

    /**
     A start makes and connects the sources of the current mode. It is an error exactly when no exchange can be
     reached, and then there is no pipeline; otherwise the sources in use are connected as far as reachable.
     */
    method StartDataProcessing(ctx: Context, reachable: set<nat>, ghost from: State, ghost run: seq<Action>)
      returns (err: bool, ghost longer: seq<Action>)
      requires At(from, run) && s.phase.Making? && ctx == cancel && ctx !in Repr && !ctx.cancelled
      modifies Repr, ctx
      ensures At(from, longer) && s.phase.Unlocked? && fresh(Repr - old(Repr) - {ctx}) && !ctx.cancelled
      ensures mode == old(mode) && cancel == ctx && ctxs == old(ctxs) + [ctx] && StillHeld()
      ensures err <==> mode.LiveMode? && forall i :: 0 <= i < live ==> i !in reachable
      ensures s.gens == old(s).gens + [Generation(mode, false, !err)]
      ensures if err then exchanges == [] else InUse(reachable)
    {
      var first := |held|;
      var list, channels;
      list, channels, longer := MakeAndConnect(ctx, reachable, from, run);
      err, longer := FinishStart(first, list, channels, reachable, from, longer);
    }

    // ---------- Switching ----------

    /** The old context is cancelled and its exchanges are closed. */
    method StopOld(target: Mode, ghost from: State, ghost run: seq<Action>) returns (ghost longer: seq<Action>)
      requires At(from, run) && s.phase.Unlocked? && target != mode
      modifies Repr
      ensures At(from, longer) && SameFields() && s.phase == Closing(target, []) && cancel.cancelled
    {
      longer := Follow(Lock(target), from, run);
      longer := CancelOldContext(from, longer);
      longer := CloseAll(from, longer);
    }

    method SetNewMode(target: Mode, ghost from: State, ghost run: seq<Action>) returns (ghost longer: seq<Action>)
      requires At(from, run) && s.phase == Closing(target, [])
      modifies this
      ensures At(from, longer) && s.phase.Making? && mode == target && exchanges == []
      ensures cancel == old(cancel) && ctxs == old(ctxs) && held == old(held) && Repr == old(Repr)
    {
      exchanges, mode := [], target;
      longer := Follow(SetMode, from, run);
    }

    /** No source of an earlier generation has a connection, and every earlier context is cancelled. */
    predicate OldOnesDown()
      reads this, set g | 0 <= g < |ctxs| :: ctxs[g]
      reads set e | 0 <= e < |held| && held[e].source.Tcp? :: held[e].source.x
    {
      && (forall g :: 0 <= g < |ctxs| - 1 ==> ctxs[g].cancelled)
      && forall e :: 0 <= e < |held| && held[e].gen < |ctxs| - 1 && held[e].source.Tcp? ==>
           held[e].source.x.conn == None
    }

    lemma OldOnesAreDown()
      requires Valid()
      ensures OldOnesDown()
    {
      forall e | 0 <= e < |held| && held[e].gen < |ctxs| - 1 && held[e].source.Tcp?
        ensures held[e].source.x.conn == None
      {
        assert ExchangeInv(s, e) && StandsFor(held[e], s.exchanges[e], ctxs[held[e].gen]);
      }
    }

    /** A new generation under a context of its own. */
    method Restart(reachable: set<nat>, ghost from: State, ghost run: seq<Action>)
      returns (err: bool, ghost longer: seq<Action>)
      requires At(from, run) && s.phase.Making?
      modifies Repr
      ensures At(from, longer) && s.phase.Unlocked? && fresh(Repr - old(Repr)) && mode == old(mode) && StillHeld()
      ensures fresh(cancel) && !cancel.cancelled && ctxs == old(ctxs) + [cancel]
      ensures err <==> mode.LiveMode? && forall i :: 0 <= i < live ==> i !in reachable
      ensures s.gens[Newest(s)] == Generation(mode, false, !err)
      ensures if err then exchanges == [] else InUse(reachable)
    {
      var newCtx := new Context();
      cancel := newCtx;
      longer := Interfere(from, run);
      err, longer := StartDataProcessing(newCtx, reachable, from, longer);
    }

    /** The old generation goes, and one of the given mode takes its place. */
    method Replace(target: Mode, reachable: set<nat>, ghost from: State, ghost run: seq<Action>)
      returns (err: bool, ghost longer: seq<Action>)
      requires At(from, run) && s.phase.Unlocked? && target != mode
      modifies Repr
      ensures At(from, longer) && s.phase.Unlocked? && fresh(Repr - old(Repr)) && mode == target && StillHeld()
      ensures fresh(cancel) && !cancel.cancelled && ctxs == old(ctxs) + [cancel]
      ensures err <==> target.LiveMode? && forall i :: 0 <= i < live ==> i !in reachable
      ensures s.gens[Newest(s)] == Generation(target, false, !err)
      ensures if err then exchanges == [] else InUse(reachable)
      ensures OldOnesDown() && old(cancel).cancelled
    {
      longer := StopOld(target, from, run);
      longer := SetNewMode(target, from, longer);
      err, longer := Restart(reachable, from, longer);
      OldOnesAreDown();
      assert old(cancel) == ctxs[|ctxs| - 2];
    }

    method KeepMode(target: Mode, ghost from: State, ghost run: seq<Action>) returns (ghost longer: seq<Action>)
      requires At(from, run) && s.phase.Unlocked? && target == mode
      modifies Repr
      ensures At(from, longer) && SameFields() && s == old(s) && OldOnesDown()
    {
      longer := Follow(Lock(target), from, run);
      OldOnesAreDown();
    }

    /**
     Switching cancels the old context, closes the old exchanges, sets the mode and starts the new generation.
     Asking for the current mode does nothing. `reachable` are the exchanges whose dial succeeds. Reconnect
     goroutines interfere throughout; `run` shows that the fields follow a run of the step system. There is a pipeline
     afterwards if and only if there was one and nothing was to be done, or the start reached a source.
     */
    method SwitchMode(target: Mode, reachable: set<nat>) returns (err: bool, ghost run: seq<Action>)
      requires Valid() && s.phase.Unlocked?
      modifies Repr
      ensures At(old(s), run) && s.phase.Unlocked? && fresh(Repr - old(Repr)) && mode == target && StillHeld()
      ensures OldOnesDown()
      ensures old(mode) == target ==>
                && !err && s.gens == old(s).gens
                && cancel == old(cancel) && ctxs == old(ctxs) && exchanges == old(exchanges)
      ensures Running(s) <==>
                if old(mode) == target then old(Running(s))
                else target.TestMode? || exists i :: 0 <= i < live && i in reachable
      ensures old(mode) != target ==>
                && old(cancel).cancelled && fresh(cancel) && !cancel.cancelled && ctxs == old(ctxs) + [cancel]
                && (err <==> target.LiveMode? && forall i :: 0 <= i < live ==> i !in reachable)
                && s.gens[Newest(s)] == Generation(target, false, !err)
                && if err then exchanges == [] else InUse(reachable)
    {
      ghost var from := s;
      run := Interfere(from, []);
      if mode == target {
        run := KeepMode(target, from, run);
        err := false;
      } else {
        err, run := Replace(target, reachable, from, run);
      }
    }
  }
}
