/** FanOut's goroutine with the readers of its channels, as a step system over unbuffered channels. */
module FanOutSteps {
  import opened Model
  import opened FanOut

  /** Waiting for input, holding an item for the channel that is due, closing the channels in turn, returned. */
  datatype Phase<T> = Ranging | Sending(v: T) | Closing(j: nat) | Done

  /**
   `pending` is what the input will still bring before it is closed, and `taken` what it has brought; `received` is
   what each reader got, and `stopped` says which readers have stopped reading. A send on a closed channel and a
   second close set `panicked`.
   */
  datatype State<T> = State(
    pending: seq<T>, taken: seq<T>, phase: Phase<T>, i: nat,
    received: seq<seq<T>>, closed: seq<bool>, stopped: seq<bool>, panicked: bool)

  datatype Action = Take | EndOfInput | Send | CloseNext | Stop(j: nat)

  function Init<T>(input: seq<T>, n: int): State<T> {
    var m := AtLeastOne(n);
    State(input, [], Ranging, 0, seq(m, k => []), seq(m, k => false), seq(m, k => false), false)
  }

  /** The channel that is due. */
  function Due<T>(s: State<T>): nat
    requires |s.received| > 0
  {
    s.i % |s.received|
  }

  predicate Shaped<T>(s: State<T>) {
    0 < |s.received| == |s.closed| == |s.stopped|
  }

  /** A send waits until the reader of the channel receives. */
  predicate Enabled<T>(s: State<T>, a: Action)
    requires Shaped(s)
  {
    !s.panicked &&
    match a
    case Take => s.phase.Ranging? && s.pending != []
    case EndOfInput => s.phase.Ranging? && s.pending == []
    case Send => s.phase.Sending? && !s.stopped[Due(s)]
    case CloseNext => s.phase.Closing? && s.phase.j < |s.closed|
    case Stop(j) => j < |s.stopped| && !s.stopped[j]
  }

  function Apply<T>(s: State<T>, a: Action): State<T>
    requires Shaped(s) && Enabled(s, a)
  {
    match a
    case Take => s.(pending := s.pending[1..], taken := s.taken + [s.pending[0]], phase := Sending(s.pending[0]))
    case EndOfInput => s.(phase := Closing(0))
    case Send =>
      var k := Due(s);
      if s.closed[k] then s.(panicked := true)
      else s.(received := s.received[k := s.received[k] + [s.phase.v]], i := s.i + 1, phase := Ranging)
    case CloseNext =>
      var j := s.phase.j;
      if s.closed[j] then s.(panicked := true)
      else s.(closed := s.closed[j := true], phase := if j + 1 < |s.closed| then Closing(j + 1) else Done)
    case Stop(j) => s.(stopped := s.stopped[j := true])
  }

  predicate IsRun<T>(s: State<T>, run: seq<Action>)
    requires Shaped(s)
    decreases |run|
  {
    run == [] || (Enabled(s, run[0]) && IsRun(Apply(s, run[0]), run[1..]))
  }

  function Exec<T>(s: State<T>, run: seq<Action>): (t: State<T>)
    requires Shaped(s) && IsRun(s, run)
    decreases |run|
  {
    if run == [] then s else Exec(Apply(s, run[0]), run[1..])
  }

  /** The readers have got what the dealing of all items but the held one gives them; channels close at the end. */
  predicate Inv<T(==)>(input: seq<T>, s: State<T>) {
    && Shaped(s) && !s.panicked
    && s.taken + s.pending == input
    && s.i == |s.taken| - (if s.phase.Sending? then 1 else 0)
    && (s.phase.Sending? ==> s.taken[s.i] == s.phase.v)
    && s.received == Deal(s.taken[..s.i], |s.received|)
    && (s.phase.Closing? || s.phase.Done? ==> s.pending == [])
    && (s.phase.Closing? ==> s.phase.j < |s.closed|)
    && forall k :: 0 <= k < |s.closed| ==>
         (s.closed[k] <==> s.phase.Done? || (s.phase.Closing? && k < s.phase.j))
  }

  lemma InvInit<T>(input: seq<T>, n: int)
    ensures Inv(input, Init(input, n))
  {
    assert [] + input == input;
  }

  lemma InvStep<T>(input: seq<T>, s: State<T>, a: Action)
    requires Inv(input, s) && Enabled(s, a)
    ensures Inv(input, Apply(s, a)) && |Apply(s, a).received| == |s.received|
  {
    match a
    case Take =>
      assert s.pending == [s.pending[0]] + s.pending[1..];
      assert (s.taken + [s.pending[0]])[..s.i] == s.taken[..s.i];
    case Send =>
      assert s.taken[..s.i + 1][..s.i] == s.taken[..s.i];
    case _ =>
  }

  lemma {:induction false} InvRun<T>(input: seq<T>, s: State<T>, run: seq<Action>)
    requires Inv(input, s) && IsRun(s, run)
    ensures Inv(input, Exec(s, run)) && |Exec(s, run).received| == |s.received|
    decreases |run|
  {
    if run != [] {
      InvStep(input, s, run[0]);
      InvRun(input, Apply(s, run[0]), run[1..]);
    }
  }

  /**
   In every run no channel is closed twice or sent on after its close, the readers have got exactly the dealing of
   what was taken except the item in hand, and channels are closed only once all input has been distributed.
   */
  lemma DealtInEveryRun<T>(input: seq<T>, n: int, run: seq<Action>)
    requires IsRun(Init(input, n), run)
    ensures var s, m := Exec(Init(input, n), run), AtLeastOne(n);
            && !s.panicked && s.taken <= input && |s.closed| == m
            && |s.taken| == s.i + (if s.phase.Sending? then 1 else 0)
            && s.received == Deal(s.taken[..s.i], m)
            && (forall k :: 0 <= k < |s.closed| && s.closed[k] ==> s.received == Deal(input, m))
            && (s.phase.Done? ==> s.received == Deal(input, m) && forall k :: 0 <= k < m ==> s.closed[k])
            && Shaped(s)
            && (Enabled(s, Send) ==> !s.closed[Due(s)])
            && (Enabled(s, CloseNext) ==> !s.closed[s.phase.j])
  {
    InvInit(input, n);
    InvRun(input, Init(input, n), run);
    var s := Exec(Init(input, n), run);
    assert s.taken[..|s.taken|] == s.taken;
    assert s.taken + [] == s.taken;
  }

  /** Something other than a reader's giving up can happen. */
  ghost predicate CanMove<T>(s: State<T>)
    requires Shaped(s)
  {
    exists a: Action :: !a.Stop? && Enabled(s, a)
  }

  /** The goroutine is stuck for good exactly when it has returned, or the reader whose turn it is has stopped. */
  lemma StuckExactly<T>(input: seq<T>, n: int, run: seq<Action>)
    requires IsRun(Init(input, n), run)
    ensures var s := Exec(Init(input, n), run);
            Shaped(s) && (!CanMove(s) <==> s.phase.Done? || (s.phase.Sending? && s.stopped[Due(s)]))
  {
    InvInit(input, n);
    InvRun(input, Init(input, n), run);
    var s := Exec(Init(input, n), run);
    match s.phase
    case Ranging => assert if s.pending != [] then Enabled(s, Take) else Enabled(s, EndOfInput);
    case Sending(v) => assert !s.stopped[Due(s)] ==> Enabled(s, Send);
    case Closing(j) => assert Enabled(s, CloseNext);
    case Done =>
  }
}
