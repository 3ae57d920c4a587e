/** FanOut: dealing one stream to n channels in turn, and merging them again. */
module FanOut {
  import opened Model
  import opened Sums
  import opened Pipeline
  import opened PipelineSafety
  import opened PipelineProgress
  import opened PipelineResults

  /** What each output channel carries after `xs` has been dealt, item `i` going to channel `i % n`. */
  function Deal<T>(xs: seq<T>, n: nat): (outs: seq<seq<T>>)
    requires n >= 1
    ensures |outs| == n
  {
    if xs == [] then seq(n, i => [])
    else
      var last := |xs| - 1;
      var before := Deal(xs[..last], n);
      before[last % n := before[last % n] + [xs[last]]]
  }

  /** The distribution loop; `outs` records what each channel has been sent. */
  method Distribute<T>(input: seq<T>, n: int) returns (outs: seq<seq<T>>)
    ensures outs == Deal(input, AtLeastOne(n))
  {
    var width := if n <= 0 then 1 else n;
    outs := seq(width, i => []);
    var i := 0;
    while i < |input|
      invariant 0 <= i <= |input|
      invariant outs == Deal(input[..i], width)
    {
      outs := outs[i % width := outs[i % width] + [input[i]]];
      assert input[..i + 1][..i] == input[..i];
      i := i + 1;
    }
    assert input[..i] == input;
  }

  lemma MulOrder(a: int, b: int, n: int)
    requires n >= 0 && a * n < b * n
    ensures a < b
  {}

  lemma SmallMultiple(d: int, n: int)
    requires 0 <= d * n < n
    ensures d == 0
  {
    MulOrder(-1, d, n);
    MulOrder(d, 1, n);
  }

  lemma EvenShares(x: int, y: int, a: int, b: int, m: int, n: int)
    requires 0 <= a < n && 0 <= b < n
    requires m <= x * n + a < m + n && m <= y * n + b < m + n
    ensures x <= y + 1
  {
    assert (y + 2) * n == y * n + 2 * n;
    MulOrder(x, y + 2, n);
  }

  /** The next item lands at the end of the only channel that is due. */
  lemma NextPlace(i: nat, len: int, n: nat)
    requires n >= 1 && i <= len * n + i % n < i + n
    ensures len == i / n && len * n + i % n == i
  {
    assert i == (i / n) * n + i % n;
    assert len * n - (i / n) * n == (len - i / n) * n;
    SmallMultiple(len - i / n, n);
  }

  lemma NotDue(i: nat, len: nat, j: nat, n: nat)
    requires j < n && j != i % n
    ensures len * n + j != i
  {
    if len * n + j == i {
      assert i == (i / n) * n + i % n;
      assert (i / n) * n - len * n == (i / n - len) * n;
      if i % n < j {
        SmallMultiple(i / n - len, n);
      } else {
        assert (len - i / n) * n == len * n - (i / n) * n;
        SmallMultiple(len - i / n, n);
      }
    }
  }

  /** The items of `xs` whose index is `j` modulo `n`, in order. */
  predicate IsShare<T(==)>(xs: seq<T>, n: nat, j: nat, out: seq<T>) {
    && |xs| <= |out| * n + j < |xs| + n
    && forall k :: 0 <= k < |out| ==> 0 <= k * n + j < |xs| && out[k] == xs[k * n + j]
  }

  lemma ShareTaken<T>(xs: seq<T>, x: T, n: nat, out: seq<T>)
    requires n >= 1 && IsShare(xs, n, |xs| % n, out)
    ensures IsShare(xs + [x], n, |xs| % n, out + [x])
  {
    NextPlace(|xs|, |out|, n);
    assert |out + [x]| * n == |out| * n + n;
  }

  lemma ShareSkipped<T>(xs: seq<T>, x: T, n: nat, j: nat, out: seq<T>)
    requires j < n && j != |xs| % n && IsShare(xs, n, j, out)
    ensures IsShare(xs + [x], n, j, out)
  {
    NotDue(|xs|, |out|, j, n);
  }

  /** Channel `j` carries exactly the items whose index is `j` modulo `n`, in order. */
  lemma {:induction false} DealtByIndex<T>(xs: seq<T>, n: nat, j: nat)
    requires j < n
    ensures IsShare(xs, n, j, Deal(xs, n)[j])
  {
    if xs != [] {
      var i := |xs| - 1;
      DealtByIndex(xs[..i], n, j);
      assert xs == xs[..i] + [xs[i]];
      var before := Deal(xs[..i], n)[j];
      if j == i % n {
        ShareTaken(xs[..i], xs[i], n, before);
      } else {
        ShareSkipped(xs[..i], xs[i], n, j, before);
      }
    }
  }

  lemma PlaceBelow(i: nat, len: int, n: nat)
    requires n >= 1 && i < len * n + i % n
    ensures 0 <= i / n < len && (i / n) * n + i % n == i
  {
    MulOrder(i / n, len, n);
  }

  /** Reading the channels in turn, one item from each, gives the input back. */
  lemma RoundRobin<T>(xs: seq<T>, n: nat, i: nat)
    requires n >= 1 && i < |xs|
    ensures i / n < |Deal(xs, n)[i % n]| && Deal(xs, n)[i % n][i / n] == xs[i]
  {
    DealtByIndex(xs, n, i % n);
    var out := Deal(xs, n)[i % n];
    PlaceBelow(i, |out|, n);
    assert out[i / n] == xs[(i / n) * n + i % n];
  }

  /** No channel is more than one item ahead of another. */
  lemma Even<T>(xs: seq<T>, n: nat, a: nat, b: nat)
    requires a < n && b < n
    ensures |Deal(xs, n)[a]| <= |Deal(xs, n)[b]| + 1
  {
    DealtByIndex(xs, n, a);
    DealtByIndex(xs, n, b);
    EvenShares(|Deal(xs, n)[a]|, |Deal(xs, n)[b]|, a, b, |xs|, n);
  }

  lemma {:induction false} DealKeepsAll<T>(xs: seq<T>, n: nat, u: T)
    requires n >= 1
    ensures Count(Flatten(Deal(xs, n)), u) == Count(xs, u)
  {
    if xs == [] {
      FlattenNothing(Deal(xs, n));
    } else {
      var last := |xs| - 1;
      DealKeepsAll(xs[..last], n, u);
      FlattenAppend(Deal(xs[..last], n), last % n, xs[last], u);
      CountAppend(xs[..last], xs[last], u);
      assert xs == xs[..last] + [xs[last]];
    }
  }

  /** Dealing a stream out and merging it with FanIn loses and repeats nothing, whatever the interleaving. */
  lemma FanOutThenFanIn(xs: seq<Update>, n: int, workers: int, s: State)
    requires Reachable(Deal(xs, AtLeastOne(n)), workers, s) && !s.cancelled && Final(s)
    ensures multiset(Values(s.fan.merged)) == multiset(xs)
    ensures forall j :: 0 <= j < AtLeastOne(n) ==> From(s.fan.merged, j) == Deal(xs, AtLeastOne(n))[j]
  {
    var inputs := Deal(xs, AtLeastOne(n));
    CompleteRun(inputs, workers, s);
    ReachableInv(inputs, workers, s);
    forall u
      ensures Count(Flatten(inputs), u) == Count(xs, u)
    {
      DealKeepsAll(xs, AtLeastOne(n), u);
    }
    CountsMatch(Flatten(inputs), xs);
    forall j | 0 <= j < AtLeastOne(n)
      ensures From(s.fan.merged, j) == inputs[j]
    {
      assert s.fan.forwarders[j].Finished?;
    }
  }
}
