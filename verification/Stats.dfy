/** Average, minimum and maximum of a list of prices. */
module Stats {
  import opened Model
  import opened Sums

  function Total(ps: seq<Update>): real {
    if ps == [] then 0.0 else Total(ps[..|ps| - 1]) + ps[|ps| - 1].price
  }

  function Mean(ps: seq<Update>): real
    requires ps != []
  {
    Total(ps) / |ps| as real
  }

  lemma MeanOfOne(u: Update)
    ensures Mean([u]) == u.price && Lowest([u]) == u.price && Highest([u]) == u.price
  {
    assert [u][..0] == [];
    assert Total([u]) == 0.0 + u.price;
    assert Total([u]) / 1.0 == u.price;
  }

  function Lowest(ps: seq<Update>): real
    requires ps != []
  {
    var last := ps[|ps| - 1].price;
    if |ps| == 1 || last < Lowest(ps[..|ps| - 1]) then last else Lowest(ps[..|ps| - 1])
  }

  function Highest(ps: seq<Update>): real
    requires ps != []
  {
    var last := ps[|ps| - 1].price;
    if |ps| == 1 || last > Highest(ps[..|ps| - 1]) then last else Highest(ps[..|ps| - 1])
  }

  /** `n` such shares make up the total. */
  predicate IsShare(share: real, n: nat, total: real) {
    share * n as real == total
  }

  lemma DivisionShares(total: real, n: nat)
    requires n > 0
    ensures IsShare(total / n as real, n, total)
  {}

  /** One pass over the prices, with the accumulators of the source; no prices give three zeros. */
  method ComputeStats(prices: seq<Update>) returns (average: real, min: real, max: real)
    ensures prices == [] ==> average == min == max == 0.0
    ensures prices != [] ==> average == Mean(prices) && min == Lowest(prices) && max == Highest(prices)
    ensures IsShare(average, |prices|, Total(prices))
    ensures forall p :: p in prices ==> min <= p.price <= max
  {
    if |prices| == 0 {
      return 0.0, 0.0, 0.0;
    }
    min, max := prices[0].price, prices[0].price;
    var sum := 0.0;
    var i := 0;
    while i < |prices|
      invariant 0 <= i <= |prices|
      invariant sum == Total(prices[..i])
      invariant i == 0 ==> min == max == prices[0].price
      invariant i > 0 ==> min == Lowest(prices[..i]) && max == Highest(prices[..i])
    {
      var p := prices[i];
      assert prices[..i + 1][..i] == prices[..i];
      if p.price < min {
        min := p.price;
      }
      if p.price > max {
        max := p.price;
      }
      sum := sum + p.price;
      i := i + 1;
    }
    assert prices[..i] == prices;
    average := sum / |prices| as real;
    DivisionShares(sum, |prices|);
    Extremes(prices);
  }

  /** The mean of `n` prices is their sum divided by `n`; and the sum is what adding them up one by one gives. */
  lemma MeanIsAverage(ps: seq<Update>)
    requires ps != []
    ensures Mean(ps) * |ps| as real == Total(ps)
  {
    DivisionShares(Total(ps), |ps|);
  }

  lemma TotalAdds(ps: seq<Update>, p: Update)
    ensures Total([]) == 0.0 && Total([p]) == p.price && Total(ps + [p]) == Total(ps) + p.price
  {
    assert (ps + [p])[..|ps|] == ps && [p][..0] == [];
  }

  /** The minimum and maximum bound every price and are prices themselves. */
  lemma {:induction false} Extremes(ps: seq<Update>)
    requires ps != []
    ensures forall i :: 0 <= i < |ps| ==> Lowest(ps) <= ps[i].price <= Highest(ps)
    ensures exists i :: 0 <= i < |ps| && ps[i].price == Lowest(ps)
    ensures exists i :: 0 <= i < |ps| && ps[i].price == Highest(ps)
  {
    var n := |ps| - 1;
    if n == 0 {
      assert ps[0].price == Lowest(ps) == Highest(ps);
    } else {
      Extremes(ps[..n]);
      var lo :| 0 <= lo < n && ps[..n][lo].price == Lowest(ps[..n]);
      var hi :| 0 <= hi < n && ps[..n][hi].price == Highest(ps[..n]);
      assert ps[if Lowest(ps) == ps[n].price then n else lo].price == Lowest(ps);
      assert ps[if Highest(ps) == ps[n].price then n else hi].price == Highest(ps);
      forall i | 0 <= i < |ps| ensures Lowest(ps) <= ps[i].price <= Highest(ps) {
        if i < n { assert ps[..n][i] == ps[i]; }
      }
    }
  }

  lemma {:induction false} TotalBounds(ps: seq<Update>, lo: real, hi: real)
    requires forall i :: 0 <= i < |ps| ==> lo <= ps[i].price <= hi
    ensures lo * |ps| as real <= Total(ps) <= hi * |ps| as real
  {
    if ps != [] {
      TotalBounds(ps[..|ps| - 1], lo, hi);
    }
  }

  lemma Quotient(total: real, n: real, lo: real, hi: real)
    requires n > 0.0 && lo * n <= total <= hi * n
    ensures lo <= total / n <= hi
  {
    var q := total / n;
    assert q * n == total;
    assert q < lo ==> (lo - q) * n > 0.0;
    assert q > hi ==> (q - hi) * n > 0.0;
  }

  /** The average lies between the minimum and the maximum. */
  lemma MeanBetween(ps: seq<Update>)
    requires ps != []
    ensures Lowest(ps) <= Mean(ps) <= Highest(ps)
  {
    Extremes(ps);
    TotalBounds(ps, Lowest(ps), Highest(ps));
    Quotient(Total(ps), |ps| as real, Lowest(ps), Highest(ps));
  }

  lemma {:induction false} TotalConcat(ps: seq<Update>, qs: seq<Update>)
    ensures Total(ps + qs) == Total(ps) + Total(qs)
  {
    if qs == [] {
      assert ps + qs == ps;
    } else {
      var n := |qs| - 1;
      assert (ps + qs)[..|ps| + n] == ps + qs[..n];
      TotalConcat(ps, qs[..n]);
    }
  }

  lemma {:induction false} TotalShuffle(ps: seq<Update>, qs: seq<Update>)
    requires multiset(ps) == multiset(qs)
    ensures Total(ps) == Total(qs)
  {
    if ps == [] {
      assert |multiset(qs)| == 0;
      assert qs == [];
    } else {
      var n := |ps| - 1;
      var v := ps[n];
      assert v in multiset(qs);
      var i :| 0 <= i < |qs| && qs[i] == v;
      var rest := qs[..i] + qs[i + 1..];
      assert qs == qs[..i] + [v] + qs[i + 1..];
      assert ps == ps[..n] + [v];
      assert multiset(ps[..n]) == multiset(ps) - multiset{v} == multiset(qs) - multiset{v} == multiset(rest);
      TotalShuffle(ps[..n], rest);
      TotalConcat(qs[..i] + [v], qs[i + 1..]);
      TotalConcat(qs[..i], [v]);
      TotalConcat(qs[..i], qs[i + 1..]);
      assert Total([v]) == v.price;
    }
  }

  /** Equal averages, minima and maxima. */
  ghost predicate SameStats(ps: seq<Update>, qs: seq<Update>) {
    ps != [] && qs != [] && Mean(ps) == Mean(qs) && Lowest(ps) == Lowest(qs) && Highest(ps) == Highest(qs)
  }

  lemma SameExtremes(ps: seq<Update>, qs: seq<Update>)
    requires ps != [] && forall u :: u in ps <==> u in qs
    ensures qs != [] && Lowest(ps) == Lowest(qs) && Highest(ps) == Highest(qs)
  {
    assert ps[0] in qs;
    Extremes(ps);
    Extremes(qs);
    var a :| 0 <= a < |ps| && ps[a].price == Lowest(ps);
    var b :| 0 <= b < |qs| && qs[b].price == Lowest(qs);
    var c :| 0 <= c < |ps| && ps[c].price == Highest(ps);
    var d :| 0 <= d < |qs| && qs[d].price == Highest(qs);
    assert ps[a] in qs && qs[b] in ps && ps[c] in qs && qs[d] in ps;
  }

  ghost predicate Shuffle<T>(xs: seq<T>, ys: seq<T>) {
    multiset(xs) == multiset(ys)
  }

  lemma ShuffleFacts(ps: seq<Update>, qs: seq<Update>)
    requires Shuffle(ps, qs)
    ensures Total(ps) == Total(qs) && |ps| == |qs|
    ensures forall u :: u in ps <==> u in qs
  {
    TotalShuffle(ps, qs);
    assert |multiset(ps)| == |multiset(qs)|;
    forall u
      ensures u in ps <==> u in qs
    {
      assert u in ps <==> u in multiset(ps);
    }
  }

  /** `n` times `m`, by repeated addition. */
  function Times(m: real, n: nat): real {
    if n == 0 then 0.0 else Times(m, n - 1) + m
  }

  lemma {:induction false} TimesIsProduct(m: real, n: nat)
    ensures Times(m, n) == m * n as real
  {
    if n > 0 {
      TimesIsProduct(m, n - 1);
      var x := (n - 1) as real;
      assert n as real == x + 1.0;
      assert m * (x + 1.0) == m * x + m;
    }
  }

  lemma {:induction false} TimesAdd(m: real, a: nat, b: nat)
    ensures Times(m, a + b) == Times(m, a) + Times(m, b)
  {
    if b > 0 {
      TimesAdd(m, a, b - 1);
    }
  }

  lemma MeanTimesLength(total: real, n: nat, m: real)
    requires n > 0
    ensures total / n as real == m <==> total == Times(m, n)
  {
    TimesIsProduct(m, n);
  }

  lemma {:induction false} CopiesTotal(copies: seq<seq<Update>>, ps: seq<Update>, m: real)
    requires forall i :: 0 <= i < |copies| ==> Shuffle(copies[i], ps)
    requires Total(ps) == Times(m, |ps|)
    ensures Total(Flatten(copies)) == Times(m, |Flatten(copies)|)
  {
    if copies != [] {
      var first, rest := copies[0], Flatten(copies[1..]);
      CopiesTotal(copies[1..], ps, m);
      TotalConcat(first, rest);
      ShuffleFacts(first, ps);
      TimesAdd(m, |first|, |rest|);
    }
  }

  lemma CopiesMean(copies: seq<seq<Update>>, ps: seq<Update>)
    requires copies != [] && ps != []
    requires forall i :: 0 <= i < |copies| ==> Shuffle(copies[i], ps)
    ensures Flatten(copies) != [] && Mean(Flatten(copies)) == Mean(ps)
  {
    MeanTimesLength(Total(ps), |ps|, Mean(ps));
    CopiesTotal(copies, ps, Mean(ps));
    ShuffleFacts(copies[0], ps);
    assert Flatten(copies) == copies[0] + Flatten(copies[1..]);
    MeanTimesLength(Total(Flatten(copies)), |Flatten(copies)|, Mean(ps));
  }

  /** Reading the same entries several times over, in any order each time, does not change the statistics. */
  lemma CopiesKeepStats(copies: seq<seq<Update>>, ps: seq<Update>)
    requires copies != [] && ps != []
    requires forall i :: 0 <= i < |copies| ==> Shuffle(copies[i], ps)
    ensures SameStats(Flatten(copies), ps)
  {
    var all := Flatten(copies);
    forall u
      ensures u in all <==> u in ps
    {
      FlattenMembers(copies, u);
      if u in all {
        var i :| 0 <= i < |copies| && u in copies[i];
        ShuffleFacts(copies[i], ps);
      }
      if u in ps {
        ShuffleFacts(copies[0], ps);
      }
    }
    SameExtremes(ps, all);
    CopiesMean(copies, ps);
  }
}
