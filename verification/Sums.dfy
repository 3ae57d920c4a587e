/** Counting occurrences, and sums over components of which one takes a step. */
module Sums {
  import opened Model

  function SumInt<T>(f: T -> int, xs: seq<T>): int {
    if xs == [] then 0 else f(xs[0]) + SumInt(f, xs[1..])
  }

  lemma {:induction false} SumIntUpdate<T>(f: T -> int, xs: seq<T>, i: nat, x: T)
    requires i < |xs|
    ensures SumInt(f, xs[i := x]) == SumInt(f, xs) - f(xs[i]) + f(x)
  {
    if i == 0 {
      assert xs[0 := x][1..] == xs[1..];
    } else {
      assert xs[i := x][1..] == xs[1..][i - 1 := x];
      SumIntUpdate(f, xs[1..], i - 1, x);
    }
  }

  /** A sum of counters that are never negative vanishes exactly when every counter does. */
  lemma {:induction false} SumIntZero<T>(f: T -> int, xs: seq<T>)
    requires forall i :: 0 <= i < |xs| ==> f(xs[i]) >= 0
    ensures SumInt(f, xs) >= 0
    ensures SumInt(f, xs) == 0 <==> forall i :: 0 <= i < |xs| ==> f(xs[i]) == 0
  {
    if xs != [] {
      SumIntZero(f, xs[1..]);
      if SumInt(f, xs) == 0 {
        forall i | 0 <= i < |xs| ensures f(xs[i]) == 0 {
          if i > 0 { assert xs[i] == xs[1..][i - 1]; }
        }
      }
    }
  }

  lemma {:induction false} SumIntConcat<T>(f: T -> int, xs: seq<T>, ys: seq<T>)
    ensures SumInt(f, xs + ys) == SumInt(f, xs) + SumInt(f, ys)
  {
    if xs == [] {
      assert xs + ys == ys;
    } else {
      assert (xs + ys)[1..] == xs[1..] + ys;
      SumIntConcat(f, xs[1..], ys);
    }
  }

  /** One when `x` is `u`. */
  function Is<T(==)>(u: T): T -> int {
    x => if x == u then 1 else 0
  }

  /** How often `u` occurs in `xs`. */
  function Count<T(==)>(xs: seq<T>, u: T): int {
    SumInt(Is(u), xs)
  }

  lemma CountAppend<T>(xs: seq<T>, v: T, u: T)
    ensures Count(xs + [v], u) == Count(xs, u) + (if u == v then 1 else 0)
  {
    SumIntConcat(Is(u), xs, [v]);
    assert [v][1..] == [];
  }

  lemma {:induction false} CountIsMultiplicity<T>(xs: seq<T>, u: T)
    ensures Count(xs, u) == multiset(xs)[u]
  {
    if xs != [] {
      CountIsMultiplicity(xs[1..], u);
      assert xs == [xs[0]] + xs[1..];
    }
  }

  lemma CountConcat<T>(xs: seq<T>, ys: seq<T>, u: T)
    ensures Count(xs + ys, u) == Count(xs, u) + Count(ys, u)
  {
    SumIntConcat(Is(u), xs, ys);
  }

  /** Sequences with equal counts are permutations of each other. */
  lemma CountsMatch<T>(xs: seq<T>, ys: seq<T>)
    requires forall u :: Count(xs, u) == Count(ys, u)
    ensures multiset(xs) == multiset(ys) && |xs| == |ys|
  {
    forall u: T
      ensures multiset(xs)[u] == multiset(ys)[u]
    {
      CountIsMultiplicity(xs, u);
      CountIsMultiplicity(ys, u);
    }
    assert multiset(xs) == multiset(ys);
    assert |multiset(xs)| == |xs| && |multiset(ys)| == |ys|;
  }

  /** What the components `xs` hold, each at most one item, listed in order. */
  function HeldBy<T, U>(slot: T -> Option<U>, xs: seq<T>): (held: seq<U>)
    ensures |held| <= |xs|
  {
    if xs == [] then []
    else (if slot(xs[0]).Some? then [slot(xs[0]).value] else []) + HeldBy(slot, xs[1..])
  }

  /** One when the slot holds `u`. */
  function Holds<T, U(==)>(slot: T -> Option<U>, u: U): T -> int {
    x => if slot(x) == Some(u) then 1 else 0
  }

  lemma {:induction false} HeldByCount<T, U>(slot: T -> Option<U>, xs: seq<T>, u: U)
    ensures Count(HeldBy(slot, xs), u) == SumInt(Holds(slot, u), xs)
  {
    if xs != [] {
      HeldByCount(slot, xs[1..], u);
      var first := if slot(xs[0]).Some? then [slot(xs[0]).value] else [];
      SumIntConcat(Is(u), first, HeldBy(slot, xs[1..]));
      assert first != [] ==> first[1..] == [];
    }
  }

  lemma HeldByUpdate<T, U>(slot: T -> Option<U>, xs: seq<T>, i: nat, x: T, u: U)
    requires i < |xs|
    ensures Count(HeldBy(slot, xs[i := x]), u)
         == Count(HeldBy(slot, xs), u)
            - (if slot(xs[i]) == Some(u) then 1 else 0) + (if slot(x) == Some(u) then 1 else 0)
  {
    HeldByCount(slot, xs, u);
    HeldByCount(slot, xs[i := x], u);
    SumIntUpdate(Holds(slot, u), xs, i, x);
  }

  lemma {:induction false} HeldByNone<T, U>(slot: T -> Option<U>, xs: seq<T>)
    requires forall i :: 0 <= i < |xs| ==> slot(xs[i]).None?
    ensures HeldBy(slot, xs) == []
  {
    if xs != [] {
      HeldByNone(slot, xs[1..]);
    }
  }

  function Flatten<U>(xss: seq<seq<U>>): seq<U> {
    if xss == [] then [] else xss[0] + Flatten(xss[1..])
  }

  lemma {:induction false} FlattenNothing<U>(xss: seq<seq<U>>)
    requires forall i :: 0 <= i < |xss| ==> xss[i] == []
    ensures Flatten(xss) == []
  {
    if xss != [] {
      FlattenNothing(xss[1..]);
    }
  }

  lemma {:induction false} FlattenSnoc<U>(xss: seq<seq<U>>, xs: seq<U>)
    ensures Flatten(xss + [xs]) == Flatten(xss) + xs
  {
    if xss == [] {
      assert Flatten([xs]) == xs + Flatten([xs][1..]);
    } else {
      assert (xss + [xs])[1..] == xss[1..] + [xs];
      FlattenSnoc(xss[1..], xs);
    }
  }

  lemma {:induction false} FlattenMembers<U>(xss: seq<seq<U>>, u: U)
    ensures u in Flatten(xss) <==> exists i :: 0 <= i < |xss| && u in xss[i]
  {
    if xss != [] {
      FlattenMembers(xss[1..], u);
      if i :| 0 <= i < |xss| && u in xss[i] {
        assert i > 0 ==> u in xss[1..][i - 1];
      }
      if u in Flatten(xss[1..]) {
        var i :| 0 <= i < |xss[1..]| && u in xss[1..][i];
        assert u in xss[i + 1];
      }
    }
  }

  /** Appending to one of several sequences adds one occurrence to their flattening. */
  lemma {:induction false} FlattenAppend<U>(xss: seq<seq<U>>, i: nat, v: U, u: U)
    requires i < |xss|
    ensures Count(Flatten(xss[i := xss[i] + [v]]), u) == Count(Flatten(xss), u) + (if u == v then 1 else 0)
  {
    var yss := xss[i := xss[i] + [v]];
    SumIntConcat(Is(u), xss[0], Flatten(xss[1..]));
    SumIntConcat(Is(u), yss[0], Flatten(yss[1..]));
    if i == 0 {
      CountAppend(xss[0], v, u);
      assert yss[1..] == xss[1..];
    } else {
      assert yss[1..] == xss[1..][i - 1 := xss[i] + [v]];
      FlattenAppend(xss[1..], i - 1, v, u);
    }
  }

  lemma SameMembers<T>(xs: seq<T>, ys: seq<T>)
    requires multiset(xs) == multiset(ys)
    ensures forall x :: x in xs <==> x in ys
  {
    forall x ensures x in xs <==> x in ys {
      assert x in xs <==> x in multiset(xs);
      assert x in ys <==> x in multiset(ys);
    }
  }
}
