/** Sums of a measure over a sequence, and how single updates change them. */
module Sums {

  function Sum<T>(f: T -> nat, xs: seq<T>): nat {
    if xs == [] then 0 else f(xs[0]) + Sum(f, xs[1..])
  }

  lemma {:induction false} SumConcat<T>(f: T -> nat, xs: seq<T>, ys: seq<T>)
    ensures Sum(f, xs + ys) == Sum(f, xs) + Sum(f, ys)
  {
    if xs == [] {
      assert xs + ys == ys;
    } else {
      assert (xs + ys)[1..] == xs[1..] + ys;
      SumConcat(f, xs[1..], ys);
    }
  }

  lemma SumSingle<T>(f: T -> nat, x: T)
    ensures Sum(f, [x]) == f(x)
  {
    assert [x][1..] == [];
  }

  lemma SumAppend<T>(f: T -> nat, xs: seq<T>, x: T)
    ensures Sum(f, xs + [x]) == Sum(f, xs) + f(x)
  {
    SumConcat(f, xs, [x]);
    SumSingle(f, x);
  }

  lemma SumDropLast<T>(f: T -> nat, xs: seq<T>)
    requires xs != []
    ensures Sum(f, xs) == Sum(f, xs[..|xs| - 1]) + f(xs[|xs| - 1])
  {
    assert xs == xs[..|xs| - 1] + [xs[|xs| - 1]];
    SumAppend(f, xs[..|xs| - 1], xs[|xs| - 1]);
  }

  lemma {:induction false} SumUpdate<T>(f: T -> nat, xs: seq<T>, i: nat, x: T)
    requires i < |xs|
    ensures Sum(f, xs[i := x]) == Sum(f, xs) - f(xs[i]) + f(x)
  {
    if i == 0 {
      assert xs[0 := x][1..] == xs[1..];
    } else {
      assert xs[i := x][1..] == xs[1..][i - 1 := x];
      SumUpdate(f, xs[1..], i - 1, x);
    }
  }

  lemma {:induction false} SumBound<T>(f: T -> nat, xs: seq<T>, i: nat)
    requires i < |xs|
    ensures f(xs[i]) <= Sum(f, xs)
  {
    if i > 0 {
      SumBound(f, xs[1..], i - 1);
    }
  }

  lemma {:induction false} SumBoundPair<T>(f: T -> nat, xs: seq<T>, i: nat, j: nat)
    requires i < j < |xs|
    ensures f(xs[i]) + f(xs[j]) <= Sum(f, xs)
  {
    if i == 0 {
      SumBound(f, xs[1..], j - 1);
    } else {
      SumBoundPair(f, xs[1..], i - 1, j - 1);
    }
  }

  lemma SumZero<T>(f: T -> nat, xs: seq<T>)
    requires Sum(f, xs) == 0
    ensures forall i :: 0 <= i < |xs| ==> f(xs[i]) == 0
  {
    forall i | 0 <= i < |xs|
      ensures f(xs[i]) == 0
    {
      SumBound(f, xs, i);
    }
  }

  lemma {:induction false} SumAllZero<T>(f: T -> nat, xs: seq<T>)
    requires forall i :: 0 <= i < |xs| ==> f(xs[i]) == 0
    ensures Sum(f, xs) == 0
  {
    if xs != [] {
      SumAllZero(f, xs[1..]);
    }
  }

  /** A sum of what depends on the position too: the first element is at `from`. */
  function SumAt<T>(f: (nat, T) -> nat, xs: seq<T>, from: nat): nat {
    if xs == [] then 0 else f(from, xs[0]) + SumAt(f, xs[1..], from + 1)
  }

  lemma {:induction false} SumAtUpdate<T>(f: (nat, T) -> nat, xs: seq<T>, from: nat, i: nat, x: T)
    requires i < |xs|
    ensures SumAt(f, xs[i := x], from) == SumAt(f, xs, from) - f(from + i, xs[i]) + f(from + i, x)
  {
    if i == 0 {
      assert xs[0 := x][1..] == xs[1..];
    } else {
      assert xs[i := x][1..] == xs[1..][i - 1 := x];
      SumAtUpdate(f, xs[1..], from + 1, i - 1, x);
    }
  }

  lemma {:induction false} SumAtPlus<T>(f: (nat, T) -> nat, g: (nat, T) -> nat, h: (nat, T) -> nat,
                                        xs: seq<T>, from: nat)
    requires forall i :: 0 <= i < |xs| ==> f(from + i, xs[i]) == g(from + i, xs[i]) + h(from + i, xs[i])
    ensures SumAt(f, xs, from) == SumAt(g, xs, from) + SumAt(h, xs, from)
  {
    if xs != [] {
      assert f(from + 0, xs[0]) == g(from + 0, xs[0]) + h(from + 0, xs[0]);
      forall i | 0 <= i < |xs| - 1
        ensures f(from + 1 + i, xs[1..][i]) == g(from + 1 + i, xs[1..][i]) + h(from + 1 + i, xs[1..][i])
      {
        assert xs[1..][i] == xs[i + 1] && from + 1 + i == from + (i + 1);
      }
      SumAtPlus(f, g, h, xs[1..], from + 1);
    }
  }

  /** Only the element at position `v` counts. */
  lemma {:induction false} SumAtOnly<T>(f: (nat, T) -> nat, xs: seq<T>, from: nat, v: nat)
    requires forall u: nat, x :: u != v ==> f(u, x) == 0
    ensures SumAt(f, xs, from) == if from <= v < from + |xs| then f(v, xs[v - from]) else 0
  {
    if xs != [] {
      SumAtOnly(f, xs[1..], from + 1, v);
    }
  }
}
