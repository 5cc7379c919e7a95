/** Totals over sequences of records, and how one updated record changes them. */
module Ledger {

  ghost function Sum<T>(xs: seq<T>, f: T -> int): int {
    if xs == [] then 0 else f(xs[0]) + Sum(xs[1..], f)
  }

  ghost function Union<T, U>(xs: seq<T>, g: T -> multiset<U>): multiset<U> {
    if xs == [] then multiset{} else g(xs[0]) + Union(xs[1..], g)
  }

  lemma {:induction false} SumUpdate<T>(xs: seq<T>, i: nat, x: T, f: T -> int)
    requires i < |xs|
    ensures Sum(xs[i := x], f) == Sum(xs, f) - f(xs[i]) + f(x)
  {
    if i > 0 {
      assert xs[i := x][1..] == xs[1..][i - 1 := x];
      SumUpdate(xs[1..], i - 1, x, f);
    } else {
      assert xs[i := x][1..] == xs[1..];
    }
  }

  lemma {:induction false} UnionUpdate<T, U>(xs: seq<T>, i: nat, x: T, g: T -> multiset<U>)
    requires i < |xs|
    ensures g(xs[i]) <= Union(xs, g)
    ensures Union(xs[i := x], g) == Union(xs, g) - g(xs[i]) + g(x)
  {
    if i > 0 {
      assert xs[i := x][1..] == xs[1..][i - 1 := x];
      UnionUpdate(xs[1..], i - 1, x, g);
    } else {
      assert xs[i := x][1..] == xs[1..];
    }
  }

  lemma {:induction false} SumBounds<T(!new)>(xs: seq<T>, f: T -> int)
    requires forall x :: f(x) >= 0
    ensures Sum(xs, f) >= 0
    ensures forall i :: 0 <= i < |xs| ==> f(xs[i]) <= Sum(xs, f)
    ensures forall i, j :: 0 <= i < j < |xs| ==> f(xs[i]) + f(xs[j]) <= Sum(xs, f)
  {
    if xs != [] {
      SumBounds(xs[1..], f);
      forall i, j | 0 <= i < j < |xs| ensures f(xs[i]) + f(xs[j]) <= Sum(xs, f) {
        assert xs[1..][j - 1] == xs[j];
        if i > 0 { assert xs[1..][i - 1] == xs[i]; }
      }
      forall i | 0 <= i < |xs| ensures f(xs[i]) <= Sum(xs, f) {
        if i > 0 { assert xs[1..][i - 1] == xs[i]; }
      }
    }
  }

  lemma {:induction false} SumAppend<T>(xs: seq<T>, x: T, f: T -> int)
    ensures Sum(xs + [x], f) == Sum(xs, f) + f(x)
  {
    if xs == [] {
      assert xs + [x] == [x];
    } else {
      assert (xs + [x])[1..] == xs[1..] + [x];
      SumAppend(xs[1..], x, f);
    }
  }

  lemma {:induction false} UnionAppend<T, U>(xs: seq<T>, x: T, g: T -> multiset<U>)
    ensures Union(xs + [x], g) == Union(xs, g) + g(x)
  {
    if xs == [] {
      assert xs + [x] == [x];
    } else {
      assert (xs + [x])[1..] == xs[1..] + [x];
      UnionAppend(xs[1..], x, g);
    }
  }

  /** A positive total has a positive term. */
  lemma {:induction false} SumWitness<T>(xs: seq<T>, f: T -> int) returns (i: nat)
    requires Sum(xs, f) > 0
    ensures i < |xs| && f(xs[i]) > 0
  {
    if f(xs[0]) > 0 {
      i := 0;
    } else {
      i := SumWitness(xs[1..], f);
      i := i + 1;
    }
  }

  /** A sum of sizes is the size of the union. */
  lemma {:induction false} UnionSize<T, U>(xs: seq<T>, g: T -> multiset<U>, f: T -> int)
    requires forall i :: 0 <= i < |xs| ==> f(xs[i]) == |g(xs[i])|
    ensures Sum(xs, f) == |Union(xs, g)|
  {
    if xs != [] {
      forall i | 0 <= i < |xs[1..]| ensures f(xs[1..][i]) == |g(xs[1..][i])| {
        assert xs[1..][i] == xs[i + 1];
      }
      UnionSize(xs[1..], g, f);
    }
  }

  /** Whatever is in the union is in one of its parts. */
  lemma {:induction false} UnionWitness<T, U>(xs: seq<T>, g: T -> multiset<U>, u: U) returns (i: nat)
    requires u in Union(xs, g)
    ensures i < |xs| && u in g(xs[i])
  {
    if u in g(xs[0]) {
      i := 0;
    } else {
      i := UnionWitness(xs[1..], g, u);
      i := i + 1;
    }
  }
}
