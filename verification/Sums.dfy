/** Sums of a weight over a sequence, how the reference, permit and power counts are tallied, and a fact about +. */
module Sums {
  function Sum<T>(f: T -> nat, xs: seq<T>): nat {
    if xs == [] then 0 else f(xs[0]) + Sum(f, xs[1..])
  }

  lemma {:induction false} SumUpdate<T>(f: T -> nat, xs: seq<T>, i: nat, x: T)
    requires i < |xs|
    ensures Sum(f, xs[i := x]) + f(xs[i]) == Sum(f, xs) + f(x)
  {
    if i == 0 {
      assert xs[i := x][1..] == xs[1..];
    } else {
      assert xs[i := x][1..] == xs[1..][i - 1 := x];
      SumUpdate(f, xs[1..], i - 1, x);
    }
  }

  lemma {:induction false} SumAppend<T>(f: T -> nat, xs: seq<T>, x: T)
    ensures Sum(f, xs + [x]) == Sum(f, xs) + f(x)
  {
    if xs == [] {
      assert xs + [x] == [x];
    } else {
      assert (xs + [x])[1..] == xs[1..] + [x];
      SumAppend(f, xs[1..], x);
    }
  }

  /** One element's weight, and that of two different ones, is part of the total. */
  lemma {:induction false} SumAtLeast<T>(f: T -> nat, xs: seq<T>, i: nat)
    requires i < |xs|
    ensures f(xs[i]) <= Sum(f, xs)
  {
    if i > 0 {
      SumAtLeast(f, xs[1..], i - 1);
    }
  }

  lemma {:induction false} SumAtLeastTwo<T>(f: T -> nat, xs: seq<T>, i: nat, j: nat)
    requires i < j < |xs|
    ensures f(xs[i]) + f(xs[j]) <= Sum(f, xs)
  {
    if i == 0 {
      SumAtLeast(f, xs[1..], j - 1);
    } else {
      SumAtLeastTwo(f, xs[1..], i - 1, j - 1);
    }
  }

  /** A positive total has a contributor. */
  lemma {:induction false} SumWitness<T>(f: T -> nat, xs: seq<T>) returns (i: nat)
    requires Sum(f, xs) > 0
    ensures i < |xs| && f(xs[i]) > 0
  {
    if f(xs[0]) > 0 {
      i := 0;
    } else {
      i := SumWitness(f, xs[1..]);
      i := i + 1;
    }
  }

  lemma {:induction false} SumZero<T>(f: T -> nat, xs: seq<T>)
    requires forall i :: 0 <= i < |xs| ==> f(xs[i]) == 0
    ensures Sum(f, xs) == 0
  {
    if xs != [] {
      forall i | 0 <= i < |xs[1..]| ensures f(xs[1..][i]) == 0 {
        assert xs[1..][i] == xs[i + 1];
      }
      SumZero(f, xs[1..]);
    }
  }

  lemma Regroup<T>(a: seq<T>, b: seq<T>, c: seq<T>)
    ensures a + (b + c) == a + b + c
  {
  }
}
