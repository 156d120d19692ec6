/** Finite sums over sequences, and the few facts about them that the models need. */
module Sums {

  function Sum<T>(f: T -> int, xs: seq<T>): int {
    if xs == [] then 0 else f(xs[0]) + Sum(f, xs[1..])
  }

  lemma {:induction false} SumUpdate<T>(f: T -> int, xs: seq<T>, i: nat, x: T)
    requires i < |xs|
    ensures Sum(f, xs[i := x]) == Sum(f, xs) - f(xs[i]) + f(x)
  {
    if i == 0 {
      assert xs[i := x][1..] == xs[1..];
    } else {
      assert xs[i := x][1..] == xs[1..][i - 1 := x];
      SumUpdate(f, xs[1..], i - 1, x);
    }
  }

  lemma {:induction false} SumAppend<T>(f: T -> int, xs: seq<T>, x: T)
    ensures Sum(f, xs + [x]) == Sum(f, xs) + f(x)
  {
    if xs == [] {
      assert xs + [x] == [x];
    } else {
      assert (xs + [x])[1..] == xs[1..] + [x];
      SumAppend(f, xs[1..], x);
    }
  }

  /** A sum of non-negative terms is non-negative and at least each of its terms. */
  lemma {:induction false} SumTerm<T(!new)>(f: T -> int, xs: seq<T>)
    requires forall x :: f(x) >= 0
    ensures Sum(f, xs) >= 0
    ensures forall i :: 0 <= i < |xs| ==> f(xs[i]) <= Sum(f, xs)
  {
    if xs != [] {
      SumTerm(f, xs[1..]);
      forall i | 0 <= i < |xs| ensures f(xs[i]) <= Sum(f, xs) {
        if i > 0 {
          assert xs[i] == xs[1..][i - 1];
        }
      }
    }
  }

  /** A positive sum has a positive term. */
  lemma {:induction false} SumWitness<T(!new)>(f: T -> int, xs: seq<T>) returns (i: nat)
    requires Sum(f, xs) > 0
    ensures i < |xs| && f(xs[i]) > 0
  {
    if f(xs[0]) > 0 {
      i := 0;
    } else {
      var k := SumWitness(f, xs[1..]);
      i := k + 1;
    }
  }

  /** Terms bounded by 1 below `k` and by 0 from `k` on add up to at most `k`. */
  lemma {:induction false} SumPrefixBound<T(!new)>(f: T -> int, xs: seq<T>, k: nat)
    requires forall i :: 0 <= i < |xs| ==> f(xs[i]) <= if i < k then 1 else 0
    ensures Sum(f, xs) <= k
  {
    if xs != [] {
      assert forall i :: 0 <= i < |xs| - 1 ==> xs[1..][i] == xs[i + 1];
      SumPrefixBound(f, xs[1..], if k == 0 then 0 else k - 1);
    }
  }

  lemma {:induction false} SumAllZero<T>(f: T -> int, xs: seq<T>)
    requires forall i :: 0 <= i < |xs| ==> f(xs[i]) == 0
    ensures Sum(f, xs) == 0
  {
    if xs != [] {
      assert forall i :: 0 <= i < |xs| - 1 ==> xs[1..][i] == xs[i + 1];
      SumAllZero(f, xs[1..]);
    }
  }
}
