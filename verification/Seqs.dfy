/** Sums over sequences, removal by position, and duplicate-free lists. */
module Seqs {

  datatype Option<+T> = None | Some(value: T)

  function Sum<T>(xs: seq<T>, f: T -> nat): nat
  {
    if xs == [] then 0 else Sum(xs[..|xs| - 1], f) + f(xs[|xs| - 1])
  }

  function RemoveAt<T>(xs: seq<T>, i: nat): seq<T>
    requires i < |xs|
  {
    xs[..i] + xs[i + 1..]
  }

  ghost predicate NoDup<T>(xs: seq<T>)
  {
    forall i, k :: 0 <= i < k < |xs| ==> xs[i] != xs[k]
  }

  /** Position of the first occurrence, or the length when there is none (std::find). */
  function IndexOf(xs: seq<nat>, x: nat): (i: nat)
    ensures i <= |xs|
    ensures i < |xs| ==> xs[i] == x
    ensures forall k :: 0 <= k < i ==> xs[k] != x
    ensures i == |xs| <==> x !in xs
  {
    if xs == [] then 0
    else if xs[0] == x then 0
    else
      assert forall k :: 1 <= k < |xs| ==> xs[k] == xs[1..][k - 1];
      1 + IndexOf(xs[1..], x)
  }

  lemma IndexOfNoDup(xs: seq<nat>, i: nat)
    requires NoDup(xs) && i < |xs|
    ensures IndexOf(xs, xs[i]) == i
  {
  }

  // ----- sums -----

  lemma SumAppend<T>(xs: seq<T>, x: T, f: T -> nat)
    ensures Sum(xs + [x], f) == Sum(xs, f) + f(x)
  {
  }

  lemma {:induction false} SumConcat<T>(xs: seq<T>, ys: seq<T>, f: T -> nat)
    ensures Sum(xs + ys, f) == Sum(xs, f) + Sum(ys, f)
  {
    if ys == [] {
      assert xs + ys == xs;
    } else {
      var front, last := ys[..|ys| - 1], ys[|ys| - 1];
      SumConcat(xs, front, f);
      assert xs + ys == (xs + front) + [last];
      SumAppend(xs + front, last, f);
    }
  }

  lemma SumSplit<T>(xs: seq<T>, i: nat, f: T -> nat)
    requires i < |xs|
    ensures Sum(xs, f) == Sum(xs[..i], f) + f(xs[i]) + Sum(xs[i + 1..], f)
  {
    assert xs == (xs[..i] + [xs[i]]) + xs[i + 1..];
    SumConcat(xs[..i] + [xs[i]], xs[i + 1..], f);
    SumAppend(xs[..i], xs[i], f);
  }

  lemma SumRemoveAt<T>(xs: seq<T>, i: nat, f: T -> nat)
    requires i < |xs|
    ensures Sum(RemoveAt(xs, i), f) + f(xs[i]) == Sum(xs, f)
  {
    SumSplit(xs, i, f);
    SumConcat(xs[..i], xs[i + 1..], f);
  }

  lemma SumUpdate<T>(xs: seq<T>, i: nat, x: T, f: T -> nat)
    requires i < |xs|
    ensures Sum(xs[i := x], f) + f(xs[i]) == Sum(xs, f) + f(x)
  {
    SumSplit(xs, i, f);
    SumSplit(xs[i := x], i, f);
    assert xs[i := x][..i] == xs[..i] && xs[i := x][i + 1..] == xs[i + 1..];
  }

  lemma {:induction false} SumLe<T>(xs: seq<T>, ys: seq<T>, f: T -> nat, g: T -> nat)
    requires |xs| == |ys|
    requires forall i :: 0 <= i < |xs| ==> f(xs[i]) <= g(ys[i])
    ensures Sum(xs, f) <= Sum(ys, g)
  {
    if xs != [] {
      SumLe(xs[..|xs| - 1], ys[..|ys| - 1], f, g);
    }
  }

  lemma SumSame<T>(xs: seq<T>, ys: seq<T>, f: T -> nat, g: T -> nat)
    requires |xs| == |ys|
    requires forall i :: 0 <= i < |xs| ==> f(xs[i]) == g(ys[i])
    ensures Sum(xs, f) == Sum(ys, g)
  {
  }

  lemma SumMember<T>(xs: seq<T>, i: nat, f: T -> nat)
    requires i < |xs|
    ensures f(xs[i]) <= Sum(xs, f)
  {
  }

  lemma {:induction false} SumZero<T>(xs: seq<T>, f: T -> nat)
    requires forall i :: 0 <= i < |xs| ==> f(xs[i]) == 0
    ensures Sum(xs, f) == 0
  {
    if xs != [] {
      SumZero(xs[..|xs| - 1], f);
    }
  }

  /** A sum that is not zero has a term that is not zero. */
  lemma {:induction false} SumPositive<T>(xs: seq<T>, f: T -> nat) returns (i: nat)
    requires Sum(xs, f) > 0
    ensures i < |xs| && f(xs[i]) > 0
  {
    if f(xs[|xs| - 1]) > 0 {
      i := |xs| - 1;
    } else {
      i := SumPositive(xs[..|xs| - 1], f);
    }
  }

  /** Fewer units than places: some place holds none. */
  lemma {:induction false} Pigeonhole<T>(xs: seq<T>, f: T -> nat) returns (i: nat)
    requires Sum(xs, f) < |xs|
    ensures i < |xs| && f(xs[i]) == 0
  {
    if f(xs[|xs| - 1]) == 0 {
      i := |xs| - 1;
    } else {
      i := Pigeonhole(xs[..|xs| - 1], f);
    }
  }

  lemma MultisetRemoveAt<T>(xs: seq<T>, i: nat)
    requires i < |xs|
    ensures multiset(RemoveAt(xs, i)) == multiset(xs) - multiset{xs[i]}
  {
    assert xs == xs[..i] + [xs[i]] + xs[i + 1..];
    assert multiset(xs) == multiset(xs[..i]) + multiset{xs[i]} + multiset(xs[i + 1..]);
  }

  /** A sum does not depend on the order of its terms. */
  lemma {:induction false} SumPermutation<T>(xs: seq<T>, ys: seq<T>, f: T -> nat)
    requires multiset(xs) == multiset(ys)
    ensures Sum(xs, f) == Sum(ys, f)
    decreases |xs|
  {
    assert |multiset(xs)| == |xs| && |multiset(ys)| == |ys|;
    if xs != [] {
      var x := xs[|xs| - 1];
      assert x in multiset(ys);
      var k :| 0 <= k < |ys| && ys[k] == x;
      MultisetRemoveAt(xs, |xs| - 1);
      MultisetRemoveAt(ys, k);
      assert RemoveAt(xs, |xs| - 1) == xs[..|xs| - 1];
      SumPermutation(xs[..|xs| - 1], RemoveAt(ys, k), f);
      SumRemoveAt(ys, k, f);
    }
  }

  // ----- removal from duplicate-free lists -----

  lemma RemoveAtFacts<T>(xs: seq<T>, i: nat)
    requires i < |xs|
    ensures |RemoveAt(xs, i)| == |xs| - 1
    ensures forall k :: 0 <= k < |xs| - 1 ==> RemoveAt(xs, i)[k] == xs[if k < i then k else k + 1]
    ensures forall x :: x in RemoveAt(xs, i) ==> x in xs
    ensures forall k :: 0 <= k < |xs| && k != i ==> xs[k] in RemoveAt(xs, i)
  {
  }

  lemma RemoveAtNoDup<T>(xs: seq<T>, i: nat)
    requires i < |xs| && NoDup(xs)
    ensures NoDup(RemoveAt(xs, i))
    ensures forall x :: x in RemoveAt(xs, i) <==> x in xs && x != xs[i]
  {
  }

  // ----- counting -----

  lemma {:induction false} NoDupIsShort(xs: seq<nat>, n: nat)
    requires NoDup(xs) && forall x :: x in xs ==> x < n
    ensures |xs| <= n
  {
    if n > 0 && n - 1 in xs {
      RemoveAtNoDup(xs, IndexOf(xs, n - 1));
      NoDupIsShort(RemoveAt(xs, IndexOf(xs, n - 1)), n - 1);
    } else if xs != [] {
      assert xs[0] in xs;
      NoDupIsShort(xs, n - 1);
    }
  }

  /** A duplicate-free list of numbers below n that misses one of them is shorter than n. */
  lemma MissingOneIsShorter(xs: seq<nat>, n: nat, missing: nat)
    requires NoDup(xs) && missing < n && missing !in xs
    requires forall x :: x in xs ==> x < n
    ensures |xs| < n
  {
    NoDupIsShort(xs + [missing], n);
  }
}
