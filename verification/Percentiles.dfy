/** Nearest-rank percentiles by nested in-place selection, against sort-then-index. */
module Percentiles {
  import opened Seqs

  // ----- rank -----

  lemma ProductRange(n: nat, p: nat)
    requires n > 0 && 0 < p <= 100
    ensures 0 < n * p <= 100 * n
  {
  }

  /** percentile_rank: ceil(n * p / 100) - 1. */
  function Rank(n: nat, p: nat): (r: nat)
    requires n > 0 && 0 < p <= 100
    ensures 100 * r < n * p <= 100 * (r + 1)
    ensures r < n
  {
    ProductRange(n, p);
    var product := n * p;
    (product + 99) / 100 - 1
  }

  lemma RankMonotone(n: nat, p: nat, q: nat)
    requires n > 0 && 0 < p <= q <= 100
    ensures Rank(n, p) <= Rank(n, q)
  {
    hide Rank;
    ProductMonotone(n, p, q);
    var a, b := Rank(n, p), Rank(n, q);
  }

  lemma ProductMonotone(n: nat, p: nat, q: nat)
    requires p <= q
    ensures n * p <= n * q
  {
  }

  // ----- sorted order -----

  ghost predicate Ordered(s: seq<nat>)
  {
    forall i, k :: 0 <= i < k < |s| ==> s[i] <= s[k]
  }

  /** Where x goes: after everything not larger. */
  function Position(s: seq<nat>, x: nat): (p: nat)
    requires Ordered(s)
    ensures p <= |s|
    ensures forall i :: 0 <= i < p ==> s[i] <= x
    ensures forall i :: p <= i < |s| ==> x < s[i]
  {
    if s == [] then 0
    else if s[|s| - 1] <= x then |s|
    else Position(s[..|s| - 1], x)
  }

  function Insert(s: seq<nat>, x: nat): (t: seq<nat>)
    requires Ordered(s)
    ensures Ordered(t) && multiset(t) == multiset(s) + multiset{x} && |t| == |s| + 1
  {
    var p := Position(s, x);
    assert s == s[..p] + s[p..];
    s[..p] + [x] + s[p..]
  }

  /** The values in ascending order. */
  function SortTicks(s: seq<nat>): (t: seq<nat>)
    ensures Ordered(t) && multiset(t) == multiset(s) && |t| == |s|
  {
    if s == [] then []
    else
      assert s == s[..|s| - 1] + [s[|s| - 1]];
      Insert(SortTicks(s[..|s| - 1]), s[|s| - 1])
  }

  /** An ascending arrangement is unique. */
  lemma {:induction false} OrderedUnique(a: seq<nat>, b: seq<nat>)
    requires Ordered(a) && Ordered(b) && multiset(a) == multiset(b)
    ensures a == b
    decreases |a|
  {
    assert |multiset(a)| == |a| && |multiset(b)| == |b|;
    if a != [] {
      LastIsLargest(a, b);
      LastIsLargest(b, a);
      FrontMultiset(a);
      FrontMultiset(b);
      hide Ordered;
      OrderedFront(a);
      OrderedFront(b);
      OrderedUnique(a[..|a| - 1], b[..|b| - 1]);
      assert a == a[..|a| - 1] + [a[|a| - 1]];
    }
  }

  lemma FrontMultiset(a: seq<nat>)
    requires a != []
    ensures multiset(a[..|a| - 1]) == multiset(a) - multiset{a[|a| - 1]}
  {
    assert a == a[..|a| - 1] + [a[|a| - 1]];
  }

  lemma OrderedFront(a: seq<nat>)
    requires Ordered(a) && a != []
    ensures Ordered(a[..|a| - 1])
  {
  }

  lemma LastIsLargest(a: seq<nat>, b: seq<nat>)
    requires Ordered(a) && a != [] && b != [] && multiset(a) == multiset(b)
    ensures b[|b| - 1] <= a[|a| - 1]
  {
    assert b[|b| - 1] in multiset(a);
    var k :| 0 <= k < |a| && a[k] == b[|b| - 1];
  }

  /** r splits s: nothing before it is larger, nothing after it is smaller. */
  ghost predicate SplitAt(s: seq<nat>, r: nat)
  {
    r < |s| && (forall i :: 0 <= i < r ==> s[i] <= s[r]) && (forall i :: r < i < |s| ==> s[r] <= s[i])
  }

  lemma SortBounds(s: seq<nat>, i: nat) returns (k: nat)
    requires i < |s|
    ensures k < |s| && s[k] == SortTicks(s)[i]
  {
    assert SortTicks(s)[i] in multiset(SortTicks(s));
    k :| 0 <= k < |s| && s[k] == SortTicks(s)[i];
  }

  /** A split position holds its sorted value, and the prefix before it sorts on its own. */
  lemma {:induction false} SplitIsSelected(s: seq<nat>, r: nat)
    requires SplitAt(s, r)
    ensures SortTicks(s)[r] == s[r]
    ensures SortTicks(s)[..r] == SortTicks(s[..r])
  {
    hide SortTicks;
    var lo, hi := SortTicks(s[..r]), SortTicks(s[r + 1..]);
    forall i | 0 <= i < |lo|
      ensures lo[i] <= s[r]
    {
      var k := SortBounds(s[..r], i);
    }
    forall i | 0 <= i < |hi|
      ensures s[r] <= hi[i]
    {
      var k := SortBounds(s[r + 1..], i);
    }
    var t := lo + [s[r]] + hi;
    assert s == s[..r] + [s[r]] + s[r + 1..];
    JoinOrdered(lo, s[r], hi);
    OrderedUnique(t, SortTicks(s));
    assert t[..r] == lo;
  }

  lemma JoinOrdered(lo: seq<nat>, x: nat, hi: seq<nat>)
    requires Ordered(lo) && Ordered(hi)
    requires forall i :: 0 <= i < |lo| ==> lo[i] <= x
    requires forall i :: 0 <= i < |hi| ==> x <= hi[i]
    ensures Ordered(lo + [x] + hi)
  {
  }

  // ----- std::nth_element -----

  /** Same values below `last`, same sequence from there on. */
  ghost predicate Rearranged(s: seq<nat>, t: seq<nat>, last: nat)
  {
    |s| == |t| && last <= |s| && multiset(s[..last]) == multiset(t[..last]) && s[last..] == t[last..]
  }

  lemma SwapRearranges(s: seq<nat>, i: nat, k: nat, last: nat)
    requires i < last && k < last <= |s|
    ensures Rearranged(s, s[i := s[k]][k := s[i]], last)
  {
  }

  /** The first k values are in place: ascending and no larger than the rest of the prefix. */
  ghost predicate Placed(s: seq<nat>, k: nat, last: nat)
  {
    k <= last <= |s| && forall i, l :: 0 <= i < k && i < l < last ==> s[i] <= s[l]
  }

  /** The standard contract of nth_element on [0, last); nth == last leaves everything alone. */
  method NthElement(a: array<nat>, nth: nat, last: nat)
    requires nth <= last <= a.Length
    modifies a
    ensures Rearranged(old(a[..]), a[..], last)
    ensures nth == last ==> a[..] == old(a[..])
    ensures nth < last ==> SplitAt(a[..last], nth)
  {
    if nth == last { return; }
    var k := 0;
    while k <= nth
      invariant 0 <= k <= nth + 1
      invariant Rearranged(old(a[..]), a[..], last)
      invariant Placed(a[..], k, last)
    {
      var least := LeastIndex(a, k, last);
      SwapRearranges(a[..], k, least, last);
      PlaceNext(a[..], k, least, last);
      ghost var before := a[..];
      a[k], a[least] := a[least], a[k];
      assert a[..] == before[k := before[least]][least := before[k]];
      k := k + 1;
    }
  }

  lemma PlaceNext(s: seq<nat>, k: nat, least: nat, last: nat)
    requires Placed(s, k, last) && k <= least < last
    requires forall i :: k <= i < last ==> s[least] <= s[i]
    ensures Placed(s[k := s[least]][least := s[k]], k + 1, last)
  {
  }

  method LeastIndex(a: array<nat>, from: nat, last: nat) returns (m: nat)
    requires from < last <= a.Length
    ensures from <= m < last
    ensures forall i :: from <= i < last ==> a[m] <= a[i]
  {
    m := from;
    for i := from + 1 to last
      invariant from <= m < i
      invariant forall l :: from <= l < i ==> a[m] <= a[l]
    {
      if a[i] < a[m] { m := i; }
    }
  }

  // ----- percentiles -----

  lemma WholeRearranged(s: seq<nat>, t: seq<nat>, last: nat)
    requires Rearranged(s, t, last)
    ensures multiset(s) == multiset(t) && SortTicks(s) == SortTicks(t)
    ensures SortTicks(s[..last]) == SortTicks(t[..last])
  {
    assert s == s[..last] + s[last..] && t == t[..last] + t[last..];
    OrderedUnique(SortTicks(s), SortTicks(t));
    OrderedUnique(SortTicks(s[..last]), SortTicks(t[..last]));
  }

  /**
   * Three selections on shrinking prefixes agree with sorting once and indexing three times,
   * also where small samples make the ranks coincide.
   */
  method ComputePercentiles(values: array<nat>) returns (p50: nat, p95: nat, p99: nat)
    requires values.Length > 0
    modifies values
    ensures multiset(values[..]) == multiset(old(values[..]))
    ensures p50 == SortTicks(old(values[..]))[Rank(values.Length, 50)]
    ensures p95 == SortTicks(old(values[..]))[Rank(values.Length, 95)]
    ensures p99 == SortTicks(old(values[..]))[Rank(values.Length, 99)]
    ensures p50 <= p95 <= p99
    ensures values.Length <= 4 ==> Ordered(values[..])
  {
    hide SortTicks, Rank, Ordered, SplitAt, Rearranged;
    var n := values.Length;
    var i50, i95, i99 := Rank(n, 50), Rank(n, 95), Rank(n, 99);
    RankMonotone(n, 50, 95);
    RankMonotone(n, 95, 99);
    ghost var s0 := values[..];
    NthElement(values, i99, n);
    ghost var s1 := values[..];
    NthElement(values, i95, i99);
    ghost var s2 := values[..];
    NthElement(values, i50, i95);
    NestedSelection(s0, s1, s2, values[..], i50, i95, i99);
    if n <= 4 { SmallSamplesEndSorted(s0, s1, s2, values[..]); }
    p50, p95, p99 := values[i50], values[i95], values[i99];
    OrderedAt(s0, i50, i95);
    OrderedAt(s0, i95, i99);
  }

  lemma OrderedAt(s: seq<nat>, i: nat, k: nat)
    requires i <= k < |s|
    ensures SortTicks(s)[i] <= SortTicks(s)[k]
  {
    hide SortTicks;
    assert Ordered(SortTicks(s));
  }

  /** What the contract of nth_element alone says about the array around the three calls. */
  ghost predicate NestedContracts(s0: seq<nat>, s1: seq<nat>, s2: seq<nat>, s3: seq<nat>, i50: nat, i95: nat, i99: nat)
  {
    && i50 <= i95 <= i99 < |s0|
    && Rearranged(s0, s1, |s0|) && SplitAt(s1[..|s0|], i99)
    && Rearranged(s1, s2, i99) && (i95 < i99 ==> SplitAt(s2[..i99], i95)) && (i95 == i99 ==> s2 == s1)
    && Rearranged(s2, s3, i95) && (i50 < i95 ==> SplitAt(s3[..i95], i50)) && (i50 == i95 ==> s3 == s2)
  }

  lemma NestedSelection(s0: seq<nat>, s1: seq<nat>, s2: seq<nat>, s3: seq<nat>, i50: nat, i95: nat, i99: nat)
    requires NestedContracts(s0, s1, s2, s3, i50, i95, i99)
    ensures multiset(s3) == multiset(s0)
    ensures s3[i99] == SortTicks(s0)[i99] && s3[i95] == SortTicks(s0)[i95] && s3[i50] == SortTicks(s0)[i50]
  {
    hide SortTicks, SplitAt, Ordered;
    var sorted := SortTicks(s0);
    WholeRearranged(s0, s1, |s0|);
    WholeRearranged(s1, s2, i99);
    WholeRearranged(s2, s3, i95);
    assert s1[..|s0|] == s1;
    SplitIsSelected(s1, i99);
    assert s2[i99] == s2[i99..][0] == s1[i99];
    assert s3[i99] == s3[i95..][i99 - i95] == s2[i99];
    assert SortTicks(s2[..i99]) == sorted[..i99];
    if i95 < i99 {
      SplitIsSelected(s2[..i99], i95);
      assert s2[..i99][..i95] == s2[..i95];
      assert sorted[..i99][..i95] == sorted[..i95];
    }
    assert s2[i95] == sorted[i95] && SortTicks(s2[..i95]) == sorted[..i95];
    assert s3[i95] == s3[i95..][0] == s2[i95];
    if i50 < i95 {
      SplitIsSelected(s3[..i95], i50);
      assert sorted[..i95][i50] == sorted[i50];
    }
  }

  /** Some run of the three calls that meets the standard's contract turns s0 into s3. */
  ghost predicate MayEndAs(s0: seq<nat>, s3: seq<nat>)
    requires s0 != []
  {
    var n := |s0|;
    exists s1, s2 :: NestedContracts(s0, s1, s2, s3, Rank(n, 50), Rank(n, 95), Rank(n, 99))
  }

  /** Up to four samples the ranks are so close that three splits leave nothing unordered. */
  lemma SmallSamplesEndSorted(s0: seq<nat>, s1: seq<nat>, s2: seq<nat>, s3: seq<nat>)
    requires 0 < |s0| <= 4
    requires NestedContracts(s0, s1, s2, s3, Rank(|s0|, 50), Rank(|s0|, 95), Rank(|s0|, 99))
    ensures Ordered(s3)
  {
    hide SortTicks, Rank, Rearranged, Ordered;
    var n := |s0|;
    SmallRanks(n);
    NestedSelection(s0, s1, s2, s3, Rank(n, 50), Rank(n, 95), Rank(n, 99));
    SameSize(s3, s0);
    forall i | 0 <= i < n - 1
      ensures s3[i] <= s3[i + 1]
    {
      LargestIsLast(s0, s3, i);
      if n >= 3 { AroundSplit(s3, n - 1, 1); }
    }
    StepwiseOrdered(s3);
  }

  lemma SmallRanks(n: nat)
    requires 0 < n <= 4
    ensures Rank(n, 95) == Rank(n, 99) == n - 1
    ensures Rank(n, 50) == if n <= 2 then 0 else 1
  {
  }

  lemma AroundSplit(s: seq<nat>, last: nat, r: nat)
    requires last <= |s| && 0 < r && SplitAt(s[..last], r)
    ensures s[r - 1] <= s[r] && (r + 1 < last ==> s[r] <= s[r + 1])
  {
    assert s[..last][r - 1] == s[r - 1];
  }

  lemma SameSize(a: seq<nat>, b: seq<nat>)
    requires multiset(a) == multiset(b)
    ensures |a| == |b|
  {
    assert |multiset(a)| == |a| && |multiset(b)| == |b|;
  }

  /** No sample exceeds the last of the sorted values. */
  lemma LargestIsLast(s: seq<nat>, a: seq<nat>, i: nat)
    requires multiset(a) == multiset(s) && i < |a| && s != []
    ensures a[i] <= SortTicks(s)[|s| - 1]
  {
    var t := SortTicks(s);
    assert a[i] in multiset(t);
    var k :| 0 <= k < |t| && t[k] == a[i];
  }

  lemma {:induction false} StepwiseOrdered(s: seq<nat>)
    requires forall i :: 0 <= i < |s| - 1 ==> s[i] <= s[i + 1]
    ensures Ordered(s)
  {
    if s != [] {
      var front := s[..|s| - 1];
      StepwiseOrdered(front);
      assert s == front + [s[|s| - 1]];
      forall i, k | 0 <= i < k < |s|
        ensures s[i] <= s[k]
      {
        if k == |s| - 1 && i < k - 1 { assert front[i] <= front[k - 1]; }
        if k < |s| - 1 { assert front[i] <= front[k]; }
      }
    }
  }

  /** The first two samples swapped, everything else in place. */
  function FrontSwapped(n: nat): (s: seq<nat>)
    ensures |s| == n
  {
    seq(n, i => if i == 0 then 1 else if i == 1 then 0 else i)
  }

  /**
   * The array ends sorted whatever nth_element does within its contract, exactly for samples of at
   * most four values.
   */
  lemma {:induction false} SortedExactlyUpToFour(n: nat)
    requires n > 0
    ensures (forall s0: seq<nat>, s3: seq<nat> :: |s0| == n && MayEndAs(s0, s3) ==> Ordered(s3)) <==> n <= 4
  {
    hide NestedContracts;
    if n <= 4 {
      forall s0: seq<nat>, s3: seq<nat> | |s0| == n && MayEndAs(s0, s3)
        ensures Ordered(s3)
      {
        var s1, s2 :| NestedContracts(s0, s1, s2, s3, Rank(n, 50), Rank(n, 95), Rank(n, 99));
        SmallSamplesEndSorted(s0, s1, s2, s3);
      }
    } else {
      SwapMaySurvive(n);
      var s := FrontSwapped(n);
      assert s[0] > s[1];
    }
  }

  /** From five samples on no rank is low enough to order the first two. */
  lemma SwapMaySurvive(n: nat)
    requires n > 4
    ensures MayEndAs(FrontSwapped(n), FrontSwapped(n))
  {
    assert 2 <= Rank(n, 50);
    RankMonotone(n, 50, 95);
    RankMonotone(n, 95, 99);
    hide Rank, Ordered, SortTicks;
    var s := FrontSwapped(n);
    assert s[..n] == s;
    assert NestedContracts(s, s, s, s, Rank(n, 50), Rank(n, 95), Rank(n, 99));
  }

  // ----- what a percentile means -----

  function AtMost(v: nat): nat -> nat
  {
    (x: nat) => if x <= v then 1 else 0
  }

  /** How many sample values are at or below v. */
  function CountAtMost(s: seq<nat>, v: nat): nat
  {
    Sum(s, AtMost(v))
  }

  lemma {:induction false} AllOnes(s: seq<nat>, v: nat)
    requires forall i :: 0 <= i < |s| ==> s[i] <= v
    ensures CountAtMost(s, v) == |s|
  {
    if s != [] {
      AllOnes(s[..|s| - 1], v);
    }
  }

  lemma {:induction false} CountBound(s: seq<nat>, v: nat)
    ensures CountAtMost(s, v) <= |s|
  {
    if s != [] {
      CountBound(s[..|s| - 1], v);
    }
  }

  /** In ascending order the first r + 1 values are at or below the one at r. */
  lemma CountUpTo(t: seq<nat>, r: nat)
    requires Ordered(t) && r < |t|
    ensures CountAtMost(t, t[r]) >= r + 1
  {
    assert t == t[..r + 1] + t[r + 1..];
    SumConcat(t[..r + 1], t[r + 1..], AtMost(t[r]));
    AllOnes(t[..r + 1], t[r]);
  }

  /** In ascending order at most r values are below the one at r. */
  lemma CountBelow(t: seq<nat>, r: nat, u: nat)
    requires Ordered(t) && r < |t| && u < t[r]
    ensures CountAtMost(t, u) <= r
  {
    assert t == t[..r] + t[r..];
    SumConcat(t[..r], t[r..], AtMost(u));
    SumZero(t[r..], AtMost(u));
    CountBound(t[..r], u);
  }

  /**
   * Nearest rank: the pth percentile is a sample value with at least p percent of the sample at or
   * below it, and no smaller value has that.
   */
  lemma {:induction false} NearestRank(values: seq<nat>, p: nat, u: nat)
    requires values != [] && 0 < p <= 100
    ensures var v := SortTicks(values)[Rank(|values|, p)];
            && v in values
            && 100 * CountAtMost(values, v) >= |values| * p
            && (u < v ==> 100 * CountAtMost(values, u) < |values| * p)
  {
    hide SortTicks, Rank, Ordered;
    var r, t := Rank(|values|, p), SortTicks(values);
    var k := SortBounds(values, r);
    SumPermutation(values, t, AtMost(t[r]));
    CountUpTo(t, r);
    if u < t[r] {
      SumPermutation(values, t, AtMost(u));
      CountBelow(t, r, u);
    }
  }
}
