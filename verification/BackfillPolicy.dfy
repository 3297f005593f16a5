/** backfill.cpp: the collect, sort and accumulate computation of a shadow time, and the admission scan. */
module BackfillPolicy {
  import opened Seqs
  import opened Model
  import opened Shadow

  function HeldCores(r: RunningJob): nat { r.held.cores }
  function HeldMemory(r: RunningJob): nat { r.held.memory }

  function HeldBy(xs: seq<RunningJob>): Resources
  {
    Resources(Sum(xs, HeldCores), Sum(xs, HeldMemory))
  }

  /** The running jobs of node n, in list order. */
  function OnNode(running: seq<RunningJob>, n: nat): seq<RunningJob>
  {
    if running == [] then []
    else
      var front, last := running[..|running| - 1], running[|running| - 1];
      if last.node == n then OnNode(front, n) + [last] else OnNode(front, n)
  }

  lemma {:induction false} OnNodeFacts(running: seq<RunningJob>, n: nat, u: nat)
    ensures forall k :: 0 <= k < |OnNode(running, n)| ==> OnNode(running, n)[k].node == n
    ensures Returned(OnNode(running, n), n, u) == Returned(running, n, u)
  {
    if running != [] {
      var front, last := running[..|running| - 1], running[|running| - 1];
      OnNodeFacts(front, n, u);
      if last.node == n {
        SumAppend(OnNode(front, n), last, CoresDue(n, u));
        SumAppend(OnNode(front, n), last, MemoryDue(n, u));
      }
    }
  }

  // ----- std::sort by (estimated_finish, id) -----

  predicate InOrder(a: RunningJob, b: RunningJob)
  {
    if a.estimatedFinish != b.estimatedFinish then a.estimatedFinish < b.estimatedFinish else a.id <= b.id
  }

  ghost predicate Sorted(xs: seq<RunningJob>)
  {
    forall i, k :: 0 <= i < k < |xs| ==> InOrder(xs[i], xs[k])
  }

  lemma InOrderTotal(a: RunningJob, b: RunningJob)
    ensures InOrder(a, b) || InOrder(b, a)
  {
  }

  lemma InOrderTransitive(a: RunningJob, b: RunningJob, c: RunningJob)
    requires InOrder(a, b) && InOrder(b, c)
    ensures InOrder(a, c)
  {
  }

  lemma InsertKeepsSorted(ys: seq<RunningJob>, p: nat, x: RunningJob)
    requires Sorted(ys) && p <= |ys|
    requires p > 0 ==> InOrder(ys[p - 1], x)
    requires forall k :: p <= k < |ys| ==> InOrder(x, ys[k])
    ensures Sorted(ys[..p] + [x] + ys[p..])
    ensures multiset(ys[..p] + [x] + ys[p..]) == multiset(ys) + multiset{x}
  {
    hide InOrder;
    assert ys == ys[..p] + ys[p..];
    forall i | 0 <= i < p
      ensures InOrder(ys[i], x)
    {
      if i < p - 1 { InOrderTransitive(ys[i], ys[p - 1], x); }
    }
  }

  method SortByFinish(xs: seq<RunningJob>) returns (ys: seq<RunningJob>)
    ensures Sorted(ys) && multiset(ys) == multiset(xs)
    ensures forall i, k :: 0 <= i < k < |ys| ==>
              || ys[i].estimatedFinish < ys[k].estimatedFinish
              || (ys[i].estimatedFinish == ys[k].estimatedFinish && ys[i].id <= ys[k].id)
  {
    hide Sorted, InOrder;
    NothingIsSorted();
    ys := [];
    for i := 0 to |xs|
      invariant Sorted(ys) && multiset(ys) == multiset(xs[..i])
    {
      var p := |ys|;
      while p > 0 && !InOrder(ys[p - 1], xs[i])
        invariant 0 <= p <= |ys|
        invariant forall k :: p <= k < |ys| ==> InOrder(xs[i], ys[k])
      {
        p := p - 1;
        InOrderTotal(ys[p], xs[i]);
      }
      InsertKeepsSorted(ys, p, xs[i]);
      assert xs[..i + 1] == xs[..i] + [xs[i]];
      ys := ys[..p] + [xs[i]] + ys[p..];
    }
    assert xs[..|xs|] == xs;
    SortedMeans(ys);
  }

  lemma SortedMeans(ys: seq<RunningJob>)
    requires Sorted(ys)
    ensures forall i, k :: 0 <= i < k < |ys| ==>
              || ys[i].estimatedFinish < ys[k].estimatedFinish
              || (ys[i].estimatedFinish == ys[k].estimatedFinish && ys[i].id <= ys[k].id)
  {
  }

  lemma NothingIsSorted()
    ensures Sorted([])
  {
  }

  // ----- prefixes of the sorted list -----

  /** Before the finish of entry j only entries in front of j have given anything back. */
  lemma ReturnedBefore(s: seq<RunningJob>, n: nat, j: nat, u: nat)
    requires j <= |s| && forall k :: j <= k < |s| ==> s[k].estimatedFinish > u
    ensures Within(Returned(s, n, u), HeldBy(s[..j]))
  {
    assert s == s[..j] + s[j..];
    SumConcat(s[..j], s[j..], CoresDue(n, u));
    SumConcat(s[..j], s[j..], MemoryDue(n, u));
    SumZero(s[j..], CoresDue(n, u));
    SumZero(s[j..], MemoryDue(n, u));
    SumLe(s[..j], s[..j], CoresDue(n, u), HeldCores);
    SumLe(s[..j], s[..j], MemoryDue(n, u), HeldMemory);
  }

  /** By the finish of entry j every entry up to j has given its holdings back. */
  lemma ReturnedBy(s: seq<RunningJob>, n: nat, j: nat, u: nat)
    requires j <= |s| && forall k :: 0 <= k < |s| ==> s[k].node == n
    requires forall k :: 0 <= k < j ==> s[k].estimatedFinish <= u
    ensures Within(HeldBy(s[..j]), Returned(s, n, u))
  {
    assert s == s[..j] + s[j..];
    SumConcat(s[..j], s[j..], CoresDue(n, u));
    SumConcat(s[..j], s[j..], MemoryDue(n, u));
    SumLe(s[..j], s[..j], HeldCores, CoresDue(n, u));
    SumLe(s[..j], s[..j], HeldMemory, MemoryDue(n, u));
  }

  /** A node's own answer: the least tick by which it fits, or kNever. */
  ghost predicate IsNodeLeast(request: Resources, node: Node, running: seq<RunningJob>, r: nat)
  {
    && (r < NEVER ==> NodeFitsBy(request, node, running, r))
    && (forall u: nat :: u < r && u < NEVER ==> !NodeFitsBy(request, node, running, u))
  }

  lemma SortedReturns(running: seq<RunningJob>, s: seq<RunningJob>, n: nat)
    requires multiset(s) == multiset(OnNode(running, n))
    ensures forall k :: 0 <= k < |s| ==> s[k].node == n
    ensures forall u: nat :: Returned(s, n, u) == Returned(running, n, u)
  {
    OnNodeFacts(running, n, 0);
    forall k | 0 <= k < |s|
      ensures s[k].node == n
    {
      assert s[k] in multiset(s);
      assert s[k] in OnNode(running, n);
    }
    forall u: nat
      ensures Returned(s, n, u) == Returned(running, n, u)
    {
      OnNodeFacts(running, n, u);
      SumPermutation(s, OnNode(running, n), CoresDue(n, u));
      SumPermutation(s, OnNode(running, n), MemoryDue(n, u));
    }
  }

  /** The first prefix of the sorted list that makes room names the node's least tick. */
  lemma FirstFittingPrefix(request: Resources, node: Node, running: seq<RunningJob>, s: seq<RunningJob>, j: nat)
    requires Sorted(s) && multiset(s) == multiset(OnNode(running, node.id)) && j < |s|
    requires !Within(request, Plus(node.free, HeldBy(s[..j])))
    requires Within(request, Plus(node.free, HeldBy(s[..j + 1])))
    ensures IsNodeLeast(request, node, running, s[j].estimatedFinish)
  {
    var f := s[j].estimatedFinish;
    SortedReturns(running, s, node.id);
    ReturnedBy(s, node.id, j + 1, f);
    forall u: nat | u < f
      ensures !NodeFitsBy(request, node, running, u)
    {
      ReturnedBefore(s, node.id, j, u);
    }
  }

  lemma NoFittingPrefix(request: Resources, node: Node, running: seq<RunningJob>, s: seq<RunningJob>)
    requires multiset(s) == multiset(OnNode(running, node.id))
    requires !Within(request, Plus(node.free, HeldBy(s)))
    ensures IsNodeLeast(request, node, running, NEVER)
  {
    SortedReturns(running, s, node.id);
    assert s[..|s|] == s;
    forall u: nat
      ensures !NodeFitsBy(request, node, running, u)
    {
      SumLe(s, s, CoresDue(node.id, u), HeldCores);
      SumLe(s, s, MemoryDue(node.id, u), HeldMemory);
    }
  }

  /** The inner loop of shadow_time: releases on one node, earliest predicted end first. */
  method NodeShadow(request: Resources, node: Node, running: seq<RunningJob>) returns (r: nat)
    requires !node.CanFit(request)
    ensures IsNodeLeast(request, node, running, r)
  {
    var onNode := [];
    for i := 0 to |running|
      invariant onNode == OnNode(running[..i], node.id)
    {
      assert running[..i + 1][..i] == running[..i];
      if running[i].node == node.id { onNode := onNode + [running[i]]; }
    }
    assert running[..|running|] == running;
    var sorted := SortByFinish(onNode);
    var free := node.free;
    for j := 0 to |sorted|
      invariant free == Plus(node.free, HeldBy(sorted[..j]))
      invariant !Within(request, free)
    {
      SumAppend(sorted[..j], sorted[j], HeldCores);
      SumAppend(sorted[..j], sorted[j], HeldMemory);
      assert sorted[..j + 1] == sorted[..j] + [sorted[j]];
      free := Plus(free, sorted[j].held);
      if Within(request, free) {
        FirstFittingPrefix(request, node, running, sorted, j);
        return sorted[j].estimatedFinish;
      }
    }
    assert sorted[..|sorted|] == sorted;
    NoFittingPrefix(request, node, running, sorted);
    return NEVER;
  }

  /** shadow_time computes the declarative shadow time. */
  method ComputeShadowTime(request: Resources, nodes: seq<Node>, running: seq<RunningJob>, now: nat) returns (best: nat)
    ensures best == ShadowTime(request, nodes, running, now)
    ensures FitsAnywhere(request, nodes) ==> best == now
    ensures !FitsAnywhere(request, nodes) ==>
              && best <= 0xFFFF_FFFF_FFFF_FFFF
              && (best < 0xFFFF_FFFF_FFFF_FFFF ==> FitsBy(request, nodes, running, best))
              && forall u: nat :: u < best ==> !FitsBy(request, nodes, running, u)
  {
    best := NEVER;
    for i := 0 to |nodes|
      invariant forall k :: 0 <= k < i ==> !nodes[k].CanFit(request)
      invariant best <= NEVER
      invariant best < NEVER ==> FitsBy(request, nodes, running, best)
      invariant forall k, u: nat :: 0 <= k < i && u < best ==> !NodeFitsBy(request, nodes[k], running, u)
    {
      if nodes[i].CanFit(request) { return now; }
      var r := NodeShadow(request, nodes[i], running);
      if r < best { best := r; }
    }
    LeastFitUnique(request, nodes, running, best);
  }

  /** BackfillQueuePolicy::backfill and FifoQueuePolicy::backfill. */
  method PickBackfill(policy: QueuePolicy, backlog: seq<QueuedJob>, nodes: seq<Node>, running: seq<RunningJob>, now: nat)
    returns (pick: Option<nat>)
    ensures pick == Pick(policy, backlog, nodes, running, now)
    ensures backlog != [] && !FitsAnywhere(backlog[0].request, nodes) ==>
              && (pick.Some? <==> policy == Backfill && Reserved(backlog[0], nodes, running)
                                  && exists k: nat :: FirstPast(backlog, nodes, running, now, k))
              && (forall k: nat :: pick.Some? && FirstPast(backlog, nodes, running, now, k) ==> pick.value == backlog[k].id)
  {
    hide LetsPast, Reserved, FirstPast, ShadowTime;
    if backlog != [] && !FitsAnywhere(backlog[0].request, nodes) { PickExactly(policy, backlog, nodes, running, now); }
    if policy == Fifo { return None; }
    if |backlog| < 2 { return None; }
    var shadow := ComputeShadowTime(backlog[0].request, nodes, running, now);
    if shadow == NEVER { return None; }
    var i := 1;
    while i < |backlog|
      invariant 1 <= i <= |backlog|
      invariant FirstAdmissible(backlog, nodes, now, shadow, 1) == FirstAdmissible(backlog, nodes, now, shadow, i)
    {
      var candidate := backlog[i];
      if now + candidate.estimatedDuration <= shadow && FitsAnywhere(candidate.request, nodes) {
        return Some(candidate.id);
      }
      i := i + 1;
    }
    return None;
  }
}
