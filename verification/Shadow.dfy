/**
 * What a shadow time means, independently of how backfill.cpp computes it, and the two queue
 * policies as functions of what a policy is shown.
 */
module Shadow {
  import opened Seqs
  import opened Model

  // ----- holdings -----

  function CoresOn(n: nat): RunningJob -> nat { (r: RunningJob) => if r.node == n then r.held.cores else 0 }

  function MemoryOn(n: nat): RunningJob -> nat { (r: RunningJob) => if r.node == n then r.held.memory else 0 }

  function CountOn(n: nat): RunningJob -> nat { (r: RunningJob) => if r.node == n then 1 else 0 }

  /** What the running jobs hold on node n. */
  function Held(running: seq<RunningJob>, n: nat): Resources
  {
    Resources(Sum(running, CoresOn(n)), Sum(running, MemoryOn(n)))
  }

  function CoresDue(n: nat, t: nat): RunningJob -> nat
  {
    (r: RunningJob) => if r.node == n && r.estimatedFinish <= t then r.held.cores else 0
  }

  function MemoryDue(n: nat, t: nat): RunningJob -> nat
  {
    (r: RunningJob) => if r.node == n && r.estimatedFinish <= t then r.held.memory else 0
  }

  /** What node n gets back from the running jobs predicted to end at or before t. */
  function Returned(running: seq<RunningJob>, n: nat, t: nat): Resources
  {
    Resources(Sum(running, CoresDue(n, t)), Sum(running, MemoryDue(n, t)))
  }

  predicate NodeFitsBy(request: Resources, node: Node, running: seq<RunningJob>, t: nat)
  {
    Within(request, Plus(node.free, Returned(running, node.id, t)))
  }

  /** Some node fits the request once every running job predicted to end by t gave back its holdings. */
  predicate FitsBy(request: Resources, nodes: seq<Node>, running: seq<RunningJob>, t: nat)
  {
    exists i :: 0 <= i < |nodes| && NodeFitsBy(request, nodes[i], running, t)
  }

  /** Least tick in [t, NEVER) by which the request fits, else NEVER. */
  ghost function LeastFit(request: Resources, nodes: seq<Node>, running: seq<RunningJob>, t: nat): (r: nat)
    ensures t <= r <= NEVER || r == NEVER
    ensures r < NEVER ==> FitsBy(request, nodes, running, r)
    ensures forall u :: t <= u < r && u < NEVER ==> !FitsBy(request, nodes, running, u)
    decreases NEVER - t
  {
    if t >= NEVER then NEVER
    else if FitsBy(request, nodes, running, t) then t
    else LeastFit(request, nodes, running, t + 1)
  }

  /** The declarative shadow time: now if the request fits now, else the least tick by which it fits. */
  ghost function ShadowTime(request: Resources, nodes: seq<Node>, running: seq<RunningJob>, now: nat): nat
  {
    if FitsAnywhere(request, nodes) then now else LeastFit(request, nodes, running, 0)
  }

  // ----- basic facts -----

  lemma ReturnedMonotone(running: seq<RunningJob>, n: nat, t: nat, u: nat)
    requires t <= u
    ensures Within(Returned(running, n, t), Returned(running, n, u))
    ensures Within(Returned(running, n, u), Held(running, n))
  {
    SumLe(running, running, CoresDue(n, t), CoresDue(n, u));
    SumLe(running, running, MemoryDue(n, t), MemoryDue(n, u));
    SumLe(running, running, CoresDue(n, u), CoresOn(n));
    SumLe(running, running, MemoryDue(n, u), MemoryOn(n));
  }

  lemma FitsByMonotone(request: Resources, nodes: seq<Node>, running: seq<RunningJob>, t: nat, u: nat)
    requires t <= u && FitsBy(request, nodes, running, t)
    ensures FitsBy(request, nodes, running, u)
  {
    var i :| 0 <= i < |nodes| && NodeFitsBy(request, nodes[i], running, t);
    ReturnedMonotone(running, nodes[i].id, t, u);
    assert NodeFitsBy(request, nodes[i], running, u);
  }

  lemma FitsNowFitsBy(request: Resources, nodes: seq<Node>, running: seq<RunningJob>, t: nat)
    requires FitsAnywhere(request, nodes)
    ensures FitsBy(request, nodes, running, t)
  {
  }

  /** A tick is a shadow time exactly when it is the least one; this pins ShadowTime down. */
  lemma LeastFitUnique(request: Resources, nodes: seq<Node>, running: seq<RunningJob>, r: nat)
    requires r <= NEVER
    requires r < NEVER ==> FitsBy(request, nodes, running, r)
    requires forall u: nat :: u < r ==> !FitsBy(request, nodes, running, u)
    ensures LeastFit(request, nodes, running, 0) == r
  {
  }

  /**
   * Shadow below or at S: fits by S. With a request blocked now this is an equivalence for S < NEVER.
   */
  lemma ShadowAtMost(request: Resources, nodes: seq<Node>, running: seq<RunningJob>, now: nat, S: nat)
    requires !FitsAnywhere(request, nodes) && S < NEVER
    ensures ShadowTime(request, nodes, running, now) <= S <==> FitsBy(request, nodes, running, S)
  {
    var r := LeastFit(request, nodes, running, 0);
    if r <= S { FitsByMonotone(request, nodes, running, r, S); }
  }

  /** A request blocked now that fits by t waits for a running job predicted to end by t. */
  lemma BlockedWaitsForAFinish(request: Resources, nodes: seq<Node>, running: seq<RunningJob>, t: nat)
    returns (k: nat)
    requires !FitsAnywhere(request, nodes) && FitsBy(request, nodes, running, t)
    ensures k < |running| && running[k].estimatedFinish <= t
  {
    var i :| 0 <= i < |nodes| && NodeFitsBy(request, nodes[i], running, t);
    var n := nodes[i].id;
    assert !nodes[i].CanFit(request);
    if Sum(running, CoresDue(n, t)) > 0 {
      k := SumPositive(running, CoresDue(n, t));
    } else {
      k := SumPositive(running, MemoryDue(n, t));
    }
  }

  /** A finite shadow time of a blocked request is the estimated finish of some running job. */
  lemma ShadowIsAFinish(request: Resources, nodes: seq<Node>, running: seq<RunningJob>, now: nat) returns (k: nat)
    requires !FitsAnywhere(request, nodes)
    requires ShadowTime(request, nodes, running, now) < NEVER
    ensures k < |running| && running[k].estimatedFinish == ShadowTime(request, nodes, running, now)
  {
    var S := ShadowTime(request, nodes, running, now);
    var i :| 0 <= i < |nodes| && NodeFitsBy(request, nodes[i], running, S);
    var n := nodes[i].id;
    if forall k :: 0 <= k < |running| ==> running[k].estimatedFinish != S {
      if S == 0 {
        k := BlockedWaitsForAFinish(request, nodes, running, S);
      } else {
        SumSame(running, running, CoresDue(n, S), CoresDue(n, S - 1));
        SumSame(running, running, MemoryDue(n, S), MemoryDue(n, S - 1));
        assert NodeFitsBy(request, nodes[i], running, S - 1);
        assert FitsBy(request, nodes, running, S - 1);
        assert false;
      }
    } else {
      k :| 0 <= k < |running| && running[k].estimatedFinish == S;
    }
  }

  /** The order of the running list does not matter. */
  lemma ShadowPermutation(request: Resources, nodes: seq<Node>, running: seq<RunningJob>, other: seq<RunningJob>, now: nat)
    requires multiset(running) == multiset(other)
    ensures ShadowTime(request, nodes, running, now) == ShadowTime(request, nodes, other, now)
  {
    forall t: nat
      ensures FitsBy(request, nodes, running, t) == FitsBy(request, nodes, other, t)
    {
      forall i | 0 <= i < |nodes|
        ensures NodeFitsBy(request, nodes[i], running, t) == NodeFitsBy(request, nodes[i], other, t)
      {
        SumPermutation(running, other, CoresDue(nodes[i].id, t));
        SumPermutation(running, other, MemoryDue(nodes[i].id, t));
      }
    }
    LeastFitUnique(request, nodes, other, LeastFit(request, nodes, running, 0));
  }

  /** shadow time in full: a tick from now on by which the request fits, with none earlier; now if it fits already. */
  lemma {:induction false} ShadowIsEarliest(request: Resources, nodes: seq<Node>, running: seq<RunningJob>, now: nat)
    requires now < 0xFFFF_FFFF_FFFF_FFFF
    requires forall k :: 0 <= k < |running| ==> now <= running[k].estimatedFinish
    ensures var t := ShadowTime(request, nodes, running, now);
            && now <= t <= 0xFFFF_FFFF_FFFF_FFFF
            && (t < 0xFFFF_FFFF_FFFF_FFFF ==> FitsBy(request, nodes, running, t))
            && (forall u: nat :: now <= u < t ==> !FitsBy(request, nodes, running, u))
            && (FitsAnywhere(request, nodes) ==> t == now)
  {
    if FitsAnywhere(request, nodes) {
      FitsNowFitsBy(request, nodes, running, now);
    } else if ShadowTime(request, nodes, running, now) < NEVER {
      var k := ShadowIsAFinish(request, nodes, running, now);
    }
  }

  /** kNever is the largest 64-bit tick: room by any earlier tick counts, and only a request without any gets kNever. */
  lemma ShadowOfBlocked(request: Resources, nodes: seq<Node>, running: seq<RunningJob>, now: nat)
    requires !FitsAnywhere(request, nodes)
    ensures var t := ShadowTime(request, nodes, running, now);
            && (forall u: nat :: u < 0xFFFF_FFFF_FFFF_FFFF && FitsBy(request, nodes, running, u) ==> t <= u)
            && ((forall u: nat :: u < 0xFFFF_FFFF_FFFF_FFFF ==> !FitsBy(request, nodes, running, u))
                <==> t == 0xFFFF_FFFF_FFFF_FFFF)
  {
  }

  ghost predicate AllDueBefore(running: seq<RunningJob>, bound: nat)
  {
    forall k :: 0 <= k < |running| ==> running[k].estimatedFinish < bound
  }

  /** Every node accounts for what is running on it. */
  ghost predicate Accounted(nodes: seq<Node>, running: seq<RunningJob>)
  {
    forall i :: 0 <= i < |nodes| ==> Plus(nodes[i].free, Held(running, i)) == nodes[i].capacity
  }

  /** kNever exactly when no node could hold the request even empty. */
  lemma ShadowIsNever(request: Resources, nodes: seq<Node>, running: seq<RunningJob>, now: nat)
    requires Dense(nodes) && Accounted(nodes, running)
    requires now < NEVER && AllDueBefore(running, NEVER)
    ensures ShadowTime(request, nodes, running, now) == NEVER <==> !Satisfiable(request, nodes)
  {
    var t := NEVER - 1;
    forall i | 0 <= i < |nodes|
      ensures NodeFitsBy(request, nodes[i], running, t) == Within(request, nodes[i].capacity)
    {
      SumSame(running, running, CoresDue(i, t), CoresOn(i));
      SumSame(running, running, MemoryDue(i, t), MemoryOn(i));
    }
    assert FitsBy(request, nodes, running, t) == Satisfiable(request, nodes);
    if FitsAnywhere(request, nodes) {
      FitsNowFitsBy(request, nodes, running, t);
    } else {
      ShadowAtMost(request, nodes, running, now, t);
    }
  }

  // ----- the two queue policies -----

  datatype QueuePolicy = Fifo | Backfill

  /** The admission test of a candidate against the head's shadow time. */
  predicate Admissible(candidate: QueuedJob, nodes: seq<Node>, now: nat, shadow: nat)
  {
    now + candidate.estimatedDuration <= shadow && FitsAnywhere(candidate.request, nodes)
  }

  /** The first admissible candidate at or after position i. */
  function FirstAdmissible(backlog: seq<QueuedJob>, nodes: seq<Node>, now: nat, shadow: nat, i: nat): (r: Option<nat>)
    ensures r.Some? ==> i <= r.value < |backlog| && Admissible(backlog[r.value], nodes, now, shadow)
    ensures r.Some? ==> forall k :: i <= k < r.value ==> !Admissible(backlog[k], nodes, now, shadow)
    ensures r == None ==> forall k :: i <= k < |backlog| ==> !Admissible(backlog[k], nodes, now, shadow)
    decreases |backlog| - i
  {
    if i >= |backlog| then None
    else if Admissible(backlog[i], nodes, now, shadow) then Some(i)
    else FirstAdmissible(backlog, nodes, now, shadow, i + 1)
  }

  /** QueuePolicy::backfill: the id of the job that may jump the blocked head, if any. */
  ghost function Pick(policy: QueuePolicy, backlog: seq<QueuedJob>, nodes: seq<Node>, running: seq<RunningJob>, now: nat): Option<nat>
  {
    if policy == Fifo || |backlog| < 2 then None
    else
      var shadow := ShadowTime(backlog[0].request, nodes, running, now);
      if shadow == NEVER then None
      else
        var i := FirstAdmissible(backlog, nodes, now, shadow, 1);
        if i.Some? then Some(backlog[i.value].id) else None
  }

  /** Candidate q fits now and claims to be gone by every tick by which the head could start. */
  ghost predicate LetsPast(head: QueuedJob, q: QueuedJob, nodes: seq<Node>, running: seq<RunningJob>, now: nat)
  {
    && FitsAnywhere(q.request, nodes)
    && forall t: nat :: FitsBy(head.request, nodes, running, t) ==> now + q.estimatedDuration <= t
  }

  /** The head has room by some tick below kNever. */
  ghost predicate Reserved(head: QueuedJob, nodes: seq<Node>, running: seq<RunningJob>)
  {
    exists u: nat :: u < 0xFFFF_FFFF_FFFF_FFFF && FitsBy(head.request, nodes, running, u)
  }

  /** k is the first entry behind the head that may jump it. */
  ghost predicate FirstPast(backlog: seq<QueuedJob>, nodes: seq<Node>, running: seq<RunningJob>, now: nat, k: nat)
  {
    && 1 <= k < |backlog| && LetsPast(backlog[0], backlog[k], nodes, running, now)
    && forall i :: 1 <= i < k ==> !LetsPast(backlog[0], backlog[i], nodes, running, now)
  }

  /** Admission against the shadow time is admission against every tick by which the head fits. */
  lemma AdmissibleIsLetsPast(head: QueuedJob, q: QueuedJob, nodes: seq<Node>, running: seq<RunningJob>, now: nat)
    requires !FitsAnywhere(head.request, nodes) && Reserved(head, nodes, running)
    ensures ShadowTime(head.request, nodes, running, now) < NEVER
    ensures Admissible(q, nodes, now, ShadowTime(head.request, nodes, running, now)) <==> LetsPast(head, q, nodes, running, now)
  {
    hide FitsBy, FitsAnywhere;
    var t := ShadowTime(head.request, nodes, running, now);
    ShadowOfBlocked(head.request, nodes, running, now);
    assert FitsBy(head.request, nodes, running, t);
  }

  /** Which job a policy lets jump a blocked head, if any, without reference to a shadow time. */
  lemma {:induction false} PickExactly(policy: QueuePolicy, backlog: seq<QueuedJob>, nodes: seq<Node>, running: seq<RunningJob>, now: nat)
    requires backlog != [] && !FitsAnywhere(backlog[0].request, nodes)
    ensures var pick := Pick(policy, backlog, nodes, running, now);
            && (pick.Some? <==> policy == Backfill && Reserved(backlog[0], nodes, running)
                                && exists k: nat :: FirstPast(backlog, nodes, running, now, k))
            && (forall k: nat :: pick.Some? && FirstPast(backlog, nodes, running, now, k) ==> pick.value == backlog[k].id)
  {
    var head := backlog[0];
    ShadowOfBlocked(head.request, nodes, running, now);
    if policy == Backfill && Reserved(head, nodes, running) {
      var shadow := ShadowTime(head.request, nodes, running, now);
      forall k | 1 <= k < |backlog|
        ensures Admissible(backlog[k], nodes, now, shadow) <==> LetsPast(head, backlog[k], nodes, running, now)
      {
        AdmissibleIsLetsPast(head, backlog[k], nodes, running, now);
      }
      hide ShadowTime, LetsPast, Admissible, Reserved, FitsAnywhere;
      var i := FirstAdmissible(backlog, nodes, now, shadow, 1);
      if i.Some? { assert FirstPast(backlog, nodes, running, now, i.value); }
    }
  }
}
