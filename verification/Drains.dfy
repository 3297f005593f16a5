/** drain() as a sequence of allowed starts, the fixed point it reaches, and what it leaves alone. */
module Drains {
  import opened Seqs
  import opened Model
  import opened Shadow
  import opened Machine
  import opened Invariant
  import Placement

  /** One start inside a drain: backlog position, node, and the cursor and count afterwards. */
  datatype Move = Move(k: nat, n: nat, cursor: nat, backfilled: nat)

  function RequestAt(s: State, k: nat): Resources
    requires k < |s.pending|
  {
    JobAt(s.jobs, s.pending[k]).request
  }

  /** The head, if any, fits nowhere. */
  ghost predicate HeadBlocked(s: State)
  {
    s.pending != [] ==> !FitsAnywhere(RequestAt(s, 0), s.nodes)
  }

  /** The head's shadow time. */
  ghost function HeadShadow(s: State): nat
    requires s.pending != []
  {
    ShadowTime(RequestAt(s, 0), s.nodes, View(s), s.now)
  }

  /** Backlog entry k passes the admission test against the given shadow time. */
  predicate AdmissibleAt(s: State, k: nat, shadow: nat)
    requires k < |s.pending|
  {
    Admissible(QueuedView(JobAt(s.jobs, s.pending[k])), s.nodes, s.now, shadow)
  }

  /**
   * The only starts a drain makes: the head when it fits, or, under backfill and with the head
   * blocked, the first entry behind it that passes the admission test.
   */
  ghost predicate Allowed(c: Config, s: State, m: Move)
  {
    && CanBegin(c, s, m.k, m.n)
    && (m.k == 0 ==> m.backfilled == s.backfilled)
    && (m.k > 0 ==> && c.policy == Backfill && HeadBlocked(s) && HeadShadow(s) < NEVER
                    && AdmissibleAt(s, m.k, HeadShadow(s))
                    && (forall i :: 1 <= i < m.k ==> !AdmissibleAt(s, i, HeadShadow(s)))
                    && m.backfilled == s.backfilled + 1)
  }

  function Apply(s: State, m: Move): State
    requires m.k < |s.pending| && s.pending[m.k] < |s.jobs| && m.n < |s.nodes|
  {
    Begin(s, m.k, m.n, m.cursor, m.backfilled)
  }

  function WithCursor(s: State, cursor: nat): State
  {
    s.(cursor := cursor)
  }

  // ----- one attempt -----

  /** try_place succeeds exactly when something fits, and then it is a start on a node that fits. */
  lemma TryPlaceCases(c: Config, s: State, k: nat) returns (n: nat)
    requires Inv(c, s) && k < |s.pending|
    ensures var a := TryPlace(c, s, s.pending[k]);
            && s.pending[k] < |s.jobs|
            && (a.placed <==> FitsAnywhere(RequestAt(s, k), s.nodes))
            && (a.placed ==> && n < |s.nodes| && s.nodes[n].CanFit(RequestAt(s, k))
                             && a.state == Start(WithCursor(s, a.state.cursor), s.pending[k], n))
            && (!a.placed ==> a.state == WithCursor(s, a.state.cursor))
  {
    hide Lists, Phases, Stamped, Scheduled, Books, Totals, Metered, Paced, InFifoOrder;
    PendingArrived(s.jobs, s.pending, s.now, k);
    Placement.PlacementContract(c.placement, s.cursor, s.nodes, RequestAt(s, k));
    var choice := Placement.Place(c.placement, s.cursor, s.nodes, RequestAt(s, k));
    n := if choice.node.Some? then choice.node.value else 0;
  }

  /** What each placement policy promises about the node it takes, in reals and cyclic distances. */
  ghost predicate ChosenBy(policy: Placement.Policy, cursor: nat, nodes: seq<Node>, request: Resources, n: nat)
    requires n < |nodes|
  {
    match policy
    case FirstFit => forall k :: 0 <= k < n ==> !nodes[k].CanFit(request)
    case RoundRobin =>
      exists d :: 1 <= d <= |nodes| && Placement.Slot(cursor, |nodes|, d) == n
                  && forall k :: 1 <= k < d ==> !nodes[Placement.Slot(cursor, |nodes|, k)].CanFit(request)
    case LeastLoaded =>
      Placement.AllHaveCores(nodes) ==>
        forall k :: 0 <= k < |nodes| && nodes[k].CanFit(request) ==>
          && Placement.LoadNow(nodes[n]) <= Placement.LoadNow(nodes[k])
          && (k < n ==> Placement.LoadNow(nodes[n]) < Placement.LoadNow(nodes[k]))
    case ResourceAware =>
      Placement.AllHaveCores(nodes) ==>
        forall k :: 0 <= k < |nodes| && nodes[k].CanFit(request) ==>
          && Placement.LoadWith(nodes[k], request) <= Placement.LoadWith(nodes[n], request)
          && (k < n ==> Placement.LoadWith(nodes[k], request) < Placement.LoadWith(nodes[n], request))
  }

  /** A policy's choice is what it promises; only RoundRobin moves its cursor, onto the node it took. */
  lemma {:induction false} ChoiceFollowsPolicy(policy: Placement.Policy, cursor: nat, nodes: seq<Node>, request: Resources)
    requires Dense(nodes) && Placement.NoPhantomMemory(nodes)
    ensures var r := Placement.Place(policy, cursor, nodes, request);
            && (r.node.Some? ==> r.node.value < |nodes| && ChosenBy(policy, cursor, nodes, request, r.node.value))
            && (policy.RoundRobin? && r.node.Some? ==> r.cursor == r.node.value)
            && (!policy.RoundRobin? || (r.node == None && cursor < |nodes|) ==> r.cursor == cursor)
  {
    Placement.PlacementContract(policy, cursor, nodes, request);
    match policy
    case FirstFit => Placement.FirstFromIsFirst(nodes, request, 0);
    case RoundRobin =>
      if nodes != [] {
        var d := Placement.CyclicFromIsFirstInCyclicOrder(nodes, request, cursor, |nodes|);
        assert Placement.Place(policy, cursor, nodes, request).node.Some? ==> 1 <= d + 1 <= |nodes|;
      }
    case LeastLoaded => if Placement.AllHaveCores(nodes) { Placement.EmptiestIsOptimal(nodes, request, |nodes|); }
    case ResourceAware => if Placement.AllHaveCores(nodes) { Placement.TightestIsOptimal(nodes, request, |nodes|); }
  }

  /** During a run every start lands on the node the policy promises, and a failed attempt changes nothing. */
  lemma {:induction false} AttemptFollowsPolicy(c: Config, s: State, k: nat)
    requires Inv(c, s) && k < |s.pending|
    ensures var a := TryPlace(c, s, s.pending[k]);
            && s.pending[k] < |s.jobs| && |a.state.jobs| == |s.jobs|
            && (a.placed ==> var n := a.state.jobs[s.pending[k]].node;
                             n < |s.nodes| && ChosenBy(c.placement, s.cursor, s.nodes, RequestAt(s, k), n)
                             && a.state.cursor == if c.placement.RoundRobin? then n else s.cursor)
            && (!a.placed && s.cursor < |s.nodes| ==> a.state == s)
  {
    InvShape(c, s);
    PendingFacts(c, s, k);
    assert Placement.NoPhantomMemory(s.nodes) by {
      forall i | 0 <= i < |s.nodes|
        ensures Within(s.nodes[i].free, s.nodes[i].capacity)
      {
        NodeFacts(c, s, i);
      }
    }
    hide Inv, ChosenBy;
    Placement.PlacementContract(c.placement, s.cursor, s.nodes, RequestAt(s, k));
    ChoiceFollowsPolicy(c.placement, s.cursor, s.nodes, RequestAt(s, k));
  }

  /** A pick is a backlog entry behind the blocked head, the first one that is admissible. */
  lemma {:induction false} PickCases(c: Config, s: State) returns (k: nat)
    requires Inv(c, s) && s.pending != [] && HeadBlocked(s)
    ensures var pick := PickFor(c, s);
            && (pick.Some? ==>
                  && 1 <= k < |s.pending| && pick.value == s.pending[k] && IndexOf(s.pending, pick.value) == k
                  && c.policy == Backfill && HeadShadow(s) < NEVER && AdmissibleAt(s, k, HeadShadow(s))
                  && (forall i :: 1 <= i < k ==> !AdmissibleAt(s, i, HeadShadow(s))))
            && (pick == None && c.policy == Backfill && HeadShadow(s) != NEVER ==>
                  forall i :: 1 <= i < |s.pending| ==> !AdmissibleAt(s, i, HeadShadow(s)))
  {
    assert NoDup(s.pending);
    assert Ordered(s.jobs, s.pending, s.now);
    forall i | 0 <= i < |s.pending|
      ensures s.pending[i] < |s.jobs| && s.jobs[s.pending[i]].id == s.pending[i]
    {
    }
    hide Inv, FitsAnywhere, ShadowTime, FirstAdmissible;
    var backlog := BacklogView(s.jobs, s.pending);
    var shadow := ShadowTime(backlog[0].request, s.nodes, View(s), s.now);
    assert shadow == HeadShadow(s);
    var first := FirstAdmissible(backlog, s.nodes, s.now, shadow, 1);
    k := if first.Some? then first.value else 0;
    if PickFor(c, s).Some? {
      assert backlog[k].id == s.pending[k];
      IndexOfNoDup(s.pending, k);
      forall i | 1 <= i < k
        ensures !AdmissibleAt(s, i, shadow)
      {
        assert !Admissible(backlog[i], s.nodes, s.now, shadow);
      }
    } else if c.policy == Backfill && shadow != NEVER && |backlog| >= 2 {
      forall i | 1 <= i < |s.pending|
        ensures !AdmissibleAt(s, i, shadow)
      {
        assert !Admissible(backlog[i], s.nodes, s.now, shadow);
      }
    }
  }

  // ----- the whole drain -----

  /** Where a drain stops: the head fits nowhere and the policy picks nobody. */
  ghost predicate Settled(c: Config, s: State)
  {
    s.pending != [] ==> HeadBlocked(s) && PickFor(c, s) == None
  }

  /** P survives every start a drain may make and every move of the cursor. */
  ghost predicate Stable(c: Config, P: State -> bool)
  {
    && (forall s: State, m: Move :: Inv(c, s) && NoEnd(s.queue) && Allowed(c, s, m) && P(s) ==> P(Apply(s, m)))
    && (forall s: State, cursor: nat :: P(s) ==> P(WithCursor(s, cursor)))
  }

  /** The same for the starts of one phase only: at the head, or behind it. */
  ghost predicate StableFor(c: Config, P: State -> bool, behind: bool)
  {
    && (forall s: State, m: Move :: Inv(c, s) && NoEnd(s.queue) && Allowed(c, s, m) && P(s) && (m.k > 0) == behind ==> P(Apply(s, m)))
    && (forall s: State, cursor: nat :: P(s) ==> P(WithCursor(s, cursor)))
  }

  lemma {:induction false} Phase1Induction(c: Config, s: State, P: State -> bool)
    requires Inv(c, s) && NoEnd(s.queue) && P(s) && StableFor(c, P, false)
    ensures var t := Phase1(c, s);
            && Inv(c, t) && NoEnd(t.queue) && P(t) && HeadBlocked(t)
    decreases |s.pending|
  {
    hide Inv, NoEnd, FitsAnywhere;
    if s.pending != [] {
      var n := TryPlaceCases(c, s, 0);
      var a := TryPlace(c, s, s.pending[0]);
      if a.placed {
        var m := Move(0, n, a.state.cursor, s.backfilled);
        assert RemoveAt(s.pending, 0) == s.pending[1..];
        assert a.state.(pending := s.pending[1..]) == Apply(s, m);
        assert Allowed(c, s, m);
        BeginInv(c, s, 0, n, a.state.cursor, s.backfilled);
        Phase1Induction(c, Apply(s, m), P);
      } else {
        assert Inv(c, a.state) by { CursorInv(c, s, a.state.cursor); }
        assert P(WithCursor(s, a.state.cursor));
      }
    }
  }

  lemma CursorInv(c: Config, s: State, cursor: nat)
    requires Inv(c, s)
    ensures Inv(c, WithCursor(s, cursor))
  {
  }

  /** A start only shrinks what is free. */
  ghost predicate FreeShrinks(before: seq<Node>, after: seq<Node>)
  {
    |before| == |after| && forall i :: 0 <= i < |before| ==> Within(after[i].free, before[i].free)
  }

  lemma ShrinkingKeepsOut(request: Resources, before: seq<Node>, after: seq<Node>)
    requires FreeShrinks(before, after) && FitsAnywhere(request, after)
    ensures FitsAnywhere(request, before)
  {
  }

  lemma StillBlocked(c: Config, s: State, m: Move)
    requires Allowed(c, s, m) && HeadBlocked(s) && m.k > 0
    ensures HeadBlocked(Apply(s, m))
  {
  }

  lemma Phase2Unfold(c: Config, s: State, id: nat)
    requires PickFor(c, s) == Some(id) && id in s.pending && TryPlace(c, s, id).placed
    ensures Phase2(c, s) == Phase2(c, TryPlace(c, s, id).state.(pending := RemoveAt(s.pending, IndexOf(s.pending, id)),
                                                               backfilled := s.backfilled + 1))
  {
    hide TryPlace, PickFor;
  }

  lemma AdmissibleFits(s: State, k: nat, shadow: nat)
    requires k < |s.pending| && AdmissibleAt(s, k, shadow)
    ensures FitsAnywhere(RequestAt(s, k), s.nodes)
  {
  }

  /** One round of phase 2. */
  lemma Phase2Move(c: Config, s: State) returns (m: Move)
    requires Inv(c, s) && s.pending != [] && HeadBlocked(s) && PickFor(c, s).Some?
    ensures Allowed(c, s, m) && 1 <= m.k
    ensures PickFor(c, s) == Some(s.pending[m.k]) && IndexOf(s.pending, s.pending[m.k]) == m.k
    ensures var a := TryPlace(c, s, s.pending[m.k]);
            a.placed && Apply(s, m) == a.state.(pending := RemoveAt(s.pending, m.k), backfilled := s.backfilled + 1)
    ensures Phase2(c, s) == Phase2(c, Apply(s, m))
  {
    hide Inv, PickFor, TryPlace, HeadShadow, Phase2, HeadBlocked, AdmissibleAt, FitsAnywhere;
    var k := PickCases(c, s);
    var n := TryPlaceCases(c, s, k);
    var a := TryPlace(c, s, s.pending[k]);
    m := Move(k, n, a.state.cursor, s.backfilled + 1);
    AdmissibleFits(s, k, HeadShadow(s));
    Phase2Unfold(c, s, s.pending[k]);
  }

  lemma {:induction false} Phase2Induction(c: Config, s: State, P: State -> bool)
    requires Inv(c, s) && NoEnd(s.queue) && P(s) && StableFor(c, P, true)
    requires s.pending != [] && HeadBlocked(s)
    ensures var t := Phase2(c, s);
            && Inv(c, t) && NoEnd(t.queue) && P(t) && Settled(c, t)
            && t.pending != [] && t.pending[0] == s.pending[0]
    decreases |s.pending|
  {
    if PickFor(c, s).Some? {
      var m := Phase2Move(c, s);
      hide Inv, NoEnd, FitsAnywhere, PickFor, Phase2, HeadShadow;
      BeginInv(c, s, m.k, m.n, m.cursor, m.backfilled);
      var t := Apply(s, m);
      assert t.pending[0] == s.pending[0];
      StillBlocked(c, s, m);
      Phase2Induction(c, t, P);
    }
  }

  /** Whatever every allowed start keeps, a drain keeps; and a drain ends settled. */
  lemma DrainInduction(c: Config, s: State, P: State -> bool)
    requires Inv(c, s) && NoEnd(s.queue) && P(s) && Stable(c, P)
    ensures var t := Drain(c, s);
            Inv(c, t) && NoEnd(t.queue) && P(t) && Settled(c, t)
  {
    assert StableFor(c, P, false) && StableFor(c, P, true);
    Phase1Induction(c, s, P);
    var t := Phase1(c, s);
    if t.pending != [] {
      Phase2Induction(c, t, P);
    }
  }

  lemma {:induction false} DrainInv(c: Config, s: State)
    requires Inv(c, s) && NoEnd(s.queue)
    ensures Inv(c, Drain(c, s)) && NoEnd(Drain(c, s).queue) && Settled(c, Drain(c, s))
  {
    DrainInduction(c, s, _ => true);
  }

  /**
   * The fixed point spelled out: between events the head fits nowhere, and under backfill with a
   * finite shadow time every other waiting job fits nowhere or would outlast the shadow time.
   */
  lemma {:induction false} SettledMeans(c: Config, s: State)
    requires Inv(c, s) && Settled(c, s) && s.pending != []
    ensures !FitsAnywhere(RequestAt(s, 0), s.nodes)
    ensures c.policy == Backfill && HeadShadow(s) < NEVER ==>
              forall i :: 1 <= i < |s.pending| ==>
                || !FitsAnywhere(RequestAt(s, i), s.nodes)
                || s.now + JobAt(s.jobs, s.pending[i]).estimatedDuration > HeadShadow(s)
  {
    var k := PickCases(c, s);
    if c.policy == Backfill && HeadShadow(s) < NEVER {
      forall i | 1 <= i < |s.pending|
        ensures !FitsAnywhere(RequestAt(s, i), s.nodes)
                || s.now + JobAt(s.jobs, s.pending[i]).estimatedDuration > HeadShadow(s)
      {
        assert !AdmissibleAt(s, i, HeadShadow(s));
      }
    }
  }
}
