/**
 * Phase 2 of drain rescans the backlog from the front after every placement. That refines one
 * left-to-right pass against a shadow time computed once.
 */
module SinglePass {
  import opened Seqs
  import opened Model
  import opened Shadow
  import opened Machine
  import opened Invariant
  import opened Drains
  import opened Reservation

  /** One pass from position i on: start what is admissible against S, step over what is not. */
  function Scan(c: Config, s: State, i: nat, S: nat): State
    decreases |s.pending| - i
  {
    if i >= |s.pending| then s
    else if AdmissibleAt(s, i, S) then
      var a := TryPlace(c, s, s.pending[i]);
      if a.placed
      then Scan(c, a.state.(pending := RemoveAt(s.pending, i), backfilled := s.backfilled + 1), i, S)
      else a.state
    else Scan(c, s, i + 1, S)
  }

  /** Admitting a candidate leaves the head's shadow time exactly where it was, whatever node it lands on. */
  lemma {:induction false} AdmissionKeepsShadow(c: Config, s: State, m: Move)
    requires Inv(c, s) && Allowed(c, s, m) && m.k > 0
    ensures Apply(s, m).pending != [] && HeadShadow(Apply(s, m)) == HeadShadow(s)
  {
    hide Inv, FitsBy, Apply, View;
    var t, h, S := Apply(s, m), s.pending[0], HeadShadow(s);
    PendingFacts(c, s, 0);
    MoveJob(c, s, m, h);
    StillBlocked(c, s, m);
    forall u: nat
      ensures FitsIn(t, h, u) ==> FitsIn(s, h, u)
      ensures u >= S ==> FitsIn(t, h, u) == FitsIn(s, h, u)
    {
      FitsInAfterMove(c, s, m, h, u);
    }
    assert FitsIn(s, h, S) && FitsIn(t, h, S);
    forall u: nat | u < S
      ensures !FitsBy(t.jobs[h].request, t.nodes, View(t), u)
    {
      assert !FitsIn(s, h, u);
    }
    LeastFitUnique(t.jobs[h].request, t.nodes, View(t), S);
  }

  /** A rejected candidate stays rejected while the pass goes on. */
  lemma RejectedStaysRejected(c: Config, s: State, m: Move, j: nat, S: nat)
    requires Inv(c, s) && CanBegin(c, s, m.k, m.n) && j < m.k && !AdmissibleAt(s, j, S)
    ensures !AdmissibleAt(Apply(s, m), j, S)
  {
    var t := Apply(s, m);
    assert t.pending[j] == s.pending[j] && s.pending[j] != s.pending[m.k];
    assert JobAt(t.jobs, t.pending[j]).request == RequestAt(s, j);
    hide Inv;
    if FitsAnywhere(RequestAt(s, j), t.nodes) {
      ShrinkingKeepsOut(RequestAt(s, j), s.nodes, t.nodes);
    }
  }

  /** With everything before i rejected, the first admissible entry i is the pick. */
  lemma PickIsNextAdmissible(c: Config, s: State, i: nat) returns (m: Move)
    requires Inv(c, s) && s.pending != [] && HeadBlocked(s) && c.policy == Backfill && HeadShadow(s) < NEVER
    requires 1 <= i < |s.pending| && AdmissibleAt(s, i, HeadShadow(s))
    requires forall j :: 1 <= j < i ==> !AdmissibleAt(s, j, HeadShadow(s))
    ensures Allowed(c, s, m) && m.k == i
    ensures var a := TryPlace(c, s, s.pending[i]);
            && a.placed && Apply(s, m) == a.state.(pending := RemoveAt(s.pending, i), backfilled := s.backfilled + 1)
            && Phase2(c, s) == Phase2(c, Apply(s, m))
  {
    hide Inv, PickFor, TryPlace, HeadShadow, Phase2, HeadBlocked, AdmissibleAt;
    var k := PickCases(c, s);
    m := Phase2Move(c, s);
  }

  lemma {:induction false} ScanMatches(c: Config, s: State, i: nat, S: nat)
    requires Inv(c, s) && NoEnd(s.queue) && s.pending != [] && HeadBlocked(s)
    requires c.policy == Backfill && S == HeadShadow(s) < NEVER && 1 <= i
    requires forall j :: 1 <= j < i && j < |s.pending| ==> !AdmissibleAt(s, j, S)
    ensures Phase2(c, s) == Scan(c, s, i, S)
    decreases |s.pending| - i
  {
    hide Inv, NoEnd, HeadBlocked, HeadShadow, PickFor, TryPlace, Phase2, AdmissibleAt;
    if i >= |s.pending| {
      var k := PickCases(c, s);
      NoPickNoChange(c, s);
    } else if AdmissibleAt(s, i, S) {
      var m := PickIsNextAdmissible(c, s, i);
      var t := Apply(s, m);
      BeginInv(c, s, m.k, m.n, m.cursor, m.backfilled);
      StillBlocked(c, s, m);
      AdmissionKeepsShadow(c, s, m);
      forall j | 1 <= j < i && j < |t.pending|
        ensures !AdmissibleAt(t, j, S)
      {
        RejectedStaysRejected(c, s, m, j, S);
      }
      ScanMatches(c, t, i, S);
    } else {
      ScanMatches(c, s, i + 1, S);
    }
  }

  lemma NoPickNoChange(c: Config, s: State)
    requires PickFor(c, s) == None
    ensures Phase2(c, s) == s
  {
  }

  /** Phase 2 starts the same jobs on the same nodes as one pass over the backlog. */
  lemma Phase2IsOnePass(c: Config, s: State)
    requires Inv(c, s) && NoEnd(s.queue) && s.pending != [] && HeadBlocked(s)
    ensures Phase2(c, s)
            == if c.policy == Backfill && HeadShadow(s) < NEVER then Scan(c, s, 1, HeadShadow(s)) else s
  {
    if c.policy == Backfill && HeadShadow(s) < NEVER {
      ScanMatches(c, s, 1, HeadShadow(s));
    } else {
      var k := PickCases(c, s);
      NoPickNoChange(c, s);
    }
  }
}
