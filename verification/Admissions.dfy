/**
 * Which admission delays the head. Letting one candidate past costs the head its true shadow time
 * exactly when the candidate outlasts that tick on the node it takes and what it holds there is missing.
 */
module Admissions {
  import opened Seqs
  import opened Model
  import opened Shadow
  import opened Machine
  import opened Invariant
  import opened Events
  import opened Drains
  import opened Runs
  import opened Outcomes
  import opened Reservation
  import opened Delay

  /** What node i must have at tick F if entry k starts on node n: the head's request, and k's if still held there. */
  function Needed(s: State, k: nat, n: nat, i: nat, F: nat): Resources
    requires 0 < |s.pending| && k < |s.pending|
  {
    var j := JobAt(s.jobs, s.pending[k]);
    Plus(RequestAt(s, 0), if i == n && s.now + j.duration > F then j.request else NOTHING)
  }

  /** Some node can take the head at tick F although entry k starts on node n now. */
  predicate LeavesRoom(s: State, k: nat, n: nat, F: nat)
    requires k < |s.pending|
  {
    exists i :: 0 <= i < |s.nodes|
                && Within(Needed(s, k, n, i, F), Plus(s.nodes[i].free, Returned(View(Exact(s)), s.nodes[i].id, F)))
  }

  lemma NodeAfterStart(request: Resources, nodes: seq<Node>, view: seq<RunningJob>, n: nat, r: RunningJob, i: nat, u: nat)
    requires Dense(nodes) && n < |nodes| && i < |nodes| && r.node == n && nodes[n].CanFit(r.held)
    ensures NodeFitsBy(request, nodes[n := Occupy(nodes[n], r.held)][i], view + [r], u)
            <==> Within(Plus(request, if i == n && r.estimatedFinish > u then r.held else NOTHING),
                        Plus(nodes[i].free, Returned(view, nodes[i].id, u)))
  {
    ReturnedAfterStart(view, r, i, u);
    hide Returned;
  }

  /** What entry k looks like to a policy that knows its duration, once on node n. */
  function TrulyRunning(s: State, k: nat, n: nat): RunningJob
    requires k < |s.pending|
  {
    RunningView(StartedJob(ExactJob(JobAt(s.jobs, s.pending[k])), s.now, n))
  }

  lemma AfterAdmission(c: Config, s: State, m: Move)
    requires Inv(c, s) && CanBegin(c, s, m.k, m.n)
    ensures s.pending[0] < |s.jobs| && |Exact(Apply(s, m)).jobs| == |s.jobs| && Dense(s.nodes)
    ensures View(Exact(Apply(s, m))) == View(Exact(s)) + [TrulyRunning(s, m.k, m.n)]
    ensures Apply(s, m).nodes == s.nodes[m.n := Occupy(s.nodes[m.n], TrulyRunning(s, m.k, m.n).held)]
    ensures Exact(Apply(s, m)).jobs[s.pending[0]].request == RequestAt(s, 0)
  {
    PendingFacts(c, s, 0);
    ExactInv(c, s);
    ExactMove(c, s, m);
    ExactAdmission(s, m.k);
    ViewAfterMove(ExactConfig(c), Exact(s), m);
    hide Inv, View;
  }

  /** The check a policy that knew the durations could make before it admits entry k. */
  lemma {:induction false} AdmissionKeepsRoomExactly(c: Config, s: State, m: Move, F: nat)
    requires Inv(c, s) && CanBegin(c, s, m.k, m.n) && m.k > 0
    ensures s.pending[0] < |s.jobs| && |Apply(s, m).jobs| == |s.jobs|
    ensures TrulyFits(Apply(s, m), s.pending[0], F) <==> LeavesRoom(s, m.k, m.n, F)
  {
    AfterAdmission(c, s, m);
    assert |Apply(s, m).jobs| == |s.jobs| && s.nodes[m.n].CanFit(TrulyRunning(s, m.k, m.n).held);
    hide Inv, View, Exact, Returned, NodeFitsBy, Apply;
    assert Exact(Apply(s, m)).nodes == Apply(s, m).nodes by { SameQueue(Apply(s, m)); }
    var view, r := View(Exact(s)), TrulyRunning(s, m.k, m.n);
    forall i | 0 <= i < |s.nodes|
      ensures NodeFitsBy(RequestAt(s, 0), Apply(s, m).nodes[i], view + [r], F)
              <==> Within(Needed(s, m.k, m.n, i, F), Plus(s.nodes[i].free, Returned(view, s.nodes[i].id, F)))
    {
      NodeAfterStart(RequestAt(s, 0), s.nodes, view, m.n, r, i, F);
    }
  }

  // ----- every admission of a drain -----

  /** Each candidate phase 2 lets past the head leaves it room at F. */
  ghost predicate AllLeaveRoom(c: Config, s: State, F: nat)
    decreases |s.pending|
  {
    var pick := PickFor(c, s);
    pick != None ==>
      var a := TryPlace(c, s, pick.value);
      var k := IndexOf(s.pending, pick.value);
      a.placed && k < |s.pending| && pick.value < |a.state.jobs| ==>
        && LeavesRoom(s, k, a.state.jobs[pick.value].node, F)
        && AllLeaveRoom(c, a.state.(pending := RemoveAt(s.pending, k), backfilled := s.backfilled + 1), F)
  }

  lemma AllLeaveRoomUnfold(c: Config, s: State, m: Move, F: nat)
    requires 1 <= m.k < |s.pending| && PickFor(c, s) == Some(s.pending[m.k]) && IndexOf(s.pending, s.pending[m.k]) == m.k
    requires s.pending[m.k] < |s.jobs| && m.n < |s.nodes|
    requires var a := TryPlace(c, s, s.pending[m.k]);
             a.placed && Apply(s, m) == a.state.(pending := RemoveAt(s.pending, m.k), backfilled := s.backfilled + 1)
    ensures AllLeaveRoom(c, s, F) <==> LeavesRoom(s, m.k, m.n, F) && AllLeaveRoom(c, Apply(s, m), F)
  {
    hide PickFor, TryPlace, LeavesRoom, Apply, IndexOf, RemoveAt;
    StartedOn(s, m);
  }

  lemma StartedOn(s: State, m: Move)
    requires m.k < |s.pending| && s.pending[m.k] < |s.jobs| && m.n < |s.nodes|
    ensures |Apply(s, m).jobs| == |s.jobs| && Apply(s, m).jobs[s.pending[m.k]].node == m.n
  {
  }

  lemma NoPickAllLeave(c: Config, s: State, F: nat)
    requires PickFor(c, s) == None
    ensures AllLeaveRoom(c, s, F) && Phase2(c, s) == s
  {
  }

  /** No start brings true room forward. */
  lemma MoveBringsNoRoom(c: Config, s: State, m: Move, h: nat, F: nat)
    requires Inv(c, s) && CanBegin(c, s, m.k, m.n) && h < |s.jobs| && !TrulyFits(s, h, F)
    ensures |Apply(s, m).jobs| == |s.jobs| && !TrulyFits(Apply(s, m), h, F)
  {
    ExactInv(c, s);
    ExactMove(c, s, m);
    hide Inv, FitsIn, Exact;
    assert |Exact(s).jobs| == |s.jobs| by { SameQueue(s); }
    FitsInAfterMove(ExactConfig(c), Exact(s), m, h, F);
  }

  ghost function Roomless(h: nat, F: nat): State -> bool
  {
    (s: State) => h < |s.jobs| && !TrulyFits(s, h, F)
  }

  lemma Phase2BringsNoRoom(c: Config, s: State, h: nat, F: nat)
    requires Inv(c, s) && NoEnd(s.queue) && s.pending != [] && HeadBlocked(s)
    requires h < |s.jobs| && !TrulyFits(s, h, F)
    ensures h < |Phase2(c, s).jobs| && !TrulyFits(Phase2(c, s), h, F)
  {
    hide Inv, NoEnd, HeadBlocked, Phase2, TrulyFits, AdmissibleAt, HeadShadow;
    var P := Roomless(h, F);
    forall t: State, m: Move | Inv(c, t) && NoEnd(t.queue) && Allowed(c, t, m) && P(t)
      ensures P(Apply(t, m))
    {
      MoveBringsNoRoom(c, t, m, h, F);
    }
    forall t: State, cursor: nat | P(t)
      ensures P(WithCursor(t, cursor))
    {
      CursorRoom(t, cursor, h, F);
    }
    Phase2Induction(c, s, P);
  }

  lemma CursorRoom(t: State, cursor: nat, h: nat, F: nat)
    requires h < |t.jobs|
    ensures TrulyFits(WithCursor(t, cursor), h, F) == TrulyFits(t, h, F)
  {
    ExactCursor(t, cursor);
    assert View(WithCursor(Exact(t), cursor)) == View(Exact(t));
    hide View, Exact, FitsBy;
  }

  /** The head keeps its true room through phase 2 exactly when every candidate leaves it. */
  lemma {:induction false} Phase2KeepsRoomExactly(c: Config, s: State, h: nat, F: nat)
    requires Inv(c, s) && NoEnd(s.queue) && s.pending != [] && s.pending[0] == h < |s.jobs| && HeadBlocked(s)
    requires TrulyFits(s, h, F)
    ensures h < |Phase2(c, s).jobs| && (TrulyFits(Phase2(c, s), h, F) <==> AllLeaveRoom(c, s, F))
    decreases |s.pending|
  {
    hide Inv, NoEnd, HeadBlocked, PickFor, Phase2, TryPlace, TrulyFits, LeavesRoom, HeadShadow, AdmissibleAt, AllLeaveRoom;
    if PickFor(c, s) == None {
      NoPickAllLeave(c, s, F);
    } else {
      var m := Phase2Move(c, s);
      AllLeaveRoomUnfold(c, s, m, F);
      AdmissionKeepsRoomExactly(c, s, m, F);
      BeginInv(c, s, m.k, m.n, m.cursor, m.backfilled);
      StillBlocked(c, s, m);
      assert Apply(s, m).pending[0] == h;
      if LeavesRoom(s, m.k, m.n, F) {
        Phase2KeepsRoomExactly(c, Apply(s, m), h, F);
      } else {
        Phase2BringsNoRoom(c, Apply(s, m), h, F);
      }
    }
  }

  // ----- steps and runs -----

  /** A drain whose first attempt places the head starts it. */
  lemma DrainStartsFittingHead(c: Config, b: State)
    requires Inv(c, b) && NoEnd(b.queue) && b.pending != [] && TryPlace(c, b, b.pending[0]).placed
    ensures b.pending[0] < |Drain(c, b).jobs| && Drain(c, b).jobs[b.pending[0]].state != Queued
  {
    hide Inv, NoEnd, FitsAnywhere, Phase2, Follows;
    var n := TryPlaceCases(c, b, 0);
    var a := TryPlace(c, b, b.pending[0]);
    var m := Move(0, n, a.state.cursor, b.backfilled);
    assert RemoveAt(b.pending, 0) == b.pending[1..];
    assert a.state.(pending := b.pending[1..]) == Apply(b, m);
    BeginInv(c, b, 0, n, a.state.cursor, b.backfilled);
    assert Drain(c, b) == Drain(c, Apply(b, m));
    hide Drain;
    DrainFollows(c, Apply(b, m));
    StaysStarted(Apply(b, m), Drain(c, Apply(b, m)), b.pending[0]);
  }

  lemma StaysStarted(s: State, t: State, j: nat)
    requires Follows(s, t) && j < |s.jobs| && s.jobs[j].state != Queued
    ensures j < |t.jobs| && t.jobs[j].state != Queued
  {
  }

  /** A drain that leaves the head waiting tries it once, and the rest is phase 2. */
  lemma DrainPastWaitingHead(c: Config, b: State, h: nat)
    requires Inv(c, b) && NoEnd(b.queue) && Waits(b, h) && Waits(Drain(c, b), h)
    ensures var u := Phase1(c, b);
            && u == WithCursor(b, u.cursor) && Drain(c, b) == Phase2(c, u)
            && Inv(c, u) && NoEnd(u.queue) && HeadBlocked(u)
  {
    hide Inv, NoEnd, HeadBlocked, Phase2, FitsAnywhere, Follows;
    var n := TryPlaceCases(c, b, 0);
    if TryPlace(c, b, h).placed { DrainStartsFittingHead(c, b); }
    PhasesFollow(c, b);
  }

  /** One event, for a head that waits before and after it. */
  lemma StepKeepsRoomExactly(c: Config, s: State, h: nat, F: nat)
    requires Between(c, s) && s.queue != [] && !NextEvent(s).payload.SimEnd?
    requires Waits(s, h) && Waits(Step(c, s), h) && TrulyFits(s, h, F)
    ensures TrulyFits(Step(c, s), h, F) <==> AllLeaveRoom(c, Phase1(c, BeforeDrain(s)), F)
  {
    hide Inv, NoEnd, BeforeDrain, Drain, HeadBlocked, Phase1, Phase2, Settled, Counted, TrulyFits, AllLeaveRoom;
    var b := BeforeDrain(s);
    BeforeDrainInv(c, s);
    EventJob(c, s, h);
    EventTrulyFits(c, s, h, F);
    var d := Drain(c, b);
    SameRoom(d, Step(c, s), h, F);
    DrainPastWaitingHead(c, b, h);
    CursorRoom(b, Phase1(c, b).cursor, h, F);
    Phase2KeepsRoomExactly(c, Phase1(c, b), h, F);
  }

  lemma SameRoom(s: State, t: State, h: nat, F: nat)
    requires t.jobs == s.jobs && t.running == s.running && t.nodes == s.nodes && h < |s.jobs|
    ensures TrulyFits(t, h, F) == TrulyFits(s, h, F)
  {
    assert View(Exact(t)) == View(Exact(s));
    hide View, FitsBy;
  }

  /** The candidates let past the head at the n-th event each leave it room at F. */
  ghost predicate Considerate(c: Config, n: nat, F: nat)
  {
    var s := At(c, n);
    s.queue != [] && !NextEvent(s).payload.SimEnd? ==> AllLeaveRoom(c, Phase1(c, BeforeDrain(s)), F)
  }

  /** Every candidate ever let past h leaves it room at F. */
  ghost predicate AlwaysConsiderate(c: Config, m: nat, h: nat, F: nat)
  {
    forall n: nat :: m <= n && Waits(At(c, n), h) && Waits(At(c, n + 1), h) ==> Considerate(c, n, F)
  }

  lemma EventKeepsRoomExactly(c: Config, n: nat, h: nat, F: nat)
    requires WellFormed(c) && Waits(At(c, n), h) && Waits(At(c, n + 1), h) && TrulyFits(At(c, n), h, F)
    ensures TrulyFits(At(c, n + 1), h, F) <==> Considerate(c, n, F)
  {
    RunInvariant(c, n);
    var s := At(c, n);
    if s.queue != [] {
      NextInRun(c, n);
      hide At, Between, Step, TrulyFits, AllLeaveRoom, Waits;
      if NextEvent(s).payload.SimEnd? {
        StepEnd(c, s);
        SameRoom(s, Step(c, s), h, F);
      } else {
        StepKeepsRoomExactly(c, s, h, F);
      }
    }
  }

  lemma {:induction false} RoomByAdmissions(c: Config, m: nat, n: nat, h: nat, F: nat)
    requires WellFormed(c) && m <= n && Waits(At(c, m), h) && Waits(At(c, n), h)
    requires TrulyFits(At(c, m), h, F) && AlwaysConsiderate(c, m, h, F)
    ensures TrulyFits(At(c, n), h, F)
  {
    hide At, TrulyFits, Considerate;
    if m < n {
      HeadStaysHead(c, m, n - 1);
      RunAdvances(c, n - 1, n);
      assert Waits(At(c, n - 1), h);
      RoomByAdmissions(c, m, n - 1, h, F);
      EventKeepsRoomExactly(c, n - 1, h, F);
    }
  }

  /** True room for the head lasts as long as it waits exactly when every candidate let past it leaves it. */
  lemma {:induction false} RoomThroughoutExactly(c: Config, m: nat, F: nat)
    requires WellFormed(c) && At(c, m).pending != []
    requires At(c, m).pending[0] < |At(c, m).jobs| && TrulyFits(At(c, m), At(c, m).pending[0], F)
    ensures RoomThroughout(c, m, At(c, m).pending[0], F) <==> AlwaysConsiderate(c, m, At(c, m).pending[0], F)
  {
    hide At, Between, TrulyFits, Considerate;
    var h := At(c, m).pending[0];
    RunInvariant(c, m);
    TrueShadowFacts(c, At(c, m));
    if RoomThroughout(c, m, h, F) {
      forall n: nat | m <= n && Waits(At(c, n), h) && Waits(At(c, n + 1), h)
        ensures Considerate(c, n, F)
      {
        EventKeepsRoomExactly(c, n, h, F);
      }
    }
    if AlwaysConsiderate(c, m, h, F) {
      forall n: nat | m <= n && Waits(At(c, n), h)
        ensures TrulyFits(At(c, n), h, F)
      {
        RoomByAdmissions(c, m, n, h, F);
      }
    }
  }

  /**
   * The guard a policy would need: backfill starts the head when fifo would exactly when every
   * candidate it lets past leaves a node with room for the head at its true shadow time, counting
   * what the candidate holds there if it is still running then.
   */
  lemma {:induction false} DelayedExactlyByAdmissions(c: Config, d: Config, m: nat)
    requires WellFormed(c) && WellFormed(d) && d.policy == Fifo && At(c, m) == At(d, m)
    requires At(c, m).pending != [] && TrueShadow(At(c, m)) < NEVER
    ensures var h, F := At(c, m).pending[0], TrueShadow(At(c, m));
            && h < |Final(c).jobs| && h < |Final(d).jobs|
            && (Final(c).jobs[h].startTime == Final(d).jobs[h].startTime <==> AlwaysConsiderate(c, m, h, F))
  {
    hide At, Between, TrueShadow, TrulyFits, RoomThroughout, AlwaysConsiderate;
    RunInvariant(c, m);
    TrueShadowAtMost(c, At(c, m), TrueShadow(At(c, m)));
    DelayedExactly(c, d, m);
    RoomThroughoutExactly(c, m, TrueShadow(At(c, m)));
  }

  // ----- nobody left to let past -----

  ghost predicate OthersStarted(s: State, h: nat)
  {
    forall j :: 0 <= j < |s.jobs| && j != h ==> s.jobs[j].state != Queued
  }

  lemma NobodyToLetPast(c: Config, s: State, h: nat, F: nat)
    requires Inv(c, s) && s.queue != [] && !NextEvent(s).payload.SimEnd? && Waits(s, h) && OthersStarted(s, h)
    requires Waits(Drain(c, BeforeDrain(s)), h)
    ensures AllLeaveRoom(c, Phase1(c, BeforeDrain(s)), F)
  {
    hide NoEnd, Drain, HeadBlocked, LeavesRoom, BeforeDrain, AllLeaveRoom, Phase1, Phase2;
    var b := BeforeDrain(s);
    BeforeDrainInv(c, s);
    BeforeDrainJobs(c, s);
    EventJob(c, s, h);
    DrainPastWaitingHead(c, b, h);
    OneInBacklog(c, Phase1(c, b), h);
    NoPickAllLeave(c, Phase1(c, b), F);
  }

  lemma OneInBacklog(c: Config, u: State, h: nat)
    requires Inv(c, u) && OthersStarted(u, h)
    ensures PickFor(c, u) == None
  {
    if |u.pending| >= 2 {
      PendingFacts(c, u, 0);
      PendingFacts(c, u, 1);
    }
  }

  /** Once everybody else has started, the head starts exactly at its true shadow time under either policy. */
  lemma {:induction false} LastInLine(c: Config, m: nat)
    requires WellFormed(c) && At(c, m).pending != [] && TrueShadow(At(c, m)) < NEVER
    requires OthersStarted(At(c, m), At(c, m).pending[0])
    ensures var h, f := At(c, m).pending[0], Final(c);
            h < |f.jobs| && f.jobs[h].state == Done && f.jobs[h].startTime == TrueShadow(At(c, m))
  {
    hide At, Between, TrueShadow, TrulyFits, RoomThroughout, Considerate;
    var h, F := At(c, m).pending[0], TrueShadow(At(c, m));
    RunInvariant(c, m);
    TrueShadowAtMost(c, At(c, m), F);
    CompletesNotBefore(c, m);
    RoomThroughoutExactly(c, m, F);
    StartsByExactly(c, m, F);
    forall n: nat | m <= n && Waits(At(c, n), h) && Waits(At(c, n + 1), h)
      ensures Considerate(c, n, F)
    {
      RunAdvances(c, m, n);
      OthersStay(At(c, m), At(c, n), h);
      LoneHeadIsConsiderate(c, n, h, F);
    }
  }

  lemma OthersStay(s: State, t: State, h: nat)
    requires OthersStarted(s, h) && |s.jobs| == |t.jobs|
    requires forall i :: 0 <= i < |s.jobs| ==> JobAdvances(s.jobs[i], t.jobs[i])
    ensures OthersStarted(t, h)
  {
  }

  lemma LoneHeadIsConsiderate(c: Config, n: nat, h: nat, F: nat)
    requires WellFormed(c) && Waits(At(c, n), h) && Waits(At(c, n + 1), h) && OthersStarted(At(c, n), h)
    ensures Considerate(c, n, F)
  {
    RunInvariant(c, n);
    var s := At(c, n);
    if s.queue != [] && !NextEvent(s).payload.SimEnd? {
      NextInRun(c, n);
      hide At, Inv, Settled, Counted, AllLeaveRoom, BeforeDrain, Drain, OthersStarted, Phase1;
      BeforeDrainInv(c, s);
      NobodyToLetPast(c, s, h, F);
    }
  }
}
