/**
 * The EASY guarantee over whole runs: once a job is the blocked head with shadow time S, no later
 * arrival, finish or backfill pushes its shadow time past S, and it starts no later than S.
 */
module Reservation {
  import opened Seqs
  import opened Model
  import opened Shadow
  import opened Machine
  import opened Invariant
  import opened Events
  import opened Drains
  import opened Runs
  import opened Outcomes

  /** A walltime claim is never below the true duration. */
  ghost predicate HonestEstimates(c: Config)
  {
    forall j :: 0 <= j < |c.jobs| ==> c.jobs[j].duration <= c.jobs[j].estimatedDuration
  }

  /** A walltime claim is the true duration (the padding-zero control). */
  ghost predicate PerfectEstimates(c: Config)
  {
    forall j :: 0 <= j < |c.jobs| ==> c.jobs[j].duration == c.jobs[j].estimatedDuration
  }

  // ----- how starts and finishes move the predicted releases -----

  lemma ReturnedAfterStart(view: seq<RunningJob>, r: RunningJob, i: nat, u: nat)
    ensures Returned(view + [r], i, u)
            == if r.node == i && r.estimatedFinish <= u then Plus(Returned(view, i, u), r.held) else Returned(view, i, u)
  {
  }

  /** A start changes nothing from its predicted end on, and before that can only take room away. */
  lemma FitsByAfterStart(request: Resources, nodes: seq<Node>, view: seq<RunningJob>, n: nat, r: RunningJob, u: nat)
    requires Dense(nodes) && n < |nodes| && r.node == n && nodes[n].CanFit(r.held)
    ensures var after := nodes[n := Occupy(nodes[n], r.held)];
            && (FitsBy(request, after, view + [r], u) ==> FitsBy(request, nodes, view, u))
            && (r.estimatedFinish <= u ==> FitsBy(request, after, view + [r], u) == FitsBy(request, nodes, view, u))
  {
    var after := nodes[n := Occupy(nodes[n], r.held)];
    forall i | 0 <= i < |nodes|
      ensures NodeFitsBy(request, after[i], view + [r], u) ==> NodeFitsBy(request, nodes[i], view, u)
      ensures r.estimatedFinish <= u ==> NodeFitsBy(request, after[i], view + [r], u) == NodeFitsBy(request, nodes[i], view, u)
    {
      ReturnedAfterStart(view, r, i, u);
    }
  }

  lemma ReturnedAfterFinish(view: seq<RunningJob>, k: nat, i: nat, u: nat)
    requires k < |view|
    ensures Returned(view, i, u)
            == if view[k].node == i && view[k].estimatedFinish <= u
               then Plus(Returned(RemoveAt(view, k), i, u), view[k].held) else Returned(RemoveAt(view, k), i, u)
  {
    SumRemoveAt(view, k, CoresDue(i, u));
    SumRemoveAt(view, k, MemoryDue(i, u));
  }

  /** A finish can only add room, and from its predicted end on it changes nothing. */
  lemma FitsByAfterFinish(request: Resources, nodes: seq<Node>, view: seq<RunningJob>, k: nat, u: nat)
    requires Dense(nodes) && k < |view| && view[k].node < |nodes|
    ensures var after := nodes[view[k].node := Vacate(nodes[view[k].node], view[k].held)];
            && (FitsBy(request, nodes, view, u) ==> FitsBy(request, after, RemoveAt(view, k), u))
            && (view[k].estimatedFinish <= u ==> FitsBy(request, after, RemoveAt(view, k), u) == FitsBy(request, nodes, view, u))
  {
    var after := nodes[view[k].node := Vacate(nodes[view[k].node], view[k].held)];
    forall i | 0 <= i < |nodes|
      ensures NodeFitsBy(request, nodes[i], view, u) ==> NodeFitsBy(request, after[i], RemoveAt(view, k), u)
      ensures view[k].estimatedFinish <= u ==>
                NodeFitsBy(request, after[i], RemoveAt(view, k), u) == NodeFitsBy(request, nodes[i], view, u)
    {
      ReturnedAfterFinish(view, k, i, u);
    }
  }

  // ----- the reservation as an invariant -----

  predicate FitsIn(s: State, h: nat, u: nat)
    requires h < |s.jobs|
  {
    FitsBy(s.jobs[h].request, s.nodes, View(s), u)
  }

  /** h started by S, or heads the backlog with room predicted by S and the clock not past S. */
  ghost predicate Kept(s: State, h: nat, S: nat)
  {
    && h < |s.jobs|
    && (s.jobs[h].state != Queued ==> s.jobs[h].startTime <= S)
    && (s.jobs[h].state == Queued ==> s.pending != [] && s.pending[0] == h && s.now <= S && FitsIn(s, h, S))
  }

  /** h did not start before S, and no room was predicted between now and S. */
  ghost predicate NotEarly(s: State, h: nat, S: nat)
  {
    && h < |s.jobs|
    && (s.jobs[h].state != Queued ==> S <= s.jobs[h].startTime)
    && (s.jobs[h].state == Queued ==> s.pending != [] && s.pending[0] == h && forall u: nat :: s.now <= u < S ==> !FitsIn(s, h, u))
  }

  lemma ViewAfterMove(c: Config, s: State, m: Move)
    requires Inv(c, s) && CanBegin(c, s, m.k, m.n)
    ensures s.jobs[s.pending[m.k]].state == Queued
    ensures View(Apply(s, m)) == View(s) + [RunningView(StartedJob(s.jobs[s.pending[m.k]], s.now, m.n))]
    ensures Dense(s.nodes)
  {
    assert s.pending[m.k] in s.pending;
    ViewAfterStart(s.jobs, s.running, s.pending[m.k], StartedJob(s.jobs[s.pending[m.k]], s.now, m.n));
  }

  /** What a start does to any other waiting job's prediction. */
  lemma FitsInAfterMove(c: Config, s: State, m: Move, h: nat, u: nat)
    requires Inv(c, s) && CanBegin(c, s, m.k, m.n) && h < |s.jobs|
    ensures FitsIn(Apply(s, m), h, u) ==> FitsIn(s, h, u)
    ensures s.now + s.jobs[s.pending[m.k]].estimatedDuration <= u ==> FitsIn(Apply(s, m), h, u) == FitsIn(s, h, u)
  {
    ViewAfterMove(c, s, m);
    hide Inv, FitsBy;
    var j := s.jobs[s.pending[m.k]];
    FitsByAfterStart(s.jobs[h].request, s.nodes, View(s), m.n, RunningView(StartedJob(j, s.now, m.n)), u);
    assert Apply(s, m).jobs[h].request == s.jobs[h].request;
  }

  /** A start other than h's own leaves h where it is. */
  lemma MoveJob(c: Config, s: State, m: Move, h: nat)
    requires Inv(c, s) && CanBegin(c, s, m.k, m.n) && h < |s.jobs|
    ensures var t := Apply(s, m);
            && h < |t.jobs| && t.jobs[h].request == s.jobs[h].request && t.now == s.now
            && (s.jobs[h].state != Queued ==> t.jobs[h] == s.jobs[h])
            && (s.pending[m.k] != h ==> t.jobs[h] == s.jobs[h])
            && (s.pending[m.k] == h ==> t.jobs[h].state == Running && t.jobs[h].startTime == s.now)
            && (m.k > 0 ==> t.pending != [] && t.pending[0] == s.pending[0] && s.pending[m.k] != s.pending[0])
  {
    PendingFacts(c, s, m.k);
    hide Inv;
  }

  lemma MoveKeeps(c: Config, s: State, m: Move, h: nat, S: nat)
    requires Inv(c, s) && Allowed(c, s, m) && Kept(s, h, S) && S < NEVER
    ensures Kept(Apply(s, m), h, S)
  {
    hide Inv, View, FitsBy, Apply, FitsAnywhere;
    MoveJob(c, s, m, h);
    if s.jobs[h].state == Queued && m.k > 0 {
      assert RequestAt(s, 0) == s.jobs[h].request;
      ShadowAtMost(s.jobs[h].request, s.nodes, View(s), s.now, S);
      FitsInAfterMove(c, s, m, h, S);
    }
  }

  lemma MoveNotEarly(c: Config, s: State, m: Move, h: nat, S: nat)
    requires Inv(c, s) && CanBegin(c, s, m.k, m.n) && NotEarly(s, h, S)
    ensures NotEarly(Apply(s, m), h, S)
  {
    hide Inv, View, FitsBy, Apply;
    MoveJob(c, s, m, h);
    if s.jobs[h].state == Queued {
      if m.k == 0 {
        FitsNowFitsBy(s.jobs[h].request, s.nodes, View(s), s.now);
        assert FitsIn(s, h, s.now);
      } else {
        forall u: nat | s.now <= u < S
          ensures !FitsIn(Apply(s, m), h, u)
        {
          FitsInAfterMove(c, s, m, h, u);
        }
      }
    }
  }

  // ----- events -----

  /** The estimated finish of a running job is not before its queued, true finish. */
  lemma FinishIsQueuedInTime(c: Config, s: State, k: nat)
    requires Inv(c, s) && HonestEstimates(c) && k < |View(s)| && s.queue != []
    ensures s.now <= View(s)[k].estimatedFinish
    ensures NextEvent(s).time <= View(s)[k].estimatedFinish
  {
    var id := s.running[k];
    assert id in s.running && PhaseOk(s.jobs[id], |s.nodes|, s.now) && SameInputs(s.jobs[id], c.jobs[id]);
    var q :| 0 <= q < |s.queue| && IsFinishOf(s.queue[q], id);
    assert EventOk(s.jobs, s.pending, s.queue[q]);
    assert !Earlier(s.queue[q], NextEvent(s));
  }

  lemma RunningMeansQueued(c: Config, s: State)
    requires Inv(c, s) && s.running != []
    ensures s.queue != []
  {
    assert s.running[0] in s.running;
    assert HasFinish(s.queue, s.running[0]);
  }

  /** Between events the head fits nowhere. */
  lemma SettledIsBlocked(c: Config, s: State)
    requires Between(c, s)
    ensures Inv(c, s) && HeadBlocked(s)
  {
  }

  /** While the head is blocked the next event comes no later than its reservation. */
  lemma NextEventWithinReservation(c: Config, s: State, h: nat, S: nat)
    requires Inv(c, s) && HeadBlocked(s) && HonestEstimates(c) && s.queue != []
    requires Kept(s, h, S) && s.jobs[h].state == Queued
    ensures NextEvent(s).time <= S
  {
    var k := BlockedWaitsForAFinish(s.jobs[h].request, s.nodes, View(s), S);
    FinishIsQueuedInTime(c, s, k);
  }

  /** The view and the nodes a finish hands to drain. */
  lemma FinishShape(c: Config, s: State, id: nat, n: nat) returns (k: nat)
    requires Inv(c, s) && s.queue != [] && NextEvent(s).payload == JobFinish(id, n)
    ensures k < |View(s)| && View(s)[k].node == n < |s.nodes| && Dense(s.nodes)
    ensures id < |s.jobs| && View(s)[k] == RunningView(s.jobs[id]) && s.jobs[id].state == Running
    ensures NextEvent(s).time == s.jobs[id].startTime + s.jobs[id].duration
    ensures id < |c.jobs| && SameInputs(s.jobs[id], c.jobs[id])
    ensures var b := BeforeDrain(s);
            && b.nodes == s.nodes[n := Vacate(s.nodes[n], View(s)[k].held)]
            && View(b) == RemoveAt(View(s), k)
            && b.jobs == s.jobs[id := FinishedJob(s.jobs[id], b.now)]
            && b.pending == s.pending
  {
    FinishIsExpected(c, s, id, n);
    k := IndexOf(s.running, id);
    assert NoDup(s.running);
    assert SameInputs(s.jobs[id], c.jobs[id]);
    assert Dense(s.nodes);
    hide Inv;
    ViewAfterFinish(s.jobs, s.running, k, FinishedJob(s.jobs[id], Pop(s).now));
  }

  lemma ArrivalShape(c: Config, s: State, id: nat)
    requires Inv(c, s) && s.queue != [] && NextEvent(s).payload == JobArrival(id)
    ensures var b := BeforeDrain(s);
            b.nodes == s.nodes && View(b) == View(s) && b.jobs == s.jobs && b.pending == s.pending + [id]
  {
  }

  /** Before the drain h waits where it waited and asks for what it asked, or has the start it had. */
  lemma EventJob(c: Config, s: State, h: nat)
    requires Inv(c, s) && s.queue != [] && !NextEvent(s).payload.SimEnd? && h < |s.jobs|
    ensures var b := BeforeDrain(s);
            && h < |b.jobs| && b.jobs[h].request == s.jobs[h].request && b.jobs[h].startTime == s.jobs[h].startTime
            && (b.jobs[h].state == Queued <==> s.jobs[h].state == Queued)
            && s.pending <= b.pending && b.now == NextEvent(s).time
  {
    hide Inv;
    if NextEvent(s).payload.JobFinish? {
      var k := FinishShape(c, s, NextEvent(s).payload.job, NextEvent(s).payload.node);
    }
  }

  /** Whatever event comes, room predicted by u stays predicted by u. */
  lemma EventKeepsRoom(c: Config, s: State, h: nat, u: nat)
    requires Inv(c, s) && s.queue != [] && !NextEvent(s).payload.SimEnd? && h < |s.jobs| && FitsIn(s, h, u)
    ensures h < |BeforeDrain(s).jobs| && FitsIn(BeforeDrain(s), h, u)
  {
    hide Inv, View, FitsBy, BeforeDrain;
    EventJob(c, s, h);
    if NextEvent(s).payload.JobArrival? {
      ArrivalShape(c, s, NextEvent(s).payload.job);
    } else {
      var k := FinishShape(c, s, NextEvent(s).payload.job, NextEvent(s).payload.node);
      FitsByAfterFinish(s.jobs[h].request, s.nodes, View(s), k, u);
    }
  }

  /** An event, up to the drain, keeps the reservation of a waiting head. */
  lemma EventKeeps(c: Config, s: State, h: nat, S: nat)
    requires Inv(c, s) && HeadBlocked(s) && HonestEstimates(c) && s.queue != [] && !NextEvent(s).payload.SimEnd?
    requires Kept(s, h, S)
    ensures Kept(BeforeDrain(s), h, S)
  {
    hide Inv, HeadBlocked, FitsIn, BeforeDrain;
    EventJob(c, s, h);
    if s.jobs[h].state == Queued {
      NextEventWithinReservation(c, s, h, S);
      EventKeepsRoom(c, s, h, S);
    }
  }

  /** With perfect estimates a finish comes at its predicted tick, so it opens no room later on. */
  lemma FinishNotEarly(c: Config, s: State, h: nat, u: nat)
    requires Inv(c, s) && PerfectEstimates(c) && s.queue != [] && NextEvent(s).payload.JobFinish?
    requires h < |s.jobs| && NextEvent(s).time <= u && !FitsIn(s, h, u)
    ensures h < |BeforeDrain(s).jobs| && !FitsIn(BeforeDrain(s), h, u)
  {
    hide Inv, View, FitsBy, BeforeDrain;
    var k := FinishShape(c, s, NextEvent(s).payload.job, NextEvent(s).payload.node);
    FitsByAfterFinish(s.jobs[h].request, s.nodes, View(s), k, u);
    var b := BeforeDrain(s);
    assert b.jobs[h].request == s.jobs[h].request;
    assert View(s)[k].estimatedFinish == NextEvent(s).time;
  }

  lemma ArrivalNotEarly(c: Config, s: State, h: nat, u: nat)
    requires Inv(c, s) && s.queue != [] && NextEvent(s).payload.JobArrival?
    requires h < |s.jobs| && !FitsIn(s, h, u)
    ensures h < |BeforeDrain(s).jobs| && !FitsIn(BeforeDrain(s), h, u)
  {
  }

  lemma EventNotEarly(c: Config, s: State, h: nat, S: nat)
    requires Inv(c, s) && PerfectEstimates(c) && s.queue != [] && !NextEvent(s).payload.SimEnd?
    requires NotEarly(s, h, S)
    ensures NotEarly(BeforeDrain(s), h, S)
  {
    InvShape(c, s);
    PoppedIsStrictlyEarliest(s);
    EventJob(c, s, h);
    hide Inv, View, FitsIn, BeforeDrain;
    var b := BeforeDrain(s);
    if s.jobs[h].state == Queued {
      forall u: nat | b.now <= u < S
        ensures !FitsIn(b, h, u)
      {
        assert !FitsIn(s, h, u);
        if NextEvent(s).payload.JobArrival? {
          ArrivalNotEarly(c, s, h, u);
        } else {
          FinishNotEarly(c, s, h, u);
        }
      }
    }
  }

  // ----- steps -----

  lemma CursorKeeps(h: nat, S: nat)
    ensures forall t: State, cursor: nat :: Kept(t, h, S) ==> Kept(WithCursor(t, cursor), h, S)
    ensures forall t: State, cursor: nat :: NotEarly(t, h, S) ==> NotEarly(WithCursor(t, cursor), h, S)
  {
    forall t: State, cursor: nat
      ensures Kept(t, h, S) ==> Kept(WithCursor(t, cursor), h, S)
      ensures NotEarly(t, h, S) ==> NotEarly(WithCursor(t, cursor), h, S)
    {
      var v := WithCursor(t, cursor);
      assert View(v) == View(t);
      hide FitsBy, View;
      if h < |t.jobs| {
        forall u: nat
          ensures FitsIn(v, h, u) == FitsIn(t, h, u)
        {
        }
      }
    }
  }

  lemma DrainKeeps(c: Config, s: State, h: nat, S: nat)
    requires Inv(c, s) && NoEnd(s.queue) && S < NEVER
    ensures Kept(s, h, S) ==> Kept(Drain(c, s), h, S)
    ensures NotEarly(s, h, S) ==> NotEarly(Drain(c, s), h, S)
  {
    hide Inv, NoEnd, Drain, Kept, NotEarly, HeadBlocked, AdmissibleAt, HeadShadow;
    var P, Q := (t: State) => Kept(t, h, S), (t: State) => NotEarly(t, h, S);
    forall t: State, m: Move | Inv(c, t) && NoEnd(t.queue) && Allowed(c, t, m) && P(t)
      ensures P(Apply(t, m))
    {
      MoveKeeps(c, t, m, h, S);
    }
    forall t: State, m: Move | Inv(c, t) && NoEnd(t.queue) && Allowed(c, t, m) && Q(t)
      ensures Q(Apply(t, m))
    {
      MoveNotEarly(c, t, m, h, S);
    }
    CursorKeeps(h, S);
    if P(s) { DrainInduction(c, s, P); }
    if Q(s) { DrainInduction(c, s, Q); }
  }

  lemma StepKeeps(c: Config, s: State, h: nat, S: nat)
    requires Between(c, s) && HonestEstimates(c) && s.queue != [] && S < NEVER && Kept(s, h, S)
    ensures Kept(Step(c, s), h, S)
    ensures PerfectEstimates(c) && NotEarly(s, h, S) ==> NotEarly(Step(c, s), h, S)
  {
    hide Inv, NoEnd, Drain, BeforeDrain, Settled, Counted, FitsBy;
    if NextEvent(s).payload.SimEnd? {
      StepEnd(c, s);
      assert View(Step(c, s)) == View(s);
      SameStateKeeps(s, Step(c, s), h, S);
    } else {
      BeforeDrainInv(c, s);
      SettledIsBlocked(c, s);
      EventKeeps(c, s, h, S);
      if PerfectEstimates(c) && NotEarly(s, h, S) { EventNotEarly(c, s, h, S); }
      var d := Drain(c, BeforeDrain(s));
      DrainKeeps(c, BeforeDrain(s), h, S);
      assert View(Step(c, s)) == View(d);
      SameStateKeeps(d, Step(c, s), h, S);
    }
  }

  lemma SameStateKeeps(s: State, t: State, h: nat, S: nat)
    requires t.jobs == s.jobs && t.pending == s.pending && t.nodes == s.nodes && t.now == s.now && View(t) == View(s)
    ensures Kept(s, h, S) ==> Kept(t, h, S)
    ensures NotEarly(s, h, S) ==> NotEarly(t, h, S)
  {
    hide FitsBy, View;
    if h < |s.jobs| {
      forall u: nat
        ensures FitsIn(t, h, u) == FitsIn(s, h, u)
      {
      }
    }
  }

  // ----- runs -----

  /** A blocked head's own shadow time is a reservation it keeps. */
  lemma ShadowIsReservation(c: Config, s: State)
    requires Inv(c, s) && HeadBlocked(s) && HonestEstimates(c) && s.pending != [] && HeadShadow(s) < NEVER
    ensures Kept(s, s.pending[0], HeadShadow(s))
    ensures NotEarly(s, s.pending[0], HeadShadow(s))
  {
    hide Inv, View;
    PendingFacts(c, s, 0);
    var h, S := s.pending[0], HeadShadow(s);
    var k := ShadowIsAFinish(RequestAt(s, 0), s.nodes, View(s), s.now);
    ViewSize(s);
    RunningMeansQueued(c, s);
    FinishIsQueuedInTime(c, s, k);
  }

  lemma ViewSize(s: State)
    ensures |View(s)| == |s.running|
  {
  }

  /** A kept reservation of a job still waiting bounds its recomputed shadow time. */
  lemma KeptBoundsShadow(c: Config, s: State, h: nat, S: nat)
    requires Inv(c, s) && HeadBlocked(s) && Kept(s, h, S) && S < NEVER && s.jobs[h].state == Queued
    ensures s.pending != [] && s.pending[0] == h && HeadShadow(s) <= S && s.now <= S
  {
  }

  lemma {:induction false} ReservationRuns(c: Config, m: nat, n: nat)
    requires WellFormed(c) && HonestEstimates(c) && m <= n
    requires At(c, m).pending != [] && HeadShadow(At(c, m)) < NEVER
    ensures Kept(At(c, n), At(c, m).pending[0], HeadShadow(At(c, m)))
    ensures PerfectEstimates(c) ==> NotEarly(At(c, n), At(c, m).pending[0], HeadShadow(At(c, m)))
  {
    hide Step, Between, Kept, NotEarly, HeadShadow;
    RunInvariant(c, m);
    if m < n {
      ReservationRuns(c, m, n - 1);
      RunInvariant(c, n - 1);
      if At(c, n - 1).queue != [] {
        StepKeeps(c, At(c, n - 1), At(c, m).pending[0], HeadShadow(At(c, m)));
      }
    } else {
      SettledIsBlocked(c, At(c, m));
      ShadowIsReservation(c, At(c, m));
    }
  }

  /**
   * EASY: if h is the blocked head with finite shadow time S, then at every later event h has
   * started no later than S, or is still the head with a recomputed shadow time of at most S.
   */
  lemma {:induction false} EasyReservation(c: Config, m: nat, n: nat)
    requires WellFormed(c) && HonestEstimates(c) && m <= n
    requires At(c, m).pending != [] && HeadShadow(At(c, m)) < NEVER
    ensures var h, S, t := At(c, m).pending[0], HeadShadow(At(c, m)), At(c, n);
            && h < |t.jobs|
            && (t.jobs[h].state != Queued ==> t.jobs[h].startTime <= S)
            && (t.jobs[h].state == Queued ==> t.pending != [] && t.pending[0] == h && HeadShadow(t) <= S && t.now <= S)
  {
    ReservationRuns(c, m, n);
    RunInvariant(c, n);
    var h, S, t := At(c, m).pending[0], HeadShadow(At(c, m)), At(c, n);
    hide At, HeadShadow, Between;
    if t.jobs[h].state == Queued { KeptBoundsShadow(c, t, h, S); }
  }

  /** A finite shadow time means the head fits an empty node, so it is not left behind. */
  lemma ReservedIsSatisfiable(c: Config, s: State)
    requires Between(c, s) && HonestEstimates(c) && s.pending != [] && HeadShadow(s) < NEVER
    ensures s.pending[0] < |c.jobs| && Satisfiable(c.jobs[s.pending[0]].request, c.nodes)
  {
    ShadowIsReservation(c, s);
    assert s.pending[0] in s.pending;
    FitsByMeansSatisfiable(c, s, s.pending[0], HeadShadow(s));
  }

  /** A satisfiable head is waiting only before the run is over. */
  lemma SatisfiableHeadIsMidRun(c: Config, m: nat)
    requires WellFormed(c) && At(c, m).pending != []
    requires At(c, m).pending[0] < |c.jobs| && Satisfiable(c.jobs[At(c, m).pending[0]].request, c.nodes)
    ensures m < 2 * |c.jobs| + 1
  {
    hide Step, WellFormed, Satisfiable;
    if m >= 2 * |c.jobs| + 1 {
      RunTerminates(c);
      DrainedStaysDrained(c, 2 * |c.jobs| + 1, m);
      FinalHeadUnsatisfiable(c);
    }
  }

  lemma SatisfiableEndsDone(c: Config, h: nat)
    requires WellFormed(c) && h < |c.jobs| && Satisfiable(c.jobs[h].request, c.nodes)
    ensures h < |Final(c).jobs|
    ensures Final(c).jobs[h].state == Done || (h in Final(c).pending && Final(c).pending[0] != h)
  {
    FinalIsIdle(c);
    if Final(c).pending != [] { FinalHeadUnsatisfiable(c); }
  }

  /**
   * Every reservation is honoured: by the end of the run the job is Done and had started by S;
   * with perfect estimates it started exactly at S.
   */
  lemma {:induction false} ReservationHonoured(c: Config, m: nat)
    requires WellFormed(c) && HonestEstimates(c)
    requires At(c, m).pending != [] && HeadShadow(At(c, m)) < NEVER
    ensures var h, f := At(c, m).pending[0], Final(c);
            && h < |f.jobs| && f.jobs[h].state == Done
            && f.jobs[h].startTime <= HeadShadow(At(c, m))
            && (PerfectEstimates(c) ==> f.jobs[h].startTime == HeadShadow(At(c, m)))
  {
    hide At, HeadShadow, Between;
    RunInvariant(c, m);
    ReservedIsSatisfiable(c, At(c, m));
    SatisfiableHeadIsMidRun(c, m);
    SatisfiableEndsDone(c, At(c, m).pending[0]);
    ReservationRuns(c, m, 2 * |c.jobs| + 1);
    if At(c, m).pending[0] in Final(c).pending { FinalQueued(c, At(c, m).pending[0]); }
  }

  lemma FinalQueued(c: Config, h: nat)
    requires WellFormed(c) && h in Final(c).pending
    ensures h < |Final(c).jobs| && Final(c).jobs[h].state == Queued
  {
    hide At;
    FinalIsIdle(c);
    hide Final;
    QueuedIfPending(c, Final(c), h);
  }
}
