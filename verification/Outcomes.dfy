/** What a run achieves: no starvation, exact wedging, strict fifo, the roomy cluster, and the utilization integral. */
module Outcomes {
  import opened Seqs
  import opened Model
  import opened Shadow
  import opened Machine
  import opened Invariant
  import opened Events
  import opened Drains
  import opened Runs

  // ----- the invariant, in the words of a reader -----

  /** At every event of every run: phases, lists, schedule and accounting agree. */
  lemma {:induction false} BooksBalance(c: Config, n: nat)
    requires WellFormed(c)
    ensures var s := At(c, n);
            && |s.jobs| == |c.jobs| && |s.nodes| == |c.nodes|
            && NoDup(s.pending) && NoDup(s.running)
            && (forall id :: id in s.pending ==> id < |s.jobs| && s.jobs[id].state == Queued)
            && (forall id :: 0 <= id < |s.jobs| ==> (s.jobs[id].state == Running <==> id in s.running))
            && (forall id :: 0 <= id < |s.jobs| ==> SameInputs(s.jobs[id], c.jobs[id]))
            && (forall i :: 0 <= i < |s.nodes| ==> Plus(s.nodes[i].free, Held(View(s), i)) == c.nodes[i].capacity)
            && (forall i :: 0 <= i < |s.nodes| ==> s.nodes[i].runningJobs == Sum(View(s), CountOn(i)))
  {
    RunInvariant(c, n);
    var s := At(c, n);
    hide At;
    forall i | 0 <= i < |s.nodes|
      ensures Plus(s.nodes[i].free, Held(View(s), i)) == c.nodes[i].capacity
      ensures s.nodes[i].runningJobs == Sum(View(s), CountOn(i))
    {
      assert Booked(s.nodes[i], View(s), i);
    }
  }

  /** At every event of every run the policies are shown the workload itself. */
  lemma {:induction false} ViewsShowTheWorkload(c: Config, n: nat)
    requires WellFormed(c)
    ensures var s := At(c, n);
            ShowsBacklog(c, s, BacklogView(s.jobs, s.pending)) && ShowsRunning(c, s, InFlightView(s.jobs, s.running))
  {
    hide At, Inv, Settled, Counted, ShowsBacklog, ShowsRunning;
    RunInvariant(c, n);
    ViewsAreTrue(c, At(c, n));
  }

  // ----- the end of a run -----

  lemma DrainedIsIdle(c: Config, f: State)
    requires Inv(c, f) && f.queue == []
    ensures f.running == []
    ensures forall id: nat :: id < |f.jobs| ==> f.jobs[id].state == Done || id in f.pending
    ensures forall i :: 0 <= i < |f.nodes| ==> f.nodes[i].free == f.nodes[i].capacity && f.nodes[i].runningJobs == 0
  {
    assert f.running != [] ==> f.running[0] in f.running;
    NothingLeft(f.jobs, f.pending, f.queue, f.now);
    forall id: nat | id < |f.jobs|
      ensures f.jobs[id].state == Done || id in f.pending
    {
      assert Arrived(f.jobs, f.pending, id);
    }
    assert f.running == [];
    hide Inv;
    assert View(f) == [];
    forall i | 0 <= i < |f.nodes|
      ensures f.nodes[i].free == f.nodes[i].capacity && f.nodes[i].runningJobs == 0
    {
      NodeFacts(c, f, i);
    }
  }

  /** When the loop ends nothing runs, everybody has arrived and every node is idle again. */
  lemma {:induction false} FinalIsIdle(c: Config)
    requires WellFormed(c)
    ensures var f := Final(c);
            && Between(c, f)
            && f.running == []
            && (forall i :: 0 <= i < |f.nodes| ==> f.nodes[i].free == f.nodes[i].capacity && f.nodes[i].runningJobs == 0)
            && (forall id: nat :: id < |f.jobs| ==> f.jobs[id].state == Done || id in f.pending)
  {
    hide At, Inv, Settled, Counted;
    RunTerminates(c);
    RunInvariant(c, 2 * |c.jobs| + 1);
    DrainedIsIdle(c, Final(c));
  }

  /** A head left behind fits no node even when empty. */
  lemma FinalHeadUnsatisfiable(c: Config)
    requires WellFormed(c) && Final(c).pending != []
    ensures Final(c).pending[0] < |c.jobs|
    ensures !Satisfiable(c.jobs[Final(c).pending[0]].request, c.nodes)
  {
    FinalIsIdle(c);
    var f := Final(c);
    hide Final;
    var h := f.pending[0];
    assert h in f.pending;
    assert SameInputs(f.jobs[h], c.jobs[h]);
    forall i | 0 <= i < |c.nodes|
      ensures Within(c.jobs[h].request, c.nodes[i].capacity) ==> f.nodes[i].CanFit(c.jobs[h].request)
    {
    }
  }

  /**
   * No starvation: when every request fits some empty node, a run under any of the eight policy
   * pairs completes every job, in order of causes, and gives everything back.
   */
  lemma NoStarvation(c: Config)
    requires WellFormed(c)
    requires forall i :: 0 <= i < |c.jobs| ==> Satisfiable(c.jobs[i].request, c.nodes)
    ensures var f := Final(c);
            && f.pending == [] && f.running == [] && |f.jobs| == |c.jobs|
            && (forall i :: 0 <= i < |f.jobs| ==>
                  && SameInputs(f.jobs[i], c.jobs[i]) && f.jobs[i].state == Done
                  && f.jobs[i].submitTime <= f.jobs[i].startTime
                  && f.jobs[i].finishTime == f.jobs[i].startTime + f.jobs[i].duration <= f.now)
            && (forall i :: 0 <= i < |f.nodes| ==> f.nodes[i].free == f.nodes[i].capacity && f.nodes[i].runningJobs == 0)
            && TotalFree(f.nodes) == TotalCapacity(f.nodes)
  {
    hide Final, Inv, Settled, Counted;
    FinalIsIdle(c);
    if Final(c).pending != [] { FinalHeadUnsatisfiable(c); }
    var f := Final(c);
    InvShape(c, f);
    forall i | 0 <= i < |f.jobs|
      ensures SameInputs(f.jobs[i], c.jobs[i]) && f.jobs[i].state == Done
      ensures f.jobs[i].submitTime <= f.jobs[i].startTime
      ensures f.jobs[i].finishTime == f.jobs[i].startTime + f.jobs[i].duration <= f.now
    {
      JobFacts(c, f, i);
    }
    SumSame(f.nodes, f.nodes, FreeCores, CapacityCores);
    SumSame(f.nodes, f.nodes, FreeMemory, CapacityMemory);
  }

  // ----- wedging -----

  /** u is the first job, in arrival order, that no empty node could hold. */
  ghost predicate FirstUnsatisfiable(c: Config, u: nat)
  {
    && u < |c.jobs| && !Satisfiable(c.jobs[u].request, c.nodes)
    && forall v: nat :: v < |c.jobs| && ArrivesBefore(c.jobs, v, u) ==> Satisfiable(c.jobs[v].request, c.nodes)
  }

  lemma OrderIsInput(c: Config, jobs: seq<Job>, nodes: seq<Node>, a: nat, b: nat)
    requires Inputs(c, jobs, nodes) && a < |jobs| && b < |jobs|
    ensures ArrivesBefore(jobs, a, b) == ArrivesBefore(c.jobs, a, b)
  {
  }

  /** A running job fits its node when that is empty. */
  lemma RunningFits(c: Config, s: State, id: nat)
    requires Between(c, s) && id < |s.jobs| && s.jobs[id].state == Running
    ensures id < |c.jobs| && Satisfiable(c.jobs[id].request, c.nodes)
  {
    assert id in s.running && PhaseOk(s.jobs[id], |s.nodes|, s.now) && SameInputs(s.jobs[id], c.jobs[id]);
    var k :| 0 <= k < |s.running| && s.running[k] == id;
    var n := s.jobs[id].node;
    assert Booked(s.nodes[n], View(s), n) && s.nodes[n].capacity == c.nodes[n].capacity;
    hide Inv;
    assert View(s)[k] == RunningView(s.jobs[id]);
    SumMember(View(s), k, CoresOn(n));
    SumMember(View(s), k, MemoryOn(n));
  }

  lemma BetweenSize(c: Config, s: State)
    requires Between(c, s)
    ensures |s.jobs| == |c.jobs| && |s.nodes| == |c.nodes|
  {
  }

  /** A job no empty node could hold never starts. */
  lemma {:induction false} UnsatisfiableNeverStarts(c: Config, u: nat, n: nat)
    requires WellFormed(c) && u < |c.jobs| && !Satisfiable(c.jobs[u].request, c.nodes)
    ensures u < |At(c, n).jobs| && At(c, n).jobs[u].state == Queued
  {
    hide Step, Between;
    RunInvariant(c, n);
    assert |At(c, n).jobs| == |c.jobs| by { BetweenSize(c, At(c, n)); }
    if n > 0 {
      UnsatisfiableNeverStarts(c, u, n - 1);
      RunInvariant(c, n - 1);
      if At(c, n - 1).queue != [] { StepFacts(c, At(c, n - 1)); }
      if At(c, n).jobs[u].state != Queued { RunningFits(c, At(c, n), u); }
    }
  }

  /** In arrival order nobody waits in front of the head. */
  lemma NobodyBeforeTheHead(c: Config, s: State, v: nat)
    requires Inv(c, s) && s.pending != [] && v in s.pending
    ensures s.pending[0] < |c.jobs| && v < |c.jobs|
    ensures v == s.pending[0] || ArrivesBefore(c.jobs, s.pending[0], v)
  {
  }

  /**
   * Wedging is exact: the first unsatisfiable job in arrival order ends as the head of the
   * backlog, and everybody who arrives before it completes.
   */
  lemma WedgesAtTheFirstUnsatisfiable(c: Config, u: nat)
    requires WellFormed(c) && FirstUnsatisfiable(c, u)
    ensures var f := Final(c);
            && f.pending != [] && f.pending[0] == u && |f.jobs| == |c.jobs|
            && (forall v: nat :: v < |c.jobs| && ArrivesBefore(c.jobs, v, u) ==> f.jobs[v].state == Done)
            && (forall i :: 0 <= i < |f.nodes| ==> f.nodes[i].free == f.nodes[i].capacity)
  {
    hide At, Inv, Settled, Counted, Satisfiable;
    FinalIsIdle(c);
    UnsatisfiableNeverStarts(c, u, 2 * |c.jobs| + 1);
    var f := Final(c);
    assert u in f.pending;
    FinalHeadUnsatisfiable(c);
    InvShape(c, f);
    hide Final;
    NobodyBeforeTheHead(c, f, u);
    forall v: nat | v < |c.jobs| && ArrivesBefore(c.jobs, v, u)
      ensures f.jobs[v].state == Done
    {
      if v in f.pending { NobodyBeforeTheHead(c, f, v); }
    }
  }

  lemma QueuedIfPending(c: Config, s: State, id: nat)
    requires Inv(c, s) && id in s.pending
    ensures id < |s.jobs| && s.jobs[id].state == Queued
  {
  }

  /** Under fifo the jobs left behind are exactly the first unsatisfiable one and everybody after it. */
  lemma FifoWedgesExactly(c: Config, u: nat, j: nat)
    requires WellFormed(c) && FirstUnsatisfiable(c, u) && c.policy == Fifo && j < |c.jobs|
    ensures j in Final(c).pending <==> j == u || ArrivesBefore(c.jobs, u, j)
  {
    hide At, Inv, Settled, Counted, Satisfiable;
    WedgesAtTheFirstUnsatisfiable(c, u);
    FinalIsIdle(c);
    UnsatisfiableNeverStarts(c, u, 2 * |c.jobs| + 1);
    var f := Final(c);
    hide Final;
    if j in f.pending {
      NobodyBeforeTheHead(c, f, j);
    } else if j != u && ArrivesBefore(c.jobs, u, j) {
      StartedInOrder(c, f, u, j);
    }
  }

  lemma StartedInOrder(c: Config, s: State, a: nat, b: nat)
    requires Inv(c, s) && c.policy == Fifo && a < |c.jobs| && b < |c.jobs| && ArrivesBefore(c.jobs, a, b)
    ensures |s.jobs| == |c.jobs| && s.backfilled == 0
    ensures s.jobs[b].state != Queued ==> s.jobs[a].state != Queued && s.jobs[a].startTime <= s.jobs[b].startTime
  {
    OrderIsInput(c, s.jobs, s.nodes, a, b);
  }

  /** A run completes every job exactly when every request fits some empty node: the check a caller can make first. */
  lemma CompletesExactlyWhenSatisfiable(c: Config)
    requires WellFormed(c)
    ensures |Final(c).jobs| == |c.jobs|
    ensures (forall i :: 0 <= i < |c.jobs| ==> Final(c).jobs[i].state == Done)
            <==> (forall i :: 0 <= i < |c.jobs| ==> Satisfiable(c.jobs[i].request, c.nodes))
  {
    hide At, Inv, Settled, Counted, Satisfiable;
    FinalIsIdle(c);
    InvShape(c, Final(c));
    if forall i :: 0 <= i < |c.jobs| ==> Satisfiable(c.jobs[i].request, c.nodes) {
      NoStarvation(c);
    } else {
      var u: nat :| u < |c.jobs| && !Satisfiable(c.jobs[u].request, c.nodes);
      UnsatisfiableNeverStarts(c, u, 2 * |c.jobs| + 1);
    }
  }

  /** Every tick sum the simulator forms on this workload stays below kNever. */
  ghost predicate InRange(c: Config)
  {
    forall j :: 0 <= j < |c.jobs| ==> LastSubmit(c.jobs) + Sum(c.jobs, Duration) + c.jobs[j].estimatedDuration < NEVER
  }

  function Duration(j: Job): nat { j.duration }

  lemma HorizonBound(c: Config, s: State)
    requires Inv(c, s)
    ensures LastSubmit(c.jobs) + Sum(s.jobs, StartedDuration) <= LastSubmit(c.jobs) + Sum(c.jobs, Duration)
  {
    forall i | 0 <= i < |s.jobs|
      ensures StartedDuration(s.jobs[i]) <= Duration(c.jobs[i])
    {
      assert SameInputs(s.jobs[i], c.jobs[i]);
    }
    SumLe(s.jobs, c.jobs, StartedDuration, Duration);
  }

  /** Under InRange 64-bit ticks never wrap: clock, queued times, candidate ends and estimated finishes. */
  lemma TicksStayInRange(c: Config, s: State)
    requires Inv(c, s) && InRange(c) && c.jobs != []
    ensures s.now < NEVER
    ensures forall k :: 0 <= k < |s.queue| ==> s.queue[k].time < NEVER
    ensures forall j :: 0 <= j < |s.jobs| ==> s.now + s.jobs[j].estimatedDuration < NEVER
    ensures AllDueBefore(View(s), NEVER)
  {
    HorizonBound(c, s);
    assert c.jobs[0].estimatedDuration >= 0;
    forall j | 0 <= j < |s.jobs|
      ensures s.now + s.jobs[j].estimatedDuration < NEVER
    {
      assert SameInputs(s.jobs[j], c.jobs[j]);
    }
    forall k | 0 <= k < |View(s)|
      ensures View(s)[k].estimatedFinish < NEVER
    {
      assert s.running[k] in s.running;
      assert PhaseOk(s.jobs[s.running[k]], |s.nodes|, s.now);
    }
  }

  /** The head's shadow time is kNever exactly when no empty node could hold it. */
  lemma HeadShadowIsNever(c: Config, s: State)
    requires Inv(c, s) && InRange(c) && s.pending != []
    ensures s.pending[0] < |c.jobs|
    ensures HeadShadow(s) == NEVER <==> !Satisfiable(c.jobs[s.pending[0]].request, c.nodes)
  {
    var h := s.pending[0];
    assert h in s.pending;
    assert SameInputs(s.jobs[h], c.jobs[h]);
    TicksStayInRange(c, s);
    assert Accounted(s.nodes, View(s)) by {
      forall i | 0 <= i < |s.nodes|
        ensures Plus(s.nodes[i].free, Held(View(s), i)) == s.nodes[i].capacity
      {
        assert Booked(s.nodes[i], View(s), i);
      }
    }
    assert Dense(s.nodes);
    assert Satisfiable(c.jobs[h].request, s.nodes) == Satisfiable(c.jobs[h].request, c.nodes) by {
      SameCapacities(c, s, c.jobs[h].request);
    }
    hide Inv;
    ShadowIsNever(RequestAt(s, 0), s.nodes, View(s), s.now);
  }

  lemma SameCapacities(c: Config, s: State, request: Resources)
    requires Inputs(c, s.jobs, s.nodes)
    ensures Satisfiable(request, s.nodes) == Satisfiable(request, c.nodes)
  {
  }

  /** A request that fits by some tick fits an empty node. */
  lemma FitsByMeansSatisfiable(c: Config, s: State, h: nat, u: nat)
    requires Inv(c, s) && h < |s.jobs| && FitsBy(s.jobs[h].request, s.nodes, View(s), u)
    ensures h < |c.jobs| && Satisfiable(c.jobs[h].request, c.nodes)
  {
    var i :| 0 <= i < |s.nodes| && NodeFitsBy(s.jobs[h].request, s.nodes[i], View(s), u);
    assert Booked(s.nodes[i], View(s), i) && SameInputs(s.jobs[h], c.jobs[h]);
    ReturnedMonotone(View(s), i, u, u);
    assert Within(c.jobs[h].request, c.nodes[i].capacity);
  }

  lemma NoMoveBehindUnsatisfiable(c: Config, t: State, m: Move)
    requires Inv(c, t) && t.pending != []
    requires t.pending[0] < |c.jobs| && !Satisfiable(c.jobs[t.pending[0]].request, c.nodes)
    ensures !Allowed(c, t, m)
  {
    if Allowed(c, t, m) {
      if m.k > 0 {
        assert t.pending[0] in t.pending;
        FitsByMeansSatisfiable(c, t, t.pending[0], HeadShadow(t));
      } else {
        FitsMeansSatisfiable(c, t, t.pending[0], m.n);
      }
    }
  }

  /** Behind a head that fits no empty node a drain starts nobody, under either queue policy. */
  lemma DrainBehindUnsatisfiable(c: Config, s: State)
    requires Inv(c, s) && NoEnd(s.queue) && s.pending != []
    requires s.pending[0] < |c.jobs| && !Satisfiable(c.jobs[s.pending[0]].request, c.nodes)
    ensures Drain(c, s).jobs == s.jobs && Drain(c, s).pending == s.pending
  {
    var u := s.pending[0];
    var P := (t: State) => t.jobs == s.jobs && t.pending == s.pending;
    forall t: State, m: Move | Inv(c, t) && P(t)
      ensures !Allowed(c, t, m)
    {
      NoMoveBehindUnsatisfiable(c, t, m);
    }
    hide Inv, NoEnd, Drain;
    DrainInduction(c, s, P);
  }

  lemma FitsMeansSatisfiable(c: Config, s: State, id: nat, n: nat)
    requires Inv(c, s) && id < |s.jobs| && n < |s.nodes| && s.nodes[n].CanFit(s.jobs[id].request)
    ensures id < |c.jobs| && Satisfiable(c.jobs[id].request, c.nodes)
  {
  }

  lemma BeforeDrainPending(s: State)
    requires s.queue != [] && !NextEvent(s).payload.SimEnd?
    ensures s.pending <= BeforeDrain(s).pending
  {
  }

  lemma StepBehindUnsatisfiable(c: Config, s: State)
    requires Between(c, s) && s.queue != [] && s.pending != []
    requires s.pending[0] < |c.jobs| && !Satisfiable(c.jobs[s.pending[0]].request, c.nodes)
    ensures Step(c, s).pending != [] && Step(c, s).pending[0] == s.pending[0]
    ensures |Step(c, s).jobs| == |s.jobs|
    ensures forall j :: 0 <= j < |s.jobs| && s.jobs[j].state == Queued ==> Step(c, s).jobs[j].state == Queued
  {
    hide Inv, NoEnd, Drain, BeforeDrain, Settled, Counted, Satisfiable;
    if NextEvent(s).payload.SimEnd? {
      StepEnd(c, s);
    } else {
      BeforeDrainInv(c, s);
      BeforeDrainJobs(c, s);
      BeforeDrainPending(s);
      DrainBehindUnsatisfiable(c, BeforeDrain(s));
    }
  }

  /** Once an unsatisfiable job heads the backlog, nothing starts any more. */
  lemma {:induction false} NothingStartsBehindUnsatisfiable(c: Config, m: nat, n: nat)
    requires WellFormed(c) && m <= n && At(c, m).pending != []
    requires At(c, m).pending[0] < |c.jobs| && !Satisfiable(c.jobs[At(c, m).pending[0]].request, c.nodes)
    ensures At(c, n).pending != [] && At(c, n).pending[0] == At(c, m).pending[0]
    ensures |At(c, n).jobs| == |At(c, m).jobs|
    ensures forall j :: 0 <= j < |At(c, m).jobs| && At(c, m).jobs[j].state == Queued ==> At(c, n).jobs[j].state == Queued
  {
    hide Step, Between;
    if m < n {
      NothingStartsBehindUnsatisfiable(c, m, n - 1);
      RunInvariant(c, n - 1);
      if At(c, n - 1).queue != [] { StepBehindUnsatisfiable(c, At(c, n - 1)); }
    }
  }

  // ----- the head of the backlog -----

  /** h has started, or heads the backlog. */
  ghost predicate StartedOrHead(s: State, h: nat)
  {
    h < |s.jobs| && (s.jobs[h].state != Queued || (s.pending != [] && s.pending[0] == h))
  }

  lemma DrainKeepsHead(c: Config, s: State, h: nat)
    requires Inv(c, s) && NoEnd(s.queue) && StartedOrHead(s, h)
    ensures StartedOrHead(Drain(c, s), h)
  {
    var P := (t: State) => StartedOrHead(t, h);
    forall t: State, m: Move | Inv(c, t) && NoEnd(t.queue) && Allowed(c, t, m) && P(t)
      ensures P(Apply(t, m))
    {
      MoveKeepsHead(t, m, h);
    }
    hide Inv, NoEnd, Drain, StartedOrHead;
    CursorKeepsHead(h);
    DrainInduction(c, s, P);
  }

  lemma MoveKeepsHead(t: State, m: Move, h: nat)
    requires m.k < |t.pending| && t.pending[m.k] < |t.jobs| && m.n < |t.nodes|
    requires StartedOrHead(t, h)
    ensures StartedOrHead(Apply(t, m), h)
  {
  }

  lemma CursorKeepsHead(h: nat)
    ensures forall t: State, cursor: nat :: StartedOrHead(t, h) ==> StartedOrHead(WithCursor(t, cursor), h)
  {
  }

  lemma StepKeepsHead(c: Config, s: State, h: nat)
    requires Between(c, s) && s.queue != [] && StartedOrHead(s, h)
    ensures StartedOrHead(Step(c, s), h)
  {
    hide Inv, NoEnd, Drain, BeforeDrain, Settled, Counted;
    if NextEvent(s).payload.SimEnd? {
      StepEnd(c, s);
    } else {
      BeforeDrainInv(c, s);
      BeforeDrainJobs(c, s);
      BeforeDrainPending(s);
      DrainKeepsHead(c, BeforeDrain(s), h);
    }
  }

  /** The head is overtaken in the backlog by nobody: it stays the head until it starts. */
  lemma {:induction false} HeadStaysHead(c: Config, m: nat, n: nat)
    requires WellFormed(c) && m <= n && At(c, m).pending != []
    ensures StartedOrHead(At(c, n), At(c, m).pending[0])
  {
    hide Step, Between;
    if m < n {
      HeadStaysHead(c, m, n - 1);
      RunInvariant(c, n - 1);
      if At(c, n - 1).queue != [] { StepKeepsHead(c, At(c, n - 1), At(c, m).pending[0]); }
    } else {
      RunInvariant(c, n);
      assert At(c, m).pending[0] in At(c, m).pending;
      assert At(c, m).pending[0] < |At(c, m).jobs| by { BetweenPending(c, At(c, m)); }
    }
  }

  lemma BetweenPending(c: Config, s: State)
    requires Between(c, s) && s.pending != []
    ensures s.pending[0] < |s.jobs| && s.jobs[s.pending[0]].state == Queued
  {
  }

  // ----- strict fifo -----

  /** Under fifo, at every event and under every placement policy, jobs have started in arrival order. */
  lemma {:induction false} StrictFifo(c: Config, n: nat, a: nat, b: nat)
    requires WellFormed(c) && c.policy == Fifo
    requires a < |c.jobs| && b < |c.jobs| && ArrivesBefore(c.jobs, a, b)
    ensures At(c, n).backfilled == 0
    ensures |At(c, n).jobs| == |c.jobs|
    ensures At(c, n).jobs[b].state != Queued ==>
              At(c, n).jobs[a].state != Queued && At(c, n).jobs[a].startTime <= At(c, n).jobs[b].startTime
  {
    hide At, Inv, Settled, Counted;
    RunInvariant(c, n);
    StartedInOrder(c, At(c, n), a, b);
  }

  /** Under either policy the backlog lists the waiting jobs in arrival order. */
  lemma {:induction false} BacklogInArrivalOrder(c: Config, n: nat, i: nat, k: nat)
    requires WellFormed(c) && i < k < |At(c, n).pending|
    ensures At(c, n).pending[i] < |c.jobs| && At(c, n).pending[k] < |c.jobs|
    ensures ArrivesBefore(c.jobs, At(c, n).pending[i], At(c, n).pending[k])
  {
    RunInvariant(c, n);
    var s := At(c, n);
    hide At;
    OrderIsInput(c, s.jobs, s.nodes, s.pending[i], s.pending[k]);
  }

  // ----- the utilization integral -----

  /**
   * At every event, under every policy and load, the integral is the work done so far: duration
   * times request over Done jobs, time since start times request over running ones.
   */
  lemma {:induction false} UtilizationIsWork(c: Config, n: nat)
    requires WellFormed(c)
    ensures var s := At(c, n);
            && s.util.lastCheckin == s.now
            && s.util.coreTicks == Sum(s.jobs, CoreWork(s.now))
            && s.util.memoryTicks == Sum(s.jobs, MemoryWork(s.now))
  {
    RunInvariant(c, n);
  }

  function TotalCoreWork(j: Job): nat { j.duration * j.request.cores }
  function TotalMemoryWork(j: Job): nat { j.duration * j.request.memory }

  /** When nobody starves the final integral is the whole workload's resource time, queueing or not. */
  lemma FinalUtilizationIsTheWorkload(c: Config)
    requires WellFormed(c)
    requires forall i :: 0 <= i < |c.jobs| ==> Satisfiable(c.jobs[i].request, c.nodes)
    ensures Final(c).util.coreTicks == Sum(c.jobs, TotalCoreWork)
    ensures Final(c).util.memoryTicks == Sum(c.jobs, TotalMemoryWork)
  {
    hide At;
    NoStarvation(c);
    UtilizationIsWork(c, 2 * |c.jobs| + 1);
    AllDoneWork(c, Final(c));
  }

  lemma AllDoneWork(c: Config, f: State)
    requires |f.jobs| == |c.jobs|
    requires forall i :: 0 <= i < |f.jobs| ==> SameInputs(f.jobs[i], c.jobs[i]) && f.jobs[i].state == Done
    ensures Sum(f.jobs, CoreWork(f.now)) == Sum(c.jobs, TotalCoreWork)
    ensures Sum(f.jobs, MemoryWork(f.now)) == Sum(c.jobs, TotalMemoryWork)
  {
    forall i | 0 <= i < |f.jobs|
      ensures CoreWork(f.now)(f.jobs[i]) == TotalCoreWork(c.jobs[i])
      ensures MemoryWork(f.now)(f.jobs[i]) == TotalMemoryWork(c.jobs[i])
    {
      assert SameInputs(f.jobs[i], c.jobs[i]);
    }
    SumSame(f.jobs, c.jobs, CoreWork(f.now), TotalCoreWork);
    SumSame(f.jobs, c.jobs, MemoryWork(f.now), TotalMemoryWork);
  }

  lemma Widen(a: nat, x: nat, y: nat, now: nat, later: nat)
    requires a <= now * y && x <= y && now <= later
    ensures a + (later - now) * x <= later * y
  {
  }

  lemma CapacityIsFixed(c: Config, s: State)
    requires Inv(c, s)
    ensures TotalCapacity(s.nodes) == TotalCapacity(c.nodes)
    ensures Within(TotalUtilized(s.nodes), TotalCapacity(c.nodes))
    ensures s.util.lastCheckin == s.now
  {
    SumSame(s.nodes, c.nodes, CapacityCores, CapacityCores);
    SumSame(s.nodes, c.nodes, CapacityMemory, CapacityMemory);
  }

  /** The integral never exceeds elapsed time times capacity: a mean utilization is at most one. */
  lemma {:induction false} UtilizationAtMostCapacity(c: Config, n: nat)
    requires WellFormed(c)
    ensures At(c, n).util.coreTicks <= At(c, n).now * TotalCapacity(c.nodes).cores
    ensures At(c, n).util.memoryTicks <= At(c, n).now * TotalCapacity(c.nodes).memory
  {
    hide Step, Inv, TotalCapacity, TotalUtilized;
    if n > 0 {
      UtilizationAtMostCapacity(c, n - 1);
      RunInvariant(c, n - 1);
      var s := At(c, n - 1);
      if s.queue != [] {
        StepFacts(c, s);
        CapacityIsFixed(c, s);
        var u, cap, t := TotalUtilized(s.nodes), TotalCapacity(c.nodes), NextEvent(s).time;
        Widen(s.util.coreTicks, u.cores, cap.cores, s.now, t);
        Widen(s.util.memoryTicks, u.memory, cap.memory, s.now, t);
      }
    }
  }

  // ----- makespan -----

  /** The clock never passes the last submission plus the total duration of the jobs started so far. */
  lemma {:induction false} ClockBound(c: Config, n: nat)
    requires WellFormed(c)
    ensures At(c, n).now <= LastSubmit(c.jobs) + Sum(At(c, n).jobs, StartedDuration)
    ensures At(c, n).now <= LastSubmit(c.jobs) + Sum(c.jobs, Duration)
  {
    RunInvariant(c, n);
    hide At;
    HorizonBound(c, At(c, n));
  }

  /** The end of the run is kNever, the largest 64-bit tick, until SimEnd is handled. */
  lemma {:induction false} EndIsUnsetUntilTheEnd(c: Config, n: nat)
    requires WellFormed(c)
    ensures n < Length(c) ==> At(c, n).simEnd == 0xFFFF_FFFF_FFFF_FFFF
    ensures c.jobs != [] && n >= Length(c) ==> At(c, n).simEnd == At(c, n).now
  {
    hide Step, Between, Ending, Length;
    LengthIsExact(c, n);
    if c.jobs != [] { EventCount(c, 0); EventCount(c, Length(c) - 1); }
    if 0 < n < Length(c) {
      EndIsUnsetUntilTheEnd(c, n - 1);
      LengthIsExact(c, n - 1);
      RunInvariant(c, n - 1);
      StepFacts(c, At(c, n - 1));
      StepWorking(c, At(c, n - 1));
    }
  }

  /** simEnd is when job j was submitted, or when it finished. */
  ghost predicate EndsWith(c: Config, f: State, j: nat)
  {
    && j < |c.jobs| && j < |f.jobs|
    && (f.simEnd == c.jobs[j].submitTime || (f.jobs[j].state == Done && f.simEnd == f.jobs[j].finishTime))
  }

  /** The last event before SimEnd is somebody's submission or somebody's finish. */
  lemma LastEventIsSomebodys(c: Config) returns (j: nat)
    requires WellFormed(c) && c.jobs != []
    ensures EndsWith(c, Final(c), j)
  {
    hide At, Step, Inv, Settled, Counted;
    EventCount(c, 0);
    var n := Length(c) - 2;
    assert Length(c) >= 2 by { StartsWithoutEnd(c); }
    EventCount(c, n);
    EventCount(c, n + 1);
    RunInvariant(c, n);
    LengthIsExact(c, n);
    var s := At(c, n);
    NextInRun(c, n);
    StepFacts(c, s);
    RunTerminates(c);
    LengthIsExact(c, 2 * |c.jobs| + 1);
    RunAdvances(c, n, 2 * |c.jobs| + 1);
    FinalIsIdle(c);
    InvShape(c, s);
    if NextEvent(s).payload.JobArrival? {
      j := NextEvent(s).payload.job;
      ArrivalInv(c, s, j);
      JobFacts(c, s, j);
    } else {
      j := NextEvent(s).payload.job;
      FinishIsExpected(c, s, j, NextEvent(s).payload.node);
      JobFacts(c, Final(c), j);
      if j in Final(c).pending { QueuedIfPending(c, Final(c), j); }
    }
  }

  lemma StartsWithoutEnd(c: Config)
    requires WellFormed(c) && c.jobs != []
    ensures Length(c) >= 2
  {
    hide At, Step, Final;
    EventCount(c, 0);
    InitQueue(c);
  }

  lemma InitQueue(c: Config)
    requires c.jobs != []
    ensures At(c, 0).queue != [] && !NextEvent(At(c, 0)).payload.SimEnd?
  {
  }

  lemma NextInRun(c: Config, n: nat)
    requires At(c, n).queue != []
    ensures At(c, n + 1) == Step(c, At(c, n))
  {
  }

  lemma EverybodyArrived(c: Config, s: State, j: nat)
    requires Inv(c, s) && j < |s.jobs| && (s.jobs[j].state == Done || j in s.pending)
    ensures j < |c.jobs| && c.jobs[j].submitTime <= s.now
    ensures s.jobs[j].state == Done ==> s.jobs[j].finishTime <= s.now
  {
    JobFacts(c, s, j);
    assert Arrived(s.jobs, s.pending, j);
  }

  /**
   * SimEnd records the makespan: the latest submission or finish of the run, and never more than
   * the last submission plus the total duration of the workload.
   */
  lemma {:induction false} MakespanIsLastEvent(c: Config)
    requires WellFormed(c) && c.jobs != []
    ensures var f := Final(c);
            && |f.jobs| == |c.jobs| && f.simEnd == f.now
            && (forall j :: 0 <= j < |f.jobs| ==> c.jobs[j].submitTime <= f.simEnd)
            && (forall j :: 0 <= j < |f.jobs| && f.jobs[j].state == Done ==> f.jobs[j].finishTime <= f.simEnd)
            && (exists j: nat :: EndsWith(c, f, j))
            && f.simEnd <= LastSubmit(c.jobs) + Sum(c.jobs, Duration)
  {
    hide At, Inv, Settled, Counted, LastSubmit, Step;
    var f := Final(c);
    ClockBound(c, 2 * |c.jobs| + 1);
    FinalIsIdle(c);
    EventCount(c, 0);
    EventCount(c, Length(c) - 1);
    InvShape(c, f);
    var last := LastEventIsSomebodys(c);
    forall j: nat | j < |f.jobs|
      ensures c.jobs[j].submitTime <= f.simEnd
      ensures f.jobs[j].state == Done ==> f.jobs[j].finishTime <= f.simEnd
    {
      EverybodyArrived(c, f, j);
    }
  }

  // ----- the roomy cluster -----

  /** At least as many nodes as jobs, and every request fits every empty node. */
  ghost predicate Roomy(c: Config)
  {
    && |c.jobs| <= |c.nodes|
    && forall j, i :: 0 <= j < |c.jobs| && 0 <= i < |c.nodes| ==> Within(c.jobs[j].request, c.nodes[i].capacity)
  }

  /** While a job waits some node is idle. */
  lemma SomeNodeIsIdle(c: Config, s: State) returns (i: nat)
    requires Inv(c, s) && |c.jobs| <= |c.nodes| && s.pending != []
    ensures i < |s.nodes| && s.nodes[i].free == s.nodes[i].capacity
  {
    RunningIsShort(c, s);
    hide Inv;
    i := Pigeonhole(s.nodes, RunningJobs);
    NodeFacts(c, s, i);
    NothingOn(View(s), i);
  }

  lemma RunningIsShort(c: Config, s: State)
    requires Inv(c, s) && s.pending != []
    ensures |s.running| < |c.jobs| && |s.nodes| == |c.nodes| && Sum(s.nodes, RunningJobs) == |s.running|
  {
    PendingFacts(c, s, 0);
    MissingOneIsShorter(s.running, |s.jobs|, s.pending[0]);
  }

  lemma NothingOn(view: seq<RunningJob>, i: nat)
    requires Sum(view, CountOn(i)) == 0
    ensures Held(view, i) == NOTHING
  {
  }

  lemma RoomyNeverQueues(c: Config, s: State)
    requires Between(c, s) && Roomy(c)
    ensures s.pending == []
  {
    if s.pending != [] {
      var i := SomeNodeIsIdle(c, s);
      assert false;
    }
  }

  /** A job still to arrive is not submitted before the next event. */
  lemma ArrivalIsAhead(c: Config, s: State, j: nat)
    requires Between(c, s) && s.queue != [] && j < |s.jobs| && !Arrived(s.jobs, s.pending, j)
    ensures NextEvent(s).time <= s.jobs[j].submitTime
  {
    var k :| 0 <= k < |s.queue| && IsArrivalOf(s.queue[k], j);
    assert EventOk(s.jobs, s.pending, s.queue[k]);
    assert !Earlier(s.queue[k], NextEvent(s));
  }

  lemma StartAfterSubmit(c: Config, s: State, j: nat)
    requires Between(c, s) && j < |s.jobs| && s.jobs[j].state != Queued
    ensures s.jobs[j].submitTime <= s.jobs[j].startTime
  {
  }

  lemma {:induction false} RoomyStartsOnArrival(c: Config, n: nat, j: nat)
    requires WellFormed(c) && Roomy(c) && j < |c.jobs|
    ensures |At(c, n).jobs| == |c.jobs|
    ensures At(c, n).jobs[j].state != Queued ==> At(c, n).jobs[j].startTime == c.jobs[j].submitTime
  {
    hide Step, Between;
    RunInvariant(c, n);
    BetweenSize(c, At(c, n));
    if n > 0 {
      RoomyStartsOnArrival(c, n - 1, j);
      RunInvariant(c, n - 1);
      RunAdvances(c, 0, n - 1);
      var s := At(c, n - 1);
      RoomyNeverQueues(c, s);
      if s.queue != [] {
        StepFacts(c, s);
        if s.jobs[j].state == Queued {
          ArrivalIsAhead(c, s, j);
          if At(c, n).jobs[j].state != Queued { StartAfterSubmit(c, At(c, n), j); }
        }
      }
    }
  }

  /** With a node per job nobody waits: start time is submit time, under every policy pair. */
  lemma RoomyCluster(c: Config, j: nat)
    requires WellFormed(c) && Roomy(c) && j < |c.jobs|
    ensures |Final(c).jobs| == |c.jobs|
    ensures Final(c).jobs[j].state == Done && Final(c).jobs[j].startTime == c.jobs[j].submitTime
  {
    hide At, Between;
    RoomyStartsOnArrival(c, 2 * |c.jobs| + 1, j);
    FinalIsIdle(c);
    RoomyNeverQueues(c, Final(c));
  }
}
