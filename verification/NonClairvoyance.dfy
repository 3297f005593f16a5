/**
 * No scheduling decision looks at a true duration before it has elapsed: two workloads that differ
 * only in the durations of jobs finishing after tick T run identically up to T.
 */
module NonClairvoyance {
  import opened Seqs
  import opened Model
  import opened Machine
  import opened Invariant
  import opened Drains
  import opened Runs
  import opened Outcomes
  import Placement

  /** Equal but for the duration. */
  predicate TwinJob(x: Job, y: Job)
  {
    x == y.(duration := x.duration)
  }

  predicate TwinEvent(x: Event, y: Event, T: nat)
  {
    x.seqNo == y.seqNo && x.payload == y.payload && (x.time == y.time || (x.time > T && y.time > T))
  }

  ghost predicate TwinJobs(a: seq<Job>, b: seq<Job>)
  {
    |a| == |b| && forall i :: 0 <= i < |a| ==> TwinJob(a[i], b[i])
  }

  ghost predicate TwinQueues(p: seq<Event>, q: seq<Event>, T: nat)
  {
    |p| == |q| && forall i :: 0 <= i < |p| ==> TwinEvent(p[i], q[i], T)
  }

  /** Indistinguishable up to T: everything equal but durations and event times beyond T. */
  ghost predicate Twins(s: State, t: State, T: nat)
  {
    && s == t.(jobs := s.jobs, queue := s.queue)
    && TwinJobs(s.jobs, t.jobs)
    && TwinQueues(s.queue, t.queue, T)
  }

  /** Same cluster, same policies, same jobs apart from true durations. */
  ghost predicate SameApartFromDurations(c: Config, d: Config)
  {
    c == d.(jobs := c.jobs) && TwinJobs(c.jobs, d.jobs)
  }

  /** A pair of job records whose durations agree, or that both run past T if they run. */
  predicate Discreet(x: Job, y: Job, T: nat)
  {
    || x.duration == y.duration
    || (&& (x.state != Queued ==> x.startTime + x.duration > T)
        && (y.state != Queued ==> y.startTime + y.duration > T))
  }

  ghost predicate AllDiscreet(a: seq<Job>, b: seq<Job>, T: nat)
  {
    |a| == |b| && forall i :: 0 <= i < |a| ==> Discreet(a[i], b[i], T)
  }

  lemma TwinsSymmetric(s: State, t: State, T: nat)
    requires Twins(s, t, T)
    ensures Twins(t, s, T)
  {
  }

  // ----- decisions see no durations -----

  lemma TwinViews(a: seq<Job>, b: seq<Job>, ids: seq<nat>)
    requires TwinJobs(a, b)
    ensures BacklogView(a, ids) == BacklogView(b, ids)
    ensures InFlightView(a, ids) == InFlightView(b, ids)
  {
  }

  lemma TwinPicks(c: Config, d: Config, s: State, t: State, T: nat)
    requires SameApartFromDurations(c, d) && Twins(s, t, T)
    ensures PickFor(c, s) == PickFor(d, t)
  {
    TwinViews(s.jobs, t.jobs, s.pending);
    TwinViews(s.jobs, t.jobs, s.running);
  }

  /** An attempt succeeds in both or in neither, on the same node and with the same cursor. */
  lemma TwinAttempt(c: Config, d: Config, s: State, t: State, T: nat, id: nat)
    requires SameApartFromDurations(c, d) && Twins(s, t, T)
    ensures TryPlace(c, s, id).placed == TryPlace(d, t, id).placed
    ensures !TryPlace(c, s, id).placed ==> Twins(TryPlace(c, s, id).state, TryPlace(d, t, id).state, T)
    ensures TryPlace(c, s, id).placed ==>
              && id < |s.jobs|
              && TryPlace(c, s, id).state.jobs[id] == StartedJob(s.jobs[id], s.now, TryPlace(c, s, id).state.jobs[id].node)
              && TryPlace(d, t, id).state.jobs[id] == StartedJob(t.jobs[id], t.now, TryPlace(d, t, id).state.jobs[id].node)
    ensures (TryPlace(c, s, id).placed && Discreet(TryPlace(c, s, id).state.jobs[id], TryPlace(d, t, id).state.jobs[id], T))
              ==> Twins(TryPlace(c, s, id).state, TryPlace(d, t, id).state, T)
  {
  }

  // ----- drains -----

  /** What is discreet at the end of some starts was discreet all along. */
  lemma DiscreetBefore(s: State, s': State, t: State, t': State, T: nat)
    requires Follows(s, s') && Follows(t, t') && AllDiscreet(s'.jobs, t'.jobs, T)
    ensures AllDiscreet(s.jobs, t.jobs, T)
  {
  }

  /** One successful attempt taken in both runs, followed by whatever either does next. */
  lemma TwinBegin(c: Config, d: Config, s: State, t: State, T: nat, k: nat, b: nat, s': State, t': State)
    requires SameApartFromDurations(c, d) && Twins(s, t, T) && k < |s.pending|
    requires TryPlace(c, s, s.pending[k]).placed
    requires Follows(After(c, s, k, b), s') && Follows(After(d, t, k, b), t') && AllDiscreet(s'.jobs, t'.jobs, T)
    ensures Twins(After(c, s, k, b), After(d, t, k, b), T)
  {
    hide Twins, TwinJobs;
    var id := s.pending[k];
    assert t.pending == s.pending by { TwinFields(s, t, T); }
    TwinAttempt(c, d, s, t, T, id);
    var u, v := After(c, s, k, b), After(d, t, k, b);
    DiscreetBefore(u, s', v, t', T);
    assert |u.jobs| == |s.jobs| by { SizesStand(c, s, id); }
    assert Discreet(u.jobs[id], v.jobs[id], T);
    TwinRest(TryPlace(c, s, id).state, TryPlace(d, t, id).state, T, RemoveAt(s.pending, k), b);
  }

  lemma TwinFields(s: State, t: State, T: nat)
    requires Twins(s, t, T)
    ensures t.pending == s.pending && t.backfilled == s.backfilled && t.now == s.now && |t.queue| == |s.queue|
    ensures t.nodes == s.nodes && |t.jobs| == |s.jobs|
  {
  }

  lemma SizesStand(c: Config, s: State, id: nat)
    ensures |TryPlace(c, s, id).state.jobs| == |s.jobs|
  {
  }

  lemma TwinRest(s: State, t: State, T: nat, pending: seq<nat>, b: nat)
    requires Twins(s, t, T)
    ensures Twins(s.(pending := pending, backfilled := b), t.(pending := pending, backfilled := b), T)
  {
  }

  lemma {:induction false} Phase1Twins(c: Config, d: Config, s: State, t: State, T: nat)
    requires SameApartFromDurations(c, d) && Twins(s, t, T)
    requires Inv(c, s) && NoEnd(s.queue) && Inv(d, t) && NoEnd(t.queue)
    requires AllDiscreet(Phase1(c, s).jobs, Phase1(d, t).jobs, T)
    ensures Twins(Phase1(c, s), Phase1(d, t), T)
    decreases |s.pending|
  {
    hide Inv, NoEnd, Twins, Follows, TryPlace, AllDiscreet, SameApartFromDurations;
    TwinFields(s, t, T);
    if s.pending != [] {
      TwinAttempt(c, d, s, t, T, s.pending[0]);
      if TryPlace(c, s, s.pending[0]).placed {
        Phase1Round(c, s);
        Phase1Round(d, t);
        TwinBegin(c, d, s, t, T, 0, s.backfilled, Phase1(c, s), Phase1(d, t));
        Phase1Twins(c, d, After(c, s, 0, s.backfilled), After(d, t, 0, t.backfilled), T);
      }
    }
  }

  lemma {:induction false} Phase2Twins(c: Config, d: Config, s: State, t: State, T: nat)
    requires SameApartFromDurations(c, d) && Twins(s, t, T)
    requires Inv(c, s) && NoEnd(s.queue) && Inv(d, t) && NoEnd(t.queue)
    requires s.pending != [] && HeadBlocked(s) && HeadBlocked(t)
    requires AllDiscreet(Phase2(c, s).jobs, Phase2(d, t).jobs, T)
    ensures Twins(Phase2(c, s), Phase2(d, t), T)
    decreases |s.pending|
  {
    hide Inv, NoEnd, Twins, Follows, TryPlace, AllDiscreet, SameApartFromDurations, HeadBlocked, PickFor;
    TwinFields(s, t, T);
    TwinPicks(c, d, s, t, T);
    if PickFor(c, s).Some? {
      var k := Phase2Round(c, s);
      var l := Phase2Round(d, t);
      assert k == l;
      TwinBegin(c, d, s, t, T, k, s.backfilled + 1, Phase2(c, s), Phase2(d, t));
      Phase2Twins(c, d, After(c, s, k, s.backfilled + 1), After(d, t, k, t.backfilled + 1), T);
    }
  }

  lemma DrainTwins(c: Config, d: Config, s: State, t: State, T: nat)
    requires SameApartFromDurations(c, d) && Twins(s, t, T)
    requires Inv(c, s) && NoEnd(s.queue) && Inv(d, t) && NoEnd(t.queue)
    requires AllDiscreet(Drain(c, s).jobs, Drain(d, t).jobs, T)
    ensures Twins(Drain(c, s), Drain(d, t), T)
  {
    hide Inv, NoEnd, Twins, Follows, AllDiscreet, SameApartFromDurations, HeadBlocked, Phase1, Phase2;
    PhasesFollow(c, s);
    PhasesFollow(d, t);
    var u, v := Phase1(c, s), Phase1(d, t);
    if u.pending != [] { PhasesFollow(c, u); } else { FollowsItself(u); }
    if v.pending != [] { PhasesFollow(d, v); } else { FollowsItself(v); }
    DiscreetBefore(u, Drain(c, s), v, Drain(d, t), T);
    Phase1Twins(c, d, s, t, T);
    TwinFields(u, v, T);
    if u.pending != [] { Phase2Twins(c, d, u, v, T); }
  }

  // ----- steps -----

  /** The earliest event, if it is due by T in either run, sits at the same place in both queues. */
  lemma TwinEarliest(s: State, t: State, T: nat)
    requires Twins(s, t, T) && s.queue != []
    requires Stamped(s.queue, s.nextSeq, s.now) && NextEvent(s).time <= T
    ensures t.queue != [] && Earliest(t.queue) == Earliest(s.queue) && NextEvent(t) == NextEvent(s)
  {
  }

  lemma TwinBeforeDrain(s: State, t: State, T: nat)
    requires Twins(s, t, T) && s.queue != [] && t.queue != []
    requires Earliest(t.queue) == Earliest(s.queue) && NextEvent(t) == NextEvent(s)
    ensures Twins(BeforeDrain(s), BeforeDrain(t), T)
  {
    TwinRemoved(s.queue, t.queue, T, Earliest(s.queue));
    hide TwinQueues, RemoveAt;
    if NextEvent(s).payload.JobFinish? {
      var id := NextEvent(s).payload.job;
      assert id < |s.jobs| ==> TwinJob(s.jobs[id], t.jobs[id]);
    }
  }

  lemma TwinRemoved(p: seq<Event>, q: seq<Event>, T: nat, i: nat)
    requires TwinQueues(p, q, T) && i < |p|
    ensures TwinQueues(RemoveAt(p, i), RemoveAt(q, i), T)
  {
  }

  /** Closing a step: the SimEnd handler, or scheduling SimEnd on an empty queue. */
  lemma TwinClose(c: Config, d: Config, s: State, t: State, b: State, e: State, T: nat)
    requires s.queue != [] && t.queue != [] && NextEvent(t) == NextEvent(s)
    requires Twins(b, e, T)
    requires !NextEvent(s).payload.SimEnd?
    requires Handle(c, Pop(s), NextEvent(s).payload) == b && Handle(d, Pop(t), NextEvent(t).payload) == e
    ensures Twins(Step(c, s), Step(d, t), T)
  {
    hide Handle, TwinJobs;
  }

  lemma TwinEnd(c: Config, d: Config, s: State, t: State, T: nat)
    requires Twins(s, t, T) && Between(c, s) && Between(d, t) && s.queue != [] && t.queue != []
    requires NextEvent(s).payload.SimEnd? && NextEvent(t).payload.SimEnd?
    ensures Twins(Step(c, s), Step(d, t), T)
  {
    StepEnd(c, s);
    StepEnd(d, t);
    hide Between, Step, TwinJobs;
  }

  lemma DrainDiscreet(c: Config, s: State)
    requires Between(c, s) && s.queue != [] && !NextEvent(s).payload.SimEnd?
    ensures Step(c, s).jobs == Drain(c, BeforeDrain(s)).jobs
  {
    BeforeDrainInv(c, s);
  }

  lemma StepTwins(c: Config, d: Config, s: State, t: State, T: nat)
    requires SameApartFromDurations(c, d) && Twins(s, t, T) && Between(c, s) && Between(d, t) && s.queue != []
    requires NextEvent(s).time <= T
    requires t.queue != [] ==> AllDiscreet(Step(c, s).jobs, Step(d, t).jobs, T)
    ensures t.queue != [] && NextEvent(t) == NextEvent(s) && Twins(Step(c, s), Step(d, t), T)
  {
    TwinEarliest(s, t, T);
    hide Inv, Twins, AllDiscreet, SameApartFromDurations, Settled, Counted, Step, Drain, BeforeDrain, NoEnd, Handle;
    if NextEvent(s).payload.SimEnd? {
      TwinEnd(c, d, s, t, T);
    } else {
      TwinBeforeDrain(s, t, T);
      DrainDiscreet(c, s);
      DrainDiscreet(d, t);
      BeforeDrainInv(c, s);
      BeforeDrainInv(d, t);
      DrainTwins(c, d, BeforeDrain(s), BeforeDrain(t), T);
      TwinClose(c, d, s, t, Drain(c, BeforeDrain(s)), Drain(d, BeforeDrain(t)), T);
    }
  }

  // ----- runs -----

  /** In this run job j finishes after tick T, or never starts. */
  ghost predicate FinishesAfter(c: Config, j: nat, T: nat)
  {
    var f := Final(c);
    j < |f.jobs| && (f.jobs[j].state == Queued || f.jobs[j].finishTime > T)
  }

  /** The durations differ only for jobs that finish after T in both runs. */
  ghost predicate DifferOnlyAfter(c: Config, d: Config, T: nat)
  {
    && SameApartFromDurations(c, d)
    && forall j :: 0 <= j < |c.jobs| && c.jobs[j].duration != d.jobs[j].duration
         ==> FinishesAfter(c, j, T) && FinishesAfter(d, j, T)
  }

  lemma FinalJobs(c: Config, j: nat, T: nat)
    requires WellFormed(c) && j < |c.jobs|
    ensures |Final(c).jobs| == |c.jobs| && Final(c).jobs[j].duration == c.jobs[j].duration
    ensures FinishesAfter(c, j, T) && Final(c).jobs[j].state != Queued ==>
              Final(c).jobs[j].startTime + Final(c).jobs[j].duration > T
  {
    FinalIsIdle(c);
    var f := Final(c);
    hide Final;
    assert SameInputs(f.jobs[j], c.jobs[j]) && PhaseOk(f.jobs[j], |f.nodes|, f.now);
  }

  lemma FinalAdvances(c: Config, n: nat)
    requires WellFormed(c)
    ensures |At(c, n).jobs| == |c.jobs| == |Final(c).jobs|
    ensures forall j :: 0 <= j < |c.jobs| ==> JobAdvances(At(c, n).jobs[j], Final(c).jobs[j])
  {
    hide Step, JobAdvances;
    RunAdvances(c, 0, n);
    if n <= 2 * |c.jobs| + 1 {
      RunAdvances(c, n, 2 * |c.jobs| + 1);
    } else {
      RunTerminates(c);
      DrainedStaysDrained(c, 2 * |c.jobs| + 1, n);
      RunAdvances(c, n, n);
    }
  }

  lemma AlwaysDiscreet(c: Config, d: Config, n: nat, T: nat)
    requires WellFormed(c) && WellFormed(d) && DifferOnlyAfter(c, d, T)
    ensures AllDiscreet(At(c, n).jobs, At(d, n).jobs, T)
  {
    hide At, Final, FinishesAfter;
    FinalAdvances(c, n);
    FinalAdvances(d, n);
    forall j | 0 <= j < |c.jobs|
      ensures Discreet(At(c, n).jobs[j], At(d, n).jobs[j], T)
    {
      FinalJobs(c, j, T);
      FinalJobs(d, j, T);
      assert JobAdvances(At(c, n).jobs[j], Final(c).jobs[j]) && JobAdvances(At(d, n).jobs[j], Final(d).jobs[j]);
    }
  }

  lemma InitTwins(c: Config, d: Config, T: nat)
    requires SameApartFromDurations(c, d)
    ensures Twins(Init(c), Init(d), T)
  {
  }

  lemma SameSymmetric(c: Config, d: Config, T: nat)
    requires DifferOnlyAfter(c, d, T)
    ensures DifferOnlyAfter(d, c, T)
  {
  }

  lemma {:induction false} TwinRuns(c: Config, d: Config, n: nat, T: nat)
    requires WellFormed(c) && WellFormed(d) && DifferOnlyAfter(c, d, T)
    requires At(c, n).now <= T || At(d, n).now <= T
    ensures Twins(At(c, n), At(d, n), T)
  {
    hide Step, Between, Twins, AllDiscreet, SameApartFromDurations, FinishesAfter;
    if n == 0 {
      InitTwins(c, d, T);
    } else {
      RunAdvances(c, n - 1, n);
      RunAdvances(d, n - 1, n);
      TwinRuns(c, d, n - 1, T);
      var s, t := At(c, n - 1), At(d, n - 1);
      RunInvariant(c, n - 1);
      RunInvariant(d, n - 1);
      AlwaysDiscreet(c, d, n, T);
      SameSymmetric(c, d, T);
      AlwaysDiscreet(d, c, n, T);
      TwinFields(s, t, T);
      if s.queue != [] {
        StepFacts(c, s);
        StepFacts(d, t);
        if At(c, n).now <= T {
          StepTwins(c, d, s, t, T);
        } else {
          TwinsSymmetric(s, t, T);
          StepTwins(d, c, t, s, T);
          TwinsSymmetric(At(d, n), At(c, n), T);
        }
      }
    }
  }

  /**
   * Non-clairvoyance, for all eight policy pairs: as long as either run is still within T both have
   * popped the same events, hold the same backlog and nodes, and have started the same jobs at the
   * same times on the same nodes; and an event due by T in one run is the next event in the other.
   */
  lemma {:induction false} RunsAgreeUpTo(c: Config, d: Config, n: nat, T: nat)
    requires WellFormed(c) && WellFormed(d) && DifferOnlyAfter(c, d, T)
    requires At(c, n).now <= T || At(d, n).now <= T
    ensures var s, t := At(c, n), At(d, n);
            && s.now == t.now && s.nodes == t.nodes && s.pending == t.pending && s.running == t.running
            && s.util == t.util && s.backfilled == t.backfilled
            && |s.jobs| == |t.jobs| == |c.jobs|
            && (forall j :: 0 <= j < |s.jobs| ==>
                  && s.jobs[j].state == t.jobs[j].state && s.jobs[j].startTime == t.jobs[j].startTime
                  && s.jobs[j].node == t.jobs[j].node && s.jobs[j].finishTime == t.jobs[j].finishTime)
            && (s.queue != [] && NextEvent(s).time <= T ==> t.queue != [] && NextEvent(t) == NextEvent(s))
  {
    TwinRuns(c, d, n, T);
    RunAdvances(c, 0, n);
    RunInvariant(c, n);
    var s, t := At(c, n), At(d, n);
    hide At;
    forall j | 0 <= j < |s.jobs|
      ensures TwinJob(s.jobs[j], t.jobs[j])
    {
    }
    if s.queue != [] && NextEvent(s).time <= T { TwinEarliest(s, t, T); }
  }
}
