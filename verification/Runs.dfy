/** Steps and whole runs: what a step changes, event order, termination, and the invariant at every event. */
module Runs {
  import opened Seqs
  import opened Model
  import opened Machine
  import opened Invariant
  import opened Events
  import opened Drains

  function IsStarted(j: Job): nat { if j.state == Queued then 0 else 1 }

  /** Number of jobs that have left the backlog for a node. */
  function Started(jobs: seq<Job>): nat
  {
    Sum(jobs, IsStarted)
  }

  // ----- what a drain leaves alone -----

  /** t is s after some starts at the current tick. */
  ghost predicate Follows(s: State, t: State)
  {
    && t.now == s.now && t.util == s.util && t.simEnd == s.simEnd
    && |t.jobs| == |s.jobs|
    && (forall i :: 0 <= i < |s.jobs| ==>
          || t.jobs[i] == s.jobs[i]
          || (s.jobs[i].state == Queued && t.jobs[i] == StartedJob(s.jobs[i], s.now, t.jobs[i].node)))
    && FreeShrinks(s.nodes, t.nodes)
    && s.queue <= t.queue
    && (forall k :: |s.queue| <= k < |t.queue| ==>
          s.now <= t.queue[k].time && s.nextSeq <= t.queue[k].seqNo)
    && (forall id :: id in t.pending ==> id in s.pending)
    && t.nextSeq + Started(s.jobs) == s.nextSeq + Started(t.jobs)
    && |t.queue| + Started(s.jobs) == |s.queue| + Started(t.jobs)
    && s.nextSeq <= t.nextSeq
  }

  lemma FollowsMove(s: State, t: State, m: Move)
    requires Follows(s, t)
    requires m.k < |t.pending| && t.pending[m.k] < |t.jobs| && m.n < |t.nodes|
    requires t.jobs[t.pending[m.k]].state == Queued
    ensures Follows(s, Apply(t, m))
  {
    var u, id := Apply(t, m), t.pending[m.k];
    assert id in t.pending;
    RemoveAtFacts(t.pending, m.k);
    SumUpdate(t.jobs, id, u.jobs[id], IsStarted);
    MoreFreeShrinks(s.nodes, t.nodes, m.n, t.jobs[id].request);
    assert FreeShrinks(s.nodes, u.nodes);
    hide FreeShrinks, RemoveAt;
    assert u.queue == t.queue + [Event(t.now + t.jobs[id].duration, t.nextSeq, JobFinish(id, m.n))];
  }

  lemma MoreFreeShrinks(before: seq<Node>, after: seq<Node>, n: nat, request: Resources)
    requires FreeShrinks(before, after) && n < |after|
    ensures FreeShrinks(before, after[n := Occupy(after[n], request)])
  {
  }

  ghost function FollowsFrom(s: State): State -> bool
  {
    (t: State) => Follows(s, t)
  }

  lemma FollowsStable(c: Config, s: State)
    ensures Stable(c, FollowsFrom(s))
  {
    hide Inv, Follows, NoEnd;
    forall t: State, m: Move | Inv(c, t) && NoEnd(t.queue) && Allowed(c, t, m) && FollowsFrom(s)(t)
      ensures FollowsFrom(s)(Apply(t, m))
    {
      PendingFacts(c, t, m.k);
      FollowsMove(s, t, m);
    }
    forall t: State, cursor: nat | FollowsFrom(s)(t)
      ensures FollowsFrom(s)(WithCursor(t, cursor))
    {
      FollowsIgnoresCursor(s, t, cursor);
    }
  }

  lemma FollowsIgnoresCursor(s: State, t: State, cursor: nat)
    requires Follows(s, t)
    ensures Follows(s, WithCursor(t, cursor))
  {
  }

  lemma {:induction false} DrainFollows(c: Config, s: State)
    requires Inv(c, s) && NoEnd(s.queue)
    ensures Follows(s, Drain(c, s))
  {
    hide Inv, Follows, NoEnd;
    FollowsItself(s);
    FollowsStable(c, s);
    DrainInduction(c, s, FollowsFrom(s));
  }

  /** What each phase leaves behind. */
  lemma PhasesFollow(c: Config, s: State)
    requires Inv(c, s) && NoEnd(s.queue)
    ensures Follows(s, Phase1(c, s)) && Inv(c, Phase1(c, s)) && NoEnd(Phase1(c, s).queue) && HeadBlocked(Phase1(c, s))
    ensures s.pending != [] && HeadBlocked(s) ==>
              Follows(s, Phase2(c, s)) && Inv(c, Phase2(c, s)) && NoEnd(Phase2(c, s).queue)
  {
    hide Inv, Follows, NoEnd;
    FollowsItself(s);
    FollowsStable(c, s);
    assert StableFor(c, FollowsFrom(s), false) && StableFor(c, FollowsFrom(s), true);
    Phase1Induction(c, s, FollowsFrom(s));
    if s.pending != [] && HeadBlocked(s) { Phase2Induction(c, s, FollowsFrom(s)); }
  }

  lemma FollowsItself(s: State)
    ensures Follows(s, s)
  {
  }

  // ----- rounds of a drain -----

  /** The state after attempting backlog entry k and taking it off the backlog. */
  function After(c: Config, s: State, k: nat, b: nat): State
    requires k < |s.pending|
  {
    TryPlace(c, s, s.pending[k]).state.(pending := RemoveAt(s.pending, k), backfilled := b)
  }

  /** One successful round of phase 1. */
  lemma Phase1Round(c: Config, s: State)
    requires Inv(c, s) && NoEnd(s.queue) && s.pending != [] && TryPlace(c, s, s.pending[0]).placed
    ensures Inv(c, After(c, s, 0, s.backfilled)) && NoEnd(After(c, s, 0, s.backfilled).queue)
    ensures Phase1(c, s) == Phase1(c, After(c, s, 0, s.backfilled))
    ensures Follows(After(c, s, 0, s.backfilled), Phase1(c, s))
  {
    hide Inv, NoEnd, Follows, TryPlace, FitsAnywhere;
    var n := TryPlaceCases(c, s, 0);
    var cursor := TryPlace(c, s, s.pending[0]).state.cursor;
    Phase1Unfold(c, s);
    assert After(c, s, 0, s.backfilled) == Begin(s, 0, n, cursor, s.backfilled);
    BeginInv(c, s, 0, n, cursor, s.backfilled);
    PhasesFollow(c, After(c, s, 0, s.backfilled));
  }

  lemma Phase1Unfold(c: Config, s: State)
    requires s.pending != [] && TryPlace(c, s, s.pending[0]).placed
    ensures Phase1(c, s) == Phase1(c, After(c, s, 0, s.backfilled))
  {
    hide TryPlace;
    assert s.pending[1..] == RemoveAt(s.pending, 0);
    assert TryPlace(c, s, s.pending[0]).state.backfilled == s.backfilled by { AttemptCount(c, s, s.pending[0]); }
  }

  lemma AttemptCount(c: Config, s: State, id: nat)
    ensures TryPlace(c, s, id).state.backfilled == s.backfilled
  {
  }

  /** One round of phase 2: the pick is behind the head, fits, and is placed. */
  lemma {:induction false} Phase2Round(c: Config, s: State) returns (k: nat)
    requires Inv(c, s) && NoEnd(s.queue) && s.pending != [] && HeadBlocked(s) && PickFor(c, s).Some?
    ensures 1 <= k < |s.pending| && PickFor(c, s) == Some(s.pending[k]) && IndexOf(s.pending, s.pending[k]) == k
    ensures TryPlace(c, s, s.pending[k]).placed
    ensures var u := After(c, s, k, s.backfilled + 1);
            && Inv(c, u) && NoEnd(u.queue) && u.pending != [] && HeadBlocked(u)
            && Phase2(c, s) == Phase2(c, u)
            && Follows(u, Phase2(c, s))
  {
    k := PickCases(c, s);
    hide Inv, NoEnd, Follows, TryPlace, HeadShadow, AdmissibleAt, PickFor, Phase2;
    var m := Phase2Move(c, s);
    AdmissibleFits(s, k, HeadShadow(s));
    var n := TryPlaceCases(c, s, k);
    assert m.k == k;
    var u := After(c, s, k, s.backfilled + 1);
    assert u == Apply(s, m);
    BeginInv(c, s, m.k, m.n, m.cursor, m.backfilled);
    StillBlocked(c, s, m);
    PhasesFollow(c, u);
  }

  // ----- one step -----

  /** A job only moves forward: once started its start and node stand, once done nothing changes. */
  predicate JobAdvances(x: Job, y: Job)
  {
    && SameInputs(x, y)
    && (x.state != Queued ==> y.state != Queued && y.startTime == x.startTime && y.node == x.node)
    && (x.state == Done ==> y == x)
  }

  /** Jobs move forward, and those that start do so at tick `now`. */
  ghost predicate JobsAdvance(before: seq<Job>, after: seq<Job>, now: nat)
  {
    && |before| == |after|
    && forall i :: 0 <= i < |before| ==>
         && JobAdvances(before[i], after[i])
         && (before[i].state == Queued && after[i].state != Queued ==> after[i].state == Running && after[i].startTime == now)
  }

  /** Nothing queued precedes e any more. */
  ghost predicate AllAfter(s: State, e: Event)
  {
    e.seqNo < s.nextSeq && e.time <= s.now && forall k :: 0 <= k < |s.queue| ==> Earlier(e, s.queue[k])
  }

  /** The queue is empty or holds only the closing event. */
  predicate Ending(s: State)
  {
    s.queue == [] || s.queue[0].payload.SimEnd?
  }

  /** Sequence numbers count the arrivals, the starts, and the closing event. */
  ghost predicate Counted(c: Config, s: State)
  {
    s.nextSeq == |c.jobs| + Started(s.jobs) + if Ending(s) then 1 else 0
  }

  /** Everything known between two events. */
  ghost predicate Between(c: Config, s: State)
  {
    Inv(c, s) && Settled(c, s) && (c.jobs != [] ==> Counted(c, s))
  }

  /** The state handed to drain by the event about to be popped. */
  function BeforeDrain(s: State): State
    requires s.queue != []
  {
    match NextEvent(s).payload
    case JobArrival(id) => Enqueue(Pop(s), id)
    case JobFinish(id, n) => Release(Pop(s), id)
    case SimEnd => Pop(s)
  }

  lemma BeforeDrainInv(c: Config, s: State)
    requires Inv(c, s) && s.queue != [] && !NextEvent(s).payload.SimEnd?
    ensures Inv(c, BeforeDrain(s)) && NoEnd(BeforeDrain(s).queue)
    ensures BeforeDrain(s).queue == Pop(s).queue && BeforeDrain(s).nextSeq == s.nextSeq
    ensures BeforeDrain(s).now == NextEvent(s).time
    ensures BeforeDrain(s).util == Pop(s).util
    ensures Handle(c, Pop(s), NextEvent(s).payload) == Drain(c, BeforeDrain(s))
  {
    hide Inv, NoEnd, Drain;
    match NextEvent(s).payload
    case JobArrival(id) => ArrivalInv(c, s, id);
    case JobFinish(id, n) => FinishInv(c, s, id, n);
  }

  lemma BeforeDrainJobs(c: Config, s: State)
    requires Inv(c, s) && s.queue != [] && !NextEvent(s).payload.SimEnd?
    ensures JobsAdvance(s.jobs, BeforeDrain(s).jobs, BeforeDrain(s).now)
    ensures Started(BeforeDrain(s).jobs) == Started(s.jobs)
    ensures BeforeDrain(s).simEnd == s.simEnd && |BeforeDrain(s).nodes| == |s.nodes|
    ensures forall id :: 0 <= id < |s.jobs| && s.jobs[id].state == Queued ==> BeforeDrain(s).jobs[id].state == Queued
  {
    hide Inv;
    if NextEvent(s).payload.JobFinish? {
      FinishIsExpected(c, s, NextEvent(s).payload.job, NextEvent(s).payload.node);
      FinishJobs(s.jobs, NextEvent(s).payload.job, Pop(s).now);
    }
  }

  lemma FinishJobs(jobs: seq<Job>, id: nat, now: nat)
    requires id < |jobs| && jobs[id].state == Running
    ensures JobsAdvance(jobs, jobs[id := FinishedJob(jobs[id], now)], now)
    ensures Started(jobs[id := FinishedJob(jobs[id], now)]) == Started(jobs)
  {
    SumUpdate(jobs, id, FinishedJob(jobs[id], now), IsStarted);
  }

  /** Popping leaves only later events. */
  lemma PopAllAfter(s: State)
    requires s.queue != [] && Stamped(s.queue, s.nextSeq, s.now)
    ensures AllAfter(Pop(s), NextEvent(s))
  {
  }

  /** An event that is not SimEnd. */
  lemma StepWorking(c: Config, s: State)
    requires Between(c, s) && s.queue != [] && !NextEvent(s).payload.SimEnd?
    ensures var t := Step(c, s);
            && Between(c, t) && t.queue != [] && AllAfter(t, NextEvent(s))
            && JobsAdvance(s.jobs, t.jobs, t.now) && t.now == NextEvent(s).time && s.now <= t.now
            && t.nextSeq + |s.queue| == s.nextSeq + |t.queue| + 1
            && t.simEnd == s.simEnd && t.util == Pop(s).util
            && (t.queue[0].payload.SimEnd? ==> t.queue[0].time == t.now)
  {
    hide Inv, NoEnd, Follows, Settled, BeforeDrain, Drain, Step, JobsAdvance;
    InvShape(c, s);
    NotEnding(c, s);
    PopAllAfter(s);
    PoppedIsStrictlyEarliest(s);
    BeforeDrainInv(c, s);
    BeforeDrainJobs(c, s);
    var b := BeforeDrain(s);
    var d := Drain(c, b);
    DrainInv(c, b);
    DrainFollows(c, b);
    if d.queue == [] { ScheduleEndInv(c, d); }
    StepParts(c, s, b, d);
  }

  lemma NotEnding(c: Config, s: State)
    requires Inv(c, s) && s.queue != [] && !NextEvent(s).payload.SimEnd?
    ensures !Ending(s)
  {
  }

  lemma StepParts(c: Config, s: State, b: State, d: State)
    requires s.queue != [] && !NextEvent(s).payload.SimEnd? && Between(c, s) && !Ending(s)
    requires b == BeforeDrain(s) && d == Drain(c, b) && Handle(c, Pop(s), NextEvent(s).payload) == d
    requires b.queue == Pop(s).queue && b.nextSeq == s.nextSeq && b.now == NextEvent(s).time
    requires AllAfter(Pop(s), NextEvent(s)) && s.now <= b.now
    requires Follows(b, d) && Inv(c, d) && NoEnd(d.queue) && Settled(c, d)
    requires d.queue == [] ==> Inv(c, d.(queue := [Event(d.now, d.nextSeq, SimEnd)], nextSeq := d.nextSeq + 1))
    requires JobsAdvance(s.jobs, b.jobs, b.now) && Started(b.jobs) == Started(s.jobs) && b.simEnd == s.simEnd && b.util == Pop(s).util
    requires forall id :: 0 <= id < |s.jobs| && s.jobs[id].state == Queued ==> b.jobs[id].state == Queued
    ensures var t := Step(c, s);
            && Between(c, t) && t.queue != [] && AllAfter(t, NextEvent(s))
            && JobsAdvance(s.jobs, t.jobs, t.now) && t.now == NextEvent(s).time
            && t.nextSeq + |s.queue| == s.nextSeq + |t.queue| + 1
            && t.simEnd == s.simEnd && t.util == Pop(s).util
            && (t.queue[0].payload.SimEnd? ==> t.queue[0].time == t.now)
  {
    hide Inv, Drain, BeforeDrain, Started, HeadBlocked, PickFor;
    var e, t := NextEvent(s), Step(c, s);
    assert Settled(c, t) by {
      SettledIgnoresQueue(c, d, t.queue, t.nextSeq);
    }
    forall k | 0 <= k < |d.queue|
      ensures Earlier(e, d.queue[k])
    {
      if k < |b.queue| { assert d.queue[k] == b.queue[k]; }
    }
  }

  lemma SettledIgnoresQueue(c: Config, s: State, queue: seq<Event>, nextSeq: nat)
    requires Settled(c, s)
    ensures Settled(c, s.(queue := queue, nextSeq := nextSeq))
  {
  }

  /** The closing event changes nothing but the queue and simEnd. */
  lemma StepEnd(c: Config, s: State)
    requires Between(c, s) && s.queue != [] && NextEvent(s).payload.SimEnd?
    ensures Step(c, s) == s.(queue := [], simEnd := s.now)
    ensures Between(c, Step(c, s)) && |s.queue| == 1
    ensures NextEvent(s).time == s.now
  {
    EndInv(c, s);
    assert Ending(s);
    var t := Step(c, s);
    assert View(t) == View(s);
    hide Inv;
    assert Settled(c, t);
  }

  lemma StepFacts(c: Config, s: State)
    requires Between(c, s) && s.queue != []
    ensures var t := Step(c, s);
            && Between(c, t) && s.now <= t.now == NextEvent(s).time
            && JobsAdvance(s.jobs, t.jobs, t.now)
            && t.nextSeq + |s.queue| == s.nextSeq + |t.queue| + 1
            && t.util == Pop(s).util
            && (!NextEvent(s).payload.SimEnd? <==> t.queue != [])
            && (t.queue != [] ==> AllAfter(t, NextEvent(s)))
  {
    if NextEvent(s).payload.SimEnd? {
      StepEnd(c, s);
    } else {
      StepWorking(c, s);
    }
  }

  // ----- whole runs -----

  lemma InitBetween(c: Config)
    requires WellFormed(c)
    ensures Between(c, Init(c))
  {
    InitInv(c);
    SumZero(c.jobs, IsStarted);
  }

  /** The run invariant holds at every event of every run. */
  lemma {:induction false} RunInvariant(c: Config, n: nat)
    requires WellFormed(c)
    ensures Between(c, At(c, n))
  {
    hide Step, Between;
    if n == 0 {
      InitBetween(c);
    } else {
      RunInvariant(c, n - 1);
      if At(c, n - 1).queue != [] { StepFacts(c, At(c, n - 1)); }
    }
  }

  /** Along a run jobs only move forward and the clock never goes back. */
  lemma {:induction false} RunAdvances(c: Config, m: nat, n: nat)
    requires WellFormed(c) && m <= n
    ensures At(c, m).now <= At(c, n).now
    ensures |At(c, m).jobs| == |At(c, n).jobs|
    ensures forall i :: 0 <= i < |At(c, m).jobs| ==> JobAdvances(At(c, m).jobs[i], At(c, n).jobs[i])
  {
    hide Step, Between, JobAdvances;
    if m < n {
      RunAdvances(c, m, n - 1);
      RunInvariant(c, n - 1);
      if At(c, n - 1).queue != [] {
        StepFacts(c, At(c, n - 1));
        forall i | 0 <= i < |At(c, m).jobs|
          ensures JobAdvances(At(c, m).jobs[i], At(c, n).jobs[i])
        {
          AdvancesTransitive(At(c, m).jobs[i], At(c, n - 1).jobs[i], At(c, n).jobs[i]);
        }
      }
    } else {
      forall i | 0 <= i < |At(c, m).jobs|
        ensures JobAdvances(At(c, m).jobs[i], At(c, n).jobs[i])
      {
        AdvancesItself(At(c, n).jobs[i]);
      }
    }
  }

  lemma AdvancesItself(x: Job)
    ensures JobAdvances(x, x)
  {
  }

  lemma AdvancesTransitive(x: Job, y: Job, z: Job)
    requires JobAdvances(x, y) && JobAdvances(y, z)
    ensures JobAdvances(x, z)
  {
  }

  lemma {:induction false} DrainedStaysDrained(c: Config, m: nat, n: nat)
    requires m <= n && At(c, m).queue == []
    ensures At(c, n) == At(c, m)
  {
    hide Step;
    if m < n {
      DrainedStaysDrained(c, m, n - 1);
    }
  }

  /** Every scheduled event has been popped or is still queued. */
  lemma {:induction false} PoppedCount(c: Config, n: nat)
    requires WellFormed(c) && (n > 0 ==> At(c, n - 1).queue != [])
    ensures n + |At(c, n).queue| == At(c, n).nextSeq
  {
    hide Step, Between;
    if n > 0 {
      PoppedCount(c, n - 1);
      RunInvariant(c, n - 1);
      StepFacts(c, At(c, n - 1));
    }
  }

  lemma StartedBound(jobs: seq<Job>)
    ensures Started(jobs) <= |jobs|
  {
    Bounded(jobs, IsStarted);
  }

  lemma {:induction false} Bounded<T>(xs: seq<T>, f: T -> nat)
    requires forall i :: 0 <= i < |xs| ==> f(xs[i]) <= 1
    ensures Sum(xs, f) <= |xs|
  {
    if xs != [] {
      Bounded(xs[..|xs| - 1], f);
    }
  }

  /** Number of events a run pops. */
  ghost function Length(c: Config): nat
  {
    Final(c).nextSeq
  }

  lemma SequenceBound(c: Config, s: State)
    requires Between(c, s) && c.jobs != []
    ensures s.nextSeq == |c.jobs| + Started(s.jobs) + (if Ending(s) then 1 else 0)
    ensures Started(s.jobs) <= |c.jobs|
  {
    hide Settled, Lists, Phases, Ordered, Stamped, Scheduled, Books, Totals, Metered, Paced, InFifoOrder;
    StartedBound(s.jobs);
  }

  /** The loop ends: Final is drained. */
  lemma RunTerminates(c: Config)
    requires WellFormed(c)
    ensures Final(c).queue == []
  {
    hide Step, Between;
    var n := 2 * |c.jobs| + 1;
    if c.jobs == [] {
      DrainedStaysDrained(c, 0, n);
    } else if At(c, n - 1).queue == [] {
      DrainedStaysDrained(c, n - 1, n);
    } else {
      PoppedCount(c, n);
      RunInvariant(c, n);
      SequenceBound(c, At(c, n));
    }
  }

  /** Length is exact: the queue is non-empty before that many events and empty from then on. */
  lemma LengthIsExact(c: Config, n: nat)
    requires WellFormed(c)
    ensures At(c, n).queue == [] <==> n >= Length(c)
    ensures n >= Length(c) ==> At(c, n) == Final(c)
  {
    hide Step;
    RunTerminates(c);
    var last := FirstDrained(c, 2 * |c.jobs| + 1);
    PoppedCount(c, last);
    DrainedStaysDrained(c, last, 2 * |c.jobs| + 1);
    assert last == Length(c);
    if n >= last { DrainedStaysDrained(c, last, n); }
    if n < last && At(c, n).queue == [] { DrainedStaysDrained(c, n, last - 1); }
  }

  lemma {:induction false} FirstDrained(c: Config, n: nat) returns (m: nat)
    requires At(c, n).queue == []
    ensures m <= n && At(c, m).queue == [] && (m > 0 ==> At(c, m - 1).queue != [])
  {
    hide Step;
    if n == 0 || At(c, n - 1).queue != [] {
      m := n;
    } else {
      m := FirstDrained(c, n - 1);
    }
  }

  /**
   * A run of a non-empty workload pops one arrival per job, one finish per started job and one
   * SimEnd; SimEnd comes last, only once, and at the time of the event before it.
   */
  lemma EventCount(c: Config, n: nat)
    requires WellFormed(c) && c.jobs != []
    ensures Length(c) == |c.jobs| + Started(Final(c).jobs) + 1
    ensures n < Length(c) ==> At(c, n).queue != [] && (NextEvent(At(c, n)).payload.SimEnd? <==> n == Length(c) - 1)
    ensures n == Length(c) - 1 ==> NextEvent(At(c, n)).time == At(c, n).now == Final(c).simEnd == Final(c).now
  {
    hide Step, Between, Ending;
    RunTerminates(c);
    RunInvariant(c, 2 * |c.jobs| + 1);
    SequenceBound(c, Final(c));
    assert Ending(Final(c)) by { DrainedIsEnding(Final(c)); }
    LengthIsExact(c, n);
    LengthIsExact(c, n + 1);
    RunInvariant(c, n);
    if n < Length(c) {
      StepFacts(c, At(c, n));
      if n == Length(c) - 1 { StepEnd(c, At(c, n)); }
    }
  }

  lemma DrainedIsEnding(s: State)
    requires s.queue == []
    ensures Ending(s)
  {
  }

  /** The popped events are strictly increasing in (time, sequence number). */
  lemma {:induction false} PoppedInOrder(c: Config, m: nat, n: nat)
    requires WellFormed(c) && m < n < Length(c)
    ensures At(c, m).queue != [] && At(c, n).queue != []
    ensures Earlier(NextEvent(At(c, m)), NextEvent(At(c, n)))
  {
    hide Step, Between;
    LengthIsExact(c, m);
    LengthIsExact(c, n);
    LengthIsExact(c, n - 1);
    RunInvariant(c, n - 1);
    StepFacts(c, At(c, n - 1));
    assert Earlier(NextEvent(At(c, n - 1)), NextEvent(At(c, n)));
    if m < n - 1 {
      PoppedInOrder(c, m, n - 1);
    }
  }
}
