/**
 * When the head of the backlog truly starts. Its true shadow time is the shadow time a scheduler
 * would compute if it knew every duration; the simulator never sees it.
 */
module Delay {
  import opened Seqs
  import opened Model
  import opened Shadow
  import opened Machine
  import opened Invariant
  import opened Events
  import opened Drains
  import opened Runs
  import opened Outcomes
  import opened Reservation

  // ----- the same run with every claim replaced by the truth -----

  function ExactJob(j: Job): Job
  {
    j.(estimatedDuration := j.duration)
  }

  function ExactJobs(jobs: seq<Job>): seq<Job>
  {
    seq(|jobs|, i requires 0 <= i < |jobs| => ExactJob(jobs[i]))
  }

  function Exact(s: State): State
  {
    s.(jobs := ExactJobs(s.jobs))
  }

  function ExactConfig(c: Config): Config
  {
    c.(jobs := ExactJobs(c.jobs))
  }

  lemma ExactOrder(jobs: seq<Job>, pending: seq<nat>)
    ensures forall a: nat, b: nat :: a < |jobs| && b < |jobs| ==>
              ArrivesBefore(ExactJobs(jobs), a, b) == ArrivesBefore(jobs, a, b)
    ensures forall a: nat :: a < |jobs| ==> Arrived(ExactJobs(jobs), pending, a) == Arrived(jobs, pending, a)
  {
  }

  lemma ExactLists(c: Config, s: State)
    requires Inv(c, s)
    ensures Inputs(ExactConfig(c), ExactJobs(s.jobs), s.nodes)
    ensures Lists(ExactJobs(s.jobs), s.pending, s.running)
    ensures Phases(ExactJobs(s.jobs), |s.nodes|, s.now)
  {
    hide Ordered, Stamped, Scheduled, Books, Totals, Metered, Paced, InFifoOrder;
    forall i | 0 <= i < |s.jobs|
      ensures PhaseOk(ExactJobs(s.jobs)[i], |s.nodes|, s.now)
      ensures SameInputs(ExactJobs(s.jobs)[i], ExactJobs(c.jobs)[i])
    {
      assert PhaseOk(s.jobs[i], |s.nodes|, s.now) && SameInputs(s.jobs[i], c.jobs[i]);
    }
  }

  lemma ExactOrdered(c: Config, s: State)
    requires Inv(c, s)
    ensures Ordered(ExactJobs(s.jobs), s.pending, s.now)
    ensures InFifoOrder(ExactConfig(c), ExactJobs(s.jobs), s.backfilled)
  {
    ExactOrder(s.jobs, s.pending);
    hide Inputs, Lists, Phases, Stamped, Scheduled, Books, Totals, Metered, Paced, ArrivesBefore, Arrived;
    assert forall i :: 0 <= i < |s.jobs| ==> ExactJobs(s.jobs)[i].submitTime == s.jobs[i].submitTime;
  }

  lemma ExactScheduled(c: Config, s: State)
    requires Inv(c, s)
    ensures Scheduled(ExactJobs(s.jobs), s.pending, s.queue, s.now)
  {
    ExactOrder(s.jobs, s.pending);
    hide Inputs, Lists, Phases, Ordered, Stamped, Books, Totals, Metered, Paced, InFifoOrder, ArrivesBefore, Arrived;
    forall i | 0 <= i < |s.queue|
      ensures EventOk(ExactJobs(s.jobs), s.pending, s.queue[i])
    {
      assert EventOk(s.jobs, s.pending, s.queue[i]);
    }
  }

  lemma ExactBooks(c: Config, s: State)
    requires Inv(c, s)
    ensures Books(s.nodes, View(Exact(s)))
  {
    forall i | 0 <= i < |s.nodes|
      ensures Booked(s.nodes[i], View(Exact(s)), i)
    {
      NodeFacts(c, s, i);
      ExactHeld(c, s, i);
    }
  }

  /** The two views name the same jobs with the same holdings. */
  lemma ExactView(c: Config, s: State, k: nat)
    requires Inv(c, s) && k < |s.running|
    ensures |View(s)| == |View(Exact(s))| == |s.running|
    ensures s.running[k] < |s.jobs|
    ensures View(s)[k] == RunningView(s.jobs[s.running[k]])
    ensures View(Exact(s))[k] == RunningView(ExactJob(s.jobs[s.running[k]]))
  {
    RunningFacts(c, s, k);
  }

  lemma ExactHeld(c: Config, s: State, i: nat)
    requires Inv(c, s)
    ensures Held(View(Exact(s)), i) == Held(View(s), i)
    ensures Sum(View(Exact(s)), CountOn(i)) == Sum(View(s), CountOn(i))
  {
    var view, exact := View(s), View(Exact(s));
    forall k | 0 <= k < |view|
      ensures exact[k].node == view[k].node && exact[k].held == view[k].held
    {
      ExactView(c, s, k);
    }
    hide Inv;
    SumSame(exact, view, CoresOn(i), CoresOn(i));
    SumSame(exact, view, MemoryOn(i), MemoryOn(i));
    SumSame(exact, view, CountOn(i), CountOn(i));
  }

  lemma ExactSums(jobs: seq<Job>, now: nat)
    ensures InUse(ExactJobs(jobs)) == InUse(jobs)
    ensures Sum(ExactJobs(jobs), CoreWork(now)) == Sum(jobs, CoreWork(now))
    ensures Sum(ExactJobs(jobs), MemoryWork(now)) == Sum(jobs, MemoryWork(now))
    ensures Sum(ExactJobs(jobs), StartedDuration) == Sum(jobs, StartedDuration)
  {
    var exact := ExactJobs(jobs);
    SumSame(exact, jobs, UseCores, UseCores);
    SumSame(exact, jobs, UseMemory, UseMemory);
    SumSame(exact, jobs, CoreWork(now), CoreWork(now));
    SumSame(exact, jobs, MemoryWork(now), MemoryWork(now));
    SumSame(exact, jobs, StartedDuration, StartedDuration);
  }

  lemma {:induction false} ExactLastSubmit(jobs: seq<Job>)
    ensures LastSubmit(ExactJobs(jobs)) == LastSubmit(jobs)
  {
    if jobs != [] {
      ExactLastSubmit(jobs[..|jobs| - 1]);
      assert ExactJobs(jobs)[..|jobs| - 1] == ExactJobs(jobs[..|jobs| - 1]);
    }
  }

  /** The claims play no part in the invariant. */
  lemma ExactInv(c: Config, s: State)
    requires Inv(c, s)
    ensures Inv(ExactConfig(c), Exact(s))
  {
    ExactLists(c, s);
    ExactOrdered(c, s);
    ExactScheduled(c, s);
    ExactBooks(c, s);
    ExactSums(s.jobs, s.now);
    ExactLastSubmit(c.jobs);
    hide Inputs, Lists, Phases, Ordered, Stamped, Scheduled, Books, InFifoOrder, ExactJobs, InUse, LastSubmit, View;
  }

  // ----- true predictions -----

  /** When the head could start if every running job truly ended when it truly ends. */
  ghost function TrueShadow(s: State): nat
    requires s.pending != []
  {
    HeadShadow(Exact(s))
  }

  /** Some node has room for h by u, once the running jobs truly over by then are gone. */
  predicate TrulyFits(s: State, h: nat, u: nat)
    requires h < |s.jobs|
  {
    FitsIn(Exact(s), h, u)
  }

  /** h still waits, as the head. */
  predicate Waits(s: State, h: nat)
  {
    h < |s.jobs| && s.jobs[h].state == Queued && s.pending != [] && s.pending[0] == h
  }

  lemma ExactMove(c: Config, s: State, m: Move)
    requires Inv(c, s) && CanBegin(c, s, m.k, m.n)
    ensures CanBegin(ExactConfig(c), Exact(s), m.k, m.n)
    ensures Apply(Exact(s), m) == Exact(Apply(s, m))
  {
    hide Inv;
    assert ExactJobs(s.jobs)[s.pending[m.k] := StartedJob(ExactJob(s.jobs[s.pending[m.k]]), s.now, m.n)]
           == ExactJobs(s.jobs[s.pending[m.k] := StartedJob(s.jobs[s.pending[m.k]], s.now, m.n)]);
  }

  lemma ExactBlocked(c: Config, s: State)
    requires Inv(c, s)
    ensures HeadBlocked(Exact(s)) == HeadBlocked(s)
    ensures s.pending != [] ==> s.pending[0] < |s.jobs| && RequestAt(Exact(s), 0) == RequestAt(s, 0)
  {
    if s.pending != [] { PendingFacts(c, s, 0); }
    hide Inv, FitsAnywhere;
  }

  lemma ExactEvent(c: Config, s: State)
    requires Inv(c, s) && s.queue != [] && !NextEvent(s).payload.SimEnd?
    ensures NextEvent(Exact(s)) == NextEvent(s)
    ensures BeforeDrain(Exact(s)) == Exact(BeforeDrain(s))
  {
    hide Inv;
    if NextEvent(s).payload.JobFinish? {
      var id := NextEvent(s).payload.job;
      FinishIsExpected(c, s, id, NextEvent(s).payload.node);
      ExactFinish(s.jobs, id, Pop(s).now);
    }
  }

  lemma ExactFinish(jobs: seq<Job>, id: nat, now: nat)
    requires id < |jobs|
    ensures ExactJobs(jobs[id := FinishedJob(jobs[id], now)]) == ExactJobs(jobs)[id := FinishedJob(ExactJobs(jobs)[id], now)]
  {
  }

  // ----- drains -----

  ghost function TrulyNotEarly(h: nat, F: nat): State -> bool
  {
    (s: State) => NotEarly(Exact(s), h, F)
  }

  ghost function TrulyKept(h: nat, F: nat): State -> bool
  {
    (s: State) => Kept(Exact(s), h, F)
  }

  /** No start, under any policy, brings true room forward. */
  lemma MoveTrulyNotEarly(c: Config, s: State, m: Move, h: nat, F: nat)
    requires Inv(c, s) && CanBegin(c, s, m.k, m.n) && NotEarly(Exact(s), h, F)
    ensures NotEarly(Exact(Apply(s, m)), h, F)
  {
    hide Inv, NotEarly, Apply, Exact;
    ExactInv(c, s);
    ExactMove(c, s, m);
    MoveNotEarly(ExactConfig(c), Exact(s), m, h, F);
  }

  /** Under fifo the only start there is is the head's own. */
  lemma FifoMoveTrulyKept(c: Config, s: State, m: Move, h: nat, F: nat)
    requires Inv(c, s) && CanBegin(c, s, m.k, m.n) && c.policy == Fifo && Kept(Exact(s), h, F)
    ensures Kept(Exact(Apply(s, m)), h, F)
  {
    hide Inv, Apply, Exact, FitsIn;
    ExactInv(c, s);
    ExactMove(c, s, m);
    MoveJob(ExactConfig(c), Exact(s), m, h);
    SameQueue(s);
  }

  lemma SameQueue(s: State)
    ensures Exact(s).pending == s.pending && Exact(s).now == s.now && Exact(s).nodes == s.nodes && Exact(s).queue == s.queue
    ensures |Exact(s).jobs| == |s.jobs|
  {
  }

  lemma DrainTruly(c: Config, s: State, h: nat, F: nat)
    requires Inv(c, s) && NoEnd(s.queue)
    ensures NotEarly(Exact(s), h, F) ==> NotEarly(Exact(Drain(c, s)), h, F)
    ensures c.policy == Fifo && Kept(Exact(s), h, F) ==> Kept(Exact(Drain(c, s)), h, F)
  {
    hide Inv, NoEnd, Drain, Kept, NotEarly, Exact, HeadBlocked, AdmissibleAt, HeadShadow, Apply;
    var P, Q := TrulyNotEarly(h, F), TrulyKept(h, F);
    forall t: State, m: Move | Inv(c, t) && NoEnd(t.queue) && Allowed(c, t, m)
      ensures P(t) ==> P(Apply(t, m))
      ensures c.policy == Fifo && Q(t) ==> Q(Apply(t, m))
    {
      if P(t) { MoveTrulyNotEarly(c, t, m, h, F); }
      if c.policy == Fifo && Q(t) { FifoMoveTrulyKept(c, t, m, h, F); }
    }
    forall t: State, cursor: nat
      ensures P(t) ==> P(WithCursor(t, cursor))
      ensures Q(t) ==> Q(WithCursor(t, cursor))
    {
      CursorKeeps(h, F);
      ExactCursor(t, cursor);
    }
    if P(s) { DrainInduction(c, s, P); }
    if c.policy == Fifo && Q(s) { DrainInduction(c, s, Q); }
  }

  lemma ExactCursor(t: State, cursor: nat)
    ensures Exact(WithCursor(t, cursor)) == WithCursor(Exact(t), cursor)
  {
  }

  // ----- steps and runs -----

  lemma ExactIsPerfect(c: Config)
    ensures PerfectEstimates(ExactConfig(c)) && HonestEstimates(ExactConfig(c))
  {
  }

  lemma StepTruly(c: Config, s: State, h: nat, F: nat)
    requires Between(c, s) && s.queue != []
    ensures NotEarly(Exact(s), h, F) ==> NotEarly(Exact(Step(c, s)), h, F)
    ensures c.policy == Fifo && Kept(Exact(s), h, F) ==> Kept(Exact(Step(c, s)), h, F)
  {
    hide Inv, NoEnd, Drain, BeforeDrain, HeadBlocked, Kept, NotEarly, PickFor, Counted, ExactJobs;
    SettledIsBlocked(c, s);
    ExactInv(c, s);
    ExactBlocked(c, s);
    ExactIsPerfect(c);
    if NextEvent(s).payload.SimEnd? {
      StepEnd(c, s);
      SameStateKeeps(Exact(s), Exact(Step(c, s)), h, F);
    } else {
      BeforeDrainInv(c, s);
      ExactEvent(c, s);
      if NotEarly(Exact(s), h, F) { EventNotEarly(ExactConfig(c), Exact(s), h, F); }
      if Kept(Exact(s), h, F) { EventKeeps(ExactConfig(c), Exact(s), h, F); }
      var d := Drain(c, BeforeDrain(s));
      DrainTruly(c, BeforeDrain(s), h, F);
      SameStateKeeps(Exact(d), Exact(Step(c, s)), h, F);
    }
  }

  lemma ExactHead(c: Config, s: State)
    requires Inv(c, s) && s.pending != []
    ensures Waits(s, s.pending[0]) && Waits(Exact(s), s.pending[0])
    ensures RequestAt(Exact(s), 0) == RequestAt(s, 0) == s.jobs[s.pending[0]].request == Exact(s).jobs[s.pending[0]].request
  {
    PendingFacts(c, s, 0);
  }

  /** The true shadow time is at most u exactly when the head truly fits by u. */
  lemma TrueShadowAtMost(c: Config, s: State, u: nat)
    requires Between(c, s) && s.pending != [] && u < NEVER
    ensures s.pending[0] < |s.jobs|
    ensures TrueShadow(s) <= u <==> TrulyFits(s, s.pending[0], u)
  {
    SettledIsBlocked(c, s);
    ExactHead(c, s);
    hide Inv, Settled, Counted, FitsBy, FitsAnywhere, View, Exact;
    assert Exact(s).nodes == s.nodes && Exact(s).now == s.now by { SameQueue(s); }
    ShadowAtMost(RequestAt(s, 0), s.nodes, View(Exact(s)), s.now, u);
  }

  /** What a blocked head's true shadow time says about the state itself. */
  lemma TrueShadowFacts(c: Config, s: State)
    requires Between(c, s) && s.pending != []
    ensures Waits(s, s.pending[0])
    ensures NotEarly(Exact(s), s.pending[0], TrueShadow(s))
    ensures TrueShadow(s) < NEVER ==> Kept(Exact(s), s.pending[0], TrueShadow(s))
  {
    SettledIsBlocked(c, s);
    ExactInv(c, s);
    ExactBlocked(c, s);
    ExactIsPerfect(c);
    ExactHead(c, s);
    hide Inv, Settled, Counted, HeadBlocked, Exact;
    if TrueShadow(s) < NEVER {
      hide FitsIn, View, ShadowTime;
      ShadowIsReservation(ExactConfig(c), Exact(s));
    } else {
      forall u: nat | s.now <= u < TrueShadow(s)
        ensures !TrulyFits(s, s.pending[0], u)
      {
        TrueShadowAtMost(c, s, u);
      }
    }
  }

  /** From wherever h heads the backlog, true room never comes forward, and under fifo it stays. */
  lemma {:induction false} TrueRuns(c: Config, m: nat, n: nat)
    requires WellFormed(c) && m <= n && At(c, m).pending != []
    ensures var h, F := At(c, m).pending[0], TrueShadow(At(c, m));
            && NotEarly(Exact(At(c, n)), h, F)
            && (c.policy == Fifo && F < NEVER ==> Kept(Exact(At(c, n)), h, F))
  {
    hide Step, Between, Kept, NotEarly, TrueShadow, Exact;
    RunInvariant(c, m);
    if m < n {
      TrueRuns(c, m, n - 1);
      RunInvariant(c, n - 1);
      if At(c, n - 1).queue != [] {
        StepTruly(c, At(c, n - 1), At(c, m).pending[0], TrueShadow(At(c, m)));
      }
    } else {
      TrueShadowFacts(c, At(c, m));
    }
  }

  // ----- when the head starts -----

  /** A head with true room by some tick completes. */
  lemma HeadCompletes(c: Config, m: nat, u: nat)
    requires WellFormed(c) && At(c, m).pending != []
    requires At(c, m).pending[0] < |At(c, m).jobs| && TrulyFits(At(c, m), At(c, m).pending[0], u)
    ensures m < 2 * |c.jobs| + 1
    ensures var h := At(c, m).pending[0];
            h < |Final(c).jobs| && Final(c).jobs[h].state == Done
  {
    hide At, Between, TrulyFits, Satisfiable, WellFormed;
    var h := At(c, m).pending[0];
    RunInvariant(c, m);
    RoomMeansSatisfiable(c, At(c, m), h, u);
    SatisfiableHeadIsMidRun(c, m);
    SatisfiableEndsDone(c, h);
    HeadStaysHead(c, m, 2 * |c.jobs| + 1);
    if h in Final(c).pending { FinalQueued(c, h); }
  }

  lemma RoomMeansSatisfiable(c: Config, s: State, h: nat, u: nat)
    requires Between(c, s) && h < |s.jobs| && TrulyFits(s, h, u)
    ensures h < |c.jobs| && Satisfiable(c.jobs[h].request, c.nodes)
  {
    hide Inv, Settled, Counted, FitsBy, View;
    ExactInv(c, s);
    FitsByMeansSatisfiable(ExactConfig(c), Exact(s), h, u);
  }

  /** The last event at which h still waits. */
  lemma {:induction false} LastWaiting(c: Config, h: nat, m: nat, n: nat) returns (k: nat)
    requires WellFormed(c) && m <= n && Waits(At(c, m), h)
    requires h < |At(c, n).jobs| && At(c, n).jobs[h].state != Queued
    ensures m <= k < n && Waits(At(c, k), h)
    ensures h < |At(c, k + 1).jobs| && At(c, k + 1).jobs[h].state != Queued
    ensures At(c, k + 1).jobs[h].startTime == At(c, n).jobs[h].startTime
  {
    hide At;
    HeadStaysHead(c, m, n - 1);
    if At(c, n - 1).jobs[h].state == Queued {
      k := n - 1;
    } else {
      k := LastWaiting(c, h, m, n - 1);
      RunAdvances(c, n - 1, n);
    }
  }

  /** A head starts at the very tick its true shadow time names at the last event before. */
  lemma StartsAtTrueShadow(c: Config, k: nat, h: nat)
    requires WellFormed(c) && Waits(At(c, k), h) && TrueShadow(At(c, k)) < NEVER
    requires h < |At(c, k + 1).jobs| && At(c, k + 1).jobs[h].state != Queued
    ensures At(c, k + 1).jobs[h].startTime == TrueShadow(At(c, k))
  {
    hide At, TrueShadow, Between, Kept, NotEarly, Step, Exact;
    ChangeIsAStep(c, k);
    RunInvariant(c, k);
    TrueRuns(c, k, k + 1);
    var s, F := At(c, k), TrueShadow(At(c, k));
    StepFacts(c, s);
    NextEventByTrueShadow(c, s);
    StartOfExact(At(c, k + 1), h, F);
    NewStartIsNow(s, At(c, k + 1), h);
  }

  lemma ChangeIsAStep(c: Config, k: nat)
    requires At(c, k + 1) != At(c, k)
    ensures At(c, k).queue != [] && At(c, k + 1) == Step(c, At(c, k))
  {
    hide Step;
  }

  lemma StartOfExact(s: State, h: nat, F: nat)
    requires h < |s.jobs| && s.jobs[h].state != Queued
    ensures NotEarly(Exact(s), h, F) ==> F <= s.jobs[h].startTime
    ensures Kept(Exact(s), h, F) ==> s.jobs[h].startTime <= F
  {
  }

  lemma NewStartIsNow(s: State, t: State, h: nat)
    requires JobsAdvance(s.jobs, t.jobs, t.now) && h < |s.jobs| && s.jobs[h].state == Queued && t.jobs[h].state != Queued
    ensures t.jobs[h].startTime == t.now
  {
  }

  lemma NextEventByTrueShadow(c: Config, s: State)
    requires Between(c, s) && s.queue != [] && s.pending != [] && TrueShadow(s) < NEVER
    ensures NextEvent(s).time <= TrueShadow(s)
  {
    TrueShadowFacts(c, s);
    SettledIsBlocked(c, s);
    ExactInv(c, s);
    ExactBlocked(c, s);
    ExactHead(c, s);
    ExactIsPerfect(c);
    hide Inv, Settled, Counted, HeadBlocked, FitsIn, HeadShadow, ExactJobs;
    NextEventWithinReservation(ExactConfig(c), Exact(s), s.pending[0], TrueShadow(s));
  }

  /** Under any policy, and whatever the claims, nobody starts before his true shadow time. */
  lemma {:induction false} NeverBeforeTrueShadow(c: Config, m: nat, n: nat)
    requires WellFormed(c) && m <= n && At(c, m).pending != []
    ensures var h, t := At(c, m).pending[0], At(c, n);
            && h < |t.jobs|
            && (t.jobs[h].state != Queued ==> TrueShadow(At(c, m)) <= t.jobs[h].startTime)
            && (t.jobs[h].state == Queued ==> Waits(t, h) && TrueShadow(At(c, m)) <= TrueShadow(t))
  {
    hide At, TrueShadow, Between, NotEarly, Kept, Exact;
    TrueRuns(c, m, n);
    RunInvariant(c, m);
    RunInvariant(c, n);
    HeadStaysHead(c, m, n);
    TrueShadowBound(c, At(c, m));
    var h, F, t := At(c, m).pending[0], TrueShadow(At(c, m)), At(c, n);
    if t.jobs[h].state == Queued {
      LaterShadow(c, t, F);
    } else {
      StartOfExact(t, h, F);
    }
  }

  lemma TrueShadowBound(c: Config, s: State)
    requires Between(c, s) && s.pending != []
    ensures TrueShadow(s) <= NEVER
  {
    SettledIsBlocked(c, s);
    ExactBlocked(c, s);
    hide Inv, View, FitsAnywhere;
  }

  lemma LaterShadow(c: Config, s: State, F: nat)
    requires Between(c, s) && s.pending != [] && F <= NEVER && NotEarly(Exact(s), s.pending[0], F)
    ensures F <= TrueShadow(s)
  {
    hide Between, FitsIn, TrueShadow;
    TrueShadowFacts(c, s);
    assert Exact(s).now == s.now;
  }

  /** At every event from the m-th on at which h still waits, some node truly has room for it by S. */
  ghost predicate RoomThroughout(c: Config, m: nat, h: nat, S: nat)
  {
    forall n: nat :: m <= n && Waits(At(c, n), h) ==> TrulyFits(At(c, n), h, S)
  }

  /** Once h has started by S, every event before saw true room for it by S. */
  lemma StartedBySawRoom(c: Config, m: nat, n: nat, S: nat)
    requires WellFormed(c) && m <= n && At(c, m).pending != [] && S < NEVER
    requires var h := At(c, m).pending[0];
             && h < |Final(c).jobs| && Final(c).jobs[h].state == Done && Final(c).jobs[h].startTime <= S
             && Waits(At(c, n), h)
    ensures TrulyFits(At(c, n), At(c, m).pending[0], S)
  {
    hide At, TrueShadow, Between, TrulyFits;
    var last := 2 * |c.jobs| + 1;
    RunInvariant(c, n);
    if n <= last {
      NeverBeforeTrueShadow(c, n, last);
      TrueShadowAtMost(c, At(c, n), S);
    } else {
      RunAdvances(c, last, n);
      assert false;
    }
  }

  /**
   * When the head starts, under any policy and whatever the claims: by S exactly when at no event
   * at which it still waits do the jobs truly running past S take what it needs.
   */
  lemma {:induction false} StartsByExactly(c: Config, m: nat, S: nat)
    requires WellFormed(c) && At(c, m).pending != [] && S < NEVER
    ensures var h, f := At(c, m).pending[0], Final(c);
            && h < |f.jobs|
            && (f.jobs[h].state == Done && f.jobs[h].startTime <= S <==> RoomThroughout(c, m, h, S))
  {
    hide At, Between, TrulyFits;
    var h, last := At(c, m).pending[0], 2 * |c.jobs| + 1;
    RunInvariant(c, m);
    assert Waits(At(c, m), h) by { TrueShadowFacts(c, At(c, m)); }
    SameSizeThroughout(c, m);
    if Final(c).jobs[h].state == Done && Final(c).jobs[h].startTime <= S {
      forall n: nat | m <= n && Waits(At(c, n), h)
        ensures TrulyFits(At(c, n), h, S)
      {
        StartedBySawRoom(c, m, n, S);
      }
    }
    if RoomThroughout(c, m, h, S) {
      assert TrulyFits(At(c, m), h, S);
      HeadCompletes(c, m, S);
      var k := LastWaiting(c, h, m, last);
      RunInvariant(c, k);
      TrueShadowAtMost(c, At(c, k), S);
      StartsAtTrueShadow(c, k, h);
    }
  }

  lemma SameSizeThroughout(c: Config, m: nat)
    requires WellFormed(c)
    ensures |At(c, m).jobs| == |Final(c).jobs|
  {
    hide At;
    RunAdvances(c, 0, m);
    RunAdvances(c, 0, 2 * |c.jobs| + 1);
  }

  /** Under fifo the head starts exactly at its true shadow time. */
  lemma {:induction false} FifoStartsAtTrueShadow(c: Config, m: nat)
    requires WellFormed(c) && c.policy == Fifo && At(c, m).pending != [] && TrueShadow(At(c, m)) < NEVER
    ensures var h, f := At(c, m).pending[0], Final(c);
            h < |f.jobs| && f.jobs[h].state == Done && f.jobs[h].startTime == TrueShadow(At(c, m))
  {
    hide At, TrueShadow, Between, Kept, NotEarly, TrulyFits, Exact;
    var h, F := At(c, m).pending[0], TrueShadow(At(c, m));
    RunInvariant(c, m);
    TrueShadowFacts(c, At(c, m));
    TrueShadowAtMost(c, At(c, m), F);
    HeadCompletes(c, m, F);
    TrueRuns(c, m, 2 * |c.jobs| + 1);
    StartOfExact(Final(c), h, F);
  }

  /**
   * Two runs that agree when h becomes the blocked head, one of them fifo: h starts no earlier than
   * under fifo, and at the same tick exactly when whoever was let past it left room for it then.
   */
  lemma {:induction false} DelayedExactly(c: Config, d: Config, m: nat)
    requires WellFormed(c) && WellFormed(d) && d.policy == Fifo && At(c, m) == At(d, m)
    requires At(c, m).pending != [] && TrueShadow(At(c, m)) < NEVER
    ensures var h, F := At(c, m).pending[0], TrueShadow(At(c, m));
            && h < |Final(c).jobs| && h < |Final(d).jobs|
            && Final(c).jobs[h].state == Done && Final(d).jobs[h].state == Done
            && F == Final(d).jobs[h].startTime <= Final(c).jobs[h].startTime
            && (Final(c).jobs[h].startTime == Final(d).jobs[h].startTime <==> RoomThroughout(c, m, h, F))
  {
    hide At, TrueShadow, RoomThroughout, WellFormed;
    FifoStartsAtTrueShadow(d, m);
    CompletesNotBefore(c, m);
    StartsByExactly(c, m, TrueShadow(At(c, m)));
  }

  /** A head with a finite true shadow time completes, not having started before it. */
  lemma CompletesNotBefore(c: Config, m: nat)
    requires WellFormed(c) && At(c, m).pending != [] && TrueShadow(At(c, m)) < NEVER
    ensures var h, f := At(c, m).pending[0], Final(c);
            h < |f.jobs| && f.jobs[h].state == Done && TrueShadow(At(c, m)) <= f.jobs[h].startTime
  {
    hide At, TrueShadow, Between, TrulyFits;
    RunInvariant(c, m);
    TrueShadowAtMost(c, At(c, m), TrueShadow(At(c, m)));
    HeadCompletes(c, m, TrueShadow(At(c, m)));
    NeverBeforeTrueShadow(c, m, 2 * |c.jobs| + 1);
  }

  // ----- the reservation against the truth -----

  /** Nobody still waiting claims less than it needs; the running jobs may have. */
  ghost predicate WaitingHonest(s: State)
  {
    forall j :: 0 <= j < |s.jobs| && s.jobs[j].state == Queued ==> s.jobs[j].duration <= s.jobs[j].estimatedDuration
  }

  /** While h waits it has room by S both as claimed and in truth. */
  ghost predicate RoomBothWays(s: State, h: nat, S: nat)
  {
    && h < |s.jobs| && WaitingHonest(s)
    && (s.jobs[h].state == Queued ==> s.pending != [] && s.pending[0] == h && FitsIn(s, h, S) && TrulyFits(s, h, S))
  }

  /** Whoever is let past h by an honest claim is truly gone by S. */
  lemma MoveKeepsBoth(c: Config, s: State, m: Move, h: nat, S: nat)
    requires Inv(c, s) && Allowed(c, s, m) && RoomBothWays(s, h, S) && S < NEVER
    ensures RoomBothWays(Apply(s, m), h, S)
  {
    PendingFacts(c, s, m.k);
    ExactInv(c, s);
    ExactMove(c, s, m);
    MoveJob(c, s, m, h);
    MoveKeepsHonest(s, m);
    if s.jobs[h].state == Queued && m.k > 0 {
      AdmittedInTime(c, s, m, h, S);
      ExactAdmission(s, m.k);
      hide Inv, FitsIn, Exact, Apply, Allowed, WaitingHonest;
      FitsInAfterMove(c, s, m, h, S);
      FitsInAfterMove(ExactConfig(c), Exact(s), m, h, S);
    }
  }

  /** Whoever is let past h claims to be gone by S. */
  lemma AdmittedInTime(c: Config, s: State, m: Move, h: nat, S: nat)
    requires Inv(c, s) && Allowed(c, s, m) && m.k > 0 && RoomBothWays(s, h, S) && S < NEVER && s.jobs[h].state == Queued
    ensures s.now + s.jobs[s.pending[m.k]].estimatedDuration <= S
    ensures s.jobs[s.pending[m.k]].duration <= s.jobs[s.pending[m.k]].estimatedDuration
  {
    PendingFacts(c, s, m.k);
    hide Inv, View, FitsBy, FitsAnywhere, Exact;
    ShadowAtMost(s.jobs[h].request, s.nodes, View(s), s.now, S);
  }

  lemma ExactAdmission(s: State, k: nat)
    requires k < |s.pending| && s.pending[k] < |s.jobs|
    ensures Exact(s).pending == s.pending && Exact(s).now == s.now && |Exact(s).jobs| == |s.jobs|
    ensures Exact(s).jobs[s.pending[k]] == ExactJob(s.jobs[s.pending[k]])
  {
  }

  lemma MoveKeepsHonest(s: State, m: Move)
    requires WaitingHonest(s) && m.k < |s.pending| && s.pending[m.k] < |s.jobs| && m.n < |s.nodes|
    ensures WaitingHonest(Apply(s, m))
  {
  }

  lemma BothIgnoreCursor(h: nat, S: nat)
    ensures forall t: State, cursor: nat :: RoomBothWays(t, h, S) ==> RoomBothWays(WithCursor(t, cursor), h, S)
  {
    forall t: State, cursor: nat | RoomBothWays(t, h, S)
      ensures RoomBothWays(WithCursor(t, cursor), h, S)
    {
      ExactCursor(t, cursor);
      assert View(WithCursor(t, cursor)) == View(t) && View(WithCursor(Exact(t), cursor)) == View(Exact(t));
      hide FitsBy, View, Exact;
    }
  }

  lemma DrainKeepsBoth(c: Config, s: State, h: nat, S: nat)
    requires Inv(c, s) && NoEnd(s.queue) && RoomBothWays(s, h, S) && S < NEVER
    ensures RoomBothWays(Drain(c, s), h, S)
  {
    hide Inv, NoEnd, Drain, RoomBothWays, HeadBlocked, AdmissibleAt, HeadShadow;
    var P := (t: State) => RoomBothWays(t, h, S);
    forall t: State, m: Move | Inv(c, t) && NoEnd(t.queue) && Allowed(c, t, m) && P(t)
      ensures P(Apply(t, m))
    {
      MoveKeepsBoth(c, t, m, h, S);
    }
    BothIgnoreCursor(h, S);
    DrainInduction(c, s, P);
  }

  lemma EventKeepsBoth(c: Config, s: State, h: nat, S: nat)
    requires Inv(c, s) && s.queue != [] && !NextEvent(s).payload.SimEnd? && RoomBothWays(s, h, S)
    ensures RoomBothWays(BeforeDrain(s), h, S)
  {
    EventKeepsHonest(c, s);
    EventJob(c, s, h);
    if s.jobs[h].state == Queued {
      hide Inv, FitsIn, ExactJobs, WaitingHonest, BeforeDrain;
      EventKeepsRoom(c, s, h, S);
      EventTrulyFits(c, s, h, S);
    }
  }

  lemma EventTrulyFits(c: Config, s: State, h: nat, F: nat)
    requires Inv(c, s) && s.queue != [] && !NextEvent(s).payload.SimEnd? && h < |s.jobs| && TrulyFits(s, h, F)
    ensures h < |BeforeDrain(s).jobs| && TrulyFits(BeforeDrain(s), h, F)
  {
    ExactInv(c, s);
    ExactEvent(c, s);
    hide Inv, FitsIn, Exact, BeforeDrain;
    SameQueue(s);
    SameQueue(BeforeDrain(s));
    EventKeepsRoom(ExactConfig(c), Exact(s), h, F);
  }

  lemma EventKeepsHonest(c: Config, s: State)
    requires Inv(c, s) && s.queue != [] && !NextEvent(s).payload.SimEnd? && WaitingHonest(s)
    ensures WaitingHonest(BeforeDrain(s))
  {
    BeforeDrainJobs(c, s);
    hide Inv, BeforeDrain;
  }

  lemma StepKeepsBoth(c: Config, s: State, h: nat, S: nat)
    requires Between(c, s) && s.queue != [] && S < NEVER && RoomBothWays(s, h, S)
    ensures RoomBothWays(Step(c, s), h, S)
  {
    hide Inv, NoEnd, Drain, BeforeDrain, Settled, Counted, FitsBy;
    if NextEvent(s).payload.SimEnd? {
      StepEnd(c, s);
      assert View(Step(c, s)) == View(s) && View(Exact(Step(c, s))) == View(Exact(s));
    } else {
      BeforeDrainInv(c, s);
      EventKeepsBoth(c, s, h, S);
      DrainKeepsBoth(c, BeforeDrain(s), h, S);
      var d := Drain(c, BeforeDrain(s));
      assert View(Step(c, s)) == View(d) && View(Exact(Step(c, s))) == View(Exact(d));
    }
  }

  lemma {:induction false} BothWaysRuns(c: Config, m: nat, n: nat, S: nat)
    requires WellFormed(c) && m <= n && At(c, m).pending != [] && S < NEVER
    requires RoomBothWays(At(c, m), At(c, m).pending[0], S)
    ensures RoomBothWays(At(c, n), At(c, m).pending[0], S)
  {
    hide Step, Between, RoomBothWays;
    if m < n {
      BothWaysRuns(c, m, n - 1, S);
      RunInvariant(c, n - 1);
      if At(c, n - 1).queue != [] { StepKeepsBoth(c, At(c, n - 1), At(c, m).pending[0], S); }
    }
  }

  /**
   * With every waiting job's claim honest, the head's reservation is honoured exactly when it does
   * not ask for more than the running jobs truly allow.
   */
  lemma {:induction false} HonouredExactly(c: Config, m: nat)
    requires WellFormed(c) && At(c, m).pending != [] && HeadShadow(At(c, m)) < NEVER && WaitingHonest(At(c, m))
    ensures var h, f := At(c, m).pending[0], Final(c);
            && h < |f.jobs|
            && (f.jobs[h].state == Done && f.jobs[h].startTime <= HeadShadow(At(c, m))
                <==> TrueShadow(At(c, m)) <= HeadShadow(At(c, m)))
  {
    hide At, TrueShadow, HeadShadow, Between, TrulyFits, WaitingHonest;
    var h, S := At(c, m).pending[0], HeadShadow(At(c, m));
    RunInvariant(c, m);
    TrueShadowFacts(c, At(c, m));
    TrueShadowAtMost(c, At(c, m), S);
    StartsByExactly(c, m, S);
    if TrueShadow(At(c, m)) <= S {
      HeadFitsByShadow(c, At(c, m));
      forall n: nat | m <= n && Waits(At(c, n), h)
        ensures TrulyFits(At(c, n), h, S)
      {
        BothWaysRuns(c, m, n, S);
      }
    }
  }

  lemma HeadFitsByShadow(c: Config, s: State)
    requires Between(c, s) && s.pending != [] && HeadShadow(s) < NEVER
    ensures s.pending[0] < |s.jobs| && FitsIn(s, s.pending[0], HeadShadow(s))
  {
    SettledIsBlocked(c, s);
    PendingFacts(c, s, 0);
    hide Inv, View, FitsBy, Settled, Counted;
  }

  /** What runs claims exactly what it needs. */
  ghost predicate RunningExact(s: State)
  {
    forall j :: 0 <= j < |s.jobs| && s.jobs[j].state == Running ==> s.jobs[j].duration == s.jobs[j].estimatedDuration
  }

  /** What runs claims at least what it needs. */
  ghost predicate RunningHonest(s: State)
  {
    forall j :: 0 <= j < |s.jobs| && s.jobs[j].state == Running ==> s.jobs[j].duration <= s.jobs[j].estimatedDuration
  }

  /** With honest claims the true shadow time is not after the claimed one; with exact ones it is the same. */
  lemma TrueShadowOrder(c: Config, s: State)
    requires Between(c, s) && s.pending != []
    ensures RunningHonest(s) ==> TrueShadow(s) <= HeadShadow(s)
    ensures RunningExact(s) ==> TrueShadow(s) == HeadShadow(s)
  {
    SettledIsBlocked(c, s);
    ExactHead(c, s);
    SameQueue(s);
    TrueShadowBound(c, s);
    if RunningExact(s) { ExactSameView(c, s); }
    if RunningHonest(s) && HeadShadow(s) < NEVER {
      HeadFitsByShadow(c, s);
      HonestRoom(c, s, s.pending[0], HeadShadow(s));
      TrueShadowAtMost(c, s, HeadShadow(s));
    }
    hide Inv, Settled, Counted, Exact, FitsBy, View, HeadBlocked, FitsIn;
    BlockedShadowBound(s);
  }

  lemma BlockedShadowBound(s: State)
    requires s.pending != [] && HeadBlocked(s)
    ensures HeadShadow(s) <= NEVER
  {
    hide FitsAnywhere, View;
  }

  lemma ExactSameView(c: Config, s: State)
    requires Inv(c, s) && RunningExact(s)
    ensures View(Exact(s)) == View(s)
  {
    forall k | 0 <= k < |s.running|
      ensures View(Exact(s))[k] == View(s)[k]
    {
      ExactView(c, s, k);
      RunningFacts(c, s, k);
    }
  }

  lemma HonestRoom(c: Config, s: State, h: nat, u: nat)
    requires Inv(c, s) && RunningHonest(s) && h < |s.jobs| && FitsIn(s, h, u)
    ensures TrulyFits(s, h, u)
  {
    var i :| 0 <= i < |s.nodes| && NodeFitsBy(s.jobs[h].request, s.nodes[i], View(s), u);
    assert NodeFitsBy(s.jobs[h].request, s.nodes[i], View(Exact(s)), u) by { HonestReturned(c, s, s.nodes[i].id, u); }
    assert Exact(s).jobs[h].request == s.jobs[h].request;
  }

  lemma HonestReturned(c: Config, s: State, i: nat, u: nat)
    requires Inv(c, s) && RunningHonest(s)
    ensures Within(Returned(View(s), i, u), Returned(View(Exact(s)), i, u))
  {
    var view, exact := View(s), View(Exact(s));
    forall k | 0 <= k < |view|
      ensures exact[k].node == view[k].node && exact[k].held == view[k].held
      ensures exact[k].estimatedFinish <= view[k].estimatedFinish
    {
      ExactView(c, s, k);
      RunningFacts(c, s, k);
    }
    hide Inv;
    SumLe(view, exact, CoresDue(i, u), CoresDue(i, u));
    SumLe(view, exact, MemoryDue(i, u), MemoryDue(i, u));
  }

  /**
   * When backfill costs the head nothing: two runs that agree when h becomes the blocked head, one
   * of them fifo. If nobody waiting under-claims and the true shadow time is the claimed one, as it
   * is when the jobs then running claim exactly what they need, h starts at that tick in both.
   */
  lemma {:induction false} NoSlackNoDelay(c: Config, d: Config, m: nat)
    requires WellFormed(c) && WellFormed(d) && d.policy == Fifo && At(c, m) == At(d, m)
    requires At(c, m).pending != [] && HeadShadow(At(c, m)) < NEVER && WaitingHonest(At(c, m))
    requires RunningExact(At(c, m)) || TrueShadow(At(c, m)) == HeadShadow(At(c, m))
    ensures var h := At(c, m).pending[0];
            && h < |Final(c).jobs| && h < |Final(d).jobs|
            && Final(c).jobs[h].state == Done && Final(d).jobs[h].state == Done
            && Final(c).jobs[h].startTime == Final(d).jobs[h].startTime == HeadShadow(At(c, m))
  {
    hide At, TrueShadow, HeadShadow, Between, RunningExact, WaitingHonest, RoomThroughout;
    RunInvariant(c, m);
    TrueShadowOrder(c, At(c, m));
    HonouredExactly(c, m);
    DelayedExactly(c, d, m);
  }

  /** With all claims honest a head is delayed by backfill by at most the slack in the claims. */
  lemma {:induction false} DelayWithinSlack(c: Config, d: Config, m: nat)
    requires WellFormed(c) && WellFormed(d) && d.policy == Fifo && At(c, m) == At(d, m) && HonestEstimates(c)
    requires At(c, m).pending != [] && HeadShadow(At(c, m)) < NEVER
    ensures var h, F, S := At(c, m).pending[0], TrueShadow(At(c, m)), HeadShadow(At(c, m));
            && h < |Final(c).jobs| && h < |Final(d).jobs|
            && F == Final(d).jobs[h].startTime <= Final(c).jobs[h].startTime <= S
  {
    hide At, TrueShadow, HeadShadow, Between, WaitingHonest, RunningHonest, RoomThroughout;
    RunInvariant(c, m);
    HonestInState(c, At(c, m));
    TrueShadowOrder(c, At(c, m));
    HonouredExactly(c, m);
    DelayedExactly(c, d, m);
  }

  lemma HonestInState(c: Config, s: State)
    requires Between(c, s) && HonestEstimates(c)
    ensures WaitingHonest(s) && RunningHonest(s)
  {
    forall j | 0 <= j < |s.jobs|
      ensures s.jobs[j].duration <= s.jobs[j].estimatedDuration
    {
      JobFacts(c, s, j);
    }
  }
}
