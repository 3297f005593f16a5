/** Popping an event and running its handler up to the drain keeps the invariant. */
module Events {
  import opened Seqs
  import opened Model
  import opened Shadow
  import opened Machine
  import opened Invariant

  // ----- popping -----

  /** Distinct sequence numbers make the popped event strictly earliest. */
  lemma PoppedIsStrictlyEarliest(s: State)
    requires s.queue != [] && Stamped(s.queue, s.nextSeq, s.now)
    ensures forall k :: 0 <= k < |s.queue| && k != Earliest(s.queue) ==> Earlier(NextEvent(s), s.queue[k])
    ensures s.now <= NextEvent(s).time
  {
  }

  lemma StampedAfterPop(s: State)
    requires s.queue != [] && Stamped(s.queue, s.nextSeq, s.now)
    ensures Stamped(Pop(s).queue, s.nextSeq, Pop(s).now)
  {
    PoppedIsStrictlyEarliest(s);
    RemoveAtFacts(s.queue, Earliest(s.queue));
  }

  lemma PacedAfterPop(c: Config, s: State)
    requires s.queue != [] && Paced(c, s.jobs, s.queue, s.now)
    ensures Paced(c, s.jobs, Pop(s).queue, Pop(s).now)
  {
  }

  /** No finish is skipped: a running job's finish is queued, so the clock cannot pass it. */
  lemma {:induction false} PhasesAfterPop(s: State)
    requires s.queue != [] && Stamped(s.queue, s.nextSeq, s.now)
    requires Scheduled(s.jobs, s.pending, s.queue, s.now) && Phases(s.jobs, |s.nodes|, s.now)
    ensures Phases(s.jobs, |s.nodes|, Pop(s).now)
  {
    PoppedIsStrictlyEarliest(s);
    forall id | 0 <= id < |s.jobs|
      ensures PhaseOk(s.jobs[id], |s.nodes|, Pop(s).now)
    {
      assert PhaseOk(s.jobs[id], |s.nodes|, s.now);
      if s.jobs[id].state == Running {
        var k :| 0 <= k < |s.queue| && IsFinishOf(s.queue[k], id);
        assert EventOk(s.jobs, s.pending, s.queue[k]);
        assert !Earlier(s.queue[k], NextEvent(s));
      }
    }
  }

  lemma RanAdvances(j: Job, now: nat, t: nat, weight: nat)
    requires now <= t && (j.state == Running ==> j.startTime <= now)
    ensures Ran(j, t) * weight == Ran(j, now) * weight + (t - now) * (if j.state == Running then weight else 0)
  {
  }

  lemma {:induction false} WorkAdvances(jobs: seq<Job>, now: nat, t: nat)
    requires now <= t
    requires forall i :: 0 <= i < |jobs| && jobs[i].state == Running ==> jobs[i].startTime <= now
    ensures Sum(jobs, CoreWork(t)) == Sum(jobs, CoreWork(now)) + (t - now) * InUse(jobs).cores
    ensures Sum(jobs, MemoryWork(t)) == Sum(jobs, MemoryWork(now)) + (t - now) * InUse(jobs).memory
  {
    if jobs != [] {
      var front, j := jobs[..|jobs| - 1], jobs[|jobs| - 1];
      WorkAdvances(front, now, t);
      RanAdvances(j, now, t, j.request.cores);
      RanAdvances(j, now, t, j.request.memory);
      Distribute(t - now, InUse(front).cores, UseCores(j));
      Distribute(t - now, InUse(front).memory, UseMemory(j));
    }
  }

  lemma Distribute(a: nat, x: nat, y: nat)
    ensures a * (x + y) == a * x + a * y
  {
  }

  lemma MeteredAfterPop(s: State)
    requires s.queue != [] && Stamped(s.queue, s.nextSeq, s.now)
    requires Phases(s.jobs, |s.nodes|, s.now)
    requires Metered(s.util, s.jobs, s.now) && Totals(s.nodes, s.jobs, s.running)
    ensures Metered(Pop(s).util, s.jobs, Pop(s).now)
  {
    forall i | 0 <= i < |s.jobs| && s.jobs[i].state == Running
      ensures s.jobs[i].startTime <= s.now
    {
      assert PhaseOk(s.jobs[i], |s.nodes|, s.now);
    }
    assert TotalUtilized(s.nodes) == InUse(s.jobs);
    WorkAdvances(s.jobs, s.now, Pop(s).now);
  }

  /** Everything but the schedule survives a pop. */
  lemma PopKeeps(c: Config, s: State)
    requires Inv(c, s) && s.queue != []
    ensures var t := Pop(s);
            && Stamped(t.queue, t.nextSeq, t.now)
            && Phases(t.jobs, |t.nodes|, t.now)
            && Metered(t.util, t.jobs, t.now)
            && Paced(c, t.jobs, t.queue, t.now)
            && s.now <= t.now
  {
    hide Inputs, Lists, Ordered, Books, InFifoOrder, Phases, Metered, Totals, Scheduled, Paced;
    PoppedIsStrictlyEarliest(s);
    StampedAfterPop(s);
    PhasesAfterPop(s);
    MeteredAfterPop(s);
    PacedAfterPop(c, s);
  }

  // ----- arrivals -----

  lemma {:induction false} OrderedAfterArrival(s: State, id: nat)
    requires s.queue != [] && NextEvent(s).payload == JobArrival(id)
    requires Ordered(s.jobs, s.pending, s.now) && Stamped(s.queue, s.nextSeq, s.now)
    requires Scheduled(s.jobs, s.pending, s.queue, s.now)
    ensures id < |s.jobs| && Ordered(s.jobs, s.pending + [id], NextEvent(s).time)
  {
    var e := NextEvent(s);
    var after := s.pending + [id];
    PoppedIsStrictlyEarliest(s);
    assert EventOk(s.jobs, s.pending, e);
    forall i, k | 0 <= i < k < |after|
      ensures after[i] < |s.jobs| && after[k] < |s.jobs| && ArrivesBefore(s.jobs, after[i], after[k])
    {
      if k == |s.pending| {
        assert s.pending[i] in s.pending;
        assert Arrived(s.jobs, s.pending, s.pending[i]) && !Arrived(s.jobs, s.pending, id);
      }
    }
    forall a: nat, b: nat | a < |s.jobs| && b < |s.jobs| && Arrived(s.jobs, after, a) && !Arrived(s.jobs, after, b)
      ensures ArrivesBefore(s.jobs, a, b)
    {
      assert !Arrived(s.jobs, s.pending, b);
      if a == id {
        var k :| 0 <= k < |s.queue| && IsArrivalOf(s.queue[k], b);
        assert EventOk(s.jobs, s.pending, s.queue[k]);
        assert b != id by { assert id in after; }
        assert Earlier(e, s.queue[k]);
      } else {
        assert Arrived(s.jobs, s.pending, a);
      }
    }
  }

  lemma OthersStayQueued(queue: seq<Event>, i: nat, id: nat)
    requires i < |queue|
    ensures HasFinish(queue, id) && !IsFinishOf(queue[i], id) ==> HasFinish(RemoveAt(queue, i), id)
    ensures HasArrival(queue, id) && !IsArrivalOf(queue[i], id) ==> HasArrival(RemoveAt(queue, i), id)
  {
    var q := RemoveAt(queue, i);
    if HasFinish(queue, id) && !IsFinishOf(queue[i], id) {
      var k :| 0 <= k < |queue| && IsFinishOf(queue[k], id);
      assert IsFinishOf(q[if k < i then k else k - 1], id);
    }
    if HasArrival(queue, id) && !IsArrivalOf(queue[i], id) {
      var k :| 0 <= k < |queue| && IsArrivalOf(queue[k], id);
      assert IsArrivalOf(q[if k < i then k else k - 1], id);
    }
  }

  /** Removing an event that is no SimEnd leaves no SimEnd, the other events, and distinct finishes. */
  lemma RemainingEvents(jobs: seq<Job>, pending: seq<nat>, queue: seq<Event>, nextSeq: nat, now: nat, i: nat)
    requires Scheduled(jobs, pending, queue, now) && Stamped(queue, nextSeq, now)
    requires i < |queue| && !queue[i].payload.SimEnd?
    ensures var q := RemoveAt(queue, i);
            && NoEnd(q)
            && (forall k :: 0 <= k < |q| ==> EventOk(jobs, pending, q[k]) && q[k].seqNo != queue[i].seqNo)
            && (forall k :: 0 <= k < |q| && q[k].payload.JobFinish? && queue[i].payload.JobFinish?
                  ==> q[k].payload.job != queue[i].payload.job)
            && (forall k, l :: 0 <= k < l < |q| && q[k].payload.JobFinish? && q[l].payload.JobFinish?
                  ==> q[k].payload.job != q[l].payload.job)
  {
    RemoveAtFacts(queue, i);
    var q := RemoveAt(queue, i);
    forall k | 0 <= k < |q|
      ensures EventOk(jobs, pending, q[k]) && q[k].seqNo != queue[i].seqNo
    {
      assert q[k] == queue[if k < i then k else k + 1];
    }
  }

  lemma ScheduledAfterArrival(s: State, id: nat)
    requires s.queue != [] && NextEvent(s).payload == JobArrival(id)
    requires Stamped(s.queue, s.nextSeq, s.now)
    requires Scheduled(s.jobs, s.pending, s.queue, s.now)
    ensures Scheduled(s.jobs, s.pending + [id], Pop(s).queue, NextEvent(s).time)
    ensures NoEnd(Pop(s).queue)
  {
    var i, after, q := Earliest(s.queue), s.pending + [id], Pop(s).queue;
    RemainingEvents(s.jobs, s.pending, s.queue, s.nextSeq, s.now, i);
    assert EventOk(s.jobs, s.pending, s.queue[i]);
    hide Scheduled, Stamped;
    forall a: nat | a < |s.jobs|
      ensures Arrived(s.jobs, after, a) == (Arrived(s.jobs, s.pending, a) || a == id)
    {
    }
    forall x: nat | x < |s.jobs|
      ensures s.jobs[x].state == Running ==> HasFinish(q, x)
      ensures !Arrived(s.jobs, after, x) ==> HasArrival(q, x)
    {
      Covered(s.jobs, s.pending, s.queue, s.now, x);
      OthersStayQueued(s.queue, i, x);
    }
    ScheduledIntro(s.jobs, after, q, NextEvent(s).time);
  }

  lemma Covered(jobs: seq<Job>, pending: seq<nat>, queue: seq<Event>, now: nat, x: nat)
    requires Scheduled(jobs, pending, queue, now) && x < |jobs|
    ensures jobs[x].state == Running ==> HasFinish(queue, x)
    ensures !Arrived(jobs, pending, x) ==> HasArrival(queue, x)
  {
  }

  lemma ScheduledIntro(jobs: seq<Job>, pending: seq<nat>, queue: seq<Event>, now: nat)
    requires NoEnd(queue)
    requires forall k :: 0 <= k < |queue| ==> EventOk(jobs, pending, queue[k])
    requires forall k, l :: 0 <= k < l < |queue| && queue[k].payload.JobFinish? && queue[l].payload.JobFinish?
               ==> queue[k].payload.job != queue[l].payload.job
    requires forall x: nat :: x < |jobs| ==> jobs[x].state == Running ==> HasFinish(queue, x)
    requires forall x: nat :: x < |jobs| ==> !Arrived(jobs, pending, x) ==> HasArrival(queue, x)
    ensures Scheduled(jobs, pending, queue, now)
  {
  }

  lemma ListsAfterArrival(jobs: seq<Job>, pending: seq<nat>, running: seq<nat>, id: nat)
    requires Lists(jobs, pending, running) && id < |jobs| && !Arrived(jobs, pending, id)
    ensures Lists(jobs, pending + [id], running)
  {
  }

  lemma {:induction false} ArrivalInv(c: Config, s: State, id: nat)
    requires Inv(c, s) && s.queue != [] && NextEvent(s).payload == JobArrival(id)
    ensures Inv(c, Enqueue(Pop(s), id)) && NoEnd(Pop(s).queue)
    ensures id < |s.jobs| && s.jobs[id].submitTime == Pop(s).now && !Arrived(s.jobs, s.pending, id)
  {
    assert EventOk(s.jobs, s.pending, NextEvent(s));
    hide Inputs, Lists, Phases, Ordered, Stamped, Scheduled, Books, Totals, Metered, Paced, InFifoOrder, NoEnd;
    PopKeeps(c, s);
    OrderedAfterArrival(s, id);
    ScheduledAfterArrival(s, id);
    ListsAfterArrival(s.jobs, s.pending, s.running, id);
  }

  // ----- finishes -----

  lemma ViewAfterFinish(jobs: seq<Job>, running: seq<nat>, k: nat, j: Job)
    requires NoDup(running) && k < |running| && running[k] < |jobs|
    ensures InFlightView(jobs[running[k] := j], RemoveAt(running, k)) == RemoveAt(InFlightView(jobs, running), k)
  {
  }

  lemma HeldAfterFinish(view: seq<RunningJob>, k: nat, i: nat)
    requires k < |view|
    ensures Held(view, i) == if view[k].node == i then Plus(Held(RemoveAt(view, k), i), view[k].held) else Held(RemoveAt(view, k), i)
    ensures Sum(view, CountOn(i)) == Sum(RemoveAt(view, k), CountOn(i)) + if view[k].node == i then 1 else 0
  {
    SumRemoveAt(view, k, CoresOn(i));
    SumRemoveAt(view, k, MemoryOn(i));
    SumRemoveAt(view, k, CountOn(i));
  }

  lemma BooksAfterFinish(nodes: seq<Node>, view: seq<RunningJob>, k: nat)
    requires Books(nodes, view) && k < |view| && view[k].node < |nodes|
    ensures nodes[view[k].node].runningJobs > 0
    ensures Within(view[k].held, Minus(nodes[view[k].node].capacity, nodes[view[k].node].free))
    ensures Books(nodes[view[k].node := Vacate(nodes[view[k].node], view[k].held)], RemoveAt(view, k))
  {
    var n := view[k].node;
    var after := nodes[n := Vacate(nodes[n], view[k].held)];
    HeldAfterFinish(view, k, n);
    assert Booked(nodes[n], view, n);
    forall i | 0 <= i < |after|
      ensures Booked(after[i], RemoveAt(view, k), i)
    {
      HeldAfterFinish(view, k, i);
      assert Booked(nodes[i], view, i);
    }
  }

  lemma TotalsAfterFinish(nodes: seq<Node>, jobs: seq<Job>, running: seq<nat>, k: nat, now: nat)
    requires Totals(nodes, jobs, running) && k < |running| && running[k] < |jobs|
    requires jobs[running[k]].state == Running && jobs[running[k]].node < |nodes|
    requires nodes[jobs[running[k]].node].runningJobs > 0
    ensures var j := jobs[running[k]];
            Totals(nodes[j.node := Vacate(nodes[j.node], j.request)], jobs[running[k] := FinishedJob(j, now)], RemoveAt(running, k))
  {
    var id := running[k];
    var j := jobs[id];
    var node := Vacate(nodes[j.node], j.request);
    SumUpdate(nodes, j.node, node, RunningJobs);
    SumUpdate(nodes, j.node, node, FreeCores);
    SumUpdate(nodes, j.node, node, FreeMemory);
    SumUpdate(nodes, j.node, node, CapacityCores);
    SumUpdate(nodes, j.node, node, CapacityMemory);
    SumUpdate(jobs, id, FinishedJob(j, now), UseCores);
    SumUpdate(jobs, id, FinishedJob(j, now), UseMemory);
  }

  lemma MeteredAfterFinish(util: Meter, jobs: seq<Job>, id: nat, now: nat)
    requires Metered(util, jobs, now) && id < |jobs|
    requires jobs[id].state == Running && now == jobs[id].startTime + jobs[id].duration
    ensures Metered(util, jobs[id := FinishedJob(jobs[id], now)], now)
  {
    SumUpdate(jobs, id, FinishedJob(jobs[id], now), CoreWork(now));
    SumUpdate(jobs, id, FinishedJob(jobs[id], now), MemoryWork(now));
  }

  lemma PacedAfterFinish(c: Config, jobs: seq<Job>, queue: seq<Event>, id: nat, now: nat)
    requires Paced(c, jobs, queue, now) && id < |jobs| && jobs[id].state == Running
    ensures Paced(c, jobs[id := FinishedJob(jobs[id], now)], queue, now)
  {
    SumUpdate(jobs, id, FinishedJob(jobs[id], now), StartedDuration);
  }

  lemma OrderedAfterFinish(jobs: seq<Job>, pending: seq<nat>, id: nat, now: nat, later: nat)
    requires Ordered(jobs, pending, now) && id < |jobs| && jobs[id].state == Running && now <= later
    ensures Ordered(jobs[id := FinishedJob(jobs[id], later)], pending, later)
  {
    var after := jobs[id := FinishedJob(jobs[id], later)];
    forall a: nat | a < |jobs|
      ensures Arrived(after, pending, a) == Arrived(jobs, pending, a)
    {
    }
    forall a: nat, b: nat | a < |jobs| && b < |jobs|
      ensures ArrivesBefore(after, a, b) == ArrivesBefore(jobs, a, b)
    {
    }
  }

  lemma FifoAfterFinish(c: Config, jobs: seq<Job>, backfilled: nat, id: nat, now: nat)
    requires InFifoOrder(c, jobs, backfilled) && id < |jobs| && jobs[id].state == Running
    ensures InFifoOrder(c, jobs[id := FinishedJob(jobs[id], now)], backfilled)
  {
  }

  lemma ScheduledAfterFinish(s: State, id: nat, n: nat)
    requires s.queue != [] && NextEvent(s).payload == JobFinish(id, n)
    requires Stamped(s.queue, s.nextSeq, s.now)
    requires Scheduled(s.jobs, s.pending, s.queue, s.now)
    ensures id < |s.jobs|
    ensures Scheduled(s.jobs[id := FinishedJob(s.jobs[id], NextEvent(s).time)], s.pending, Pop(s).queue, NextEvent(s).time)
    ensures NoEnd(Pop(s).queue)
  {
    var i, q := Earliest(s.queue), Pop(s).queue;
    RemainingEvents(s.jobs, s.pending, s.queue, s.nextSeq, s.now, i);
    assert EventOk(s.jobs, s.pending, s.queue[i]);
    hide Scheduled, Stamped;
    var after := s.jobs[id := FinishedJob(s.jobs[id], NextEvent(s).time)];
    forall a: nat | a < |s.jobs|
      ensures Arrived(after, s.pending, a) == Arrived(s.jobs, s.pending, a)
    {
    }
    forall x: nat | x < |after|
      ensures after[x].state == Running ==> HasFinish(q, x)
      ensures !Arrived(after, s.pending, x) ==> HasArrival(q, x)
    {
      Covered(s.jobs, s.pending, s.queue, s.now, x);
      OthersStayQueued(s.queue, i, x);
    }
    forall k | 0 <= k < |q|
      ensures EventOk(after, s.pending, q[k])
    {
      assert EventOk(s.jobs, s.pending, q[k]);
    }
    ScheduledIntro(after, s.pending, q, NextEvent(s).time);
  }

  lemma ListsAfterFinish(jobs: seq<Job>, pending: seq<nat>, running: seq<nat>, k: nat, now: nat)
    requires Lists(jobs, pending, running) && k < |running| && running[k] < |jobs|
    ensures Lists(jobs[running[k] := FinishedJob(jobs[running[k]], now)], pending, RemoveAt(running, k))
  {
  }

  /** What the JobFinish handler may rely on: the asserts of on_finish and Cluster::release. */
  lemma {:induction false} FinishIsExpected(c: Config, s: State, id: nat, n: nat)
    requires Inv(c, s) && s.queue != [] && NextEvent(s).payload == JobFinish(id, n)
    ensures id < |s.jobs| && n < |s.nodes|
    ensures s.jobs[id].state == Running && s.jobs[id].node == n
    ensures Pop(s).now == s.jobs[id].startTime + s.jobs[id].duration
    ensures IndexOf(s.running, id) < |s.running|
    ensures s.nodes[n].runningJobs > 0
    ensures Within(s.jobs[id].request, Minus(s.nodes[n].capacity, s.nodes[n].free))
  {
    assert EventOk(s.jobs, s.pending, NextEvent(s));
    assert PhaseOk(s.jobs[id], |s.nodes|, s.now);
    assert s.jobs[id].id == id;
    var k := IndexOf(s.running, id);
    hide Inputs, Phases, Ordered, Scheduled, Totals, Metered, Paced, InFifoOrder;
    assert View(s)[k] == RunningView(s.jobs[id]);
    BooksAfterFinish(s.nodes, View(s), k);
  }

  lemma InputsAfterFinish(c: Config, jobs: seq<Job>, nodes: seq<Node>, id: nat, now: nat)
    requires Inputs(c, jobs, nodes) && id < |jobs| && jobs[id].node < |nodes|
    ensures Inputs(c, jobs[id := FinishedJob(jobs[id], now)],
                   nodes[jobs[id].node := Vacate(nodes[jobs[id].node], jobs[id].request)])
  {
  }

  lemma PhasesAfterFinish(jobs: seq<Job>, nodeCount: nat, id: nat, now: nat)
    requires Phases(jobs, nodeCount, now) && id < |jobs| && jobs[id].state == Running
    requires now == jobs[id].startTime + jobs[id].duration
    ensures Phases(jobs[id := FinishedJob(jobs[id], now)], nodeCount, now)
  {
  }

  lemma {:induction false} FinishInv(c: Config, s: State, id: nat, n: nat)
    requires Inv(c, s) && s.queue != [] && NextEvent(s).payload == JobFinish(id, n)
    ensures Inv(c, Release(Pop(s), id)) && NoEnd(Pop(s).queue)
  {
    FinishIsExpected(c, s, id, n);
    var t := Pop(s);
    var k := IndexOf(s.running, id);
    var j := FinishedJob(s.jobs[id], t.now);
    assert NoDup(s.running);
    hide Inputs, Lists, Phases, Ordered, Stamped, Scheduled, Books, Totals, Metered, Paced, InFifoOrder, NoEnd;
    PopKeeps(c, s);
    ScheduledAfterFinish(s, id, n);
    InputsAfterFinish(c, s.jobs, s.nodes, id, t.now);
    PhasesAfterFinish(s.jobs, |s.nodes|, id, t.now);
    ListsAfterFinish(s.jobs, s.pending, s.running, k, t.now);
    ViewAfterFinish(s.jobs, s.running, k, j);
    BooksAfterFinish(s.nodes, View(s), k);
    TotalsAfterFinish(s.nodes, s.jobs, s.running, k, t.now);
    MeteredAfterFinish(t.util, s.jobs, id, t.now);
    PacedAfterFinish(c, s.jobs, t.queue, id, t.now);
    OrderedAfterFinish(s.jobs, s.pending, id, s.now, t.now);
    FifoAfterFinish(c, s.jobs, s.backfilled, id, t.now);
  }

  // ----- the end of the run -----

  /** With nothing but a SimEnd queued, nothing runs and nobody is still to arrive. */
  lemma NothingLeft(jobs: seq<Job>, pending: seq<nat>, queue: seq<Event>, now: nat)
    requires Scheduled(jobs, pending, queue, now)
    requires forall i :: 0 <= i < |queue| ==> queue[i].payload.SimEnd?
    ensures forall id :: 0 <= id < |jobs| ==> jobs[id].state != Running
    ensures forall id: nat :: id < |jobs| ==> Arrived(jobs, pending, id)
  {
  }

  /** SimEnd is alone in the queue and at the current time; handling it changes only the queue and simEnd. */
  lemma {:induction false} EndInv(c: Config, s: State)
    requires Inv(c, s) && s.queue != [] && NextEvent(s).payload == SimEnd
    ensures Inv(c, Handle(c, Pop(s), SimEnd))
    ensures Handle(c, Pop(s), SimEnd) == s.(queue := [], simEnd := s.now)
  {
    NothingLeft(s.jobs, s.pending, s.queue, s.now);
    assert RemoveAt(s.queue, 0) == [];
  }

  /** Scheduling SimEnd on an empty queue keeps the invariant. */
  lemma ScheduleEndInv(c: Config, s: State)
    requires Inv(c, s) && s.queue == []
    ensures Inv(c, s.(queue := [Event(s.now, s.nextSeq, SimEnd)], nextSeq := s.nextSeq + 1))
  {
    NothingLeft(s.jobs, s.pending, s.queue, s.now);
  }
}
