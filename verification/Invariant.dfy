/** What every state of a run satisfies, and that each primitive transition keeps it. */
module Invariant {
  import opened Seqs
  import opened Model
  import opened Shadow
  import opened Machine

  // ----- what a caller hands in -----

  /** Dense fresh jobs and dense idle nodes. */
  ghost predicate WellFormed(c: Config)
  {
    && (forall i :: 0 <= i < |c.jobs| ==>
          && c.jobs[i].id == i && c.jobs[i].state == Queued
          && c.jobs[i].startTime == NEVER && c.jobs[i].finishTime == NEVER)
    && (forall i :: 0 <= i < |c.nodes| ==>
          && c.nodes[i].id == i && c.nodes[i].free == c.nodes[i].capacity && c.nodes[i].runningJobs == 0)
  }

  // ----- the pieces -----

  predicate SameInputs(a: Job, b: Job)
  {
    && a.id == b.id && a.request == b.request && a.duration == b.duration
    && a.estimatedDuration == b.estimatedDuration && a.submitTime == b.submitTime
  }

  /** The workload and the capacities are never rewritten. */
  ghost predicate Inputs(c: Config, jobs: seq<Job>, nodes: seq<Node>)
  {
    && |jobs| == |c.jobs| && |nodes| == |c.nodes|
    && (forall i :: 0 <= i < |jobs| ==> jobs[i].id == i && SameInputs(jobs[i], c.jobs[i]))
    && (forall i :: 0 <= i < |nodes| ==> nodes[i].id == i && nodes[i].capacity == c.nodes[i].capacity)
  }

  /** Backlog and running list hold exactly the right ids, each once. */
  ghost predicate Lists(jobs: seq<Job>, pending: seq<nat>, running: seq<nat>)
  {
    && NoDup(pending) && NoDup(running)
    && (forall id :: id in pending ==> id < |jobs| && jobs[id].state == Queued)
    && (forall id :: id in running ==> id < |jobs| && jobs[id].state == Running)
    && (forall id :: 0 <= id < |jobs| && jobs[id].state == Running ==> id in running)
  }

  predicate PhaseOk(j: Job, nodeCount: nat, now: nat)
  {
    match j.state
    case Queued => j.startTime == NEVER && j.finishTime == NEVER
    case Running => j.submitTime <= j.startTime <= now <= j.startTime + j.duration
                    && j.finishTime == NEVER && j.node < nodeCount
    case Done => j.submitTime <= j.startTime && j.finishTime == j.startTime + j.duration <= now
                 && j.node < nodeCount
  }

  ghost predicate Phases(jobs: seq<Job>, nodeCount: nat, now: nat)
  {
    forall i :: 0 <= i < |jobs| ==> PhaseOk(jobs[i], nodeCount, now)
  }

  /** Arrival order: by submit time, then by id. */
  predicate ArrivesBefore(jobs: seq<Job>, a: nat, b: nat)
    requires a < |jobs| && b < |jobs|
  {
    jobs[a].submitTime < jobs[b].submitTime || (jobs[a].submitTime == jobs[b].submitTime && a < b)
  }

  predicate Arrived(jobs: seq<Job>, pending: seq<nat>, a: nat)
    requires a < |jobs|
  {
    jobs[a].state != Queued || a in pending
  }

  /** The backlog is in arrival order, and whoever has not arrived comes after whoever has. */
  ghost predicate Ordered(jobs: seq<Job>, pending: seq<nat>, now: nat)
  {
    && (forall i :: 0 <= i < |pending| ==> pending[i] < |jobs|)
    && (forall i, k :: 0 <= i < k < |pending| ==> ArrivesBefore(jobs, pending[i], pending[k]))
    && (forall a: nat, b: nat :: a < |jobs| && b < |jobs| && Arrived(jobs, pending, a) && !Arrived(jobs, pending, b)
          ==> ArrivesBefore(jobs, a, b))
    && (forall a: nat :: a < |jobs| && Arrived(jobs, pending, a) ==> jobs[a].submitTime <= now)
  }

  /** A queued event speaks of a job in the matching phase, at the matching time. */
  predicate EventOk(jobs: seq<Job>, pending: seq<nat>, e: Event)
  {
    match e.payload
    case JobArrival(id) => id < |jobs| && !Arrived(jobs, pending, id) && e.time == jobs[id].submitTime && e.seqNo == id
    case JobFinish(id, n) => id < |jobs| && jobs[id].state == Running && jobs[id].node == n
                             && e.time == jobs[id].startTime + jobs[id].duration && e.seqNo >= |jobs|
    case SimEnd => true
  }

  predicate IsFinishOf(e: Event, id: nat)
  {
    e.payload.JobFinish? && e.payload.job == id
  }

  predicate IsArrivalOf(e: Event, id: nat)
  {
    e.payload == JobArrival(id)
  }

  ghost predicate HasFinish(queue: seq<Event>, id: nat)
  {
    exists i :: 0 <= i < |queue| && IsFinishOf(queue[i], id)
  }

  ghost predicate HasArrival(queue: seq<Event>, id: nat)
  {
    exists i :: 0 <= i < |queue| && IsArrivalOf(queue[i], id)
  }

  /** Sequence numbers grow, and nothing lies in the past. */
  ghost predicate Stamped(queue: seq<Event>, nextSeq: nat, now: nat)
  {
    && (forall i, k :: 0 <= i < k < |queue| ==> queue[i].seqNo < queue[k].seqNo)
    && (forall i :: 0 <= i < |queue| ==> queue[i].seqNo < nextSeq && now <= queue[i].time)
  }

  /** Every running job has exactly one finish queued, every job still to arrive exactly one arrival. */
  ghost predicate Scheduled(jobs: seq<Job>, pending: seq<nat>, queue: seq<Event>, now: nat)
  {
    && (forall i :: 0 <= i < |queue| ==> EventOk(jobs, pending, queue[i]))
    && (forall i :: 0 <= i < |queue| && queue[i].payload.SimEnd? ==> |queue| == 1 && queue[i].time == now)
    && (forall i, k :: 0 <= i < k < |queue| && queue[i].payload.JobFinish? && queue[k].payload.JobFinish?
          ==> queue[i].payload.job != queue[k].payload.job)
    && (forall id :: 0 <= id < |jobs| && jobs[id].state == Running ==> HasFinish(queue, id))
    && (forall id: nat :: id < |jobs| && !Arrived(jobs, pending, id) ==> HasArrival(queue, id))
  }

  ghost predicate NoEnd(queue: seq<Event>)
  {
    forall i :: 0 <= i < |queue| ==> !queue[i].payload.SimEnd?
  }

  ghost predicate Booked(node: Node, view: seq<RunningJob>, i: nat)
  {
    Plus(node.free, Held(view, i)) == node.capacity && node.runningJobs == Sum(view, CountOn(i))
  }

  /** free + what runs there == capacity, and running_jobs counts what runs there, node by node. */
  ghost predicate Books(nodes: seq<Node>, view: seq<RunningJob>)
  {
    forall i :: 0 <= i < |nodes| ==> Booked(nodes[i], view, i)
  }

  function RunningJobs(n: Node): nat { n.runningJobs }
  function UseCores(j: Job): nat { if j.state == Running then j.request.cores else 0 }
  function UseMemory(j: Job): nat { if j.state == Running then j.request.memory else 0 }

  /** What the running jobs hold together. */
  function InUse(jobs: seq<Job>): Resources
  {
    Resources(Sum(jobs, UseCores), Sum(jobs, UseMemory))
  }

  ghost predicate Totals(nodes: seq<Node>, jobs: seq<Job>, running: seq<nat>)
  {
    && Sum(nodes, RunningJobs) == |running|
    && Plus(TotalFree(nodes), InUse(jobs)) == TotalCapacity(nodes)
  }

  /** Ticks a job has run by time t. */
  function Ran(j: Job, t: nat): nat
  {
    match j.state
    case Queued => 0
    case Running => if t >= j.startTime then t - j.startTime else 0
    case Done => j.duration
  }

  function CoreWork(t: nat): Job -> nat { (j: Job) => Ran(j, t) * j.request.cores }

  function MemoryWork(t: nat): Job -> nat { (j: Job) => Ran(j, t) * j.request.memory }

  /** The integral is the work done so far: Done jobs in full, running jobs up to now. */
  ghost predicate Metered(util: Meter, jobs: seq<Job>, now: nat)
  {
    util == Meter(now, Sum(jobs, CoreWork(now)), Sum(jobs, MemoryWork(now)))
  }

  function StartedDuration(j: Job): nat { if j.state == Queued then 0 else j.duration }

  function LastSubmit(jobs: seq<Job>): (t: nat)
    ensures forall i :: 0 <= i < |jobs| ==> jobs[i].submitTime <= t
    ensures t > 0 ==> exists i :: 0 <= i < |jobs| && jobs[i].submitTime == t
  {
    if jobs == [] then 0
    else
      var t := LastSubmit(jobs[..|jobs| - 1]);
      assert forall i :: 0 <= i < |jobs| - 1 ==> jobs[i] == jobs[..|jobs| - 1][i];
      if t >= jobs[|jobs| - 1].submitTime then t else jobs[|jobs| - 1].submitTime
  }

  /** No event lies later than the last submission plus the work started so far. */
  ghost predicate Paced(c: Config, jobs: seq<Job>, queue: seq<Event>, now: nat)
  {
    var horizon := LastSubmit(c.jobs) + Sum(jobs, StartedDuration);
    now <= horizon && forall i :: 0 <= i < |queue| ==> queue[i].time <= horizon
  }

  /** Under fifo jobs start in arrival order and nothing is ever counted as backfilled. */
  ghost predicate InFifoOrder(c: Config, jobs: seq<Job>, backfilled: nat)
  {
    c.policy == Fifo ==>
      && backfilled == 0
      && forall a: nat, b: nat :: a < |jobs| && b < |jobs| && ArrivesBefore(jobs, a, b) && jobs[b].state != Queued
           ==> jobs[a].state != Queued && jobs[a].startTime <= jobs[b].startTime
  }

  ghost predicate Inv(c: Config, s: State)
  {
    && Inputs(c, s.jobs, s.nodes)
    && Lists(s.jobs, s.pending, s.running)
    && Phases(s.jobs, |s.nodes|, s.now)
    && Ordered(s.jobs, s.pending, s.now)
    && Stamped(s.queue, s.nextSeq, s.now) && |s.jobs| <= s.nextSeq
    && Scheduled(s.jobs, s.pending, s.queue, s.now)
    && Books(s.nodes, View(s))
    && Totals(s.nodes, s.jobs, s.running)
    && Metered(s.util, s.jobs, s.now)
    && Paced(c, s.jobs, s.queue, s.now)
    && InFifoOrder(c, s.jobs, s.backfilled)
  }

  // ----- reading the invariant -----

  lemma JobFacts(c: Config, s: State, id: nat)
    requires Inv(c, s) && id < |s.jobs|
    ensures |s.jobs| == |c.jobs| && |s.nodes| == |c.nodes|
    ensures s.jobs[id].id == id && SameInputs(s.jobs[id], c.jobs[id])
    ensures PhaseOk(s.jobs[id], |s.nodes|, s.now)
    ensures s.jobs[id].state == Running <==> id in s.running
  {
  }

  lemma PendingFacts(c: Config, s: State, k: nat)
    requires Inv(c, s) && k < |s.pending|
    ensures s.pending[k] < |s.jobs| && s.jobs[s.pending[k]].state == Queued
    ensures s.pending[k] !in s.running
    ensures k > 0 ==> s.pending[k] != s.pending[0] && ArrivesBefore(s.jobs, s.pending[0], s.pending[k])
  {
  }

  lemma RunningFacts(c: Config, s: State, k: nat)
    requires Inv(c, s) && k < |s.running|
    ensures s.running[k] < |s.jobs| && s.jobs[s.running[k]].state == Running
    ensures s.jobs[s.running[k]].node < |s.nodes| && s.jobs[s.running[k]].startTime <= s.now
  {
  }

  /** What a queue policy is shown of the backlog: the waiting jobs as submitted, in submission order. */
  ghost predicate ShowsBacklog(c: Config, s: State, backlog: seq<QueuedJob>)
  {
    && |backlog| == |s.pending|
    && (forall k :: 0 <= k < |backlog| ==>
          && backlog[k].id == s.pending[k] < |c.jobs|
          && backlog[k].request == c.jobs[s.pending[k]].request
          && backlog[k].estimatedDuration == c.jobs[s.pending[k]].estimatedDuration
          && backlog[k].submitTime == c.jobs[s.pending[k]].submitTime)
    && (forall i, k :: 0 <= i < k < |backlog| ==> backlog[i].submitTime <= backlog[k].submitTime <= s.now)
  }

  /** What a queue policy is shown of the running jobs: where each runs, what it holds, and start plus claim. */
  ghost predicate ShowsRunning(c: Config, s: State, inFlight: seq<RunningJob>)
  {
    && |inFlight| == |s.running|
    && (forall k :: 0 <= k < |inFlight| ==>
          && inFlight[k].id == s.running[k] < |c.jobs| && s.running[k] < |s.jobs|
          && inFlight[k].node == s.jobs[s.running[k]].node < |s.nodes|
          && inFlight[k].held == c.jobs[s.running[k]].request
          && inFlight[k].estimatedFinish == s.jobs[s.running[k]].startTime + c.jobs[s.running[k]].estimatedDuration)
  }

  lemma WaitingJob(c: Config, s: State, k: nat)
    requires Inv(c, s) && k < |s.pending|
    ensures s.pending[k] < |s.jobs| == |c.jobs| && s.jobs[s.pending[k]].submitTime <= s.now
    ensures s.jobs[s.pending[k]].id == s.pending[k] && SameInputs(s.jobs[s.pending[k]], c.jobs[s.pending[k]])
    ensures forall i :: 0 <= i < k ==>
              s.pending[i] < |s.jobs| && s.jobs[s.pending[i]].submitTime <= s.jobs[s.pending[k]].submitTime
  {
    PendingFacts(c, s, k);
    JobFacts(c, s, s.pending[k]);
    assert Arrived(s.jobs, s.pending, s.pending[k]);
    hide Lists, Phases, Stamped, Scheduled, Books, Totals, Metered, Paced, InFifoOrder;
    forall i | 0 <= i < k
      ensures s.pending[i] < |s.jobs| && s.jobs[s.pending[i]].submitTime <= s.jobs[s.pending[k]].submitTime
    {
      assert ArrivesBefore(s.jobs, s.pending[i], s.pending[k]);
    }
  }

  lemma BacklogIsTrue(c: Config, s: State)
    requires Inv(c, s)
    ensures ShowsBacklog(c, s, BacklogView(s.jobs, s.pending))
  {
    hide Inv;
    forall k | 0 <= k < |s.pending|
      ensures s.pending[k] < |s.jobs| == |c.jobs| && s.jobs[s.pending[k]].submitTime <= s.now
      ensures s.jobs[s.pending[k]].id == s.pending[k] && SameInputs(s.jobs[s.pending[k]], c.jobs[s.pending[k]])
      ensures forall i :: 0 <= i < k ==>
                s.pending[i] < |s.jobs| && s.jobs[s.pending[i]].submitTime <= s.jobs[s.pending[k]].submitTime
    {
      WaitingJob(c, s, k);
    }
  }

  lemma RunningIsTrue(c: Config, s: State)
    requires Inv(c, s)
    ensures ShowsRunning(c, s, View(s))
  {
    hide Inv;
    forall k | 0 <= k < |s.running|
      ensures s.running[k] < |s.jobs| == |c.jobs| && s.jobs[s.running[k]].id == s.running[k]
      ensures SameInputs(s.jobs[s.running[k]], c.jobs[s.running[k]]) && s.jobs[s.running[k]].node < |s.nodes|
    {
      RunningFacts(c, s, k);
      JobFacts(c, s, s.running[k]);
    }
  }

  /** Every state, also in the middle of a drain, shows the policies what the workload says. */
  lemma {:induction false} ViewsAreTrue(c: Config, s: State)
    requires Inv(c, s)
    ensures ShowsBacklog(c, s, BacklogView(s.jobs, s.pending)) && ShowsRunning(c, s, View(s))
  {
    hide Inv, ShowsBacklog, ShowsRunning;
    BacklogIsTrue(c, s);
    RunningIsTrue(c, s);
  }

  lemma NodeFacts(c: Config, s: State, i: nat)
    requires Inv(c, s) && i < |s.nodes|
    ensures |s.nodes| == |c.nodes| && s.nodes[i].id == i && s.nodes[i].capacity == c.nodes[i].capacity
    ensures Booked(s.nodes[i], View(s), i)
  {
  }

  lemma InvShape(c: Config, s: State)
    requires Inv(c, s)
    ensures |s.jobs| == |c.jobs| && |s.nodes| == |c.nodes| && Dense(s.nodes)
    ensures NoDup(s.pending) && NoDup(s.running)
    ensures Stamped(s.queue, s.nextSeq, s.now)
    ensures Ordered(s.jobs, s.pending, s.now)
  {
  }

  // ----- the initial state -----

  lemma InitScheduled(c: Config)
    requires WellFormed(c)
    ensures Stamped(Arrivals(c.jobs), |c.jobs|, 0) && Scheduled(c.jobs, [], Arrivals(c.jobs), 0)
  {
    forall id: nat | id < |c.jobs|
      ensures HasArrival(Arrivals(c.jobs), id)
    {
      assert IsArrivalOf(Arrivals(c.jobs)[id], id);
    }
  }

  lemma InitBooks(c: Config)
    requires WellFormed(c)
    ensures Books(c.nodes, []) && Totals(c.nodes, c.jobs, []) && Metered(Meter(0, 0, 0), c.jobs, 0)
  {
    SumZero(c.nodes, RunningJobs);
    SumZero(c.jobs, UseCores);
    SumZero(c.jobs, UseMemory);
    SumZero(c.jobs, CoreWork(0));
    SumZero(c.jobs, MemoryWork(0));
    SumSame(c.nodes, c.nodes, FreeCores, CapacityCores);
    SumSame(c.nodes, c.nodes, FreeMemory, CapacityMemory);
  }

  lemma InitInv(c: Config)
    requires WellFormed(c)
    ensures Inv(c, Init(c))
  {
    hide Stamped, Scheduled, Books, Totals, Metered;
    assert View(Init(c)) == [];
    InitScheduled(c);
    InitBooks(c);
  }

  // ----- starting a job -----

  /** pending[k] starts on node n, with whatever the cursor and the backfill count become. */
  function Begin(s: State, k: nat, n: nat, cursor: nat, backfilled: nat): State
    requires k < |s.pending| && s.pending[k] < |s.jobs| && n < |s.nodes|
  {
    Start(s.(cursor := cursor), s.pending[k], n).(pending := RemoveAt(s.pending, k), backfilled := backfilled)
  }

  ghost predicate CanBegin(c: Config, s: State, k: nat, n: nat)
  {
    && k < |s.pending| && s.pending[k] < |s.jobs| && n < |s.nodes|
    && s.nodes[n].CanFit(s.jobs[s.pending[k]].request)
    && (c.policy == Fifo ==> k == 0)
  }

  lemma ViewAfterStart(jobs: seq<Job>, running: seq<nat>, id: nat, j: Job)
    requires id < |jobs| && id !in running
    ensures InFlightView(jobs[id := j], running + [id]) == InFlightView(jobs, running) + [RunningView(j)]
  {
  }

  lemma BooksAfterStart(nodes: seq<Node>, view: seq<RunningJob>, n: nat, r: RunningJob)
    requires Books(nodes, view) && n < |nodes| && r.node == n && nodes[n].CanFit(r.held)
    ensures Books(nodes[n := Occupy(nodes[n], r.held)], view + [r])
  {
  }

  lemma TotalsAfterStart(nodes: seq<Node>, jobs: seq<Job>, running: seq<nat>, n: nat, id: nat, now: nat)
    requires Totals(nodes, jobs, running) && n < |nodes| && id < |jobs|
    requires jobs[id].state == Queued && nodes[n].CanFit(jobs[id].request)
    ensures Totals(nodes[n := Occupy(nodes[n], jobs[id].request)], jobs[id := StartedJob(jobs[id], now, n)], running + [id])
  {
    var node, j := Occupy(nodes[n], jobs[id].request), StartedJob(jobs[id], now, n);
    SumUpdate(nodes, n, node, RunningJobs);
    SumUpdate(nodes, n, node, FreeCores);
    SumUpdate(nodes, n, node, FreeMemory);
    SumUpdate(nodes, n, node, CapacityCores);
    SumUpdate(nodes, n, node, CapacityMemory);
    SumUpdate(jobs, id, j, UseCores);
    SumUpdate(jobs, id, j, UseMemory);
  }

  lemma MeterAfterStart(util: Meter, jobs: seq<Job>, id: nat, n: nat, now: nat)
    requires Metered(util, jobs, now) && id < |jobs| && jobs[id].state == Queued
    ensures Metered(util, jobs[id := StartedJob(jobs[id], now, n)], now)
  {
    var j := StartedJob(jobs[id], now, n);
    SumUpdate(jobs, id, j, CoreWork(now));
    SumUpdate(jobs, id, j, MemoryWork(now));
  }

  lemma ListsAfterStart(jobs: seq<Job>, pending: seq<nat>, running: seq<nat>, k: nat, n: nat, now: nat)
    requires Lists(jobs, pending, running) && k < |pending|
    ensures pending[k] < |jobs| && pending[k] !in running
    ensures Lists(jobs[pending[k] := StartedJob(jobs[pending[k]], now, n)], RemoveAt(pending, k), running + [pending[k]])
  {
    var id := pending[k];
    assert id in pending;
    RemoveAtNoDup(pending, k);
    assert forall x :: x in running + [id] <==> x in running || x == id;
  }

  /** After a start nobody's arrival status changes. */
  lemma ArrivedAfterStart(jobs: seq<Job>, pending: seq<nat>, k: nat, j: Job, a: nat)
    requires NoDup(pending) && k < |pending| && pending[k] < |jobs| && a < |jobs| && j.state == Running
    ensures Arrived(jobs[pending[k] := j], RemoveAt(pending, k), a) == Arrived(jobs, pending, a)
  {
  }

  lemma OrderedAfterStart(jobs: seq<Job>, pending: seq<nat>, k: nat, n: nat, now: nat)
    requires Ordered(jobs, pending, now) && NoDup(pending) && k < |pending|
    ensures pending[k] < |jobs|
    ensures Ordered(jobs[pending[k] := StartedJob(jobs[pending[k]], now, n)], RemoveAt(pending, k), now)
  {
    var id := pending[k];
    assert id in pending;
    var j := StartedJob(jobs[id], now, n);
    var after, rest := jobs[id := j], RemoveAt(pending, k);
    RemoveAtNoDup(pending, k);
    RemoveAtFacts(pending, k);
    forall a: nat, b: nat | a < |jobs| && b < |jobs|
      ensures ArrivesBefore(after, a, b) == ArrivesBefore(jobs, a, b)
    {
    }
    forall a: nat | a < |jobs|
      ensures Arrived(after, rest, a) == Arrived(jobs, pending, a)
    {
      ArrivedAfterStart(jobs, pending, k, j, a);
    }
  }

  lemma ScheduledAfterStart(jobs: seq<Job>, pending: seq<nat>, queue: seq<Event>, nextSeq: nat, now: nat, k: nat, n: nat)
    requires Scheduled(jobs, pending, queue, now) && NoEnd(queue) && NoDup(pending) && k < |pending|
    requires pending[k] < |jobs| && jobs[pending[k]].state == Queued && |jobs| <= nextSeq
    ensures var j := jobs[pending[k]];
            var e := Event(now + j.duration, nextSeq, JobFinish(pending[k], n));
            Scheduled(jobs[pending[k] := StartedJob(j, now, n)], RemoveAt(pending, k), queue + [e], now)
            && NoEnd(queue + [e])
  {
    var id := pending[k];
    assert id in pending;
    var j := StartedJob(jobs[id], now, n);
    var e := Event(now + jobs[id].duration, nextSeq, JobFinish(id, n));
    var after, rest, q := jobs[id := j], RemoveAt(pending, k), queue + [e];
    forall a: nat | a < |jobs|
      ensures Arrived(after, rest, a) == Arrived(jobs, pending, a)
    {
      ArrivedAfterStart(jobs, pending, k, j, a);
    }
    hide RemoveAt;
    forall i | 0 <= i < |q|
      ensures EventOk(after, rest, q[i])
    {
      if i < |queue| {
        assert EventOk(jobs, pending, queue[i]);
        assert !queue[i].payload.SimEnd?;
      }
    }
    forall x: nat | x < |jobs|
      ensures after[x].state == Running ==> HasFinish(q, x)
      ensures !Arrived(after, rest, x) ==> HasArrival(q, x)
    {
      MoreEvents(queue, e, x);
    }
    forall i, l | 0 <= i < l < |q| && q[i].payload.JobFinish? && q[l].payload.JobFinish?
      ensures q[i].payload.job != q[l].payload.job
    {
      assert EventOk(jobs, pending, queue[i]);
    }
  }

  lemma MoreEvents(queue: seq<Event>, e: Event, x: nat)
    ensures HasFinish(queue, x) || IsFinishOf(e, x) ==> HasFinish(queue + [e], x)
    ensures HasArrival(queue, x) ==> HasArrival(queue + [e], x)
  {
    var q := queue + [e];
    assert q[|queue|] == e;
    if HasFinish(queue, x) {
      var i :| 0 <= i < |queue| && IsFinishOf(queue[i], x);
      assert IsFinishOf(q[i], x);
    }
    if HasArrival(queue, x) {
      var i :| 0 <= i < |queue| && IsArrivalOf(queue[i], x);
      assert IsArrivalOf(q[i], x);
    }
  }

  lemma PacedAfterStart(c: Config, jobs: seq<Job>, queue: seq<Event>, now: nat, id: nat, n: nat, e: Event)
    requires Paced(c, jobs, queue, now) && id < |jobs| && jobs[id].state == Queued
    requires e.time == now + jobs[id].duration
    ensures Paced(c, jobs[id := StartedJob(jobs[id], now, n)], queue + [e], now)
  {
    SumUpdate(jobs, id, StartedJob(jobs[id], now, n), StartedDuration);
  }

  lemma HeadArrivesFirst(jobs: seq<Job>, pending: seq<nat>, now: nat, a: nat)
    requires Ordered(jobs, pending, now) && pending != []
    requires a < |jobs| && jobs[a].state == Queued && a != pending[0]
    ensures pending[0] < |jobs| && ArrivesBefore(jobs, pending[0], a)
  {
  }

  /** Under fifo the head arrives before everybody who has not started. */
  lemma FifoAfterStart(c: Config, s: State, k: nat, n: nat, backfilled: nat)
    requires InFifoOrder(c, s.jobs, s.backfilled) && Ordered(s.jobs, s.pending, s.now)
    requires Lists(s.jobs, s.pending, s.running) && Phases(s.jobs, |s.nodes|, s.now) && CanBegin(c, s, k, n)
    requires c.policy == Fifo ==> backfilled == s.backfilled
    ensures InFifoOrder(c, s.jobs[s.pending[k] := StartedJob(s.jobs[s.pending[k]], s.now, n)], backfilled)
  {
    var id := s.pending[k];
    var after := s.jobs[id := StartedJob(s.jobs[id], s.now, n)];
    if c.policy == Fifo {
      forall a: nat, b: nat | a < |after| && b < |after| && ArrivesBefore(after, a, b) && after[b].state != Queued
        ensures after[a].state != Queued && after[a].startTime <= after[b].startTime
      {
        assert ArrivesBefore(s.jobs, a, b);
        assert PhaseOk(s.jobs[a], |s.nodes|, s.now) && PhaseOk(s.jobs[b], |s.nodes|, s.now);
        if b == id && s.jobs[a].state == Queued && a != id {
          HeadArrivesFirst(s.jobs, s.pending, s.now, a);
          assert false;
        }
      }
    }
  }

  lemma {:induction false} BeginInv(c: Config, s: State, k: nat, n: nat, cursor: nat, backfilled: nat)
    requires Inv(c, s) && NoEnd(s.queue) && CanBegin(c, s, k, n)
    requires c.policy == Fifo ==> backfilled == s.backfilled
    ensures Inv(c, Begin(s, k, n, cursor, backfilled)) && NoEnd(Begin(s, k, n, cursor, backfilled).queue)
  {
    hide Ordered, Scheduled, Books, Totals, Metered, Paced, InFifoOrder, NoEnd;
    var id := s.pending[k];
    assert id in s.pending;
    var j := StartedJob(s.jobs[id], s.now, n);
    assert PhaseOk(s.jobs[id], |s.nodes|, s.now);
    ListsAfterStart(s.jobs, s.pending, s.running, k, n, s.now);
    OrderedAfterStart(s.jobs, s.pending, k, n, s.now);
    ScheduledAfterStart(s.jobs, s.pending, s.queue, s.nextSeq, s.now, k, n);
    ViewAfterStart(s.jobs, s.running, id, j);
    BooksAfterStart(s.nodes, View(s), n, RunningView(j));
    TotalsAfterStart(s.nodes, s.jobs, s.running, n, id, s.now);
    MeterAfterStart(s.util, s.jobs, id, n, s.now);
    PacedAfterStart(c, s.jobs, s.queue, s.now, id, n, Event(s.now + j.duration, s.nextSeq, JobFinish(id, n)));
    FifoAfterStart(c, s, k, n, backfilled);
    PendingArrived(s.jobs, s.pending, s.now, k);
  }

  lemma PendingArrived(jobs: seq<Job>, pending: seq<nat>, now: nat, k: nat)
    requires Ordered(jobs, pending, now) && k < |pending|
    ensures pending[k] < |jobs| && jobs[pending[k]].submitTime <= now
  {
  }
}
