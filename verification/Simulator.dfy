/** The simulator object: its methods compute exactly the state machine, so every theorem about runs is about it. */
module SimulatorCode {
  import opened Seqs
  import opened Model
  import opened Shadow
  import opened Machine
  import opened Invariant
  import opened Events
  import opened Drains
  import opened Runs
  import opened Outcomes
  import opened Parts
  import opened Schedulers
  import opened BackfillPolicy
  import Placement

  class Simulator {
    const cluster: Cluster
    const queue: EventQueue
    const util: UtilizationIntegral
    const scheduler: Scheduler
    const policy: QueuePolicy
    var jobs: seq<Job>
    var pending: seq<nat>
    var running: seq<nat>
    var now: nat
    var simEnd: nat
    var backfilled: nat

    /** What the simulator was built from. */
    ghost const config: Config

    ghost function Value(): State
      reads this, cluster, queue, util, scheduler
    {
      State(cluster.nodes, jobs, pending, running, queue.heap, queue.nextSeq, now, util.Value(), simEnd, scheduler.pos, backfilled)
    }

    ghost predicate Valid()
      reads this, cluster, queue, util, scheduler
    {
      && config.placement == scheduler.policy && config.policy == policy
      && Inv(config, Value())
    }

    constructor (cluster: Cluster, jobs: seq<Job>, scheduler: Scheduler, policy: QueuePolicy)
      requires WellFormed(Config(jobs, cluster.nodes, scheduler.policy, policy))
      requires scheduler.pos == 0
      ensures config == Config(jobs, cluster.nodes, scheduler.policy, policy)
      ensures this.cluster == cluster && this.scheduler == scheduler && this.policy == policy
      ensures fresh(queue) && fresh(util)
      ensures Value() == Init(config).(queue := [], nextSeq := 0)
    {
      this.cluster, this.scheduler, this.policy := cluster, scheduler, policy;
      this.queue := new EventQueue();
      this.util := new UtilizationIntegral();
      this.jobs, pending, running := jobs, [], [];
      now, simEnd, backfilled := 0, NEVER, 0;
      config := Config(jobs, cluster.nodes, scheduler.policy, policy);
    }

    /** try_place: the one and only caller of Cluster::allocate; its CanFit assert cannot fail. */
    method TryToPlace(id: nat) returns (placed: bool)
      requires Valid() && id in pending
      modifies this`jobs, this`running, cluster, queue, scheduler`pos
      ensures Attempt(placed, Value()) == TryPlace(config, old(Value()), id)
    {
      hide Inv;
      PlaceFacts(config, Value(), id);
      Placement.PlacementContract(scheduler.policy, scheduler.pos, cluster.nodes, jobs[id].request);
      var node := scheduler.Place(jobs[id].request, cluster.nodes);
      if node == None {
        return false;
      }
      var j := jobs[id];
      cluster.Allocate(node.value, j.request);
      jobs := jobs[id := j.(state := Running, startTime := now, node := node.value)];
      running := running + [id];
      queue.Schedule(now + j.duration, JobFinish(id, node.value));
      return true;
    }

    /** rebuild_views. */
    method RebuildViews() returns (backlog: seq<QueuedJob>, inFlight: seq<RunningJob>)
      requires Valid()
      ensures backlog == BacklogView(jobs, pending) && inFlight == InFlightView(jobs, running)
      ensures ShowsBacklog(config, Value(), backlog) && ShowsRunning(config, Value(), inFlight)
    {
      hide Inv, ShowsBacklog, ShowsRunning;
      ViewsAreTrue(config, Value());
      backlog, inFlight := [], [];
      for i := 0 to |pending|
        invariant |backlog| == i
        invariant forall k :: 0 <= k < i ==> backlog[k] == QueuedView(JobAt(jobs, pending[k]))
      {
        PendingFacts(config, Value(), i);
        var j := jobs[pending[i]];
        backlog := backlog + [QueuedJob(j.id, j.request, j.estimatedDuration, j.submitTime)];
      }
      for i := 0 to |running|
        invariant |inFlight| == i
        invariant forall k :: 0 <= k < i ==> inFlight[k] == RunningView(JobAt(jobs, running[k]))
      {
        RunningFacts(config, Value(), i);
        var j := jobs[running[i]];
        inFlight := inFlight + [RunningJob(j.id, j.node, j.request, j.startTime + j.estimatedDuration)];
      }
    }

    /** Phase 1 of drain: the loop that starts heads while they can be placed. */
    method StartFromHead()
      requires Valid() && NoEnd(queue.heap)
      modifies this`jobs, this`pending, this`running, cluster, queue, scheduler`pos
      ensures Value() == Phase1(config, old(Value()))
      ensures Valid() && NoEnd(queue.heap)
    {
      hide Inv, NoEnd, TryPlace, Follows, Phase1;
      ghost var s0 := Value();
      PhasesFollow(config, s0);
      while pending != []
        invariant Inv(config, Value()) && NoEnd(queue.heap)
        invariant Phase1(config, Value()) == Phase1(config, s0)
        decreases |pending|
      {
        ghost var s := Value();
        var placed := TryToPlace(pending[0]);
        if !placed {
          Phase1Stops(config, s);
          return;
        }
        Phase1Round(config, s);
        pending := pending[1..];
        assert s.pending[1..] == RemoveAt(s.pending, 0);
        assert Value() == After(config, s, 0, s.backfilled);
      }
      Phase1Stops(config, Value());
    }

    /** Phase 2 of drain: the head is blocked; whoever the queue policy picks may go around it. */
    method StartAroundHead()
      requires Valid() && NoEnd(queue.heap) && pending != [] && HeadBlocked(Value())
      modifies this`jobs, this`pending, this`running, this`backfilled, cluster, queue, scheduler`pos
      ensures Value() == Phase2(config, old(Value()))
      ensures Valid() && NoEnd(queue.heap)
    {
      hide Inv, NoEnd, TryPlace, Follows, Phase2, PickFor, HeadBlocked;
      ghost var s0 := Value();
      while true
        invariant Inv(config, Value()) && NoEnd(queue.heap)
        invariant pending != [] && HeadBlocked(Value())
        invariant Phase2(config, Value()) == Phase2(config, s0)
        decreases |pending|
      {
        ghost var s := Value();
        var backlog, inFlight := RebuildViews();
        var pick := PickBackfill(policy, backlog, cluster.nodes, inFlight, now);
        PickIs(config, s);
        if pick == None {
          Phase2Stops(config, s);
          return;
        }
        ghost var k := Phase2Round(config, s);
        assert pick.value != pending[0];
        var placed := TryToPlace(pick.value);
        assert placed;
        var at := IndexOf(pending, pick.value);
        pending := pending[..at] + pending[at + 1..];
        backfilled := backfilled + 1;
        assert Value() == After(config, s, k, s.backfilled + 1);
      }
    }

    /** drain. */
    method DrainBacklog()
      requires Valid() && NoEnd(queue.heap)
      modifies this`jobs, this`pending, this`running, this`backfilled, cluster, queue, scheduler`pos
      ensures Value() == Drain(config, old(Value()))
      ensures Valid() && NoEnd(queue.heap)
    {
      hide Inv, NoEnd, Phase1, Phase2, Follows;
      PhasesFollow(config, Value());
      StartFromHead();
      if pending == [] { return; }
      StartAroundHead();
    }

    /** on_arrival. */
    method OnArrival(id: nat)
      requires config.placement == scheduler.policy && config.policy == policy
      requires Inv(config, Enqueue(Value(), id)) && NoEnd(queue.heap)
      modifies this`jobs, this`pending, this`running, this`backfilled, cluster, queue, scheduler`pos
      ensures Value() == Drain(config, Enqueue(old(Value()), id))
      ensures Valid() && NoEnd(queue.heap)
    {
      pending := pending + [id];
      DrainBacklog();
    }

    /** on_finish: its four asserts, and the two of Cluster::release, hold. */
    method OnFinish(id: nat, node: nat)
      requires config.placement == scheduler.policy && config.policy == policy
      requires id < |jobs| && jobs[id].state == Running && jobs[id].node == node < |cluster.nodes|
      requires IndexOf(running, id) < |running|
      requires cluster.nodes[node].runningJobs > 0
      requires Within(jobs[id].request, Minus(cluster.nodes[node].capacity, cluster.nodes[node].free))
      requires Inv(config, Machine.Release(Value(), id)) && NoEnd(queue.heap)
      modifies this`jobs, this`pending, this`running, this`backfilled, cluster, queue, scheduler`pos
      ensures Value() == Drain(config, Machine.Release(old(Value()), id))
      ensures Valid() && NoEnd(queue.heap)
    {
      ghost var s := Value();
      hide Inv, NoEnd;
      var j := jobs[id];
      cluster.Release(j.node, j.request);
      jobs := jobs[id := j.(finishTime := now, state := Done)];
      var at := IndexOf(running, id);
      running := running[..at] + running[at + 1..];
      assert Value() == Machine.Release(s, id);
      DrainBacklog();
    }

    /** on_sim_end. */
    method OnSimEnd()
      requires util.lastCheckin <= now
      modifies this`simEnd, util
      ensures Value() == old(Value()).(util := Advance(old(util.Value()), now, TotalUtilized(cluster.nodes)), simEnd := now)
    {
      var used := cluster.SumUtilized();
      util.AdvanceTo(now, used);
      simEnd := now;
    }

    /** One turn of the event loop; the clock assert, and every assert below it, holds. */
    method HandleNext() returns (shouldEnd: bool)
      requires config.placement == scheduler.policy && config.policy == policy
      requires Between(config, Value()) && queue.heap != []
      modifies this, cluster, queue, util, scheduler
      ensures Value() == Step(config, old(Value()))
      ensures shouldEnd <==> queue.heap == []
    {
      hide Inv, NoEnd, Settled, Counted, Drain, Machine.Release;
      ghost var s := Value();
      NextIsReady(config, s);
      StepFacts(config, s);
      var e := queue.Pop();
      assert e.time >= now;
      now := e.time;
      var used := cluster.SumUtilized();
      util.AdvanceTo(now, used);
      assert Value() == Machine.Pop(s);
      shouldEnd := false;
      match e.payload {
        case JobArrival(id) =>
          ArrivalInv(config, s, id);
          OnArrival(id);
        case JobFinish(id, node) =>
          FinishIsExpected(config, s, id, node);
          FinishInv(config, s, id, node);
          OnFinish(id, node);
        case SimEnd =>
          OnSimEnd();
          shouldEnd := true;
      }
      assert Value() == Handle(config, Machine.Pop(s), e.payload);
      if !shouldEnd && queue.heap == [] {
        queue.Schedule(now, SimEnd);
      }
    }

    /** run: seeds the queue with the arrivals and runs it to exhaustion. */
    method Run()
      requires config.placement == scheduler.policy && config.policy == policy && WellFormed(config)
      requires Value() == Init(config).(queue := [], nextSeq := 0)
      modifies this, cluster, queue, util, scheduler
      ensures Value() == Final(config)
      ensures (forall i :: 0 <= i < |config.jobs| ==> Satisfiable(config.jobs[i].request, config.nodes)) ==>
                && pending == [] && |jobs| == |config.jobs|
                && (forall i :: 0 <= i < |jobs| ==> jobs[i].state == Done && SameInputs(jobs[i], config.jobs[i]))
                && TotalFree(cluster.nodes) == TotalCapacity(cluster.nodes)
    {
      hide Step, Between, WellFormed, Final;
      for i := 0 to |jobs|
        invariant jobs == config.jobs
        invariant Value() == Init(config).(queue := Arrivals(config.jobs)[..i], nextSeq := i)
      {
        queue.Schedule(jobs[i].submitTime, JobArrival(jobs[i].id));
      }
      assert Value() == Init(config);
      ghost var n := 0;
      while queue.heap != []
        invariant Value() == At(config, n) && n <= Length(config)
        invariant config.placement == scheduler.policy && config.policy == policy
        decreases Length(config) - n
      {
        RunInvariant(config, n);
        LengthIsExact(config, n);
        var shouldEnd := HandleNext();
        n := n + 1;
        if shouldEnd { break; }
      }
      LengthIsExact(config, n);
      if forall i :: 0 <= i < |config.jobs| ==> Satisfiable(config.jobs[i].request, config.nodes) {
        NoStarvation(config);
      }
    }
  }

  /** One simulation as main sets it up: a fresh cluster, the chosen policies, one run. */
  method Simulate(jobs: seq<Job>, nodeCount: nat, perNode: Resources, placement: Placement.Policy, policy: QueuePolicy)
    returns (sim: Simulator)
    requires forall i :: 0 <= i < |jobs| ==>
               && jobs[i].id == i && jobs[i].state == Queued && jobs[i].startTime == NEVER && jobs[i].finishTime == NEVER
    ensures sim.config.jobs == jobs && sim.config.placement == placement && sim.config.policy == policy
    ensures WellFormed(sim.config) && |sim.config.nodes| == nodeCount
    ensures forall i :: 0 <= i < nodeCount ==> sim.config.nodes[i].capacity == perNode
    ensures sim.Value() == Final(sim.config)
  {
    var cluster := new Cluster(nodeCount, perNode);
    var scheduler := new Scheduler(placement);
    sim := new Simulator(cluster, jobs, scheduler, policy);
    sim.Run();
  }

  lemma NextIsReady(c: Config, s: State)
    requires Between(c, s) && s.queue != []
    ensures s.util.lastCheckin == s.now && s.now <= NextEvent(s).time
  {
    PoppedIsStrictlyEarliest(s);
  }

  lemma PlaceFacts(c: Config, s: State, id: nat)
    requires Inv(c, s) && id in s.pending
    ensures id < |s.jobs| && Dense(s.nodes)
  {
  }

  lemma Phase1Stops(c: Config, s: State)
    ensures s.pending == [] ==> Phase1(c, s) == s
    ensures s.pending != [] && !TryPlace(c, s, s.pending[0]).placed ==> Phase1(c, s) == TryPlace(c, s, s.pending[0]).state
  {
  }

  lemma Phase2Stops(c: Config, s: State)
    requires PickFor(c, s) == None
    ensures Phase2(c, s) == s
  {
  }

  lemma PickIs(c: Config, s: State)
    ensures PickFor(c, s) == Pick(c.policy, BacklogView(s.jobs, s.pending), s.nodes, InFlightView(s.jobs, s.running), s.now)
  {
  }
}
