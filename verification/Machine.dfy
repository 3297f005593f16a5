/**
 * The simulator as a deterministic state machine over values: one Step per popped event.
 * The Simulator class is proved to compute exactly these functions.
 */
module Machine {
  import opened Seqs
  import opened Model
  import opened Shadow
  import Placement

  /** What a simulator is built from. */
  datatype Config = Config(
    jobs: seq<Job>,
    nodes: seq<Node>,
    placement: Placement.Policy,
    policy: QueuePolicy)

  datatype Meter = Meter(lastCheckin: nat, coreTicks: nat, memoryTicks: nat)

  datatype State = State(
    nodes: seq<Node>,
    jobs: seq<Job>,
    pending: seq<nat>,
    running: seq<nat>,
    queue: seq<Event>,
    nextSeq: nat,
    now: nat,
    util: Meter,
    simEnd: nat,
    cursor: nat,
    backfilled: nat)

  // ----- event queue -----

  /** The pop order: by time, and at equal times by sequence number. */
  predicate Earlier(a: Event, b: Event)
  {
    a.time < b.time || (a.time == b.time && a.seqNo < b.seqNo)
  }

  /** Position of the first event no other event precedes. */
  function Earliest(queue: seq<Event>): (i: nat)
    requires queue != []
    ensures i < |queue|
    ensures forall k :: 0 <= k < |queue| ==> !Earlier(queue[k], queue[i])
    ensures forall k :: 0 <= k < i ==> Earlier(queue[i], queue[k])
  {
    if |queue| == 1 then 0
    else
      var last := |queue| - 1;
      var i := Earliest(queue[..last]);
      assert forall k :: 0 <= k < last ==> queue[..last][k] == queue[k];
      if Earlier(queue[last], queue[i]) then last else i
  }

  // ----- cluster -----

  function Occupy(node: Node, request: Resources): Node
  {
    node.(free := Minus(node.free, request), runningJobs := node.runningJobs + 1)
  }

  function Vacate(node: Node, request: Resources): Node
  {
    node.(free := Plus(node.free, request),
          runningJobs := if node.runningJobs > 0 then node.runningJobs - 1 else 0)
  }

  function CapacityCores(n: Node): nat { n.capacity.cores }
  function CapacityMemory(n: Node): nat { n.capacity.memory }
  function FreeCores(n: Node): nat { n.free.cores }
  function FreeMemory(n: Node): nat { n.free.memory }

  function TotalCapacity(nodes: seq<Node>): Resources
  {
    Resources(Sum(nodes, CapacityCores), Sum(nodes, CapacityMemory))
  }

  function TotalFree(nodes: seq<Node>): Resources
  {
    Resources(Sum(nodes, FreeCores), Sum(nodes, FreeMemory))
  }

  function TotalUtilized(nodes: seq<Node>): Resources
  {
    Minus(TotalCapacity(nodes), TotalFree(nodes))
  }

  // ----- utilization integral -----

  function Advance(m: Meter, now: nat, inUse: Resources): Meter
  {
    if now <= m.lastCheckin then m
    else
      var interval := now - m.lastCheckin;
      Meter(now, m.coreTicks + interval * inUse.cores, m.memoryTicks + interval * inUse.memory)
  }

  // ----- views handed to the queue policy -----

  function QueuedView(j: Job): QueuedJob
  {
    QueuedJob(j.id, j.request, j.estimatedDuration, j.submitTime)
  }

  function RunningView(j: Job): RunningJob
  {
    RunningJob(j.id, j.node, j.request, j.startTime + j.estimatedDuration)
  }

  function BacklogView(jobs: seq<Job>, pending: seq<nat>): seq<QueuedJob>
  {
    seq(|pending|, i requires 0 <= i < |pending| => QueuedView(JobAt(jobs, pending[i])))
  }

  function InFlightView(jobs: seq<Job>, running: seq<nat>): seq<RunningJob>
  {
    seq(|running|, i requires 0 <= i < |running| => RunningView(JobAt(jobs, running[i])))
  }

  function View(s: State): seq<RunningJob>
  {
    InFlightView(s.jobs, s.running)
  }

  // ----- placing a job -----

  function StartedJob(j: Job, now: nat, n: nat): Job
  {
    j.(state := Running, startTime := now, node := n)
  }

  /** Job id starts on node n: what follows from a placement, apart from leaving the backlog. */
  function Start(s: State, id: nat, n: nat): State
    requires id < |s.jobs| && n < |s.nodes|
  {
    var j := s.jobs[id];
    s.(nodes := s.nodes[n := Occupy(s.nodes[n], j.request)],
       jobs := s.jobs[id := StartedJob(j, s.now, n)],
       running := s.running + [id],
       queue := s.queue + [Event(s.now + j.duration, s.nextSeq, JobFinish(id, n))],
       nextSeq := s.nextSeq + 1)
  }

  datatype Attempt = Attempt(placed: bool, state: State)

  function TryPlace(c: Config, s: State, id: nat): (a: Attempt)
    ensures a.state.pending == s.pending
  {
    var choice := Placement.Place(c.placement, s.cursor, s.nodes, JobAt(s.jobs, id).request);
    var t := s.(cursor := choice.cursor);
    if choice.node.Some? && id < |s.jobs| && choice.node.value < |s.nodes|
    then Attempt(true, Start(t, id, choice.node.value))
    else Attempt(false, t)
  }

  // ----- drain -----

  function Phase1(c: Config, s: State): State
    decreases |s.pending|
  {
    if s.pending == [] then s
    else
      var a := TryPlace(c, s, s.pending[0]);
      if a.placed then Phase1(c, a.state.(pending := s.pending[1..])) else a.state
  }

  ghost function PickFor(c: Config, s: State): Option<nat>
  {
    Pick(c.policy, BacklogView(s.jobs, s.pending), s.nodes, View(s), s.now)
  }

  ghost function Phase2(c: Config, s: State): State
    decreases |s.pending|
  {
    var pick := PickFor(c, s);
    if pick == None then s
    else
      var a := TryPlace(c, s, pick.value);
      var k := IndexOf(s.pending, pick.value);
      if a.placed && k < |s.pending|
      then Phase2(c, a.state.(pending := RemoveAt(s.pending, k), backfilled := s.backfilled + 1))
      else a.state
  }

  ghost function Drain(c: Config, s: State): State
  {
    var t := Phase1(c, s);
    if t.pending == [] then t else Phase2(c, t)
  }

  // ----- handlers -----

  function FinishedJob(j: Job, now: nat): Job
  {
    j.(state := Done, finishTime := now)
  }

  /** The state on_finish hands to drain. */
  function Release(s: State, id: nat): State
  {
    var j := JobAt(s.jobs, id);
    var k := IndexOf(s.running, id);
    if id < |s.jobs| && j.node < |s.nodes| && k < |s.running|
    then s.(nodes := s.nodes[j.node := Vacate(s.nodes[j.node], j.request)],
            jobs := s.jobs[id := FinishedJob(j, s.now)],
            running := RemoveAt(s.running, k))
    else s
  }

  function Enqueue(s: State, id: nat): State
  {
    s.(pending := s.pending + [id])
  }

  /** The event the next step pops. */
  function NextEvent(s: State): Event
    requires s.queue != []
  {
    s.queue[Earliest(s.queue)]
  }

  /** Popping moves the clock and credits the elapsed interval before any handler runs. */
  function Pop(s: State): State
    requires s.queue != []
  {
    var e := NextEvent(s);
    s.(queue := RemoveAt(s.queue, Earliest(s.queue)),
       now := e.time,
       util := Advance(s.util, e.time, TotalUtilized(s.nodes)))
  }

  ghost function Handle(c: Config, s: State, p: Payload): State
  {
    match p
    case JobArrival(id) => Drain(c, Enqueue(s, id))
    case JobFinish(id, n) => Drain(c, Release(s, id))
    case SimEnd => s.(util := Advance(s.util, s.now, TotalUtilized(s.nodes)), simEnd := s.now)
  }

  ghost function Step(c: Config, s: State): State
    requires s.queue != []
  {
    var p := NextEvent(s).payload;
    var t := Handle(c, Pop(s), p);
    if p.SimEnd? || t.queue != [] then t
    else t.(queue := [Event(t.now, t.nextSeq, SimEnd)], nextSeq := t.nextSeq + 1)
  }

  // ----- runs -----

  function Arrivals(jobs: seq<Job>): seq<Event>
  {
    seq(|jobs|, i requires 0 <= i < |jobs| => Event(jobs[i].submitTime, i, JobArrival(jobs[i].id)))
  }

  function Init(c: Config): State
  {
    State(c.nodes, c.jobs, [], [], Arrivals(c.jobs), |c.jobs|, 0, Meter(0, 0, 0), NEVER, 0, 0)
  }

  /** The state after n events; a drained queue stays as it is. */
  ghost function At(c: Config, n: nat): State
  {
    if n == 0 then Init(c)
    else
      var s := At(c, n - 1);
      if s.queue == [] then s else Step(c, s)
  }

  /** No run is longer than one arrival and one finish per job and the closing SimEnd. */
  ghost function Final(c: Config): State
  {
    At(c, 2 * |c.jobs| + 1)
  }
}
