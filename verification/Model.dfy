/** Clock, resources, nodes, jobs and events. Ids are indices: jobs[i].id == i, nodes[i].id == i. */
module Model {

  /** kNever, the largest 64-bit tick: "not set". Ticks themselves are unbounded naturals here. */
  const NEVER: nat := 0xFFFF_FFFF_FFFF_FFFF

  datatype Resources = Resources(cores: nat, memory: nat)

  const NOTHING := Resources(0, 0)

  /** Fits in every dimension. */
  predicate Within(a: Resources, b: Resources)
  {
    a.cores <= b.cores && a.memory <= b.memory
  }

  function Plus(a: Resources, b: Resources): Resources
  {
    Resources(a.cores + b.cores, a.memory + b.memory)
  }

  /** Every caller has b Within a; the total form only keeps the definition free of preconditions. */
  function Minus(a: Resources, b: Resources): Resources
  {
    Resources(if a.cores >= b.cores then a.cores - b.cores else 0,
              if a.memory >= b.memory then a.memory - b.memory else 0)
  }

  datatype Node = Node(id: nat, capacity: Resources, free: Resources, runningJobs: nat)
  {
    predicate CanFit(request: Resources)
    {
      Within(request, free)
    }
  }

  datatype JobState = Queued | Running | Done

  datatype Job = Job(
    id: nat,
    request: Resources,
    duration: nat,
    estimatedDuration: nat,
    submitTime: nat,
    startTime: nat,
    finishTime: nat,
    node: nat,
    state: JobState)

  /** A job as it enters the simulator: nothing about its execution is set. */
  function FreshJob(id: nat, request: Resources, duration: nat, submitTime: nat): Job
  {
    Job(id, request, duration, 0, submitTime, NEVER, NEVER, 0, Queued)
  }

  function JobAt(jobs: seq<Job>, id: nat): Job
  {
    if id < |jobs| then jobs[id] else FreshJob(id, NOTHING, 0, 0)
  }

  datatype Payload = JobArrival(job: nat) | JobFinish(job: nat, node: nat) | SimEnd

  datatype Event = Event(time: nat, seqNo: nat, payload: Payload)

  /** A backlog entry as a queue policy sees it: the true duration is missing. */
  datatype QueuedJob = QueuedJob(id: nat, request: Resources, estimatedDuration: nat, submitTime: nat)

  /** A running job as a queue policy sees it: its predicted end, not its true one. */
  datatype RunningJob = RunningJob(id: nat, node: nat, held: Resources, estimatedFinish: nat)

  /** node ids are positions */
  ghost predicate Dense(nodes: seq<Node>)
  {
    forall i :: 0 <= i < |nodes| ==> nodes[i].id == i
  }

  /** fits_anywhere: the request fits what some node has free. */
  predicate FitsAnywhere(request: Resources, nodes: seq<Node>)
  {
    exists i :: 0 <= i < |nodes| && nodes[i].CanFit(request)
  }

  /** Some node could take the request when idle. */
  predicate Satisfiable(request: Resources, nodes: seq<Node>)
  {
    exists i :: 0 <= i < |nodes| && Within(request, nodes[i].capacity)
  }
}
