/**
 * Two concrete runs beside the theorems: a loose claim lets backfill delay the head past its fifo
 * start, and a claim that falls short makes the head miss its reservation.
 */
module Slack {
  import opened Seqs
  import opened Model
  import opened Shadow
  import opened Machine
  import opened Invariant
  import opened Drains
  import opened Outcomes
  import opened Reservation
  import opened Delay
  import opened Admissions
  import Placement

  const TWO := Resources(2, 0)
  const ONE := Resources(1, 0)

  /** Job 0 claims 10 ticks and runs `ran`, job 1 needs the whole node, job 2 is short and small. */
  function Workload(ran: nat): seq<Job>
  {
    [Job(0, ONE, ran, 10, 0, NEVER, NEVER, 0, Queued),
     Job(1, TWO, 1, 1, 0, NEVER, NEVER, 0, Queued),
     Job(2, ONE, 5, 5, 0, NEVER, NEVER, 0, Queued)]
  }

  function Setup(policy: QueuePolicy, ran: nat): Config
  {
    Config(Workload(ran), [Node(0, TWO, TWO, 0)], Placement.FirstFit, policy)
  }

  /** After the first arrival: job 0 runs. */
  function AfterFirst(ran: nat): State
  {
    var j := Workload(ran);
    State([Node(0, TWO, ONE, 1)], j[0 := StartedJob(j[0], 0, 0)], [], [0],
          [Event(0, 1, JobArrival(1)), Event(0, 2, JobArrival(2)), Event(ran, 3, JobFinish(0, 0))],
          4, 0, Meter(0, 0, 0), NEVER, 0, 0)
  }

  /** After the second: job 1 is the blocked head. */
  function AfterSecond(ran: nat): State
  {
    AfterFirst(ran).(pending := [1], queue := [Event(0, 2, JobArrival(2)), Event(ran, 3, JobFinish(0, 0))])
  }

  lemma FirstStep(policy: QueuePolicy, ran: nat)
    ensures At(Setup(policy, ran), 1) == AfterFirst(ran)
  {
    var c := Setup(policy, ran);
    var s := Init(c);
    assert s.queue == [Event(0, 0, JobArrival(0)), Event(0, 1, JobArrival(1)), Event(0, 2, JobArrival(2))];
    assert Earliest(s.queue) == 0;
    assert RemoveAt(s.queue, 0) == [Event(0, 1, JobArrival(1)), Event(0, 2, JobArrival(2))];
    var b := Enqueue(Pop(s), 0);
    assert b.pending == [0];
    assert Placement.FirstFrom(b.nodes, ONE, 0) == Some(0);
    var a := TryPlace(c, b, 0);
    assert a.placed;
    assert a.state.(pending := b.pending[1..]) == AfterFirst(ran);
    assert Phase1(c, b) == AfterFirst(ran);
    assert At(c, 0) == s;
  }

  lemma SecondStep(policy: QueuePolicy, ran: nat)
    ensures At(Setup(policy, ran), 2) == AfterSecond(ran)
  {
    var c, s := Setup(policy, ran), AfterFirst(ran);
    FirstStep(policy, ran);
    hide At;
    assert Earliest(s.queue) == 0;
    assert RemoveAt(s.queue, 0) == AfterSecond(ran).queue;
    var b := Enqueue(Pop(s), 1);
    assert b == AfterSecond(ran);
    BlockedDrain(c, b);
    assert Step(c, s) == b;
    NextInRun(c, 1);
  }

  /** A drain that cannot place the head and picks nobody changes nothing. */
  lemma BlockedDrain(c: Config, b: State)
    requires c.placement == Placement.FirstFit && b.pending != [] && b.pending[0] < |b.jobs|
    requires Placement.FirstFrom(b.nodes, b.jobs[b.pending[0]].request, 0) == None
    requires PickFor(c, b) == None
    ensures Drain(c, b) == b
  {
  }

  // ----- what the head can expect -----

  /** One core in use, and its holder expected back at `due`: room for the whole node from then on. */
  lemma RoomWhenDue(nodes: seq<Node>, view: seq<RunningJob>, now: nat, due: nat)
    requires nodes == [Node(0, TWO, ONE, 1)] && view == [RunningJob(0, 0, ONE, due)] && due < NEVER
    ensures ShadowTime(TWO, nodes, view, now) == due
  {
    forall u: nat
      ensures FitsBy(TWO, nodes, view, u) <==> due <= u
    {
      assert view == [] + [view[0]];
      SumAppend([], view[0], CoresDue(0, u));
      SumAppend([], view[0], MemoryDue(0, u));
      assert NodeFitsBy(TWO, nodes[0], view, u) <==> due <= u;
    }
    LeastFitUnique(TWO, nodes, view, due);
  }

  lemma BothReturned(a: RunningJob, b: RunningJob, u: nat)
    requires a.node == b.node == 0
    ensures Returned([a, b], 0, u).cores
            == (if a.estimatedFinish <= u then a.held.cores else 0) + (if b.estimatedFinish <= u then b.held.cores else 0)
  {
    assert [a, b] == ([] + [a]) + [b];
    SumAppend([] + [a], b, CoresDue(0, u));
    SumAppend([], a, CoresDue(0, u));
  }

  /** Both cores in use: room for the whole node when the later of the two holders is due. */
  lemma RoomWhenBothDue(nodes: seq<Node>, view: seq<RunningJob>, now: nat, first: nat, second: nat)
    requires nodes == [Node(0, TWO, NOTHING, 2)] && first <= second < NEVER
    requires view == [RunningJob(0, 0, ONE, first), RunningJob(2, 0, ONE, second)]
    ensures ShadowTime(TWO, nodes, view, now) == second
  {
    forall u: nat
      ensures FitsBy(TWO, nodes, view, u) <==> second <= u
    {
      BothReturned(view[0], view[1], u);
      assert view == [view[0], view[1]];
      hide Returned;
      assert NodeFitsBy(TWO, nodes[0], view, u) <==> second <= u;
    }
    LeastFitUnique(TWO, nodes, view, second);
  }

  lemma ViewsAfterSecond(ran: nat)
    ensures var s, e := AfterSecond(ran), Exact(AfterSecond(ran));
            && s.pending == e.pending == [1] && s.nodes == e.nodes == [Node(0, TWO, ONE, 1)]
            && View(s) == [RunningJob(0, 0, ONE, 10)] && View(e) == [RunningJob(0, 0, ONE, ran)]
            && RequestAt(s, 0) == TWO && RequestAt(e, 0) == TWO
  {
  }

  /** Job 1's reservation is the claimed end of job 0; its true shadow time is the true end. */
  lemma ShadowsAfterSecond(ran: nat)
    requires ran < NEVER
    ensures AfterSecond(ran).pending == [1]
    ensures HeadShadow(AfterSecond(ran)) == 10 && TrueShadow(AfterSecond(ran)) == ran
  {
    ViewsAfterSecond(ran);
    hide AfterSecond, Exact, View, ShadowTime;
    var s := AfterSecond(ran);
    var e := Exact(s);
    RoomWhenDue(s.nodes, View(s), s.now, 10);
    RoomWhenDue(e.nodes, View(e), e.now, ran);
  }

  // ----- backfill: job 2 takes the slack -----

  function BackfillThird(): State
  {
    var s := AfterSecond(1);
    s.(nodes := [Node(0, TWO, NOTHING, 2)],
       jobs := s.jobs[2 := StartedJob(s.jobs[2], 0, 0)],
       running := [0, 2],
       queue := [Event(1, 3, JobFinish(0, 0)), Event(5, 4, JobFinish(2, 0))],
       nextSeq := 5, backfilled := 1)
  }

  /** Job 2 is admitted against the reservation and fills the node. */
  lemma BackfillThirdStep()
    ensures At(Setup(Backfill, 1), 3) == BackfillThird()
  {
    SecondStep(Backfill, 1);
    hide At, Drain;
    BackfillThirdPop();
    BackfillThirdDrain();
    NextInRun(Setup(Backfill, 1), 2);
  }

  function ThirdArrived(): State
  {
    AfterSecond(1).(pending := [1, 2], queue := [Event(1, 3, JobFinish(0, 0))])
  }

  lemma BackfillThirdPop()
    ensures AfterSecond(1).queue != [] && NextEvent(AfterSecond(1)) == Event(0, 2, JobArrival(2))
    ensures Enqueue(Pop(AfterSecond(1)), 2) == ThirdArrived()
  {
  }

  lemma BackfillThirdPick()
    ensures PickFor(Setup(Backfill, 1), ThirdArrived()) == Some(2)
  {
    var b := ThirdArrived();
    var backlog := BacklogView(b.jobs, b.pending);
    assert View(b) == [RunningJob(0, 0, ONE, 10)];
    RoomWhenDue(b.nodes, View(b), b.now, 10);
    hide ShadowTime;
    assert backlog == [QueuedJob(1, TWO, 1, 0), QueuedJob(2, ONE, 5, 0)];
    assert b.nodes[0].CanFit(ONE);
    assert Admissible(backlog[1], b.nodes, 0, 10);
    assert FirstAdmissible(backlog, b.nodes, 0, 10, 1) == Some(1);
  }

  lemma BackfillThirdDrain()
    ensures Drain(Setup(Backfill, 1), ThirdArrived()) == BackfillThird()
  {
    hide PickFor, Phase1, Phase2, TryPlace, BackfillThird, ThirdArrived;
    ThirdHeadBlocked();
    BackfillThirdPick();
    BackfillThirdStart();
    Phase2Unfold(Setup(Backfill, 1), ThirdArrived(), 2);
    OneWaiting(Setup(Backfill, 1), BackfillThird());
  }

  lemma ThirdHeadBlocked()
    ensures Phase1(Setup(Backfill, 1), ThirdArrived()) == ThirdArrived()
    ensures 2 in ThirdArrived().pending && ThirdArrived().backfilled == 0
    ensures |BackfillThird().pending| == 1
  {
  }

  lemma BackfillThirdStart()
    ensures TryPlace(Setup(Backfill, 1), ThirdArrived(), 2).placed
    ensures IndexOf(ThirdArrived().pending, 2) == 1
    ensures TryPlace(Setup(Backfill, 1), ThirdArrived(), 2).state.(pending := RemoveAt(ThirdArrived().pending, 1), backfilled := 1)
            == BackfillThird()
  {
  }

  lemma OneWaiting(c: Config, s: State)
    requires |s.pending| == 1
    ensures Phase2(c, s) == s
  {
  }

  lemma TrueShadowAfterThird()
    ensures BackfillThird().pending == [1] && OthersStarted(BackfillThird(), 1)
    ensures TrueShadow(BackfillThird()) == 5
  {
    var s := BackfillThird();
    var e := Exact(s);
    assert View(e) == [RunningJob(0, 0, ONE, 1), RunningJob(2, 0, ONE, 5)];
    RoomWhenBothDue(e.nodes, View(e), e.now, 1, 5);
    hide ShadowTime;
    assert RequestAt(e, 0) == TWO;
  }

  lemma SetupIsWellFormed(policy: QueuePolicy, ran: nat)
    ensures WellFormed(Setup(policy, ran))
    ensures ran <= 10 ==> HonestEstimates(Setup(policy, ran))
  {
  }

  /**
   * Same workload, same cluster, honest estimates: the head reserved for tick 10 starts at tick 5
   * under backfill, within its reservation, and at tick 1 under fifo.
   */
  lemma {:induction false} BackfillCanDelayTheHead()
    ensures var c, d := Setup(Backfill, 1), Setup(Fifo, 1);
            && WellFormed(c) && WellFormed(d) && HonestEstimates(c) && c.jobs == d.jobs && c.nodes == d.nodes
            && At(c, 2) == At(d, 2) && At(c, 2).pending == [1] && HeadShadow(At(c, 2)) == 10
            && |Final(c).jobs| == |Final(d).jobs| == 3
            && Final(c).jobs[1].startTime == 5 && Final(d).jobs[1].startTime == 1
  {
    hide At, HeadShadow, TrueShadow, WellFormed, HonestEstimates, AfterSecond, BackfillThird;
    var c, d := Setup(Backfill, 1), Setup(Fifo, 1);
    SetupIsWellFormed(Backfill, 1);
    SetupIsWellFormed(Fifo, 1);
    SecondStep(Backfill, 1);
    SecondStep(Fifo, 1);
    ShadowsAfterSecond(1);
    FifoStartsAtTrueShadow(d, 2);
    BackfillThirdStep();
    TrueShadowAfterThird();
    LastInLine(c, 3);
    ThreeJobs(c);
    ThreeJobs(d);
  }

  lemma ThreeJobs(c: Config)
    requires WellFormed(c) && |c.jobs| == 3
    ensures |Final(c).jobs| == 3
  {
    hide At;
    SameSizeThroughout(c, 0);
    assert |At(c, 0).jobs| == 3 by { StartSize(c); }
  }

  lemma StartSize(c: Config)
    ensures |At(c, 0).jobs| == |c.jobs|
  {
  }

  lemma OverrunIsWaitingHonest()
    ensures WaitingHonest(AfterSecond(20))
  {
  }

  /**
   * A claim below the true duration breaks the promise: job 0 claims 10 ticks and runs 20, so the
   * head reserved for tick 10 starts no earlier than 20, under either queue policy.
   */
  lemma {:induction false} OverrunBreaksTheReservation(policy: QueuePolicy)
    ensures var c := Setup(policy, 20);
            && WellFormed(c) && !HonestEstimates(c) && WaitingHonest(At(c, 2))
            && At(c, 2).pending == [1] && HeadShadow(At(c, 2)) == 10
            && |Final(c).jobs| == 3 && Final(c).jobs[1].state == Done && Final(c).jobs[1].startTime >= 20
  {
    var c := Setup(policy, 20);
    assert c.jobs[0].duration > c.jobs[0].estimatedDuration;
    OverrunIsWaitingHonest();
    hide At, HeadShadow, TrueShadow, WellFormed, WaitingHonest, AfterSecond;
    SetupIsWellFormed(policy, 20);
    SecondStep(policy, 20);
    ShadowsAfterSecond(20);
    ThreeJobs(c);
    CompletesNotBefore(c, 2);
  }
}
