# Atlas simulator: a verified model

A Dafny model of the discrete-event cluster simulator in `src/atlas`, with proofs about whole
simulation runs: the EASY backfill guarantee, non-clairvoyance, absence of starvation, exact
wedging, strict fifo, conservation of resources and of measured work, and termination.
`dafny verify dfyconfig.toml` checks everything.

## How it is organised

- `Seqs`, `Model`: sums and duplicate-free lists; resources, nodes, jobs, events, policy views.
- `Placement` (`Shares`, `Placement`): the four placement policies as functions, their common
  contract and what each one optimises. `Schedulers` holds the `place` loops.
- `Shadow`: what a shadow time *means* (least tick by which a request fits, given predicted
  releases) and the two queue policies. `BackfillPolicy` holds the collect, sort and accumulate
  computation of `backfill.cpp`, proved to return that tick.
- `Machine`: the simulator as a deterministic state machine over values. `Step` handles one event;
  `At(c, n)` is the state after n events; `Final(c)` is where a run ends.
- `Invariant`, `Events`, `Drains`, `Runs`: the invariant of every state, why each primitive keeps
  it, `drain` as a sequence of allowed starts with a fixed point, event order and termination.
- `Outcomes`, `Reservation`, `SinglePass`, `NonClairvoyance`, `Overtaking`: the theorems about runs.
- `Delay`, `Admissions`, `Slack`: when the head of the backlog truly starts, which admission delays
  it, and two concrete runs beside those theorems.
- `Parts`, `Simulator` (`SimulatorCode`): the classes `Cluster`, `EventQueue`,
  `UtilizationIntegral` and `Simulator`, whose methods update their fields as the source does and
  are proved to compute exactly the functions of `Machine`. Hence every theorem about `At` and
  `Final` is a theorem about `Simulator.Run`.
- `Percentiles`, `Workload`: nested in-place selection, and the two-pass workload generator.

All run theorems quantify over every well-formed workload and cluster, all four placement policies
and both queue policies. `WellFormed` is what the simulator asks of its caller: dense ids, fresh
jobs, idle nodes. `HonestEstimates` is `estimated_duration >= duration` (`src/atlas/model/job.hpp:21-26`)
and is used only where backfill's promise depends on it; `Delay` says exactly how it depends on it.

The *true* shadow time of a blocked head is the shadow time computed from true durations instead of
claims. `Delay` proves that no head starts before it under any policy, that under fifo the head
starts exactly at it, and for any tick S that the head starts by S exactly when, as long as it
waits, nobody let past it takes the room it truly has at S.

## Modelling decisions

- Ticks, cores and megabytes are unbounded naturals. `Outcomes.TicksStayInRange` shows that under
  `InRange` (last submission + total service time + any one estimate below `kNever`) every tick sum
  a run forms stays below 2^64 - 1, so 64-bit arithmetic agrees with the model there. Besides that
  lemma only `Outcomes.HeadShadowIsNever` assumes `InRange`: there `kNever` must be told apart from
  a real tick.
- The source's `Scheduler` and `QueuePolicy` hierarchies are closed: a policy value selects one of
  the four, respectively two, that the factories can name. The only scheduler state is
  RoundRobin's `pos`.
- `std::priority_queue`, `std::sort` and `std::nth_element` are library code. Each is replaced by a
  short method meeting the standard's contract (a scan for the earliest event, insertion sort,
  selection); heap layout is not modelled.
- Specification functions are total: where the source asserts, the model's function leaves the
  state alone, and the class methods carry the assert as a precondition or assertion that is proved.
- Durations, requests and submission times of the run theorems are arbitrary. `Workload` takes the
  engine's raw outputs and the logarithm as parameters.
- Floating-point numbers are reals with a rounding function as parameter: it keeps order, 0, 1,
  what is already rounded and the integral part of that; so a drawn duration is not rounded again.

## Promises with a condition

Six promises of the source hold under a condition; the condition is proved exact.

- A run completes every job if and only if every request fits some empty node
  (`Outcomes.CompletesExactlyWhenSatisfiable`).
- The head starts by its reservation (`src/atlas/sched/backfill.hpp:28`). Given honest claims of the
  waiting jobs, it does if and only if its true shadow time is not past the reservation
  (`Delay.HonouredExactly`), as it never is when the running jobs are honest too. The inequality is
  documented for `estimated_duration` but not enforced by the simulator;
  `Slack.OverrunBreaksTheReservation` is a run in which a job claims 10 ticks, takes 20, and the head
  reserved for tick 10 starts no earlier than 20.
- Backfill costs the head nothing against fifo if and only if every candidate let past it leaves it
  room at its true shadow time (`Delay.DelayedExactly`, `Admissions.DelayedExactlyByAdmissions`); the
  source promises no more than the reservation. `Slack.BackfillCanDelayTheHead` is a run with honest
  claims in which the head starts at 5 under backfill and at 1 under fifo.
- LeastLoaded and ResourceAware optimise the load in every state if and only if every node has cores,
  given nodes with memory and a choice of at least two (`Placement.RankingIsOptimalExactly`);
  `Placement.LeastLoadedMissesTheIdleNode` is an input without cores.
- The percentile computation leaves its array sorted, as one test expects, if and only if the sample
  has at most four values, going by the standard's contract alone (`Percentiles.SortedExactlyUpToFour`).
- A padded estimate is never below the duration if and only if the duration is not rounded down to
  begin with (`Workload.EstimateNotBelow`); drawn durations are not rounded at all.

## Model

| member | source | states |
|---|---|---|
| Shares.LessIsFractionOrder | src/atlas/sched/dominant_share.hpp:24-28 | cross multiplication answers exactly whether one fraction is below the other |
| Shares.LessIsStrictWeakOrder | src/atlas/sched/dominant_share.hpp:9-28 | on positive capacities the comparison is irreflexive, transitive, with transitive incomparability |
| Shares.ZeroCapacityBreaksTheOrder | src/atlas/sched/dominant_share.hpp:20-28 | a share of used <= capacity is level with two unequal ones, so that the comparison is no weak order, exactly when its capacity is zero |
| Shares.DominantHasValue | src/atlas/sched/dominant_share.hpp:31-36 | for used within capacity the dominant share has a capacity above zero exactly when the node has cores; otherwise it is 0/0 |
| Shares.DominantIsLoad | src/atlas/sched/dominant_share.hpp:31-36 | with cores, memory or not, the dominant share stands for max(core fraction, memory fraction) |
| Shares.ComparesLoadsExactly | src/atlas/sched/dominant_share.hpp:20-36 | comparing dominant shares gives the order of the loads, whatever is used, exactly when both nodes have cores or the second has nothing at all |
| Shares.ProductsFit | src/atlas/sched/dominant_share.hpp:17-19 | with used <= capacity < 2^32 both products stay within 64 bits |
| Placement.FirstFromIsFirst | src/atlas/sched/first_fit.cpp:7-14 | FirstFit returns the lowest fitting index, or none only if nothing fits |
| Placement.CyclicFromIsFirstInCyclicOrder | src/atlas/sched/round_robin.cpp:6-23 | RoundRobin returns the first fitting node in cyclic order after the cursor, which moves onto it |
| Placement.RoundRobinIsComplete | src/atlas/sched/round_robin.cpp:9-22 | none only when no node fits; a failed call leaves an in-range cursor unchanged |
| Placement.RoundRobinVisitsEveryNodeOnce | tests/sched/round_robin_test.cpp:40-53 | n consecutive calls return every one of n nodes exactly once while all have room, though requests differ and resources move between calls |
| Placement.EmptiestIsOptimal | src/atlas/sched/least_loaded.cpp:7-27 | on nodes with cores LeastLoaded minimises max(core, memory) load over the fitting nodes, strictly below every lower index |
| Placement.TightestIsOptimal | src/atlas/sched/resource_aware.cpp:7-30 | on nodes with cores ResourceAware maximises the load after placement over the fitting nodes, strictly above every lower index |
| Placement.LeastLoadedMissesTheIdleNode | src/atlas/sched/least_loaded.cpp:16-23 | two nodes without cores, the first half used, the second idle: LeastLoaded takes the first |
| Placement.RankingIsOptimalExactly | src/atlas/sched/least_loaded.cpp:7-27 | given nodes with memory, both ranking policies are optimal for every request and state exactly when every node has cores or there is at most one node |
| Placement.PlacementContract | tests/sched/scheduler_contract_test.cpp:42-81 | under every policy: a returned node fits, and none is returned exactly when nothing fits |
| Schedulers.PlaceLeastLoaded | src/atlas/sched/least_loaded.cpp:7-27 | the loop computes the specified argmin; none exactly when nothing fits |
| Schedulers.PlaceResourceAware | src/atlas/sched/resource_aware.cpp:7-30 | the loop computes the specified argmax; none exactly when nothing fits |
| Schedulers.Scheduler.PlaceRoundRobin | src/atlas/sched/round_robin.cpp:6-23 | the wrapping loop with its early exit computes the cyclic search, result and new cursor |
| Schedulers.Scheduler.Place | src/atlas/sched/scheduler.hpp:24 | dispatch to the selected policy, result and cursor |
| Shadow.LeastFit | src/atlas/sched/backfill.hpp:9-12 | the result fits and no earlier tick does; otherwise kNever and no tick below it fits |
| Shadow.ShadowIsEarliest | src/atlas/sched/backfill.hpp:9-16 | with nobody overdue the shadow time is a tick from now on by which the request fits, none earlier does, and it is now if the request fits now |
| Shadow.ShadowOfBlocked | src/atlas/engine/clock.hpp:19-20 | room by any tick below 2^64 - 1 bounds the shadow time of a blocked request, which is 2^64 - 1 exactly when there is no such tick |
| Shadow.ShadowAtMost | src/atlas/sched/backfill.hpp:9-12 | for a blocked request, shadow time <= S exactly when it fits by S |
| Shadow.ShadowIsAFinish | src/atlas/sched/backfill.cpp:42-50 | a finite shadow time of a blocked request is some running job's estimated finish |
| Shadow.ShadowPermutation | src/atlas/sched/backfill.cpp:29-38 | the shadow time does not depend on the order of the running list |
| Shadow.ShadowIsNever | src/atlas/sched/backfill.hpp:9-11 | given free + held = capacity, kNever exactly when the request exceeds every node's capacity |
| Shadow.FirstAdmissible | src/atlas/sched/backfill.cpp:71-79 | the first entry in queue order that ends by the shadow time and fits somewhere; none if no entry does |
| Shadow.PickExactly | src/atlas/sched/backfill.cpp:56-82 | whom a policy lets past a blocked head, without reference to a shadow time: the condition of PickBackfill, both directions |
| BackfillPolicy.SortByFinish | src/atlas/sched/backfill.cpp:29-38 | a permutation in which an earlier entry has a smaller estimated finish, or an equal one and no larger id |
| BackfillPolicy.FirstFittingPrefix | src/atlas/sched/backfill.cpp:40-50 | the first prefix of the sorted list that makes room names the node's least fitting tick, ties included |
| BackfillPolicy.NodeShadow | src/atlas/sched/backfill.cpp:24-50 | collect, sort and accumulate give the node's least fitting tick, or kNever |
| BackfillPolicy.ComputeShadowTime | src/atlas/sched/backfill.cpp:16-54 | on all inputs: now if some node fits, otherwise the least tick below 2^64 - 1 by which the request fits, otherwise 2^64 - 1; equal to the declarative shadow time |
| BackfillPolicy.PickBackfill | src/atlas/sched/backfill.cpp:56-82 | for a blocked head: a pick exactly under backfill, when the head has room by some tick below 2^64 - 1 and some entry behind it fits now and claims to be gone by every such tick; then the first such entry |
| Machine.Earliest | src/atlas/engine/event_queue.hpp:15-46 | no other event precedes the popped one, and it precedes everything stored before it |
| Invariant.BeginInv | src/atlas/engine/simulator.cpp:70-83 | a start on a fitting node keeps the whole invariant: accounting, lists, schedule, order, measured work |
| Invariant.ViewsAreTrue | src/atlas/engine/simulator.cpp:85-104 | in every state, also inside a drain, a backlog entry shows the id, request, claim and submit time of the workload's job, in submission order, and a running entry its node, holding and start plus claim |
| Events.PhasesAfterPop | src/atlas/engine/simulator.cpp:35-41 | no finish is skipped: the clock never passes a running job's end |
| Events.WorkAdvances | src/atlas/metrics/utilization.cpp:7-14 | between two ticks work grows by the interval times what the running jobs hold |
| Events.ArrivalInv | src/atlas/engine/simulator.cpp:136-139 | an arrival comes at its submit time, once, for a job that had not arrived, and keeps the invariant |
| Events.FinishIsExpected | src/atlas/engine/simulator.cpp:147-160 | the asserts of on_finish and of Cluster::release hold for every popped finish, which comes at start + duration |
| Events.FinishInv | src/atlas/engine/simulator.cpp:147-163 | a finish keeps the whole invariant |
| Events.EndInv | src/atlas/engine/simulator.cpp:141-145 | SimEnd changes only the queue and sim_end_, and keeps the invariant |
| Drains.TryPlaceCases | src/atlas/engine/simulator.cpp:70-83 | try_place succeeds exactly when some node fits, and then is a start on a node that fits |
| Drains.AttemptFollowsPolicy | src/atlas/engine/simulator.cpp:70-83 | during a run every start lands on the node its policy promises (lowest index, cyclic order, least or greatest load); only RoundRobin's cursor moves, onto that node; a failed attempt changes nothing |
| Drains.PickCases | src/atlas/sched/queue_policy.hpp:53-64 | a pick is an entry behind the head, under backfill, with finite shadow, and the first admissible one |
| Drains.DrainInv | src/atlas/engine/simulator.cpp:106-134 | drain keeps the invariant and stops only with the head blocked and nobody to pick |
| Drains.SettledMeans | src/atlas/engine/simulator.cpp:106-134 | the fixed point: the head fits nowhere, and every other waiting job fits nowhere or would outlast a finite shadow time |
| Runs.Phase2Round | src/atlas/engine/simulator.cpp:114-133 | every pick differs from the head, is placed, is found in the backlog, and leaves the head blocked |
| Runs.DrainFollows | src/atlas/engine/simulator.cpp:106-134 | a drain only starts queued jobs at the current tick, takes room, appends later events, and drops ids from the backlog |
| Runs.RunInvariant | src/atlas/engine/simulator.cpp:27-68 | invariant, drain fixed point and event counting hold after every event of every run |
| Runs.RunAdvances | docs/job-lifecycle.dot:20-34 | jobs only move forward along a run, starts and nodes stand, inputs never change, the clock never goes back |
| Runs.RunTerminates | src/atlas/engine/simulator.cpp:33-67 | the loop ends within 2 * jobs + 1 events |
| Runs.LengthIsExact | src/atlas/engine/simulator.cpp:33-67 | the queue is empty exactly from the Length-th event on |
| Runs.EventCount | src/atlas/engine/simulator.cpp:33-67 | a run pops one arrival per job, one finish per started job and one SimEnd, last and at the time of the event before it |
| Runs.PoppedInOrder | src/atlas/engine/event_queue.hpp:15-46 | popped events strictly increase in (time, sequence number) |
| Outcomes.BooksBalance | src/atlas/model/cluster.hpp:27-51 | at every event free + held = capacity and running_jobs is the count, node by node; running ids are the running jobs |
| Outcomes.ViewsShowTheWorkload | src/atlas/sched/queue_policy.hpp:14-33 | at every event of every run the views of the policies show the configured workload, field by field |
| Outcomes.FinalIsIdle | src/atlas/engine/simulator.cpp:33-67 | at the end nothing runs, every node is idle, and every job is Done or in the backlog |
| Outcomes.NoStarvation | tests/engine/simulator_test.cpp:47-82 | if every request fits some empty node: all Done, start >= submit, finish = start + duration, inputs unchanged, everything given back |
| Outcomes.UnsatisfiableNeverStarts | tests/engine/simulator_test.cpp:123-134 | a job that fits no empty node never starts |
| Outcomes.WedgesAtTheFirstUnsatisfiable | src/atlas/sched/backfill.cpp:63-69 | the first such job in arrival order ends as the head, everybody before it completes, the cluster is free |
| Outcomes.NothingStartsBehindUnsatisfiable | src/atlas/sched/backfill.cpp:63-69 | once such a job heads the backlog it stays there and nothing starts any more, under either queue policy |
| Outcomes.FifoWedgesExactly | src/atlas/engine/simulator.cpp:106-112 | under fifo the jobs left behind are exactly that job and everything arriving after it |
| Outcomes.CompletesExactlyWhenSatisfiable | tests/engine/simulator_test.cpp:47-61 | a run completes every job if and only if every request fits some empty node |
| Outcomes.TicksStayInRange | src/atlas/engine/clock.hpp:13-20 | under InRange clock, queued times, candidate ends and estimated finishes stay below kNever |
| Outcomes.HeadShadowIsNever | src/atlas/sched/backfill.cpp:63-69 | during a run the head's shadow time is kNever exactly when no empty node could hold it |
| Outcomes.HeadStaysHead | src/atlas/engine/simulator.cpp:107-133 | the head stays the head until it starts |
| Outcomes.StrictFifo | src/atlas/sched/fifo_queue.hpp:7-10 | under fifo, at every event, jobs have started in arrival order with non-decreasing start times, and nothing is backfilled |
| Outcomes.BacklogInArrivalOrder | src/atlas/engine/simulator.cpp:106-139 | under either policy the backlog is in arrival order |
| Outcomes.UtilizationIsWork | src/atlas/metrics/utilization.cpp:7-14 | at every event the integral is the work done: Done jobs in full, running jobs since their start |
| Outcomes.FinalUtilizationIsTheWorkload | tests/metrics/utilization_test.cpp:48-80 | when nobody starves the final integral is the workload's total resource time, with or without queueing |
| Outcomes.UtilizationAtMostCapacity | src/atlas/metrics/utilization.cpp:16-26 | the integral never exceeds elapsed time times capacity |
| Outcomes.EndIsUnsetUntilTheEnd | src/atlas/engine/simulator.cpp:141-145 | sim_end_ is 2^64 - 1 until SimEnd is handled, and the clock afterwards |
| Outcomes.MakespanIsLastEvent | src/atlas/engine/simulator.cpp:33-67 | SimEnd records the latest submission or finish of the run, at most the last submission plus the total duration |
| Outcomes.RoomyCluster | tests/engine/simulator_test.cpp:111-121 | with a node per job that fits, every job starts at its submit time under every policy pair |
| Reservation.FitsByAfterStart | src/atlas/sched/backfill.cpp:74-76 | a start changes predicted room only before its own predicted end, and there only takes room |
| Reservation.FitsByAfterFinish | src/atlas/engine/simulator.cpp:155-160 | a finish only adds predicted room, and none from its predicted end on |
| Reservation.NextEventWithinReservation | src/atlas/engine/simulator.cpp:35-41 | while the head waits under a reservation, the next event is due by it |
| Reservation.EasyReservation | src/atlas/sched/backfill.hpp:18-29 | if the blocked head has finite shadow time S, at every later event it started by S or still heads the backlog with shadow time <= S |
| Reservation.ReservationHonoured | src/atlas/sched/backfill.hpp:25-29 | such a job is Done at the end and started by S; with perfect estimates exactly at S |
| SinglePass.AdmissionKeepsShadow | src/atlas/sched/backfill.cpp:74-78 | admitting a candidate leaves the head's shadow time exactly equal, whichever node it lands on |
| SinglePass.RejectedStaysRejected | src/atlas/engine/simulator.cpp:114-133 | a candidate rejected against the shadow time stays rejected after further placements |
| SinglePass.Phase2IsOnePass | src/atlas/engine/simulator.cpp:114-133 | rescanning after every placement equals one left-to-right pass against the shadow time computed once, as states |
| NonClairvoyance.RunsAgreeUpTo | src/atlas/sched/queue_policy.hpp:14-33 | workloads differing only in durations of jobs that finish after T in both runs pop the same events and start the same jobs on the same nodes up to T |
| Overtaking.BackfilledCountsOvertakers | src/atlas/engine/simulator.hpp:43-46 | per event the count grows by exactly the number of jobs started while an earlier arrival was left waiting |
| Overtaking.BackfilledIsTheNumberOfOvertakers | src/atlas/engine/simulator.hpp:43-46 | over a whole run the count is the number of different jobs that started while an earlier arrival was left waiting |
| Delay.NeverBeforeTrueShadow | src/atlas/sched/backfill.hpp:25-29 | under any policy and any claims the head starts no earlier than its true shadow time, which never moves earlier while it waits |
| Delay.StartsAtTrueShadow | src/atlas/engine/simulator.cpp:106-134 | the head starts at the very tick its true shadow time names at the last event before |
| Delay.StartsByExactly | src/atlas/sched/backfill.hpp:25-29 | for any tick S and any claims: the head starts by S exactly when it has true room by S at every event at which it waits |
| Delay.FifoStartsAtTrueShadow | src/atlas/sched/fifo_queue.hpp:7-10 | under fifo the head starts exactly at its true shadow time |
| Delay.DelayedExactly | src/atlas/sched/backfill.hpp:25-29 | against a fifo run that agrees so far, the head starts no earlier, and at the same tick exactly when it keeps true room for that tick while it waits |
| Delay.HonouredExactly | src/atlas/sched/backfill.hpp:25-29 | with honest waiting jobs the reservation is honoured exactly when the true shadow time is not past it |
| Delay.NoSlackNoDelay | src/atlas/sched/backfill.hpp:25-29 | with honest waiting jobs, and exact claims of the running ones or no gap between true and claimed shadow time, the head starts at that tick under backfill and fifo alike |
| Delay.DelayWithinSlack | src/atlas/sched/backfill.hpp:25-29 | with honest claims: true shadow time = fifo start <= start <= reservation |
| Admissions.AdmissionKeepsRoomExactly | src/atlas/sched/backfill.cpp:71-79 | admitting a candidate keeps the head's room at F exactly when some node can still take the head at F, counting what the candidate holds there if it outlasts F |
| Admissions.DelayedExactlyByAdmissions | src/atlas/sched/backfill.cpp:56-82 | over whole runs: same start as under fifo exactly when every candidate let past the head passes that check |
| Admissions.LastInLine | src/atlas/engine/simulator.cpp:106-134 | once everybody else has started, the head starts at its true shadow time under either queue policy |
| Slack.BackfillCanDelayTheHead | src/atlas/sched/backfill.hpp:25-29 | a concrete honest workload: reserved for tick 10, the head starts at 5 under backfill and at 1 under fifo |
| Slack.OverrunBreaksTheReservation | src/atlas/model/job.hpp:21-26 | a concrete workload with one claim of 10 and a duration of 20: the head reserved for tick 10 starts no earlier than 20 |
| Parts.Cluster.constructor | src/atlas/model/cluster.hpp:20-25 | dense idle nodes of the given capacity |
| Parts.Cluster.Allocate | src/atlas/model/cluster.hpp:27-36 | only that node changes: free goes down by the request, the count up by one |
| Parts.Cluster.Release | src/atlas/model/cluster.hpp:38-51 | only that node changes: free goes up by the request and stays within capacity, the count down by one |
| Parts.ReleaseUndoesAllocate | tests/model/cluster_test.cpp:70-83 | releasing what was allocated restores the node exactly |
| Parts.Cluster.SumUtilized | src/atlas/model/cluster.hpp:57-86 | the loops compute total capacity less total free |
| Parts.EventQueue.Schedule | src/atlas/engine/event_queue.hpp:31-34 | the event is added with the next sequence number |
| Parts.EventQueue.Pop | src/atlas/engine/event_queue.hpp:36-43 | removes and returns the event no other event precedes |
| Parts.UtilizationIntegral.AdvanceTo | src/atlas/metrics/utilization.cpp:7-14 | credits the elapsed interval to the resources in use |
| SimulatorCode.Simulator.TryToPlace | src/atlas/engine/simulator.cpp:70-83 | computes the machine's attempt; the CanFit assert of allocate cannot fail |
| SimulatorCode.Simulator.RebuildViews | src/atlas/engine/simulator.cpp:85-104 | the two lists show the backlog and the running jobs field by field against the workload, without true durations |
| SimulatorCode.Simulator.DrainBacklog | src/atlas/engine/simulator.cpp:106-134 | both phases compute the machine's drain; the asserts on the pick hold |
| SimulatorCode.Simulator.OnArrival | src/atlas/engine/simulator.cpp:136-139 | appends to the backlog and drains |
| SimulatorCode.Simulator.OnFinish | src/atlas/engine/simulator.cpp:147-163 | releases, records, removes and drains, in that order |
| SimulatorCode.Simulator.OnSimEnd | src/atlas/engine/simulator.cpp:141-145 | advances the integral once more and records the end |
| SimulatorCode.Simulator.HandleNext | src/atlas/engine/simulator.cpp:33-66 | one turn of the loop is one machine step; the clock assert holds |
| SimulatorCode.Simulator.Run | src/atlas/engine/simulator.cpp:27-68 | run ends in the machine's final state, so with satisfiable requests every job is Done and everything is free |
| SimulatorCode.Simulate | src/main.cpp:35-43 | building the parts and running ends in the machine's final state, for any dense fresh workload and any cluster |
| Percentiles.Rank | src/atlas/metrics/percentiles.cpp:9-15 | the rank r satisfies 100 r < n p <= 100 (r + 1) and r < n |
| Percentiles.SplitIsSelected | src/atlas/metrics/percentiles.cpp:25-28 | a split position holds its sorted value, and the prefix before it sorts on its own |
| Percentiles.NthElement | src/atlas/metrics/percentiles.cpp:30-32 | the prefix is permuted and split at nth, the rest untouched; nth at the end changes nothing |
| Percentiles.ComputePercentiles | src/atlas/metrics/percentiles.cpp:17-36 | permutes its array and returns sorted values at the three ranks, coinciding ranks included; p50 <= p95 <= p99; up to four samples end fully sorted |
| Percentiles.SortedExactlyUpToFour | tests/metrics/percentiles_test.cpp:54-61 | whatever nth_element does within the standard's contract, the array ends sorted exactly when it has at most four values |
| Percentiles.NearestRank | src/atlas/metrics/percentiles.hpp:15-23 | each result is a sample value with at least p percent at or below it, and no smaller value has that |
| Workload.UniformIsEven | src/atlas/model/random.hpp:24-31 | the uniform draw is k / 2^53 exactly for the 2048 outputs from 2048 (k - 1) on |
| Workload.ExponentialValue | src/atlas/model/random.hpp:33-46 | unrounded, an exponential draw is -ln(u) * mean down to a tick, for the u of its own output |
| Workload.MeanGapValue | src/atlas/model/random.hpp:48-53 | unrounded, mean gap times rate is one second, 1000000 ticks |
| Workload.GeneratedJob | src/atlas/model/workload.hpp:37-56 | job i in numbers: which outputs give its profile, duration, gap and estimate, and the four requests and mean durations |
| Workload.ProfileShapes | src/atlas/model/profiles.hpp:18-30 | of a default node three profiles take twice the share of cores as of memory, the fourth three times the share of memory as of cores |
| Workload.GeneratedEstimate | src/atlas/model/workload.hpp:53-56 | unrounded, the estimate of job i is its duration times 1 + padding * u down to a tick, for the u of its own output, the factor between 1 and 1 + padding |
| Workload.PaddedGrows | src/atlas/model/workload.hpp:20-23 | rounded or not, a larger draw or a wider padding never gives a smaller estimate |
| Workload.EstimateNotBelow | src/atlas/model/workload.hpp:53-56 | with every operation rounded, no padding gives an estimate below the duration, exactly when the duration itself is not rounded down |
| Workload.Generate | src/atlas/model/workload.hpp:31-59 | the two loops draw exactly the specified workload, in rounded arithmetic, four draws a job; GeneratedJob says what each job is |
| Workload.GeneratedIsWellFormed | tests/model/workload_test.cpp:43-63 | dense fresh jobs in submission order with estimate >= duration, each fitting a default node |
| Workload.PaddingOnlyMovesEstimates | src/atlas/model/workload.hpp:48-52 | changing the padding changes estimates and nothing else |
| Workload.FewerJobsAreAPrefix | src/atlas/model/workload.hpp:48-52 | n jobs are a prefix of m jobs in every field but the estimates |
| Workload.GeneratedRunsComplete | tests/engine/simulator_test.cpp:26-61 | whatever the random stream, a generated workload on default nodes completes under every policy pair |

## Left out

- `src/main.cpp`, `io/options`, `io/report`, `io/trace`: argument parsing, printing and trace files.
- `io/compare.cpp`: sweeps over runs with floating-point means and standard errors.
- `factory.cpp`, `queue_factory.cpp`, the `name()` methods: name tables.
- `metrics/offered_load.cpp` and the divisions in `UtilizationIntegral::mean`: floating point; the numerators and denominators of `mean` are covered by the utilization results.
- `metrics/time_sample.cpp`: filters over job records.
- `model/random.hpp`: the Mersenne twister behind the raw 64-bit outputs and the values of the logarithm; of the latter only the sign is used.
- Width of integers other than ticks: 32-bit totals of cores and the 64-bit accumulators are unbounded here; the utilization bound says what the accumulators can reach.
- `static_cast<Tick>` of a floating-point estimate of 2^64 or more, and compilers that fuse the multiplication and addition of an estimate into one rounding.
- Placement.RankingIsOptimalExactly: asks for nodes with memory, because nodes with nothing at all make the exact condition depend on their position; the two optimality lemmas do not ask for it.
- Statistical claims about particular seeds in the repository's own README, and determinism across compilers.
- Subclassing `Scheduler` or `QueuePolicy` beyond the policies the factories name.
