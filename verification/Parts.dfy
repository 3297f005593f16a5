/** The stateful parts a simulator owns: cluster, event queue and utilization integral. */
module Parts {
  import opened Seqs
  import opened Model
  import opened Machine

  /** The nodes, and what is free on each. */
  class Cluster {
    var nodes: seq<Node>

    constructor (nodeCount: nat, perNode: Resources)
      ensures |nodes| == nodeCount && Dense(nodes)
      ensures forall i :: 0 <= i < nodeCount ==>
                nodes[i].capacity == perNode && nodes[i].free == perNode && nodes[i].runningJobs == 0
    {
      var built: seq<Node> := [];
      for i := 0 to nodeCount
        invariant |built| == i
        invariant forall k :: 0 <= k < i ==> built[k] == Node(k, perNode, perNode, 0)
      {
        built := built + [Node(i, perNode, perNode, 0)];
      }
      nodes := built;
    }

    method Allocate(id: nat, request: Resources)
      requires id < |nodes| && nodes[id].CanFit(request)
      modifies this
      ensures nodes == old(nodes)[id := Occupy(old(nodes)[id], request)]
      ensures Plus(nodes[id].free, request) == old(nodes)[id].free
    {
      nodes := nodes[id := nodes[id].(free := Minus(nodes[id].free, request), runningJobs := nodes[id].runningJobs + 1)];
    }

    method Release(id: nat, request: Resources)
      requires id < |nodes| && nodes[id].runningJobs > 0
      requires Within(request, Minus(nodes[id].capacity, nodes[id].free))
      modifies this
      ensures nodes == old(nodes)[id := Vacate(old(nodes)[id], request)]
      ensures Within(old(nodes)[id].free, old(nodes)[id].capacity) ==> Within(nodes[id].free, nodes[id].capacity)
    {
      nodes := nodes[id := nodes[id].(free := Plus(nodes[id].free, request), runningJobs := nodes[id].runningJobs - 1)];
    }

    method SumCapacity() returns (sum: Resources)
      ensures sum == TotalCapacity(nodes)
    {
      sum := NOTHING;
      for i := 0 to |nodes|
        invariant sum == TotalCapacity(nodes[..i])
      {
        assert nodes[..i + 1] == nodes[..i] + [nodes[i]];
        sum := Plus(sum, nodes[i].capacity);
      }
      assert nodes[..|nodes|] == nodes;
    }

    method SumFree() returns (sum: Resources)
      ensures sum == TotalFree(nodes)
    {
      sum := NOTHING;
      for i := 0 to |nodes|
        invariant sum == TotalFree(nodes[..i])
      {
        assert nodes[..i + 1] == nodes[..i] + [nodes[i]];
        sum := Plus(sum, nodes[i].free);
      }
      assert nodes[..|nodes|] == nodes;
    }

    method SumUtilized() returns (used: Resources)
      ensures used == TotalUtilized(nodes)
    {
      var free := SumFree();
      var total := SumCapacity();
      used := Minus(total, free);
    }
  }

  /** Releasing what was allocated restores the node exactly. */
  lemma ReleaseUndoesAllocate(node: Node, request: Resources)
    requires node.CanFit(request)
    ensures Vacate(Occupy(node, request), request) == node
  {
  }

  /** The pending events with the counter that stamps them. */
  class EventQueue {
    var heap: seq<Event>
    var nextSeq: nat

    constructor ()
      ensures heap == [] && nextSeq == 0
    {
      heap, nextSeq := [], 0;
    }

    method Schedule(time: nat, payload: Payload)
      modifies this
      ensures heap == old(heap) + [Event(time, old(nextSeq), payload)]
      ensures nextSeq == old(nextSeq) + 1
    {
      heap := heap + [Event(time, nextSeq, payload)];
      nextSeq := nextSeq + 1;
    }

    /** priority_queue::top and pop: the event that no other event precedes. */
    method Pop() returns (e: Event)
      requires heap != []
      modifies this`heap
      ensures e == old(heap)[Earliest(old(heap))]
      ensures heap == RemoveAt(old(heap), Earliest(old(heap)))
    {
      var best := 0;
      for i := 1 to |heap|
        invariant best == Earliest(heap[..i])
      {
        assert heap[..i + 1][..i] == heap[..i];
        if Earlier(heap[i], heap[best]) { best := i; }
      }
      assert heap[..|heap|] == heap;
      e := heap[best];
      heap := heap[..best] + heap[best + 1..];
    }
  }

  /** Resource ticks used so far, and when they were last brought up to date. */
  class UtilizationIntegral {
    var lastCheckin: nat
    var coreTicks: nat
    var memoryTicks: nat

    ghost function Value(): Meter
      reads this
    {
      Meter(lastCheckin, coreTicks, memoryTicks)
    }

    constructor ()
      ensures Value() == Meter(0, 0, 0)
    {
      lastCheckin, coreTicks, memoryTicks := 0, 0, 0;
    }

    method AdvanceTo(now: nat, inUse: Resources)
      requires now >= lastCheckin
      modifies this
      ensures Value() == Advance(old(Value()), now, inUse)
    {
      if now == lastCheckin { return; }
      var interval := now - lastCheckin;
      coreTicks := coreTicks + interval * inUse.cores;
      memoryTicks := memoryTicks + interval * inUse.memory;
      lastCheckin := now;
    }
  }
}
