/**
 * The four place() loops. The closed policy type stands for the source's virtual dispatch; `pos`
 * is RoundRobinScheduler's cursor and the only scheduler state there is.
 */
module Schedulers {
  import opened Seqs
  import opened Model
  import opened Shares
  import opened Placement

  /** LeastLoadedScheduler::place. */
  method PlaceLeastLoaded(request: Resources, nodes: seq<Node>) returns (r: Option<nat>)
    ensures r == IdOf(nodes, Emptiest(nodes, request, |nodes|))
    ensures r == None <==> !FitsAnywhere(request, nodes)
  {
    var best: Option<nat> := None;
    var bestShare := DominantShare(0, 1);
    for i := 0 to |nodes|
      invariant best == Emptiest(nodes, request, i)
      invariant best.Some? ==> bestShare == CurrentShare(nodes[best.value])
    {
      var node := nodes[i];
      if node.CanFit(request) {
        var used := Minus(node.capacity, node.free);
        var share := Dominant(used, node.capacity);
        if best == None || Less(share, bestShare) {
          best, bestShare := Some(i), share;
        }
      }
    }
    RankedIsComplete(nodes, request, |nodes|);
    r := IdOf(nodes, best);
  }

  /** ResourceAwareScheduler::place. */
  method PlaceResourceAware(request: Resources, nodes: seq<Node>) returns (r: Option<nat>)
    ensures r == IdOf(nodes, Tightest(nodes, request, |nodes|))
    ensures r == None <==> !FitsAnywhere(request, nodes)
  {
    var best: Option<nat> := None;
    var bestShare := DominantShare(0, 1);
    for i := 0 to |nodes|
      invariant best == Tightest(nodes, request, i)
      invariant best.Some? ==> bestShare == ShareAfter(nodes[best.value], request)
    {
      var node := nodes[i];
      if node.CanFit(request) {
        var after := Plus(Minus(node.capacity, node.free), request);
        var share := Dominant(after, node.capacity);
        if best == None || Less(bestShare, share) {
          best, bestShare := Some(i), share;
        }
      }
    }
    RankedIsComplete(nodes, request, |nodes|);
    r := IdOf(nodes, best);
  }

  class Scheduler {
    const policy: Policy
    var pos: nat

    constructor (policy: Policy)
      ensures this.policy == policy && pos == 0
    {
      this.policy := policy;
      pos := 0;
    }

    /** RoundRobinScheduler::place. */
    method PlaceRoundRobin(request: Resources, nodes: seq<Node>) returns (r: Option<nat>)
      modifies this`pos
      ensures Choice(r, pos) == CyclicFrom(nodes, request, old(pos), |nodes|)
    {
      var startPos, count := pos, 0;
      while count < |nodes|
        invariant 0 <= count <= |nodes|
        invariant count > 0 ==> pos == Slot(startPos, |nodes|, count)
        invariant count == 0 ==> pos == startPos
        invariant CyclicFrom(nodes, request, pos, |nodes| - count) == CyclicFrom(nodes, request, startPos, |nodes|)
      {
        ghost var before := pos;
        count := count + 1;
        pos := Next(pos, |nodes|);
        if count > 1 { NextInRange(before, |nodes|); }
        if nodes[pos].CanFit(request) {
          return Some(nodes[pos].id);
        }
        if pos == startPos {
          NextInRange(startPos, |nodes|);
          return None;
        }
      }
      return None;
    }

    /** Scheduler::place, dispatched on the policy. */
    method Place(request: Resources, nodes: seq<Node>) returns (r: Option<nat>)
      modifies this`pos
      ensures Choice(r, pos) == Placement.Place(policy, old(pos), nodes, request)
    {
      match policy
      case FirstFit => r := FirstFrom(nodes, request, 0);
      case RoundRobin => r := PlaceRoundRobin(request, nodes);
      case LeastLoaded => r := PlaceLeastLoaded(request, nodes);
      case ResourceAware => r := PlaceResourceAware(request, nodes);
    }
  }
}
