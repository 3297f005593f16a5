/** Dominant shares: the larger of two fractions, held as a pair of naturals and never divided. */
module Shares {
  import opened Model

  datatype DominantShare = DominantShare(used: nat, capacity: nat)

  predicate Less(a: DominantShare, b: DominantShare)
  {
    a.used * b.capacity < b.used * a.capacity
  }

  function Dominant(used: Resources, capacity: Resources): DominantShare
  {
    var cores := DominantShare(used.cores, capacity.cores);
    var memory := DominantShare(used.memory, capacity.memory);
    if Less(cores, memory) then memory else cores
  }

  /** The fraction a share stands for. */
  function Fraction(a: DominantShare): real
    requires a.capacity > 0
  {
    a.used as real / a.capacity as real
  }

  /** A fraction as a real; of no capacity nothing can be used, which counts as zero. */
  function Ratio(used: nat, capacity: nat): real
  {
    if capacity == 0 then 0.0 else used as real / capacity as real
  }

  /** max(core fraction, memory fraction) of `used` out of `capacity`. */
  function Load(used: Resources, capacity: Resources): real
  {
    var c, m := Ratio(used.cores, capacity.cores), Ratio(used.memory, capacity.memory);
    if c < m then m else c
  }

  /** Cross multiplication answers exactly "is this fraction smaller". */
  lemma LessIsFractionOrder(a: DominantShare, b: DominantShare)
    requires a.capacity > 0 && b.capacity > 0
    ensures Less(a, b) <==> Fraction(a) < Fraction(b)
  {
  }

  /** Strict weak order on positive capacities: irreflexive, transitive, incomparability transitive. */
  lemma LessIsStrictWeakOrder(a: DominantShare, b: DominantShare, c: DominantShare)
    requires a.capacity > 0 && b.capacity > 0 && c.capacity > 0
    ensures !Less(a, a)
    ensures Less(a, b) && Less(b, c) ==> Less(a, c)
    ensures !Less(a, b) && !Less(b, a) && !Less(b, c) && !Less(c, b) ==> !Less(a, c) && !Less(c, a)
  {
  }

  predicate Incomparable(a: DominantShare, b: DominantShare)
  {
    !Less(a, b) && !Less(b, a)
  }

  /** c is level with both of two shares that are not level with each other. */
  ghost predicate BreaksTheOrder(c: DominantShare)
  {
    exists a: DominantShare, b: DominantShare ::
      a.capacity > 0 && b.capacity > 0 && Incomparable(a, c) && Incomparable(b, c) && Less(a, b)
  }

  /** The comparison stops being a weak order with exactly the shares of no capacity. */
  lemma ZeroCapacityBreaksTheOrder(c: DominantShare)
    requires c.used <= c.capacity
    ensures BreaksTheOrder(c) <==> c.capacity == 0
  {
    if c.capacity == 0 {
      var a, b := DominantShare(0, 1), DominantShare(1, 1);
      assert Incomparable(a, c) && Incomparable(b, c) && Less(a, b);
    } else {
      forall a: DominantShare, b: DominantShare | a.capacity > 0 && b.capacity > 0 && Incomparable(a, c) && Incomparable(b, c)
        ensures !Less(a, b)
      {
        LessIsStrictWeakOrder(a, c, b);
      }
    }
  }

  /** What is used of a node has a dominant share with a value exactly when the node has cores. */
  lemma DominantHasValue(used: Resources, capacity: Resources)
    requires Within(used, capacity)
    ensures Dominant(used, capacity).capacity > 0 <==> capacity.cores > 0
    ensures capacity.cores == 0 ==> Dominant(used, capacity) == DominantShare(0, 0)
  {
  }

  /** With cores, the dominant share stands for the load, memory or not. */
  lemma DominantIsLoad(used: Resources, capacity: Resources)
    requires capacity.cores > 0 && (capacity.memory > 0 || used.memory == 0)
    ensures Dominant(used, capacity).capacity > 0
    ensures Fraction(Dominant(used, capacity)) == Load(used, capacity)
  {
    if capacity.memory > 0 {
      LessIsFractionOrder(DominantShare(used.cores, capacity.cores), DominantShare(used.memory, capacity.memory));
    }
  }

  /** Comparing what is used of two capacities gives the order of the loads. */
  ghost predicate Agrees(used: Resources, capacity: Resources, used': Resources, capacity': Resources)
  {
    Less(Dominant(used, capacity), Dominant(used', capacity')) <==> Load(used, capacity) < Load(used', capacity')
  }

  /** Capacities compare as their loads, whatever is used of them, exactly when both have cores or the second is empty. */
  lemma {:induction false} ComparesLoadsExactly(c: Resources, d: Resources)
    ensures (forall u: Resources, v: Resources :: Within(u, c) && Within(v, d) ==> Agrees(u, c, v, d))
            <==> (c.cores > 0 && d.cores > 0) || d == NOTHING
  {
    if (c.cores > 0 && d.cores > 0) || d == NOTHING {
      forall u: Resources, v: Resources | Within(u, c) && Within(v, d)
        ensures Agrees(u, c, v, d)
      {
        if c.cores > 0 && d.cores > 0 {
          DominantIsLoad(u, c);
          DominantIsLoad(v, d);
          LessIsFractionOrder(Dominant(u, c), Dominant(v, d));
        } else {
          LoadBounds(u, c);
        }
      }
    } else {
      DominantHasValue(NOTHING, c);
      DominantHasValue(d, d);
      LoadBounds(d, d);
      assert !Agrees(NOTHING, c, d, d);
    }
  }

  lemma LoadBounds(used: Resources, capacity: Resources)
    requires Within(used, capacity)
    ensures 0.0 <= Load(used, capacity) <= 1.0
    ensures used == NOTHING ==> Load(used, capacity) == 0.0
    ensures used == capacity != NOTHING ==> Load(used, capacity) == 1.0
  {
    RatioBounds(used.cores, capacity.cores);
    RatioBounds(used.memory, capacity.memory);
  }

  lemma RatioBounds(used: nat, capacity: nat)
    requires used <= capacity
    ensures 0.0 <= Ratio(used, capacity) <= 1.0
    ensures used == 0 ==> Ratio(used, capacity) == 0.0
    ensures used == capacity > 0 ==> Ratio(used, capacity) == 1.0
  {
  }

  /** With used <= capacity < 2^32 in each dimension no product the comparison forms leaves 64 bits. */
  lemma ProductsFit(a: DominantShare, b: DominantShare)
    requires a.used <= a.capacity < 0x1_0000_0000 && b.used <= b.capacity < 0x1_0000_0000
    ensures a.used * b.capacity < 0x1_0000_0000_0000_0000
    ensures b.used * a.capacity < 0x1_0000_0000_0000_0000
  {
    ProductBound(a.used, b.capacity, 0x1_0000_0000);
    ProductBound(b.used, a.capacity, 0x1_0000_0000);
  }

  lemma ProductBound(x: nat, y: nat, m: nat)
    requires x < m && y < m
    ensures x * y < m * m
  {
  }
}

/**
 * The four placement policies as functions of the cursor, the nodes and the request.
 * The cursor is RoundRobinScheduler's persistent `pos`; the other three leave it alone.
 */
module Placement {
  import opened Seqs
  import opened Model
  import opened Shares

  datatype Policy = FirstFit | RoundRobin | LeastLoaded | ResourceAware

  datatype Choice = Choice(node: Option<nat>, cursor: nat)

  function Place(policy: Policy, cursor: nat, nodes: seq<Node>, request: Resources): Choice
  {
    match policy
    case FirstFit => Choice(FirstFrom(nodes, request, 0), cursor)
    case RoundRobin => CyclicFrom(nodes, request, cursor, |nodes|)
    case LeastLoaded => Choice(IdOf(nodes, Emptiest(nodes, request, |nodes|)), cursor)
    case ResourceAware => Choice(IdOf(nodes, Tightest(nodes, request, |nodes|)), cursor)
  }

  function IdOf(nodes: seq<Node>, index: Option<nat>): Option<nat>
    requires index.Some? ==> index.value < |nodes|
  {
    if index.Some? then Some(nodes[index.value].id) else None
  }

  // ----- first fit -----

  function FirstFrom(nodes: seq<Node>, request: Resources, i: nat): Option<nat>
    decreases |nodes| - i
  {
    if i >= |nodes| then None
    else if nodes[i].CanFit(request) then Some(nodes[i].id)
    else FirstFrom(nodes, request, i + 1)
  }

  lemma {:induction false} FirstFromIsFirst(nodes: seq<Node>, request: Resources, i: nat)
    requires Dense(nodes)
    ensures var r := FirstFrom(nodes, request, i);
            && (r == None ==> forall k :: i <= k < |nodes| ==> !nodes[k].CanFit(request))
            && (r.Some? ==> i <= r.value < |nodes| && nodes[r.value].CanFit(request)
                            && forall k :: i <= k < r.value ==> !nodes[k].CanFit(request))
    decreases |nodes| - i
  {
    if i < |nodes| && !nodes[i].CanFit(request) {
      FirstFromIsFirst(nodes, request, i + 1);
    }
  }

  // ----- round robin -----

  /** Advance the cursor at most `left` places, stopping on the first node that fits. */
  function CyclicFrom(nodes: seq<Node>, request: Resources, pos: nat, left: nat): Choice
    decreases left
  {
    if left == 0 || nodes == [] then Choice(None, pos)
    else
      var p := Next(pos, |nodes|);
      if nodes[p].CanFit(request) then Choice(Some(nodes[p].id), p)
      else CyclicFrom(nodes, request, p, left - 1)
  }

  /** The cursor after one advance. */
  function Next(pos: nat, n: nat): (p: nat)
    requires n > 0
    ensures p < n
  {
    (pos + 1) % n
  }

  /** The k-th node visited from the cursor: the next one, then upwards, wrapping once at n. */
  function Slot(pos: nat, n: nat, k: nat): (i: nat)
    requires 1 <= k <= n
    ensures i < n
  {
    var p := Next(pos, n);
    if p + (k - 1) < n then p + (k - 1) else p + (k - 1) - n
  }

  lemma NextInRange(p: nat, n: nat)
    requires p < n
    ensures Next(p, n) == if p + 1 < n then p + 1 else 0
  {
  }

  lemma SlotOfNext(pos: nat, n: nat, k: nat)
    requires 1 <= k < n
    ensures Slot(Next(pos, n), n, k) == Slot(pos, n, k + 1)
  {
    NextInRange(Next(pos, n), n);
  }

  /** The node found is the first that fits in cyclic order after the cursor. */
  lemma {:induction false} CyclicFromIsFirstInCyclicOrder(nodes: seq<Node>, request: Resources, pos: nat, left: nat)
    returns (d: nat)
    requires Dense(nodes) && 0 < left <= |nodes|
    ensures d <= left
    ensures forall k :: 1 <= k <= d ==> !nodes[Slot(pos, |nodes|, k)].CanFit(request)
    ensures var r := CyclicFrom(nodes, request, pos, left);
            && (r.node == None ==> d == left && r.cursor == Slot(pos, |nodes|, left))
            && (r.node.Some? ==> d < left && r.node.value == r.cursor == Slot(pos, |nodes|, d + 1)
                                 && nodes[r.cursor].CanFit(request))
    decreases left
  {
    var n := |nodes|;
    var p := Next(pos, n);
    assert p == Slot(pos, n, 1);
    if nodes[p].CanFit(request) {
      d := 0;
    } else if left == 1 {
      d := 1;
      assert CyclicFrom(nodes, request, p, 0) == Choice(None, p);
    } else {
      var e := CyclicFromIsFirstInCyclicOrder(nodes, request, p, left - 1);
      d := e + 1;
      forall k | 1 <= k <= d
        ensures !nodes[Slot(pos, n, k)].CanFit(request)
      {
        if k > 1 { SlotOfNext(pos, n, k - 1); }
      }
      SlotOfNext(pos, n, if e + 1 < n then e + 1 else e);
      SlotOfNext(pos, n, left - 1);
    }
  }

  lemma SlotOnto(pos: nat, n: nat, i: nat) returns (k: nat)
    requires i < n
    ensures 1 <= k <= n && Slot(pos, n, k) == i
  {
    var p := Next(pos, n);
    k := if i >= p then i - p + 1 else i + n - p + 1;
  }

  /** Round robin misses no fitting node, and a failed call leaves an in-range cursor where it was. */
  lemma RoundRobinIsComplete(nodes: seq<Node>, request: Resources, pos: nat)
    requires Dense(nodes)
    ensures var r := CyclicFrom(nodes, request, pos, |nodes|);
            && (r.node == None ==> !FitsAnywhere(request, nodes))
            && (r.node == None && pos < |nodes| ==> r.cursor == pos)
            && (r.node.Some? ==> r.node.value < |nodes| && nodes[r.node.value].CanFit(request) && r.cursor == r.node.value)
  {
    if nodes != [] {
      var d := CyclicFromIsFirstInCyclicOrder(nodes, request, pos, |nodes|);
      if CyclicFrom(nodes, request, pos, |nodes|).node == None {
        forall i | 0 <= i < |nodes|
          ensures !nodes[i].CanFit(request)
        {
          var k := SlotOnto(pos, |nodes|, i);
        }
        if pos < |nodes| { NextInRange(pos, |nodes|); }
      }
    }
  }

  /** One call to place: the nodes as they are at that moment, and the request. */
  datatype Call = Call(nodes: seq<Node>, request: Resources)

  /** The cursor after the first m of successive calls. */
  function CursorAfter(calls: seq<Call>, pos: nat, m: nat): nat
    requires m <= |calls|
  {
    if m == 0 then pos
    else
      var call := calls[m - 1];
      CyclicFrom(call.nodes, call.request, CursorAfter(calls, pos, m - 1), |call.nodes|).cursor
  }

  /** The node the m-th call returns. */
  function Returns(calls: seq<Call>, pos: nat, m: nat): Option<nat>
    requires 1 <= m <= |calls|
  {
    var call := calls[m - 1];
    CyclicFrom(call.nodes, call.request, CursorAfter(calls, pos, m - 1), |call.nodes|).node
  }

  /** Calls on a cluster of n nodes, whatever happens to it in between, each finding room everywhere. */
  ghost predicate AllFit(calls: seq<Call>, n: nat)
  {
    forall k :: 0 <= k < |calls| ==>
      && |calls[k].nodes| == n && Dense(calls[k].nodes)
      && forall i :: 0 <= i < n ==> calls[k].nodes[i].CanFit(calls[k].request)
  }

  lemma {:induction false} CursorAfterIsSlot(calls: seq<Call>, pos: nat, n: nat, m: nat)
    requires AllFit(calls, n) && 1 <= m <= n && m <= |calls|
    ensures CursorAfter(calls, pos, m) == Slot(pos, n, m)
    ensures Returns(calls, pos, m) == Some(Slot(pos, n, m))
  {
    var call, before := calls[m - 1], CursorAfter(calls, pos, m - 1);
    var first := Slot(before, n, 1);
    var d := CyclicFromIsFirstInCyclicOrder(call.nodes, call.request, before, n);
    if m > 1 {
      CursorAfterIsSlot(calls, pos, n, m - 1);
      NextInRange(Slot(pos, n, m - 1), n);
    }
  }

  /** One of the calls returns node i. */
  ghost predicate Visited(calls: seq<Call>, pos: nat, i: nat)
  {
    exists m :: 1 <= m <= |calls| && Returns(calls, pos, m) == Some(i)
  }

  /**
   * n consecutive calls on n nodes visit every node exactly once, while every node has room at
   * every call: requests may differ and resources may be taken and given back in between.
   */
  lemma {:induction false} RoundRobinVisitsEveryNodeOnce(calls: seq<Call>, pos: nat)
    requires AllFit(calls, |calls|)
    ensures forall i: nat :: i < |calls| ==> Visited(calls, pos, i)
    ensures forall m, m' :: 1 <= m < m' <= |calls| ==> Returns(calls, pos, m) != Returns(calls, pos, m')
  {
    var n := |calls|;
    forall i: nat | i < n
      ensures Visited(calls, pos, i)
    {
      var m := SlotOnto(pos, n, i);
      CursorAfterIsSlot(calls, pos, n, m);
    }
    forall m, m' | 1 <= m < m' <= n
      ensures Returns(calls, pos, m) != Returns(calls, pos, m')
    {
      CursorAfterIsSlot(calls, pos, n, m);
      CursorAfterIsSlot(calls, pos, n, m');
    }
  }

  // ----- least loaded and resource aware -----

  function CurrentShare(node: Node): DominantShare
  {
    Dominant(Minus(node.capacity, node.free), node.capacity)
  }

  function ShareAfter(node: Node, request: Resources): DominantShare
  {
    Dominant(Plus(Minus(node.capacity, node.free), request), node.capacity)
  }

  /** Best index among the first n nodes: smaller current share wins, ties keep the lower index. */
  function Emptiest(nodes: seq<Node>, request: Resources, n: nat): (b: Option<nat>)
    requires n <= |nodes|
    ensures b.Some? ==> b.value < n && nodes[b.value].CanFit(request)
  {
    if n == 0 then None
    else
      var b := Emptiest(nodes, request, n - 1);
      var node := nodes[n - 1];
      if node.CanFit(request) && (b == None || Less(CurrentShare(node), CurrentShare(nodes[b.value])))
      then Some(n - 1) else b
  }

  /** Best index among the first n nodes: larger share after placement wins, ties keep the lower index. */
  function Tightest(nodes: seq<Node>, request: Resources, n: nat): (b: Option<nat>)
    requires n <= |nodes|
    ensures b.Some? ==> b.value < n && nodes[b.value].CanFit(request)
  {
    if n == 0 then None
    else
      var b := Tightest(nodes, request, n - 1);
      var node := nodes[n - 1];
      if node.CanFit(request) && (b == None || Less(ShareAfter(nodes[b.value], request), ShareAfter(node, request)))
      then Some(n - 1) else b
  }

  ghost predicate AllHaveCores(nodes: seq<Node>)
  {
    forall i :: 0 <= i < |nodes| ==> nodes[i].capacity.cores > 0
  }

  /** A node without memory has none to give. */
  ghost predicate NoPhantomMemory(nodes: seq<Node>)
  {
    forall i :: 0 <= i < |nodes| && nodes[i].capacity.memory == 0 ==> nodes[i].free.memory == 0
  }

  /** Real-valued load of a node now. */
  function LoadNow(node: Node): real
  {
    Load(Minus(node.capacity, node.free), node.capacity)
  }

  /** Real-valued load of a node with the request added. */
  function LoadWith(node: Node, request: Resources): real
  {
    Load(Plus(Minus(node.capacity, node.free), request), node.capacity)
  }

  /** LeastLoaded minimizes the load over the fitting nodes; the lowest index wins ties. */
  lemma {:induction false} EmptiestIsOptimal(nodes: seq<Node>, request: Resources, n: nat)
    requires n <= |nodes| && AllHaveCores(nodes)
    ensures var b := Emptiest(nodes, request, n);
            && (b == None <==> forall k :: 0 <= k < n ==> !nodes[k].CanFit(request))
            && (b.Some? ==>
                  && (forall k :: 0 <= k < n && nodes[k].CanFit(request) ==> LoadNow(nodes[b.value]) <= LoadNow(nodes[k]))
                  && (forall k :: 0 <= k < b.value && nodes[k].CanFit(request) ==> LoadNow(nodes[b.value]) < LoadNow(nodes[k])))
  {
    if n > 0 {
      EmptiestIsOptimal(nodes, request, n - 1);
      var b := Emptiest(nodes, request, n - 1);
      if b.Some? {
        var x, y := nodes[n - 1], nodes[b.value];
        DominantIsLoad(Minus(x.capacity, x.free), x.capacity);
        DominantIsLoad(Minus(y.capacity, y.free), y.capacity);
        LessIsFractionOrder(CurrentShare(x), CurrentShare(y));
      }
    }
  }

  /** ResourceAware maximizes the load after placement over the fitting nodes; the lowest index wins ties. */
  lemma {:induction false} TightestIsOptimal(nodes: seq<Node>, request: Resources, n: nat)
    requires n <= |nodes| && AllHaveCores(nodes) && NoPhantomMemory(nodes)
    ensures var b := Tightest(nodes, request, n);
            && (b == None <==> forall k :: 0 <= k < n ==> !nodes[k].CanFit(request))
            && (b.Some? ==>
                  && (forall k :: 0 <= k < n && nodes[k].CanFit(request) ==>
                        LoadWith(nodes[k], request) <= LoadWith(nodes[b.value], request))
                  && (forall k :: 0 <= k < b.value && nodes[k].CanFit(request) ==>
                        LoadWith(nodes[k], request) < LoadWith(nodes[b.value], request)))
  {
    if n > 0 {
      TightestIsOptimal(nodes, request, n - 1);
      var b := Tightest(nodes, request, n - 1);
      if b.Some? {
        var x, y := nodes[n - 1], nodes[b.value];
        if x.CanFit(request) {
          DominantIsLoad(Plus(Minus(x.capacity, x.free), request), x.capacity);
          DominantIsLoad(Plus(Minus(y.capacity, y.free), request), y.capacity);
          LessIsFractionOrder(ShareAfter(y, request), ShareAfter(x, request));
        }
      }
    }
  }

  lemma {:induction false} RankedIsComplete(nodes: seq<Node>, request: Resources, n: nat)
    requires n <= |nodes|
    ensures Emptiest(nodes, request, n) == None <==> forall k :: 0 <= k < n ==> !nodes[k].CanFit(request)
    ensures Tightest(nodes, request, n) == None <==> forall k :: 0 <= k < n ==> !nodes[k].CanFit(request)
  {
    if n > 0 {
      RankedIsComplete(nodes, request, n - 1);
    }
  }

  // ----- nodes without cores -----

  /** The node LeastLoaded takes carries no more than any other fitting one. */
  ghost predicate PicksLeastLoaded(nodes: seq<Node>, request: Resources)
  {
    var b := Emptiest(nodes, request, |nodes|);
    b.Some? ==> forall k :: 0 <= k < |nodes| && nodes[k].CanFit(request) ==> LoadNow(nodes[b.value]) <= LoadNow(nodes[k])
  }

  /** The node ResourceAware takes ends up no less loaded than any other fitting one would. */
  ghost predicate PicksTightest(nodes: seq<Node>, request: Resources)
  {
    var b := Tightest(nodes, request, |nodes|);
    b.Some? ==> forall k :: 0 <= k < |nodes| && nodes[k].CanFit(request) ==>
                  LoadWith(nodes[k], request) <= LoadWith(nodes[b.value], request)
  }

  /** Nodes of the given capacities, each free up to its capacity. */
  ghost predicate OfCapacities(nodes: seq<Node>, capacities: seq<Resources>)
  {
    && |nodes| == |capacities|
    && forall i :: 0 <= i < |nodes| ==> nodes[i].capacity == capacities[i] && Within(nodes[i].free, capacities[i])
  }

  /** Two nodes without cores, the first half used and the second idle: LeastLoaded takes the first. */
  lemma {:induction false} LeastLoadedMissesTheIdleNode()
    ensures var nodes := [Node(0, Resources(0, 10), Resources(0, 5), 1), Node(1, Resources(0, 10), Resources(0, 10), 0)];
            && Place(LeastLoaded, 0, nodes, Resources(0, 1)).node == Some(0)
            && nodes[1].CanFit(Resources(0, 1)) && LoadNow(nodes[0]) == 0.5 && LoadNow(nodes[1]) == 0.0
  {
    var capacity, request := Resources(0, 10), Resources(0, 1);
    var nodes := [Node(0, capacity, Resources(0, 5), 1), Node(1, capacity, capacity, 0)];
    assert Emptiest(nodes, request, 1) == Some(0);
    assert Emptiest(nodes, request, 2) == Some(0);
  }

  lemma PlusNothing(r: Resources)
    ensures Plus(r, NOTHING) == r
  {
  }

  lemma EmptyShareIsLevel(a: DominantShare)
    ensures Incomparable(a, DominantShare(0, 0))
  {
  }

  /** What either policy ranks a node without cores by is level with everything. */
  lemma CorelessShare(node: Node, a: DominantShare)
    requires Within(node.free, node.capacity) && node.capacity.cores == 0
    ensures Incomparable(CurrentShare(node), a) && Incomparable(ShareAfter(node, NOTHING), a)
  {
    var used := Minus(node.capacity, node.free);
    DominantHasValue(used, node.capacity);
    PlusNothing(used);
    EmptyShareIsLevel(a);
  }

  /** A node without cores wins the ranking only by coming first, and then it wins for good. */
  lemma {:induction false} CorelessRank(nodes: seq<Node>, capacities: seq<Resources>, n: nat)
    requires OfCapacities(nodes, capacities) && 0 < n <= |nodes|
    ensures var e, t := Emptiest(nodes, NOTHING, n), Tightest(nodes, NOTHING, n);
            && e.Some? && t.Some?
            && (capacities[0].cores == 0 ==> e.value == t.value == 0)
            && (capacities[0].cores > 0 ==> capacities[e.value].cores > 0 && capacities[t.value].cores > 0)
  {
    hide Less, CurrentShare, ShareAfter;
    if n > 1 {
      CorelessRank(nodes, capacities, n - 1);
      var x, e, t := nodes[n - 1], Emptiest(nodes, NOTHING, n - 1).value, Tightest(nodes, NOTHING, n - 1).value;
      if x.capacity.cores == 0 {
        CorelessShare(x, CurrentShare(nodes[e]));
        CorelessShare(x, ShareAfter(nodes[t], NOTHING));
      }
      if capacities[0].cores == 0 {
        CorelessShare(nodes[0], CurrentShare(x));
        CorelessShare(nodes[0], ShareAfter(x, NOTHING));
      }
    }
  }

  /** Node k idle and all others full, or the other way round. */
  function AllBut(capacities: seq<Resources>, k: nat, idle: bool): (nodes: seq<Node>)
    ensures OfCapacities(nodes, capacities)
    ensures forall i :: 0 <= i < |nodes| ==> nodes[i].free == if (i == k) == idle then capacities[i] else NOTHING
  {
    seq(|capacities|, i requires 0 <= i < |capacities| =>
      Node(i, capacities[i], if (i == k) == idle then capacities[i] else NOTHING, 0))
  }

  lemma LoadOfIdleOrFull(node: Node)
    requires node.capacity.memory > 0
    ensures node.free == node.capacity ==> LoadNow(node) == 0.0 && LoadWith(node, NOTHING) == 0.0
    ensures node.free == NOTHING ==> LoadNow(node) == 1.0 && LoadWith(node, NOTHING) == 1.0
  {
    hide Load, Plus;
    PlusNothing(Minus(node.capacity, node.free));
    LoadBounds(Minus(node.capacity, node.free), node.capacity);
  }

  /**
   * Given nodes with memory, both ranking policies keep their promise for every request and every
   * state of the nodes exactly when every node has cores, or there is no choice to make.
   */
  lemma {:induction false} RankingIsOptimalExactly(capacities: seq<Resources>)
    requires forall i :: 0 <= i < |capacities| ==> capacities[i].memory > 0
    ensures (forall nodes: seq<Node>, request: Resources ::
               OfCapacities(nodes, capacities) ==> PicksLeastLoaded(nodes, request))
            <==> |capacities| <= 1 || forall i :: 0 <= i < |capacities| ==> capacities[i].cores > 0
    ensures (forall nodes: seq<Node>, request: Resources ::
               OfCapacities(nodes, capacities) ==> PicksTightest(nodes, request))
            <==> |capacities| <= 1 || forall i :: 0 <= i < |capacities| ==> capacities[i].cores > 0
  {
    if |capacities| <= 1 || forall i :: 0 <= i < |capacities| ==> capacities[i].cores > 0 {
      forall nodes: seq<Node>, request: Resources | OfCapacities(nodes, capacities)
        ensures PicksLeastLoaded(nodes, request) && PicksTightest(nodes, request)
      {
        if |capacities| > 1 {
          EmptiestIsOptimal(nodes, request, |nodes|);
          TightestIsOptimal(nodes, request, |nodes|);
        }
      }
    } else {
      var i :| 0 <= i < |capacities| && capacities[i].cores == 0;
      CorelessMisleads(capacities, i);
    }
  }

  lemma CorelessMisleads(capacities: seq<Resources>, coreless: nat)
    requires forall i :: 0 <= i < |capacities| ==> capacities[i].memory > 0
    requires 1 < |capacities| && coreless < |capacities| && capacities[coreless].cores == 0
    ensures exists nodes: seq<Node> :: OfCapacities(nodes, capacities) && !PicksLeastLoaded(nodes, NOTHING)
    ensures exists nodes: seq<Node> :: OfCapacities(nodes, capacities) && !PicksTightest(nodes, NOTHING)
  {
    hide LoadNow, LoadWith, Emptiest, Tightest, AllBut;
    var k := if capacities[0].cores == 0 then 1 else coreless;
    var spare, busy := AllBut(capacities, k, true), AllBut(capacities, k, false);
    CorelessRank(spare, capacities, |spare|);
    CorelessRank(busy, capacities, |busy|);
    LoadOfIdleOrFull(spare[k]);
    LoadOfIdleOrFull(busy[k]);
    LoadOfIdleOrFull(spare[Emptiest(spare, NOTHING, |spare|).value]);
    LoadOfIdleOrFull(busy[Tightest(busy, NOTHING, |busy|).value]);
    assert spare[k].CanFit(NOTHING) && busy[k].CanFit(NOTHING);
    assert !PicksLeastLoaded(spare, NOTHING) && !PicksTightest(busy, NOTHING);
  }

  // ----- the contract every policy meets -----

  /** Some(n) is a node that fits; None means that nothing fits. */
  lemma PlacementContract(policy: Policy, cursor: nat, nodes: seq<Node>, request: Resources)
    requires Dense(nodes)
    ensures var r := Place(policy, cursor, nodes, request);
            && (r.node.Some? <==> FitsAnywhere(request, nodes))
            && (r.node.Some? ==> r.node.value < |nodes| && nodes[r.node.value].CanFit(request))
            && (cursor < |nodes| ==> r.cursor < |nodes|)
            && (r.node == None && cursor < |nodes| ==> r.cursor == cursor)
  {
    FirstFromIsFirst(nodes, request, 0);
    RoundRobinIsComplete(nodes, request, cursor);
    RankedIsComplete(nodes, request, |nodes|);
  }
}
