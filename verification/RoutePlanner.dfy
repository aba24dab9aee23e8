/** The route planner (plan_route in usr/train/router.c on usr/lib/search_node_queue.c). */
module RoutePlanner {
  import opened Basics
  import opened Track
  import opened PriorityQueue
  import opened ShortestPath

  type SearchQueue = PriorityQueue<Record>

  /** What the queue holds is exactly what the search has not dequeued. */
  ghost predicate Holds(contents: seq<SearchNode>, s: Search)
    requires s.Sized(|s.pos|)
  {
    multiset(contents) == multiset(s.Queued())
  }

  /** search_node_queue_find_by_node: the slot of the search node for `tn`, or -1. */
  method FindByNode(q: SearchQueue, tn: int) returns (slot: int)
    requires q.Valid()
    ensures -1 <= slot < q.size
    ensures slot != -1 ==> q.elts[slot].value.node == tn
    ensures slot == -1 ==> forall x <- q.Contents() :: x.value.node != tn
  {
    for i := 0 to q.size
      invariant forall x <- q.elts[..i] :: x.value.node != tn
    {
      if q.elts[i].value.node == tn {
        return i;
      }
    }
    return -1;
  }

  lemma QueuedNode(s: Search, contents: seq<SearchNode>, e: SearchNode)
    requires s.Sized(|s.pos|) && Holds(contents, s) && e in contents
    ensures var v := e.value.node; v < |s.pos| && s.pos[v] == QUEUED && e == s.Node(v)
  {
    assert e in multiset(contents);
    assert e in s.Queued();
  }

  lemma QueuedIsHeld(s: Search, contents: seq<SearchNode>, v: nat)
    requires s.Sized(|s.pos|) && Holds(contents, s) && v < |s.pos|
    ensures s.pos[v] != QUEUED || s.Node(v) in contents
  {
    if s.pos[v] == QUEUED {
      assert s.Node(v) in s.Queued();
      assert s.Node(v) in multiset(contents);
    }
  }

  lemma ReplaceOne(contents: seq<SearchNode>, slot: nat, e: SearchNode)
    requires slot < |contents|
    ensures multiset(contents[slot := e]) == multiset(contents) - multiset{contents[slot]} + multiset{e}
  {
  }

  lemma LowerHolds(s: Search, contents: seq<SearchNode>, slot: nat, v: nat, d: int)
    requires s.Sized(|s.pos|) && Holds(contents, s)
    requires slot < |contents| && v < |s.pos| && s.pos[v] == QUEUED && contents[slot] == s.Node(v)
    ensures Holds(contents[slot := s.Lower(v, d).Node(v)], s.Lower(v, d))
  {
    var e, e', qs := s.Node(v), s.Lower(v, d).Node(v), s.Queued();
    ReplaceOne(contents, slot, e');
    LowerQueued(s, v, d);
    assert e in qs;
    forall x | x in qs && x != e
      ensures x != e'
    {
      assert x == s.Node(x.value.node);
    }
    assert multiset(qs - {e} + {e'}) == multiset(qs) - multiset{e} + multiset{e'};
  }

  /** update_search_node: relaxes edge `curved` of the node dequeued last. */
  method UpdateSearchNode(t: Track, start: nat, q: SearchQueue, current: SearchNode, index: nat, curved: bool,
      ghost s: Search) returns (ghost s': Search)
    requires WellFormed(t) && start < |t| && q.Valid()
    requires s.Inv(t, start) && Holds(q.Contents(), s)
    requires |s.order| == index + 1 && current == s.Node(s.order[index]) && s.RelaxedUpTo(t, index)
    requires CanLeave(t, current.value.node, curved)
    modifies q.elts
    ensures q.Valid() && s'.Inv(t, start) && Holds(q.Contents(), s')
    ensures s'.order == s.order && s'.pos == s.pos && s'.RelaxedUpTo(t, index) && s'.LastRelaxed(t, curved)
    ensures forall c :: s.LastRelaxed(t, c) ==> s'.LastRelaxed(t, c)
    ensures forall k :: 0 <= k < |s.order| ==> s'.Node(s.order[k]) == s.Node(s.order[k])
  {
    s' := s;
    var edge := EdgeFrom(t, current.value.node, curved);
    var slot := FindByNode(q, edge.dest);
    if slot != -1 {
      var node := q.elts[slot];
      assert node == q.Contents()[slot];
      QueuedNode(s, q.Contents(), node);
      var updated := current.key + edge.dist;
      if updated < node.key {
        ghost var v: nat := edge.dest;
        LowerKeepsInv(t, start, s, curved, v, updated);
        LowerKeepsRelaxedUpTo(t, s, v, updated, index);
        LowerKeepsLastRelaxed(t, s, curved, v, updated);
        LowerHolds(s, q.Contents(), slot, v, updated);
        s' := s.Lower(v, updated);
        q.elts[slot] := Entry(updated, Record(node.value.node, index));
        assert q.Contents() == old(q.Contents())[slot := s'.Node(v)];
        forall k | 0 <= k < |s.order|
          ensures s'.Node(s.order[k]) == s.Node(s.order[k])
        {
          assert s.pos[s.order[k]] != QUEUED;
        }
      } else {
        DoneIsRelaxed(t, start, s, curved);
      }
    } else {
      QueuedIsHeld(s, q.Contents(), edge.dest);
      DoneIsRelaxed(t, start, s, curved);
    }
  }

  /** Before the search: only the start is at a finite distance. */
  ghost function Initial(n: nat, start: nat): Search {
    Search([], seq(n, i => QUEUED), seq(n, i => if i == start then 0 else INFINITE), seq(n, i => NO_PREV))
  }

  lemma InitialInv(t: Track, start: nat)
    requires WellFormed(t) && start < |t|
    ensures Initial(|t|, start).Inv(t, start)
  {
    var s := Initial(|t|, start);
    forall v | 0 <= v < |t|
      ensures 0 <= s.dist[v] <= INFINITE && s.Labelled(t, start, v)
    {
    }
  }

  lemma InitialGrows(n: nat, start: nat)
    ensures var e := Entry(if n == start then 0 else INFINITE, Record(n, NO_PREV));
            multiset(Initial(n + 1, start).Queued()) == multiset(Initial(n, start).Queued()) + multiset{e}
  {
    var e := Entry(if n == start then 0 else INFINITE, Record(n, NO_PREV));
    var small, large := Initial(n, start), Initial(n + 1, start);
    forall x
      ensures x in large.Queued() <==> x in small.Queued() + {e}
    {
      if x.value.node < n {
        assert small.Node(x.value.node) == large.Node(x.value.node);
      } else if x.value.node == n {
        assert large.Node(n) == e;
      }
    }
    assert large.Queued() == small.Queued() + {e};
    assert e !in small.Queued();
  }

  method FillQueue(t: Track, start: nat) returns (q: SearchQueue)
    requires start < |t| <= TRACK_MAX
    ensures fresh(q) && fresh(q.elts) && q.Valid() && IsHeap(q.Contents()) && q.size == |t|
    ensures Holds(q.Contents(), Initial(|t|, start))
  {
    q := new PriorityQueue<Record>(TRACK_MAX);
    for i := 0 to |t|
      invariant fresh(q) && fresh(q.elts) && q.Valid() && IsHeap(q.Contents()) && q.elts.Length == TRACK_MAX
      invariant q.size == i && Holds(q.Contents(), Initial(i, start))
    {
      InitialGrows(i, start);
      var r := q.Enqueue(Entry(if i == start then 0 else INFINITE, Record(i, NO_PREV)));
    }
  }

  lemma DequeueMinimum(t: Track, s: Search, contents: seq<SearchNode>, e: SearchNode)
    requires s.Shape(t) && Holds(contents, s) && e in contents
    requires forall x <- contents :: e.key <= x.key
    ensures var v := e.value.node;
            && v < |t| && s.pos[v] == QUEUED && e == s.Node(v)
            && forall x :: 0 <= x < |t| && s.pos[x] == QUEUED ==> s.dist[v] <= s.dist[x]
  {
    QueuedNode(s, contents, e);
    forall x | 0 <= x < |t| && s.pos[x] == QUEUED
      ensures e.key <= s.dist[x]
    {
      QueuedIsHeld(s, contents, x);
    }
  }

  lemma TakeHolds(s: Search, contents: seq<SearchNode>, rest: seq<SearchNode>, v: nat)
    requires s.Sized(|s.pos|) && Holds(contents, s) && v < |s.pos| && s.pos[v] == QUEUED
    requires multiset(contents) == multiset(rest) + multiset{s.Node(v)}
    ensures Holds(rest, s.Take(v))
  {
    TakeQueued(s, v);
    assert s.Node(v) in s.Queued();
    assert multiset(s.Queued() - {s.Node(v)}) == multiset(s.Queued()) - multiset{s.Node(v)};
  }

  lemma EmptyQueueMeansDone(t: Track, s: Search)
    requires s.Shape(t) && Holds([], s)
    ensures forall v :: 0 <= v < |t| ==> s.pos[v] != QUEUED
  {
    forall v | 0 <= v < |t|
      ensures s.pos[v] != QUEUED
    {
      QueuedIsHeld(s, [], v);
    }
  }

  /** The dequeued nodes carry the labels of the finished search. */
  ghost predicate Records(dequeued: seq<SearchNode>, s: Search)
    requires s.Sized(|s.pos|)
  {
    && |s.order| <= |dequeued|
    && forall k :: 0 <= k < |s.order| ==> s.order[k] < |s.pos| && dequeued[k] == s.Node(s.order[k])
  }

  lemma TakeRecords(s: Search, dequeued: seq<SearchNode>, v: nat)
    requires s.Sized(|s.pos|) && v < |s.pos| && Records(dequeued, s) && |s.order| < |dequeued|
    ensures Records(dequeued[|s.order| := s.Node(v)], s.Take(v))
  {
    forall k | 0 <= k < |s.order|
      ensures s.Take(v).Node(s.order[k]) == s.Node(s.order[k])
    {
    }
  }

  ghost predicate Finished(t: Track, start: nat, s: Search)
    requires WellFormed(t) && start < |t|
  {
    && s.Inv(t, start)
    && |s.order| == |t|
    && s.RelaxedUpTo(t, |t|)
    && forall v :: 0 <= v < |t| ==> s.pos[v] != QUEUED
  }

  method TakeNearest(t: Track, start: nat, q: SearchQueue, dequeued: array<SearchNode>, i: nat, ghost s: Search)
      returns (current: SearchNode, ghost s': Search)
    requires WellFormed(t) && start < |t| && q.Valid() && IsHeap(q.Contents()) && q.size > 0
    requires q.elts as object != dequeued as object && i < dequeued.Length
    requires s.Inv(t, start) && Holds(q.Contents(), s)
    requires |s.order| == i && s.RelaxedUpTo(t, i) && Records(dequeued[..], s)
    modifies q, q.elts, dequeued
    ensures q.Valid() && IsHeap(q.Contents()) && q.size == old(q.size) - 1
    ensures s'.Inv(t, start) && Holds(q.Contents(), s')
    ensures |s'.order| == i + 1 && s'.RelaxedUpTo(t, i) && Records(dequeued[..], s')
    ensures current == s'.Node(s'.order[i]) && current == dequeued[i]
  {
    var r;
    r, current := q.Dequeue();
    ghost var v: nat := current.value.node;
    DequeueMinimum(t, s, old(q.Contents()), current);
    TakeKeepsInv(t, start, s, v);
    TakeHolds(s, old(q.Contents()), q.Contents(), v);
    TakeRecords(s, dequeued[..], v);
    dequeued[i] := current;
    s' := s.Take(v);
  }

  lemma BothEdgesRelaxed(t: Track, s: Search, i: nat)
    requires WellFormed(t) && s.Shape(t) && |s.order| == i + 1 && s.RelaxedUpTo(t, i)
    requires s.LastRelaxed(t, false) && s.LastRelaxed(t, true)
    ensures s.RelaxedUpTo(t, i + 1)
  {
    forall k, c | 0 <= k <= i
      ensures s.Relaxed(t, s.order[k], c)
    {
      if k == i {
        assert s.LastRelaxed(t, c);
      }
    }
  }

  /** The switch of plan_route: uses the edges a train can leave `current` by. */
  method RelaxEdges(t: Track, start: nat, q: SearchQueue, current: SearchNode, i: nat, ghost s: Search)
      returns (ghost s': Search)
    requires WellFormed(t) && start < |t| && q.Valid() && IsHeap(q.Contents())
    requires s.Inv(t, start) && Holds(q.Contents(), s)
    requires |s.order| == i + 1 && current == s.Node(s.order[i]) && s.RelaxedUpTo(t, i)
    modifies q.elts
    ensures q.Valid() && IsHeap(q.Contents())
    ensures s'.Inv(t, start) && Holds(q.Contents(), s')
    ensures s'.order == s.order && s'.RelaxedUpTo(t, i + 1)
    ensures forall k :: 0 <= k < |s.order| ==> s'.Node(s.order[k]) == s.Node(s.order[k])
  {
    s' := s;
    match t[current.value.node].kind {
      case Sensor | Merge | Enter =>
        s' := UpdateSearchNode(t, start, q, current, i, false, s');
        q.Heapify();
      case Branch =>
        s' := UpdateSearchNode(t, start, q, current, i, false, s');
        s' := UpdateSearchNode(t, start, q, current, i, true, s');
        q.Heapify();
      case Exit =>
      case Unused =>
    }
    BothEdgesRelaxed(t, s', i);
  }

  /** The search loop of plan_route. */
  method DequeueAll(t: Track, start: nat, q: SearchQueue, dequeued: array<SearchNode>) returns (ghost s: Search)
    requires WellFormed(t) && start < |t| == dequeued.Length
    requires q.Valid() && IsHeap(q.Contents()) && q.size == |t| && Holds(q.Contents(), Initial(|t|, start))
    requires q.elts as object != dequeued as object
    modifies q, q.elts, dequeued
    ensures Finished(t, start, s) && Records(dequeued[..], s)
  {
    InitialInv(t, start);
    s := Initial(|t|, start);
    var i := 0;
    while true
      invariant q.Valid() && IsHeap(q.Contents()) && i + q.size == |t|
      invariant s.Inv(t, start) && Holds(q.Contents(), s)
      invariant |s.order| == i && s.RelaxedUpTo(t, i) && Records(dequeued[..], s)
      decreases q.size
    {
      var nonempty, _ := q.Peek();
      if !nonempty {
        break;
      }
      var current;
      current, s := TakeNearest(t, start, q, dequeued, i, s);
      s := RelaxEdges(t, start, q, current, i, s);
      i := i + 1;
    }
    assert q.Contents() == [];
    EmptyQueueMeansDone(t, s);
  }

  /** The buffer holds `nodes` followed by the null node. */
  ghost predicate RouteIs(route: seq<int>, nodes: seq<int>) {
    |nodes| < |route| && route[..|nodes|] == nodes && route[|nodes|] == NO_NODE
  }

  /** From position `k`, the predecessors fall strictly until they come to position 0. */
  ghost predicate Falls(dequeued: seq<SearchNode>, k: int) {
    0 <= k < |dequeued| && (k > 0 ==> 0 <= dequeued[k].value.prev < k && Falls(dequeued, dequeued[k].value.prev))
  }

  /** The nodes met on the way, in walking order. */
  ghost function Chain(dequeued: seq<SearchNode>, k: nat): (nodes: seq<int>)
    requires Falls(dequeued, k)
    ensures 0 < |nodes| <= k + 1
    ensures k > 0 ==> |nodes| > 1
    ensures nodes[|nodes| - 1] == dequeued[k].value.node
  {
    (if k == 0 then [] else Chain(dequeued, dequeued[k].value.prev)) + [dequeued[k].value.node]
  }

  lemma {:induction false} ChainIsTrail(t: Track, start: nat, s: Search, k: nat, dequeued: seq<SearchNode>)
    requires WellFormed(t) && start < |t| && s.Inv(t, start) && Reached(t, start, s, k) && Records(dequeued, s)
    ensures Falls(dequeued, k) && Chain(dequeued, k) == Trail(t, start, s, k)
  {
    assert s.Labelled(t, start, s.order[k]);
    assert dequeued[k] == s.Node(s.order[k]);
    if k > 0 {
      ChainIsTrail(t, start, s, s.prev[s.order[k]], dequeued);
    }
  }

  /** plan_route's first pass over the predecessors: counts the edges of the route. */
  method CountEdges(dequeued: seq<SearchNode>, last: nat) returns (length: nat)
    requires Falls(dequeued, last)
    ensures length + 1 == |Chain(dequeued, last)|
  {
    length := 0;
    var current := last;
    while current != 0
      invariant 0 <= current <= last && Falls(dequeued, current)
      invariant length + |Chain(dequeued, current)| == |Chain(dequeued, last)|
      decreases current
    {
      length := length + 1;
      current := dequeued[current].value.prev;
    }
  }

  lemma ChainBefore(dequeued: seq<SearchNode>, k: nat)
    requires Falls(dequeued, k)
    ensures k > 0 ==>
              var nodes := Chain(dequeued, k);
              Falls(dequeued, dequeued[k].value.prev) && Chain(dequeued, dequeued[k].value.prev) == nodes[..|nodes| - 1]
    ensures k == 0 ==> |Chain(dequeued, k)| == 1
  {
  }

  /** Its second pass: writes the route back to front. */
  method WriteRoute(dequeued: seq<SearchNode>, last: nat, route: array<int>)
    requires Falls(dequeued, last) && |Chain(dequeued, last)| < route.Length
    modifies route
    ensures RouteIs(route[..], Chain(dequeued, last))
  {
    hide Chain;
    ghost var full := Chain(dequeued, last);
    var length := CountEdges(dequeued, last);
    route[length + 1] := NO_NODE;
    var current: int := last;
    var i := length;
    while i >= 0
      invariant -1 <= i <= length
      invariant i >= 0 ==> Falls(dequeued, current) && Chain(dequeued, current) == full[..i + 1]
      invariant forall j :: i < j <= length ==> route[j] == full[j]
      invariant route[length + 1] == NO_NODE
    {
      ChainBefore(dequeued, current);
      assert full[..i + 1][..i] == full[..i];
      route[i] := dequeued[current].value.node;
      current := dequeued[current].value.prev;
      i := i - 1;
    }
    assert route[..length + 1] == full;
  }

  /** Whether a walk shorter than the planner's "infinity" leads from `start` to `end`. */
  ghost predicate InReach(t: Track, start: nat, end: int)
    requires WellFormed(t) && start < |t|
  {
    exists turns :: Joins(t, start, turns, end) && WalkLength(t, start, turns) < INFINITE
  }

  /** The nodes of some shortest walk, none of them twice. */
  ghost predicate IsShortestRoute(t: Track, start: nat, end: int, nodes: seq<int>)
    requires WellFormed(t) && start < |t|
  {
    && Distinct(nodes)
    && exists turns :: IsShortest(t, start, end, turns) && WalkNodes(t, start, turns) == nodes
  }

  /** The buffer has a slot for the null node after every route that may have to be written. */
  ghost predicate RoutesFit(t: Track, start: nat, end: int, slots: nat)
    requires WellFormed(t) && start < |t|
  {
    forall nodes :: IsShortestRoute(t, start, end, nodes) ==> |nodes| < slots
  }

  /** The last of the dequeued nodes for `end`, or -1. */
  method FindEnd(dequeued: seq<SearchNode>, end: int) returns (last: int)
    ensures -1 <= last < |dequeued|
    ensures last == -1 ==> forall x <- dequeued :: x.value.node != end
    ensures last != -1 ==> dequeued[last].value.node == end
  {
    last := -1;
    for i := 0 to |dequeued|
      invariant -1 <= last < i
      invariant last == -1 ==> forall x <- dequeued[..i] :: x.value.node != end
      invariant last != -1 ==> dequeued[last].value.node == end
    {
      if dequeued[i].value.node == end {
        last := i;
      }
    }
  }

  lemma RecordedNodes(dequeued: seq<SearchNode>, s: Search)
    requires s.Sized(|s.pos|) && Records(dequeued, s)
    ensures forall k :: 0 <= k < |s.order| ==> dequeued[k].value.node == s.order[k] && dequeued[k].value.prev == s.prev[s.order[k]]
  {
    forall k | 0 <= k < |s.order|
      ensures dequeued[k].value.node == s.order[k] && dequeued[k].value.prev == s.prev[s.order[k]]
    {
      assert dequeued[k] == s.Node(s.order[k]);
    }
  }

  lemma NoSuchEnd(t: Track, start: nat, s: Search, end: int)
    requires WellFormed(t) && start < |t| && Finished(t, start, s)
    requires forall k :: 0 <= k < |t| ==> s.order[k] != end
    ensures !InReach(t, start, end)
  {
    forall turns | IsWalk(t, start, turns)
      ensures WalkEnd(t, start, turns) != end
    {
      var v := WalkEnd(t, start, turns);
      assert s.order[s.pos[v]] == v;
    }
  }

  lemma ReachedHasPredecessor(t: Track, start: nat, s: Search, k: nat)
    requires WellFormed(t) && start < |t| && s.Inv(t, start) && k < |s.order|
    ensures Reached(t, start, s, k) <==> s.prev[s.order[k]] != NO_PREV || k == 0
  {
    assert s.Labelled(t, start, s.order[k]);
  }

  /** What the record of the end says: without a predecessor it is out of reach, unless it is the start, and
      otherwise the chain of predecessors is a shortest route. */
  lemma EndRecord(t: Track, start: nat, s: Search, dequeued: seq<SearchNode>, last: nat)
    requires WellFormed(t) && start < |t| && Finished(t, start, s) && Records(dequeued, s) && last < |dequeued| == |t|
    ensures var e := dequeued[last].value;
            && (InReach(t, start, e.node) <==> e.prev != NO_PREV || last == 0)
            && (InReach(t, start, e.node) ==> Falls(dequeued, last) && IsShortestRoute(t, start, e.node, Chain(dequeued, last)))
  {
    hide WellFormed, Search.Labelled, Search.RelaxedUpTo, Search.Sorted, Trail, Chain, IsShortest;
    RecordedNodes(dequeued, s);
    SearchIsExact(t, start, s, last);
    ReachedHasPredecessor(t, start, s, last);
    if Reached(t, start, s, last) {
      ChainIsTrail(t, start, s, last, dequeued);
    }
  }

  /** plan_route. It succeeds exactly when the end is in reach, and then the route is a shortest one. */
  method PlanRoute(t: Track, start: nat, end: int, route: array<int>) returns (found: bool)
    requires WellFormed(t) && start < |t| <= TRACK_MAX
    requires RoutesFit(t, start, end, route.Length)
    modifies route
    ensures found <==> InReach(t, start, end)
    ensures found ==> exists nodes :: RouteIs(route[..], nodes) && IsShortestRoute(t, start, end, nodes)
    ensures !found ==> route[..] == old(route[..])
  {
    hide InReach, IsShortestRoute, Falls, Chain;
    var q := FillQueue(t, start);
    var dequeued := new SearchNode[|t|];
    ghost var s := DequeueAll(t, start, q, dequeued);

    var last := FindEnd(dequeued[..], end);
    if last == -1 {
      RecordedNodes(dequeued[..], s);
      NoSuchEnd(t, start, s, end);
      return false;
    }
    EndRecord(t, start, s, dequeued[..], last);
    if dequeued[last].value.prev == NO_PREV && last != 0 {
      return false;
    }
    WriteRoute(dequeued[..], last, route);
    return true;
  }

  /** A buffer with one slot more than the track has nodes is always long enough. */
  lemma RoutesFitInTrackPlusOne(t: Track, start: nat, end: int, slots: nat)
    requires WellFormed(t) && start < |t| < slots
    ensures RoutesFit(t, start, end, slots)
  {
    forall nodes | IsShortestRoute(t, start, end, nodes)
      ensures |nodes| < slots
    {
      var turns :| IsShortest(t, start, end, turns) && WalkNodes(t, start, turns) == nodes;
      WalkStaysOnTrack(t, start, turns);
      DistinctFit(nodes, |t|);
    }
  }
}
