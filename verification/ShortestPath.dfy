/** Why the search of usr/train/router.c finds shortest walks: the labels (distance and predecessor)
    that its search nodes carry, stated apart from the heap that stores them. */
module ShortestPath {
  import opened Basics
  import opened Track
  import opened PriorityQueue

  /** INFINITE_DISTANCE, 1E8. */
  const INFINITE := 100_000_000

  /** `prev` is the position of the predecessor among the dequeued nodes, NO_PREV the null pointer. */
  datatype Record = Record(node: nat, prev: int)
  type SearchNode = Entry<Record>
  const NO_PREV := -1

  ghost predicate IsShortest(t: Track, start: nat, end: int, turns: seq<bool>)
    requires WellFormed(t) && start < |t|
  {
    && Joins(t, start, turns, end)
    && forall other :: Joins(t, start, other, end) ==> WalkLength(t, start, turns) <= WalkLength(t, start, other)
  }

  const QUEUED := -1

  /** The search so far: `order` lists the dequeued nodes, `pos` gives each node its position in
      `order` (or QUEUED), `dist` and `prev` label every node. */
  datatype Search = Search(order: seq<nat>, pos: seq<int>, dist: seq<int>, prev: seq<int>) {

    ghost predicate Sized(n: nat) {
      |pos| == |dist| == |prev| == n
    }

    ghost predicate Shape(t: Track) {
      && Sized(|t|)
      && (forall k :: 0 <= k < |order| ==> order[k] < |t| && pos[order[k]] == k)
      && (forall v :: 0 <= v < |t| && pos[v] != QUEUED ==> 0 <= pos[v] < |order| && order[pos[v]] == v)
    }

    ghost predicate Sorted(t: Track)
      requires Shape(t)
    {
      && (forall k, l :: 0 <= k < l < |order| ==> dist[order[k]] <= dist[order[l]])
      && (forall k, v :: 0 <= k < |order| && 0 <= v < |t| && pos[v] == QUEUED ==> dist[order[k]] <= dist[v])
    }

    ghost predicate Labelled(t: Track, start: nat, v: nat)
      requires Shape(t) && v < |t|
    {
      if v == start then dist[v] == 0 && prev[v] == NO_PREV
      else if prev[v] == NO_PREV then dist[v] == INFINITE
      else
        && 0 <= prev[v] < |order|
        && dist[v] < INFINITE
        && dist[order[prev[v]]] < INFINITE
        && Step(t, order[prev[v]], v, dist[v] - dist[order[prev[v]]])
    }

    ghost predicate Relaxed(t: Track, u: nat, c: bool)
      requires WellFormed(t) && Shape(t) && u < |t|
    {
      CanLeave(t, u, c) ==> dist[EdgeFrom(t, u, c).dest] <= dist[u] + EdgeFrom(t, u, c).dist
    }

    ghost predicate Inv(t: Track, start: nat)
      requires WellFormed(t) && start < |t|
    {
      && Shape(t)
      && Sorted(t)
      && (forall v :: 0 <= v < |t| ==> 0 <= dist[v] <= INFINITE)
      && (forall v {:trigger Labelled(t, start, v)} :: 0 <= v < |t| ==> Labelled(t, start, v))
      && (forall k :: 0 <= k < |order| ==> prev[order[k]] < k)
      && (order != [] ==> order[0] == start)
    }

    ghost predicate LastRelaxed(t: Track, c: bool)
      requires WellFormed(t) && Shape(t) && order != []
    {
      Relaxed(t, order[|order| - 1], c)
    }

    /** All edges out of the first `done` dequeued nodes have been used. */
    ghost predicate RelaxedUpTo(t: Track, done: nat)
      requires WellFormed(t) && Shape(t) && done <= |order|
    {
      forall k, c {:trigger Relaxed(t, order[k], c)} :: 0 <= k < done ==> Relaxed(t, order[k], c)
    }

    ghost function Node(v: nat): SearchNode
      requires v < |dist| && v < |prev|
    {
      Entry(dist[v], Record(v, prev[v]))
    }

    /** The search nodes that are still queued. */
    ghost function Queued(): set<SearchNode>
      requires Sized(|pos|)
    {
      set v: nat | v < |pos| && pos[v] == QUEUED :: Node(v)
    }

    /** Dequeues `v`. */
    ghost function Take(v: nat): Search
      requires v < |pos|
    {
      this.(order := order + [v], pos := pos[v := |order|])
    }

    /** Lowers the label of `v`, with the last dequeued node as its predecessor. */
    ghost function Lower(v: nat, d: int): Search
      requires v < |dist| == |prev|
    {
      this.(dist := dist[v := d], prev := prev[v := |order| - 1])
    }
  }

  lemma TakeKeepsShape(t: Track, s: Search, v: nat)
    requires s.Shape(t) && v < |t| && s.pos[v] == QUEUED
    ensures s.Take(v).Shape(t)
  {
  }

  lemma TakeKeepsOrder(t: Track, s: Search, v: nat)
    requires s.Shape(t) && s.Sorted(t)
    requires v < |t| && s.pos[v] == QUEUED && s.Take(v).Shape(t)
    requires forall x :: 0 <= x < |t| && s.pos[x] == QUEUED ==> s.dist[v] <= s.dist[x]
    ensures s.Take(v).Sorted(t)
  {
    var s' := s.Take(v);
    forall k, l | 0 <= k < l < |s'.order|
      ensures s'.dist[s'.order[k]] <= s'.dist[s'.order[l]]
    {
      assert s'.order[k] == s.order[k];
      if l < |s.order| {
        assert s'.order[l] == s.order[l];
      }
    }
    forall k, x | 0 <= k < |s'.order| && 0 <= x < |t| && s'.pos[x] == QUEUED
      ensures s'.dist[s'.order[k]] <= s'.dist[x]
    {
      assert s.pos[x] == QUEUED;
      if k < |s.order| {
        assert s'.order[k] == s.order[k];
      }
    }
  }

  lemma TakeKeepsLabels(t: Track, start: nat, s: Search, v: nat, x: nat)
    requires s.Shape(t) && v < |t| && s.Take(v).Shape(t) && x < |t| && s.Labelled(t, start, x)
    ensures s.Take(v).Labelled(t, start, x)
  {
  }

  lemma TakeQueued(s: Search, v: nat)
    requires s.Sized(|s.pos|) && v < |s.pos| && s.pos[v] == QUEUED
    ensures s.Take(v).Queued() == s.Queued() - {s.Node(v)}
  {
    forall e
      ensures e in s.Take(v).Queued() <==> e in s.Queued() - {s.Node(v)}
    {
      var x := e.value.node;
      if x < |s.pos| {
        assert s.Take(v).Node(x) == s.Node(x);
      }
    }
  }

  /** The start is dequeued first, and a node after its predecessor. */
  lemma TakeKeepsStart(t: Track, start: nat, s: Search, v: nat)
    requires WellFormed(t) && start < |t| && s.Inv(t, start) && v < |t|
    requires forall x :: 0 <= x < |t| && s.pos[x] == QUEUED ==> s.dist[v] <= s.dist[x]
    ensures s.Take(v).order[0] == start && s.prev[v] < |s.order|
  {
    assert s.Labelled(t, start, v) && s.Labelled(t, start, start);
    if s.order == [] {
      assert s.pos[start] == QUEUED;
    }
  }

  lemma TakeKeepsRelaxed(t: Track, s: Search, v: nat, u: nat, c: bool)
    requires WellFormed(t) && s.Shape(t) && v < |t| && s.Take(v).Shape(t) && u < |t| && s.Relaxed(t, u, c)
    ensures s.Take(v).Relaxed(t, u, c)
  {
  }

  lemma TakeKeepsInv(t: Track, start: nat, s: Search, v: nat)
    requires WellFormed(t) && start < |t| && s.Inv(t, start) && s.RelaxedUpTo(t, |s.order|)
    requires v < |t| && s.pos[v] == QUEUED
    requires forall x :: 0 <= x < |t| && s.pos[x] == QUEUED ==> s.dist[v] <= s.dist[x]
    ensures s.Take(v).Inv(t, start) && s.Take(v).RelaxedUpTo(t, |s.order|)
  {
    hide WellFormed, Search.Sorted, Search.Relaxed;
    var s' := s.Take(v);
    TakeKeepsShape(t, s, v);
    TakeKeepsOrder(t, s, v);
    forall x: nat | x < |t|
      ensures s'.Labelled(t, start, x)
    {
      assert s.Labelled(t, start, x);
      TakeKeepsLabels(t, start, s, v, x);
    }
    TakeKeepsStart(t, start, s, v);
    forall k, c | 0 <= k < |s.order|
      ensures s'.Relaxed(t, s'.order[k], c)
    {
      assert s.Relaxed(t, s.order[k], c);
      TakeKeepsRelaxed(t, s, v, s.order[k], c);
    }
  }

  lemma LowerKeepsOrder(t: Track, s: Search, v: nat, d: int)
    requires s.Shape(t) && s.Sorted(t) && s.order != []
    requires v < |t| && s.pos[v] == QUEUED
    requires s.dist[s.order[|s.order| - 1]] <= d
    ensures s.Lower(v, d).Shape(t) && s.Lower(v, d).Sorted(t)
  {
    var s' := s.Lower(v, d);
    forall k | 0 <= k < |s.order|
      ensures s'.dist[s.order[k]] == s.dist[s.order[k]] <= d
    {
      assert s.pos[s.order[k]] != QUEUED;
    }
  }

  lemma LowerQueued(s: Search, v: nat, d: int)
    requires s.Sized(|s.pos|) && v < |s.pos| && s.pos[v] == QUEUED
    ensures s.Lower(v, d).Queued() == s.Queued() - {s.Node(v)} + {s.Lower(v, d).Node(v)}
  {
    var s' := s.Lower(v, d);
    forall e
      ensures e in s'.Queued() <==> e in s.Queued() - {s.Node(v)} + {s'.Node(v)}
    {
      var x := e.value.node;
      if x < |s.dist| && x != v {
        assert s'.Node(x) == s.Node(x);
      }
    }
  }

  /** Edge `c` of the last dequeued node leads to the queued `v` and improves its label to `d`. */
  ghost predicate Lowers(t: Track, s: Search, c: bool, v: nat, d: int)
    requires s.Shape(t) && s.order != []
  {
    var u := s.order[|s.order| - 1];
    && v < |t| && s.pos[v] == QUEUED
    && CanLeave(t, u, c)
    && EdgeFrom(t, u, c).dest == v
    && d == s.dist[u] + EdgeFrom(t, u, c).dist < s.dist[v]
  }

  lemma LowerKeepsInv(t: Track, start: nat, s: Search, c: bool, v: nat, d: int)
    requires WellFormed(t) && start < |t| && s.Inv(t, start) && s.order != []
    requires Lowers(t, s, c, v, d)
    ensures s.Lower(v, d).Inv(t, start)
  {
    var s' := s.Lower(v, d);
    LowerKeepsOrder(t, s, v, d);
    LowerLabels(t, start, s, v, d, c);
    forall k | 0 <= k < |s.order|
      ensures s'.prev[s.order[k]] < k
    {
      assert s.pos[s.order[k]] != QUEUED;
    }
  }

  lemma LowerKeepsRelaxed(t: Track, s: Search, v: nat, d: int, k: nat, c: bool)
    requires WellFormed(t) && s.Shape(t) && v < |t| && s.Lower(v, d).Shape(t) && s.pos[v] == QUEUED
    requires d <= s.dist[v] && k < |s.order|
    ensures s.Relaxed(t, s.order[k], c) ==> s.Lower(v, d).Relaxed(t, s.order[k], c)
  {
    assert s.pos[s.order[k]] != QUEUED;
  }

  lemma LowerKeepsRelaxedUpTo(t: Track, s: Search, v: nat, d: int, done: nat)
    requires WellFormed(t) && s.Shape(t) && v < |t| && s.Lower(v, d).Shape(t) && s.pos[v] == QUEUED
    requires d <= s.dist[v] && done <= |s.order| && s.RelaxedUpTo(t, done)
    ensures s.Lower(v, d).RelaxedUpTo(t, done)
  {
    forall k, c | 0 <= k < done
      ensures s.Lower(v, d).Relaxed(t, s.order[k], c)
    {
      assert s.Relaxed(t, s.order[k], c);
      LowerKeepsRelaxed(t, s, v, d, k, c);
    }
  }

  lemma LowerKeepsLastRelaxed(t: Track, s: Search, c: bool, v: nat, d: int)
    requires WellFormed(t) && s.Shape(t) && s.order != [] && Lowers(t, s, c, v, d) && s.Lower(v, d).Shape(t)
    ensures s.Lower(v, d).LastRelaxed(t, c)
    ensures forall o :: s.LastRelaxed(t, o) ==> s.Lower(v, d).LastRelaxed(t, o)
  {
    var last := |s.order| - 1;
    assert s.pos[s.order[last]] != QUEUED;
    forall o
      ensures s.LastRelaxed(t, o) ==> s.Lower(v, d).LastRelaxed(t, o)
    {
      LowerKeepsRelaxed(t, s, v, d, last, o);
    }
  }

  lemma LowerLabels(t: Track, start: nat, s: Search, v: nat, d: int, c: bool)
    requires WellFormed(t) && start < |t| && s.Inv(t, start) && s.order != []
    requires Lowers(t, s, c, v, d)
    requires s.Lower(v, d).Shape(t)
    ensures forall x :: 0 <= x < |t| ==> 0 <= s.Lower(v, d).dist[x] <= INFINITE
    ensures forall x {:trigger s.Lower(v, d).Labelled(t, start, x)} :: 0 <= x < |t| ==> s.Lower(v, d).Labelled(t, start, x)
  {
    var u := s.order[|s.order| - 1];
    var s' := s.Lower(v, d);
    assert s.Labelled(t, start, v);
    assert s.pos[u] != QUEUED;
    forall x | 0 <= x < |t|
      ensures 0 <= s'.dist[x] <= INFINITE && s'.Labelled(t, start, x)
    {
      assert s.Labelled(t, start, x);
      if x == v {
        assert EdgeFrom(t, u, c) == Edge(v, d - s.dist[u]);
      } else if x != start && s.prev[x] != NO_PREV {
        assert s.pos[s.order[s.prev[x]]] != QUEUED;
      }
    }
  }

  /** An edge back to a dequeued node needs no work. */
  lemma DoneIsRelaxed(t: Track, start: nat, s: Search, c: bool)
    requires WellFormed(t) && start < |t| && s.Inv(t, start) && s.order != []
    requires var u := s.order[|s.order| - 1];
             CanLeave(t, u, c) ==>
               || s.pos[EdgeFrom(t, u, c).dest] != QUEUED
               || s.dist[EdgeFrom(t, u, c).dest] <= s.dist[u] + EdgeFrom(t, u, c).dist
    ensures s.LastRelaxed(t, c)
  {
    var u := s.order[|s.order| - 1];
    if CanLeave(t, u, c) && s.pos[EdgeFrom(t, u, c).dest] != QUEUED {
      var k := s.pos[EdgeFrom(t, u, c).dest];
      assert s.dist[s.order[k]] <= s.dist[u];
    }
  }

  /** When the queue is empty, no walk is shorter than the label of its end. */
  lemma {:induction false} LabelsAreLowerBounds(t: Track, s: Search, u: nat, turns: seq<bool>)
    requires WellFormed(t) && s.Shape(t) && u < |t| && IsWalk(t, u, turns)
    requires forall v, c {:trigger s.Relaxed(t, v, c)} :: 0 <= v < |t| ==> s.Relaxed(t, v, c)
    ensures s.dist[WalkEnd(t, u, turns)] <= s.dist[u] + WalkLength(t, u, turns)
    decreases |turns|
  {
    if turns != [] {
      assert s.Relaxed(t, u, turns[0]);
      LabelsAreLowerBounds(t, s, EdgeFrom(t, u, turns[0]).dest, turns[1..]);
    }
  }

  /** The dequeued node at position `k` was reached. */
  ghost predicate Reached(t: Track, start: nat, s: Search, k: nat)
    requires WellFormed(t) && start < |t| && s.Inv(t, start)
  {
    k < |s.order| && s.dist[s.order[k]] < INFINITE
  }

  /** The nodes on the chain of predecessors that ends at position `k`, in walking order. */
  ghost function Trail(t: Track, start: nat, s: Search, k: nat): (nodes: seq<int>)
    requires WellFormed(t) && start < |t| && s.Inv(t, start) && Reached(t, start, s, k)
    ensures 0 < |nodes| <= k + 1
  {
    assert s.Labelled(t, start, s.order[k]);
    if k == 0 then [s.order[0]] else Trail(t, start, s, s.prev[s.order[k]]) + [s.order[k]]
  }

  /** The chain is a walk whose length is the label ... */
  lemma {:induction false} TrailIsWalk(t: Track, start: nat, s: Search, k: nat) returns (turns: seq<bool>)
    requires WellFormed(t) && start < |t| && s.Inv(t, start) && Reached(t, start, s, k)
    ensures Joins(t, start, turns, s.order[k])
    ensures WalkLength(t, start, turns) == s.dist[s.order[k]]
    ensures WalkNodes(t, start, turns) == Trail(t, start, s, k)
  {
    var v := s.order[k];
    assert s.Labelled(t, start, v);
    if k == 0 {
      turns := [];
    } else {
      var p := s.prev[v];
      var u := s.order[p];
      var rest := TrailIsWalk(t, start, s, p);
      var c := !(CanLeave(t, u, false) && EdgeFrom(t, u, false) == Edge(v, s.dist[v] - s.dist[u]));
      WalkExtend(t, start, rest, c);
      turns := rest + [c];
    }
  }

  /** ... and visits no node twice, since positions strictly fall along it. */
  lemma {:induction false} TrailHasNoRepeats(t: Track, start: nat, s: Search, k: nat)
    requires WellFormed(t) && start < |t| && s.Inv(t, start) && Reached(t, start, s, k)
    ensures Distinct(Trail(t, start, s, k))
    ensures forall i :: 0 <= i < |Trail(t, start, s, k)| ==>
              exists l :: 0 <= l <= k && s.order[l] == Trail(t, start, s, k)[i]
  {
    assert s.Labelled(t, start, s.order[k]);
    if k > 0 {
      TrailHasNoRepeats(t, start, s, s.prev[s.order[k]]);
    }
  }

  /** What a finished search knows. */
  lemma SearchIsExact(t: Track, start: nat, s: Search, k: nat)
    requires WellFormed(t) && start < |t| && s.Inv(t, start) && k < |s.order|
    requires s.RelaxedUpTo(t, |s.order|)
    requires forall v :: 0 <= v < |t| ==> s.pos[v] != QUEUED
    ensures Reached(t, start, s, k) <==>
            exists turns :: Joins(t, start, turns, s.order[k]) && WalkLength(t, start, turns) < INFINITE
    ensures Reached(t, start, s, k) ==>
            && Distinct(Trail(t, start, s, k))
            && exists turns :: IsShortest(t, start, s.order[k], turns) && WalkNodes(t, start, turns) == Trail(t, start, s, k)
  {
    forall v, c | 0 <= v < |t|
      ensures s.Relaxed(t, v, c)
    {
      assert s.Relaxed(t, s.order[s.pos[v]], c);
    }
    assert s.Labelled(t, start, start);
    forall turns | Joins(t, start, turns, s.order[k])
      ensures s.dist[s.order[k]] <= WalkLength(t, start, turns)
    {
      LabelsAreLowerBounds(t, s, start, turns);
    }
    if Reached(t, start, s, k) {
      var turns := TrailIsWalk(t, start, s, k);
      assert IsShortest(t, start, s.order[k], turns);
      TrailHasNoRepeats(t, start, s, k);
    }
  }
}
