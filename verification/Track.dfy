/** The track graph (lib/track/track_node.h) and walks on it. A node is named by its index in the
    track array, which is what the program's node pointers denote; NO_NODE is the null pointer. */
module Track {
  import opened Basics

  datatype NodeType = Unused | Sensor | Branch | Merge | Enter | Exit

  datatype Edge = Edge(dest: int, dist: int)

  /** `straight` is edge[DIR_AHEAD] (= edge[DIR_STRAIGHT]), `curved` is edge[DIR_CURVED]. */
  datatype TrackNode = TrackNode(kind: NodeType, num: int, reverse: int, straight: Edge, curved: Edge)

  type Track = seq<TrackNode>

  const NO_NODE := -1
  const TRACK_MAX := 144
  /** The longest edge for which adding it to a planner distance cannot overflow an `int`. */
  const MAX_EDGE := INT32_MAX - 100_000_000

  /** A point `offset` 1/100 mm past a node. */
  datatype Location = Location(node: int, offset: int)

  predicate GoesAhead(n: TrackNode) {
    n.kind in {Sensor, Merge, Enter}
  }

  /** Whether a train can leave node `u` by its straight (respectively curved) edge. */
  predicate CanLeave(t: Track, u: nat, curved: bool)
    requires u < |t|
  {
    t[u].kind == Branch || (GoesAhead(t[u]) && !curved)
  }

  function EdgeFrom(t: Track, u: nat, curved: bool): Edge
    requires u < |t|
  {
    if curved then t[u].curved else t[u].straight
  }

  predicate EdgeInTrack(t: Track, e: Edge) {
    0 <= e.dest < |t| && 0 <= e.dist <= MAX_EDGE
  }

  /** Every edge a train can take stays on the track and has a sensible length. */
  ghost predicate WellFormed(t: Track) {
    forall u, c {:trigger EdgeFrom(t, u, c)} :: 0 <= u < |t| && CanLeave(t, u, c) ==> EdgeInTrack(t, EdgeFrom(t, u, c))
  }

  /** No node is without its reverse. */
  ghost predicate HasReverses(t: Track) {
    forall u {:trigger t[u].reverse} :: 0 <= u < |t| ==> 0 <= t[u].reverse < |t|
  }

  /** Reversing twice gives the node back. */
  ghost predicate ReverseIsInvolution(t: Track) {
    HasReverses(t) && forall u {:trigger t[u].reverse} :: 0 <= u < |t| ==> t[t[u].reverse].reverse == u
  }

  /** A walk is the list of the edges taken (true for the curved one), so that two parallel edges
      of a branch are told apart. */
  ghost predicate IsWalk(t: Track, u: nat, turns: seq<bool>)
    requires WellFormed(t) && u < |t|
    decreases |turns|
  {
    turns != [] ==> CanLeave(t, u, turns[0]) && IsWalk(t, EdgeFrom(t, u, turns[0]).dest, turns[1..])
  }

  ghost function WalkEnd(t: Track, u: nat, turns: seq<bool>): (v: nat)
    requires WellFormed(t) && u < |t| && IsWalk(t, u, turns)
    ensures v < |t|
    decreases |turns|
  {
    if turns == [] then u else WalkEnd(t, EdgeFrom(t, u, turns[0]).dest, turns[1..])
  }

  ghost function WalkLength(t: Track, u: nat, turns: seq<bool>): nat
    requires WellFormed(t) && u < |t| && IsWalk(t, u, turns)
    decreases |turns|
  {
    if turns == [] then 0
    else EdgeFrom(t, u, turns[0]).dist + WalkLength(t, EdgeFrom(t, u, turns[0]).dest, turns[1..])
  }

  /** The nodes visited, the first and the last included. */
  ghost function WalkNodes(t: Track, u: nat, turns: seq<bool>): (nodes: seq<int>)
    requires WellFormed(t) && u < |t| && IsWalk(t, u, turns)
    ensures |nodes| == |turns| + 1
    decreases |turns|
  {
    [u] + if turns == [] then [] else WalkNodes(t, EdgeFrom(t, u, turns[0]).dest, turns[1..])
  }

  ghost predicate Joins(t: Track, u: nat, turns: seq<bool>, v: int)
    requires WellFormed(t) && u < |t|
  {
    IsWalk(t, u, turns) && WalkEnd(t, u, turns) == v
  }

  /** `v` is one edge of length `w` after `u`. */
  ghost predicate Step(t: Track, u: nat, v: int, w: int)
    requires u < |t|
  {
    || (CanLeave(t, u, false) && EdgeFrom(t, u, false) == Edge(v, w))
    || (CanLeave(t, u, true) && EdgeFrom(t, u, true) == Edge(v, w))
  }

  /** Distinct numbers below `n` are at most `n` many. */
  lemma {:induction false} DistinctFit(nodes: seq<int>, n: nat)
    requires Distinct(nodes) && forall x <- nodes :: 0 <= x < n
    ensures |nodes| <= n
    decreases n
  {
    if nodes == [] {
    } else if i :| 0 <= i < |nodes| && nodes[i] == n - 1 {
      assert nodes[i] in nodes;
      var rest := nodes[..i] + nodes[i + 1..];
      assert forall x <- rest :: x in nodes && x != n - 1;
      DistinctFit(rest, n - 1);
    } else {
      assert nodes[0] in nodes;
      DistinctFit(nodes, n - 1);
    }
  }

  lemma {:induction false} WalkStaysOnTrack(t: Track, u: nat, turns: seq<bool>)
    requires WellFormed(t) && u < |t| && IsWalk(t, u, turns)
    ensures forall x <- WalkNodes(t, u, turns) :: 0 <= x < |t|
    decreases |turns|
  {
    if turns != [] {
      WalkStaysOnTrack(t, EdgeFrom(t, u, turns[0]).dest, turns[1..]);
    }
  }

  /** One more edge at the start of a walk. */
  lemma ConsWalk(t: Track, u: nat, c: bool, turns: seq<bool>)
    requires WellFormed(t) && u < |t| && CanLeave(t, u, c) && IsWalk(t, EdgeFrom(t, u, c).dest, turns)
    ensures var v := EdgeFrom(t, u, c).dest;
            && IsWalk(t, u, [c] + turns)
            && WalkEnd(t, u, [c] + turns) == WalkEnd(t, v, turns)
            && WalkLength(t, u, [c] + turns) == EdgeFrom(t, u, c).dist + WalkLength(t, v, turns)
  {
    assert ([c] + turns)[1..] == turns;
  }

  /** One more edge at the end of a walk. */
  lemma {:induction false} WalkExtend(t: Track, u: nat, turns: seq<bool>, c: bool)
    requires WellFormed(t) && u < |t| && IsWalk(t, u, turns) && CanLeave(t, WalkEnd(t, u, turns), c)
    ensures var e := EdgeFrom(t, WalkEnd(t, u, turns), c);
            && IsWalk(t, u, turns + [c])
            && WalkEnd(t, u, turns + [c]) == e.dest
            && WalkLength(t, u, turns + [c]) == WalkLength(t, u, turns) + e.dist
            && WalkNodes(t, u, turns + [c]) == WalkNodes(t, u, turns) + [e.dest]
    decreases |turns|
  {
    if turns == [] {
      assert turns + [c] == [c] && [c][1..] == [];
    } else {
      var v := EdgeFrom(t, u, turns[0]).dest;
      WalkExtend(t, v, turns[1..], c);
      assert (turns + [c])[1..] == turns[1..] + [c];
    }
  }
}
