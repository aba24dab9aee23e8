/** Distances along a planned route (usr/train/train_util.c, and route_node_count, route_length and
    the request loop of usr/train/router.c). Lengths of edges are in mm, distances in 1/100 mm. */
module RouteDistance {
  import opened Basics
  import opened Track
  import opened ShortestPath
  import opened RoutePlanner

  const MAX_ROUTE_LENGTH := TRACK_MAX

  /** The length the program reads for the step from `u` to its successor `v` on a route. */
  function StepLength(t: Track, u: int, v: int): int {
    if !(0 <= u < |t|) then 0
    else match t[u].kind
      case Sensor | Merge | Enter => t[u].straight.dist
      case Branch => if v == t[u].straight.dest then t[u].straight.dist else t[u].curved.dist
      case _ => 0
  }

  ghost function LengthAlong(t: Track, nodes: seq<int>): int {
    if |nodes| <= 1 then 0 else StepLength(t, nodes[0], nodes[1]) + LengthAlong(t, nodes[1..])
  }

  /** The first position of `n` on the route, or its length. */
  ghost function Position(nodes: seq<int>, n: int): (i: nat)
    ensures i <= |nodes|
    ensures i < |nodes| ==> nodes[i] == n
    ensures forall j :: 0 <= j < i ==> nodes[j] != n
  {
    if nodes == [] || nodes[0] == n then 0 else 1 + Position(nodes[1..], n)
  }

  lemma {:induction false} LengthAlongSplits(t: Track, nodes: seq<int>, k: nat)
    requires k < |nodes|
    ensures LengthAlong(t, nodes) == LengthAlong(t, nodes[..k + 1]) + LengthAlong(t, nodes[k..])
  {
    if k > 0 {
      LengthAlongSplits(t, nodes[1..], k - 1);
      assert nodes[1..][..k] == nodes[..k + 1][1..];
      assert nodes[1..][k - 1..] == nodes[k..];
    }
  }

  lemma LengthBetween(t: Track, nodes: seq<int>, i: nat, k: nat)
    requires i <= k < |nodes|
    ensures LengthAlong(t, nodes[i..]) == LengthAlong(t, nodes[i..k + 1]) + LengthAlong(t, nodes[k..])
  {
    LengthAlongSplits(t, nodes[i..], k - i);
    assert nodes[i..][..k - i + 1] == nodes[i..k + 1];
    assert nodes[i..][k - i..] == nodes[k..];
  }

  /** One more step at the end of a stretch. */
  lemma LengthAlongStep(t: Track, nodes: seq<int>, i: nat, k: nat)
    requires i <= k && k + 1 < |nodes|
    ensures LengthAlong(t, nodes[i..k + 2]) == LengthAlong(t, nodes[i..k + 1]) + StepLength(t, nodes[k], nodes[k + 1])
  {
    var s := nodes[i..k + 2];
    LengthAlongSplits(t, s, k - i);
    assert s[..k - i + 1] == nodes[i..k + 1];
    assert s[k - i..] == [nodes[k], nodes[k + 1]];
    assert s[k - i..][1..] == [nodes[k + 1]];
  }

  lemma RouteSlots(route: seq<int>, nodes: seq<int>)
    requires RouteIs(route, nodes) && NO_NODE !in nodes
    ensures forall i :: 0 <= i < |nodes| ==> route[i] == nodes[i] != NO_NODE
  {
    assert forall i :: 0 <= i < |nodes| ==> route[..|nodes|][i] == nodes[i] && nodes[i] in nodes;
  }

  method RouteNodeCount(route: seq<int>, ghost nodes: seq<int>) returns (result: nat)
    requires RouteIs(route, nodes) && NO_NODE !in nodes
    ensures result == |nodes|
  {
    RouteSlots(route, nodes);
    result := 0;
    while route[result] != NO_NODE
      invariant result <= |nodes|
      decreases |nodes| - result
    {
      result := result + 1;
    }
  }

  method OnRoute(route: seq<int>, loc: Location, ghost nodes: seq<int>) returns (on: bool)
    requires RouteIs(route, nodes) && NO_NODE !in nodes
    ensures on <==> loc.node in nodes
  {
    RouteSlots(route, nodes);
    var c := 0;
    while route[c] != NO_NODE
      invariant c <= |nodes| && loc.node !in nodes[..c]
      decreases |nodes| - c
    {
      assert nodes[..c + 1] == nodes[..c] + [nodes[c]];
      if route[c] == loc.node {
        return true;
      }
      c := c + 1;
    }
    assert nodes[..c] == nodes;
    return false;
  }

  /** What is left of the route from a location: all edges from its first mention on, less its offset. */
  ghost function Remaining(t: Track, nodes: seq<int>, loc: Location): int {
    100 * LengthAlong(t, nodes[Position(nodes, loc.node)..]) - loc.offset
  }

  method GetRemainingDistInRoute(t: Track, route: seq<int>, loc: Location, ghost nodes: seq<int>) returns (dist: int)
    requires RouteIs(route, nodes) && NO_NODE !in nodes && nodes != []
    ensures dist == Remaining(t, nodes, loc)
  {
    RouteSlots(route, nodes);
    dist := 0;
    var passed := false;
    var c := 0;
    ghost var i := Position(nodes, loc.node);
    while route[c + 1] != NO_NODE
      invariant c < |nodes| && (passed <==> i < c)
      invariant passed ==> dist == 100 * LengthAlong(t, nodes[i..c + 1])
      invariant !passed ==> dist == 0
      decreases |nodes| - c
    {
      if route[c] == loc.node {
        passed := true;
      }
      if passed {
        LengthAlongStep(t, nodes, i, c);
        dist := dist + 100 * StepLength(t, route[c], route[c + 1]);
      }
      c := c + 1;
    }
    assert nodes[i..c + 1] == nodes[i..];
    return dist - loc.offset;
  }

  /** The distance from a location to the route position `end`. */
  ghost function DistanceTo(t: Track, nodes: seq<int>, loc: Location, end: nat): int
    requires end < |nodes|
  {
    var i := Position(nodes, loc.node);
    (if i <= end then 100 * LengthAlong(t, nodes[i..end + 1]) else 0) - loc.offset
  }

  method GetDistOnRoute(t: Track, route: seq<int>, loc: Location, end: nat, ghost nodes: seq<int>) returns (dist: int)
    requires RouteIs(route, nodes) && NO_NODE !in nodes && end < |nodes|
    ensures dist == DistanceTo(t, nodes, loc, end)
  {
    RouteSlots(route, nodes);
    dist := 0;
    var passed := false;
    var c := 0;
    ghost var i := Position(nodes, loc.node);
    while route[c] != NO_NODE && c != end
      invariant c <= end && (passed <==> i < c)
      invariant passed ==> dist == 100 * LengthAlong(t, nodes[i..c + 1])
      invariant !passed ==> dist == 0
      decreases end - c
    {
      if route[c] == loc.node {
        passed := true;
      }
      if passed {
        LengthAlongStep(t, nodes, i, c);
        dist := dist + 100 * StepLength(t, route[c], route[c + 1]);
      }
      c := c + 1;
    }
    return dist - loc.offset;
  }

  lemma FirstMention(nodes: seq<int>, n: int, k: nat)
    requires Distinct(nodes) && k < |nodes| && nodes[k] == n
    ensures Position(nodes, n) == k
  {
    var i := Position(nodes, n);
    assert i <= k;
    assert nodes[i] == nodes[k];
  }

  /** The way to a later point of the route plus what is left from there is what was left before. */
  lemma DistancesAddUp(t: Track, nodes: seq<int>, loc: Location, end: nat)
    requires Distinct(nodes) && end < |nodes| && Position(nodes, loc.node) <= end
    ensures DistanceTo(t, nodes, loc, end) + Remaining(t, nodes, Location(nodes[end], 0)) == Remaining(t, nodes, loc)
  {
    LengthBetween(t, nodes, Position(nodes, loc.node), end);
    FirstMention(nodes, nodes[end], end);
  }

  ghost function RouteLength(t: Track, nodes: seq<int>): int
    requires nodes != []
  {
    Remaining(t, nodes, Location(nodes[0], 0))
  }

  method ReadRouteLength(t: Track, route: seq<int>, ghost nodes: seq<int>) returns (length: int)
    requires RouteIs(route, nodes) && NO_NODE !in nodes && nodes != []
    ensures length == RouteLength(t, nodes)
  {
    assert route[0] == nodes[0];
    length := GetRemainingDistInRoute(t, route, Location(route[0], 0), nodes);
  }

  /** Reading a route back: between two nodes joined by both edges of a branch the program takes the
      straight one, the planner the shorter one. The two agree when this holds. */
  predicate StraightIsShorter(t: Track, u: int, v: int) {
    0 <= u < |t| && t[u].kind == Branch && t[u].straight.dest == v == t[u].curved.dest
    ==> t[u].straight.dist <= t[u].curved.dist
  }

  ghost predicate StraightIsShorterAlong(t: Track, nodes: seq<int>) {
    forall i :: 0 <= i < |nodes| - 1 ==> StraightIsShorter(t, nodes[i], nodes[i + 1])
  }

  /** By how much the straight edge is too long for one step, and for all steps of a route. */
  function Excess(t: Track, u: int, v: int): (d: nat)
    ensures d == 0 <==> StraightIsShorter(t, u, v)
  {
    if StraightIsShorter(t, u, v) then 0 else t[u].straight.dist - t[u].curved.dist
  }

  ghost function Detour(t: Track, nodes: seq<int>): nat {
    if |nodes| <= 1 then 0 else Excess(t, nodes[0], nodes[1]) + Detour(t, nodes[1..])
  }

  lemma {:induction false} NoDetour(t: Track, nodes: seq<int>)
    ensures Detour(t, nodes) == 0 <==> StraightIsShorterAlong(t, nodes)
  {
    if |nodes| > 1 {
      StepFirst(t, nodes);
      NoDetour(t, nodes[1..]);
    }
  }

  /** The first edge of a shortest walk is the shorter of two parallel ones, and the rest is shortest too. */
  lemma ShortestStep(t: Track, u: nat, end: int, turns: seq<bool>)
    requires WellFormed(t) && u < |t| && IsShortest(t, u, end, turns) && turns != []
    ensures IsShortest(t, EdgeFrom(t, u, turns[0]).dest, end, turns[1..])
    ensures CanLeave(t, u, !turns[0]) && EdgeFrom(t, u, !turns[0]).dest == EdgeFrom(t, u, turns[0]).dest
            ==> EdgeFrom(t, u, turns[0]).dist <= EdgeFrom(t, u, !turns[0]).dist
  {
    var v: nat := EdgeFrom(t, u, turns[0]).dest;
    forall other | Joins(t, v, other, end)
      ensures WalkLength(t, v, turns[1..]) <= WalkLength(t, v, other)
    {
      ConsWalk(t, u, turns[0], other);
      assert Joins(t, u, [turns[0]] + other, end);
    }
    if CanLeave(t, u, !turns[0]) && EdgeFrom(t, u, !turns[0]).dest == v {
      ConsWalk(t, u, !turns[0], turns[1..]);
      assert Joins(t, u, [!turns[0]] + turns[1..], end);
    }
  }

  /** The length read back from a shortest route is too large by its detour. */
  lemma {:induction false} LengthReadBack(t: Track, u: nat, end: int, turns: seq<bool>)
    requires WellFormed(t) && u < |t| && IsShortest(t, u, end, turns)
    ensures LengthAlong(t, WalkNodes(t, u, turns)) == WalkLength(t, u, turns) + Detour(t, WalkNodes(t, u, turns))
    decreases |turns|
  {
    if turns != [] {
      var v: nat := EdgeFrom(t, u, turns[0]).dest;
      var rest := WalkNodes(t, v, turns[1..]);
      var nodes := WalkNodes(t, u, turns);
      assert nodes == [u] + rest && nodes[1..] == rest && rest[0] == v;
      ShortestStep(t, u, end, turns);
      LengthReadBack(t, v, end, turns[1..]);
      assert StepLength(t, u, v) == EdgeFrom(t, u, turns[0]).dist + Excess(t, u, v);
    }
  }

  /** After a shortest walk's first `k` edges a shortest walk is left. */
  lemma {:induction false} ShortestTail(t: Track, u: nat, end: int, turns: seq<bool>, k: nat) returns (v: nat)
    requires WellFormed(t) && u < |t| && IsShortest(t, u, end, turns) && k <= |turns|
    ensures v < |t| && v == WalkNodes(t, u, turns)[k] && IsShortest(t, v, end, turns[k..])
    ensures WalkNodes(t, v, turns[k..]) == WalkNodes(t, u, turns)[k..]
    decreases k
  {
    if k == 0 {
      v := u;
      assert turns[0..] == turns;
    } else {
      ShortestStep(t, u, end, turns);
      v := ShortestTail(t, EdgeFrom(t, u, turns[0]).dest, end, turns[1..], k - 1);
      assert turns[1..][k - 1..] == turns[k..];
      assert WalkNodes(t, u, turns) == [u] + WalkNodes(t, EdgeFrom(t, u, turns[0]).dest, turns[1..]);
    }
  }

  /** On a planned route, what the program reads as left from a location past one of its nodes is the least distance
      from that node to the end (and the detour of the rest), less the offset. */
  lemma RemainingIsLeast(t: Track, start: nat, end: int, nodes: seq<int>, k: nat, offset: int) returns (rest: seq<bool>)
    requires WellFormed(t) && start < |t| && IsShortestRoute(t, start, end, nodes) && k < |nodes|
    ensures 0 <= nodes[k] < |t| && IsShortest(t, nodes[k], end, rest)
    ensures Remaining(t, nodes, Location(nodes[k], offset)) ==
            100 * (WalkLength(t, nodes[k], rest) + Detour(t, nodes[k..])) - offset
  {
    var turns :| IsShortest(t, start, end, turns) && WalkNodes(t, start, turns) == nodes;
    var v := ShortestTail(t, start, end, turns, k);
    rest := turns[k..];
    LengthReadBack(t, v, end, rest);
    FirstMention(nodes, nodes[k], k);
  }

  /** From a location off the route the program reads its offset, negated. */
  lemma RemainingOffRoute(t: Track, nodes: seq<int>, loc: Location)
    requires loc.node !in nodes
    ensures Remaining(t, nodes, loc) == -loc.offset
  {
    assert Position(nodes, loc.node) == |nodes|;
  }

  /** So it does to a slot that does not come after the location. */
  lemma DistanceBehind(t: Track, nodes: seq<int>, loc: Location, end: nat)
    requires end < |nodes| && end <= Position(nodes, loc.node)
    ensures DistanceTo(t, nodes, loc, end) == -loc.offset
  {
    assert |nodes[end..end + 1]| == 1;
  }

  lemma StepFirst(t: Track, nodes: seq<int>)
    requires |nodes| > 1
    ensures StraightIsShorterAlong(t, nodes) <==> StraightIsShorter(t, nodes[0], nodes[1]) && StraightIsShorterAlong(t, nodes[1..])
  {
    var rest := nodes[1..];
    if StraightIsShorter(t, nodes[0], nodes[1]) && StraightIsShorterAlong(t, rest) {
      forall i | 0 <= i < |nodes| - 1
        ensures StraightIsShorter(t, nodes[i], nodes[i + 1])
      {
        if i > 0 {
          assert StraightIsShorter(t, rest[i - 1], rest[i]);
        }
      }
    }
    if StraightIsShorterAlong(t, nodes) {
      forall i | 0 <= i < |rest| - 1
        ensures StraightIsShorter(t, rest[i], rest[i + 1])
      {
        assert StraightIsShorter(t, nodes[i + 1], nodes[i + 2]);
      }
    }
  }

  /** On a planned route, route_length is 100 times the least distance and the detour, so that it is exact
      when no straight edge on it is longer than a parallel curved one, and only then. */
  lemma RouteLengthIsLeast(t: Track, start: nat, end: int, nodes: seq<int>, best: seq<bool>)
    requires WellFormed(t) && start < |t| && IsShortestRoute(t, start, end, nodes)
    requires IsShortest(t, start, end, best)
    ensures RouteLength(t, nodes) == 100 * (WalkLength(t, start, best) + Detour(t, nodes))
    ensures RouteLength(t, nodes) == 100 * WalkLength(t, start, best) <==> StraightIsShorterAlong(t, nodes)
  {
    var turns :| IsShortest(t, start, end, turns) && WalkNodes(t, start, turns) == nodes;
    LengthReadBack(t, start, end, turns);
    NoDetour(t, nodes);
    assert nodes[0..] == nodes;
  }
}
