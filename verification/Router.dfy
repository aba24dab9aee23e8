/** The router task (usr/train/router.c), and how the bounded searches compare with its planner. */
module Router {
  import opened Track
  import opened TrackSearch
  import opened ShortestPath
  import opened RoutePlanner
  import opened RouteDistance

  /** The buffer holds a shortest route to `end`. */
  ghost predicate Planned(t: Track, start: nat, end: int, route: seq<int>)
    requires WellFormed(t) && start < |t|
  {
    exists nodes :: RouteIs(route, nodes) && IsShortestRoute(t, start, end, nodes)
  }

  ghost function PlannedNodes(t: Track, start: nat, end: int, route: seq<int>): (nodes: seq<int>)
    requires WellFormed(t) && start < |t| && Planned(t, start, end, route)
    ensures RouteIs(route, nodes) && IsShortestRoute(t, start, end, nodes) && nodes != [] && NO_NODE !in nodes
  {
    var nodes :| RouteIs(route, nodes) && IsShortestRoute(t, start, end, nodes);
    assert nodes != [] && NO_NODE !in nodes by {
      var turns :| IsShortest(t, start, end, turns) && WalkNodes(t, start, turns) == nodes;
      WalkStaysOnTrack(t, start, turns);
    }
    nodes
  }

  /** The routes planned to the end (if it is in reach) and to its reverse, and the buffer with the one that
      route_length calls shorter; on a tie that is the one to the reverse. */
  ghost predicate Chosen(t: Track, start: nat, end: nat, route: seq<int>, forwards: seq<int>, backwards: seq<int>)
    requires WellFormed(t) && start < |t| && end < |t|
  {
    var there, back := InReach(t, start, end), InReach(t, start, t[end].reverse);
    && (there || back)
    && (there ==> forwards != [] && IsShortestRoute(t, start, end, forwards))
    && (back ==> backwards != [] && IsShortestRoute(t, start, t[end].reverse, backwards))
    && RouteIs(route, if there && (back ==> ReadsShorter(t, forwards, backwards)) then forwards else backwards)
  }

  ghost predicate ReadsShorter(t: Track, nodes: seq<int>, others: seq<int>) {
    nodes != [] && others != [] && RouteLength(t, nodes) < RouteLength(t, others)
  }

  /** The route chosen of two is the shorter one exactly if it reads shorter even without the detours; for that it
      is enough that no straight edge of the rejected route is longer than a parallel curved one. */
  lemma ChoiceIsShortest(t: Track, start: nat, end: nat, forwards: seq<int>, backwards: seq<int>,
                         there: seq<bool>, back: seq<bool>)
    requires WellFormed(t) && start < |t| && end < |t| && forwards != [] && backwards != []
    requires IsShortestRoute(t, start, end, forwards) && IsShortest(t, start, end, there)
    requires IsShortestRoute(t, start, t[end].reverse, backwards) && IsShortest(t, start, t[end].reverse, back)
    ensures ReadsShorter(t, forwards, backwards) ==>
              && (WalkLength(t, start, there) <= WalkLength(t, start, back) <==>
                  RouteLength(t, forwards) - 100 * Detour(t, forwards) <= RouteLength(t, backwards) - 100 * Detour(t, backwards))
              && (StraightIsShorterAlong(t, backwards) ==> WalkLength(t, start, there) < WalkLength(t, start, back))
    ensures !ReadsShorter(t, forwards, backwards) ==>
              && (WalkLength(t, start, back) <= WalkLength(t, start, there) <==>
                  RouteLength(t, backwards) - 100 * Detour(t, backwards) <= RouteLength(t, forwards) - 100 * Detour(t, forwards))
              && (StraightIsShorterAlong(t, forwards) ==> WalkLength(t, start, back) <= WalkLength(t, start, there))
  {
    RouteLengthIsLeast(t, start, end, forwards, there);
    RouteLengthIsLeast(t, start, t[end].reverse, backwards, back);
    NoDetour(t, forwards);
    NoDetour(t, backwards);
  }

  /** A branch whose straight edge makes a detour to the end (node 2), and another way to its reverse (node 3). */
  function Trap(): Track {
    var nowhere := Edge(NO_NODE, 0);
    [TrackNode(Branch, 1, 0, Edge(1, 5), Edge(3, 100)), TrackNode(Branch, 2, 1, Edge(2, 1000), Edge(2, 1)),
     TrackNode(Exit, 3, 3, nowhere, nowhere), TrackNode(Exit, 4, 2, nowhere, nowhere)]
  }

  lemma TrapIsTrack()
    ensures WellFormed(Trap())
  {
  }

  /** All its walks from node 0. */
  lemma TrapWalk(turns: seq<bool>)
    requires WellFormed(Trap()) && IsWalk(Trap(), 0, turns)
    ensures turns == [] || turns == [true] || (1 <= |turns| <= 2 && !turns[0])
    ensures WalkEnd(Trap(), 0, turns) == (if turns == [] then 0 else if turns[0] then 3 else |turns|)
    ensures WalkLength(Trap(), 0, turns) ==
            if turns == [] then 0 else if turns[0] then 100 else if |turns| == 1 then 5 else if turns[1] then 6 else 1005
  {
    var t := Trap();
    if turns != [] {
      var rest := turns[1..];
      if turns[0] {
        assert IsWalk(t, 3, rest);
      } else {
        assert IsWalk(t, 1, rest);
        assert WalkEnd(t, 0, turns) == WalkEnd(t, 1, rest);
        assert WalkLength(t, 0, turns) == 5 + WalkLength(t, 1, rest);
        if rest != [] {
          assert IsWalk(t, 2, rest[1..]);
          assert WalkEnd(t, 1, rest) == WalkEnd(t, 2, rest[1..]);
          assert WalkLength(t, 1, rest) == (if rest[0] then 1 else 1000) + WalkLength(t, 2, rest[1..]);
        }
      }
    }
  }

  lemma TrapForwards()
    requires WellFormed(Trap())
    ensures IsShortest(Trap(), 0, 2, [false, true]) && WalkLength(Trap(), 0, [false, true]) == 6
    ensures IsShortestRoute(Trap(), 0, 2, [0, 1, 2])
  {
    var t := Trap();
    var w := [false, true];
    assert WalkNodes(t, 2, []) == [2];
    ConsWalk(t, 1, true, []);
    assert [true] + [] == [true] && [true][1..] == [];
    assert WalkNodes(t, 1, [true]) == [1, 2];
    ConsWalk(t, 0, false, [true]);
    assert [false] + [true] == w && w[1..] == [true];
    assert WalkNodes(t, 0, w) == [0, 1, 2];
    forall other | Joins(t, 0, other, 2)
      ensures WalkLength(t, 0, w) <= WalkLength(t, 0, other)
    {
      TrapWalk(other);
    }
  }

  lemma TrapBackwards()
    requires WellFormed(Trap())
    ensures IsShortest(Trap(), 0, 3, [true]) && WalkLength(Trap(), 0, [true]) == 100
    ensures IsShortestRoute(Trap(), 0, 3, [0, 3])
  {
    var t := Trap();
    assert WalkNodes(t, 3, []) == [3];
    ConsWalk(t, 0, true, []);
    assert [true] + [] == [true] && [true][1..] == [];
    assert WalkNodes(t, 0, [true]) == [0, 3];
    forall other | Joins(t, 0, other, 3)
      ensures WalkLength(t, 0, [true]) <= WalkLength(t, 0, other)
    {
      TrapWalk(other);
    }
  }

  /** The condition is needed: here the router takes the way of 100 mm and rejects the one of 6 mm. */
  lemma LongerRouteChosen()
    ensures var t := Trap();
            && WellFormed(t) && t[2].reverse == 3 && !ReadsShorter(t, [0, 1, 2], [0, 3])
            && IsShortestRoute(t, 0, 2, [0, 1, 2]) && IsShortest(t, 0, 2, [false, true]) && WalkLength(t, 0, [false, true]) == 6
            && IsShortestRoute(t, 0, 3, [0, 3]) && IsShortest(t, 0, 3, [true]) && WalkLength(t, 0, [true]) == 100
  {
    hide IsShortest, IsShortestRoute, Joins, WellFormed;
    TrapIsTrack();
    TrapForwards();
    TrapBackwards();
    RouteLengthIsLeast(Trap(), 0, 2, [0, 1, 2], [false, true]);
    RouteLengthIsLeast(Trap(), 0, 3, [0, 3], [true]);
    assert [0, 1, 2][1..] == [1, 2] && [1, 2][1..] == [2] && [0, 3][1..] == [3];
    assert Detour(Trap(), [1, 2]) == 999;
    assert Detour(Trap(), [0, 3]) == 0;
  }

  method CopyRoute(from: array<int>, to: array<int>)
    requires from.Length == to.Length == MAX_ROUTE_LENGTH && from != to
    modifies to
    ensures to[..] == from[..]
  {
    for i := 0 to MAX_ROUTE_LENGTH
      invariant to[..i] == from[..i]
    {
      to[i] := from[i];
    }
    assert to[..] == to[..MAX_ROUTE_LENGTH] == from[..MAX_ROUTE_LENGTH] == from[..];
  }

  /** One MESSAGE_GET_ROUTE: plans to the end and to its reverse and keeps the shorter route.
      `true` stands for REPLY_GET_ROUTE_OK. */
  method GetRoute(t: Track, start: nat, end: nat, route: array<int>) returns (ok: bool)
    requires WellFormed(t) && start < |t| <= TRACK_MAX && end < |t| && route.Length == MAX_ROUTE_LENGTH
    requires 0 <= t[end].reverse < |t|
    requires RoutesFit(t, start, end, MAX_ROUTE_LENGTH) && RoutesFit(t, start, t[end].reverse, MAX_ROUTE_LENGTH)
    modifies route
    ensures ok <==> InReach(t, start, end) || InReach(t, start, t[end].reverse)
    ensures ok ==> exists forwards, backwards :: Chosen(t, start, end, route[..], forwards, backwards)
  {
    hide WellFormed, InReach, IsShortestRoute, RouteLength, RoutesFit;
    var forwards := new int[MAX_ROUTE_LENGTH];
    var backwards := new int[MAX_ROUTE_LENGTH];
    var there := PlanRoute(t, start, end, forwards);
    var back := PlanRoute(t, start, t[end].reverse, backwards);
    ghost var f, b := [], [];
    if there {
      f := PlannedNodes(t, start, end, forwards[..]);
    }
    if back {
      b := PlannedNodes(t, start, t[end].reverse, backwards[..]);
    }

    var useForwards := there;
    if !there && !back {
      return false;
    } else if there && back {
      var forwardLength := ReadRouteLength(t, forwards[..], f);
      var backwardLength := ReadRouteLength(t, backwards[..], b);
      useForwards := forwardLength < backwardLength;
    }
    CopyRoute(if useForwards then forwards else backwards, route);
    assert Chosen(t, start, end, route[..], f, b);
    return true;
  }

  /** The bounded search never finds a walk shorter than the planner's. */
  lemma SearchIsNoShorter(t: Track, start: nat, end: int, best: seq<bool>, limit: nat)
    requires WellFormed(t) && start < |t| && IsShortest(t, start, end, best)
    requires DistanceSearch(t, start, end, 0, limit) != -1
    ensures WalkLength(t, start, best) <= DistanceSearch(t, start, end, 0, limit)
  {
    var turns := DistanceSearchSound(t, start, end, 0, limit);
  }

  /** sensor_reachable, for two sensors given by their nodes. */
  predicate SensorReachable(t: Track, start: nat, end: nat)
    requires WellFormed(t) && start < |t| && t[start].kind == Sensor
  {
    start == end || ReachableSearch(t, EdgeFrom(t, start, false).dest, end, REACHABLE_LIMIT)
  }

  /** It says yes exactly if the sensors are the same or a walk of at most 51 edges leads there. */
  lemma SensorReachableExact(t: Track, start: nat, end: nat)
    requires WellFormed(t) && start < |t| && t[start].kind == Sensor
    ensures SensorReachable(t, start, end) <==>
            start == end || exists turns :: 1 <= |turns| <= 51 && Joins(t, start, turns, end)
  {
    if SensorReachable(t, start, end) {
      var turns := ReachableWalk(t, start, end);
      assert start != end ==> 1 <= |turns| <= 51;
    }
    if turns :| 1 <= |turns| <= 51 && Joins(t, start, turns, end) {
      var v: nat := EdgeFrom(t, start, false).dest;
      assert turns[0] == false && ShortWalk(t, v, end, REACHABLE_LIMIT, turns[1..]);
      DistanceSearchComplete(t, v, end, 0, REACHABLE_LIMIT, turns[1..]);
      ReachableSearchAgrees(t, v, end, 0, REACHABLE_LIMIT);
    }
  }

  ghost predicate EdgesAtMost(t: Track, bound: int) {
    forall u, c {:trigger EdgeFrom(t, u, c)} :: 0 <= u < |t| && CanLeave(t, u, c) ==> EdgeFrom(t, u, c).dist <= bound
  }

  lemma {:induction false} ShortEdgesShortWalk(t: Track, u: nat, turns: seq<bool>, bound: nat)
    requires WellFormed(t) && u < |t| && IsWalk(t, u, turns) && EdgesAtMost(t, bound)
    ensures WalkLength(t, u, turns) <= bound * |turns|
    decreases |turns|
  {
    if turns != [] {
      ShortEdgesShortWalk(t, EdgeFrom(t, u, turns[0]).dest, turns[1..], bound);
    }
  }

  lemma ReachableWalk(t: Track, start: nat, end: nat) returns (turns: seq<bool>)
    requires WellFormed(t) && start < |t| && t[start].kind == Sensor && SensorReachable(t, start, end)
    ensures Joins(t, start, turns, end) && |turns| <= REACHABLE_LIMIT + 1
  {
    turns := [];
    if start != end {
      var v: nat := EdgeFrom(t, start, false).dest;
      ReachableSearchAgrees(t, v, end, 0, REACHABLE_LIMIT);
      var rest := DistanceSearchSound(t, v, end, 0, REACHABLE_LIMIT);
      ConsWalk(t, start, false, rest);
      turns := [false] + rest;
    }
  }

  const LONGEST_SAFE_EDGE: nat := (INFINITE - 1) / (REACHABLE_LIMIT + 1)

  lemma SafeLength(edges: nat)
    requires edges <= REACHABLE_LIMIT + 1
    ensures LONGEST_SAFE_EDGE * edges < INFINITE
  {
    assert LONGEST_SAFE_EDGE * edges <= LONGEST_SAFE_EDGE * (REACHABLE_LIMIT + 1);
  }

  /** What the yes/no search can reach, the planner can too, unless 51 edges can add up to 1E8 mm. */
  lemma ReachableIsPlanned(t: Track, start: nat, end: nat)
    requires WellFormed(t) && start < |t| && t[start].kind == Sensor
    requires EdgesAtMost(t, LONGEST_SAFE_EDGE) && SensorReachable(t, start, end)
    ensures InReach(t, start, end)
  {
    var turns := ReachableWalk(t, start, end);
    ShortEdgesShortWalk(t, start, turns, LONGEST_SAFE_EDGE);
    SafeLength(|turns|);
  }
}
