/** The bounded depth-first searches of lib/track/track_data.c. */
module TrackSearch {
  import opened Track

  const FIND_LIMIT: nat := 5
  const REACHABLE_LIMIT: nat := 50

  function DistanceSearch(t: Track, start: nat, end: int, total: int, limit: nat): int
    requires WellFormed(t) && start < |t|
    decreases limit
  {
    if start == end then total
    else if limit == 0 then -1
    else match t[start].kind
      case Enter | Sensor | Merge =>
        var e := EdgeFrom(t, start, false);
        DistanceSearch(t, e.dest, end, total + e.dist, limit - 1)
      case Branch =>
        var e := EdgeFrom(t, start, false);
        var result := DistanceSearch(t, e.dest, end, total + e.dist, limit - 1);
        if result != -1 then result
        else
          var e := EdgeFrom(t, start, true);
          DistanceSearch(t, e.dest, end, total + e.dist, limit - 1)
      case _ => -1
  }

  predicate ReachableSearch(t: Track, start: nat, end: int, limit: nat)
    requires WellFormed(t) && start < |t|
    decreases limit
  {
    start == end ||
    (limit > 0 && match t[start].kind
      case Enter | Sensor | Merge => ReachableSearch(t, EdgeFrom(t, start, false).dest, end, limit - 1)
      case Branch =>
        || ReachableSearch(t, EdgeFrom(t, start, false).dest, end, limit - 1)
        || ReachableSearch(t, EdgeFrom(t, start, true).dest, end, limit - 1)
      case _ => false)
  }

  /** distance_between_track_nodes; NO_DISTANCE stands for its failed assertion. */
  const NO_DISTANCE := -1

  function DistanceBetween(t: Track, start: nat, end: int): int
    requires WellFormed(t) && start < |t|
  {
    if start == end then 0 else DistanceSearch(t, start, end, 0, FIND_LIMIT)
  }

  /** A walk from `start` to `end` of at most `limit` edges. */
  ghost predicate ShortWalk(t: Track, start: nat, end: int, limit: nat, turns: seq<bool>)
    requires WellFormed(t) && start < |t|
  {
    |turns| <= limit && Joins(t, start, turns, end)
  }

  /** The search answers with the length of a walk within the limit. */
  lemma {:induction false} DistanceSearchSound(t: Track, start: nat, end: int, total: nat, limit: nat)
      returns (turns: seq<bool>)
    requires WellFormed(t) && start < |t|
    requires DistanceSearch(t, start, end, total, limit) != -1
    ensures ShortWalk(t, start, end, limit, turns)
    ensures DistanceSearch(t, start, end, total, limit) == total + WalkLength(t, start, turns)
    decreases limit
  {
    if start == end {
      turns := [];
    } else {
      var s := EdgeFrom(t, start, false);
      var c := t[start].kind == Branch && DistanceSearch(t, s.dest, end, total + s.dist, limit - 1) == -1;
      var e := EdgeFrom(t, start, c);
      var rest := DistanceSearchSound(t, e.dest, end, total + e.dist, limit - 1);
      ConsWalk(t, start, c, rest);
      turns := [c] + rest;
    }
  }

  /** ... and never misses one. */
  lemma {:induction false} DistanceSearchComplete(t: Track, start: nat, end: int, total: nat, limit: nat, turns: seq<bool>)
    requires WellFormed(t) && start < |t| && ShortWalk(t, start, end, limit, turns)
    ensures DistanceSearch(t, start, end, total, limit) >= 0
    decreases limit
  {
    if start != end {
      var e := EdgeFrom(t, start, turns[0]);
      DistanceSearchComplete(t, e.dest, end, total + e.dist, limit - 1, turns[1..]);
      var s := EdgeFrom(t, start, false);
      if turns[0] && DistanceSearch(t, s.dest, end, total + s.dist, limit - 1) != -1 {
        var _ := DistanceSearchSound(t, s.dest, end, total + s.dist, limit - 1);
      }
    }
  }

  /** -1 exactly when no walk of at most `limit` edges exists, else the length of such a walk. */
  lemma DistanceSearchExact(t: Track, start: nat, end: int, total: nat, limit: nat)
    requires WellFormed(t) && start < |t|
    ensures var r := DistanceSearch(t, start, end, total, limit);
            && (r == -1 <==> forall turns :: !ShortWalk(t, start, end, limit, turns))
            && (r != -1 ==> exists turns :: ShortWalk(t, start, end, limit, turns) && r == total + WalkLength(t, start, turns))
  {
    if DistanceSearch(t, start, end, total, limit) != -1 {
      var turns := DistanceSearchSound(t, start, end, total, limit);
    } else {
      forall turns ensures !ShortWalk(t, start, end, limit, turns) {
        if ShortWalk(t, start, end, limit, turns) {
          DistanceSearchComplete(t, start, end, total, limit, turns);
        }
      }
    }
  }

  /** The yes/no search agrees with the measuring one. */
  lemma {:induction false} ReachableSearchAgrees(t: Track, start: nat, end: int, total: nat, limit: nat)
    requires WellFormed(t) && start < |t|
    ensures ReachableSearch(t, start, end, limit) <==> DistanceSearch(t, start, end, total, limit) != -1
    decreases limit
  {
    if start != end && limit > 0 {
      if CanLeave(t, start, false) {
        var e := EdgeFrom(t, start, false);
        ReachableSearchAgrees(t, e.dest, end, total + e.dist, limit - 1);
      }
      if CanLeave(t, start, true) {
        var e := EdgeFrom(t, start, true);
        ReachableSearchAgrees(t, e.dest, end, total + e.dist, limit - 1);
      }
    }
  }
}
