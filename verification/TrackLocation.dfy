/** Positions on the track: location_canonicalize and location_rebase of lib/track/track_data.c.
    Offsets are in 1/100 mm, edges in mm. */
module TrackLocation {
  import opened Basics
  import opened Track
  import opened TrackSearch

  datatype TurnoutState = Straight | Curved | Unknown

  const NUM_TURNOUTS := 22

  function TurnoutIndex(turnout: int): int {
    if turnout < 153 then turnout - 1 else turnout - 135
  }

  predicate IsTurnoutNumber(turnout: int) {
    1 <= turnout <= 18 || 153 <= turnout <= 156
  }

  /** A track together with the positions of its turnouts. */
  datatype Layout = Layout(t: Track, turnouts: seq<TurnoutState>) {
    ghost predicate Valid() {
      && WellFormed(t)
      && |turnouts| == NUM_TURNOUTS
      && forall u :: 0 <= u < |t| && t[u].kind == Branch ==> IsTurnoutNumber(t[u].num)
    }

    /** Which edge a train at `u` takes. */
    predicate TakesCurve(u: nat)
      requires Valid() && u < |t|
    {
      t[u].kind == Branch && turnouts[TurnoutIndex(t[u].num)] != Straight
    }

    /** track_node_next */
    function Next(u: nat): (v: int)
      requires Valid() && u < |t|
      ensures v == NO_NODE || 0 <= v < |t|
      ensures v == NO_NODE <==> !CanLeave(t, u, TakesCurve(u))
    {
      if CanLeave(t, u, TakesCurve(u)) then EdgeFrom(t, u, TakesCurve(u)).dest else NO_NODE
    }

    /** The distance the program measures from `u` to the next node. */
    function Gap(u: nat): (d: nat)
      requires Valid() && u < |t| && Next(u) != NO_NODE
    {
      EdgeIsFound(t, u, TakesCurve(u));
      100 * DistanceBetween(t, u, Next(u))
    }

    /** The node `k` steps after `u`, and how far that is. */
    ghost function After(u: nat, k: nat): (v: int)
      requires Valid() && u < |t|
      ensures v == NO_NODE || 0 <= v < |t|
      decreases k
    {
      if k == 0 then u else if Next(u) == NO_NODE then NO_NODE else After(Next(u), k - 1)
    }

    ghost function Walked(u: nat, k: nat): nat
      requires Valid() && u < |t| && After(u, k) != NO_NODE
      decreases k
    {
      if k == 0 then 0 else Gap(u) + Walked(Next(u), k - 1)
    }

    ghost predicate NoZeroCycle()
      requires Valid()
    {
      forall u, k {:trigger After(u, k)} :: 0 <= u < |t| && k > 0 && After(u, k) == u ==> Walked(u, k) > 0
    }
  }

  /** Where a turnout leads: straight on if it is set to Straight, else along the curve. Turnouts 1 to 18 are in slots
      0 to 17, turnouts 153 to 156 in slots 18 to 21. */
  lemma NextFollowsTurnouts(l: Layout, u: nat)
    requires l.Valid() && u < |l.t|
    ensures var n := l.t[u];
            l.Next(u) == match n.kind
              case Branch =>
                var slot := if n.num <= 18 then n.num - 1 else 18 + (n.num - 153);
                if l.turnouts[slot] == Straight then n.straight.dest else n.curved.dest
              case Sensor | Merge | Enter => n.straight.dest
              case _ => NO_NODE
  {
  }

  /** No two turnouts share a slot, and every slot has one. */
  lemma SlotsAreDistinct(slot: int)
    requires 0 <= slot < NUM_TURNOUTS
    ensures exists num {:trigger IsTurnoutNumber(num)} :: IsTurnoutNumber(num) && TurnoutIndex(num) == slot
    ensures forall m, n :: IsTurnoutNumber(m) && IsTurnoutNumber(n) && TurnoutIndex(m) == TurnoutIndex(n) ==> m == n
  {
    var num := if slot < 18 then slot + 1 else slot + 135;
    assert IsTurnoutNumber(num) && TurnoutIndex(num) == slot;
  }

  /** The search finds the end of an edge; its answer is the length of a walk. */
  lemma EdgeIsFound(t: Track, u: nat, c: bool)
    requires WellFormed(t) && u < |t| && CanLeave(t, u, c)
    ensures DistanceBetween(t, u, EdgeFrom(t, u, c).dest) >= 0
  {
    ConsWalk(t, u, c, []);
    assert [c] + [] == [c];
    DistanceSearchComplete(t, u, EdgeFrom(t, u, c).dest, 0, FIND_LIMIT, [c]);
  }

  /** When the measured distance is the length of the edge taken: always on a straight edge that is not
      a loop, and on a curved one unless the straight way round gives another answer first. */
  lemma GapIsEdgeLength(l: Layout, u: nat)
    requires l.Valid() && u < |l.t| && l.Next(u) != NO_NODE
    ensures var e := EdgeFrom(l.t, u, l.TakesCurve(u));
            var s := EdgeFrom(l.t, u, false);
            l.Gap(u) == 100 * e.dist <==>
              if e.dest == u then e.dist == 0
              else l.TakesCurve(u) ==>
                var around := DistanceSearch(l.t, s.dest, e.dest, s.dist, FIND_LIMIT - 1);
                around == -1 || around == e.dist
  {
    var s := EdgeFrom(l.t, u, false);
    if l.TakesCurve(u) && l.Next(u) != u && DistanceSearch(l.t, s.dest, l.Next(u), s.dist, FIND_LIMIT - 1) != -1 {
      var _ := DistanceSearchSound(l.t, s.dest, l.Next(u), s.dist, FIND_LIMIT - 1);
    }
  }

  lemma {:induction false} AfterAdds(l: Layout, u: nat, i: nat, j: nat)
    requires l.Valid() && u < |l.t| && l.After(u, i) != NO_NODE
    ensures l.After(u, i + j) == l.After(l.After(u, i), j)
    ensures l.After(u, i + j) != NO_NODE ==> l.Walked(u, i + j) == l.Walked(u, i) + l.Walked(l.After(u, i), j)
    decreases i
  {
    if i > 0 {
      AfterAdds(l, l.Next(u), i - 1, j);
      assert i + j - 1 == i - 1 + j;
    }
  }

  lemma {:induction false} AfterIsDefined(l: Layout, u: nat, i: nat, k: nat)
    requires l.Valid() && u < |l.t| && l.After(u, k) != NO_NODE && i <= k
    ensures l.After(u, i) != NO_NODE
    ensures l.Walked(u, i) <= l.Walked(u, k)
    decreases i
  {
    if i > 0 {
      AfterIsDefined(l, l.Next(u), i - 1, k - 1);
    }
  }

  // ---- what is measured against the edges of the track ----

  /** The edges that the turnouts lead over in `k` steps from `u`. */
  ghost function Turns(l: Layout, u: nat, k: nat): (turns: seq<bool>)
    requires l.Valid() && u < |l.t| && l.After(u, k) != NO_NODE
    ensures |turns| == k
    decreases k
  {
    if k == 0 then [] else [l.TakesCurve(u)] + Turns(l, l.Next(u), k - 1)
  }

  lemma {:induction false} TurnsJoin(l: Layout, u: nat, k: nat)
    requires l.Valid() && u < |l.t| && l.After(u, k) != NO_NODE
    ensures Joins(l.t, u, Turns(l, u, k), l.After(u, k))
    decreases k
  {
    if k > 0 {
      TurnsJoin(l, l.Next(u), k - 1);
      ConsWalk(l.t, u, l.TakesCurve(u), Turns(l, l.Next(u), k - 1));
    }
  }

  /** How long those edges are, in 1/100 mm. */
  ghost function TrackLength(l: Layout, u: nat, k: nat): nat
    requires l.Valid() && u < |l.t| && l.After(u, k) != NO_NODE
  {
    TurnsJoin(l, u, k);
    100 * WalkLength(l.t, u, Turns(l, u, k))
  }

  function EdgeTaken(l: Layout, u: nat): (e: Edge)
    requires l.Valid() && u < |l.t| && l.Next(u) != NO_NODE
    ensures e.dist >= 0
  {
    EdgeFrom(l.t, u, l.TakesCurve(u))
  }

  /** GapIsEdgeLength says when. */
  predicate MeasuredRight(l: Layout, u: nat)
    requires l.Valid() && u < |l.t| && l.Next(u) != NO_NODE
  {
    l.Gap(u) == 100 * EdgeTaken(l, u).dist
  }

  lemma {:induction false} TurnsExtend(l: Layout, u: nat, k: nat)
    requires l.Valid() && u < |l.t| && l.After(u, k + 1) != NO_NODE
    ensures l.After(u, k) != NO_NODE && l.After(u, k + 1) == l.Next(l.After(u, k))
    ensures Turns(l, u, k + 1) == Turns(l, u, k) + [l.TakesCurve(l.After(u, k))]
    decreases k
  {
    if k > 0 {
      TurnsExtend(l, l.Next(u), k - 1);
    }
  }

  /** A walk that takes the curve of a branch exactly where its turnout is not set to Straight. */
  ghost predicate ObeysTurnouts(l: Layout, u: nat, turns: seq<bool>)
    requires l.Valid() && u < |l.t| && IsWalk(l.t, u, turns)
    decreases |turns|
  {
    turns != [] ==>
      var n := l.t[u];
      && (turns[0] <==> n.kind == Branch && l.turnouts[if n.num <= 18 then n.num - 1 else 18 + (n.num - 153)] != Straight)
      && ObeysTurnouts(l, if turns[0] then n.curved.dest else n.straight.dest, turns[1..])
  }

  lemma {:induction false} TurnsObey(l: Layout, u: nat, k: nat)
    requires l.Valid() && u < |l.t| && l.After(u, k) != NO_NODE
    ensures Joins(l.t, u, Turns(l, u, k), l.After(u, k)) && ObeysTurnouts(l, u, Turns(l, u, k))
    decreases k
  {
    TurnsJoin(l, u, k);
    if k > 0 {
      TurnsObey(l, l.Next(u), k - 1);
      assert Turns(l, u, k)[1..] == Turns(l, l.Next(u), k - 1);
    }
  }

  /** One step more on the track and on the program's account of it. */
  lemma TrackStep(l: Layout, u: nat, k: nat)
    requires l.Valid() && u < |l.t| && l.After(u, k + 1) != NO_NODE
    ensures l.After(u, k) != NO_NODE && l.Next(l.After(u, k)) != NO_NODE
    ensures l.Walked(u, k + 1) == l.Walked(u, k) + l.Gap(l.After(u, k))
    ensures TrackLength(l, u, k + 1) == TrackLength(l, u, k) + 100 * EdgeTaken(l, l.After(u, k)).dist
  {
    TurnsExtend(l, u, k);
    var v := l.After(u, k);
    AfterAdds(l, u, k, 1);
    assert l.After(v, 1) == l.Next(v) && l.Walked(v, 1) == l.Gap(v);
    TurnsJoin(l, u, k);
    WalkExtend(l.t, u, Turns(l, u, k), l.TakesCurve(v));
  }

  ghost predicate RightSoFar(l: Layout, u: nat, k: nat)
    requires l.Valid() && u < |l.t| && l.After(u, k) != NO_NODE
  {
    forall i :: 0 <= i < k ==> l.After(u, i) != NO_NODE && l.Next(l.After(u, i)) != NO_NODE && MeasuredRight(l, l.After(u, i))
  }

  /** The account agrees with the track after every one of `k` steps exactly if every edge taken is measured right. */
  lemma {:induction false} WalkedIsTrackLength(l: Layout, u: nat, k: nat)
    requires l.Valid() && u < |l.t| && l.After(u, k) != NO_NODE
    ensures RightSoFar(l, u, k) <==>
            forall i :: 0 <= i <= k ==> l.After(u, i) != NO_NODE && l.Walked(u, i) == TrackLength(l, u, i)
    decreases k
  {
    if k > 0 {
      TrackStep(l, u, k - 1);
      WalkedIsTrackLength(l, u, k - 1);
      assert RightSoFar(l, u, k) <==> RightSoFar(l, u, k - 1) && MeasuredRight(l, l.After(u, k - 1));
    }
  }

  /** Steps of length zero from `u` on, counted up to `fuel`. */
  ghost function ZeroRun(l: Layout, u: nat, fuel: nat): (r: nat)
    requires l.Valid() && u < |l.t|
    ensures r <= fuel
    ensures l.After(u, r) != NO_NODE && l.Walked(u, r) == 0
    decreases fuel
  {
    if fuel == 0 || l.Next(u) == NO_NODE || l.Gap(u) > 0 then 0 else 1 + ZeroRun(l, l.Next(u), fuel - 1)
  }

  lemma {:induction false} ZeroRunIsStable(l: Layout, u: nat, fuel: nat)
    requires l.Valid() && u < |l.t| && ZeroRun(l, u, fuel) < fuel
    ensures ZeroRun(l, u, fuel + 1) == ZeroRun(l, u, fuel)
    decreases fuel
  {
    if l.Next(u) != NO_NODE && l.Gap(u) == 0 {
      ZeroRunIsStable(l, l.Next(u), fuel - 1);
    }
  }

  /** A run of zero steps as long as the track comes back to some node. */
  lemma LongZeroRunIsCycle(l: Layout, u: nat)
    requires l.Valid() && u < |l.t|
    requires l.After(u, |l.t|) != NO_NODE && l.Walked(u, |l.t|) == 0
    ensures !l.NoZeroCycle()
  {
    var n := |l.t|;
    forall i | 0 <= i <= n
      ensures l.After(u, i) != NO_NODE
    {
      AfterIsDefined(l, u, i, n);
    }
    var nodes := seq(n + 1, i requires 0 <= i <= n => l.After(u, i));
    if Distinct(nodes) {
      DistinctFit(nodes, n);
    }
    var i, j :| 0 <= i < j <= n && nodes[i] == nodes[j];
    AfterIsDefined(l, u, j, n);
    AfterAdds(l, u, i, j - i);
    assert l.After(nodes[i], j - i) == nodes[i];
  }

  lemma ZeroRunIsShort(l: Layout, u: nat)
    requires l.Valid() && u < |l.t| && l.NoZeroCycle()
    ensures ZeroRun(l, u, |l.t|) < |l.t|
  {
    if l.After(u, |l.t|) != NO_NODE && l.Walked(u, |l.t|) == 0 {
      LongZeroRunIsCycle(l, u);
    }
  }

  lemma ZeroStepShortensRun(l: Layout, u: nat)
    requires l.Valid() && u < |l.t| && l.NoZeroCycle() && l.Next(u) != NO_NODE && l.Gap(u) == 0
    ensures ZeroRun(l, l.Next(u), |l.t|) < ZeroRun(l, u, |l.t|)
  {
    ZeroRunIsShort(l, u);
    ZeroRunIsStable(l, l.Next(u), |l.t| - 1);
  }

  predicate IsCanonical(l: Layout, loc: Location)
    requires l.Valid() && 0 <= loc.node < |l.t|
  {
    l.Next(loc.node) == NO_NODE || loc.offset < l.Gap(loc.node)
  }

  function Advance(l: Layout, loc: Location): (r: Location)
    requires l.Valid() && 0 <= loc.node < |l.t| && !IsCanonical(l, loc)
    ensures 0 <= r.node < |l.t|
  {
    Location(l.Next(loc.node), loc.offset - l.Gap(loc.node))
  }

  /** The specification of location_canonicalize. */
  ghost function Canonical(l: Layout, loc: Location): (r: Location)
    requires l.Valid() && 0 <= loc.node < |l.t| && l.NoZeroCycle()
    ensures 0 <= r.node < |l.t| && IsCanonical(l, r)
    decreases if loc.offset < 0 then 0 else loc.offset, ZeroRun(l, loc.node, |l.t|)
  {
    if IsCanonical(l, loc) then loc
    else
      if l.Gap(loc.node) == 0 then ZeroStepShortensRun(l, loc.node); Canonical(l, Advance(l, loc))
      else Canonical(l, Advance(l, loc))
  }

  /** The loop of location_canonicalize makes at least `m` rounds. */
  ghost predicate Rounds(l: Layout, loc: Location, m: nat)
    requires l.Valid() && 0 <= loc.node < |l.t|
    decreases m
  {
    m > 0 ==> !IsCanonical(l, loc) && Rounds(l, Advance(l, loc), m - 1)
  }

  /** The same position, told from the node `k` steps further on. */
  ghost function Along(l: Layout, loc: Location, k: nat): (r: Location)
    requires l.Valid() && 0 <= loc.node < |l.t| && l.After(loc.node, k) != NO_NODE
    ensures 0 <= r.node < |l.t| && r.offset + l.Walked(loc.node, k) == loc.offset
  {
    Location(l.After(loc.node, k), loc.offset - l.Walked(loc.node, k))
  }

  /** Canonicalizing conserves the position ... */
  lemma {:induction false} CanonicalConserves(l: Layout, loc: Location) returns (k: nat)
    requires l.Valid() && 0 <= loc.node < |l.t| && l.NoZeroCycle()
    ensures l.After(loc.node, k) != NO_NODE && Canonical(l, loc) == Along(l, loc, k)
    ensures Rounds(l, loc, k)
    decreases if loc.offset < 0 then 0 else loc.offset, ZeroRun(l, loc.node, |l.t|)
  {
    k := 0;
    if !IsCanonical(l, loc) {
      if l.Gap(loc.node) == 0 {
        ZeroStepShortensRun(l, loc.node);
      }
      var rest := CanonicalConserves(l, Advance(l, loc));
      k := rest + 1;
    }
  }

  /** ... and stops at the first canonical location on the way. */
  lemma {:induction false} RoundsAreNotCanonical(l: Layout, loc: Location, k: nat, i: nat)
    requires l.Valid() && 0 <= loc.node < |l.t| && Rounds(l, loc, k) && i < k
    ensures l.After(loc.node, i) != NO_NODE && !IsCanonical(l, Along(l, loc, i))
    decreases k
  {
    if i > 0 {
      RoundsAreNotCanonical(l, Advance(l, loc), k - 1, i - 1);
    }
  }

  /** On the track itself the place is kept if the edges passed are measured right, and the program's account is
      right all the way only then. */
  lemma CanonicalKeepsPlace(l: Layout, loc: Location) returns (k: nat)
    requires l.Valid() && 0 <= loc.node < |l.t| && l.NoZeroCycle()
    ensures l.After(loc.node, k) == Canonical(l, loc).node && Rounds(l, loc, k)
    ensures Joins(l.t, loc.node, Turns(l, loc.node, k), Canonical(l, loc).node)
    ensures ObeysTurnouts(l, loc.node, Turns(l, loc.node, k))
    ensures RightSoFar(l, loc.node, k) ==> Canonical(l, loc).offset + TrackLength(l, loc.node, k) == loc.offset
    ensures RightSoFar(l, loc.node, k) <==>
            forall i :: 0 <= i <= k ==>
              l.After(loc.node, i) != NO_NODE && Along(l, loc, i).offset + TrackLength(l, loc.node, i) == loc.offset
  {
    k := CanonicalConserves(l, loc);
    WalkedIsTrackLength(l, loc.node, k);
    TurnsObey(l, loc.node, k);
  }

  /** The offset of the result lies before the next node, and not behind its own unless it was given so. */
  lemma CanonicalRange(l: Layout, loc: Location)
    requires l.Valid() && 0 <= loc.node < |l.t| && l.NoZeroCycle()
    ensures var r := Canonical(l, loc);
            && (l.Next(r.node) == NO_NODE || r.offset < 100 * DistanceBetween(l.t, r.node, l.Next(r.node)))
            && (loc.offset >= 0 ==> r.offset >= 0)
            && (loc.offset < 0 ==> r == loc)
  {
    var k := CanonicalConserves(l, loc);
    if k > 0 {
      RoundsAreNotCanonical(l, loc, k, k - 1);
      AfterAdds(l, loc.node, k - 1, 1);
      var v := l.After(loc.node, k - 1);
      assert l.After(v, 1) == l.Next(v) && l.Walked(v, 1) == l.Gap(v);
    }
  }

  function Moved(loc: Location, d: int): Location {
    loc.(offset := loc.offset + d)
  }

  lemma CanonicalIsIdempotent(l: Layout, loc: Location)
    requires l.Valid() && 0 <= loc.node < |l.t| && l.NoZeroCycle()
    ensures Canonical(l, Canonical(l, loc)) == Canonical(l, loc)
  {
  }

  /** Canonicalizing half-way does not matter: moving on by `d` afterwards ends in the same place. */
  lemma {:induction false} CanonicalComposes(l: Layout, loc: Location, d: nat)
    requires l.Valid() && 0 <= loc.node < |l.t| && l.NoZeroCycle()
    ensures Canonical(l, Moved(Canonical(l, loc), d)) == Canonical(l, Moved(loc, d))
    decreases if loc.offset < 0 then 0 else loc.offset, ZeroRun(l, loc.node, |l.t|)
  {
    if !IsCanonical(l, loc) {
      if l.Gap(loc.node) == 0 {
        ZeroStepShortensRun(l, loc.node);
      }
      CanonicalComposes(l, Advance(l, loc), d);
      assert !IsCanonical(l, Moved(loc, d));
      assert Advance(l, Moved(loc, d)) == Moved(Advance(l, loc), d);
    }
  }

  /** Moving by `x` and then by `y`, canonicalizing after each, is moving by `x + y` at once. */
  lemma MovesAddUp(l: Layout, loc: Location, x: int, y: nat)
    requires l.Valid() && 0 <= loc.node < |l.t| && l.NoZeroCycle()
    ensures Canonical(l, Moved(Canonical(l, Moved(loc, x)), y)) == Canonical(l, Moved(loc, x + y))
  {
    CanonicalComposes(l, Moved(loc, x), y);
    assert Moved(Moved(loc, x), y) == Moved(loc, x + y);
  }

  lemma {:induction false} RoundsAreBounded(l: Layout, loc: Location) returns (m: nat)
    requires l.Valid() && 0 <= loc.node < |l.t| && l.NoZeroCycle()
    ensures !Rounds(l, loc, m)
    decreases if loc.offset < 0 then 0 else loc.offset, ZeroRun(l, loc.node, |l.t|)
  {
    m := 1;
    if !IsCanonical(l, loc) {
      if l.Gap(loc.node) == 0 {
        ZeroStepShortensRun(l, loc.node);
      }
      var rest := RoundsAreBounded(l, Advance(l, loc));
      m := rest + 1;
    }
  }

  lemma {:induction false} ZeroCycleRunsForever(l: Layout, u: nat, k: nat, i: nat, m: nat)
    requires l.Valid() && u < |l.t| && i < k && l.After(u, k) == u && l.Walked(u, k) == 0
    requires l.After(u, i) != NO_NODE
    ensures Rounds(l, Location(l.After(u, i), 0), m)
    decreases m
  {
    if m > 0 {
      AfterIsDefined(l, u, i + 1, k);
      AfterAdds(l, u, i, 1);
      var v := l.After(u, i);
      assert l.After(v, 1) == l.Next(v) != NO_NODE && l.Walked(v, 1) == l.Gap(v);
      ZeroCycleRunsForever(l, u, k, if i + 1 == k then 0 else i + 1, m - 1);
    }
  }

  ghost predicate LoopEnds(l: Layout, loc: Location)
    requires l.Valid() && 0 <= loc.node < |l.t|
  {
    exists m: nat :: !Rounds(l, loc, m)
  }

  /** The loop ends from every location exactly when the turnouts close no cycle of length zero. */
  lemma TerminatesUnlessZeroCycle(l: Layout)
    requires l.Valid()
    ensures l.NoZeroCycle() <==> forall loc: Location :: 0 <= loc.node < |l.t| ==> LoopEnds(l, loc)
  {
    if l.NoZeroCycle() {
      forall loc: Location | 0 <= loc.node < |l.t|
        ensures LoopEnds(l, loc)
      {
        var m := RoundsAreBounded(l, loc);
      }
    } else {
      var u, k :| 0 <= u < |l.t| && k > 0 && l.After(u, k) == u && l.Walked(u, k) == 0;
      var loc := Location(u, 0);
      forall m: nat
        ensures Rounds(l, loc, m)
      {
        ZeroCycleRunsForever(l, u, k, 0, m);
      }
      assert !LoopEnds(l, loc);
    }
  }

  /** The C struct, which callers pass by address. */
  class LocationCell {
    var node: int
    var offset: int

    function Value(): Location
      reads this
    {
      Location(node, offset)
    }

    constructor (loc: Location)
      ensures Value() == loc
    {
      node, offset := loc.node, loc.offset;
    }

    method Set(loc: Location)
      modifies this
      ensures Value() == loc
    {
      node, offset := loc.node, loc.offset;
    }
  }

  method LocationCanonicalize(l: Layout, destination: LocationCell, source: LocationCell)
    requires l.Valid() && 0 <= source.node < |l.t| && l.NoZeroCycle()
    modifies destination
    ensures destination.Value() == Canonical(l, old(source.Value()))
  {
    var current := source.Value();
    var next := l.Next(current.node);
    if next != NO_NODE {
      var distance := l.Gap(current.node);
      while current.offset >= distance
        invariant 0 <= current.node < |l.t| && next == l.Next(current.node) != NO_NODE
        invariant distance == l.Gap(current.node)
        invariant Canonical(l, current) == Canonical(l, old(source.Value()))
        decreases current.offset, ZeroRun(l, current.node, |l.t|)
      {
        if distance == 0 {
          ZeroStepShortensRun(l, current.node);
        }
        current := Location(next, current.offset - distance);
        next := l.Next(current.node);
        if next == NO_NODE {
          break;
        }
        distance := l.Gap(current.node);
      }
    }
    destination.Set(current);
  }

  /** 0, -1 and -2 of location_rebase; AssertFailed is the failed assertion of distance_between_track_nodes. */
  datatype RebaseCode = Rebased | LimitReached | IllegalNode | AssertFailed

  /** location_reverse */
  function Reversed(l: Layout, loc: Location): (r: Location)
    requires l.Valid() && 0 <= loc.node < |l.t| && HasReverses(l.t)
    ensures 0 <= r.node < |l.t|
  {
    Location(l.t[loc.node].reverse, -loc.offset)
  }

  /** The node a train comes from: one step on the way back, turned round again. */
  function Previous(l: Layout, u: nat): (v: int)
    requires l.Valid() && u < |l.t| && HasReverses(l.t)
    ensures v == NO_NODE || 0 <= v < |l.t|
  {
    var n := l.Next(l.t[u].reverse);
    if n == NO_NODE then NO_NODE else l.t[n].reverse
  }

  /** What location_rebase leaves in its destination. */
  function Rebase(l: Layout, loc: Location, limit: int): (r: (RebaseCode, Location))
    requires l.Valid() && 0 <= loc.node < |l.t| && HasReverses(l.t)
    ensures 0 <= r.1.node < |l.t|
    decreases limit
  {
    if limit <= 0 then (LimitReached, loc)
    else
      var p := Previous(l, loc.node);
      if p == NO_NODE then (IllegalNode, loc)
      else if DistanceBetween(l.t, p, loc.node) == NO_DISTANCE then (AssertFailed, loc)
      else
        var back := Location(p, loc.offset + 100 * DistanceBetween(l.t, p, loc.node));
        if back.offset < 0 then Rebase(l, back, limit - 1) else (Rebased, back)
  }

  /** The destination may be the source. */
  method LocationRebase(l: Layout, destination: LocationCell, source: LocationCell, limit: int) returns (code: RebaseCode)
    requires l.Valid() && 0 <= source.node < |l.t| && HasReverses(l.t)
    modifies destination
    ensures code == Rebase(l, old(source.Value()), limit).0
    ensures limit > 0 && code != AssertFailed ==> destination.Value() == Rebase(l, old(source.Value()), limit).1
    ensures limit <= 0 ==> destination.Value() == old(destination.Value())
    decreases limit
  {
    if limit <= 0 {
      return LimitReached;
    }
    var rev := Reversed(l, source.Value());
    var n := l.Next(rev.node);
    if n == NO_NODE {
      destination.Set(source.Value());
      return IllegalNode;
    }
    var distance := DistanceBetween(l.t, l.t[n].reverse, source.node);
    if distance == NO_DISTANCE {
      return AssertFailed;
    }
    destination.offset := distance * 100 - rev.offset;
    destination.node := l.t[n].reverse;
    if destination.offset < 0 {
      code := LocationRebase(l, destination, destination, limit - 1);
    } else {
      return Rebased;
    }
  }

  /** Reversing twice gives the node back, and every edge has its counterpart in the other direction, of the
      same length. */
  ghost predicate ReverseClosed(l: Layout)
    requires l.Valid()
  {
    ReverseIsInvolution(l.t) && forall u, c {:trigger EdgeFrom(l.t, u, c)} :: 0 <= u < |l.t| && CanLeave(l.t, u, c) ==>
      var e := EdgeFrom(l.t, u, c);
      Step(l.t, l.t[e.dest].reverse, l.t[u].reverse, e.dist)
  }

  /** On such a track the way back can be measured. */
  lemma PreviousIsMeasured(l: Layout, u: nat)
    requires l.Valid() && u < |l.t| && ReverseClosed(l) && Previous(l, u) != NO_NODE
    ensures DistanceBetween(l.t, Previous(l, u), u) >= 0
  {
    var r := l.t[u].reverse;
    var e := EdgeFrom(l.t, r, l.TakesCurve(r));
    var p := l.t[e.dest].reverse;
    assert Step(l.t, p, u, e.dist);
    EdgeIsFound(l.t, p, !(CanLeave(l.t, p, false) && EdgeFrom(l.t, p, false) == Edge(u, e.dist)));
  }

  /** The node `k` steps back from `u`, and how far that is. */
  ghost function Before(l: Layout, u: nat, k: nat): (v: int)
    requires l.Valid() && u < |l.t| && HasReverses(l.t)
    ensures v == NO_NODE || 0 <= v < |l.t|
    decreases k
  {
    if k == 0 then u else if Previous(l, u) == NO_NODE then NO_NODE else Before(l, Previous(l, u), k - 1)
  }

  ghost function BackGap(l: Layout, u: nat): (d: nat)
    requires l.Valid() && u < |l.t| && ReverseClosed(l) && Previous(l, u) != NO_NODE
  {
    PreviousIsMeasured(l, u);
    100 * DistanceBetween(l.t, Previous(l, u), u)
  }

  ghost function WalkedBack(l: Layout, u: nat, k: nat): nat
    requires l.Valid() && u < |l.t| && ReverseClosed(l) && Before(l, u, k) != NO_NODE
    decreases k
  {
    if k == 0 then 0 else BackGap(l, u) + WalkedBack(l, Previous(l, u), k - 1)
  }

  // ---- the way back against the edges of the track ----

  /** `k` steps back are `k` steps of the reversed train, turned round. */
  lemma {:induction false} BeforeIsAfter(l: Layout, u: nat, k: nat)
    requires l.Valid() && u < |l.t| && ReverseClosed(l)
    ensures var v := l.After(l.t[u].reverse, k); Before(l, u, k) == if v == NO_NODE then NO_NODE else l.t[v].reverse
    decreases k
  {
    if k > 0 && Previous(l, u) != NO_NODE {
      BeforeIsAfter(l, Previous(l, u), k - 1);
      assert l.t[Previous(l, u)].reverse == l.Next(l.t[u].reverse);
    }
  }

  /** Some walk leads from there to `u` again, as long as the edges of the reversed train's way. */
  lemma {:induction false} WayBackLeadsBack(l: Layout, u: nat, k: nat) returns (turns: seq<bool>)
    requires l.Valid() && u < |l.t| && ReverseClosed(l) && Before(l, u, k) != NO_NODE
    ensures |turns| == k && Joins(l.t, Before(l, u, k), turns, u) && l.After(l.t[u].reverse, k) != NO_NODE
    ensures 100 * WalkLength(l.t, Before(l, u, k), turns) == TrackLength(l, l.t[u].reverse, k)
    decreases k
  {
    BeforeIsAfter(l, u, k);
    var r := l.t[u].reverse;
    turns := [];
    if k > 0 {
      AfterIsDefined(l, r, k - 1, k);
      BeforeIsAfter(l, u, k - 1);
      var rest := WayBackLeadsBack(l, u, k - 1);
      TrackStep(l, r, k - 1);
      TurnsExtend(l, r, k - 1);
      var v := l.After(r, k - 1);
      var e := EdgeTaken(l, v);
      var p := l.t[e.dest].reverse;
      var over := Before(l, u, k - 1);
      assert Step(l.t, p, over, e.dist);
      var c := !(CanLeave(l.t, p, false) && EdgeFrom(l.t, p, false) == Edge(over, e.dist));
      ConsWalk(l.t, p, c, rest);
      turns := [c] + rest;
    }
  }

  /** The step back over the edge by which the reversed train leaves. */
  predicate BackMeasuredRight(l: Layout, u: nat)
    requires l.Valid() && u < |l.t| && HasReverses(l.t) && Previous(l, u) != NO_NODE
  {
    DistanceBetween(l.t, Previous(l, u), u) == EdgeTaken(l, l.t[u].reverse).dist
  }

  /** ... is measured right unless the straight way from the previous node goes round. */
  lemma BackGapIsEdgeLength(l: Layout, u: nat)
    requires l.Valid() && u < |l.t| && ReverseClosed(l) && Previous(l, u) != NO_NODE
    ensures var p, e := Previous(l, u), EdgeTaken(l, l.t[u].reverse);
            var s := EdgeFrom(l.t, p, false);
            BackMeasuredRight(l, u) <==>
              if p == u then e.dist == 0
              else l.t[p].kind == Branch ==>
                var around := DistanceSearch(l.t, s.dest, u, s.dist, FIND_LIMIT - 1);
                around == -1 || around == e.dist
  {
    var p, e := Previous(l, u), EdgeTaken(l, l.t[u].reverse);
    assert Step(l.t, p, u, e.dist);
    var s := EdgeFrom(l.t, p, false);
    if l.t[p].kind == Branch && DistanceSearch(l.t, s.dest, u, s.dist, FIND_LIMIT - 1) != -1 {
      var _ := DistanceSearchSound(l.t, s.dest, u, s.dist, FIND_LIMIT - 1);
    }
  }

  ghost predicate RightSoFarBack(l: Layout, u: nat, k: nat)
    requires l.Valid() && u < |l.t| && ReverseClosed(l) && Before(l, u, k) != NO_NODE
  {
    forall i :: 0 <= i < k ==>
      Before(l, u, i) != NO_NODE && Previous(l, Before(l, u, i)) != NO_NODE && BackMeasuredRight(l, Before(l, u, i))
  }

  lemma BackTrackStep(l: Layout, u: nat, k: nat)
    requires l.Valid() && u < |l.t| && ReverseClosed(l) && Before(l, u, k + 1) != NO_NODE
    ensures Before(l, u, k) != NO_NODE && Previous(l, Before(l, u, k)) != NO_NODE
    ensures l.After(l.t[u].reverse, k + 1) != NO_NODE && l.After(l.t[u].reverse, k) != NO_NODE
    ensures WalkedBack(l, u, k + 1) == WalkedBack(l, u, k) + BackGap(l, Before(l, u, k))
    ensures TrackLength(l, l.t[u].reverse, k + 1) ==
            TrackLength(l, l.t[u].reverse, k) + 100 * EdgeTaken(l, l.t[Before(l, u, k)].reverse).dist
  {
    StepBack(l, u, k);
    BeforeIsAfter(l, u, k + 1);
    BeforeIsAfter(l, u, k);
    TrackStep(l, l.t[u].reverse, k);
  }

  /** The account of the way back agrees with the track after every one of `k` steps exactly if every step is
      measured right. */
  lemma {:induction false} WalkedBackIsTrackLength(l: Layout, u: nat, k: nat)
    requires l.Valid() && u < |l.t| && ReverseClosed(l) && Before(l, u, k) != NO_NODE
    ensures RightSoFarBack(l, u, k) <==>
            forall i :: 0 <= i <= k ==>
              && Before(l, u, i) != NO_NODE && l.After(l.t[u].reverse, i) != NO_NODE
              && WalkedBack(l, u, i) == TrackLength(l, l.t[u].reverse, i)
    decreases k
  {
    if k > 0 {
      BackTrackStep(l, u, k - 1);
      WalkedBackIsTrackLength(l, u, k - 1);
      assert RightSoFarBack(l, u, k) <==> RightSoFarBack(l, u, k - 1) && BackMeasuredRight(l, Before(l, u, k - 1));
    }
  }

  /** `k` steps back bring the offset to zero or above for the first time. */
  ghost predicate Lands(l: Layout, loc: Location, k: nat)
    requires l.Valid() && 0 <= loc.node < |l.t| && ReverseClosed(l)
  {
    && k > 0
    && Before(l, loc.node, k) != NO_NODE
    && loc.offset + WalkedBack(l, loc.node, k) >= 0
    && Before(l, loc.node, k - 1) != NO_NODE
    && loc.offset + WalkedBack(l, loc.node, k - 1) < 0
  }

  lemma {:induction false} StepBack(l: Layout, u: nat, k: nat)
    requires l.Valid() && u < |l.t| && ReverseClosed(l) && Before(l, u, k + 1) != NO_NODE
    ensures Before(l, u, k) != NO_NODE && Previous(l, Before(l, u, k)) == Before(l, u, k + 1)
    ensures WalkedBack(l, u, k + 1) == WalkedBack(l, u, k) + BackGap(l, Before(l, u, k))
    decreases k
  {
    if k > 0 {
      StepBack(l, Previous(l, u), k - 1);
    }
  }

  function BackOne(l: Layout, loc: Location): (r: Location)
    requires l.Valid() && 0 <= loc.node < |l.t| && HasReverses(l.t) && Previous(l, loc.node) != NO_NODE
    ensures 0 <= r.node < |l.t|
  {
    Location(Previous(l, loc.node), loc.offset + 100 * DistanceBetween(l.t, Previous(l, loc.node), loc.node))
  }

  /** A successful rebase conserves the position and lands. */
  lemma {:induction false} RebaseLands(l: Layout, loc: Location, limit: nat) returns (k: nat)
    requires l.Valid() && 0 <= loc.node < |l.t| && ReverseClosed(l) && loc.offset < 0
    requires Rebase(l, loc, limit).0 == Rebased
    ensures k <= limit && Lands(l, loc, k)
    ensures Rebase(l, loc, limit).1 == Location(Before(l, loc.node, k), loc.offset + WalkedBack(l, loc.node, k))
    decreases limit
  {
    PreviousIsMeasured(l, loc.node);
    var back := BackOne(l, loc);
    assert back.offset == loc.offset + BackGap(l, loc.node);
    if back.offset < 0 {
      var rest := RebaseLands(l, back, limit - 1);
      k := rest + 1;
    } else {
      k := 1;
      assert Before(l, loc.node, 1) == Before(l, back.node, 0);
      assert WalkedBack(l, loc.node, 1) == BackGap(l, loc.node) + WalkedBack(l, back.node, 0);
    }
  }

  /** On the track itself the place is kept if the steps back are measured right: the walk from the new node to the
      old one is as long as the offset has grown. */
  lemma RebaseKeepsPlace(l: Layout, loc: Location, limit: nat) returns (k: nat, turns: seq<bool>)
    requires l.Valid() && 0 <= loc.node < |l.t| && ReverseClosed(l) && loc.offset < 0
    requires Rebase(l, loc, limit).0 == Rebased
    ensures k <= limit && Lands(l, loc, k) && Before(l, loc.node, k) == Rebase(l, loc, limit).1.node
    ensures |turns| == k && Joins(l.t, Rebase(l, loc, limit).1.node, turns, loc.node)
    ensures l.After(l.t[loc.node].reverse, k) != NO_NODE
    ensures var start, end, back := l.t[loc.node].reverse, Rebase(l, loc, limit).1.node, Turns(l, l.t[loc.node].reverse, k);
            && Joins(l.t, start, back, l.t[end].reverse) && ObeysTurnouts(l, start, back)
            && WalkLength(l.t, start, back) == WalkLength(l.t, end, turns)
    ensures RightSoFarBack(l, loc.node, k) ==>
              Rebase(l, loc, limit).1.offset == loc.offset + 100 * WalkLength(l.t, Rebase(l, loc, limit).1.node, turns)
  {
    k := RebaseLands(l, loc, limit);
    turns := WayBackLeadsBack(l, loc.node, k);
    WalkedBackIsTrackLength(l, loc.node, k);
    BeforeIsAfter(l, loc.node, k);
    TurnsObey(l, l.t[loc.node].reverse, k);
  }

  lemma {:induction false} LandingRebases(l: Layout, loc: Location, limit: nat, k: nat)
    requires l.Valid() && 0 <= loc.node < |l.t| && ReverseClosed(l) && loc.offset < 0
    requires k <= limit && Lands(l, loc, k)
    ensures Rebase(l, loc, limit).0 == Rebased
    decreases limit
  {
    var back := BackOne(l, loc);
    assert back.offset == loc.offset + BackGap(l, loc.node);
    if k == 1 {
      assert WalkedBack(l, loc.node, 1) == BackGap(l, loc.node) + WalkedBack(l, back.node, 0);
    } else {
      assert WalkedBack(l, loc.node, k - 1) == BackGap(l, loc.node) + WalkedBack(l, back.node, k - 2);
      LandingRebases(l, back, limit - 1, k - 1);
    }
  }

  lemma {:induction false} RebaseNeverAsserts(l: Layout, loc: Location, limit: nat)
    requires l.Valid() && 0 <= loc.node < |l.t| && ReverseClosed(l)
    ensures Rebase(l, loc, limit).0 != AssertFailed
    decreases limit
  {
    if limit > 0 && Previous(l, loc.node) != NO_NODE {
      PreviousIsMeasured(l, loc.node);
      RebaseNeverAsserts(l, BackOne(l, loc), limit - 1);
    }
  }

  /** From a location that needs no rebasing it steps back all the same, once. */
  lemma RebaseStepsBackOnce(l: Layout, loc: Location, limit: nat)
    requires l.Valid() && 0 <= loc.node < |l.t| && ReverseClosed(l) && loc.offset >= 0
    requires limit > 0 && Previous(l, loc.node) != NO_NODE
    ensures Rebase(l, loc, limit) == (Rebased, Location(Previous(l, loc.node), loc.offset + BackGap(l, loc.node)))
  {
    PreviousIsMeasured(l, loc.node);
  }

  /** Some step back within the limit leads nowhere, and no landing comes before. */
  ghost predicate RunsOut(l: Layout, loc: Location, limit: int, k: nat)
    requires l.Valid() && 0 <= loc.node < |l.t| && ReverseClosed(l)
  {
    && k < limit && Before(l, loc.node, k) != NO_NODE && Before(l, loc.node, k + 1) == NO_NODE
    && (k > 0 ==> loc.offset + WalkedBack(l, loc.node, k) < 0)
  }

  lemma {:induction false} WalkedBackGrows(l: Layout, u: nat, i: nat, k: nat)
    requires l.Valid() && u < |l.t| && ReverseClosed(l) && i <= k && Before(l, u, k) != NO_NODE
    ensures Before(l, u, i) != NO_NODE && WalkedBack(l, u, i) <= WalkedBack(l, u, k)
    decreases k - i
  {
    if i < k {
      StepBack(l, u, k - 1);
      WalkedBackGrows(l, u, i, k - 1);
    }
  }

  /** -1 exactly if the limit is used up before a landing, with the location reached so far. */
  lemma {:induction false} LimitIsReached(l: Layout, loc: Location, limit: int)
    requires l.Valid() && 0 <= loc.node < |l.t| && ReverseClosed(l)
    ensures Rebase(l, loc, limit).0 == LimitReached <==>
            limit <= 0 || (Before(l, loc.node, limit) != NO_NODE && loc.offset + WalkedBack(l, loc.node, limit) < 0)
    ensures limit > 0 && Rebase(l, loc, limit).0 == LimitReached ==>
              Rebase(l, loc, limit).1 == Location(Before(l, loc.node, limit), loc.offset + WalkedBack(l, loc.node, limit))
    decreases limit
  {
    if limit > 0 && Previous(l, loc.node) != NO_NODE {
      PreviousIsMeasured(l, loc.node);
      var back := BackOne(l, loc);
      if limit == 1 {
        assert WalkedBack(l, loc.node, 1) == BackGap(l, loc.node) + WalkedBack(l, back.node, 0);
      }
      LimitIsReached(l, back, limit - 1);
    }
  }

  /** -2 exactly if the way back ends within the limit before a landing. */
  lemma {:induction false} WayBackRunsOut(l: Layout, loc: Location, limit: int)
    requires l.Valid() && 0 <= loc.node < |l.t| && ReverseClosed(l)
    ensures Rebase(l, loc, limit).0 == IllegalNode <==> exists k: nat :: RunsOut(l, loc, limit, k)
    decreases limit
  {
    if limit > 0 {
      if Previous(l, loc.node) == NO_NODE {
        assert Before(l, loc.node, 1) == NO_NODE;
        assert RunsOut(l, loc, limit, 0);
      } else {
        PreviousIsMeasured(l, loc.node);
        var back := BackOne(l, loc);
        WayBackRunsOut(l, back, limit - 1);
        if Rebase(l, loc, limit).0 == IllegalNode {
          var k: nat :| RunsOut(l, back, limit - 1, k);
          assert WalkedBack(l, loc.node, k + 1) == BackGap(l, loc.node) + WalkedBack(l, back.node, k);
          assert RunsOut(l, loc, limit, k + 1);
        }
        if k: nat :| RunsOut(l, loc, limit, k) {
          assert Before(l, loc.node, 1) == Previous(l, loc.node);
          assert k > 0;
          assert WalkedBack(l, loc.node, k) == BackGap(l, loc.node) + WalkedBack(l, back.node, k - 1);
          assert back.offset < 0;
          assert RunsOut(l, back, limit - 1, k - 1);
        }
      }
    }
  }

  /** Rebasing a location behind its node succeeds exactly when a landing lies within the limit. */
  lemma RebaseIsExact(l: Layout, loc: Location, limit: nat)
    requires l.Valid() && 0 <= loc.node < |l.t| && ReverseClosed(l) && loc.offset < 0
    ensures Rebase(l, loc, limit).0 == Rebased <==> exists k :: 1 <= k <= limit && Lands(l, loc, k)
  {
    if Rebase(l, loc, limit).0 == Rebased {
      var k := RebaseLands(l, loc, limit);
    }
    if k :| 1 <= k <= limit && Lands(l, loc, k) {
      LandingRebases(l, loc, limit, k);
    }
  }

  /** The result lies less than the last edge stepped over past the node it names; when the turnouts lead
      forward over that same edge it is already canonical. */
  lemma RebaseIsCanonical(l: Layout, loc: Location, limit: nat) returns (k: nat)
    requires l.Valid() && 0 <= loc.node < |l.t| && ReverseClosed(l) && loc.offset < 0
    requires Rebase(l, loc, limit).0 == Rebased
    ensures 1 <= k <= limit && Lands(l, loc, k)
    ensures var r := Rebase(l, loc, limit).1;
            var over := Before(l, loc.node, k - 1);
            && Previous(l, over) == r.node
            && 0 <= r.offset < BackGap(l, over)
            && (l.Next(r.node) == over ==> IsCanonical(l, r))
  {
    k := RebaseLands(l, loc, limit);
    StepBack(l, loc.node, k - 1);
  }
}
