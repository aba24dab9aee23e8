/** The track reservation server (usr/train/track_reservation_server.c), as a table of locks on the
    physical edges of the track. */
module ReservationServer {
  import opened Track

  const NOT_RESERVED := 5678
  const RESPONSE_OK := 0
  const RESPONSE_NO_SUCH_EDGE := -1
  const RESPONSE_NOT_RESERVED := -2
  const RESPONSE_ALREADY_RESERVED := -2
  const MAX_RESERVATIONS_RETURNED := 30

  /** node_follows */
  predicate NodeFollows(t: Track, start: nat, end: int)
    requires start < |t|
  {
    end == t[start].straight.dest || end == t[start].curved.dest
  }

  type PhysicalEdge = set<(int, int)>

  /** An edge and the same piece of track run the other way. */
  ghost function Physical(t: Track, start: nat, end: nat): PhysicalEdge
    requires ReverseIsInvolution(t) && start < |t| && end < |t|
  {
    {(start, end), (t[end].reverse, t[start].reverse)}
  }

  /** Two entries of the table stand for the same piece of track only if they are equal or reverses. */
  lemma SamePhysical(t: Track, s: nat, e: nat, u: nat, v: nat)
    requires ReverseIsInvolution(t) && s < |t| && e < |t| && u < |t| && v < |t|
    ensures Physical(t, s, e) == Physical(t, u, v) <==> (u, v) == (s, e) || (u, v) == (t[e].reverse, t[s].reverse)
  {
    assert (u, v) in Physical(t, u, v);
    assert t[t[s].reverse].reverse == s && t[t[e].reverse].reverse == e;
  }

  /** Who holds which piece of track. */
  type Locks = map<PhysicalEdge, int>

  ghost function Holder(locks: Locks, e: PhysicalEdge): int {
    if e in locks then locks[e] else NOT_RESERVED
  }

  ghost function WithHolder(locks: Locks, e: PhysicalEdge, train: int): Locks {
    if train == NOT_RESERVED then locks - {e} else locks[e := train]
  }

  datatype Request =
    | Make(train: int, start: nat, end: nat)
    | Drop(train: int, start: nat, end: nat)
    | DropAll(train: int)

  ghost predicate InTrack(t: Track, r: Request) {
    r.DropAll? || (r.start < |t| && r.end < |t|)
  }

  /** The lock table after a request, and the response (DropAll gets an empty reply). */
  ghost function Serve(t: Track, locks: Locks, r: Request): (Locks, int)
    requires ReverseIsInvolution(t) && InTrack(t, r)
  {
    if r.DropAll? then (map e | e in locks && locks[e] != r.train :: locks[e], RESPONSE_OK)
    else if !NodeFollows(t, r.start, r.end) then (locks, RESPONSE_NO_SUCH_EDGE)
    else
      var e := Physical(t, r.start, r.end);
      if r.Make? then
        if Holder(locks, e) == NOT_RESERVED then (WithHolder(locks, e, r.train), RESPONSE_OK)
        else (locks, RESPONSE_ALREADY_RESERVED)
      else
        if Holder(locks, e) == r.train then (WithHolder(locks, e, NOT_RESERVED), RESPONSE_OK)
        else (locks, RESPONSE_NOT_RESERVED)
  }

  /** MAKE is granted exactly if an edge of `start` leads to `end` and nobody holds that piece of track, and
      otherwise changes nothing. */
  lemma MakeIsGranted(t: Track, locks: Locks, train: int, start: nat, end: nat)
    requires ReverseIsInvolution(t) && start < |t| && end < |t|
    requires train != NOT_RESERVED && forall x <- locks :: locks[x] != NOT_RESERVED
    ensures var (after, response) := Serve(t, locks, Make(train, start, end));
            var edge, track := exists c :: EdgeFrom(t, start, c).dest == end, {(start, end), (t[end].reverse, t[start].reverse)};
            && (response == 0 <==> edge && track !in locks)
            && (response == -1 <==> !edge)
            && (response == -2 <==> edge && track in locks)
            && after == if response == 0 then locks[track := train] else locks
  {
    LeadsTo(t, start, end);
  }

  /** DROP is answered with 0 exactly if such an edge exists and the train holds it. */
  lemma DropIsGranted(t: Track, locks: Locks, train: int, start: nat, end: nat)
    requires ReverseIsInvolution(t) && start < |t| && end < |t|
    requires train != NOT_RESERVED && forall x <- locks :: locks[x] != NOT_RESERVED
    ensures var (after, response) := Serve(t, locks, Drop(train, start, end));
            var edge, track := exists c :: EdgeFrom(t, start, c).dest == end, {(start, end), (t[end].reverse, t[start].reverse)};
            && (response == 0 <==> edge && track in locks && locks[track] == train)
            && (response == -1 <==> !edge)
            && (response == -2 <==> edge && !(track in locks && locks[track] == train))
            && after == if response == 0 then locks - {track} else locks
  {
    LeadsTo(t, start, end);
  }

  lemma LeadsTo(t: Track, start: nat, end: int)
    requires start < |t|
    ensures NodeFollows(t, start, end) <==> exists c :: EdgeFrom(t, start, c).dest == end
  {
    if NodeFollows(t, start, end) {
      assert EdgeFrom(t, start, end != t[start].straight.dest).dest == end;
    }
  }

  /** `train` gives up edge `e` by request `r`. */
  ghost predicate Releases(t: Track, r: Request, e: PhysicalEdge, train: int)
    requires ReverseIsInvolution(t) && InTrack(t, r)
  {
    r.train == train && (r.DropAll? || (r.Drop? && NodeFollows(t, r.start, r.end) && Physical(t, r.start, r.end) == e))
  }

  /** A lock passes only from nobody to the train that asked for it, and from its holder to nobody. */
  lemma OnlyHolderReleases(t: Track, locks: Locks, r: Request, e: PhysicalEdge)
    requires ReverseIsInvolution(t) && InTrack(t, r) && r.train != NOT_RESERVED
    requires forall x <- locks :: locks[x] != NOT_RESERVED
    ensures var before, after := Holder(locks, e), Holder(Serve(t, locks, r).0, e);
            && (before != NOT_RESERVED ==> after == if Releases(t, r, e, before) then NOT_RESERVED else before)
            && (before == NOT_RESERVED && after != NOT_RESERVED ==>
                  && r == Make(after, r.start, r.end)
                  && Physical(t, r.start, r.end) == e
                  && Serve(t, locks, r).1 == RESPONSE_OK)
  {
  }

  ghost predicate IsRun(t: Track, states: seq<Locks>, requests: seq<Request>)
    requires ReverseIsInvolution(t)
  {
    && |states| == |requests| + 1
    && states[0] == map[]
    && forall i :: 0 <= i < |requests| ==>
         InTrack(t, requests[i]) && requests[i].train != NOT_RESERVED && states[i + 1] == Serve(t, states[i], requests[i]).0
  }

  lemma {:induction false} LocksAreHeld(t: Track, states: seq<Locks>, requests: seq<Request>, i: nat)
    requires ReverseIsInvolution(t) && IsRun(t, states, requests) && i < |states|
    ensures forall x <- states[i] :: states[i][x] != NOT_RESERVED
  {
    if i > 0 {
      LocksAreHeld(t, states, requests, i - 1);
      assert states[i] == Serve(t, states[i - 1], requests[i - 1]).0;
    }
  }

  /** Over every run, a train keeps an edge until it gives it up itself, whatever others ask for. */
  lemma {:induction false} HeldUntilReleased(t: Track, states: seq<Locks>, requests: seq<Request>, e: PhysicalEdge, i: nat, j: nat)
    requires ReverseIsInvolution(t) && IsRun(t, states, requests) && i <= j < |states|
    requires Holder(states[i], e) != NOT_RESERVED
    requires forall k :: i <= k < j ==> InTrack(t, requests[k]) && !Releases(t, requests[k], e, Holder(states[i], e))
    ensures Holder(states[j], e) == Holder(states[i], e)
  {
    if i < j {
      HeldUntilReleased(t, states, requests, e, i, j - 1);
      LocksAreHeld(t, states, requests, j - 1);
      OnlyHolderReleases(t, states[j - 1], requests[j - 1], e);
    }
  }

  /** Asking for a free edge and giving it back leaves the locks as they were. */
  lemma MakeThenDrop(t: Track, locks: Locks, train: int, start: nat, end: nat)
    requires ReverseIsInvolution(t) && start < |t| && end < |t| && train != NOT_RESERVED
    requires forall x <- locks :: locks[x] != NOT_RESERVED
    requires Serve(t, locks, Make(train, start, end)).1 == RESPONSE_OK
    ensures Serve(t, Serve(t, locks, Make(train, start, end)).0, Drop(train, start, end)) == (locks, RESPONSE_OK)
  {
    var e := Physical(t, start, end);
    assert locks[e := train] - {e} == locks;
  }

  lemma DropAllHolder(t: Track, locks: Locks, train: int, e: PhysicalEdge)
    requires ReverseIsInvolution(t)
    ensures Holder(Serve(t, locks, DropAll(train)).0, e) == if Holder(locks, e) == train then NOT_RESERVED else Holder(locks, e)
  {
  }

  function Encode(i: nat, j: nat): nat {
    i * TRACK_MAX + j
  }

  lemma DecodeEncoded(i: nat, j: nat)
    requires j < TRACK_MAX
    ensures Encode(i, j) / TRACK_MAX == i && Encode(i, j) % TRACK_MAX == j
  {
  }

  class Server {
    const t: Track
    const reservedBy: array2<int>
    ghost var locks: Locks

    /** The table is the lock table: every entry of the track holds the holder of its piece of track. */
    ghost predicate Valid()
      reads this, reservedBy
    {
      && ReverseIsInvolution(t) && |t| <= TRACK_MAX
      && reservedBy.Length0 == reservedBy.Length1 == TRACK_MAX
      && (forall s, e :: 0 <= s < |t| && 0 <= e < |t| ==> reservedBy[s, e] == Holder(locks, Physical(t, s, e)))
      && (forall s, e :: 0 <= s < TRACK_MAX && 0 <= e < TRACK_MAX && (s >= |t| || e >= |t|) ==> reservedBy[s, e] == NOT_RESERVED)
      && (forall x <- locks :: locks[x] != NOT_RESERVED)
      && (forall x <- locks :: exists s, e :: 0 <= s < |t| && 0 <= e < |t| && x == Physical(t, s, e))
    }

    /** Hence the table is symmetric under reversal. */
    lemma Symmetric(s: nat, e: nat)
      requires Valid() && s < |t| && e < |t|
      ensures reservedBy[s, e] == reservedBy[t[e].reverse, t[s].reverse]
    {
      SamePhysical(t, s, e, t[e].reverse, t[s].reverse);
    }

    constructor (t: Track)
      requires ReverseIsInvolution(t) && |t| <= TRACK_MAX
      ensures Valid() && fresh(reservedBy) && this.t == t && locks == map[]
    {
      this.t := t;
      reservedBy := new int[TRACK_MAX, TRACK_MAX]((i, j) => NOT_RESERVED);
      locks := map[];
    }

    /** Both entries of the edge are set. */
    method HandOver(start: nat, end: nat, reserveFor: int)
      requires Valid() && start < |t| && end < |t|
      modifies this`locks, reservedBy
      ensures Valid() && locks == WithHolder(old(locks), Physical(t, start, end), reserveFor)
    {
      var reverseStart := t[end].reverse;
      var reverseEnd := t[start].reverse;
      ghost var e := Physical(t, start, end);
      forall u, v | 0 <= u < |t| && 0 <= v < |t|
        ensures Physical(t, u, v) == e <==> (u, v) == (start, end) || (u, v) == (reverseStart, reverseEnd)
      {
        SamePhysical(t, start, end, u, v);
      }
      reservedBy[start, end] := reserveFor;
      reservedBy[reverseStart, reverseEnd] := reserveFor;
      locks := WithHolder(locks, e, reserveFor);
    }

    /** handle_reservation_request. `logged` tells whether it complained that the two directions of
        the edge have different owners. */
    method HandleRequest(start: nat, end: nat, check: int, reserveFor: int, errorResponse: int)
        returns (response: int, logged: bool)
      requires Valid() && start < |t| && end < |t|
      modifies this`locks, reservedBy
      ensures Valid() && !logged
      ensures response == if !NodeFollows(t, start, end) then RESPONSE_NO_SUCH_EDGE
                          else if Holder(old(locks), Physical(t, start, end)) == check then RESPONSE_OK
                          else errorResponse
      ensures locks == if NodeFollows(t, start, end) && Holder(old(locks), Physical(t, start, end)) == check
                       then WithHolder(old(locks), Physical(t, start, end), reserveFor) else old(locks)
    {
      logged := false;
      if !NodeFollows(t, start, end) {
        return RESPONSE_NO_SUCH_EDGE, logged;
      }
      var reverseStart := t[end].reverse;
      var reverseEnd := t[start].reverse;
      Symmetric(start, end);
      if reservedBy[start, end] == check {
        if reservedBy[reverseStart, reverseEnd] != check {
          return errorResponse, true;
        }
        HandOver(start, end, reserveFor);
        return RESPONSE_OK, logged;
      } else {
        return errorResponse, logged;
      }
    }

    /** MESSAGE_RESERVATION_MAKE and MESSAGE_RESERVATION_DROP */
    method OnRequest(r: Request) returns (response: int)
      requires Valid() && InTrack(t, r) && !r.DropAll?
      modifies this`locks, reservedBy
      ensures Valid() && (locks, response) == Serve(t, old(locks), r)
    {
      var logged;
      match r {
        case Make(train, start, end) =>
          response, logged := HandleRequest(start, end, NOT_RESERVED, train, RESPONSE_ALREADY_RESERVED);
        case Drop(train, start, end) =>
          response, logged := HandleRequest(start, end, train, NOT_RESERVED, RESPONSE_NOT_RESERVED);
      }
    }

    method ClearTable(train: int)
      requires reservedBy.Length0 == reservedBy.Length1 == TRACK_MAX
      modifies reservedBy
      ensures forall s, e :: 0 <= s < TRACK_MAX && 0 <= e < TRACK_MAX ==>
                reservedBy[s, e] == if old(reservedBy[s, e]) == train then NOT_RESERVED else old(reservedBy[s, e])
    {
      for i := 0 to TRACK_MAX
        invariant forall s, e :: 0 <= s < TRACK_MAX && 0 <= e < TRACK_MAX ==>
          reservedBy[s, e] == if s < i && old(reservedBy[s, e]) == train then NOT_RESERVED else old(reservedBy[s, e])
      {
        for j := 0 to TRACK_MAX
          invariant forall s, e :: 0 <= s < TRACK_MAX && 0 <= e < TRACK_MAX ==>
            reservedBy[s, e] ==
              if (s < i || (s == i && e < j)) && old(reservedBy[s, e]) == train then NOT_RESERVED else old(reservedBy[s, e])
        {
          if reservedBy[i, j] == train {
            reservedBy[i, j] := NOT_RESERVED;
          }
        }
      }
    }

    /** MESSAGE_RESERVATION_DROP_ALL */
    method OnDropAll(train: int)
      requires Valid()
      modifies this`locks, reservedBy
      ensures Valid() && locks == Serve(t, old(locks), DropAll(train)).0
    {
      ClearTable(train);
      ghost var before := locks;
      locks := Serve(t, locks, DropAll(train)).0;
      assert forall x <- locks :: x in before && locks[x] == before[x];
      forall s, e | 0 <= s < |t| && 0 <= e < |t|
        ensures reservedBy[s, e] == Holder(locks, Physical(t, s, e))
      {
        DropAllHolder(t, before, train, Physical(t, s, e));
      }
    }

    /** `found` lists the first reservations of `train`, in the order of their codes; codes from `limit`
        on have not been looked at. */
    ghost predicate Listed(found: seq<int>, train: int, limit: int)
      requires Valid()
      reads this, reservedBy
    {
      && |found| <= MAX_RESERVATIONS_RETURNED
      && (forall a, b :: 0 <= a < b < |found| ==> found[a] < found[b])
      && (forall a :: 0 <= a < |found| ==>
            0 <= found[a] < limit && found[a] / TRACK_MAX < TRACK_MAX && reservedBy[found[a] / TRACK_MAX, found[a] % TRACK_MAX] == train)
      && (forall s, e :: 0 <= s < TRACK_MAX && 0 <= e < TRACK_MAX && reservedBy[s, e] == train ==>
            || Encode(s, e) in found
            || (|found| == MAX_RESERVATIONS_RETURNED && found[MAX_RESERVATIONS_RETURNED - 1] < Encode(s, e))
            || (|found| < MAX_RESERVATIONS_RETURNED && limit <= Encode(s, e)))
    }

    /** MESSAGE_RESERVATION_GET_ALL */
    method OnGetAll(train: int) returns (found: seq<int>)
      requires Valid()
      ensures Listed(found, train, TRACK_MAX * TRACK_MAX)
    {
      found := [];
      var i := 0;
      while i < TRACK_MAX
        invariant 0 <= i <= TRACK_MAX
        invariant Listed(found, train, i * TRACK_MAX)
      {
        if |found| >= MAX_RESERVATIONS_RETURNED {
          ListedToEnd(found, train, i * TRACK_MAX);
          return;
        }
        var j := 0;
        while j < TRACK_MAX
          invariant 0 <= j <= TRACK_MAX
          invariant Listed(found, train, i * TRACK_MAX + j)
        {
          if |found| >= MAX_RESERVATIONS_RETURNED {
            ListedToEnd(found, train, i * TRACK_MAX + j);
            return;
          }
          ListNext(found, train, i, j);
          if reservedBy[i, j] == train {
            found := found + [Encode(i, j)];
          }
          j := j + 1;
        }
        i := i + 1;
      }
    }

    lemma ListedToEnd(found: seq<int>, train: int, limit: int)
      requires Valid() && Listed(found, train, limit) && |found| == MAX_RESERVATIONS_RETURNED && limit <= TRACK_MAX * TRACK_MAX
      ensures Listed(found, train, TRACK_MAX * TRACK_MAX)
    {
    }

    lemma ListNext(found: seq<int>, train: int, i: nat, j: nat)
      requires Valid() && i < TRACK_MAX && j < TRACK_MAX
      requires Listed(found, train, Encode(i, j)) && |found| < MAX_RESERVATIONS_RETURNED
      ensures Listed(if reservedBy[i, j] == train then found + [Encode(i, j)] else found, train, Encode(i, j) + 1)
    {
      if reservedBy[i, j] == train {
        ListFound(found, train, i, j);
      } else {
        ListSkips(found, train, i, j);
      }
    }

    lemma ListFound(found: seq<int>, train: int, i: nat, j: nat)
      requires Valid() && i < TRACK_MAX && j < TRACK_MAX && reservedBy[i, j] == train
      requires Listed(found, train, Encode(i, j)) && |found| < MAX_RESERVATIONS_RETURNED
      ensures Listed(found + [Encode(i, j)], train, Encode(i, j) + 1)
    {
      hide Physical, Holder, ReverseIsInvolution, Encode;
      DecodeEncoded(i, j);
      var found' := found + [Encode(i, j)];
      assert found'[|found|] == Encode(i, j);
      assert forall x <- found :: x in found';
    }

    lemma ListSkips(found: seq<int>, train: int, i: nat, j: nat)
      requires Valid() && i < TRACK_MAX && j < TRACK_MAX && reservedBy[i, j] != train
      requires Listed(found, train, Encode(i, j)) && |found| < MAX_RESERVATIONS_RETURNED
      ensures Listed(found, train, Encode(i, j) + 1)
    {
      hide Physical, Holder, ReverseIsInvolution, Encode;
      forall s, e | 0 <= s < TRACK_MAX && 0 <= e < TRACK_MAX && reservedBy[s, e] == train
        ensures Encode(s, e) in found || Encode(i, j) + 1 <= Encode(s, e)
      {
        DecodeEncoded(i, j);
        DecodeEncoded(s, e);
      }
    }
  }
}
