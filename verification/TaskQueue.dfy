/** The circular intrusive queue (kernel/src/queue.h). Ready queues link the task descriptors through `next` and
    `prev`, send queues through `nextmsg` and `prevmsg`. Here the pointers are tids; `QueueBank.dfy` has them
    as references. */
module TaskQueue {
  import opened Basics

  const NONE := -1

  type Tid = t: nat | t < MAX_TASKS
  type Pointer = p: int | NONE <= p < MAX_TASKS

  datatype Pair = Pair(next: Pointer, prev: Pointer)

  predicate IsThreaded(pair: Pair) {
    pair.next != NONE && pair.prev != NONE
  }

  type Pairs = s: seq<Pair> | |s| == MAX_TASKS witness seq(MAX_TASKS, _ => Pair(NONE, NONE))

  // ---- the code ----

  /** Writes through a pointer. */
  function SetNext(ps: Pairs, p: Pointer, to: Pointer): Pairs {
    if p == NONE then ps else ps[p := ps[p].(next := to)]
  }

  function SetPrev(ps: Pairs, p: Pointer, to: Pointer): Pairs {
    if p == NONE then ps else ps[p := ps[p].(prev := to)]
  }

  function EnqueuePairs(ps: Pairs, head: Pointer, td: Tid): Pairs {
    if head == NONE then ps[td := Pair(td, td)]
    else
      var tail := ps[head].prev;
      var ps1 := SetNext(SetPrev(ps, head, td), tail, td);
      SetNext(SetPrev(ps1, td, tail), td, head)
  }

  function DequeuePairs(ps: Pairs, head: Tid): Pairs {
    if ps[head].next == head then ps
    else Joined(ps, ps[head].prev, ps[head].next)
  }

  function DequeueHead(ps: Pairs, head: Tid): Pointer {
    if ps[head].next == head then NONE else ps[head].next
  }

  /** Makes `q` the successor of `p` and `p` the predecessor of `q`. */
  function Joined(ps: Pairs, p: Pointer, q: Pointer): Pairs {
    SetNext(SetPrev(ps, q, p), p, q)
  }

  function RemovePairs(ps: Pairs, head: Pointer, td: Tid): Pairs {
    if head == NONE || ps[head].next == head then ps
    else Joined(ps, ps[td].prev, ps[td].next)
  }

  function RemoveHead(ps: Pairs, head: Pointer, td: Tid): Pointer {
    if head == NONE || ps[head].next == head then NONE
    else if head == td then ps[td].next
    else head
  }

  // ---- what a queue stands for ----

  predicate IsLast<T(==)>(s: seq<T>, t: T) {
    s != [] && s[|s| - 1] == t
  }

  predicate IsFirst<T(==)>(s: seq<T>, t: T) {
    s != [] && s[0] == t
  }

  function Head(s: seq<Tid>): Pointer {
    if s == [] then NONE else s[0]
  }

  /** ENQUEUE of a task that is not queued, or that is the last one. */
  function Enqueued<T(==)>(s: seq<T>, t: T): (r: seq<T>)
    ensures IsLast(r, t) && s <= r
  {
    if IsLast(s, t) then s else s + [t]
  }

  function IndexOf<T(==)>(s: seq<T>, t: T): (k: nat)
    ensures k <= |s|
    ensures k < |s| ==> s[k] == t
    ensures forall i :: 0 <= i < k ==> s[i] != t
  {
    if s == [] || s[0] == t then 0 else 1 + IndexOf(s[1..], t)
  }

  function Cut<T>(s: seq<T>, k: nat): (r: seq<T>)
    requires k < |s|
    ensures |r| == |s| - 1
    ensures forall i :: 0 <= i < |r| ==> r[i] == s[if i < k then i else i + 1]
  {
    s[..k] + s[k + 1..]
  }

  /** The queue without a task, which need not be on it. */
  function Without<T(==)>(s: seq<T>, t: T): seq<T> {
    if IndexOf(s, t) < |s| then Cut(s, IndexOf(s, t)) else s
  }

  /** What REMOVE is meant to leave; a queue of one element it empties whatever is to be removed. */
  function Removed<T(==)>(s: seq<T>, t: T): seq<T> {
    if |s| <= 1 then [] else Without(s, t)
  }

  /** Neighbours on a ring of `n`. */
  function After(i: nat, n: nat): (j: nat)
    ensures i < n ==> j < n
  {
    if i + 1 < n then i + 1 else 0
  }

  function Before(i: nat, n: nat): (j: nat)
    ensures i < n ==> j < n
  {
    if i > 0 then i - 1 else if n > 0 then n - 1 else 0
  }

  /** The forward pointers close a cycle through the tasks in order, and the head points back to the last one.
      No other backward pointer is needed: one that is stale does no harm until its task is removed. */
  ghost predicate Ring(ps: Pairs, s: seq<Tid>) {
    && Distinct(s)
    && (forall i {:trigger ps[s[i]]} :: 0 <= i < |s| ==> ps[s[i]].next == s[After(i, |s|)])
    && (s != [] ==> ps[s[0]].prev == s[|s| - 1])
  }

  // ---- ENQUEUE and DEQUEUE ----

  lemma EnqueueRing(ps: Pairs, s: seq<Tid>, t: Tid)
    requires Ring(ps, s) && (IsLast(s, t) || !In(s, t))
    ensures Ring(EnqueuePairs(ps, Head(s), t), Enqueued(s, t))
  {
    var r, ps' := Enqueued(s, t), EnqueuePairs(ps, Head(s), t);
    assert forall i :: 0 <= i < |s| ==> r[i] == s[i];
  }

  lemma DequeueRing(ps: Pairs, s: seq<Tid>)
    requires Ring(ps, s) && s != []
    ensures Ring(DequeuePairs(ps, s[0]), s[1..]) && DequeueHead(ps, s[0]) == Head(s[1..])
  {
    assert forall i :: 0 <= i < |s| - 1 ==> s[1..][i] == s[i + 1];
  }

  /** Registering the task at the tail again: only its own backward pointer changes, to itself. */
  lemma EnqueueAgain(ps: Pairs, s: seq<Tid>, t: Tid)
    requires Ring(ps, s) && IsLast(s, t)
    ensures EnqueuePairs(ps, Head(s), t) == SetPrev(ps, t, t)
  {
  }

  /** A ring with all backward pointers right. */
  ghost predicate DoublyLinked(ps: Pairs, s: seq<Tid>) {
    Ring(ps, s) && forall i {:trigger ps[s[i]]} :: 0 <= i < |s| ==> ps[s[i]].prev == s[Before(i, |s|)]
  }

  /** Where every task is enqueued only when it is off the queue, all backward pointers stay right. */
  lemma EnqueueDoublyLinks(ps: Pairs, s: seq<Tid>, t: Tid)
    requires DoublyLinked(ps, s) && !In(s, t)
    ensures DoublyLinked(EnqueuePairs(ps, Head(s), t), s + [t])
  {
    EnqueueRing(ps, s, t);
    NotLast(s, t);
    forall i: nat | i < |s| + 1
      ensures EnqueuePairs(ps, Head(s), t)[(s + [t])[i]].prev == (s + [t])[Before(i, |s| + 1)]
    {
      EnqueuedPrev(ps, s, t, i);
    }
  }

  lemma NotLast<T>(s: seq<T>, t: T)
    requires !In(s, t)
    ensures !IsLast(s, t) && Enqueued(s, t) == s + [t]
  {
  }

  lemma EnqueuedPrev(ps: Pairs, s: seq<Tid>, t: Tid, i: nat)
    requires DoublyLinked(ps, s) && !In(s, t) && i < |s| + 1
    ensures EnqueuePairs(ps, Head(s), t)[(s + [t])[i]].prev == (s + [t])[Before(i, |s| + 1)]
  {
    if 0 < i < |s| {
      assert ps[s[i]].prev == s[i - 1];
      assert s[i] != s[0] && s[i] != t;
    } else if s != [] {
      assert ps[s[0]].prev == s[|s| - 1] != t;
    }
  }

  lemma DequeueDoublyLinks(ps: Pairs, s: seq<Tid>)
    requires DoublyLinked(ps, s) && s != []
    ensures DoublyLinked(DequeuePairs(ps, s[0]), s[1..])
  {
    DequeueRing(ps, s);
    forall i: nat | i < |s| - 1
      ensures DequeuePairs(ps, s[0])[s[1..][i]].prev == s[1..][Before(i, |s| - 1)]
    {
      DequeuedPrev(ps, s, i);
    }
  }

  lemma DequeuedPrev(ps: Pairs, s: seq<Tid>, i: nat)
    requires DoublyLinked(ps, s) && i < |s| - 1
    ensures DequeuePairs(ps, s[0])[s[1..][i]].prev == s[1..][Before(i, |s| - 1)]
  {
    assert ps[s[0]].next == s[1] && ps[s[i + 1]].prev == s[i];
    assert s[1..][i] == s[i + 1];
  }

  // ---- REMOVE ----

  /** Joining `p` and `q` does a ring no harm: if `p` is on it, `q` is the successor of `p` anyway, and if `q` is
      its head, `p` is its last task anyway. */
  ghost predicate Undisturbed(s: seq<Tid>, p: Pointer, q: Pointer) {
    && (forall i :: 0 <= i < |s| && s[i] == p ==> s[After(i, |s|)] == q)
    && (s != [] && s[0] == q ==> s[|s| - 1] == p)
  }

  lemma JoinedRing(ps: Pairs, s: seq<Tid>, p: Tid, q: Tid)
    requires Ring(ps, s)
    ensures Ring(Joined(ps, p, q), s) <==> Undisturbed(s, p, q)
  {
    var ps' := Joined(ps, p, q);
    if Ring(ps', s) {
      forall i | 0 <= i < |s| && s[i] == p
        ensures s[After(i, |s|)] == q
      {
        assert ps'[s[i]].next == q;
      }
    }
  }

  lemma CutKeepsRing(ps: Pairs, s: seq<Tid>, k: nat)
    requires Ring(ps, s) && |s| > 1 && k < |s| && ps[s[k]].prev == s[Before(k, |s|)]
    ensures Ring(Joined(ps, ps[s[k]].prev, ps[s[k]].next), Cut(s, k))
  {
    var n, r := |s|, Cut(s, k);
    var ps' := Joined(ps, ps[s[k]].prev, ps[s[k]].next);
    forall i | 0 <= i < n - 1
      ensures ps'[r[i]].next == r[After(i, n - 1)]
    {
      assert ps[r[i]].next == if r[i] == s[Before(k, n)] then s[k] else r[After(i, n - 1)];
    }
    assert r[n - 2] == s[if k == n - 1 then n - 2 else n - 1];
    assert r[0] == s[if k == 0 then 1 else 0];
  }

  lemma StaleCutBreaksRing(ps: Pairs, s: seq<Tid>, k: nat)
    requires Ring(ps, s) && |s| > 1 && k < |s| && ps[s[k]].prev != s[Before(k, |s|)]
    ensures !Ring(Joined(ps, ps[s[k]].prev, ps[s[k]].next), Cut(s, k))
  {
    var n, r := |s|, Cut(s, k);
    var ps' := Joined(ps, ps[s[k]].prev, ps[s[k]].next);
    var b := Before(k, n);
    var b' := if b < k then b else b - 1;
    assert r[b'] == s[b] && r[After(b', n - 1)] == s[After(k, n)];
    assert ps[s[b]].next == s[k];
    assert ps'[r[b']].next == s[k] != s[After(k, n)];
  }

  /** Whether REMOVE does what it is meant to: a member must have a right backward pointer, and a task that is not
      on the queue must point at two neighbours, or nowhere that matters. */
  ghost predicate Unhooks(ps: Pairs, s: seq<Tid>, t: Tid) {
    var k := IndexOf(s, t);
    if k < |s| then ps[t].prev == s[Before(k, |s|)] else Undisturbed(s, ps[t].prev, ps[t].next)
  }

  lemma RemoveRing(ps: Pairs, s: seq<Tid>, t: Tid)
    requires Ring(ps, s) && |s| > 1 && ps[t].prev != NONE && ps[t].next != NONE
    ensures Ring(RemovePairs(ps, s[0], t), Without(s, t)) <==> Unhooks(ps, s, t)
    ensures RemoveHead(ps, s[0], t) == Head(Without(s, t))
  {
    var k := IndexOf(s, t);
    assert ps[s[0]].next == s[1];
    if k == |s| {
      JoinedRing(ps, s, ps[t].prev, ps[t].next);
    } else if ps[t].prev == s[Before(k, |s|)] {
      CutKeepsRing(ps, s, k);
    } else {
      StaleCutBreaksRing(ps, s, k);
    }
  }

  /** A task that was registered twice in a row stays on the ring when it is removed. */
  lemma RemoveFails(ps: Pairs, s: seq<Tid>, k: nat)
    requires Ring(ps, s) && |s| > 1 && k < |s| && ps[s[k]].prev == s[k]
    ensures Ring(RemovePairs(ps, s[0], s[k]), s) && RemoveHead(ps, s[0], s[k]) == s[0]
  {
    assert ps[s[0]].next == s[1];
    assert ps[s[k]].next == s[After(k, |s|)];
    JoinedRing(ps, s, s[k], ps[s[k]].next);
  }

  /** Where task `l` of the rest was before the tasks between `i` and `j` were cut off. */
  function Uncut(l: nat, i: nat, j: nat): nat
    requires i < j
  {
    if l <= i then l else l - i - 1 + j
  }

  ghost predicate IsCutOff(s: seq<Tid>, r: seq<Tid>, i: nat, j: nat)
    requires i < j <= |s|
  {
    |r| == i + 1 + |s| - j && forall l {:trigger r[l]} :: 0 <= l < |r| ==> r[l] == s[Uncut(l, i, j)]
  }

  lemma NextCutOff(ps: Pairs, s: seq<Tid>, r: seq<Tid>, i: nat, j: nat, q: Tid, l: nat)
    requires Ring(ps, s) && i < j <= |s| && IsCutOff(s, r, i, j) && q == (if j < |s| then s[j] else s[0]) && l < |r|
    ensures Joined(ps, s[i], q)[r[l]].next == r[After(l, |r|)]
  {
    var m := Uncut(l, i, j);
    assert ps[s[m]].next == s[After(m, |s|)];
    assert r[l] == s[m];
    assert r[After(l, |r|)] == if l == i then q else s[After(m, |s|)];
  }

  lemma CutOffRing(ps: Pairs, s: seq<Tid>, r: seq<Tid>, i: nat, j: nat, q: Tid)
    requires Ring(ps, s) && i < j <= |s| && IsCutOff(s, r, i, j) && q == if j < |s| then s[j] else s[0]
    ensures Ring(Joined(ps, s[i], q), r)
  {
    forall l: nat | l < |r|
      ensures Joined(ps, s[i], q)[r[l]].next == r[After(l, |r|)]
    {
      NextCutOff(ps, s, r, i, j, q, l);
    }
    assert r[|r| - 1] == s[if j < |s| then |s| - 1 else i];
    assert r[0] == s[0];
  }

  /** A task that is not on the ring, but points back at one task of it and forward at one further on (or at the
      head), cuts off all tasks between them when it is removed. */
  lemma RemoveCutsOff(ps: Pairs, s: seq<Tid>, t: Tid, i: nat, j: nat)
    requires Ring(ps, s) && |s| > 1 && !In(s, t) && i < j <= |s|
    requires ps[t] == Pair(if j < |s| then s[j] else s[0], s[i])
    ensures Ring(RemovePairs(ps, s[0], t), s[..i + 1] + s[j..]) && RemoveHead(ps, s[0], t) == s[0]
  {
    assert ps[s[0]].next == s[1];
    assert In(s, s[0]);
    CutOffRing(ps, s, s[..i + 1] + s[j..], i, j, ps[t].next);
  }

  /** Tasks 1 and 2 are queued, 1 is taken off and 3 queued. Then 2 is on both sides of 1, and removing 1 leaves
      2 alone on the queue. */
  lemma RemoveCutsOffExample(ps: Pairs)
    ensures var two := EnqueuePairs(EnqueuePairs(ps, NONE, 1), 1, 2);
            var before := EnqueuePairs(DequeuePairs(two, 1), 2, 3);
            && Ring(before, [2, 3]) && Ring(RemovePairs(before, 2, 1), [2])
            && RemoveHead(before, 2, 1) == 2
  {
  }
}
