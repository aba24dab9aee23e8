/** Exactly when Kill leaves the ready queues linked. REMOVE follows the victim's pointers whether or not it is on
    the queue, and clear_send_queue, which comes after it, may close a ring again that REMOVE has opened. */
module KernelUnlink {
  import opened Basics
  import opened TaskQueue
  import opened QueueFacts
  import opened KernelModel
  import opened KernelQueues
  import opened KernelKill
  import opened KernelLinks

  // ---- queues that are not rings ----

  /** A ring but for the forward pointer of its last task. */
  ghost predicate Loose(ps: Pairs, s: seq<Tid>) {
    && s != [] && Distinct(s)
    && (forall i {:trigger ps[s[i]]} :: 0 <= i < |s| - 1 ==> ps[s[i]].next == s[i + 1])
    && ps[s[0]].prev == s[|s| - 1]
  }

  /** A task does not lead to the one behind it. */
  ghost predicate Torn(ps: Pairs, s: seq<Tid>) {
    exists i {:trigger ps[s[i]]} :: 0 <= i < |s| - 1 && ps[s[i]].next != s[i + 1]
  }

  /** ENQUEUE closes a loose ring. */
  lemma EnqueueMends(ps: Pairs, s: seq<Tid>, x: Tid)
    requires Loose(ps, s) && !In(s, x)
    ensures Ring(EnqueuePairs(ps, s[0], x), s + [x])
  {
    var r := s + [x];
    assert forall i :: 0 <= i < |s| ==> r[i] == s[i];
    assert forall i :: 0 <= i < |s| ==> In(s, s[i]);
  }

  /** ENQUEUE on whatever queue does not mend a torn one. */
  lemma TornStays(ps: Pairs, s: seq<Tid>, head: Pointer, x: Tid)
    requires Torn(ps, s) && !In(s, x)
    ensures Torn(EnqueuePairs(ps, head, x), s) && Torn(EnqueuePairs(ps, head, x), s + [x])
  {
    var ps' := EnqueuePairs(ps, head, x);
    var i :| 0 <= i < |s| - 1 && ps[s[i]].next != s[i + 1];
    assert In(s, s[i]) && In(s, s[i + 1]);
    assert ps'[s[i]].next != s[i + 1];
    assert ps'[(s + [x])[i]].next != (s + [x])[i + 1];
  }

  ghost predicate Same(ps: Pairs, ps': Pairs, s: seq<Tid>) {
    forall i {:trigger ps'[s[i]]} :: 0 <= i < |s| ==> ps'[s[i]] == ps[s[i]]
  }

  lemma EnqueueSame(ps: Pairs, s: seq<Tid>, x: Tid, r: seq<Tid>)
    requires !In(r, x) && (s != [] ==> ps[s[0]].prev == s[|s| - 1] && !In(r, s[0]) && !In(r, s[|s| - 1]))
    ensures Same(ps, EnqueuePairs(ps, Head(s), x), r)
  {
    forall i | 0 <= i < |r|
      ensures EnqueuePairs(ps, Head(s), x)[r[i]] == ps[r[i]]
    {
      assert In(r, r[i]);
    }
  }

  lemma SameShape(ps: Pairs, ps': Pairs, s: seq<Tid>)
    requires Same(ps, ps', s)
    ensures Ring(ps, s) ==> Ring(ps', s)
    ensures Loose(ps, s) ==> Loose(ps', s)
  {
  }

  // ---- what joining two tasks does to a ring ----

  /** The last task of the ring is made to lead elsewhere, and the head still leads back to it. */
  predicate Opened(s: seq<Tid>, p: Pointer, q: Pointer) {
    IsLast(s, p) && Head(s) != q
  }

  lemma JoinedLoose(ps: Pairs, s: seq<Tid>, p: Tid, q: Tid)
    requires Ring(ps, s) && Opened(s, p, q)
    ensures Loose(Joined(ps, p, q), s) && Joined(ps, p, q)[s[|s| - 1]].next != s[0]
  {
    var ps' := Joined(ps, p, q);
    forall i | 0 <= i < |s| - 1
      ensures ps'[s[i]].next == s[i + 1]
    {
      assert ps[s[i]].next == s[After(i, |s|)];
    }
  }

  /** Otherwise a disturbed ring is torn, or its head leads back to a task that is not the last. */
  lemma JoinedTorn(ps: Pairs, s: seq<Tid>, p: Tid, q: Tid)
    requires Ring(ps, s) && !Undisturbed(s, p, q) && !Opened(s, p, q)
    ensures Torn(Joined(ps, p, q), s) ||
            (Head(s) == q && s[|s| - 1] != p && Joined(ps, p, q)[s[|s| - 1]].next == s[0])
  {
    var ps' := Joined(ps, p, q);
    if i :| 0 <= i < |s| && s[i] == p && s[After(i, |s|)] != q {
      assert i < |s| - 1;
      assert ps'[s[i]].next == q != s[i + 1];
    } else {
      assert s[0] == q && s[|s| - 1] != p;
      assert ps[s[|s| - 1]].next == s[After(|s| - 1, |s|)];
    }
  }

  // ---- clear_send_queue on queues that are not rings ----

  /** Somebody of the priority waits to send to the dead task, and will be registered. */
  ghost predicate Expected(k: Kernel, t: Tid, p: Priority) {
    exists u: Tid :: In(k.sends[t], u) && k.tasks[u].state == ReceiveBlocked && k.tasks[u].priority == p
  }

  ghost predicate Mendable(k: Kernel, t: Tid, p: Priority) {
    Ring(k.pairs, k.ready[p]) || (Loose(k.pairs, k.ready[p]) && Expected(k, t, p))
  }

  predicate Headed(ps: Pairs, s: seq<Tid>) {
    s != [] ==> ps[s[0]].prev == s[|s| - 1]
  }

  predicate Waits(k: Kernel, p: Pointer) {
    p != NONE && k.tasks[p].state == ReceiveBlocked
  }

  /** The head of queue `p`, and of no other, leads back to a task that is not the last; and the last task leads
      to one that will not be registered. */
  ghost predicate Beheaded(k: Kernel, p: Priority) {
    var s := k.ready[p];
    && s != [] && !Headed(k.pairs, s) && !Waits(k, k.pairs[s[|s| - 1]].next)
    && forall q: Priority :: q != p ==> Headed(k.pairs, k.ready[q])
  }

  /** The last task does not lead to the head, and nobody will come behind it. */
  ghost predicate LeftOpen(k: Kernel, t: Tid, p: Priority) {
    var s := k.ready[p];
    s != [] && k.pairs[s[|s| - 1]].next != s[0] && !Expected(k, t, p)
  }

  /** Reasons why queue `p` will not be a ring when all senders are dismissed. */
  ghost predicate Broken(k: Kernel, t: Tid, p: Priority) {
    Torn(k.pairs, k.ready[p]) || Beheaded(k, p) || LeftOpen(k, t, p)
  }

  /** The queue of one priority after one more sender `x` of priority `r` is registered. */
  lemma MendOne(k: Kernel, t: Tid, p: Priority)
    requires k.sends[t] != [] && Distinct(k.sends[t])
    requires OffReady(k.ready, k.sends[t][0]) && Separate(k.ready) && forall q: Priority :: Mendable(k, t, q)
    ensures Mendable(DismissedOne(k, t), t, p)
  {
    hide Ring, Loose;
    var x, k' := k.sends[t][0], DismissedOne(k, t);
    var r, s := k.tasks[x].priority, k.ready[p];
    assert Mendable(k, t, p);
    if Expected(k, t, p) && !(k.tasks[x].state == ReceiveBlocked && r == p) {
      ExpectedStill(k, t, p);
    }
    if k.tasks[x].state == ReceiveBlocked {
      MendableHeaded(k, t, r);
      if r == p {
        EnqueueCloses(k.pairs, s, x);
      } else {
        EnqueueSame(k.pairs, k.ready[r], x, s);
        SameShape(k.pairs, k'.pairs, s);
      }
    }
  }

  lemma MendableHeaded(k: Kernel, t: Tid, p: Priority)
    requires Mendable(k, t, p)
    ensures Headed(k.pairs, k.ready[p])
    ensures forall q: Priority :: q != p && Separate(k.ready) && k.ready[p] != [] ==>
              !In(k.ready[q], k.ready[p][0]) && !In(k.ready[q], k.ready[p][|k.ready[p]| - 1])
  {
    var s := k.ready[p];
    if s != [] {
      assert In(s, s[0]) && In(s, s[|s| - 1]);
    }
  }

  lemma EnqueueCloses(ps: Pairs, s: seq<Tid>, x: Tid)
    requires (Ring(ps, s) || Loose(ps, s)) && !In(s, x)
    ensures Ring(EnqueuePairs(ps, Head(s), x), Enqueued(s, x))
  {
    if Ring(ps, s) {
      EnqueueRing(ps, s, x);
    } else {
      assert In(s, s[|s| - 1]);
      EnqueueMends(ps, s, x);
    }
  }

  lemma ExpectedStill(k: Kernel, t: Tid, p: Priority)
    requires k.sends[t] != [] && Distinct(k.sends[t]) && Expected(k, t, p)
    requires !(k.tasks[k.sends[t][0]].state == ReceiveBlocked && k.tasks[k.sends[t][0]].priority == p)
    ensures Expected(DismissedOne(k, t), t, p)
  {
    var u: Tid :| In(k.sends[t], u) && k.tasks[u].state == ReceiveBlocked && k.tasks[u].priority == p;
    TailMembers(k.sends[t], u);
    assert DismissedOne(k, t).tasks[u] == k.tasks[u];
  }

  lemma ExpectedBefore(k: Kernel, t: Tid, p: Priority)
    requires k.sends[t] != [] && Distinct(k.sends[t]) && Expected(DismissedOne(k, t), t, p)
    ensures Expected(k, t, p)
  {
    var k' := DismissedOne(k, t);
    var u: Tid :| In(k'.sends[t], u) && k'.tasks[u].state == ReceiveBlocked && k'.tasks[u].priority == p;
    TailMembers(k.sends[t], u);
  }

  lemma DismissingSends(k: Kernel, t: Tid, running: int, pl: seq<Place>)
    requires Dismissing(k, t, running, pl)
    ensures Distinct(k.sends[t])
  {
  }

  lemma {:induction false} DismissMends(k: Kernel, t: Tid, running: int, pl: seq<Place>)
    requires Dismissing(k, t, running, pl) && Threaded(k, NONE) && forall q: Priority :: Mendable(k, t, q)
    ensures Linked(Dismissed(k, t))
    decreases |k.sends[t]|
  {
    hide Ring, Loose, Dismissing;
    if k.sends[t] != [] {
      var pl' := DismissingOne(k, t, running, pl);
      SenderIsOff(k, t, running, pl);
      DismissingSends(k, t, running, pl);
      forall q: Priority
        ensures Mendable(DismissedOne(k, t), t, q)
      {
        MendOne(k, t, q);
      }
      MendableHeaded(k, t, k.tasks[k.sends[t][0]].priority);
      ThreadedOne(k, t);
      DismissMends(DismissedOne(k, t), t, running, pl');
    } else {
      forall q: Priority
        ensures Ring(k.pairs, k.ready[q])
      {
        assert Mendable(k, t, q);
      }
    }
  }

  lemma ThreadedOne(k: Kernel, t: Tid)
    requires k.sends[t] != [] && Threaded(k, NONE) && Headed(k.pairs, k.ready[k.tasks[k.sends[t][0]].priority])
    ensures Threaded(DismissedOne(k, t), NONE)
  {
    var x := k.sends[t][0];
    forall u: Tid | k.tasks[u].state != Zombie
      ensures IsThreaded(DismissedOne(k, t).pairs[u])
    {
      EnqueueThreads(k.pairs, Head(k.ready[k.tasks[x].priority]), x, u);
    }
  }

  lemma LastIsOn(s: seq<Tid>, x: Tid)
    ensures IsLast(s, x) ==> In(s, x)
  {
  }

  /** If the head does not lead back to the last task, ENQUEUE leaves that one leading where it did. */
  lemma BeheadedTears(ps: Pairs, s: seq<Tid>, x: Tid)
    requires s != [] && !Headed(ps, s) && !In(s, x) && ps[s[|s| - 1]].next != x
    ensures Torn(EnqueuePairs(ps, Head(s), x), Enqueued(s, x))
  {
    var last := |s| - 1;
    assert In(s, s[last]);
    var ps', r := EnqueuePairs(ps, s[0], x), s + [x];
    assert ps'[r[last]].next != r[last + 1];
  }

  lemma HeadedStays(ps: Pairs, z: seq<Tid>, x: Tid, q: seq<Tid>)
    requires Headed(ps, z) && Headed(ps, q) && !In(q, x) && forall u: Tid :: In(z, u) ==> !In(q, u)
    ensures Headed(EnqueuePairs(ps, Head(z), x), q)
  {
    if q != [] {
      assert In(q, q[0]);
    }
    if z != [] {
      assert In(z, z[0]);
    }
  }

  lemma EnqueueHeads(ps: Pairs, z: seq<Tid>, x: Tid)
    requires Headed(ps, z) && !In(z, x)
    ensures Headed(EnqueuePairs(ps, Head(z), x), Enqueued(z, x))
  {
    LastIsOn(z, x);
    if z != [] {
      assert In(z, z[0]);
    }
  }

  lemma BeheadedStays(k: Kernel, t: Tid, p: Priority)
    requires k.sends[t] != [] && OffReady(k.ready, k.sends[t][0]) && Separate(k.ready)
    requires k.tasks[k.sends[t][0]].state == ReceiveBlocked && k.tasks[k.sends[t][0]].priority != p
    requires Beheaded(k, p)
    ensures Beheaded(DismissedOne(k, t), p)
  {
    hide Headed;
    var x, k', s := k.sends[t][0], DismissedOne(k, t), k.ready[p];
    var z := k.ready[k.tasks[x].priority];
    assert Headed(k.pairs, z);
    BeheadedElsewhere(k.pairs, z, x, s);
    forall q: Priority | q != p
      ensures Headed(k'.pairs, k'.ready[q])
    {
      if q == k.tasks[x].priority {
        EnqueueHeads(k.pairs, z, x);
      } else {
        HeadedStays(k.pairs, z, x, k.ready[q]);
      }
    }
  }

  lemma BeheadedElsewhere(ps: Pairs, z: seq<Tid>, x: Tid, s: seq<Tid>)
    requires Headed(ps, z) && s != [] && !In(s, x) && forall u: Tid :: In(z, u) ==> !In(s, u)
    ensures var ps' := EnqueuePairs(ps, Head(z), x);
            (Headed(ps', s) <==> Headed(ps, s)) && ps'[s[|s| - 1]].next == ps[s[|s| - 1]].next
  {
    assert In(s, s[0]) && In(s, s[|s| - 1]);
    if z != [] {
      assert In(z, z[0]) && In(z, z[|z| - 1]);
    }
  }

  lemma LeftOpenStays(k: Kernel, t: Tid, p: Priority)
    requires k.sends[t] != [] && Distinct(k.sends[t]) && OffReady(k.ready, k.sends[t][0])
    requires k.tasks[k.sends[t][0]].state == ReceiveBlocked && LeftOpen(k, t, p)
    ensures LeftOpen(DismissedOne(k, t), t, p)
  {
    var x, k', s := k.sends[t][0], DismissedOne(k, t), k.ready[p];
    assert In(k.sends[t], x);
    assert In(s, s[0]) && In(s, s[|s| - 1]);
    if Expected(k', t, p) {
      ExpectedBefore(k, t, p);
    }
    assert k'.pairs[s[|s| - 1]].next == k.pairs[s[|s| - 1]].next || k'.pairs[s[|s| - 1]].next == x;
  }

  lemma BrokenOne(k: Kernel, t: Tid, p: Priority)
    requires k.sends[t] != [] && Distinct(k.sends[t]) && OffReady(k.ready, k.sends[t][0]) && Separate(k.ready)
    requires Broken(k, t, p)
    ensures Broken(DismissedOne(k, t), t, p)
  {
    hide Torn, Separate, In;
    var x, k', s := k.sends[t][0], DismissedOne(k, t), k.ready[p];
    if k.tasks[x].state != ReceiveBlocked {
      if Expected(k', t, p) {
        ExpectedBefore(k, t, p);
      }
    } else if Torn(k.pairs, s) {
      LastIsOn(s, x);
      TornStays(k.pairs, s, Head(k.ready[k.tasks[x].priority]), x);
    } else if Beheaded(k, p) {
      if k.tasks[x].priority == p {
        BeheadedTears(k.pairs, s, x);
      } else {
        BeheadedStays(k, t, p);
      }
    } else {
      LeftOpenStays(k, t, p);
    }
  }

  lemma RingIsWhole(ps: Pairs, s: seq<Tid>)
    requires Ring(ps, s)
    ensures !Torn(ps, s) && Headed(ps, s) && (s != [] ==> ps[s[|s| - 1]].next == s[0])
  {
    forall i | 0 <= i < |s|
      ensures ps[s[i]].next == s[After(i, |s|)]
    {
    }
  }

  lemma BrokenIsNoRing(k: Kernel, t: Tid, p: Priority)
    requires Broken(k, t, p) && k.sends[t] == []
    ensures !Ring(k.pairs, k.ready[p])
  {
    if Ring(k.pairs, k.ready[p]) {
      RingIsWhole(k.pairs, k.ready[p]);
    }
  }

  lemma {:induction false} DismissDoesNotMend(k: Kernel, t: Tid, running: int, pl: seq<Place>, p: Priority)
    requires Dismissing(k, t, running, pl) && Broken(k, t, p)
    ensures !Linked(Dismissed(k, t))
    decreases |k.sends[t]|
  {
    hide Ring, Broken, Dismissing;
    if k.sends[t] != [] {
      var pl' := DismissingOne(k, t, running, pl);
      SenderIsOff(k, t, running, pl);
      DismissingSends(k, t, running, pl);
      BrokenOne(k, t, p);
      DismissDoesNotMend(DismissedOne(k, t), t, running, pl', p);
    } else {
      BrokenIsNoRing(k, t, p);
    }
  }

  // ---- Kill ----

  predicate HasSender(k: Kernel, t: Tid, p: Priority) {
    exists u: Tid :: u != t && k.tasks[u].state == ReceiveBlocked && k.tasks[u].to % MAX_TASKS == t && k.tasks[u].priority == p
  }

  /** Whether following the pointers of task `t` unlinks it and nobody else. On a queue of more than one, a member
      must have a right backward pointer. A task that is not on its queue must do no harm to any ring; or it makes
      the last task of a ring lead elsewhere, and a sender of that priority is registered behind it. */
  ghost predicate Unlinkable(k: Kernel, t: Tid) {
    var s := k.ready[k.tasks[t].priority];
    var p, q := k.pairs[t].prev, k.pairs[t].next;
    || |s| <= 1
    || (if IndexOf(s, t) < |s| then p == s[Before(IndexOf(s, t), |s|)]
        else forall r: Priority :: Undisturbed(k.ready[r], p, q) || (Opened(k.ready[r], p, q) && HasSender(k, t, r)))
  }

  ghost predicate Killable(k: Kernel, t: Tid) {
    Separable(k, t) && Unlinkable(k, t)
  }

  /** The kernel when the victim is dead and its senders are not yet dismissed. */
  function Unhooked(k: Kernel, t: Tid): Kernel {
    Retired(Deregister(Disarmed(k, t), t), t)
  }

  lemma UnhookedPairs(k: Kernel, t: Tid)
    requires Linked(k)
    ensures var s := k.ready[k.tasks[t].priority];
            && Unhooked(k, t).pairs == (if |s| <= 1 then k.pairs else Joined(k.pairs, k.pairs[t].prev, k.pairs[t].next))
            && Unhooked(k, t).ready == k.ready[k.tasks[t].priority := Removed(s, t)]
    ensures Unhooked(k, t).tasks[t].state == Zombie
    ensures forall u: Tid :: u != t ==> Unhooked(k, t).tasks[u] == k.tasks[u]
  {
    var s := k.ready[k.tasks[t].priority];
    if s != [] {
      assert Ring(k.pairs, s);
      RingNeighbours(k.pairs, s);
    }
  }

  lemma UnhookedThreaded(k: Kernel, t: Tid)
    requires Linked(k) && k.tasks[t].state != Zombie
    ensures Threaded(Unhooked(k, t), NONE)
  {
    hide Rings;
    UnhookedPairs(k, t);
    forall u: Tid | k.tasks[u].state != Zombie
      ensures IsThreaded(Unhooked(k, t).pairs[u])
    {
      JoinThreads(k.pairs, k.pairs[t].prev, k.pairs[t].next, u);
    }
  }

  lemma ExpectedIfSender(k: Kernel, t: Tid, p: Priority)
    requires Kept(k, k.current)
    ensures Expected(Unhooked(k, t), t, p) <==> HasSender(k, t, p)
  {
    var k3, pl := Unhooked(k, t), Places(k.tasks, k.current);
    forall u: Tid
      ensures In(k3.sends[t], u) && k3.tasks[u].state == ReceiveBlocked && k3.tasks[u].priority == p <==>
              u != t && k.tasks[u].state == ReceiveBlocked && k.tasks[u].to % MAX_TASKS == t && k.tasks[u].priority == p
    {
      assert pl[u] == PlaceOf(k.tasks[u], u == k.current);
      assert u != t ==> k3.tasks[u] == k.tasks[u];
      assert In(k.sends[t], u) <==> pl[u] == OnSend(t);
    }
  }

  lemma ShortQueueUnlinks(k: Kernel, t: Tid)
    requires Linked(k) && |k.ready[k.tasks[t].priority]| <= 1 && k.tasks[t].state != Zombie
    ensures Linked(Unhooked(k, t))
  {
    UnhookedPairs(k, t);
    UnhookedThreaded(k, t);
  }

  lemma MemberUnlinks(k: Kernel, t: Tid, i: nat)
    requires Kept(k, k.current) && Linked(k) && k.tasks[t].state != Zombie
    requires var s := k.ready[k.tasks[t].priority];
             |s| > 1 && i == IndexOf(s, t) < |s| && k.pairs[t].prev == s[Before(i, |s|)]
    ensures Linked(Unhooked(k, t))
  {
    hide Ring, Kept, Unhooked, Joined;
    var p := k.tasks[t].priority;
    var s := k.ready[p];
    UnhookedPairs(k, t);
    UnhookedThreaded(k, t);
    CutKeepsRing(k.pairs, s, i);
    MemberNeighbours(k.pairs, s, i);
    KeptSeparate(k);
    forall r: Priority | r != p
      ensures Ring(Unhooked(k, t).pairs, k.ready[r])
    {
      JoinElsewhere(k.pairs, s[Before(i, |s|)], s[After(i, |s|)], k.ready[r]);
    }
  }

  lemma MemberNeighbours(ps: Pairs, s: seq<Tid>, i: nat)
    requires Ring(ps, s) && i < |s|
    ensures ps[s[i]].next == s[After(i, |s|)] && In(s, s[After(i, |s|)]) && In(s, s[Before(i, |s|)])
  {
  }

  lemma KeptSeparate(k: Kernel)
    requires Kept(k, k.current)
    ensures Separate(k.ready)
  {
    MatchesSeparate(k.ready, Places(k.tasks, k.current));
  }

  lemma StaleCut(ps: Pairs, s: seq<Tid>, i: nat)
    requires Ring(ps, s) && |s| > 1 && 0 < i < |s| && ps[s[i]].prev != s[i - 1]
    ensures var ps', r := Joined(ps, ps[s[i]].prev, ps[s[i]].next), Cut(s, i);
            if i < |s| - 1 then Torn(ps', r)
            else !Headed(ps', r) && ps'[r[|r| - 1]].next == s[i]
  {
    var ps', r := Joined(ps, ps[s[i]].prev, ps[s[i]].next), Cut(s, i);
    MemberNeighbours(ps, s, i);
    MemberNeighbours(ps, s, i - 1);
    assert r[i - 1] == s[i - 1] && ps'[r[i - 1]].next == s[i];
    if i < |s| - 1 {
      assert r[i] == s[i + 1];
    } else {
      assert r[0] == s[0];
    }
  }

  /** A stale backward pointer leaves the task before the victim leading to it. */
  lemma StaleMemberBreaks(k: Kernel, t: Tid, i: nat)
    requires Kept(k, k.current) && Linked(k) && k.tasks[t].state != Zombie
    requires var s := k.ready[k.tasks[t].priority];
             |s| > 1 && i == IndexOf(s, t) < |s| && k.pairs[t].prev != s[Before(i, |s|)]
    ensures Broken(Unhooked(k, t), t, k.tasks[t].priority)
  {
    hide Kept, Unhooked, Ring, Joined, Torn, In, Cut;
    var s := k.ready[k.tasks[t].priority];
    UnhookedPairs(k, t);
    assert Ring(k.pairs, s);
    RingNeighbours(k.pairs, s);
    assert i > 0;
    StaleCut(k.pairs, s, i);
    if i == |s| - 1 {
      StaleTailBeheads(k, t);
    }
  }

  lemma StaleTailBeheads(k: Kernel, t: Tid)
    requires Kept(k, k.current) && Linked(k) && k.tasks[t].state != Zombie
    requires var p, k3 := k.tasks[t].priority, Unhooked(k, t);
             && |k.ready[p]| > 1 && IsLast(k.ready[p], t)
             && var r := k3.ready[p]; r != [] && !Headed(k3.pairs, r) && k3.pairs[r[|r| - 1]].next == t
    ensures Beheaded(Unhooked(k, t), k.tasks[t].priority)
  {
    hide Kept, Unhooked, Ring, Headed, In, Joined, Removed, IndexOf;
    var p := k.tasks[t].priority;
    UnhookedPairs(k, t);
    assert Ring(k.pairs, k.ready[p]);
    MemberNeighbours(k.pairs, k.ready[p], |k.ready[p]| - 1);
    forall q: Priority | q != p
      ensures Headed(Unhooked(k, t).pairs, Unhooked(k, t).ready[q])
    {
      OtherHeads(k, t, q, p);
    }
  }

  lemma JoinedHead(ps: Pairs, p: Pointer, q: Pointer, s: seq<Tid>)
    requires Ring(ps, s) && Head(s) != q
    ensures Headed(Joined(ps, p, q), s)
  {
    RingIsWhole(ps, s);
  }

  lemma HeadsApart(k: Kernel, p: Priority, q: Priority, u: Tid)
    requires Kept(k, k.current) && p != q && In(k.ready[p], u)
    ensures Head(k.ready[q]) != u
  {
    KeptSeparate(k);
    if k.ready[q] != [] {
      assert In(k.ready[q], k.ready[q][0]);
    }
  }

  /** Only the head that the victim leads to gets another backward pointer. */
  lemma OtherHeads(k: Kernel, t: Tid, q: Priority, p: Priority)
    requires Kept(k, k.current) && Linked(k) && |k.ready[k.tasks[t].priority]| > 1 && q != p
    requires q == k.tasks[t].priority ==> IndexOf(k.ready[q], t) == |k.ready[q]|
    requires k.pairs[t].next != NONE && In(k.ready[p], k.pairs[t].next as Tid)
    ensures Headed(Unhooked(k, t).pairs, k.ready[q])
  {
    hide Kept, Unhooked, Ring, In, Joined, Headed, Head, IndexOf;
    UnhookedPairs(k, t);
    HeadsApart(k, p, q, k.pairs[t].next);
    assert Ring(k.pairs, k.ready[q]);
    JoinedHead(k.pairs, k.pairs[t].prev, k.pairs[t].next, k.ready[q]);
  }

  /** The ring of priority `r` when the victim was on no ready queue. */
  lemma StrangerMends(k: Kernel, t: Tid, r: Priority)
    requires Kept(k, k.current) && Linked(k) && k.tasks[t].state != Zombie
    requires var s := k.ready[k.tasks[t].priority]; |s| > 1 && IndexOf(s, t) == |s|
    requires Undisturbed(k.ready[r], k.pairs[t].prev, k.pairs[t].next)
             || (Opened(k.ready[r], k.pairs[t].prev, k.pairs[t].next) && HasSender(k, t, r))
    ensures Mendable(Unhooked(k, t), t, r)
  {
    hide Kept, Unhooked, Ring, Joined, Loose, HasSender, Expected;
    UnhookedPairs(k, t);
    var p, q := k.pairs[t].prev, k.pairs[t].next;
    assert IsThreaded(k.pairs[t]);
    ExpectedIfSender(k, t, r);
    if Undisturbed(k.ready[r], p, q) {
      JoinedRing(k.pairs, k.ready[r], p, q);
    } else {
      JoinedLoose(k.pairs, k.ready[r], p, q);
    }
  }

  lemma StrangerBreaks(k: Kernel, t: Tid, r: Priority)
    requires Kept(k, k.current) && Linked(k) && k.tasks[t].state != Zombie
    requires var s := k.ready[k.tasks[t].priority]; |s| > 1 && IndexOf(s, t) == |s|
    requires !Undisturbed(k.ready[r], k.pairs[t].prev, k.pairs[t].next)
    requires !(Opened(k.ready[r], k.pairs[t].prev, k.pairs[t].next) && HasSender(k, t, r))
    ensures Broken(Unhooked(k, t), t, r)
  {
    hide Kept, Unhooked, Ring, Joined, Torn, HasSender, Expected;
    UnhookedPairs(k, t);
    var k3, s, p, q := Unhooked(k, t), k.ready[r], k.pairs[t].prev, k.pairs[t].next;
    assert IsThreaded(k.pairs[t]);
    if Opened(s, p, q) {
      ExpectedIfSender(k, t, r);
      JoinedLoose(k.pairs, s, p, q);
    } else {
      JoinedTorn(k.pairs, s, p, q);
      if !Torn(k3.pairs, s) {
        StrangerBeheads(k, t, r);
      }
    }
  }

  /** The victim leads to the head, but not back to the last task. */
  lemma StrangerBeheads(k: Kernel, t: Tid, r: Priority)
    requires Kept(k, k.current) && Linked(k) && k.tasks[t].state != Zombie
    requires var s := k.ready[k.tasks[t].priority]; |s| > 1 && IndexOf(s, t) == |s|
    requires var s := k.ready[r];
             && s != [] && s[0] == k.pairs[t].next && s[|s| - 1] != k.pairs[t].prev
             && Unhooked(k, t).pairs[s[|s| - 1]].next == s[0]
    ensures Beheaded(Unhooked(k, t), r)
  {
    hide Kept, Unhooked, Ring;
    UnhookedPairs(k, t);
    var k3, s := Unhooked(k, t), k.ready[r];
    assert In(s, s[0]);
    ReadyIsRunnable(k, r, s[0]);
    forall q: Priority | q != r
      ensures Headed(k3.pairs, k3.ready[q])
    {
      OtherHeads(k, t, q, r);
    }
  }

  lemma ReadyIsRunnable(k: Kernel, p: Priority, u: Tid)
    requires Kept(k, k.current) && In(k.ready[p], u)
    ensures k.tasks[u].state == Runnable
  {
    assert Places(k.tasks, k.current)[u] == PlaceOf(k.tasks[u], u == k.current);
  }

  /** After Kill the ready queues are linked if and only if the victim was unlinkable. */
  lemma KillUnlinks(k: Kernel, t: Tid)
    requires Kept(k, k.current) && k.tasks[k.current].state == Active && Linked(k)
    requires k.tasks[t].state != Zombie && Separable(k, t)
    ensures Linked(Killed(k, t)) <==> Unlinkable(k, t)
  {
    hide Kept, Linked, Dismissing, Undisturbed, Opened, HasSender, Broken, Mendable, Separable, Threaded;
    var c, s, i := k.current, k.ready[k.tasks[t].priority], IndexOf(k.ready[k.tasks[t].priority], t);
    var pl := DismissingKilled(k, t);
    if |s| <= 1 {
      ShortQueueUnlinks(k, t);
      DismissLinks(Unhooked(k, t), t, c, pl);
    } else if i < |s| {
      if k.pairs[t].prev == s[Before(i, |s|)] {
        MemberUnlinks(k, t, i);
        DismissLinks(Unhooked(k, t), t, c, pl);
      } else {
        StaleMemberBreaks(k, t, i);
        DismissDoesNotMend(Unhooked(k, t), t, c, pl, k.tasks[t].priority);
      }
    } else if r: Priority :| !(Undisturbed(k.ready[r], k.pairs[t].prev, k.pairs[t].next)
                               || (Opened(k.ready[r], k.pairs[t].prev, k.pairs[t].next) && HasSender(k, t, r))) {
      StrangerBreaks(k, t, r);
      DismissDoesNotMend(Unhooked(k, t), t, c, pl, r);
    } else {
      forall r: Priority
        ensures Mendable(Unhooked(k, t), t, r)
      {
        StrangerMends(k, t, r);
      }
      UnhookedThreaded(k, t);
      DismissMends(Unhooked(k, t), t, c, pl);
    }
  }

  /** Kill of a live task keeps the ready queues, send queues and event slots in order if and only if the victim
      is killable. */
  lemma KillKeepsExactly(k: Kernel, t: Tid)
    requires Kept(k, k.current) && k.tasks[k.current].state == Active && Linked(k) && k.tasks[t].state != Zombie
    ensures Kept(Killed(k, t), k.current) && Linked(Killed(k, t)) <==> Killable(k, t)
  {
    KillSeparates(k, t);
    if Separable(k, t) {
      KillUnlinks(k, t);
    }
  }

  /** A victim that left its queue as the head, with the same head and tail on it now as then, does no harm. */
  lemma NeighboursUnlink(k: Kernel, t: Tid)
    requires Kept(k, k.current) && Linked(k)
    requires var s := k.ready[k.tasks[t].priority];
             |s| > 1 && IndexOf(s, t) == |s| && k.pairs[t] == Pair(s[0], s[|s| - 1])
    ensures Unlinkable(k, t)
  {
    var p, s := k.tasks[t].priority, k.ready[k.tasks[t].priority];
    assert Ring(k.pairs, s);
    KeptSeparate(k);
    TailIsOn(k.pairs, s);
    forall r: Priority
      ensures Undisturbed(k.ready[r], s[|s| - 1], s[0])
    {
      if r != p {
        forall i | 0 <= i < |k.ready[r]|
          ensures k.ready[r][i] != s[0] && k.ready[r][i] != s[|s| - 1]
        {
          assert In(k.ready[r], k.ready[r][i]);
        }
      }
    }
  }

  /** Pass leaves a task behind others with a backward pointer to itself. */
  lemma PassedIsStale(k: Kernel)
    requires Kept(k, k.current) && Linked(k) && k.tasks[k.current].state == Active
    requires k.ready[k.tasks[k.current].priority] != []
    ensures var c, k' := k.current, Finished(Passed(k));
            && IsLast(k'.ready[k.tasks[c].priority], c) && |k'.ready[k.tasks[c].priority]| > 1
            && k'.pairs[c].prev == c
  {
    var c, p := k.current, k.tasks[k.current].priority;
    OffQueues(k, Places(k.tasks, c), c);
    RegisterOffLinks(k, c, k, c);
    assert Ring(Passed(k).pairs, Passed(k).ready[p]);
    EnqueueAgain(Passed(k).pairs, Passed(k).ready[p], c);
  }

  /** REMOVE does not take such a task off its ring, so it stays queued though it is dead. */
  lemma StaleVictimStays(k: Kernel, t: Tid)
    requires Linked(k)
    requires var s := k.ready[k.tasks[t].priority];
             |s| > 1 && IndexOf(s, t) < |s| && k.pairs[t].prev == t
    ensures Unhooked(k, t).tasks[t].state == Zombie && Ring(Unhooked(k, t).pairs, k.ready[k.tasks[t].priority])
  {
    var s := k.ready[k.tasks[t].priority];
    assert Ring(k.pairs, s);
    UnhookedPairs(k, t);
    RemoveFails(k.pairs, s, IndexOf(s, t));
    RingNeighbours(k.pairs, s);
  }
}
