/** The pointers of the ready queues link what the queues hold: what every system call and interrupt but Kill
    keeps of it. */
module KernelLinks {
  import opened Basics
  import opened TaskQueue
  import opened QueueFacts
  import opened KernelModel
  import opened KernelQueues
  import opened KernelKill

  ghost predicate Rings(ps: Pairs, ready: seq<seq<Tid>>)
    requires |ready| == PRIORITIES
  {
    forall p: Priority :: Ring(ps, ready[p])
  }

  /** The pointers of live tasks lead somewhere, even while they are on no queue. */
  ghost predicate Threaded(k: Kernel, except: int) {
    forall t: Tid :: t != except && k.tasks[t].state != Zombie ==> IsThreaded(k.pairs[t])
  }

  /** Every ready queue is a ring of its tasks. */
  ghost predicate Linked(k: Kernel) {
    Rings(k.pairs, k.ready) && Threaded(k, NONE)
  }

  /** No task is on two ready queues. */
  ghost predicate Separate(ready: seq<seq<Tid>>)
    requires |ready| == PRIORITIES
  {
    forall p: Priority, q: Priority, t: Tid :: p != q && In(ready[p], t) ==> !In(ready[q], t)
  }

  lemma MatchesSeparate(ready: seq<seq<Tid>>, pl: seq<Place>)
    requires |ready| == PRIORITIES && |pl| == MAX_TASKS && ReadyMatches(ready, pl)
    ensures Separate(ready)
  {
    forall p: Priority, q: Priority, t: Tid | p != q && In(ready[p], t)
      ensures !In(ready[q], t)
    {
      assert pl[t] == OnReady(p);
    }
  }

  lemma RingFrame(ps: Pairs, ps': Pairs, s: seq<Tid>)
    requires Ring(ps, s)
    requires forall i :: 0 <= i < |s| ==> ps'[s[i]].next == ps[s[i]].next
    requires s != [] ==> ps'[s[0]].prev == ps[s[0]].prev
    ensures Ring(ps', s)
  {
  }

  lemma JoinElsewhere(ps: Pairs, p: Tid, q: Tid, r: seq<Tid>)
    requires Ring(ps, r) && !In(r, p) && !In(r, q)
    ensures Ring(Joined(ps, p, q), r)
  {
    forall i | 0 <= i < |r|
      ensures r[i] != p && r[i] != q
    {
      assert In(r, r[i]);
    }
    RingFrame(ps, Joined(ps, p, q), r);
  }

  /** ENQUEUE joins the tail and the new task, and the new task and the head. */
  lemma EnqueueJoins(ps: Pairs, head: Tid, t: Tid)
    requires ps[head].prev != NONE && (t == head ==> ps[head].prev == t)
    ensures EnqueuePairs(ps, head, t) == Joined(Joined(ps, ps[head].prev, t), t, head)
  {
  }

  lemma EnqueueElsewhere(ps: Pairs, s: seq<Tid>, t: Tid, r: seq<Tid>)
    requires Ring(ps, r) && !In(r, t)
    requires s != [] ==> ps[s[0]].prev != NONE && !In(r, s[0]) && !In(r, ps[s[0]].prev as Tid)
    requires IsFirst(s, t) ==> ps[t].prev == t
    ensures Ring(EnqueuePairs(ps, Head(s), t), r)
  {
    hide Ring, In;
    if s == [] {
      assert EnqueuePairs(ps, NONE, t) == Joined(ps, t, t);
      JoinElsewhere(ps, t, t, r);
    } else {
      EnqueueJoins(ps, s[0], t);
      JoinElsewhere(ps, ps[s[0]].prev, t, r);
      JoinElsewhere(Joined(ps, ps[s[0]].prev, t), t, s[0], r);
    }
  }

  lemma DequeueElsewhere(ps: Pairs, s: seq<Tid>, r: seq<Tid>)
    requires Ring(ps, s) && s != [] && Ring(ps, r)
    requires forall u: Tid :: In(s, u) ==> !In(r, u)
    ensures Ring(DequeuePairs(ps, s[0]), r)
  {
    hide Distinct;
    assert In(s, s[|s| - 1]) && In(s, s[After(0, |s|)]);
    assert ps[s[0]].next == s[After(0, |s|)];
    if ps[s[0]].next != s[0] {
      JoinElsewhere(ps, s[|s| - 1], s[After(0, |s|)], r);
    }
  }

  lemma TailIsOn(ps: Pairs, s: seq<Tid>)
    requires Ring(ps, s)
    ensures s != [] ==> In(s, s[0]) && ps[s[0]].prev == s[|s| - 1] && In(s, s[|s| - 1])
  {
    if s != [] {
      assert s[|s| - 1] == ps[s[0]].prev;
    }
  }

  lemma JoinThreads(ps: Pairs, p: Tid, q: Tid, t: Tid)
    ensures IsThreaded(ps[t]) ==> IsThreaded(Joined(ps, p, q)[t])
  {
  }

  lemma EnqueueThreads(ps: Pairs, head: Pointer, t: Tid, u: Tid)
    requires head != NONE ==> ps[head].prev != NONE
    ensures u == t || IsThreaded(ps[u]) ==> IsThreaded(EnqueuePairs(ps, head, t)[u])
  {
  }

  lemma RegisterLinks(k: Kernel, t: Tid)
    requires Rings(k.pairs, k.ready) && Threaded(k, t) && Separate(k.ready)
    requires forall q: Priority :: q != k.tasks[t].priority ==> !In(k.ready[q], t)
    requires IsLast(k.ready[k.tasks[t].priority], t) || !In(k.ready[k.tasks[t].priority], t)
    ensures Linked(Register(k, t))
  {
    hide Ring;
    var p := k.tasks[t].priority;
    EnqueueRing(k.pairs, k.ready[p], t);
    TailIsOn(k.pairs, k.ready[p]);
    forall q: Priority | q != p
      ensures Ring(Register(k, t).pairs, k.ready[q])
    {
      EnqueueElsewhere(k.pairs, k.ready[p], t, k.ready[q]);
    }
    forall u: Tid | u == t || IsThreaded(k.pairs[u])
      ensures IsThreaded(Register(k, t).pairs[u])
    {
      EnqueueThreads(k.pairs, Head(k.ready[p]), t, u);
    }
  }

  lemma PickLinks(k: Kernel)
    requires Kept(k, NONE) && Linked(k) && Schedule(k).Run?
    ensures Linked(Picked(k))
  {
    hide Ring;
    var h := HighestReady(k.ready, PRIORITIES - 1);
    MatchesSeparate(k.ready, Places(k.tasks, NONE));
    DequeueRing(k.pairs, k.ready[h]);
    forall q: Priority | q != h
      ensures Ring(Picked(k).pairs, k.ready[q])
    {
      DequeueElsewhere(k.pairs, k.ready[h], k.ready[q]);
    }
    RingNeighbours(k.pairs, k.ready[h]);
  }

  lemma RingNeighbours(ps: Pairs, s: seq<Tid>)
    requires Ring(ps, s) && s != []
    ensures ps[s[0]].next == s[After(0, |s|)] && ps[s[0]].prev == s[|s| - 1]
  {
  }

  /** Registering a task that the queues do not hold, after changes elsewhere. */
  lemma RegisterOffLinks(k: Kernel, running: int, k': Kernel, t: Tid)
    requires Kept(k, running) && Linked(k) && k'.ready == k.ready && k'.pairs == k.pairs
    requires !Places(k.tasks, running)[t].OnReady?
    requires forall u: Tid :: u != t && k'.tasks[u].state != Zombie ==> k.tasks[u].state != Zombie
    ensures Linked(Register(k', t))
  {
    hide Ring;
    MatchesSeparate(k.ready, Places(k.tasks, running));
    OffQueues(k, Places(k.tasks, running), t);
    RegisterLinks(k', t);
  }

  lemma InitLinks(k: Kernel, t: Tid, priority: Priority)
    requires Linked(k) && OffReady(k.ready, t)
    ensures var k' := Initialised(k, t, priority); Rings(k'.pairs, k'.ready) && Threaded(k', t)
  {
    forall q: Priority
      ensures Ring(Initialised(k, t, priority).pairs, k.ready[q])
    {
      forall i | 0 <= i < |k.ready[q]|
        ensures k.ready[q][i] != t
      {
        assert In(k.ready[q], k.ready[q][i]);
      }
      RingFrame(k.pairs, Initialised(k, t, priority).pairs, k.ready[q]);
    }
  }

  lemma CreateLinks(k: Kernel, priority: int, running: int)
    requires Kept(k, running) && Linked(k) && (CanCreate(k, priority) ==>
               var t := NextAvailable(k.available, 0); k.tasks[t].state == Zombie && t != running)
    ensures Linked(Created(k, priority))
  {
    hide Ring;
    if CanCreate(k, priority) {
      var t := NextAvailable(k.available, 0);
      OffQueues(k, Places(k.tasks, running), t);
      MatchesSeparate(k.ready, Places(k.tasks, running));
      InitLinks(k, t, priority);
      RegisterLinks(Initialised(k, t, priority), t);
    }
  }

  lemma SendLinks(k: Kernel, to: int, message: seq<bv8>, buffer: seq<bv8>)
    requires Kept(k, k.current) && Linked(k) && k.tasks[k.current].state == Active
    ensures Linked(Sent(k, to, message, buffer))
  {
    hide Kept, Ring;
    var r := to % MAX_TASKS;
    var k1 := Calling(k, to, message, buffer);
    if IsValid(k, to) && k.tasks[r].state == SendBlocked {
      RegisterOffLinks(k, k.current, Transmitted(k1, k.current, r), r);
    }
  }

  lemma ReplyLinks(k: Kernel, to: int, message: seq<bv8>)
    requires Kept(k, k.current) && Linked(k)
    ensures Linked(Replied(k, to, message))
  {
    hide Kept, Ring;
    var s := to % MAX_TASKS;
    if IsValid(k, to) && k.tasks[s].state == ReplyBlocked {
      RegisterOffLinks(k, k.current, k.(tasks := Replied(k, to, message).tasks), s);
    }
  }

  lemma FireLinks(k: Kernel, e: Event, data: int, running: int)
    requires Kept(k, running) && Linked(k)
    ensures Linked(Fired(k, e, data))
  {
    hide Kept, Ring;
    if EventHasTask(k, e) {
      RegisterOffLinks(k, running, k.(tasks := Fired(k, e, data).tasks), k.slots[e]);
    }
  }

  lemma FinishLinks(k: Kernel)
    requires Kept(k, k.current) && Linked(k)
    ensures Linked(Finished(k))
  {
    hide Kept, Ring;
    RegisterOffLinks(k, k.current, SetState(k, k.current, Runnable), k.current);
  }

  /** Registering the running task twice links it in once. */
  lemma PassLinks(k: Kernel)
    requires Kept(k, k.current) && Linked(k) && k.tasks[k.current].state == Active
    ensures Linked(Finished(Passed(k)))
  {
    hide Ring;
    var c, pl := k.current, Places(k.tasks, k.current);
    var p := k.tasks[c].priority;
    RegisterOffLinks(k, c, k, c);
    RegisterPlaces(k, pl, c);
    MatchesSeparate(Passed(k).ready, pl[c := OnReady(p)]);
    RegisterLinks(SetState(Passed(k), c, Runnable), c);
  }

  lemma {:induction false} DismissLinks(k: Kernel, t: Tid, running: int, pl: seq<Place>)
    requires Dismissing(k, t, running, pl) && Linked(k)
    ensures Linked(Dismissed(k, t))
    decreases |k.sends[t]|
  {
    hide Ring;
    if k.sends[t] != [] {
      var pl' := DismissingOne(k, t, running, pl);
      SenderIsOff(k, t, running, pl);
      if k.tasks[k.sends[t][0]].state == ReceiveBlocked {
        RegisterLinks(SetState(Return(WithSends(k, t, k.sends[t][1..]), k.sends[t][0], -2), k.sends[t][0], Runnable), k.sends[t][0]);
      }
      DismissLinks(DismissedOne(k, t), t, running, pl');
    }
  }

  lemma SenderIsOff(k: Kernel, t: Tid, running: int, pl: seq<Place>)
    requires Dismissing(k, t, running, pl) && k.sends[t] != []
    ensures OffReady(k.ready, k.sends[t][0]) && Separate(k.ready)
  {
    TakePlaces(k, pl, t);
    OffQueues(k, pl, k.sends[t][0]);
    MatchesSeparate(k.ready, pl);
  }

  lemma ExitLinks(k: Kernel)
    requires Kept(k, k.current) && Linked(k) && k.tasks[k.current].state == Active
    ensures Linked(Exited(k))
  {
    hide Ring;
    var c := k.current;
    assert Places(Retired(k, c).tasks, c) == Places(k.tasks, c);
    DismissLinks(Retired(k, c), c, c, Places(k.tasks, c));
  }

  lemma ReceiveLinks(k: Kernel, buffer: seq<bv8>)
    requires Kept(k, k.current) && Linked(k) && k.tasks[k.current].state == Active
    ensures Linked(Received(k, buffer))
  {
    hide Rings;
    if k.sends[k.current] != [] {
      var s := k.sends[k.current][0];
      assert In(k.sends[k.current], s);
      assert Places(k.tasks, k.current)[s] == OnSend(k.current);
    }
  }

  lemma AwaitLinks(k: Kernel, event: int)
    requires Linked(k) && k.tasks[k.current].state == Active
    ensures Linked(Awaited(k, event))
  {
    hide Rings;
  }

  lemma ReturnLinks(k: Kernel, t: Tid, value: int)
    requires Linked(k)
    ensures Linked(Return(k, t, value))
  {
    hide Rings;
  }

  lemma ResetLinks()
    ensures Linked(Reset())
  {
  }
}
