/** A task's state fixes where it is queued: what every system call, interrupt and run keeps of it. */
module KernelQueues {
  import opened Basics
  import opened TaskQueue
  import opened QueueFacts
  import opened KernelModel

  datatype Place = Nowhere | OnReady(priority: Priority) | OnSend(receiver: Tid) | InSlot(event: int)

  /** Where a task belongs. While it runs, a task that can go on is on no queue. */
  function PlaceOf(task: Task, running: bool): Place {
    match task.state
    case Runnable => if running then Nowhere else OnReady(task.priority)
    case ReceiveBlocked => OnSend(task.to % MAX_TASKS)
    case EventBlocked => InSlot(task.blockedOn)
    case _ => Nowhere
  }

  function Places(tasks: seq<Task>, running: int): seq<Place> {
    seq(|tasks|, t requires 0 <= t < |tasks| => PlaceOf(tasks[t], t == running))
  }

  /** The ready queues hold exactly the tasks placed there, each once. */
  ghost predicate ReadyMatches(ready: seq<seq<Tid>>, pl: seq<Place>)
    requires |ready| == PRIORITIES && |pl| == MAX_TASKS
  {
    && (forall p: Priority :: Distinct(ready[p]))
    && (forall p: Priority, t: Tid :: In(ready[p], t) <==> pl[t] == OnReady(p))
  }

  ghost predicate SendsMatch(sends: seq<seq<Tid>>, pl: seq<Place>)
    requires |sends| == |pl| == MAX_TASKS
  {
    && (forall r: Tid :: Distinct(sends[r]))
    && (forall r: Tid, t: Tid :: In(sends[r], t) <==> pl[t] == OnSend(r))
  }

  ghost predicate SlotsMatch(slots: seq<int>, pl: seq<Place>)
    requires |slots| == EVENTS && |pl| == MAX_TASKS
  {
    && (forall e: Event :: slots[e] == NONE || 0 <= slots[e] < MAX_TASKS)
    && (forall e: Event, t: Tid :: slots[e] == t <==> pl[t] == InSlot(e))
    && (forall t: Tid :: pl[t].InSlot? ==> 0 <= pl[t].event < EVENTS)
  }

  ghost predicate Matches(k: Kernel, pl: seq<Place>)
    requires |pl| == MAX_TASKS
  {
    ReadyMatches(k.ready, pl) && SendsMatch(k.sends, pl) && SlotsMatch(k.slots, pl)
  }

  // ---- one queue operation moves one task ----

  lemma RegisterMoves(ready: seq<seq<Tid>>, pl: seq<Place>, p: Priority, t: Tid)
    requires |ready| == PRIORITIES && |pl| == MAX_TASKS && ReadyMatches(ready, pl) && !pl[t].OnReady?
    ensures ReadyMatches(ready[p := Enqueued(ready[p], t)], pl[t := OnReady(p)])
  {
    assert !In(ready[p], t);
    forall u: Tid {
      EnqueuedMembers(ready[p], t, u);
    }
  }

  /** Registering the last task of the queue again, as Pass and then schedule do. */
  lemma RegisterAgainStays(ready: seq<seq<Tid>>, pl: seq<Place>, p: Priority, t: Tid)
    requires |ready| == PRIORITIES && |pl| == MAX_TASKS && ReadyMatches(ready, pl) && IsLast(ready[p], t)
    ensures Enqueued(ready[p], t) == ready[p]
    ensures ReadyMatches(ready[p := Enqueued(ready[p], t)], pl)
  {
    forall u: Tid {
      EnqueuedMembers(ready[p], t, u);
    }
  }

  lemma DequeueMoves(ready: seq<seq<Tid>>, pl: seq<Place>, p: Priority, to: Place)
    requires |ready| == PRIORITIES && |pl| == MAX_TASKS && ReadyMatches(ready, pl) && ready[p] != [] && !to.OnReady?
    ensures pl[ready[p][0]] == OnReady(p)
    ensures ReadyMatches(ready[p := ready[p][1..]], pl[ready[p][0] := to])
  {
    assert In(ready[p], ready[p][0]);
    forall u: Tid {
      TailMembers(ready[p], u);
    }
  }

  lemma RemoveMoves(ready: seq<seq<Tid>>, pl: seq<Place>, p: Priority, t: Tid, to: Place)
    requires |ready| == PRIORITIES && |pl| == MAX_TASKS && ReadyMatches(ready, pl)
    requires pl[t] == OnReady(p) || (!pl[t].OnReady? && |ready[p]| != 1)
    requires !to.OnReady?
    ensures ReadyMatches(ready[p := Removed(ready[p], t)], pl[t := to])
  {
    assert pl[t] == OnReady(p) ==> In(ready[p], t);
    InIndex(ready[p], t);
    forall u: Tid
      ensures In(Removed(ready[p], t), u) <==> u != t && In(ready[p], u)
    {
      RemovedMembers(ready[p], t, u);
    }
    RemovedMembers(ready[p], t, t);
  }

  lemma OfferMoves(sends: seq<seq<Tid>>, pl: seq<Place>, r: Tid, t: Tid)
    requires |sends| == |pl| == MAX_TASKS && SendsMatch(sends, pl) && !pl[t].OnSend?
    ensures SendsMatch(sends[r := sends[r] + [t]], pl[t := OnSend(r)])
  {
    assert !In(sends[r], t);
    AppendDistinct(sends[r], t);
    forall u: Tid {
      AppendMembers(sends[r], t, u);
    }
  }

  lemma TakeMoves(sends: seq<seq<Tid>>, pl: seq<Place>, r: Tid, to: Place)
    requires |sends| == |pl| == MAX_TASKS && SendsMatch(sends, pl) && sends[r] != [] && !to.OnSend?
    ensures pl[sends[r][0]] == OnSend(r)
    ensures SendsMatch(sends[r := sends[r][1..]], pl[sends[r][0] := to])
  {
    assert In(sends[r], sends[r][0]);
    forall u: Tid {
      TailMembers(sends[r], u);
    }
  }

  lemma FillMoves(slots: seq<int>, pl: seq<Place>, e: Event, t: Tid)
    requires |slots| == EVENTS && |pl| == MAX_TASKS && SlotsMatch(slots, pl) && slots[e] == NONE && !pl[t].InSlot?
    ensures SlotsMatch(slots[e := t], pl[t := InSlot(e)])
  {
  }

  lemma ClearMoves(slots: seq<int>, pl: seq<Place>, e: Event, t: Tid, to: Place)
    requires |slots| == EVENTS && |pl| == MAX_TASKS && SlotsMatch(slots, pl) && slots[e] == t && !to.InSlot?
    ensures SlotsMatch(slots[e := NONE], pl[t := to])
  {
    assert pl[t] == InSlot(e);
  }

  /** Places of other kinds are none of a queue's business. */
  lemma MovesElsewhere(k: Kernel, pl: seq<Place>, t: Tid, to: Place)
    requires |pl| == MAX_TASKS
    ensures ReadyMatches(k.ready, pl) && !pl[t].OnReady? && !to.OnReady? ==> ReadyMatches(k.ready, pl[t := to])
    ensures SendsMatch(k.sends, pl) && !pl[t].OnSend? && !to.OnSend? ==> SendsMatch(k.sends, pl[t := to])
    ensures SlotsMatch(k.slots, pl) && !pl[t].InSlot? && !to.InSlot? ==> SlotsMatch(k.slots, pl[t := to])
  {
  }

  // ---- the same for the whole kernel ----

  lemma RegisterPlaces(k: Kernel, pl: seq<Place>, t: Tid)
    requires |pl| == MAX_TASKS && Matches(k, pl) && pl[t] == Nowhere
    ensures Matches(Register(k, t), pl[t := OnReady(k.tasks[t].priority)])
  {
    RegisterMoves(k.ready, pl, k.tasks[t].priority, t);
    MovesElsewhere(k, pl, t, OnReady(k.tasks[t].priority));
  }

  lemma OfferPlaces(k: Kernel, pl: seq<Place>, r: Tid, t: Tid)
    requires |pl| == MAX_TASKS && Matches(k, pl) && pl[t] == Nowhere
    ensures Matches(WithSends(k, r, k.sends[r] + [t]), pl[t := OnSend(r)])
  {
    OfferMoves(k.sends, pl, r, t);
    MovesElsewhere(k, pl, t, OnSend(r));
  }

  lemma TakePlaces(k: Kernel, pl: seq<Place>, r: Tid)
    requires |pl| == MAX_TASKS && Matches(k, pl) && k.sends[r] != []
    ensures pl[k.sends[r][0]] == OnSend(r)
    ensures Matches(WithSends(k, r, k.sends[r][1..]), pl[k.sends[r][0] := Nowhere])
  {
    TakeMoves(k.sends, pl, r, Nowhere);
    MovesElsewhere(k, pl, k.sends[r][0], Nowhere);
  }

  /** Receivers with nobody to receive from: those waiting for a message, and the dead. */
  predicate Deaf(task: Task) {
    task.state == SendBlocked || task.state == Zombie
  }

  ghost predicate Quiet(k: Kernel, except: int) {
    forall t: Tid :: t != except && Deaf(k.tasks[t]) ==> k.sends[t] == []
  }

  ghost predicate OnlyActive(k: Kernel, running: int) {
    forall t: Tid :: k.tasks[t].state == Active ==> t == running
  }

  /** The invariant of the queues, with a task running (or NONE between turns). */
  ghost predicate Kept(k: Kernel, running: int) {
    Matches(k, Places(k.tasks, running)) && Quiet(k, NONE) && OnlyActive(k, running)
  }

  lemma ResetKeeps()
    ensures Kept(Reset(), NONE)
  {
  }

  lemma CreateKeeps(k: Kernel, priority: int, running: int)
    requires Kept(k, running) && (CanCreate(k, priority) ==>
               var t := NextAvailable(k.available, 0); k.tasks[t].state == Zombie && t != running)
    ensures Kept(Created(k, priority), running)
  {
    if CanCreate(k, priority) {
      var t := NextAvailable(k.available, 0);
      var k' := Created(k, priority);
      assert k.sends[t := []] == k.sends;
      RegisterPlaces(k.(tasks := k'.tasks), Places(k.tasks, running), t);
      assert Places(k'.tasks, running) == Places(k.tasks, running)[t := OnReady(priority)];
    }
  }

  /** An operation that leaves states, priorities, receivers and events alone moves nobody. */
  lemma ReturnKeeps(k: Kernel, t: Tid, value: int, running: int)
    requires Kept(k, running)
    ensures Kept(Return(k, t, value), running)
  {
    assert Places(Return(k, t, value).tasks, running) == Places(k.tasks, running);
  }

  lemma OfferKeeps(k: Kernel, receiver: Tid)
    requires Kept(k, k.current) && k.tasks[k.current].state == Active && k.tasks[k.current].to % MAX_TASKS == receiver
    ensures Kept(Offered(k, k.current, receiver), k.current)
  {
    hide ReadyMatches, SendsMatch, SlotsMatch;
    var c, pl := k.current, Places(k.tasks, k.current);
    var k' := Offered(k, c, receiver);
    match k.tasks[receiver].state
    case Zombie =>
      ReturnKeeps(k, c, -2, c);
    case SendBlocked =>
      RegisterPlaces(Transmitted(k, c, receiver), pl, receiver);
      assert Places(k'.tasks, c) == pl[receiver := OnReady(k.tasks[receiver].priority)];
    case _ =>
      OfferPlaces(SetState(k, c, ReceiveBlocked), pl, receiver, c);
      assert Places(k'.tasks, c) == pl[c := OnSend(receiver)];
  }

  lemma SendKeeps(k: Kernel, to: int, message: seq<bv8>, buffer: seq<bv8>)
    requires Kept(k, k.current) && k.tasks[k.current].state == Active
    ensures Kept(Sent(k, to, message, buffer), k.current)
  {
    var k1 := Calling(k, to, message, buffer);
    assert Places(k1.tasks, k.current) == Places(k.tasks, k.current);
    if !IsValid(k, to) {
      ReturnKeeps(k1, k.current, -2, k.current);
    } else {
      OfferKeeps(k1, to % MAX_TASKS);
    }
  }

  lemma ReceiveKeeps(k: Kernel, buffer: seq<bv8>)
    requires Kept(k, k.current) && k.tasks[k.current].state == Active
    ensures Kept(Received(k, buffer), k.current)
  {
    var c, pl := k.current, Places(k.tasks, k.current);
    var k' := Received(k, buffer);
    if k.sends[c] == [] {
      assert Places(k'.tasks, c) == pl;
    } else {
      TakePlaces(k, pl, c);
      assert Places(k'.tasks, c) == pl[k.sends[c][0] := Nowhere];
    }
  }

  lemma ReplyKeeps(k: Kernel, to: int, message: seq<bv8>)
    requires Kept(k, k.current) && k.tasks[k.current].state == Active
    ensures Kept(Replied(k, to, message), k.current)
  {
    var c, s, pl := k.current, to % MAX_TASKS, Places(k.tasks, k.current);
    var k' := Replied(k, to, message);
    ReturnKeeps(k, c, -2, c);
    ReturnKeeps(k, c, -3, c);
    if IsValid(k, to) && k.tasks[s].state == ReplyBlocked {
      RegisterPlaces(k.(tasks := k'.tasks), pl, s);
      assert Places(k'.tasks, c) == pl[s := OnReady(k.tasks[s].priority)];
    }
  }

  lemma TakenSlotHasTask(k: Kernel, e: Event, running: int)
    requires Kept(k, running)
    ensures k.slots[e] != NONE <==> EventHasTask(k, e)
  {
    if k.slots[e] != NONE {
      assert Places(k.tasks, running)[k.slots[e]] == InSlot(e);
    }
  }

  lemma AwaitKeeps(k: Kernel, event: int)
    requires Kept(k, k.current) && k.tasks[k.current].state == Active
    ensures Kept(Awaited(k, event), k.current)
  {
    var c, pl := k.current, Places(k.tasks, k.current);
    var k' := Awaited(k, event);
    ReturnKeeps(k, c, -1, c);
    ReturnKeeps(k, c, -3, c);
    if 0 <= event < EVENTS && !EventHasTask(k, event) {
      TakenSlotHasTask(k, event, c);
      FillMoves(k.slots, pl, event, c);
      MovesElsewhere(k, pl, c, InSlot(event));
      assert Places(k'.tasks, c) == pl[c := InSlot(event)];
    }
  }

  lemma FireKeeps(k: Kernel, e: Event, data: int, running: int)
    requires Kept(k, running) && 0 <= running < MAX_TASKS && k.tasks[running].state == Active
    ensures Kept(Fired(k, e, data), running)
  {
    if EventHasTask(k, e) {
      var t: Tid, pl := k.slots[e], Places(k.tasks, running);
      var k' := Fired(k, e, data);
      assert pl[t] == InSlot(e);
      ClearMoves(k.slots, pl, e, t, Nowhere);
      MovesElsewhere(k, pl, t, Nowhere);
      RegisterPlaces(k.(tasks := k'.tasks, slots := k'.slots), pl[t := Nowhere], t);
      assert pl[t := Nowhere][t := OnReady(k.tasks[t].priority)] == Places(k'.tasks, running) == pl[t := OnReady(k.tasks[t].priority)];
    }
  }

  ghost predicate OffReady(ready: seq<seq<Tid>>, t: Tid)
    requires |ready| == PRIORITIES
  {
    forall p :: 0 <= p < PRIORITIES ==> !In(ready[p], t)
  }

  ghost predicate OffSends(sends: seq<seq<Tid>>, t: Tid)
    requires |sends| == MAX_TASKS
  {
    forall r :: 0 <= r < MAX_TASKS ==> !In(sends[r], t)
  }

  lemma OffQueues(k: Kernel, pl: seq<Place>, t: Tid)
    requires |pl| == MAX_TASKS && Matches(k, pl)
    ensures !pl[t].OnReady? ==> OffReady(k.ready, t)
    ensures !pl[t].OnSend? ==> OffSends(k.sends, t)
  {
  }

  // ---- the turn of a task ----

  /** A picked task was runnable, as schedule asserts. */
  lemma PickKeeps(k: Kernel)
    requires Kept(k, NONE) && Schedule(k).Run?
    ensures k.tasks[Schedule(k).t].state == Runnable
    ensures var k' := Picked(k); Kept(k', k'.current) && k'.tasks[k'.current].state == Active
  {
    var h, pl, k' := HighestReady(k.ready, PRIORITIES - 1), Places(k.tasks, NONE), Picked(k);
    var t := k.ready[h][0];
    DequeueMoves(k.ready, pl, h, Nowhere);
    MovesElsewhere(k, pl, t, Nowhere);
    assert Places(k'.tasks, t) == pl[t := Nowhere];
  }

  lemma FinishKeeps(k: Kernel)
    requires Kept(k, k.current)
    ensures Kept(Finished(k), NONE)
  {
    var c, pl := k.current, Places(k.tasks, k.current);
    var k' := Finished(k);
    if k.tasks[c].state == Runnable || k.tasks[c].state == Active {
      RegisterPlaces(k.(tasks := k'.tasks), pl, c);
      assert Places(k'.tasks, NONE) == pl[c := OnReady(k.tasks[c].priority)];
    } else {
      assert Places(k.tasks, NONE) == pl;
    }
  }

  /** Pass registers the running task, which schedule then registers again: the ready queues have the same
      tasks in the same order as if it had been registered once. */
  lemma PassKeeps(k: Kernel)
    requires Kept(k, k.current) && k.tasks[k.current].state == Active
    ensures Kept(Finished(Passed(k)), NONE)
    ensures forall p: Priority :: Finished(Passed(k)).ready[p] == Finished(k).ready[p]
  {
    var c, p, pl := k.current, k.tasks[k.current].priority, Places(k.tasks, k.current);
    var k1, k2 := Passed(k), Finished(Passed(k));
    RegisterPlaces(k, pl, c);
    assert !In(k.ready[p], c);
    EnqueuedMembers(k.ready[p], c, c);
    RegisterAgainStays(k1.ready, pl[c := OnReady(p)], p, c);
    assert Places(k2.tasks, NONE) == pl[c := OnReady(p)];
  }
}
