/** What the invariant means for scheduling, events, task ids and dead slots. */
module KernelSchedule {
  import opened Basics
  import opened TaskQueue
  import opened QueueFacts
  import opened KernelModel
  import opened KernelQueues
  import opened KernelKill
  import opened KernelLinks
  import opened KernelUnlink
  import opened KernelInvariant

  // ---- scheduling ----

  /** A task is on the ready queue of its priority if it is runnable, on the queue of the task it sends to if
      receive-blocked, in the slot of its event if event-blocked, and otherwise nowhere; on each queue once. */
  lemma StateFixesPlace(k: Kernel, t: Tid, p: Priority, r: Tid, e: Event)
    requires Kept(k, NONE)
    ensures In(k.ready[p], t) <==> k.tasks[t].state == Runnable && k.tasks[t].priority == p
    ensures In(k.sends[r], t) <==> k.tasks[t].state == ReceiveBlocked && k.tasks[t].to % MAX_TASKS == r
    ensures k.slots[e] == t <==> k.tasks[t].state == EventBlocked && k.tasks[t].blockedOn == e
    ensures Distinct(k.ready[p]) && Distinct(k.sends[r])
  {
    assert Places(k.tasks, NONE)[t] == PlaceOf(k.tasks[t], false);
  }

  /** schedule picks a runnable task of the highest priority, the first of its queue. */
  lemma PickIsHighest(k: Kernel, u: Tid)
    requires Kept(k, NONE) && Schedule(k).Run?
    ensures var t := Schedule(k).t;
            && k.tasks[t].state == Runnable && IsFirst(k.ready[k.tasks[t].priority], t)
            && (k.tasks[u].state == Runnable ==> k.tasks[u].priority <= k.tasks[t].priority)
  {
    var h := HighestReady(k.ready, PRIORITIES - 1);
    var t := k.ready[h][0];
    assert In(k.ready[h], t);
    StateFixesPlace(k, t, h, 0, 0);
    StateFixesPlace(k, u, k.tasks[u].priority, 0, 0);
  }

  lemma SomebodyReady(k: Kernel)
    requires Kept(k, NONE)
    ensures Schedule(k).Run? <==> exists t: Tid :: k.tasks[t].state == Runnable
  {
    if Schedule(k).Run? {
      PickIsHighest(k, 0);
    }
    forall t: Tid
      ensures k.tasks[t].state == Runnable ==> Schedule(k).Run?
    {
      StateFixesPlace(k, t, k.tasks[t].priority, 0, 0);
    }
  }

  /** schedule returns false exactly if every live task is blocked on a message, and stops the kernel exactly
      if nobody can run but somebody waits for an event. */
  lemma ScheduleReturnsFalse(k: Kernel)
    requires Invariant(k, NONE)
    ensures Schedule(k) == Nothing <==> forall t: Tid ::
              k.tasks[t].state in {Zombie, ReceiveBlocked, SendBlocked, ReplyBlocked}
    ensures Schedule(k) == Halt <==> && (forall t: Tid :: k.tasks[t].state != Runnable)
                                     && (exists t: Tid :: k.tasks[t].state == EventBlocked)
  {
    SomebodyReady(k);
    if k.eventBlocked == 0 {
      forall t: Tid
        ensures k.tasks[t].state != EventBlocked
      {
        assert t !in Waiting(k.tasks);
      }
    } else {
      var t :| t in Waiting(k.tasks);
      assert k.tasks[t].state == EventBlocked;
    }
  }

  // ---- events ----

  function Taken(slots: seq<int>): set<nat> {
    set e | 0 <= e < |slots| && slots[e] != NONE
  }

  lemma {:induction false} TakenBound(slots: seq<int>)
    ensures |Taken(slots)| <= |slots|
  {
    if slots == [] {
      assert Taken(slots) == {};
    } else {
      var n := |slots| - 1;
      TakenBound(slots[..n]);
      assert Taken(slots) == if slots[n] != NONE then Taken(slots[..n]) + {n} else Taken(slots[..n]);
    }
  }

  /** The tasks in the slots of some events are as many as the events. */
  lemma {:induction false} InjectiveSize(slots: seq<int>, es: set<nat>, ts: set<nat>)
    requires forall e :: e in es ==> e < |slots| && slots[e] >= 0 && slots[e] in ts
    requires forall t :: t in ts ==> exists e :: e in es && slots[e] == t
    requires forall e, f :: e in es && f in es && slots[e] == slots[f] ==> e == f
    ensures |es| == |ts|
    decreases es
  {
    if es != {} {
      var e :| e in es;
      var t: nat := slots[e];
      forall u | u in ts - {t}
        ensures exists f :: f in es - {e} && slots[f] == u
      {
        var f :| f in es && slots[f] == u;
        assert f in es - {e};
      }
      InjectiveSize(slots, es - {e}, ts - {t});
    } else {
      assert ts == {};
    }
  }

  /** tasks_event_blocked is the number of event-blocked tasks and of taken slots. */
  lemma EventsCounted(k: Kernel, running: int)
    requires Invariant(k, running)
    ensures k.eventBlocked == |Waiting(k.tasks)| == |Taken(k.slots)| <= EVENTS
  {
    var pl := Places(k.tasks, running);
    forall e | e in Taken(k.slots)
      ensures k.slots[e] >= 0 && k.slots[e] in Waiting(k.tasks) && pl[k.slots[e]] == InSlot(e)
    {
      assert pl[k.slots[e]] == InSlot(e);
    }
    forall t | t in Waiting(k.tasks)
      ensures exists e :: e in Taken(k.slots) && k.slots[e] == t
    {
      assert pl[t] == InSlot(k.tasks[t].blockedOn);
      assert k.tasks[t].blockedOn in Taken(k.slots);
    }
    InjectiveSize(k.slots, Taken(k.slots), Waiting(k.tasks));
    TakenBound(k.slots);
  }

  // ---- order of the ready queues ----

  lemma {:induction false} DismissExtends(k: Kernel, t: Tid, p: Priority)
    ensures k.ready[p] <= Dismissed(k, t).ready[p]
    decreases |k.sends[t]|
  {
    if k.sends[t] != [] {
      DismissExtends(DismissedOne(k, t), t, p);
    }
  }

  /** The ready queue of priority `p` without the killed task. */
  function Survivors(k: Kernel, call: Call, p: Priority): seq<Tid> {
    if call.Kill? && KillResult(k, call.tid) == 0 && k.tasks[Lookup(call.tid)].priority == p
    then Removed(k.ready[p], Lookup(call.tid))
    else k.ready[p]
  }

  lemma SendExtends(k: Kernel, to: int, message: seq<bv8>, buffer: seq<bv8>, p: Priority)
    ensures k.ready[p] <= Sent(k, to, message, buffer).ready[p]
    ensures Sent(k, to, message, buffer).nextGeneration == k.nextGeneration
  {
  }

  lemma ReceiveLeavesReady(k: Kernel, buffer: seq<bv8>)
    ensures Received(k, buffer).ready == k.ready
    ensures Received(k, buffer).nextGeneration == k.nextGeneration
  {
  }

  lemma {:induction false} DismissKeepsGenerations(k: Kernel, t: Tid)
    ensures Dismissed(k, t).nextGeneration == k.nextGeneration
    decreases |k.sends[t]|
  {
    if k.sends[t] != [] {
      DismissKeepsGenerations(DismissedOne(k, t), t);
    }
  }

  lemma KillExtends(k: Kernel, t: Tid, p: Priority)
    ensures Deregister(k, t).ready[p] <= Killed(k, t).ready[p]
    ensures Killed(k, t).nextGeneration == k.nextGeneration
  {
    var k3 := Retired(Deregister(Disarmed(k, t), t), t);
    DismissExtends(k3, t, p);
    DismissKeepsGenerations(k3, t);
  }

  lemma RegisterExtends(k: Kernel, t: Tid, p: Priority)
    ensures k.ready[p] <= Register(k, t).ready[p]
    ensures Register(k, t).nextGeneration == k.nextGeneration
  {
  }

  lemma CreateExtends(k: Kernel, priority: int, p: Priority)
    ensures k.ready[p] <= Created(k, priority).ready[p]
  {
    hide Register;
    if CanCreate(k, priority) {
      var t := NextAvailable(k.available, 0);
      RegisterExtends(Initialised(k, t, priority), t, p);
    }
  }

  lemma ReplyExtends(k: Kernel, to: int, message: seq<bv8>, p: Priority)
    ensures k.ready[p] <= Replied(k, to, message).ready[p]
    ensures Replied(k, to, message).nextGeneration == k.nextGeneration
  {
    hide Register;
    if IsValid(k, to) && k.tasks[to % MAX_TASKS].state == ReplyBlocked {
      var s := to % MAX_TASKS;
      var task := k.tasks[s];
      var k1 := Return(k, k.current, if |task.buffer| < |message| then -1 else 0);
      var k2 := WithTask(k1, s, task.(result := CopyResult(task.buffer, message), buffer := Filled(task.buffer, message)));
      RegisterExtends(SetState(k2, s, Runnable), s, p);
    }
  }

  lemma FireExtends(k: Kernel, e: Event, data: int, p: Priority)
    ensures k.ready[p] <= Fired(k, e, data).ready[p]
    ensures Fired(k, e, data).nextGeneration == k.nextGeneration
  {
    hide Register;
    if EventHasTask(k, e) {
      var t := k.slots[e];
      var k1 := SetState(Return(k, t, data), t, Runnable);
      RegisterExtends(WithTask(k1, t, k1.tasks[t].(blockedOn := NOT_BLOCKED)).(slots := k.slots[e := NONE]), t, p);
    }
  }

  lemma AwaitLeavesReady(k: Kernel, event: int)
    ensures Awaited(k, event).ready == k.ready
    ensures Awaited(k, event).nextGeneration == k.nextGeneration
  {
  }

  lemma OthersExtend(k: Kernel, call: Call, p: Priority)
    requires Allowed(k, call) && !call.Exit? && !call.Send? && !call.Receive? && !call.Kill?
    ensures k.ready[p] <= Performed(k, call).ready[p]
    ensures !call.Create? ==> Performed(k, call).nextGeneration == k.nextGeneration
  {
    hide Register, Created, Replied, Awaited, Fired, Sent, Received, Killed, Exited;
    match call
    case Create(priority) => CreateExtends(k, priority, p);
    case Pass => RegisterExtends(k, k.current, p);
    case Reply(to, message) => ReplyExtends(k, to, message, p);
    case AwaitEvent(event) => AwaitLeavesReady(k, event);
    case Interrupt(e, data) => if e != NONE { FireExtends(k, e, data, p); }
    case _ =>
  }

  lemma PerformExtends(k: Kernel, call: Call, p: Priority)
    requires Proper(k, call)
    ensures Survivors(k, call, p) <= Performed(k, call).ready[p]
  {
    hide Sent, Received, Killed, Created, Replied, Awaited, Fired;
    match call
    case Exit => DismissExtends(Retired(k, k.current), k.current, p);
    case Send(to, message, buffer) => SendExtends(k, to, message, buffer, p);
    case Receive(buffer) => ReceiveLeavesReady(k, buffer);
    case Kill(tid) =>
      if KillResult(k, tid) == 0 {
        KillExtends(k, Lookup(tid), p);
      }
    case _ => OthersExtend(k, call, p);
  }

  /** First in, first out: of each priority the tasks go on in the order they were in, without the one
      picked or killed, and those registered in the turn are behind them. */
  lemma NobodyOvertakes(k: Kernel, call: Call, p: Priority)
    requires Kept(k, NONE) && CanTurn(k, call)
    ensures Picked(k).ready[p] == if IsFirst(k.ready[p], Schedule(k).t) then k.ready[p][1..] else k.ready[p]
    ensures Survivors(Picked(k), call, p) <= Step(k, call).ready[p]
  {
    hide Performed, Survivors;
    var h := HighestReady(k.ready, PRIORITIES - 1);
    assert In(k.ready[h], Schedule(k).t);
    StateFixesPlace(k, Schedule(k).t, h, 0, 0);
    StateFixesPlace(k, Schedule(k).t, p, 0, 0);
    assert IsFirst(k.ready[p], Schedule(k).t) ==> In(k.ready[p], Schedule(k).t);
    PerformExtends(Picked(k), call, p);
  }

  // ---- task ids ----

  /** The tids returned by Create in a run. */
  ghost function CreatedTids(states: seq<Kernel>, calls: seq<Call>): seq<int>
    requires IsRun(states, calls)
    decreases |calls|
  {
    if calls == [] then []
    else
      RestIsRun(states, calls);
      CreatedTid(states[0], calls[0]) + CreatedTids(states[1..], calls[1..])
  }

  ghost function CreatedTid(k: Kernel, call: Call): seq<int>
    requires CanTurn(k, call)
  {
    if call.Create? && CanCreate(Picked(k), call.priority) then [CreateResult(Picked(k), call.priority)] else []
  }

  /** A tid of a task yet to be created: its generation is not over. */
  predicate Unborn(k: Kernel, tid: int) {
    && 0 < tid < GENERATIONS * MAX_TASKS && tid % MAX_TASKS != 0
    && tid / MAX_TASKS >= k.nextGeneration[tid % MAX_TASKS]
  }

  lemma NewTid(k: Kernel, priority: int, running: int)
    requires TidsKept(k) && CanCreate(k, priority)
    ensures var tid, k' := CreateResult(k, priority), Created(k, priority);
            && Unborn(k, tid) && !Unborn(k', tid)
            && k.tasks[tid % MAX_TASKS].state == Zombie && k'.tasks[tid % MAX_TASKS].state == Runnable
            && Userland(k', tid % MAX_TASKS) == tid && k'.tasks[tid % MAX_TASKS].priority == priority
  {
    var t := NextAvailable(k.available, 0);
    assert SlotKept(k, t);
    SlotOfTid(k.nextGeneration[t], t);
  }

  lemma SlotOfTid(generation: nat, t: Tid)
    ensures (generation * MAX_TASKS + t) % MAX_TASKS == t
    ensures (generation * MAX_TASKS + t) / MAX_TASKS == generation
  {
  }

  lemma GenerationsGrow(k: Kernel, call: Call)
    requires CanTurn(k, call)
    ensures Step(k, call).nextGeneration ==
            if call.Create? then Created(Picked(k), call.priority).nextGeneration else k.nextGeneration
  {
    hide Created, Replied, Awaited, Fired, Sent, Received, Killed;
    var k1 := Picked(k);
    match call
    case Exit => DismissKeepsGenerations(Retired(k1, k1.current), k1.current);
    case Send(to, message, buffer) => SendExtends(k1, to, message, buffer, 0);
    case Receive(buffer) => ReceiveLeavesReady(k1, buffer);
    case Kill(tid) =>
      if KillResult(k1, tid) == 0 {
        KillExtends(k1, Lookup(tid), 0);
      }
    case _ => OthersExtend(k1, call, 0);
  }

  lemma TurnTids(k: Kernel, call: Call, tid: int)
    requires Invariant(k, NONE) && CanTurn(k, call)
    ensures Unborn(Step(k, call), tid) ==> Unborn(k, tid)
    ensures CreatedTid(k, call) != [] ==>
              var created := CreatedTid(k, call)[0]; Unborn(k, created) && !Unborn(Step(k, call), created)
  {
    GenerationsGrow(k, call);
    PickPreserves(k);
    if call.Create? && CanCreate(Picked(k), call.priority) {
      NewTid(Picked(k), call.priority, Picked(k).current);
    }
  }

  /** Over a whole run no tid is given out twice, and all are between 1 and 63999 and not of slot 0. */
  lemma {:induction false} TidsAreDistinct(states: seq<Kernel>, calls: seq<Call>)
    requires IsRun(states, calls) && Invariant(states[0], NONE)
    ensures Distinct(CreatedTids(states, calls))
    ensures forall i :: 0 <= i < |CreatedTids(states, calls)| ==> Unborn(states[0], CreatedTids(states, calls)[i])
    decreases |calls|
  {
    hide Invariant, Unborn, Step, Picked, CanCreate, CreateResult, Schedule, Proper;
    if calls != [] {
      RestIsRun(states, calls);
      StepPreserves(states[0], calls[0]);
      TidsAreDistinct(states[1..], calls[1..]);
      forall tid: int
        ensures Unborn(states[1], tid) ==> Unborn(states[0], tid)
      {
        TurnTids(states[0], calls[0], tid);
      }
      TurnTids(states[0], calls[0], 0);
    }
  }
}
