/** What every run of the kernel keeps besides its queues: task ids, event counts, and all of it together. */
module KernelInvariant {
  import opened Basics
  import opened TaskQueue
  import opened QueueFacts
  import opened KernelModel
  import opened KernelQueues
  import opened KernelKill
  import opened KernelLinks
  import opened KernelUnlink

  // ---- task ids ----

  /** A slot is available or lives or is used up; slot 0 is never used. */
  ghost predicate SlotKept(k: Kernel, t: Tid) {
    var next, zombie := k.nextGeneration[t], k.tasks[t].state == Zombie;
    && next <= GENERATIONS
    && (t == 0 ==> next == 0 && zombie && !k.available[t])
    && (t != 0 ==> (k.available[t] <==> zombie && next < GENERATIONS))
    && (!zombie ==> next > 0 && k.tasks[t].generation == next - 1)
  }

  ghost predicate TidsKept(k: Kernel) {
    forall t: Tid :: SlotKept(k, t)
  }

  /** No task is born or dies. */
  ghost predicate SameLives(k: Kernel, k': Kernel) {
    && k'.available == k.available && k'.nextGeneration == k.nextGeneration
    && forall t: Tid :: k'.tasks[t].generation == k.tasks[t].generation
                        && (k'.tasks[t].state == Zombie <==> k.tasks[t].state == Zombie)
  }

  lemma SameLivesKeepTids(k: Kernel, k': Kernel)
    requires SameLives(k, k') && TidsKept(k)
    ensures TidsKept(k')
  {
    forall t: Tid
      ensures SlotKept(k', t)
    {
      assert SlotKept(k, t);
    }
  }

  lemma {:induction false} DismissBearsNobody(k: Kernel, t: Tid)
    ensures SameLives(k, Dismissed(k, t))
    ensures forall u: Tid :: Dismissed(k, t).tasks[u].state == k.tasks[u].state || Dismissed(k, t).tasks[u].state == Runnable
    decreases |k.sends[t]|
  {
    if k.sends[t] != [] {
      DismissBearsNobody(DismissedOne(k, t), t);
    }
  }

  lemma RetireKeepsTids(k: Kernel, t: Tid)
    requires TidsKept(k) && k.tasks[t].state != Zombie
    ensures TidsKept(Retired(k, t))
  {
    forall u: Tid
      ensures SlotKept(Retired(k, t), u)
    {
      assert SlotKept(k, u);
    }
  }

  lemma CreateKeepsTids(k: Kernel, priority: int)
    requires TidsKept(k)
    ensures TidsKept(Created(k, priority))
    ensures CanCreate(k, priority) ==> k.tasks[NextAvailable(k.available, 0)].state == Zombie
  {
    var k' := Created(k, priority);
    forall u: Tid
      ensures SlotKept(k', u)
      ensures k.available[u] ==> k.tasks[u].state == Zombie
    {
      assert SlotKept(k, u);
    }
  }

  /** The first waiting sender is alive. */
  lemma HeadSenderLives(k: Kernel, r: Tid, running: int)
    requires Kept(k, running) && k.sends[r] != []
    ensures k.tasks[k.sends[r][0]].state == ReceiveBlocked
  {
    assert In(k.sends[r], k.sends[r][0]);
    assert Places(k.tasks, running)[k.sends[r][0]] == OnSend(r);
  }

  // ---- events ----

  function Waiting(tasks: seq<Task>): set<nat> {
    set t | 0 <= t < |tasks| && tasks[t].state == EventBlocked
  }

  /** A task waiting for an event has AwaitEvent's provisional result; no other live task is marked as waiting. */
  predicate EventMarked(task: Task) {
    if task.state == EventBlocked then task.result == AWAITED
    else task.state != Zombie ==> task.blockedOn == NOT_BLOCKED
  }

  ghost predicate EventsKept(k: Kernel) {
    k.eventBlocked == |Waiting(k.tasks)| && forall t: Tid :: EventMarked(k.tasks[t])
  }

  lemma SetStateCounts(k: Kernel, t: Tid, state: State)
    requires k.eventBlocked == |Waiting(k.tasks)|
    requires k.tasks[t].state == EventBlocked ==> state == Runnable || state == Zombie
    ensures var k' := SetState(k, t, state); k'.eventBlocked == |Waiting(k'.tasks)|
  {
    var k' := SetState(k, t, state);
    if state == EventBlocked {
      assert Waiting(k'.tasks) == Waiting(k.tasks) + {t};
    } else {
      assert Waiting(k'.tasks) == Waiting(k.tasks) - {t};
    }
  }

  /** Changes of tasks that do not wait for events before or after. */
  lemma SameWaiting(k: Kernel, k': Kernel)
    requires EventsKept(k) && k'.eventBlocked == k.eventBlocked
    requires forall t: Tid :: (k'.tasks[t].state == EventBlocked <==> k.tasks[t].state == EventBlocked)
    requires forall t: Tid :: EventMarked(k'.tasks[t])
    ensures EventsKept(k')
  {
    assert Waiting(k'.tasks) == Waiting(k.tasks);
  }

  lemma {:induction false} DismissKeepsEvents(k: Kernel, t: Tid)
    requires EventsKept(k)
    ensures EventsKept(Dismissed(k, t))
    decreases |k.sends[t]|
  {
    if k.sends[t] != [] {
      SameWaiting(k, DismissedOne(k, t));
      DismissKeepsEvents(DismissedOne(k, t), t);
    }
  }

  lemma RetireKeepsEvents(k: Kernel, t: Tid)
    requires k.eventBlocked == |Waiting(k.tasks)| && forall u: Tid :: u != t ==> EventMarked(k.tasks[u])
    ensures EventsKept(Retired(k, t))
  {
    SetStateCounts(k, t, Zombie);
  }

  lemma KillKeepsEvents(k: Kernel, t: Tid)
    requires EventsKept(k)
    ensures EventsKept(Killed(k, t))
  {
    var k2 := Deregister(Disarmed(k, t), t);
    assert Waiting(k2.tasks) == Waiting(k.tasks);
    RetireKeepsEvents(k2, t);
    DismissKeepsEvents(Retired(k2, t), t);
  }

  lemma AwaitKeepsEvents(k: Kernel, event: int)
    requires EventsKept(k) && k.tasks[k.current].state == Active
    ensures EventsKept(Awaited(k, event))
  {
    var c, k' := k.current, Awaited(k, event);
    if 0 <= event < EVENTS && !EventHasTask(k, event) {
      assert Waiting(k'.tasks) == Waiting(k.tasks) + {c};
    } else {
      SameWaiting(k, k');
    }
  }

  lemma FireKeepsEvents(k: Kernel, e: Event, data: int)
    requires EventsKept(k)
    ensures EventsKept(Fired(k, e, data))
    ensures EventHasTask(k, e) ==> k.tasks[k.slots[e]].result == AWAITED
  {
    if EventHasTask(k, e) {
      assert Waiting(Fired(k, e, data).tasks) == Waiting(k.tasks) - {k.slots[e]};
    }
  }

  // ---- the whole invariant ----

  /** Between turns `running` is NONE, during a turn it is the current task. */
  ghost predicate Invariant(k: Kernel, running: int) {
    Kept(k, running) && Linked(k) && TidsKept(k) && EventsKept(k)
  }

  /** Calls that the kernel survives, with Kill of killable victims only. */
  ghost predicate Proper(k: Kernel, call: Call) {
    && Allowed(k, call)
    && (call.Kill? && KillResult(k, call.tid) == 0 ==> Killable(k, Lookup(call.tid)))
  }

  lemma OfferBearsNobody(k: Kernel, sender: Tid, receiver: Tid)
    requires k.tasks[sender].state == Active
    ensures SameLives(k, Offered(k, sender, receiver))
  {
  }

  lemma OfferKeepsEvents(k: Kernel, sender: Tid, receiver: Tid)
    requires EventsKept(k) && k.tasks[sender].state == Active
    ensures EventsKept(Offered(k, sender, receiver))
  {
    SameWaiting(k, Offered(k, sender, receiver));
  }

  lemma SendPreserves(k: Kernel, to: int, message: seq<bv8>, buffer: seq<bv8>)
    requires Invariant(k, k.current) && k.tasks[k.current].state == Active
    ensures Invariant(Sent(k, to, message, buffer), k.current)
  {
    hide Kept, Linked;
    SendKeeps(k, to, message, buffer);
    SendLinks(k, to, message, buffer);
    hide Offered;
    var k1 := Calling(k, to, message, buffer);
    SameLivesKeepTids(k, k1);
    SameWaiting(k, k1);
    if IsValid(k, to) {
      OfferBearsNobody(k1, k.current, to % MAX_TASKS);
      SameLivesKeepTids(k1, Sent(k, to, message, buffer));
      OfferKeepsEvents(k1, k.current, to % MAX_TASKS);
    } else {
      SameLivesKeepTids(k1, Sent(k, to, message, buffer));
      SameWaiting(k1, Sent(k, to, message, buffer));
    }
  }

  lemma ReceivePreserves(k: Kernel, buffer: seq<bv8>)
    requires Invariant(k, k.current) && k.tasks[k.current].state == Active
    ensures Invariant(Received(k, buffer), k.current)
  {
    hide Kept, Linked;
    ReceiveKeeps(k, buffer);
    ReceiveLinks(k, buffer);
    if k.sends[k.current] != [] {
      HeadSenderLives(k, k.current, k.current);
    }
    SameLivesKeepTids(k, Received(k, buffer));
    SameWaiting(k, Received(k, buffer));
  }

  lemma ReplyPreserves(k: Kernel, to: int, message: seq<bv8>)
    requires Invariant(k, k.current) && k.tasks[k.current].state == Active
    ensures Invariant(Replied(k, to, message), k.current)
  {
    hide Kept, Linked;
    ReplyKeeps(k, to, message);
    ReplyLinks(k, to, message);
    SameLivesKeepTids(k, Replied(k, to, message));
    SameWaiting(k, Replied(k, to, message));
  }

  lemma AwaitPreserves(k: Kernel, event: int)
    requires Invariant(k, k.current) && k.tasks[k.current].state == Active
    ensures Invariant(Awaited(k, event), k.current)
  {
    hide Kept, Linked;
    AwaitKeeps(k, event);
    AwaitLinks(k, event);
    SameLivesKeepTids(k, Awaited(k, event));
    AwaitKeepsEvents(k, event);
  }

  lemma FirePreserves(k: Kernel, e: Event, data: int)
    requires Invariant(k, k.current) && k.tasks[k.current].state == Active
    ensures Invariant(Fired(k, e, data), k.current)
  {
    hide Kept, Linked;
    FireKeeps(k, e, data, k.current);
    FireLinks(k, e, data, k.current);
    SameLivesKeepTids(k, Fired(k, e, data));
    FireKeepsEvents(k, e, data);
  }

  lemma ExitPreserves(k: Kernel)
    requires Invariant(k, k.current) && k.tasks[k.current].state == Active
    ensures Invariant(Exited(k), k.current)
  {
    hide Kept, Linked;
    var c := k.current;
    ExitKeeps(k);
    ExitLinks(k);
    RetireKeepsTids(k, c);
    DismissBearsNobody(Retired(k, c), c);
    SameLivesKeepTids(Retired(k, c), Exited(k));
    RetireKeepsEvents(k, c);
    DismissKeepsEvents(Retired(k, c), c);
  }

  lemma KillPreserves(k: Kernel, t: Tid)
    requires Invariant(k, k.current) && k.tasks[k.current].state == Active
    requires k.tasks[t].state != Zombie && Killable(k, t)
    ensures Invariant(Killed(k, t), k.current) && Killed(k, t).tasks[k.current].state != EventBlocked
  {
    hide Kept, Linked, Killable;
    KillKeepsExactly(k, t);
    var k2 := Deregister(Disarmed(k, t), t);
    SameLivesKeepTids(k, k2);
    RetireKeepsTids(k2, t);
    DismissBearsNobody(Retired(k2, t), t);
    SameLivesKeepTids(Retired(k2, t), Killed(k, t));
    KillKeepsEvents(k, t);
  }

  lemma CreatePreserves(k: Kernel, priority: int, running: int)
    requires Invariant(k, running) && (0 <= running < MAX_TASKS ==> k.tasks[running].state == Active)
    ensures Invariant(Created(k, priority), running)
    ensures 0 <= running < MAX_TASKS ==> Created(k, priority).tasks[running].state == Active
  {
    hide Kept, Linked;
    CreateKeepsTids(k, priority);
    CreateKeeps(k, priority, running);
    CreateLinks(k, priority, running);
    SameWaiting(k, Created(k, priority));
  }

  lemma ReturnPreserves(k: Kernel, value: int)
    requires Invariant(k, k.current) && k.tasks[k.current].state != EventBlocked
    ensures Invariant(Return(k, k.current, value), k.current)
  {
    hide Kept, Linked;
    ReturnKeeps(k, k.current, value, k.current);
    ReturnLinks(k, k.current, value);
    SameLivesKeepTids(k, Return(k, k.current, value));
    SameWaiting(k, Return(k, k.current, value));
  }

  lemma PerformPreserves(k: Kernel, call: Call)
    requires Invariant(k, k.current) && k.tasks[k.current].state == Active && Proper(k, call) && !call.Pass?
    ensures Invariant(Performed(k, call), k.current)
  {
    hide Invariant;
    match call
    case Create(priority) =>
      CreatePreserves(k, priority, k.current);
      ReturnPreserves(Created(k, priority), CreateResult(k, priority));
    case Exit => ExitPreserves(k);
    case Send(to, message, buffer) => SendPreserves(k, to, message, buffer);
    case Receive(buffer) => ReceivePreserves(k, buffer);
    case Reply(to, message) => ReplyPreserves(k, to, message);
    case AwaitEvent(event) => AwaitPreserves(k, event);
    case Kill(tid) =>
      if KillResult(k, tid) == 0 {
        KillPreserves(k, Lookup(tid));
        ReturnPreserves(Killed(k, Lookup(tid)), 0);
      } else {
        ReturnPreserves(k, KillResult(k, tid));
      }
    case Query(value) => ReturnPreserves(k, value);
    case Interrupt(e, data) =>
      if e != NONE {
        FirePreserves(k, e, data);
      }
  }

  lemma PickPreserves(k: Kernel)
    requires Invariant(k, NONE) && Schedule(k).Run?
    ensures var k' := Picked(k); Invariant(k', k'.current) && k'.tasks[k'.current].state == Active
  {
    hide Kept, Linked;
    PickKeeps(k);
    PickLinks(k);
    SameLivesKeepTids(k, Picked(k));
    SameWaiting(k, Picked(k));
  }

  lemma FinishPreserves(k: Kernel)
    requires Invariant(k, k.current)
    ensures Invariant(Finished(k), NONE)
  {
    hide Kept, Linked;
    FinishKeeps(k);
    FinishLinks(k);
    SameLivesKeepTids(k, Finished(k));
    SameWaiting(k, Finished(k));
  }

  lemma PassPreserves(k: Kernel)
    requires Invariant(k, k.current) && k.tasks[k.current].state == Active
    ensures Invariant(Finished(Passed(k)), NONE)
  {
    hide Kept, Linked;
    PassKeeps(k);
    PassLinks(k);
    SameLivesKeepTids(k, Finished(Passed(k)));
    SameWaiting(k, Finished(Passed(k)));
  }

  /** One turn: pick, one system call or interrupt, register again. */
  ghost predicate CanTurn(k: Kernel, call: Call) {
    Schedule(k).Run? && Proper(Picked(k), call)
  }

  lemma StepPreserves(k: Kernel, call: Call)
    requires Invariant(k, NONE) && CanTurn(k, call)
    ensures Invariant(Step(k, call), NONE)
  {
    hide Invariant;
    PickPreserves(k);
    if call.Pass? {
      PassPreserves(Picked(k));
    } else {
      PerformPreserves(Picked(k), call);
      FinishPreserves(Performed(Picked(k), call));
    }
  }

  ghost predicate Turns(k: Kernel, call: Call, k': Kernel) {
    CanTurn(k, call) && k' == Step(k, call)
  }

  /** A run of proper turns, with the states before, between and after them. */
  ghost predicate IsRun(states: seq<Kernel>, calls: seq<Call>) {
    |states| == |calls| + 1 && forall i {:trigger calls[i]} :: 0 <= i < |calls| ==> Turns(states[i], calls[i], states[i + 1])
  }

  lemma RestIsRun(states: seq<Kernel>, calls: seq<Call>)
    requires IsRun(states, calls) && calls != []
    ensures Turns(states[0], calls[0], states[1]) && IsRun(states[1..], calls[1..])
  {
    hide Turns;
    forall i | 0 <= i < |calls| - 1
      ensures Turns(states[1..][i], calls[1..][i], states[1..][i + 1])
    {
      assert calls[1..][i] == calls[i + 1];
    }
  }

  lemma {:induction false} RunPreserves(states: seq<Kernel>, calls: seq<Call>, i: nat)
    requires IsRun(states, calls) && i < |states| && Invariant(states[0], NONE)
    ensures Invariant(states[i], NONE)
  {
    hide Invariant, Step, CanTurn;
    if i > 0 {
      RunPreserves(states, calls, i - 1);
      assert Turns(states[i - 1], calls[i - 1], states[i]);
      StepPreserves(states[i - 1], calls[i - 1]);
    }
  }

  lemma ResetPreserves()
    ensures Invariant(Reset(), NONE)
  {
    ResetKeeps();
    ResetLinks();
  }

  lemma BootKeeps(priority: Priority)
    ensures Invariant(Boot(priority), NONE)
  {
    ResetPreserves();
    CreatePreserves(Reset(), priority, NONE);
  }

  /** From the first task on, every run keeps the invariant. */
  lemma EveryRunKeeps(priority: Priority, states: seq<Kernel>, calls: seq<Call>, i: nat)
    requires IsRun(states, calls) && i < |states| && states[0] == Boot(priority)
    ensures Invariant(states[i], NONE)
  {
    hide Invariant, Boot;
    BootKeeps(priority);
    RunPreserves(states, calls, i);
  }
}
