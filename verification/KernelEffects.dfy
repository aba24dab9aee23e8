/** What each call and interrupt does to the whole state, told apart from the operations that do it: the descriptors,
    queues and tables afterwards, in terms of those before. Only the pointers of the ready queues are left to
    `KernelLinks.dfy`. */
module KernelEffects {
  import opened Basics
  import opened TaskQueue
  import opened QueueFacts
  import opened KernelModel
  import opened KernelQueues
  import opened KernelKill
  import opened KernelLinks
  import opened KernelUnlink
  import opened KernelInvariant
  import opened KernelOutcomes

  // ---- effects of calls on a kernel whose current task is active ----

  /** The caller gets a result and nothing else changes. */
  predicate OnlyReturns(k: Kernel, k': Kernel, value: int) {
    k' == k.(tasks := k.tasks[k.current := k.tasks[k.current].(result := value)])
  }

  /** Task `t` has been registered, and nothing else changed but the descriptors. */
  predicate Registers(k: Kernel, k': Kernel, t: Tid) {
    var p := k.tasks[t].priority;
    k' == k.(tasks := k'.tasks, ready := k.ready[p := k.ready[p] + [t]], pairs := k'.pairs)
  }

  predicate IsLowestFree(k: Kernel, t: Tid) {
    k.available[t] && forall u :: 0 <= u < t ==> !k.available[u]
  }

  /** The first descriptor that is free is that of a new task, which is runnable and last of its priority. */
  predicate Creates(k: Kernel, k': Kernel, t: Tid, priority: Priority) {
    var task := Task(priority, Runnable, k.nextGeneration[t], NOT_BLOCKED, 0xF4330000 + t * 16, 0, [], [], 0);
    var caller := k.tasks[k.current].(result := k.nextGeneration[t] * MAX_TASKS + t);
    k' == k.(tasks := k.tasks[t := task][k.current := caller],
             ready := k.ready[priority := k.ready[priority] + [t]],
             pairs := k'.pairs,
             available := k.available[t := false],
             nextGeneration := k.nextGeneration[t := k.nextGeneration[t] + 1])
  }

  ghost predicate CreateEffect(k: Kernel, k': Kernel, priority: int) {
    if forall t: Tid :: !k.available[t] then OnlyReturns(k, k', -2)
    else if !(0 <= priority < PRIORITIES) then OnlyReturns(k, k', -1)
    else exists t: Tid :: IsLowestFree(k, t) && Creates(k, k', t, priority)
  }

  /** Those on a send queue that can run again when the task they wait for dies, by priority. */
  ghost function Freed(tasks: seq<Task>, s: seq<Tid>, p: Priority): seq<Tid>
    requires |tasks| == MAX_TASKS
  {
    if s == [] then []
    else (if tasks[s[0]].state == ReceiveBlocked && tasks[s[0]].priority == p then [s[0]] else []) + Freed(tasks, s[1..], p)
  }

  predicate WaitsFor(task: Task, t: Tid) {
    task.state == ReceiveBlocked && task.to % MAX_TASKS == t
  }

  /** Task `u` after the death of task `t`. */
  function Bereaved(task: Task, t: Tid): Task {
    if WaitsFor(task, t) then task.(state := Runnable, result := -2) else task
  }

  /** Task `t` dies: whoever waits to send to it can run with the result -2, in the order of the send queue and behind
      those on the ready queues `ready`; its slot can be used again unless its generations are used up; and no event
      wakes it any more. */
  ghost predicate Ends(k: Kernel, k': Kernel, t: Tid, ready: seq<seq<Tid>>)
    requires |ready| == PRIORITIES
  {
    var dead := k.tasks[t].(state := Zombie, blockedOn := NOT_BLOCKED);
    && (forall u: Tid :: k'.tasks[u] == if u == t then dead else Bereaved(k.tasks[u], t))
    && (forall p: Priority :: k'.ready[p] == ready[p] + Freed(k.tasks[t := dead], k.sends[t], p))
    && k'.sends == k.sends[t := []]
    && (forall e: Event :: k'.slots[e] == if k.slots[e] == t then NONE else k.slots[e])
    && (forall e: Event :: k'.armed[e] <==> k.armed[e] && k.slots[e] != t)
    && k'.eventBlocked == k.eventBlocked - (if k.tasks[t].state == EventBlocked then 1 else 0)
    && k'.available == k.available[t := k.nextGeneration[t] < GENERATIONS]
    && k'.nextGeneration == k.nextGeneration && k'.current == k.current
  }

  /** The ready queues once Kill has taken the victim off, or whoever is alone on the queue of its priority. */
  function WithoutVictim(k: Kernel, t: Tid): (ready: seq<seq<Tid>>)
    ensures |ready| == PRIORITIES
  {
    var p := k.tasks[t].priority;
    k.ready[p := if |k.ready[p]| == 1 then [] else Without(k.ready[p], t)]
  }

  function Got(task: Task, buffer: seq<bv8>, message: seq<bv8>): Task {
    task.(state := Runnable, result := if |message| > |buffer| then -1 else |message|, buffer := Filled(buffer, message))
  }

  predicate SendEffect(k: Kernel, k': Kernel, to: int, message: seq<bv8>, buffer: seq<bv8>) {
    var c, r := k.current, to % MAX_TASKS;
    var caller := k.tasks[c].(to := to, message := message, buffer := buffer);
    var tid := k.tasks[c].generation * MAX_TASKS + c;
    if to <= 0 || k.tasks[r].state == Zombie then
      k' == k.(tasks := k.tasks[c := caller.(result := -2)])
    else if k.tasks[r].state == SendBlocked then
      && Registers(k, k', r)
      && k'.tasks == k.tasks[c := caller.(state := ReplyBlocked)][r := Got(k.tasks[r], k.tasks[r].buffer, message).(from := tid)]
    else
      k' == k.(tasks := k.tasks[c := caller.(state := ReceiveBlocked)], sends := k.sends[r := k.sends[r] + [c]])
  }

  predicate ReceiveEffect(k: Kernel, k': Kernel, buffer: seq<bv8>) {
    var c := k.current;
    var caller := k.tasks[c].(to := 0, message := [], buffer := buffer);
    if k.sends[c] == [] then
      k' == k.(tasks := k.tasks[c := caller.(state := SendBlocked)])
    else
      var s := k.sends[c][0];
      var tid := k.tasks[s].generation * MAX_TASKS + s;
      k' == k.(tasks := k.tasks[c := Got(caller, buffer, k.tasks[s].message).(from := tid)]
                               [s := k.tasks[s].(state := ReplyBlocked)],
               sends := k.sends[c := k.sends[c][1..]])
  }

  predicate ReplyEffect(k: Kernel, k': Kernel, to: int, message: seq<bv8>) {
    var c, s := k.current, to % MAX_TASKS;
    if to <= 0 || k.tasks[s].state == Zombie then OnlyReturns(k, k', -2)
    else if k.tasks[s].state != ReplyBlocked then OnlyReturns(k, k', -3)
    else
      && Registers(k, k', s)
      && k'.tasks == k.tasks[c := k.tasks[c].(result := if |message| > |k.tasks[s].buffer| then -1 else 0)]
                            [s := Got(k.tasks[s], k.tasks[s].buffer, message)]
  }

  predicate AwaitEffect(k: Kernel, k': Kernel, event: int) {
    var c := k.current;
    if !(0 <= event < EVENTS) then OnlyReturns(k, k', -1)
    else if k.slots[event] != NONE then OnlyReturns(k, k', -3)
    else k' == k.(tasks := k.tasks[c := k.tasks[c].(state := EventBlocked, blockedOn := event, result := AWAITED)],
                  slots := k.slots[event := c], armed := k.armed[event := true], eventBlocked := k.eventBlocked + 1)
  }

  /** The task in the slot can run with the data and is last of its priority; the interrupted task, like every other,
      is as it was. */
  predicate InterruptEffect(k: Kernel, k': Kernel, e: int, data: int)
    requires e == NONE || 0 <= e < EVENTS
  {
    if e == NONE || !(0 <= k.slots[e] < MAX_TASKS) then k' == k
    else
      var t := k.slots[e];
      var p := k.tasks[t].priority;
      k' == k.(tasks := k.tasks[t := k.tasks[t].(state := Runnable, result := data, blockedOn := NOT_BLOCKED)],
               ready := k.ready[p := k.ready[p] + [t]], pairs := k'.pairs,
               slots := k.slots[e := NONE], eventBlocked := k.eventBlocked - 1)
  }

  /** Kill with the tid of any generation of a slot ends the task that lives in it now. A negative tid finds a slot only
      if it is a multiple of 64, and then slot 0. */
  ghost predicate KillEffect(k: Kernel, k': Kernel, tid: int) {
    var c := k.current;
    if tid == k.tasks[c].generation * MAX_TASKS + c then OnlyReturns(k, k', -2)
    else if tid < 0 && tid % MAX_TASKS != 0 then OnlyReturns(k, k', -1)
    else exists k1: Kernel :: Ends(k, k1, tid % MAX_TASKS, WithoutVictim(k, tid % MAX_TASKS)) && OnlyReturns(k1, k', 0)
  }

  ghost predicate Effect(k: Kernel, call: Call, k': Kernel)
    requires Allowed(k, call)
  {
    match call
    case Create(priority) => CreateEffect(k, k', priority)
    case Exit => Ends(k, k', k.current, k.ready)
    case Pass => Registers(k, k', k.current) && k'.tasks == k.tasks
    case Send(to, message, buffer) => SendEffect(k, k', to, message, buffer)
    case Receive(buffer) => ReceiveEffect(k, k', buffer)
    case Reply(to, message) => ReplyEffect(k, k', to, message)
    case AwaitEvent(event) => AwaitEffect(k, k', event)
    case Kill(tid) => KillEffect(k, k', tid)
    case Query(value) => OnlyReturns(k, k', value)
    case Interrupt(e, data) => InterruptEffect(k, k', e, data)
  }

  // ---- the operations have these effects ----

  lemma RegisterEffect(k: Kernel, t: Tid)
    requires !In(k.ready[k.tasks[t].priority], t)
    ensures Registers(k, Register(k, t), t) && Register(k, t).tasks == k.tasks
  {
    NotLast(k.ready[k.tasks[t].priority], t);
  }

  /** Whoever is not runnable, or runs, is on no ready queue. */
  lemma OffReadyUnlessRunnable(k: Kernel, t: Tid, p: Priority)
    requires Kept(k, k.current) && (k.tasks[t].state != Runnable || t == k.current)
    ensures !In(k.ready[p], t)
  {
    assert Places(k.tasks, k.current)[t] == PlaceOf(k.tasks[t], t == k.current);
  }

  lemma CreateHasEffect(k: Kernel, priority: int)
    requires Invariant(k, k.current) && k.tasks[k.current].state == Active
    ensures CreateEffect(k, Performed(k, Create(priority)), priority)
  {
    hide Invariant, Created, Creates;
    if CanCreate(k, priority) {
      var t: Tid := NextAvailable(k.available, 0);
      FirstFreeCreates(k, t, priority);
      assert IsLowestFree(k, t) && Creates(k, Performed(k, Create(priority)), t, priority);
    } else {
      assert Created(k, priority) == k by { NothingCreated(k, priority); }
    }
  }

  lemma NothingCreated(k: Kernel, priority: int)
    requires !CanCreate(k, priority)
    ensures Created(k, priority) == k
  {
  }

  lemma FirstFreeCreates(k: Kernel, t: Tid, priority: Priority)
    requires Invariant(k, k.current) && k.tasks[k.current].state == Active && t == NextAvailable(k.available, 0)
    ensures Creates(k, Performed(k, Create(priority)), t, priority)
  {
    hide Kept, Linked, EventsKept, Register;
    CreateKeepsTids(k, priority);
    NobodyBefore(k, t);
    OffReadyUnlessRunnable(k, t, priority);
    RegisterEffect(Initialised(k, t, priority), t);
  }

  /** Nobody waits to send to a dead task. */
  lemma NobodyBefore(k: Kernel, t: Tid)
    requires Kept(k, k.current) && k.tasks[t].state == Zombie
    ensures k.sends[t] == []
  {
  }

  lemma SendHasEffect(k: Kernel, to: int, message: seq<bv8>, buffer: seq<bv8>)
    requires Invariant(k, k.current) && k.tasks[k.current].state == Active
    ensures SendEffect(k, Sent(k, to, message, buffer), to, message, buffer)
  {
    hide Kept, Linked, EventsKept, Register;
    var r := to % MAX_TASKS;
    assert SlotKept(k, r);
    if IsValid(k, to) && k.tasks[r].state == SendBlocked {
      OffReadyUnlessRunnable(k, r, k.tasks[r].priority);
      RegisterEffect(Transmitted(Calling(k, to, message, buffer), k.current, r), r);
    }
  }

  lemma ReceiveHasEffect(k: Kernel, buffer: seq<bv8>)
    requires Invariant(k, k.current) && k.tasks[k.current].state == Active
    ensures ReceiveEffect(k, Received(k, buffer), buffer)
  {
    hide Kept, Linked, EventsKept, TidsKept;
    if k.sends[k.current] != [] {
      HeadSenderLives(k, k.current, k.current);
    }
  }

  lemma ReplyHasEffect(k: Kernel, to: int, message: seq<bv8>)
    requires Invariant(k, k.current) && k.tasks[k.current].state == Active
    ensures ReplyEffect(k, Replied(k, to, message), to, message)
  {
    hide Kept, Linked, EventsKept, Register;
    var s := to % MAX_TASKS;
    assert SlotKept(k, s);
    if IsValid(k, to) && k.tasks[s].state == ReplyBlocked {
      OffReadyUnlessRunnable(k, s, k.tasks[s].priority);
      var b := k.tasks[s].buffer;
      var k1 := Return(k, k.current, if |b| < |message| then -1 else 0);
      var k2 := WithTask(k1, s, k.tasks[s].(result := CopyResult(b, message), buffer := Filled(b, message)));
      RegisterEffect(SetState(k2, s, Runnable), s);
    }
  }

  lemma AwaitHasEffect(k: Kernel, event: int)
    requires Invariant(k, k.current) && k.tasks[k.current].state == Active
    ensures AwaitEffect(k, Awaited(k, event), event)
  {
    hide Kept, Linked, EventsKept, TidsKept;
    if 0 <= event < EVENTS {
      TakenSlotHasTask(k, event, k.current);
    }
  }

  lemma InterruptHasEffect(k: Kernel, e: int, data: int)
    requires Invariant(k, k.current) && Allowed(k, Interrupt(e, data))
    ensures InterruptEffect(k, Performed(k, Interrupt(e, data)), e, data)
  {
    hide Kept, Linked, EventsKept, TidsKept, Register;
    if e != NONE {
      TakenSlotHasTask(k, e, k.current);
      if EventHasTask(k, e) {
        var t: Tid := k.slots[e];
        OffReadyUnlessRunnable(k, t, k.tasks[t].priority);
        var k1 := SetState(Return(k, t, data), t, Runnable);
        RegisterEffect(WithTask(k1, t, k1.tasks[t].(blockedOn := NOT_BLOCKED)).(slots := k.slots[e := NONE]), t);
      }
    }
  }

  lemma {:induction false} FreedFrame(tasks: seq<Task>, tasks': seq<Task>, s: seq<Tid>, p: Priority)
    requires |tasks| == |tasks'| == MAX_TASKS
    requires forall i :: 0 <= i < |s| ==> tasks'[s[i]] == tasks[s[i]]
    ensures Freed(tasks', s, p) == Freed(tasks, s, p)
  {
    if s != [] {
      assert tasks'[s[0]] == tasks[s[0]];
      forall i | 0 <= i < |s| - 1
        ensures tasks'[s[1..][i]] == tasks[s[1..][i]]
      {
        assert s[1..][i] == s[i + 1];
      }
      FreedFrame(tasks, tasks', s[1..], p);
    }
  }

  /** Nobody who waits to send to `t` is on a ready queue. */
  ghost predicate Unready(k: Kernel, t: Tid) {
    forall u: Tid, p: Priority :: In(k.sends[t], u) && k.tasks[u].state == ReceiveBlocked ==> !In(k.ready[p], u)
  }

  lemma {:induction false} DismissFrees(k: Kernel, t: Tid, p: Priority)
    requires Distinct(k.sends[t]) && Unready(k, t)
    ensures Dismissed(k, t).ready[p] == k.ready[p] + Freed(k.tasks, k.sends[t], p)
    decreases |k.sends[t]|
  {
    hide Register, Unready, In;
    var s := k.sends[t];
    if s != [] {
      var k' := DismissedOne(k, t);
      UnreadyHead(k, t, p);
      FreedOne(k, t, p);
      UnreadyOne(k, t);
      DismissFrees(k', t, p);
      FreedFrame(k.tasks, k'.tasks, s[1..], p);
    }
  }

  lemma UnreadyHead(k: Kernel, t: Tid, p: Priority)
    requires Unready(k, t) && k.sends[t] != []
    ensures k.tasks[k.sends[t][0]].state == ReceiveBlocked ==> !In(k.ready[p], k.sends[t][0])
    ensures DismissedOne(k, t).sends[t] == k.sends[t][1..]
    ensures forall u: Tid :: u != k.sends[t][0] ==> DismissedOne(k, t).tasks[u] == k.tasks[u]
  {
    assert In(k.sends[t], k.sends[t][0]);
  }

  lemma UnreadyOne(k: Kernel, t: Tid)
    requires Distinct(k.sends[t]) && Unready(k, t) && k.sends[t] != []
    ensures Unready(DismissedOne(k, t), t)
  {
    hide DismissedOne;
    var k', x := DismissedOne(k, t), k.sends[t][0];
    UnreadyHead(k, t, 0);
    forall u: Tid, p: Priority | In(k'.sends[t], u) && k'.tasks[u].state == ReceiveBlocked
      ensures !In(k'.ready[p], u)
    {
      TailMembers(k.sends[t], u);
      UnreadyHead(k, t, p);
      FreedOne(k, t, p);
      AppendMembers(k.ready[p], x, u);
    }
  }

  lemma FreedOne(k: Kernel, t: Tid, p: Priority)
    requires k.sends[t] != [] && (k.tasks[k.sends[t][0]].state == ReceiveBlocked ==> !In(k.ready[p], k.sends[t][0]))
    ensures var x := k.sends[t][0];
            DismissedOne(k, t).ready[p] ==
            if k.tasks[x].state == ReceiveBlocked && k.tasks[x].priority == p then k.ready[p] + [x] else k.ready[p]
  {
    var x := k.sends[t][0];
    if k.tasks[x].state == ReceiveBlocked && k.tasks[x].priority == p {
      NotLast(k.ready[p], x);
    }
  }

  lemma {:induction false} DismissLeaves(k: Kernel, t: Tid)
    ensures var k' := Dismissed(k, t);
            && k'.slots == k.slots && k'.armed == k.armed && k'.eventBlocked == k.eventBlocked
            && k'.available == k.available && k'.nextGeneration == k.nextGeneration
    decreases |k.sends[t]|
  {
    if k.sends[t] != [] {
      DismissLeaves(DismissedOne(k, t), t);
    }
  }

  /** Clearing the send queue of a task that has died, with nobody on a new queue. */
  lemma DismissHasEffect(k: Kernel, k1: Kernel, t: Tid)
    requires Kept(k, k.current) && k.tasks[k.current].state == Active && k1.sends == k.sends
    requires forall u: Tid :: k1.tasks[u] == if u == t then k.tasks[t].(state := Zombie, blockedOn := NOT_BLOCKED) else k.tasks[u]
    requires forall u: Tid, p: Priority :: In(k1.ready[p], u) ==> In(k.ready[p], u)
    requires forall e: Event :: k1.slots[e] == if k.slots[e] == t then NONE else k.slots[e]
    requires forall e: Event :: k1.armed[e] <==> k.armed[e] && k.slots[e] != t
    requires k1.eventBlocked == k.eventBlocked - (if k.tasks[t].state == EventBlocked then 1 else 0)
    requires k1.available == k.available[t := k.nextGeneration[t] < GENERATIONS]
    requires k1.nextGeneration == k.nextGeneration && k1.current == k.current
    ensures Ends(k, Dismissed(k1, t), t, k1.ready)
  {
    hide Kept, Dismissed, In;
    var dead := k.tasks[t].(state := Zombie, blockedOn := NOT_BLOCKED);
    assert k1.tasks == k.tasks[t := dead];
    WaitersOf(k, t, t);
    forall u: Tid
      ensures Dismissed(k1, t).tasks[u] == if u == t then dead else Bereaved(k.tasks[u], t)
    {
      WaitersOf(k, t, u);
      DismissAnswers(k1, t, u);
    }
    forall p: Priority
      ensures Dismissed(k1, t).ready[p] == k1.ready[p] + Freed(k.tasks[t := dead], k.sends[t], p)
    {
      forall u: Tid, q: Priority | k1.tasks[u].state == ReceiveBlocked
        ensures !In(k1.ready[q], u)
      {
        OffReadyUnlessRunnable(k, u, q);
      }
      DismissFrees(k1, t, p);
    }
    DismissChanges(k1, t, t, 0);
    DismissLeaves(k1, t);
  }

  lemma ExitHasEffect(k: Kernel)
    requires Invariant(k, k.current) && k.tasks[k.current].state == Active
    ensures Ends(k, Exited(k), k.current, k.ready)
  {
    hide Kept, Linked, Dismissed;
    var c := k.current;
    assert EventMarked(k.tasks[c]) && SlotKept(k, c);
    NoSlotUnlessWaiting(k, c);
    DismissHasEffect(k, Retired(k, c), c);
  }

  lemma NoSlotUnlessWaiting(k: Kernel, t: Tid)
    requires Kept(k, k.current)
    ensures forall e: Event :: k.slots[e] == t <==> k.tasks[t].state == EventBlocked && k.tasks[t].blockedOn == e
    ensures k.tasks[t].state == EventBlocked ==> 0 <= k.tasks[t].blockedOn < EVENTS
  {
    assert Places(k.tasks, k.current)[t] == PlaceOf(k.tasks[t], t == k.current);
  }

  lemma KillHasEffect(k: Kernel, t: Tid)
    requires Invariant(k, k.current) && k.tasks[k.current].state == Active && k.tasks[t].state != Zombie
    ensures Ends(k, Killed(k, t), t, WithoutVictim(k, t))
  {
    hide Kept, Linked, Dismissed, RemovePairs;
    assert EventMarked(k.tasks[t]) && SlotKept(k, t);
    NoSlotUnlessWaiting(k, t);
    var k1, p := Unhooked(k, t), k.tasks[t].priority;
    assert k1.ready == WithoutVictim(k, t);
    forall u: Tid, q: Priority | In(k1.ready[q], u)
      ensures In(k.ready[q], u)
    {
      KeptDistinct(k, q);
      RemovedMembers(k.ready[q], t, u);
    }
    DismissHasEffect(k, k1, t);
  }

  lemma KeptDistinct(k: Kernel, p: Priority)
    requires Kept(k, k.current)
    ensures Distinct(k.ready[p])
  {
  }

  /** Every call and interrupt has its effect. */
  lemma CallHasEffect(k: Kernel, call: Call)
    requires Invariant(k, k.current) && k.tasks[k.current].state == Active && Allowed(k, call)
    ensures Effect(k, call, Performed(k, call))
  {
    hide Invariant, Created, Exited, Sent, Received, Replied, Awaited, Killed, Fired, Register, Ends, CreateEffect, SendEffect, ReceiveEffect,
      ReplyEffect, AwaitEffect, InterruptEffect;
    match call
    case Create(priority) => CreateHasEffect(k, priority);
    case Exit => ExitHasEffect(k);
    case Pass => PassHasEffect(k);
    case Send(to, message, buffer) => SendHasEffect(k, to, message, buffer);
    case Receive(buffer) => ReceiveHasEffect(k, buffer);
    case Reply(to, message) => ReplyHasEffect(k, to, message);
    case AwaitEvent(event) => AwaitHasEffect(k, event);
    case Kill(tid) => KillCallHasEffect(k, tid);
    case Query(value) =>
    case Interrupt(e, data) => InterruptHasEffect(k, e, data);
  }

  lemma PassHasEffect(k: Kernel)
    requires Invariant(k, k.current)
    ensures Registers(k, Passed(k), k.current) && Passed(k).tasks == k.tasks
  {
    OffReadyUnlessRunnable(k, k.current, k.tasks[k.current].priority);
    RegisterEffect(k, k.current);
  }

  lemma KillCallHasEffect(k: Kernel, tid: int)
    requires Invariant(k, k.current) && k.tasks[k.current].state == Active && Allowed(k, Kill(tid))
    ensures KillEffect(k, Performed(k, Kill(tid)), tid)
  {
    hide Invariant, Killed, Ends;
    if KillResult(k, tid) == 0 {
      KillHasEffect(k, Lookup(tid));
      SameCurrentAfterKill(k, Lookup(tid));
      assert OnlyReturns(Killed(k, Lookup(tid)), Performed(k, Kill(tid)), 0);
    }
  }

  lemma SameCurrentAfterKill(k: Kernel, t: Tid)
    ensures Killed(k, t).current == k.current
  {
  }

  /** The calls after which the kernel does not go on, or is not modelled: an event that has been awaited fires without a
      task, or Kill finds a dead slot. */
  lemma GoesOnUnless(k: Kernel, call: Call)
    requires Kept(k, k.current)
    ensures Allowed(k, call) <==>
            match call
            case Interrupt(e, _) => e == NONE || (0 <= e < EVENTS && !(k.armed[e] && k.slots[e] == NONE))
            case Kill(tid) =>
              || tid == k.tasks[k.current].generation * MAX_TASKS + k.current
              || (tid < 0 && tid % MAX_TASKS != 0)
              || k.tasks[tid % MAX_TASKS].state != Zombie
            case _ => true
  {
    if call.Interrupt? && 0 <= call.event < EVENTS {
      TakenSlotHasTask(k, call.event, k.current);
    }
  }

  /** After kmain has created the first task it is in slot 1 with tid 1, alone on its ready queue, and nobody else lives. */
  lemma FirstTask(priority: Priority)
    ensures var k := Boot(priority);
            && k.tasks == Reset().tasks[1 := Task(priority, Runnable, 0, NOT_BLOCKED, 0xF4330010, 0, [], [], 0)]
            && (forall t: Tid :: k.tasks[t].state == Zombie <==> t != 1)
            && k.ready == seq(PRIORITIES, p => [])[priority := [1]]
  {
    var k := Reset();
    assert NextAvailable(k.available, 0) == 1;
    NotLast(k.ready[priority], 1);
    forall p: Priority
      ensures Boot(priority).ready[p] == if p == priority then [1] else []
    {
    }
  }

  // ---- a turn ----

  /** The first task of the highest nonempty ready queue is taken off it and made active. */
  predicate Begins(k: Kernel, k1: Kernel) {
    var c := k1.current;
    var p := k.tasks[c].priority;
    && k.tasks[c].state == Runnable && IsFirst(k.ready[p], c) && (forall q: Priority :: q > p ==> k.ready[q] == [])
    && k1 == k.(current := c, tasks := k.tasks[c := k.tasks[c].(state := Active)],
                ready := k.ready[p := k.ready[p][1..]], pairs := k1.pairs)
  }

  /** If it can go on it is runnable again and last on its ready queue, once. */
  predicate Closes(k2: Kernel, k': Kernel) {
    var c := k2.current;
    var p := k2.tasks[c].priority;
    if k2.tasks[c].state != Active && k2.tasks[c].state != Runnable then k' == k2
    else k' == k2.(tasks := k2.tasks[c := k2.tasks[c].(state := Runnable)],
                   ready := k2.ready[p := if IsLast(k2.ready[p], c) then k2.ready[p] else k2.ready[p] + [c]],
                   pairs := k'.pairs)
  }

  lemma PickBegins(k: Kernel)
    requires Kept(k, NONE) && Schedule(k).Run?
    ensures Begins(k, Picked(k)) && Picked(k).current == Schedule(k).t
  {
    var h := HighestReady(k.ready, PRIORITIES - 1);
    PickKeeps(k);
    assert In(k.ready[h], k.ready[h][0]);
    assert Places(k.tasks, NONE)[k.ready[h][0]] == OnReady(k.tasks[k.ready[h][0]].priority);
  }

  /** Every turn begins, has the effect of its call, and closes. */
  lemma TurnHasEffect(k: Kernel, call: Call) returns (k1: Kernel, k2: Kernel)
    requires Invariant(k, NONE) && CanStep(k, call)
    ensures Begins(k, k1) && k1.current == Schedule(k).t && Invariant(k1, k1.current) && Allowed(k1, call)
    ensures k1 == Picked(k) && k2.current == k1.current
    ensures Effect(k1, call, k2) && Closes(k2, Step(k, call))
  {
    hide Effect, Performed, Allowed, Picked;
    k1 := Picked(k);
    k2 := Performed(k1, call);
    PickBegins(k);
    PickPreserves(k);
    CallHasEffect(k1, call);
    CurrentStays(k1, call);
  }

  lemma CurrentStays(k: Kernel, call: Call)
    requires Allowed(k, call)
    ensures Performed(k, call).current == k.current
  {
  }

  /** In a turn in which an event fires, its task gets the data and can run, behind all others of its priority but the
      interrupted task; that one and all others are as before. Otherwise the interrupted task just goes to the end. */
  lemma InterruptWakes(k: Kernel, e: int, data: int)
    requires Invariant(k, NONE) && CanStep(k, Interrupt(e, data))
    ensures var c, k' := Schedule(k).t, Step(k, Interrupt(e, data));
            var p := k.tasks[c].priority;
            && IsFirst(k.ready[p], c)
            && var rest := k.ready[p := k.ready[p][1..]];
            if e == NONE || k.slots[e] == NONE then
              k'.tasks == k.tasks && k'.slots == k.slots && k'.ready == rest[p := rest[p] + [c]]
            else
              var t := k.slots[e];
              && 0 <= t < MAX_TASKS
              && var q := k.tasks[t].priority;
              && k'.tasks == k.tasks[t := k.tasks[t].(state := Runnable, result := data, blockedOn := NOT_BLOCKED)]
              && k'.slots == k.slots[e := NONE]
              && k'.ready == rest[q := rest[q] + [t]][p := rest[q := rest[q] + [t]][p] + [c]]
  {
    hide Invariant, Step;
    var k1, k2 := TurnHasEffect(k, Interrupt(e, data));
    SlotsAreTasks(k);
    NotQueuedTwice(k1, k1.current);
  }

  lemma SlotsAreTasks(k: Kernel)
    requires Invariant(k, NONE)
    ensures forall e: Event :: k.slots[e] == NONE || (0 <= k.slots[e] < MAX_TASKS && k.tasks[k.slots[e]].state == EventBlocked)
  {
    forall e: Event {
      TakenSlotHasTask(k, e, NONE);
    }
  }

  lemma NotQueuedTwice(k: Kernel, c: Tid)
    requires Invariant(k, c) && k.current == c
    ensures forall p: Priority :: !IsLast(k.ready[p], c)
  {
    forall p: Priority
      ensures !IsLast(k.ready[p], c)
    {
      OffReadyUnlessRunnable(k, c, p);
      NotLast(k.ready[p], c);
    }
  }
}
