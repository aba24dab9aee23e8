/** The kernel's state and operations as they are: task descriptors, ready and send queues threaded through
    them, bitmaps and tables updated in place. Each operation is proved to do what its function in
    `KernelModel.dfy` says; the assertions are those of the source. */
module Kernel {
  import opened Basics
  import opened TaskQueue
  import opened QueueFacts
  import opened K = KernelModel
  import opened KernelQueues
  import opened KernelKill
  import opened KernelLinks
  import opened KernelUnlink
  import opened KernelInvariant
  import opened QueueBank
  import opened Scheduler
  import opened Bitmap

  /** available_tids has its bits in reverse: that of tid 0 is the highest. */
  predicate TidBit(w: bv64, t: Tid) {
    Has(w, MAX_TASKS - (t + 1))
  }

  ghost function Available(w: bv64): seq<bool> {
    seq(MAX_TASKS, t requires 0 <= t < MAX_TASKS => TidBit(w, t))
  }

  lemma LowestFound(available: seq<bool>, t: nat, r: int)
    requires |available| == MAX_TASKS && t <= MAX_TASKS
    requires t <= r < MAX_TASKS && available[r] && forall i :: t <= i < r ==> !available[i]
    ensures NextAvailable(available, t) == r
  {
  }

  lemma NoneFound(available: seq<bool>)
    requires |available| == MAX_TASKS && forall i :: 0 <= i < MAX_TASKS ==> !available[i]
    ensures NextAvailable(available, 0) == NONE
  {
  }

  /** Count-leading-zeros finds the lowest available tid. */
  lemma ClzFindsTid(w: bv64)
    ensures NextAvailable(Available(w), 0) == if w == 0 then NONE else Clz64(w)
  {
    hide Has;
    if w == 0 {
      forall t: Tid
        ensures !Available(w)[t]
      {
        ZeroHasNothing(MAX_TASKS - (t + 1));
      }
      NoneFound(Available(w));
    } else {
      NonzeroHasHighest(w);
      LowestFound(Available(w), 0, Clz64(w));
    }
  }

  lemma LowBits(k: bv7)
    requires k < 64
    ensures BitAt(0x7FFF_FFFF_FFFF_FFFF, k) <==> k != 63
  {
  }

  /** At first all tids but 0 are available. */
  lemma InitialTids()
    ensures Available(0x7FFF_FFFF_FFFF_FFFF) == seq(MAX_TASKS, t => t != 0)
  {
    hide BitAt;
    forall t: Tid
      ensures TidBit(0x7FFF_FFFF_FFFF_FFFF, t) <==> t != 0
    {
      LowBits(Shift(MAX_TASKS - (t + 1)));
      ShiftBack(MAX_TASKS - (t + 1));
    }
  }

  lemma ClearAvailable(w: bv64, t: Tid)
    ensures Available(ClearBit(w, MAX_TASKS - (t + 1))) == Available(w)[t := false]
  {
    hide Has, ClearBit;
    var w' := ClearBit(w, MAX_TASKS - (t + 1));
    forall u: Tid
      ensures TidBit(w', u) <==> u != t && TidBit(w, u)
    {
      ClearBitHas(w, MAX_TASKS - (t + 1), MAX_TASKS - (u + 1));
    }
  }

  lemma SetAvailable(w: bv64, t: Tid)
    ensures Available(SetBit(w, MAX_TASKS - (t + 1))) == Available(w)[t := true]
  {
    hide Has, SetBit;
    var w' := SetBit(w, MAX_TASKS - (t + 1));
    forall u: Tid
      ensures TidBit(w', u) <==> u == t || TidBit(w, u)
    {
      SetBitHas(w, MAX_TASKS - (t + 1), MAX_TASKS - (u + 1));
    }
  }

  lemma NewTaskIsOff(k: K.Kernel, priority: int, running: int)
    requires Invariant(k, running) && CanCreate(k, priority)
    ensures var t := NextAvailable(k.available, 0);
            && k.tasks[t].state == Zombie && k.sends[t] == []
            && forall p: Priority :: CanEnqueue(Initialised(k, t, priority), p)
  {
    CreateKeepsTids(k, priority);
    var t := NextAvailable(k.available, 0);
    OffQueues(k, Places(k.tasks, running), t);
    InitLinks(k, t, priority);
    forall p: Priority
      ensures CanEnqueue(Initialised(k, t, priority), p)
    {
      RingCanEnqueue(Initialised(k, t, priority), p);
    }
  }

  lemma RingCanEnqueue(k: K.Kernel, p: Priority)
    requires Rings(k.pairs, k.ready)
    ensures CanEnqueue(k, p)
  {
    TailIsOn(k.pairs, k.ready[p]);
  }

  lemma WaitingBound(tasks: seq<Task>)
    ensures |Waiting(tasks)| <= |tasks|
  {
    if tasks == [] {
      assert Waiting(tasks) == {};
    } else {
      var n := |tasks| - 1;
      WaitingBound(tasks[..n]);
      assert Waiting(tasks) == Waiting(tasks[..n]) + if tasks[n].state == EventBlocked then {n} else {};
    }
  }

  /** ENQUEUE has a tail to link to. */
  predicate CanEnqueue(k: K.Kernel, p: Priority) {
    k.ready[p] != [] ==> k.pairs[k.ready[p][0]].prev != NONE
  }

  lemma LinkedCanEnqueue(k: K.Kernel, p: Priority)
    requires Linked(k)
    ensures CanEnqueue(k, p)
  {
    TailIsOn(k.pairs, k.ready[p]);
  }

  lemma OfferRings(ps: Pairs, sends: seq<seq<Tid>>, r: Tid, t: Tid)
    requires |sends| == MAX_TASKS && Rings(ps, sends) && Separate(sends) && OffSends(sends, t)
    ensures var sends' := sends[r := sends[r] + [t]];
            Rings(EnqueuePairs(ps, Head(sends[r]), t), sends') && Separate(sends')
    ensures sends[r] != [] ==> ps[sends[r][0]].prev != NONE
  {
    hide Ring;
    var sends' := sends[r := sends[r] + [t]];
    EnqueueRing(ps, sends[r], t);
    NotLast(sends[r], t);
    TailIsOn(ps, sends[r]);
    forall q: Priority | q != r
      ensures Ring(EnqueuePairs(ps, Head(sends[r]), t), sends[q])
    {
      EnqueueElsewhere(ps, sends[r], t, sends[q]);
    }
    forall p: Priority, q: Priority, u: Tid | p != q && In(sends'[p], u)
      ensures !In(sends'[q], u)
    {
      AppendMembers(sends[r], t, u);
    }
  }

  lemma TakeRings(ps: Pairs, sends: seq<seq<Tid>>, r: Tid)
    requires |sends| == MAX_TASKS && Rings(ps, sends) && Separate(sends) && sends[r] != []
    ensures var sends' := sends[r := sends[r][1..]];
            Rings(DequeuePairs(ps, sends[r][0]), sends') && Separate(sends')
    ensures DequeueHead(ps, sends[r][0]) == Head(sends[r][1..]) && IsThreaded(ps[sends[r][0]])
  {
    hide Ring;
    var sends' := sends[r := sends[r][1..]];
    assert Ring(ps, sends[r]);
    DequeueRing(ps, sends[r]);
    RingNeighbours(ps, sends[r]);
    forall q: Priority | q != r
      ensures Ring(DequeuePairs(ps, sends[r][0]), sends[q])
    {
      DequeueElsewhere(ps, sends[r], sends[q]);
    }
    RingIsDistinct(ps, sends[r]);
    forall p: Priority, q: Priority, u: Tid | p != q && In(sends'[p], u)
      ensures !In(sends'[q], u)
    {
      TailMembers(sends[r], u);
    }
  }

  lemma RingIsDistinct(ps: Pairs, s: seq<Tid>)
    requires Ring(ps, s)
    ensures Distinct(s)
  {
  }

  class Microkernel {
    var tasks: seq<Task>
    const scheduler: Scheduler
    const sendQueues: Bank
    var registeredTasks: seq<int>
    var hasEventBeenRegistered: seq<bool>
    var tasksEventBlocked: int
    var availableTids: bv64
    var nextGeneration: seq<nat>
    var current: Tid

    /** What the send queues hold. */
    ghost var sends: seq<seq<Tid>>

    /** The scheduler and the send queues have their own pointers. */
    ghost predicate Apart() {
      && scheduler.queues != sendQueues && scheduler.queues.parts !! sendQueues.parts
      && {scheduler, this, sendQueues, scheduler.queues} !! scheduler.queues.parts + sendQueues.parts
    }

    /** The send queues are rings, and tasks_event_blocked is the number of event-blocked tasks. */
    ghost predicate Valid()
      reads this, scheduler, scheduler.queues, scheduler.queues.parts, sendQueues, sendQueues.parts
    {
      && Apart()
      && scheduler.Valid() && sendQueues.Valid()
      && |tasks| == |nextGeneration| == |sends| == MAX_TASKS
      && |registeredTasks| == |hasEventBeenRegistered| == EVENTS
      && (forall r: Tid :: sendQueues.Heads()[r] == Head(sends[r]))
      && Rings(sendQueues.Pairs(), sends) && Separate(sends)
      && tasksEventBlocked == |Waiting(tasks)|
    }

    /** The state that the operations are functions of. */
    ghost function State(): K.Kernel
      requires Valid()
      reads this, scheduler, scheduler.queues, scheduler.queues.parts, sendQueues, sendQueues.parts
    {
      Machine(tasks, scheduler.ready, scheduler.queues.Pairs(), sends, registeredTasks, hasEventBeenRegistered,
              tasksEventBlocked, Available(availableTids), nextGeneration, current)
    }

    /** setup_tasks, setup_events and setup_scheduler */
    constructor ()
      ensures Valid() && State() == Reset()
      ensures fresh(scheduler) && fresh(scheduler.queues) && fresh(scheduler.queues.parts)
      ensures fresh(sendQueues) && fresh(sendQueues.parts)
    {
      tasks := seq(MAX_TASKS, _ => Task(0, Zombie, 0, 0, 0, 0, [], [], 0));
      nextGeneration := seq(MAX_TASKS, _ => 0);
      availableTids := 0x7FFF_FFFF_FFFF_FFFF;
      registeredTasks := seq(EVENTS, _ => NONE);
      hasEventBeenRegistered := seq(EVENTS, _ => false);
      tasksEventBlocked := 0;
      current := 0;
      sends := seq(MAX_TASKS, _ => []);
      scheduler := new Scheduler();
      sendQueues := new Bank();
      new;
      InitialTids();
      assert Waiting(tasks) == {};
    }

    // ---- task.c ----

    method GetNextAvailableTid() returns (tid: int)
      requires Valid()
      ensures tid == NextAvailable(State().available, 0)
    {
      ClzFindsTid(availableTids);
      tid := if availableTids == 0 then -1 else Clz64(availableTids);
    }

    method SetTask(t: Tid, task: Task)
      requires Valid() && (task.state == EventBlocked <==> tasks[t].state == EventBlocked)
      modifies this
      ensures Valid() && State() == WithTask(old(State()), t, task)
    {
      hide Bank.Valid, Bank.Pairs, Bank.Heads, Available;
      ghost var before := tasks;
      tasks := tasks[t := task];
      assert Waiting(tasks) == Waiting(before);
    }

    method SetState(t: Tid, state: K.State)
      requires Valid() && (tasks[t].state == EventBlocked ==> state == Runnable || state == Zombie)
      modifies this
      ensures Valid() && State() == K.SetState(old(State()), t, state)
    {
      hide Bank.Valid, Bank.Pairs, Bank.Heads, Available;
      assert tasks[t].state != EventBlocked || tasks[t].state != state;
      SetStateCounts(State(), t, state);
      if tasks[t].state == EventBlocked && (state == Runnable || state == Zombie) {
        tasksEventBlocked := tasksEventBlocked - 1;
      } else if state == EventBlocked {
        tasksEventBlocked := tasksEventBlocked + 1;
      }
      WaitingBound(tasks[t := tasks[t].(state := state)]);
      assert 0 <= tasksEventBlocked <= MAX_TASKS;
      tasks := tasks[t := tasks[t].(state := state)];
    }

    method Retire(t: Tid)
      requires Valid()
      modifies this
      ensures Valid() && State() == Retired(old(State()), t)
    {
      hide Bank.Valid, Bank.Pairs, Bank.Heads, Waiting, Marks, Rings, Separate;
      SetState(t, Zombie);
      if nextGeneration[t] < GENERATIONS {
        SetAvailable(availableTids, t);
        availableTids := SetBit(availableTids, MAX_TASKS - (t + 1));
      }
    }

    // ---- schedule.c ----

    method RegisterTask(t: Tid)
      requires Valid() && tasks[t].state != Zombie && CanEnqueue(State(), tasks[t].priority)
      modifies scheduler, scheduler.queues, scheduler.queues.parts
      ensures Valid() && State() == Register(old(State()), t)
    {
      hide Bank.Valid, Bank.Pairs, Bank.Heads, Available, Waiting, Marks, Rings, Separate;
      assert tasks[t].state != Zombie;
      var _ := scheduler.Register(t, tasks[t].priority);
    }

    method DeregisterTask(t: Tid)
      requires Valid() && Linked(State()) && tasks[t].state != Zombie
      modifies scheduler, scheduler.queues, scheduler.queues.parts
      ensures Valid() && State() == Deregister(old(State()), t)
    {
      hide Bank.Valid, Bank.Pairs, Bank.Heads, Available, Waiting, Marks, Ring, Separate;
      scheduler.Deregister(t, tasks[t].priority);
    }

    // ---- queue.h on the send queues ----

    method Wait(r: Tid, sender: Tid)
      requires Valid() && OffSends(sends, sender)
      modifies this`sends, sendQueues, sendQueues.parts
      ensures Valid() && State() == WithSends(old(State()), r, old(State()).sends[r] + [sender])
    {
      hide Bank.Valid, Bank.Pairs, Bank.Heads, Available, Waiting, Marks, In, Ring;
      OfferRings(sendQueues.Pairs(), sends, r, sender);
      sendQueues.Enqueue(r, sender);
      sends := sends[r := sends[r] + [sender]];
    }

    method TakeSender(r: Tid) returns (sender: Tid)
      requires Valid() && sends[r] != []
      modifies this`sends, sendQueues, sendQueues.parts
      ensures Valid() && sender == old(State()).sends[r][0]
      ensures State() == WithSends(old(State()), r, old(State()).sends[r][1..])
    {
      hide Bank.Valid, Bank.Pairs, Bank.Heads, Available, Waiting, Marks, In, Ring;
      TakeRings(sendQueues.Pairs(), sends, r);
      sender := sendQueues.Dequeue(r);
      sends := sends[r := sends[r][1..]];
    }

    method NobodySends(r: Tid) returns (empty: bool)
      requires Valid()
      ensures empty <==> State().sends[r] == []
    {
      empty := sendQueues.IsEmpty(r);
    }

    // ---- messaging.c ----

    /** The copying of transmit_message and reply: as much of the message as fits. */
    method CopyTo(t: Tid, message: seq<bv8>)
      requires Valid()
      modifies this
      ensures Valid()
      ensures var b := old(tasks)[t].buffer;
              State() == WithTask(old(State()), t, old(tasks)[t].(result := CopyResult(b, message), buffer := Filled(b, message)))
    {
      var d := tasks[t];
      if |message| > |d.buffer| {
        SetTask(t, d.(result := -1, buffer := message[..|d.buffer|]));
      } else {
        SetTask(t, d.(result := |message|, buffer := message + d.buffer[|message|..]));
      }
      assert tasks[t] == d.(result := CopyResult(d.buffer, message), buffer := Filled(d.buffer, message));
    }

    method TransmitMessage(src: Tid, dst: Tid)
      requires Valid() && tasks[src].state != EventBlocked && tasks[dst].state != EventBlocked
      modifies this
      ensures Valid() && State() == Transmitted(old(State()), src, dst)
    {
      hide Bank.Valid, Bank.Pairs, Bank.Heads;
      var tid := tasks[src].generation * MAX_TASKS + src;
      CopyTo(dst, tasks[src].message);
      SetState(src, ReplyBlocked);
      SetState(dst, Runnable);
      SetTask(dst, tasks[dst].(from := tid));
    }

    method Offer(sender: Tid, receiver: Tid)
      requires Valid() && tasks[sender].state == Active && CanEnqueue(State(), tasks[receiver].priority)
      requires !Deaf(tasks[receiver]) ==> OffSends(sends, sender)
      modifies this, scheduler, scheduler.queues, scheduler.queues.parts, sendQueues, sendQueues.parts
      ensures Valid() && State() == Offered(old(State()), sender, receiver)
    {
      hide Bank.Valid, Bank.Pairs, Bank.Heads, Available, Waiting, Marks, Rings, Separate, OffSends;
      match tasks[receiver].state
      case Zombie =>
        SetTask(sender, tasks[sender].(result := -2));
      case SendBlocked =>
        TransmitMessage(sender, receiver);
        RegisterTask(receiver);
      case _ =>
        SetState(sender, ReceiveBlocked);
        Wait(receiver, sender);
    }

    // ---- syscall.c ----

    method Send(to: int, message: seq<bv8>, buffer: seq<bv8>)
      requires Valid() && Kept(State(), current) && Linked(State()) && tasks[current].state == Active
      modifies this, scheduler, scheduler.queues, scheduler.queues.parts, sendQueues, sendQueues.parts
      ensures Valid() && State() == Sent(old(State()), to, message, buffer)
    {
      hide Bank.Valid, Bank.Pairs, Bank.Heads, Available, Waiting, Marks, Rings, Separate, Offered;
      OffQueues(State(), Places(tasks, current), current);
      LinkedCanEnqueue(State(), tasks[to % MAX_TASKS].priority);
      SetTask(current, tasks[current].(to := to, message := message, buffer := buffer));
      var valid := IsValidUserlandTid(to);
      if !valid {
        SetTask(current, tasks[current].(result := -2));
      } else {
        Offer(current, to % MAX_TASKS);
      }
    }

    method IsValidUserlandTid(tid: int) returns (valid: bool)
      requires Valid()
      ensures valid <==> IsValid(State(), tid)
    {
      var t := tid % MAX_TASKS;
      valid := tid > 0 && !TidBit(availableTids, t);
    }

    method Receive(buffer: seq<bv8>)
      requires Valid() && Kept(State(), current) && tasks[current].state == Active
      modifies this, sendQueues, sendQueues.parts
      ensures Valid() && State() == Received(old(State()), buffer)
    {
      hide Bank.Valid, Bank.Pairs, Bank.Heads, Available, Waiting, Marks, Rings, Separate;
      ghost var k := State();
      SetTask(current, tasks[current].(to := 0, message := [], buffer := buffer));
      var empty := NobodySends(current);
      if empty {
        SetState(current, SendBlocked);
      } else {
        HeadSenderLives(k, current, current);
        var sender := TakeSender(current);
        TransmitMessage(sender, current);
        SetState(sender, ReplyBlocked);
      }
    }

    method Reply(to: int, message: seq<bv8>)
      requires Valid() && Linked(State()) && tasks[current].state == Active
      modifies this, scheduler, scheduler.queues, scheduler.queues.parts
      ensures Valid() && State() == Replied(old(State()), to, message)
    {
      hide Bank.Valid, Bank.Pairs, Bank.Heads, Available, Waiting, Marks, Rings, Separate;
      var valid := IsValidUserlandTid(to);
      if !valid {
        SetTask(current, tasks[current].(result := -2));
        return;
      }
      var s := to % MAX_TASKS;
      LinkedCanEnqueue(State(), tasks[s].priority);
      if tasks[s].state == Zombie {
        SetTask(current, tasks[current].(result := -2));
      } else if tasks[s].state != ReplyBlocked {
        SetTask(current, tasks[current].(result := -3));
      } else {
        var truncated := |tasks[s].buffer| < |message|;
        SetTask(current, tasks[current].(result := if truncated then -1 else 0));
        CopyTo(s, message);
        SetState(s, Runnable);
        RegisterTask(s);
      }
    }

    /** The tid and the next generation of a slot are taken. */
    method TakeTid(t: Tid)
      requires Valid()
      modifies this`nextGeneration, this`availableTids
      ensures Valid()
      ensures var k := old(State());
              State() == k.(available := k.available[t := false],
                            nextGeneration := k.nextGeneration[t := k.nextGeneration[t] + 1])
    {
      hide Bank.Valid, Bank.Pairs, Bank.Heads, Waiting, Marks, Rings, Separate;
      nextGeneration := nextGeneration[t := nextGeneration[t] + 1];
      ClearAvailable(availableTids, t);
      availableTids := ClearBit(availableTids, MAX_TASKS - (t + 1));
    }

    /** The pointers and the send queue of a new task. */
    method InitQueues(t: Tid)
      requires Valid() && sends[t] == []
      modifies scheduler.queues, scheduler.queues.parts, sendQueues
      ensures Valid()
      ensures State() == old(State()).(pairs := old(State()).pairs[t := Pair(NONE, NONE)])
    {
      hide Bank.Valid, Bank.Pairs, Bank.Heads, Available, Waiting, Marks, Rings, Separate;
      scheduler.queues.Detach(t);
      sendQueues.Clear(t);
      assert sendQueues.Heads() == old(sendQueues.Heads());
    }

    method TaskInit(t: Tid, priority: Priority)
      requires Valid() && sends[t] == [] && tasks[t].state == Zombie
      modifies this, scheduler.queues, scheduler.queues.parts, sendQueues
      ensures Valid() && State() == Initialised(old(State()), t, priority)
    {
      hide Bank.Valid, Bank.Pairs, Bank.Heads, Available, Waiting, Marks, Rings, Separate;
      assert tasks[t].state == Zombie;
      var generation := nextGeneration[t];
      TakeTid(t);
      InitQueues(t);
      SetTask(t, Task(priority, Runnable, generation, NOT_BLOCKED, 0xF4330000 + t * 16, 0, [], [], 0));
      assert sends[t := []] == sends;
    }

    method Create(priority: int, ghost running: int) returns (r: int)
      requires Valid() && Invariant(State(), running)
      requires 0 <= running < MAX_TASKS ==> tasks[running].state == Active
      modifies this, scheduler, scheduler.queues, scheduler.queues.parts, sendQueues
      ensures Valid() && State() == Created(old(State()), priority) && r == CreateResult(old(State()), priority)
    {
      hide Bank.Valid, Bank.Pairs, Bank.Heads, Available, Waiting, Marks, Rings, Separate, Invariant;
      if CanCreate(State(), priority) {
        NewTaskIsOff(State(), priority, running);
      }
      var t := GetNextAvailableTid();
      if t == -1 {
        return -2;
      }
      if priority < 0 || priority > MAX_PRIORITY {
        return -1;
      }
      TaskInit(t, priority);
      RegisterTask(t);
      r := tasks[t].generation * MAX_TASKS + t;
    }

    method Pass()
      requires Valid() && Linked(State()) && tasks[current].state == Active
      modifies scheduler, scheduler.queues, scheduler.queues.parts
      ensures Valid() && State() == Passed(old(State()))
    {
      LinkedCanEnqueue(State(), tasks[current].priority);
      RegisterTask(current);
    }

    method ClearSendQueue(t: Tid)
      requires Valid() && HaveTails(State())
      modifies this, scheduler, scheduler.queues, scheduler.queues.parts, sendQueues, sendQueues.parts
      ensures Valid() && State() == Dismissed(old(State()), t)
    {
      hide Bank.Valid, Bank.Pairs, Bank.Heads, Available, Waiting, Marks, Rings, Separate, HaveTails;
      while true
        invariant Valid() && HaveTails(State())
        invariant Dismissed(State(), t) == Dismissed(old(State()), t)
        decreases |State().sends[t]|
      {
        var empty := NobodySends(t);
        if empty {
          break;
        }
        DismissSender(t);
      }
    }

    method DismissSender(t: Tid)
      requires Valid() && HaveTails(State()) && sends[t] != []
      modifies this, scheduler, scheduler.queues, scheduler.queues.parts, sendQueues, sendQueues.parts
      ensures Valid() && State() == DismissedOne(old(State()), t) && HaveTails(State())
    {
      hide Bank.Valid, Bank.Pairs, Bank.Heads, Available, Waiting, Marks, Rings, Separate;
      TailsStay(State(), t);
      assert CanEnqueue(State(), tasks[sends[t][0]].priority);
      var sender := TakeSender(t);
      if tasks[sender].state == ReceiveBlocked {
        SetTask(sender, tasks[sender].(result := -2));
        SetState(sender, Runnable);
        RegisterTask(sender);
      }
    }

    method Exit()
      requires Valid() && Kept(State(), current) && Linked(State()) && tasks[current].state == Active
      modifies this, scheduler, scheduler.queues, scheduler.queues.parts, sendQueues, sendQueues.parts
      ensures Valid() && State() == Exited(old(State()))
    {
      hide Bank.Valid, Bank.Pairs, Bank.Heads, Available, Waiting, Marks, Rings, Separate;
      Retire(current);
      LinkedHaveTails(State());
      ClearSendQueue(current);
    }

    // ---- events.c ----

    method EventHasTask(e: Event) returns (has: bool)
      requires Valid()
      ensures has <==> K.EventHasTask(State(), e)
    {
      var t := registeredTasks[e];
      has := 0 <= t < MAX_TASKS && tasks[t].state == EventBlocked;
    }

    method EventRegister(event: int)
      requires Valid() && tasks[current].state == Active
      modifies this
      ensures Valid() && State() == K.Awaited(old(State()), event)
    {
      hide Bank.Valid, Bank.Pairs, Bank.Heads, Available, Waiting, Marks, Rings, Separate;
      if event < 0 || event >= EVENTS {
        SetTask(current, tasks[current].(result := -1));
        return;
      }
      var has := EventHasTask(event);
      if has {
        SetTask(current, tasks[current].(result := -3));
        return;
      }
      Block(event);
    }

    /** The current task waits in the slot of the event. */
    method Block(e: Event)
      requires Valid() && tasks[current].state == Active && !K.EventHasTask(State(), e)
      modifies this
      ensures Valid() && State() == K.Awaited(old(State()), e)
    {
      hide Bank.Valid, Bank.Pairs, Bank.Heads, Available, Waiting, Marks, Rings, Separate;
      registeredTasks := registeredTasks[e := current];
      SetTask(current, tasks[current].(blockedOn := e));
      SetState(current, EventBlocked);
      hasEventBeenRegistered := hasEventBeenRegistered[e := true];
      SetTask(current, tasks[current].(result := AWAITED));
    }

    /** The task of a fired event gets the event's data and can run. */
    method Wake(e: Event, t: Tid, data: int)
      requires Valid() && registeredTasks[e] == t && tasks[t].state == EventBlocked
      requires CanEnqueue(State(), tasks[t].priority)
      modifies this, scheduler, scheduler.queues, scheduler.queues.parts
      ensures Valid() && State() == Fired(old(State()), e, data)
    {
      hide Bank.Valid, Bank.Pairs, Bank.Heads, Available, Waiting, Marks, Rings, Separate;
      SetTask(t, tasks[t].(result := data));
      SetState(t, Runnable);
      registeredTasks := registeredTasks[e := NONE];
      SetTask(t, tasks[t].(blockedOn := NOT_BLOCKED));
      RegisterTask(t);
    }

    method EventHandle(e: Event, data: int, ghost running: int)
      requires Valid() && Invariant(State(), running) && CanFire(State(), e)
      modifies this, scheduler, scheduler.queues, scheduler.queues.parts
      ensures Valid() && State() == Fired(old(State()), e, data)
    {
      hide Bank.Valid, Bank.Pairs, Bank.Heads, Available, Waiting, Marks, Rings, Separate, Invariant;
      var has := EventHasTask(e);
      if has {
        var t: Tid := registeredTasks[e];
        WaiterMarked(State(), e, running);
        assert tasks[t].state == EventBlocked;
        assert tasks[t].blockedOn == e;
        assert tasks[t].result == AWAITED;
        Wake(e, t, data);
      }
    }

    method EventDeregister(t: Tid, ghost running: int)
      requires Valid() && Invariant(State(), running) && tasks[t].state != Zombie
      modifies this
      ensures Valid() && State() == Disarmed(old(State()), t)
    {
      hide Bank.Valid, Bank.Pairs, Bank.Heads, Available, Waiting, Marks, Rings, Separate;
      SlotOfWaiter(State(), t, running);
      var e := tasks[t].blockedOn;
      if tasks[t].state == EventBlocked {
        assert e != NOT_BLOCKED;
        assert registeredTasks[e] == t;
        registeredTasks := registeredTasks[e := NONE];
        hasEventBeenRegistered := hasEventBeenRegistered[e := false];
        SetTask(t, tasks[t].(blockedOn := NOT_BLOCKED));
      } else {
        assert e == NOT_BLOCKED;
      }
    }

    // ---- Kill and the scheduling loop ----

    method Kill(tid: int) returns (r: int)
      requires Valid() && Invariant(State(), current) && tasks[current].state == Active
      requires Allowed(State(), Call.Kill(tid))
      modifies this, scheduler, scheduler.queues, scheduler.queues.parts, sendQueues, sendQueues.parts
      ensures Valid() && r == KillResult(old(State()), tid)
      ensures State() == if r == 0 then Killed(old(State()), Lookup(tid)) else old(State())
    {
      if tid == tasks[current].generation * MAX_TASKS + current {
        return -2;
      }
      var t := Lookup(tid);
      if t == NONE {
        return -1;
      }
      KillTask(t);
      return 0;
    }

    method KillTask(t: Tid)
      requires Valid() && Invariant(State(), current) && tasks[current].state == Active
      requires tasks[t].state != Zombie
      modifies this, scheduler, scheduler.queues, scheduler.queues.parts, sendQueues, sendQueues.parts
      ensures Valid() && State() == Killed(old(State()), t)
    {
      hide Bank.Valid, Bank.Pairs, Bank.Heads, Available, Waiting, Marks, Separate, Deregister, Kept, HaveTails;
      UnhookedHasTails(State(), t);
      EventDeregister(t, current);
      DeregisterTask(t);
      Retire(t);
      ClearSendQueue(t);
    }

    /** The call or interrupt of the current task. */
    method HandleInterrupt(call: Call)
      requires Valid() && Invariant(State(), current) && tasks[current].state == Active && Allowed(State(), call)
      modifies this, scheduler, scheduler.queues, scheduler.queues.parts, sendQueues, sendQueues.parts
      ensures Valid() && State() == Performed(old(State()), call)
    {
      hide Bank.Valid, Bank.Pairs, Bank.Heads, Available, Waiting, Marks, Rings, Separate;
      match call
      case Create(priority) => CreateFor(priority);
      case Exit => Exit();
      case Pass => Pass();
      case Send(to, message, buffer) => Send(to, message, buffer);
      case Receive(buffer) => Receive(buffer);
      case Reply(to, message) => Reply(to, message);
      case AwaitEvent(event) => EventRegister(event);
      case Kill(tid) => KillFor(tid);
      case Query(value) => SetTask(current, tasks[current].(result := value));
      case Interrupt(event, data) =>
        if event != NONE {
          EventHandle(event, data, current);
        }
    }

    method CreateFor(priority: int)
      requires Valid() && Invariant(State(), current) && tasks[current].state == Active
      modifies this, scheduler, scheduler.queues, scheduler.queues.parts, sendQueues
      ensures Valid() && State() == Performed(old(State()), Call.Create(priority))
    {
      hide Bank.Valid, Bank.Pairs, Bank.Heads, Available, Waiting, Marks, Rings, Separate, Invariant;
      var r := Create(priority, current);
      SetTask(current, tasks[current].(result := r));
    }

    method KillFor(tid: int)
      requires Valid() && Invariant(State(), current) && tasks[current].state == Active
      requires Allowed(State(), Call.Kill(tid))
      modifies this, scheduler, scheduler.queues, scheduler.queues.parts, sendQueues, sendQueues.parts
      ensures Valid() && State() == Performed(old(State()), Call.Kill(tid))
    {
      hide Bank.Valid, Bank.Pairs, Bank.Heads, Available, Waiting, Marks, Rings, Separate, Invariant;
      var r := Kill(tid);
      SetTask(current, tasks[current].(result := r));
    }

    /** The end of schedule. */
    method Finish()
      requires Valid() && CanEnqueue(State(), tasks[current].priority)
      modifies this, scheduler, scheduler.queues, scheduler.queues.parts
      ensures Valid() && State() == Finished(old(State()))
    {
      hide Bank.Valid, Bank.Pairs, Bank.Heads, Available, Waiting, Marks, Rings, Separate;
      if tasks[current].state == Runnable || tasks[current].state == Active {
        SetState(current, Runnable);
        RegisterTask(current);
      }
    }

    /** The beginning of schedule: the next task is taken from its queue and activated. */
    method Pick() returns (next: int)
      requires Valid() && Kept(State(), NONE) && Linked(State())
      modifies this, scheduler, scheduler.queues, scheduler.queues.parts
      ensures Valid()
      ensures var k := old(State());
              if K.Schedule(k).Run? then next == K.Schedule(k).t && State() == Picked(k)
              else next == NONE && State() == k
    {
      hide Bank.Valid, Bank.Pairs, Bank.Heads, Available, Waiting, Marks, Ring, Separate, Kept, HighestReady;
      ghost var k := State();
      next := scheduler.NextTask();
      if next != NONE {
        PickKeeps(k);
        current := next;
        assert tasks[next].state == Runnable;
        SetTask(next, tasks[next].(state := Active));
      }
    }

    /** What happens while the picked task is activated, and after. */
    method Activate(call: Call)
      requires Valid() && Invariant(State(), current) && tasks[current].state == Active && Proper(State(), call)
      modifies this, scheduler, scheduler.queues, scheduler.queues.parts, sendQueues, sendQueues.parts
      ensures Valid() && current == old(current) && State() == Finished(Performed(old(State()), call))
    {
      hide Bank.Valid, Bank.Pairs, Bank.Heads, Available, Waiting, Marks, Rings, Separate, Invariant, Performed, Proper;
      SameCurrent(State(), call);
      PerformedCanEnqueue(State(), call);
      var next := current;
      HandleInterrupt(call);
      assert next == current;
      Finish();
    }

    /** schedule: pick a task, let it run until its next call or interrupt, and register it again. */
    method Schedule(call: Call) returns (choice: Choice)
      requires Valid() && Invariant(State(), NONE)
      requires K.Schedule(State()).Run? ==> Proper(Picked(State()), call)
      modifies this, scheduler, scheduler.queues, scheduler.queues.parts, sendQueues, sendQueues.parts
      ensures Valid() && Invariant(State(), NONE) && choice == K.Schedule(old(State()))
      ensures State() == if choice.Run? then Step(old(State()), call) else old(State())
    {
      hide Bank.Valid, Bank.Pairs, Bank.Heads, Available, Waiting, Marks, Rings, Separate, Kept, Performed, Proper, Finished;
      ghost var k := State();
      var next := Pick();
      if next == NONE {
        return if tasksEventBlocked == 0 then Nothing else Halt;
      }
      PickPreserves(k);
      Activate(call);
      StepPreserves(k, call);
      return Run(next);
    }
  }

  /** kmain up to the scheduling loop. */
  method Start(priority: Priority) returns (kernel: Microkernel)
    ensures fresh(kernel) && kernel.Valid()
    ensures kernel.State() == Boot(priority) && Invariant(kernel.State(), NONE)
  {
    kernel := new Microkernel();
    ResetPreserves();
    var r := kernel.Create(priority, NONE);
    BootKeeps(priority);
  }

  lemma SameCurrent(k: K.Kernel, call: Call)
    requires Proper(k, call)
    ensures Allowed(k, call) && Performed(k, call).current == k.current
  {
  }

  /** After its call, the current task can be registered. */
  lemma PerformedCanEnqueue(k: K.Kernel, call: Call)
    requires Invariant(k, k.current) && k.tasks[k.current].state == Active && Proper(k, call)
    ensures var k' := Performed(k, call); CanEnqueue(k', k'.tasks[k.current].priority)
  {
    hide Kept, Linked, CanEnqueue, Killable;
    if call.Pass? {
      PassedLinks(k);
    } else {
      PerformPreserves(k, call);
    }
    LinkedCanEnqueue(Performed(k, call), Performed(k, call).tasks[k.current].priority);
  }

  lemma PassedLinks(k: K.Kernel)
    requires Kept(k, k.current) && Linked(k) && k.tasks[k.current].state == Active
    ensures Linked(Passed(k))
  {
    RegisterOffLinks(k, k.current, k, k.current);
  }

  /** The slot of an event and the descriptor of the task in it say the same. */
  lemma WaiterMarked(k: K.Kernel, e: Event, running: int)
    requires Invariant(k, running) && K.EventHasTask(k, e)
    ensures var t: Tid := k.slots[e];
            k.tasks[t].blockedOn == e && k.tasks[t].result == AWAITED && CanEnqueue(k, k.tasks[t].priority)
  {
    var t: Tid := k.slots[e];
    assert Places(k.tasks, running)[t] == InSlot(e);
    assert EventMarked(k.tasks[t]);
    LinkedCanEnqueue(k, k.tasks[t].priority);
  }

  lemma SlotOfWaiter(k: K.Kernel, t: Tid, running: int)
    requires Invariant(k, running) && k.tasks[t].state != Zombie
    ensures k.tasks[t].state == EventBlocked ==> 0 <= k.tasks[t].blockedOn < EVENTS && k.slots[k.tasks[t].blockedOn] == t
    ensures k.tasks[t].state != EventBlocked ==> k.tasks[t].blockedOn == NOT_BLOCKED
  {
    assert Places(k.tasks, running)[t] == PlaceOf(k.tasks[t], t == running);
    assert EventMarked(k.tasks[t]);
  }

  predicate HaveTails(k: K.Kernel) {
    forall p: Priority :: CanEnqueue(k, p)
  }

  lemma LinkedHaveTails(k: K.Kernel)
    requires Linked(k)
    ensures HaveTails(k)
  {
    forall p: Priority
      ensures CanEnqueue(k, p)
    {
      LinkedCanEnqueue(k, p);
    }
  }

  /** ENQUEUE makes no pointer null. */
  lemma TailsStay(k: K.Kernel, t: Tid)
    requires HaveTails(k) && k.sends[t] != []
    ensures HaveTails(DismissedOne(k, t))
  {
    var x := k.sends[t][0];
    assert CanEnqueue(k, k.tasks[x].priority);
    forall p: Priority
      ensures CanEnqueue(DismissedOne(k, t), p)
    {
      assert CanEnqueue(k, p);
    }
  }

  /** Whomever Kill ends, and whatever REMOVE does to the rings: clear_send_queue finds no null pointer. */
  lemma UnhookedHasTails(k: K.Kernel, t: Tid)
    requires Kept(k, k.current) && Linked(k) && k.tasks[t].state != Zombie
    ensures HaveTails(Unhooked(k, t))
  {
    hide Kept, Unhooked;
    UnhookedPairs(k, t);
    forall p: Priority
      ensures CanEnqueue(Unhooked(k, t), p)
    {
      var s := Unhooked(k, t).ready[p];
      if s != [] {
        KeptDistinct(k, p);
        assert In(s, s[0]);
        RemovedMembers(k.ready[p], t, s[0]);
        ReadyIsRunnable(k, p, s[0]);
        assert IsThreaded(k.pairs[s[0]]);
        JoinThreads(k.pairs, k.pairs[t].prev, k.pairs[t].next, s[0]);
      }
    }
  }

  lemma KeptDistinct(k: K.Kernel, p: Priority)
    requires Kept(k, k.current)
    ensures Distinct(k.ready[p])
  {
  }
}
