/** What the kernel's operations do to its whole state: kernel/src/multitasking, kernel/src/events.c and
    kernel/src/syscall/syscall.c as functions from state to state. `Kernel.dfy` has the operations themselves. */
module KernelModel {
  import opened Basics
  import opened TaskQueue

  const PRIORITIES := 64
  const EVENTS := 5
  const GENERATIONS := 1000
  const NOT_BLOCKED := 0xBA5EBA11
  /** What AwaitEvent returns until the event fires. */
  const AWAITED := 0xBADDA7A

  type Priority = p: nat | p < PRIORITIES
  type Event = e: nat | e < EVENTS

  datatype State =
    | Active
    | Runnable
    | Zombie
    | ReceiveBlocked  // called Send, the receiver has not called Receive
    | SendBlocked     // called Receive, nobody has sent
    | ReplyBlocked    // the message is received, but not replied to
    | EventBlocked

  /** A task descriptor. Of the trapframe there are the result (r0) and the arguments of Send and Receive:
      whom to send to, the message, the buffer for the reply or message, and where the sender's tid goes. */
  datatype Task = Task(priority: Priority, state: State, generation: nat, blockedOn: int,
                       result: int, to: int, message: seq<bv8>, buffer: seq<bv8>, from: int)

  datatype Machine = Machine(
    tasks: seq<Task>,
    ready: seq<seq<Tid>>,        // by priority
    pairs: Pairs,                // next and prev of each task
    sends: seq<seq<Tid>>,        // who waits to send to each task
    slots: seq<int>,             // the task registered for each event, or NONE
    armed: seq<bool>,            // has_event_been_registered
    eventBlocked: int,           // tasks_event_blocked
    available: seq<bool>,        // available_tids
    nextGeneration: seq<nat>,
    current: Tid)

  predicate Shaped(m: Machine) {
    && |m.tasks| == |m.sends| == |m.available| == |m.nextGeneration| == MAX_TASKS
    && |m.ready| == PRIORITIES
    && |m.slots| == |m.armed| == EVENTS
  }

  type Kernel = m: Machine | Shaped(m) witness Reset()

  /** setup_tasks, setup_events and setup_scheduler */
  function Reset(): (m: Machine)
    ensures Shaped(m)
  {
    Machine(
      seq(MAX_TASKS, _ => Task(0, Zombie, 0, 0, 0, 0, [], [], 0)),
      seq(PRIORITIES, _ => []),
      seq(MAX_TASKS, _ => Pair(NONE, NONE)),
      seq(MAX_TASKS, _ => []),
      seq(EVENTS, _ => NONE),
      seq(EVENTS, _ => false),
      0,
      seq(MAX_TASKS, t => t != 0),
      seq(MAX_TASKS, _ => 0),
      0)
  }

  // ---- tasks and scheduler ----

  function WithTask(k: Kernel, t: Tid, task: Task): Kernel {
    k.(tasks := k.tasks[t := task])
  }

  /** task_set_state */
  function SetState(k: Kernel, t: Tid, state: State): Kernel {
    var was := k.tasks[t].state;
    WithTask(k, t, k.tasks[t].(state := state)).(eventBlocked :=
      if was == EventBlocked && (state == Runnable || state == Zombie) then k.eventBlocked - 1
      else if state == EventBlocked then k.eventBlocked + 1
      else k.eventBlocked)
  }

  function Return(k: Kernel, t: Tid, value: int): Kernel {
    WithTask(k, t, k.tasks[t].(result := value))
  }

  function WithSends(k: Kernel, r: Tid, s: seq<Tid>): Kernel {
    k.(sends := k.sends[r := s])
  }

  /** register_task */
  function Register(k: Kernel, t: Tid): Kernel {
    var p := k.tasks[t].priority;
    k.(ready := k.ready[p := Enqueued(k.ready[p], t)], pairs := EnqueuePairs(k.pairs, Head(k.ready[p]), t))
  }

  /** deregister_task. Whether the pointers then still link what the queues are meant to hold depends on those of
      the task (see `Linked` in `KernelLinks.dfy`). */
  function Deregister(k: Kernel, t: Tid): Kernel {
    var p := k.tasks[t].priority;
    k.(ready := k.ready[p := Removed(k.ready[p], t)], pairs := RemovePairs(k.pairs, Head(k.ready[p]), t))
  }

  /** The highest priority at or below `p` with a nonempty ready queue. */
  function HighestReady(ready: seq<seq<Tid>>, p: int): (h: int)
    requires |ready| == PRIORITIES && -1 <= p < PRIORITIES
    ensures -1 <= h <= p
    ensures h >= 0 ==> ready[h] != []
    ensures forall q :: h < q <= p ==> ready[q] == []
    decreases p
  {
    if p < 0 || ready[p] != [] then p else HighestReady(ready, p - 1)
  }

  datatype Choice = Nothing | Halt | Run(t: Tid)

  /** Whom schedule picks: it returns false with nothing to run and nobody waiting for an event, and stops
      the kernel with nothing to run but somebody waiting. */
  function Schedule(k: Kernel): Choice {
    var h := HighestReady(k.ready, PRIORITIES - 1);
    if h >= 0 then Run(k.ready[h][0])
    else if k.eventBlocked == 0 then Nothing
    else Halt
  }

  /** The task taken from its queue and running. */
  function Picked(k: Kernel): Kernel
    requires Schedule(k).Run?
  {
    var h := HighestReady(k.ready, PRIORITIES - 1);
    var t := k.ready[h][0];
    WithTask(k, t, k.tasks[t].(state := Active)).(
      ready := k.ready[h := k.ready[h][1..]], pairs := DequeuePairs(k.pairs, t), current := t)
  }

  /** After its system call or interrupt, a task that can go on is registered again. */
  function Finished(k: Kernel): Kernel {
    var c := k.current;
    if k.tasks[c].state == Runnable || k.tasks[c].state == Active then Register(SetState(k, c, Runnable), c)
    else k
  }

  // ---- task ids ----

  /** The lowest available tid from `t` on, or NONE. */
  function NextAvailable(available: seq<bool>, t: nat): (r: int)
    requires |available| == MAX_TASKS && t <= MAX_TASKS
    ensures r == NONE || t <= r < MAX_TASKS
    ensures r != NONE ==> available[r] && forall i :: t <= i < r ==> !available[i]
    ensures r == NONE ==> forall i :: t <= i < MAX_TASKS ==> !available[i]
    decreases MAX_TASKS - t
  {
    if t == MAX_TASKS then NONE
    else if available[t] then t
    else NextAvailable(available, t + 1)
  }

  function Userland(k: Kernel, t: Tid): int {
    k.tasks[t].generation * MAX_TASKS + t
  }

  /** is_valid_userland_tid */
  predicate IsValid(k: Kernel, tid: int) {
    tid > 0 && !k.available[tid % MAX_TASKS]
  }

  // ---- system calls of the current task ----

  predicate CanCreate(k: Kernel, priority: int) {
    NextAvailable(k.available, 0) != NONE && 0 <= priority < PRIORITIES
  }

  function CreateResult(k: Kernel, priority: int): int {
    var t := NextAvailable(k.available, 0);
    if t == NONE then -2
    else if !CanCreate(k, priority) then -1
    else k.nextGeneration[t] * MAX_TASKS + t
  }

  /** task_init */
  function Initialised(k: Kernel, t: Tid, priority: Priority): Kernel {
    var task := Task(priority, Runnable, k.nextGeneration[t], NOT_BLOCKED, 0xF4330000 + t * 16, 0, [], [], 0);
    WithTask(k, t, task).(available := k.available[t := false],
                          nextGeneration := k.nextGeneration[t := k.nextGeneration[t] + 1],
                          sends := k.sends[t := []],
                          pairs := k.pairs[t := Pair(NONE, NONE)])
  }

  /** syscall_create: task_init and register_task */
  function Created(k: Kernel, priority: int): Kernel {
    if !CanCreate(k, priority) then k
    else
      var t := NextAvailable(k.available, 0);
      Register(Initialised(k, t, priority), t)
  }

  /** task_retire */
  function Retired(k: Kernel, t: Tid): Kernel {
    SetState(k, t, Zombie).(available := k.available[t := k.available[t] || k.nextGeneration[t] < GENERATIONS])
  }

  /** One round of the loop of clear_send_queue, and the whole loop. */
  function DismissedOne(k: Kernel, t: Tid): Kernel
    requires k.sends[t] != []
  {
    var sender := k.sends[t][0];
    var rest := WithSends(k, t, k.sends[t][1..]);
    if k.tasks[sender].state == ReceiveBlocked then Register(SetState(Return(rest, sender, -2), sender, Runnable), sender)
    else rest
  }

  function Dismissed(k: Kernel, t: Tid): (r: Kernel)
    ensures r.current == k.current
    decreases |k.sends[t]|
  {
    if k.sends[t] == [] then k else Dismissed(DismissedOne(k, t), t)
  }

  function Exited(k: Kernel): Kernel {
    Dismissed(Retired(k, k.current), k.current)
  }

  function Passed(k: Kernel): Kernel {
    Register(k, k.current)
  }

  function Least(m: nat, n: nat): nat { if m <= n then m else n }

  /** A buffer once as much of the message as fits has been copied to it. */
  function Filled(buffer: seq<bv8>, message: seq<bv8>): (r: seq<bv8>)
    ensures |r| == |buffer|
    ensures forall i :: 0 <= i < |r| ==> r[i] == if i < |message| then message[i] else buffer[i]
  {
    var n := Least(|message|, |buffer|);
    message[..n] + buffer[n..]
  }

  function CopyResult(buffer: seq<bv8>, message: seq<bv8>): int {
    if |message| > |buffer| then -1 else |message|
  }

  /** transmit_message */
  function Transmitted(k: Kernel, src: Tid, dst: Tid): Kernel {
    var d := k.tasks[dst];
    var message := k.tasks[src].message;
    var k1 := WithTask(k, dst, d.(result := CopyResult(d.buffer, message), buffer := Filled(d.buffer, message)));
    var k2 := SetState(SetState(k1, src, ReplyBlocked), dst, Runnable);
    WithTask(k2, dst, k2.tasks[dst].(from := Userland(k, src)))
  }

  /** The current task with the arguments of its Send or Receive. */
  function Calling(k: Kernel, to: int, message: seq<bv8>, buffer: seq<bv8>): Kernel {
    WithTask(k, k.current, k.tasks[k.current].(to := to, message := message, buffer := buffer))
  }

  /** send, for a sender and a receiver */
  function Offered(k: Kernel, sender: Tid, receiver: Tid): Kernel {
    match k.tasks[receiver].state
    case Zombie => Return(k, sender, -2)
    case SendBlocked => Register(Transmitted(k, sender, receiver), receiver)
    case _ => WithSends(SetState(k, sender, ReceiveBlocked), receiver, k.sends[receiver] + [sender])
  }

  function Sent(k: Kernel, to: int, message: seq<bv8>, buffer: seq<bv8>): Kernel {
    var k1 := Calling(k, to, message, buffer);
    if !IsValid(k, to) then Return(k1, k.current, -2)
    else Offered(k1, k.current, to % MAX_TASKS)
  }

  function Received(k: Kernel, buffer: seq<bv8>): Kernel {
    var c := k.current;
    var k1 := Calling(k, 0, [], buffer);
    if k.sends[c] == [] then SetState(k1, c, SendBlocked)
    else
      var sender := k.sends[c][0];
      SetState(Transmitted(WithSends(k1, c, k.sends[c][1..]), sender, c), sender, ReplyBlocked)
  }

  function Replied(k: Kernel, to: int, message: seq<bv8>): Kernel {
    var c := k.current;
    if !IsValid(k, to) then Return(k, c, -2)
    else
      var s := to % MAX_TASKS;
      var task := k.tasks[s];
      if task.state == Zombie then Return(k, c, -2)
      else if task.state != ReplyBlocked then Return(k, c, -3)
      else
        var k1 := Return(k, c, if |task.buffer| < |message| then -1 else 0);
        var k2 := WithTask(k1, s, task.(result := CopyResult(task.buffer, message), buffer := Filled(task.buffer, message)));
        Register(SetState(k2, s, Runnable), s)
  }

  // ---- events ----

  predicate EventHasTask(k: Kernel, e: Event) {
    0 <= k.slots[e] < MAX_TASKS && k.tasks[k.slots[e]].state == EventBlocked
  }

  /** event_register, with its result returned to the current task */
  function Awaited(k: Kernel, event: int): Kernel {
    var c := k.current;
    if !(0 <= event < EVENTS) then Return(k, c, -1)
    else if EventHasTask(k, event) then Return(k, c, -3)
    else
      var k1 := k.(slots := k.slots[event := c], armed := k.armed[event := true]);
      Return(SetState(WithTask(k1, c, k.tasks[c].(blockedOn := event)), c, EventBlocked), c, AWAITED)
  }

  /** event_handle, which stops the kernel when an armed event has no task. */
  predicate CanFire(k: Kernel, e: Event) {
    EventHasTask(k, e) || !k.armed[e]
  }

  function Fired(k: Kernel, e: Event, data: int): Kernel {
    if !EventHasTask(k, e) then k
    else
      var t := k.slots[e];
      var k1 := SetState(Return(k, t, data), t, Runnable);
      Register(WithTask(k1, t, k1.tasks[t].(blockedOn := NOT_BLOCKED)).(slots := k.slots[e := NONE]), t)
  }

  /** event_deregister */
  function Disarmed(k: Kernel, t: Tid): Kernel {
    var e := k.tasks[t].blockedOn;
    if k.tasks[t].state == EventBlocked && 0 <= e < EVENTS then
      WithTask(k, t, k.tasks[t].(blockedOn := NOT_BLOCKED)).(slots := k.slots[e := NONE], armed := k.armed[e := false])
    else k
  }

  // ---- Kill ----

  /** The slot that get_task_with_userland_tid finds, or NONE. C's remainder has the sign of the dividend. */
  function Lookup(tid: int): (r: int)
    ensures r == NONE || 0 <= r < MAX_TASKS
  {
    if tid >= 0 then tid % MAX_TASKS
    else if tid % MAX_TASKS == 0 then 0
    else NONE
  }

  function KillResult(k: Kernel, tid: int): int {
    if tid == Userland(k, k.current) then -2
    else if Lookup(tid) == NONE then -1
    else 0
  }

  /** What syscall_kill does once it has found the task. */
  function Killed(k: Kernel, t: Tid): Kernel {
    Dismissed(Retired(Deregister(Disarmed(k, t), t), t), t)
  }

  // ---- runs ----

  datatype Call =
    | Create(priority: int)
    | Exit
    | Pass
    | Send(to: int, message: seq<bv8>, buffer: seq<bv8>)
    | Receive(buffer: seq<bv8>)
    | Reply(to: int, message: seq<bv8>)
    | AwaitEvent(event: int)
    | Kill(tid: int)
    | Query(value: int)  // MyTid and the other calls that only return a value
    | Interrupt(event: int, data: int)  // event NONE: nothing to handle

  /** The calls after which the kernel goes on. An armed event without a task stops it, and Kill is only
      defined for a live task. */
  predicate Allowed(k: Kernel, call: Call) {
    match call
    case Interrupt(e, _) => e == NONE || (0 <= e < EVENTS && CanFire(k, e))
    case Kill(tid) => KillResult(k, tid) == 0 ==> k.tasks[Lookup(tid)].state != Zombie
    case _ => true
  }

  function Performed(k: Kernel, call: Call): Kernel
    requires Allowed(k, call)
  {
    match call
    case Create(priority) => Return(Created(k, priority), k.current, CreateResult(k, priority))
    case Exit => Exited(k)
    case Pass => Passed(k)
    case Send(to, message, buffer) => Sent(k, to, message, buffer)
    case Receive(buffer) => Received(k, buffer)
    case Reply(to, message) => Replied(k, to, message)
    case AwaitEvent(event) => Awaited(k, event)
    case Kill(tid) =>
      Return(if KillResult(k, tid) == 0 then Killed(k, Lookup(tid)) else k, k.current, KillResult(k, tid))
    case Query(value) => Return(k, k.current, value)
    case Interrupt(e, data) => if e == NONE then k else Fired(k, e, data)
  }

  /** One turn of the loop around schedule. */
  predicate CanStep(k: Kernel, call: Call) {
    Schedule(k).Run? && Allowed(Picked(k), call)
  }

  function Step(k: Kernel, call: Call): Kernel
    requires CanStep(k, call)
  {
    Finished(Performed(Picked(k), call))
  }

  /** kmain creates the first task before it schedules. */
  function Boot(priority: Priority): Kernel {
    Created(Reset(), priority)
  }
}
