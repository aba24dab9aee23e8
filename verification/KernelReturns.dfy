/** What becomes of a task between its calls: what it is left with, and how a Send comes back. */
module KernelReturns {
  import opened Basics
  import opened TaskQueue
  import opened QueueFacts
  import opened KernelModel
  import opened KernelQueues
  import opened KernelKill
  import opened KernelLinks
  import opened KernelUnlink
  import opened KernelInvariant
  import opened KernelHistory
  import opened KernelOutcomes
  import opened KernelEffects

  lemma AvailableIsDead(k: Kernel)
    requires TidsKept(k)
    ensures forall t: Tid :: k.available[t] ==> k.tasks[t].state == Zombie
  {
    forall t: Tid | k.available[t]
      ensures k.tasks[t].state == Zombie
    {
      assert SlotKept(k, t);
    }
  }

  /** The two ends of a call's effect besides the caller: the first waiting sender and the task in the slot. */
  lemma PartnersAreBlocked(k: Kernel)
    requires Kept(k, k.current)
    ensures k.sends[k.current] != [] ==> k.tasks[k.sends[k.current][0]].state == ReceiveBlocked
    ensures forall e: Event :: 0 <= k.slots[e] < MAX_TASKS ==> k.tasks[k.slots[e]].state == EventBlocked
  {
    if k.sends[k.current] != [] {
      HeadSenderLives(k, k.current, k.current);
    }
    forall e: Event {
      TakenSlotHasTask(k, e, k.current);
    }
  }

  // ---- a task that waits for its turn ----

  lemma CallLeavesRunnable(k: Kernel, call: Call, k': Kernel, u: Tid)
    requires Invariant(k, k.current) && k.tasks[k.current].state == Active && Allowed(k, call) && Effect(k, call, k')
    requires u != k.current && k.tasks[u].state == Runnable && !Dies(k, call, u)
    ensures k'.tasks[u] == k.tasks[u]
  {
    hide Kept, Linked, EventsKept, TidsKept;
    AvailableIsDead(k);
    PartnersAreBlocked(k);
  }

  /** A runnable task is left as it is in every turn but its own, unless it is killed. */
  lemma TurnLeavesRunnable(k: Kernel, call: Call, u: Tid)
    requires Invariant(k, NONE) && CanTurn(k, call)
    requires u != Schedule(k).t && k.tasks[u].state == Runnable && !Dies(Picked(k), call, u)
    ensures Step(k, call).tasks[u] == k.tasks[u]
  {
    hide Invariant, Effect, Dies, Step, Picked;
    var k1, k2 := TurnHasEffect(k, call);
    CallLeavesRunnable(k1, call, k2, u);
  }

  ghost predicate IsPassedOver(k: Kernel, call: Call, k': Kernel, u: Tid) {
    Turns(k, call, k') && Schedule(k).t != u && !Dies(Picked(k), call, u)
  }

  /** So it has the result and the buffer that its last call left it until its next turn. */
  lemma {:induction false} KeptUntilTurn(states: seq<Kernel>, calls: seq<Call>, u: Tid, i: nat, j: nat)
    requires IsRun(states, calls) && Invariant(states[0], NONE) && i <= j < |states|
    requires states[i].tasks[u].state == Runnable
    requires forall m {:trigger calls[m]} :: i <= m < j ==> IsPassedOver(states[m], calls[m], states[m + 1], u)
    ensures states[j].tasks[u] == states[i].tasks[u]
    decreases j - i
  {
    hide Invariant, Dies, Step, Picked, Proper;
    if i < j {
      KeptUntilTurn(states, calls, u, i, j - 1);
      assert IsPassedOver(states[j - 1], calls[j - 1], states[j], u);
      RunPreserves(states, calls, j - 1);
      TurnLeavesRunnable(states[j - 1], calls[j - 1], u);
    }
  }

  // ---- a task that has called Send ----

  predicate InSend(task: Task) {
    task.state == ReceiveBlocked || task.state == ReplyBlocked
  }

  /** A Reply to it: the bytes that fit are in its buffer, and its result and that of the replier say whether all did. */
  predicate IsAnswered(k: Kernel, call: Call, k': Kernel, s: Tid) {
    var task := k.tasks[s];
    && call.Reply? && call.to > 0 && call.to % MAX_TASKS == s && task.state == ReplyBlocked
    && k'.tasks[s] == Got(task, task.buffer, call.message)
    && k'.tasks[k.current].result == if |call.message| > |task.buffer| then -1 else 0
  }

  /** The task it waits to send to dies. */
  predicate IsBereaved(k: Kernel, call: Call, k': Kernel, s: Tid) {
    var task := k.tasks[s];
    && task.state == ReceiveBlocked && Dies(k, call, task.to % MAX_TASKS)
    && k'.tasks[s] == task.(state := Runnable, result := -2)
  }

  /** It is still in its Send, with nothing but perhaps its state changed. */
  predicate StillSends(k: Kernel, k': Kernel, s: Tid) {
    InSend(k'.tasks[s]) && k'.tasks[s] == k.tasks[s].(state := k'.tasks[s].state)
  }

  predicate SendGoesOn(k: Kernel, call: Call, k': Kernel, s: Tid) {
    || StillSends(k, k', s)
    || IsAnswered(k, call, k', s)
    || IsBereaved(k, call, k', s)
    || (Dies(k, call, s) && k'.tasks[s].state == Zombie)
  }

  lemma DeathMovesSender(k: Kernel, k': Kernel, t: Tid, ready: seq<seq<Tid>>, s: Tid)
    requires |ready| == PRIORITIES && Ends(k, k', t, ready) && s != t && InSend(k.tasks[s])
    ensures k'.current == k.current
    ensures if k.tasks[s].state == ReceiveBlocked && k.tasks[s].to % MAX_TASKS == t
            then k'.tasks[s] == k.tasks[s].(state := Runnable, result := -2) else k'.tasks[s] == k.tasks[s]
  {
  }

  lemma KillMovesSender(k: Kernel, tid: int, k': Kernel, s: Tid)
    requires s != k.current && InSend(k.tasks[s]) && KillEffect(k, k', tid)
    ensures SendGoesOn(k, Kill(tid), k', s)
  {
    hide Ends;
    if KillResult(k, tid) == 0 {
      var t := tid % MAX_TASKS;
      var k1: Kernel :| Ends(k, k1, t, WithoutVictim(k, t)) && OnlyReturns(k1, k', 0);
      EndsInDeath(k, k1, t, WithoutVictim(k, t));
      if s != t {
        DeathMovesSender(k, k1, t, WithoutVictim(k, t), s);
      }
    }
  }

  lemma EndsInDeath(k: Kernel, k': Kernel, t: Tid, ready: seq<seq<Tid>>)
    requires |ready| == PRIORITIES && Ends(k, k', t, ready)
    ensures k'.tasks[t].state == Zombie && k'.current == k.current
  {
  }

  lemma CallMovesSender(k: Kernel, call: Call, k': Kernel, s: Tid)
    requires Invariant(k, k.current) && k.tasks[k.current].state == Active && Allowed(k, call) && Effect(k, call, k')
    requires s != k.current && InSend(k.tasks[s])
    ensures SendGoesOn(k, call, k', s)
  {
    hide Kept, Linked, EventsKept, TidsKept, Ends;
    AvailableIsDead(k);
    PartnersAreBlocked(k);
    match call
    case Exit => DeathMovesSender(k, k', k.current, k.ready, s);
    case Kill(tid) => KillMovesSender(k, tid, k', s);
    case _ =>
  }

  lemma TurnMovesSender(k: Kernel, call: Call, s: Tid)
    requires Invariant(k, NONE) && CanTurn(k, call) && InSend(k.tasks[s])
    ensures s != Schedule(k).t && Picked(k).tasks[s] == k.tasks[s] && Picked(k).current == Schedule(k).t
    ensures SendGoesOn(Picked(k), call, Step(k, call), s)
  {
    hide Invariant, Effect, Dies, Step, Picked;
    var k1, k2 := TurnHasEffect(k, call);
    CallMovesSender(k1, call, k2, s);
  }

  /** A Send that does not fail leaves its arguments in the descriptor and nothing else but the state. */
  lemma SendKeepsArguments(k: Kernel, to: int, message: seq<bv8>, buffer: seq<bv8>)
    requires Invariant(k, NONE) && CanTurn(k, Send(to, message, buffer))
    ensures var s := Schedule(k).t;
            var task := Step(k, Send(to, message, buffer)).tasks[s];
            InSend(task) ==> task == k.tasks[s].(state := task.state, to := to, message := message, buffer := buffer)
  {
    hide Invariant, Step, Picked;
    var k1, k2 := TurnHasEffect(k, Send(to, message, buffer));
  }

  ghost predicate Sends(states: seq<Kernel>, calls: seq<Call>, s: Tid, i: nat, j: nat)
    requires IsRun(states, calls)
  {
    && i < j < |calls| && calls[i].Send? && Schedule(states[i]) == Run(s)
    && forall m :: i < m <= j ==> InSend(states[m].tasks[s])
  }

  lemma {:induction false} SendIsKept(states: seq<Kernel>, calls: seq<Call>, s: Tid, i: nat, j: nat)
    requires IsRun(states, calls) && Invariant(states[0], NONE) && Sends(states, calls, s, i, j)
    ensures var call, task := calls[i], states[j].tasks[s];
            task == states[i].tasks[s].(state := task.state, to := call.to, message := call.message, buffer := call.buffer)
    decreases j - i
  {
    hide Invariant, Step, Picked, Proper, Dies, IsAnswered, IsBereaved;
    RunPreserves(states, calls, j - 1);
    assert Turns(states[j - 1], calls[j - 1], states[j]);
    if j == i + 1 {
      SendKeepsArguments(states[i], calls[i].to, calls[i].message, calls[i].buffer);
    } else {
      SendIsKept(states, calls, s, i, j - 1);
      TurnMovesSender(states[j - 1], calls[j - 1], s);
      StillSendsIfBlocked(states[j - 1], calls[j - 1], states[j], s);
    }
  }

  lemma StillSendsIfBlocked(k: Kernel, call: Call, k': Kernel, s: Tid)
    requires Schedule(k).Run? && SendGoesOn(Picked(k), call, k', s) && Picked(k).tasks[s] == k.tasks[s] && InSend(k'.tasks[s])
    ensures StillSends(k, k', s)
  {
  }

  /** How a Send comes back: by a Reply, whose bytes are in the buffer given to the Send as far as they fit; by the death
      of the receiver before it has got the message, with -2 and an untouched buffer; or not at all, because the
      sender is killed. */
  lemma SendComesBack(states: seq<Kernel>, calls: seq<Call>, s: Tid, i: nat, j: nat)
    requires IsRun(states, calls) && Invariant(states[0], NONE) && Sends(states, calls, s, i, j)
    requires !InSend(states[j + 1].tasks[s])
    ensures var send, last, before, after := calls[i], calls[j], states[i].tasks[s], states[j + 1].tasks[s];
            var sent := before.(to := send.to, message := send.message, buffer := send.buffer);
            || (&& last.Reply? && last.to > 0 && last.to % MAX_TASKS == s
                && var fits := |last.message| <= |send.buffer|;
                && after == sent.(state := Runnable, result := if fits then |last.message| else -1,
                                  buffer := Filled(send.buffer, last.message))
                && states[j + 1].tasks[Schedule(states[j]).t].result == if fits then 0 else -1)
            || (&& Dies(Picked(states[j]), last, send.to % MAX_TASKS)
                && after == sent.(state := Runnable, result := -2))
            || (Dies(Picked(states[j]), last, s) && after.state == Zombie)
  {
    hide Invariant, Step, Picked, Proper, Dies;
    SendIsKept(states, calls, s, i, j);
    RunPreserves(states, calls, j);
    assert Turns(states[j], calls[j], states[j + 1]);
    TurnMovesSender(states[j], calls[j], s);
  }

  // ---- a task that has called Receive or AwaitEvent ----

  predicate InWait(task: Task) {
    task.state == SendBlocked || task.state == EventBlocked
  }

  /** A letter of the current task. */
  predicate GetsLetter(k: Kernel, call: Call, k': Kernel, u: Tid) {
    var task, tid := k.tasks[u], k.tasks[k.current].generation * MAX_TASKS + k.current;
    && task.state == SendBlocked && call.Send? && call.to > 0 && call.to % MAX_TASKS == u
    && k'.tasks[u] == Got(task, task.buffer, call.message).(from := tid)
  }

  predicate GetsEvent(k: Kernel, call: Call, k': Kernel, u: Tid) {
    var task := k.tasks[u];
    && task.state == EventBlocked && call.Interrupt? && call.event == task.blockedOn
    && k'.tasks[u] == task.(state := Runnable, result := call.data, blockedOn := NOT_BLOCKED)
  }

  predicate WaitGoesOn(k: Kernel, call: Call, k': Kernel, u: Tid) {
    || k'.tasks[u] == k.tasks[u]
    || GetsLetter(k, call, k', u)
    || GetsEvent(k, call, k', u)
    || (Dies(k, call, u) && k'.tasks[u].state == Zombie)
  }

  lemma SlotIsOfEvent(k: Kernel)
    requires Kept(k, k.current)
    ensures forall e: Event :: 0 <= k.slots[e] < MAX_TASKS ==> k.tasks[k.slots[e]].blockedOn == e
  {
    forall e: Event | 0 <= k.slots[e] < MAX_TASKS
      ensures k.tasks[k.slots[e]].blockedOn == e
    {
      NoSlotUnlessWaiting(k, k.slots[e]);
    }
  }

  lemma KillLeavesWaiter(k: Kernel, tid: int, k': Kernel, u: Tid)
    requires u != k.current && InWait(k.tasks[u]) && KillEffect(k, k', tid)
    ensures WaitGoesOn(k, Kill(tid), k', u)
  {
    if KillResult(k, tid) == 0 {
      var t := tid % MAX_TASKS;
      var k1: Kernel :| Ends(k, k1, t, WithoutVictim(k, t)) && OnlyReturns(k1, k', 0);
    }
  }

  lemma CallMovesWaiter(k: Kernel, call: Call, k': Kernel, u: Tid)
    requires Invariant(k, k.current) && k.tasks[k.current].state == Active && Allowed(k, call) && Effect(k, call, k')
    requires u != k.current && InWait(k.tasks[u])
    ensures WaitGoesOn(k, call, k', u)
  {
    hide Kept, Linked, EventsKept, TidsKept, KillEffect;
    AvailableIsDead(k);
    PartnersAreBlocked(k);
    SlotIsOfEvent(k);
    match call
    case Kill(tid) => KillLeavesWaiter(k, tid, k', u);
    case _ =>
  }

  lemma TurnMovesWaiter(k: Kernel, call: Call, u: Tid)
    requires Invariant(k, NONE) && CanTurn(k, call) && InWait(k.tasks[u])
    ensures u != Schedule(k).t && Picked(k).tasks[u] == k.tasks[u] && Picked(k).current == Schedule(k).t
    ensures forall t: Tid :: Picked(k).tasks[t].generation == k.tasks[t].generation
    ensures WaitGoesOn(Picked(k), call, Step(k, call), u)
  {
    hide Invariant, Effect, Dies, Step, Picked;
    var k1, k2 := TurnHasEffect(k, call);
    CallMovesWaiter(k1, call, k2, u);
  }

  lemma WaitKeepsArguments(k: Kernel, call: Call)
    requires Invariant(k, NONE) && CanTurn(k, call)
    ensures var u := Schedule(k).t;
            var task := Step(k, call).tasks[u];
            && (call.Receive? && task.state == SendBlocked ==>
                  task == k.tasks[u].(state := SendBlocked, to := 0, message := [], buffer := call.buffer))
            && (call.AwaitEvent? && task.state == EventBlocked ==>
                  task == k.tasks[u].(state := EventBlocked, blockedOn := call.event, result := AWAITED))
  {
    hide Invariant, Step, Picked;
    var k1, k2 := TurnHasEffect(k, call);
  }

  /** The task calls Receive or AwaitEvent in turn `i` and waits from then to before turn `j`. */
  ghost predicate Waits(states: seq<Kernel>, calls: seq<Call>, u: Tid, i: nat, j: nat)
    requires IsRun(states, calls)
  {
    && i < j < |calls| && Schedule(states[i]) == Run(u)
    && (forall m :: i < m <= j ==>
          states[m].tasks[u].state == if calls[i].Receive? then SendBlocked else EventBlocked)
  }

  lemma {:induction false} WaiterIsKept(states: seq<Kernel>, calls: seq<Call>, u: Tid, i: nat, j: nat)
    requires IsRun(states, calls) && Invariant(states[0], NONE)
    requires Waits(states, calls, u, i, j) && (calls[i].Receive? || calls[i].AwaitEvent?)
    ensures var call, before := calls[i], states[i].tasks[u];
            states[j].tasks[u] ==
            if call.Receive? then before.(state := SendBlocked, to := 0, message := [], buffer := call.buffer)
            else before.(state := EventBlocked, blockedOn := call.event, result := AWAITED)
    decreases j - i
  {
    hide Invariant, Step, Picked, Proper, Dies;
    RunPreserves(states, calls, j - 1);
    assert Turns(states[j - 1], calls[j - 1], states[j]);
    if j == i + 1 {
      WaitKeepsArguments(states[i], calls[i]);
    } else {
      WaiterIsKept(states, calls, u, i, j - 1);
      TurnMovesWaiter(states[j - 1], calls[j - 1], u);
    }
  }

  /** A Receive that waits comes back with the next message sent to the task, as much of it as fits, and the tid of the
      sender; or the task is killed. */
  lemma ReceiveComesBack(states: seq<Kernel>, calls: seq<Call>, u: Tid, i: nat, j: nat)
    requires IsRun(states, calls) && Invariant(states[0], NONE)
    requires Waits(states, calls, u, i, j) && calls[i].Receive? && states[j + 1].tasks[u].state != SendBlocked
    ensures var buffer, last, after := calls[i].buffer, calls[j], states[j + 1].tasks[u];
            || (&& last.Send? && last.to > 0 && last.to % MAX_TASKS == u
                && after.state == Runnable && after.buffer == Filled(buffer, last.message)
                && after.result == (if |last.message| <= |buffer| then |last.message| else -1)
                && var s := Schedule(states[j]).t; after.from == states[j].tasks[s].generation * MAX_TASKS + s)
            || (Dies(Picked(states[j]), last, u) && after.state == Zombie)
  {
    hide Invariant, Step, Picked, Proper, Dies;
    WaiterIsKept(states, calls, u, i, j);
    RunPreserves(states, calls, j);
    assert Turns(states[j], calls[j], states[j + 1]);
    TurnMovesWaiter(states[j], calls[j], u);
  }

  /** An AwaitEvent that waits comes back with the data of the next interrupt of that event; or the task is killed. */
  lemma AwaitComesBack(states: seq<Kernel>, calls: seq<Call>, u: Tid, i: nat, j: nat)
    requires IsRun(states, calls) && Invariant(states[0], NONE)
    requires Waits(states, calls, u, i, j) && calls[i].AwaitEvent? && states[j + 1].tasks[u].state != EventBlocked
    ensures var last, after := calls[j], states[j + 1].tasks[u];
            || (last == Interrupt(calls[i].event, after.result) && after.state == Runnable)
            || (Dies(Picked(states[j]), last, u) && after.state == Zombie)
  {
    hide Invariant, Step, Picked, Proper, Dies;
    WaiterIsKept(states, calls, u, i, j);
    RunPreserves(states, calls, j);
    assert Turns(states[j], calls[j], states[j + 1]);
    TurnMovesWaiter(states[j], calls[j], u);
  }
}
