/** Messages over whole runs: each receiver gets the letters sent to it in the order of the Sends, and each
    delivered one is answered at most once. */
module KernelHistory {
  import opened Basics
  import opened TaskQueue
  import opened QueueFacts
  import opened KernelModel
  import opened KernelQueues
  import opened KernelKill
  import opened KernelLinks
  import opened KernelUnlink
  import opened KernelInvariant

  datatype Letter = Letter(from: int, message: seq<bv8>)

  function Letters(k: Kernel, s: seq<Tid>): seq<Letter> {
    seq(|s|, i requires 0 <= i < |s| => Letter(Userland(k, s[i]), k.tasks[s[i]].message))
  }

  /** The letters on a task's send queue. */
  function Pending(k: Kernel, r: Tid): seq<Letter> {
    Letters(k, k.sends[r])
  }

  /** The letter that a call of the current task sends to `r`, which is alive. */
  function Posted(k: Kernel, call: Call, r: Tid): seq<Letter> {
    if call.Send? && IsValid(k, call.to) && call.to % MAX_TASKS == r && k.tasks[r].state != Zombie
    then [Letter(Userland(k, k.current), call.message)] else []
  }

  predicate Fetches(k: Kernel, call: Call, r: Tid) {
    call.Receive? && r == k.current && k.sends[r] != []
  }

  /** The letter that `r` gets in a call, handed over directly or taken from the queue. */
  function Delivered(k: Kernel, call: Call, r: Tid): seq<Letter> {
    if k.tasks[r].state == SendBlocked then Posted(k, call, r)
    else if Fetches(k, call, r) then Pending(k, r)[..1]
    else []
  }

  predicate Dies(k: Kernel, call: Call, t: Tid) {
    || (call.Exit? && t == k.current)
    || (call.Kill? && KillResult(k, call.tid) == 0 && Lookup(call.tid) == t)
  }

  /** The letters whose Sends fail because `r` dies. */
  function Refused(k: Kernel, call: Call, r: Tid): seq<Letter> {
    if Dies(k, call, r) then Pending(k, r) else []
  }

  lemma SameLetters(k: Kernel, k': Kernel, s: seq<Tid>)
    requires forall t: Tid :: In(s, t) ==> k'.tasks[t].generation == k.tasks[t].generation && k'.tasks[t].message == k.tasks[t].message
    ensures Letters(k', s) == Letters(k, s)
  {
    forall i | 0 <= i < |s|
      ensures Letters(k', s)[i] == Letters(k, s)[i]
    {
      assert In(s, s[i]);
    }
  }

  /** Who waits on a send queue is not running, not dead, and on no other one. */
  lemma Waiter(k: Kernel, r: Tid, t: Tid, u: Tid)
    requires Kept(k, k.current) && k.tasks[k.current].state == Active
    ensures In(k.sends[r], t) ==> k.tasks[t].state == ReceiveBlocked && k.tasks[t].to % MAX_TASKS == r && t != k.current
    ensures In(k.sends[r], t) && u != r ==> !In(k.sends[u], t)
  {
    assert Places(k.tasks, k.current)[t] == PlaceOf(k.tasks[t], t == k.current);
  }

  lemma CreateConserves(k: Kernel, priority: int, r: Tid)
    requires Invariant(k, k.current) && k.tasks[k.current].state == Active
    ensures Pending(Created(k, priority), r) == Pending(k, r)
  {
    CreateKeepsTids(k, priority);
    forall t: Tid {
      Waiter(k, r, t, r);
    }
    SameLetters(k, Created(k, priority), k.sends[r]);
  }

  lemma OfferConserves(k: Kernel, sender: Tid, receiver: Tid, r: Tid)
    requires k.tasks[receiver].state == SendBlocked ==> k.sends[receiver] == []
    ensures Pending(Offered(k, sender, receiver), r) ==
            if receiver == r && !Deaf(k.tasks[r]) then Pending(k, r) + [Letter(Userland(k, sender), k.tasks[sender].message)]
            else Pending(k, r)
  {
    var k' := Offered(k, sender, receiver);
    SameLetters(k, k', k.sends[r]);
    if receiver == r && !Deaf(k.tasks[r]) {
      assert Letters(k', k.sends[r] + [sender]) ==
             Letters(k', k.sends[r]) + [Letter(Userland(k, sender), k.tasks[sender].message)];
    }
  }

  lemma NothingPending(k: Kernel, r: Tid)
    requires Kept(k, k.current)
    ensures Deaf(k.tasks[r]) ==> Pending(k, r) == []
  {
  }

  lemma SendConserves(k: Kernel, to: int, message: seq<bv8>, buffer: seq<bv8>, r: Tid)
    requires Invariant(k, k.current) && k.tasks[k.current].state == Active
    ensures var call := Send(to, message, buffer);
            Pending(k, r) + Posted(k, call, r) == Delivered(k, call, r) + Pending(Sent(k, to, message, buffer), r)
  {
    hide ReadyMatches, SendsMatch, SlotsMatch, TidsKept, EventsKept, Offered, Letters;
    var k1 := Calling(k, to, message, buffer);
    NothingPending(k, r);
    forall t: Tid {
      Waiter(k, r, t, r);
    }
    SameLetters(k, k1, k.sends[r]);
    if IsValid(k, to) {
      OfferConserves(k1, k.current, to % MAX_TASKS, r);
    } else {
      Silent(k1, Sent(k, to, message, buffer), r);
    }
  }

  lemma ReceiveFetches(k: Kernel, buffer: seq<bv8>, r: Tid, t: Tid)
    ensures Received(k, buffer).sends[r] == if Fetches(k, Receive(buffer), r) then k.sends[r][1..] else k.sends[r]
    ensures Received(k, buffer).tasks[t].generation == k.tasks[t].generation
    ensures t != k.current ==> Received(k, buffer).tasks[t].message == k.tasks[t].message
  {
  }

  lemma ReceiveConserves(k: Kernel, buffer: seq<bv8>, r: Tid)
    requires Invariant(k, k.current) && k.tasks[k.current].state == Active
    ensures Pending(k, r) == Delivered(k, Receive(buffer), r) + Pending(Received(k, buffer), r)
  {
    hide Received;
    var k' := Received(k, buffer);
    ReceiveFetches(k, buffer, r, r);
    forall t: Tid | In(k.sends[r], t)
      ensures t != k.current && k'.tasks[t].generation == k.tasks[t].generation && k'.tasks[t].message == k.tasks[t].message
    {
      ReceiveFetches(k, buffer, r, t);
      Waiter(k, r, t, r);
    }
    SameLetters(k, k', k.sends[r]);
    if Fetches(k, Receive(buffer), r) {
      assert k'.sends[r] == k.sends[r][1..];
      assert Letters(k', k.sends[r]) == Letters(k', k.sends[r])[..1] + Letters(k', k'.sends[r]);
    }
  }

  /** The death of `t` empties its queue and touches no other. */
  lemma DismissConserves(k: Kernel, k': Kernel, t: Tid, r: Tid)
    requires Invariant(k, k.current) && k.tasks[k.current].state == Active
    requires k'.sends == k.sends
    requires forall u: Tid :: k'.tasks[u].generation == k.tasks[u].generation && k'.tasks[u].message == k.tasks[u].message
    ensures Pending(Dismissed(k', t), r) == if r == t then [] else Pending(k, r)
  {
    DismissChanges(k', t, t, 0);
    if r != t {
      forall u: Tid | In(k.sends[r], u)
        ensures Dismissed(k', t).tasks[u] == k'.tasks[u]
      {
        Waiter(k, r, u, t);
        DismissChanges(k', t, u, 0);
      }
      SameLetters(k, Dismissed(k', t), k.sends[r]);
    }
  }

  lemma Silent(k: Kernel, k': Kernel, r: Tid)
    requires k'.sends == k.sends
    requires forall t: Tid :: k'.tasks[t].generation == k.tasks[t].generation && k'.tasks[t].message == k.tasks[t].message
    ensures Pending(k', r) == Pending(k, r)
  {
    SameLetters(k, k', k.sends[r]);
  }

  lemma ExitConserves(k: Kernel, r: Tid)
    requires Invariant(k, k.current) && k.tasks[k.current].state == Active
    ensures Pending(Exited(k), r) == if r == k.current then [] else Pending(k, r)
  {
    hide Invariant;
    DismissConserves(k, Retired(k, k.current), k.current, r);
  }

  lemma KillConserves(k: Kernel, t: Tid, r: Tid)
    requires Invariant(k, k.current) && k.tasks[k.current].state == Active
    ensures Pending(Killed(k, t), r) == if r == t then [] else Pending(k, r)
  {
    hide Invariant;
    DismissConserves(k, Retired(Deregister(Disarmed(k, t), t), t), t, r);
  }

  lemma OthersAreSilent(k: Kernel, call: Call, r: Tid)
    requires Proper(k, call)
    requires call.Pass? || call.Reply? || call.AwaitEvent? || call.Query? || call.Interrupt?
    ensures Pending(Performed(k, call), r) == Pending(k, r)
  {
    hide Letters, Pending, Created, Exited, Sent, Received, Killed, Killable, EnqueuePairs, Enqueued;
    Silent(k, Performed(k, call), r);
  }

  /** What was pending or is sent in a call is delivered or refused in it or pending after it, in that order. */
  lemma CallConserves(k: Kernel, call: Call, r: Tid)
    requires Invariant(k, k.current) && k.tasks[k.current].state == Active && Proper(k, call)
    ensures Pending(k, r) + Posted(k, call, r) ==
            Delivered(k, call, r) + Refused(k, call, r) + Pending(Performed(k, call), r)
  {
    hide Sent, Received, Created, Letters, Pending, Invariant, Killed, Exited;
    match call
    case Create(priority) =>
      CreateConserves(k, priority, r);
      Silent(Created(k, priority), Performed(k, call), r);
    case Send(to, message, buffer) => SendConserves(k, to, message, buffer, r);
    case Receive(buffer) => ReceiveConserves(k, buffer, r);
    case Exit => ExitConserves(k, r);
    case Kill(tid) =>
      if KillResult(k, tid) == 0 {
        KillConserves(k, Lookup(tid), r);
        Silent(Killed(k, Lookup(tid)), Performed(k, call), r);
      } else {
        Silent(k, Performed(k, call), r);
      }
    case _ => OthersAreSilent(k, call, r);
  }

  // ---- whole runs ----

  /** A call together with schedule's part of the turn. */
  lemma TurnConserves(k: Kernel, call: Call, r: Tid)
    requires Invariant(k, NONE) && CanTurn(k, call)
    ensures Pending(k, r) + Posted(Picked(k), call, r) ==
            Delivered(Picked(k), call, r) + Refused(Picked(k), call, r) + Pending(Step(k, call), r)
  {
    hide Invariant, Pending, Posted, Delivered, Refused, Performed;
    var k1 := Picked(k);
    PickPreserves(k);
    Silent(k, k1, r);
    CallConserves(k1, call, r);
    Silent(Performed(k1, call), Step(k, call), r);
  }

  /** The letters sent to `r` in a run, those delivered to it, and those delivered or refused, in the order of time. */
  ghost function SentInRun(states: seq<Kernel>, calls: seq<Call>, r: Tid): seq<Letter>
    requires IsRun(states, calls)
    decreases |calls|
  {
    if calls == [] then []
    else
      RestIsRun(states, calls);
      Posted(Picked(states[0]), calls[0], r) + SentInRun(states[1..], calls[1..], r)
  }

  ghost function DeliveredInRun(states: seq<Kernel>, calls: seq<Call>, r: Tid): seq<Letter>
    requires IsRun(states, calls)
    decreases |calls|
  {
    if calls == [] then []
    else
      RestIsRun(states, calls);
      Delivered(Picked(states[0]), calls[0], r) + DeliveredInRun(states[1..], calls[1..], r)
  }

  ghost function GoneInRun(states: seq<Kernel>, calls: seq<Call>, r: Tid): seq<Letter>
    requires IsRun(states, calls)
    decreases |calls|
  {
    if calls == [] then []
    else
      RestIsRun(states, calls);
      Delivered(Picked(states[0]), calls[0], r) + Refused(Picked(states[0]), calls[0], r) + GoneInRun(states[1..], calls[1..], r)
  }

  ghost predicate LivesThrough(states: seq<Kernel>, calls: seq<Call>, t: Tid)
    requires IsRun(states, calls)
  {
    forall i {:trigger calls[i]} :: 0 <= i < |calls| ==> Turns(states[i], calls[i], states[i + 1]) && !Dies(Picked(states[i]), calls[i], t)
  }

  lemma RestLives(states: seq<Kernel>, calls: seq<Call>, t: Tid)
    requires IsRun(states, calls) && calls != [] && LivesThrough(states, calls, t)
    ensures Turns(states[0], calls[0], states[1]) && !Dies(Picked(states[0]), calls[0], t)
    ensures IsRun(states[1..], calls[1..]) && LivesThrough(states[1..], calls[1..], t)
  {
    hide Dies, Picked;
    RestIsRun(states, calls);
    forall i | 0 <= i < |calls| - 1
      ensures Turns(states[1..][i], calls[1..][i], states[1..][i + 1]) && !Dies(Picked(states[1..][i]), calls[1..][i], t)
    {
      assert calls[1..][i] == calls[i + 1];
    }
  }

  lemma {:induction false} GoneIsDelivered(states: seq<Kernel>, calls: seq<Call>, r: Tid)
    requires IsRun(states, calls) && LivesThrough(states, calls, r)
    ensures GoneInRun(states, calls, r) == DeliveredInRun(states, calls, r)
    decreases |calls|
  {
    hide Delivered, Turns, Picked, Dies, LivesThrough;
    if calls != [] {
      RestLives(states, calls, r);
      GoneIsDelivered(states[1..], calls[1..], r);
    }
  }

  /** Over every run, what was pending and what was sent is what is gone and what is pending, in that order. */
  lemma {:induction false} RunConserves(states: seq<Kernel>, calls: seq<Call>, r: Tid)
    requires IsRun(states, calls) && Invariant(states[0], NONE)
    ensures Pending(states[0], r) + SentInRun(states, calls, r) == GoneInRun(states, calls, r) + Pending(states[|calls|], r)
    decreases |calls|
  {
    hide Invariant, Pending, Posted, Delivered, Refused, Step, Picked, Proper;
    if calls != [] {
      var k, k1, rest, turns := states[0], states[1], states[1..], calls[1..];
      RestIsRun(states, calls);
      StepPreserves(k, calls[0]);
      TurnConserves(k, calls[0], r);
      RunConserves(rest, turns, r);
      var sent, gone := Posted(Picked(k), calls[0], r), Delivered(Picked(k), calls[0], r) + Refused(Picked(k), calls[0], r);
      calc {
        Pending(k, r) + (sent + SentInRun(rest, turns, r));
        (Pending(k, r) + sent) + SentInRun(rest, turns, r);
        gone + (Pending(k1, r) + SentInRun(rest, turns, r));
        gone + (GoneInRun(rest, turns, r) + Pending(states[|calls|], r));
        (gone + GoneInRun(rest, turns, r)) + Pending(states[|calls|], r);
      }
    }
  }

  lemma NothingSentYet(priority: Priority, r: Tid)
    ensures Pending(Boot(priority), r) == []
  {
  }

  /** In every run from the first task on in which it does not die, a receiver gets the letters sent to it in
      the order of the Sends: those delivered are a prefix, and the rest is waiting on its send queue. */
  lemma DeliveredInOrder(priority: Priority, states: seq<Kernel>, calls: seq<Call>, r: Tid)
    requires IsRun(states, calls) && states[0] == Boot(priority) && LivesThrough(states, calls, r)
    ensures SentInRun(states, calls, r) == DeliveredInRun(states, calls, r) + Pending(states[|calls|], r)
  {
    hide Boot, Pending, Invariant, LivesThrough, IsRun;
    BootKeeps(priority);
    NothingSentYet(priority, r);
    RunConserves(states, calls, r);
    GoneIsDelivered(states, calls, r);
  }

  /** The receiver has got the letter. */
  ghost predicate Arrived(task: Task, letter: Letter, buffer: seq<bv8>) {
    && task.from == letter.from && task.state == Runnable
    && task.result == CopyResult(buffer, letter.message) && task.buffer == Filled(buffer, letter.message)
  }

  lemma FetchArrives(k: Kernel, buffer: seq<bv8>)
    requires Kept(k, k.current) && k.tasks[k.current].state == Active && k.sends[k.current] != []
    ensures Arrived(Received(k, buffer).tasks[k.current], Pending(k, k.current)[0], buffer)
  {
    var s := k.sends[k.current][0];
    assert In(k.sends[k.current], s);
    Waiter(k, k.current, s, k.current);
  }

  lemma HandoverArrives(k: Kernel, to: int, message: seq<bv8>, buffer: seq<bv8>)
    requires IsValid(k, to) && k.tasks[to % MAX_TASKS].state == SendBlocked && k.tasks[k.current].state == Active
    ensures Arrived(Sent(k, to, message, buffer).tasks[to % MAX_TASKS], Letter(Userland(k, k.current), message),
                    k.tasks[to % MAX_TASKS].buffer)
  {
  }

  /** What a delivery does: the receiver's buffer, result and sender's tid are the letter's. */
  lemma DeliveryArrives(k: Kernel, call: Call, r: Tid)
    requires Kept(k, k.current) && k.tasks[k.current].state == Active && Proper(k, call) && Delivered(k, call, r) != []
    ensures |Delivered(k, call, r)| == 1
    ensures Arrived(Performed(k, call).tasks[r], Delivered(k, call, r)[0],
                    if call.Receive? then call.buffer else k.tasks[r].buffer)
  {
    hide Arrived, Sent, Received, Killed, Created, Exited, Killable, Kept;
    if call.Receive? {
      FetchArrives(k, call.buffer);
    } else {
      HandoverArrives(k, call.to, call.message, call.buffer);
    }
  }

  // ---- replies ----

  function Owing(k: Kernel, s: Tid): (n: nat)
    ensures n <= 1
  {
    if k.tasks[s].state == ReplyBlocked then 1 else 0
  }

  /** Whether a call delivers the letter of `s`, successfully replies to it, or ends it while it waits. */
  predicate Delivers(k: Kernel, call: Call, s: Tid) {
    || (call.Send? && s == k.current && IsValid(k, call.to) && k.tasks[call.to % MAX_TASKS].state == SendBlocked)
    || (call.Receive? && k.sends[k.current] != [] && k.sends[k.current][0] == s)
  }

  predicate Answers(k: Kernel, call: Call, s: Tid) {
    call.Reply? && IsValid(k, call.to) && call.to % MAX_TASKS == s && k.tasks[s].state == ReplyBlocked
  }

  function One(b: bool): nat { if b then 1 else 0 }

  lemma DismissOwes(k: Kernel, t: Tid, s: Tid)
    ensures Owing(Dismissed(k, t), s) == Owing(k, s)
    decreases |k.sends[t]|
  {
    if k.sends[t] != [] {
      DismissOwes(DismissedOne(k, t), t, s);
    }
  }

  lemma CreateOwes(k: Kernel, priority: int, s: Tid)
    requires TidsKept(k)
    ensures Owing(Created(k, priority), s) == Owing(k, s)
  {
    CreateKeepsTids(k, priority);
  }

  lemma SendOwes(k: Kernel, to: int, message: seq<bv8>, buffer: seq<bv8>, s: Tid)
    requires k.tasks[k.current].state == Active
    ensures Owing(k, s) + One(Delivers(k, Send(to, message, buffer), s)) == Owing(Sent(k, to, message, buffer), s)
  {
  }

  lemma ReceiveOwes(k: Kernel, buffer: seq<bv8>, s: Tid)
    requires Kept(k, k.current) && k.tasks[k.current].state == Active
    ensures Owing(k, s) + One(Delivers(k, Receive(buffer), s)) == Owing(Received(k, buffer), s)
  {
    if k.sends[k.current] != [] {
      HeadSenderLives(k, k.current, k.current);
    }
  }

  lemma EndOwes(k: Kernel, t: Tid, s: Tid)
    ensures Owing(Dismissed(Retired(k, t), t), s) == if s == t then 0 else Owing(k, s)
    ensures Owing(Killed(k, t), s) == if s == t then 0 else Owing(k, s)
  {
    DismissOwes(Retired(k, t), t, s);
    DismissOwes(Retired(Deregister(Disarmed(k, t), t), t), t, s);
  }

  lemma RegisterOwes(k: Kernel, t: Tid, s: Tid)
    ensures Owing(Register(k, t), s) == Owing(k, s)
  {
  }

  lemma ReplyOwes(k: Kernel, to: int, message: seq<bv8>, s: Tid)
    requires k.tasks[k.current].state == Active
    ensures Owing(k, s) == One(Answers(k, Reply(to, message), s)) + Owing(Replied(k, to, message), s)
  {
  }

  lemma FireOwes(k: Kernel, e: Event, data: int, s: Tid)
    ensures Owing(Fired(k, e, data), s) == Owing(k, s)
  {
  }

  lemma AwaitOwes(k: Kernel, event: int, s: Tid)
    requires k.tasks[k.current].state == Active
    ensures Owing(Awaited(k, event), s) == Owing(k, s)
  {
  }

  lemma OthersOwe(k: Kernel, call: Call, s: Tid)
    requires k.tasks[k.current].state == Active && Proper(k, call)
    requires call.Pass? || call.Reply? || call.AwaitEvent? || call.Query? || call.Interrupt?
    ensures Owing(k, s) == One(Answers(k, call, s)) + Owing(Performed(k, call), s)
  {
    hide Register, Replied, Awaited, Fired, Created, Sent, Received, Killed, Exited, Killable;
    match call
    case Pass => RegisterOwes(k, k.current, s);
    case Reply(to, message) => ReplyOwes(k, to, message, s);
    case AwaitEvent(event) => AwaitOwes(k, event, s);
    case Interrupt(e, data) => if e != NONE { FireOwes(k, e, data, s); }
    case _ =>
  }

  /** A delivered Send is owed a reply until a Reply succeeds or the sender dies. */
  lemma CallOwes(k: Kernel, call: Call, s: Tid)
    requires Invariant(k, k.current) && k.tasks[k.current].state == Active && Proper(k, call)
    ensures Owing(k, s) + One(Delivers(k, call, s)) ==
            One(Answers(k, call, s)) + One(Dies(k, call, s) && Owing(k, s) == 1) + Owing(Performed(k, call), s)
  {
    hide Kept, Created, Sent, Received, Killed, Replied, Awaited, Fired, Passed;
    match call
    case Create(priority) => CreateOwes(k, priority, s);
    case Exit => DismissOwes(Retired(k, k.current), k.current, s);
    case Send(to, message, buffer) => SendOwes(k, to, message, buffer, s);
    case Receive(buffer) => ReceiveOwes(k, buffer, s);
    case Kill(tid) =>
      if KillResult(k, tid) == 0 {
        EndOwes(k, Lookup(tid), s);
      }
    case _ => OthersOwe(k, call, s);
  }

  lemma TurnOwes(k: Kernel, call: Call, s: Tid)
    requires Invariant(k, NONE) && CanTurn(k, call)
    ensures var k1 := Picked(k);
            Owing(k, s) + One(Delivers(k1, call, s)) ==
            One(Answers(k1, call, s)) + One(Dies(k1, call, s) && Owing(k1, s) == 1) + Owing(Step(k, call), s)
  {
    hide Invariant, Performed, Delivers, Answers, Dies;
    PickKeepsOwing(k, s);
    PickPreserves(k);
    CallOwes(Picked(k), call, s);
  }

  lemma PickKeepsOwing(k: Kernel, s: Tid)
    requires Invariant(k, NONE) && Schedule(k).Run?
    ensures Owing(Picked(k), s) == Owing(k, s)
  {
    PickKeeps(k);
  }

  ghost function DeliveriesInRun(states: seq<Kernel>, calls: seq<Call>, s: Tid): nat
    requires IsRun(states, calls)
    decreases |calls|
  {
    if calls == [] then 0
    else
      RestIsRun(states, calls);
      One(Delivers(Picked(states[0]), calls[0], s)) + DeliveriesInRun(states[1..], calls[1..], s)
  }

  ghost function AnswersInRun(states: seq<Kernel>, calls: seq<Call>, s: Tid): nat
    requires IsRun(states, calls)
    decreases |calls|
  {
    if calls == [] then 0
    else
      RestIsRun(states, calls);
      One(Answers(Picked(states[0]), calls[0], s)) + AnswersInRun(states[1..], calls[1..], s)
  }

  /** In every run in which it does not die, a task's delivered Sends are as many as the successful Replies to
      it, but for the one it still waits for. */
  lemma {:induction false} EverySendIsAnsweredOnce(states: seq<Kernel>, calls: seq<Call>, s: Tid)
    requires IsRun(states, calls) && Invariant(states[0], NONE) && LivesThrough(states, calls, s)
    ensures Owing(states[0], s) + DeliveriesInRun(states, calls, s) == AnswersInRun(states, calls, s) + Owing(states[|calls|], s)
    decreases |calls|
  {
    hide Invariant, Owing, Delivers, Answers, Step, Picked, Dies, Proper, LivesThrough;
    if calls != [] {
      RestLives(states, calls, s);
      StepPreserves(states[0], calls[0]);
      TurnOwes(states[0], calls[0], s);
      EverySendIsAnsweredOnce(states[1..], calls[1..], s);
    }
  }
  lemma PickedIsNotOwed(k: Kernel, s: Tid)
    requires Invariant(k, NONE) && Schedule(k).Run? && Owing(k, s) == 1
    ensures Schedule(k).t != s
  {
    PickKeeps(k);
  }

  /** From the delivery of its Send until it is answered or dies a task has no turn: it cannot ask again. */
  lemma {:induction false} SilentUntilAnswered(states: seq<Kernel>, calls: seq<Call>, s: Tid, i: nat)
    requires IsRun(states, calls) && Invariant(states[0], NONE) && LivesThrough(states, calls, s) && i < |calls|
    requires Owing(states[0], s) == 1 && AnswersInRun(states, calls, s) == 0
    ensures Schedule(states[i]).Run? && Schedule(states[i]).t != s && Owing(states[i + 1], s) == 1
    decreases |calls|
  {
    hide Invariant, Delivers, Answers, Step, Picked, Dies, Proper, Owing, LivesThrough;
    RestLives(states, calls, s);
    StepPreserves(states[0], calls[0]);
    TurnOwes(states[0], calls[0], s);
    PickedIsNotOwed(states[0], s);
    if i > 0 {
      SilentUntilAnswered(states[1..], calls[1..], s, i - 1);
    }
  }
}
