/** What a caller can tell from each system call: its result, whether it goes on, and whom it affected. */
module KernelOutcomes {
  import opened Basics
  import opened TaskQueue
  import opened QueueFacts
  import opened KernelModel
  import opened KernelQueues
  import opened KernelKill
  import opened KernelLinks
  import opened KernelUnlink
  import opened KernelInvariant
  import opened KernelHistory

  /** Reply gives the sender its result, or fails and changes nobody but the caller. */
  lemma ReplyOutcome(k: Kernel, to: int, message: seq<bv8>)
    requires TidsKept(k) && k.tasks[k.current].state == Active
    ensures var k', s, c := Replied(k, to, message), to % MAX_TASKS, k.current;
            && (k'.tasks[c].result == -2 <==> to <= 0 || k.tasks[s].state == Zombie)
            && (k'.tasks[c].result == -3 <==> to > 0 && k.tasks[s].state != Zombie && k.tasks[s].state != ReplyBlocked)
            && (k'.tasks[c].result == -1 <==> to > 0 && k.tasks[s].state == ReplyBlocked && |k.tasks[s].buffer| < |message|)
            && (k'.tasks[c].result == 0 <==> to > 0 && k.tasks[s].state == ReplyBlocked && |k.tasks[s].buffer| >= |message|)
            && (if k'.tasks[c].result in {-2, -3}
                then k' == Return(k, c, k'.tasks[c].result)
                else && k'.tasks[s].state == Runnable && k'.tasks[s].buffer == Filled(k.tasks[s].buffer, message)
                     && k'.tasks[s].result == if k'.tasks[c].result == 0 then |message| else -1)
  {
    assert SlotKept(k, to % MAX_TASKS);
  }

  /** Send to a tid that is not positive or whose slot has no live task fails and changes nobody but the
      caller; otherwise the caller is blocked. */
  lemma SendOutcome(k: Kernel, to: int, message: seq<bv8>, buffer: seq<bv8>)
    requires TidsKept(k) && k.tasks[k.current].state == Active
    ensures var k', r, c := Sent(k, to, message, buffer), to % MAX_TASKS, k.current;
            && (k'.tasks[c].state == Active <==> to <= 0 || k.tasks[r].state == Zombie)
            && (k'.tasks[c].state == Active ==> k' == Return(Calling(k, to, message, buffer), c, -2))
            && (k'.tasks[c].state == ReplyBlocked <==> to > 0 && k.tasks[r].state == SendBlocked)
            && (k'.tasks[c].state == ReceiveBlocked <==> to > 0 && !Deaf(k.tasks[r]))
  {
    assert SlotKept(k, to % MAX_TASKS);
  }

  /** Receive waits exactly if nobody waits to send; otherwise the longest waiting sender now waits for a reply. */
  lemma ReceiveOutcome(k: Kernel, buffer: seq<bv8>, u: Tid)
    requires Kept(k, k.current) && k.tasks[k.current].state == Active
    ensures var k', c := Received(k, buffer), k.current;
            && (k'.tasks[c].state == SendBlocked <==> k.sends[c] == [])
            && (k'.tasks[c].state == SendBlocked ==> k'.tasks[c].buffer == buffer)
            && (k.sends[c] != [] && u == k.sends[c][0] ==> k'.tasks[u] == k.tasks[u].(state := ReplyBlocked))
            && (u != c && (k.sends[c] == [] || u != k.sends[c][0]) ==> k'.tasks[u] == k.tasks[u])
  {
    if k.sends[k.current] != [] {
      HeadSenderLives(k, k.current, k.current);
    }
  }

  /** AwaitEvent fails with -1 exactly for a bad event and with -3 exactly for a taken one, and otherwise blocks
      the caller in the slot of the event. */
  lemma AwaitOutcome(k: Kernel, event: int)
    requires Kept(k, k.current) && k.tasks[k.current].state == Active
    ensures var k', c := Awaited(k, event), k.current;
            && (k'.tasks[c].result == -1 <==> !(0 <= event < EVENTS))
            && (k'.tasks[c].result == -3 <==> 0 <= event < EVENTS && k.slots[event] != NONE)
            && (k'.tasks[c].result in {-1, -3} ==> k' == Return(k, c, k'.tasks[c].result))
            && (k'.tasks[c].state == EventBlocked <==> 0 <= event < EVENTS && k.slots[event] == NONE)
            && (k'.tasks[c].state == EventBlocked ==> k'.slots == k.slots[event := c] && k'.armed == k.armed[event := true])
  {
    if 0 <= event < EVENTS {
      TakenSlotHasTask(k, event, k.current);
    }
  }

  /** A fired event gives its data to the task in its slot and frees the slot; it affects nobody else. */
  lemma FireOutcome(k: Kernel, e: Event, data: int, running: int, u: Tid)
    requires Kept(k, running)
    ensures var k' := Fired(k, e, data);
            && k'.slots == k.slots[e := NONE] && k'.armed == k.armed
            && (if k.slots[e] == u
                then k'.tasks[u].state == Runnable && k'.tasks[u].result == data && k'.tasks[u].blockedOn == NOT_BLOCKED
                else k'.tasks[u] == k.tasks[u])
  {
    TakenSlotHasTask(k, e, running);
    assert k.slots[e] == NONE ==> k.slots == k.slots[e := NONE];
  }

  /** The Send of everyone who waits on a dead task's queue fails with -2. */
  lemma {:induction false} DismissAnswers(k: Kernel, t: Tid, u: Tid)
    requires Distinct(k.sends[t])
    ensures Dismissed(k, t).tasks[u] ==
            if In(k.sends[t], u) && k.tasks[u].state == ReceiveBlocked then k.tasks[u].(result := -2, state := Runnable)
            else k.tasks[u]
    decreases |k.sends[t]|
  {
    if k.sends[t] != [] {
      TailMembers(k.sends[t], u);
      assert In(k.sends[t], k.sends[t][0]);
      DismissAnswers(DismissedOne(k, t), t, u);
    }
  }

  /** What the end of task `t` does to task `u`. */
  ghost predicate Ended(k: Kernel, k': Kernel, t: Tid, u: Tid) {
    && k'.tasks[t].state == Zombie && k'.sends[t] == []
    && (u != t ==> k'.tasks[u] == if k.tasks[u].state == ReceiveBlocked && k.tasks[u].to % MAX_TASKS == t
                                  then k.tasks[u].(result := -2, state := Runnable) else k.tasks[u])
  }

  lemma WaitersOf(k: Kernel, t: Tid, u: Tid)
    requires Kept(k, k.current)
    ensures Distinct(k.sends[t])
    ensures In(k.sends[t], u) <==> k.tasks[u].state == ReceiveBlocked && k.tasks[u].to % MAX_TASKS == t
  {
    assert Places(k.tasks, k.current)[u] == PlaceOf(k.tasks[u], u == k.current);
  }

  lemma DismissEnds(k: Kernel, k1: Kernel, t: Tid, u: Tid)
    requires Kept(k, k.current) && k1.sends == k.sends && k1.tasks[t].state == Zombie
    requires u != t ==> k1.tasks[u] == k.tasks[u]
    ensures Ended(k, Dismissed(k1, t), t, u)
  {
    hide Kept, In, Dismissed;
    WaitersOf(k, t, u);
    DismissAnswers(k1, t, u);
    DismissAnswers(k1, t, t);
    DismissChanges(k1, t, t, 0);
  }

  /** Exit ends the caller, lets the Sends of those waiting for it fail with -2, and affects nobody else. */
  lemma ExitOutcome(k: Kernel, u: Tid)
    requires Kept(k, k.current)
    ensures Ended(k, Exited(k), k.current, u)
  {
    hide Kept, Ended;
    DismissEnds(k, Retired(k, k.current), k.current, u);
  }

  /** Kill does the same to the victim. */
  lemma KillOutcome(k: Kernel, t: Tid, u: Tid)
    requires Kept(k, k.current) && k.tasks[t].state != Zombie
    ensures Ended(k, Killed(k, t), t, u)
  {
    hide Kept, Ended;
    DismissEnds(k, Retired(Deregister(Disarmed(k, t), t), t), t, u);
  }
}
