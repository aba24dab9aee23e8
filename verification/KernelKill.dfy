/** The end of a task, by Exit or by Kill, and exactly when Kill leaves the queues in order. */
module KernelKill {
  import opened Basics
  import opened TaskQueue
  import opened QueueFacts
  import opened KernelModel
  import opened KernelQueues

  lemma NobodyWaits(k: Kernel, t: Tid, running: int, pl: seq<Place>)
    requires k.sends[t] == []
    requires pl == Places(k.tasks, running) || pl == Places(k.tasks, running)[t := OnSend(t)]
    requires SendsMatch(k.sends, pl)
    ensures pl == Places(k.tasks, running)
  {
    assert !In(k.sends[t], t);
    assert pl[t] != OnSend(t);
  }

  /** The places during clear_send_queue of a dead task `t`: a task killed while it waits on itself is still on
      its own send queue. */
  ghost predicate Dismissing(k: Kernel, t: Tid, running: int, pl: seq<Place>) {
    && k.tasks[t].state == Zombie && OnlyActive(k, running) && Quiet(k, t)
    && (0 <= running < MAX_TASKS ==> k.tasks[running].state != ReceiveBlocked)
    && (pl == Places(k.tasks, running) || pl == Places(k.tasks, running)[t := OnSend(t)])
    && Matches(k, pl)
  }

  lemma DismissingOne(k: Kernel, t: Tid, running: int, pl: seq<Place>) returns (pl': seq<Place>)
    requires Dismissing(k, t, running, pl) && k.sends[t] != []
    ensures Dismissing(DismissedOne(k, t), t, running, pl')
  {
    hide ReadyMatches, SendsMatch, SlotsMatch;
    var sender, next := k.sends[t][0], DismissedOne(k, t);
    var rest := WithSends(k, t, k.sends[t][1..]);
    TakePlaces(k, pl, t);
    if sender == t {
      pl' := pl[t := Nowhere];
      assert pl' == Places(next.tasks, running);
    } else {
      assert Places(k.tasks, running)[sender] == OnSend(t);
      var place := OnReady(k.tasks[sender].priority);
      RegisterPlaces(rest.(tasks := next.tasks), pl[sender := Nowhere], sender);
      pl' := pl[sender := Nowhere][sender := place];
      assert Places(next.tasks, running) == Places(k.tasks, running)[sender := place];
      assert pl' == Places(next.tasks, running) || pl' == Places(next.tasks, running)[t := OnSend(t)];
    }
  }

  /** clear_send_queue registers all who wait to send to the dead task. */
  lemma {:induction false} DismissKeeps(k: Kernel, t: Tid, running: int, pl: seq<Place>)
    requires Dismissing(k, t, running, pl)
    ensures Kept(Dismissed(k, t), running)
    decreases |k.sends[t]|
  {
    hide ReadyMatches, SendsMatch, SlotsMatch;
    if k.sends[t] == [] {
      NobodyWaits(k, t, running, pl);
    } else {
      var pl' := DismissingOne(k, t, running, pl);
      DismissKeeps(DismissedOne(k, t), t, running, pl');
    }
  }

  lemma ExitKeeps(k: Kernel)
    requires Kept(k, k.current) && k.tasks[k.current].state == Active
    ensures Kept(Exited(k), k.current)
  {
    var c := k.current;
    assert Places(Retired(k, c).tasks, c) == Places(k.tasks, c);
    DismissKeeps(Retired(k, c), c, c, Places(k.tasks, c));
  }

  /** REMOVE takes nobody else off the ready queue: it empties a queue of one whatever is to be removed. And the
      victim is not on another task's send queue, which Kill does not look at. */
  predicate Separable(k: Kernel, t: Tid) {
    var task := k.tasks[t];
    && (task.state == ReceiveBlocked ==> task.to % MAX_TASKS == t)
    && ((task.state == Runnable && t != k.current) || |k.ready[task.priority]| != 1)
  }

  lemma DisarmPlaces(k: Kernel, t: Tid, running: int)
    requires Kept(k, running)
    ensures var pl := Places(k.tasks, running);
            Matches(Disarmed(k, t), if pl[t].InSlot? then pl[t := Nowhere] else pl)
  {
    var pl := Places(k.tasks, running);
    if pl[t].InSlot? {
      ClearMoves(k.slots, pl, pl[t].event, t, Nowhere);
      MovesElsewhere(k, pl, t, Nowhere);
    }
  }

  lemma DeregisterPlaces(k: Kernel, t: Tid, pl: seq<Place>)
    requires |pl| == MAX_TASKS && Matches(k, pl)
    requires pl[t] == OnReady(k.tasks[t].priority) || (!pl[t].OnReady? && |k.ready[k.tasks[t].priority]| != 1)
    ensures Matches(Deregister(k, t), if pl[t].OnReady? then pl[t := Nowhere] else pl)
  {
    if pl[t].OnReady? {
      RemoveMoves(k.ready, pl, k.tasks[t].priority, t, Nowhere);
      MovesElsewhere(k, pl, t, Nowhere);
    } else {
      InIndex(k.ready[k.tasks[t].priority], t);
      assert Deregister(k, t).ready == k.ready;
    }
  }

  /** Once it is off its event and its ready queue, the dead task's senders can be dismissed. */
  lemma DismissingKilled(k: Kernel, t: Tid) returns (pl: seq<Place>)
    requires Kept(k, k.current) && k.tasks[k.current].state == Active
    requires k.tasks[t].state != Zombie && Separable(k, t)
    ensures Dismissing(Retired(Deregister(Disarmed(k, t), t), t), t, k.current, pl)
  {
    hide ReadyMatches, SendsMatch, SlotsMatch;
    var c, k1 := k.current, Disarmed(k, t);
    pl := Places(k.tasks, c);
    DisarmPlaces(k, t, c);
    var pl1 := if pl[t].InSlot? then pl[t := Nowhere] else pl;
    DeregisterPlaces(k1, t, pl1);
    var k3 := Retired(Deregister(k1, t), t);
    pl := if pl[t].OnReady? then pl1[t := Nowhere] else pl1;
    assert pl == if pl[t].OnSend? then Places(k3.tasks, c)[t := OnSend(t)] else Places(k3.tasks, c);
  }

  lemma KillKeeps(k: Kernel, t: Tid)
    requires Kept(k, k.current) && k.tasks[k.current].state == Active
    requires k.tasks[t].state != Zombie && Separable(k, t)
    ensures Kept(Killed(k, t), k.current)
  {
    hide Kept, Dismissing;
    var pl := DismissingKilled(k, t);
    DismissKeeps(Retired(Deregister(Disarmed(k, t), t), t), t, k.current, pl);
  }

  lemma {:induction false} DismissChanges(k: Kernel, t: Tid, u: Tid, p: Priority)
    ensures Dismissed(k, t).sends == k.sends[t := []]
    ensures !In(k.sends[t], u) ==> Dismissed(k, t).tasks[u] == k.tasks[u]
    ensures In(Dismissed(k, t).ready[p], u) ==> In(k.ready[p], u) || In(k.sends[t], u)
    decreases |k.sends[t]|
  {
    if k.sends[t] == [] {
      assert k.sends == k.sends[t := []];
    } else {
      var sender, next := k.sends[t][0], DismissedOne(k, t);
      assert In(k.sends[t], sender);
      assert In(next.sends[t], u) ==> In(k.sends[t], u) by {
        if i :| 0 <= i < |next.sends[t]| && next.sends[t][i] == u {
          assert k.sends[t][i + 1] == u;
        }
      }
      AppendMembers(k.ready[k.tasks[sender].priority], sender, u);
      DismissChanges(next, t, u, p);
    }
  }

  /** A task killed while it waits to send to another one stays on that one's send queue. */
  lemma KilledSenderStaysQueued(k: Kernel, t: Tid)
    requires Kept(k, k.current)
    requires k.tasks[t].state == ReceiveBlocked && k.tasks[t].to % MAX_TASKS != t
    ensures var k' := Killed(k, t); k'.tasks[t].state == Zombie && In(k'.sends[k.tasks[t].to % MAX_TASKS], t)
  {
    var k3 := Retired(Deregister(Disarmed(k, t), t), t);
    assert Places(k.tasks, k.current)[t] == OnSend(k.tasks[t].to % MAX_TASKS);
    assert In(k.sends[k.tasks[t].to % MAX_TASKS], t);
    assert !In(k.sends[t], t);
    DismissChanges(k3, t, t, 0);
  }

  lemma LoneTask(k: Kernel, t: Tid) returns (u: Tid)
    requires Kept(k, k.current)
    requires !(k.tasks[t].state == Runnable && t != k.current) && |k.ready[k.tasks[t].priority]| == 1
    ensures k.ready[k.tasks[t].priority] == [u] && !In(k.sends[t], u) && u != k.current && u != t
    ensures k.tasks[u].state == Runnable && k.tasks[u].priority == k.tasks[t].priority
  {
    var p, pl := k.tasks[t].priority, Places(k.tasks, k.current);
    u := k.ready[p][0];
    assert In(k.ready[p], u);
    assert pl[t] != OnReady(p) && pl[u] == OnReady(p);
  }

  /** A task killed while it is on no ready queue takes with it the only task on the ready queue of its
      priority: that one is runnable, but will not be picked again. */
  lemma KillLosesTask(k: Kernel, t: Tid) returns (u: Tid)
    requires Kept(k, k.current)
    requires !(k.tasks[t].state == Runnable && t != k.current) && |k.ready[k.tasks[t].priority]| == 1
    ensures var p, k' := k.tasks[t].priority, Killed(k, t);
            && k'.tasks[u] == k.tasks[u] && u != k.current && k'.tasks[u].state == Runnable
            && k'.tasks[u].priority == p && !In(k'.ready[p], u)
  {
    hide Kept;
    var p := k.tasks[t].priority;
    u := LoneTask(k, t);
    var k3 := Retired(Deregister(Disarmed(k, t), t), t);
    assert k3.ready[p] == [];
    assert !In(k3.ready[p], u);
    DismissChanges(k3, t, u, p);
  }

  /** The queues of a kernel after Kill hold the right tasks exactly if the victim was separable. */
  lemma KillSeparates(k: Kernel, t: Tid)
    requires Kept(k, k.current) && k.tasks[k.current].state == Active && k.tasks[t].state != Zombie
    ensures Kept(Killed(k, t), k.current) <==> Separable(k, t)
  {
    var k' := Killed(k, t);
    if Separable(k, t) {
      KillKeeps(k, t);
    } else if k.tasks[t].state == ReceiveBlocked && k.tasks[t].to % MAX_TASKS != t {
      KilledSenderStaysQueued(k, t);
      assert Places(k'.tasks, k.current)[t] == Nowhere;
    } else {
      var u := KillLosesTask(k, t);
      assert Places(k'.tasks, k.current)[u] == OnReady(k.tasks[t].priority);
    }
  }
}
