/** The clock server (usr/clock.c) on the wait queue (usr/lib/clock_wait_queue.c). */
module ClockServer {
  import opened Basics
  import opened PriorityQueue

  const CLOCK_WAIT_QUEUE_SIZE: nat := 64

  predicate IsInt32(x: int) {
    -0x8000_0000 <= x <= INT32_MAX
  }

  /** A clock_wait: `key` is the deadline in ticks, `value` the waiting task. */
  type Waiter = Entry<int>

  /** What the server remembers between two messages. */
  datatype Clock = Clock(ticks: int, waiting: multiset<Waiter>)

  datatype Request =
    | Notify
    | Time(tid: int)
    | Delay(tid: int, amount: int)
    | DelayUntil(tid: int, deadline: int)

  ghost predicate AllInFuture(c: Clock) {
    forall w <- c.waiting :: c.ticks < w.key
  }

  /** A tick: exactly the waiters that are due are woken. */
  ghost predicate Tick(c: Clock, c': Clock, woken: multiset<Waiter>) {
    && c'.ticks == Wrap32(c.ticks + 1)
    && c.waiting == c'.waiting + woken
    && (forall w <- woken :: w.key <= c'.ticks)
    && (forall w <- c'.waiting :: c'.ticks < w.key)
  }

  /** The deadline a request asks for, and whether the server takes it. */
  function DeadlineOf(c: Clock, r: Request): int
    requires r.Delay? || r.DelayUntil?
  {
    if r.Delay? then Wrap32(c.ticks + r.amount) else r.deadline
  }

  predicate Accepted(c: Clock, r: Request)
    requires r.Delay? || r.DelayUntil?
  {
    if r.Delay? then r.amount > 0 else r.deadline > c.ticks
  }

  ghost predicate Step(c: Clock, r: Request, c': Clock, woken: multiset<Waiter>) {
    match r
    case Notify => Tick(c, c', woken)
    case Time(_) => c' == c && woken == multiset{}
    case _ =>
      && woken == multiset{}
      && c' == if Accepted(c, r) then c.(waiting := c.waiting + multiset{Entry(DeadlineOf(c, r), r.tid)}) else c
  }

  /** A Delay puts its deadline in the future exactly when the sum does not overflow. */
  lemma DelayIsInFuture(c: Clock, r: Request, c': Clock)
    requires IsInt32(c.ticks) && r.Delay? && IsInt32(r.amount) && r.amount > 0
    requires AllInFuture(c) && Step(c, r, c', multiset{})
    ensures AllInFuture(c') <==> c.ticks + r.amount <= INT32_MAX
  {
    var w := Entry(DeadlineOf(c, r), r.tid);
    assert w in c'.waiting;
  }

  /** A concrete overflow: a Delay one tick too long is due at once. */
  lemma OverflowWakesEarly()
    ensures var c := Clock(1, multiset{});
            var r := Delay(7, INT32_MAX);
            var late := c.(waiting := multiset{Entry(-0x8000_0000, 7)});
            && Step(c, r, late, multiset{})
            && Tick(late, Clock(2, multiset{}), multiset{Entry(-0x8000_0000, 7)})
  {
    assert Wrap32(1 + INT32_MAX) == -0x8000_0000 && Wrap32(2) == 2;
  }

  /** A history: what the server was asked, and whom it woke then. */
  datatype Round = Round(request: Request, woken: multiset<Waiter>)

  ghost predicate IsRun(clocks: seq<Clock>, rounds: seq<Round>) {
    && |clocks| == |rounds| + 1
    && (forall i :: 0 <= i < |rounds| ==> Step(clocks[i], rounds[i].request, clocks[i + 1], rounds[i].woken))
  }

  /** No Delay of the run asks for a time beyond the last tick that can be counted. */
  ghost predicate NoOverflow(clocks: seq<Clock>, rounds: seq<Round>)
    requires IsRun(clocks, rounds)
  {
    && (forall i :: 0 <= i < |clocks| ==> IsInt32(clocks[i].ticks))
    && (forall i :: 0 <= i < |rounds| && rounds[i].request.Delay? ==>
          IsInt32(rounds[i].request.amount) && clocks[i].ticks + rounds[i].request.amount <= INT32_MAX)
  }

  /** Between messages every queued deadline is in the future. */
  lemma {:induction false} AlwaysInFuture(clocks: seq<Clock>, rounds: seq<Round>, i: nat)
    requires IsRun(clocks, rounds) && NoOverflow(clocks, rounds) && AllInFuture(clocks[0]) && i < |clocks|
    ensures AllInFuture(clocks[i])
  {
    if i > 0 {
      AlwaysInFuture(clocks, rounds, i - 1);
      var r := rounds[i - 1].request;
      assert Step(clocks[i - 1], r, clocks[i], rounds[i - 1].woken);
      if r.Delay? && r.amount > 0 {
        DelayIsInFuture(clocks[i - 1], r, clocks[i]);
      }
    }
  }

  /** Nobody is woken early or late: whoever a message wakes is due at the tick it announces. */
  lemma WokenOnTime(clocks: seq<Clock>, rounds: seq<Round>, i: nat, w: Waiter)
    requires IsRun(clocks, rounds) && NoOverflow(clocks, rounds) && AllInFuture(clocks[0])
    requires i < |rounds| && w in rounds[i].woken
    ensures rounds[i].request.Notify? && w.key == clocks[i + 1].ticks
  {
    AlwaysInFuture(clocks, rounds, i);
    assert Step(clocks[i], rounds[i].request, clocks[i + 1], rounds[i].woken);
    assert w in clocks[i].waiting;
  }

  /** Nobody is forgotten: once the clock has come to the deadline, the waiter has been woken. */
  lemma {:induction false} EveryoneIsWoken(clocks: seq<Clock>, rounds: seq<Round>, i: nat, j: nat, w: Waiter) returns (m: nat)
    requires IsRun(clocks, rounds) && NoOverflow(clocks, rounds) && AllInFuture(clocks[0])
    requires i <= j < |clocks| && w in clocks[i].waiting && w.key <= clocks[j].ticks
    ensures i <= m < j && w in rounds[m].woken && clocks[m + 1].ticks == w.key
    decreases j - i
  {
    AlwaysInFuture(clocks, rounds, i);
    assert Step(clocks[i], rounds[i].request, clocks[i + 1], rounds[i].woken);
    if w in rounds[i].woken {
      m := i;
      WokenOnTime(clocks, rounds, i, w);
    } else {
      m := EveryoneIsWoken(clocks, rounds, i + 1, j, w);
    }
  }

  /** A Delay of `d` ticks made at time `t` is answered by the tick that makes the time `t + d`. */
  lemma DelayWakesOnTime(clocks: seq<Clock>, rounds: seq<Round>, i: nat, j: nat) returns (m: nat)
    requires IsRun(clocks, rounds) && NoOverflow(clocks, rounds) && AllInFuture(clocks[0])
    requires i < |rounds| && rounds[i].request.Delay? && rounds[i].request.amount > 0
    requires i < j < |clocks| && clocks[i].ticks + rounds[i].request.amount <= clocks[j].ticks
    ensures var due := clocks[i].ticks + rounds[i].request.amount;
            && i < m < j
            && Entry(due, rounds[i].request.tid) in rounds[m].woken
            && clocks[m + 1].ticks == due
  {
    var r := rounds[i].request;
    assert Step(clocks[i], r, clocks[i + 1], rounds[i].woken);
    assert Wrap32(clocks[i].ticks + r.amount) == clocks[i].ticks + r.amount;
    m := EveryoneIsWoken(clocks, rounds, i + 1, j, Entry(clocks[i].ticks + r.amount, r.tid));
  }

  /** A DelayUntil of a later time `d` is answered by the tick that makes the time `d`. */
  lemma DelayUntilWakesOnTime(clocks: seq<Clock>, rounds: seq<Round>, i: nat, j: nat) returns (m: nat)
    requires IsRun(clocks, rounds) && NoOverflow(clocks, rounds) && AllInFuture(clocks[0])
    requires i < |rounds| && rounds[i].request.DelayUntil? && clocks[i].ticks < rounds[i].request.deadline
    requires i < j < |clocks| && rounds[i].request.deadline <= clocks[j].ticks
    ensures var due := rounds[i].request.deadline;
            && i < m < j
            && Entry(due, rounds[i].request.tid) in rounds[m].woken
            && clocks[m + 1].ticks == due
  {
    var r := rounds[i].request;
    assert Step(clocks[i], r, clocks[i + 1], rounds[i].woken);
    m := EveryoneIsWoken(clocks, rounds, i + 1, j, Entry(r.deadline, r.tid));
  }

  /** A Delay that is not positive and a DelayUntil that is not in the future leave the queue as it was, and nobody
      is woken. */
  lemma RefusedLeavesQueue(c: Clock, r: Request, c': Clock, woken: multiset<Waiter>)
    requires Step(c, r, c', woken)
    requires (r.Delay? && r.amount <= 0) || (r.DelayUntil? && r.deadline <= c.ticks)
    ensures c' == c && woken == multiset{}
  {
  }

  ghost function Notified(rounds: seq<Round>): nat {
    if rounds == [] then 0
    else Notified(rounds[..|rounds| - 1]) + if rounds[|rounds| - 1].request.Notify? then 1 else 0
  }

  lemma WrapIsNothing(x: int)
    requires IsInt32(x)
    ensures Wrap32(x) == x
  {
  }

  lemma WrapTwice(x: int)
    ensures Wrap32(Wrap32(x) + 1) == Wrap32(x + 1)
  {
  }

  lemma StepTicks(c: Clock, r: Request, c': Clock, woken: multiset<Waiter>)
    requires Step(c, r, c', woken)
    ensures c'.ticks == if r.Notify? then Wrap32(c.ticks + 1) else c.ticks
  {
  }

  /** The time is the number of notifications, as far as 32 bits go. */
  lemma {:induction false} TimeCounts(clocks: seq<Clock>, rounds: seq<Round>, i: nat)
    requires IsRun(clocks, rounds) && IsInt32(clocks[0].ticks) && i < |clocks|
    ensures clocks[i].ticks == Wrap32(clocks[0].ticks + Notified(rounds[..i]))
  {
    hide Wrap32, Step;
    if i == 0 {
      WrapIsNothing(clocks[0].ticks);
    } else {
      TimeCounts(clocks, rounds, i - 1);
      assert Step(clocks[i - 1], rounds[i - 1].request, clocks[i], rounds[i - 1].woken);
      StepTicks(clocks[i - 1], rounds[i - 1].request, clocks[i], rounds[i - 1].woken);
      WrapTwice(clocks[0].ticks + Notified(rounds[..i - 1]));
      assert rounds[..i][..i - 1] == rounds[..i - 1];
    }
  }

  function Slot(tid: int): int {
    tid % MAX_TASKS
  }

  /** Live tasks have different slots, and a waiting client cannot ask again before it is answered. */
  ghost predicate OnePerSlot(waiting: multiset<Waiter>) {
    && (forall w <- waiting :: waiting[w] == 1 && Slot(w.value) != 0)
    && (forall v <- waiting, w <- waiting :: v != w ==> Slot(v.value) != Slot(w.value))
  }

  lemma {:induction false} AtMostOnePerSlot(waiting: multiset<Waiter>, n: nat)
    requires OnePerSlot(waiting) && forall w <- waiting :: Slot(w.value) <= n
    ensures |waiting| <= n
    decreases n
  {
    if w :| w in waiting && Slot(w.value) == n {
      assert n > 0;
      var rest := waiting - multiset{w};
      assert forall v <- rest :: v in waiting && v != w && rest[v] == waiting[v];
      AtMostOnePerSlot(rest, n - 1);
    } else if n > 0 {
      AtMostOnePerSlot(waiting, n - 1);
    } else {
      assert waiting == multiset{};
    }
  }

  /** Every client that asks is in a slot of its own, where nobody waits already. */
  ghost predicate ClientsBlock(clocks: seq<Clock>, rounds: seq<Round>)
    requires IsRun(clocks, rounds)
  {
    forall i :: 0 <= i < |rounds| && !rounds[i].request.Notify? ==>
      && Slot(rounds[i].request.tid) != 0
      && forall w <- clocks[i].waiting :: Slot(w.value) != Slot(rounds[i].request.tid)
  }

  /** So the 64 slots of the wait queue are never used up. */
  lemma {:induction false} QueueNeverFull(clocks: seq<Clock>, rounds: seq<Round>, i: nat)
    requires IsRun(clocks, rounds) && ClientsBlock(clocks, rounds) && i < |clocks|
    requires clocks[0].waiting == multiset{}
    ensures OnePerSlot(clocks[i].waiting)
    ensures |clocks[i].waiting| < CLOCK_WAIT_QUEUE_SIZE
  {
    if i > 0 {
      QueueNeverFull(clocks, rounds, i - 1);
      assert Step(clocks[i - 1], rounds[i - 1].request, clocks[i], rounds[i - 1].woken);
      StepKeepsOnePerSlot(clocks[i - 1], rounds[i - 1].request, clocks[i], rounds[i - 1].woken);
    }
    AtMostOnePerSlot(clocks[i].waiting, MAX_TASKS - 1);
  }

  lemma StepKeepsOnePerSlot(c: Clock, r: Request, c': Clock, woken: multiset<Waiter>)
    requires Step(c, r, c', woken) && OnePerSlot(c.waiting)
    requires !r.Notify? ==> Slot(r.tid) != 0 && forall w <- c.waiting :: Slot(w.value) != Slot(r.tid)
    ensures OnePerSlot(c'.waiting)
  {
    if r.Notify? {
      assert forall w <- c'.waiting :: w in c.waiting && c'.waiting[w] <= c.waiting[w];
    }
  }

  ghost predicate Ascending(woken: seq<Waiter>) {
    forall i, j :: 0 <= i < j < |woken| ==> woken[i].key <= woken[j].key
  }

  /** `woken` has been taken off the queue, smallest deadlines first and none after `limit`. */
  ghost predicate Drained(start: seq<Waiter>, rest: seq<Waiter>, woken: seq<Waiter>, limit: int) {
    && multiset(start) == multiset(rest) + multiset(woken)
    && Ascending(woken)
    && (forall w <- woken :: w.key <= limit)
    && (woken != [] ==> forall v <- rest :: woken[|woken| - 1].key <= v.key)
  }

  lemma DrainOne(start: seq<Waiter>, before: seq<Waiter>, after: seq<Waiter>, woken: seq<Waiter>, w: Waiter, limit: int)
    requires Drained(start, before, woken, limit)
    requires multiset(before) == multiset(after) + multiset{w} && w.key <= limit
    requires forall v <- before :: w.key <= v.key
    ensures Drained(start, after, woken + [w], limit)
  {
    assert w in multiset(before);
    forall v | v in after
      ensures w.key <= v.key
    {
      assert v in multiset(after);
      assert v in multiset(before);
    }
  }

  lemma DrainedIsTick(start: seq<Waiter>, rest: seq<Waiter>, woken: seq<Waiter>, ticks: int, ticks': int)
    requires Drained(start, rest, woken, ticks') && ticks' == Wrap32(ticks + 1)
    requires forall v <- rest :: ticks' < v.key
    ensures Tick(Clock(ticks, multiset(start)), Clock(ticks', multiset(rest)), multiset(woken))
  {
    assert forall w <- multiset(woken) :: w in woken;
    assert forall w <- multiset(rest) :: w in rest;
  }

  /** How the server answers a Delay or DelayUntil: at once with an error, later, or not at all because
      its assertion on the queue failed. */
  datatype Answer = ErrorReply | ReplyLater | AssertFailed

  class Server {
    var ticks: int
    const queue: PriorityQueue<int>

    ghost predicate Valid()
      reads this, queue, queue.elts
    {
      && queue.Valid() && IsHeap(queue.Contents())
      && queue.elts.Length == CLOCK_WAIT_QUEUE_SIZE
    }

    ghost function State(): Clock
      requires Valid()
      reads this, queue, queue.elts
    {
      Clock(ticks, multiset(queue.Contents()))
    }

    constructor ()
      ensures Valid() && fresh(queue) && fresh(queue.elts)
      ensures State() == Clock(0, multiset{})
    {
      ticks := 0;
      queue := new PriorityQueue<int>(CLOCK_WAIT_QUEUE_SIZE);
    }

    /** MESSAGE_NOTIFIER; `woken` lists the replies in the order they are made. */
    method OnNotify() returns (woken: seq<Waiter>)
      requires Valid()
      modifies this, queue, queue.elts
      ensures Valid()
      ensures Step(old(State()), Notify, State(), multiset(woken))
      ensures Ascending(woken)
    {
      ticks := Wrap32(ticks + 1);
      woken := [];
      var some, head := queue.Peek();
      while some && head.key <= ticks
        invariant Valid() && ticks == Wrap32(old(ticks) + 1)
        invariant Drained(old(queue.Contents()), queue.Contents(), woken, ticks)
        invariant some == (queue.size != 0)
        invariant some ==> forall v <- queue.Contents() :: head.key <= v.key
        invariant some ==> head == queue.elts[0]
        decreases queue.size
      {
        ghost var before := queue.Contents();
        var r, cw := queue.Dequeue();
        DrainOne(old(queue.Contents()), before, queue.Contents(), woken, cw, ticks);
        woken := woken + [cw];
        some, head := queue.Peek();
      }
      DrainedIsTick(old(queue.Contents()), queue.Contents(), woken, old(ticks), ticks);
    }

    /** MESSAGE_TIME */
    method OnTime() returns (t: int)
      requires Valid()
      ensures t == State().ticks
    {
      t := ticks;
    }

    /** MESSAGE_DELAY and MESSAGE_DELAY_UNTIL */
    method OnDelay(r: Request) returns (answer: Answer)
      requires Valid() && (r.Delay? || r.DelayUntil?)
      modifies this, queue, queue.elts
      ensures Valid()
      ensures answer == ErrorReply <==> if r.Delay? then r.amount <= 0 else r.deadline <= old(ticks)
      ensures answer == if !Accepted(old(State()), r) then ErrorReply
                        else if |old(State()).waiting| == CLOCK_WAIT_QUEUE_SIZE then AssertFailed
                        else ReplyLater
      ensures answer != AssertFailed ==> Step(old(State()), r, State(), multiset{})
    {
      var deadline := 0;
      match r {
        case Delay(_, amount) =>
          if amount <= 0 {
            return ErrorReply;
          }
          deadline := Wrap32(ticks + amount);
        case DelayUntil(_, at) =>
          if at <= ticks {
            return ErrorReply;
          }
          deadline := at;
      }
      var full := queue.Enqueue(Entry(deadline, r.tid));
      return if full == -1 then AssertFailed else ReplyLater;
    }
  }
}
