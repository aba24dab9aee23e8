/** kernel/src/multitasking/scheduler.c: ready queues by priority, and a bitmap of the nonempty ones in two words. */
module Scheduler {
  import opened Basics
  import opened TaskQueue
  import opened KernelModel
  import opened KernelLinks
  import opened QueueBank
  import opened Bitmap

  const MAX_PRIORITY := 63

  predicate Marked(hi: bv64, lo: bv64, p: Priority) {
    if p > 31 then Has(hi, p - 32) else Has(lo, p)
  }

  /** A 32-bit word. */
  ghost predicate IsHalf(w: bv64) {
    forall q :: 32 <= q < 64 ==> !Has(w, q)
  }

  /** Bit `p` of the two words is set exactly if ready queue `p` is nonempty. */
  ghost predicate Marks(hi: bv64, lo: bv64, ready: seq<seq<Tid>>)
    requires |ready| == PRIORITIES
  {
    && IsHalf(hi) && IsHalf(lo)
    && forall p: Priority :: Marked(hi, lo, p) <==> ready[p] != []
  }

  lemma HighestOfHalf(w: bv64)
    requires w != 0 && IsHalf(w)
    ensures Highest(w, 31) >= 0
  {
    NonzeroHasHighest(w);
    assert Has(w, Highest(w, 63));
  }

  lemma ZeroHasNothing(p: nat)
    requires p < 64
    ensures !Has(0, p)
  {
  }

  /** What the words and count-leading-zeros say is the highest nonempty queue. */
  function HighestMarked(hi: bv64, lo: bv64): int {
    if hi != 0 then 63 - Clz32(hi)
    else if lo != 0 then 31 - Clz32(lo)
    else NONE
  }

  lemma HighestIs(ready: seq<seq<Tid>>, m: int)
    requires |ready| == PRIORITIES && NONE <= m < PRIORITIES
    requires m != NONE ==> ready[m] != []
    requires forall p: Priority :: m < p ==> ready[p] == []
    ensures HighestReady(ready, MAX_PRIORITY) == m
  {
  }

  /** The two words and count-leading-zeros find the highest nonempty queue. */
  lemma BitmapFindsHighest(hi: bv64, lo: bv64, ready: seq<seq<Tid>>)
    requires |ready| == PRIORITIES && Marks(hi, lo, ready)
    ensures HighestMarked(hi, lo) == HighestReady(ready, MAX_PRIORITY)
  {
    hide Has, HighestReady;
    var m := HighestMarked(hi, lo);
    if hi != 0 {
      HighestOfHalf(hi);
    } else if lo != 0 {
      HighestOfHalf(lo);
    }
    assert m != NONE ==> Marked(hi, lo, m);
    forall p: Priority | m < p
      ensures ready[p] == []
    {
      ZeroHasNothing(if p > 31 then p - 32 else p);
      assert !Marked(hi, lo, p);
    }
    HighestIs(ready, m);
  }

  lemma SetHalf(w: bv64, bit: nat)
    requires IsHalf(w) && bit < 32
    ensures IsHalf(SetBit(w, bit)) && forall q :: 0 <= q < 64 ==> (Has(SetBit(w, bit), q) <==> q == bit || Has(w, q))
  {
    hide Has, SetBit;
    forall q | 0 <= q < 64
      ensures Has(SetBit(w, bit), q) <==> q == bit || Has(w, q)
    {
      SetBitHas(w, bit, q);
    }
  }

  lemma ClearHalf(w: bv64, bit: nat)
    requires IsHalf(w) && bit < 32
    ensures IsHalf(ClearBit(w, bit)) && forall q :: 0 <= q < 64 ==> (Has(ClearBit(w, bit), q) <==> q != bit && Has(w, q))
  {
    hide Has, ClearBit;
    forall q | 0 <= q < 64
      ensures Has(ClearBit(w, bit), q) <==> q != bit && Has(w, q)
    {
      ClearBitHas(w, bit, q);
    }
  }

  class Scheduler {
    var nonemptyHi: bv64
    var nonemptyLo: bv64
    const queues: Bank
    ghost var ready: seq<seq<Tid>>

    /** The heads are those of the queues, and the bitmap marks the nonempty ones. */
    ghost predicate Valid()
      reads this, queues, queues.parts
    {
      && this !in queues.parts && queues !in queues.parts && queues.Valid()
      && |ready| == PRIORITIES
      && (forall p: Priority :: queues.Heads()[p] == Head(ready[p]))
      && Marks(nonemptyHi, nonemptyLo, ready)
    }

    constructor ()
      ensures Valid() && fresh(queues) && fresh(queues.parts)
      ensures ready == seq(PRIORITIES, _ => []) && queues.Pairs() == seq(MAX_TASKS, _ => Pair(NONE, NONE))
    {
      nonemptyHi, nonemptyLo := 0, 0;
      queues := new Bank();
      ready := seq(PRIORITIES, _ => []);
      new;
      forall p | 0 <= p < 64
        ensures !Has(0, p)
      {
        ZeroHasNothing(p);
      }
    }

    method SetNonempty(priority: Priority, nonempty: bool)
      requires IsHalf(nonemptyHi) && IsHalf(nonemptyLo)
      modifies this`nonemptyHi, this`nonemptyLo
      ensures IsHalf(nonemptyHi) && IsHalf(nonemptyLo)
      ensures forall p: Priority :: Marked(nonemptyHi, nonemptyLo, p) <==>
                if p == priority then nonempty else old(Marked(nonemptyHi, nonemptyLo, p))
    {
      hide Has, SetBit, ClearBit;
      if nonempty {
        if priority > 31 {
          SetHalf(nonemptyHi, priority - 32);
          nonemptyHi := SetBit(nonemptyHi, priority - 32);
        } else {
          SetHalf(nonemptyLo, priority);
          nonemptyLo := SetBit(nonemptyLo, priority);
        }
      } else {
        if priority > 31 {
          ClearHalf(nonemptyHi, priority - 32);
          nonemptyHi := ClearBit(nonemptyHi, priority - 32);
        } else {
          ClearHalf(nonemptyLo, priority);
          nonemptyLo := ClearBit(nonemptyLo, priority);
        }
      }
    }

    /** Queue `priority` has become `s`: its bit is set, or cleared if it is now empty. */
    method Mark(priority: Priority, ghost s: seq<Tid>)
      requires |ready| == PRIORITIES && Marks(nonemptyHi, nonemptyLo, ready)
      requires queues.Valid() && queues.Heads()[priority] == Head(s)
      modifies this
      ensures ready == old(ready)[priority := s] && Marks(nonemptyHi, nonemptyLo, ready)
    {
      hide Marked, Has;
      var empty := queues.IsEmpty(priority);
      SetNonempty(priority, !empty);
      ready := ready[priority := s];
    }

    method HighestPriority() returns (highest: int)
      requires Valid()
      ensures highest == HighestReady(ready, MAX_PRIORITY)
    {
      hide Marks;
      BitmapFindsHighest(nonemptyHi, nonemptyLo, ready);
      if nonemptyHi != 0 {
        highest := 63 - Clz32(nonemptyHi);
      } else if nonemptyLo != 0 {
        highest := 31 - Clz32(nonemptyLo);
      } else {
        highest := NONE;
      }
    }

    /** scheduler_register */
    method Register(td: Tid, priority: int) returns (r: int)
      requires Valid()
      requires 0 <= priority <= MAX_PRIORITY && ready[priority] != [] ==> queues.Pairs()[ready[priority][0]].prev != NONE
      modifies this, queues, queues.parts
      ensures Valid()
      ensures !(0 <= priority <= MAX_PRIORITY) ==> r == -1 && ready == old(ready) && queues.Pairs() == old(queues.Pairs())
      ensures 0 <= priority <= MAX_PRIORITY ==>
                && r == 0
                && ready == old(ready)[priority := Enqueued(old(ready)[priority], td)]
                && queues.Pairs() == EnqueuePairs(old(queues.Pairs()), Head(old(ready)[priority]), td)
    {
      hide Marks, Bank.Valid, Bank.Pairs, Bank.Heads;
      if priority < 0 || priority > MAX_PRIORITY {
        return -1;
      }
      queues.Enqueue(priority, td);
      Mark(priority, Enqueued(ready[priority], td));
      return 0;
    }

    /** scheduler_next_task: the first task of the highest nonempty queue. */
    method NextTask() returns (td: int)
      requires Valid() && Rings(queues.Pairs(), ready)
      modifies this, queues, queues.parts
      ensures Valid()
      ensures var h := HighestReady(old(ready), MAX_PRIORITY);
              if h < 0 then td == NONE && ready == old(ready) && queues.Pairs() == old(queues.Pairs())
              else
                && td == old(ready)[h][0]
                && ready == old(ready)[h := old(ready)[h][1..]]
                && queues.Pairs() == DequeuePairs(old(queues.Pairs()), td)
    {
      hide Marks, HighestReady, Ring, Bank.Valid, Bank.Pairs, Bank.Heads;
      var highest := HighestPriority();
      if highest < 0 {
        return NONE;
      }
      DequeueRing(queues.Pairs(), ready[highest]);
      RingNeighbours(queues.Pairs(), ready[highest]);
      td := queues.Dequeue(highest);
      Mark(highest, ready[highest][1..]);
    }

    /** scheduler_deregister */
    method Deregister(td: Tid, priority: Priority)
      requires Valid() && Ring(queues.Pairs(), ready[priority]) && IsThreaded(queues.Pairs()[td])
      modifies this, queues, queues.parts
      ensures Valid() && ready == old(ready)[priority := Removed(old(ready)[priority], td)]
      ensures queues.Pairs() == RemovePairs(old(queues.Pairs()), Head(old(ready)[priority]), td)
    {
      hide Marks, Ring, Bank.Valid, Bank.Pairs, Bank.Heads;
      RemovedHead(queues.Pairs(), ready[priority], td);
      queues.Remove(priority, td);
      Mark(priority, Removed(ready[priority], td));
    }
  }

  lemma RemovedHead(ps: Pairs, s: seq<Tid>, t: Tid)
    requires Ring(ps, s) && IsThreaded(ps[t])
    ensures RemoveHead(ps, Head(s), t) == Head(Removed(s, t))
  {
    if |s| > 1 {
      RemoveRing(ps, s, t);
    } else if s != [] {
      RingNeighbours(ps, s);
    }
  }
}
