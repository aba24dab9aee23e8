/** The queues of one kind, as references between the tasks: the ready queues by priority, or the send queues by
    receiver. Each task has one pair of pointers of the kind. */
module QueueBank {
  import opened Basics
  import opened TaskQueue

  /** The `next` and `prev` of a task, or its `nextmsg` and `prevmsg`. */
  class Link {
    const tid: Tid
    var next: Link?
    var prev: Link?

    constructor (tid: Tid)
      ensures this.tid == tid && next == prev == null
    {
      this.tid := tid;
      next, prev := null, null;
    }
  }

  function Name(l: Link?): Pointer {
    if l == null then NONE else l.tid
  }

  class Bank {
    var heads: seq<Link?>
    const links: seq<Link>
    ghost const parts: set<object>

    ghost predicate Owned(l: Link?)
      requires |links| == MAX_TASKS
    {
      l != null ==> links[l.tid] == l
    }

    ghost predicate Valid()
      reads this, parts
    {
      && |links| == |heads| == MAX_TASKS
      && (forall t: Tid :: links[t].tid == t && links[t] in parts)
      && (forall o :: o in parts ==> o is Link)
      && (forall t: Tid :: Owned(links[t].next) && Owned(links[t].prev))
      && (forall p: Tid :: Owned(heads[p]))
    }

    /** All pointers of the tasks, and the heads of the queues. */
    ghost function Pairs(): (ps: Pairs)
      requires Valid()
      reads this, parts
    {
      seq(MAX_TASKS, t requires 0 <= t < MAX_TASKS && Valid() reads this, parts => Pair(Name(links[t].next), Name(links[t].prev)))
    }

    ghost function Heads(): (h: seq<Pointer>)
      requires Valid()
      reads this, parts
      ensures |h| == MAX_TASKS
    {
      seq(MAX_TASKS, p requires 0 <= p < MAX_TASKS && Valid() reads this, parts => Name(heads[p]))
    }

    constructor ()
      ensures Valid() && fresh(parts) && this !in parts
      ensures Pairs() == seq(MAX_TASKS, _ => Pair(NONE, NONE)) && Heads() == seq(MAX_TASKS, _ => NONE)
    {
      var ls := NewLinks();
      links := ls;
      heads := seq(MAX_TASKS, _ => null);
      parts := set t | 0 <= t < MAX_TASKS :: ls[t] as object;
    }

    method IsEmpty(p: Tid) returns (empty: bool)
      requires Valid()
      ensures empty <==> Heads()[p] == NONE
    {
      empty := heads[p] == null;
    }

    method HasOneElement(p: Tid) returns (one: bool)
      requires Valid() && Heads()[p] != NONE
      ensures one <==> Pairs()[Heads()[p]].next == Heads()[p]
    {
      one := heads[p].next == heads[p];
    }

    method Length(p: Tid, ghost s: seq<Tid>) returns (length: nat)
      requires Valid() && Ring(Pairs(), s) && Heads()[p] == Head(s)
      ensures length == |s|
    {
      if heads[p] == null {
        return 0;
      }
      length := 0;
      var td := heads[p];
      while true
        invariant length < |s| && td == links[s[length]]
        decreases |s| - length
      {
        assert Pairs()[s[length]].next == s[After(length, |s|)];
        td := td.next;
        length := length + 1;
        if td == heads[p] {
          break;
        }
      }
    }

    method Enqueue(p: Tid, t: Tid)
      requires Valid() && (Heads()[p] != NONE ==> Pairs()[Heads()[p]].prev != NONE)
      modifies this, parts
      ensures Valid() && Pairs() == EnqueuePairs(old(Pairs()), old(Heads()[p]), t)
      ensures Heads() == old(Heads())[p := if old(Heads())[p] == NONE then t else old(Heads())[p]]
    {
      var td := links[t];
      if heads[p] == null {
        td.prev := td;
        td.next := td;
        heads := heads[p := td];
      } else {
        var head := heads[p];
        var tail := head.prev;
        head.prev := td;
        tail.next := td;
        td.prev := tail;
        td.next := head;
      }
    }

    /** Makes `q` the successor of `p` and `p` the predecessor of `q`. */
    method Join(p: Link, q: Link)
      requires Valid() && Owned(p) && Owned(q)
      modifies parts
      ensures Valid() && Pairs() == Joined(old(Pairs()), p.tid, q.tid) && heads == old(heads)
    {
      q.prev := p;
      p.next := q;
    }

    method SetHead(p: Tid, head: Link?)
      requires Valid() && Owned(head)
      modifies this
      ensures Valid() && Pairs() == old(Pairs()) && Heads() == old(Heads())[p := Name(head)]
    {
      heads := heads[p := head];
    }

    method Dequeue(p: Tid) returns (t: int)
      requires Valid() && (Heads()[p] != NONE ==> IsThreaded(Pairs()[Heads()[p]]))
      modifies this, parts
      ensures Valid()
      ensures old(Heads())[p] == NONE ==> t == NONE && Pairs() == old(Pairs()) && Heads() == old(Heads())
      ensures old(Heads())[p] != NONE ==>
                && t == old(Heads())[p]
                && Pairs() == DequeuePairs(old(Pairs()), t)
                && Heads() == old(Heads())[p := DequeueHead(old(Pairs()), t)]
    {
      if heads[p] == null {
        return NONE;
      }
      var head := heads[p];
      if head.next == head {
        SetHead(p, null);
      } else {
        var newHead := head.next;
        Join(head.prev, newHead);
        SetHead(p, newHead);
      }
      return head.tid;
    }

    method Remove(p: Tid, t: Tid)
      requires Valid()
      requires var h := Heads()[p]; h != NONE && Pairs()[h].next != h ==> IsThreaded(Pairs()[t])
      modifies this, parts
      ensures Valid() && Pairs() == RemovePairs(old(Pairs()), old(Heads())[p], t)
      ensures Heads() == old(Heads())[p := RemoveHead(old(Pairs()), old(Heads())[p], t)]
    {
      if heads[p] != null {
        var td := links[t];
        if heads[p].next == heads[p] {
          SetHead(p, null);
        } else {
          var next := td.next;
          Join(td.prev, next);
          if heads[p] == td {
            SetHead(p, next);
          }
        }
      }
    }

    /** A new task's queue is emptied by dropping its head. */
    method Clear(p: Tid)
      requires Valid()
      modifies this
      ensures Valid() && Pairs() == old(Pairs()) && Heads() == old(Heads())[p := NONE]
    {
      SetHead(p, null);
    }

    /** A new task's pointers are null until it is queued. */
    method Detach(t: Tid)
      requires Valid()
      modifies parts
      ensures Valid() && Pairs() == old(Pairs())[t := Pair(NONE, NONE)] && Heads() == old(Heads())
    {
      links[t].next := null;
      links[t].prev := null;
    }
  }

  method NewLinks() returns (links: seq<Link>)
    ensures |links| == MAX_TASKS && fresh(links)
    ensures forall t :: 0 <= t < MAX_TASKS ==> links[t].tid == t && links[t].next == links[t].prev == null
  {
    links := [];
    while |links| < MAX_TASKS
      invariant |links| <= MAX_TASKS && fresh(links)
      invariant forall t :: 0 <= t < |links| ==> links[t].tid == t && links[t].next == links[t].prev == null
    {
      var link := new Link(|links|);
      links := links + [link];
    }
  }
}
