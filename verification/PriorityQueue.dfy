/** The generic binary min-heap (lib/priority_queue.h), kept in the first `size` slots of a fixed array.
    An `Entry` is one element: `key` is what ELEMENT_VALUE reads, `value` is the rest of the record. */
module PriorityQueue {
  import opened Basics

  datatype Entry<V> = Entry(key: int, value: V)

  /** PARENT(i) on `uint32_t`: at the root the subtraction wraps round to the largest word. */
  function Parent(i: nat): nat {
    (i - 1) % UINT32_RANGE / 2
  }

  lemma ParentValue(i: nat)
    requires i < UINT32_RANGE
    ensures Parent(i) == if i == 0 then 0x7FFF_FFFF else (i - 1) / 2
  {
  }

  ghost predicate IsChild(i: nat, j: nat) {
    j == 2 * i + 1 || j == 2 * i + 2
  }

  /** Heap order between every element and its parent, for the parents from `lo` on. */
  ghost predicate HeapFrom<V>(s: seq<Entry<V>>, lo: nat) {
    forall i, j {:trigger IsChild(i, j)} :: lo <= i < |s| && 0 <= j < |s| && IsChild(i, j) ==> s[i].key <= s[j].key
  }

  ghost predicate IsHeap<V>(s: seq<Entry<V>>) {
    HeapFrom(s, 0)
  }

  /** Heap order except possibly between `hole` and its children; the children of `hole` are
      no smaller than the parent of `hole`, so whichever moves up into it fits there. */
  ghost predicate HeapButBelow<V>(s: seq<Entry<V>>, lo: nat, hole: nat) {
    && (forall i, j {:trigger IsChild(i, j)} :: lo <= i < |s| && 0 <= j < |s| && i != hole && IsChild(i, j) ==> s[i].key <= s[j].key)
    && (forall i, j {:trigger IsChild(i, hole), IsChild(hole, j)} :: lo <= i < |s| && 0 <= j < |s| && IsChild(i, hole) && IsChild(hole, j)
          ==> s[i].key <= s[j].key)
  }

  /** Heap order except possibly between `hole` and its parent. */
  ghost predicate HeapButAbove<V>(s: seq<Entry<V>>, hole: nat) {
    && (forall i, j {:trigger IsChild(i, j)} :: 0 <= i < |s| && 0 <= j < |s| && j != hole && IsChild(i, j) ==> s[i].key <= s[j].key)
    && (forall i, j {:trigger IsChild(i, hole), IsChild(hole, j)} :: 0 <= i < |s| && 0 <= j < |s| && IsChild(i, hole) && IsChild(hole, j)
          ==> s[i].key <= s[j].key)
  }

  /** The root of a heap is a minimum. */
  lemma {:induction false} RootIsMinimal<V>(s: seq<Entry<V>>, i: nat)
    requires IsHeap(s) && i < |s|
    ensures s[0].key <= s[i].key
  {
    if i > 0 {
      assert IsChild((i - 1) / 2, i);
      RootIsMinimal(s, (i - 1) / 2);
    }
  }

  lemma RootIsMinimum<V>(s: seq<Entry<V>>)
    requires IsHeap(s) && s != []
    ensures forall x <- s :: s[0].key <= x.key
  {
    forall i | 0 <= i < |s|
      ensures s[0].key <= s[i].key
    {
      RootIsMinimal(s, i);
    }
  }

  lemma SwapKeepsMultiset<V>(s: seq<Entry<V>>, t: seq<Entry<V>>, i: nat, j: nat)
    requires i < |s| && j < |s|
    requires t == s[i := s[j]][j := s[i]]
    ensures multiset(t) == multiset(s)
  {
  }

  /** The last element takes the place of the root, and the array loses its last slot. */
  ghost function DropRoot<V>(s: seq<Entry<V>>): seq<Entry<V>>
    requires s != []
  {
    s[0 := s[|s| - 1]][..|s| - 1]
  }

  lemma SwapThenDrop<V>(s: seq<Entry<V>>, swapped: seq<Entry<V>>)
    requires s != [] && swapped == s[0 := s[|s| - 1]][|s| - 1 := s[0]]
    ensures swapped[..|s| - 1] == DropRoot(s)
  {
  }

  lemma DropRootEffect<V>(s: seq<Entry<V>>)
    requires IsHeap(s) && s != []
    ensures HeapFrom(DropRoot(s), 1)
    ensures multiset(s) == multiset(DropRoot(s)) + multiset{s[0]}
  {
    var swapped := s[0 := s[|s| - 1]][|s| - 1 := s[0]];
    SwapKeepsMultiset(s, swapped, 0, |s| - 1);
    assert swapped == DropRoot(s) + [s[0]];
  }

  /** What one dequeue of `e` does to the contents. */
  ghost predicate Dequeued<V>(before: seq<Entry<V>>, e: Entry<V>, after: seq<Entry<V>>) {
    && before != [] && IsHeap(before) && e == before[0]
    && multiset(before) == multiset(after) + multiset{e}
  }

  /** Dequeuing again and again: `heaps` are the contents before, between and after, `out` what comes out. */
  ghost predicate IsDrain<V>(heaps: seq<seq<Entry<V>>>, out: seq<Entry<V>>) {
    && |heaps| == |out| + 1
    && forall i {:trigger out[i]} :: 0 <= i < |out| ==> Dequeued(heaps[i], out[i], heaps[i + 1])
  }

  lemma {:induction false} DrainedElement<V>(heaps: seq<seq<Entry<V>>>, out: seq<Entry<V>>, j: nat, i: nat)
    requires IsDrain(heaps, out) && i <= j < |out|
    ensures out[j] in heaps[i]
    decreases j - i
  {
    assert Dequeued(heaps[i], out[i], heaps[i + 1]);
    if i < j {
      DrainedElement(heaps, out, j, i + 1);
      assert out[j] in multiset(heaps[i]);
    }
  }

  lemma {:induction false} DrainConserves<V>(heaps: seq<seq<Entry<V>>>, out: seq<Entry<V>>, n: nat)
    requires IsDrain(heaps, out) && n <= |out|
    ensures multiset(heaps[0]) == multiset(out[..n]) + multiset(heaps[n])
  {
    if n > 0 {
      DrainConserves(heaps, out, n - 1);
      assert Dequeued(heaps[n - 1], out[n - 1], heaps[n]);
      assert out[..n] == out[..n - 1] + [out[n - 1]];
    }
  }

  ghost predicate IsSorted<V>(s: seq<Entry<V>>) {
    forall i, j :: 0 <= i < j < |s| ==> s[i].key <= s[j].key
  }

  /** What comes out comes out in order, and with what is left it is what was there. */
  lemma DrainSorts<V>(heaps: seq<seq<Entry<V>>>, out: seq<Entry<V>>)
    requires IsDrain(heaps, out)
    ensures multiset(heaps[0]) == multiset(out) + multiset(heaps[|out|])
    ensures IsSorted(out)
  {
    DrainConserves(heaps, out, |out|);
    assert out[..|out|] == out;
    forall i, j | 0 <= i < j < |out|
      ensures out[i].key <= out[j].key
    {
      assert Dequeued(heaps[i], out[i], heaps[i + 1]);
      DrainedElement(heaps, out, j, i);
      RootIsMinimum(heaps[i]);
    }
  }

  lemma DrainMore<V>(heaps: seq<seq<Entry<V>>>, out: seq<Entry<V>>, e: Entry<V>, rest: seq<Entry<V>>)
    requires IsDrain(heaps, out) && Dequeued(heaps[|out|], e, rest)
    ensures IsDrain(heaps + [rest], out + [e])
  {
    hide Dequeued;
    forall i {:trigger (out + [e])[i]} | 0 <= i < |out| + 1
      ensures Dequeued((heaps + [rest])[i], (out + [e])[i], (heaps + [rest])[i + 1])
    {
      if i < |out| {
        assert Dequeued(heaps[i], out[i], heaps[i + 1]);
      }
    }
  }

  class PriorityQueue<V(0)> {
    var size: nat
    const elts: array<Entry<V>>

    ghost predicate Valid()
      reads this
    {
      size <= elts.Length < UINT32_RANGE / 4
    }

    ghost function Contents(): seq<Entry<V>>
      requires Valid()
      reads this, elts
    {
      elts[..size]
    }

    constructor (capacity: nat)
      requires capacity < UINT32_RANGE / 4
      ensures Valid() && fresh(elts) && elts.Length == capacity && Contents() == []
    {
      size := 0;
      elts := new Entry<V>[capacity];
    }

    method Swap(i: nat, j: nat)
      requires Valid() && i < size && j < size
      modifies elts
      ensures Contents() == old(Contents()[i := Contents()[j]][j := Contents()[i]])
      ensures multiset(Contents()) == multiset(old(Contents()))
    {
      var e := elts[i];
      elts[i] := elts[j];
      elts[j] := e;
      SwapKeepsMultiset(old(Contents()), Contents(), i, j);
    }

    /** Moves the element at `start` down until neither child is smaller. */
    method Sink(start: nat)
      requires Valid() && HeapFrom(Contents(), start + 1)
      modifies elts
      ensures HeapFrom(Contents(), start)
      ensures multiset(Contents()) == multiset(old(Contents()))
    {
      var index := start;
      SinkStart(Contents(), start);
      while true
        invariant start <= index
        invariant HeapButBelow(Contents(), start, index)
        invariant multiset(Contents()) == multiset(old(Contents()))
        decreases size - index
      {
        var smallest := index;
        var left := 2 * smallest + 1;
        var right := 2 * smallest + 2;
        if left < size && elts[left].key < elts[smallest].key {
          smallest := left;
        }
        if right < size && elts[right].key < elts[smallest].key {
          smallest := right;
        }
        ghost var s := Contents();
        if smallest == index {
          SinkStop(s, start, index);
          break;
        }
        Swap(index, smallest);
        SinkStep(s, Contents(), start, index, smallest);
        index := smallest;
      }
    }

    /** Restores the heap whatever the array held. */
    method Heapify()
      requires Valid()
      modifies elts
      ensures IsHeap(Contents())
      ensures multiset(Contents()) == multiset(old(Contents()))
    {
      var i := size;
      while i > 0
        invariant 0 <= i <= size
        invariant HeapFrom(Contents(), i)
        invariant multiset(Contents()) == multiset(old(Contents()))
      {
        Sink(i - 1);
        i := i - 1;
      }
    }

    method Enqueue(e: Entry<V>) returns (r: int)
      requires Valid() && IsHeap(Contents())
      modifies this, elts
      ensures Valid() && IsHeap(Contents())
      ensures r == if old(size) == elts.Length then -1 else 0
      ensures r == -1 ==> Contents() == old(Contents())
      ensures r == 0 ==> size == old(size) + 1
      ensures r == 0 ==> multiset(Contents()) == multiset(old(Contents())) + multiset{e}
    {
      if size == elts.Length {
        return -1;
      }
      elts[size] := e;
      size := size + 1;
      assert Contents() == old(Contents()) + [e];
      RiseStart(old(Contents()), e);

      var index := size - 1;
      var parent := Parent(index);
      ParentValue(index);
      while index < size && parent < size && elts[index].key < elts[parent].key
        invariant 0 <= index < size == old(size) + 1 && parent == (if index == 0 then 0x7FFF_FFFF else (index - 1) / 2)
        invariant HeapButAbove(Contents(), index)
        invariant multiset(Contents()) == multiset(old(Contents())) + multiset{e}
        decreases index
      {
        ghost var s := Contents();
        Swap(index, parent);
        RiseStep(s, Contents(), index, parent);
        index := parent;
        parent := Parent(index);
        ParentValue(index);
      }
      RiseStop(Contents(), index, parent);
      return 0;
    }

    /** The part of DEQUEUE before the sink: the root leaves through the last slot. */
    method TakeRoot() returns (e: Entry<V>)
      requires Valid() && size > 0
      modifies this, elts
      ensures Valid() && size == old(size) - 1
      ensures e == old(elts[0]) && Contents() == DropRoot(old(Contents()))
    {
      hide DropRoot;
      ghost var s := Contents();
      Swap(0, size - 1);
      ghost var swapped := Contents();
      SwapThenDrop(s, swapped);
      assert swapped[|s| - 1] == s[0];
      e := elts[size - 1];
      size := size - 1;
      assert Contents() == swapped[..|s| - 1];
    }

    method Dequeue() returns (r: int, e: Entry<V>)
      requires Valid() && IsHeap(Contents())
      modifies this, elts
      ensures Valid() && IsHeap(Contents())
      ensures r == if old(size) == 0 then -1 else 0
      ensures r == -1 ==> Contents() == old(Contents())
      ensures r == 0 ==> size == old(size) - 1
      ensures r == 0 ==> e == old(elts[0])
      ensures r == 0 ==> multiset(old(Contents())) == multiset(Contents()) + multiset{e}
      ensures r == 0 ==> forall x <- old(Contents()) :: e.key <= x.key
    {
      if size == 0 {
        var none: Entry<V> := *;
        return -1, none;
      }
      RootIsMinimum(Contents());
      DropRootEffect(Contents());
      e := TakeRoot();
      Sink(0);
      return 0, e;
    }

    /** Dequeuing until nothing is left, the way plan_route empties its queue. */
    method Drain() returns (out: seq<Entry<V>>)
      requires Valid() && IsHeap(Contents())
      modifies this, elts
      ensures Valid() && size == 0
      ensures IsSorted(out) && multiset(out) == multiset(old(Contents()))
    {
      hide IsHeap, IsSorted;
      out := [];
      ghost var heaps := [Contents()];
      while size > 0
        invariant Valid() && IsHeap(Contents())
        invariant IsDrain(heaps, out) && heaps[0] == old(Contents()) && heaps[|out|] == Contents()
      {
        var r, e := Dequeue();
        DrainMore(heaps, out, e, Contents());
        heaps, out := heaps + [Contents()], out + [e];
      }
      DrainSorts(heaps, out);
    }

    method Peek() returns (some: bool, e: Entry<V>)
      requires Valid() && IsHeap(Contents())
      ensures some == (size != 0)
      ensures some ==> e == elts[0] && e in Contents() && forall x <- Contents() :: e.key <= x.key
    {
      if size == 0 {
        var none: Entry<V> := *;
        return false, none;
      }
      RootIsMinimum(Contents());
      assert elts[0] == Contents()[0];
      return true, elts[0];
    }
  }

  lemma SinkStep<V>(s: seq<Entry<V>>, t: seq<Entry<V>>, lo: nat, i: nat, c: nat)
    requires lo <= i < |s| && (c == 2 * i + 1 || c == 2 * i + 2) && c < |s|
    requires HeapButBelow(s, lo, i)
    requires s[c].key < s[i].key
    requires 2 * i + 1 < |s| ==> s[c].key <= s[2 * i + 1].key
    requires 2 * i + 2 < |s| ==> s[c].key <= s[2 * i + 2].key
    requires t == s[i := s[c]][c := s[i]]
    ensures HeapButBelow(t, lo, c)
  {
    assert IsChild(i, c);
  }

  lemma SinkStart<V>(s: seq<Entry<V>>, lo: nat)
    requires HeapFrom(s, lo + 1)
    ensures HeapButBelow(s, lo, lo)
  {
  }

  lemma SinkStop<V>(s: seq<Entry<V>>, lo: nat, i: nat)
    requires HeapButBelow(s, lo, i)
    requires 2 * i + 1 < |s| ==> s[i].key <= s[2 * i + 1].key
    requires 2 * i + 2 < |s| ==> s[i].key <= s[2 * i + 2].key
    ensures HeapFrom(s, lo)
  {
  }

  lemma RiseStep<V>(s: seq<Entry<V>>, t: seq<Entry<V>>, i: nat, p: nat)
    requires i < |s| && IsChild(p, i)
    requires HeapButAbove(s, i)
    requires s[i].key < s[p].key
    requires t == s[i := s[p]][p := s[i]]
    ensures HeapButAbove(t, p)
  {
  }

  lemma RiseStart<V>(s: seq<Entry<V>>, e: Entry<V>)
    requires IsHeap(s)
    ensures HeapButAbove(s + [e], |s|)
  {
  }

  lemma RiseStop<V>(s: seq<Entry<V>>, i: nat, p: nat)
    requires i < |s| && HeapButAbove(s, i)
    requires i == 0 || (IsChild(p, i) && s[p].key <= s[i].key)
    ensures IsHeap(s)
  {
  }
}
