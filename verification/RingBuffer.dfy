/** The ring buffer (lib/buffer.h): a bounded sequence in a fixed array. */
module RingBuffer {

  lemma NextIndex(i: nat, n: nat)
    requires i < n
    ensures (i + 1) % n == if i + 1 == n then 0 else i + 1
  {
  }

  class RingBuffer<T(0)> {
    const data: array<T>
    var inn: nat
    var out: nat
    var elems: nat

    /** `size` of the C struct. */
    function Size(): nat { data.Length }

    ghost predicate Valid()
      reads this
    {
      && elems <= data.Length
      && (data.Length == 0 ==> inn == 0 && out == 0)
      && (data.Length > 0 ==> out < data.Length && inn < data.Length)
      && (inn == out + elems || inn == out + elems - data.Length)
    }

    /** The buffered elements, oldest first. */
    ghost function Contents(): (s: seq<T>)
      requires Valid()
      reads this, data
      ensures |s| == elems
    {
      if out + elems <= data.Length then data[out..out + elems]
      else data[out..] + data[..out + elems - data.Length]
    }

    constructor (size: nat)
      ensures Valid() && fresh(data) && Size() == size && Contents() == []
    {
      data := new T[size];
      inn, out, elems := 0, 0, 0;
    }

    predicate IsFull()
      reads this
    {
      elems >= data.Length
    }

    predicate IsEmpty()
      reads this
    {
      elems == 0
    }

    method Put(e: T)
      requires Valid() && !IsFull()
      modifies this, data
      ensures Valid() && Contents() == old(Contents()) + [e]
    {
      data[inn] := e;
      if out + elems < data.Length {
        assert data[out..inn + 1] == old(data[out..inn]) + [e];
      } else {
        assert data[..inn + 1] == old(data[..inn]) + [e] && data[out..] == old(data[out..]);
      }
      inn := inn + 1;
      if inn >= data.Length {
        inn := 0;
      }
      elems := elems + 1;
    }

    method PutSafe(e: T) returns (r: int)
      requires Valid()
      modifies this, data
      ensures Valid() && r == if |old(Contents())| < Size() then 0 else 1
      ensures Contents() == if r == 0 then old(Contents()) + [e] else old(Contents())
    {
      if !IsFull() {
        Put(e);
        return 0;
      } else {
        return 1;
      }
    }

    /** The last Size() elements of everything put so far. */
    method PutReplace(e: T)
      requires Valid() && Size() > 0
      modifies this, data
      ensures Valid()
      ensures Contents() == (if |old(Contents())| == Size() then old(Contents())[1..] else old(Contents())) + [e]
    {
      if IsFull() {
        Remove();
      }
      Put(e);
    }

    method Remove()
      requires Valid() && !IsEmpty()
      modifies this
      ensures Valid() && Contents() == old(Contents())[1..]
    {
      NextIndex(out, data.Length);
      out := (out + 1) % data.Length;
      elems := elems - 1;
    }

    method Peek() returns (e: T)
      requires Valid() && !IsEmpty()
      ensures e == Contents()[0]
    {
      e := data[out];
    }

    method Get() returns (e: T)
      requires Valid() && !IsEmpty()
      modifies this
      ensures Valid() && [e] + Contents() == old(Contents())
    {
      e := data[out];
      Remove();
    }

    method Empty()
      requires Valid()
      modifies this
      ensures Valid() && Contents() == []
    {
      inn, out, elems := 0, 0, 0;
    }
  }
}
