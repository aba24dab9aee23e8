/** Who is on a queue, and in what order, after each of its operations. */
module QueueFacts {
  import opened Basics
  import opened TaskQueue

  lemma InIndex<T>(s: seq<T>, t: T)
    ensures In(s, t) <==> IndexOf(s, t) < |s|
  {
  }

  lemma AppendMembers<T>(s: seq<T>, t: T, u: T)
    ensures In(s + [t], u) <==> u == t || In(s, u)
  {
    var r := s + [t];
    assert r[|s|] == t;
    if In(s, u) {
      var i :| 0 <= i < |s| && s[i] == u;
      assert r[i] == u;
    }
  }

  lemma TailMembers<T>(s: seq<T>, u: T)
    requires s != [] && Distinct(s)
    ensures In(s[1..], u) <==> u != s[0] && In(s, u)
  {
    if u != s[0] && In(s, u) {
      var i :| 0 <= i < |s| && s[i] == u;
      assert s[1..][i - 1] == u;
    }
  }

  lemma CutMembers<T>(s: seq<T>, k: nat, u: T)
    requires k < |s| && Distinct(s)
    ensures In(Cut(s, k), u) <==> u != s[k] && In(s, u)
  {
    var r := Cut(s, k);
    if u != s[k] && In(s, u) {
      var i :| 0 <= i < |s| && s[i] == u;
      assert r[if i < k then i else i - 1] == u;
    }
  }

  lemma AppendDistinct<T>(s: seq<T>, t: T)
    requires Distinct(s) && !In(s, t)
    ensures Distinct(s + [t])
  {
    assert forall i :: 0 <= i < |s| ==> s[i] != t;
  }

  /** ENQUEUE adds the task behind all others, or leaves the order alone when it is the last one. */
  lemma EnqueuedMembers<T>(s: seq<T>, t: T, u: T)
    requires Distinct(s) && (IsLast(s, t) || !In(s, t))
    ensures In(Enqueued(s, t), u) <==> u == t || In(s, u)
    ensures Distinct(Enqueued(s, t))
  {
    if !IsLast(s, t) {
      AppendMembers(s, t, u);
      AppendDistinct(s, t);
    } else {
      assert s[|s| - 1] == t;
    }
  }

  lemma WithoutMembers<T>(s: seq<T>, t: T, u: T)
    requires Distinct(s)
    ensures Distinct(Without(s, t))
    ensures In(Without(s, t), u) <==> u != t && In(s, u)
  {
    InIndex(s, t);
    if IndexOf(s, t) < |s| {
      CutMembers(s, IndexOf(s, t), u);
    }
  }

  /** REMOVE takes out the one task from a longer queue, and everything from a queue of one. */
  lemma RemovedMembers<T>(s: seq<T>, t: T, u: T)
    requires Distinct(s)
    ensures Distinct(Removed(s, t))
    ensures In(Removed(s, t), u) <==> |s| > 1 && u != t && In(s, u)
  {
    WithoutMembers(s, t, u);
  }
}
