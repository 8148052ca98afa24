/** The k-way merge of base/basetypes.h: MergedEnumerator over any number of sources. */
module Merge {
  predicate Sorted(s: seq<int>)
  {
    forall i, j :: 0 <= i < j < |s| ==> s[i] <= s[j]
  }

  /** An entry of the priority queue: an element, and the number of the source it came from. */
  datatype Head = Head(data: int, src: nat)

  function InHeads(q: seq<Head>, x: int): nat
  {
    if q == [] then 0 else InHeads(q[1..], x) + if q[0].data == x then 1 else 0
  }

  function InSources(left: seq<seq<int>>, x: int): nat
  {
    if left == [] then 0 else InSources(left[..|left| - 1], x) + multiset(left[|left| - 1])[x]
  }

  function Lengths(left: seq<seq<int>>): nat
  {
    if left == [] then 0 else Lengths(left[..|left| - 1]) + |left[|left| - 1]|
  }

  lemma {:induction false} LengthsUpdate(left: seq<seq<int>>, i: nat, s: seq<int>)
    requires i < |left|
    ensures Lengths(left[i := s]) + |left[i]| == Lengths(left) + |s|
  {
    var n := |left| - 1;
    if i < n {
      LengthsUpdate(left[..n], i, s);
      assert left[i := s][..n] == left[..n][i := s];
    } else {
      assert left[i := s][..n] == left[..n];
    }
  }

  lemma {:induction false} HeadsJoin(a: seq<Head>, b: seq<Head>, x: int)
    ensures InHeads(a + b, x) == InHeads(a, x) + InHeads(b, x)
  {
    if a == [] {
      assert a + b == b;
    } else {
      HeadsJoin(a[1..], b, x);
      assert (a + b)[1..] == a[1..] + b;
    }
  }

  lemma OneHead(h: Head, x: int)
    ensures InHeads([h], x) == if h.data == x then 1 else 0
  {
    assert [h][1..] == [];
  }

  lemma HeadTaken(q: seq<Head>, k: nat, x: int)
    requires k < |q|
    ensures InHeads(q, x) == InHeads(q[..k] + q[k + 1..], x) + if q[k].data == x then 1 else 0
  {
    assert q == q[..k] + ([q[k]] + q[k + 1..]);
    HeadsJoin(q[..k], [q[k]] + q[k + 1..], x);
    HeadsJoin([q[k]], q[k + 1..], x);
    HeadsJoin(q[..k], q[k + 1..], x);
    OneHead(q[k], x);
  }

  lemma {:induction false} SourcesUpdate(left: seq<seq<int>>, i: nat, s: seq<int>, x: int)
    requires i < |left|
    ensures InSources(left[i := s], x) + multiset(left[i])[x] == InSources(left, x) + multiset(s)[x]
  {
    var n := |left| - 1;
    if i < n {
      SourcesUpdate(left[..n], i, s, x);
      assert left[i := s][..n] == left[..n][i := s];
    } else {
      assert left[i := s][..n] == left[..n];
    }
  }

  lemma {:induction false} InSomeSource(left: seq<seq<int>>, x: int)
    requires InSources(left, x) > 0
    ensures exists k :: 0 <= k < |left| && x in left[k]
  {
    var n := |left| - 1;
    if x !in left[n] {
      InSomeSource(left[..n], x);
      var k :| 0 <= k < n && x in left[..n][k];
      assert x in left[k];
    }
  }

  lemma FirstCounts(items: seq<int>, x: int)
    requires items != []
    ensures multiset(items)[x] == multiset(items[1..])[x] + if items[0] == x then 1 else 0
  {
    assert items == [items[0]] + items[1..];
  }

  lemma OneMore(left: seq<seq<int>>, items: seq<int>, x: int)
    ensures InSources(left + [items], x) == InSources(left, x) + multiset(items)[x]
  {
    assert (left + [items])[..|left|] == left;
  }

  lemma {:induction false} InSomeHead(q: seq<Head>, x: int)
    requires InHeads(q, x) > 0
    ensures exists i :: 0 <= i < |q| && q[i].data == x
  {
    if q[0].data != x {
      InSomeHead(q[1..], x);
      var i :| 0 <= i < |q| - 1 && q[1..][i].data == x;
      assert q[i + 1].data == x;
    }
  }

  class MergedEnumerator {
    /** q_, in no particular order; `Top` finds what the heap keeps at its front. */
    var q: seq<Head>

    /** What each source has left. */
    var left: seq<seq<int>>

    /** A source that has something left, and no other twice, has an element in the queue that comes before the rest of it. */
    ghost predicate Valid()
      reads this
    {
      (forall i :: 0 <= i < |q| ==> q[i].src < |left| && forall y :: y in left[q[i].src] ==> q[i].data <= y) &&
      (forall i, j :: 0 <= i < j < |q| ==> q[i].src != q[j].src) && (forall k :: 0 <= k < |left| ==> Sorted(left[k])) &&
      forall k :: 0 <= k < |left| && left[k] != [] ==> Queued(k)
    }

    ghost predicate Queued(k: nat)
      reads this
    {
      exists i :: 0 <= i < |q| && q[i].src == k
    }

    /** How often `x` is still to come. */
    ghost function Pending(x: int): nat
      reads this
    {
      InHeads(q, x) + InSources(left, x)
    }

    /** How many elements are still to come. */
    ghost function Size(): nat
      reads this
    {
      |q| + Lengths(left)
    }

    constructor ()
      ensures Valid() && forall x :: Pending(x) == 0
    {
      q, left := [], [];
    }

    /** add_source, for a source that enumerates `items` in order. */
    method AddSource(items: seq<int>)
      requires Valid() && Sorted(items)
      modifies this
      ensures Valid() && forall x :: Pending(x) == old(Pending(x)) + multiset(items)[x]
    {
      hide Sorted, InHeads, InSources;
      var src := |left|;
      ghost var q0, left0 := q, left;
      if items != [] {
        assert items == [items[0]] + items[1..];
        FirstIsLeast(items);
        q := q + [Head(items[0], src)];
        left := left + [items[1..]];
        assert q[|q0|].src == src;
      } else {
        left := left + [[]];
      }
      assert forall i :: 0 <= i < |q0| ==> q[i] == q0[i];
      forall k | 0 <= k < |left0| && left[k] != []
        ensures Queued(k)
      {
        assert old(Queued(k));
        var i :| 0 <= i < |q0| && q0[i].src == k;
        assert q[i].src == k;
      }
      forall x
        ensures Pending(x) == old(Pending(x)) + multiset(items)[x]
      {
        AddedCounts(q0, left0, items, x);
      }
    }

    lemma FirstIsLeast(items: seq<int>)
      requires Sorted(items) && items != []
      ensures Sorted(items[1..]) && forall y :: y in items[1..] ==> items[0] <= y
    {
    }

    lemma AddedCounts(q0: seq<Head>, left0: seq<seq<int>>, items: seq<int>, x: int)
      requires if items == [] then q == q0 && left == left0 + [[]]
        else q == q0 + [Head(items[0], |left0|)] && left == left0 + [items[1..]]
      ensures Pending(x) == InHeads(q0, x) + InSources(left0, x) + multiset(items)[x]
    {
      hide InHeads, InSources;
      OneMore(left0, left[|left0|], x);
      if items != [] {
        FirstCounts(items, x);
        HeadsJoin(q0, [Head(items[0], |left0|)], x);
        OneHead(Head(items[0], |left0|), x);
      }
    }

    predicate HasNext()
      reads this
    {
      q != []
    }

    /** The position of a minimal element. */
    method Top() returns (k: nat)
      requires HasNext()
      ensures k < |q| && forall i :: 0 <= i < |q| ==> q[k].data <= q[i].data
    {
      k := 0;
      for i := 0 to |q|
        invariant k < |q| && forall j :: 0 <= j < i ==> q[k].data <= q[j].data
      {
        if q[i].data < q[k].data {
          k := i;
        }
      }
    }

    /** The smallest element of all that are still to come. */
    method Next() returns (x: int)
      requires Valid() && HasNext()
      modifies this
      ensures Valid() && forall y :: old(Pending(y)) == Pending(y) + if y == x then 1 else 0
      ensures (forall y :: old(Pending(y)) > 0 ==> x <= y) && old(Pending(x)) > 0 && Size() < old(Size())
    {
      var k := Top();
      LeastOfAll(k);
      x := q[k].data;
      Pop(k);
    }

    /** Replaces the entry at position `k` by the next element of its source. */
    method Pop(k: nat)
      requires Valid() && k < |q|
      modifies this
      ensures Valid() && Size() < old(Size())
      ensures forall y :: old(Pending(y)) == Pending(y) + if y == old(q[k].data) then 1 else 0
    {
      ghost var q0, left0 := q, left;
      var src := q[k].src;
      q := q[..k] + q[k + 1..];
      ghost var q1 := q;
      if left[src] != [] {
        q := q + [Head(left[src][0], src)];
        left := left[src := left[src][1..]];
        assert left0[src] == [left0[src][0]] + left[src];
        LengthsUpdate(left0, src, left0[src][1..]);
      }
      Popped(q0, left0, k, q1);
      forall y
        ensures old(Pending(y)) == Pending(y) + if y == q0[k].data then 1 else 0
      {
        HeadTaken(q0, k, y);
        if left0[src] != [] {
          HeadsJoin(q1, [Head(left0[src][0], src)], y);
          OneHead(Head(left0[src][0], src), y);
          SourcesUpdate(left0, src, left0[src][1..], y);
        }
      }
    }

    lemma Popped(q0: seq<Head>, left0: seq<seq<int>>, k: nat, q1: seq<Head>)
      requires k < |q0| && q1 == q0[..k] + q0[k + 1..] && q0[k].src < |left0|
      requires forall i :: 0 <= i < |q0| ==> q0[i].src < |left0| && forall y :: y in left0[q0[i].src] ==> q0[i].data <= y
      requires forall i, j :: 0 <= i < j < |q0| ==> q0[i].src != q0[j].src
      requires forall n :: 0 <= n < |left0| ==> Sorted(left0[n])
      requires forall n :: 0 <= n < |left0| && left0[n] != [] ==> exists i :: 0 <= i < |q0| && q0[i].src == n
      requires var src := q0[k].src;
        if left0[src] == [] then q == q1 && left == left0
        else q == q1 + [Head(left0[src][0], src)] && left == left0[src := left0[src][1..]]
      ensures Valid()
    {
      var src := q0[k].src;
      assert forall i :: 0 <= i < |q1| ==> q1[i] == q0[if i < k then i else i + 1];
      assert forall i :: 0 <= i < |q1| ==> q1[i].src != src;
      if left0[src] != [] {
        FirstIsLeast(left0[src]);
      }
      StillQueued(q0, left0, k, q1);
      hide Sorted, Queued;
    }

    /** A source that has something left still has its element in the queue. */
    lemma StillQueued(q0: seq<Head>, left0: seq<seq<int>>, k: nat, q1: seq<Head>)
      requires k < |q0| && q1 == q0[..k] + q0[k + 1..] && q0[k].src < |left0|
      requires forall n :: 0 <= n < |left0| && left0[n] != [] ==> exists i :: 0 <= i < |q0| && q0[i].src == n
      requires var src := q0[k].src;
        if left0[src] == [] then q == q1 && left == left0
        else q == q1 + [Head(left0[src][0], src)] && left == left0[src := left0[src][1..]]
      ensures forall n :: 0 <= n < |left| && left[n] != [] ==> Queued(n)
    {
      var src := q0[k].src;
      forall n | 0 <= n < |left| && left[n] != []
        ensures Queued(n)
      {
        if n != src {
          var i :| 0 <= i < |q0| && q0[i].src == n;
          assert q[if i < k then i else i - 1].src == n;
        } else {
          assert q[|q1|].src == src;
        }
      }
    }

    /** The least element of the queue is the least of all that are still to come. */
    lemma LeastOfAll(k: nat)
      requires Valid() && k < |q| && forall i :: 0 <= i < |q| ==> q[k].data <= q[i].data
      ensures forall y :: Pending(y) > 0 ==> q[k].data <= y
    {
      forall y | Pending(y) > 0
        ensures q[k].data <= y
      {
        if InHeads(q, y) > 0 {
          InSomeHead(q, y);
        } else {
          InSomeSource(left, y);
          var n :| 0 <= n < |left| && y in left[n];
          assert Queued(n);
          var i :| 0 <= i < |q| && q[i].src == n;
        }
      }
    }

    /** Nothing is queued exactly when all sources are exhausted. */
    lemma Exhausted()
      requires Valid()
      ensures HasNext() <==> exists x :: Pending(x) > 0
    {
      if HasNext() {
        assert q == [q[0]] + q[1..];
        assert Pending(q[0].data) > 0;
      } else {
        forall x
          ensures Pending(x) == 0
        {
          if InSources(left, x) > 0 {
            InSomeSource(left, x);
            var n :| 0 <= n < |left| && x in left[n];
            SomethingQueued(n);
          }
        }
      }
    }

    lemma SomethingQueued(n: nat)
      requires Valid() && n < |left| && left[n] != []
      ensures q != []
    {
      assert Queued(n);
    }
  }

  lemma SortedNone()
    ensures Sorted([])
  {
  }

  lemma SortedSnoc(s: seq<int>, x: int)
    requires Sorted(s) && forall i :: 0 <= i < |s| ==> s[i] <= x
    ensures Sorted(s + [x]) && forall y :: multiset(s + [x])[y] == multiset(s)[y] + if y == x then 1 else 0
  {
  }

  /** Merging sorted sources gives a sorted sequence with exactly the elements of all of them, with their multiplicities. */
  method MergeAll(sources: seq<seq<int>>) returns (out: seq<int>)
    requires forall k :: 0 <= k < |sources| ==> Sorted(sources[k])
    ensures Sorted(out) && forall x :: multiset(out)[x] == InSources(sources, x)
  {
    hide MergedEnumerator.Valid, MergedEnumerator.Pending, Sorted, InSources;
    var m := AddAll(sources);
    out := Enumerate(m);
  }

  method AddAll(sources: seq<seq<int>>) returns (m: MergedEnumerator)
    requires forall k :: 0 <= k < |sources| ==> Sorted(sources[k])
    ensures fresh(m) && m.Valid() && forall x :: m.Pending(x) == InSources(sources, x)
  {
    hide Sorted, MergedEnumerator.Valid, MergedEnumerator.Pending;
    m := new MergedEnumerator();
    for k := 0 to |sources|
      invariant fresh(m) && m.Valid() && forall x :: m.Pending(x) == InSources(sources[..k], x)
    {
      assert sources[..k + 1][..k] == sources[..k];
      m.AddSource(sources[k]);
    }
    assert sources[..|sources|] == sources;
  }

  /** while (m.has_next()) m.next(); */
  method Enumerate(m: MergedEnumerator) returns (out: seq<int>)
    requires m.Valid()
    modifies m
    ensures Sorted(out) && forall x :: multiset(out)[x] == old(m.Pending(x))
  {
    hide Sorted, MergedEnumerator.Valid, MergedEnumerator.Pending, MergedEnumerator.Size;
    out := [];
    SortedNone();
    while m.HasNext()
      invariant m.Valid() && Sorted(out) && forall x :: multiset(out)[x] + m.Pending(x) == old(m.Pending(x))
      invariant forall i, y :: 0 <= i < |out| && m.Pending(y) > 0 ==> out[i] <= y
      decreases m.Size()
    {
      var x := m.Next();
      SortedSnoc(out, x);
      out := out + [x];
    }
    m.Exhausted();
  }
}
