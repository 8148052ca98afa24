/** The chunk buffer of rpc/marshal.cc: a linked chain of windows that behaves as one FIFO byte string. */
module Marshals {
  import opened Bytes
  import opened Chunks

  /** The concatenation of a list of byte strings. */
  function Flatten(parts: seq<seq<byte>>): seq<byte>
  {
    if parts == [] then [] else Flatten(parts[..|parts| - 1]) + parts[|parts| - 1]
  }

  lemma Cut(a: seq<byte>, b: seq<byte>)
    ensures (a + b)[..|a|] == a && (a + b)[|a|..] == b
  {
  }

  lemma Rejoin(s: seq<byte>, k: nat)
    requires k <= |s|
    ensures s == s[..k] + s[k..]
  {
  }

  /** Two steps of a transfer are one: what was moved before, and what is moved now. */
  lemma Moved(dst: seq<byte>, got: seq<byte>, p: seq<byte>, rest: seq<byte>)
    ensures got + (p + rest) == (got + p) + rest && (dst + got) + p == dst + (got + p)
  {
  }

  lemma FlattenSnoc(parts: seq<seq<byte>>, p: seq<byte>)
    ensures Flatten(parts + [p]) == Flatten(parts) + p
  {
    assert (parts + [p])[..|parts|] == parts;
  }

  lemma {:induction false} FlattenCons(parts: seq<seq<byte>>)
    requires parts != []
    ensures Flatten(parts) == parts[0] + Flatten(parts[1..])
  {
    var front, last := parts[..|parts| - 1], parts[|parts| - 1];
    if front == [] {
      assert parts == [parts[0]];
      FlattenSnoc([], parts[0]);
    } else {
      FlattenCons(front);
      assert parts[1..] == front[1..] + [last];
      FlattenSnoc(front[1..], last);
    }
  }

  lemma TakeFront(parts: seq<seq<byte>>, k: nat)
    requires parts != [] && k <= |parts[0]|
    ensures Flatten(parts) == parts[0][..k] + Flatten(parts[0 := parts[0][k..]])
  {
    FlattenCons(parts);
    var rest := parts[0 := parts[0][k..]];
    FlattenCons(rest);
    assert rest[1..] == parts[1..];
    assert parts[0] == parts[0][..k] + parts[0][k..];
  }

  /** The first `i` parts make a prefix of the whole. */
  lemma {:induction false} FlattenPrefix(parts: seq<seq<byte>>, i: nat)
    requires i <= |parts|
    ensures Flatten(parts[..i]) <= Flatten(parts)
  {
    if i == |parts| {
      assert parts[..i] == parts;
    } else {
      var front := parts[..|parts| - 1];
      FlattenPrefix(front, i);
      assert front[..i] == parts[..i];
    }
  }

  lemma FlattenNext(parts: seq<seq<byte>>, i: nat)
    requires i < |parts|
    ensures Flatten(parts[..i + 1]) == Flatten(parts[..i]) + parts[i]
  {
    assert parts[..i + 1][..i] == parts[..i];
  }

  lemma PeekStep(parts: seq<seq<byte>>, i: nat, k: nat)
    requires i < |parts| && k <= |parts[i]|
    ensures Flatten(parts[..i]) + parts[i][..k] <= Flatten(parts)
    ensures k == |parts[i]| ==> Flatten(parts[..i]) + parts[i][..k] == Flatten(parts[..i + 1])
  {
    FlattenNext(parts, i);
    FlattenPrefix(parts, i + 1);
    assert k == |parts[i]| ==> parts[i][..k] == parts[i];
  }

  function Patch(s: seq<byte>, k: nat, b: byte): (r: seq<byte>)
    requires k < |s|
    ensures |r| == |s| && r[k] == b && forall j :: 0 <= j < |s| && j != k ==> r[j] == s[j]
  {
    s[..k] + [b] + s[k + 1..]
  }

  lemma WindowPatched(mem: seq<byte>, r: nat, w: nat, idx: nat, b: byte)
    requires r <= w <= |mem| && idx < |mem|
    ensures if r <= idx < w then Patch(mem, idx, b)[r..w] == Patch(mem[r..w], idx - r, b)
      else Patch(mem, idx, b)[r..w] == mem[r..w]
  {
  }

  /** Changing one byte of one part changes that byte of the whole. */
  lemma {:induction false} FlattenUpdate(parts: seq<seq<byte>>, ci: nat, off: nat, b: byte)
    requires ci < |parts| && off < |parts[ci]|
    ensures |Flatten(parts[..ci])| + off < |Flatten(parts)|
    ensures Flatten(parts[ci := Patch(parts[ci], off, b)]) == Patch(Flatten(parts), |Flatten(parts[..ci])| + off, b)
  {
    var front, last := parts[..|parts| - 1], parts[|parts| - 1];
    var patched := parts[ci := Patch(parts[ci], off, b)];
    if ci == |parts| - 1 {
      assert patched[..|parts| - 1] == front;
    } else {
      FlattenUpdate(front, ci, off, b);
      assert front[..ci] == parts[..ci];
      assert patched[..|parts| - 1] == front[ci := Patch(front[ci], off, b)];
    }
  }

  /** Where a reserved byte lies: which chunk, and how far into its window. */
  datatype Place = Place(ci: nat, off: nat)

  lemma {:induction false} SameLengths(ps: seq<seq<byte>>, qs: seq<seq<byte>>, k: nat)
    requires k <= |ps| == |qs| && forall i :: 0 <= i < |ps| ==> |ps[i]| == |qs[i]|
    ensures |Flatten(ps[..k])| == |Flatten(qs[..k])|
  {
    if k > 0 {
      SameLengths(ps, qs, k - 1);
      FlattenNext(ps, k - 1);
      FlattenNext(qs, k - 1);
    }
  }

  /** `view` is `before`, with the first `i` of the reserved bytes at `mark` replaced by those of `p`. */
  ghost predicate Filled(view: seq<byte>, before: seq<byte>, mark: nat, p: seq<byte>, i: nat)
  {
    |view| == |before| && i <= |p| && mark + |p| <= |before| &&
    (forall k :: 0 <= k < mark || mark + |p| <= k < |before| ==> view[k] == before[k]) &&
    forall k :: mark <= k < mark + i ==> view[k] == p[k - mark]
  }

  lemma FilledNone(before: seq<byte>, mark: nat, p: seq<byte>)
    requires mark + |p| <= |before|
    ensures Filled(before, before, mark, p, 0)
  {
  }

  lemma FilledStep(view: seq<byte>, before: seq<byte>, mark: nat, p: seq<byte>, i: nat)
    requires Filled(view, before, mark, p, i) && i < |p|
    ensures Filled(Patch(view, mark + i, p[i]), before, mark, p, i + 1)
  {
  }

  lemma FilledUp(view: seq<byte>, before: seq<byte>, mark: nat, p: seq<byte>)
    requires Filled(view, before, mark, p, |p|)
    ensures |view| == |before| && mark + |p| <= |before|
    ensures view == before[..mark] + p + before[mark + |p|..]
  {
  }

  lemma SameButHere(mem: seq<byte>, was: seq<byte>, s: Slot, bm: seq<Slot>, b: byte)
    requires s in bm && s.idx < |mem| && SameBut(mem, was, s.block, bm)
    ensures SameBut(Patch(mem, s.idx, b), was, s.block, bm)
  {
  }

  lemma GrowLast(parts: seq<seq<byte>>, p: seq<byte>)
    requires parts != []
    ensures Flatten(parts[|parts| - 1 := parts[|parts| - 1] + p]) == Flatten(parts) + p
  {
    var grown := parts[|parts| - 1 := parts[|parts| - 1] + p];
    assert grown[..|parts| - 1] == parts[..|parts| - 1];
  }

  class Marshal {
    /** The family of buffers this one may exchange blocks with. */
    ghost const arena: nat

    var head: Chunk?
    var tail: Chunk?
    var writeCnt: nat
    var contentSize: nat

    /** The chunks from head to tail, numbered from `first`, and the bytes their windows show. */
    ghost var spine: seq<Chunk>
    ghost var parts: seq<seq<byte>>
    ghost var first: int

    /** Every chunk this buffer has ever owned; chunks are never shared, only the blocks behind them are. */
    ghost var repr: set<Chunk>

    /**
     The outstanding bookmark: the reserved bytes, where they lie in the chain, and the position of
     the first of them in the content.
     */
    ghost var slots: seq<Slot>
    ghost var places: seq<Place>
    ghost var mark: nat

    /** The chunks of the chain are this buffer's own, and their blocks belong to the family. */
    ghost predicate Owns()
      reads this`spine, this`repr
    {
      forall i :: 0 <= i < |spine| ==> spine[i] in repr && spine[i].data.arena == arena
    }

    /** The links of the chunks are what `spine` says. */
    ghost predicate Linked()
      reads this`head, this`tail, this`spine, this`first, this`repr, spine
    {
      (head == null <==> spine == []) && (tail == null <==> spine == []) &&
      (spine != [] ==> head == spine[0] && tail == spine[|spine| - 1]) &&
      Owns() &&
      forall i {:trigger spine[i].next} {:trigger spine[i].rank} :: 0 <= i < |spine| ==>
        spine[i].rank == first + i && spine[i].next == if i + 1 < |spine| then spine[i + 1] else null
    }

    /**
     The windows of the chain.  Every one but the last is fully written, and none is used up except
     that the first `done` may be; so only the tail can be empty or be extended.
     */
    ghost predicate Windows(done: nat)
      reads this`spine, this`parts, spine, set i | 0 <= i < |spine| :: spine[i].data
    {
      |parts| == |spine| &&
      forall i :: 0 <= i < |spine| ==>
        spine[i].Valid() && spine[i].Window() == parts[i] && (i < |spine| - 1 ==> spine[i].FullyWritten()) &&
        (i >= done ==> !spine[i].FullyRead())
    }

    ghost predicate Chain()
      reads this`head, this`tail, this`spine, this`first, this`repr, this`parts, spine, set i | 0 <= i < |spine| :: spine[i].data
    {
      Linked() && Windows(0)
    }

    ghost predicate Valid()
      reads this, spine, set i | 0 <= i < |spine| :: spine[i].data
    {
      Chain() && contentSize == |View()|
    }

    /** The unread content. */
    ghost function View(): seq<byte>
      reads this`parts
    {
      Flatten(parts)
    }

    /** This buffer is the one that may append behind its last window. */
    ghost predicate CanWrite()
      reads this`tail, tail, if tail == null then {} else {tail.data}
    {
      tail != null ==> tail.MayExtend()
    }

    ghost function Tails(): set<Chunk>
      reads this`tail
    {
      if tail == null then {} else {tail}
    }

    ghost function TailBlocks(): set<RawBytes>
      reads this`tail
    {
      if tail == null then {} else {tail.data}
    }

    /** The blocks behind the chunks this buffer has owned. */
    ghost function Blocks(): set<RawBytes>
      reads this`repr
    {
      set c | c in repr :: c.data
    }

    /** At most chunks at the front of the chain have gone. */
    twostate predicate Narrowed()
      reads this`tail, this`spine
    {
      (tail == null || tail == old(tail)) && forall c :: c in spine ==> c in old(spine)
    }

    /** Chunks that were added are new, and so are the blocks behind them. */
    twostate predicate NewChunks()
      reads this`repr
    {
      forall c :: c in repr && c !in old(repr) ==> fresh(c) && fresh(c.data)
    }

    twostate predicate NewOrFrom(m: Marshal)
      reads this`repr, m`repr
    {
      forall c :: c in repr && c !in old(repr) ==> fresh(c) && (fresh(c.data) || c.data in m.Blocks())
    }

    /** The reserved bytes lie in no block that `m` has ever had a window on. */
    ghost predicate Clear(m: Marshal)
      reads this`slots, m`repr
    {
      forall k :: 0 <= k < |slots| ==> slots[k].block !in m.Blocks()
    }

    constructor (ghost arena: nat)
      ensures this.arena == arena && Valid() && View() == [] && CanWrite() && writeCnt == 0 && repr == {} && spine == [] && tail == null
    {
      this.arena := arena;
      head, tail, writeCnt, contentSize := null, null, 0, 0;
      spine, parts, first, repr := [], [], 0, {};
      slots, places, mark := [], [], 0;
    }

    predicate IsEmpty()
      reads this
    {
      contentSize == 0
    }

    // ---- links

    lemma DistinctFrom(k: nat)
      requires Linked() && k < |spine|
      ensures forall i :: 0 <= i < |spine| && i != k ==> spine[i] != spine[k]
    {
      forall i | 0 <= i < |spine| && i != k
        ensures spine[i] != spine[k]
      {
        assert spine[i].rank != spine[k].rank;
      }
    }

    /** Links a chunk behind the tail. */
    method LinkBack(c: Chunk)
      requires Linked() && c.next == null && c !in spine && c.data.arena == arena
      modifies this`head, this`tail, this`spine, this`repr, Tails()`next, c`rank
      ensures Linked() && spine == old(spine) + [c] && repr == old(repr) + {c}
    {
      if head == null {
        head := c;
      } else {
        tail.next := c;
      }
      tail := c;
      c.rank := first + |spine|;
      spine, repr := spine + [c], repr + {c};
    }

    /** Unlinks the head. */
    method UnlinkFront()
      requires Linked() && head != null
      modifies this`head, this`tail, this`spine, this`first
      ensures Linked() && spine == old(spine)[1..]
      ensures Narrowed()
    {
      if tail == head {
        assert spine[|spine| - 1].rank == spine[0].rank;
        tail := null;
      } else {
        assert spine[0].rank == first;
      }
      head := head.next;
      spine, first := spine[1..], first + 1;
    }

    /** Appends a chunk behind a tail that takes no more bytes. */
    method Append(c: Chunk)
      requires Chain() && c.Valid() && !c.FullyRead() && c.next == null && c !in spine && c.data.arena == arena
      requires tail != null ==> tail.FullyWritten()
      modifies this`head, this`tail, this`spine, this`parts, this`repr, Tails()`next, c`rank
      ensures Chain() && tail == c && repr == old(repr) + {c}
      ensures View() == old(View()) + c.Window()
      ensures spine == old(spine) + [c] && parts == old(parts) + [c.Window()]
    {
      ghost var shown := c.Window();
      FlattenSnoc(parts, shown);
      LinkBack(c);
      parts := parts + [shown];
    }

    /** Deletes the head once nothing more can ever be read from it. */
    method DropIfRead()
      requires Linked() && Windows(1) && head != null
      modifies this`head, this`tail, this`spine, this`parts, this`first
      ensures Chain() && View() == old(View())
      ensures Narrowed()
    {
      if head.FullyRead() {
        FlattenCons(parts);
        assert spine[0].Window() == [];
        UnlinkFront();
        parts := parts[1..];
      }
    }

    // ---- reading

    /** Whatever is readable is readable at the head. */
    lemma EmptyHead()
      requires Chain() && head != null && head.readIdx == head.writeIdx
      ensures View() == []
    {
      assert spine[0].Window() == [];
      assert |spine| == 1;
      FlattenSnoc([], parts[0]);
      assert parts == [] + [parts[0]];
    }

    /** The chain invariant, but for `k` bytes that have just been taken from the head. */
    ghost predicate Trimmed(k: nat)
      reads this`head, this`tail, this`spine, this`first, this`repr, this`parts, spine, set i | 0 <= i < |spine| :: spine[i].data
    {
      Linked() && |parts| == |spine| > 0 && k <= |parts[0]| &&
      forall i :: 0 <= i < |spine| ==>
        spine[i].Valid() && spine[i].Window() == (if i == 0 then parts[0][k..] else parts[i]) &&
        (i < |spine| - 1 ==> spine[i].FullyWritten()) && (i > 0 ==> !spine[i].FullyRead())
    }

    twostate lemma HeadMoved(k: nat)
      requires old(Chain()) && unchanged(this) && head != null
      requires head.Valid() && unchanged(head`next, head`rank, head`writeIdx)
      requires k <= |old(head.Window())| && head.Window() == old(head.Window())[k..]
      requires forall i :: 0 < i < |spine| ==> unchanged(spine[i])
      requires forall i :: 0 <= i < |spine| ==> unchanged(spine[i].data)
      ensures Trimmed(k)
    {
      assert spine[0] == head;
      forall i | 0 < i < |spine|
        ensures spine[i].Valid() && spine[i].Window() == parts[i]
      {
        assert unchanged(spine[i]) && unchanged(spine[i].data);
      }
    }

    ghost method TrimParts(k: nat)
      requires Trimmed(k)
      modifies this`parts
      ensures Linked() && Windows(1) && parts == old(parts[0 := parts[0][k..]])
    {
      parts := parts[0 := parts[0][k..]];
    }

    /** Accounts for `k` bytes that were taken from the head, and deletes it when it is used up. */
    method HeadTaken(ghost k: nat)
      requires Trimmed(k)
      modifies this`head, this`tail, this`spine, this`parts, this`first
      ensures Chain() && old(View()) == old(parts[0][..k]) + View()
      ensures Narrowed()
    {
      TakeFront(parts, k);
      TrimParts(k);
      DropIfRead();
    }

    /** Reads from the head window only. */
    method ReadHead(n: nat) returns (got: seq<byte>)
      requires Chain() && head != null
      modifies this`head, this`tail, this`spine, this`parts, this`first, head`readIdx
      ensures Chain() && old(View()) == got + View()
      ensures |got| == Min(n, old(head.writeIdx - head.readIdx))
      ensures Narrowed()
    {
      DistinctFrom(0);
      got := head.Read(n);
      HeadMoved(|got|);
      HeadTaken(|got|);
    }

    method Read(n: nat) returns (got: seq<byte>)
      requires Valid()
      modifies this`head, this`tail, this`spine, this`parts, this`first, this`contentSize, repr`readIdx
      ensures Valid()
      ensures |got| == Min(n, |old(View())|) && old(View()) == got + View()
      ensures Narrowed()
    {
      got := ReadChunks(n);
      CountOut(|got|);
    }

    /** The loop of `read`. */
    method ReadChunks(n: nat) returns (got: seq<byte>)
      requires Chain()
      modifies this`head, this`tail, this`spine, this`parts, this`first, repr`readIdx
      ensures Chain() && old(View()) == got + View() && |got| == Min(n, |old(View())|)
      ensures Narrowed()
    {
      got := [];
      while |got| < n && head != null && head.ContentSize() > 0
        invariant Chain() && |got| <= n && old(View()) == got + View()
        invariant Narrowed()
        decreases n - |got|
      {
        var p := ReadHead(n - |got|);
        Assoc(got, p, View());
        if p == [] {
          break;
        }
        got := got + p;
      }
      if |got| < n && head != null {
        EmptyHead();
      }
    }

    /** `p` was appended, and nothing else can have been noticed. */
    twostate predicate Wrote(p: seq<byte>)
      reads *
    {
      Valid() && CanWrite() && NewChunks() &&
      View() == old(View()) + p && writeCnt == old(writeCnt) + |p| &&
      (tail == old(tail) || (tail != null && fresh(tail) && fresh(tail.data))) &&
      (old(tail) != null ==> Grows(old(tail.data))) &&
      (old(Marked()) ==> Marked()) &&
      slots == old(slots) && mark == old(mark)
    }

    lemma ChainOwned()
      requires Valid()
      ensures Owns() && forall i :: 0 <= i < |spine| ==> spine[i].data.Valid()
      ensures tail != null ==> tail in repr && tail.data.arena == arena
    {
    }

    lemma SizeIs()
      requires Valid()
      ensures contentSize == |View()|
    {
    }

    lemma BlockValid()
      requires Valid()
      ensures tail != null ==> tail.data.Valid()
    {
      TailValid();
    }

    /** What a walk along the chain sees at its `i`-th stop. */
    lemma ChunkAt(i: nat)
      requires Chain() && i < |spine|
      ensures |parts| == |spine| && spine[i].Valid() && spine[i].Window() == parts[i]
      ensures spine[i].next == (if i + 1 < |spine| then spine[i + 1] else null)
      ensures parts[i] == [] ==> i == |spine| - 1
    {
      assert i < |spine| - 1 ==> spine[i].FullyWritten();
    }

    lemma HeadFirst()
      requires Chain()
      ensures |parts| == |spine| && head == (if 0 < |spine| then spine[0] else null)
    {
    }

    lemma TailValid()
      requires Chain()
      ensures tail != null ==> tail.Valid()
    {
      assert tail != null ==> spine[|spine| - 1].Valid();
    }

    // ---- bookkeeping

    method CountIn(n: nat)
      requires Chain() && |View()| == contentSize + n
      modifies this`contentSize, this`writeCnt
      ensures Valid() && writeCnt == old(writeCnt) + n
    {
      writeCnt := writeCnt + n;
      contentSize := contentSize + n;
    }

    method CountOut(n: nat)
      requires Chain() && |View()| + n == contentSize
      modifies this`contentSize
      ensures Valid()
    {
      contentSize := contentSize - n;
    }

    method GetAndResetWriteCnt() returns (cnt: nat)
      requires Valid()
      modifies this`writeCnt
      ensures Valid() && cnt == old(writeCnt) && writeCnt == 0
    {
      cnt := writeCnt;
      writeCnt := 0;
    }

    // ---- writing

    /** Writes as much as fits behind the last window. */
    method ExtendTail(p: seq<byte>) returns (n: nat)
      requires Chain() && CanWrite() && tail != null && !tail.FullyWritten() && p != []
      modifies this`parts, Tails()`writeIdx, TailBlocks()`mem, TailBlocks()`frozen
      ensures Chain() && CanWrite() && n == Min(|p|, old(tail.data.size - tail.writeIdx))
      ensures tail.writeIdx == old(tail.writeIdx) + n
      ensures View() == old(View()) + p[..n]
      ensures Grows(tail.data)
      ensures old(Marked()) ==> Marked()
    {
      TailPlace();
      hide Linked, Windows, View, Marked;
      n := ExtendTailWindow(p);
      if old(Marked()) {
        MarkedBehind();
      }
    }

    method ExtendTailWindow(p: seq<byte>) returns (n: nat)
      requires Chain() && CanWrite() && tail != null && !tail.FullyWritten() && p != []
      modifies this`parts, Tails()`writeIdx, TailBlocks()`mem, TailBlocks()`frozen
      ensures Chain() && CanWrite() && n == Min(|p|, old(tail.data.size - tail.writeIdx))
      ensures tail.writeIdx == old(tail.writeIdx) + n
      ensures View() == old(View()) + p[..n]
      ensures parts == old(parts)[|old(parts)| - 1 := old(parts[|parts| - 1]) + p[..n]]
      ensures Grows(tail.data)
    {
      TailValid();
      hide Linked, Windows, View, Marked, Extended;
      n := tail.Write(p);
      TailWritten(p[..n]);
      TailGrown(p[..n]);
    }

    /** The chain invariant, but for bytes `p` that have just been written behind the last window. */
    ghost predicate Extended(p: seq<byte>)
      reads this`head, this`tail, this`spine, this`first, this`repr, this`parts, spine, set i | 0 <= i < |spine| :: spine[i].data
    {
      Linked() && |parts| == |spine| > 0 &&
      (forall i :: 0 <= i < |spine| ==> spine[i].Valid() && !spine[i].FullyRead()) &&
      (forall i :: 0 <= i < |spine| - 1 ==> spine[i].Window() == parts[i] && spine[i].FullyWritten()) &&
      spine[|spine| - 1].Window() == parts[|spine| - 1] + p
    }

    twostate lemma TailWritten(p: seq<byte>)
      requires old(Chain()) && tail != null && unchanged(this) && old(tail.MayExtend())
      requires unchanged(tail`readIdx, tail`next, tail`rank)
      requires tail.Valid() && tail.Window() == old(tail.Window()) + p && Grows(tail.data)
      requires forall i :: 0 <= i < |spine| && spine[i] != tail ==> unchanged(spine[i])
      requires forall i :: 0 <= i < |spine| && spine[i].data != tail.data ==> unchanged(spine[i].data)
      ensures Extended(p)
    {
      assert tail == spine[|spine| - 1];
      forall i | 0 <= i < |spine| - 1
        ensures spine[i].Valid() && spine[i].Window() == parts[i] && spine[i].FullyWritten() && !spine[i].FullyRead()
      {
        assert spine[i].rank != tail.rank;
        assert unchanged(spine[i]);
      }
    }

    /** The bookmark stays intact when only the last window grows. */
    twostate lemma MarkedBehind()
      requires old(Chain()) && old(Marked()) && Chain() && tail != null && old(tail) == tail && old(tail.MayExtend())
      requires spine == old(spine) && slots == old(slots) && places == old(places) && mark == old(mark)
      requires |parts| == |old(parts)| > 0 && parts[..|parts| - 1] == old(parts)[..|parts| - 1] && old(parts[|parts| - 1]) <= parts[|parts| - 1]
      requires |old(View())| <= |View()| && tail.readIdx == old(tail.readIdx)
      requires forall i :: 0 <= i < |spine| && spine[i] != tail ==> unchanged(spine[i])
      ensures Marked()
    {
      hide View, Marked;
      assert tail == spine[|spine| - 1];
      forall i | 0 <= i < |spine| - 1
        ensures unchanged(spine[i]) && parts[i] == old(parts[i])
      {
        assert spine[i].rank != tail.rank;
        assert parts[..|parts| - 1][i] == old(parts)[..|parts| - 1][i];
      }
      MarkedKept();
    }

    /** Accounts for bytes that were written behind the last window. */
    ghost method TailGrown(p: seq<byte>)
      requires Extended(p)
      modifies this`parts
      ensures Chain() && View() == old(View()) + p
      ensures parts == old(parts[|parts| - 1 := parts[|parts| - 1] + p]) && |old(parts)| > 0
    {
      GrowLast(parts, p);
      parts := parts[|parts| - 1 := parts[|parts| - 1] + p];
    }

    /** Appends a new chunk that holds `p`. */
    method AppendBytes(p: seq<byte>)
      requires Chain() && (tail != null ==> tail.FullyWritten())
      modifies this`head, this`tail, this`spine, this`parts, this`repr, Tails()`next
      ensures Chain() && CanWrite() && NewChunks()
      ensures tail != null && fresh(tail) && fresh(tail.data)
      ensures View() == old(View()) + p
      ensures old(Marked()) ==> Marked()
    {
      hide Marked, View;
      var c := new Chunk.Filled(p, arena);
      AppendAside(c);
    }

    /** Appends a chunk; the bookmark stays intact if no reserved byte can be seen through it. */
    method AppendAside(c: Chunk)
      requires Chain() && c.Valid() && !c.FullyRead() && c.next == null && c !in spine && c.data.arena == arena
      requires tail != null ==> tail.FullyWritten()
      modifies this`head, this`tail, this`spine, this`parts, this`repr, Tails()`next, c`rank
      ensures Chain() && tail == c && repr == old(repr) + {c}
      ensures View() == old(View()) + c.Window()
      ensures old(Marked()) && (forall k :: 0 <= k < |slots| ==> c.data != slots[k].block) ==> Marked()
    {
      Append(c);
      if old(Marked()) && forall k :: 0 <= k < |slots| ==> c.data != slots[k].block {
        MarkedKept();
      }
    }

    method Write(p: seq<byte>)
      requires Valid() && CanWrite() && p != []
      modifies this`head, this`tail, this`spine, this`parts, this`repr, this`contentSize, this`writeCnt
      modifies Tails()`next, Tails()`writeIdx, TailBlocks()`mem, TailBlocks()`frozen
      ensures Valid() && CanWrite() && NewChunks()
      ensures View() == old(View()) + p && writeCnt == old(writeCnt) + |p|
      ensures tail != null && (tail == old(tail) || (fresh(tail) && fresh(tail.data)))
      ensures old(Marked()) ==> Marked()
      ensures old(tail) != null ==> Grows(old(tail.data))
      ensures old(tail != null && 0 < |p| <= tail.data.size - tail.writeIdx) ==>
        tail == old(tail) && tail.writeIdx == old(tail.writeIdx) + |p|
    {
      hide Marked, View, Chain, CanWrite;
      WriteChunks(p);
      CountIn(|p|);
    }

    /** The branches of `write`. */
    method WriteChunks(p: seq<byte>)
      requires Chain() && CanWrite() && p != []
      modifies this`head, this`tail, this`spine, this`parts, this`repr
      modifies Tails()`next, Tails()`writeIdx, TailBlocks()`mem, TailBlocks()`frozen
      ensures Chain() && CanWrite() && NewChunks()
      ensures View() == old(View()) + p
      ensures tail != null && (tail == old(tail) || (fresh(tail) && fresh(tail.data)))
      ensures old(Marked()) ==> Marked()
      ensures old(tail) != null ==> Grows(old(tail.data))
      ensures old(tail != null && 0 < |p| <= tail.data.size - tail.writeIdx) ==>
        tail == old(tail) && tail.writeIdx == old(tail.writeIdx) + |p|
    {
      if head == null || tail.FullyWritten() {
        AppendBytes(p);
      } else {
        WriteAcross(p);
      }
    }

    /** Fills the tail up and puts what is left over into a new chunk. */
    method WriteAcross(p: seq<byte>)
      requires Chain() && CanWrite() && p != [] && tail != null && !tail.FullyWritten()
      modifies this`head, this`tail, this`spine, this`parts, this`repr
      modifies Tails()`next, Tails()`writeIdx, TailBlocks()`mem, TailBlocks()`frozen
      ensures Chain() && CanWrite() && NewChunks()
      ensures View() == old(View()) + p
      ensures tail != null && (tail == old(tail) || (fresh(tail) && fresh(tail.data)))
      ensures old(Marked()) ==> Marked()
      ensures Grows(old(tail.data))
      ensures |p| <= old(tail.data.size - tail.writeIdx) ==> tail == old(tail) && tail.writeIdx == old(tail.writeIdx) + |p|
    {
      hide Marked, View, Chain, CanWrite;
      ghost var before := View();
      var n := ExtendTail(p);
      if n < |p| {
        AppendBytes(p[n..]);
        Assoc(before, p[..n], p[n..]);
        assert p == p[..n] + p[n..];
      } else {
        assert p[..n] == p;
      }
    }

    // ---- looking

    method ContentSizeSlow() returns (sz: nat)
      requires Chain()
      ensures sz == |View()|
    {
      sz := 0;
      var chnk := head;
      ghost var i := 0;
      while chnk != null
        invariant i <= |spine| && chnk == (if i < |spine| then spine[i] else null)
        invariant sz == |Flatten(parts[..i])|
        decreases |spine| - i
      {
        FlattenNext(parts, i);
        assert spine[i].Window() == parts[i];
        sz := sz + chnk.ContentSize();
        chnk := chnk.next;
        i := i + 1;
      }
      assert parts[..i] == parts;
    }

    method Peek(n: nat) returns (got: seq<byte>)
      requires Valid()
      ensures |got| == Min(n, |View()|) && got <= View()
    {
      hide Marked, Chain;
      HeadFirst();
      got := [];
      var chnk := head;
      ghost var i := 0;
      while chnk != null && n - |got| > 0
        invariant i <= |spine| == |parts| && chnk == (if i < |spine| then spine[i] else null)
        invariant |got| <= n && got <= View()
        invariant |got| < n ==> got == Flatten(parts[..i])
        decreases |spine| - i
      {
        ChunkAt(i);
        var p := chnk.Peek(n - |got|);
        PeekStep(parts, i, |p|);
        i := i + 1;
        if p == [] {
          break;
        }
        got := got + p;
        chnk := chnk.next;
      }
      if i == |spine| {
        assert parts[..i] == parts;
      }
    }

    // ---- sockets

    /** Makes sure the tail can take a byte. */
    method MakeRoom()
      requires Chain() && CanWrite()
      modifies this`head, this`tail, this`spine, this`parts, this`repr, Tails()`next
      ensures Chain() && CanWrite() && NewChunks()
      ensures tail != null && !tail.FullyWritten()
      ensures tail == old(tail) || (fresh(tail) && fresh(tail.data))
      ensures View() == old(View()) && (old(Marked()) ==> Marked())
    {
      hide Marked, View;
      if head == null || tail.FullyWritten() {
        var c := new Chunk.Empty(arena);
        AppendAside(c);
      }
    }

    /** One ::read into the tail. */
    method FillTail(fd: Fd) returns (r: int, ghost got: seq<byte>)
      requires Chain() && CanWrite() && tail != null && !tail.FullyWritten()
      modifies this`parts, Tails()`writeIdx, TailBlocks()`mem, TailBlocks()`frozen, fd`incoming, fd`readLog
      ensures Chain() && CanWrite()
      ensures |got| == (if r > 0 then r else 0) && old(fd.incoming) == got + fd.incoming
      ensures fd.readLog == old(fd.readLog) + [r]
      ensures View() == old(View()) + got
      ensures Grows(tail.data)
      ensures old(Marked()) ==> Marked()
    {
      hide Linked, Windows, View, Marked, CanWrite;
      r, got := FillTailWindow(fd);
      if old(Marked()) {
        MarkedBehind();
      }
    }

    method FillTailWindow(fd: Fd) returns (r: int, ghost got: seq<byte>)
      requires Chain() && CanWrite() && tail != null && !tail.FullyWritten()
      modifies this`parts, Tails()`writeIdx, TailBlocks()`mem, TailBlocks()`frozen, fd`incoming, fd`readLog
      ensures Chain() && CanWrite() && old(tail.MayExtend())
      ensures |got| == (if r > 0 then r else 0) && old(fd.incoming) == got + fd.incoming
      ensures fd.readLog == old(fd.readLog) + [r]
      ensures View() == old(View()) + got && Grows(tail.data)
      ensures |old(parts)| > 0 && parts == old(parts)[|old(parts)| - 1 := old(parts)[|old(parts)| - 1] + got]
    {
      TailValid();
      hide Linked, Windows, View, Marked, Extended;
      r, got := tail.ReadFromFd(fd);
      TailWritten(got);
      TailGrown(got);
    }

    method ReceiveOnce(fd: Fd) returns (r: int, ghost got: seq<byte>)
      requires Chain() && CanWrite()
      modifies this`head, this`tail, this`spine, this`parts, this`repr
      modifies Tails()`next, Tails()`writeIdx, TailBlocks()`mem, TailBlocks()`frozen, fd`incoming, fd`readLog
      ensures Chain() && CanWrite() && NewChunks()
      ensures tail == old(tail) || (tail != null && fresh(tail) && fresh(tail.data))
      ensures |got| == (if r > 0 then r else 0) && old(fd.incoming) == got + fd.incoming
      ensures fd.readLog == old(fd.readLog) + [r]
      ensures View() == old(View()) + got
      ensures old(tail) != null ==> Grows(old(tail.data))
      ensures old(Marked()) ==> Marked()
    {
      hide View, Marked;
      MakeRoom();
      r, got := FillTail(fd);
    }

    method ReadFromFd(fd: Fd) returns (n: nat, ghost got: seq<byte>)
      requires Valid() && CanWrite()
      modifies this`head, this`tail, this`spine, this`parts, this`repr, this`contentSize, this`writeCnt
      modifies Tails()`next, Tails()`writeIdx, TailBlocks()`mem, TailBlocks()`frozen, fd`incoming, fd`readLog
      ensures Valid() && CanWrite() && NewChunks()
      ensures tail == old(tail) || (tail != null && fresh(tail) && fresh(tail.data))
      ensures n == |got| && old(fd.incoming) == got + fd.incoming
      ensures View() == old(View()) + got && writeCnt == old(writeCnt) + n
      ensures old(tail) != null ==> Grows(old(tail.data))
      ensures old(Marked()) ==> Marked()
      ensures fd.Drained()
    {
      hide Marked, View, Chain, CanWrite;
      n, got := Receive(fd);
      CountIn(n);
    }

    /** The loop of `read_from_fd`. */
    method Receive(fd: Fd) returns (n: nat, ghost got: seq<byte>)
      requires Chain() && CanWrite()
      modifies this`head, this`tail, this`spine, this`parts, this`repr
      modifies Tails()`next, Tails()`writeIdx, TailBlocks()`mem, TailBlocks()`frozen, fd`incoming, fd`readLog
      ensures Chain() && CanWrite() && NewChunks()
      ensures tail == old(tail) || (tail != null && fresh(tail) && fresh(tail.data))
      ensures n == |got| && old(fd.incoming) == got + fd.incoming
      ensures View() == old(View()) + got
      ensures old(tail) != null ==> Grows(old(tail.data))
      ensures old(Marked()) ==> Marked()
      ensures fd.Drained()
    {
      hide Marked, View, Chain, CanWrite;
      TailValid();
      n, got := 0, [];
      var r := 1;
      while r > 0
        invariant Chain() && CanWrite() && NewChunks()
        invariant tail == old(tail) || (tail != null && fresh(tail) && fresh(tail.data))
        invariant n == |got| && old(fd.incoming) == got + fd.incoming
        invariant View() == old(View()) + got
        invariant |fd.readLog| >= |old(fd.readLog)| && (r <= 0 ==> fd.Drained())
        invariant old(tail) != null ==> Grows(old(tail.data))
        invariant old(Marked()) ==> Marked()
        decreases r > 0, |fd.incoming|
      {
        ghost var p;
        r, p := ReceiveOnce(fd);
        if r > 0 {
          n := n + r;
        }
        Moved(old(View()), got, p, fd.incoming);
        got := got + p;
      }
    }

    /** One ::write from the head. */
    method DrainHead(fd: Fd) returns (cnt: int, ghost got: seq<byte>)
      requires Chain() && head != null
      modifies this`head, this`tail, this`spine, this`parts, this`first, repr`readIdx, fd`sent, fd`writeLog
      ensures Chain() && |got| == (if cnt > 0 then cnt else 0)
      ensures fd.writeLog == old(fd.writeLog) + [cnt]
      ensures fd.sent == old(fd.sent) + got && old(View()) == got + View()
      ensures Narrowed()
    {
      DistinctFrom(0);
      assert spine[0].Window() == parts[0];
      cnt := head.WriteToFd(fd);
      ghost var k: nat := if cnt > 0 then cnt else 0;
      got := parts[0][..k];
      HeadMoved(k);
      HeadTaken(k);
    }

    method DrainOnce(fd: Fd) returns (cnt: int, ghost got: seq<byte>)
      requires Valid() && !IsEmpty()
      modifies this`head, this`tail, this`spine, this`parts, this`first, this`contentSize, repr`readIdx, fd`sent, fd`writeLog
      ensures Valid() && |got| == (if cnt > 0 then cnt else 0)
      ensures fd.writeLog == old(fd.writeLog) + [cnt]
      ensures fd.sent == old(fd.sent) + got && old(View()) == got + View()
      ensures Narrowed()
    {
      cnt, got := DrainHead(fd);
      if cnt > 0 {
        CountOut(cnt);
      }
    }

    method WriteToFd(fd: Fd) returns (n: nat)
      requires Valid()
      modifies this`head, this`tail, this`spine, this`parts, this`first, this`contentSize, repr`readIdx, fd`sent, fd`writeLog
      ensures Valid() && Narrowed()
      ensures n <= |old(View())|
      ensures fd.sent == old(fd.sent) + old(View())[..n] && View() == old(View())[n..]
      ensures View() == [] || fd.Clogged()
    {
      ghost var moved;
      n, moved := Drain(fd);
      Cut(moved, View());
    }

    /** The loop of `write_to_fd`. */
    method Drain(fd: Fd) returns (n: nat, ghost moved: seq<byte>)
      requires Valid()
      modifies this`head, this`tail, this`spine, this`parts, this`first, this`contentSize, repr`readIdx, fd`sent, fd`writeLog
      ensures Valid() && Narrowed()
      ensures n == |moved| && fd.sent == old(fd.sent) + moved && old(View()) == moved + View()
      ensures View() == [] || fd.Clogged()
    {
      n, moved := 0, [];
      var cnt := 1;
      while !IsEmpty() && cnt > 0
        invariant Valid() && n == |moved| && old(View()) == moved + View()
        invariant Narrowed()
        invariant fd.sent == old(fd.sent) + moved
        invariant |fd.writeLog| >= |old(fd.writeLog)| && (cnt <= 0 ==> fd.Clogged())
        decreases cnt > 0, |View()|
      {
        ghost var p;
        cnt, p := DrainOnce(fd);
        if cnt > 0 {
          n := n + cnt;
        }
        Moved(old(fd.sent), moved, p, View());
        moved := moved + p;
      }
    }

    // ---- sharing

    /**
     Nothing of this buffer was touched, and the blocks behind it were at most appended to, or changed
     where no window of this buffer looks.  That is all another buffer may do to it while the blocks
     are shared.
     */
    twostate predicate Beside()
      reads this, spine, set i | 0 <= i < |spine| :: spine[i].data
    {
      unchanged(this) &&
      forall i :: 0 <= i < |spine| ==> unchanged(spine[i]) && (Grows(spine[i].data) || spine[i].Aside())
    }

    twostate lemma ChainKept()
      requires old(Chain()) && Beside()
      ensures Chain()
    {
      forall i | 0 <= i < |spine|
        ensures spine[i].Valid() && spine[i].Window() == old(spine[i].Window())
      {
        assert unchanged(spine[i]);
      }
    }

    /** What another buffer appends to a shared block is never seen here. */
    twostate lemma Undisturbed()
      requires old(Valid()) && Beside()
      ensures Valid() && View() == old(View())
    {
      ChainKept();
    }

    /** A second window on the head's block, truncated to `want` bytes. */
    method SliceHead(want: nat) returns (c: Chunk, cnt: nat)
      requires Chain() && 0 < want <= |View()|
      ensures fresh(c) && c.Valid() && c.next == null && c.data.arena == arena && !c.FullyRead() && c.data in Blocks()
      ensures 0 < cnt <= want && c.Window() == View()[..cnt]
      ensures head != null && cnt <= head.writeIdx - head.readIdx
      ensures cnt < want ==> c.FullyWritten()
      ensures cnt == |View()| && CanWrite() ==> c.MayExtend()
    {
      HeadWindow();
      hide Chain, View;
      c := head.SharedCopy();
      if c.ContentSize() > want {
        c.writeIdx := c.writeIdx - (c.ContentSize() - want);
      }
      cnt := c.ContentSize();
      assert c.Window() == head.Window()[..cnt];
    }

    /** The head shows the front of the content; it is the whole content exactly when nothing follows it. */
    lemma HeadWindow()
      requires Chain() && View() != []
      ensures head != null && head.Valid() && head.readIdx < head.writeIdx && !head.FullyRead()
      ensures head.data.arena == arena && head.data in Blocks() && head.Window() <= View()
      ensures head.FullyWritten() || (View() == head.Window() && head == tail)
    {
      if head.readIdx == head.writeIdx {
        EmptyHead();
      }
      FlattenCons(parts);
      assert spine[0].Window() == parts[0];
      if |spine| == 1 {
        assert parts[1..] == [];
      }
    }

    /** Drops `cnt` bytes of the head window. */
    method DiscardHead(cnt: nat)
      requires Chain() && head != null && cnt <= head.writeIdx - head.readIdx && cnt <= |View()|
      modifies this`head, this`tail, this`spine, this`parts, this`first, head`readIdx
      ensures Chain() && View() == old(View())[cnt..]
      ensures Narrowed()
    {
      DistinctFrom(0);
      ghost var front := parts[0];
      assert spine[0].Window() == front;
      var dropped := head.Discard(cnt);
      HeadMoved(cnt);
      HeadTaken(cnt);
      Cut(front[..cnt], View());
    }

    /** Hands the first bytes of the content out as a window of their own. */
    method Detach(want: nat) returns (c: Chunk, cnt: nat)
      requires Chain() && 0 < want <= |View()|
      modifies this`head, this`tail, this`spine, this`parts, this`first, repr`readIdx
      ensures fresh(c) && c.Valid() && c.next == null && c.data.arena == arena && !c.FullyRead() && c.data in Blocks()
      ensures 0 < cnt <= want && c.Window() == old(View()[..cnt])
      ensures cnt < want ==> c.FullyWritten()
      ensures cnt == |old(View())| && old(CanWrite()) ==> c.MayExtend()
      ensures Chain() && View() == old(View()[cnt..])
      ensures Narrowed()
    {
      c, cnt := SliceHead(want);
      DiscardHead(cnt);
    }

    /** Appends a chunk while `m`, which may share its block, looks on. */
    method Adopt(c: Chunk, ghost m: Marshal)
      requires m != this && Chain() && m.Chain() && repr !! m.repr && c !in repr && c !in m.repr
      requires c.Valid() && !c.FullyRead() && c.next == null && c.data.arena == arena
      requires tail != null ==> tail.FullyWritten()
      modifies this`head, this`tail, this`spine, this`parts, this`repr, Tails()`next, c`rank
      ensures Chain() && tail == c && repr == old(repr) + {c}
      ensures View() == old(View()) + c.Window()
      ensures m.Chain() && repr !! m.repr && (old(c.MayExtend()) ==> CanWrite())
      ensures old(Marked()) && (forall k :: 0 <= k < |slots| ==> c.data != slots[k].block) ==> Marked()
    {
      assert m.Owns();
      hide Marked, View, Chain;
      AppendAside(c);
    }

    /** One round of the pointer-copying loop: takes over the head window of `m`, or the part of it that is wanted. */
    method TakeWindow(m: Marshal, want: nat) returns (cnt: nat, ghost got: seq<byte>)
      requires m != this && m.arena == arena && Chain() && m.Chain() && repr !! m.repr
      requires tail != null ==> tail.FullyWritten()
      requires 0 < want <= |m.View()|
      modifies this`head, this`tail, this`spine, this`parts, this`repr, Tails()`next
      modifies m`head, m`tail, m`spine, m`parts, m`first, m.repr`readIdx
      ensures Chain() && m.Chain() && repr !! m.repr && NewOrFrom(m)
      ensures 0 < cnt == |got| <= want && tail != null && fresh(tail)
      ensures cnt < want ==> tail.FullyWritten()
      ensures View() == old(View()) + got && old(m.View()) == got + m.View()
      ensures m.tail == null || m.tail == old(m.tail)
      ensures m.View() == [] && old(m.CanWrite()) ==> CanWrite()
      ensures old(Marked() && Clear(m)) ==> Marked()
    {
      hide View, Marked, Blocks, CanWrite, Windows;
      ghost var all := m.View();
      var chnk;
      chnk, cnt := m.Detach(want);
      got := chnk.Window();
      Rejoin(all, cnt);
      Adopt(chnk, m);
    }

    /** The pointer-copying loop of `read_from_marshal`. */
    method ShareWindows(m: Marshal, n: nat) returns (ghost got: seq<byte>)
      requires m != this && m.arena == arena && Chain() && m.Chain() && repr !! m.repr
      requires (tail != null ==> tail.FullyWritten()) && n <= |m.View()|
      modifies this`head, this`tail, this`spine, this`parts, this`repr, Tails()`next
      modifies m`head, m`tail, m`spine, m`parts, m`first, m.repr`readIdx
      ensures Chain() && m.Chain() && repr !! m.repr && NewOrFrom(m)
      ensures |got| == n && View() == old(View()) + got && old(m.View()) == got + m.View()
      ensures m.tail == null || m.tail == old(m.tail)
      ensures m.View() == [] && old(m.CanWrite()) ==> CanWrite()
      ensures old(Marked() && Clear(m)) ==> Marked()
    {
      hide Marked, View, Chain;
      TailValid();
      got := [];
      var fetched := 0;
      while fetched < n
        invariant Chain() && m.Chain() && repr !! m.repr && NewOrFrom(m)
        invariant fetched == |got| <= n && old(m.View()) == got + m.View() && View() == old(View()) + got
        invariant |got| < n && tail != null ==> tail.FullyWritten()
        invariant tail == old(tail) || (tail != null && fresh(tail))
        invariant m.tail == null || m.tail == old(m.tail)
        invariant old(Marked() && Clear(m)) ==> Marked()
        invariant old(m.CanWrite()) ==> m.CanWrite() && (m.View() == [] ==> CanWrite())
      {
        ghost var p;
        var cnt;
        cnt, p := TakeWindow(m, n - fetched);
        Moved(old(View()), got, p, m.View());
        got := got + p;
        fetched := fetched + cnt;
      }
    }

    /** `write` while `m`, which may share blocks, looks on. */
    method WriteBeside(p: seq<byte>, ghost m: Marshal)
      requires m != this && Valid() && m.Valid() && repr !! m.repr && CanWrite() && p != []
      requires tail != null && |p| <= tail.data.size - tail.writeIdx
      modifies this`head, this`tail, this`spine, this`parts, this`repr, this`contentSize, this`writeCnt
      modifies Tails()`next, Tails()`writeIdx, TailBlocks()`mem, TailBlocks()`frozen
      ensures Valid() && CanWrite() && m.Valid() && m.View() == old(m.View())
      ensures repr !! m.repr && NewChunks()
      ensures View() == old(View()) + p && writeCnt == old(writeCnt) + |p|
      ensures tail == old(tail) && tail.writeIdx == old(tail.writeIdx) + |p|
      ensures Grows(tail.data)
      ensures old(Marked()) ==> Marked()
    {
      hide Marked, View, Valid, CanWrite;
      m.ChainOwned();
      ChainOwned();
      Write(p);
      m.Undisturbed();
    }

    method Settle(m: Marshal, n: nat)
      requires m != this && Chain() && |View()| == contentSize + n
      requires m.Chain() && |m.View()| + n == m.contentSize
      modifies this`contentSize, this`writeCnt, m`contentSize
      ensures Valid() && m.Valid() && writeCnt == old(writeCnt) + n
    {
      hide Marked, View, Chain;
      CountIn(n);
      m.CountOut(n);
    }

    /** The first branch of `read_from_marshal`: nothing can be written behind the last window here. */
    method ReadByPointer(m: Marshal, n: nat) returns (ghost got: seq<byte>)
      requires m != this && m.arena == arena && Valid() && m.Valid() && repr !! m.repr
      requires (tail != null ==> tail.FullyWritten()) && n <= |m.View()|
      modifies this`head, this`tail, this`spine, this`parts, this`repr, this`contentSize, this`writeCnt, Tails()`next
      modifies m`head, m`tail, m`spine, m`parts, m`first, m`contentSize, m.repr`readIdx
      ensures Valid() && m.Valid() && repr !! m.repr && NewOrFrom(m)
      ensures |got| == n && View() == old(View()) + got && old(m.View()) == got + m.View()
      ensures writeCnt == old(writeCnt) + n
      ensures m.tail == null || m.tail == old(m.tail)
      ensures m.View() == [] && old(m.CanWrite()) ==> CanWrite()
      ensures old(Marked() && Clear(m)) ==> Marked()
    {
      hide Marked, View, CanWrite;
      got := ShareWindows(m, n);
      Settle(m, n);
    }

    /** The copying half of the second branch: fills the tail up with bytes read from `m`. */
    method ReadByCopy(m: Marshal, n: nat) returns (copyN: nat, ghost got: seq<byte>)
      requires m != this && Valid() && m.Valid() && repr !! m.repr && CanWrite()
      requires 0 < n <= |m.View()| && tail != null && !tail.FullyWritten()
      modifies this`head, this`tail, this`spine, this`parts, this`repr, this`contentSize, this`writeCnt
      modifies Tails()`next, Tails()`writeIdx, TailBlocks()`mem, TailBlocks()`frozen
      modifies m`head, m`tail, m`spine, m`parts, m`first, m`contentSize, m.repr`readIdx
      ensures Valid() && m.Valid() && repr !! m.repr && CanWrite() && NewChunks()
      ensures 0 < copyN <= n && tail == old(tail) && (copyN < n ==> tail.FullyWritten())
      ensures |got| == copyN && View() == old(View()) + got && old(m.View()) == got + m.View()
      ensures writeCnt == old(writeCnt) + copyN
      ensures m.tail == null || m.tail == old(m.tail)
      ensures Grows(tail.data)
      ensures old(m.CanWrite() && TailBlocks() !! m.TailBlocks()) ==> m.CanWrite() && TailBlocks() !! m.TailBlocks()
      ensures old(Marked() && Clear(m)) ==> Marked()
    {
      hide Marked, View, Windows;
      TailValid();
      copyN := Min(tail.data.size - tail.writeIdx, n);
      var buf := m.Read(copyN);
      got := buf;
      WriteBeside(buf, m);
    }

    /**
     Moves `n` bytes over from `m`: by sharing windows when nothing can be written behind the last
     window here, and otherwise by copying what fits and then sharing the rest.
     */
    method ReadFromMarshal(m: Marshal, n: nat) returns (ghost got: seq<byte>)
      requires m != this && m.arena == arena && Valid() && m.Valid() && repr !! m.repr && CanWrite()
      requires n <= |m.View()| && (n > 0 || tail == null || tail.FullyWritten())
      modifies this`head, this`tail, this`spine, this`parts, this`repr, this`contentSize, this`writeCnt
      modifies Tails()`next, Tails()`writeIdx, TailBlocks()`mem, TailBlocks()`frozen
      modifies m`head, m`tail, m`spine, m`parts, m`first, m`contentSize, m.repr`readIdx
      ensures Valid() && m.Valid() && repr !! m.repr && NewOrFrom(m)
      ensures |got| == n && View() == old(View()) + got && old(m.View()) == got + m.View()
      ensures writeCnt == old(writeCnt) + n
      ensures m.tail == null || m.tail == old(m.tail)
      ensures old(tail) != null ==> Grows(old(tail.data))
      ensures m.View() == [] && old(m.CanWrite() && TailBlocks() !! m.TailBlocks()) ==> CanWrite()
      ensures old(Marked() && Clear(m)) ==> Marked()
      decreases n, 1
    {
      if (head == null && tail == null) || tail.FullyWritten() {
        got := ReadByPointer(m, n);
      } else {
        got := ReadAcross(m, n);
      }
    }

    /** The second branch: fill the tail up, then share windows for what is left over. */
    method ReadAcross(m: Marshal, n: nat) returns (ghost got: seq<byte>)
      requires m != this && m.arena == arena && Valid() && m.Valid() && repr !! m.repr && CanWrite()
      requires 0 < n <= |m.View()| && tail != null && !tail.FullyWritten()
      modifies this`head, this`tail, this`spine, this`parts, this`repr, this`contentSize, this`writeCnt
      modifies Tails()`next, Tails()`writeIdx, TailBlocks()`mem, TailBlocks()`frozen
      modifies m`head, m`tail, m`spine, m`parts, m`first, m`contentSize, m.repr`readIdx
      ensures Valid() && m.Valid() && repr !! m.repr && NewOrFrom(m)
      ensures |got| == n && View() == old(View()) + got && old(m.View()) == got + m.View()
      ensures writeCnt == old(writeCnt) + n
      ensures m.tail == null || m.tail == old(m.tail)
      ensures old(tail) != null ==> Grows(old(tail.data))
      ensures m.View() == [] && old(m.CanWrite() && TailBlocks() !! m.TailBlocks()) ==> CanWrite()
      ensures old(Marked() && Clear(m)) ==> Marked()
      decreases n, 0
    {
      hide Marked, View, Valid;
      var copyN;
      copyN, got := ReadByCopy(m, n);
      if copyN < n {
        ghost var rest := ReadFromMarshal(m, n - copyN);
        Moved(old(View()), got, rest, m.View());
        got := got + rest;
      }
    }

    // ---- bookmarks

    /** Slot `s` is byte `at` of the content, it is seen through one window, and through no other. */
    ghost predicate Located(s: Slot, pl: Place, at: nat)
      reads this`spine, this`parts, spine
    {
      |parts| == |spine| && pl.ci < |spine| && pl.off < |parts[pl.ci]| &&
      s == Slot(spine[pl.ci].data, spine[pl.ci].readIdx + pl.off) &&
      at == |Flatten(parts[..pl.ci])| + pl.off &&
      forall j :: 0 <= j < |spine| && j != pl.ci && spine[j].data == s.block ==>
        !(spine[j].readIdx <= s.idx < spine[j].writeIdx)
    }

    /** The outstanding bookmark is intact. */
    ghost predicate Marked()
      reads this`spine, this`parts, this`slots, this`places, this`mark, spine
    {
      |places| == |slots| && mark + |slots| <= |View()| &&
      forall i :: 0 <= i < |slots| ==> Located(slots[i], places[i], mark + i)
    }

    /** The reserved bytes of a chain that is only appended to stay where they are. */
    twostate lemma MarkedKept()
      requires old(Chain()) && old(Marked())
      requires slots == old(slots) && places == old(places) && mark == old(mark)
      requires |old(spine)| <= |spine| == |parts| && |old(View())| <= |View()|
      requires forall i :: 0 <= i < |old(spine)| ==>
        spine[i] == old(spine[i]) && spine[i].readIdx == old(spine[i].readIdx) && old(parts[i]) <= parts[i]
      requires forall i :: 0 <= i < |old(spine)| - 1 ==>
        parts[i] == old(parts[i]) && spine[i].writeIdx == old(spine[i].writeIdx)
      requires old(spine) != [] ==> var last := |old(spine)| - 1;
        spine[last].writeIdx == old(spine[last].writeIdx) || old(spine[last].MayExtend())
      requires forall k, j :: 0 <= k < |slots| && |old(spine)| <= j < |spine| ==> spine[j].data != slots[k].block
      ensures Marked()
    {
      forall k | 0 <= k < |slots|
        ensures Located(slots[k], places[k], mark + k)
      {
        var pl := places[k];
        assert old(Located(slots[k], places[k], mark + k));
        assert parts[..pl.ci] == old(parts)[..pl.ci];
        assert old(spine[pl.ci].Valid() && spine[pl.ci].Window() == parts[pl.ci]);
      }
    }

    /** Reserves one byte behind the last window. */
    method ReserveWindow() returns (slot: Slot)
      requires Chain() && CanWrite() && tail != null && !tail.FullyWritten()
      modifies this`parts, Tails()`writeIdx, TailBlocks()`frozen
      ensures Chain() && CanWrite() && slot == Slot(tail.data, old(tail.data.frozen)) && tail.writeIdx == old(tail.writeIdx) + 1
      ensures |View()| == |old(View())| + 1 && old(View()) <= View()
      ensures Grows(tail.data)
      ensures Located(slot, old(Place(|spine| - 1, |parts[|spine| - 1]|)), |old(View())|)
    {
      TailPlace();
      hide Linked, Windows, View, Marked, Located, CanWrite;
      slot := ReserveTail();
      NewSlot(old(Place(|spine| - 1, |parts[|spine| - 1]|)));
    }

    method ReserveTail() returns (slot: Slot)
      requires Chain() && CanWrite() && tail != null && !tail.FullyWritten()
      modifies this`parts, Tails()`writeIdx, TailBlocks()`frozen
      ensures Chain() && CanWrite() && slot == Slot(tail.data, old(tail.data.frozen)) && tail.writeIdx == old(tail.writeIdx) + 1
      ensures |View()| == |old(View())| + 1 && old(View()) <= View() && Grows(tail.data)
      ensures parts == old(parts)[|old(parts)| - 1 := old(parts[|parts| - 1]) + [tail.data.mem[slot.idx]]] && |old(parts)| > 0
      ensures slot.idx == old(tail.writeIdx) && slot.idx < |tail.data.mem|
    {
      TailValid();
      hide Linked, Windows, View, Marked, Extended;
      slot := tail.SetBookmark();
      TailWritten([tail.data.mem[slot.idx]]);
      TailGrown([tail.data.mem[slot.idx]]);
    }

    lemma TailPlace()
      requires Chain() && tail != null
      ensures 0 < |spine| == |parts| && tail == spine[|spine| - 1]
    {
    }

    method ReserveBehind() returns (slot: Slot)
      requires Chain() && CanWrite() && Marked() && tail != null && !tail.FullyWritten()
      modifies this`parts, Tails()`writeIdx, TailBlocks()`frozen
      ensures Chain() && CanWrite() && Marked() && slot == Slot(tail.data, old(tail.data.frozen)) && Grows(tail.data)
      ensures |View()| == |old(View())| + 1 && old(View()) <= View()
      ensures Located(slot, old(Place(|spine| - 1, |parts[|spine| - 1]|)), |old(View())|)
    {
      TailPlace();
      hide Linked, Windows, View, Marked, Located;
      slot := ReserveWindow();
      MarkedBehind();
    }

    /** Reserves one more byte of the outstanding bookmark. */
    method ReserveByte() returns (slot: Slot)
      requires Chain() && CanWrite() && Marked() && |View()| == mark + |slots|
      requires tail != null && !tail.FullyWritten()
      modifies this`parts, this`slots, this`places, Tails()`writeIdx, TailBlocks()`frozen
      ensures Chain() && CanWrite() && Marked() && slots == old(slots) + [slot]
      ensures slot == Slot(tail.data, old(tail.data.frozen)) && Grows(tail.data)
      ensures |View()| == |old(View())| + 1 && old(View()) <= View()
    {
      TailPlace();
      hide Marked, View, Chain, CanWrite, Located;
      ghost var pl := Place(|spine| - 1, |parts[|spine| - 1]|);
      slot := ReserveBehind();
      RememberSlot(slot, pl);
    }

    ghost method RememberSlot(slot: Slot, pl: Place)
      requires Marked() && Located(slot, pl, mark + |slots|) && mark + |slots| < |View()|
      modifies this`slots, this`places
      ensures Marked() && slots == old(slots) + [slot]
    {
      slots, places := slots + [slot], places + [pl];
    }

    /** A byte that was reserved where the block was frozen is seen through no other window. */
    twostate lemma NewSlot(pl: Place)
      requires old(Chain()) && Chain() && spine == old(spine) != [] && tail == spine[|spine| - 1]
      requires old(spine[|spine| - 1].MayExtend())
      requires pl == Place(|spine| - 1, |old(parts)[|spine| - 1]|)
      requires |parts[|spine| - 1]| == |old(parts)[|spine| - 1]| + 1 && tail.readIdx == old(tail.readIdx)
      requires forall i :: 0 <= i < |spine| - 1 ==> spine[i].writeIdx == old(spine[i].writeIdx)
      ensures Located(Slot(tail.data, old(tail.writeIdx)), pl, |View()| - 1)
    {
      var last, idx := |spine| - 1, old(tail.writeIdx);
      assert old(spine[last].Valid() && spine[last].Window() == parts[last]);
      forall j | 0 <= j < last
        ensures spine[j].data != tail.data
      {
        assert old(spine[j].Valid());
      }
    }

    /** Reserves `n` bytes behind the content, to be filled in by `WriteBookmark`. */
    method SetBookmark(n: nat) returns (bm: seq<Slot>)
      requires Valid() && CanWrite() && writeCnt == 0
      modifies this`head, this`tail, this`spine, this`parts, this`repr, this`contentSize
      modifies this`slots, this`places, this`mark, Tails()`next, Tails()`writeIdx, TailBlocks()`frozen
      ensures Valid() && CanWrite() && NewChunks() && writeCnt == 0
      ensures Marked() && bm == slots && |bm| == n && mark == |old(View())|
      ensures |View()| == |old(View())| + n && old(View()) <= View()
      ensures tail == old(tail) || (tail != null && fresh(tail) && fresh(tail.data))
      ensures old(tail) != null ==> Grows(old(tail.data))
      ensures forall i :: 0 <= i < n ==>
        (old(tail) != null && bm[i].block == old(tail.data) && old(tail.data.frozen) <= bm[i].idx) || fresh(bm[i].block)
    {
      hide View, Chain, CanWrite, Marked;
      bm := ReserveBytes(n);
      contentSize := contentSize + n;
    }

    /** The loop of `set_bookmark`. */
    method ReserveBytes(n: nat) returns (bm: seq<Slot>)
      requires Chain() && CanWrite()
      modifies this`head, this`tail, this`spine, this`parts, this`repr
      modifies this`slots, this`places, this`mark, Tails()`next, Tails()`writeIdx, TailBlocks()`frozen
      ensures Chain() && CanWrite() && NewChunks()
      ensures Marked() && bm == slots && |bm| == n && mark == |old(View())|
      ensures |View()| == |old(View())| + n && old(View()) <= View()
      ensures tail == old(tail) || (tail != null && fresh(tail) && fresh(tail.data))
      ensures old(tail) != null ==> Grows(old(tail.data))
      ensures forall i :: 0 <= i < n ==>
        (old(tail) != null && bm[i].block == old(tail.data) && old(tail.data.frozen) <= bm[i].idx) || fresh(bm[i].block)
    {
      hide View, Chain, CanWrite;
      TailValid();
      bm := [];
      slots, places, mark := [], [], |View()|;
      for i := 0 to n
        invariant Chain() && CanWrite() && NewChunks()
        invariant Marked() && bm == slots && |bm| == i && mark == |old(View())|
        invariant |View()| == |old(View())| + i && old(View()) <= View()
        invariant tail == old(tail) || (tail != null && fresh(tail) && fresh(tail.data))
        invariant old(tail) != null ==> Grows(old(tail.data))
        invariant forall j :: 0 <= j < i ==>
          (old(tail) != null && bm[j].block == old(tail.data) && old(tail.data.frozen) <= bm[j].idx) || fresh(bm[j].block)
      {
        var slot := ReserveNext();
        bm := bm + [slot];
      }
    }

    method ReserveNext() returns (slot: Slot)
      requires Chain() && CanWrite() && Marked() && |View()| == mark + |slots|
      modifies this`head, this`tail, this`spine, this`parts, this`repr
      modifies this`slots, this`places, Tails()`next, Tails()`writeIdx, TailBlocks()`frozen
      ensures Chain() && CanWrite() && NewChunks()
      ensures Marked() && slots == old(slots) + [slot]
      ensures old(tail) != null ==> Grows(old(tail.data))
      ensures (old(tail) != null && slot.block == old(tail.data) && old(tail.data.frozen) <= slot.idx) || fresh(slot.block)
      ensures |View()| == |old(View())| + 1 && old(View()) <= View()
      ensures tail == old(tail) || (tail != null && fresh(tail) && fresh(tail.data))
    {
      MakeRoom();
      slot := ReserveByte();
    }

    /** Where the `i`-th reserved byte is to be found. */
    lemma SlotAt(i: nat)
      requires Chain() && Marked() && i < |slots|
      ensures i < |places| && places[i].ci < |spine| == |parts| && places[i].off < |parts[places[i].ci]|
      ensures slots[i].block == spine[places[i].ci].data && slots[i].idx < |slots[i].block.mem|
      ensures mark + i == |Flatten(parts[..places[i].ci])| + places[i].off
    {
      assert Located(slots[i], places[i], mark + i);
      assert spine[places[i].ci].Window() == parts[places[i].ci];
    }

    /** *(bm->ptr[i]) = b. */
    method PatchSlot(slot: Slot, ghost i: nat, b: byte)
      requires Chain() && Marked() && i < |slots| && slot == slots[i]
      modifies this`parts, slot.block`mem
      ensures Chain() && Marked()
      ensures mark + i < |old(View())| && View() == Patch(old(View()), mark + i, b)
      ensures slot.idx < |old(slot.block.mem)| && slot.block.mem == Patch(old(slot.block.mem), slot.idx, b)
    {
      hide Located, Marked, Windows, Linked, Patched;
      SlotAt(i);
      FlattenUpdate(parts, places[i].ci, places[i].off, b);
      PatchMemory(slot, i, b);
      PatchedWindows(i);
      PatchedMarks(i);
    }

    method PatchMemory(slot: Slot, ghost i: nat, b: byte)
      requires Chain() && Marked() && i < |slots| && slot == slots[i]
      modifies this`parts, slot.block`mem
      ensures Linked() && Patched(i)
      ensures slot.idx < |old(slot.block.mem)| && slot.block.mem == Patch(old(slot.block.mem), slot.idx, b)
      ensures parts == old(parts)[places[i].ci := Patch(old(parts)[places[i].ci], places[i].off, b)]
    {
      SlotAt(i);
      ghost var pl := places[i];
      slot.block.Put(slot.idx, [b]);
      parts := parts[pl.ci := Patch(parts[pl.ci], pl.off, b)];
    }

    /** Fills the reserved bytes in; every other byte stays as it was. */
    method WriteBookmark(bm: seq<Slot>, p: seq<byte>)
      requires Valid() && Marked() && bm == slots && |p| == |bm|
      modifies this`parts, (set i | 0 <= i < |bm| :: bm[i].block)`mem
      ensures Valid() && Marked()
      ensures forall i :: 0 <= i < |bm| ==> SameBut(bm[i].block.mem, old(bm[i].block.mem), bm[i].block, bm)
      ensures mark + |p| <= |old(View())|
      ensures View() == old(View())[..mark] + p + old(View())[mark + |p|..]
    {
      hide View, Chain, Marked, Filled;
      ghost var before, was := View(), seq(|bm|, i requires 0 <= i < |bm| reads set s | s in bm :: s.block => bm[i].block.mem);
      FillSlots(bm, p, was);
      FilledUp(View(), before, mark, p);
    }

    /** The loop of `write_bookmark`. */
    method FillSlots(bm: seq<Slot>, p: seq<byte>, ghost was: seq<seq<byte>>)
      requires Chain() && Marked() && bm == slots && |p| == |bm| && KeptBut(bm, was)
      modifies this`parts, (set i | 0 <= i < |bm| :: bm[i].block)`mem
      ensures Chain() && Marked() && KeptBut(bm, was) && Filled(View(), old(View()), mark, p, |p|)
    {
      assert mark + |slots| <= |View()|;
      hide View, Chain, Marked, Filled, KeptBut;
      ghost var before := View();
      FilledNone(before, mark, p);
      for i := 0 to |bm|
        invariant Chain() && Marked() && KeptBut(bm, was) && Filled(View(), before, mark, p, i)
      {
        PatchOf(bm, i, p, before, was);
      }
    }

    method PatchOf(bm: seq<Slot>, i: nat, p: seq<byte>, ghost before: seq<byte>, ghost was: seq<seq<byte>>)
      requires Chain() && Marked() && bm == slots && i < |bm| == |p|
      requires Filled(View(), before, mark, p, i) && KeptBut(bm, was)
      modifies this`parts, bm[i].block`mem
      ensures Chain() && Marked() && Filled(View(), before, mark, p, i + 1) && KeptBut(bm, was)
    {
      hide Marked, Chain, View, Filled, SameBut;
      ghost var mem := bm[i].block.mem;
      PatchNext(bm[i], i, p, before);
      forall j | 0 <= j < |bm|
        ensures SameBut(bm[j].block.mem, was[j], bm[j].block, bm)
      {
        if bm[j].block == bm[i].block {
          SameButHere(mem, was[j], bm[i], bm, p[i]);
        }
      }
    }

    method PatchNext(slot: Slot, i: nat, p: seq<byte>, ghost before: seq<byte>)
      requires Chain() && Marked() && i < |slots| == |p| && slot == slots[i]
      requires Filled(View(), before, mark, p, i)
      modifies this`parts, slot.block`mem
      ensures slot.idx < |old(slot.block.mem)| && slot.block.mem == Patch(old(slot.block.mem), slot.idx, p[i])
      ensures Chain() && Marked() && Filled(View(), before, mark, p, i + 1)
    {
      hide Marked, Chain, View;
      FilledStep(View(), before, mark, p, i);
      PatchSlot(slot, i, p[i]);
    }

    /** Only the byte behind slot `i` was changed, in the block and in the part that shows it. */
    twostate predicate Patched(i: nat)
      reads this, spine, set j | 0 <= j < |spine| :: spine[j].data
    {
      spine == old(spine) && slots == old(slots) && places == old(places) && mark == old(mark) &&
      i < |slots| == |places| && places[i].ci < |spine| == |old(parts)| &&
      places[i].off < |old(parts)[places[i].ci]| && slots[i].block == spine[places[i].ci].data &&
      (forall j :: 0 <= j < |spine| ==>
        spine[j].readIdx == old(spine[j].readIdx) && spine[j].writeIdx == old(spine[j].writeIdx) &&
        spine[j].data.frozen == old(spine[j].data.frozen) &&
        (spine[j].data != slots[i].block ==> spine[j].data.mem == old(spine[j].data.mem))) &&
      var block, idx := spine[places[i].ci].data, slots[i].idx;
      idx < |old(block.mem)| == |block.mem| &&
      block.mem == Patch(old(block.mem), idx, block.mem[idx]) &&
      parts == old(parts)[places[i].ci := Patch(old(parts)[places[i].ci], places[i].off, block.mem[idx])]
    }

    /** A patched byte is seen through its own window only. */
    twostate lemma PatchedWindows(i: nat)
      requires old(Chain()) && old(Marked()) && Patched(i)
      ensures Windows(0)
    {
      assert old(Located(slots[i], places[i], mark + i));
      forall j | 0 <= j < |spine|
        ensures spine[j].Valid() && spine[j].Window() == parts[j]
      {
        assert old(spine[j].Valid() && spine[j].Window() == parts[j]);
        if spine[j].data == slots[i].block {
          var idx := slots[i].idx;
          WindowPatched(old(spine[j].data.mem), spine[j].readIdx, spine[j].writeIdx, idx, spine[j].data.mem[idx]);
        }
      }
    }

    twostate lemma PatchedMarks(i: nat)
      requires old(Marked()) && Patched(i)
      ensures Marked()
    {
      SameLengths(old(parts), parts, |parts|);
      assert parts[..|parts|] == parts && old(parts)[..|parts|] == old(parts);
      forall k | 0 <= k < |slots|
        ensures Located(slots[k], places[k], mark + k)
      {
        assert old(Located(slots[k], places[k], mark + k));
        SameLengths(old(parts), parts, places[k].ci);
      }
    }
  }

  /** However many buffers share blocks with one that is appended to, or filled in elsewhere, all stay as they are. */
  twostate lemma {:induction false} AllKept(ms: seq<Marshal>)
    requires forall i :: 0 <= i < |ms| ==> old(ms[i].Valid()) && ms[i].Beside()
    ensures forall i :: 0 <= i < |ms| ==> ms[i].Valid() && ms[i].View() == old(ms[i].View())
  {
    if ms != [] {
      AllKept(ms[1..]);
      ms[0].Undisturbed();
      assert forall i :: 1 <= i < |ms| ==> ms[i] == ms[1..][i - 1];
    }
  }

  /** Buffers that may share blocks with `m`, but have chunks of their own. */
  ghost predicate Neighbours(ms: seq<Marshal>, m: Marshal)
    reads m`repr, set i | 0 <= i < |ms| :: ms[i]
    reads set i, j | 0 <= i < |ms| && 0 <= j < |ms[i].spine| :: ms[i].spine[j]
    reads set i, j | 0 <= i < |ms| && 0 <= j < |ms[i].spine| :: ms[i].spine[j].data
  {
    forall i :: 0 <= i < |ms| ==> ms[i] != m && ms[i].Valid() && ms[i].Owns() && ms[i].repr !! m.repr
  }

  /** `read_from_fd`, while any number of buffers look on. */
  method ReceiveBeside(m: Marshal, fd: Fd, ghost earlier: seq<Marshal>) returns (n: nat, ghost got: seq<byte>)
    requires m.Valid() && m.CanWrite() && Neighbours(earlier, m)
    modifies m`head, m`tail, m`spine, m`parts, m`repr, m`contentSize, m`writeCnt
    modifies m.Tails()`next, m.Tails()`writeIdx, m.TailBlocks()`mem, m.TailBlocks()`frozen, fd`incoming, fd`readLog
    ensures m.Valid() && m.CanWrite() && m.NewChunks() && Neighbours(earlier, m)
    ensures m.tail == old(m.tail) || (m.tail != null && fresh(m.tail) && fresh(m.tail.data))
    ensures n == |got| && old(fd.incoming) == got + fd.incoming && m.View() == old(m.View()) + got
    ensures forall i :: 0 <= i < |earlier| ==> earlier[i].View() == old(earlier[i].View()) && earlier[i].repr == old(earlier[i].repr)
    ensures fd.Drained()
  {
    hide Marshal.Marked, Marshal.View, Marshal.Valid, Marshal.CanWrite;
    m.ChainOwned();
    forall i | 0 <= i < |earlier|
      ensures forall j :: 0 <= j < |earlier[i].spine| ==> earlier[i].spine[j].data.Valid()
    {
      earlier[i].ChainOwned();
    }
    n, got := m.ReadFromFd(fd);
    AllKept(earlier);
  }
}
