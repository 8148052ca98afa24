/**
 One buffer with its bookmark, the buffers that were spliced out of it or moved into it, and the socket
 it is filled from and drained into.  Blocks are shared between all of them, and yet every one is a byte
 string of its own, whatever of this is done to the others.
 */
module Sharing {
  import opened Bytes
  import opened Chunks
  import opened Marshals

  // ---- what it should look like from outside

  datatype Op =
    | Write(p: seq<byte>)
    | Read(n: nat)
    | Peek(n: nat)
    | Receive
    | Send
    | Reset
    | Reserve(n: nat)
    | Fill(p: seq<byte>)
    | Splice(n: nat)
    | Absorb(ps: seq<seq<byte>>)
    | OtherReads(k: nat, n: nat)

  datatype Result = Bytes(b: seq<byte>) | Count(n: nat)

  /** The reserved bytes that are still to be filled in. */
  datatype Mark = Unmarked | At(pos: nat, len: nat)

  /**
   The owner's content, the bytes that have left it, the contents of the other buffers, the two
   directions of the socket, the write counter, and everything that was reported to the callers.
   */
  datatype State = State(
    owner: seq<byte>, out: seq<byte>, others: seq<seq<byte>>, incoming: seq<byte>, sent: seq<byte>,
    count: nat, mark: Mark, results: seq<Result>)

  /** What the code asserts of its callers; bytes are taken out of a buffer only while no bookmark is outstanding. */
  predicate Enabled(s: State, op: Op)
  {
    match op
    case Write(p) => p != []
    case Read(_) => s.mark.Unmarked?
    case Peek(_) => true
    case Receive => true
    case Send => s.mark.Unmarked?
    case Reset => true
    case Reserve(_) => s.mark.Unmarked? && s.count == 0
    case Fill(p) => s.mark.At? && |p| == s.mark.len && s.mark.pos + s.mark.len <= |s.owner|
    case Splice(n) => s.mark.Unmarked? && n <= |s.owner|
    case Absorb(ps) => ps != [] && forall i :: 0 <= i < |ps| ==> ps[i] != []
    case OtherReads(k, _) => k < |s.others|
  }

  function Front(s: seq<byte>, n: nat): seq<byte> { s[..Min(n, |s|)] }

  function Behind(s: seq<byte>, n: nat): seq<byte> { s[Min(n, |s|)..] }

  /**
   One operation on separate byte strings.  The socket decides how many bytes arrive or leave, and
   reserved bytes hold anything until they are filled in.
   */
  predicate Next(s: State, op: Op, t: State)
  {
    if !Enabled(s, op) then t == s else
    match op
    case Write(p) => t == s.(owner := s.owner + p, count := s.count + |p|)
    case Read(n) => t == Taken(s, n).(results := s.results + [Bytes(Front(s.owner, n))])
    case Peek(n) => t == s.(results := s.results + [Bytes(Front(s.owner, n))])
    case Receive =>
      var k := |s.incoming| - |t.incoming|;
      0 <= k && t == s.(owner := s.owner + s.incoming[..k], incoming := s.incoming[k..], count := s.count + k)
    case Send =>
      var k := |s.owner| - |t.owner|;
      0 <= k && t == Taken(s, k).(sent := s.sent + s.owner[..k])
    case Reset => t == s.(results := s.results + [Count(s.count)], count := 0)
    case Reserve(n) =>
      s.owner <= t.owner && |t.owner| == |s.owner| + n && t == s.(owner := t.owner, mark := At(|s.owner|, n))
    case Fill(p) =>
      t == s.(owner := s.owner[..s.mark.pos] + p + s.owner[s.mark.pos + |p|..], mark := Unmarked)
    case Splice(n) => t == Taken(s, n).(others := s.others + [s.owner[..n]])
    case Absorb(ps) =>
      t == s.(owner := s.owner + Flatten(ps), others := s.others + [[]], count := s.count + |Flatten(ps)|)
    case OtherReads(k, n) =>
      t == s.(others := s.others[k := Behind(s.others[k], n)], results := s.results + [Bytes(Front(s.others[k], n))])
  }

  function Taken(s: State, n: nat): State
  {
    s.(owner := Behind(s.owner, n), out := s.out + Front(s.owner, n))
  }

  lemma NextReserve(s: State, n: nat, t: State)
    requires Enabled(s, Op.Reserve(n)) && s.owner <= t.owner && |t.owner| == |s.owner| + n
    requires t == s.(owner := t.owner, mark := At(|s.owner|, n))
    ensures Next(s, Op.Reserve(n), t)
  {
  }

  /** A run, state by state. */
  predicate Follows(trace: seq<State>, ops: seq<Op>)
  {
    |trace| == |ops| + 1 && forall i :: 0 <= i < |ops| ==> Next(trace[i], ops[i], trace[i + 1])
  }

  /** What went through the owner up to the reserved bytes, in order. */
  function Stream(s: State): seq<byte>
  {
    s.out + if s.mark.At? && s.mark.pos <= |s.owner| then s.owner[..s.mark.pos] else s.owner
  }

  lemma TakenInOrder(s: State, n: nat)
    requires s.mark.Unmarked?
    ensures Stream(Taken(s, n)) == Stream(s)
  {
    var k := Min(n, |s.owner|);
    Assoc(s.out, s.owner[..k], s.owner[k..]);
    Rejoin(s.owner, k);
  }

  lemma NextInOrder(s: State, op: Op, t: State)
    requires Next(s, op, t)
    ensures Stream(s) <= Stream(t)
  {
    if Enabled(s, op) && (op.Read? || op.Splice?) {
      TakenInOrder(s, op.n);
      assert Stream(t) == Stream(Taken(s, op.n));
    } else if Enabled(s, op) && op.Send? {
      TakenInOrder(s, |s.owner| - |t.owner|);
      assert Stream(t) == Stream(Taken(s, |s.owner| - |t.owner|));
    } else {
      assert s.owner <= t.owner || (op.Fill? && s.owner[..s.mark.pos] <= t.owner);
    }
  }

  /**
   First in, first out: over any run, what has left the owner followed by what it still holds only
   grows at the end.
   */
  lemma {:induction false} InOrder(trace: seq<State>, ops: seq<Op>, i: nat, j: nat)
    requires Follows(trace, ops) && i <= j <= |ops|
    ensures Stream(trace[i]) <= Stream(trace[j])
  {
    hide Next, Stream;
    if i < j {
      InOrder(trace, ops, i, j - 1);
      NextInOrder(trace[j - 1], ops[j - 1], trace[j]);
    }
  }

  // ---- what it is

  /** The bytes of `bm` are seen through no window of `m`. */
  ghost predicate Unseen(m: Marshal, bm: seq<Slot>)
    reads m, m.spine
  {
    forall c, s :: c in m.spine && s in bm && c.data == s.block ==> c.writeIdx <= s.idx
  }

  class Family {
    const owner: Marshal
    const fd: Fd
    var others: seq<Marshal>
    var marked: bool
    var bm: seq<Slot>
    var results: seq<Result>

    ghost var now: State
    ghost var repr: set<object>

    /** The buffers are different objects with chunks of their own. */
    ghost predicate Apart()
      reads this`others, owner, others
    {
      (forall i :: 0 <= i < |others| ==> others[i] != owner && others[i].repr !! owner.repr) &&
      forall i, j :: 0 <= i < j < |others| ==> others[i] != others[j] && others[i].repr !! others[j].repr
    }

    ghost predicate Held()
      reads this`repr, this`others, others`repr
    {
      this in repr && owner in repr && fd in repr &&
      forall i :: 0 <= i < |others| ==> others[i] in repr && others[i].repr <= repr
    }

    ghost predicate OwnerHeld()
      reads this`repr, this`bm, owner`repr
    {
      owner.repr <= repr && owner.Blocks() <= repr && forall s :: s in bm ==> s.block in repr
    }

    /** The other buffers are intact, show what they should, and do not look at reserved bytes. */
    ghost predicate OthersShow()
      reads *
    {
      |now.others| == |others| &&
      forall i :: 0 <= i < |others| ==>
        others[i].Valid() && others[i].View() == now.others[i] && Unseen(others[i], bm)
    }

    ghost predicate OwnerShows()
      reads *
    {
      owner.Valid() && owner.CanWrite() && now.owner == owner.View() && now.count == owner.writeCnt &&
      now.incoming == fd.incoming && now.sent == fd.sent && now.results == results
    }

    ghost predicate MarkShows()
      reads *
    {
      if marked then owner.Marked() && bm == owner.slots && now.mark == At(owner.mark, |bm|)
      else bm == [] && now.mark == Unmarked
    }

    ghost predicate Valid()
      reads *
    {
      Held() && OwnerHeld() && Apart() && OthersShow() && OwnerShows() && MarkShows()
    }

    constructor (incoming: seq<byte>)
      ensures Valid() && fresh(repr) && now == State([], [], [], incoming, [], 0, Unmarked, [])
    {
      owner := new Marshal(0);
      fd := new Fd(incoming);
      others, marked, bm, results := [], false, [], [];
      now := State([], [], [], incoming, [], 0, Unmarked, []);
      new;
      repr := {this, owner, fd};
    }

    /** What the owner's operations need to know of the others. */
    lemma Known()
      requires Valid()
      ensures owner.Valid() && owner.CanWrite()
      ensures owner.Owns() && forall i :: 0 <= i < |owner.spine| ==> owner.spine[i].data.Valid()
      ensures owner.tail != null ==> owner.tail in owner.repr && owner.tail.data in owner.Blocks()
      ensures forall i :: 0 <= i < |others| ==> others[i] != owner && others[i].repr !! owner.repr
      ensures forall i :: 0 <= i < |others| ==> others[i].Owns() && Unseen(others[i], bm)
      ensures forall i, j :: 0 <= i < |others| && 0 <= j < |others[i].spine| ==>
        var c := others[i].spine[j]; c in others[i].repr && c.data.Valid() && c.writeIdx <= c.data.frozen
    {
      owner.ChainOwned();
      forall i | 0 <= i < |others|
        ensures others[i].Owns() && forall j :: 0 <= j < |others[i].spine| ==>
          others[i].spine[j].data.Valid() && others[i].spine[j].writeIdx <= others[i].spine[j].data.frozen
      {
        others[i].ChainOwned();
      }
    }

    /** An operation of the owner has done to the other buffers at most what `Marshal.Undisturbed` allows. */
    twostate predicate Beside()
      reads *
    {
      others == old(others) && fresh(owner.repr - old(owner.repr)) && forall i :: 0 <= i < |others| ==> others[i].Beside()
    }

    /** What is needed to see that an operation stays within `repr`. */
    lemma Reach()
      requires Valid()
      ensures this in repr && owner in repr && fd in repr && owner.repr <= repr && owner.Blocks() <= repr
      ensures owner.tail != null ==> owner.tail in owner.repr && owner.tail.data in owner.Blocks()
      ensures |others| == |now.others| && forall s :: s in bm ==> s.block in repr
    {
      owner.ChainOwned();
    }

    /** So it leaves them as they are. */
    twostate lemma Stay()
      requires old(Apart() && OthersShow()) && others == old(others) && now == old(now) && Beside()
      requires bm == old(bm) || forall i :: 0 <= i < |others| ==> Unseen(others[i], bm)
      ensures Apart() && OthersShow()
    {
      AllKept(others);
    }

    /** The books, after an operation of the owner. */
    ghost method Settle(t: State, more: set<object>)
      requires Held() && Apart() && OthersShow() && t.others == now.others
      requires forall s :: s in bm ==> s.block in repr || s.block in more
      modifies this`now, this`repr
      ensures Held() && OwnerHeld() && Apart() && OthersShow()
      ensures now == t && repr == old(repr) + owner.repr + owner.Blocks() + more
    {
      hide Marshal.Valid, Marshal.View, Unseen;
      now, repr := t, repr + owner.repr + owner.Blocks() + more;
    }

    /** A bookmark that has been filled in is deleted. */
    method Release()
      requires Held() && Apart() && OthersShow()
      modifies this`bm, this`marked
      ensures Held() && Apart() && OthersShow() && bm == [] && !marked
    {
      hide Marshal.Valid, Marshal.View;
      bm, marked := [], false;
    }

    /** One more buffer. */
    method Join(m: Marshal, ghost view: seq<byte>)
      requires Held() && Apart() && OthersShow()
      requires m.Valid() && m.View() == view && Unseen(m, bm) && m in repr && m.repr <= repr
      requires m != owner && m.repr !! owner.repr
      requires forall i :: 0 <= i < |others| ==> m != others[i] && m.repr !! others[i].repr
      modifies this`others, this`now
      ensures Held() && Apart() && OthersShow() && others == old(others) + [m]
      ensures now == old(now).(others := old(now).others + [view])
    {
      hide Marshal.Valid, Marshal.View;
      others := others + [m];
      now := now.(others := now.others + [view]);
    }

    /** The books, after one more buffer has come about. */
    method SettleWith(m: Marshal, ghost view: seq<byte>, ghost t: State)
      requires Held() && Apart() && OthersShow() && t.others == now.others && forall s :: s in bm ==> s.block in repr
      requires m.Valid() && m.View() == view && Unseen(m, bm) && m != owner && m.repr !! owner.repr
      requires forall i :: 0 <= i < |others| ==> m != others[i] && m.repr !! others[i].repr
      modifies this`others, this`now, this`repr
      ensures Held() && OwnerHeld() && Apart() && OthersShow()
      ensures now == t.(others := t.others + [view]) && repr == old(repr) + owner.repr + owner.Blocks() + {m} + m.repr
    {
      hide Marshal.Valid, Marshal.View, Marshal.Blocks, Held, Apart, OthersShow, Unseen;
      Settle(t, {m} + m.repr);
      Join(m, view);
    }

    // ---- what the owner does, beside the others

    method WriteBeside(p: seq<byte>)
      requires Valid() && p != []
      modifies owner, owner.Tails(), owner.TailBlocks()
      ensures Beside() && fresh(owner.Blocks() - old(owner.Blocks()))
      ensures owner.Valid() && owner.CanWrite() && owner.View() == old(owner.View()) + p
      ensures owner.writeCnt == old(owner.writeCnt) + |p| && (old(owner.Marked()) ==> owner.Marked())
      ensures owner.slots == old(owner.slots) && owner.mark == old(owner.mark)
    {
      hide Marshal.Valid, Marshal.View, Marshal.CanWrite, Marshal.Marked, Held, OwnerHeld;
      Known();
      owner.Write(p);
    }

    method ReadBeside(n: nat) returns (got: seq<byte>)
      requires Valid()
      modifies owner, owner.repr`readIdx
      ensures Beside() && owner.repr == old(owner.repr)
      ensures owner.Valid() && owner.CanWrite() && owner.writeCnt == old(owner.writeCnt)
      ensures got == Front(old(owner.View()), n) && owner.View() == Behind(old(owner.View()), n)
    {
      hide Marshal.Valid, Marshal.View, Marshal.Marked, Held, OwnerHeld;
      Known();
      got := owner.Read(n);
      Cut(got, owner.View());
    }

    method PeekBeside(n: nat) returns (got: seq<byte>)
      requires Valid()
      ensures Beside() && got == Front(owner.View(), n)
    {
      hide Marshal.Valid, Marshal.View, Marshal.Marked, Held, OwnerHeld;
      Known();
      got := owner.Peek(n);
      assert got == Front(owner.View(), n);
    }

    method ReceiveBeside() returns (n: nat, ghost got: seq<byte>)
      requires Valid()
      modifies owner, owner.Tails(), owner.TailBlocks(), fd`incoming, fd`readLog
      ensures Beside() && fresh(owner.Blocks() - old(owner.Blocks()))
      ensures owner.Valid() && owner.CanWrite() && owner.View() == old(owner.View()) + got
      ensures n == |got| && old(fd.incoming) == got + fd.incoming
      ensures owner.writeCnt == old(owner.writeCnt) + n && (old(owner.Marked()) ==> owner.Marked())
      ensures owner.slots == old(owner.slots) && owner.mark == old(owner.mark)
    {
      hide Marshal.Valid, Marshal.View, Marshal.CanWrite, Marshal.Marked, Held, OwnerHeld;
      Known();
      n, got := owner.ReadFromFd(fd);
    }

    method SendBeside() returns (n: nat)
      requires Valid()
      modifies owner, owner.repr`readIdx, fd`sent, fd`writeLog
      ensures Beside() && owner.repr == old(owner.repr)
      ensures owner.Valid() && owner.CanWrite() && owner.writeCnt == old(owner.writeCnt)
      ensures n <= |old(owner.View())| && owner.View() == old(owner.View())[n..]
      ensures fd.sent == old(fd.sent) + old(owner.View())[..n]
    {
      hide Marshal.Valid, Marshal.View, Marshal.Marked, Held, OwnerHeld;
      Known();
      n := owner.WriteToFd(fd);
    }

    method ResetBeside() returns (n: nat)
      requires Valid()
      modifies owner`writeCnt
      ensures Beside() && n == old(owner.writeCnt) && owner.writeCnt == 0
      ensures owner.Valid()
    {
      hide Marshal.View, Marshal.Marked, Held, OwnerHeld;
      Known();
      n := owner.GetAndResetWriteCnt();
    }

    method ReserveBeside(n: nat) returns (ghost blocks: set<RawBytes>)
      requires Valid() && owner.writeCnt == 0
      modifies owner, owner.Tails(), owner.TailBlocks(), this`bm, this`marked
      ensures Beside() && fresh(owner.repr - old(owner.repr)) && fresh(owner.Blocks() - old(owner.Blocks()))
      ensures forall i :: 0 <= i < |others| ==> Unseen(others[i], bm)
      ensures owner.Valid() && owner.CanWrite() && owner.writeCnt == 0
      ensures old(owner.View()) <= owner.View() && |owner.View()| == |old(owner.View())| + n
      ensures marked && owner.Marked() && bm == owner.slots && |bm| == n && owner.mark == |old(owner.View())|
      ensures (forall s :: s in bm ==> s.block in blocks) && forall b :: b in blocks ==> b in old(owner.Blocks()) || fresh(b)
    {
      hide Marshal.Valid, Marshal.View, Marshal.CanWrite, Marshal.Marked, Held, OwnerHeld, OthersShow, OwnerShows, MarkShows;
      Known();
      ghost var last, frozen := owner.tail, if owner.tail == null then 0 else owner.tail.data.frozen;
      bm := owner.SetBookmark(n);
      marked, blocks := true, set s | s in bm :: s.block;
      forall i | 0 <= i < |others|
        ensures Unseen(others[i], bm)
      {
        forall c, s | c in others[i].spine && s in bm && c.data == s.block
          ensures c.writeIdx <= s.idx
        {
          assert last != null && s.block == last.data && frozen <= s.idx;
        }
      }
    }

    method FillBeside(p: seq<byte>)
      requires Valid() && marked && |p| == |bm|
      modifies owner, set s | s in bm :: s.block
      ensures Beside() && owner.repr == old(owner.repr)
      ensures owner.Valid() && owner.CanWrite() && owner.writeCnt == old(owner.writeCnt)
      ensures owner.mark + |p| <= |old(owner.View())| && owner.mark == old(owner.mark)
      ensures owner.View() == old(owner.View())[..owner.mark] + p + old(owner.View())[owner.mark + |p|..]
    {
      hide Marshal.Valid, Marshal.View, Marshal.Marked, Held, OwnerHeld;
      Known();
      owner.WriteBookmark(bm, p);
    }

    method SpliceBeside(n: nat) returns (m: Marshal)
      requires Valid() && n <= |owner.View()|
      modifies owner, owner.repr`readIdx
      ensures Beside() && owner.repr == old(owner.repr)
      ensures owner.Valid() && owner.CanWrite() && owner.writeCnt == old(owner.writeCnt)
      ensures owner.View() == old(owner.View())[n..]
      ensures fresh(m) && fresh(m.repr) && m.Valid() && m.View() == old(owner.View())[..n]
      ensures bm == [] ==> Unseen(m, bm)
    {
      hide Marshal.Valid, Marshal.View, Marshal.Marked, Held, OwnerHeld;
      Known();
      m := new Marshal(owner.arena);
      ghost var got := m.ReadFromMarshal(owner, n);
      Cut(got, owner.View());
      assert [] + got == got;
    }

    /** A buffer filled by `write`. */
    method Build(ps: seq<seq<byte>>) returns (m: Marshal)
      requires forall i :: 0 <= i < |ps| ==> ps[i] != []
      ensures fresh(m) && m.arena == owner.arena && m.Valid() && m.CanWrite() && m.View() == Flatten(ps)
      ensures forall c :: c in m.repr ==> fresh(c) && fresh(c.data)
    {
      hide Marshal.Valid, Marshal.View, Marshal.Marked, Marshal.CanWrite;
      m := new Marshal(owner.arena);
      for i := 0 to |ps|
        invariant m.Valid() && m.CanWrite() && m.View() == Flatten(ps[..i])
        invariant (m.tail == null || m.tail in m.repr) && forall c :: c in m.repr ==> fresh(c) && fresh(c.data)
      {
        FlattenNext(ps, i);
        m.Write(ps[i]);
        m.ChainOwned();
      }
      assert ps[..|ps|] == ps;
    }

    /** Everything in `m` moves over. */
    method AbsorbBeside(m: Marshal)
      requires Valid() && m.Valid() && m.CanWrite() && m.View() != [] && m.arena == owner.arena
      requires m !in repr && forall c :: c in m.repr ==> c !in repr && c.data !in repr
      modifies owner, owner.Tails(), owner.TailBlocks(), m, m.repr`readIdx
      ensures Beside() && owner.repr !! m.repr && m.repr == old(m.repr)
      ensures forall b :: b in owner.Blocks() - old(owner.Blocks()) ==> fresh(b) || b in m.Blocks()
      ensures owner.Valid() && owner.CanWrite() && owner.View() == old(owner.View()) + old(m.View())
      ensures owner.writeCnt == old(owner.writeCnt) + |old(m.View())| && (marked ==> owner.Marked())
      ensures owner.slots == old(owner.slots) && owner.mark == old(owner.mark)
      ensures m.Valid() && m.View() == [] && Unseen(m, bm)
      ensures forall i :: 0 <= i < |others| ==> others[i] != m && others[i].repr !! m.repr
    {
      hide Marshal.Valid, Marshal.View, Marshal.CanWrite, Marshal.Marked;
      Known();
      m.SizeIs();
      m.ChainOwned();
      assert marked ==> owner.Clear(m);
      ghost var got := owner.ReadFromMarshal(m, m.contentSize);
      m.ChainOwned();
    }

    method ReadOther(m: Marshal, k: nat, n: nat)
      requires OthersShow() && Apart() && k < |others| && m == others[k]
      modifies this`now, this`results, m`head, m`tail, m`spine, m`parts, m`first, m`contentSize, m.repr`readIdx
      ensures OthersShow() && results == old(results) + [Bytes(Front(old(now).others[k], n))]
      ensures now == old(now).(others := old(now).others[k := Behind(old(now).others[k], n)], results := results)
    {
      hide Marshal.Valid, Marshal.View;
      forall i | 0 <= i < |others|
        ensures others[i].Owns()
      {
        others[i].ChainOwned();
      }
      var got := m.Read(n);
      Cut(got, m.View());
      results := results + [Bytes(got)];
      now := now.(others := now.others[k := m.View()], results := results);
    }

    method Write(p: seq<byte>)
      requires Valid() && Enabled(now, Op.Write(p))
      modifies repr
      ensures Valid() && fresh(repr - old(repr)) && Next(old(now), Op.Write(p), now)
    {
      hide Marshal.Beside, Held, OwnerHeld, Apart, OthersShow, Unseen, Marshal.Blocks, Marshal.Valid, Marshal.View, Marshal.CanWrite, Marshal.Marked;
      Reach();
      WriteBeside(p);
      Stay();
      Settle(now.(owner := owner.View(), count := owner.writeCnt), {});
    }

    method Read(n: nat)
      requires Valid() && Enabled(now, Op.Read(n))
      modifies repr
      ensures Valid() && fresh(repr - old(repr)) && Next(old(now), Op.Read(n), now)
    {
      hide Marshal.Beside, Held, OwnerHeld, Apart, OthersShow, Unseen, Marshal.Blocks, Marshal.Valid, Marshal.View, Marshal.CanWrite, Marshal.Marked;
      Reach();
      var got := ReadBeside(n);
      results := results + [Bytes(got)];
      Stay();
      Settle(Taken(now, n).(results := results), {});
    }

    method Peek(n: nat)
      requires Valid() && Enabled(now, Op.Peek(n))
      modifies repr
      ensures Valid() && fresh(repr - old(repr)) && Next(old(now), Op.Peek(n), now)
    {
      hide Marshal.Beside, Held, OwnerHeld, Apart, OthersShow, Unseen, Marshal.Blocks, Marshal.Valid, Marshal.View, Marshal.CanWrite, Marshal.Marked;
      Reach();
      var got := PeekBeside(n);
      results := results + [Bytes(got)];
      Stay();
      Settle(now.(results := results), {});
    }

    method Receive()
      requires Valid() && Enabled(now, Op.Receive)
      modifies repr
      ensures Valid() && fresh(repr - old(repr)) && Next(old(now), Op.Receive, now)
    {
      hide Marshal.Beside, Held, OwnerHeld, Apart, OthersShow, Unseen, Marshal.Blocks, Marshal.Valid, Marshal.View, Marshal.CanWrite, Marshal.Marked;
      Reach();
      ghost var got;
      var n;
      n, got := ReceiveBeside();
      Stay();
      Cut(got, fd.incoming);
      Settle(now.(owner := owner.View(), incoming := fd.incoming, count := owner.writeCnt), {});
    }

    method Send()
      requires Valid() && Enabled(now, Op.Send)
      modifies repr
      ensures Valid() && fresh(repr - old(repr)) && Next(old(now), Op.Send, now)
    {
      hide Marshal.Beside, Held, OwnerHeld, Apart, OthersShow, Unseen, Marshal.Blocks, Marshal.Valid, Marshal.View, Marshal.CanWrite, Marshal.Marked;
      Reach();
      var n := SendBeside();
      Stay();
      Settle(Taken(now, n).(sent := fd.sent), {});
    }

    method Reset()
      requires Valid() && Enabled(now, Op.Reset)
      modifies repr
      ensures Valid() && fresh(repr - old(repr)) && Next(old(now), Op.Reset, now)
    {
      hide Marshal.Beside, Held, OwnerHeld, Apart, OthersShow, Unseen, Marshal.Blocks, Marshal.Valid, Marshal.View, Marshal.CanWrite, Marshal.Marked;
      Reach();
      var n := ResetBeside();
      results := results + [Count(n)];
      Stay();
      Settle(now.(count := 0, results := results), {});
    }

    method Reserve(n: nat)
      requires Valid() && Enabled(now, Op.Reserve(n))
      modifies repr
      ensures Valid() && fresh(repr - old(repr)) && Next(old(now), Op.Reserve(n), now)
    {
      hide Next, Beside, Marshal.Beside, Held, OwnerHeld, Apart, OthersShow, Unseen, Marshal.Blocks, Marshal.Valid, Marshal.View, Marshal.CanWrite, Marshal.Marked;
      Reach();
      ghost var blocks := ReserveBeside(n);
      Stay();
      Settle(now.(owner := owner.View(), mark := At(|now.owner|, n)), blocks);
      NextReserve(old(now), n, now);
    }

    method Fill(p: seq<byte>)
      requires Valid() && Enabled(now, Op.Fill(p))
      modifies repr
      ensures Valid() && fresh(repr - old(repr)) && Next(old(now), Op.Fill(p), now)
    {
      hide Marshal.Beside, Held, OwnerHeld, Apart, OthersShow, Unseen, Marshal.Blocks, Marshal.Valid, Marshal.View, Marshal.CanWrite, Marshal.Marked;
      Reach();
      FillBeside(p);
      Stay();
      Release();
      Settle(now.(owner := owner.View(), mark := Unmarked), {});
    }

    method Splice(n: nat)
      requires Valid() && Enabled(now, Op.Splice(n))
      modifies repr
      ensures Valid() && fresh(repr - old(repr)) && Next(old(now), Op.Splice(n), now)
    {
      hide Marshal.Beside, Held, OwnerHeld, Apart, OthersShow, Unseen, Marshal.Blocks, Marshal.Valid, Marshal.View, Marshal.CanWrite, Marshal.Marked;
      Reach();
      var m := SpliceBeside(n);
      Stay();
      SettleWith(m, old(now).owner[..n], Taken(now, n));
    }

    method TakeOver(m: Marshal)
      requires Valid() && m.Valid() && m.CanWrite() && m.View() != [] && m.arena == owner.arena
      requires m !in repr && forall c :: c in m.repr ==> c !in repr && c.data !in repr
      modifies repr, m, m.repr`readIdx
      ensures Valid() && now == old(now).(owner := old(now).owner + old(m.View()), others := old(now).others + [[]],
        count := old(now).count + |old(m.View())|)
      ensures forall o :: o in repr ==> o in old(repr) || o == m || o in m.repr || o in m.Blocks() || fresh(o)
      ensures m.repr == old(m.repr)
    {
      hide Marshal.Beside, Held, OwnerHeld, Apart, OthersShow, Unseen, Marshal.Blocks, Marshal.Valid, Marshal.View, Marshal.CanWrite, Marshal.Marked;
      Reach();
      AbsorbBeside(m);
      Stay();
      SettleWith(m, [], now.(owner := owner.View(), count := owner.writeCnt));
    }

    method Absorb(ps: seq<seq<byte>>)
      requires Valid() && Enabled(now, Op.Absorb(ps))
      modifies repr
      ensures Valid() && fresh(repr - old(repr)) && Next(old(now), Op.Absorb(ps), now)
    {
      hide Held, OwnerHeld, Apart, Marshal.Valid, Marshal.View, Marshal.CanWrite, Marshal.Marked;
      var m := Build(ps);
      TakeOver(m);
    }

    method OtherReads(k: nat, n: nat)
      requires Valid() && Enabled(now, Op.OtherReads(k, n))
      modifies repr
      ensures Valid() && fresh(repr - old(repr)) && Next(old(now), Op.OtherReads(k, n), now)
    {
      hide OthersShow, Marshal.Valid, Marshal.View, Marshal.CanWrite, Marshal.Marked;
      Known();
      Reach();
      ReadOther(others[k], k, n);
    }

    // ---- runs

    /** What the code asserts about a call, tested on the buffers themselves. */
    method Allowed(op: Op) returns (ok: bool)
      requires Valid()
      ensures ok <==> Enabled(now, op)
    {
      owner.SizeIs();
      match op {
        case Write(p) => ok := p != [];
        case Read(_) => ok := !marked;
        case Peek(_) => ok := true;
        case Receive => ok := true;
        case Send => ok := !marked;
        case Reset => ok := true;
        case Reserve(_) => ok := !marked && owner.writeCnt == 0;
        case Fill(p) => ok := marked && |p| == |bm|;
        case Splice(n) => ok := !marked && n <= owner.contentSize;
        case Absorb(ps) => ok := ps != [] && forall i :: 0 <= i < |ps| ==> ps[i] != [];
        case OtherReads(k, _) => ok := k < |others|;
      }
    }

    method Apply(op: Op)
      requires Valid()
      modifies repr
      ensures Valid() && fresh(repr - old(repr)) && Next(old(now), op, now)
    {
      hide Valid, Next;
      var ok := Allowed(op);
      if !ok {
        Skip(now, op);
        return;
      }
      match op {
        case Write(p) => Write(p);
        case Read(n) => Read(n);
        case Peek(n) => Peek(n);
        case Receive => Receive();
        case Send => Send();
        case Reset => Reset();
        case Reserve(n) => Reserve(n);
        case Fill(p) => Fill(p);
        case Splice(n) => Splice(n);
        case Absorb(ps) => Absorb(ps);
        case OtherReads(k, n) => OtherReads(k, n);
      }
    }

    /**
     Any sequence of operations, from any state of the family on; blocks come to be shared by splices out of
     the owner and by taking over buffers that were written elsewhere.  At every moment each buffer holds,
     and every call reports, what separate byte strings would have given.
     */
    method Run(ops: seq<Op>) returns (ghost trace: seq<State>)
      requires Valid()
      modifies repr
      ensures Valid() && fresh(repr - old(repr))
      ensures Follows(trace, ops) && trace[0] == old(now) && trace[|ops|] == now
    {
      hide Valid, Next;
      trace := [now];
      for i := 0 to |ops|
        invariant Valid() && fresh(repr - old(repr))
        invariant Follows(trace, ops[..i]) && trace[0] == old(now) && trace[i] == now
      {
        Apply(ops[i]);
        trace := trace + [now];
      }
      assert ops[..|ops|] == ops;
    }
  }

  lemma Skip(s: State, op: Op)
    requires !Enabled(s, op)
    ensures Next(s, op, s)
  {
  }
}
