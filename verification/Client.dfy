/** The receiving half of a client, and the futures it completes: rpc/client.cc. */
module Clients {
  import opened Bytes
  import opened Chunks
  import opened Marshals
  import opened Framing
  import opened Serialize
  import opened Sending
  import opened SparseInt
  import opened Wire
  import opened Servers

  /** A reply as the server framed it: <xid> <error_code> <ret1> ... <retN>. */
  datatype Reply = Reply(xid: int, code: int, body: seq<byte>)

  /** What one round of the packet loop finds at the front of the buffer. */
  datatype Round = Idle | Hit(reply: Reply, rest: seq<byte>) | Miss(xid: int, rest: seq<byte>) | Bad

  /**
   A complete packet starts with an xid and an error code.  If the xid is known the rest of the packet
   is the body of the reply; if it is not, the body is left where it is.
   */
  function Look(known: set<int>, buf: seq<byte>): (r: Round)
    ensures r.Hit? ==> |r.rest| < |buf| && r.reply.xid in known
    ensures r.Miss? ==> |r.rest| < |buf|
  {
    if |buf| >= 4 && Announced(buf) < 0 then Bad else
    if !Complete(buf) then Idle else
    var t := TakeV64(buf[4..]);
    if t.None? then Bad else
    var u := TakeV32(t.value.1);
    if u.None? then Bad else
    if t.value.0 !in known then Miss(t.value.0, u.value.1) else
    if !Fits(t.value.0, 8) || !Fits(u.value.0, 4) then Bad else
    var n := Announced(buf) - ValSize(t.value.0) - ValSize(u.value.0);
    if 0 <= n <= |u.value.1| then Hit(Reply(t.value.0, u.value.0, u.value.1[..n]), u.value.1[n..]) else Bad
  }

  /** What the packet loop makes of a buffer. */
  datatype Outcome = Outcome(replies: seq<Reply>, missed: seq<int>, known: set<int>, rest: seq<byte>, bad: bool)

  function Sort(known: set<int>, buf: seq<byte>): Outcome
    decreases |buf|
  {
    match Look(known, buf)
    case Idle => Outcome([], [], known, buf, false)
    case Bad => Outcome([], [], known, buf, true)
    case Miss(xid, rest) => var next := Sort(known, rest); next.(missed := [xid] + next.missed)
    case Hit(reply, rest) => var next := Sort(known - {reply.xid}, rest); next.(replies := [reply] + next.replies)
  }

  /** An asynchronous call. */
  class Future {
    const xid: int
    const reply: Marshal
    var errorCode: int
    var ready: bool
    var timedOut: bool

    constructor (xid: int)
      ensures this.xid == xid && !ready && !timedOut && errorCode == 0
      ensures Blank() && fresh(reply)
    {
      this.xid, errorCode, ready, timedOut := xid, 0, false, false;
      reply := new Marshal(0);
    }

    /** No reply has arrived yet. */
    ghost predicate Blank()
      reads reply
    {
      reply.spine == [] && reply.tail == null && reply.repr == {} && reply.arena == 0 && reply.Valid() && reply.View() == []
    }

    /** A reply has arrived. */
    ghost predicate Filled(r: Reply)
      reads this, reply, reply.spine, set i | 0 <= i < |reply.spine| :: reply.spine[i].data
    {
      xid == r.xid && errorCode == r.code && reply.Valid() && reply.Owns() && reply.View() == r.body && (ready || timedOut)
    }

    /** A future that has timed out does not become ready. */
    method NotifyReady()
      modifies this`ready
      ensures ready == (old(ready) || !timedOut)
    {
      if !timedOut {
        ready := true;
      }
    }
  }

  /** Fills a future in with the rest of a packet. */
  method Fill(fu: Future, src: Marshal, code: int, n: nat, ghost r: Reply)
    requires fu.Blank() && fu.reply != src && src.Valid() && src.arena == 0 && n <= |src.View()|
    requires fu.xid == r.xid && r.code == code && r.body == src.View()[..n]
    modifies fu`errorCode, fu`ready, fu.reply
    modifies src`head, src`tail, src`spine, src`parts, src`first, src`contentSize, src.repr`readIdx
    ensures src.Valid() && src.View() == old(src.View())[n..] && (src.tail == null || src.tail == old(src.tail))
    ensures fu.Filled(r) && fresh(fu.reply.repr) && fu.reply.repr !! src.repr && fu.ready == (old(fu.ready) || !fu.timedOut)
  {
    hide Marshal.View, Marshal.Valid, Marshal.CanWrite, Marshal.Marked, Grows;
    fu.errorCode := code;
    ghost var got := fu.reply.ReadFromMarshal(src, n);
    Cut(got, src.View());
    assert [] + got == got;
    fu.reply.ChainOwned();
    src.ChainOwned();
    fu.NotifyReady();
  }

  /** The pending futures: each under its own xid, none with a reply yet. */
  ghost predicate Waiting(pending: map<int, Future>, src: Marshal)
    reads set x | x in pending :: pending[x].reply
  {
    (forall x :: x in pending ==> pending[x].xid == x && pending[x].Blank() && pending[x].reply != src) &&
    forall x, y :: x in pending && y in pending && x != y ==> pending[x] != pending[y] && pending[x].reply != pending[y].reply
  }

  /** The futures that have left the pending ones hold their replies, in buffers of their own. */
  ghost predicate Finished(done: seq<Future>, replies: seq<Reply>, pending: map<int, Future>, src: Marshal)
    reads src`repr, set k | 0 <= k < |done| :: done[k], set k | 0 <= k < |done| :: done[k].reply
    reads set k, i | 0 <= k < |done| && 0 <= i < |done[k].reply.spine| :: done[k].reply.spine[i]
    reads set k, i | 0 <= k < |done| && 0 <= i < |done[k].reply.spine| :: done[k].reply.spine[i].data
  {
    |done| == |replies| &&
    forall k :: 0 <= k < |done| ==>
      done[k].Filled(replies[k]) && done[k].reply != src && done[k].reply.repr !! src.repr &&
      forall x :: x in pending ==> pending[x] != done[k] && pending[x].reply != done[k].reply
  }

  /** The future a round completes, and its buffer. */
  ghost function Completed(pending: map<int, Future>, r: Round): set<object>
    requires r.Hit? ==> r.reply.xid in pending
  {
    if r.Hit? then {pending[r.reply.xid], pending[r.reply.xid].reply} else {}
  }

  function After(pending: map<int, Future>, r: Round): map<int, Future>
  {
    if r.Hit? then pending - {r.reply.xid} else pending
  }

  function Rest(r: Round, buf: seq<byte>): seq<byte>
  {
    if r.Hit? then r.rest else if r.Miss? then r.rest else buf
  }

  /** One round of the packet loop. */
  method TakeReply(src: Marshal, pending: map<int, Future>, ghost r: Round) returns (more: bool, fu: Future?)
    requires src.Valid() && src.arena == 0 && r == Look(pending.Keys, src.View()) && !r.Bad? && Waiting(pending, src)
    modifies src`head, src`tail, src`spine, src`parts, src`first, src`contentSize, src.repr`readIdx, Completed(pending, r)
    ensures src.Valid() && src.View() == Rest(r, old(src.View())) && (src.tail == null || src.tail == old(src.tail))
    ensures src.repr == old(src.repr)
    ensures more == !r.Idle? && (fu != null <==> r.Hit?)
    ensures fu != null ==> fu == pending[r.reply.xid] && fu.Filled(r.reply) && fresh(fu.reply.repr) && fu.reply.repr !! src.repr
    ensures fu != null ==> fu.ready == (old(fu.ready) || !fu.timedOut) && fu.timedOut == old(fu.timedOut)
  {
    hide Marshal.View, Marshal.Valid, TakeV64, TakeV32, ValSize, Fits;
    fu := null;
    ghost var before := src.View();
    var size;
    more, size := TakeSize(src);
    if more {
      var xid := GetV64Obj(src);
      var code := GetV32Obj(src);
      if xid.v in pending {
        fu := pending[xid.v];
        Fill(fu, src, code.v, size - ValSize(xid.v) - ValSize(code.v), r.reply);
      }
    }
  }

  /** The futures a round does not complete stay as they are. */
  method TakeNextReply(src: Marshal, pending: map<int, Future>, done: seq<Future>, ghost replies: seq<Reply>, ghost r: Round)
      returns (more: bool, fu: Future?)
    requires src.Valid() && src.arena == 0 && r == Look(pending.Keys, src.View()) && !r.Bad? && Waiting(pending, src)
    requires Finished(done, replies, pending, src)
    modifies src`head, src`tail, src`spine, src`parts, src`first, src`contentSize, src.repr`readIdx, Completed(pending, r)
    ensures src.Valid() && src.View() == Rest(r, old(src.View())) && (src.tail == null || src.tail == old(src.tail))
    ensures src.repr == old(src.repr)
    ensures more == !r.Idle? && (fu != null <==> r.Hit?) && (fu != null ==> fu == pending[r.reply.xid] && fu.xid == r.reply.xid)
    ensures Waiting(After(pending, r), src)
    ensures fu == null ==> Finished(done, replies, After(pending, r), src)
    ensures fu != null ==> Finished(done + [fu], replies + [r.reply], After(pending, r), src)
    ensures fu != null ==> fu.ready == (old(fu.ready) || !fu.timedOut) && fu.timedOut == old(fu.timedOut)
  {
    hide Marshal.View, Marshal.Valid, Look, Rest;
    more, fu := TakeReply(src, pending, r);
  }

  /** The packet loop: every reply completes the future it belongs to. */
  method TakeReplies(src: Marshal, pending: map<int, Future>) returns (done: seq<Future>, left: map<int, Future>)
    requires src.Valid() && src.arena == 0 && Waiting(pending, src) && !Sort(pending.Keys, src.View()).bad
    modifies src`head, src`tail, src`spine, src`parts, src`first, src`contentSize, src.repr`readIdx
    modifies Footprint(pending)
    ensures src.Valid() && src.View() == Sort(pending.Keys, old(src.View())).rest && (src.tail == null || src.tail == old(src.tail))
    ensures Waiting(left, src) && Finished(done, Sort(pending.Keys, old(src.View())).replies, left, src)
    ensures left.Keys == Sort(pending.Keys, old(src.View())).known && Within(left, pending)
    ensures forall fu :: fu in done ==> fu.xid in pending && pending[fu.xid] == fu
  {
    hide Marshal.View, Marshal.Valid, Look, Waiting, Finished, Rest;
    done, left := [], pending;
    ghost var replies: seq<Reply> := [];
    ghost var all := Prepend([], [], Sort(pending.Keys, src.View()));
    NoneFinished(pending, src);
    PrependNone(Sort(pending.Keys, src.View()));
    var more := true;
    while more
      invariant src.Valid() && (src.tail == null || src.tail == old(src.tail)) && src.repr == old(src.repr)
      invariant all == Prepend(replies, [], Sort(left.Keys, src.View())) && !all.bad
      invariant !more ==> Sort(left.Keys, src.View()) == Outcome([], [], left.Keys, src.View(), false)
      invariant Waiting(left, src) && Finished(done, replies, left, src) && Within(left, pending)
      invariant forall fu :: fu in done ==> fu.xid in pending && pending[fu.xid] == fu
      decreases more, |src.View()|
    {
      ghost var r, before := Look(left.Keys, src.View()), src.View();
      RoundIs(left.Keys, before, r);
      assert Completed(left, r) <= Footprint(pending);
      var fu;
      more, fu := TakeNextReply(src, left, done, replies, r);
      if fu != null {
        assert (left - {fu.xid}).Keys == left.Keys - {fu.xid};
        PrependMore(replies, r.reply, Sort(left.Keys - {fu.xid}, src.View()));
        done, left, replies := done + [fu], left - {fu.xid}, replies + [r.reply];
      }
    }
    assert replies + [] == replies;
  }

  ghost function Footprint(pending: map<int, Future>): set<object>
  {
    (set x | x in pending :: pending[x]) + (set x | x in pending :: pending[x].reply)
  }

  predicate Within(left: map<int, Future>, pending: map<int, Future>)
  {
    forall x :: x in left ==> x in pending && left[x] == pending[x]
  }

  /** An outcome with some replies in front of it. */
  function Prepend(replies: seq<Reply>, missed: seq<int>, o: Outcome): Outcome
  {
    o.(replies := replies + o.replies, missed := missed)
  }

  lemma PrependMore(replies: seq<Reply>, r: Reply, o: Outcome)
    ensures Prepend(replies + [r], [], o) == Prepend(replies, [], Prepend([r], [], o))
  {
    assert replies + [r] + o.replies == replies + ([r] + o.replies);
  }

  lemma PrependNone(o: Outcome)
    ensures Prepend([], [], o) == o.(missed := [])
  {
    assert [] + o.replies == o.replies;
  }

  lemma RoundIs(known: set<int>, buf: seq<byte>, r: Round)
    requires r == Look(known, buf)
    ensures r.Idle? ==> Rest(r, buf) == buf && Sort(known, buf) == Outcome([], [], known, buf, false)
    ensures r.Bad? ==> Sort(known, buf).bad
    ensures r.Miss? ==> |Rest(r, buf)| < |buf| && Sort(known, buf).(missed := []) == Sort(known, Rest(r, buf)).(missed := [])
    ensures r.Hit? ==> |Rest(r, buf)| < |buf| && r.reply.xid in known
    ensures r.Hit? ==> Sort(known, buf).(missed := []) == Prepend([r.reply], [], Sort(known - {r.reply.xid}, Rest(r, buf)))
  {
    hide Look;
  }

  lemma NoneFinished(pending: map<int, Future>, src: Marshal)
    ensures Finished([], [], pending, src)
  {
  }

  const ENOTCONN := 107

  datatype Status = New | Connected | Closed

  /** Replies that were completed before: they may share blocks with `src`, but are nobody else's. */
  ghost predicate Delivered(ms: seq<Marshal>, pending: map<int, Future>, src: Marshal)
    reads src`repr, set i | 0 <= i < |ms| :: ms[i]
    reads set i, j | 0 <= i < |ms| && 0 <= j < |ms[i].spine| :: ms[i].spine[j]
    reads set i, j | 0 <= i < |ms| && 0 <= j < |ms[i].spine| :: ms[i].spine[j].data
  {
    Neighbours(ms, src) && forall x, i :: x in pending && 0 <= i < |ms| ==> pending[x].reply != ms[i]
  }

  /** The buffers of completed futures. */
  ghost function Replies(done: seq<Future>): (ms: seq<Marshal>)
    ensures |ms| == |done| && forall i :: 0 <= i < |done| ==> ms[i] == done[i].reply
  {
    if done == [] then [] else Replies(done[..|done| - 1]) + [done[|done| - 1].reply]
  }

  /** What one wake-up completes is left alone by the later ones. */
  lemma NowDelivered(done: seq<Future>, replies: seq<Reply>, pending: map<int, Future>, src: Marshal)
    requires Finished(done, replies, pending, src)
    ensures Delivered(Replies(done), pending, src)
  {
    hide Marshal.Valid;
  }

  class Client {
    const src: Marshal
    const sender: Sender
    var status: Status
    var pending: map<int, Future>
    var xidCounter: nat

    ghost predicate Valid()
      reads this, src, src.spine, set i | 0 <= i < |src.spine| :: src.spine[i].data
      reads src.Tails(), src.TailBlocks(), set x | x in pending :: pending[x].reply
      reads sender, sender.sock`sent, sender.out, sender.out.spine, set i | 0 <= i < |sender.out.spine| :: sender.out.spine[i].data
      reads sender.out.Tails(), sender.out.TailBlocks()
    {
      ValidWith(pending)
    }

    ghost predicate ValidWith(pending: map<int, Future>)
      reads this`xidCounter, src, src.spine, set i | 0 <= i < |src.spine| :: src.spine[i].data
      reads src.Tails(), src.TailBlocks(), set x | x in pending :: pending[x].reply
      reads sender, sender.sock`sent, sender.out, sender.out.spine, set i | 0 <= i < |sender.out.spine| :: sender.out.spine[i].data
      reads sender.out.Tails(), sender.out.TailBlocks()
    {
      src.Valid() && src.CanWrite() && src.arena == 0 && sender.Valid() && sender.out.arena == 1 &&
      src != sender.out && src.repr !! sender.out.repr &&
      Waiting(pending, src) && forall x :: x in pending ==> 0 <= x < xidCounter && pending[x].reply != sender.out
    }

    constructor (sock: Fd)
      requires sock.sent == []
      ensures Valid() && status == Connected && pending == map[] && xidCounter == 0
      ensures sender.sock == sock && sender.done == [] && !sender.locked && src.View() == []
    {
      src := new Marshal(0);
      sender := new Sender(sock);
      status, pending, xidCounter := Connected, map[], 0;
    }

    /** Registers a new future under the next xid. */
    method Register() returns (fu: Future)
      requires Valid()
      modifies this`pending, this`xidCounter
      ensures Valid() && fresh(fu) && fresh(fu.reply) && fu.Blank() && !fu.ready && !fu.timedOut
      ensures fu.xid == old(xidCounter) && fu.xid !in old(pending) && xidCounter == old(xidCounter) + 1
      ensures pending == old(pending)[fu.xid := fu]
    {
      hide Marshal.Valid, Marshal.View, Marshal.CanWrite, Sender.Valid;
      fu := new Future(xidCounter);
      pending, xidCounter := pending[xidCounter := fu], xidCounter + 1;
    }

    /**
     begin_request: the lock stays held in either case; only a connected client registers a future and
     starts a frame, with the xid and the rpc id at its front.
     */
    method BeginRequest(rpcId: int) returns (fu: Future?)
      requires Valid() && !sender.locked && Typed(V64, Num(xidCounter)) && Typed(Int(4), Num(rpcId))
      modifies this`pending, this`xidCounter, sender, sender.out, sender.out.Tails(), sender.out.TailBlocks()
      ensures Valid() && sender.locked && sender.framing == (status == Connected) && (fu != null <==> status == Connected)
      ensures sender.done == old(sender.done) && sender.polled == old(sender.polled) && (old(sender.Awaited()) ==> sender.Awaited())
      ensures fu == null ==> pending == old(pending)
      ensures fu != null ==> fresh(fu) && fu.xid == old(xidCounter) && fu.xid !in old(pending) && pending == old(pending)[fu.xid := fu]
      ensures fu != null ==> sender.payload == Encode(V64, Num(fu.xid)) + Encode(Int(4), Num(rpcId))
    {
      hide Valid, Sender.Valid, Encode, Typed;
      fu := null;
      Parts();
      if status != Connected {
        TakeLock();
      } else {
        fu := Register();
        StartFrame(fu.xid, rpcId);
      }
    }

    lemma Parts()
      requires Valid()
      ensures sender.Valid()
    {
    }

    /** A client that is not connected only takes the lock. */
    method TakeLock()
      requires Valid() && !sender.locked
      modifies sender, sender.out, sender.out.Tails(), sender.out.TailBlocks()
      ensures Valid() && sender.locked && !sender.framing && sender.done == old(sender.done)
      ensures sender.polled == old(sender.polled) && (old(sender.Awaited()) ==> sender.Awaited())
    {
      hide Marshal.Valid, Marshal.View, Marshal.CanWrite, Sender.Valid, Waiting;
      sender.TailOwned();
      src.ChainOwned();
      sender.Begin(false);
    }

    method StartFrame(xid: int, rpcId: int)
      requires Valid() && !sender.locked && Typed(V64, Num(xid)) && Typed(Int(4), Num(rpcId))
      modifies sender, sender.out, sender.out.Tails(), sender.out.TailBlocks()
      ensures Valid() && sender.locked && sender.framing && sender.done == old(sender.done)
      ensures sender.polled == old(sender.polled) && (old(sender.Awaited()) ==> sender.Awaited())
      ensures sender.payload == Encode(V64, Num(xid)) + Encode(Int(4), Num(rpcId))
    {
      hide Marshal.Valid, Marshal.View, Marshal.CanWrite, Sender.Valid, Waiting, Encode, Typed;
      sender.TailOwned();
      src.ChainOwned();
      WriteHeader(xid, rpcId);
    }

    method WriteHeader(xid: int, rpcId: int)
      requires sender.Valid() && !sender.locked && Typed(V64, Num(xid)) && Typed(Int(4), Num(rpcId))
      modifies sender, sender.out, sender.out.Tails(), sender.out.TailBlocks()
      ensures sender.Valid() && sender.locked && sender.framing && sender.done == old(sender.done)
      ensures sender.polled == old(sender.polled) && (old(sender.Awaited()) ==> sender.Awaited())
      ensures sender.payload == Encode(V64, Num(xid)) + Encode(Int(4), Num(rpcId))
      ensures fresh(sender.out.repr - old(sender.out.repr))
    {
      hide Sender.Valid, Encode, Typed;
      sender.Begin(true);
      sender.Append(V64, Num(xid));
      sender.Append(Int(4), Num(rpcId));
      assert [] + Encode(V64, Num(xid)) == Encode(V64, Num(xid));
    }

    /** The packet loop, while replies that were completed before are read. */
    method TakeBeside(ghost earlier: seq<Marshal>) returns (done: seq<Future>, left: map<int, Future>)
      requires src.Valid() && src.CanWrite() && src.arena == 0 && Waiting(pending, src) && !Sort(pending.Keys, src.View()).bad
      requires Delivered(earlier, pending, src)
      modifies src`head, src`tail, src`spine, src`parts, src`first, src`contentSize, src.repr`readIdx, Footprint(pending)
      ensures src.Valid() && src.CanWrite() && Waiting(left, src) && Within(left, pending)
      ensures src.View() == Sort(pending.Keys, old(src.View())).rest && left.Keys == Sort(pending.Keys, old(src.View())).known
      ensures Finished(done, Sort(pending.Keys, old(src.View())).replies, left, src)
      ensures forall fu :: fu in done ==> fu.xid in pending && pending[fu.xid] == fu
      ensures Delivered(earlier, left, src) && forall i :: 0 <= i < |earlier| ==> earlier[i].View() == old(earlier[i].View())
    {
      hide Marshal.View, Marshal.Valid, Sort, Finished;
      done, left := TakeReplies(src, pending);
    }

    /** in_.read_from_fd. */
    method Arrive(ghost earlier: seq<Marshal>) returns (n: nat, ghost got: seq<byte>)
      requires src.Valid() && src.CanWrite() && src.arena == 0 && Waiting(pending, src) && Delivered(earlier, pending, src)
      modifies src, src.repr`readIdx, src.Tails(), src.TailBlocks(), sender.sock`incoming, sender.sock`readLog
      ensures src.Valid() && src.CanWrite() && fresh(src.repr - old(src.repr)) && Waiting(pending, src) && Delivered(earlier, pending, src)
      ensures n == |got| && old(sender.sock.incoming) == got + sender.sock.incoming && got == old(sender.sock.incoming)[..n]
      ensures src.View() == old(src.View()) + got
      ensures forall i :: 0 <= i < |earlier| ==> earlier[i].View() == old(earlier[i].View())
      ensures sender.sock.Drained()
    {
      hide Marshal.View, Marshal.Valid, Marshal.CanWrite, Neighbours;
      src.ChainOwned();
      n, got := ReceiveBeside(src, sender.sock, earlier);
    }

    /** in_.read_from_fd and the packet loop. */
    method ReadReplies(ghost earlier: seq<Marshal>) returns (done: seq<Future>, left: map<int, Future>, ghost got: seq<byte>)
      requires src.Valid() && src.CanWrite() && src.arena == 0 && Waiting(pending, src)
      requires Sort(pending.Keys, src.View()) == Outcome([], [], pending.Keys, src.View(), false)
      requires forall n :: 0 <= n <= |sender.sock.incoming| ==> !Sort(pending.Keys, src.View() + sender.sock.incoming[..n]).bad
      requires Delivered(earlier, pending, src)
      modifies src, src.repr`readIdx, src.Tails(), src.TailBlocks(), sender.sock`incoming, sender.sock`readLog, Footprint(pending)
      ensures src.Valid() && src.CanWrite() && fresh(src.repr - old(src.repr)) && Waiting(left, src) && Within(left, pending)
      ensures old(sender.sock.incoming) == got + sender.sock.incoming
      ensures var o := Sort(pending.Keys, old(src.View()) + got); Outcomes(pending, done, left, o) && Finished(done, o.replies, left, src)
      ensures Delivered(earlier, left, src) && forall i :: 0 <= i < |earlier| ==> earlier[i].View() == old(earlier[i].View())
      ensures sender.sock.Drained()
    {
      hide Marshal.View, Marshal.Valid, Marshal.CanWrite, Sort, Finished, Neighbours;
      done, left := [], pending;
      ghost var before := src.View();
      var n;
      n, got := Arrive(earlier);
      if n == 0 {
        assert before + [] == before;
        NoneFinished(pending, src);
        return;
      }
      done, left := TakeBeside(earlier);
    }

    /** Nothing that is being sent is touched. */
    method ReadBeside(ghost earlier: seq<Marshal>) returns (done: seq<Future>, left: map<int, Future>, ghost got: seq<byte>)
      requires Valid() && Sort(pending.Keys, src.View()) == Outcome([], [], pending.Keys, src.View(), false)
      requires forall n :: 0 <= n <= |sender.sock.incoming| ==> !Sort(pending.Keys, src.View() + sender.sock.incoming[..n]).bad
      requires Delivered(earlier, pending, src)
      modifies src, src.repr`readIdx, src.Tails(), src.TailBlocks(), sender.sock`incoming, sender.sock`readLog, Footprint(pending)
      ensures ValidWith(left)
      ensures old(sender.sock.incoming) == got + sender.sock.incoming
      ensures var o := Sort(pending.Keys, old(src.View()) + got); Outcomes(pending, done, left, o) && Finished(done, o.replies, left, src)
      ensures Delivered(earlier, left, src) && forall i :: 0 <= i < |earlier| ==> earlier[i].View() == old(earlier[i].View())
      ensures sender.sock.Drained()
    {
      hide Outcomes, Delivered, Footprint, Marshal.View, Marshal.Valid, Marshal.CanWrite, Sort, Finished, Waiting, Sender.Valid;
      src.ChainOwned();
      sender.TailOwned();
      NothingSent();
      done, left, got := ReadReplies(earlier);
    }

    lemma NothingSent()
      requires ValidWith(pending)
      ensures forall o :: o in Footprint(pending) ==> (o is Future || o is Marshal) && o != src && o != sender.out
    {
    }

    /** What an arrival does to the pending futures and to the buffer. */
    ghost predicate Outcomes(asked: map<int, Future>, done: seq<Future>, left: map<int, Future>, o: Outcome)
      reads src`parts, set k | 0 <= k < |done| :: done[k]
    {
      src.View() == o.rest && left.Keys == o.known && Within(left, asked) &&
      forall fu :: fu in done ==> fu.xid in asked && asked[fu.xid] == fu
    }

    /** One wake-up of the polling thread. */
    method HandleRead(ghost earlier: seq<Marshal>) returns (done: seq<Future>, ghost got: seq<byte>)
      requires Valid() && Delivered(earlier, pending, src)
      requires status == Connected ==> Sort(pending.Keys, src.View()) == Outcome([], [], pending.Keys, src.View(), false)
      requires status == Connected ==>
        forall n :: 0 <= n <= |sender.sock.incoming| ==> !Sort(pending.Keys, src.View() + sender.sock.incoming[..n]).bad
      modifies this`pending, src, src.repr`readIdx, src.Tails(), src.TailBlocks(), sender.sock`incoming, sender.sock`readLog, Footprint(pending)
      ensures Valid() && old(sender.sock.incoming) == got + sender.sock.incoming
      ensures status != Connected ==> got == [] && done == [] && pending == old(pending) && src.View() == old(src.View())
      ensures status == Connected ==> var o := Sort(old(pending).Keys, old(src.View()) + got);
        src.View() == o.rest && pending.Keys == o.known && Within(pending, old(pending)) && Finished(done, o.replies, pending, src)
      ensures forall fu :: fu in done ==> fu.xid in old(pending) && old(pending)[fu.xid] == fu
      ensures Delivered(earlier, pending, src) && forall i :: 0 <= i < |earlier| ==> earlier[i].View() == old(earlier[i].View())
      ensures status == Connected ==> sender.sock.Drained()
    {
      hide Valid, Marshal.View, Marshal.Valid, Sort, Finished, Delivered, Within;
      done, got := [], [];
      if status == Connected {
        done, got := HandleArrival(earlier);
      }
    }

    method HandleArrival(ghost earlier: seq<Marshal>) returns (done: seq<Future>, ghost got: seq<byte>)
      requires Valid() && Delivered(earlier, pending, src)
      requires Sort(pending.Keys, src.View()) == Outcome([], [], pending.Keys, src.View(), false)
      requires forall n :: 0 <= n <= |sender.sock.incoming| ==> !Sort(pending.Keys, src.View() + sender.sock.incoming[..n]).bad
      modifies this`pending, src, src.repr`readIdx, src.Tails(), src.TailBlocks(), sender.sock`incoming, sender.sock`readLog, Footprint(pending)
      ensures Valid() && old(sender.sock.incoming) == got + sender.sock.incoming
      ensures var o := Sort(old(pending).Keys, old(src.View()) + got);
        Outcomes(old(pending), done, pending, o) && Finished(done, o.replies, pending, src)
      ensures Delivered(earlier, pending, src) && forall i :: 0 <= i < |earlier| ==> earlier[i].View() == old(earlier[i].View())
      ensures sender.sock.Drained()
    {
      hide Outcomes, Marshal.View, Marshal.Valid, Marshal.CanWrite, Sender.Valid, Waiting, Sort, Finished, Delivered;
      var left;
      done, left, got := ReadBeside(earlier);
      pending := left;
    }

    /** close: every pending future completes with ENOTCONN, and none is left. */
    method Close() returns (failed: seq<Future>)
      requires Valid()
      modifies this`status, this`pending, sender`polled, Footprint(pending)
      ensures Valid() && status == Closed && pending == map[] && (old(status) == Connected ==> !sender.polled)
      ensures forall fu :: fu in failed ==> fu.errorCode == ENOTCONN && (fu.ready || fu.timedOut)
      ensures forall x :: x in old(pending) ==> old(pending)[x] in failed
      ensures forall fu :: fu in failed ==> fu.xid in old(pending) && old(pending)[fu.xid] == fu
      ensures forall k, l :: 0 <= k < l < |failed| ==> failed[k] != failed[l]
    {
      hide Marshal.Valid, Marshal.View, Marshal.CanWrite, Sender.Valid, Sender.Awaited, Future.Blank;
      if status == Connected {
        sender.Forget();
      }
      status := Closed;
      var futures := pending;
      pending := map[];
      failed := Invalidate(futures);
    }
  }

  lemma SomeXid(xids: set<int>)
    requires xids != {}
    ensures exists x :: x in xids
  {
    assert (forall x :: x !in xids) ==> xids == {};
  }

  /** The loop of invalidate_pending_futures. */
  method Invalidate(futures: map<int, Future>) returns (failed: seq<Future>)
    requires forall x :: x in futures ==> futures[x].xid == x
    modifies set x | x in futures :: futures[x]
    ensures forall fu :: fu in failed ==> fu.errorCode == ENOTCONN && (fu.ready || fu.timedOut)
    ensures forall fu :: fu in failed ==> fu.xid in futures && futures[fu.xid] == fu
    ensures forall x :: x in futures ==> futures[x] in failed
    ensures forall k, l :: 0 <= k < l < |failed| ==> failed[k] != failed[l]
  {
    failed := [];
    var todo := futures.Keys;
    while todo != {}
      invariant todo <= futures.Keys && forall x :: x in todo ==> futures[x] !in failed
      invariant forall x :: x in futures && x !in todo ==> futures[x] in failed
      invariant forall fu :: fu in failed ==> fu.errorCode == ENOTCONN && (fu.ready || fu.timedOut)
      invariant forall fu :: fu in failed ==> fu.xid in futures && futures[fu.xid] == fu
      invariant forall k, l :: 0 <= k < l < |failed| ==> failed[k] != failed[l]
    {
      SomeXid(todo);
      var x :| x in todo;
      var fu := futures[x];
      fu.errorCode := ENOTCONN;
      fu.NotifyReady();
      failed, todo := failed + [fu], todo - {x};
    }
  }
}
