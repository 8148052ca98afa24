/**
 The sending half of a connection: out_, out_l_ and bmark_ of rpc/client.cc and rpc/server.cc, which
 frame their messages alike.
 */
module Sending {
  import opened Bytes
  import opened Chunks
  import opened Marshals
  import opened Framing
  import opened Serialize

  lemma {:induction false} FramesSnoc(ps: seq<seq<byte>>, p: seq<byte>)
    ensures Frames(ps + [p]) == Frames(ps) + Frame(p)
  {
    hide Frame;
    if ps == [] {
      assert [] + [p] == [p] && Frames([p][1..]) == [] && [] + Frame(p) == Frame(p) == Frame(p) + [];
    } else {
      assert (ps + [p])[0] == ps[0] && (ps + [p])[1..] == ps[1..] + [p];
      FramesSnoc(ps[1..], p);
      Assoc(Frame(ps[0]), Frames(ps[1..]), Frame(p));
    }
  }

  lemma Reserved(before: seq<byte>, view: seq<byte>)
    requires before <= view && |view| == |before| + 4
    ensures view[..|before|] == before && view[|before| + 4..] == []
  {
  }

  /** What is appended behind a reserved prefix changes nothing before it. */
  lemma Behind(before: seq<byte>, p: seq<byte>, mark: nat)
    requires mark + 4 <= |before|
    ensures (before + p)[..mark] == before[..mark] && (before + p)[mark + 4..] == before[mark + 4..] + p
  {
  }

  class Sender {
    const out: Marshal
    const sock: Fd

    /** Whether some thread is between begin_ and end_. */
    var locked: bool

    /** Whether the poller knows the connection, and whether it is to report when there is room to write. */
    var polled: bool
    var writing: bool

    /** A report is on its way, and leads to handle_write. */
    ghost var reported: bool

    /** Whether that thread holds a bookmark, and the reserved bytes. */
    var framing: bool
    var bmark: seq<Slot>

    /** The payloads of the finished frames, and that of the one being written. */
    ghost var done: seq<seq<byte>>
    ghost var payload: seq<byte>

    /** Everything that has been handed over for sending. */
    ghost function Stream(): seq<byte>
      reads sock`sent, out`parts
    {
      sock.sent + out.View()
    }

    /**
     The stream is a run of whole frames, followed, while a frame is being written, by four bytes
     still to be filled in and the payload so far.  The unfinished part is entirely in the buffer.
     */
    ghost predicate Framed()
      reads this, sock`sent, out`parts, out`mark
    {
      if framing then
        out.mark + 4 <= |out.View()| &&
        sock.sent + out.View()[..out.mark] == Frames(done) && out.View()[out.mark + 4..] == payload
      else
        Stream() == Frames(done)
    }

    ghost predicate Valid()
      reads this, sock`sent, out, out.spine, set i | 0 <= i < |out.spine| :: out.spine[i].data
      reads (if out.tail == null then {} else {out.tail}), if out.tail == null then {} else {out.tail.data}
    {
      out.Valid() && out.CanWrite() && Framed() && (framing ==> locked) &&
      out.writeCnt == (if framing then |payload| else 0) &&
      (framing ==> out.Marked() && bmark == out.slots && |bmark| == 4)
    }

    /**
     No wake-up is lost, although the poller reports only changes: while there are bytes to send and nobody holds the
     lock, write events are enabled; and while they are, a report is on its way or the socket has no room.
     */
    ghost predicate Awaited()
      reads this, sock`writeLog, out`parts
    {
      polled ==> (!locked && out.View() != [] ==> writing) && (writing ==> reported || sock.Full())
    }

    constructor (sock: Fd)
      requires sock.sent == []
      ensures Valid() && !locked && !framing && bmark == [] && done == [] && this.sock == sock
      ensures fresh(out) && out.arena == 1 && out.repr == {} && out.tail == null && polled && Awaited()
    {
      out := new Marshal(1);
      this.sock := sock;
      locked, framing, bmark, polled, writing, reported := false, false, [], true, false, false;
      done, payload := [], [];
    }

    /** The bytes of the stream that may have left: whole frames, and a piece of one that is finished. */
    lemma OnlyFinished()
      requires Valid()
      ensures sock.sent <= Frames(done)
      ensures !framing ==> Stream() == Frames(done)
    {
      if framing {
        assert sock.sent + out.View()[..out.mark] == Frames(done);
      }
    }

    /** The lock was not taken or released, the message of the thread that holds it is as it was, and no wake-up was lost. */
    twostate predicate LockKept()
      reads this, sock`writeLog, out`parts
    {
      polled == old(polled) && (old(Awaited()) ==> Awaited()) &&
      locked == old(locked) && (locked ==> framing == old(framing) && payload == old(payload))
    }

    /** What may be appended to is this buffer's own. */
    lemma TailOwned()
      requires Valid()
      ensures out.tail != null ==> out.tail in out.repr && out.tail.data.arena == out.arena
      ensures out.Owns()
    {
      out.ChainOwned();
    }

    /** begin_request and begin_reply: takes the lock, and reserves the size prefix unless the client is not connected. */
    method Begin(connected: bool)
      requires Valid() && !locked
      modifies this`locked, this`framing, this`bmark, this`payload
      modifies out`head, out`tail, out`spine, out`parts, out`repr, out`contentSize
      modifies out`slots, out`places, out`mark, out.Tails()`next, out.Tails()`writeIdx, out.TailBlocks()`frozen
      ensures Valid() && locked && framing == connected && fresh(out.repr - old(out.repr))
      ensures done == old(done) && payload == []
      ensures out.tail == old(out.tail) || (out.tail != null && fresh(out.tail) && fresh(out.tail.data))
      ensures old(Awaited()) ==> Awaited()
      ensures !framing ==> bmark == old(bmark)
      ensures framing ==> forall i :: 0 <= i < |bmark| ==> bmark[i].block in old(out.TailBlocks()) || fresh(bmark[i].block)
    {
      hide Marshal.Marked, Marshal.Valid, Marshal.CanWrite, Marshal.View, Frames;
      locked := true;
      if connected {
        Reserve();
      }
      payload := [];
    }

    /** bmark_ = out_.set_bookmark(sizeof(i32)). */
    method Reserve()
      requires Valid() && locked && !framing
      modifies this`framing, this`bmark, this`payload
      modifies out`head, out`tail, out`spine, out`parts, out`repr, out`contentSize
      modifies out`slots, out`places, out`mark, out.Tails()`next, out.Tails()`writeIdx, out.TailBlocks()`frozen
      ensures Valid() && framing && payload == [] && fresh(out.repr - old(out.repr))
      ensures out.tail == old(out.tail) || (out.tail != null && fresh(out.tail) && fresh(out.tail.data))
      ensures forall i :: 0 <= i < |bmark| ==> bmark[i].block in old(out.TailBlocks()) || fresh(bmark[i].block)
    {
      hide Marshal.Marked, Marshal.Valid, Marshal.CanWrite, Marshal.View, Frames;
      ghost var before := out.View();
      bmark := out.SetBookmark(4);
      framing, payload := true, [];
      Reserved(before, out.View());
    }

    /** operator<<: a value becomes part of the message being written. */
    method Append(ty: Type, w: Value)
      requires Valid() && framing && Typed(ty, w)
      modifies this`payload, out`head, out`tail, out`spine, out`parts, out`repr, out`contentSize, out`writeCnt
      modifies out.Tails()`next, out.Tails()`writeIdx, out.TailBlocks()`mem, out.TailBlocks()`frozen
      ensures Valid() && framing && fresh(out.repr - old(out.repr))
      ensures done == old(done) && payload == old(payload) + Encode(ty, w) && locked && (old(Awaited()) ==> Awaited())
      ensures out.tail == old(out.tail) || (out.tail != null && fresh(out.tail) && fresh(out.tail.data))
    {
      hide Marshal.Marked, Marshal.Valid, Marshal.CanWrite, Marshal.View, Encode, Typed, Frames;
      ghost var before := out.View();
      Put(out, ty, w);
      Behind(before, Encode(ty, w), out.mark);
      payload := payload + Encode(ty, w);
    }

    /** end_request and end_reply: fills the size in, enables write events and releases the lock. */
    method End()
      requires Valid() && locked && (framing ==> Payload(payload))
      modifies this`locked, this`framing, this`done, this`writing, this`reported, out`parts, out`writeCnt
      modifies (set i | 0 <= i < |bmark| :: bmark[i].block)`mem
      ensures Valid() && !locked && !framing
      ensures done == if old(framing) then old(done) + [payload] else old(done)
      ensures old(Awaited()) ==> Awaited()
    {
      hide Marshal.Marked, Marshal.Valid, Marshal.View, Marshal.CanWrite, Frames;
      if framing {
        FillSize();
      }
      UpdateMode(true);
      locked := false;
    }

    /** out_.write_bookmark(bmark_, &size). */
    method FillSize()
      requires Valid() && framing && Payload(payload)
      modifies this`framing, this`done, out`parts, out`writeCnt
      modifies (set i | 0 <= i < |bmark| :: bmark[i].block)`mem
      ensures Valid() && !framing && done == old(done) + [payload]
    {
      hide Marshal.Marked, Marshal.Valid, Marshal.View, Le, Frames, Fits;
      ghost var before := out.View();
      var size := out.GetAndResetWriteCnt();
      out.WriteBookmark(bmark, Le(size, 4));
      framing := false;
      done := done + [payload];
      FramesSnoc(old(done), payload);
      assert out.View() == before[..out.mark] + (Le(size, 4) + payload);
      Assoc(sock.sent, before[..out.mark], Frame(payload));
    }

    /** pollmgr_->update_mode: a change makes the poller look again, so that it reports if there is room. */
    method UpdateMode(write: bool)
      modifies this`writing, this`reported
      ensures writing == if polled then write else old(writing)
      ensures reported == (old(reported) || (polled && write && !old(writing)))
    {
      if polled && writing != write {
        writing := write;
        reported := reported || write;
      }
    }

    /** pollmgr_->remove. */
    method Forget()
      requires Valid()
      modifies this`polled
      ensures Valid() && !polled && Awaited()
    {
      polled := false;
    }

    /** handle_write, which runs when it gets the lock. */
    method HandleWrite() returns (idle: bool)
      requires Valid() && !locked
      modifies this`writing, this`reported
      modifies out`head, out`tail, out`spine, out`parts, out`first, out`contentSize, out.repr`readIdx, sock`sent, sock`writeLog
      ensures Valid() && Stream() == old(Stream()) && old(sock.sent) <= sock.sent
      ensures idle <==> sock.sent == Frames(done)
      ensures out.tail == null || out.tail == old(out.tail)
      ensures out.View() == [] || sock.Clogged()
      ensures old(Awaited()) ==> Awaited() && (polled ==> (writing <==> out.View() != []))
    {
      idle := Flush();
      Report(idle);
    }

    /** Whatever can be written is. */
    method Flush() returns (idle: bool)
      requires Valid() && !locked
      modifies out`head, out`tail, out`spine, out`parts, out`first, out`contentSize, out.repr`readIdx, sock`sent, sock`writeLog
      ensures Valid() && Stream() == old(Stream()) && old(sock.sent) <= sock.sent
      ensures |out.View()| <= |old(out.View())| && idle == (out.View() == []) && (idle <==> sock.sent == Frames(done))
      ensures out.tail == null || out.tail == old(out.tail)
      ensures out.View() == [] || sock.Clogged()
    {
      hide Marshal.Marked;
      ghost var sent, rest := sock.sent, out.View();
      var n := out.WriteToFd(sock);
      Rejoin(rest, n);
      Assoc(sent, rest[..n], rest[n..]);
      idle := out.IsEmpty();
      assert idle ==> sock.sent + [] == sock.sent;
    }

    /** The report that led here is used up; with nothing left to send there is to be no other. */
    method Report(idle: bool)
      requires Valid() && !locked && idle == (out.View() == [])
      modifies this`writing, this`reported
      ensures Valid()
      ensures (polled && !idle ==> old(writing) && sock.Full()) ==> Awaited() && (polled ==> (writing <==> !idle))
    {
      hide Marshal.Valid, Marshal.CanWrite, Marshal.Marked, Marshal.View;
      reported := false;
      if idle {
        UpdateMode(false);
      }
    }
  }

  // ---- threads

  /**
   What a thread does with the connection; Drain is the polling thread in handle_write, and Shut is what
   close does to a client, which needs no lock.  A server connection goes on taking replies when it is closed.
   */
  datatype Action = Begin | Append(ty: Type, w: Value) | End | Drain | Shut

  datatype Op = Op(thread: nat, action: Action)

  datatype Message = Message(thread: nat, payload: seq<byte>)

  /**
   Who holds the lock, whether it writes a frame, and what is in it so far; the messages that were finished
   while the client was connected, with their authors, and those that were finished later.
   */
  datatype Desk = Desk(
    connected: bool, held: bool, framing: bool, holder: nat, payload: seq<byte>, done: seq<Message>, late: seq<Message>)

  const FREE := Desk(true, false, false, 0, [], [], [])

  /** The lock lets this happen now. */
  predicate Enabled(d: Desk, op: Op)
  {
    match op.action
    case Begin => !d.held
    case Append(ty, w) => d.held && d.holder == op.thread && Typed(ty, w)
    case End => d.held && d.holder == op.thread && (d.framing ==> Payload(d.payload))
    case Drain => !d.held
    case Shut => true
  }

  /** A closed client starts no frame, adds nothing to one that was started, and sends nothing. */
  function Next(d: Desk, op: Op): Desk
    requires Enabled(d, op)
  {
    match op.action
    case Begin => d.(held := true, framing := d.connected, holder := op.thread, payload := [])
    case Append(ty, w) => if d.framing && d.connected then d.(payload := d.payload + Encode(ty, w)) else d
    case End => Ended(d.(held := false, framing := false), if d.framing then [Message(op.thread, d.payload)] else [])
    case Drain => d
    case Shut => d.(connected := false)
  }

  function Ended(d: Desk, ms: seq<Message>): Desk
  {
    if d.connected then d.(done := d.done + ms) else d.(late := d.late + ms)
  }

  /** A schedule of any number of threads that respects the lock. */
  predicate Feasible(ops: seq<Op>)
    decreases |ops|, 0
  {
    ops == [] || (Feasible(ops[..|ops| - 1]) && Enabled(After(ops[..|ops| - 1]), ops[|ops| - 1]))
  }

  function After(ops: seq<Op>): Desk
    requires Feasible(ops)
    decreases |ops|, 1
  {
    if ops == [] then FREE else Next(After(ops[..|ops| - 1]), ops[|ops| - 1])
  }

  function Payloads(ms: seq<Message>): (ps: seq<seq<byte>>)
    ensures |ps| == |ms|
  {
    seq(|ms|, i requires 0 <= i < |ms| => ms[i].payload)
  }

  lemma {:induction false} FeasibleSoFar(ops: seq<Op>, i: nat)
    requires Feasible(ops) && i <= |ops|
    ensures Feasible(ops[..i])
  {
    if i < |ops| {
      FeasibleSoFar(ops[..|ops| - 1], i);
      assert ops[..|ops| - 1][..i] == ops[..i];
    } else {
      assert ops[..i] == ops;
    }
  }

  /** What one thread does, in its own order, and when the client is closed. */
  function Only(ops: seq<Op>, t: nat): seq<Op>
  {
    if ops == [] then []
    else Only(ops[..|ops| - 1], t) + (if ops[|ops| - 1].thread == t || ops[|ops| - 1].action.Shut? then [ops[|ops| - 1]] else [])
  }

  function By(ms: seq<Message>, t: nat): seq<Message>
  {
    if ms == [] then []
    else By(ms[..|ms| - 1], t) + (if ms[|ms| - 1].thread == t then [ms[|ms| - 1]] else [])
  }

  lemma BySnoc(ms: seq<Message>, m: Message, t: nat)
    ensures By(ms + [m], t) == if m.thread == t then By(ms, t) + [m] else By(ms, t)
  {
    assert (ms + [m])[..|ms|] == ms;
  }

  /** What is left of a desk when only thread `t` is considered. */
  ghost predicate Share(alone: Desk, d: Desk, t: nat)
  {
    alone.connected == d.connected && alone.done == By(d.done, t) && alone.late == By(d.late, t) &&
    alone.held == (d.held && d.holder == t) && alone.framing == (d.held && d.framing && d.holder == t) && (d.framing ==> d.held) &&
    (alone.held ==> alone.holder == t && (alone.framing ==> alone.payload == d.payload))
  }

  lemma ShareNext(alone: Desk, d: Desk, op: Op, t: nat)
    requires Share(alone, d, t) && Enabled(d, op)
    ensures op.thread == t || op.action.Shut? ==> Enabled(alone, op) && Share(Next(alone, op), Next(d, op), t)
    ensures op.thread != t && !op.action.Shut? ==> Share(alone, Next(d, op), t)
  {
    hide Encode, Typed, Payload, By;
    BySnoc(d.done, Message(op.thread, d.payload), t);
    BySnoc(d.late, Message(op.thread, d.payload), t);
    assert d.done + [] == d.done && d.late + [] == d.late && alone.done + [] == alone.done && alone.late + [] == alone.late;
  }

  /**
   No message of a thread is lost, reordered or mixed with that of another: what it sent in a
   schedule is what it would have sent alone, had the client been closed at the same time.
   */
  lemma {:induction false} SentAlone(ops: seq<Op>, t: nat)
    requires Feasible(ops)
    ensures Feasible(Only(ops, t)) && Share(After(Only(ops, t)), After(ops), t)
  {
    hide Next, Enabled;
    if ops != [] {
      var front, op := ops[..|ops| - 1], ops[|ops| - 1];
      SentAlone(front, t);
      var alone := Only(front, t);
      ShareNext(After(alone), After(front), op, t);
      assert (alone + [op])[..|alone|] == alone && alone + [] == alone;
    }
  }

  /** The sender is where the desk says it is. */
  ghost predicate At(s: Sender, d: Desk)
    reads s
  {
    s.locked == d.held && s.framing == d.framing && s.polled == d.connected && s.done == Payloads(d.done + d.late) && (d.framing ==> s.payload == d.payload) &&
    (d.connected ==> d.late == [])
  }

  /** One turn of a schedule. */
  method Turn(s: Sender, op: Op, connected: bool, ghost d: Desk)
    requires s.Valid() && Enabled(d, op) && At(s, d) && connected == d.connected
    modifies s, s.out, s.out.repr, s.out.Tails(), s.out.TailBlocks(), s.sock`sent, s.sock`writeLog
    modifies (set i | 0 <= i < |s.bmark| :: s.bmark[i].block)`mem
    ensures s.Valid() && At(s, Next(d, op)) && fresh(s.out.repr - old(s.out.repr))
    ensures old(s.Awaited()) ==> s.Awaited()
    ensures !connected ==> s.sock.sent == old(s.sock.sent)
    ensures s.out.tail == null || s.out.tail == old(s.out.tail) || (fresh(s.out.tail) && fresh(s.out.tail.data))
    ensures s.bmark == old(s.bmark) ||
      forall i :: 0 <= i < |s.bmark| ==> s.bmark[i].block in old(s.out.TailBlocks()) || fresh(s.bmark[i].block)
  {
    hide Sender.Valid, Encode, Typed, Payload, Payloads;
    PayloadsSnoc(d.done + d.late, Message(op.thread, d.payload));
    EndsBehind(d, Message(op.thread, d.payload));
    match op.action {
      case Begin => s.Begin(connected);
      case Append(ty, w) =>
        if connected && s.framing {
          s.Append(ty, w);
        }
      case End => s.End();
      case Drain =>
        if connected {
          var _ := s.HandleWrite();
        }
      case Shut => s.Forget();
    }
  }

  lemma PayloadsSnoc(ms: seq<Message>, m: Message)
    ensures Payloads(ms + [m]) == Payloads(ms) + [m.payload]
  {
  }

  lemma EndsBehind(d: Desk, m: Message)
    requires d.connected ==> d.late == []
    ensures var e := Ended(d, [m]); e.done + e.late == d.done + d.late + [m]
    ensures Ended(d, []).done == d.done && Ended(d, []).late == d.late
  {
  }

  /** Once the client is closed, the messages finished before stay the same; before, none is late. */
  lemma DoneStep(d: Desk, op: Op)
    requires Enabled(d, op) && (d.connected ==> d.late == [])
    ensures var e := Next(d, op);
      (e.connected ==> d.connected && e.late == []) && (!d.connected ==> e.done == d.done) && (d.connected ==> e.late == [])
  {
    hide Encode, Typed, Payload;
    assert d.done + [] == d.done;
  }

  /**
   Any schedule, from a new connection on, the client being closed at any time: the stream is made of
   exactly the frames of the finished messages in the order in which they were finished, and only bytes of
   messages that were finished while the client was connected have left, so never one that was cut short.
   */
  method RunSchedule(ops: seq<Op>) returns (s: Sender)
    requires Feasible(ops)
    ensures s.Valid() && At(s, After(ops))
    ensures s.Awaited()
    ensures s.sock.sent <= Frames(Payloads(After(ops).done))
    ensures !After(ops).framing ==> s.Stream() == Frames(Payloads(After(ops).done + After(ops).late))
  {
    hide Sender.Valid, Next, Enabled, Payloads, Sender.Stream, Frames;
    var sock := new Fd([]);
    s := new Sender(sock);
    NothingDone();
    var connected := true;
    for i := 0 to |ops|
      invariant fresh(s) && fresh(s.out) && fresh(s.sock) && fresh(s.out.repr)
      invariant s.out.tail != null ==> fresh(s.out.tail) && fresh(s.out.tail.data)
      invariant forall j :: 0 <= j < |s.bmark| ==> fresh(s.bmark[j].block)
      invariant Feasible(ops[..i]) && s.Valid() && s.Awaited() && At(s, After(ops[..i])) && connected == After(ops[..i]).connected
      invariant s.sock.sent <= Frames(Payloads(After(ops[..i]).done))
    {
      FeasibleSoFar(ops, i + 1);
      assert ops[..i + 1][..i] == ops[..i];
      ghost var d := After(ops[..i]);
      Turn(s, ops[i], connected, d);
      DoneStep(d, ops[i]);
      s.OnlyFinished();
      assert Next(d, ops[i]).done + [] == Next(d, ops[i]).done;
      connected := StillConnected(connected, ops[i], d);
    }
    assert ops[..|ops|] == ops;
    s.OnlyFinished();
  }

  lemma NothingDone()
    ensures Payloads([] + []) == [] && Frames(Payloads([])) == []
  {
  }

  method StillConnected(connected: bool, op: Op, ghost d: Desk) returns (still: bool)
    requires Enabled(d, op) && connected == d.connected
    ensures still == Next(d, op).connected
  {
    still := connected && !op.action.Shut?;
  }
}
