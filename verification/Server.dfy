/** The receiving half of a server connection: ServerTcpConnection::handle_read of rpc/server.cc. */
module Servers {
  import opened Bytes
  import opened Chunks
  import opened Marshals
  import opened Framing
  import opened Serialize
  import opened Sending
  import opened Wire

  const ENOENT := 2
  const EINVAL := 22

  // ---- what a packet asks for

  /** The payload starts with an xid that survives the wire. */
  predicate Request(p: seq<byte>)
  {
    var t := TakeV64(p);
    t.Some? && Typed(V64, Num(t.value.0))
  }

  function XidOf(p: seq<byte>): int
    requires Request(p)
  {
    TakeV64(p).value.0
  }

  function BodyOf(p: seq<byte>): seq<byte>
    requires Request(p)
  {
    TakeV64(p).value.1
  }

  predicate Requests(ps: seq<seq<byte>>)
  {
    forall i :: 0 <= i < |ps| ==> Request(ps[i])
  }

  /** What becomes of a request: an error reply at once, or a handler with the rest of the body. */
  datatype Verdict = Refused(xid: int, code: int) | Handed(xid: int, rpcId: int, args: seq<byte>)

  function Judge(handlers: set<int>, p: seq<byte>): Verdict
    requires Request(p)
  {
    if |BodyOf(p)| < 4 then
      Refused(XidOf(p), EINVAL)
    else
      var rpcId := Signed(LeValue(BodyOf(p)[..4]), 4);
      if rpcId in handlers then Handed(XidOf(p), rpcId, BodyOf(p)[4..]) else Refused(XidOf(p), ENOENT)
  }

  /** <xid> <error_code>, without any results. */
  function ErrorReply(xid: int, code: int): seq<byte>
    requires Typed(V64, Num(xid)) && Typed(V32, Num(code))
  {
    Encode(V64, Num(xid)) + Encode(V32, Num(code))
  }

  /** The error replies to a list of requests, in order. */
  function Refusals(handlers: set<int>, ps: seq<seq<byte>>): seq<seq<byte>>
    requires Requests(ps)
  {
    if ps == [] then [] else
    Refusals(handlers, ps[..|ps| - 1]) + Refusal(handlers, ps[|ps| - 1])
  }

  /** A received request: the body, and the xid taken from its front. */
  class Incoming {
    const m: Marshal
    var xid: int

    constructor ()
      ensures fresh(m) && m.arena == 0 && m.Valid() && m.View() == [] && m.repr == {} && m.tail == null
    {
      m := new Marshal(0);
      xid := 0;
    }
  }

  /** The incoming bytes start with a complete packet: peeks at its size, and consumes it if so. */
  method TakeSize(m: Marshal) returns (complete: bool, size: int)
    requires m.Valid() && (|m.View()| >= 4 ==> Announced(m.View()) >= 0)
    modifies m`head, m`tail, m`spine, m`parts, m`first, m`contentSize, m.repr`readIdx
    ensures m.Valid() && (m.tail == null || m.tail == old(m.tail))
    ensures complete <==> Complete(old(m.View()))
    ensures if complete then size == Announced(old(m.View())) && m.View() == old(m.View())[4..]
      else m.View() == old(m.View())
  {
    hide Marshal.View, LeValue, Signed;
    var peeked := m.Peek(4);
    complete, size := false, 0;
    if |peeked| == 4 {
      size := Signed(LeValue(peeked), 4);
      assert peeked == m.View()[..4];
      if m.contentSize >= size + 4 {
        var consumed := m.Read(4);
        Cut(consumed, m.View());
        complete := true;
      }
    }
  }

  /** Splices a packet out of the incoming bytes into a request of its own, and takes the xid off its front. */
  method TakeRequest(src: Marshal, size: nat) returns (req: Incoming)
    requires src.Valid() && src.arena == 0 && size <= |src.View()| && Request(src.View()[..size])
    modifies src`head, src`tail, src`spine, src`parts, src`first, src`contentSize, src.repr`readIdx
    ensures src.Valid() && src.View() == old(src.View())[size..] && (src.tail == null || src.tail == old(src.tail))
    ensures fresh(req) && fresh(req.m) && fresh(req.m.repr)
    ensures Carries(req, old(src.View())[..size])
  {
    hide Marshal.View, Marshal.Marked, Marshal.Valid, TakeV64, Grows, Typed, Marshal.CanWrite;
    req := new Incoming();
    ghost var got := req.m.ReadFromMarshal(src, size);
    Cut(got, src.View());
    assert [] + got == got;
    src.ChainOwned();
    var xid := GetV64Obj(req.m);
    req.xid := xid.v;
    req.m.ChainOwned();
  }

  /** The request holds what the payload says. */
  ghost predicate Carries(r: Incoming, p: seq<byte>)
    requires Request(p)
    reads r, r.m, r.m.spine, set i | 0 <= i < |r.m.spine| :: r.m.spine[i].data
  {
    r.m.Valid() && r.m.Owns() && r.m.arena == 0 && r.xid == XidOf(p) && r.m.View() == BodyOf(p)
  }

  /** No two requests share a buffer, and none shares one with `src`; only blocks may be shared. */
  ghost predicate Apart(reqs: seq<Incoming>, src: Marshal)
    reads src, set i | 0 <= i < |reqs| :: reqs[i].m
  {
    (forall i :: 0 <= i < |reqs| ==> reqs[i].m != src && reqs[i].m.repr !! src.repr) &&
    forall i, j :: 0 <= i < j < |reqs| ==>
      reqs[i] != reqs[j] && reqs[i].m != reqs[j].m && reqs[i].m.repr !! reqs[j].m.repr
  }

  /** What one round of the packet loop takes off the buffer. */
  lemma OnePacket(buf: seq<byte>)
    requires WellFormed(buf)
    ensures !Complete(buf) ==> Parse(buf) == Parsed([], buf)
    ensures Complete(buf) ==> |buf| >= 4 && 0 <= Announced(buf) <= |buf| - 4
    ensures Complete(buf) ==> var rest := buf[4 + Announced(buf)..];
      WellFormed(rest) && Parse(buf).payloads != [] && Parse(rest) == Parsed(Parse(buf).payloads[1..], Parse(buf).rest)
  {
  }

  /** One round of the packet loop; the requests received before stay as they are. */
  method TakeNext(src: Marshal, reqs: seq<Incoming>, ghost ps: seq<seq<byte>>) returns (complete: bool, more: seq<Incoming>)
    requires src.Valid() && src.arena == 0 && WellFormed(src.View()) && Requests(Parse(src.View()).payloads)
    requires Apart(reqs, src) && Requests(ps) && |ps| == |reqs| && forall i :: 0 <= i < |reqs| ==> Carries(reqs[i], ps[i])
    modifies src`head, src`tail, src`spine, src`parts, src`first, src`contentSize, src.repr`readIdx
    ensures src.Valid() && (src.tail == null || src.tail == old(src.tail)) && complete == Complete(old(src.View()))
    ensures !complete ==> more == reqs && src.View() == old(src.View())
    ensures complete ==> src.View() == old(src.View())[4 + Announced(old(src.View()))..]
    ensures complete ==> |more| == |reqs| + 1 && more[..|reqs|] == reqs && Carries(more[|reqs|], Parse(old(src.View())).payloads[0])
    ensures complete ==> fresh(more[|reqs|]) && fresh(more[|reqs|].m) && fresh(more[|reqs|].m.repr)
    ensures Apart(more, src) && forall i :: 0 <= i < |reqs| ==> Carries(reqs[i], ps[i])
  {
    hide Marshal.View, Marshal.Valid, Request, XidOf, BodyOf;
    ghost var before := src.View();
    more := reqs;
    var size;
    complete, size := TakeSize(src);
    if complete {
      assert before[4..][..size] == before[4..4 + size] == Parse(before).payloads[0];
      var req := TakeRequest(src, size);
      more := reqs + [req];
    }
  }

  /** The packet loop: one request per complete packet, in the order of arrival. */
  method TakeRequests(src: Marshal) returns (reqs: seq<Incoming>)
    requires src.Valid() && src.arena == 0 && WellFormed(src.View()) && Requests(Parse(src.View()).payloads)
    modifies src`head, src`tail, src`spine, src`parts, src`first, src`contentSize, src.repr`readIdx
    ensures src.Valid() && src.View() == Parse(old(src.View())).rest && (src.tail == null || src.tail == old(src.tail))
    ensures Apart(reqs, src) && forall i :: 0 <= i < |reqs| ==> fresh(reqs[i]) && fresh(reqs[i].m) && fresh(reqs[i].m.repr)
    ensures |reqs| == |Parse(old(src.View())).payloads|
    ensures forall i :: 0 <= i < |reqs| ==> Carries(reqs[i], Parse(old(src.View())).payloads[i])
  {
    hide Marshal.View, Marshal.Valid, Request, Carries, Announced, Complete, Parse, WellFormed;
    reqs := [];
    ghost var all := Parse(src.View()).payloads;
    var complete := true;
    while complete
      invariant src.Valid() && WellFormed(src.View()) && (src.tail == null || src.tail == old(src.tail))
      invariant |reqs| <= |all| && Parse(src.View()) == Parsed(all[|reqs|..], Parse(old(src.View())).rest)
      invariant !complete ==> !Complete(src.View())
      invariant Apart(reqs, src) && forall i :: 0 <= i < |reqs| ==> fresh(reqs[i]) && fresh(reqs[i].m) && fresh(reqs[i].m.repr)
      invariant forall i :: 0 <= i < |reqs| ==> Carries(reqs[i], all[i])
      decreases complete, |src.View()|
    {
      OnePacket(src.View());
      ghost var k, ps := |reqs|, Parse(src.View()).payloads;
      assert ps != [] ==> ps[0] == all[k];
      complete, reqs := TakeNext(src, reqs, all[..k]);
      assert forall i :: 0 <= i < k ==> Carries(reqs[i], all[..k][i]);
    }
    OnePacket(src.View());
  }

  // ---- dispatching

  lemma ShortReply(xid: int, code: int)
    requires Typed(V64, Num(xid)) && Typed(V32, Num(code))
    ensures Payload(ErrorReply(xid, code))
  {
    assert |Encode(V64, Num(xid))| <= 9 && |Encode(V32, Num(code))| <= 9;
    assert Pow256(4) == 0x1_0000_0000;
  }

  /** begin_reply: takes the lock and starts a frame with the xid and the error code. */
  method BeginReply(s: Sender, xid: int, code: int)
    requires s.Valid() && !s.locked && Typed(V64, Num(xid)) && Typed(V32, Num(code))
    modifies s, s.out, s.out.Tails(), s.out.TailBlocks()
    ensures s.Valid() && s.locked && s.framing && s.done == old(s.done) && s.payload == ErrorReply(xid, code)
    ensures s.polled == old(s.polled) && (old(s.Awaited()) ==> s.Awaited())
    ensures fresh(s.out.repr - old(s.out.repr))
    ensures s.out.tail == old(s.out.tail) || (s.out.tail != null && fresh(s.out.tail) && fresh(s.out.tail.data))
    ensures forall i :: 0 <= i < |s.bmark| ==> s.bmark[i].block in old(s.out.TailBlocks()) || fresh(s.bmark[i].block)
  {
    hide Sender.Valid, Sender.Awaited, Encode, Typed;
    s.Begin(true);
    s.Append(V64, Num(xid));
    s.Append(V32, Num(code));
    assert [] + Encode(V64, Num(xid)) == Encode(V64, Num(xid));
  }

  /** begin_reply and end_reply, with nothing in between. */
  method SendError(s: Sender, xid: int, code: int)
    requires s.Valid() && !s.locked && Typed(V64, Num(xid)) && Typed(V32, Num(code))
    modifies s, s.out, s.out.Tails(), s.out.TailBlocks()
    ensures s.Valid() && !s.locked && s.done == old(s.done) + [ErrorReply(xid, code)] && s.LockKept()
    ensures fresh(s.out.repr - old(s.out.repr))
    ensures s.out.tail == old(s.out.tail) || (s.out.tail != null && fresh(s.out.tail) && fresh(s.out.tail.data))
  {
    hide Sender.Valid, Sender.Awaited, Encode, Typed, Payload, ErrorReply;
    ShortReply(xid, code);
    BeginReply(s, xid, code);
    s.End();
  }

  /** What the dispatcher did with a request is what its payload calls for. */
  ghost predicate Settled(handlers: set<int>, r: Incoming, p: seq<byte>, id: Option<int>)
    requires Request(p)
    reads r, r.m, r.m.spine, set i | 0 <= i < |r.m.spine| :: r.m.spine[i].data
  {
    r.m.Valid() && r.m.Owns() && r.m.arena == 0 && Suits(handlers, p, id, r.xid, r.m.View())
  }

  /** No handler for a refused request, and otherwise the one with this id, for exactly the arguments. */
  predicate Suits(handlers: set<int>, p: seq<byte>, id: Option<int>, xid: int, content: seq<byte>)
    requires Request(p)
  {
    match Judge(handlers, p)
    case Refused(_, _) => id == None
    case Handed(x, rpcId, args) => id == Some(rpcId) && xid == x && content == args
  }

  lemma SettledBuffer(handlers: set<int>, r: Incoming, p: seq<byte>, id: Option<int>)
    requires Request(p) && Settled(handlers, r, p, id)
    ensures r.m.Valid() && r.m.Owns() && r.m.arena == 0
  {
  }

  function Refusal(handlers: set<int>, p: seq<byte>): seq<seq<byte>>
    requires Request(p)
  {
    match Judge(handlers, p)
    case Refused(xid, code) => [ErrorReply(xid, code)]
    case Handed(_, _, _) => []
  }

  lemma Codes()
    ensures Typed(V32, Num(EINVAL)) && Typed(V32, Num(ENOENT))
  {
    assert Pow256(4) == 0x1_0000_0000;
  }

  // ---- which requests go where

  lemma XidInFront(xid: int, body: seq<byte>)
    requires Typed(V64, Num(xid))
    ensures var p := Encode(V64, Num(xid)) + body; Request(p) && XidOf(p) == xid && BodyOf(p) == body
  {
    TakeSent64(xid, body);
  }

  /** A body without room for an id: one reply, <xid> <22>, and no handler. */
  lemma TooShort(handlers: set<int>, xid: int, body: seq<byte>, p: seq<byte>)
    requires Typed(V64, Num(xid)) && |body| < 4 && p == Encode(V64, Num(xid)) + body
    ensures Request(p) && Typed(V32, Num(22)) && Judge(handlers, p) == Refused(xid, 22)
    ensures Refusals(handlers, [p]) == [Encode(V64, Num(xid)) + Encode(V32, Num(22))]
    ensures forall id, x, content :: Suits(handlers, p, id, x, content) <==> id == None
  {
    hide Typed, Request, XidOf, BodyOf, Encode;
    XidInFront(xid, body);
    Codes();
    RefusalsSnoc(handlers, [], p);
    assert [] + [p] == [p];
  }

  /**
   A request for `rpcId`: the handler of this id, if there is one, gets the xid and exactly the arguments, and
   nothing is replied; otherwise there is one reply, <xid> <2>, and no handler.
   */
  lemma Routed(handlers: set<int>, xid: int, rpcId: int, args: seq<byte>, p: seq<byte>)
    requires Typed(V64, Num(xid)) && Typed(Int(4), Num(rpcId))
    requires p == Encode(V64, Num(xid)) + (Encode(Int(4), Num(rpcId)) + args)
    ensures Request(p) && Typed(V32, Num(2))
    ensures rpcId in handlers <==> Judge(handlers, p) == Handed(xid, rpcId, args)
    ensures rpcId !in handlers <==> Judge(handlers, p) == Refused(xid, 2)
    ensures Refusals(handlers, [p]) == if rpcId in handlers then [] else [Encode(V64, Num(xid)) + Encode(V32, Num(2))]
    ensures forall id, x, content :: Suits(handlers, p, id, x, content) <==>
      if rpcId in handlers then id == Some(rpcId) && x == xid && content == args else id == None
  {
    var front := Encode(Int(4), Num(rpcId));
    assert |front| == 4 && Signed(LeValue(front), 4) == rpcId by {
      LeRoundTrip(rpcId, 4);
    }
    hide Typed, Request, XidOf, BodyOf, Encode, Signed, LeValue;
    XidInFront(xid, front + args);
    assert (front + args)[..4] == front && (front + args)[4..] == args;
    Codes();
    RefusalsSnoc(handlers, [], p);
    assert [] + [p] == [p];
  }

  /** req->m >> rpc_id. */
  method TakeId(r: Incoming, ghost p: seq<byte>) returns (rpcId: int)
    requires Request(p) && Carries(r, p) && |BodyOf(p)| >= 4
    modifies r.m`head, r.m`tail, r.m`spine, r.m`parts, r.m`first, r.m`contentSize, r.m.repr`readIdx
    ensures rpcId == Signed(LeValue(BodyOf(p)[..4]), 4)
    ensures r.m.Valid() && r.m.Owns() && r.xid == XidOf(p) && r.m.View() == BodyOf(p)[4..]
  {
    hide Marshal.View, Marshal.Marked, Signed, LeValue, Request, XidOf, BodyOf;
    rpcId := GetInt(r.m, 4);
    r.m.ChainOwned();
  }

  lemma HasSize(r: Incoming, p: seq<byte>)
    requires Request(p) && Carries(r, p)
    ensures r.m.contentSize == |BodyOf(p)|
  {
  }

  /** One round of the dispatch loop: refuses the request, or tells which handler gets it. */
  method Dispatch(s: Sender, handlers: set<int>, r: Incoming, ghost p: seq<byte>) returns (id: Option<int>)
    requires s.Valid() && s.out.arena == 1 && Request(p) && Carries(r, p) && (s.locked ==> Refusal(handlers, p) == [])
    requires r.m != s.out && r.m.repr !! s.out.repr
    modifies s, s.out, s.out.Tails(), s.out.TailBlocks()
    modifies r.m`head, r.m`tail, r.m`spine, r.m`parts, r.m`first, r.m`contentSize, r.m.repr`readIdx
    ensures s.Valid() && s.done == old(s.done) + Refusal(handlers, p) && Settled(handlers, r, p, id)
    ensures s.LockKept()
    ensures fresh(s.out.repr - old(s.out.repr))
    ensures s.out.tail == old(s.out.tail) || (s.out.tail != null && fresh(s.out.tail) && fresh(s.out.tail.data))
  {
    hide Marshal.View, Marshal.Valid, Sender.Valid, Sender.Awaited, Typed, TakeV64, Signed, LeValue, ErrorReply;
    id := None;
    s.TailOwned();
    HasSize(r, p);
    Codes();
    if r.m.contentSize < 4 {
      SendError(s, r.xid, EINVAL);
    } else {
      var rpcId := TakeId(r, p);
      if rpcId in handlers {
        id := Some(rpcId);
      } else {
        SendError(s, r.xid, ENOENT);
      }
    }
  }

  /** The first requests are settled, the others untouched; while another thread holds the lock none is to be refused. */
  ghost predicate Progress(s: Sender, handlers: set<int>, reqs: seq<Incoming>, ps: seq<seq<byte>>, ids: seq<Option<int>>)
    reads *
  {
    s.Valid() && s.out.arena == 1 && Apart(reqs, s.out) && Requests(ps) && (s.locked ==> Refusals(handlers, ps) == []) && |ids| <= |reqs| == |ps| &&
    (forall j :: 0 <= j < |ids| ==> Settled(handlers, reqs[j], ps[j], ids[j])) &&
    forall j :: |ids| <= j < |reqs| ==> Carries(reqs[j], ps[j])
  }

  method DispatchNext(s: Sender, handlers: set<int>, reqs: seq<Incoming>, ghost ps: seq<seq<byte>>, ids: seq<Option<int>>)
      returns (id: Option<int>)
    requires Progress(s, handlers, reqs, ps, ids) && |ids| < |reqs|
    modifies s, s.out, s.out.Tails(), s.out.TailBlocks()
    modifies reqs[|ids|].m`head, reqs[|ids|].m`tail, reqs[|ids|].m`spine, reqs[|ids|].m`parts, reqs[|ids|].m`first
    modifies reqs[|ids|].m`contentSize, reqs[|ids|].m.repr`readIdx
    ensures |ids| < |ps| && Request(ps[|ids|]) && Progress(s, handlers, reqs, ps, ids + [id])
    ensures s.done == old(s.done) + Refusal(handlers, ps[|ids|])
    ensures s.LockKept()
    ensures forall j :: 0 <= j < |reqs| ==> reqs[j].m.repr == old(reqs[j].m.repr)
    ensures fresh(s.out.repr - old(s.out.repr))
    ensures s.out.tail == old(s.out.tail) || (s.out.tail != null && fresh(s.out.tail) && fresh(s.out.tail.data))
  {
    hide Marshal.Valid, Sender.Valid, Sender.Awaited, Marshal.View, Judge, Request, XidOf, BodyOf, Refusal, Refusals, Suits;
    s.TailOwned();
    NoneRefused(handlers, ps, |ids|);
    id := Dispatch(s, handlers, reqs[|ids|], ps[|ids|]);
  }

  /** The dispatch loop. */
  method DispatchAll(s: Sender, handlers: set<int>, reqs: seq<Incoming>, ghost ps: seq<seq<byte>>) returns (ids: seq<Option<int>>)
    requires Progress(s, handlers, reqs, ps, [])
    modifies s, s.out, s.out.Tails(), s.out.TailBlocks(), set i | 0 <= i < |reqs| :: reqs[i].m
    modifies (set i, c | 0 <= i < |reqs| && c in reqs[i].m.repr :: c)`readIdx
    ensures |ids| == |reqs| == |ps| && Progress(s, handlers, reqs, ps, ids)
    ensures Requests(ps) && s.done == old(s.done) + Refusals(handlers, ps)
    ensures s.LockKept()
    ensures fresh(s.out.repr - old(s.out.repr))
    ensures s.out.tail == old(s.out.tail) || (s.out.tail != null && fresh(s.out.tail) && fresh(s.out.tail.data))
    ensures forall j :: 0 <= j < |reqs| ==> reqs[j].m.repr == old(reqs[j].m.repr)
  {
    hide Marshal.Valid, Sender.Valid, Sender.Awaited, Marshal.View, Judge, Request, XidOf, BodyOf, Refusal, Refusals, Settled, Carries, Apart;
    ids := [];
    NoRefusals(handlers);
    for i := 0 to |reqs|
      invariant s.LockKept()
      invariant |ids| == i && Progress(s, handlers, reqs, ps, ids) && s.done == old(s.done) + Refusals(handlers, ps[..i])
      invariant forall j :: 0 <= j < |reqs| ==> reqs[j].m.repr == old(reqs[j].m.repr)
      invariant fresh(s.out.repr - old(s.out.repr))
      invariant s.out.tail == old(s.out.tail) || (s.out.tail != null && fresh(s.out.tail) && fresh(s.out.tail.data))
    {
      var id := DispatchNext(s, handlers, reqs, ps, ids);
      ids := ids + [id];
      RefusalsSnoc(handlers, ps[..i], ps[i]);
      assert ps[..i + 1] == ps[..i] + [ps[i]];
      AssocPayloads(old(s.done), Refusals(handlers, ps[..i]), Refusal(handlers, ps[i]));
    }
    assert ps[..|ps|] == ps;
  }

  /** Buffers that were handed out before: they may share blocks with `src`, but with nothing that is sent. */
  ghost predicate Elsewhere(ms: seq<Marshal>, src: Marshal, out: Marshal)
    reads src`repr, out`repr, set i | 0 <= i < |ms| :: ms[i]
    reads set i, j | 0 <= i < |ms| && 0 <= j < |ms[i].spine| :: ms[i].spine[j]
    reads set i, j | 0 <= i < |ms| && 0 <= j < |ms[i].spine| :: ms[i].spine[j].data
  {
    Neighbours(ms, src) && Neighbours(ms, out) && forall i :: 0 <= i < |ms| ==> ms[i].arena == 0
  }

  /** The buffers of a list of requests. */
  ghost function Buffers(reqs: seq<Incoming>): (ms: seq<Marshal>)
    ensures |ms| == |reqs| && forall i :: 0 <= i < |reqs| ==> ms[i] == reqs[i].m
  {
    if reqs == [] then [] else Buffers(reqs[..|reqs| - 1]) + [reqs[|reqs| - 1].m]
  }

  class ServerConnection {
    const src: Marshal
    const sender: Sender
    const handlers: set<int>
    var closed: bool

    ghost predicate Valid()
      reads this, src, src.spine, set i | 0 <= i < |src.spine| :: src.spine[i].data
      reads src.Tails(), src.TailBlocks()
      reads sender, sender.sock`sent, sender.out, sender.out.spine, set i | 0 <= i < |sender.out.spine| :: sender.out.spine[i].data
      reads sender.out.Tails(), sender.out.TailBlocks()
    {
      src.Valid() && src.CanWrite() && src.arena == 0 && !Complete(src.View()) &&
      sender.Valid() && sender.out.arena == 1 && src != sender.out && src.repr !! sender.out.repr
    }

    constructor (sock: Fd, handlers: set<int>)
      requires sock.sent == []
      ensures Valid() && !closed && !sender.locked && sender.sock == sock && this.handlers == handlers && sender.done == []
      ensures src.View() == [] && fresh(src) && fresh(sender) && fresh(sender.out)
    {
      src := new Marshal(0);
      sender := new Sender(sock);
      this.handlers, closed := handlers, false;
    }

    /** in_.read_from_fd and the packet loop. */
    method Receive(ghost earlier: seq<Marshal>) returns (reqs: seq<Incoming>, ghost got: seq<byte>)
      requires src.Valid() && src.CanWrite() && src.arena == 0 && !Complete(src.View()) && Neighbours(earlier, src)
      requires var all := src.View() + sender.sock.incoming; WellFormed(all) && Requests(Parse(all).payloads)
      modifies src, src.repr`readIdx, src.Tails(), src.TailBlocks(), sender.sock`incoming, sender.sock`readLog
      ensures src.Valid() && src.CanWrite() && fresh(src.repr - old(src.repr))
      ensures src.tail == null || src.tail == old(src.tail) || (fresh(src.tail) && fresh(src.tail.data))
      ensures Neighbours(earlier, src) && forall i :: 0 <= i < |earlier| ==> earlier[i].View() == old(earlier[i].View())
      ensures old(sender.sock.incoming) == got + sender.sock.incoming
      ensures src.View() == Parse(old(src.View()) + got).rest
      ensures Requests(Parse(old(src.View()) + got).payloads)
      ensures |reqs| == |Parse(old(src.View()) + got).payloads| && Apart(reqs, src)
      ensures forall i :: 0 <= i < |reqs| ==> fresh(reqs[i]) && fresh(reqs[i].m) && fresh(reqs[i].m.repr)
      ensures forall i :: 0 <= i < |reqs| ==> Carries(reqs[i], Parse(old(src.View()) + got).payloads[i])
      ensures sender.sock.Drained()
    {
      hide Marshal.View, Marshal.Valid, WellFormed, Parse, Request, Carries;
      ghost var before := src.View();
      reqs := [];
      var n;
      n, got := ReceiveBeside(src, sender.sock, earlier);
      if n == 0 {
        assert before + got == before;
        NothingComplete(before);
        return;
      }
      Assoc(before, got, sender.sock.incoming);
      WellFormedSoFar(before + got, sender.sock.incoming);
      ParseMore(before + got, sender.sock.incoming);
      PayloadsSoFar(before + got, sender.sock.incoming);
      reqs := TakeRequests(src);
    }

    /** Dispatches the requests; the buffers on the receiving side are not touched. */
    method Answer(reqs: seq<Incoming>, ghost ps: seq<seq<byte>>, ghost earlier: seq<Marshal>) returns (ids: seq<Option<int>>)
      requires src.Valid() && src.CanWrite() && src.arena == 0 && src != sender.out && src.repr !! sender.out.repr
      requires Elsewhere(earlier, src, sender.out) && Progress(sender, handlers, reqs, ps, []) && Apart(reqs, src)
      requires forall i, j :: 0 <= i < |reqs| && 0 <= j < |earlier| ==> reqs[i].m != earlier[j] && reqs[i].m.repr !! earlier[j].repr
      modifies sender, sender.out, sender.out.Tails(), sender.out.TailBlocks(), set i | 0 <= i < |reqs| :: reqs[i].m
      modifies (set i, c | 0 <= i < |reqs| && c in reqs[i].m.repr :: c)`readIdx
      ensures src.Valid() && src.CanWrite() && src.View() == old(src.View()) && src.repr !! sender.out.repr
      ensures Elsewhere(earlier, src, sender.out)
      ensures forall i :: 0 <= i < |earlier| ==> earlier[i].View() == old(earlier[i].View())
      ensures |ids| == |reqs| == |ps| && Progress(sender, handlers, reqs, ps, ids) && Apart(reqs, src)
      ensures Requests(ps) && sender.done == old(sender.done) + Refusals(handlers, ps)
      ensures sender.LockKept()
      ensures fresh(sender.out.repr - old(sender.out.repr))
      ensures sender.out.tail == old(sender.out.tail) || (sender.out.tail != null && fresh(sender.out.tail) && fresh(sender.out.tail.data))
    {
      hide Marshal.View, Marshal.Valid, Marshal.CanWrite, Requests, Refusals, Settled, Carries, Sender.Valid;
      src.ChainOwned();
      sender.TailOwned();
      ids := DispatchAll(sender, handlers, reqs, ps);
    }

    lemma Handed(reqs: seq<Incoming>, ps: seq<seq<byte>>, ids: seq<Option<int>>)
      requires Progress(sender, handlers, reqs, ps, ids) && |ids| == |reqs| && Apart(reqs, src)
      ensures Elsewhere(Buffers(reqs), src, sender.out)
    {
      hide Settled, Request, Marshal.Valid, Sender.Valid;
      forall i | 0 <= i < |reqs|
        ensures reqs[i].m.Valid() && reqs[i].m.Owns() && reqs[i].m.arena == 0
      {
        SettledBuffer(handlers, reqs[i], ps[i], ids[i]);
      }
    }

    /** Receives; what is complete is ready to be dispatched. */
    method Collect(ghost earlier: seq<Marshal>) returns (reqs: seq<Incoming>, ghost got: seq<byte>)
      requires Valid() && Elsewhere(earlier, src, sender.out)
      requires var all := src.View() + sender.sock.incoming; WellFormed(all) && Requests(Parse(all).payloads)
      requires sender.locked ==> Refusals(handlers, Parse(src.View() + sender.sock.incoming).payloads) == []
      modifies src, src.repr`readIdx, src.Tails(), src.TailBlocks(), sender.sock`incoming, sender.sock`readLog
      ensures src.Valid() && src.CanWrite() && src.repr !! sender.out.repr && old(sender.sock.incoming) == got + sender.sock.incoming
      ensures src.View() == Parse(old(src.View()) + got).rest
      ensures Elsewhere(earlier, src, sender.out) && forall i :: 0 <= i < |earlier| ==> earlier[i].View() == old(earlier[i].View())
      ensures Progress(sender, handlers, reqs, Parse(old(src.View()) + got).payloads, []) && Apart(reqs, src)
      ensures forall i, j :: 0 <= i < |reqs| && 0 <= j < |earlier| ==> reqs[i].m != earlier[j] && reqs[i].m.repr !! earlier[j].repr
      ensures forall i :: 0 <= i < |reqs| ==> fresh(reqs[i]) && fresh(reqs[i].m) && fresh(reqs[i].m.repr)
      ensures fresh(src.repr - old(src.repr))
      ensures src.tail == null || src.tail == old(src.tail) || (fresh(src.tail) && fresh(src.tail.data))
      ensures sender.sock.Drained()
    {
      hide Marshal.View, Marshal.Valid, Marshal.CanWrite, WellFormed, Parse, Requests, Refusals, Carries, Sender.Valid, Sender.Awaited, Complete;
      src.ChainOwned();
      sender.TailOwned();
      ghost var before := src.View();
      reqs, got := Receive(earlier);
      Assoc(before, got, sender.sock.incoming);
      RefusalsSoFar(handlers, before + got, sender.sock.incoming);
    }

    /** Receives, and dispatches what is complete. */
    method Serve(ghost earlier: seq<Marshal>) returns (reqs: seq<Incoming>, ids: seq<Option<int>>, ghost got: seq<byte>)
      requires Valid() && Elsewhere(earlier, src, sender.out)
      requires var all := src.View() + sender.sock.incoming; WellFormed(all) && Requests(Parse(all).payloads)
      requires sender.locked ==> Refusals(handlers, Parse(src.View() + sender.sock.incoming).payloads) == []
      modifies src, src.repr`readIdx, src.Tails(), src.TailBlocks(), sender.sock`incoming, sender.sock`readLog
      modifies sender, sender.out, sender.out.Tails(), sender.out.TailBlocks()
      ensures Valid() && old(sender.sock.incoming) == got + sender.sock.incoming
      ensures src.View() == Parse(old(src.View()) + got).rest
      ensures Elsewhere(earlier, src, sender.out) && Elsewhere(Buffers(reqs), src, sender.out)
      ensures forall i :: 0 <= i < |earlier| ==> earlier[i].View() == old(earlier[i].View())
      ensures fresh(set r | r in reqs) && fresh(set r | r in reqs :: r.m)
      ensures Served(reqs, ids, Parse(old(src.View()) + got).payloads)
      ensures sender.done == old(sender.done) + Refusals(handlers, Parse(old(src.View()) + got).payloads)
      ensures fresh(src.repr - old(src.repr))
      ensures src.tail == null || src.tail == old(src.tail) || (fresh(src.tail) && fresh(src.tail.data))
      ensures fresh(sender.out.repr - old(sender.out.repr))
      ensures sender.out.tail == old(sender.out.tail) || (sender.out.tail != null && fresh(sender.out.tail) && fresh(sender.out.tail.data))
      ensures sender.LockKept()
      ensures sender.sock.Drained()
    {
      hide Marshal.View, Marshal.Valid, Marshal.CanWrite, WellFormed, Parse, Requests, Refusals, Settled, Carries, Sender.Valid, Sender.Awaited, Complete;
      hide Buffers, Elsewhere, Apart;
      sender.TailOwned();
      ghost var before := src.View();
      reqs, got := Collect(earlier);
      ids := Answer(reqs, Parse(before + got).payloads, earlier);
      Handed(reqs, Parse(before + got).payloads, ids);
    }

    lemma NoneElsewhere()
      ensures Elsewhere(Buffers([]), src, sender.out)
    {
    }

    /** Every payload got the treatment it calls for. */
    ghost predicate Served(reqs: seq<Incoming>, ids: seq<Option<int>>, ps: seq<seq<byte>>)
      reads *
      ensures Served(reqs, ids, ps) ==> Requests(ps)
    {
      Requests(ps) && |reqs| == |ids| == |ps| && forall i :: 0 <= i < |reqs| ==> Settled(handlers, reqs[i], ps[i], ids[i])
    }

    /**
     One wake-up of the polling thread: whatever part of the stream has arrived, every packet that is
     complete by then is dispatched, exactly once and in order, and the rest stays buffered.  A handler
     thread may be in the middle of a reply, which is left alone; only an error reply has to wait for it.
     */
    method HandleRead(ghost earlier: seq<Marshal>) returns (reqs: seq<Incoming>, ids: seq<Option<int>>, ghost got: seq<byte>)
      requires Valid() && Elsewhere(earlier, src, sender.out)
      requires var all := src.View() + sender.sock.incoming; WellFormed(all) && Requests(Parse(all).payloads)
      requires sender.locked ==> Refusals(handlers, Parse(src.View() + sender.sock.incoming).payloads) == []
      modifies src, src.repr`readIdx, src.Tails(), src.TailBlocks(), sender.sock`incoming, sender.sock`readLog
      modifies sender, sender.out, sender.out.Tails(), sender.out.TailBlocks()
      ensures Valid() && old(sender.sock.incoming) == got + sender.sock.incoming
      ensures Elsewhere(earlier, src, sender.out) && Elsewhere(Buffers(reqs), src, sender.out)
      ensures fresh(set r | r in reqs) && fresh(set r | r in reqs :: r.m)
      ensures forall i :: 0 <= i < |earlier| ==> earlier[i].View() == old(earlier[i].View())
      ensures closed ==> got == [] && reqs == [] && sender.done == old(sender.done) && src.View() == old(src.View())
      ensures !closed ==> src.View() == Parse(old(src.View()) + got).rest
      ensures !closed ==> Served(reqs, ids, Parse(old(src.View()) + got).payloads)
      ensures !closed ==> sender.done == old(sender.done) + Refusals(handlers, Parse(old(src.View()) + got).payloads)
      ensures fresh(src.repr - old(src.repr))
      ensures src.tail == null || src.tail == old(src.tail) || (fresh(src.tail) && fresh(src.tail.data))
      ensures fresh(sender.out.repr - old(sender.out.repr))
      ensures sender.out.tail == old(sender.out.tail) || (sender.out.tail != null && fresh(sender.out.tail) && fresh(sender.out.tail.data))
      ensures sender.LockKept()
      ensures !closed ==> sender.sock.Drained()
    {
      hide Valid, Marshal.View, WellFormed, Parse, Requests, Refusals, Served, Elsewhere;
      NoneElsewhere();
      reqs, ids, got := [], [], [];
      if !closed {
        reqs, ids, got := Serve(earlier);
      }
    }

    /** What is settled stays so as long as the requests keep their xids and bytes. */
    lemma ServedIs(reqs: seq<Incoming>, ids: seq<Option<int>>, ps: seq<seq<byte>>)
      requires Requests(ps)
      ensures Served(reqs, ids, ps) <==> |reqs| == |ids| == |ps| && forall i :: 0 <= i < |reqs| ==>
        reqs[i].m.Valid() && reqs[i].m.Owns() && reqs[i].m.arena == 0 && Suits(handlers, ps[i], ids[i], reqs[i].xid, reqs[i].m.View())
    {
      hide Suits, Request, Marshal.Valid, Marshal.Owns, Marshal.View;
    }

    lemma ServedJoin(reqs: seq<Incoming>, ids: seq<Option<int>>, ps: seq<seq<byte>>,
        next: seq<Incoming>, nextIds: seq<Option<int>>, qs: seq<seq<byte>>)
      requires Served(reqs, ids, ps) && Served(next, nextIds, qs)
      ensures Served(reqs + next, ids + nextIds, ps + qs)
    {
      hide Settled, Request;
    }

    /** The wake-ups so far have dispatched what is complete in `stream`, and nothing ahead is malformed. */
    ghost predicate Upto(reqs: seq<Incoming>, ids: seq<Option<int>>, stream: seq<byte>, base: seq<seq<byte>>)
      reads *
    {
      Valid() && src.View() == Parse(stream).rest &&
      WellFormed(stream + sender.sock.incoming) && Requests(Parse(stream + sender.sock.incoming).payloads) &&
      (sender.locked ==> Refusals(handlers, Parse(stream + sender.sock.incoming).payloads) == []) &&
      Served(reqs, ids, Parse(stream).payloads) && Elsewhere(Buffers(reqs), src, sender.out) &&
      sender.done == base + Refusals(handlers, Parse(stream).payloads)
    }

    /** A wake-up, after which the requests of the earlier ones are still what they were. */
    method HandleMore(reqs: seq<Incoming>, ids: seq<Option<int>>, ghost ps: seq<seq<byte>>)
        returns (next: seq<Incoming>, nextIds: seq<Option<int>>, ghost got: seq<byte>)
      requires Valid() && !closed && Elsewhere(Buffers(reqs), src, sender.out) && Requests(ps) && Served(reqs, ids, ps)
      requires var all := src.View() + sender.sock.incoming; WellFormed(all) && Requests(Parse(all).payloads)
      requires sender.locked ==> Refusals(handlers, Parse(src.View() + sender.sock.incoming).payloads) == []
      modifies src, src.repr`readIdx, src.Tails(), src.TailBlocks(), sender.sock`incoming, sender.sock`readLog
      modifies sender, sender.out, sender.out.Tails(), sender.out.TailBlocks()
      ensures Valid() && sender.LockKept() && old(sender.sock.incoming) == got + sender.sock.incoming
      ensures Elsewhere(Buffers(reqs), src, sender.out) && Elsewhere(Buffers(next), src, sender.out)
      ensures fresh(set r | r in next) && fresh(set r | r in next :: r.m)
      ensures src.View() == Parse(old(src.View()) + got).rest
      ensures Served(reqs, ids, ps) && Served(next, nextIds, Parse(old(src.View()) + got).payloads)
      ensures sender.done == old(sender.done) + Refusals(handlers, Parse(old(src.View()) + got).payloads)
      ensures fresh(src.repr - old(src.repr))
      ensures src.tail == null || src.tail == old(src.tail) || (fresh(src.tail) && fresh(src.tail.data))
      ensures fresh(sender.out.repr - old(sender.out.repr))
      ensures sender.out.tail == old(sender.out.tail) || (sender.out.tail != null && fresh(sender.out.tail) && fresh(sender.out.tail.data))
      ensures sender.sock.Drained()
    {
      hide Valid, Marshal.Valid, Marshal.View, WellFormed, Parse, Requests, Refusals, Served, Elsewhere, Suits;
      ServedIs(reqs, ids, ps);
      next, nextIds, got := HandleRead(Buffers(reqs));
      BuffersAre(reqs, src, sender.out);
      ServedIs(reqs, ids, ps);
    }

    /** One more wake-up; the requests of the earlier ones are left alone. */
    method Wake(reqs: seq<Incoming>, ids: seq<Option<int>>, ghost stream: seq<byte>, ghost base: seq<seq<byte>>)
        returns (more: seq<Incoming>, moreIds: seq<Option<int>>, ghost got: seq<byte>)
      requires Upto(reqs, ids, stream, base) && !closed
      modifies src, src.repr`readIdx, src.Tails(), src.TailBlocks(), sender.sock`incoming, sender.sock`readLog
      modifies sender, sender.out, sender.out.Tails(), sender.out.TailBlocks()
      ensures old(sender.sock.incoming) == got + sender.sock.incoming
      ensures Upto(more, moreIds, stream + got, base)
      ensures |reqs| <= |more| && more[..|reqs|] == reqs && forall i :: |reqs| <= i < |more| ==> fresh(more[i]) && fresh(more[i].m)
      ensures fresh(src.repr - old(src.repr))
      ensures src.tail == null || src.tail == old(src.tail) || (fresh(src.tail) && fresh(src.tail.data))
      ensures fresh(sender.out.repr - old(sender.out.repr))
      ensures sender.out.tail == old(sender.out.tail) || (sender.out.tail != null && fresh(sender.out.tail) && fresh(sender.out.tail.data))
      ensures sender.LockKept()
      ensures sender.sock.Drained()
    {
      hide Valid, Marshal.Valid, Marshal.View, WellFormed, Parse, Requests, Refusals, Served, Elsewhere, Suits;
      GoesOn(handlers, stream, sender.sock.incoming);
      var next, nextIds;
      next, nextIds, got := HandleMore(reqs, ids, Parse(stream).payloads);
      more, moreIds := reqs + next, ids + nextIds;
      Assoc(stream, got, sender.sock.incoming);
      Onward(reqs, ids, next, nextIds, stream, got, base);
    }

    /** What one wake-up adds to those before it. */
    lemma Onward(reqs: seq<Incoming>, ids: seq<Option<int>>, next: seq<Incoming>, nextIds: seq<Option<int>>,
        stream: seq<byte>, got: seq<byte>, base: seq<seq<byte>>)
      requires Valid() && src.View() == Parse(Parse(stream).rest + got).rest
      requires Requests(Parse(stream + got + sender.sock.incoming).payloads)
      requires sender.locked ==> Refusals(handlers, Parse(stream + got + sender.sock.incoming).payloads) == []
      requires WellFormed(stream + got + sender.sock.incoming)
      requires Served(reqs, ids, Parse(stream).payloads) && Served(next, nextIds, Parse(Parse(stream).rest + got).payloads)
      requires Elsewhere(Buffers(reqs), src, sender.out) && Elsewhere(Buffers(next), src, sender.out)
      requires sender.done ==
        (base + Refusals(handlers, Parse(stream).payloads)) + Refusals(handlers, Parse(Parse(stream).rest + got).payloads)
      ensures Upto(reqs + next, ids + nextIds, stream + got, base)
    {
      hide Valid, Marshal.Valid, Marshal.View, WellFormed, Parse, Requests, Refusals, Served, Elsewhere;
      var ps, qs := Parse(stream).payloads, Parse(Parse(stream).rest + got).payloads;
      ParseMore(stream, got);
      ServedJoin(reqs, ids, ps, next, nextIds, qs);
      RefusalsJoin(handlers, ps, qs);
      AssocPayloads(base, Refusals(handlers, ps), Refusals(handlers, qs));
      BuffersJoin(reqs, next, src, sender.out);
    }

    /**
     Any number of wake-ups: together they dispatch what one would have dispatched had everything arrived
     at once, and after the last one the requests of all are still what their payloads say.
     */
    method HandleReads(times: nat) returns (reqs: seq<Incoming>, ids: seq<Option<int>>, ghost got: seq<byte>)
      requires Valid() && !closed
      requires var all := src.View() + sender.sock.incoming; WellFormed(all) && Requests(Parse(all).payloads)
      requires sender.locked ==> Refusals(handlers, Parse(src.View() + sender.sock.incoming).payloads) == []
      modifies src, src.repr`readIdx, src.Tails(), src.TailBlocks(), sender.sock`incoming, sender.sock`readLog
      modifies sender, sender.out, sender.out.Tails(), sender.out.TailBlocks()
      ensures Valid() && old(sender.sock.incoming) == got + sender.sock.incoming
      ensures src.View() == Parse(old(src.View()) + got).rest
      ensures Served(reqs, ids, Parse(old(src.View()) + got).payloads)
      ensures sender.done == old(sender.done) + Refusals(handlers, Parse(old(src.View()) + got).payloads)
      ensures sender.LockKept()
      ensures times > 0 ==> sender.sock.Drained()
    {
      hide Valid, Marshal.View, WellFormed, Requests, Refusals, Served, Elsewhere, Sender.Valid, Sender.Awaited, Upto, Parse, Marshal.Valid, Complete;
      reqs, ids, got := [], [], [];
      ghost var before, base := src.View(), sender.done;
      StartsEmpty();
      assert before + [] == before;
      for i := 0 to times
        invariant sender.LockKept() && |sender.sock.readLog| >= |old(sender.sock.readLog)| && (i > 0 ==> sender.sock.Drained())
        invariant Upto(reqs, ids, before + got, base) && old(sender.sock.incoming) == got + sender.sock.incoming
        invariant forall j :: 0 <= j < |reqs| ==> fresh(reqs[j]) && fresh(reqs[j].m)
        invariant fresh(src.repr - old(src.repr)) && fresh(sender.out.repr - old(sender.out.repr))
        invariant src.tail == null || src.tail == old(src.tail) || (fresh(src.tail) && fresh(src.tail.data))
        invariant sender.out.tail == old(sender.out.tail) || (sender.out.tail != null && fresh(sender.out.tail) && fresh(sender.out.tail.data))
      {
        ghost var p;
        reqs, ids, p := Wake(reqs, ids, before + got, base);
        Assoc(before, got, p);
        Assoc(got, p, sender.sock.incoming);
        got := got + p;
      }
      UptoMeans(reqs, ids, before + got, base);
    }

    lemma UptoMeans(reqs: seq<Incoming>, ids: seq<Option<int>>, stream: seq<byte>, base: seq<seq<byte>>)
      requires Upto(reqs, ids, stream, base)
      ensures Valid() && src.View() == Parse(stream).rest && Served(reqs, ids, Parse(stream).payloads)
      ensures sender.done == base + Refusals(handlers, Parse(stream).payloads)
    {
    }

    lemma StartsEmpty()
      requires Valid()
      requires var all := src.View() + sender.sock.incoming; WellFormed(all) && Requests(Parse(all).payloads)
      requires sender.locked ==> Refusals(handlers, Parse(src.View() + sender.sock.incoming).payloads) == []
      ensures Upto([], [], src.View(), sender.done)
    {
      NothingComplete(src.View());
      NoneElsewhere();
      assert sender.done + [] == sender.done;
    }
  }

  /** What a wake-up makes of the stream is where the next one goes on. */
  lemma GoesOn(handlers: set<int>, a: seq<byte>, b: seq<byte>)
    requires WellFormed(a + b) && Requests(Parse(a + b).payloads)
    ensures WellFormed(Parse(a).rest + b) && Requests(Parse(Parse(a).rest + b).payloads)
    ensures Refusals(handlers, Parse(a + b).payloads) == [] ==> Refusals(handlers, Parse(Parse(a).rest + b).payloads) == []
  {
    hide Request, Refusals;
    WellFormedRest(a, b);
    ParseMore(a, b);
    var ps, qs := Parse(a).payloads, Parse(Parse(a).rest + b).payloads;
    forall i | 0 <= i < |qs|
      ensures Request(qs[i])
    {
      assert Request((ps + qs)[|ps| + i]);
    }
    forall i | 0 <= i < |ps|
      ensures Request(ps[i])
    {
      assert Request((ps + qs)[i]);
    }
    RefusalsJoin(handlers, ps, qs);
  }

  lemma RefusalsSoFar(handlers: set<int>, a: seq<byte>, b: seq<byte>)
    requires Requests(Parse(a + b).payloads)
    ensures Requests(Parse(a).payloads)
    ensures Refusals(handlers, Parse(a + b).payloads) == [] ==> Refusals(handlers, Parse(a).payloads) == []
  {
    hide Request, Refusals;
    ParseMore(a, b);
    var ps, qs := Parse(a).payloads, Parse(Parse(a).rest + b).payloads;
    forall i | 0 <= i < |qs|
      ensures Request(qs[i])
    {
      assert Request((ps + qs)[|ps| + i]);
    }
    forall i | 0 <= i < |ps|
      ensures Request(ps[i])
    {
      assert Request((ps + qs)[i]);
    }
    RefusalsJoin(handlers, ps, qs);
  }

  lemma {:induction false} NoneRefused(handlers: set<int>, ps: seq<seq<byte>>, k: nat)
    requires Requests(ps) && k < |ps|
    ensures Refusals(handlers, ps) == [] ==> Refusal(handlers, ps[k]) == []
  {
    hide Refusal, Request;
    if k < |ps| - 1 {
      NoneRefused(handlers, ps[..|ps| - 1], k);
    }
  }

  lemma NoRefusals(handlers: set<int>)
    ensures Refusals(handlers, []) == []
  {
  }

  lemma RefusalsSnoc(handlers: set<int>, ps: seq<seq<byte>>, p: seq<byte>)
    requires Requests(ps) && Request(p)
    ensures Requests(ps + [p]) && Refusals(handlers, ps + [p]) == Refusals(handlers, ps) + Refusal(handlers, p)
  {
    hide Refusal, Request;
    assert (ps + [p])[..|ps|] == ps;
  }

  lemma {:induction false} RefusalsJoin(handlers: set<int>, ps: seq<seq<byte>>, qs: seq<seq<byte>>)
    requires Requests(ps) && Requests(qs)
    ensures Requests(ps + qs) && Refusals(handlers, ps + qs) == Refusals(handlers, ps) + Refusals(handlers, qs)
  {
    hide Refusal, Request, Refusals;
    if qs == [] {
      assert ps + qs == ps;
      NoRefusals(handlers);
    } else {
      var front, last := qs[..|qs| - 1], qs[|qs| - 1];
      RefusalsJoin(handlers, ps, front);
      RefusalsSnoc(handlers, front, last);
      RefusalsSnoc(handlers, ps + front, last);
      AssocPayloads(ps, front, [last]);
      assert qs == front + [last];
      AssocPayloads(Refusals(handlers, ps), Refusals(handlers, front), Refusal(handlers, last));
    }
  }

  lemma ElsewhereJoin(a: seq<Marshal>, b: seq<Marshal>, src: Marshal, out: Marshal)
    requires Elsewhere(a, src, out) && Elsewhere(b, src, out)
    ensures Elsewhere(a + b, src, out)
  {
    hide Marshal.Valid, Marshal.Owns;
  }

  lemma BuffersAre(reqs: seq<Incoming>, src: Marshal, out: Marshal)
    requires Elsewhere(Buffers(reqs), src, out)
    ensures forall i :: 0 <= i < |reqs| ==>
      Buffers(reqs)[i] == reqs[i].m && reqs[i].m.Valid() && reqs[i].m.Owns() && reqs[i].m.arena == 0
  {
  }

  lemma BuffersJoin(a: seq<Incoming>, b: seq<Incoming>, src: Marshal, out: Marshal)
    requires Elsewhere(Buffers(a), src, out) && Elsewhere(Buffers(b), src, out)
    ensures Elsewhere(Buffers(a + b), src, out)
  {
    hide Elsewhere;
    ElsewhereJoin(Buffers(a), Buffers(b), src, out);
    BuffersSum(a, b);
  }

  lemma BuffersSum(a: seq<Incoming>, b: seq<Incoming>)
    ensures Buffers(a + b) == Buffers(a) + Buffers(b)
  {
    hide Buffers;
  }

  lemma NothingComplete(buf: seq<byte>)
    requires !Complete(buf)
    ensures Parse(buf) == Parsed([], buf)
  {
  }

  lemma PayloadsSoFar(a: seq<byte>, b: seq<byte>)
    requires Requests(Parse(a + b).payloads)
    ensures Requests(Parse(a).payloads)
  {
    hide Request;
    ParseMore(a, b);
    var ps, qs := Parse(a).payloads, Parse(a + b).payloads;
    forall i | 0 <= i < |ps|
      ensures Request(ps[i])
    {
      assert ps[i] == qs[i];
    }
  }
}
