/**
 Whole runs of one client and one server over two lossless byte streams that deliver arbitrary
 fragments: rpc/client.cc and rpc/server.cc.
 */
module Protocol {
  import opened Bytes
  import opened Marshals
  import opened Framing
  import SparseInt
  import opened Wire
  import opened Serialize
  import opened Sending
  import opened Servers
  import opened Clients

  // ---- what travels

  /** <xid> <rpc_id> <arg1> ... <argN>; the body is everything behind the xid. */
  function Question(xid: int, body: seq<byte>): seq<byte>
    requires Typed(V64, Num(xid))
  {
    Encode(V64, Num(xid)) + body
  }

  predicate Sound(r: Reply)
  {
    Typed(V64, Num(r.xid)) && Typed(V32, Num(r.code)) && Payload(Answered(r))
  }

  /** <xid> <error_code> <ret1> ... <retN>. */
  function Answered(r: Reply): seq<byte>
    requires Typed(V64, Num(r.xid)) && Typed(V32, Num(r.code))
  {
    Encode(V64, Num(r.xid)) + (Encode(V32, Num(r.code)) + r.body)
  }

  predicate AllSound(rs: seq<Reply>)
  {
    forall i :: 0 <= i < |rs| ==> Sound(rs[i])
  }

  function Answers(rs: seq<Reply>): (ps: seq<seq<byte>>)
    requires AllSound(rs)
    ensures |ps| == |rs|
  {
    seq(|rs|, i requires 0 <= i < |rs| => Answered(rs[i]))
  }

  predicate Distinct(rs: seq<Reply>)
  {
    forall i, j :: 0 <= i < j < |rs| ==> rs[i].xid != rs[j].xid
  }

  function Xids(rs: seq<Reply>): set<int>
  {
    set i | 0 <= i < |rs| :: rs[i].xid
  }

  // ---- reading a piece of a run of frames

  /** A piece of a run of frames starts with the first frame, as far as it reaches. */
  lemma FirstFrame(p: seq<byte>, more: seq<byte>, a: seq<byte>, b: seq<byte>)
    requires Payload(p) && a + b == Frame(p) + more && |a| >= 4
    ensures Announced(a) == |p| && (Complete(a) <==> |a| >= 4 + |p|)
    ensures Complete(a) ==> a[4..4 + |p|] == p && a == Frame(p) + a[4 + |p|..] && a[4 + |p|..] + b == more
  {
    FrameHead(p, more);
    assert a[..4] == (a + b)[..4];
    if Complete(a) {
      CompleteMore(a, b);
      assert a[4..4 + |p|] == (a + b)[4..4 + |p|];
      assert (Frame(p) + more)[..4] == Frame(p)[..4];
      Rejoin(a, 4 + |p|);
      assert a[..4 + |p|] == a[..4] + a[4..4 + |p|];
    }
  }

  /** What the packet loop of the server makes of a piece of a run of frames. */
  lemma {:induction false} ParsePiece(ps: seq<seq<byte>>, a: seq<byte>, b: seq<byte>)
    requires (forall i :: 0 <= i < |ps| ==> Payload(ps[i])) && a + b == Frames(ps)
    ensures var k := |Parse(a).payloads|;
      k <= |ps| && Parse(a).payloads == ps[..k] && Parse(a).rest + b == Frames(ps[k..])
    decreases |ps|
  {
    hide Frame, Payload, Announced;
    if |a| >= 4 {
      assert ps != [];
      FirstFrame(ps[0], Frames(ps[1..]), a, b);
      if Complete(a) {
        ParsePiece(ps[1..], a[4 + |ps[0]|..], b);
      }
    }
  }

  /**
   A whole reply at the front of the buffer is recognised for what it is.  If its xid is unknown only size, xid and
   code are taken off, and the loop goes on in the body as if it were the next packet.
   */
  lemma LookAtReply(known: set<int>, r: Reply, rest: seq<byte>)
    requires Sound(r)
    ensures Look(known, Frame(Answered(r)) + rest) == if r.xid in known then Hit(r, rest) else Miss(r.xid, r.body + rest)
  {
    hide Framing.Payload, SparseInt.ValSize, TakeV64, TakeV32, SparseInt.OnWire;
    FrameHead(Answered(r), rest);
    assert (Frame(Answered(r)) + rest)[4..] == Answered(r) + rest;
    Assoc(Encode(V64, Num(r.xid)), Encode(V32, Num(r.code)) + r.body, rest);
    Assoc(Encode(V32, Num(r.code)), r.body, rest);
    TakeSent64(r.xid, Encode(V32, Num(r.code)) + (r.body + rest));
    TakeSent32(r.code, r.body + rest);
    Cut(r.body, rest);
  }

  /**
   What the packet loop of the client makes of a piece of a run of replies: if their xids are pending
   and distinct, it completes exactly the replies that are whole, and stays aligned.
   */
  lemma {:induction false} SortPiece(known: set<int>, rs: seq<Reply>, a: seq<byte>, b: seq<byte>)
    requires AllSound(rs) && Distinct(rs) && Xids(rs) <= known && a + b == Frames(Answers(rs))
    ensures var k, o := |Parse(a).payloads|, Sort(known, a);
      k <= |rs| && o == Outcome(rs[..k], [], known - Xids(rs[..k]), Parse(a).rest, false) &&
      Parse(a).rest + b == Frames(Answers(rs[k..]))
    decreases |rs|
  {
    hide Frame, Framing.Payload, Announced, Answered, Look, Sort, Xids, Typed, Parse, Frames, Answers, Distinct;
    if |a| < 4 {
      NotYet(known, rs, a);
    } else {
      SomeFrame(Answers(rs));
      TailAnswers(rs);
      var p := Answered(rs[0]);
      FirstFrame(p, Frames(Answers(rs[1..])), a, b);
      if Complete(a) {
        var rest := a[4 + |p|..];
        TailXids(rs, known);
        LookAtReply(known, rs[0], rest);
        SortPiece(known - {rs[0].xid}, rs[1..], rest, b);
        FrontXids(rs, |Parse(rest).payloads|);
        SortHit(known, rs[0], a, rest);
      } else {
        NotYet(known, rs, a);
      }
    }
  }

  lemma SomeFrame(ps: seq<seq<byte>>)
    ensures |Frames(ps)| > 0 ==> ps != []
  {
  }

  lemma TailAnswers(rs: seq<Reply>)
    requires AllSound(rs) && rs != []
    ensures AllSound(rs[1..]) && Frames(Answers(rs)) == Frame(Answered(rs[0])) + Frames(Answers(rs[1..]))
  {
    hide Answered, Frame, Sound;
    assert Answers(rs)[1..] == Answers(rs[1..]);
  }

  lemma NotYet(known: set<int>, rs: seq<Reply>, a: seq<byte>)
    requires !Complete(a) && (|a| >= 4 ==> Announced(a) >= 0)
    ensures Sort(known, a) == Outcome(rs[..0], [], known - Xids(rs[..0]), a, false) && rs[0..] == rs && Parse(a) == Parsed([], a)
  {
    assert rs[..0] == [] && Xids(rs[..0]) == {};
  }

  lemma TailXids(rs: seq<Reply>, known: set<int>)
    requires rs != [] && Distinct(rs) && Xids(rs) <= known
    ensures rs[0].xid in known && Xids(rs[1..]) <= known - {rs[0].xid} && Distinct(rs[1..])
  {
    assert rs[0].xid in Xids(rs);
    forall x | x in Xids(rs[1..])
      ensures x in known - {rs[0].xid}
    {
      var i :| 0 <= i < |rs| - 1 && rs[1..][i].xid == x;
      assert rs[i + 1].xid in Xids(rs);
    }
  }

  lemma FrontXids(rs: seq<Reply>, j: nat)
    requires j < |rs|
    ensures [rs[0]] + rs[1..][..j] == rs[..j + 1] && Xids(rs[..j + 1]) == {rs[0].xid} + Xids(rs[1..][..j])
    ensures rs[1..][j..] == rs[j + 1..]
  {
    assert [rs[0]] + rs[1..][..j] == rs[..j + 1];
    var front := rs[1..][..j];
    forall x | x in Xids(rs[..j + 1])
      ensures x in {rs[0].xid} + Xids(front)
    {
      var i :| 0 <= i <= j && rs[i].xid == x;
      assert i > 0 ==> front[i - 1].xid == x;
    }
    forall x | x in Xids(front)
      ensures x in Xids(rs[..j + 1])
    {
      var i :| 0 <= i < j && front[i].xid == x;
      assert rs[..j + 1][i + 1].xid == x;
    }
  }

  lemma SortHit(known: set<int>, r: Reply, a: seq<byte>, rest: seq<byte>)
    requires Look(known, a) == Hit(r, rest) && Complete(a) && rest == a[4 + Announced(a)..]
    ensures var next := Sort(known - {r.xid}, rest);
      Sort(known, a) == next.(replies := [r] + next.replies)
    ensures Parse(a).rest == Parse(rest).rest && |Parse(a).payloads| == 1 + |Parse(rest).payloads|
  {
  }

  // ---- the state of a run

  const ETIMEDOUT := 110

  datatype Call = Call(ready: bool, timedOut: bool, code: int, body: seq<byte>)

  /**
   Client, server and the bytes between them.  `asked`, `answers`, `completions`, `missed` and `failed`
   record what happened: the bodies of the requests by xid, the replies in the order in which they
   were framed, the replies the client matched with a future, the xids it did not know, and the
   futures that close invalidated.  `read` counts the requests the server has taken off the wire.
   */
  datatype World = World(
    handlers: set<int>,
    connected: bool, next: nat, pending: set<int>, calls: map<int, Call>, waiting: multiset<int>, clientIn: seq<byte>,
    toServer: seq<byte>, serverIn: seq<byte>, open: set<int>, toClient: seq<byte>,
    asked: seq<seq<byte>>, read: nat, answers: seq<Reply>,
    completions: seq<Reply>, missed: seq<int>, failed: set<int>, corrupt: bool)

  function Start(handlers: set<int>): World
  {
    World(handlers, true, 0, {}, map[], multiset{}, [], [], [], {}, [], [], 0, [], [], [], {}, false)
  }

  /**
   What can happen next: a call; the server reads `n` more bytes; a handler replies; the client reads
   `n` more bytes; a thread starts a timed wait; it wakes up, because its time is over or not; the
   client is closed.
   */
  datatype Step =
    | Ask(body: seq<byte>)
    | ServerRead(n: nat)
    | Answer(reply: Reply)
    | ClientRead(n: nat)
    | Wait(xid: int)
    | Wake(xid: int, late: bool)
    | Close

  function NotifyReady(c: Call): Call
  {
    if c.timedOut then c else c.(ready := true)
  }

  function Next(w: World, step: Step): World
  {
    match step
    case Ask(body) => if CanAsk(w, body) then Asked(w, body) else w
    case ServerRead(n) => if n <= |w.toServer| then Served(w, n) else w
    case Answer(r) => if r.xid in w.open && Sound(r) then Framed(w.(open := w.open - {r.xid}), r) else w
    case ClientRead(n) => if w.connected && n <= |w.toClient| then Received(w, n) else w
    case Wait(x) => if x !in w.calls then w else if Over(w.calls[x]) then Left(w, x) else w.(waiting := w.waiting + multiset{x})
    case Wake(x, late) => if x in w.waiting && x in w.calls then Woken(w, x, late) else w
    case Close => Closed(w)
  }

  /** begin_request does nothing on a closed client; the xids of the 8-byte form are never reached. */
  predicate CanAsk(w: World, body: seq<byte>)
  {
    w.connected && Typed(V64, Num(w.next)) && Framing.Payload(Question(w.next, body))
  }

  function Asked(w: World, body: seq<byte>): World
    requires CanAsk(w, body)
  {
    w.(next := w.next + 1, pending := w.pending + {w.next}, calls := w.calls[w.next := Call(false, false, 0, [])],
       toServer := w.toServer + Frame(Question(w.next, body)), asked := w.asked + [body])
  }

  function Served(w: World, n: nat): World
    requires n <= |w.toServer|
  {
    var p := Parse(w.serverIn + w.toServer[..n]);
    HandleAll(w.(serverIn := p.rest, toServer := w.toServer[n..]), p.payloads)
  }

  function HandleAll(w: World, ps: seq<seq<byte>>): World
  {
    if ps == [] then w else Handle(HandleAll(w, ps[..|ps| - 1]), ps[|ps| - 1])
  }

  /** A request is refused at once or handed to its handler, which will reply at most once. */
  function Handle(w: World, p: seq<byte>): World
  {
    if !Request(p) then w.(corrupt := true) else
    match Judge(w.handlers, p)
    case Refused(xid, code) =>
      var r := Reply(xid, code, []);
      if Sound(r) then Framed(w.(read := w.read + 1), r) else w.(corrupt := true)
    case Handed(xid, _, _) => w.(read := w.read + 1, open := w.open + {xid})
  }

  function Framed(w: World, r: Reply): World
    requires Sound(r)
  {
    w.(toClient := w.toClient + Frame(Answered(r)), answers := w.answers + [r])
  }

  function Received(w: World, n: nat): World
    requires n <= |w.toClient|
  {
    var o := Sort(w.pending, w.clientIn + w.toClient[..n]);
    w.(clientIn := o.rest, toClient := w.toClient[n..], pending := o.known, calls := Deliver(w.calls, o.replies),
       completions := w.completions + o.replies, missed := w.missed + o.missed, corrupt := w.corrupt || o.bad)
  }

  function Deliver(calls: map<int, Call>, rs: seq<Reply>): map<int, Call>
  {
    if rs == [] then calls else
    var before, r := Deliver(calls, rs[..|rs| - 1]), rs[|rs| - 1];
    if r.xid in before then before[r.xid := Delivered(before[r.xid], r)] else before
  }

  function Delivered(c: Call, r: Reply): Call
  {
    NotifyReady(c.(code := r.code, body := r.body))
  }

  /** The condition under which the loop of timed_wait ends. */
  predicate Over(c: Call)
  {
    c.ready || c.timedOut
  }

  /** What timed_wait does behind its loop. */
  function Left(w: World, x: int): World
    requires x in w.calls
  {
    if w.calls[x].timedOut then w.(calls := w.calls[x := w.calls[x].(code := ETIMEDOUT)]) else w
  }

  /** What a thread in timed_wait does when pthread_cond_timedwait returns. */
  function Woken(w: World, x: int, late: bool): World
    requires x in w.calls
  {
    var v := if late then w.(calls := w.calls[x := w.calls[x].(timedOut := true)]) else w;
    if Over(v.calls[x]) then Left(v.(waiting := v.waiting - multiset{x}), x) else v
  }

  function Closed(w: World): World
  {
    w.(connected := false, pending := {}, failed := w.failed + w.pending,
       calls := map x | x in w.calls :: if x in w.pending then NotifyReady(w.calls[x].(code := ENOTCONN)) else w.calls[x])
  }

  function Run(w: World, steps: seq<Step>): World
  {
    if steps == [] then w else Next(Run(w, steps[..|steps| - 1]), steps[|steps| - 1])
  }

  // ---- what every step keeps

  predicate AllAskable(asked: seq<seq<byte>>)
  {
    forall i :: 0 <= i < |asked| ==> Typed(V64, Num(i)) && Framing.Payload(Question(i, asked[i]))
  }

  function Questions(asked: seq<seq<byte>>): (ps: seq<seq<byte>>)
    requires AllAskable(asked)
    ensures |ps| == |asked|
  {
    seq(|asked|, i requires 0 <= i < |asked| => Question(i, asked[i]))
  }

  /** The bytes on their way to the server are the requests it has not taken yet. */
  ghost predicate Upstream(w: World)
  {
    AllAskable(w.asked) && w.next == |w.asked| && w.read <= |w.asked| &&
    !Complete(w.serverIn) && w.serverIn + w.toServer == Frames(Questions(w.asked)[w.read..])
  }

  /** The bytes on their way to the client are the replies it has not matched yet. */
  ghost predicate Downstream(w: World)
  {
    AllSound(w.answers) && w.completions <= w.answers && w.missed == [] && !w.corrupt &&
    !Complete(w.clientIn) && w.clientIn + w.toClient == Frames(Answers(w.answers[|w.completions|..]))
  }

  /** Every request the server has taken is either with a handler or answered, once. */
  ghost predicate Ledger(w: World)
  {
    Distinct(w.answers) && w.open !! Xids(w.answers) &&
    forall x :: 0 <= x < w.read <==> x in w.open || x in Xids(w.answers)
  }

  /** Every call is either pending, or was completed, or failed. */
  ghost predicate Books(w: World)
  {
    (forall x :: 0 <= x < w.next <==> x in w.pending || x in Xids(w.completions) || x in w.failed) &&
    w.pending !! Xids(w.completions) && w.failed !! w.pending && w.failed !! Xids(w.completions) &&
    (if w.connected then w.failed == {} else w.pending == {})
  }

  /** What the futures say. */
  ghost predicate Told(w: World)
  {
    (forall x :: x in w.calls <==> 0 <= x < w.next) &&
    (forall x :: x in w.pending ==> x in w.calls && Unanswered(w.calls[x])) &&
    (forall i :: 0 <= i < |w.completions| ==> Fulfilled(w.calls, w.completions[i])) &&
    forall x :: x in w.failed ==> x in w.calls && Abandoned(w.calls[x])
  }

  ghost predicate Fulfilled(calls: map<int, Call>, r: Reply)
  {
    r.xid in calls && var c := calls[r.xid];
    c.body == r.body && if c.timedOut then c.code in {r.code, ETIMEDOUT} else c.ready && c.code == r.code
  }

  /** Not ready yet; a wait that timed out has left its code. */
  predicate Unanswered(c: Call)
  {
    !c.ready && c.code == if c.timedOut then ETIMEDOUT else 0
  }

  predicate Abandoned(c: Call)
  {
    if c.timedOut then c.code in {ENOTCONN, ETIMEDOUT} else c.ready && c.code == ENOTCONN
  }

  ghost predicate Inv(w: World)
  {
    Upstream(w) && Downstream(w) && Ledger(w) && Books(w) && Told(w)
  }

  // ---- the parts of the proof

  lemma XidsJoin(rs: seq<Reply>, more: seq<Reply>)
    ensures Xids(rs + more) == Xids(rs) + Xids(more)
  {
    forall x | x in Xids(rs) + Xids(more)
      ensures x in Xids(rs + more)
    {
      if x in Xids(rs) {
        var i :| 0 <= i < |rs| && rs[i].xid == x;
        assert (rs + more)[i].xid == x;
      } else {
        var i :| 0 <= i < |more| && more[i].xid == x;
        assert (rs + more)[|rs| + i].xid == x;
      }
    }
  }

  lemma DistinctSnoc(rs: seq<Reply>, r: Reply)
    requires Distinct(rs) && r.xid !in Xids(rs)
    ensures Distinct(rs + [r])
  {
    forall i | 0 <= i < |rs|
      ensures rs[i].xid != r.xid
    {
      assert rs[i].xid in Xids(rs);
    }
  }

  lemma AskKeeps(w: World, body: seq<byte>)
    requires Inv(w) && CanAsk(w, body)
    ensures Inv(Asked(w, body))
  {
    hide Upstream, Ledger, Books, Told, Downstream, CanAsk, Question, Frame;
    var w' := Asked(w, body);
    AskUpstream(w, body);
    LedgerSame(w, w');
    DownstreamSame(w, w');
    AskBooks(w, body);
  }

  lemma AskUpstream(w: World, body: seq<byte>)
    requires Upstream(w) && CanAsk(w, body)
    ensures Upstream(Asked(w, body))
  {
    hide Typed, Framing.Payload, Question, Frame;
    var w' := Asked(w, body);
    var p := Question(w.next, body);
    assert Questions(w'.asked)[w.read..] == Questions(w.asked)[w.read..] + [p];
    FramesSnoc(Questions(w.asked)[w.read..], p);
    Assoc(w.serverIn, w.toServer, Frame(p));
  }

  lemma AskBooks(w: World, body: seq<byte>)
    requires Books(w) && Told(w) && CanAsk(w, body)
    ensures Books(Asked(w, body)) && Told(Asked(w, body))
  {
    hide Typed, Framing.Payload, Question, Frame, Xids;
    LedgerBounds(w);
    InXids(w.completions);
    assert w.next !in Xids(w.completions);
  }

  lemma LedgerSame(w: World, w': World)
    requires Ledger(w) && w'.answers == w.answers && w'.open == w.open && w'.read == w.read
    ensures Ledger(w')
  {
  }

  lemma DownstreamSame(w: World, w': World)
    requires Downstream(w) && w'.answers == w.answers && w'.completions == w.completions && w'.missed == w.missed
    requires w'.corrupt == w.corrupt && w'.clientIn == w.clientIn && w'.toClient == w.toClient
    ensures Downstream(w')
  {
  }

  lemma LedgerBounds(w: World)
    requires Books(w)
    ensures forall x :: x in Xids(w.completions) || x in w.pending || x in w.failed ==> 0 <= x < w.next
  {
  }

  /** A reply for a request that is neither answered nor with a handler. */
  lemma FramedKeeps(w: World, r: Reply)
    requires Downstream(w) && Sound(r) && Distinct(w.answers) && w.open !! Xids(w.answers)
    requires r.xid !in w.open && r.xid !in Xids(w.answers)
    ensures Downstream(Framed(w, r))
    ensures Distinct(w.answers + [r]) && w.open !! Xids(w.answers + [r]) && Xids(w.answers + [r]) == Xids(w.answers) + {r.xid}
  {
    hide Typed, Framing.Payload, Answered, Frame, Xids, Distinct;
    var c := |w.completions|;
    assert (w.answers + [r])[c..] == w.answers[c..] + [r];
    assert Answers(w.answers[c..] + [r]) == Answers(w.answers[c..]) + [Answered(r)];
    FramesSnoc(Answers(w.answers[c..]), Answered(r));
    Assoc(w.clientIn, w.toClient, Frame(Answered(r)));
    DistinctSnoc(w.answers, r);
    OneXid(r);
    XidsJoin(w.answers, [r]);
  }

  lemma OneXid(r: Reply)
    ensures Xids([r]) == {r.xid}
  {
    assert [r][0].xid in Xids([r]);
  }

  lemma AnswerKeeps(w: World, r: Reply)
    requires Inv(w) && r.xid in w.open && Sound(r)
    ensures Inv(Framed(w.(open := w.open - {r.xid}), r))
  {
    hide Upstream, Sound, Answered, Frame, Xids, Distinct, Downstream, Told, Books;
    var v := w.(open := w.open - {r.xid});
    DownstreamSame(w, v);
    FramedKeeps(v, r);
    var w' := Framed(v, r);
    assert Upstream(w') by { UpstreamSame(w, w'); }
    assert Books(w') && Told(w') by { FuturesSame(w, w'); }
  }

  lemma UpstreamSame(w: World, w': World)
    requires Upstream(w) && w'.asked == w.asked && w'.next == w.next && w'.read == w.read
    requires w'.serverIn == w.serverIn && w'.toServer == w.toServer
    ensures Upstream(w')
  {
  }

  lemma FuturesSame(w: World, w': World)
    requires Books(w) && Told(w) && w'.next == w.next && w'.pending == w.pending && w'.completions == w.completions
    requires w'.failed == w.failed && w'.connected == w.connected && w'.calls == w.calls
    ensures Books(w') && Told(w')
  {
  }

  // ---- the server's side

  lemma QuestionIsRequest(xid: int, body: seq<byte>)
    requires Typed(V64, Num(xid))
    ensures Request(Question(xid, body)) && XidOf(Question(xid, body)) == xid && BodyOf(Question(xid, body)) == body
  {
    XidInFront(xid, body);
  }

  /** The server's books without the bytes it has yet to read. */
  ghost predicate Desk(w: World)
  {
    AllAskable(w.asked) && w.read <= |w.asked| && Downstream(w) && Ledger(w)
  }

  lemma RefusalSound(xid: int, code: int)
    requires Typed(V64, Num(xid)) && code in {EINVAL, ENOENT}
    ensures Sound(Reply(xid, code, []))
  {
    Codes();
    ShortReply(xid, code);
    assert Encode(V32, Num(code)) + [] == Encode(V32, Num(code));
  }

  lemma HandleKeeps(w: World)
    requires Desk(w) && w.read < |w.asked|
    ensures var w' := Handle(w, Question(w.read, w.asked[w.read]));
      Desk(w') && w' == w.(read := w.read + 1, open := w'.open, toClient := w'.toClient, answers := w'.answers)
  {
    hide Sound, Answered, Frame, Distinct, Question, Typed, Framing.Payload, Xids, Downstream, XidOf, BodyOf, Request;
    var p := Question(w.read, w.asked[w.read]);
    QuestionIsRequest(w.read, w.asked[w.read]);
    match Judge(w.handlers, p) {
      case Refused(xid, code) =>
        RefusalSound(xid, code);
        FramedKeeps(w, Reply(xid, code, []));
        DownstreamSame(Framed(w, Reply(xid, code, [])), Handle(w, p));
      case Handed(_, _, _) =>
        DownstreamSame(w, Handle(w, p));
    }
  }

  lemma {:induction false} HandleAllKeeps(w: World, ps: seq<seq<byte>>)
    requires Desk(w) && w.read + |ps| <= |w.asked| && ps == Questions(w.asked)[w.read..w.read + |ps|]
    ensures var w' := HandleAll(w, ps);
      Desk(w') && w' == w.(read := w.read + |ps|, open := w'.open, toClient := w'.toClient, answers := w'.answers)
  {
    hide Downstream, Ledger, Handle, Question;
    if ps != [] {
      var front, last := ps[..|ps| - 1], ps[|ps| - 1];
      assert front == Questions(w.asked)[w.read..w.read + |front|];
      HandleAllKeeps(w, front);
      var v := HandleAll(w, front);
      assert v.asked == w.asked && v.read == w.read + |front|;
      assert last == Questions(w.asked)[v.read] == Question(v.read, w.asked[v.read]);
      HandleKeeps(v);
    }
  }

  lemma AskedPayloads(w: World)
    requires Upstream(w)
    ensures forall i :: 0 <= i < |Questions(w.asked)| ==> Payload(Questions(w.asked)[i])
  {
    hide Question, Typed, Framing.Payload, Frames, Complete;
  }

  /** What the server's packet loop finds is the next requests, and what it leaves is what follows them. */
  lemma ServedBytes(w: World, n: nat)
    requires Upstream(w) && n <= |w.toServer|
    ensures var p := Parse(w.serverIn + w.toServer[..n]);
      var k := |p.payloads|;
      w.read + k <= |w.asked| && p.payloads == Questions(w.asked)[w.read..w.read + k] &&
      p.rest + w.toServer[n..] == Frames(Questions(w.asked)[w.read + k..])
  {
    hide Question, Typed, Framing.Payload, Parse, Frames, Complete, AllAskable;
    AskedPayloads(w);
    var a, b := w.serverIn + w.toServer[..n], w.toServer[n..];
    Rejoin(w.toServer, n);
    Assoc(w.serverIn, w.toServer[..n], b);
    ParsePiece(Questions(w.asked)[w.read..], a, b);
    PayloadSlices(Questions(w.asked), w.read, |Parse(a).payloads|);
  }

  lemma PayloadSlices(ps: seq<seq<byte>>, c: nat, k: nat)
    requires c <= |ps| && k <= |ps| - c
    ensures ps[c..][..k] == ps[c..c + k] && ps[c..][k..] == ps[c + k..]
  {
  }

  lemma ServedKeeps(w: World, n: nat)
    requires Inv(w) && n <= |w.toServer|
    ensures Inv(Served(w, n))
  {
    hide Downstream, Ledger, Books, Told, Question, Typed, Framing.Payload, Parse, Frames, HandleAll;
    ServedBytes(w, n);
    var p := Parse(w.serverIn + w.toServer[..n]);
    var v := w.(serverIn := p.rest, toServer := w.toServer[n..]);
    DownstreamSame(w, v);
    LedgerSame(w, v);
    HandleAllKeeps(v, p.payloads);
    FuturesSame(w, Served(w, n));
  }

  // ---- the client's side

  lemma {:induction false} DeliverAll(calls: map<int, Call>, rs: seq<Reply>)
    requires Distinct(rs) && Xids(rs) <= calls.Keys
    ensures Deliver(calls, rs).Keys == calls.Keys
    ensures forall x :: x in calls && x !in Xids(rs) ==> Deliver(calls, rs)[x] == calls[x]
    ensures forall i :: 0 <= i < |rs| ==> rs[i].xid in calls && Deliver(calls, rs)[rs[i].xid] == Delivered(calls[rs[i].xid], rs[i])
  {
    hide Delivered;
    if rs != [] {
      var front, r := rs[..|rs| - 1], rs[|rs| - 1];
      assert rs == front + [r];
      XidsJoin(front, [r]);
      OneXid(r);
      DeliverAll(calls, front);
      LastXid(front, r);
      forall i | 0 <= i < |front|
        ensures rs[i].xid in Xids(front) && rs[i].xid != r.xid
      {
        assert front[i] == rs[i];
      }
    }
  }

  lemma LastXid(front: seq<Reply>, r: Reply)
    requires Distinct(front + [r])
    ensures r.xid !in Xids(front) && Distinct(front)
  {
    var rs := front + [r];
    forall i | 0 <= i < |front|
      ensures front[i].xid != r.xid
    {
      assert rs[i] == front[i] && rs[|front|] == r;
    }
    forall i, j | 0 <= i < j < |front|
      ensures front[i].xid != front[j].xid
    {
      assert rs[i] == front[i] && rs[j] == front[j];
    }
  }

  /** The replies that are still on their way are for pending calls. */
  lemma ExpectedReplies(w: World)
    requires AllSound(w.answers) && w.completions <= w.answers && Ledger(w) && Books(w) && w.connected && w.read <= w.next
    ensures var rs := w.answers[|w.completions|..];
      AllSound(rs) && Distinct(rs) && Xids(rs) <= w.pending
  {
    hide Sound;
    var c := |w.completions|;
    var rs := w.answers[c..];
    assert w.completions + rs == w.answers;
    XidsJoin(w.completions, rs);
    forall x | x in Xids(rs)
      ensures x in w.pending
    {
      var j :| 0 <= j < |rs| && rs[j].xid == x;
      assert x == w.answers[c + j].xid && x in Xids(w.answers);
      forall i | 0 <= i < c
        ensures w.completions[i].xid != x
      {
        assert w.completions[i] == w.answers[i];
      }
    }
  }

  lemma Slices(rs: seq<Reply>, c: nat, k: nat)
    requires c <= |rs| && k <= |rs| - c
    ensures rs[..c] + rs[c..][..k] == rs[..c + k] && rs[c..][k..] == rs[c + k..]
  {
  }

  lemma ReceivedBytes(w: World, n: nat)
    requires Inv(w) && w.connected && n <= |w.toClient|
    ensures var w', o := Received(w, n), Sort(w.pending, w.clientIn + w.toClient[..n]);
      Downstream(w') && o.known == w.pending - Xids(o.replies) && Distinct(o.replies) && Xids(o.replies) <= w.pending
  {
    hide Sound, Xids, Upstream, Ledger, Books, Told, Deliver, Answered, Parse, Sort, Frames, Distinct;
    var a, b, c := w.clientIn + w.toClient[..n], w.toClient[n..], |w.completions|;
    Rejoin(w.toClient, n);
    Assoc(w.clientIn, w.toClient[..n], b);
    ReadSoFar(w);
    ExpectedReplies(w);
    SortPiece(w.pending, w.answers[c..], a, b);
    Slices(w.answers, c, |Parse(a).payloads|);
    FrontOf(w.answers[c..], |Parse(a).payloads|, w.pending);
  }

  lemma ReadSoFar(w: World)
    requires Upstream(w)
    ensures w.read <= w.next
  {
  }

  lemma FrontOf(rs: seq<Reply>, k: nat, known: set<int>)
    requires k <= |rs| && Distinct(rs) && Xids(rs) <= known
    ensures Distinct(rs[..k]) && Xids(rs[..k]) <= known
  {
    assert rs == rs[..k] + rs[k..];
    XidsJoin(rs[..k], rs[k..]);
  }

  lemma ReceivedKeeps(w: World, n: nat)
    requires Inv(w) && w.connected && n <= |w.toClient|
    ensures Inv(Received(w, n))
  {
    hide Sound, Xids, Upstream, Ledger, Downstream, Sort, Deliver, Distinct;
    var w', o := Received(w, n), Sort(w.pending, w.clientIn + w.toClient[..n]);
    ReceivedBytes(w, n);
    UpstreamSame(w, w');
    LedgerSame(w, w');
    XidsJoin(w.completions, o.replies);
    assert Books(w');
    ToldAfter(w, w', o.replies);
  }

  lemma InXids(rs: seq<Reply>)
    ensures forall i :: 0 <= i < |rs| ==> rs[i].xid in Xids(rs)
  {
  }

  lemma ToldAfter(w: World, w': World, rs: seq<Reply>)
    requires Books(w) && Told(w) && Distinct(rs) && Xids(rs) <= w.pending && w'.calls == Deliver(w.calls, rs)
    requires w'.next == w.next && w'.pending == w.pending - Xids(rs) && w'.completions == w.completions + rs && w'.failed == w.failed
    ensures Told(w')
  {
    hide Deliver, Xids, Distinct;
    assert forall x :: x in w.pending ==> x in w.calls && !w.calls[x].ready;
    DeliverAll(w.calls, rs);
    InXids(w.completions);
    InXids(rs);
    forall i | 0 <= i < |w'.completions|
      ensures Fulfilled(w'.calls, w'.completions[i])
    {
      if i < |w.completions| {
        assert w'.completions[i] == w.completions[i];
        assert w.completions[i].xid !in Xids(rs);
      } else {
        assert w'.completions[i] == rs[i - |w.completions|];
      }
    }
  }

  lemma WakeKeeps(w: World, x: int, late: bool)
    requires Inv(w) && x in w.calls
    ensures Inv(Woken(w, x, late))
  {
    hide Upstream, Downstream, Ledger, Books, Told;
    var w' := Woken(w, x, late);
    UpstreamSame(w, w');
    DownstreamSame(w, w');
    LedgerSame(w, w');
    BooksSame(w, w');
    ToldAfterWaking(w, x, late);
  }

  lemma ToldAfterWaking(w: World, x: int, late: bool)
    requires Told(w) && x in w.calls
    ensures Told(Woken(w, x, late))
  {
    hide Left;
    var v := if late then w.(calls := w.calls[x := w.calls[x].(timedOut := true)]) else w;
    var w' := Woken(w, x, late);
    NoOthers(v.(waiting := v.waiting - multiset{x}), x);
    forall y | y in w.calls
      ensures w'.calls[y] == if x == y && (late || w.calls[y].timedOut) then w.calls[y].(timedOut := true, code := ETIMEDOUT) else w.calls[y]
    {
      CodeAfterLeaving(v.(waiting := v.waiting - multiset{x}), x, y);
    }
    CallsUpdated(w, w');
  }

  lemma CallsUpdated(w: World, w': World)
    requires Told(w) && w'.calls.Keys == w.calls.Keys && w'.next == w.next && w'.pending == w.pending
    requires w'.completions == w.completions && w'.failed == w.failed
    requires forall y :: y in w.calls ==> w'.calls[y] == w.calls[y] || w'.calls[y] == w.calls[y].(timedOut := true, code := ETIMEDOUT)
    ensures Told(w')
  {
    forall i | 0 <= i < |w.completions|
      ensures Fulfilled(w'.calls, w.completions[i])
    {
      assert Fulfilled(w.calls, w.completions[i]);
    }
  }

  lemma BooksSame(w: World, w': World)
    requires Books(w) && w'.next == w.next && w'.pending == w.pending && w'.completions == w.completions
    requires w'.failed == w.failed && w'.connected == w.connected
    ensures Books(w')
  {
  }

  lemma CloseKeeps(w: World)
    requires Inv(w)
    ensures Inv(Closed(w))
  {
    hide Upstream, Downstream, Ledger, Xids;
    var w' := Closed(w);
    UpstreamSame(w, w');
    DownstreamSame(w, w');
    LedgerSame(w, w');
    InXids(w.completions);
  }

  lemma StepKeeps(w: World, step: Step)
    requires Inv(w)
    ensures Inv(Next(w, step))
  {
    hide Upstream, Downstream, Ledger, Books, Told, Asked, Served, Framed, Received, Woken, Closed, CanAsk, Sound;
    match step {
      case Ask(body) => if CanAsk(w, body) { AskKeeps(w, body); }
      case ServerRead(n) => if n <= |w.toServer| { ServedKeeps(w, n); }
      case Answer(r) => if r.xid in w.open && Sound(r) { AnswerKeeps(w, r); }
      case ClientRead(n) => if w.connected && n <= |w.toClient| { ReceivedKeeps(w, n); }
      case Wait(x) => WaitKeeps(w, x);
      case Wake(x, late) => if x in w.waiting && x in w.calls { WakeKeeps(w, x, late); }
      case Close => CloseKeeps(w);
    }
  }

  lemma WaitKeeps(w: World, x: int)
    requires Inv(w)
    ensures Inv(Next(w, Wait(x)))
  {
    hide Upstream, Downstream, Ledger, Books;
    var w' := Next(w, Wait(x));
    UpstreamSame(w, w');
    DownstreamSame(w, w');
    LedgerSame(w, w');
    BooksSame(w, w');
  }

  lemma StartInv(handlers: set<int>)
    ensures Inv(Start(handlers))
  {
  }

  /** Every reachable state meets the invariant. */
  lemma {:induction false} Safety(handlers: set<int>, steps: seq<Step>)
    ensures Inv(Run(Start(handlers), steps))
  {
    hide Inv, Next;
    if steps == [] {
      StartInv(handlers);
    } else {
      Safety(handlers, steps[..|steps| - 1]);
      StepKeeps(Run(Start(handlers), steps[..|steps| - 1]), steps[|steps| - 1]);
    }
  }

  // ---- what it means

  /**
   Matching over whole runs.  The client never meets an xid it does not know and never loses the frame
   boundary.  The replies it matches are those the server framed, in that order, with that code and
   body, at most one per call; every call is pending, completed or failed, and only one of these; a
   completed call that has not timed out shows exactly what the server wrote.  A pending call shows no
   code, or 110 if a wait for it has timed out.
   */
  lemma Matching(handlers: set<int>, steps: seq<Step>)
    ensures var w := Run(Start(handlers), steps);
      w.missed == [] && !w.corrupt && w.completions <= w.answers && Distinct(w.answers) &&
      (forall x :: 0 <= x < w.next <==> x in w.pending || x in Xids(w.completions) || x in w.failed) &&
      w.pending !! Xids(w.completions) && w.failed !! w.pending && w.failed !! Xids(w.completions) &&
      (forall x :: x in w.pending ==> x in w.calls && !w.calls[x].ready && w.calls[x].code == if w.calls[x].timedOut then 110 else 0) &&
      forall i :: 0 <= i < |w.completions| ==>
        var r := w.completions[i];
        r.xid in w.calls && w.calls[r.xid].body == r.body &&
        if w.calls[r.xid].timedOut then w.calls[r.xid].code in {r.code, 110} else w.calls[r.xid].ready && w.calls[r.xid].code == r.code
  {
    hide Run, Xids, Distinct;
    Safety(handlers, steps);
    var w := Run(Start(handlers), steps);
    assert forall i :: 0 <= i < |w.completions| ==> Fulfilled(w.calls, w.completions[i]);
    assert forall x :: x in w.pending ==> Unanswered(w.calls[x]);
  }

  lemma {:induction false} FramesWellFormed(ps: seq<seq<byte>>)
    requires forall i :: 0 <= i < |ps| ==> Payload(ps[i])
    ensures WellFormed(Frames(ps))
  {
    hide Frame, Payload;
    if ps != [] {
      FrameHead(ps[0], Frames(ps[1..]));
      FramesWellFormed(ps[1..]);
    }
  }

  /**
   In every reachable state `ServerConnection.HandleRead` may be called, whatever the socket delivers:
   everything buffered or on its way is well formed, and every payload in it is a request.
   */
  lemma ServerReady(handlers: set<int>, steps: seq<Step>)
    ensures var w := Run(Start(handlers), steps); var all := w.serverIn + w.toServer;
      !Complete(w.serverIn) && WellFormed(all) && Requests(Parse(all).payloads)
  {
    hide Run, Inv;
    Safety(handlers, steps);
    ServerMayRead(Run(Start(handlers), steps));
  }

  lemma ServerMayRead(w: World)
    requires Inv(w)
    ensures var all := w.serverIn + w.toServer;
      !Complete(w.serverIn) && WellFormed(all) && Requests(Parse(all).payloads)
  {
    hide Question, Framing.Payload, Typed;
    var ps := Questions(w.asked)[w.read..];
    FramesWellFormed(ps);
    ParseFrames(ps, []);
    assert Frames(ps) + [] == Frames(ps);
    forall i | 0 <= i < |ps|
      ensures Request(ps[i])
    {
      QuestionIsRequest(w.read + i, w.asked[w.read + i]);
    }
  }

  /**
   In every reachable state of a connected client `Client.HandleRead` may be called: the packet loop has
   nothing to do on what is buffered, and no arrival of any length looks malformed to it.
   */
  lemma ClientReady(handlers: set<int>, steps: seq<Step>)
    ensures var w := Run(Start(handlers), steps);
      w.connected ==>
        Sort(w.pending, w.clientIn) == Outcome([], [], w.pending, w.clientIn, false) &&
        forall n :: 0 <= n <= |w.toClient| ==> !Sort(w.pending, w.clientIn + w.toClient[..n]).bad
  {
    hide Run, Sort, Inv;
    Safety(handlers, steps);
    if Run(Start(handlers), steps).connected {
      ClientMayRead(Run(Start(handlers), steps));
    }
  }

  lemma ClientMayRead(w: World)
    requires Inv(w) && w.connected
    ensures Sort(w.pending, w.clientIn) == Outcome([], [], w.pending, w.clientIn, false)
    ensures forall n :: 0 <= n <= |w.toClient| ==> !Sort(w.pending, w.clientIn + w.toClient[..n]).bad
  {
    hide Sort;
    IdleBuffer(w);
    forall n | 0 <= n <= |w.toClient|
      ensures !Sort(w.pending, w.clientIn + w.toClient[..n]).bad
    {
      ReceivedBytes(w, n);
    }
  }

  lemma IdleBuffer(w: World)
    requires Inv(w) && w.connected
    ensures Sort(w.pending, w.clientIn) == Outcome([], [], w.pending, w.clientIn, false)
  {
    hide Sound, Xids, Ledger, Books, Told, Answered, Sort, Frames, Distinct;
    var rs := w.answers[|w.completions|..];
    ReadSoFar(w);
    ExpectedReplies(w);
    SortPiece(w.pending, rs, w.clientIn, w.toClient);
    NoXids();
  }

  lemma NoXids()
    ensures Xids([]) == {}
  {
  }

  // ---- the methods do what the steps say

  lemma AnswersSnoc(rs: seq<Reply>, r: Reply)
    requires AllSound(rs) && Sound(r)
    ensures AllSound(rs + [r]) && Answers(rs + [r]) == Answers(rs) + [Answered(r)]
  {
    hide Sound, Answered;
  }

  lemma RefusalIs(handlers: set<int>, p: seq<byte>)
    requires Request(p) && Judge(handlers, p).Refused?
    ensures var r := Reply(XidOf(p), Judge(handlers, p).code, []);
      Sound(r) && Refusal(handlers, p) == [Answered(r)] && Judge(handlers, p).xid == XidOf(p)
  {
    var code := Judge(handlers, p).code;
    RefusalSound(XidOf(p), code);
    assert Encode(V32, Num(code)) + [] == Encode(V32, Num(code));
  }

  /** The xids of the requests that go to a handler. */
  function HandedXids(handlers: set<int>, ps: seq<seq<byte>>): set<int>
    requires Requests(ps)
  {
    if ps == [] then {} else
    HandedXids(handlers, ps[..|ps| - 1]) + if Judge(handlers, ps[|ps| - 1]).Handed? then {XidOf(ps[|ps| - 1])} else {}
  }

  /** An xid is handed over if and only if one of the requests carries it and is for a handler there is. */
  lemma {:induction false} HandedAre(handlers: set<int>, ps: seq<seq<byte>>, xid: int)
    requires Requests(ps)
    ensures xid in HandedXids(handlers, ps) <==> exists k :: 0 <= k < |ps| && XidOf(ps[k]) == xid && Judge(handlers, ps[k]).Handed?
  {
    hide Judge, Request, XidOf;
    if ps != [] {
      HandedAre(handlers, ps[..|ps| - 1], xid);
    }
  }

  lemma HandleOne(w: World, p: seq<byte>)
    requires Request(p) && AllSound(w.answers)
    ensures var v := Handle(w, p);
      AllSound(v.answers) && Answers(v.answers) == Answers(w.answers) + Refusal(w.handlers, p) && v.handlers == w.handlers &&
      v.open == w.open + (if Judge(w.handlers, p).Handed? then {XidOf(p)} else {}) && v.corrupt == w.corrupt && v.read == w.read + 1
  {
    hide Sound, Answered, Frame, Answers;
    if Judge(w.handlers, p).Refused? {
      RefusalIs(w.handlers, p);
      AnswersSnoc(w.answers, Reply(XidOf(p), Judge(w.handlers, p).code, []));
    } else {
      assert Answers(w.answers) + [] == Answers(w.answers);
    }
  }

  /** Handling requests adds exactly the refusals to the replies, and the others to those with a handler. */
  lemma {:induction false} HandleAllRefuses(w: World, ps: seq<seq<byte>>)
    requires Requests(ps) && AllSound(w.answers)
    ensures var v := HandleAll(w, ps);
      AllSound(v.answers) && Answers(v.answers) == Answers(w.answers) + Refusals(w.handlers, ps) && v.handlers == w.handlers &&
      v.open == w.open + HandedXids(w.handlers, ps) && v.corrupt == w.corrupt && v.read == w.read + |ps|
  {
    hide Handle, Answers, Refusal, Judge, Request, XidOf, Sound;
    if ps == [] {
      assert Answers(w.answers) + [] == Answers(w.answers);
    } else {
      var front, last := ps[..|ps| - 1], ps[|ps| - 1];
      HandleAllRefuses(w, front);
      HandleOne(HandleAll(w, front), last);
      AssocPayloads(Answers(w.answers), Refusals(w.handlers, front), Refusal(w.handlers, last));
    }
  }

  /** The server's connection is where the world says it is. */
  ghost predicate ServerAt(c: ServerConnection, w: World)
    reads c, c.src`parts, c.sender`done, c.sender.sock`incoming
  {
    !c.closed && c.handlers == w.handlers && c.src.View() == w.serverIn && c.sender.sock.incoming == w.toServer &&
    AllSound(w.answers) && c.sender.done == Answers(w.answers)
  }

  lemma ServedIs(w: World, n: nat)
    requires Inv(w) && n <= |w.toServer|
    ensures var all, ps := w.serverIn + w.toServer, Parse(w.serverIn + w.toServer[..n]).payloads;
      WellFormed(all) && Requests(Parse(all).payloads) && Requests(ps) && AllSound(w.answers) && AllSound(Served(w, n).answers) &&
      Answers(Served(w, n).answers) == Answers(w.answers) + Refusals(w.handlers, ps) &&
      Served(w, n).open == w.open + HandedXids(w.handlers, ps) && Served(w, n).handlers == w.handlers
  {
    hide Parse, Question, Typed, Framing.Payload, HandleAll, Answers, Refusals, Request;
    ServerMayRead(w);
    Rejoin(w.toServer, n);
    Assoc(w.serverIn, w.toServer[..n], w.toServer[n..]);
    PayloadsSoFar(w.serverIn + w.toServer[..n], w.toServer[n..]);
    var p := Parse(w.serverIn + w.toServer[..n]);
    HandleAllRefuses(w.(serverIn := p.rest, toServer := w.toServer[n..]), p.payloads);
  }

  lemma ServerBytes(w: World, n: nat)
    requires n <= |w.toServer|
    ensures Served(w, n).serverIn == Parse(w.serverIn + w.toServer[..n]).rest && Served(w, n).toServer == w.toServer[n..]
  {
    hide Parse;
    var p := Parse(w.serverIn + w.toServer[..n]);
    BytesAfterHandling(w.(serverIn := p.rest, toServer := w.toServer[n..]), p.payloads);
  }

  lemma {:induction false} BytesAfterHandling(w: World, ps: seq<seq<byte>>)
    ensures HandleAll(w, ps).serverIn == w.serverIn && HandleAll(w, ps).toServer == w.toServer
  {
    hide Judge, Request, Sound, Answered, Frame;
    if ps != [] {
      BytesAfterHandling(w, ps[..|ps| - 1]);
    }
  }

  /**
   One wake-up of the server is the step ServerRead for some number of bytes: in every state that meets the
   invariant it may be called, and afterwards the connection is where the step leaves the world.
   */
  method ServerReads(c: ServerConnection, ghost w: World) returns (reqs: seq<Incoming>, ids: seq<Option<int>>, ghost n: nat)
    requires c.Valid() && !c.sender.locked && Inv(w) && ServerAt(c, w)
    modifies c.src, c.src.repr`readIdx, c.src.Tails(), c.src.TailBlocks(), c.sender.sock`incoming, c.sender.sock`readLog
    modifies c.sender, c.sender.out, c.sender.out.Tails(), c.sender.out.TailBlocks()
    ensures c.Valid() && !c.sender.locked && n <= |w.toServer| && ServerAt(c, Next(w, ServerRead(n))) && Inv(Next(w, ServerRead(n)))
    ensures c.Served(reqs, ids, Parse(w.serverIn + w.toServer[..n]).payloads)
    ensures Next(w, ServerRead(n)).open == w.open + HandedXids(w.handlers, Parse(w.serverIn + w.toServer[..n]).payloads)
  {
    hide Inv, Served, Parse, Refusals, HandedXids, Answers, WellFormed, Requests, ServerConnection.Valid, ServerConnection.Served;
    hide Marshal.View, AllSound;
    ServedIs(w, 0);
    NoneBefore(c.src, c.sender.out);
    ghost var got;
    reqs, ids, got := c.HandleRead([]);
    n := |got|;
    Cut(got, c.sender.sock.incoming);
    ServedIs(w, n);
    ServerBytes(w, n);
    StepKeeps(w, ServerRead(n));
  }

  lemma NoneBefore(src: Marshal, out: Marshal)
    ensures Elsewhere([], src, out)
  {
  }

  /** The client is where the world says it is. */
  ghost predicate ClientAt(c: Client, w: World)
    reads c, c.src`parts, c.sender.sock`incoming
  {
    c.status == Connected && w.connected && c.pending.Keys == w.pending && c.src.View() == w.clientIn &&
    c.sender.sock.incoming == w.toClient
  }

  /**
   One wake-up of the client is the step ClientRead for some number of bytes, and the futures it completes
   hold the replies that the step adds to the completed ones, in that order.
   */
  method ClientReads(c: Client, ghost w: World) returns (done: seq<Future>, ghost n: nat, ghost replies: seq<Reply>)
    requires c.Valid() && Inv(w) && ClientAt(c, w)
    modifies c`pending, c.src, c.src.repr`readIdx, c.src.Tails(), c.src.TailBlocks(), c.sender.sock`incoming, c.sender.sock`readLog, Footprint(c.pending)
    ensures c.Valid() && n <= |w.toClient| && ClientAt(c, Next(w, ClientRead(n))) && Inv(Next(w, ClientRead(n)))
    ensures Next(w, ClientRead(n)).completions == w.completions + replies && Finished(done, replies, c.pending, c.src)
    ensures forall fu :: fu in done ==> fu.xid in old(c.pending) && old(c.pending)[fu.xid] == fu
  {
    hide Inv, Sort, Client.Valid, Marshal.View, Finished, Within;
    ClientMayRead(w);
    NobodyBefore(c.pending, c.src);
    ghost var got;
    done, got := c.HandleRead([]);
    n := |got|;
    Cut(got, c.sender.sock.incoming);
    StepKeeps(w, ClientRead(n));
    replies := Sort(w.pending, w.clientIn + w.toClient[..n]).replies;
  }

  lemma NobodyBefore(pending: map<int, Future>, src: Marshal)
    ensures Clients.Delivered([], pending, src)
  {
  }

  lemma {:induction false} FramesLonger(ps: seq<seq<byte>>)
    ensures |ps| <= |Frames(ps)|
  {
    if ps != [] {
      FramesLonger(ps[1..]);
    }
  }

  /** Nothing is lost: when nothing is under way any more, no call is left waiting for its reply. */
  lemma NothingLost(handlers: set<int>, steps: seq<Step>)
    ensures var w := Run(Start(handlers), steps);
      w.connected && w.open == {} && w.serverIn + w.toServer == [] && w.clientIn + w.toClient == [] ==>
        w.pending == {} && w.completions == w.answers && |w.answers| == w.next
  {
    Safety(handlers, steps);
    var w := Run(Start(handlers), steps);
    hide Run, Question, Answered, Frame, Xids, Typed, Sound;
    if w.connected && w.open == {} && w.serverIn + w.toServer == [] && w.clientIn + w.toClient == [] {
      FramesLonger(Questions(w.asked)[w.read..]);
      FramesLonger(Answers(w.answers[|w.completions|..]));
      assert w.completions == w.answers;
      assert forall x :: x in w.pending ==> 0 <= x < w.read;
      CountAnswers(w.answers, w.next);
    }
  }

  /** The xids of the first `n` calls. */
  function Below(n: nat): (xids: set<int>)
    ensures |xids| == n && forall x :: x in xids <==> 0 <= x < n
  {
    if n == 0 then {} else Below(n - 1) + {n - 1}
  }

  lemma CountAnswers(rs: seq<Reply>, n: nat)
    requires Distinct(rs) && forall x :: 0 <= x < n <==> x in Xids(rs)
    ensures |rs| == n
  {
    hide Xids, Distinct;
    assert Xids(rs) == Below(n);
    SizeOfXids(rs);
  }

  lemma {:induction false} SizeOfXids(rs: seq<Reply>)
    requires Distinct(rs)
    ensures |Xids(rs)| == |rs|
  {
    if rs != [] {
      var front, r := rs[..|rs| - 1], rs[|rs| - 1];
      assert rs == front + [r];
      LastXid(front, r);
      SizeOfXids(front);
      XidsJoin(front, [r]);
      OneXid(r);
    }
  }

  /** A call leaves the pending ones only once: whatever follows, a completed call stays completed and a failed one failed. */
  lemma {:induction false} LeftForGood(w: World, steps: seq<Step>)
    ensures w.completions <= Run(w, steps).completions && w.failed <= Run(w, steps).failed
  {
    hide Next;
    if steps != [] {
      var v := Run(w, steps[..|steps| - 1]);
      LeftForGood(w, steps[..|steps| - 1]);
      LeftByStep(v, steps[|steps| - 1]);
    }
  }

  lemma LeftByStep(w: World, step: Step)
    ensures w.completions <= Next(w, step).completions && w.failed <= Next(w, step).failed
  {
    hide HandleAll, Sort, Parse, Deliver, CanAsk, Sound, Typed;
    match step {
      case ServerRead(n) => if n <= |w.toServer| { CallsAfterServing(w, n); }
      case _ =>
    }
  }

  // ---- what a call says after a step

  /** A wait for `x` returns in this step, and has timed out. */
  predicate GivesUp(w: World, step: Step, x: int)
  {
    x in w.calls && if w.calls[x].timedOut then step == Wait(x) || (x in w.waiting && step.Wake? && step.xid == x)
                    else x in w.waiting && step == Wake(x, true)
  }

  /** The replies that a step completes. */
  function News(w: World, v: World): seq<Reply>
    requires w.completions <= v.completions
  {
    v.completions[|w.completions|..]
  }

  /** From `w` to `v`, what the call `x` says changes just as it must. */
  ghost predicate Tells(w: World, step: Step, v: World, x: int)
    requires w.completions <= v.completions
  {
    x in w.calls && x in v.calls && var c, d := w.calls[x], v.calls[x];
    var replied, invalid, over := x in Xids(News(w, v)), x in v.failed - w.failed, GivesUp(w, step, x);
    (forall r <- News(w, v) :: r.xid == x ==> d.code == r.code && d.body == r.body) &&
    (invalid ==> d.code == 107) && (over ==> d.code == 110) &&
    (!replied && !invalid && !over ==> d.code == c.code) && (!replied ==> d.body == c.body) &&
    (d.ready <==> c.ready || ((replied || invalid) && !c.timedOut)) &&
    (d.timedOut <==> c.timedOut || (x in w.waiting && step == Wake(x, true)))
  }

  /**
   The code of a call is that of the last event: of the reply that completes it, 107 when close invalidates it,
   110 when a wait times out; nothing else changes it.  It turns ready by a reply or by close, unless it has timed
   out, and only a wait whose time is over makes it timed out.
   */
  lemma CodeAfter(w: World, step: Step, x: int)
    requires Inv(w) && x in w.calls
    ensures w.completions <= Next(w, step).completions && Tells(w, step, Next(w, step), x)
  {
    hide Inv, CanAsk, Sound, Tells, Served, Framed, Asked, Woken, Left, Received, Closed, News;
    var v := Next(w, step);
    match step {
      case ServerRead(n) => if n <= |w.toServer| { CallsAfterServing(w, n); }
      case ClientRead(n) => if w.connected && n <= |w.toClient| { CodeAfterReading(w, n, x); }
      case Ask(body) => if CanAsk(w, body) { CodeAfterAsking(w, body, x); }
      case Wait(y) => CodeAfterWaiting(w, y, x);
      case Wake(y, late) => CodeAfterWaking(w, y, late, x);
      case Close => CodeAfterClose(w, x);
      case Answer(r) => if r.xid in w.open && Sound(r) { CallsAfterReply(w.(open := w.open - {r.xid}), r); }
    }
    if v.calls == w.calls && v.completions == w.completions && v.failed == w.failed && !step.Wait? && !step.Wake? {
      SameCalls(w, step, v, x);
    }
  }

  lemma CallsAfterReply(w: World, r: Reply)
    requires Sound(r)
    ensures var v := Framed(w, r); v.calls == w.calls && v.completions == w.completions && v.failed == w.failed
  {
  }

  lemma NoNews(w: World, v: World)
    requires v.completions == w.completions
    ensures Xids(News(w, v)) == {}
  {
  }

  lemma CodeAfterAsking(w: World, body: seq<byte>, x: int)
    requires Inv(w) && x in w.calls && CanAsk(w, body)
    ensures w.completions <= Asked(w, body).completions && Tells(w, Ask(body), Asked(w, body), x)
  {
    hide Upstream, Downstream, Ledger, Books, Frame, Question, Xids, News;
    NoNews(w, Asked(w, body));
    InXids(News(w, Asked(w, body)));
  }

  /** Behind the loop of timed_wait. */
  lemma CodeAfterLeaving(w: World, y: int, x: int)
    requires y in w.calls && x in w.calls
    ensures var v := Left(w, y); x in v.calls && v.completions == w.completions && v.failed == w.failed
    ensures Left(w, y).calls[x] == if x == y && w.calls[x].timedOut then w.calls[x].(code := 110) else w.calls[x]
  {
  }

  lemma CodeAfterWaiting(w: World, y: int, x: int)
    requires x in w.calls
    ensures var v := Next(w, Wait(y)); w.completions <= v.completions && Tells(w, Wait(y), v, x)
  {
    hide Xids, News, Left, Served, Framed, Asked, Woken, Received, Closed;
    var v := Next(w, Wait(y));
    if y in w.calls && Over(w.calls[y]) {
      CodeAfterLeaving(w, y, x);
    }
    NoNews(w, v);
    InXids(News(w, v));
  }

  lemma CodeAfterWaking(w: World, y: int, late: bool, x: int)
    requires x in w.calls
    ensures var v := Next(w, Wake(y, late)); w.completions <= v.completions && Tells(w, Wake(y, late), v, x)
  {
    hide Xids, News, Left, Served, Framed, Asked, Received, Closed;
    var v := Next(w, Wake(y, late));
    if y in w.waiting && y in w.calls {
      var u := if late then w.(calls := w.calls[y := w.calls[y].(timedOut := true)]) else w;
      CodeAfterLeaving(u.(waiting := u.waiting - multiset{y}), y, x);
    }
    NoNews(w, v);
    InXids(News(w, v));
  }

  lemma CodeAfterClose(w: World, x: int)
    requires Inv(w) && x in w.calls
    ensures w.completions <= Closed(w).completions && Tells(w, Close, Closed(w), x)
  {
    hide Upstream, Downstream, Ledger, Xids, News;
    assert w.pending !! w.failed;
    assert x in w.pending ==> Unanswered(w.calls[x]);
    NoNews(w, Closed(w));
    InXids(News(w, Closed(w)));
  }

  lemma SameCalls(w: World, step: Step, v: World, x: int)
    requires v.calls == w.calls && v.completions == w.completions && v.failed == w.failed && x in w.calls
    requires !step.Wait? && !step.Wake?
    ensures Tells(w, step, v, x)
  {
  }

  lemma CodeAfterReading(w: World, n: nat, x: int)
    requires Inv(w) && w.connected && n <= |w.toClient| && x in w.calls
    ensures w.completions <= Received(w, n).completions && Tells(w, ClientRead(n), Received(w, n), x)
  {
    hide Upstream, Downstream, Ledger, Typed, Question, Sound, Answered, Parse, Sort, HandleAll, Deliver, Xids, Distinct;
    var rs := Sort(w.pending, w.clientIn + w.toClient[..n]).replies;
    ReceivedBytes(w, n);
    assert forall y :: y in w.pending ==> y in w.calls && Unanswered(w.calls[y]);
    DeliverAll(w.calls, rs);
    var v := Received(w, n);
    assert News(w, v) == rs;
    InXids(rs);
    if x in Xids(rs) {
      SomeXid(rs, x);
      var i :| 0 <= i < |rs| && rs[i].xid == x;
      assert v.calls[x] == Delivered(w.calls[x], rs[i]);
      OnlyXid(rs, i);
    }
  }

  lemma SomeXid(rs: seq<Reply>, x: int)
    requires x in Xids(rs)
    ensures exists i :: 0 <= i < |rs| && rs[i].xid == x
  {
  }

  lemma OnlyXid(rs: seq<Reply>, i: nat)
    requires Distinct(rs) && i < |rs|
    ensures forall r <- rs :: r.xid == rs[i].xid ==> r == rs[i]
  {
  }

  // ---- ready and timed out

  /** A thread that waits for `x` is told that its time is over although the reply has just arrived. */
  predicate TooLate(w: World, step: Step, x: int)
  {
    step == Wake(x, true) && x in w.waiting && x in w.calls && w.calls[x].ready
  }

  predicate Both(w: World, x: int)
  {
    x in w.calls && w.calls[x].ready && w.calls[x].timedOut
  }

  lemma BothStep(w: World, step: Step, x: int)
    requires Inv(w)
    ensures Both(Next(w, step), x) <==> Both(w, x) || TooLate(w, step, x)
  {
    hide Inv, CanAsk, Sound, Served, Framed, Asked, Received, Woken, Left;
    match step {
      case Ask(body) => if CanAsk(w, body) { BothAfterAsking(w, body, x); }
      case ServerRead(n) => if n <= |w.toServer| { CallsAfterServing(w, n); }
      case ClientRead(n) => if w.connected && n <= |w.toClient| { BothAfterReading(w, n, x); }
      case Answer(r) => if r.xid in w.open && Sound(r) { CallsAfterReply(w.(open := w.open - {r.xid}), r); }
      case Wait(y) => if y in w.calls && x in w.calls { CodeAfterLeaving(w, y, x); } else if y in w.calls { NoOthers(w, y); }
      case Wake(y, late) => if y in w.waiting && y in w.calls { BothAfterWaking(w, y, late, x); }
      case Close =>
    }
  }

  lemma NoOthers(w: World, y: int)
    requires y in w.calls
    ensures Left(w, y) == w.(calls := Left(w, y).calls) && Left(w, y).calls.Keys == w.calls.Keys
  {
  }

  lemma BothAfterAsking(w: World, body: seq<byte>, x: int)
    requires Inv(w) && CanAsk(w, body)
    ensures Both(Asked(w, body), x) <==> Both(w, x)
  {
    hide Upstream, Downstream, Ledger, Books, Frame, Question;
  }

  lemma BothAfterWaking(w: World, y: int, late: bool, x: int)
    requires y in w.calls
    ensures Both(Woken(w, y, late), x) <==> Both(w, x) || (late && x == y && w.calls[x].ready)
  {
    hide Left;
    var u := if late then w.(calls := w.calls[y := w.calls[y].(timedOut := true)]) else w;
    var v := u.(waiting := u.waiting - multiset{y});
    NoOthers(v, y);
    if x in w.calls {
      CodeAfterLeaving(v, y, x);
    }
  }

  lemma {:induction false} CallsAfterHandling(w: World, ps: seq<seq<byte>>)
    ensures var v := HandleAll(w, ps);
      v.calls == w.calls && v.completions == w.completions && v.failed == w.failed && v.pending == w.pending
  {
    hide Judge, Request, Sound, Answered, Frame;
    if ps != [] {
      CallsAfterHandling(w, ps[..|ps| - 1]);
    }
  }

  lemma CallsAfterServing(w: World, n: nat)
    requires n <= |w.toServer|
    ensures var v := Served(w, n);
      v.calls == w.calls && v.completions == w.completions && v.failed == w.failed && v.pending == w.pending
  {
    var p := Parse(w.serverIn + w.toServer[..n]);
    CallsAfterHandling(w.(serverIn := p.rest, toServer := w.toServer[n..]), p.payloads);
  }

  lemma BothAfterReading(w: World, n: nat, x: int)
    requires n <= |w.toClient|
    ensures Both(Received(w, n), x) <==> Both(w, x)
  {
    BothAfterDelivery(w.calls, Sort(w.pending, w.clientIn + w.toClient[..n]).replies, x);
  }

  lemma {:induction false} BothAfterDelivery(calls: map<int, Call>, rs: seq<Reply>, x: int)
    ensures Deliver(calls, rs).Keys == calls.Keys
    ensures x in calls ==>
      var c, d := calls[x], Deliver(calls, rs)[x];
      d.timedOut == c.timedOut && (c.ready && c.timedOut <==> d.ready && d.timedOut)
  {
    if rs != [] {
      BothAfterDelivery(calls, rs[..|rs| - 1], x);
    }
  }

  /** The `i`-th step of a run comes too late for `x`. */
  predicate LateAt(handlers: set<int>, steps: seq<Step>, i: nat, x: int)
  {
    i < |steps| && TooLate(Run(Start(handlers), steps[..i]), steps[i], x)
  }

  /**
   The exact condition: a future is both ready and timed out if and only if, somewhere in the run, a
   timed wait ended with a time-out although the future was ready already.
   */
  lemma {:induction false} ReadyAndTimedOut(handlers: set<int>, steps: seq<Step>, x: int)
    ensures Both(Run(Start(handlers), steps), x) <==> exists i: nat :: LateAt(handlers, steps, i, x)
  {
    hide Inv, Next, TooLate, Both;
    if steps == [] {
      NotBoth(handlers, x);
    } else {
      var n := |steps| - 1;
      var front := steps[..n];
      ReadyAndTimedOut(handlers, front, x);
      Safety(handlers, front);
      BothStep(Run(Start(handlers), front), steps[n], x);
      forall i: nat
        ensures LateAt(handlers, steps, i, x) <==>
          LateAt(handlers, front, i, x) || (i == n && TooLate(Run(Start(handlers), front), steps[n], x))
      {
        assert i < n ==> front[..i] == steps[..i];
      }
      assert LateAt(handlers, steps, n, x) <==> TooLate(Run(Start(handlers), front), steps[n], x);
    }
  }

  lemma NotBoth(handlers: set<int>, x: int)
    ensures !Both(Start(handlers), x)
  {
  }

  lemma RunSnoc(w: World, steps: seq<Step>, step: Step)
    ensures Run(w, steps + [step]) == Next(Run(w, steps), step)
  {
    assert (steps + [step])[..|steps|] == steps;
  }

  lemma FirstAsk()
    ensures CanAsk(Start({}), [])
  {
    assert Pow256(8) == 0x1_0000_0000_0000_0000 && Pow256(4) == 0x1_0000_0000;
  }

  /** Such a run: the client is closed between the end of the wait and the moment the waiter gets the lock back. */
  lemma FlagsCollide()
    ensures Both(Run(Start({}), [Ask([]), Wait(0), Close, Wake(0, true)]), 0)
  {
    hide CanAsk, Run, Question, Frame, Served, Received, Sound;
    FirstAsk();
    RunSnoc(Start({}), [], Ask([]));
    RunSnoc(Start({}), [Ask([])], Wait(0));
    RunSnoc(Start({}), [Ask([]), Wait(0)], Close);
    RunSnoc(Start({}), [Ask([]), Wait(0), Close], Wake(0, true));
    NoSteps();
    assert [] + [Ask([])] == [Ask([])] && [Ask([])] + [Wait(0)] == [Ask([]), Wait(0)];
    assert [Ask([]), Wait(0)] + [Close] == [Ask([]), Wait(0), Close];
    assert [Ask([]), Wait(0), Close] + [Wake(0, true)] == [Ask([]), Wait(0), Close, Wake(0, true)];
  }

  lemma NoSteps()
    ensures Run(Start({}), []) == Start({})
  {
  }
}
