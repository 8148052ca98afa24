/** Size-prefixed frames and their incremental parsing: the packet loops of rpc/server.cc and rpc/client.cc. */
module Framing {
  import opened Bytes

  /** A payload that a sender can frame: its size fits into the i32 prefix. */
  predicate Payload(p: seq<byte>)
  {
    2 * |p| < Pow256(4)
  }

  /** le32(|payload|) ++ payload. */
  function Frame(p: seq<byte>): (s: seq<byte>)
    ensures |s| == 4 + |p|
  {
    Le(|p|, 4) + p
  }

  /** The bytes of a frame: four for the size, the low one first, and then the payload. */
  lemma FrameBytes(p: seq<byte>, k: nat)
    requires Payload(p) && k < 4
    ensures Frame(p)[4..] == p && Frame(p)[k] == (|p| / Pow256(k)) % 256
  {
    LeDigit(|p|, 4, k);
  }

  /** The size a frame announces; negative for a malformed one. */
  function Announced(buf: seq<byte>): int
    requires |buf| >= 4
  {
    Signed(LeValue(buf[..4]), 4)
  }

  /** The buffer starts with a complete frame. */
  predicate Complete(buf: seq<byte>)
  {
    |buf| >= 4 && 0 <= Announced(buf) <= |buf| - 4
  }

  /** No size prefix in the buffer is negative, as far as the prefixes have arrived. */
  predicate WellFormed(buf: seq<byte>)
    decreases |buf|
  {
    |buf| >= 4 ==> Announced(buf) >= 0 && (Complete(buf) ==> WellFormed(buf[4 + Announced(buf)..]))
  }

  /** What the packet loop makes of a buffer: the payloads of the complete frames, and what it leaves behind. */
  datatype Parsed = Parsed(payloads: seq<seq<byte>>, rest: seq<byte>)

  function Parse(buf: seq<byte>): (r: Parsed)
    ensures !Complete(r.rest)
    decreases |buf|
  {
    if Complete(buf) then
      var n := Announced(buf);
      var next := Parse(buf[4 + n..]);
      Parsed([buf[4..4 + n]] + next.payloads, next.rest)
    else
      Parsed([], buf)
  }

  function Frames(ps: seq<seq<byte>>): seq<byte>
  {
    if ps == [] then [] else Frame(ps[0]) + Frames(ps[1..])
  }

  function Join(arrivals: seq<seq<byte>>): seq<byte>
  {
    if arrivals == [] then [] else arrivals[0] + Join(arrivals[1..])
  }

  /** One packet loop per arrival, on whatever the previous ones left behind. */
  function Receive(rest: seq<byte>, arrivals: seq<seq<byte>>): Parsed
    decreases |arrivals|
  {
    if arrivals == [] then
      Parsed([], rest)
    else
      var now := Parse(rest + arrivals[0]);
      var later := Receive(now.rest, arrivals[1..]);
      Parsed(now.payloads + later.payloads, later.rest)
  }

  lemma FrameHead(p: seq<byte>, tail: seq<byte>)
    requires Payload(p)
    ensures var buf := Frame(p) + tail;
      Complete(buf) && Announced(buf) == |p| && buf[4..4 + |p|] == p && buf[4 + |p|..] == tail
  {
    var buf := Frame(p) + tail;
    assert buf[..4] == Le(|p|, 4);
    LeRoundTrip(|p|, 4);
  }

  /** Frames are self-delimiting: parsing a run of them, and the beginning of another, gives exactly them back. */
  lemma {:induction false} ParseFrames(ps: seq<seq<byte>>, partial: seq<byte>)
    requires forall i :: 0 <= i < |ps| ==> Payload(ps[i])
    requires !Complete(partial)
    ensures Parse(Frames(ps) + partial) == Parsed(ps, partial)
  {
    if ps == [] {
      assert Frames(ps) + partial == partial;
    } else {
      var tail := Frames(ps[1..]) + partial;
      assert Frames(ps) + partial == Frame(ps[0]) + tail;
      FrameHead(ps[0], tail);
      ParseFrames(ps[1..], partial);
    }
  }

  /** Bytes that arrive later do not change what was complete before. */
  lemma {:induction false} ParseMore(a: seq<byte>, b: seq<byte>)
    ensures var first := Parse(a); var second := Parse(first.rest + b);
      Parse(a + b) == Parsed(first.payloads + second.payloads, second.rest)
    decreases |a|
  {
    if Complete(a) {
      CompleteMore(a, b);
      var n := Announced(a);
      var inner := Parse(a[4 + n..]);
      ParseMore(a[4 + n..], b);
      AssocPayloads([a[4..4 + n]], inner.payloads, Parse(inner.rest + b).payloads);
    }
  }

  lemma CompleteMore(a: seq<byte>, b: seq<byte>)
    requires Complete(a)
    ensures Complete(a + b) && Announced(a + b) == Announced(a)
    ensures var n := Announced(a); (a + b)[4..4 + n] == a[4..4 + n] && (a + b)[4 + n..] == a[4 + n..] + b
  {
    assert (a + b)[..4] == a[..4];
  }

  lemma AssocPayloads(a: seq<seq<byte>>, b: seq<seq<byte>>, c: seq<seq<byte>>)
    ensures a + (b + c) == (a + b) + c
  {
  }

  /** However the bytes are cut into arrivals, the packet loops together parse the whole stream. */
  lemma {:induction false} ReceiveIsParse(rest: seq<byte>, arrivals: seq<seq<byte>>)
    requires !Complete(rest)
    ensures Receive(rest, arrivals) == Parse(rest + Join(arrivals))
    decreases |arrivals|
  {
    if arrivals == [] {
      assert rest + Join(arrivals) == rest;
    } else {
      var now := Parse(rest + arrivals[0]);
      ReceiveIsParse(now.rest, arrivals[1..]);
      ParseMore(rest + arrivals[0], Join(arrivals[1..]));
      Assoc(rest, arrivals[0], Join(arrivals[1..]));
    }
  }

  /**
   Fragmentation independence: for any list of frames and any split of their bytes, and those of an
   unfinished last frame, into arrivals, the packet loops deliver exactly these payloads in this
   order, and what stays buffered is exactly the unfinished frame.
   */
  lemma {:induction false} FragmentationIndependence(ps: seq<seq<byte>>, partial: seq<byte>, arrivals: seq<seq<byte>>)
    requires forall i :: 0 <= i < |ps| ==> Payload(ps[i])
    requires !Complete(partial) && Join(arrivals) == Frames(ps) + partial
    ensures Receive([], arrivals) == Parsed(ps, partial)
  {
    ReceiveIsParse([], arrivals);
    assert [] + Join(arrivals) == Join(arrivals);
    ParseFrames(ps, partial);
  }

  /** A piece of a well-formed stream is well-formed. */
  lemma {:induction false} WellFormedSoFar(a: seq<byte>, b: seq<byte>)
    requires WellFormed(a + b)
    ensures WellFormed(a)
    decreases |a|
  {
    if |a| >= 4 {
      assert (a + b)[..4] == a[..4];
      if Complete(a) {
        CompleteMore(a, b);
        WellFormedSoFar(a[4 + Announced(a)..], b);
      }
    }
  }

  lemma {:induction false} WellFormedRest(a: seq<byte>, b: seq<byte>)
    requires WellFormed(a + b)
    ensures WellFormed(Parse(a).rest + b)
    decreases |a|
  {
    if Complete(a) {
      CompleteMore(a, b);
      WellFormedRest(a[4 + Announced(a)..], b);
    }
  }
}
