/** The stream operators of rpc/marshal.h for integers of fixed and variable length. */
module Wire {
  import opened Bytes
  import opened Chunks
  import opened Marshals
  import opened SparseInt

  // ---- what a reader makes of the bytes it received

  /** The v64 that arrives: the reader's buffer is filled up with whatever it held before. */
  function Arrived64(s: seq<byte>): int
    requires s != [] && |s| == BufSize(s[0])
  {
    Loaded64(s + Fill(0, 9 - |s|))
  }

  /** Outside the 8-byte form the unfilled bytes of the buffer do not matter. */
  lemma JunkIgnored(s: seq<byte>, junk: seq<byte>)
    requires s != [] && |s| == BufSize(s[0]) != 8 && |s| + |junk| == 9
    ensures Loaded64(s + junk) == Arrived64(s)
  {
    var n := |s|;
    var t := s + Fill(0, 9 - n);
    assert (s + junk)[..n] == s == t[..n];
    if n == 9 {
      assert s + junk == s == t;
    }
  }

  /** An i64 outside the 8-byte band arrives as it was sent. */
  lemma ArrivesIntact(v: int)
    requires Fits(v, 8) && ValSize(v) != 8
    ensures OnWire(v) != [] && |OnWire(v)| == BufSize(OnWire(v)[0])
    ensures Arrived64(OnWire(v)) == v
  {
    AnnouncedSize(v);
    OutsideBand(v, Fill(0, 9 - ValSize(v)));
  }

  function Arrived32(s: seq<byte>): int
    requires s != [] && |s| == BufSize(s[0]) <= 5
  {
    Loaded32(s + Fill(0, 5 - |s|))
  }

  lemma JunkIgnored32(s: seq<byte>, junk: seq<byte>)
    requires s != [] && |s| == BufSize(s[0]) <= 5 && |s| + |junk| == 5
    ensures Loaded32(s + junk) == Arrived32(s)
  {
    var n := |s|;
    var t := s + Fill(0, 5 - n);
    assert (s + junk)[..n] == s == t[..n];
    if n == 5 {
      assert s + junk == s == t;
    }
  }

  /** Every i32 arrives as it was sent. */
  lemma ArrivesIntact32(v: int)
    requires Fits(v, 4)
    ensures OnWire(v) != [] && |OnWire(v)| == BufSize(OnWire(v)[0]) <= 5
    ensures Arrived32(OnWire(v)) == v
  {
    NarrowSize(v);
    AnnouncedSize(v);
    assert OnWire(v) == Stored(v);
    RoundTrip32(v, Fill(0, 5 - ValSize(v)));
  }

  // ---- writing

  /** The bytes `dump` reports, out of a scratch buffer of its own. */
  method Encoded64(v: int) returns (s: seq<byte>)
    requires Fits(v, 8)
    ensures s == OnWire(v)
  {
    var buf := new byte[9];
    var bsize := Dump64(v, buf);
    s := buf[..bsize];
  }

  method Encoded32(v: int) returns (s: seq<byte>)
    requires Fits(v, 4)
    ensures s == OnWire(v)
  {
    var buf := new byte[5];
    var bsize := Dump32(v, buf);
    NarrowSize(v);
    s := buf[..bsize];
  }

  lemma NarrowSize(v: int)
    requires Fits(v, 4)
    ensures ValSize(v) <= 5
  {
    assert Pow256(4) == 0x1_0000_0000;
  }

  /** m << v64. */
  method PutV64(m: Marshal, v: int)
    requires m.Valid() && m.CanWrite() && Fits(v, 8)
    modifies m`head, m`tail, m`spine, m`parts, m`repr, m`contentSize, m`writeCnt
    modifies m.Tails()`next, m.Tails()`writeIdx, m.TailBlocks()`mem, m.TailBlocks()`frozen
    ensures m.Wrote(OnWire(v))
  {
    var bytes := Encoded64(v);
    m.Write(bytes);
  }

  /** m << v32. */
  method PutV32(m: Marshal, v: int)
    requires m.Valid() && m.CanWrite() && Fits(v, 4)
    modifies m`head, m`tail, m`spine, m`parts, m`repr, m`contentSize, m`writeCnt
    modifies m.Tails()`next, m.Tails()`writeIdx, m.TailBlocks()`mem, m.TailBlocks()`frozen
    ensures m.Wrote(OnWire(v))
  {
    var bytes := Encoded32(v);
    m.Write(bytes);
  }

  /** m << i8, i16, i32 or i64: the memory image of an n-byte integer. */
  method PutInt(m: Marshal, v: int, n: nat)
    requires m.Valid() && m.CanWrite() && n > 0 && Fits(v, n)
    modifies m`head, m`tail, m`spine, m`parts, m`repr, m`contentSize, m`writeCnt
    modifies m.Tails()`next, m.Tails()`writeIdx, m.TailBlocks()`mem, m.TailBlocks()`frozen
    ensures m.Wrote(Le(v, n))
  {
    m.Write(Le(v, n));
  }

  // ---- reading

  /** m >> v64: peek at the first byte, then read as many bytes as it announces. */
  method GetV64(m: Marshal) returns (v: int, ghost got: seq<byte>)
    requires m.Valid() && m.View() != [] && BufSize(m.View()[0]) <= |m.View()|
    modifies m`head, m`tail, m`spine, m`parts, m`first, m`contentSize, m.repr`readIdx
    ensures m.Valid() && old(m.View()) == got + m.View()
    ensures got != [] && |got| == BufSize(got[0])
    ensures |got| != 8 ==> v == Arrived64(got)
    ensures |got| == 8 ==> exists junk: byte :: v == Loaded64(got + [junk])
    ensures m.tail == null || m.tail == old(m.tail)
  {
    var byte0 := m.Peek(1);
    var bytes := m.Read(BufSize(byte0[0]));
    got := bytes;
    v := Decoded64(bytes);
  }

  /** Loads received bytes from a scratch buffer that still holds whatever it held behind them. */
  method Decoded64(s: seq<byte>) returns (v: int)
    requires s != [] && |s| == BufSize(s[0])
    ensures |s| != 8 ==> v == Arrived64(s)
    ensures |s| == 8 ==> exists junk: byte :: v == Loaded64(s + [junk])
  {
    var buf := new byte[9];
    FillFront(buf, s);
    v := Load64(buf);
    ghost var junk := buf[|s|..];
    assert buf[..] == s + junk;
    if |s| != 8 {
      JunkIgnored(s, junk);
    } else {
      assert junk == [junk[0]];
    }
  }

  /** m >> v32. */
  method GetV32(m: Marshal) returns (v: int, ghost got: seq<byte>)
    requires m.Valid() && m.View() != [] && BufSize(m.View()[0]) <= Min(5, |m.View()|)
    modifies m`head, m`tail, m`spine, m`parts, m`first, m`contentSize, m.repr`readIdx
    ensures m.Valid() && old(m.View()) == got + m.View()
    ensures got != [] && |got| == BufSize(got[0]) <= 5
    ensures v == Arrived32(got)
    ensures m.tail == null || m.tail == old(m.tail)
  {
    var byte0 := m.Peek(1);
    var bytes := m.Read(BufSize(byte0[0]));
    got := bytes;
    v := Decoded32(bytes);
  }

  method Decoded32(s: seq<byte>) returns (v: int)
    requires s != [] && |s| == BufSize(s[0]) <= 5
    ensures v == Arrived32(s)
  {
    var buf := new byte[5];
    FillFront(buf, s);
    v := Load32(buf);
    ghost var junk := buf[|s|..];
    assert buf[..] == s + junk;
    JunkIgnored32(s, junk);
  }

  /** m >> i8, i16, i32 or i64. */
  method GetInt(m: Marshal, n: nat) returns (v: int)
    requires m.Valid() && 0 < n <= |m.View()|
    modifies m`head, m`tail, m`spine, m`parts, m`first, m`contentSize, m.repr`readIdx
    ensures m.Valid() && v == Signed(LeValue(old(m.View()[..n])), n) && m.View() == old(m.View()[n..])
    ensures m.tail == null || m.tail == old(m.tail)
  {
    var bytes := m.Read(n);
    Cut(bytes, m.View());
    v := Signed(LeValue(bytes), n);
  }

  /** The bytes that were read land at the front of the reader's buffer; the others keep what they held. */
  method FillFront(buf: array<byte>, p: seq<byte>)
    requires |p| <= buf.Length
    modifies buf
    ensures buf[..|p|] == p && buf[|p|..] == old(buf[|p|..])
  {
    for i := 0 to |p|
      invariant buf[..i] == p[..i] && buf[|p|..] == old(buf[|p|..])
    {
      buf[i] := p[i];
    }
  }
}
