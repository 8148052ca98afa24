/**
 The variable-length integers of base/basetypes.cc.

 A value that needs n < 8 bytes is stored big-endian in 7n bits, behind a first byte whose n - 1
 leading ones announce the length.  Longer values use a full tag byte followed by eight bytes.
 Bit masks on unsigned bytes are written arithmetically: `x & (2^k - 1)` is `x % 2^k`, and `x | t`
 with no common bits is `x + t`.
 */
module SparseInt {
  import opened Bytes

  /** The length that the first byte of an encoding announces. */
  function BufSize(byte0: byte): (n: nat)
    ensures 1 <= n <= 9
  {
    if byte0 < 0x80 then 1        // 0...
    else if byte0 < 0xC0 then 2   // 10...
    else if byte0 < 0xE0 then 3   // 110...
    else if byte0 < 0xF0 then 4   // 1110...
    else if byte0 < 0xF8 then 5   // 11110...
    else if byte0 < 0xFC then 6   // 111110...
    else if byte0 < 0xFE then 7   // 1111110...
    else if byte0 < 0xFF then 8   // 11111110
    else 9
  }

  /** The length the encoder chooses for a value. */
  function ValSize(val: int): (n: nat)
    ensures 1 <= n <= 9
  {
    if -64 <= val <= 63 then 1
    else if -8192 <= val <= 8191 then 2
    else if -1048576 <= val <= 1048575 then 3
    else if -134217728 <= val <= 134217727 then 4
    else if -17179869184 <= val <= 17179869183 then 5
    else if -2199023255552 <= val <= 2199023255551 then 6
    else if -281474976710656 <= val <= 281474976710655 then 7
    else if -36028797018963968 <= val <= 36028797018963967 then 8
    else 9
  }

  /** `val_size` picks the shortest form whose 7n payload bits hold the value. */
  lemma ShortestForm(val: int)
    ensures ValSize(val) <= 8 ==> -Span(ValSize(val)) <= 2 * val < Span(ValSize(val))
    ensures forall n :: 1 <= n < ValSize(val) ==> !(-Span(n) <= 2 * val < Span(n))
  {
  }

  /** The marker bits in the first byte of an n-byte encoding. */
  function Tag(n: nat): (t: byte)
  {
    match n
    case 1 => 0
    case 2 => 0x80
    case 3 => 0xC0
    case 4 => 0xE0
    case 5 => 0xF0
    case 6 => 0xF8
    case 7 => 0xFC
    case 8 => 0xFE
    case _ => 0xFF
  }

  /** 2^(8-n): how many values the payload bits of the first byte take. */
  function Room(n: nat): (m: nat)
    ensures m > 0
  {
    match n
    case 1 => 0x80
    case 2 => 0x40
    case 3 => 0x20
    case 4 => 0x10
    case 5 => 0x08
    case 6 => 0x04
    case 7 => 0x02
    case _ => 0x01
  }

  /** 2^(7n): how many values fit into the n-byte form. */
  function Span(n: nat): (s: int)
    ensures s > 0
  {
    match n
    case 1 => 0x80
    case 2 => 0x4000
    case 3 => 0x20_0000
    case 4 => 0x1000_0000
    case 5 => 0x8_0000_0000
    case 6 => 0x400_0000_0000
    case 7 => 0x2_0000_0000_0000
    case _ => 0x100_0000_0000_0000
  }

  /** The bytes that `dump` leaves in its buffer; nine of them for the 8-byte form. */
  function Stored(v: int): (s: seq<byte>)
    ensures |s| == if ValSize(v) == 8 then 9 else ValSize(v)
  {
    var n := ValSize(v);
    if n < 8 then
      Packed(v, n)
    else
      [Tag(n)] + Reversed(Image64(v))
  }

  /** The n-byte form as one big-endian number. */
  function Packed(v: int, n: nat): (s: seq<byte>)
    ensures |s| == n
  {
    Reversed(Le(Marker(n) + Payload(v, n), n))
  }

  /** The memory image of an i64 on a little-endian machine. */
  function Image64(v: int): (pv: seq<byte>)
    ensures |pv| == 8
  {
    Le(v, 8)
  }

  /** The bytes that reach the wire: as many as `dump` reports. */
  function OnWire(v: int): (s: seq<byte>)
    ensures |s| == ValSize(v)
  {
    Stored(v)[..ValSize(v)]
  }

  /** The i64 denoted by a buffer whose first byte announces the length. */
  function Loaded64(s: seq<byte>): int
    requires |s| == 9
  {
    var n := BufSize(s[0]);
    if n < 8 then SignExtended(BeValue(s[..n]), n) else Signed(BeValue(s[1..]), 8)
  }

  /** The i32 denoted by a buffer whose first byte announces the length. */
  function Loaded32(s: seq<byte>): int
    requires |s| == 5
  {
    var n := BufSize(s[0]);
    if n < 5 then SignExtended(BeValue(s[..n]), n) else Signed(BeValue(s[1..]), 4)
  }

  /** The low 7n bits of `u` as a two's-complement number. */
  function SignExtended(u: nat, n: nat): int
  {
    var w := Payload(u, n);
    if 2 * w >= Span(n) then w - Span(n) else w
  }

  /** The low 7n bits of `v`. */
  function Payload(v: int, n: nat): (w: nat)
    ensures w < Span(n)
  {
    match n
    case 1 => v % 0x80
    case 2 => v % 0x4000
    case 3 => v % 0x20_0000
    case 4 => v % 0x1000_0000
    case 5 => v % 0x8_0000_0000
    case 6 => v % 0x400_0000_0000
    case 7 => v % 0x2_0000_0000_0000
    case _ => v % 0x100_0000_0000_0000
  }

  /** The tag of the n-byte form, in the place of its first byte. */
  function Marker(n: nat): nat
  {
    match n
    case 1 => 0
    case 2 => 0x8000
    case 3 => 0xC0_0000
    case 4 => 0xE000_0000
    case 5 => 0xF0_0000_0000
    case 6 => 0xF800_0000_0000
    case _ => 0xFC_0000_0000_0000
  }

  /** The first byte of the n-byte form: the low bits of the value's top byte behind the tag. */
  function Tagged(top: byte, n: nat): (b: byte)
    requires 1 <= n < 8
  {
    match n
    case 1 => top % 0x80
    case 2 => top % 0x40 + 0x80
    case 3 => top % 0x20 + 0xC0
    case 4 => top % 0x10 + 0xE0
    case 5 => top % 0x08 + 0xF0
    case 6 => top % 0x04 + 0xF8
    case 7 => top % 0x02 + 0xFC
  }

  // ---- arithmetic of the packed form

  lemma Sizes(n: nat)
    requires 1 <= n < 8
    ensures Span(n) == Pow256(n - 1) * Room(n)
    ensures Marker(n) == Tag(n) * Pow256(n - 1)
    ensures 256 % Room(n) == 0
    ensures Marker(n) == Span(n) * (Marker(n) / Span(n))
    ensures Marker(n) + Span(n) <= 256 * Pow256(n - 1)
  {
    assert Pow256(0) == 1;
    assert Pow256(1) == 0x100;
    assert Pow256(2) == 0x1_0000;
    assert Pow256(3) == 0x100_0000;
    assert Pow256(4) == 0x1_0000_0000;
    assert Pow256(5) == 0x100_0000_0000;
    assert Pow256(6) == 0x1_0000_0000_0000;
  }

  lemma PayloadIs(v: int, n: nat)
    requires 1 <= n < 8
    ensures Payload(v, n) == v % Span(n)
  {
  }

  lemma TaggedIs(top: byte, n: nat)
    requires 1 <= n < 8
    ensures Tagged(top, n) == top % Room(n) + Tag(n)
  {
  }

  /** Keeping the low bits of the top byte is reducing the number modulo the span. */
  lemma TopByteMask(v: int, n: nat, m: nat)
    requires n >= 1 && m > 0 && 256 % m == 0
    ensures LeValue(Le(v, n - 1)) + Pow256(n - 1) * (Le(v, n)[n - 1] % m) == v % (Pow256(n - 1) * m)
  {
    var p := Pow256(n - 1);
    var x, low := Le(v, n)[n - 1], LeValue(Le(v, n - 1));
    LePrefix(v, n - 1, n);
    assert Le(v, n) == Le(v, n - 1) + [x];
    LeValueSnoc(Le(v, n - 1), x);
    LeValueBound(Le(v, n - 1));
    var rest := Euclid(v, n);
    MaskedRemainder(v, p, m, 256 / m, rest, low, x);
  }

  lemma Euclid(v: int, n: nat) returns (q: int)
    requires n >= 1
    ensures v == (256 * Pow256(n - 1)) * q + LeValue(Le(v, n))
  {
    LeUnsigned(v, n);
    q := v / Pow256(n);
  }

  lemma MaskedRemainder(v: int, p: nat, m: nat, k: nat, q: int, low: nat, x: nat)
    requires p > 0 && m > 0 && k * m == 256
    requires v == (256 * p) * q + (low + p * x) && low < p
    ensures v % (p * m) == low + p * (x % m)
  {
    var a, b := x / m, x % m;
    assert x == m * a + b;
    Rearrange(p, m, k, q, a, b);
    BelowProduct(p, m, low, b);
    ModIs(v, p * m, k * q + a, low + p * b);
  }

  lemma Rearrange(p: int, m: int, k: int, q: int, a: int, b: int)
    ensures ((k * m) * p) * q + p * (m * a + b) == (p * m) * (k * q + a) + p * b
  {
    assert ((k * m) * p) * q == (p * m) * (k * q);
    assert p * (m * a + b) == (p * m) * a + p * b;
    assert (p * m) * (k * q + a) == (p * m) * (k * q) + (p * m) * a;
  }

  lemma BelowProduct(p: nat, m: nat, low: nat, b: nat)
    requires low < p && b < m
    ensures 0 < p * m && low + p * b < p * m
  {
    assert p * (b + 1) <= p * m;
  }

  lemma PackedValue(v: int, n: nat)
    requires 1 <= n < 8
    ensures LeValue(Le(v, n - 1) + [Tagged(Le(v, n)[n - 1], n)]) == Marker(n) + Payload(v, n)
  {
    Sizes(n);
    TopByteMask(v, n, Room(n));
    var top := Le(v, n)[n - 1];
    TaggedIs(top, n);
    PayloadIs(v, n);
    LeValueSnoc(Le(v, n - 1), Tagged(top, n));
    Distribute(Pow256(n - 1), top % Room(n), Tag(n));
  }

  lemma LeOfValue(s: seq<byte>, u: nat)
    requires LeValue(s) == u
    ensures Le(u, |s|) == s
  {
    LeIsInverse(s);
  }

  /** The packed form is the two's-complement bytes with the top byte masked and tagged. */
  lemma PackedBytes(v: int, n: nat)
    requires 1 <= n < 8
    ensures Packed(v, n) == Reversed(Le(v, n - 1) + [Tagged(Le(v, n)[n - 1], n)])
  {
    PackedValue(v, n);
    LeOfValue(Le(v, n - 1) + [Tagged(Le(v, n)[n - 1], n)], Marker(n) + Payload(v, n));
  }

  lemma Distribute(p: int, a: int, b: int)
    ensures p * (a + b) == p * a + b * p
  {
  }

  // ---- the encoders

  /** How the bytes of an encoding are made from the value's memory image `pv`. */
  ghost predicate Layout(stored: seq<byte>, n: nat, pv: seq<byte>)
    requires 1 <= n <= 9 && |pv| >= if n < 8 then n else 8
  {
    if n < 8 then
      |stored| == n && stored[0] == Tagged(pv[n - 1], n) && forall k :: 1 <= k < n ==> stored[k] == pv[n - 1 - k]
    else
      |stored| == 9 && stored[0] == Tag(n) && forall k :: 1 <= k < 9 ==> stored[k] == pv[8 - k]
  }

  lemma StoredLayout(val: int)
    ensures Layout(Stored(val), ValSize(val), Image64(val))
  {
    var n := ValSize(val);
    if n < 8 {
      LePrefix(val, n, 8);
      LePrefix(val, n - 1, n);
      PackedBytes(val, n);
    }
  }

  /**
   `dump(i64)`.  The 8-byte case stores nine bytes but reports eight.
   */
  method Dump64(val: int, buf: array<byte>) returns (n: nat)
    requires Fits(val, 8) && buf.Length == 9
    modifies buf
    ensures n == ValSize(val)
    ensures buf[..] == Stored(val) + old(buf[|Stored(val)|..])
  {
    StoredLayout(val);
    n := Place64(val, Image64(val), Stored(val), buf);
  }

  /** The branches of `dump(i64)`: byte k of the image goes to its place, the first is masked and tagged. */
  method Place64(val: int, pv: seq<byte>, ghost stored: seq<byte>, buf: array<byte>) returns (n: nat)
    requires buf.Length == 9 && |pv| == 8
    requires Layout(stored, ValSize(val), pv)
    modifies buf
    ensures n == ValSize(val)
    ensures buf[..] == stored + old(buf[|stored|..])
  {
    n := ValSize(val);
    if -64 <= val <= 63 {
      buf[0] := pv[0];
      buf[0] := buf[0] % 0x80;
    } else if -8192 <= val <= 8191 {
      buf[0] := pv[1];
      buf[1] := pv[0];
      buf[0] := buf[0] % 0x40 + 0x80;
    } else if -1048576 <= val <= 1048575 {
      buf[0] := pv[2];
      buf[1] := pv[1];
      buf[2] := pv[0];
      buf[0] := buf[0] % 0x20 + 0xC0;
    } else if -134217728 <= val <= 134217727 {
      buf[0] := pv[3];
      buf[1] := pv[2];
      buf[2] := pv[1];
      buf[3] := pv[0];
      buf[0] := buf[0] % 0x10 + 0xE0;
    } else if -17179869184 <= val <= 17179869183 {
      buf[0] := pv[4];
      buf[1] := pv[3];
      buf[2] := pv[2];
      buf[3] := pv[1];
      buf[4] := pv[0];
      buf[0] := buf[0] % 0x08 + 0xF0;
    } else if -2199023255552 <= val <= 2199023255551 {
      buf[0] := pv[5];
      buf[1] := pv[4];
      buf[2] := pv[3];
      buf[3] := pv[2];
      buf[4] := pv[1];
      buf[5] := pv[0];
      buf[0] := buf[0] % 0x04 + 0xF8;
    } else if -281474976710656 <= val <= 281474976710655 {
      buf[0] := pv[6];
      buf[1] := pv[5];
      buf[2] := pv[4];
      buf[3] := pv[3];
      buf[4] := pv[2];
      buf[5] := pv[1];
      buf[6] := pv[0];
      buf[0] := buf[0] % 0x02 + 0xFC;
    } else {
      buf[1] := pv[7];
      buf[2] := pv[6];
      buf[3] := pv[5];
      buf[4] := pv[4];
      buf[5] := pv[3];
      buf[6] := pv[2];
      buf[7] := pv[1];
      buf[8] := pv[0];
      if -36028797018963968 <= val <= 36028797018963967 {
        buf[0] := 0xFE;
      } else {
        buf[0] := 0xFF;
      }
    }
  }

  /** `dump(i32)`: a separate encoder that writes the same bytes as `dump(i64)`. */
  method Dump32(val: int, buf: array<byte>) returns (n: nat)
    requires Fits(val, 4) && buf.Length == 5
    modifies buf
    ensures n == ValSize(val)
    ensures buf[..] == Stored(val) + old(buf[|Stored(val)|..])
  {
    StoredLayout(val);
    SignByte(val);
    n := Place32(val, Le(val, 4), Stored(val), Image64(val), buf);
  }

  method Place32(val: int, pv: seq<byte>, ghost stored: seq<byte>, ghost wide: seq<byte>, buf: array<byte>)
    returns (n: nat)
    requires Fits(val, 4) && buf.Length == 5 && |pv| == 4 && |wide| == 8
    requires wide[..4] == pv && wide[4] == if val < 0 then 0xFF else 0
    requires Layout(stored, ValSize(val), wide)
    modifies buf
    ensures n == ValSize(val)
    ensures buf[..] == stored + old(buf[|stored|..])
  {
    assert Pow256(4) == 0x1_0000_0000;
    n := ValSize(val);
    if -64 <= val <= 63 {
      buf[0] := pv[0];
      buf[0] := buf[0] % 0x80;
    } else if -8192 <= val <= 8191 {
      buf[0] := pv[1];
      buf[1] := pv[0];
      buf[0] := buf[0] % 0x40 + 0x80;
    } else if -1048576 <= val <= 1048575 {
      buf[0] := pv[2];
      buf[1] := pv[1];
      buf[2] := pv[0];
      buf[0] := buf[0] % 0x20 + 0xC0;
    } else if -134217728 <= val <= 134217727 {
      buf[0] := pv[3];
      buf[1] := pv[2];
      buf[2] := pv[1];
      buf[3] := pv[0];
      buf[0] := buf[0] % 0x10 + 0xE0;
    } else {
      buf[1] := pv[3];
      buf[2] := pv[2];
      buf[3] := pv[1];
      buf[4] := pv[0];
      if val < 0 {
        buf[0] := 0xF7;
      } else {
        buf[0] := 0xF0;
      }
    }
  }

  /** The low half of a sign-extended i32 is the i32, and byte 4 is all sign. */
  lemma SignByte(val: int)
    requires Fits(val, 4)
    ensures Image64(val)[..4] == Le(val, 4)
    ensures Image64(val)[4] == if val < 0 then 0xFF else 0
  {
    LePrefix(val, 4, 8);
    var v1 := val / 256;
    var v2 := v1 / 256;
    var v3 := v2 / 256;
    var v4 := v3 / 256;
    assert Le(val, 8)[4] == Le(v1, 7)[3] == Le(v2, 6)[2] == Le(v3, 5)[1] == Le(v4, 4)[0];
    assert Pow256(4) == 0x1_0000_0000;
  }

  // ---- the decoders

  /** The payload of a big-endian n-byte form, from its bytes in little-endian order. */
  lemma PayloadOfBytes(raw: seq<byte>, n: nat)
    requires 1 <= n < 8 && |raw| == n
    ensures Payload(LeValue(raw), n) == LeValue(raw[..n - 1]) + Pow256(n - 1) * (raw[n - 1] % Room(n))
  {
    var u := LeValue(raw);
    LeIsInverse(raw);
    LePrefix(u, n - 1, n);
    Sizes(n);
    TopByteMask(u, n, Room(n));
    PayloadIs(u, n);
  }

  /** x | (0xFF << (7 - n)), as far as it fits into a byte, for the masked first byte of an n-byte form. */
  function SignFilled(x: byte, n: nat): (b: byte)
    requires 1 <= n < 8
  {
    match n
    case 1 => x % 0x40 + 0xC0
    case 2 => x % 0x20 + 0xE0
    case 3 => x % 0x10 + 0xF0
    case 4 => x % 0x08 + 0xF8
    case 5 => x % 0x04 + 0xFC
    case 6 => x % 0x02 + 0xFE
    case 7 => 0xFF
  }

  /** (x >> (7 - n)) & 1: the sign bit of the payload. */
  function SignBit(x: byte, n: nat): (b: nat)
    requires 1 <= n < 8
  {
    match n
    case 1 => (x / 0x40) % 2
    case 2 => (x / 0x20) % 2
    case 3 => (x / 0x10) % 2
    case 4 => (x / 0x08) % 2
    case 5 => (x / 0x04) % 2
    case 6 => (x / 0x02) % 2
    case 7 => x % 2
  }

  lemma SignBits(x: byte, n: nat)
    requires 1 <= n < 8 && x < Room(n)
    ensures SignBit(x, n) == 1 <==> Room(n) <= 2 * x
    ensures Room(n) <= 2 * x ==> SignFilled(x, n) == x + 256 - Room(n)
  {
    match n {
      case 1 => case 2 => case 3 => case 4 => case 5 => case 6 => case 7 =>
    }
  }

  /** What the loaders' final memory image denotes: the payload, sign-extended to `width` bytes. */
  lemma ExtensionValue(raw: seq<byte>, n: nat, width: nat, x: byte, top: byte, pad: byte)
    requires 1 <= n <= width <= 8 && n < 8 && |raw| == n
    requires x == raw[n - 1] % Room(n)
    requires top == if SignBit(x, n) == 1 then SignFilled(x, n) else x
    requires pad == if SignBit(x, n) == 1 then 0xFF else 0
    ensures Signed(LeValue(raw[..n - 1] + [top] + Fill(pad, width - n)), width) == SignExtended(LeValue(raw), n)
  {
    var low, p := LeValue(raw[..n - 1]), Pow256(n - 1);
    hide LeValue, Fill, SignBit, SignFilled, Marker, Tag, Room, Span, Payload, Pow256;
    PayloadOfBytes(raw, n);
    SignBits(x, n);
    ImageValue(raw[..n - 1], top, Fill(pad, width - n));
    FillValue(width - n);
    LeValueBound(raw[..n - 1]);
    Ranges(n, width);
    SignSplit(p, Room(n), low, x);
    Extended(p, Pow256(width - n), Room(n), low, x, top, LeValue(Fill(pad, width - n)), pad == 0xFF);
  }

  /** The arithmetic of sign extension: `low + p * x` is the payload, `p * room` its range, `256 * p * f` that of the result. */
  lemma Extended(p: nat, f: nat, room: nat, low: nat, x: nat, top: nat, fill: nat, negative: bool)
    requires low + p * x < p * room && 2 * (p * room) <= (256 * p) * f
    requires negative <==> 2 * (low + p * x) >= p * room
    requires if negative then top == x + 256 - room && fill == f - 1 else top == x && fill == 0
    ensures var total, range := low + p * top + (256 * p) * fill, (256 * p) * f;
      (if 2 * total >= range then total - range else total) ==
      if negative then low + p * x - p * room else low + p * x
  {
    if negative {
      Borrow(p, x, room, 256 * p, f);
    }
  }

  lemma ImageValue(front: seq<byte>, top: byte, fill: seq<byte>)
    ensures LeValue(front + [top] + fill) == LeValue(front) + Pow256(|front|) * top + Pow256(|front| + 1) * LeValue(fill)
  {
    LeValueSnoc(front, top);
    LeValueConcat(front + [top], fill);
  }

  lemma Borrow(p: nat, x: nat, room: nat, q: nat, f: nat)
    requires q == 256 * p
    ensures p * (x + 256 - room) + q * (f - 1) == p * x - p * room + q * f
  {
    assert p * (x + 256 - room) == p * x + 256 * p - p * room;
    assert q * (f - 1) == q * f - q;
  }

  lemma SignSplit(p: nat, room: nat, low: nat, x: nat)
    requires low < p && room % 2 == 0
    ensures 2 * (low + p * x) >= p * room <==> 2 * x >= room
  {
    var h := room / 2;
    Distribute(p, h, h);
    if x >= h {
      Distribute(p, h, x - h);
    } else {
      Distribute(p, x, h - x);
      Product(p, h - x);
    }
  }

  lemma Ranges(n: nat, width: nat)
    requires 1 <= n <= width <= 8 && n < 8
    ensures Span(n) == Pow256(n - 1) * Room(n) && Pow256(n) == 256 * Pow256(n - 1)
    ensures Pow256(width) == (256 * Pow256(n - 1)) * Pow256(width - n) && 2 * Span(n) <= Pow256(width) && Room(n) % 2 == 0
  {
    Sizes(n);
    Pow256Add(n, width - n);
    WideEnough(n, width);
  }

  lemma WideEnough(n: nat, width: nat)
    requires 1 <= n <= width <= 8 && n < 8
    ensures 2 * Span(n) <= Pow256(width)
    ensures Room(n) % 2 == 0
  {
    Sizes(n);
    Pow256Add(n, width - n);
    var p := Pow256(n - 1);
    assert p * 256 >= 2 * (p * Room(n));
    assert Pow256(n) * Pow256(width - n) >= Pow256(n) * 1;
  }

  /** `load_i64`. */
  method Load64(buf: array<byte>) returns (val: int)
    requires buf.Length == 9
    ensures val == Loaded64(buf[..])
  {
    var pv := new byte[8](_ => 0);
    var bsize := BufSize(buf[0]);
    if bsize < 8 {
      ghost var raw := Reversed(buf[..bsize]);
      SameNumber(raw, buf[..][..bsize]);
      val := Gather(buf, pv, bsize, raw);
    } else {
      for i := 0 to 8
        invariant forall k :: 0 <= k < i ==> pv[k] == buf[8 - k]
      {
        pv[i] := buf[8 - i];
      }
      SameNumber(pv[..], buf[..][1..]);
      val := Signed(LeValue(pv[..]), 8);
    }
  }

  /** `load_i32`. */
  method Load32(buf: array<byte>) returns (val: int)
    requires buf.Length == 5
    ensures val == Loaded32(buf[..])
  {
    var pv := new byte[4](_ => 0);
    var bsize := BufSize(buf[0]);
    if bsize < 5 {
      ghost var raw := Reversed(buf[..bsize]);
      SameNumber(raw, buf[..][..bsize]);
      val := Gather(buf, pv, bsize, raw);
    } else {
      for i := 0 to 4
        invariant forall k :: 0 <= k < i ==> pv[k] == buf[4 - k]
      {
        pv[i] := buf[4 - i];
      }
      SameNumber(pv[..], buf[..][1..]);
      val := Signed(LeValue(pv[..]), 4);
    }
  }

  lemma SameNumber(le: seq<byte>, be: seq<byte>)
    requires |le| == |be| && forall k :: 0 <= k < |le| ==> le[k] == be[|be| - 1 - k]
    ensures LeValue(le) == BeValue(be)
  {
    BeIsReversedLe(le);
    assert Reversed(le) == be;
  }

  /** The packed branch of both loaders: reverse the bytes, mask the tag off, extend the sign. */
  method Gather(buf: array<byte>, pv: array<byte>, bsize: nat, ghost raw: seq<byte>) returns (val: int)
    requires buf != pv
    requires 1 <= bsize <= pv.Length <= 8 && bsize <= buf.Length && bsize < 8
    requires raw == Reversed(buf[..bsize])
    requires forall k :: 0 <= k < pv.Length ==> pv[k] == 0
    modifies pv
    ensures val == SignExtended(LeValue(raw), bsize)
  {
    for i := 0 to bsize
      invariant forall k :: 0 <= k < i ==> pv[k] == raw[k]
      invariant forall k :: bsize <= k < pv.Length ==> pv[k] == 0
    {
      pv[i] := buf[bsize - i - 1];
    }
    pv[bsize - 1] := pv[bsize - 1] % Room(bsize);
    if SignBit(pv[bsize - 1], bsize) == 1 {
      pv[bsize - 1] := SignFilled(pv[bsize - 1], bsize);
      for i := bsize to pv.Length
        invariant forall k :: bsize <= k < i ==> pv[k] == 0xFF
        invariant pv[bsize - 1] == SignFilled(raw[bsize - 1] % Room(bsize), bsize)
        invariant forall k :: 0 <= k < bsize - 1 ==> pv[k] == raw[k]
      {
        pv[i] := 0xFF;
      }
    }
    ghost var pad: byte := if SignBit(raw[bsize - 1] % Room(bsize), bsize) == 1 then 0xFF else 0;
    FillAt(pad, pv.Length - bsize);
    assert pv[..] == raw[..bsize - 1] + [pv[bsize - 1]] + Fill(pad, pv.Length - bsize);
    ExtensionValue(raw, bsize, pv.Length, raw[bsize - 1] % Room(bsize), pv[bsize - 1], pad);
    val := Signed(LeValue(pv[..]), pv.Length);
  }

  lemma {:induction false} FillAt(b: byte, n: nat)
    ensures forall k :: 0 <= k < n ==> Fill(b, n)[k] == b
  {
    if n > 0 {
      FillAt(b, n - 1);
    }
  }

  // ---- what the codec promises

  /** The first byte of an encoding announces exactly the length that the encoder reports. */
  lemma AnnouncedSize(v: int)
    ensures BufSize(Stored(v)[0]) == ValSize(v) == |OnWire(v)|
  {
    hide Stored, ValSize, BufSize, Tagged, Le;
    StoredLayout(v);
    var n := ValSize(v);
    if n < 8 {
      TaggedSize(Image64(v)[n - 1], n);
    } else {
      TagSize(n);
    }
  }

  /** The marker bits say the length, whatever the bits of the value next to them are. */
  lemma TaggedSize(top: byte, n: nat)
    requires 1 <= n < 8
    ensures BufSize(Tagged(top, n)) == n
  {
    match n {
      case 1 => case 2 => case 3 => case 4 => case 5 => case 6 => case 7 =>
    }
  }

  lemma TagSize(n: nat)
    requires n in {8, 9}
    ensures BufSize(Tag(n)) == n
  {
  }

  lemma PackedNumber(v: int, n: nat)
    requires 1 <= n < 8
    ensures BeValue(Packed(v, n)) == Marker(n) + Payload(v, n)
  {
    Sizes(n);
    BeOfLe(Marker(n) + Payload(v, n), n);
  }

  lemma UnmarkedPayload(w: nat, n: nat)
    requires 1 <= n < 8 && w < Span(n)
    ensures Payload(Marker(n) + w, n) == w
  {
    Sizes(n);
    PayloadIs(Marker(n) + w, n);
    ModIs(Marker(n) + w, Span(n), Marker(n) / Span(n), w);
  }

  lemma PayloadRange(v: int, n: nat)
    requires 1 <= n < 8 && -Span(n) <= 2 * v < Span(n)
    ensures Payload(v, n) == if v < 0 then v + Span(n) else v
  {
    PayloadIs(v, n);
    ModIs(v, Span(n), if v < 0 then -1 else 0, if v < 0 then v + Span(n) else v);
  }

  /** Reading the payload back out of the packed form. */
  lemma PayloadRoundTrip(v: int, n: nat)
    requires 1 <= n < 8 && -Span(n) <= 2 * v < Span(n)
    ensures SignExtended(BeValue(Packed(v, n)), n) == v
  {
    PackedNumber(v, n);
    UnmarkedPayload(Payload(v, n), n);
    PayloadRange(v, n);
  }

  /** In memory the codec is lossless: loading the dumped buffer, whatever follows, gives the value back. */
  lemma RoundTrip64(v: int, rest: seq<byte>)
    requires Fits(v, 8) && |Stored(v)| + |rest| == 9
    ensures Loaded64(Stored(v) + rest) == v
  {
    AnnouncedSize(v);
    ShortestForm(v);
    var s, n := Stored(v) + rest, ValSize(v);
    if n < 8 {
      assert s[..n] == Packed(v, n);
      PayloadRoundTrip(v, n);
    } else {
      assert s[1..] == Reversed(Image64(v));
      BeIsReversedLe(Image64(v));
      LeRoundTrip(v, 8);
    }
  }

  /** The two widths agree: an i32 written by either encoder is read back by the 32-bit loader. */
  lemma RoundTrip32(v: int, rest: seq<byte>)
    requires Fits(v, 4) && |Stored(v)| + |rest| == 5
    ensures Loaded32(Stored(v) + rest) == v
  {
    hide ValSize, BufSize, Packed, SignExtended, Fits, Span, BeValue, Signed;
    AnnouncedSize(v);
    ShortestForm(v);
    AtMostFive(v);
    var s, n := Stored(v) + rest, ValSize(v);
    if n < 5 {
      assert s[..n] == Packed(v, n);
      PayloadRoundTrip(v, n);
    } else {
      assert s[1..] == Packed(v, 5)[1..];
      LowWord(v);
    }
  }

  lemma AtMostFive(v: int)
    requires Fits(v, 4)
    ensures ValSize(v) <= 5
  {
    assert Pow256(4) == 0x1_0000_0000;
  }

  lemma LowWord(v: int)
    requires Fits(v, 4)
    ensures Signed(BeValue(Packed(v, 5)[1..]), 4) == v
  {
    var u := Marker(5) + Payload(v, 5);
    LePrefix(u, 4, 5);
    SameNumber(Le(u, 4), Packed(v, 5)[1..]);
    SameLowWord(v, u);
    LeRoundTrip(v, 4);
  }

  lemma SameLowWord(v: int, u: nat)
    requires u == Marker(5) + Payload(v, 5)
    ensures LeValue(Le(u, 4)) == LeValue(Le(v, 4))
  {
    var w := v % 0x8_0000_0000;
    var q, a, b := v / 0x8_0000_0000, w / 0x1_0000_0000, w % 0x1_0000_0000;
    ModIs(v, 0x1_0000_0000, 8 * q + a, b);
    ModIs(u, 0x1_0000_0000, 0xF0 + a, b);
    LeUnsigned(u, 4);
    LeUnsigned(v, 4);
    assert Pow256(4) == 0x1_0000_0000;
  }

  /** The low byte of a number can be exchanged without touching the others. */
  lemma LowByte(v: int, b: byte, n: nat)
    requires n > 0
    ensures Le(v - v % 256 + b, n) == [b] + Le(v, n)[1..]
  {
    var u := v - v % 256 + b;
    assert u / 256 == v / 256 && u % 256 == b;
  }

  lemma WholeLoad(got: seq<byte>, u: int)
    requires |got| == 9 && BufSize(got[0]) >= 8 && Fits(u, 8)
    requires forall k :: 0 <= k < 8 ==> Le(u, 8)[k] == got[8 - k]
    ensures Loaded64(got) == u
  {
    SameNumber(Le(u, 8), got[1..]);
    LeRoundTrip(u, 8);
  }

  /**
   On the wire an 8-byte value loses its last byte, and the reader's ninth byte is whatever its
   buffer held there.
   */
  lemma WireBand(v: int, junk: byte)
    requires Fits(v, 8) && ValSize(v) == 8
    ensures Loaded64(OnWire(v) + [junk]) == v - v % 256 + junk
  {
    var got := OnWire(v) + [junk];
    StoredLayout(v);
    LowByte(v, junk, 8);
    RangeOfBand(v, junk);
    WholeLoad(got, v - v % 256 + junk);
  }

  lemma RangeOfBand(v: int, junk: byte)
    requires ValSize(v) == 8
    ensures Fits(v - v % 256 + junk, 8)
  {
    assert Pow256(8) == 0x1_0000_0000_0000_0000;
  }

  /** The reader gets the value back when `junk` is what its buffer held behind the received bytes. */
  predicate Survives(v: int, junk: seq<byte>)
    requires Fits(v, 8) && |junk| == 9 - ValSize(v)
  {
    Loaded64(OnWire(v) + junk) == v
  }

  lemma OutsideBand(v: int, junk: seq<byte>)
    requires Fits(v, 8) && ValSize(v) != 8 && |junk| == 9 - ValSize(v)
    ensures Survives(v, junk)
  {
    RoundTrip64(v, junk);
    assert OnWire(v) == Stored(v);
  }

  lemma InsideBand(v: int, junk: seq<byte>)
    requires Fits(v, 8) && ValSize(v) == 8 && |junk| == 1
    ensures Survives(v, junk) <==> junk[0] == v % 256
  {
    WireBand(v, junk[0]);
    assert junk == [junk[0]];
  }

  /** A v64 that survives the wire whatever the reader's buffer held. */
  ghost predicate Lossless(v: int)
    requires Fits(v, 8)
  {
    forall junk: seq<byte> | |junk| == 9 - ValSize(v) :: Survives(v, junk)
  }

  lemma SomethingLost(v: int)
    requires Fits(v, 8) && ValSize(v) == 8
    ensures !Lossless(v)
  {
    var junk: seq<byte> := [if v % 256 == 0 then 1 else 0];
    InsideBand(v, junk);
    assert !Survives(v, junk);
  }

  /** The values that survive the wire are exactly those outside the 8-byte band. */
  lemma WireRoundTrip64(v: int)
    requires Fits(v, 8)
    ensures Lossless(v) <==> ValSize(v) != 8
  {
    if ValSize(v) == 8 {
      SomethingLost(v);
    } else {
      forall junk: seq<byte> | |junk| == 9 - ValSize(v)
        ensures Survives(v, junk)
      {
        OutsideBand(v, junk);
      }
    }
  }

  // ---- the format, in powers of two

  function Pow2(k: nat): (p: nat)
    ensures p > 0
  {
    if k == 0 then 1 else 2 * Pow2(k - 1)
  }

  /** The forms of up to eight bytes hold what fits into 7n bits of two's complement, and the shortest that does is chosen. */
  lemma SevenBits(v: int, n: nat)
    requires 1 <= n <= 8
    ensures ValSize(v) <= n <==> 0 - Pow2(7 * n - 1) <= v < Pow2(7 * n - 1)
  {
    assert Pow2(6) == 0x40 && Pow2(13) == 0x2000 && Pow2(20) == 0x10_0000 && Pow2(27) == 0x800_0000;
    assert Pow2(34) == 0x4_0000_0000 && Pow2(41) == 0x200_0000_0000 && Pow2(48) == 0x1_0000_0000_0000 && Pow2(55) == 0x80_0000_0000_0000;
  }

  /**
   The bytes on the wire, read as one big-endian number: n - 1 ones and a zero in front of the 7n low bits of the
   value; the 8-byte form holds 0xFE and the value without its low byte, and the 9-byte form 0xFF and all of it.
   */
  lemma WireForm(v: int)
    requires Fits(v, 8)
    ensures |OnWire(v)| == ValSize(v) <= 9
    ensures var n := ValSize(v); n < 8 ==> BeValue(OnWire(v)) == Pow2(8 * n) - Pow2(7 * n + 1) + v % Pow2(7 * n)
    ensures ValSize(v) == 8 ==> BeValue(OnWire(v)) == 0xFE * Pow2(56) + (v / 256) % Pow2(56)
    ensures ValSize(v) == 9 ==> BeValue(OnWire(v)) == 0xFF * Pow2(64) + v % Pow2(64)
  {
    hide Packed, Le, BeValue, Reversed;
    var n := ValSize(v);
    if n < 8 {
      PackedNumber(v, n);
      assert OnWire(v) == Packed(v, n);
      MarkerIs(n);
      PayloadIs(v, n);
    } else if n == 8 {
      EightBytes(v);
    } else {
      NineBytes(v);
    }
  }

  /**
   And back, for any bytes whatever: an n-byte form stands for its low 7n bits in two's complement, the 8- and
   9-byte forms for the 64 bits behind the first byte.
   */
  lemma LoadedForm(s: seq<byte>)
    requires |s| == 9
    ensures var n := BufSize(s[0]); n < 8 ==> Loaded64(s) == TwosComplement(BeValue(s[..n]) % Pow2(7 * n), 7 * n)
    ensures BufSize(s[0]) >= 8 ==> Loaded64(s) == TwosComplement(BeValue(s[1..]), 64)
  {
    hide BeValue;
    WidePowers();
    var n := BufSize(s[0]);
    if n < 8 {
      MarkerIs(n);
      PayloadIs(BeValue(s[..n]), n);
    }
  }

  /** The number that k bits denote. */
  function TwosComplement(u: nat, k: nat): int
  {
    if 2 * u >= Pow2(k) then u - Pow2(k) else u
  }

  lemma MarkerIs(n: nat)
    requires 1 <= n < 8
    ensures Marker(n) == Pow2(8 * n) - Pow2(7 * n + 1) && Span(n) == Pow2(7 * n)
  {
    assert Pow2(7) == 0x80 && Pow2(8) == 0x100 && Pow2(14) == 0x4000 && Pow2(15) == 0x8000 && Pow2(16) == 0x1_0000;
    assert Pow2(21) == 0x20_0000 && Pow2(22) == 0x40_0000 && Pow2(24) == 0x100_0000;
    assert Pow2(28) == 0x1000_0000 && Pow2(29) == 0x2000_0000 && Pow2(32) == 0x1_0000_0000;
    assert Pow2(35) == 0x8_0000_0000 && Pow2(36) == 0x10_0000_0000 && Pow2(40) == 0x100_0000_0000;
    assert Pow2(42) == 0x400_0000_0000 && Pow2(43) == 0x800_0000_0000 && Pow2(48) == 0x1_0000_0000_0000;
    assert Pow2(49) == 0x2_0000_0000_0000 && Pow2(50) == 0x4_0000_0000_0000 && Pow2(56) == 0x100_0000_0000_0000;
  }

  lemma WidePowers()
    ensures Pow256(7) == Pow2(56) && Pow256(8) == Pow2(64)
  {
    assert Pow256(5) == 0x100_0000_0000;
    assert Pow256(7) == 256 * (256 * Pow256(5));
    assert Pow256(8) == 256 * Pow256(7);
    assert Pow2(8) == 0x100 && Pow2(16) == 0x1_0000 && Pow2(24) == 0x100_0000 && Pow2(32) == 0x1_0000_0000;
    assert Pow2(40) == 0x100_0000_0000 && Pow2(48) == 0x1_0000_0000_0000 && Pow2(56) == 0x100_0000_0000_0000;
    assert Pow2(64) == 0x1_0000_0000_0000_0000;
  }

  /** A byte in front of a big-endian number. */
  lemma InFront(t: byte, s: seq<byte>)
    ensures BeValue([t] + Reversed(s)) == t * Pow256(|s|) + LeValue(s)
  {
    hide BeValue, LeValue;
    assert [t] + Reversed(s) == Reversed(s + [t]) by { ReversedFront(t, s); }
    hide Reversed;
    BeIsReversedLe(s + [t]);
    LeValueSnoc(s, t);
  }

  lemma ReversedFront(t: byte, s: seq<byte>)
    ensures [t] + Reversed(s) == Reversed(s + [t])
  {
  }

  lemma EightOnWire(v: int)
    requires ValSize(v) == 8
    ensures OnWire(v) == [0xFE] + Reversed(Le(v / 256, 7))
  {
    assert Le(v, 8) == [v % 256] + Le(v / 256, 7);
    hide Le;
    var low := Le(v / 256, 7);
    LastOff(v % 256, low);
    assert OnWire(v) == ([0xFE] + Reversed([v % 256] + low))[..8];
  }

  lemma LastOff(b: byte, s: seq<byte>)
    ensures Reversed([b] + s)[..|s|] == Reversed(s)
  {
  }

  lemma EightBytes(v: int)
    requires ValSize(v) == 8
    ensures BeValue(OnWire(v)) == 0xFE * Pow2(56) + (v / 256) % Pow2(56)
  {
    hide BeValue, Reversed, Le, OnWire, Pow2, Pow256;
    WidePowers();
    EightOnWire(v);
    InFront(0xFE, Le(v / 256, 7));
    LeUnsigned(v / 256, 7);
  }

  lemma NineBytes(v: int)
    requires ValSize(v) == 9
    ensures BeValue(OnWire(v)) == 0xFF * Pow2(64) + v % Pow2(64)
  {
    hide BeValue, Le, Reversed, Pow2, Pow256;
    WidePowers();
    assert OnWire(v) == [0xFF] + Reversed(Le(v, 8));
    InFront(0xFF, Le(v, 8));
    LeUnsigned(v, 8);
  }
}
