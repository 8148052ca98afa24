/** Bytes and the fixed-width little- and big-endian integers that cross the wire. */
module Bytes {

  type byte = b: int | 0 <= b < 256

  /** 256^n. */
  function Pow256(n: nat): (p: nat)
    ensures p > 0
  {
    if n == 0 then 1 else 256 * Pow256(n - 1)
  }

  /** The n low bytes of `v` in two's complement, least significant byte first. */
  function Le(v: int, n: nat): (s: seq<byte>)
    ensures |s| == n
    decreases n
  {
    if n == 0 then [] else [v % 256] + Le(v / 256, n - 1)
  }

  /** Byte k of an integer is the one that counts 256^k. */
  lemma {:induction false} LeDigit(v: int, n: nat, k: nat)
    requires k < n
    ensures Le(v, n)[k] == (v / Pow256(k)) % 256
    decreases n
  {
    if k > 0 {
      LeDigit(v / 256, n - 1, k - 1);
      NextDigits(v, Pow256(k - 1));
    }
  }

  lemma NextDigits(v: int, p: nat)
    requires p > 0
    ensures v / 256 / p == v / (256 * p)
  {
    var q, r := v / 256, v % 256;
    QuotientUnique(256 * p, v / (256 * p), v % (256 * p), q / p, 256 * (q % p) + r);
  }

  lemma Assoc(a: seq<byte>, b: seq<byte>, c: seq<byte>)
    ensures a + (b + c) == (a + b) + c
  {
  }

  /** The unsigned number that a little-endian byte string denotes. */
  function LeValue(s: seq<byte>): (v: nat)
  {
    if s == [] then 0 else s[0] + 256 * LeValue(s[1..])
  }

  /** The unsigned number that a big-endian byte string denotes. */
  function BeValue(s: seq<byte>): (v: nat)
  {
    if s == [] then 0 else 256 * BeValue(s[..|s| - 1]) + s[|s| - 1]
  }

  function Reversed(s: seq<byte>): (r: seq<byte>)
    ensures |r| == |s|
    ensures forall k :: 0 <= k < |s| ==> r[k] == s[|s| - 1 - k]
  {
    seq(|s|, k requires 0 <= k < |s| => s[|s| - 1 - k])
  }

  /** Two's-complement reading of an unsigned n-byte number. */
  function Signed(u: nat, n: nat): int
  {
    if 2 * u >= Pow256(n) then u - Pow256(n) else u
  }

  /** The integers that fit into n bytes of two's complement. */
  predicate Fits(v: int, n: nat)
  {
    0 - Pow256(n) <= 2 * v < Pow256(n)
  }

  lemma {:induction false} LeValueBound(s: seq<byte>)
    ensures LeValue(s) < Pow256(|s|)
  {
    if s != [] {
      LeValueBound(s[1..]);
    }
  }

  /** Writing an n-byte integer and reading it back as a signed number is the identity on its range. */
  lemma {:induction false} LeRoundTrip(v: int, n: nat)
    requires n > 0 && Fits(v, n)
    ensures Signed(LeValue(Le(v, n)), n) == v
  {
    LeUnsigned(v, n);
    var p := Pow256(n);
    if v < 0 {
      ModIs(v, p, -1, v + p);
    } else {
      ModIs(v, p, 0, v);
    }
  }

  lemma ModIs(v: int, p: int, q: int, r: int)
    requires p > 0 && v == p * q + r && 0 <= r < p
    ensures v % p == r && v / p == q
  {
    QuotientUnique(p, v / p, v % p, q, r);
  }

  lemma QuotientUnique(p: int, q0: int, r0: int, q1: int, r1: int)
    requires 0 <= r0 < p && 0 <= r1 < p
    requires p * q0 + r0 == p * q1 + r1
    ensures q0 == q1 && r0 == r1
  {
    if q0 < q1 {
      Product(p, q1 - q0);
    } else if q1 < q0 {
      Product(p, q0 - q1);
    }
  }

  lemma Product(p: int, k: int)
    requires p > 0 && k >= 1
    ensures p * k >= p
  {
  }

  lemma {:induction false} LeUnsigned(v: int, n: nat)
    ensures LeValue(Le(v, n)) == v % Pow256(n)
    decreases n
  {
    if n > 0 {
      assert Le(v, n)[1..] == Le(v / 256, n - 1);
      LeUnsigned(v / 256, n - 1);
      NextDigit(v, Pow256(n - 1));
    }
  }

  lemma NextDigit(v: int, q: int)
    requires q > 0
    ensures v % (256 * q) == 256 * ((v / 256) % q) + v % 256
  {
    var w := v / 256;
    var k, m := w / q, w % q;
    MulAssoc(256, q, k);
    ModIs(v, 256 * q, k, 256 * m + v % 256);
  }

  /** Reading big-endian is reading the reversed string little-endian. */
  lemma {:induction false} BeIsReversedLe(s: seq<byte>)
    ensures BeValue(Reversed(s)) == LeValue(s)
  {
    if s != [] {
      BeIsReversedLe(s[1..]);
      assert Reversed(s)[..|s| - 1] == Reversed(s[1..]);
    }
  }

  lemma {:induction false} LeIsInverse(s: seq<byte>)
    ensures Le(LeValue(s), |s|) == s
  {
    if s != [] {
      LeIsInverse(s[1..]);
      assert LeValue(s) / 256 == LeValue(s[1..]);
    }
  }

  lemma MulAssoc(a: int, b: int, c: int)
    ensures (a * b) * c == a * (b * c)
  {
  }

  lemma {:induction false} LeValueSnoc(s: seq<byte>, b: byte)
    ensures LeValue(s + [b]) == LeValue(s) + Pow256(|s|) * b
  {
    if s == [] {
      assert s + [b] == [b];
    } else {
      assert (s + [b])[1..] == s[1..] + [b];
      LeValueSnoc(s[1..], b);
      MulAssoc(256, Pow256(|s| - 1), b);
    }
  }

  lemma {:induction false} LePrefix(v: int, k: nat, n: nat)
    requires k <= n
    ensures Le(v, n)[..k] == Le(v, k)
    decreases n
  {
    if k > 0 {
      LePrefix(v / 256, k - 1, n - 1);
    }
  }

  function Fill(b: byte, n: nat): (s: seq<byte>)
    ensures |s| == n
  {
    if n == 0 then [] else [b] + Fill(b, n - 1)
  }

  lemma {:induction false} LeValueConcat(a: seq<byte>, b: seq<byte>)
    ensures LeValue(a + b) == LeValue(a) + Pow256(|a|) * LeValue(b)
  {
    if a == [] {
      assert a + b == b;
    } else {
      assert (a + b)[1..] == a[1..] + b;
      LeValueConcat(a[1..], b);
      MulAssoc(256, Pow256(|a| - 1), LeValue(b));
    }
  }

  /** Padding with zero bytes adds nothing; padding with 0xFF bytes subtracts one from the next power. */
  lemma {:induction false} FillValue(n: nat)
    ensures LeValue(Fill(0, n)) == 0
    ensures LeValue(Fill(0xFF, n)) == Pow256(n) - 1
  {
    if n > 0 {
      FillValue(n - 1);
      assert Fill(0, n)[1..] == Fill(0, n - 1);
      assert Fill(0xFF, n)[1..] == Fill(0xFF, n - 1);
    }
  }

  lemma {:induction false} Pow256Add(m: nat, n: nat)
    ensures Pow256(m + n) == Pow256(m) * Pow256(n)
  {
    if m > 0 {
      Pow256Add(m - 1, n);
      MulAssoc(256, Pow256(m - 1), Pow256(n));
    }
  }

  lemma BeOfLe(u: nat, n: nat)
    requires u < Pow256(n)
    ensures BeValue(Reversed(Le(u, n))) == u
  {
    BeIsReversedLe(Le(u, n));
    LeUnsigned(u, n);
    ModIs(u, Pow256(n), 0, u);
  }
}
