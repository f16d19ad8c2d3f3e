/** Octets and the little-endian numbers that the messages store among them. */
module Bytes {

  type byte = x: int | 0 <= x < 256

  datatype Option<+T> = None | Some(value: T)

  /** 256 to the given power: how many values fit in `width` bytes. */
  function Span(width: nat): (span: nat)
    ensures span > 0
  {
    if width == 0 then 1 else 256 * Span(width - 1)
  }

  /** The number whose little-endian representation is `s`. */
  function Number(s: seq<byte>): nat {
    if s == [] then 0 else s[0] + 256 * Number(s[1..])
  }

  lemma {:induction false} NumberBelow(s: seq<byte>)
    ensures Number(s) < Span(|s|)
  {
    if s != [] {
      NumberBelow(s[1..]);
    }
  }

  /** Byte `i` of `n`, counting from the least significant. */
  function Digit(n: nat, i: nat): byte
    decreases i, n
  {
    if i == 0 then n % 256 else Digit(n / 256, i - 1)
  }

  /** The low `width` bytes of `n`, least significant first; higher bytes are cut off, as a C++ cast does. */
  function Octets(n: nat, width: nat): (s: seq<byte>)
    ensures |s| == width
  {
    seq(width, i requires 0 <= i < width => Digit(n, i))
  }

  lemma OctetsTail(n: nat, width: nat)
    requires width > 0
    ensures Octets(n, width) == [n % 256] + Octets(n / 256, width - 1)
  {
    assert Digit(n, 0) == n % 256;
  }

  lemma ModSplit(n: nat, span: nat)
    requires span > 0
    ensures n % (256 * span) == n % 256 + 256 * ((n / 256) % span)
  {
    var q, r := (n / 256) / span, (n / 256) % span;
    assert n / 256 == q * span + r;
    assert n == 256 * (q * span + r) + n % 256;
    var rest := n % 256 + 256 * r;
    assert n == (256 * span) * q + rest;
    assert 256 * r <= 256 * (span - 1);
    ModUnique(n, 256 * span, q, rest);
  }

  lemma ModUnique(n: nat, m: nat, q: int, r: nat)
    requires n == m * q + r && r < m
    ensures n % m == r
  {
    var d := n / m - q;
    assert m * d == r - n % m by { assert n == m * (n / m) + n % m; }
    assert d >= 1 ==> m * d >= m;
    assert d <= -1 ==> m * d <= m * -1;
  }

  /** Storing a number in `width` bytes keeps it modulo 256^width. */
  lemma {:induction false} NumberOfOctets(n: nat, width: nat)
    ensures Number(Octets(n, width)) == n % Span(width)
  {
    if width > 0 {
      OctetsTail(n, width);
      NumberOfOctets(n / 256, width - 1);
      assert Octets(n, width)[1..] == Octets(n / 256, width - 1);
      ModSplit(n, Span(width - 1));
    }
  }

  /** A number that fits is read back as it was. */
  lemma StoredNumber(n: nat, width: nat)
    requires n < Span(width)
    ensures Number(Octets(n, width)) == n
  {
    NumberOfOctets(n, width);
    ModUnique(n, Span(width), 0, n);
  }

  lemma SplitLowByte(low: nat, high: nat)
    requires low < 256
    ensures (low + 256 * high) % 256 == low && (low + 256 * high) / 256 == high
  {
  }

  /** Reading bytes as a number loses nothing. */
  lemma {:induction false} OctetsOfNumber(s: seq<byte>)
    ensures Octets(Number(s), |s|) == s
  {
    if s != [] {
      OctetsOfNumber(s[1..]);
      OctetsTail(Number(s), |s|);
      SplitLowByte(s[0], Number(s[1..]));
      assert s == [s[0]] + s[1..];
    }
  }

  lemma DifferentNumbers(s: seq<byte>, t: seq<byte>)
    requires |s| == |t| && s != t
    ensures Number(s) != Number(t)
  {
    OctetsOfNumber(s);
    OctetsOfNumber(t);
  }

  lemma DivTwice(n: nat, span: nat)
    requires span > 0
    ensures (n / 256) / span == n / (256 * span)
  {
    var q, r := (n / 256) / span, (n / 256) % span;
    assert n / 256 == q * span + r;
    var rest := n % 256 + 256 * r;
    assert n == 256 * (q * span + r) + n % 256;
    assert n == (256 * span) * q + rest;
    assert 256 * r <= 256 * (span - 1);
    ModUnique(n, 256 * span, q, rest);
    Cancel(256 * span, q, n / (256 * span));
  }

  lemma Cancel(m: nat, p: int, q: int)
    requires m > 0 && m * p == m * q
    ensures p == q
  {
    var d := p - q;
    assert m * d == m * p - m * q;
    assert d >= 1 ==> m * d >= m;
    assert d <= -1 ==> m * d <= m * -1;
  }

  /** Byte `i` in memory is the digit of weight 256^i: the least significant comes first. */
  lemma {:induction false} OctetAt(n: nat, width: nat, i: nat)
    requires i < width
    ensures Octets(n, width)[i] == n / Span(i) % 256
    decreases i
  {
    if i > 0 {
      OctetAt(n / 256, width, i - 1);
      DivTwice(n, Span(i - 1));
    }
  }

  lemma SpanValues()
    ensures Span(1) == 0x100 && Span(2) == 0x1_0000
    ensures Span(4) == 0x1_0000_0000 && Span(8) == 0x1_0000_0000_0000_0000
  {
    assert Span(3) == 0x100_0000;
    assert Span(4) == 0x1_0000_0000;
    assert Span(5) == 0x100_0000_0000;
    assert Span(6) == 0x1_0000_0000_0000;
    assert Span(7) == 0x100_0000_0000_0000;
  }
}
