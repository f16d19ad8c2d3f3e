/** The Adler-32 checksum of crypto.cpp: its fast loop, and what RFC 1950 says it must return. */
module Adler32 {
  import opened Bytes

  const BASE := 65521
  const BLOCK := 5552

  newtype uint32 = x: int | 0 <= x < 0x1_0000_0000

  /** `x` modulo BASE, the largest prime below 2^16. */
  function Reduce(x: int): (r: nat)
    ensures r < BASE
  {
    x % 65521
  }

  // ---------- section 2.2 of RFC 1950 ----------

  /** 1 plus the first `n` bytes, modulo 65521. */
  function S1(d: seq<byte>, n: nat): (s: nat)
    requires n <= |d|
    ensures s < BASE
  {
    if n == 0 then 1 else Reduce(S1(d, n - 1) + d[n - 1])
  }

  /** The sum of all the s1 values up to byte `n`, modulo 65521. */
  function S2(d: seq<byte>, n: nat): (s: nat)
    requires n <= |d|
    ensures s < BASE
  {
    if n == 0 then 0 else Reduce(S2(d, n - 1) + S1(d, n))
  }

  function Checksum(d: seq<byte>): (sum: nat)
    ensures sum < 0x1_0000_0000
  {
    S2(d, |d|) * 0x1_0000 + S1(d, |d|)
  }

  lemma AddMod(a: int, s: int, x: int)
    requires Reduce(a) == Reduce(s)
    ensures Reduce(a + x) == Reduce(s + x)
  {
  }

  lemma ReduceTwice(x: int)
    ensures Reduce(Reduce(x)) == Reduce(x)
  {
  }

  // ---------- the deferred sums and how large they get ----------

  /** `a` after adding the first `n` bytes with no reduction. */
  function RawA(d: seq<byte>, n: nat, a: nat): (r: nat)
    requires n <= |d|
    ensures r <= a + 255 * n
  {
    if n == 0 then a else RawA(d, n - 1, a) + d[n - 1]
  }

  /** `b` after the first `n` bytes with no reduction. */
  function RawB(d: seq<byte>, n: nat, a: nat, b: nat): nat
    requires n <= |d|
  {
    if n == 0 then b else RawB(d, n - 1, a, b) + RawA(d, n, a)
  }

  /** The largest `b` that `n` bytes can produce from reduced sums. */
  function Worst(n: nat): nat {
    if n == 0 then BASE - 1 else Worst(n - 1) + (BASE - 1) + 255 * n
  }

  /** The bound the block length was chosen by. */
  lemma {:induction false} WorstClosedForm(n: nat)
    ensures Worst(n) == 255 * (n * (n + 1) / 2) + (n + 1) * (BASE - 1)
  {
    if n > 0 {
      WorstClosedForm(n - 1);
      Triangle(n);
    }
  }

  lemma BlockBounds()
    ensures Worst(5552) == 4294690200 && Worst(5553) == 4296171735
  {
    WorstClosedForm(5552);
    WorstClosedForm(5553);
  }

  lemma Triangle(n: nat)
    requires n > 0
    ensures n * (n + 1) / 2 == (n - 1) * n / 2 + n
  {
    assert n * (n + 1) == (n - 1) * n + 2 * n;
  }

  lemma {:induction false} WorstMonotone(m: nat, n: nat)
    requires m <= n
    ensures Worst(m) <= Worst(n)
    decreases n
  {
    if m < n {
      WorstMonotone(m, n - 1);
    }
  }

  lemma {:induction false} RawBBound(d: seq<byte>, n: nat, a: nat, b: nat)
    requires n <= |d| && a < BASE && b < BASE
    ensures RawB(d, n, a, b) <= Worst(n)
  {
    if n > 0 {
      RawBBound(d, n - 1, a, b);
    }
  }

  lemma {:induction false} RawBReached(d: seq<byte>, n: nat)
    requires n <= |d| && forall i :: 0 <= i < |d| ==> d[i] == 0xFF
    ensures RawA(d, n, BASE - 1) == BASE - 1 + 255 * n
    ensures RawB(d, n, BASE - 1, BASE - 1) == Worst(n)
  {
    if n > 0 {
      RawBReached(d, n - 1);
    }
  }

  /** No block of `n` bytes makes either sum leave 32 bits, whatever reduced sums it starts from. */
  ghost predicate BlockFits(n: nat) {
    forall d: seq<byte>, a: nat, b: nat :: |d| == n && a < BASE && b < BASE ==> SumsFit(d, a, b)
  }

  predicate SumsFit(d: seq<byte>, a: nat, b: nat) {
    RawA(d, |d|, a) < 0x1_0000_0000 && RawB(d, |d|, a, b) < 0x1_0000_0000
  }

  /** 5552 is exactly the largest block length for which deferring the modulo is safe. */
  lemma BlockLengthIsLargest(n: nat)
    ensures BlockFits(n) <==> n <= BLOCK
  {
    BlockBounds();
    if n <= BLOCK {
      forall d: seq<byte>, a: nat, b: nat | |d| == n && a < BASE && b < BASE
        ensures SumsFit(d, a, b)
      {
        RawBBound(d, n, a, b);
        WorstMonotone(n, BLOCK);
      }

    } else {
      var d: seq<byte> := seq(n, _ => 0xFF);
      RawBReached(d, n);
      WorstMonotone(BLOCK + 1, n);
      assert !SumsFit(d, BASE - 1, BASE - 1);
    }
  }

  // ---------- the loop ----------

  /** What the running sums mean after `n` bytes, `m` of them since the last reduction. */
  ghost predicate Tracks(d: seq<byte>, n: nat, m: nat, a: uint32, b: uint32) {
    && n <= |d|
    && Reduce(a as int) == S1(d, n) && Reduce(b as int) == S2(d, n)
    && a as int <= BASE - 1 + 255 * m && b as int <= Worst(m)
  }

  /** The statement pair `a += *data++; b += a;`. */
  method Absorb(data: array<byte>, start: nat, ghost d: seq<byte>, ghost from: nat, p: nat, a: uint32, b: uint32)
    returns (a': uint32, b': uint32, p': nat)
    requires start + |d| <= data.Length && d == data[start..start + |d|]
    requires from <= p < |d| && p - from < BLOCK && Tracks(d, p, p - from, a, b)
    ensures p' == p + 1 && Tracks(d, p', p' - from, a', b')
  {
    var x := data[start + p];
    assert x == d[p];
    WorstMonotone(p + 1 - from, BLOCK);
    BlockBounds();
    a' := a + x as uint32;
    b' := b + a';
    p' := p + 1;
    ReduceTwice(a as int);
    ReduceTwice(b as int);
    ReduceTwice(a' as int);
    AddMod(a as int, S1(d, p), x);
    AddMod(b as int, S2(d, p), a' as int);
    AddMod(a' as int, S1(d, p'), S2(d, p));
  }

  lemma Reduced(d: seq<byte>, n: nat, m: nat, a: uint32, b: uint32)
    requires Tracks(d, n, m, a, b)
    ensures Tracks(d, n, 0, a % 65521, b % 65521)
  {
    assert (a % 65521) as int == Reduce(a as int);
    assert (b % 65521) as int == Reduce(b as int);
  }

  /** `(b << 16) | a`: the halves share no bit, so the disjunction is a sum. */
  function Join(a: uint32, b: uint32): (r: uint32)
    requires a < 0x1_0000 && b < 0x1_0000
    ensures r as int == b as int * 0x1_0000 + a as int
  {
    b * 0x1_0000 + a
  }

  /** `len` is the C++ int32_t; a negative one never enters the loop. */
  method Compute(data: array<byte>, start: nat, len: int) returns (sum: uint32)
    requires len != 0 && start + len <= data.Length
    ensures len > 0 ==> sum as nat == Checksum(data[start..start + len])
    ensures len < 0 ==> sum == 1
  {
    ghost var d := if len > 0 then data[start..start + len] else [];
    var a: uint32, b: uint32, p, left := 1, 0, 0, len;
    while left > 0
      invariant len < 0 ==> left == len && a == 1 && b == 0
      invariant len > 0 ==> 0 <= left && p + left == |d| && Tracks(d, p, 0, a, b)
      invariant len > 0 ==> d == data[start..start + |d|]
    {
      var k := if left > BLOCK then BLOCK else left;
      left := left - k;
      a, b, p := Block(data, start, d, p, a, b, k);
      Reduced(d, p, k, a, b);
      a, b := a % 65521, b % 65521;
    }
    sum := Join(a, b);
  }

  /** One block: sixteen bytes a turn, then the rest one by one. */
  method Block(data: array<byte>, start: nat, ghost d: seq<byte>, from: nat, a0: uint32, b0: uint32, count: nat)
    returns (a: uint32, b: uint32, p: nat)
    requires from + count <= |d| && start + |d| <= data.Length && d == data[start..start + |d|]
    requires count <= BLOCK && Tracks(d, from, 0, a0, b0)
    ensures p == from + count && Tracks(d, p, count, a, b)
  {
    a, b, p := a0, b0, from;
    var k := count;
    while k >= 16
      invariant p - from + k == count && Tracks(d, p, p - from, a, b)
    {
      a, b, p := Absorb(data, start, d, from, p, a, b);
      a, b, p := Absorb(data, start, d, from, p, a, b);
      a, b, p := Absorb(data, start, d, from, p, a, b);
      a, b, p := Absorb(data, start, d, from, p, a, b);
      a, b, p := Absorb(data, start, d, from, p, a, b);
      a, b, p := Absorb(data, start, d, from, p, a, b);
      a, b, p := Absorb(data, start, d, from, p, a, b);
      a, b, p := Absorb(data, start, d, from, p, a, b);
      a, b, p := Absorb(data, start, d, from, p, a, b);
      a, b, p := Absorb(data, start, d, from, p, a, b);
      a, b, p := Absorb(data, start, d, from, p, a, b);
      a, b, p := Absorb(data, start, d, from, p, a, b);
      a, b, p := Absorb(data, start, d, from, p, a, b);
      a, b, p := Absorb(data, start, d, from, p, a, b);
      a, b, p := Absorb(data, start, d, from, p, a, b);
      a, b, p := Absorb(data, start, d, from, p, a, b);
      k := k - 16;
    }
    while k != 0
      invariant 0 <= k && p - from + k == count && Tracks(d, p, p - from, a, b)
    {
      a, b, p := Absorb(data, start, d, from, p, a, b);
      k := k - 1;
    }
  }

  // ---------- what a checksum notices ----------

  /** Plain sum of the first `n` bytes. */
  function Total(d: seq<byte>, n: nat): nat
    requires n <= |d|
  {
    if n == 0 then 0 else Total(d, n - 1) + d[n - 1]
  }

  /** Sum of the first `n` bytes, each weighted by its distance from the end of the prefix. */
  function Weighted(d: seq<byte>, n: nat): nat
    requires n <= |d|
  {
    if n == 0 then 0 else Weighted(d, n - 1) + Total(d, n)
  }

  /** The closed forms of both sums. */
  lemma {:induction false} ClosedForms(d: seq<byte>, n: nat)
    requires n <= |d|
    ensures S1(d, n) == Reduce(1 + Total(d, n))
    ensures S2(d, n) == Reduce(n + Weighted(d, n))
  {
    if n > 0 {
      ClosedForms(d, n - 1);
      ReduceTwice(1 + Total(d, n - 1));
      ReduceTwice(n - 1 + Weighted(d, n - 1));
      ReduceTwice(1 + Total(d, n));
      AddMod(S1(d, n - 1), 1 + Total(d, n - 1), d[n - 1]);
      AddMod(S2(d, n - 1), n - 1 + Weighted(d, n - 1), S1(d, n));
      AddMod(S1(d, n), 1 + Total(d, n), n - 1 + Weighted(d, n - 1));
    }
  }

  /** What replacing byte `k` does to both unreduced sums. */
  lemma {:induction false} ReplaceByte(d: seq<byte>, k: nat, y: byte, n: nat)
    requires k < |d| && n <= |d|
    ensures var d' := d[k := y]; var delta := y as int - d[k] as int;
      if n <= k then Total(d', n) == Total(d, n) && Weighted(d', n) == Weighted(d, n)
      else Total(d', n) == Total(d, n) + delta && Weighted(d', n) == Weighted(d, n) + (n - k) * delta
  {
    if n > 0 {
      ReplaceByte(d, k, y, n - 1);
      if n > k {
        var delta := y as int - d[k] as int;
        assert (n - k) * delta == (n - 1 - k) * delta + delta;
      }
    }
  }

  lemma CongruentIffMultiple(x: int, y: int)
    ensures Reduce(x) == Reduce(y) <==> Reduce(x - y) == 0
  {
  }

  lemma {:induction false} NoDivisorBelow64(c: nat)
    requires 2 <= c < 64
    ensures BASE % c != 0
  {
    var q := BASE / c;
    assert q * c + BASE % c == BASE;
  }

  lemma {:induction false} NoDivisorBelow128(c: nat)
    requires 64 <= c < 128
    ensures BASE % c != 0
  {
    var q := BASE / c;
    assert q * c + BASE % c == BASE;
  }

  lemma {:induction false} NoDivisorBelow256(c: nat)
    requires 128 <= c < 256
    ensures BASE % c != 0
  {
    var q := BASE / c;
    assert q * c + BASE % c == BASE;
  }

  lemma NoSmallDivisor(c: nat)
    requires 2 <= c < 256
    ensures BASE % c != 0
  {
    if c < 64 { NoDivisorBelow64(c); } else if c < 128 { NoDivisorBelow128(c); } else { NoDivisorBelow256(c); }
  }

  /** 65521 is prime. */
  lemma {:induction false} ModulusIsPrime(c: nat)
    requires 2 <= c < BASE
    ensures BASE % c != 0
  {
    if c < 256 {
      NoSmallDivisor(c);
    } else if BASE % c == 0 {
      var q := BASE / c;
      assert q * c == BASE;
      assert 2 <= q < 256 by {
        assert q >= 256 ==> q * c >= 256 * c;
        assert q <= 1 ==> q * c <= c;
      }
      assert BASE % q == 0 by { ModUnique(BASE, q, c, 0); }
      NoSmallDivisor(q);
    }
  }

  /** The modulus divides a product with a byte-sized factor only by dividing the other factor. */
  lemma {:induction false} PrimeFactor(k: int, c: nat)
    requires 0 < c < 256 && Reduce(k * c) == 0
    ensures Reduce(k) == 0
    decreases c
  {
    if c > 1 {
      var q, r := BASE / c, BASE % c;
      ModulusIsPrime(c);
      var t := (k * c) / BASE;
      assert k * c == t * BASE;
      assert k * r == k * BASE - q * (k * c) by { assert r == BASE - q * c; assert k * (q * c) == q * (k * c); }
      assert k * r == BASE * (k - q * t) by { assert q * (t * BASE) == (q * t) * BASE; }
      MultipleOfBase(k - q * t);
      PrimeFactor(k, r);
    }
  }

  lemma MultipleOfBase(t: int)
    ensures Reduce(BASE * t) == 0
  {
  }

  lemma ProductVanishes(k: int, delta: int)
    requires -256 < delta < 256 && delta != 0
    ensures Reduce(k * delta) == 0 <==> Reduce(k) == 0
  {
    if Reduce(k * delta) == 0 {
      if delta > 0 { PrimeFactor(k, delta); } else { NegatedProduct(k, delta); PrimeFactor(k, -delta); }
    }
    if Reduce(k) == 0 { MultipleTimes(k, delta); }
  }

  lemma NegatedProduct(k: int, delta: int)
    ensures Reduce(k * -delta) == 0 <==> Reduce(k * delta) == 0
  {
    var x := k * delta;
    assert k * -delta == -x;
  }

  lemma MultipleTimes(k: int, delta: int)
    requires Reduce(k) == 0
    ensures Reduce(k * delta) == 0
  {
    var t := k / 65521;
    assert k == 65521 * t;
    assert k * delta == 65521 * (t * delta);
    MultipleOfBase(t * delta);
  }

  lemma SmallMultiple(t: int)
    requires -256 < t < 256
    ensures Reduce(t) == 0 <==> t == 0
  {
  }

  lemma ChecksumEqualIff(d: seq<byte>, e: seq<byte>)
    requires |d| == |e|
    ensures Checksum(d) == Checksum(e) <==> S1(d, |d|) == S1(e, |e|) && S2(d, |d|) == S2(e, |e|)
  {
  }

  /** Changing any one byte always changes the checksum. */
  lemma OneByteChangeDetected(d: seq<byte>, k: nat, y: byte)
    requires k < |d|
    ensures Checksum(d[k := y]) == Checksum(d) <==> y == d[k]
  {
    if y != d[k] {
      ReplaceByte(d, k, y, |d|);
      ClosedForms(d, |d|);
      ClosedForms(d[k := y], |d|);
      CongruentIffMultiple(1 + Total(d[k := y], |d|), 1 + Total(d, |d|));
      SmallMultiple(y - d[k]);
      ChecksumEqualIff(d[k := y], d);
    } else {
      assert d[k := y] == d;
    }
  }

  lemma SwapWeights(n: int, i: int, j: int, delta: int)
    ensures (n - i) * delta + (n - j) * -delta == (j - i) * delta
  {
    assert (n - j) * -delta == -((n - j) * delta);
    assert (n - i) * delta == (n - j) * delta + (j - i) * delta;
  }

  /** Swapping two unequal bytes goes unnoticed exactly when their distance is a multiple of 65521. */
  lemma SwapDetected(d: seq<byte>, i: nat, j: nat)
    requires i < j < |d|
    ensures Checksum(d[i := d[j]][j := d[i]]) == Checksum(d) <==> d[i] == d[j] || Reduce(j - i) == 0
  {
    var n := |d|;
    var d1 := d[i := d[j]];
    var d2 := d1[j := d[i]];
    var delta := d[j] as int - d[i] as int;
    ReplaceByte(d, i, d[j], n);
    ReplaceByte(d1, j, d[i], n);
    assert Total(d2, n) == Total(d, n);
    SwapWeights(n, i, j, delta);
    assert Weighted(d2, n) - Weighted(d, n) == (j - i) * delta;
    ClosedForms(d, n);
    ClosedForms(d2, n);
    CongruentIffMultiple(n + Weighted(d2, n), n + Weighted(d, n));
    ChecksumEqualIff(d2, d);
    if d[i] == d[j] {
      assert d2 == d;
    } else {
      ProductVanishes(j - i, delta);
    }
  }

  /** Closer than the modulus, two unequal bytes cannot trade places unnoticed. */
  lemma NearbySwapDetected(d: seq<byte>, i: nat, j: nat)
    requires i < j < |d| && j - i < BASE
    ensures Checksum(d[i := d[j]][j := d[i]]) == Checksum(d) <==> d[i] == d[j]
  {
    SwapDetected(d, i, j);
  }
}
