/** What a sender puts on the wire, a receiver with the same key gets back; what changes on the way is noticed. */
module StandardProtocol {
  import opened Bytes
  import opened InMessages
  import opened OutMessages
  import Adler32
  import XteaCipher

  /** The largest payload whose frame a receiver takes. */
  const MAX_PAYLOAD := 15325

  function BodySize(payload: nat): nat {
    4 + 8 * Blocks(payload + 2)
  }

  lemma SizeLimits(payload: nat)
    ensures BodySize(payload) >= 12
    ensures BodySize(payload) <= MAX_BODY_SIZE - 2 <==> payload <= MAX_PAYLOAD
    ensures BodySize(payload) <= MAX_BODY_SIZE <==> payload <= MAX_PAYLOAD + 8
  {
  }

  /** A fresh message whose buffer starts with what was received of `frame`, over whatever was there before. */
  predicate Holds(c: Cursor, frame: seq<byte>) {
    && c.Standard() && c.pos == 0 && c.size == HEADER_SIZE
    && (if |frame| <= BUFFER_SIZE then c.bytes[..|frame|] == frame else c.bytes == frame[..BUFFER_SIZE])
  }

  /** The message once as much of the frame as it has room for was read over its earlier contents. */
  function Received(frame: seq<byte>, earlier: seq<byte>): (c: Cursor)
    requires |earlier| == BUFFER_SIZE
    ensures Holds(c, frame)
  {
    var n := if |frame| <= BUFFER_SIZE then |frame| else BUFFER_SIZE;
    Cursor(frame[..n] + earlier[n..], 0, HEADER_SIZE)
  }

  lemma EncodedParts(cipher: seq<byte>)
    ensures var n, frame := 4 + |cipher|, Encoded(cipher);
      && |frame| == 2 + n && frame[..2] == Octets(n, 2)
      && frame[2..6] == Octets(Adler32.Checksum(cipher), 4) && frame[6..] == cipher
  {
    var rest := Octets(Adler32.Checksum(cipher), 4) + cipher;
    assert rest[..4] == Octets(Adler32.Checksum(cipher), 4) && rest[4..] == cipher;
  }

  lemma HeaderRead(cipher: seq<byte>, c: Cursor)
    requires Holds(c, Encoded(cipher)) && 4 + |cipher| < 0x1_0000
    ensures var n := 4 + |cipher|;
      HeaderParsed(c) == if n < 8 || n > MAX_BODY_SIZE then PacketException
                         else if 2 + n > MAX_BODY_SIZE then AssertionFails
                         else Done(c.(pos := 2, size := 2 + n))
  {
    EncodedParts(cipher);
    var frame := Encoded(cipher);
    assert c.bytes[..2] == frame[..2];
    SpanValues();
    NumberRead(c, 4 + |cipher|, 2);
  }

  lemma ChecksumAccepted(cipher: seq<byte>, c: Cursor)
    requires Holds(c, Encoded(cipher)) && cipher != [] && 6 + |cipher| <= MAX_BODY_SIZE
    ensures Checked(c.(pos := 2, size := 6 + |cipher|)) == Done(c.(pos := 6, size := 6 + |cipher|))
    ensures c.bytes[6..6 + |cipher|] == cipher
  {
    EncodedParts(cipher);
    var frame, sum := Encoded(cipher), Adler32.Checksum(cipher);
    var d := c.(pos := 2, size := 6 + |cipher|);
    var e := c.(pos := 6, size := 6 + |cipher|);
    assert c.bytes[2..6] == frame[2..6];
    assert e.Rest() == frame[6..];
    SliceOfSlice(c.bytes, 2, d.size, 4);
    SpanValues();
    NumberRead(d, sum, 4);
  }

  lemma EncipheredBack(key: XteaCipher.Xtea, s: seq<byte>)
    ensures XteaCipher.DecryptAll(key, Enciphered(key, s), Blocks(|s|)) == Padded(s)
  {
    XteaCipher.CipherInverts(key, Padded(s), Blocks(|s|));
  }

  /** A receiver that deciphers a frame finds the message and, up to the next whole group, bytes of value 0x33. */
  lemma PaddingLeft(key: XteaCipher.Xtea, s: seq<byte>)
    ensures var p := XteaCipher.DecryptAll(key, Enciphered(key, s), Blocks(|s|));
      && 1 <= |p| - |s| <= 8 && |p| % 8 == 0 && p[..|s|] == s
      && forall i :: |s| <= i < |p| ==> p[i] == 0x33
  {
    EncipheredBack(key, s);
    assert Padded(s)[..|s|] == s;
    forall i | |s| <= i < |Padded(s)| ensures Padded(s)[i] == 0x33 {
      assert Padded(s)[i] == Padding(|s|)[i - |s|];
    }
  }

  lemma PlainLeft(key: XteaCipher.Xtea, s: seq<byte>, c: Cursor, n: nat) returns (d: Cursor)
    requires c.Standard() && n == Blocks(|s|) && c.size - c.pos == 8 * n && c.Rest() == Enciphered(key, s)
    ensures d == Deciphered(key, c, n) && d.Standard() && d.pos == c.pos && d.size == c.size && d.Rest() == Padded(s)
  {
    EncipheredBack(key, s);
    d := Deciphered(key, c, n);
  }

  lemma LengthTaken(d: Cursor, m: nat, e: Cursor)
    requires d.Standard() && TakeNumber(d, 2) == Done((m, e)) && m < 0x1_0000
    ensures e.Standard() && LengthApplied(d) == WithRemaining(e, m)
  {
  }

  lemma {:induction false} PayloadRecovered(key: XteaCipher.Xtea, payload: seq<byte>, c: Cursor)
    requires c.Standard() && c.pos == 6 && c.size == 2 + BodySize(|payload|) <= MAX_BODY_SIZE
    requires c.Rest() == Enciphered(key, Headed(payload))
    ensures Decrypted(key, c).Done? && Decrypted(key, c).value.Rest() == payload
  {
    var n := Blocks(|payload| + 2);
    var d := PlainLeft(key, Headed(payload), c, n);
    assert |c.Rest()| == 8 * n && |c.Rest()| / 8 == n;
    PlainRead(payload, d);
    DecryptedWhole(key, c, d);
    LengthTaken(d, |payload|, d.(pos := 8));
  }

  /** The decrypted length strips the padding. */
  lemma PlainRead(payload: seq<byte>, d: Cursor)
    requires d.Standard() && d.pos == 6 && d.size <= MAX_BODY_SIZE && d.Rest() == Padded(Headed(payload))
    ensures TakeNumber(d, 2) == Done((|payload|, d.(pos := 8)))
    ensures WithRemaining(d.(pos := 8), |payload|).Done?
    ensures WithRemaining(d.(pos := 8), |payload|).value.Rest() == payload
  {
    var plain := Padded(Headed(payload));
    assert plain[..2] == Octets(|payload|, 2);
    SpanValues();
    NumberRead(d, |payload|, 2);
    assert plain[2..][..|payload|] == payload;
    SliceOfSlice(d.bytes, 6, d.size, 2);
    SliceOfSlice(d.bytes, 8, d.size, |payload|);
  }

  /**
   * For every key and payload, and whatever the buffer held before: a receiver with the same key
   * ends up with exactly the payload, or the frame is too large, and which of the two depends on
   * the payload's size alone. Between the two the size check passes and setRemainingSize asserts.
   */
  lemma {:induction false} FrameRoundTrip(key: XteaCipher.Xtea, payload: seq<byte>, earlier: seq<byte>)
    requires |earlier| == BUFFER_SIZE && BodySize(|payload|) < 0x1_0000
    ensures var r := Opened(key, Received(Frame(key, payload), earlier));
      && (r.Done? <==> |payload| <= MAX_PAYLOAD)
      && (r.Done? ==> r.value.Rest() == payload)
      && (r.AssertionFails? <==> MAX_PAYLOAD < |payload| <= MAX_PAYLOAD + 8)
      && (r.PacketException? <==> |payload| > MAX_PAYLOAD + 8)
  {
    FrameOpened(key, payload, Received(Frame(key, payload), earlier));
  }

  lemma FrameOpened(key: XteaCipher.Xtea, payload: seq<byte>, c: Cursor)
    requires Holds(c, Frame(key, payload)) && BodySize(|payload|) < 0x1_0000
    ensures Opened(key, c).Done? <==> |payload| <= MAX_PAYLOAD
    ensures Opened(key, c).Done? ==> Opened(key, c).value.Rest() == payload
    ensures Opened(key, c).AssertionFails? <==> MAX_PAYLOAD < |payload| <= MAX_PAYLOAD + 8
    ensures Opened(key, c).PacketException? <==> |payload| > MAX_PAYLOAD + 8
  {
    var cipher := Enciphered(key, Headed(payload));
    HeaderRead(cipher, c);
    SizeLimits(|payload|);
    if |payload| <= MAX_PAYLOAD {
      ChecksumAccepted(cipher, c);
      PayloadRecovered(key, payload, c.(pos := 6, size := 2 + BodySize(|payload|)));
    }
  }

  // ---------- corruption ----------

  /** The bytes the checksum covers: everything after the four checksum bytes. */
  predicate Covered(c: Cursor, i: nat) {
    c.Standard() && c.pos + 4 <= i < c.size
  }

  lemma CheckedIff(c: Cursor)
    requires c.Standard() && c.pos + 4 < c.size
    ensures Checked(c).Done? <==> Number(c.bytes[c.pos..c.pos + 4]) == Adler32.Checksum(c.bytes[c.pos + 4..c.size])
    ensures !Checked(c).Done? ==> Checked(c).PacketException?
  {
    assert c.Rest()[..4] == c.bytes[c.pos..c.pos + 4];
  }

  /** In an accepted frame, any other value for any byte from the checksum on makes doChecksum throw. */
  lemma OneByteChangeThrows(c: Cursor, i: nat, y: byte)
    requires c.Standard() && c.pos + 4 < c.size && c.pos <= i < c.size && Checked(c).Done? && y != c.bytes[i]
    ensures Checked(c.(bytes := c.bytes[i := y])).PacketException?
  {
    var c' := c.(bytes := c.bytes[i := y]);
    var p := c.pos + 4;
    CheckedIff(c);
    CheckedIff(c');
    if i >= p {
      assert c'.bytes[p..c.size] == c.bytes[p..c.size][i - p := y];
      assert c'.bytes[c.pos..p] == c.bytes[c.pos..p];
      Adler32.OneByteChangeDetected(c.bytes[p..c.size], i - p, y);
    } else {
      assert c'.bytes[p..c.size] == c.bytes[p..c.size];
      var s, s' := c.bytes[c.pos..p], c'.bytes[c.pos..p];
      assert s'[i - c.pos] != s[i - c.pos];
      DifferentNumbers(s, s');
    }
  }

  lemma SwapWithin(s: seq<byte>, from: nat, p: nat, to: nat, i: nat, j: nat)
    requires from <= p <= i < j < to <= |s|
    ensures var t := s[i := s[j]][j := s[i]]; var d := s[p..to];
      t[p..to] == d[i - p := d[j - p]][j - p := d[i - p]] && t[from..p] == s[from..p]
  {
  }

  /** In an accepted frame, swapping two covered bytes makes doChecksum throw unless they are equal. */
  lemma SwapThrows(c: Cursor, i: nat, j: nat)
    requires Covered(c, i) && Covered(c, j) && i < j && Checked(c).Done?
    ensures var s := c.(bytes := c.bytes[i := c.bytes[j]][j := c.bytes[i]]);
      if c.bytes[i] == c.bytes[j] then Checked(s).Done? else Checked(s).PacketException?
  {
    var c' := c.(bytes := c.bytes[i := c.bytes[j]][j := c.bytes[i]]);
    var p := c.pos + 4;
    var d := c.bytes[p..c.size];
    CheckedIff(c);
    CheckedIff(c');
    SwapWithin(c.bytes, c.pos, p, c.size, i, j);
    Adler32.NearbySwapDetected(d, i - p, j - p);
  }
}
