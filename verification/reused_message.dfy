/**
 * What the read loop does as it is written: every frame is read into one message, whose cursor stays
 * where the last handler left it.
 */
module ReusedMessages {
  import opened Bytes
  import opened InMessages
  import Adler32

  /** The next header is read into the buffer's front. */
  function NextHeader(c: Cursor, header: seq<byte>): (d: Cursor)
    requires c.Standard() && |header| == HEADER_SIZE
    ensures d.Standard()
  {
    c.(bytes := header + c.bytes[HEADER_SIZE..])
  }

  /** The body is read behind the header. */
  function WithBody(c: Cursor, body: seq<byte>): (d: Cursor)
    requires c.Standard() && HEADER_SIZE + |body| <= BUFFER_SIZE
    ensures d.Standard() && d.bytes[HEADER_SIZE..HEADER_SIZE + |body|] == body
  {
    c.(bytes := c.bytes[..HEADER_SIZE] + body + c.bytes[HEADER_SIZE + |body|..])
  }

  // ---------- one header ----------

  /** The header is accepted and as many bytes as it announces will be read. */
  predicate AsManyAsAnnounced(r: Outcome<Cursor>, header: seq<byte>) {
    r.Done? && r.value.size == HEADER_SIZE + Number(header)
  }

  /** Besides, the cursor is at the first byte of the body, where the handler must find it. */
  predicate HandedOver(r: Outcome<Cursor>, header: seq<byte>) {
    AsManyAsAnnounced(r, header) && r.value.pos == HEADER_SIZE
  }

  lemma FrontRead(c: Cursor, header: seq<byte>)
    requires c.Standard() && |header| == HEADER_SIZE
    ensures var d := NextHeader(c, header);
      && (c.pos == 0 && c.size >= HEADER_SIZE ==> |d.Rest()| >= 2 && d.Rest()[..2] == header)
      && (c.pos >= HEADER_SIZE ==> d.Rest() == c.Rest())
  {
    var d := NextHeader(c, header);
    if c.pos == 0 && c.size >= HEADER_SIZE {
      assert d.Rest()[..2] == d.bytes[..2] == header;
    }
  }

  /** A header hands its frame over exactly when the cursor is at the front and the length is one a body can have. */
  lemma HandedOverIff(c: Cursor, header: seq<byte>)
    requires c.Standard() && c.size >= HEADER_SIZE && |header| == HEADER_SIZE
    ensures HandedOver(HeaderParsed(NextHeader(c, header)), header)
      <==> c.pos == 0 && 8 <= Number(header) <= MAX_BODY_SIZE - HEADER_SIZE
  {
    FrontRead(c, header);
    HeaderParsedIff(NextHeader(c, header));
  }

  /**
   * Past the header the length is taken from what the last handler left unread, not from the header: as many
   * bytes are read as announced exactly when those bytes happen to hold a length that ends where it should.
   */
  lemma LaterHeaderIff(c: Cursor, header: seq<byte>)
    requires c.Standard() && c.pos >= HEADER_SIZE && |header| == HEADER_SIZE
    ensures var r, n := HeaderParsed(NextHeader(c, header)), if |c.Rest()| >= 2 then Number(c.Rest()[..2]) else 0;
      && (r.Done? <==> |c.Rest()| >= 2 && 8 <= n && c.pos + 2 + n <= MAX_BODY_SIZE)
      && (AsManyAsAnnounced(r, header) <==> r.Done? && c.pos + n == Number(header))
      && (r.Done? ==> r.value.pos == c.pos + 2)
      && (|c.Rest()| < 2 ==> r.PacketException?)
  {
    FrontRead(c, header);
    HeaderParsedIff(NextHeader(c, header));
  }

  /** After any first frame that was checked and read to the end, or but for one byte, every next header throws. */
  lemma SecondFrameThrows(c: Cursor, body: seq<byte>, left: Cursor, header: seq<byte>)
    requires c.Standard() && |header| == HEADER_SIZE && HeaderParsed(c).Done?
    requires |body| == HeaderParsed(c).value.size - HEADER_SIZE
    requires Checked(WithBody(HeaderParsed(c).value, body)).Done?
    requires left.Standard() && left.pos >= Checked(WithBody(HeaderParsed(c).value, body)).value.pos && |left.Rest()| < 2
    ensures HeaderParsed(NextHeader(left, header)).PacketException?
  {
    HeaderParsedIff(c);
    LaterHeaderIff(left, header);
  }

  // ---------- a frame that is refused ----------

  function Zeros(n: nat): (s: seq<byte>)
    ensures |s| == n && forall i :: 0 <= i < n ==> s[i] == 0
  {
    seq(n, _ => 0)
  }

  lemma {:induction false} SumsOfZeros(d: seq<byte>, n: nat)
    requires n <= |d| < Adler32.BASE && forall i :: 0 <= i < |d| ==> d[i] == 0
    ensures Adler32.S1(d, n) == 1 && Adler32.S2(d, n) == n
  {
    if n > 0 {
      SumsOfZeros(d, n - 1);
    }
  }

  const LENGTH: seq<byte> := [28, 0]

  /** A checksum, and the 24 zeros that it is the checksum of. */
  function RefusedBody(): (s: seq<byte>)
    ensures |s| == 28
  {
    [1, 0, 24, 0] + Zeros(24)
  }

  lemma CheckedAt(c: Cursor, given: nat, zeros: nat)
    requires c.Standard() && c.size == c.pos + 4 + zeros && 0 < zeros
    requires Number(c.bytes[c.pos..c.pos + 4]) == given
    requires forall i :: c.pos + 4 <= i < c.size ==> c.bytes[i] == 0
    ensures Checked(c).Done? <==> given == zeros * 0x1_0000 + 1
    ensures !Checked(c).Done? ==> Checked(c).PacketException?
  {
    var d := c.bytes[c.pos + 4..c.size];
    SumsOfZeros(d, |d|);
    assert c.(pos := c.pos + 4).Rest() == d;
  }

  /**
   * A handler that left the bytes 20 and 0 unread at 8: as many bytes are read as the next header announces and
   * they are what was sent, but the checksum is looked for eight bytes further on. A fresh message takes them.
   */
  lemma WholeFrameRefused(c: Cursor)
    requires c.Standard() && c.pos == 8 && c.size == 10 && c.bytes[8..10] == [20, 0]
    ensures var r := HeaderParsed(NextHeader(c, LENGTH));
      AsManyAsAnnounced(r, LENGTH) && Checked(WithBody(r.value, RefusedBody())).PacketException?
    ensures var r := HeaderParsed(NextHeader(c.(pos := 0, size := HEADER_SIZE), LENGTH));
      HandedOver(r, LENGTH) && Checked(WithBody(r.value, RefusedBody())).Done?
  {
    var anew := c.(pos := 0, size := HEADER_SIZE);
    LengthsRead();
    assert c.Rest()[..2] == [20, 0];
    LaterHeaderIff(c, LENGTH);
    HandedOverIff(anew, LENGTH);
    var stale, first := HeaderParsed(NextHeader(c, LENGTH)).value, HeaderParsed(NextHeader(anew, LENGTH)).value;
    BodyRefused(WithBody(stale, RefusedBody()));
    BodyAccepted(WithBody(first, RefusedBody()));
  }

  lemma LengthsRead()
    ensures Number(LENGTH) == 28 && Number([20, 0]) == 20
    ensures Number([1, 0, 24, 0]) == 24 * 0x1_0000 + 1 && Number([0, 0, 0, 0]) == 0
  {
    assert Number([0]) == 0 && Number([24, 0]) == 24 && Number([0, 24, 0]) == 24 * 256;
    assert [28, 0][1..] == [0] && [20, 0][1..] == [0] && [24, 0][1..] == [0];
    assert [0, 24, 0][1..] == [24, 0] && [1, 0, 24, 0][1..] == [0, 24, 0];
    assert [0, 0, 0, 0][1..] == [0, 0, 0] && [0, 0, 0][1..] == [0, 0] && [0, 0][1..] == [0];
  }

  lemma BodyRefused(c: Cursor)
    requires c.Standard() && c.pos == 10 && c.size == 30 && c.bytes[2..30] == RefusedBody()
    ensures Checked(c).PacketException?
  {
    assert forall i :: 6 <= i < 30 ==> c.bytes[i] == RefusedBody()[i - 2];
    assert c.bytes[10..14] == [0, 0, 0, 0];
    LengthsRead();
    CheckedAt(c, 0, 16);
  }

  lemma BodyAccepted(c: Cursor)
    requires c.Standard() && c.pos == 2 && c.size == 30 && c.bytes[2..30] == RefusedBody()
    ensures Checked(c).Done?
  {
    assert forall i :: 2 <= i < 30 ==> c.bytes[i] == RefusedBody()[i - 2];
    assert c.bytes[2..6] == [1, 0, 24, 0];
    LengthsRead();
    CheckedAt(c, 24 * 0x1_0000 + 1, 24);
  }

  // ---------- every run of the loop ----------

  /** A header, the body that was read after it, and the message as the handler left it. */
  datatype Round = Round(header: seq<byte>, body: seq<byte>, left: Cursor)

  /** What the handler of a round is given. */
  function Given(c: Cursor, r: Round): Outcome<Cursor>
    requires c.Standard() && |r.header| == HEADER_SIZE
  {
    var d :- HeaderParsed(NextHeader(c, r.header));
    if HEADER_SIZE + |r.body| == d.size then Done(WithBody(d, r.body)) else PacketException
  }

  /** Where the cursor is when a round begins. */
  function Before(c: Cursor, rounds: seq<Round>, k: nat): Cursor
    requires k <= |rounds|
  {
    if k == 0 then c else rounds[k - 1].left
  }

  /** Every header is accepted and every handler takes bytes from where it was and changes what it likes. */
  ghost predicate Plays(c: Cursor, rounds: seq<Round>) {
    forall k :: 0 <= k < |rounds| ==> RoundPlays(Before(c, rounds, k), rounds[k])
  }

  ghost predicate RoundPlays(c: Cursor, r: Round) {
    && c.Standard() && |r.header| == HEADER_SIZE && Given(c, r).Done?
    && r.left.Standard() && r.left.pos >= Given(c, r).value.pos && r.left.size >= HEADER_SIZE
  }

  /** In every run from a new message exactly the first frame is handed over. */
  lemma OnlyFirstHandedOver(c: Cursor, rounds: seq<Round>, k: nat)
    requires c.Standard() && c.pos == 0 && c.size == HEADER_SIZE && Plays(c, rounds) && k < |rounds|
    ensures HandedOver(Given(Before(c, rounds, k), rounds[k]), rounds[k].header) <==> k == 0
    ensures Given(Before(c, rounds, k), rounds[k]).value.pos >= (if k == 0 then 2 else 4)
  {
    var b := Before(c, rounds, k);
    assert RoundPlays(b, rounds[k]);
    if k > 0 {
      var a := Before(c, rounds, k - 1);
      assert RoundPlays(a, rounds[k - 1]);
      HeaderParsedIff(NextHeader(a, rounds[k - 1].header));
    }
    HandedOverIff(b, rounds[k].header);
    FrontRead(b, rounds[k].header);
    HeaderParsedIff(NextHeader(b, rounds[k].header));
  }
}
