/** Incoming messages: a fixed buffer, of any size for the basic message, read through a cursor. */
module InMessages {
  import opened Bytes
  import Adler32
  import XteaCipher

  const HEADER_SIZE := 2
  const MAX_BODY_SIZE := 15340
  const BUFFER_SIZE := 15342

  /** Sizes are 32-bit unsigned; a buffer this large leaves room to count one length of 16 bits past its end. */
  const MAX_CAPACITY := 0xFFFF_0000

  /** How a call ends: normally, by throwing PacketException, or at a failing assert. */
  datatype Outcome<+T> = Done(value: T) | PacketException | AssertionFails {
    predicate IsFailure() {
      !Done?
    }

    function PropagateFailure<U>(): Outcome<U>
      requires IsFailure()
    {
      if PacketException? then PacketException else AssertionFails
    }

    function Extract(): T
      requires Done?
    {
      value
    }
  }

  // ---------- the cursor as a value ----------

  /** The buffer, header and largest body together, the read position and the end of the message. */
  datatype Cursor = Cursor(bytes: seq<byte>, pos: nat, size: nat) {
    predicate Valid() {
      pos <= size <= |bytes| <= MAX_CAPACITY && HEADER_SIZE <= |bytes|
    }

    /** A StandardInMessage. */
    predicate Standard() {
      Valid() && |bytes| == BUFFER_SIZE
    }

    /** The template's MAX_BODY_SIZE. */
    function MaxBody(): nat
      requires Valid()
    {
      |bytes| - HEADER_SIZE
    }

    function Rest(): seq<byte>
      requires Valid()
    {
      bytes[pos..size]
    }
  }

  /** An unsigned sum below 2^33, kept in 32 bits. */
  function Wrapped(n: nat): nat
    requires n < 0x2_0000_0000
  {
    if n < 0x1_0000_0000 then n else n - 0x1_0000_0000
  }

  /** `pos` and `bytes` are 32-bit unsigned, so the addition in movePos wraps. */
  function Moved(c: Cursor, n: nat): (r: Outcome<Cursor>)
    requires c.Valid() && n < 0x1_0000_0000
    ensures r.Done? ==> r.value.Valid()
  {
    var p := Wrapped(c.pos + n);
    if p > c.size then PacketException else Done(c.(pos := p))
  }

  /** Skipping goes forward by `n` or throws, except that a distance close to 2^32 goes backward instead. */
  lemma MovedExactly(c: Cursor, n: nat)
    requires c.Valid() && n < 0x1_0000_0000
    ensures Moved(c, n).Done? <==> n <= |c.Rest()| || n >= 0x1_0000_0000 - c.pos
    ensures n <= |c.Rest()| ==> Moved(c, n) == Done(c.(pos := c.pos + n)) && Moved(c, n).value.Rest() == c.Rest()[n..]
  {
  }

  lemma SliceOfSlice(s: seq<byte>, from: nat, to: nat, n: nat)
    requires from + n <= to <= |s|
    ensures s[from..to][..n] == s[from..from + n] && s[from..to][n..] == s[from + n..to]
  {
  }

  /** The next `n` bytes, for a length that does not wrap. */
  function Chunk(c: Cursor, n: nat): (r: Outcome<(seq<byte>, Cursor)>)
    requires c.Valid() && c.pos + n < 0x1_0000_0000
    ensures r.Done? ==> r.value.1.Valid() && |r.value.1.bytes| == |c.bytes|
  {
    if c.pos + n <= c.size then Done((c.bytes[c.pos..c.pos + n], c.(pos := c.pos + n))) else PacketException
  }

  function TakeNumber(c: Cursor, width: nat): (r: Outcome<(nat, Cursor)>)
    requires c.Valid() && width < 0x1_0000
    ensures r.Done? ==> r.value.1.Valid() && |r.value.1.bytes| == |c.bytes|
  {
    var (s, d) :- Chunk(c, width);
    Done((Number(s), d))
  }

  /** A number stored in the next `width` bytes is read back. */
  lemma NumberRead(c: Cursor, v: nat, width: nat)
    requires c.Valid() && width < 0x1_0000 && v < Span(width)
    requires width <= |c.Rest()| && c.Rest()[..width] == Octets(v, width)
    ensures TakeNumber(c, width) == Done((v, c.(pos := c.pos + width)))
  {
    SliceOfSlice(c.bytes, c.pos, c.size, width);
    StoredNumber(v, width);
  }

  lemma LengthFits(c: Cursor)
    requires c.Valid()
    ensures TakeNumber(c, 2).Done? ==> TakeNumber(c, 2).value.0 < 0x1_0000
  {
    if c.pos + 2 <= c.size {
      NumberBelow(c.bytes[c.pos..c.pos + 2]);
      SpanValues();
    }
  }

  function TakeString(c: Cursor): (r: Outcome<(seq<byte>, Cursor)>)
    requires c.Valid()
    ensures r.Done? ==> r.value.1.Valid() && |r.value.1.bytes| == |c.bytes|
  {
    var (n, d) :- TakeNumber(c, 2);
    LengthFits(c);
    Chunk(d, n)
  }

  /** `pos + bytes` is a 32-bit unsigned sum here too. */
  function WithRemaining(c: Cursor, n: nat): (r: Outcome<Cursor>)
    requires c.Valid() && n < 0x1_0000_0000
    ensures r.Done? ==> |r.value.bytes| == |c.bytes| && (c.pos + n < 0x1_0000_0000 ==> r.value.Valid())
  {
    var end := Wrapped(c.pos + n);
    if end <= c.MaxBody() then Done(c.(size := end)) else AssertionFails
  }

  /** The assertion passes exactly when the new end is in bounds, or wraps to before the cursor and is. */
  lemma RemainingExactly(c: Cursor, n: nat)
    requires c.Valid() && n < 0x1_0000_0000
    ensures WithRemaining(c, n).Done? <==>
      c.pos + n <= c.MaxBody() || 0 <= c.pos + n - 0x1_0000_0000 <= c.MaxBody()
    ensures WithRemaining(c, n).Done? ==>
      (WithRemaining(c, n).value.Valid() <==> c.pos + n < 0x1_0000_0000)
  {
  }

  function HeaderParsed(c: Cursor): (r: Outcome<Cursor>)
    requires c.Standard()
    ensures r.Done? ==> r.value.Standard()
  {
    var (n, d) :- TakeNumber(c, 2);
    if n < 8 || n > MAX_BODY_SIZE then PacketException else WithRemaining(d, n)
  }

  /** Wherever the cursor is: the header is accepted exactly when a length is there, is no less than 8 and leaves the end in bounds. */
  lemma HeaderParsedIff(c: Cursor)
    requires c.Standard()
    ensures var n := if |c.Rest()| >= 2 then Number(c.Rest()[..2]) else 0;
      && (HeaderParsed(c).Done? <==> |c.Rest()| >= 2 && 8 <= n && c.pos + 2 + n <= MAX_BODY_SIZE)
      && (HeaderParsed(c).Done? ==> HeaderParsed(c).value == c.(pos := c.pos + 2, size := c.pos + 2 + n))
      && (|c.Rest()| < 2 ==> HeaderParsed(c).PacketException?)
  {
    if |c.Rest()| >= 2 {
      SliceOfSlice(c.bytes, c.pos, c.size, 2);
      NumberBelow(c.Rest()[..2]);
      SpanValues();
    }
  }

  function Checked(c: Cursor): (r: Outcome<Cursor>)
    requires c.Standard()
    ensures r.Done? ==> r.value.Standard()
  {
    var (given, d) :- TakeNumber(c, 4);
    if d.pos == d.size then AssertionFails
    else if given != Adler32.Checksum(d.Rest()) then PacketException
    else Done(d)
  }

  /** The rest deciphered where it stands. */
  function Deciphered(key: XteaCipher.Xtea, c: Cursor, n: nat): (d: Cursor)
    requires c.Valid() && c.size - c.pos == 8 * n
    ensures d.Valid() && d.pos == c.pos && d.size == c.size && |d.bytes| == |c.bytes|
    ensures d.Rest() == XteaCipher.DecryptAll(key, c.Rest(), n)
    ensures d.bytes[..c.pos] == c.bytes[..c.pos] && d.bytes[c.size..] == c.bytes[c.size..]
  {
    c.(bytes := c.bytes[..c.pos] + XteaCipher.DecryptAll(key, c.Rest(), n) + c.bytes[c.size..])
  }

  /** The checksum is accepted exactly when it is there and right; with nothing behind it adler32's assertion fails. */
  lemma CheckedExactly(c: Cursor)
    requires c.Standard()
    ensures var r, s := Checked(c), c.Rest();
      && (r.Done? <==> |s| > 4 && Number(s[..4]) == Adler32.Checksum(s[4..]))
      && (r.AssertionFails? <==> |s| == 4)
      && (r.Done? ==> r.value == c.(pos := c.pos + 4) && r.value.Rest() == s[4..])
  {
    if |c.Rest()| >= 4 {
      SliceOfSlice(c.bytes, c.pos, c.size, 4);
      assert c.(pos := c.pos + 4).Rest() == c.Rest()[4..];
    }
  }

  /** What a right checksum stands in front of. */
  predicate Checksummed(s: seq<byte>, rest: seq<byte>) {
    |s| > 4 && rest == s[4..] && Number(s[..4]) == Adler32.Checksum(rest)
  }

  /** What xteaDecrypt does after the size check, given what deciphering leaves. */
  function LengthApplied(plain: Cursor): (r: Outcome<Cursor>)
    requires plain.Standard()
    ensures r.Done? ==> r.value.Standard()
  {
    var (n, d) :- TakeNumber(plain, 2);
    LengthFits(plain);
    WithRemaining(d, n)
  }

  lemma LengthAppliedIff(plain: Cursor)
    requires plain.Standard()
    ensures var r, s := LengthApplied(plain), plain.Rest(); var n := if |s| >= 2 then Number(s[..2]) else 0;
      && (r.PacketException? <==> |s| < 2)
      && (r.Done? <==> |s| >= 2 && plain.pos + 2 + n <= MAX_BODY_SIZE)
      && (r.Done? ==> r.value == plain.(pos := plain.pos + 2, size := plain.pos + 2 + n))
  {
    LengthFits(plain);
    if |plain.Rest()| >= 2 {
      SliceOfSlice(plain.bytes, plain.pos, plain.size, 2);
    }
  }

  function Decrypted(key: XteaCipher.Xtea, c: Cursor): (r: Outcome<Cursor>)
    requires c.Standard()
    ensures r.Done? ==> r.value.Standard()
  {
    if |c.Rest()| % 8 != 0 then PacketException else LengthApplied(Deciphered(key, c, |c.Rest()| / 8))
  }

  /** The length that deciphering brings out at the cursor. */
  function InnerLength(key: XteaCipher.Xtea, s: seq<byte>): nat
    requires |s| % 8 == 0 && |s| > 0
  {
    Number(XteaCipher.DecryptAll(key, s, |s| / 8)[..2])
  }

  /** Whole groups, one at least, whose inner length ends in bounds when they stand at `pos`. */
  predicate Decipherable(key: XteaCipher.Xtea, s: seq<byte>, pos: nat) {
    |s| % 8 == 0 && |s| > 0 && pos + 2 + InnerLength(key, s) <= MAX_BODY_SIZE
  }

  lemma {:induction false} DecryptedWhole(key: XteaCipher.Xtea, c: Cursor, d: Cursor)
    requires c.Standard() && |c.Rest()| % 8 == 0 && |c.Rest()| > 0 && d == Deciphered(key, c, |c.Rest()| / 8)
    ensures Decrypted(key, c) == LengthApplied(d) && d.Standard() && d.pos == c.pos && |d.Rest()| == |c.Rest()|
    ensures Number(d.Rest()[..2]) == InnerLength(key, c.Rest())
  {
  }

  lemma DecryptedEmpty(key: XteaCipher.Xtea, c: Cursor)
    requires c.Standard() && |c.Rest()| == 0
    ensures Decrypted(key, c).PacketException?
  {
    LengthAppliedIff(Deciphered(key, c, 0));
  }

  /** Decryption throws exactly when the rest is not whole groups or is empty, and goes on exactly with a length in bounds. */
  lemma DecryptedIff(key: XteaCipher.Xtea, c: Cursor)
    requires c.Standard()
    ensures var r, s := Decrypted(key, c), c.Rest();
      && (r.PacketException? <==> |s| % 8 != 0 || |s| == 0)
      && (r.Done? <==> Decipherable(key, s, c.pos))
      && (r.Done? ==> r.value.pos == c.pos + 2 && r.value.size == c.pos + 2 + InnerLength(key, s))
      && (r.Done? ==> r.value.bytes == Deciphered(key, c, |s| / 8).bytes)
  {
    if |c.Rest()| == 0 {
      DecryptedEmpty(key, c);
    } else if |c.Rest()| % 8 == 0 {
      var d := Deciphered(key, c, |c.Rest()| / 8);
      DecryptedWhole(key, c, d);
      LengthAppliedIff(d);
    }
  }

  /** StandardProtocol::handleMessage up to the call of onMessage. */
  function Handled(key: XteaCipher.Xtea, c: Cursor): (r: Outcome<Cursor>)
    requires c.Standard()
    ensures r.Done? ==> r.value.Standard()
  {
    var d :- Checked(c);
    Decrypted(key, d)
  }

  lemma HandledSteps(key: XteaCipher.Xtea, c: Cursor, rest: seq<byte>) returns (d: Cursor)
    requires c.Standard() && |c.Rest()| >= 4 && rest == c.Rest()[4..]
    ensures Checked(c).Done? <==> Checksummed(c.Rest(), rest)
    ensures Checked(c).Done? ==> d.Standard() && d.pos == c.pos + 4 && d.Rest() == rest && Handled(key, c) == Decrypted(key, d)
    ensures !Checked(c).Done? ==> !Handled(key, c).Done?
  {
    CheckedExactly(c);
    d := if Checked(c).Done? then Checked(c).value else c;
  }

  lemma DecryptedRest(key: XteaCipher.Xtea, d: Cursor, rest: seq<byte>, pos: nat, r: Outcome<Cursor>)
    requires d.Standard() && rest == d.Rest() && pos == d.pos && r == Decrypted(key, d)
    ensures r.Done? <==> Decipherable(key, rest, pos)
  {
    DecryptedIff(key, d);
  }

  /** onMessage is called exactly when the rest is the checksum of what follows, and that whole groups with a length in bounds. */
  lemma HandledIff(key: XteaCipher.Xtea, c: Cursor, rest: seq<byte>)
    requires c.Standard() && |c.Rest()| >= 4 && rest == c.Rest()[4..]
    ensures Handled(key, c).Done? <==> Checksummed(c.Rest(), rest) && Decipherable(key, rest, c.pos + 4)
  {
    var d := HandledSteps(key, c, rest);
    if Checked(c).Done? {
      DecryptedRest(key, d, rest, c.pos + 4, Handled(key, c));
    }
  }

  /** Connection's header parsing followed by StandardProtocol::handleMessage. */
  function Opened(key: XteaCipher.Xtea, c: Cursor): (r: Outcome<Cursor>)
    requires c.Standard()
    ensures r.Done? ==> r.value.Standard()
  {
    var h :- HeaderParsed(c);
    Handled(key, h)
  }

  // ---------- the message object ----------

  class InMessage {
    const buffer: array<byte>
    var pos: nat
    var size: nat

    ghost predicate Valid()
      reads this
    {
      pos <= size <= buffer.Length <= MAX_CAPACITY && HEADER_SIZE <= buffer.Length
    }

    ghost predicate Standard()
      reads this
    {
      Valid() && buffer.Length == BUFFER_SIZE
    }

    ghost function State(): (c: Cursor)
      reads this, buffer
      ensures Valid() <==> c.Valid()
    {
      Cursor(buffer[..], pos, size)
    }

    constructor (maxBodySize: nat)
      requires HEADER_SIZE + maxBodySize <= MAX_CAPACITY
      ensures Valid() && fresh(buffer) && pos == 0 && size == HEADER_SIZE && buffer.Length == HEADER_SIZE + maxBodySize
    {
      buffer := new byte[HEADER_SIZE + maxBodySize](_ => 0);
      pos := 0;
      size := HEADER_SIZE;
    }

    method GetRemainingSize() returns (n: nat)
      requires Valid()
      ensures n == |State().Rest()|
    {
      n := size - pos;
    }

    /** After a throw the position is past the end and the message is dropped. */
    method MovePos(n: nat) returns (r: Outcome<()>)
      requires Valid() && n < 0x1_0000_0000
      modifies this`pos
      ensures var f := Moved(old(State()), n);
        if f.Done? then r == Done(()) && State() == f.value else r == f.PropagateFailure()
    {
      pos := Wrapped(pos + n);
      r := if pos > size then PacketException else Done(());
    }

    /** The pointer that is returned always leads to where the cursor was, also when the sum wraps. */
    method GetRawChunk(n: nat) returns (r: Outcome<nat>)
      requires Valid() && n < 0x1_0000_0000
      modifies this`pos
      ensures var f := Moved(old(State()), n);
        if f.Done? then r == Done(old(pos)) && State() == f.value else r == f.PropagateFailure()
    {
      var moved := MovePos(n);
      if moved.IsFailure() {
        return moved.PropagateFailure();
      }
      r := Done(if pos >= n then pos - n else pos + 0x1_0000_0000 - n);
    }

    method GetStrChunk(n: nat) returns (r: Outcome<seq<byte>>)
      requires Valid() && pos + n < 0x1_0000_0000
      modifies this`pos
      ensures var f := Chunk(old(State()), n);
        if f.Done? then r == Done(f.value.0) && State() == f.value.1 else r == f.PropagateFailure()
    {
      MovedExactly(State(), n);
      var start := GetRawChunk(n);
      if start.IsFailure() {
        return start.PropagateFailure();
      }
      r := Done(buffer[start.value..start.value + n]);
    }

    /** getByte, getU16, getU32 and getU64 */
    method GetNumber(width: nat) returns (r: Outcome<nat>)
      requires Valid() && width < 0x1_0000
      modifies this`pos
      ensures var f := TakeNumber(old(State()), width);
        if f.Done? then r == Done(f.value.0) && State() == f.value.1 else r == f.PropagateFailure()
    {
      var s := GetStrChunk(width);
      r := if s.Done? then Done(Number(s.value)) else s.PropagateFailure();
    }

    method GetString() returns (r: Outcome<seq<byte>>)
      requires Valid()
      modifies this`pos
      ensures var f := TakeString(old(State()));
        if f.Done? then r == Done(f.value.0) && State() == f.value.1 else r == f.PropagateFailure()
    {
      var n := GetNumber(2);
      if n.IsFailure() {
        return n.PropagateFailure();
      }
      LengthFits(old(State()));
      r := GetStrChunk(n.value);
    }

    method SetRemainingSize(n: nat) returns (r: Outcome<()>)
      requires Valid() && n < 0x1_0000_0000
      modifies this`size
      ensures var f := WithRemaining(old(State()), n);
        if f.Done? then r == Done(()) && State() == f.value else r == f.PropagateFailure()
    {
      var end := Wrapped(pos + n);
      if end > buffer.Length - HEADER_SIZE {
        return AssertionFails;
      }
      size := end;
      r := Done(());
    }

    /** What an asynchronous read leaves in the buffer. */
    method Fill(at: nat, data: seq<byte>)
      requires Valid() && at + |data| <= buffer.Length
      modifies buffer
      ensures State() == old(State()).(bytes := old(buffer[..at]) + data + old(buffer[at + |data|..]))
    {
      for i := 0 to |data|
        invariant forall k :: 0 <= k < buffer.Length ==>
          buffer[k] == if at <= k < at + i then data[k - at] else old(buffer[k])
      {
        buffer[at + i] := data[i];
      }
    }

    method ParseHeader() returns (r: Outcome<()>)
      requires Standard()
      modifies this`pos, this`size
      ensures var f := HeaderParsed(old(State()));
        if f.Done? then r == Done(()) && State() == f.value else r == f.PropagateFailure()
    {
      var n := GetNumber(2);
      if n.IsFailure() {
        return n.PropagateFailure();
      }
      if n.value < 8 || n.value > MAX_BODY_SIZE {
        return PacketException;
      }
      r := SetRemainingSize(n.value);
    }

    method DoChecksum() returns (r: Outcome<()>)
      requires Standard()
      modifies this`pos
      ensures var f := Checked(old(State()));
        if f.Done? then r == Done(()) && State() == f.value else r == f.PropagateFailure()
    {
      var given := GetNumber(4);
      if given.IsFailure() {
        return given.PropagateFailure();
      }
      var n := GetRemainingSize();
      if n == 0 {
        return AssertionFails; // adler32 asserts a non-empty buffer
      }
      var sum := Adler32.Compute(buffer, pos, n);
      assert buffer[pos..pos + n] == State().Rest();
      r := if given.value != sum as nat then PacketException else Done(());
    }

    method XteaDecrypt(key: XteaCipher.Xtea) returns (r: Outcome<()>)
      requires Standard()
      modifies this`pos, this`size, buffer
      ensures var f := Decrypted(key, old(State()));
        if f.Done? then r == Done(()) && State() == f.value else r == f.PropagateFailure()
    {
      var n := GetRemainingSize();
      if n % 8 != 0 {
        return PacketException;
      }
      DecryptRest(key, n);
      var inner := GetNumber(2);
      if inner.IsFailure() {
        return inner.PropagateFailure();
      }
      LengthFits(Deciphered(key, old(State()), n / 8));
      r := SetRemainingSize(inner.value);
    }

    method DecryptRest(key: XteaCipher.Xtea, n: nat)
      requires Valid() && n == size - pos && n % 8 == 0
      modifies buffer
      ensures State() == Deciphered(key, old(State()), n / 8)
    {
      ghost var blocks, c := n / 8, State();
      assert n == 8 * blocks;
      XteaCipher.GroupsOf(blocks);
      assert c.bytes == c.bytes[..pos] + c.Rest() + c.bytes[size..];
      XteaCipher.DecryptRegion(key, buffer, pos, n, blocks, c.bytes[..pos], c.Rest(), c.bytes[size..]);
    }

    method HandleMessage(key: XteaCipher.Xtea) returns (r: Outcome<()>)
      requires Standard()
      modifies this`pos, this`size, buffer
      ensures var f := Handled(key, old(State()));
        if f.Done? then r == Done(()) && State() == f.value else r == f.PropagateFailure()
    {
      var checked := DoChecksum();
      if checked.IsFailure() {
        return checked.PropagateFailure();
      }
      r := XteaDecrypt(key);
    }
  }
}
