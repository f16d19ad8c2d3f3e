/** Outgoing messages: a growing byte buffer with room reserved in front for prefixes. */
module OutMessages {
  import opened Bytes
  import Adler32
  import XteaCipher

  /** RawPacketLen(2) + Adler32(4) + DecryptedPacketLen(2) */
  const PREFIX_SIZE := 8
  const PADDING: byte := 0x33

  // ---------- the buffer as a value ----------

  datatype Buffer = Buffer(bytes: seq<byte>, prefixPos: nat) {
    predicate Valid() {
      prefixPos <= |bytes|
    }

    /** What getBuffer() hands to the socket. */
    function Visible(): seq<byte>
      requires Valid()
    {
      bytes[prefixPos..]
    }

    function Prepend(s: seq<byte>): (b: Buffer)
      requires Valid() && |s| <= prefixPos
      ensures b.Valid() && |b.bytes| == |bytes|
    {
      var p := prefixPos - |s|;
      Buffer(bytes[..p] + s + bytes[prefixPos..], p)
    }

    function Append(s: seq<byte>): (b: Buffer)
      requires Valid()
      ensures b.Valid()
    {
      Buffer(bytes + s, prefixPos)
    }
  }

  datatype Op = Prefix(s: seq<byte>) | Add(s: seq<byte>)

  function PrefixTotal(ops: seq<Op>): nat {
    if ops == [] then 0 else PrefixTotal(ops[..|ops| - 1]) + (if ops[|ops| - 1].Prefix? then |ops[|ops| - 1].s| else 0)
  }

  /** The prefixes, latest call first. */
  function Prefixes(ops: seq<Op>): (s: seq<byte>)
    ensures |s| == PrefixTotal(ops)
  {
    if ops == [] then [] else
      var last := ops[|ops| - 1];
      (if last.Prefix? then last.s else []) + Prefixes(ops[..|ops| - 1])
  }

  /** The appended data, earliest call first. */
  function Additions(ops: seq<Op>): seq<byte> {
    if ops == [] then [] else
      var last := ops[|ops| - 1];
      Additions(ops[..|ops| - 1]) + (if last.Add? then last.s else [])
  }

  /** The buffer after the calls, or None once a prefix no longer fits the reserve. */
  function Replay(b: Buffer, ops: seq<Op>): (r: Option<Buffer>)
    requires b.Valid()
    ensures r.Some? ==> r.value.Valid()
  {
    if ops == [] then Some(b) else
      var last := ops[|ops| - 1];
      match Replay(b, ops[..|ops| - 1])
      case None => None
      case Some(c) =>
        if last.Add? then Some(c.Append(last.s))
        else if |last.s| <= c.prefixPos then Some(c.Prepend(last.s)) else None
  }

  lemma CallVisible(c: Buffer, s: seq<byte>)
    requires c.Valid()
    ensures c.Append(s).Visible() == c.Visible() + s
    ensures |s| <= c.prefixPos ==> c.Prepend(s).Visible() == s + c.Visible()
  {
  }

  lemma Regroup(s: seq<byte>, p: seq<byte>, v: seq<byte>, a: seq<byte>)
    ensures s + (p + v + a) == (s + p) + v + a && [] + p == p
    ensures (p + v + a) + s == p + v + (a + s) && a + [] == a
  {
  }

  /** Any interleaving of calls builds prefixes ++ old contents ++ additions, as long as the reserve lasts and no longer. */
  lemma {:induction false} ReplayRefines(b: Buffer, ops: seq<Op>)
    requires b.Valid()
    ensures Replay(b, ops).Some? <==> PrefixTotal(ops) <= b.prefixPos
    ensures var r := Replay(b, ops);
      r.Some? ==> r.value.prefixPos == b.prefixPos - PrefixTotal(ops)
    ensures var r := Replay(b, ops);
      r.Some? ==> r.value.Visible() == Prefixes(ops) + b.Visible() + Additions(ops)
    decreases |ops|
  {
    if ops != [] {
      var before, last := ops[..|ops| - 1], ops[|ops| - 1];
      ReplayRefines(b, before);
      match Replay(b, before)
      case None =>
      case Some(c) =>
        CallVisible(c, last.s);
        Regroup(last.s, Prefixes(before), b.Visible(), Additions(before));
    }
  }

  lemma PrefixTotalAppend(ops: seq<Op>, op: Op)
    ensures PrefixTotal(ops + [op]) == PrefixTotal(ops) + if op.Prefix? then |op.s| else 0
  {
    assert (ops + [op])[..|ops|] == ops;
  }

  /** Header, checksum and an outer length of `width` bytes fit the reserve of eight exactly when the length takes two at most. */
  lemma OuterPrefixFits(header: seq<byte>, checksum: seq<byte>, length: seq<byte>)
    requires |header| == 2 && |checksum| == 4
    ensures var b := Buffer(seq(PREFIX_SIZE, _ => 0), PREFIX_SIZE); var ops := [Prefix(header), Prefix(checksum), Prefix(length)];
      && (Replay(b, ops).Some? <==> |length| <= 2)
      && (|length| == 2 ==> Replay(b, ops).value.prefixPos == 0)
  {
    var b := Buffer(seq(PREFIX_SIZE, _ => 0), PREFIX_SIZE);
    PrefixTotalAppend([], Prefix(header));
    PrefixTotalAppend([Prefix(header)], Prefix(checksum));
    PrefixTotalAppend([Prefix(header), Prefix(checksum)], Prefix(length));
    ReplayRefines(b, [Prefix(header), Prefix(checksum), Prefix(length)]);
    assert [] + [Prefix(header)] == [Prefix(header)];
    assert [Prefix(header)] + [Prefix(checksum)] == [Prefix(header), Prefix(checksum)];
    assert [Prefix(header), Prefix(checksum)] + [Prefix(length)] == [Prefix(header), Prefix(checksum), Prefix(length)];
  }

  // ---------- what the standard message does with its visible bytes ----------

  /** One to eight bytes. */
  function Padding(size: nat): (p: seq<byte>)
    ensures 1 <= |p| <= 8 && (size + |p|) % 8 == 0
  {
    seq(8 - size % 8, _ => PADDING)
  }

  /** How many cipher blocks `size` bytes and their padding fill. */
  function Blocks(size: nat): nat {
    size / 8 + 1
  }

  function Padded(s: seq<byte>): (p: seq<byte>)
    ensures |p| == 8 * Blocks(|s|)
  {
    s + Padding(|s|)
  }

  function Enciphered(key: XteaCipher.Xtea, s: seq<byte>): (c: seq<byte>)
    ensures |c| == 8 * Blocks(|s|)
  {
    XteaCipher.EncryptAll(key, Padded(s), Blocks(|s|))
  }

  /** Length, checksum, data: what Connection writes. */
  function Encoded(s: seq<byte>): seq<byte> {
    Octets(|s| + 4, 2) + (Octets(Adler32.Checksum(s), 4) + s)
  }

  function Headed(s: seq<byte>): seq<byte> {
    Octets(|s|, 2) + s
  }

  /** A payload as StandardProtocol::send and Connection::doSend put it on the wire. */
  function Frame(key: XteaCipher.Xtea, payload: seq<byte>): seq<byte> {
    var s := Headed(payload);
    Encoded(Enciphered(key, s))
  }

  // ---------- the message object ----------

  class OutMessage {
    var buffer: array<byte>
    var prefixPos: nat

    ghost predicate Valid()
      reads this
    {
      prefixPos <= buffer.Length
    }

    ghost function State(): (b: Buffer)
      requires Valid()
      reads this, buffer
      ensures b.Valid()
    {
      Buffer(buffer[..], prefixPos)
    }

    constructor (maxPrefix: nat)
      ensures Valid() && fresh(buffer)
      ensures State() == Buffer(seq(maxPrefix, _ => 0), maxPrefix)
    {
      buffer := new byte[maxPrefix](_ => 0);
      prefixPos := maxPrefix;
    }

    /** One growth of the vector. */
    method Grow(s: seq<byte>)
      requires Valid()
      modifies this`buffer
      ensures Valid() && fresh(buffer)
      ensures State() == old(State()).Append(s)
    {
      var old' := buffer;
      var bigger := new byte[old'.Length + |s|](_ => 0);
      for i := 0 to old'.Length
        invariant forall k :: 0 <= k < i ==> bigger[k] == old'[k]
      {
        bigger[i] := old'[i];
      }
      for i := 0 to |s|
        invariant forall k :: 0 <= k < old'.Length ==> bigger[k] == old'[k]
        invariant forall k :: 0 <= k < i ==> bigger[old'.Length + k] == s[k]
      {
        bigger[old'.Length + i] := s[i];
      }
      buffer := bigger;
      assert bigger[..] == old'[..] + s;
    }

    method AddPrefix(v: nat, width: nat)
      requires Valid() && width <= prefixPos
      modifies this`prefixPos, buffer
      ensures Valid() && State() == old(State()).Prepend(Octets(v, width))
    {
      var s, p := Octets(v, width), prefixPos - width;
      for i := 0 to width
        invariant forall k :: 0 <= k < buffer.Length ==>
          buffer[k] == if p <= k < p + i then s[k - p] else old(buffer[k])
      {
        buffer[p + i] := s[i];
      }
      prefixPos := p;
    }

    /** addByte, addU16, addU32 and addU64 */
    method AddNumber(v: nat, width: nat)
      requires Valid()
      modifies this`buffer
      ensures Valid() && fresh(buffer) && State() == old(State()).Append(Octets(v, width))
    {
      Grow(Octets(v, width));
    }

    /** The size is cut to 16 bits; the characters are not. */
    method AddString(str: seq<byte>)
      requires Valid()
      modifies this`buffer
      ensures Valid() && fresh(buffer) && State() == old(State()).Append(Octets(|str|, 2) + str)
    {
      AddNumber(|str|, 2);
      Grow(str);
      assert State().bytes == old(State()).bytes + (Octets(|str|, 2) + str);
    }

    method AddRaw(raw: seq<byte>)
      requires Valid()
      modifies this`buffer
      ensures Valid() && fresh(buffer) && State() == old(State()).Append(raw)
    {
      Grow(raw);
    }

    method AddPadding(count: nat, value: byte)
      requires Valid()
      modifies this`buffer
      ensures Valid() && fresh(buffer) && State() == old(State()).Append(seq(count, _ => value))
    {
      Grow(seq(count, _ => value));
    }

    method GetSize() returns (size: nat)
      requires Valid()
      ensures size == |State().Visible()|
    {
      size := buffer.Length - prefixPos;
    }

    method AddHeader()
      requires Valid() && prefixPos >= 2
      modifies this`prefixPos, buffer
      ensures Valid() && prefixPos == old(prefixPos) - 2
      ensures State().Visible() == Headed(old(State().Visible()))
    {
      var size := GetSize();
      AddPrefix(size, 2);
    }

    /** `addPadding(8 - getSize()%8, 0x33)` */
    method PadToBlocks() returns (size: nat)
      requires Valid()
      modifies this`buffer
      ensures Valid() && fresh(buffer)
      ensures State() == old(State()).Append(Padding(|old(State()).Visible()|))
      ensures size == buffer.Length - prefixPos
    {
      size := GetSize();
      AddPadding(8 - size % 8, PADDING);
      size := GetSize();
    }

    method XteaEncrypt(key: XteaCipher.Xtea)
      requires Valid()
      modifies this`buffer
      ensures Valid() && fresh(buffer)
      ensures State().Visible() == Enciphered(key, old(State().Visible()))
    {
      ghost var s := State().Visible();
      CallVisible(State(), Padding(|s|));
      var size := PadToBlocks();
      EncryptVisible(key, size, Padded(s), Blocks(|s|));
    }

    method EncryptVisible(key: XteaCipher.Xtea, size: nat, ghost s: seq<byte>, ghost n: nat)
      requires Valid() && size == |s| == 8 * n && State().Visible() == s
      modifies buffer
      ensures State().Visible() == XteaCipher.EncryptAll(key, s, n)
    {
      ghost var head := buffer[..prefixPos];
      XteaCipher.GroupsOf(n);
      assert buffer[..] == head + s + [];
      XteaCipher.EncryptRegion(key, buffer, prefixPos, size, n, head, s, []);
      assert buffer[..][prefixPos..] == XteaCipher.EncryptAll(key, s, n);
    }

    /** `(int32_t)getSize()` is the size itself below 2^31, and adler32 asserts a non-empty buffer. */
    method AddChecksum()
      requires Valid() && prefixPos >= 4 && 0 < buffer.Length - prefixPos < 0x8000_0000
      modifies this`prefixPos, buffer
      ensures Valid() && prefixPos == old(prefixPos) - 4
      ensures State().Visible() == Octets(Adler32.Checksum(old(State().Visible())), 4) + old(State().Visible())
    {
      ghost var s := State().Visible();
      var size := GetSize();
      assert buffer[prefixPos..prefixPos + size] == s;
      var sum := Adler32.Compute(buffer, prefixPos, size);
      CallVisible(State(), Octets(sum as nat, 4));
      AddPrefix(sum as nat, 4);
    }

    method Encode()
      requires Valid() && prefixPos >= 6 && 0 < buffer.Length - prefixPos < 0x8000_0000
      modifies this`prefixPos, buffer
      ensures Valid() && prefixPos == old(prefixPos) - 6
      ensures State().Visible() == Encoded(old(State().Visible()))
    {
      AddChecksum();
      var size := GetSize();
      CallVisible(State(), Octets(size, 2));
      AddPrefix(size, 2);
    }

    /** StandardProtocol::send, then the encoding that Connection::doSend performs before writing. */
    method Seal(key: XteaCipher.Xtea)
      requires Valid() && prefixPos == PREFIX_SIZE && buffer.Length < 0x4000_0000
      modifies this, buffer
      ensures Valid() && prefixPos == 0
      ensures buffer[..] == Frame(key, old(State().Visible()))
    {
      ghost var payload := State().Visible();
      AddHeader();
      XteaEncrypt(key);
      Encode();
      assert buffer[..] == State().Visible();
    }
  }
}
