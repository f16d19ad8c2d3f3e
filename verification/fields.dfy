/** Typed fields: what a sender adds one by one, a receiver takes back in the same order. */
module Fields {
  import opened Bytes
  import opened Collections
  import opened InMessages
  import opened OutMessages

  datatype Field = Num(v: nat, width: nat) | Text(s: seq<byte>)
  datatype Kind = NumKind(width: nat) | TextKind

  /** A u8, u16, u32 or u64 holding a value of its type, or a string. */
  predicate WellFormed(f: Field) {
    f.Num? ==> f.width in {1, 2, 4, 8} && f.v < Span(f.width)
  }

  function KindOf(f: Field): Kind {
    if f.Num? then NumKind(f.width) else TextKind
  }

  predicate Supported(k: Kind) {
    k.NumKind? ==> k.width in {1, 2, 4, 8}
  }

  /** The bytes that adding `f` appends. */
  function Wire(f: Field): seq<byte> {
    match f
    case Num(v, width) => Octets(v, width)
    case Text(s) => Octets(|s|, 2) + s
  }

  function WireAll(fs: seq<Field>): seq<byte> {
    if fs == [] then [] else Wire(fs[0]) + WireAll(fs[1..])
  }

  /** What the getter for kind `k` does. */
  function Take(c: Cursor, k: Kind): (r: Outcome<(Field, Cursor)>)
    requires c.Valid() && Supported(k)
    ensures r.Done? ==> r.value.1.Valid()
  {
    match k
    case NumKind(width) =>
      var (v, d) :- TakeNumber(c, width);
      Done((Num(v, width), d))
    case TextKind =>
      var (s, d) :- TakeString(c);
      Done((Text(s), d))
  }

  function TakeAll(c: Cursor, ks: seq<Kind>): (r: Outcome<(seq<Field>, Cursor)>)
    requires c.Valid() && AllSupported(ks)
    ensures r.Done? ==> r.value.1.Valid()
    decreases |ks|
  {
    if ks == [] then Done(([], c)) else
      var (f, d) :- Take(c, ks[0]);
      var (fs, e) :- TakeAll(d, ks[1..]);
      Done(([f] + fs, e))
  }

  predicate AllSupported(ks: seq<Kind>) {
    forall i :: 0 <= i < |ks| ==> Supported(ks[i])
  }

  predicate AllWellFormed(fs: seq<Field>) {
    forall i :: 0 <= i < |fs| ==> WellFormed(fs[i])
  }

  /** The getters that match the fields, one for each. */
  predicate Matching(ks: seq<Kind>, fs: seq<Field>) {
    |ks| == |fs| && forall i :: 0 <= i < |fs| ==> ks[i] == KindOf(fs[i])
  }

  /** How much of a field a reader sees: a string's length is stored modulo 2^16. */
  predicate Fits(f: Field) {
    f.Text? ==> |f.s| < 0x1_0000
  }

  predicate AllFit(fs: seq<Field>) {
    forall i :: 0 <= i < |fs| ==> Fits(fs[i])
  }

  function Ahead(c: Cursor, n: nat): Cursor {
    c.(pos := c.pos + n)
  }

  lemma TakeNum(c: Cursor, v: nat, width: nat, rest: seq<byte>)
    requires c.Valid() && WellFormed(Num(v, width)) && c.Rest() == Octets(v, width) + rest
    ensures Take(c, NumKind(width)) == Done((Num(v, width), c.(pos := c.pos + width)))
    ensures c.(pos := c.pos + width).Rest() == rest
  {
    NumberRead(c, v, width);
    SliceOfSlice(c.bytes, c.pos, c.size, width);
  }

  /** What addString stores in front of the characters. */
  function StoredLength(s: seq<byte>): (n: nat)
    ensures n <= |s| && (n == |s| <==> |s| < 0x1_0000) && n < 0x1_0000
  {
    |s| % 0x1_0000
  }

  lemma LengthRead(c: Cursor, s: seq<byte>, rest: seq<byte>)
    requires c.Valid() && c.Rest() == Octets(|s|, 2) + rest
    ensures TakeNumber(c, 2) == Done((StoredLength(s), c.(pos := c.pos + 2)))
    ensures c.(pos := c.pos + 2).Rest() == rest
  {
    SpanValues();
    NumberOfOctets(|s|, 2);
    assert c.Rest()[..2] == Octets(|s|, 2);
    SliceOfSlice(c.bytes, c.pos, c.size, 2);
  }

  lemma CharactersRead(d: Cursor, s: seq<byte>, rest: seq<byte>, n: nat)
    requires d.Valid() && d.Rest() == s + rest && n <= |s| && n < 0x1_0000
    ensures Chunk(d, n) == Done((s[..n], d.(pos := d.pos + n)))
    ensures d.(pos := d.pos + n).Rest() == s[n..] + rest
  {
    assert (s + rest)[..n] == s[..n] && (s + rest)[n..] == s[n..] + rest;
    SliceOfSlice(d.bytes, d.pos, d.size, n);
  }

  /** A string written by addString is read back up to its length modulo 2^16. */
  lemma TakeText(c: Cursor, s: seq<byte>, rest: seq<byte>)
    requires c.Valid() && c.Rest() == Octets(|s|, 2) + (s + rest)
    ensures var n := StoredLength(s);
      && Take(c, TextKind) == Done((Text(s[..n]), c.(pos := c.pos + 2 + n)))
      && c.(pos := c.pos + 2 + n).Rest() == s[n..] + rest
  {
    LengthRead(c, s, s + rest);
    CharactersRead(c.(pos := c.pos + 2), s, rest, StoredLength(s));
  }

  /** One field comes back unchanged exactly when it fits its length prefix. */
  lemma TakeWire(c: Cursor, f: Field, rest: seq<byte>)
    requires c.Valid() && WellFormed(f) && c.Rest() == Wire(f) + rest
    ensures var r := Take(c, KindOf(f));
      && (r.Done? && r.value.0 == f <==> Fits(f))
      && (Fits(f) ==> r.Done? && r.value.1 == Ahead(c, |Wire(f)|) && r.value.1.Rest() == rest)
  {
    match f
    case Num(v, width) => TakeNum(c, v, width, rest);
    case Text(s) =>
      assert c.Rest() == Octets(|s|, 2) + (s + rest);
      TakeText(c, s, rest);
      if |s| < 0x1_0000 {
        assert s[..|s|] == s && s[|s|..] + rest == rest;
      }
  }

  function Letters(n: nat): (s: seq<byte>)
    ensures |s| == n
  {
    seq(n, _ => 0x41)
  }

  /** A string of 65539 letters, read where a message can hold it: three come back and the rest stays unread. */
  lemma LongStringCut(c: Cursor)
    requires c == Cursor(Wire(Text(Letters(65539))), 0, 65541)
    ensures c.Valid() && c.Rest() == Wire(Text(Letters(65539)))
    ensures Take(c, TextKind) == Done((Text(Letters(3)), c.(pos := 5)))
    ensures |c.(pos := 5).Rest()| == 65536
  {
    var s := Letters(65539);
    assert c.Rest() == Octets(|s|, 2) + (s + []);
    TakeText(c, s, []);
    assert s[..3] == Letters(3);
  }

  lemma WireAllCons(f: Field, tail: seq<Field>, rest: seq<byte>)
    ensures WireAll([f] + tail) + rest == Wire(f) + (WireAll(tail) + rest)
    ensures |WireAll([f] + tail)| == |Wire(f)| + |WireAll(tail)|
  {
    assert ([f] + tail)[1..] == tail;
    Associative(Wire(f), WireAll(tail), rest);
  }

  /** The cursor after `n` bytes more of the same message. */
  predicate MovedBy(c: Cursor, n: nat, d: Cursor) {
    d.bytes == c.bytes && d.size == c.size && d.pos == c.pos + n
  }

  lemma FirstField(c: Cursor, f: Field, tail: seq<Field>, rest: seq<byte>) returns (d: Cursor)
    requires c.Valid() && WellFormed(f) && Fits(f) && c.Rest() == WireAll([f] + tail) + rest
    ensures MovedBy(c, |Wire(f)|, d) && Take(c, KindOf(f)) == Done((f, d))
    ensures d.Valid() && d.Rest() == WireAll(tail) + rest
    ensures |WireAll([f] + tail)| == |Wire(f)| + |WireAll(tail)|
  {
    d := Ahead(c, |Wire(f)|);
    WireAllCons(f, tail, rest);
    TakeWire(c, f, WireAll(tail) + rest);
  }

  lemma Uncons(fs: seq<Field>) returns (f: Field, tail: seq<Field>)
    requires fs != []
    ensures fs == [f] + tail && |tail| < |fs|
    ensures AllWellFormed(fs) ==> WellFormed(f) && AllWellFormed(tail)
    ensures AllFit(fs) ==> Fits(f) && AllFit(tail)
    ensures forall ks: seq<Kind> :: Matching(ks, fs) ==> ks != [] && ks[0] == KindOf(f) && Matching(ks[1..], tail)
  {
    f, tail := fs[0], fs[1..];
  }

  lemma TakeAllCons(c: Cursor, ks: seq<Kind>, f: Field, d: Cursor, fs: seq<Field>, e: Cursor)
    requires c.Valid() && d.Valid() && ks != [] && AllSupported(ks)
    requires Take(c, ks[0]) == Done((f, d)) && TakeAll(d, ks[1..]) == Done((fs, e))
    ensures TakeAll(c, ks) == Done(([f] + fs, e))
  {
  }

  /** Any list of fields that fit is returned unchanged by the matching getters, and exactly its bytes are consumed. */
  lemma {:induction false} FieldsRoundTrip(c: Cursor, fs: seq<Field>, ks: seq<Kind>, rest: seq<byte>) returns (d: Cursor)
    requires c.Valid() && AllWellFormed(fs) && AllFit(fs) && c.Rest() == WireAll(fs) + rest
    requires AllSupported(ks) && Matching(ks, fs)
    ensures TakeAll(c, ks) == Done((fs, d))
    ensures MovedBy(c, |WireAll(fs)|, d) && d.Valid() && d.Rest() == rest
    decreases |fs|
  {
    if fs == [] {
      d := c;
      assert WireAll(fs) + rest == rest;
    } else {
      var f, tail := Uncons(fs);
      var e := FirstField(c, f, tail, rest);
      d := FieldsRoundTrip(e, tail, ks[1..], rest);
      TakeAllCons(c, ks, f, e, tail, d);
    }
  }

  lemma TakePrefix(c: Cursor, f: Field)
    requires c.Valid() && WellFormed(f) && Fits(f)
    requires |c.Rest()| < |Wire(f)| && c.Rest() == Wire(f)[..|c.Rest()|]
    ensures Take(c, KindOf(f)).PacketException?
  {
    if f.Text? && |c.Rest()| >= 2 {
      SpanValues();
      assert c.Rest()[..2] == Octets(|f.s|, 2);
      NumberRead(c, |f.s|, 2);
    }
  }

  /** The same getters on any strict prefix of those bytes throw. */
  lemma {:induction false} StrictPrefixThrows(c: Cursor, fs: seq<Field>, ks: seq<Kind>)
    requires c.Valid() && AllWellFormed(fs) && AllFit(fs)
    requires AllSupported(ks) && Matching(ks, fs)
    requires |c.Rest()| < |WireAll(fs)| && c.Rest() == WireAll(fs)[..|c.Rest()|]
    ensures TakeAll(c, ks).PacketException?
    decreases |fs|
  {
    var f, tail, n := fs[0], fs[1..], |c.Rest()|;
    if n < |Wire(f)| {
      assert WireAll(fs)[..n] == Wire(f)[..n];
      TakePrefix(c, f);
    } else {
      var m := n - |Wire(f)|;
      assert c.Rest() == Wire(f) + WireAll(tail)[..m];
      TakeWire(c, f, WireAll(tail)[..m]);
      StrictPrefixThrows(Ahead(c, |Wire(f)|), tail, ks[1..]);
    }
  }

  lemma AppendTwice(b: Buffer, s: seq<byte>, t: seq<byte>)
    requires b.Valid()
    ensures b.Append(s).Append(t) == b.Append(s + t)
    ensures b.Append([]) == b
  {
    assert b.bytes + s + t == b.bytes + (s + t);
    assert b.bytes + [] == b.bytes;
  }

  // ---------- the calls ----------

  method AddAll(msg: OutMessage, fs: seq<Field>)
    requires msg.Valid() && AllWellFormed(fs)
    modifies msg
    ensures msg.Valid() && msg.State() == old(msg.State()).Append(WireAll(fs))
    decreases |fs|
  {
    if fs == [] {
      AppendTwice(msg.State(), [], []);
      return;
    }
    match fs[0] {
      case Num(v, width) => msg.AddNumber(v, width);
      case Text(s) => msg.AddString(s);
    }
    ghost var was := old(msg.State());
    assert msg.State() == was.Append(Wire(fs[0]));
    AddAll(msg, fs[1..]);
    AppendTwice(was, Wire(fs[0]), WireAll(fs[1..]));
  }

  method GetAll(msg: InMessage, ks: seq<Kind>) returns (r: Outcome<seq<Field>>)
    requires msg.Valid() && AllSupported(ks)
    modifies msg
    ensures var f := TakeAll(old(msg.State()), ks);
      if f.Done? then r == Done(f.value.0) && msg.State() == f.value.1 else r == f.PropagateFailure()
    decreases |ks|
  {
    if ks == [] {
      return Done([]);
    }
    var first: Field;
    match ks[0] {
      case NumKind(width) =>
        var v := msg.GetNumber(width);
        if v.IsFailure() {
          return v.PropagateFailure();
        }
        first := Num(v.value, width);
      case TextKind =>
        var s := msg.GetString();
        if s.IsFailure() {
          return s.PropagateFailure();
        }
        first := Text(s.value);
    }
    var others := GetAll(msg, ks[1..]);
    r := if others.Done? then Done([first] + others.value) else others;
  }
}
