/** 32-bit machine words: their wrapping arithmetic, and their bytes. */
module MachineWords {
  import opened Bytes

  /** A `uint32_t`. */
  type word = bv32

  function Plus(x: word, y: word): word {
    x + y
  }

  function Xor(x: word, y: word): word {
    x ^ y
  }

  function Not(x: word): word {
    !x
  }

  /** `x - y`, through the complement; AddAndTakeAway says that it is what addition of `y` undoes. */
  function Minus(x: word, y: word): word {
    Not(Plus(Not(x), y))
  }

  lemma Complements(x: word)
    ensures Not(Not(x)) == x
  {
  }

  lemma TakesAway(x: word, y: word)
    ensures Not(Plus(Not(Plus(x, y)), y)) == x
  {
  }

  lemma AddAndTakeAway(x: word, y: word)
    ensures Minus(Plus(x, y), y) == x && Plus(Minus(x, y), y) == x
  {
    TakesAway(x, y);
    TakesAway(Not(x), y);
    Complements(x);
    Complements(Plus(Minus(x, y), y));
  }

  lemma SameXor(a: word, x: word, y: word)
    ensures Xor(a, x) == Xor(a, y) <==> x == y
  {
  }

  lemma PlusCommutes(x: word, y: word)
    ensures Plus(x, y) == Plus(y, x)
  {
  }

  lemma SamePlus(a: word, x: word, y: word)
    ensures Plus(a, x) == Plus(a, y) <==> x == y
  {
    PlusCommutes(a, x);
    PlusCommutes(a, y);
    AddAndTakeAway(x, a);
    AddAndTakeAway(y, a);
  }

  // ---------- the bytes of a word, least significant first ----------

  /** Bits 0 to 3 of a number below 16, as a bit pattern. */
  function Nibble(x: nat): bv8
    requires x < 16
  {
    var y := if x < 8 then x else x - 8;
    var z := if y < 4 then y else y - 4;
    (if x < 8 then 0 else 8) | (if y < 4 then 0 else 4) | (if z < 2 then 0 else 2) | (if z == 1 || z == 3 then 1 else 0)
  }

  function NibbleValue(b: bv8): (x: nat)
    ensures x < 16
  {
    (if b & 8 == 0 then 0 else 8) + (if b & 4 == 0 then 0 else 4) + (if b & 2 == 0 then 0 else 2) + (if b & 1 == 0 then 0 else 1)
  }

  function FromByte(x: byte): bv8 {
    (Nibble(x / 16) << 4) | Nibble(x % 16)
  }

  function ToByte(b: bv8): byte {
    16 * NibbleValue(b >> 4) + NibbleValue(b)
  }

  lemma NibbleIn(x: nat, y: nat)
    requires x < 16 && y < 16
    ensures NibbleValue(((Nibble(x) << 4) | Nibble(y)) >> 4) == x && NibbleValue((Nibble(x) << 4) | Nibble(y)) == y
  {
  }

  lemma ByteIn(x: byte)
    ensures ToByte(FromByte(x)) == x
  {
    NibbleIn(x / 16, x % 16);
  }

  lemma ByteOut(b: bv8)
    ensures FromByte(ToByte(b)) == b
  {
    var h, l := NibbleValue(b >> 4), NibbleValue(b);
    assert (16 * h + l) / 16 == h && (16 * h + l) % 16 == l;
    NibbleOut(b);
  }

  lemma NibbleOut(b: bv8)
    ensures (Nibble(NibbleValue(b >> 4)) << 4) | Nibble(NibbleValue(b)) == b
  {
  }

  function Assembled(a: bv8, b: bv8, c: bv8, d: bv8): word {
    (a as word) | (b as word << 8) | (c as word << 16) | (d as word << 24)
  }

  function Part(w: word, i: nat): bv8
    requires i < 4
  {
    if i == 0 then (w & 0xFF) as bv8 else if i == 1 then ((w >> 8) & 0xFF) as bv8
    else if i == 2 then ((w >> 16) & 0xFF) as bv8 else ((w >> 24) & 0xFF) as bv8
  }

  lemma PartsAssembled(a: bv8, b: bv8, c: bv8, d: bv8, w: word)
    ensures var x := Assembled(a, b, c, d); Part(x, 0) == a && Part(x, 1) == b && Part(x, 2) == c && Part(x, 3) == d
    ensures Assembled(Part(w, 0), Part(w, 1), Part(w, 2), Part(w, 3)) == w
  {
  }
}
