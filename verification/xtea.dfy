/** The XTEA cipher of crypto.cpp, run in place over a region of a byte buffer. */
module XteaCipher {
  import opened Bytes
  import opened MachineWords

  const DELTA: word := 0x9E37_79B9
  const ROUNDS := 32

  datatype Xtea = Xtea(k0: word, k1: word, k2: word, k3: word)

  /** The two halves that a cycle works on. */
  datatype Halves<T> = Halves(v0: T, v1: T)
  type Block = Halves<word>

  // ---------- one round and its inverse ----------

  /** `k[i]` */
  function KeyWord(key: Xtea, i: word): word
    requires i <= 3
  {
    if i == 0 then key.k0 else if i == 1 then key.k1 else if i == 2 then key.k2 else key.k3
  }

  /** The index of the key word that a round's first half uses. */
  function FirstIndex(sum: word): (i: word)
    ensures i <= 3
  {
    sum & 3
  }

  /** The same for the second half. */
  function SecondIndex(sum: word): (i: word)
    ensures i <= 3
  {
    (sum >> 11) & 3
  }

  function Stirred(v: word): word {
    Plus((v << 4) ^ (v >> 5), v)
  }

  function Mix(v: word, sum: word, k: word): word {
    Xor(Stirred(v), Plus(sum, k))
  }

  /** One Feistel cycle: each half in turn absorbs a function of the other. */
  function Cycle<T>(plus: (T, T) -> T, b: Halves<T>, f: T -> T, g: T -> T): Halves<T> {
    var v0 := plus(b.v0, f(b.v1));
    Halves(v0, plus(b.v1, g(v0)))
  }

  function Uncycle<T>(minus: (T, T) -> T, b: Halves<T>, f: T -> T, g: T -> T): Halves<T> {
    var v1 := minus(b.v1, g(b.v0));
    Halves(minus(b.v0, f(v1)), v1)
  }

  ghost predicate Undoes<T(!new)>(minus: (T, T) -> T, plus: (T, T) -> T) {
    forall x, y :: minus(plus(x, y), y) == x && plus(minus(x, y), y) == x
  }

  lemma CyclesInvert<T(!new)>(plus: (T, T) -> T, minus: (T, T) -> T, b: Halves<T>, f: T -> T, g: T -> T)
    requires Undoes(minus, plus)
    ensures Uncycle(minus, Cycle(plus, b, f, g), f, g) == b
    ensures Cycle(plus, Uncycle(minus, b, f, g), f, g) == b
  {
  }

  function First(key: Xtea, sum: word): word -> word {
    v => Mix(v, sum, KeyWord(key, FirstIndex(sum)))
  }

  function Second(key: Xtea, sum: word): word -> word {
    v => Mix(v, sum, KeyWord(key, SecondIndex(sum)))
  }

  /** One round of the cipher, from the schedule value `sum` to `Plus(sum, DELTA)`. */
  function Round(key: Xtea, b: Block, sum: word): Block {
    Cycle(Plus, b, First(key, sum), Second(key, Plus(sum, DELTA)))
  }

  /** The round undone, from the schedule value `Plus(sum, DELTA)` back to `sum`. */
  function Unround(key: Xtea, b: Block, sum: word): Block {
    Uncycle(Minus, b, First(key, sum), Second(key, Plus(sum, DELTA)))
  }

  // ---------- what a round depends on ----------

  /** Different second operands give different results. */
  ghost predicate Tells<T(!new)>(op: (T, T) -> T) {
    forall a, x, y :: op(a, x) == op(a, y) ==> x == y
  }

  lemma OperatorsTell()
    ensures Tells(Plus) && Tells(Xor)
  {
    forall a, x, y | Plus(a, x) == Plus(a, y) ensures x == y {
      SamePlus(a, x, y);
    }
    forall a, x, y | Xor(a, x) == Xor(a, y) ensures x == y {
      SameXor(a, x, y);
    }
  }

  lemma ComposedTells<T(!new)>(xor: (T, T) -> T, plus: (T, T) -> T, a: T, s: T, k: T, k': T)
    requires Tells(xor) && Tells(plus)
    ensures xor(a, plus(s, k)) == xor(a, plus(s, k')) <==> k == k'
  {
  }

  lemma CycleTells<T(!new)>(plus: (T, T) -> T, b: Halves<T>, f: T -> T, f': T -> T, g: T -> T, g': T -> T)
    requires Tells(plus)
    ensures Cycle(plus, b, f, g) == Cycle(plus, b, f', g') <==>
      f(b.v1) == f'(b.v1) && g(plus(b.v0, f(b.v1))) == g'(plus(b.v0, f(b.v1)))
  {
  }

  /** Whatever else goes in, another key word gives another result. */
  lemma MixTellsKeys(v: word, sum: word, k: word, k': word)
    ensures Mix(v, sum, k) == Mix(v, sum, k') <==> k == k'
  {
    OperatorsTell();
    ComposedTells(Xor, Plus, Stirred(v), sum, k, k');
  }

  /** Two keys do the same in a round exactly when they agree on `k[sum & 3]` and, one delta on, on `k[sum >> 11 & 3]`. */
  lemma RoundTellsKeys(key: Xtea, key': Xtea, b: Block, sum: word)
    ensures var next := Plus(sum, DELTA);
      Round(key, b, sum) == Round(key', b, sum)
      <==> KeyWord(key, sum & 3) == KeyWord(key', sum & 3) && KeyWord(key, (next >> 11) & 3) == KeyWord(key', (next >> 11) & 3)
  {
    var next := Plus(sum, DELTA);
    var v0 := Plus(b.v0, First(key, sum)(b.v1));
    OperatorsTell();
    CycleTells(Plus, b, First(key, sum), First(key', sum), Second(key, next), Second(key', next));
    MixTellsKeys(b.v1, sum, KeyWord(key, FirstIndex(sum)), KeyWord(key', FirstIndex(sum)));
    MixTellsKeys(v0, next, KeyWord(key, SecondIndex(next)), KeyWord(key', SecondIndex(next)));
  }

  // ---------- the schedule ----------

  /** The value of `sum` after `n` encryption rounds. */
  function Schedule(n: nat): word {
    if n == 0 then 0 else Plus(Schedule(n - 1), DELTA)
  }

  /** Decryption starts where encryption stops: `delta << 5` is the 32nd schedule value. */
  lemma ScheduleTop()
    ensures Schedule(ROUNDS) == DELTA << 5
  {
    assert Schedule(8) == DELTA << 3;
    assert Schedule(16) == DELTA << 4;
    assert Schedule(24) == (DELTA << 4) + (DELTA << 3);
  }

  // ---------- doing and undoing numbered steps ----------

  /** Steps 0 to n-1, in that order. */
  function Forward<T>(step: (T, nat) -> T, x: T, n: nat): T
    decreases n, x
  {
    if n == 0 then x else step(Forward(step, x, n - 1), n - 1)
  }

  /** Steps n-1 down to 0 undone. */
  function Backward<T>(undo: (T, nat) -> T, x: T, n: nat): T
    decreases n, x
  {
    if n == 0 then x else Backward(undo, undo(x, n - 1), n - 1)
  }

  ghost predicate Inverse<T(!new)>(step: (T, nat) -> T, undo: (T, nat) -> T) {
    forall x, i: nat :: undo(step(x, i), i) == x && step(undo(x, i), i) == x
  }

  lemma {:induction false} ForwardBackward<T(!new)>(step: (T, nat) -> T, undo: (T, nat) -> T, x: T, n: nat)
    requires Inverse(step, undo)
    ensures Backward(undo, Forward(step, x, n), n) == x
    ensures Forward(step, Backward(undo, x, n), n) == x
    decreases n
  {
    if n > 0 {
      ForwardBackward(step, undo, x, n - 1);
      ForwardBackward(step, undo, undo(x, n - 1), n - 1);
    }
  }

  /** `f` computes what `g` computes; said so that `g` is only looked into where it is applied. */
  ghost predicate Agree<T(!new)>(f: (T, nat) -> T, g: (T, nat) -> T) {
    forall x, i: nat {:trigger g(x, i)} :: f(x, i) == g(x, i)
  }

  lemma Copy<T(!new)>(g: (T, nat) -> T) returns (f: (T, nat) -> T)
    ensures Agree(f, g)
  {
    f := g;
  }

  lemma {:induction false} AgreeingRuns<T(!new)>(f: (T, nat) -> T, g: (T, nat) -> T, x: T, n: nat)
    requires Agree(f, g)
    ensures Forward(f, x, n) == Forward(g, x, n)
    ensures Backward(f, x, n) == Backward(g, x, n)
    decreases n
  {
    if n > 0 {
      AgreeingRuns(f, g, x, n - 1);
      assert f(Forward(f, x, n - 1), n - 1) == g(Forward(f, x, n - 1), n - 1);
      assert f(x, n - 1) == g(x, n - 1);
      AgreeingRuns(f, g, f(x, n - 1), n - 1);
    }
  }

  // ---------- the cipher's steps ----------

  type Step = (Block, nat) -> Block

  function Rounds(key: Xtea): Step {
    (b: Block, i: nat) => Round(key, b, Schedule(i))
  }

  function Unrounds(key: Xtea): Step {
    (b: Block, i: nat) => Unround(key, b, Schedule(i))
  }

  lemma UndoRound(key: Xtea, b: Block, sum: word)
    ensures Unround(key, Round(key, b, sum), sum) == b && Round(key, Unround(key, b, sum), sum) == b
  {
    forall x, y ensures Minus(Plus(x, y), y) == x && Plus(Minus(x, y), y) == x {
      AddAndTakeAway(x, y);
    }
    CyclesInvert(Plus, Minus, b, First(key, sum), Second(key, Plus(sum, DELTA)));
  }

  lemma {:induction false} RoundsInvert(key: Xtea)
    ensures Inverse(Rounds(key), Unrounds(key))
  {
    forall b, i: nat ensures Unrounds(key)(Rounds(key)(b, i), i) == b && Rounds(key)(Unrounds(key)(b, i), i) == b {
      UndoRound(key, b, Schedule(i));
    }
  }

  // ---------- words among bytes ----------

  /** What a `uint32_t*` into the buffer reads. */
  function Word(s: seq<byte>): word
    requires |s| == 4
  {
    Assembled(FromByte(s[0]), FromByte(s[1]), FromByte(s[2]), FromByte(s[3]))
  }

  /** What a store through that pointer leaves in memory. */
  function WordOctets(w: word): (s: seq<byte>)
    ensures |s| == 4
  {
    [ToByte(Part(w, 0)), ToByte(Part(w, 1)), ToByte(Part(w, 2)), ToByte(Part(w, 3))]
  }

  lemma WordOfOctets(w: word)
    ensures Word(WordOctets(w)) == w
  {
    ByteOut(Part(w, 0));
    ByteOut(Part(w, 1));
    ByteOut(Part(w, 2));
    ByteOut(Part(w, 3));
    PartsAssembled(0, 0, 0, 0, w);
  }

  lemma OctetsOfWord(s: seq<byte>)
    requires |s| == 4
    ensures WordOctets(Word(s)) == s
  {
    PartsAssembled(FromByte(s[0]), FromByte(s[1]), FromByte(s[2]), FromByte(s[3]), 0);
    ByteIn(s[0]);
    ByteIn(s[1]);
    ByteIn(s[2]);
    ByteIn(s[3]);
  }

  // ---------- whole buffers ----------

  type Octets8 = s: seq<byte> | |s| == 8 witness [0, 0, 0, 0, 0, 0, 0, 0]

  function BlockOf(s: Octets8): Block {
    Halves(Word(s[..4]), Word(s[4..]))
  }

  function BlockOctets(b: Block): Octets8 {
    WordOctets(b.v0) + WordOctets(b.v1)
  }

  /** `f` applied to each of the `n` groups of eight bytes. */
  function MapBlocks(f: Octets8 -> Octets8, s: seq<byte>, n: nat): (r: seq<byte>)
    requires |s| == 8 * n
    ensures |r| == |s|
  {
    if n == 0 then [] else MapBlocks(f, s[..8 * (n - 1)], n - 1) + f(s[8 * (n - 1)..])
  }

  lemma {:induction false} MapBlocksInvert(f: Octets8 -> Octets8, g: Octets8 -> Octets8, s: seq<byte>, n: nat)
    requires |s| == 8 * n && forall x: Octets8 :: g(f(x)) == x
    ensures MapBlocks(g, MapBlocks(f, s, n), n) == s
  {
    if n > 0 {
      var m := 8 * (n - 1);
      MapBlocksInvert(f, g, s[..m], n - 1);
      var e := MapBlocks(f, s, n);
      assert e[..m] == MapBlocks(f, s[..m], n - 1) && e[m..] == f(s[m..]);
      assert s == s[..m] + s[m..];
    }
  }

  /** The same for functions on groups. */
  ghost predicate SameBlocks(f: Octets8 -> Octets8, g: Octets8 -> Octets8) {
    forall s: Octets8 {:trigger g(s)} :: f(s) == g(s)
  }

  lemma CopyBlocks(g: Octets8 -> Octets8) returns (f: Octets8 -> Octets8)
    ensures SameBlocks(f, g)
  {
    f := g;
  }

  lemma {:induction false} SameMaps(f: Octets8 -> Octets8, g: Octets8 -> Octets8, s: seq<byte>, n: nat)
    requires |s| == 8 * n && SameBlocks(f, g)
    ensures MapBlocks(f, s, n) == MapBlocks(g, s, n)
  {
    if n > 0 {
      SameMaps(f, g, s[..8 * (n - 1)], n - 1);
      var last: Octets8 := s[8 * (n - 1)..];
      assert f(last) == g(last);
    }
  }

  function EncryptBlock(key: Xtea): Octets8 -> Octets8 {
    (s: Octets8) => BlockOctets(Forward(Rounds(key), BlockOf(s), ROUNDS))
  }

  function DecryptBlock(key: Xtea): Octets8 -> Octets8 {
    (s: Octets8) => BlockOctets(Backward(Unrounds(key), BlockOf(s), ROUNDS))
  }

  lemma BlockViews(b: Block, s: Octets8)
    ensures BlockOf(BlockOctets(b)) == b
    ensures BlockOctets(BlockOf(s)) == s
  {
    var t := BlockOctets(b);
    assert t[..4] == WordOctets(b.v0) && t[4..] == WordOctets(b.v1);
    WordOfOctets(b.v0);
    WordOfOctets(b.v1);
    OctetsOfWord(s[..4]);
    OctetsOfWord(s[4..]);
    assert s == s[..4] + s[4..];
  }

  lemma BlocksInvert(key: Xtea, s: Octets8)
    ensures DecryptBlock(key)(EncryptBlock(key)(s)) == s
    ensures EncryptBlock(key)(DecryptBlock(key)(s)) == s
  {
    var b := BlockOf(s);
    RoundsInvert(key);
    ForwardBackward(Rounds(key), Unrounds(key), b, ROUNDS);
    BlockViews(b, s);
    BlockViews(Forward(Rounds(key), b, ROUNDS), s);
    BlockViews(Backward(Unrounds(key), b, ROUNDS), s);
  }

  function EncryptAll(key: Xtea, s: seq<byte>, n: nat): (r: seq<byte>)
    requires |s| == 8 * n
    ensures |r| == |s|
  {
    MapBlocks(EncryptBlock(key), s, n)
  }

  function DecryptAll(key: Xtea, s: seq<byte>, n: nat): (r: seq<byte>)
    requires |s| == 8 * n
    ensures |r| == |s|
  {
    MapBlocks(DecryptBlock(key), s, n)
  }

  /** Decryption undoes encryption and encryption undoes decryption, for every key and buffer. */
  lemma {:induction false} CipherInverts(key: Xtea, s: seq<byte>, n: nat)
    requires |s| == 8 * n
    ensures DecryptAll(key, EncryptAll(key, s, n), n) == s
    ensures EncryptAll(key, DecryptAll(key, s, n), n) == s
  {
    var f, g := EncryptBlock(key), DecryptBlock(key);
    forall x: Octets8 ensures g(f(x)) == x && f(g(x)) == x {
      BlocksInvert(key, x);
    }
    MapBlocksInvert(f, g, s, n);
    MapBlocksInvert(g, f, s, n);
  }

  /** How many groups of two words the loop `while(pos < lenght/4)` visits. */
  function Groups(length: nat): nat {
    (length / 4 + 1) / 2
  }

  lemma GroupsOf(n: nat)
    ensures Groups(8 * n) == n
  {
  }

  lemma LoopGuard(length: nat, i: nat)
    ensures i <= Groups(length) ==> (2 * i < length / 4 <==> i < Groups(length))
  {
    var n := length / 4;
    assert 2 * Groups(length) <= n + 1 < 2 * Groups(length) + 2;
  }

  /** `s` with the group of eight bytes at `at` replaced. */
  function Put(f: Octets8 -> Octets8, s: seq<byte>, at: nat): (r: seq<byte>)
    ensures |r| == |s|
  {
    if at + 8 <= |s| then s[..at] + f(s[at..at + 8]) + s[at + 8..] else s
  }

  /** Replacing groups one after the other from `base` on, as steps. */
  function Puts(f: Octets8 -> Octets8, base: nat): (seq<byte>, nat) -> seq<byte> {
    (s: seq<byte>, i: nat) => Put(f, s, base + 8 * i)
  }

  /** `s` with `n` groups from `base` on mapped and nothing else changed. */
  function Mapped(f: Octets8 -> Octets8, s: seq<byte>, base: nat, n: nat): (r: seq<byte>)
    requires base + 8 * n <= |s|
    ensures |r| == |s|
  {
    s[..base] + MapBlocks(f, s[base..base + 8 * n], n) + s[base + 8 * n..]
  }

  lemma PutStep(f: Octets8 -> Octets8, put: (seq<byte>, nat) -> seq<byte>, s: seq<byte>, base: nat, i: nat)
    requires Agree(put, Puts(f, base))
    ensures put(s, i) == Put(f, s, base + 8 * i)
  {
    assert put(s, i) == Puts(f, base)(s, i);
  }

  lemma {:induction false} PutsMap(f: Octets8 -> Octets8, put: (seq<byte>, nat) -> seq<byte>, s: seq<byte>, base: nat, n: nat)
    requires base + 8 * n <= |s| && Agree(put, Puts(f, base))
    ensures Forward(put, s, n) == Mapped(f, s, base, n)
  {
    if n > 0 {
      PutsMap(f, put, s, base, n - 1);
      PutStep(f, put, Forward(put, s, n - 1), base, n - 1);
      PutMapped(f, s, base, n - 1);
    }
  }

  lemma SameMapped(f: Octets8 -> Octets8, g: Octets8 -> Octets8, s: seq<byte>, base: nat, n: nat)
    requires base + 8 * n <= |s| && SameBlocks(f, g)
    ensures Mapped(f, s, base, n) == Mapped(g, s, base, n)
  {
    SameMaps(f, g, s[base..base + 8 * n], n);
  }

  lemma PutMapped(f: Octets8 -> Octets8, s: seq<byte>, base: nat, n: nat)
    requires base + 8 * n + 8 <= |s|
    ensures Put(f, Mapped(f, s, base, n), base + 8 * n) == Mapped(f, s, base, n + 1)
  {
    var m := 8 * n;
    var region, before := s[base..base + m + 8], Mapped(f, s, base, n);
    assert region[..m] == s[base..base + m] && region[m..] == s[base + m..base + m + 8];
    assert before[base + m..base + m + 8] == region[m..];
    assert before[..base + m] == s[..base] + MapBlocks(f, region[..m], n);
    assert before[base + m + 8..] == s[base + m + 8..];
  }

  // ---------- the loops of crypto.cpp ----------

  method EncryptRounds(key: Xtea, b: Block, ghost step: Step) returns (r: Block)
    requires Agree(step, Rounds(key))
    ensures r == Forward(step, b, ROUNDS)
  {
    r := b;
    var sum: word := 0;
    var round := ROUNDS;
    while round > 0
      invariant 0 <= round <= ROUNDS && sum == Schedule(ROUNDS - round)
      invariant r == Forward(step, b, ROUNDS - round)
    {
      round := round - 1;
      r, sum := EncryptRound(key, r, sum, step, ROUNDS - 1 - round);
    }
  }

  /** The body of the inner loop of `Xtea::encrypt`. */
  method EncryptRound(key: Xtea, b: Block, sum: word, ghost step: Step, ghost i: nat) returns (r: Block, next: word)
    requires Agree(step, Rounds(key)) && sum == Schedule(i)
    ensures r == step(b, i) && next == Schedule(i + 1)
  {
    var v0 := Plus(b.v0, Mix(b.v1, sum, KeyWord(key, FirstIndex(sum))));
    next := Plus(sum, DELTA);
    var v1 := Plus(b.v1, Mix(v0, next, KeyWord(key, SecondIndex(next))));
    r := Halves(v0, v1);
    assert r == Round(key, b, sum);
    assert r == Rounds(key)(b, i);
  }

  method DecryptRounds(key: Xtea, b: Block, ghost undo: Step) returns (r: Block)
    requires Agree(undo, Unrounds(key))
    ensures r == Backward(undo, b, ROUNDS)
  {
    r := b;
    var delta: word := DELTA;
    var sum := delta << 5;
    var round := ROUNDS;
    ScheduleTop();
    while round > 0
      invariant 0 <= round <= ROUNDS && sum == Schedule(round)
      invariant Backward(undo, r, round) == Backward(undo, b, ROUNDS)
    {
      round := round - 1;
      r, sum := DecryptRound(key, r, sum, undo, round);
    }
  }

  /** The body of the inner loop of `Xtea::decrypt`. */
  method DecryptRound(key: Xtea, b: Block, sum: word, ghost undo: Step, ghost i: nat) returns (r: Block, next: word)
    requires Agree(undo, Unrounds(key)) && sum == Schedule(i + 1)
    ensures r == undo(b, i) && next == Schedule(i)
  {
    var v1 := Minus(b.v1, Mix(b.v0, sum, KeyWord(key, SecondIndex(sum))));
    next := Minus(sum, DELTA);
    var v0 := Minus(b.v0, Mix(v1, next, KeyWord(key, FirstIndex(next))));
    r := Halves(v0, v1);
    AddAndTakeAway(Schedule(i), DELTA);
    assert r == Unround(key, b, next);
    assert r == Unrounds(key)(b, i);
  }

  method Load(buffer: array<byte>, at: nat) returns (s: Octets8)
    requires at + 8 <= buffer.Length
    ensures s == buffer[at..at + 8]
  {
    s := buffer[at..at + 8];
  }

  method Store(buffer: array<byte>, at: nat, s: Octets8)
    requires at + 8 <= buffer.Length
    modifies buffer
    ensures var was := old(buffer[..]); buffer[..] == was[..at] + s + was[at + 8..]
  {
    ghost var was := buffer[..];
    for i := 0 to 8
      invariant forall k :: 0 <= k < buffer.Length ==> buffer[k] == if at <= k < at + i then s[k - at] else was[k]
    {
      buffer[at + i] := s[i];
    }
  }

  method StoreGroup(buffer: array<byte>, base: nat, at: nat, ghost s: Octets8, t: Octets8, ghost i: nat, ghost f: Octets8 -> Octets8, ghost put: (seq<byte>, nat) -> seq<byte>)
    requires at == base + 8 * i && at + 8 <= buffer.Length && s == buffer[at..at + 8] && t == f(s)
    requires Agree(put, Puts(f, base))
    modifies buffer
    ensures buffer[..] == put(old(buffer[..]), i)
  {
    ghost var was := buffer[..];
    PutStep(f, put, was, base, i);
    assert s == was[at..at + 8];
    Store(buffer, at, t);
  }

  method EncryptWords(key: Xtea, s: Octets8, ghost f: Octets8 -> Octets8) returns (t: Octets8)
    requires SameBlocks(f, EncryptBlock(key))
    ensures t == f(s)
  {
    ghost var run := Copy(Rounds(key));
    var b := BlockOf(s);
    var r := EncryptRounds(key, b, run);
    AgreeingRuns(run, Rounds(key), b, ROUNDS);
    t := BlockOctets(r);
    assert t == EncryptBlock(key)(s);
  }

  /** The body of the outer loop of `Xtea::encrypt`: two words read, rewritten and stored back. */
  method EncryptGroup(key: Xtea, buffer: array<byte>, base: nat, pos: nat, ghost i: nat, ghost f: Octets8 -> Octets8, ghost put: (seq<byte>, nat) -> seq<byte>)
    requires pos == 2 * i && base + 8 * i + 8 <= buffer.Length
    requires SameBlocks(f, EncryptBlock(key)) && Agree(put, Puts(f, base))
    modifies buffer
    ensures buffer[..] == put(old(buffer[..]), i)
  {
    var at := base + 4 * pos;
    var s := Load(buffer, at);
    var t := EncryptWords(key, s, f);
    StoreGroup(buffer, base, at, s, t, i, f, put);
  }

  method EncryptLoop(key: Xtea, buffer: array<byte>, base: nat, length: nat, ghost f: Octets8 -> Octets8, ghost put: (seq<byte>, nat) -> seq<byte>)
    requires base + 8 * Groups(length) <= buffer.Length
    requires SameBlocks(f, EncryptBlock(key)) && Agree(put, Puts(f, base))
    modifies buffer
    ensures buffer[..] == Forward(put, old(buffer[..]), Groups(length))
  {
    ghost var was := buffer[..];
    ghost var i := 0;
    var pos := 0;
    LoopGuard(length, i);
    while pos < length / 4
      invariant pos == 2 * i && i <= Groups(length) && (pos < length / 4 <==> i < Groups(length))
      invariant buffer[..] == Forward(put, was, i)
    {
      EncryptGroup(key, buffer, base, pos, i, f, put);
      pos, i := pos + 2, i + 1;
      LoopGuard(length, i);
    }
  }

  /** `Xtea::encrypt` over `length` bytes from `base` on. */
  method Encrypt(key: Xtea, buffer: array<byte>, base: nat, length: nat)
    requires base + 8 * Groups(length) <= buffer.Length
    modifies buffer
    ensures buffer[..] == Mapped(EncryptBlock(key), old(buffer[..]), base, Groups(length))
  {
    ghost var was, n := buffer[..], Groups(length);
    ghost var f := CopyBlocks(EncryptBlock(key));
    ghost var put := Copy(Puts(f, base));
    EncryptLoop(key, buffer, base, length, f, put);
    PutsMap(f, put, was, base, n);
    SameMapped(f, EncryptBlock(key), was, base, n);
  }

  method DecryptWords(key: Xtea, s: Octets8, ghost f: Octets8 -> Octets8) returns (t: Octets8)
    requires SameBlocks(f, DecryptBlock(key))
    ensures t == f(s)
  {
    ghost var run := Copy(Unrounds(key));
    var b := BlockOf(s);
    var r := DecryptRounds(key, b, run);
    AgreeingRuns(run, Unrounds(key), b, ROUNDS);
    t := BlockOctets(r);
    assert t == DecryptBlock(key)(s);
  }

  /** The body of the outer loop of `Xtea::decrypt`: two words read, rewritten and stored back. */
  method DecryptGroup(key: Xtea, buffer: array<byte>, base: nat, pos: nat, ghost i: nat, ghost f: Octets8 -> Octets8, ghost put: (seq<byte>, nat) -> seq<byte>)
    requires pos == 2 * i && base + 8 * i + 8 <= buffer.Length
    requires SameBlocks(f, DecryptBlock(key)) && Agree(put, Puts(f, base))
    modifies buffer
    ensures buffer[..] == put(old(buffer[..]), i)
  {
    var at := base + 4 * pos;
    var s := Load(buffer, at);
    var t := DecryptWords(key, s, f);
    StoreGroup(buffer, base, at, s, t, i, f, put);
  }

  method DecryptLoop(key: Xtea, buffer: array<byte>, base: nat, length: nat, ghost f: Octets8 -> Octets8, ghost put: (seq<byte>, nat) -> seq<byte>)
    requires base + 8 * Groups(length) <= buffer.Length
    requires SameBlocks(f, DecryptBlock(key)) && Agree(put, Puts(f, base))
    modifies buffer
    ensures buffer[..] == Forward(put, old(buffer[..]), Groups(length))
  {
    ghost var was := buffer[..];
    ghost var i := 0;
    var pos := 0;
    LoopGuard(length, i);
    while pos < length / 4
      invariant pos == 2 * i && i <= Groups(length) && (pos < length / 4 <==> i < Groups(length))
      invariant buffer[..] == Forward(put, was, i)
    {
      DecryptGroup(key, buffer, base, pos, i, f, put);
      pos, i := pos + 2, i + 1;
      LoopGuard(length, i);
    }
  }

  /** `Xtea::decrypt` over `length` bytes from `base` on. */
  method Decrypt(key: Xtea, buffer: array<byte>, base: nat, length: nat)
    requires base + 8 * Groups(length) <= buffer.Length
    modifies buffer
    ensures buffer[..] == Mapped(DecryptBlock(key), old(buffer[..]), base, Groups(length))
  {
    ghost var was, n := buffer[..], Groups(length);
    ghost var f := CopyBlocks(DecryptBlock(key));
    ghost var put := Copy(Puts(f, base));
    DecryptLoop(key, buffer, base, length, f, put);
    PutsMap(f, put, was, base, n);
    SameMapped(f, DecryptBlock(key), was, base, n);
  }

  /** Encryption of `n` groups from `base` on; the ghost parameters are what lies before, in and after them. */
  method EncryptRegion(key: Xtea, buffer: array<byte>, base: nat, length: nat, ghost n: nat, ghost head: seq<byte>, ghost s: seq<byte>, ghost tail: seq<byte>)
    requires n == Groups(length) && |head| == base && |s| == 8 * n && buffer[..] == head + s + tail
    modifies buffer
    ensures buffer[..] == head + EncryptAll(key, s, n) + tail
  {
    ghost var was := buffer[..];
    Encrypt(key, buffer, base, length);
    assert was[..base] == head && was[base..base + 8 * n] == s && was[base + 8 * n..] == tail;
  }

  /** Decryption of `n` groups from `base` on; the ghost parameters are what lies before, in and after them. */
  method DecryptRegion(key: Xtea, buffer: array<byte>, base: nat, length: nat, ghost n: nat, ghost head: seq<byte>, ghost s: seq<byte>, ghost tail: seq<byte>)
    requires n == Groups(length) && |head| == base && |s| == 8 * n && buffer[..] == head + s + tail
    modifies buffer
    ensures buffer[..] == head + DecryptAll(key, s, n) + tail
  {
    ghost var was := buffer[..];
    Decrypt(key, buffer, base, length);
    assert was[..base] == head && was[base..base + 8 * n] == s && was[base + 8 * n..] == tail;
  }
}
