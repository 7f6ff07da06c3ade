/** The Jenkins hash on a little-endian machine: three loops that read the key by words, by halfwords or by bytes,
    as its address allows, and one value. */
module Jenkins {
  import opened Bits

  /** A 32-bit unsigned integer. */
  type Word = x: int | 0 <= x < TWO_TO_THE_32

  datatype State = State(a: Word, b: Word, c: Word)

  const JENKINS_INITVAL := 13

  function Plus(x: Word, y: Word): Word {
    (x + y) % TWO_TO_THE_32
  }

  function Minus(x: Word, y: Word): Word {
    (x - y) % TWO_TO_THE_32
  }

  function Xor(x: Word, y: Word): Word {
    Powers();
    BitXor(x, y, 32)
  }

  /** A left shift, within the word, and a right shift. */
  function Shift(w: Word, k: nat): Word {
    w * Pow2(k) % TWO_TO_THE_32
  }

  function ShiftRight(w: Word, k: nat): Word {
    if k == 0 then w else ShiftRight(w / 2, k - 1)
  }

  function Rot(x: Word, k: nat): Word
    requires k <= 32
  {
    Powers();
    BitOr(Shift(x, k), ShiftRight(x, 32 - k), 32)
  }

  function Mix(s: State): State {
    var a, b, c := s.a, s.b, s.c;
    var a := Xor(Minus(a, c), Rot(c, 4));  var c := Plus(c, b);
    var b := Xor(Minus(b, a), Rot(a, 6));  var a := Plus(a, c);
    var c := Xor(Minus(c, b), Rot(b, 8));  var b := Plus(b, a);
    var a := Xor(Minus(a, c), Rot(c, 16)); var c := Plus(c, b);
    var b := Xor(Minus(b, a), Rot(a, 19)); var a := Plus(a, c);
    var c := Xor(Minus(c, b), Rot(b, 4));  var b := Plus(b, a);
    State(a, b, c)
  }

  function Final(s: State): Word {
    var a, b, c := s.a, s.b, s.c;
    var c := Minus(Xor(c, b), Rot(b, 14));
    var a := Minus(Xor(a, c), Rot(c, 11));
    var b := Minus(Xor(b, a), Rot(a, 25));
    var c := Minus(Xor(c, b), Rot(b, 16));
    var a := Minus(Xor(a, c), Rot(c, 4));
    var b := Minus(Xor(b, a), Rot(a, 14));
    Minus(Xor(c, b), Rot(b, 24))
  }

  /** What undoes one line of the mixing, x -= z; x ^= rot(z, k); z += y. */
  function Undo(x: Word, y: Word, z: Word, k: nat): (Word, Word)
    requires k <= 32
  {
    var z0 := Minus(z, y);
    (Plus(Xor(x, Rot(z0, k)), z0), z0)
  }

  lemma LineUndone(x: Word, y: Word, z: Word, k: nat)
    requires k <= 32
    ensures Undo(Xor(Minus(x, z), Rot(z, k)), y, Plus(z, y), k) == (x, z)
  {
    hide Xor, Rot;
    XorTwice(Minus(x, z), Rot(z, k));
  }

  lemma XorTwice(x: Word, y: Word)
    ensures Xor(Xor(x, y), y) == x
  {
    Powers();
    hide BitXor, Pow2;
    BitXorTwice(x, y, 32);
  }

  function Unmix(s: State): State {
    var a, b, c := s.a, s.b, s.c;
    var (c, b) := Undo(c, a, b, 4);
    var (b, a) := Undo(b, c, a, 19);
    var (a, c) := Undo(a, b, c, 16);
    var (c, b) := Undo(c, a, b, 8);
    var (b, a) := Undo(b, c, a, 6);
    var (a, c) := Undo(a, b, c, 4);
    State(a, b, c)
  }

  /** Mixing loses nothing: different states stay different. */
  lemma MixReversible(s: State)
    ensures Unmix(Mix(s)) == s
  {
    hide Xor, Rot, Plus, Minus, Undo;
    var a0, b0, c0 := s.a, s.b, s.c;
    var a1, c1 := Xor(Minus(a0, c0), Rot(c0, 4)), Plus(c0, b0);
    var b1, a2 := Xor(Minus(b0, a1), Rot(a1, 6)), Plus(a1, c1);
    var c2, b2 := Xor(Minus(c1, b1), Rot(b1, 8)), Plus(b1, a2);
    var a3, c3 := Xor(Minus(a2, c2), Rot(c2, 16)), Plus(c2, b2);
    var b3, a4 := Xor(Minus(b2, a3), Rot(a3, 19)), Plus(a3, c3);
    LineUndone(a0, b0, c0, 4);
    LineUndone(b0, c1, a1, 6);
    LineUndone(c1, a2, b1, 8);
    LineUndone(a2, b2, c2, 16);
    LineUndone(b2, c3, a3, 19);
    LineUndone(c3, a4, b3, 4);
  }

  // ---- the same on numbers, line by line

  lemma {:induction false} ShiftRightIs(w: Word, k: nat)
    ensures ShiftRight(w, k) == w / Pow2(k)
  {
    if k > 0 {
      ShiftRightIs(w / 2, k - 1);
      DivideTwice(w, 2, Pow2(k - 1));
    }
  }

  /** A rotation by k: the product with 2^k, and what it loses at the top. */
  lemma RotIs(x: Word, k: nat)
    requires k <= 32
    ensures Rot(x, k) == x * Pow2(k) % TWO_TO_THE_32 + x / Pow2(32 - k)
  {
    hide Pow2, BitOr, ShiftRight;
    Powers();
    PowersAdd(k, 32 - k);
    ShiftRightIs(x, 32 - k);
    var p, q := Pow2(k), Pow2(32 - k);
    ShiftIs(x, p, q);
    assert Shift(x, k) == x % q * p && ShiftRight(x, 32 - k) == x / q;
    hide Shift;
    BitOrApart(x % q, x / q, k, 32);
  }

  /** A word times p, modulo p * q: what stays is its remainder by q, times p; what is lost is less than p. */
  lemma ShiftIs(x: nat, p: nat, q: nat)
    requires p > 0 && q > 0 && x < p * q
    ensures p * q > 0 && x * p % (p * q) == x % q * p && x / q < p
  {
    var low, high := x % q, x / q;
    assert x == q * high + low;
    Smaller(q, p, high, low);
    assert x * p == (p * q) * high + low * p by {
      assert (q * high) * p == (p * q) * high;
      assert (q * high + low) * p == (q * high) * p + low * p;
    }
    Fits(p, q, low, 0);
    assert p * low == low * p;
    Quotient(p * q, high, low * p, x * p);
  }

  function Sub32(x: int, y: int): Word {
    (x - y) % 0x1_0000_0000
  }

  /** A line of mix, x -= z; x ^= rot(z, k); z += y, on the variables as they then are named: the next line has y for x,
      z for y and x for z. */
  function MixLine(s: State, k: nat): State
    requires k <= 32
  {
    State(s.b, (s.c + s.b) % 0x1_0000_0000, Xor(Sub32(s.a, s.c), Rot(s.c, k)))
  }

  /** The six lines, with their rotations. */
  function SixLines(s: State): State {
    MixLine(MixLine(MixLine(MixLine(MixLine(MixLine(s, 4), 6), 8), 16), 19), 4)
  }

  /** A line of final, z ^= y; z -= rot(y, k); the next line has x for z, z for y and y for x. */
  function FinalLine(s: State, k: nat): State
    requires k <= 32
  {
    State(s.b, Sub32(Xor(s.c, s.b), Rot(s.b, k)), s.a)
  }

  /** The seven lines, with theirs, and the variable the last one computes. */
  function SevenLines(s: State): Word {
    FinalLine(FinalLine(FinalLine(FinalLine(FinalLine(FinalLine(FinalLine(s, 14), 11), 25), 16), 4), 14), 24).b
  }

  lemma MixIs(s: State)
    ensures Mix(s) == SixLines(s)
  {
    hide Xor, Rot;
    var a0, b0, c0 := s.a, s.b, s.c;
    var a1, c1 := Xor(Minus(a0, c0), Rot(c0, 4)), Plus(c0, b0);
    var b1, a2 := Xor(Minus(b0, a1), Rot(a1, 6)), Plus(a1, c1);
    var c2, b2 := Xor(Minus(c1, b1), Rot(b1, 8)), Plus(b1, a2);
    var a3, c3 := Xor(Minus(a2, c2), Rot(c2, 16)), Plus(c2, b2);
    var b3, a4 := Xor(Minus(b2, a3), Rot(a3, 19)), Plus(a3, c3);
    LineIs(State(a0, b0, c0), 4);
    LineIs(State(b0, c1, a1), 6);
    LineIs(State(c1, a2, b1), 8);
    LineIs(State(a2, b2, c2), 16);
    LineIs(State(b2, c3, a3), 19);
    LineIs(State(c3, a4, b3), 4);
    hide MixLine, Plus, Minus;
  }

  lemma LineIs(s: State, k: nat)
    requires k <= 32
    ensures MixLine(s, k) == State(s.b, Plus(s.c, s.b), Xor(Minus(s.a, s.c), Rot(s.c, k)))
  {
    hide Xor, Rot;
  }

  lemma FinalIs(s: State)
    ensures Final(s) == SevenLines(s)
  {
    hide Xor, Rot;
  }

  // ---- the value: the key in words of four bytes, zeros after its end

  /** The little-endian word of four bytes. */
  function Pack(b0: Byte, b1: Byte, b2: Byte, b3: Byte): Word {
    b0 as int + 0x100 * b1 as int + 0x1_0000 * b2 as int + 0x100_0000 * b3 as int
  }

  function At(key: seq<Byte>, i: nat): Byte {
    if i < |key| then key[i] else 0
  }

  function WordAt(key: seq<Byte>, i: nat): Word {
    Pack(At(key, i), At(key, i + 1), At(key, i + 2), At(key, i + 3))
  }

  function AddWords(s: State, key: seq<Byte>): State {
    State(Plus(s.a, WordAt(key, 0)), Plus(s.b, WordAt(key, 4)), Plus(s.c, WordAt(key, 8)))
  }

  function Blocks(s: State, key: seq<Byte>): Word
    decreases |key|
  {
    if key == [] then s.c
    else if |key| <= 12 then Final(AddWords(s, key))
    else Blocks(Mix(AddWords(s, key)), key[12..])
  }

  function Start(length: nat): State {
    var x: Word := (0xdeadbeef + length + JENKINS_INITVAL) % TWO_TO_THE_32;
    State(x, x, x)
  }

  function Jenkins(key: seq<Byte>): Word {
    Blocks(Start(|key|), key)
  }

  /** The start, and the word of an empty key, for which nothing is mixed. */
  lemma StartIs(length: nat)
    ensures var x := (3735928572 + length) % 0x1_0000_0000; Start(length) == State(x, x, x)
    ensures Jenkins([]) == 3735928572
  {
  }

  /** The number that bytes stand for, the least significant first. */
  function LittleEndian(b: seq<Byte>): nat {
    if b == [] then 0 else b[0] as nat + 0x100 * LittleEndian(b[1..])
  }

  lemma WordAtIs(key: seq<Byte>, i: nat)
    ensures WordAt(key, i) == LittleEndian(if i >= |key| then [] else if i + 4 <= |key| then key[i..i + 4] else key[i..])
  {
    var b := if i >= |key| then [] else if i + 4 <= |key| then key[i..i + 4] else key[i..];
    PadLittle(b, At(key, i), At(key, i + 1), At(key, i + 2), At(key, i + 3));
  }

  lemma PadLittle(b: seq<Byte>, b0: Byte, b1: Byte, b2: Byte, b3: Byte)
    requires |b| <= 4 && b0 == At(b, 0) && b1 == At(b, 1) && b2 == At(b, 2) && b3 == At(b, 3)
    ensures LittleEndian(b) == Pack(b0, b1, b2, b3)
  {
    var c := if |b| > 0 then b[1..] else [];
    var d := if |c| > 0 then c[1..] else [];
    var e := if |d| > 0 then d[1..] else [];
    assert LittleEndian(e) == At(e, 0) as int;
    assert LittleEndian(d) == At(d, 0) as int + 0x100 * LittleEndian(e);
    assert LittleEndian(c) == At(c, 0) as int + 0x100 * LittleEndian(d);
    assert LittleEndian(b) == At(b, 0) as int + 0x100 * LittleEndian(c);
    assert At(c, 0) == b1 && At(d, 0) == b2 && At(e, 0) == b3;
  }

  /** A key of at most twelve bytes: its three words are added, and the state is brought to its end. A longer one: its
      first twelve are added and mixed in, and the rest follows. */
  lemma BlocksAre(s: State, key: seq<Byte>)
    ensures var t := State((s.a + WordAt(key, 0)) % 0x1_0000_0000, (s.b + WordAt(key, 4)) % 0x1_0000_0000,
                           (s.c + WordAt(key, 8)) % 0x1_0000_0000);
      Blocks(s, key) == if |key| == 0 then s.c
                        else if |key| <= 12 then SevenLines(t)
                        else Blocks(SixLines(t), key[12..])
  {
    hide Mix, Final, SixLines, SevenLines, WordAt;
    MixIs(AddWords(s, key));
    FinalIs(AddWords(s, key));
  }

  // ---- how the three paths read

  /** A word, halfword or byte of memory. */
  function Load32(memory: seq<Byte>, at: nat): Word
    requires at + 4 <= |memory|
  {
    Pack(memory[at], memory[at + 1], memory[at + 2], memory[at + 3])
  }

  function Load16(memory: seq<Byte>, at: nat): Word
    requires at + 2 <= |memory|
  {
    memory[at] as int + 0x100 * memory[at + 1] as int
  }

  function Load8(memory: seq<Byte>, at: nat): Word
    requires at < |memory|
  {
    memory[at]
  }

  /** w & mask, for a mask of n ones. */
  function Masked(w: Word, mask: Word): nat {
    BitAnd(w, mask, 32)
  }

  lemma Masks(w: Word)
    ensures Masked(w, 0xffffff) == w % 0x100_0000 && Masked(w, 0xffff) == w % 0x1_0000 && Masked(w, 0xff) == w % 0x100
  {
    assert Pow2(8) == 0x100;
    assert Pow2(16) == 0x1_0000;
    assert Pow2(24) == 0x100_0000;
    hide BitAnd, Pow2;
    BitAndMask(w, 24, 32);
    BitAndMask(w, 16, 32);
    BitAndMask(w, 8, 32);
  }

  lemma PackMasked(b0: Byte, b1: Byte, b2: Byte, b3: Byte)
    ensures var w := Pack(b0, b1, b2, b3);
      && Masked(w, 0xffffff) == Pack(b0, b1, b2, 0)
      && Masked(w, 0xffff) == Pack(b0, b1, 0, 0)
      && Masked(w, 0xff) == Pack(b0, 0, 0, 0)
  {
    hide Masked;
    var x, y, z := b0 as int, b0 as int + 0x100 * b1 as int, b0 as int + 0x100 * b1 as int + 0x1_0000 * b2 as int;
    Masks(Pack(b0, b1, b2, b3));
    Remainder(0x100_0000, b3, z);
    Remainder(0x1_0000, b2 as int + 0x100 * b3 as int, y);
    Remainder(0x100, b1 as int + 0x100 * b2 as int + 0x1_0000 * b3 as int, x);
  }

  lemma Shifts(w: Word)
    ensures w < 0x1_0000 ==> Shift(w, 16) == w * 0x1_0000
    ensures w < 0x100 ==> Shift(w, 8) == w * 0x100 && Shift(w, 24) == w * 0x100_0000
  {
    assert Pow2(8) == 0x100;
    assert Pow2(16) == 0x1_0000;
    assert Pow2(24) == 0x100_0000;
    hide Pow2;
  }

  lemma KeyAt(memory: seq<Byte>, k: nat, length: nat, i: nat)
    requires k + length <= |memory|
    ensures At(memory[k..k + length], i) == if i < length then memory[k + i] else 0
  {
  }

  lemma PackZero()
    ensures Pack(0, 0, 0, 0) == 0
  {
  }

  lemma KeyWord(memory: seq<Byte>, k: nat, length: nat, i: nat)
    requires k + length <= |memory|
    ensures i + 4 <= length ==>
      WordAt(memory[k..k + length], i) == Pack(memory[k + i], memory[k + i + 1], memory[k + i + 2], memory[k + i + 3])
    ensures i + 3 == length ==> WordAt(memory[k..k + length], i) == Pack(memory[k + i], memory[k + i + 1], memory[k + i + 2], 0)
    ensures i + 2 == length ==> WordAt(memory[k..k + length], i) == Pack(memory[k + i], memory[k + i + 1], 0, 0)
    ensures i + 1 == length ==> WordAt(memory[k..k + length], i) == Pack(memory[k + i], 0, 0, 0)
    ensures i >= length ==> WordAt(memory[k..k + length], i) == 0
  {
    hide Pack, At;
    PackZero();
    KeyAt(memory, k, length, i);
    KeyAt(memory, k, length, i + 1);
    KeyAt(memory, k, length, i + 2);
    KeyAt(memory, k, length, i + 3);
  }

  /** What the key in memory[k..k + length] contributes at offset i, as it is read by words: what a word holds past
      the end of the key is masked off. */
  lemma WordsRead(memory: seq<Byte>, k: nat, length: nat, i: nat)
    requires k + length <= |memory| && (i < length ==> k + i + 4 <= |memory|)
    ensures i >= length ==> WordAt(memory[k..k + length], i) == 0
    ensures i < length ==>
      var key, w := memory[k..k + length], Load32(memory, k + i);
      && (i + 4 <= length ==> WordAt(key, i) == w)
      && (i + 3 == length ==> WordAt(key, i) == Masked(w, 0xffffff))
      && (i + 2 == length ==> WordAt(key, i) == Masked(w, 0xffff))
      && (i + 1 == length ==> WordAt(key, i) == Masked(w, 0xff))
  {
    hide Pack, Masked, WordAt;
    KeyWord(memory, k, length, i);
    if i < length {
      PackMasked(memory[k + i], memory[k + i + 1], memory[k + i + 2], memory[k + i + 3]);
    }
  }

  /** As it is read by halfwords. */
  lemma HalvesRead(memory: seq<Byte>, k: nat, length: nat, i: nat)
    requires k + length <= |memory|
    ensures var key := memory[k..k + length];
      && (i >= length ==> WordAt(key, i) == 0)
      && (i + 4 <= length ==> WordAt(key, i) == Plus(Load16(memory, k + i), Shift(Load16(memory, k + i + 2), 16)))
      && (i + 3 == length ==> WordAt(key, i) == Plus(Load16(memory, k + i), Shift(Load8(memory, k + i + 2), 16)))
      && (i + 2 == length ==> WordAt(key, i) == Load16(memory, k + i))
      && (i + 1 == length ==> WordAt(key, i) == Load8(memory, k + i))
  {
    hide WordAt, Shift;
    KeyWord(memory, k, length, i);
    if i + 4 <= length {
      Shifts(Load16(memory, k + i + 2));
    } else if i + 3 == length {
      Shifts(Load8(memory, k + i + 2));
    }
  }

  /** Adding four bytes one by one, from either end, adds their word. */
  lemma AddBytes(a: Word, b0: Byte, b1: Byte, b2: Byte, b3: Byte)
    ensures Plus(a, Pack(b0, b1, b2, b3)) == Plus(Plus(Plus(Plus(a, b0), Shift(b1, 8)), Shift(b2, 16)), Shift(b3, 24))
    ensures Plus(a, Pack(b0, b1, b2, b3)) == Plus(Plus(Plus(Plus(a, Shift(b3, 24)), Shift(b2, 16)), Shift(b1, 8)), b0)
  {
    hide Shift;
    Shifts(b1);
    Shifts(b2);
    Shifts(b3);
    hide Plus;
    PlusSum(a, b0, 0x100 * b1, 0x1_0000 * b2, 0x100_0000 * b3);
    PlusSum(a, 0x100_0000 * b3, 0x1_0000 * b2, 0x100 * b1, b0);
  }

  lemma PlusSum(a: Word, w: Word, x: Word, y: Word, z: Word)
    requires w + x + y + z < TWO_TO_THE_32
    ensures Plus(Plus(Plus(Plus(a, w), x), y), z) == Plus(a, w + x + y + z)
  {
    hide Plus;
    PlusSwap(a, w, x);
    PlusSwap(a, w + x, y);
    PlusSwap(a, w + x + y, z);
  }

  /** Addition wraps around, and still does not mind the order. */
  lemma PlusSwap(c: Word, x: Word, y: Word)
    ensures Plus(Plus(c, x), y) == Plus(c, Plus(x, y)) == Plus(Plus(c, y), x)
    ensures x + y < TWO_TO_THE_32 ==> Plus(x, y) == x + y
  {
    PlusSmall(x, y);
    hide Plus;
    PlusThree(c, x, y);
    PlusThree(c, y, x);
  }

  lemma PlusSmall(x: Word, y: Word)
    ensures x + y < TWO_TO_THE_32 ==> Plus(x, y) == x + y
  {
  }

  lemma PlusThree(c: Word, x: Word, y: Word)
    ensures Plus(Plus(c, x), y) == (c + x + y) % TWO_TO_THE_32 == Plus(c, Plus(x, y))
  {
    ModuloPlus(c + x, y);
    ModuloPlus(x + y, c);
  }

  lemma ModuloPlus(a: int, y: int)
    ensures (a % TWO_TO_THE_32 + y) % TWO_TO_THE_32 == (a + y) % TWO_TO_THE_32
  {
  }

  lemma PlusZero(w: Word)
    ensures Plus(w, 0) == w
  {
  }

  lemma BlocksStep(s: State, key: seq<Byte>)
    ensures key == [] ==> Blocks(s, key) == s.c
    ensures 0 < |key| <= 12 ==> Blocks(s, key) == Final(AddWords(s, key))
    ensures |key| > 12 ==> Blocks(s, key) == Blocks(Mix(AddWords(s, key)), key[12..])
  {
    hide Mix, Final, AddWords;
  }

  // ---- the three paths

  /** The key begins at a word; the last word may be read past the end of the key. */
  method HashWords(memory: seq<Byte>, keyLength: nat) returns (h: Word)
    requires keyLength <= |memory| && (keyLength + 3) / 4 * 4 <= |memory|
    ensures h == Jenkins(memory[..keyLength])
  {
    hide Mix, Final, Blocks, WordAt, Start, Plus, Load32;
    var s := Start(keyLength);
    var a, b, c, length, k := s.a, s.b, s.c, keyLength, 0;
    assert memory[0..keyLength] == memory[..keyLength];
    while length > 12
      invariant k + length == keyLength && k % 4 == 0
      invariant Blocks(State(a, b, c), memory[k..k + length]) == Jenkins(memory[..keyLength])
    {
      WordsRead(memory, k, length, 0);
      WordsRead(memory, k, length, 4);
      WordsRead(memory, k, length, 8);
      BlocksStep(State(a, b, c), memory[k..k + length]);
      assert memory[k..k + length][12..] == memory[k + 12..k + length];
      a := Plus(a, Load32(memory, k));
      b := Plus(b, Load32(memory, k + 4));
      c := Plus(c, Load32(memory, k + 8));
      var mixed := Mix(State(a, b, c));
      a, b, c := mixed.a, mixed.b, mixed.c;
      length, k := length - 12, k + 12;
    }
    h := WordsTail(memory, k, length, State(a, b, c));
  }

  method WordsTail(memory: seq<Byte>, k: nat, length: nat, s: State) returns (h: Word)
    requires length <= 12 && k + length <= |memory| && k + (length + 3) / 4 * 4 <= |memory|
    ensures h == Blocks(s, memory[k..k + length])
  {
    hide Mix, Final, Blocks, WordAt, Plus, Load32, Masked;
    BlocksStep(s, memory[k..k + length]);
    WordsRead(memory, k, length, 0);
    WordsRead(memory, k, length, 4);
    WordsRead(memory, k, length, 8);
    PlusZero(s.b);
    PlusZero(s.c);
    var a, b, c := s.a, s.b, s.c;
    match length {
      case 12 =>
        c := Plus(c, Load32(memory, k + 8));
        b := Plus(b, Load32(memory, k + 4));
        a := Plus(a, Load32(memory, k));
      case 11 =>
        c := Plus(c, Masked(Load32(memory, k + 8), 0xffffff));
        b := Plus(b, Load32(memory, k + 4));
        a := Plus(a, Load32(memory, k));
      case 10 =>
        c := Plus(c, Masked(Load32(memory, k + 8), 0xffff));
        b := Plus(b, Load32(memory, k + 4));
        a := Plus(a, Load32(memory, k));
      case 9 =>
        c := Plus(c, Masked(Load32(memory, k + 8), 0xff));
        b := Plus(b, Load32(memory, k + 4));
        a := Plus(a, Load32(memory, k));
      case 8 => b := Plus(b, Load32(memory, k + 4)); a := Plus(a, Load32(memory, k));
      case 7 => b := Plus(b, Masked(Load32(memory, k + 4), 0xffffff)); a := Plus(a, Load32(memory, k));
      case 6 => b := Plus(b, Masked(Load32(memory, k + 4), 0xffff)); a := Plus(a, Load32(memory, k));
      case 5 => b := Plus(b, Masked(Load32(memory, k + 4), 0xff)); a := Plus(a, Load32(memory, k));
      case 4 => a := Plus(a, Load32(memory, k));
      case 3 => a := Plus(a, Masked(Load32(memory, k), 0xffffff));
      case 2 => a := Plus(a, Masked(Load32(memory, k), 0xffff));
      case 1 => a := Plus(a, Masked(Load32(memory, k), 0xff));
      case _ => return c;
    }
    h := Final(State(a, b, c));
  }

  /** The key begins at a halfword. */
  method HashHalfwords(memory: seq<Byte>, keyLength: nat) returns (h: Word)
    requires keyLength <= |memory|
    ensures h == Jenkins(memory[..keyLength])
  {
    hide Mix, Final, Blocks, WordAt, Start, Plus, Load16, Shift;
    var s := Start(keyLength);
    var a, b, c, length, k := s.a, s.b, s.c, keyLength, 0;
    assert memory[0..keyLength] == memory[..keyLength];
    while length > 12
      invariant k + length == keyLength && k % 4 == 0
      invariant Blocks(State(a, b, c), memory[k..k + length]) == Jenkins(memory[..keyLength])
    {
      HalvesRead(memory, k, length, 0);
      HalvesRead(memory, k, length, 4);
      HalvesRead(memory, k, length, 8);
      BlocksStep(State(a, b, c), memory[k..k + length]);
      assert memory[k..k + length][12..] == memory[k + 12..k + length];
      a := Plus(a, Plus(Load16(memory, k), Shift(Load16(memory, k + 2), 16)));
      b := Plus(b, Plus(Load16(memory, k + 4), Shift(Load16(memory, k + 6), 16)));
      c := Plus(c, Plus(Load16(memory, k + 8), Shift(Load16(memory, k + 10), 16)));
      var mixed := Mix(State(a, b, c));
      a, b, c := mixed.a, mixed.b, mixed.c;
      length, k := length - 12, k + 12;
    }
    h := HalfwordsTail(memory, k, length, State(a, b, c));
  }

  method HalfwordsTail(memory: seq<Byte>, k: nat, length: nat, s: State) returns (h: Word)
    requires length <= 12 && k + length <= |memory|
    ensures h == Blocks(s, memory[k..k + length])
  {
    hide Mix, Final, Blocks, WordAt, Plus, Load16, Load8, Shift;
    BlocksStep(s, memory[k..k + length]);
    HalvesRead(memory, k, length, 0);
    HalvesRead(memory, k, length, 4);
    HalvesRead(memory, k, length, 8);
    PlusZero(s.b);
    PlusZero(s.c);
    var a, b, c := s.a, s.b, s.c;
    match length {
      case 12 =>
        c := Plus(c, Plus(Load16(memory, k + 8), Shift(Load16(memory, k + 10), 16)));
        b := Plus(b, Plus(Load16(memory, k + 4), Shift(Load16(memory, k + 6), 16)));
        a := Plus(a, Plus(Load16(memory, k), Shift(Load16(memory, k + 2), 16)));
      case 11 =>
        PlusSwap(c, Load16(memory, k + 8), Shift(Load8(memory, k + 10), 16));
        c := Plus(c, Shift(Load8(memory, k + 10), 16));
        c := Plus(c, Load16(memory, k + 8));
        b := Plus(b, Plus(Load16(memory, k + 4), Shift(Load16(memory, k + 6), 16)));
        a := Plus(a, Plus(Load16(memory, k), Shift(Load16(memory, k + 2), 16)));
      case 10 =>
        c := Plus(c, Load16(memory, k + 8));
        b := Plus(b, Plus(Load16(memory, k + 4), Shift(Load16(memory, k + 6), 16)));
        a := Plus(a, Plus(Load16(memory, k), Shift(Load16(memory, k + 2), 16)));
      case 9 =>
        c := Plus(c, Load8(memory, k + 8));
        b := Plus(b, Plus(Load16(memory, k + 4), Shift(Load16(memory, k + 6), 16)));
        a := Plus(a, Plus(Load16(memory, k), Shift(Load16(memory, k + 2), 16)));
      case 8 =>
        b := Plus(b, Plus(Load16(memory, k + 4), Shift(Load16(memory, k + 6), 16)));
        a := Plus(a, Plus(Load16(memory, k), Shift(Load16(memory, k + 2), 16)));
      case 7 =>
        PlusSwap(b, Load16(memory, k + 4), Shift(Load8(memory, k + 6), 16));
        b := Plus(b, Shift(Load8(memory, k + 6), 16));
        b := Plus(b, Load16(memory, k + 4));
        a := Plus(a, Plus(Load16(memory, k), Shift(Load16(memory, k + 2), 16)));
      case 6 =>
        b := Plus(b, Load16(memory, k + 4));
        a := Plus(a, Plus(Load16(memory, k), Shift(Load16(memory, k + 2), 16)));
      case 5 =>
        b := Plus(b, Load8(memory, k + 4));
        a := Plus(a, Plus(Load16(memory, k), Shift(Load16(memory, k + 2), 16)));
      case 4 => a := Plus(a, Plus(Load16(memory, k), Shift(Load16(memory, k + 2), 16)));
      case 3 =>
        PlusSwap(a, Load16(memory, k), Shift(Load8(memory, k + 2), 16));
        a := Plus(a, Shift(Load8(memory, k + 2), 16));
        a := Plus(a, Load16(memory, k));
      case 2 => a := Plus(a, Load16(memory, k));
      case 1 => a := Plus(a, Load8(memory, k));
      case _ => return c;
    }
    h := Final(State(a, b, c));
  }

  /** The key begins anywhere: four bytes are added one by one. */
  method HashBytes(memory: seq<Byte>, keyLength: nat) returns (h: Word)
    requires keyLength <= |memory|
    ensures h == Jenkins(memory[..keyLength])
  {
    hide Mix, Final, Blocks, WordAt, Start, Plus, Shift;
    var s := Start(keyLength);
    var a, b, c, length, k := s.a, s.b, s.c, keyLength, 0;
    assert memory[0..keyLength] == memory[..keyLength];
    while length > 12
      invariant k + length == keyLength
      invariant Blocks(State(a, b, c), memory[k..k + length]) == Jenkins(memory[..keyLength])
    {
      KeyWord(memory, k, length, 0);
      KeyWord(memory, k, length, 4);
      KeyWord(memory, k, length, 8);
      BlocksStep(State(a, b, c), memory[k..k + length]);
      assert memory[k..k + length][12..] == memory[k + 12..k + length];
      a := AddFour(a, memory, k);
      b := AddFour(b, memory, k + 4);
      c := AddFour(c, memory, k + 8);
      var mixed := Mix(State(a, b, c));
      a, b, c := mixed.a, mixed.b, mixed.c;
      length, k := length - 12, k + 12;
    }
    h := BytesTail(memory, k, length, State(a, b, c));
  }

  method AddFour(a: Word, memory: seq<Byte>, k: nat) returns (sum: Word)
    requires k + 4 <= |memory|
    ensures sum == Plus(a, Pack(memory[k], memory[k + 1], memory[k + 2], memory[k + 3]))
  {
    hide Plus, Shift, Pack;
    AddBytes(a, memory[k], memory[k + 1], memory[k + 2], memory[k + 3]);
    sum := Plus(a, memory[k]);
    sum := Plus(sum, Shift(memory[k + 1], 8));
    sum := Plus(sum, Shift(memory[k + 2], 16));
    sum := Plus(sum, Shift(memory[k + 3], 24));
  }

  /** Every case falls through to the shorter ones. */
  method BytesTail(memory: seq<Byte>, k: nat, length: nat, s: State) returns (h: Word)
    requires length <= 12 && k + length <= |memory|
    ensures h == Blocks(s, memory[k..k + length])
  {
    hide Mix, Final, Blocks, WordAt, Plus, Shift, Pack;
    BlocksStep(s, memory[k..k + length]);
    if length == 0 { return s.c; }
    var c := AddRest(s.c, memory, k, length, 8);
    var b := AddRest(s.b, memory, k, length, 4);
    var a := AddRest(s.a, memory, k, length, 0);
    h := Final(State(a, b, c));
  }

  /** The four cases that add to one of the three sums. */
  method AddRest(a: Word, memory: seq<Byte>, k: nat, length: nat, i: nat) returns (sum: Word)
    requires k + length <= |memory|
    ensures sum == Plus(a, WordAt(memory[k..k + length], i))
  {
    hide Plus, Shift, Pack, WordAt;
    KeyWord(memory, k, length, i);
    var b0, b1 := At(memory[k..k + length], i), At(memory[k..k + length], i + 1);
    var b2, b3 := At(memory[k..k + length], i + 2), At(memory[k..k + length], i + 3);
    AddBytes(a, b0, b1, b2, b3);
    NoByte(a);
    WordDefined(memory[k..k + length], i);
    sum := a;
    if length >= i + 4 { sum := Plus(sum, Shift(memory[k + i + 3], 24)); }
    if length >= i + 3 { sum := Plus(sum, Shift(memory[k + i + 2], 16)); }
    if length >= i + 2 { sum := Plus(sum, Shift(memory[k + i + 1], 8)); }
    if length >= i + 1 { sum := Plus(sum, memory[k + i]); }
  }

  lemma WordDefined(key: seq<Byte>, i: nat)
    ensures WordAt(key, i) == Pack(At(key, i), At(key, i + 1), At(key, i + 2), At(key, i + 3))
  {
  }

  lemma NoByte(a: Word)
    ensures Shift(0, 24) == Shift(0, 16) == Shift(0, 8) == 0 && Plus(a, 0) == a
  {
    Shifts(0);
  }

  /** Whatever path the address asks for, and whatever the memory holds after the key, the hash is that of the
      key. The path by words needs the memory up to the next word to be readable. */
  method HashJenkins(memory: seq<Byte>, length: nat, address: nat) returns (h: Word)
    requires length <= |memory| && (address % 4 == 0 ==> (length + 3) / 4 * 4 <= |memory|)
    ensures h == Jenkins(memory[..length])
  {
    if address % 4 == 0 {
      h := HashWords(memory, length);
    } else if address % 2 == 0 {
      h := HashHalfwords(memory, length);
    } else {
      h := HashBytes(memory, length);
    }
  }
}
