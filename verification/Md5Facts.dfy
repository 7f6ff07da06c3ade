/** What MD5 computes, apart from how Md5Spec writes it: a known answer, and each definition bit by bit. */
module Md5Facts {
  import Bits
  import opened Md5Spec
  import opened Md5

  // ---- the words

  /** Bit i of a word. */
  function Bit(x: Word, i: Word): Word
    requires i < 32
  {
    (x >> i) & 1
  }

  lemma TurnedBit(x: Word, s: Word, i: Word)
    requires 0 < s < 32 && i < 32
    ensures ((((x << s) | (x >> (32 - s))) >> ((i + s) % 32)) & 1) == (x >> i) & 1
  {
  }

  /** Every bit moves s places up, and from the top round to the bottom. */
  lemma RotateMoves(x: Word, s: Word, i: Word)
    requires 0 < s < 32 && i < 32
    ensures Bit(Rotate(x, s), (i + s) % 32) == Bit(x, i)
  {
    TurnedBit(x, s, i);
  }

  /** The functions of the rounds by their truth tables: which combinations of bits give a one. */
  lemma FTable(x: Word, y: Word, z: Word)
    ensures F(x, y, z) == (x & y & z) | (x & y & !z) | (!x & y & z) | (!x & !y & z)
  {
    BitsOfF(x, y, z);
  }

  lemma BitsOfF(x: Word, y: Word, z: Word)
    ensures (x & y) | (!x & z) == (x & y & z) | (x & y & !z) | (!x & y & z) | (!x & !y & z)
  {
  }

  lemma GTable(x: Word, y: Word, z: Word)
    ensures G(x, y, z) == (x & y & z) | (!x & y & !z) | (x & y & !z) | (x & !y & z)
  {
    BitsOfG(x, y, z);
  }

  lemma BitsOfG(x: Word, y: Word, z: Word)
    ensures (x & z) | (y & !z) == (x & y & z) | (!x & y & !z) | (x & y & !z) | (x & !y & z)
  {
  }

  lemma HTable(x: Word, y: Word, z: Word)
    ensures H(x, y, z) == (x & y & z) | (x & !y & !z) | (!x & y & !z) | (!x & !y & z)
  {
    BitsOfH(x, y, z);
  }

  lemma BitsOfH(x: Word, y: Word, z: Word)
    ensures x ^ y ^ z == (x & y & z) | (x & !y & !z) | (!x & y & !z) | (!x & !y & z)
  {
  }

  lemma ITable(x: Word, y: Word, z: Word)
    ensures I(x, y, z) == (!x & !y & !z) | (x & !y & !z) | (x & !y & z) | (!x & y & z)
  {
    BitsOfI(x, y, z);
  }

  lemma BitsOfI(x: Word, y: Word, z: Word)
    ensures y ^ (x | !z) == (!x & !y & !z) | (x & !y & !z) | (x & !y & z) | (!x & y & z)
  {
  }

  lemma WordBits(a: Byte, b: Byte, c: Byte, d: Byte)
    ensures var w := (a as Word) | ((b as Word) << 8) | ((c as Word) << 16) | ((d as Word) << 24);
      && (w & 0xff) as Byte == a && ((w >> 8) & 0xff) as Byte == b
      && ((w >> 16) & 0xff) as Byte == c && ((w >> 24) & 0xff) as Byte == d
  {
  }

  /** A word is four bytes, the low one first. */
  lemma WordOfBytes(p: seq<Byte>, n: nat)
    requires 4 * n + 4 <= |p|
    ensures Output(WordAt(p, n)) == p[4 * n..4 * n + 4]
  {
    WordBits(p[4 * n], p[4 * n + 1], p[4 * n + 2], p[4 * n + 3]);
  }

  /** The first chaining words, section 3.3, byte by byte. */
  lemma InitBytes()
    ensures Output(INIT_STATE.a) == [0x01, 0x23, 0x45, 0x67] && Output(INIT_STATE.b) == [0x89, 0xab, 0xcd, 0xef]
    ensures Output(INIT_STATE.c) == [0xfe, 0xdc, 0xba, 0x98] && Output(INIT_STATE.d) == [0x76, 0x54, 0x32, 0x10]
  {
  }

  // ---- the padding

  /** The message, one byte 0x80, zeros, and the bit length in eight bytes, in the fewest whole blocks. */
  lemma PaddedExactly(m: seq<Byte>)
    ensures var p, n := Padded(m), |m|;
      && |p| % 64 == 0 && n + 9 <= |p| < n + 9 + 64
      && p[..n] == m && p[n] == 0x80
      && (forall i :: n < i < |p| - 8 ==> p[i] == 0)
      && (forall i :: 0 <= i < 8 ==> p[|p| - 8 + i] == (8 * n / Power256(i) % 256) as Byte)
  {
    PaddedWhole(m);
    var p, n, z, l := Padded(m), |m|, Zeros(ZerosFor(|m|)), LengthBytes(|m|);
    assert p == m + ([0x80] + z + l);
    forall i | 0 <= i < 8 ensures p[|p| - 8 + i] == (8 * n / Power256(i) % 256) as Byte {
      assert p[|p| - 8 + i] == l[i];
      LengthByte(n, i);
    }
  }

  function Power256(i: nat): (r: nat)
    ensures r > 0
  {
    if i == 0 then 1 else 256 * Power256(i - 1)
  }

  lemma Powers256()
    ensures Power256(0) == 1 && Power256(1) == 0x100 && Power256(2) == 0x1_0000 && Power256(3) == 0x100_0000
    ensures Power256(4) == 0x1_0000_0000 && Power256(5) == 0x100_0000_0000
    ensures Power256(6) == 0x1_0000_0000_0000 && Power256(7) == 0x100_0000_0000_0000
  {
    assert Power256(2) == 0x1_0000;
    assert Power256(4) == 0x1_0000_0000;
    assert Power256(6) == 0x1_0000_0000_0000;
  }

  lemma ByteValue(n: nat, i: nat)
    requires i < 4
    ensures ByteOf(n, i) == (n / Power256(i) % 256) as Byte
  {
    Powers256();
    hide Power256;
  }

  /** A byte of a number is the same byte of its remainder modulo a larger power. */
  lemma ByteBelow(v: nat, p: nat, k: nat)
    requires p > 0 && k > 0
    ensures p * (256 * k) > 0 && v % (p * (256 * k)) / p % 256 == v / p % 256
  {
    Bits.DivideModulo(v, p, 256 * k);
    Bits.ModuloModulo(v / p, 256, k);
  }

  lemma PowersMultiply(i: nat)
    requires i < 8
    ensures i < 4 ==> Power256(i) * (256 * Power256(3 - i)) == 0x1_0000_0000
    ensures i >= 4 ==> 0x1_0000_0000 * Power256(i - 4) == Power256(i)
    ensures Power256(i) * (256 * Power256(7 - i)) == 0x1_0000_0000_0000_0000
  {
    Powers256();
    hide Power256;
  }

  lemma LengthIndex(n: nat, i: nat)
    requires i < 8
    ensures var bits := 8 * n % 0x1_0000_0000_0000_0000;
      LengthBytes(n)[i] == if i < 4 then ByteOf(bits % 0x1_0000_0000, i) else ByteOf(bits / 0x1_0000_0000, i - 4)
  {
    hide ByteOf;
  }

  lemma LengthByte(n: nat, i: nat)
    requires i < 8
    ensures LengthBytes(n)[i] == (8 * n / Power256(i) % 256) as Byte
  {
    var bits := 8 * n % 0x1_0000_0000_0000_0000;
    LengthIndex(n, i);
    PowersMultiply(i);
    hide LengthBytes, ByteOf, Power256;
    if i < 4 {
      ByteValue(bits % 0x1_0000_0000, i);
      ByteBelow(bits, Power256(i), Power256(3 - i));
    } else {
      ByteValue(bits / 0x1_0000_0000, i - 4);
      Bits.DivideTwice(bits, 0x1_0000_0000, Power256(i - 4));
    }
    ByteBelow(8 * n, Power256(i), Power256(7 - i));
  }

  // ---- a known answer: the third digest of RFC 1321, A.5

  /** The block that the message abc is padded to. */
  ghost predicate IsAbc(x: seq<Word>) {
    && |x| == 16 && x[0] == 0x80636261 && x[14] == 24
    && x[1] == x[2] == x[3] == x[4] == x[5] == x[6] == x[7] == x[8] == x[9] == x[10] == x[11] == x[12] == x[13] == x[15] == 0
  }

  lemma Abc(x: seq<Word>, n: nat, a: Word, b: Word, c: Word, d: Word, w: Word, t: Word, s: Word, r: Word)
    requires |x| == 16 && Rounds(x, INIT_STATE, n) == State(a, b, c, d)
    requires 0 < s < 32 && x[Pick(n)] == w && Sine(n) == t && Shift(n) == s && Operation(a, b, Mix(n, b, c, d), w, t, s) == r
    ensures Rounds(x, INIT_STATE, n + 1) == State(d, r, b, c)
  {
    RoundAt(x, INIT_STATE, n, a, b, c, d);
  }

  lemma Abc1(x: seq<Word>)
    requires IsAbc(x)
    ensures Rounds(x, INIT_STATE, 16) == State(0xdda9b9a6, 0x72aff2e0, 0xe396856b, 0xa1051895)
  {
    NoRounds(x, INIT_STATE);
    Schedule1();
    Sines1();
    hide Rounds, Pick, Sine, Shift;
    Abc(x, 0, 0x67452301, 0xefcdab89, 0x98badcfe, 0x10325476, 0x80636261, 0xd76aa478, 7, 0xd6d117b4);
    Abc(x, 1, 0x10325476, 0xd6d117b4, 0xefcdab89, 0x98badcfe, 0x00000000, 0xe8c7b756, 12, 0x344a8432);
    Abc(x, 2, 0x98badcfe, 0x344a8432, 0xd6d117b4, 0xefcdab89, 0x00000000, 0x242070db, 17, 0x2f6fbd72);
    Abc(x, 3, 0xefcdab89, 0x2f6fbd72, 0x344a8432, 0xd6d117b4, 0x00000000, 0xc1bdceee, 22, 0x7ad956f2);
    Abc(x, 4, 0xd6d117b4, 0x7ad956f2, 0x2f6fbd72, 0x344a8432, 0x00000000, 0xf57c0faf, 7, 0xc73741ef);
    Abc(x, 5, 0x344a8432, 0xc73741ef, 0x7ad956f2, 0x2f6fbd72, 0x00000000, 0x4787c62a, 12, 0x8bac3051);
    Abc(x, 6, 0x2f6fbd72, 0x8bac3051, 0xc73741ef, 0x7ad956f2, 0x00000000, 0xa8304613, 17, 0x207dc67b);
    Abc(x, 7, 0x7ad956f2, 0x207dc67b, 0x8bac3051, 0xc73741ef, 0x00000000, 0xfd469501, 22, 0x928d99f6);
    Abc(x, 8, 0xc73741ef, 0x928d99f6, 0x207dc67b, 0x8bac3051, 0x00000000, 0x698098d8, 7, 0x854b3712);
    Abc(x, 9, 0x8bac3051, 0x854b3712, 0x928d99f6, 0x207dc67b, 0x00000000, 0x8b44f7af, 12, 0x74e2f284);
    Abc(x, 10, 0x207dc67b, 0x74e2f284, 0x854b3712, 0x928d99f6, 0x00000000, 0xffff5bb1, 17, 0x3020401c);
    Abc(x, 11, 0x928d99f6, 0x3020401c, 0x74e2f284, 0x854b3712, 0x00000000, 0x895cd7be, 22, 0x5ed49596);
    Abc(x, 12, 0x854b3712, 0x5ed49596, 0x3020401c, 0x74e2f284, 0x00000000, 0x6b901122, 7, 0xdda9b9a6);
    Abc(x, 13, 0x74e2f284, 0xdda9b9a6, 0x5ed49596, 0x3020401c, 0x00000000, 0xfd987193, 12, 0xa1051895);
    Abc(x, 14, 0x3020401c, 0xa1051895, 0xdda9b9a6, 0x5ed49596, 0x00000018, 0xa679438e, 17, 0xe396856b);
    Abc(x, 15, 0x5ed49596, 0xe396856b, 0xa1051895, 0xdda9b9a6, 0x00000000, 0x49b40821, 22, 0x72aff2e0);
  }

  lemma Abc2(x: seq<Word>)
    requires IsAbc(x) && Rounds(x, INIT_STATE, 16) == State(0xdda9b9a6, 0x72aff2e0, 0xe396856b, 0xa1051895)
    ensures Rounds(x, INIT_STATE, 32) == State(0x790a77fb, 0x726342d3, 0xa62884aa, 0x9f47e4f8)
  {
    Schedule2();
    Sines2();
    hide Rounds, Pick, Sine, Shift;
    Abc(x, 16, 0xdda9b9a6, 0x72aff2e0, 0xe396856b, 0xa1051895, 0x00000000, 0xf61e2562, 5, 0x3e9e9126);
    Abc(x, 17, 0xa1051895, 0x3e9e9126, 0x72aff2e0, 0xe396856b, 0x00000000, 0xc040b340, 9, 0x4a1d804e);
    Abc(x, 18, 0xe396856b, 0x4a1d804e, 0x3e9e9126, 0x72aff2e0, 0x00000000, 0x265e5a51, 14, 0xe25e1652);
    Abc(x, 19, 0x72aff2e0, 0xe25e1652, 0x4a1d804e, 0x3e9e9126, 0x80636261, 0xe9b6c7aa, 20, 0xb5b204e4);
    Abc(x, 20, 0x3e9e9126, 0xb5b204e4, 0xe25e1652, 0x4a1d804e, 0x00000000, 0xd62f105d, 5, 0x59a8ffda);
    Abc(x, 21, 0x4a1d804e, 0x59a8ffda, 0xb5b204e4, 0xe25e1652, 0x00000000, 0x02441453, 9, 0x6d002f1e);
    Abc(x, 22, 0xe25e1652, 0x6d002f1e, 0x59a8ffda, 0xb5b204e4, 0x00000000, 0xd8a1e681, 14, 0xabfc7920);
    Abc(x, 23, 0xb5b204e4, 0xabfc7920, 0x6d002f1e, 0x59a8ffda, 0x00000000, 0xe7d3fbc8, 20, 0x47092c07);
    Abc(x, 24, 0x59a8ffda, 0x47092c07, 0xabfc7920, 0x6d002f1e, 0x00000000, 0x21e1cde6, 5, 0xb7f268cf);
    Abc(x, 25, 0x6d002f1e, 0xb7f268cf, 0x47092c07, 0xabfc7920, 0x00000018, 0xc33707d6, 9, 0x09388eff);
    Abc(x, 26, 0xabfc7920, 0x09388eff, 0xb7f268cf, 0x47092c07, 0x00000000, 0xf4d50d87, 14, 0xfe1623b1);
    Abc(x, 27, 0x47092c07, 0xfe1623b1, 0x09388eff, 0xb7f268cf, 0x00000000, 0x455a14ed, 20, 0x786acb8f);
    Abc(x, 28, 0xb7f268cf, 0x786acb8f, 0xfe1623b1, 0x09388eff, 0x00000000, 0xa9e3e905, 5, 0x790a77fb);
    Abc(x, 29, 0x09388eff, 0x790a77fb, 0x786acb8f, 0xfe1623b1, 0x00000000, 0xfcefa3f8, 9, 0x9f47e4f8);
    Abc(x, 30, 0xfe1623b1, 0x9f47e4f8, 0x790a77fb, 0x786acb8f, 0x00000000, 0x676f02d9, 14, 0xa62884aa);
    Abc(x, 31, 0x786acb8f, 0xa62884aa, 0x9f47e4f8, 0x790a77fb, 0x00000000, 0x8d2a4c8a, 20, 0x726342d3);
  }

  lemma Abc3(x: seq<Word>)
    requires IsAbc(x) && Rounds(x, INIT_STATE, 32) == State(0x790a77fb, 0x726342d3, 0xa62884aa, 0x9f47e4f8)
    ensures Rounds(x, INIT_STATE, 48) == State(0x7f2e507b, 0x7beb9700, 0x8fae6399, 0x99d9679d)
  {
    Schedule3();
    Sines3();
    hide Rounds, Pick, Sine, Shift;
    Abc(x, 32, 0x790a77fb, 0x726342d3, 0xa62884aa, 0x9f47e4f8, 0x00000000, 0xfffa3942, 4, 0xb3707ebf);
    Abc(x, 33, 0x9f47e4f8, 0xb3707ebf, 0x726342d3, 0xa62884aa, 0x00000000, 0x8771f681, 11, 0x60127b2e);
    Abc(x, 34, 0xa62884aa, 0x60127b2e, 0xb3707ebf, 0x726342d3, 0x00000000, 0x6d9d6122, 16, 0x8d212ff5);
    Abc(x, 35, 0x726342d3, 0x8d212ff5, 0x60127b2e, 0xb3707ebf, 0x00000018, 0xfde5380c, 23, 0x3b0875c7);
    Abc(x, 36, 0xb3707ebf, 0x3b0875c7, 0x8d212ff5, 0x60127b2e, 0x00000000, 0xa4beea44, 4, 0x21b117b9);
    Abc(x, 37, 0x60127b2e, 0x21b117b9, 0x3b0875c7, 0x8d212ff5, 0x00000000, 0x4bdecfa9, 11, 0x6e7429d5);
    Abc(x, 38, 0x8d212ff5, 0x6e7429d5, 0x21b117b9, 0x3b0875c7, 0x00000000, 0xf6bb4b60, 16, 0x3575227e);
    Abc(x, 39, 0x3b0875c7, 0x3575227e, 0x6e7429d5, 0x21b117b9, 0x00000000, 0xbebfbc70, 23, 0x5a2f5ea5);
    Abc(x, 40, 0x21b117b9, 0x5a2f5ea5, 0x3575227e, 0x6e7429d5, 0x00000000, 0x289b7ec6, 4, 0x11de1779);
    Abc(x, 41, 0x6e7429d5, 0x11de1779, 0x5a2f5ea5, 0x3575227e, 0x80636261, 0xeaa127fa, 11, 0xfadcaa38);
    Abc(x, 42, 0x3575227e, 0xfadcaa38, 0x11de1779, 0x5a2f5ea5, 0x00000000, 0xd4ef3085, 16, 0x31c465ca);
    Abc(x, 43, 0x5a2f5ea5, 0x31c465ca, 0xfadcaa38, 0x11de1779, 0x00000000, 0x04881d05, 23, 0x4c6124f4);
    Abc(x, 44, 0x11de1779, 0x4c6124f4, 0x31c465ca, 0xfadcaa38, 0x00000000, 0xd9d4d039, 4, 0x7f2e507b);
    Abc(x, 45, 0xfadcaa38, 0x7f2e507b, 0x4c6124f4, 0x31c465ca, 0x00000000, 0xe6db99e5, 11, 0x99d9679d);
    Abc(x, 46, 0x31c465ca, 0x99d9679d, 0x7f2e507b, 0x4c6124f4, 0x00000000, 0x1fa27cf8, 16, 0x8fae6399);
    Abc(x, 47, 0x4c6124f4, 0x8fae6399, 0x99d9679d, 0x7f2e507b, 0x00000000, 0xc4ac5665, 23, 0x7beb9700);
  }

  lemma Abc4(x: seq<Word>)
    requires IsAbc(x) && Rounds(x, INIT_STATE, 48) == State(0x7f2e507b, 0x7beb9700, 0x8fae6399, 0x99d9679d)
    ensures Rounds(x, INIT_STATE, 64) == State(0x310ade8f, 0xc08226b3, 0xe484b9d8, 0x624d8cb2)
  {
    Schedule4();
    Sines4();
    hide Rounds, Pick, Sine, Shift;
    Abc(x, 48, 0x7f2e507b, 0x7beb9700, 0x8fae6399, 0x99d9679d, 0x80636261, 0xf4292244, 6, 0x7b201df8);
    Abc(x, 49, 0x99d9679d, 0x7b201df8, 0x7beb9700, 0x8fae6399, 0x00000000, 0x432aff97, 10, 0xf4e8e96e);
    Abc(x, 50, 0x8fae6399, 0xf4e8e96e, 0x7b201df8, 0x7beb9700, 0x00000018, 0xab9423a7, 15, 0xb298cefd);
    Abc(x, 51, 0x7beb9700, 0xb298cefd, 0xf4e8e96e, 0x7b201df8, 0x00000000, 0xfc93a039, 21, 0x8bf025c4);
    Abc(x, 52, 0x7b201df8, 0x8bf025c4, 0xb298cefd, 0xf4e8e96e, 0x00000000, 0x655b59c3, 6, 0x06cc5e8a);
    Abc(x, 53, 0xf4e8e96e, 0x06cc5e8a, 0x8bf025c4, 0xb298cefd, 0x00000000, 0x8f0ccc92, 10, 0x5b0d97aa);
    Abc(x, 54, 0xb298cefd, 0x5b0d97aa, 0x06cc5e8a, 0x8bf025c4, 0x00000000, 0xffeff47d, 15, 0x7d632dd0);
    Abc(x, 55, 0x8bf025c4, 0x7d632dd0, 0x5b0d97aa, 0x06cc5e8a, 0x00000000, 0x85845dd1, 21, 0x3bfa2c27);
    Abc(x, 56, 0x06cc5e8a, 0x3bfa2c27, 0x7d632dd0, 0x5b0d97aa, 0x00000000, 0x6fa87e4f, 6, 0x7f81cc35);
    Abc(x, 57, 0x5b0d97aa, 0x7f81cc35, 0x3bfa2c27, 0x7d632dd0, 0x00000000, 0xfe2ce6e0, 10, 0x094454ab);
    Abc(x, 58, 0x7d632dd0, 0x094454ab, 0x7f81cc35, 0x3bfa2c27, 0x00000000, 0xa3014314, 15, 0x4f9dbe3f);
    Abc(x, 59, 0x3bfa2c27, 0x4f9dbe3f, 0x094454ab, 0x7f81cc35, 0x00000000, 0x4e0811a1, 21, 0x7327d604);
    Abc(x, 60, 0x7f81cc35, 0x7327d604, 0x4f9dbe3f, 0x094454ab, 0x00000000, 0xf7537e82, 6, 0x310ade8f);
    Abc(x, 61, 0x094454ab, 0x310ade8f, 0x7327d604, 0x4f9dbe3f, 0x00000000, 0xbd3af235, 10, 0x624d8cb2);
    Abc(x, 62, 0x4f9dbe3f, 0x624d8cb2, 0x310ade8f, 0x7327d604, 0x00000000, 0x2ad7d2bb, 15, 0xe484b9d8);
    Abc(x, 63, 0x7327d604, 0xe484b9d8, 0x624d8cb2, 0x310ade8f, 0x00000000, 0xeb86d391, 21, 0xc08226b3);
  }

  lemma AbcLength()
    ensures LengthBytes(3) == [24, 0, 0, 0, 0, 0, 0, 0] && ZerosFor(3) == 52
  {
    AbcLengthBytes();
    hide ByteOf;
  }

  lemma AbcLengthBytes()
    ensures ByteOf(24, 0) == 24 && ByteOf(24, 1) == ByteOf(24, 2) == ByteOf(24, 3) == 0
    ensures ByteOf(0, 0) == ByteOf(0, 1) == ByteOf(0, 2) == ByteOf(0, 3) == 0
  {
  }

  lemma AbcBlock()
    ensures var p := Padded([0x61, 0x62, 0x63]);
      |p| == 64 && p[0] == 0x61 && p[1] == 0x62 && p[2] == 0x63 && p[3] == 0x80 && p[56] == 24
      && forall i :: 4 <= i < 64 && i != 56 ==> p[i] == 0
  {
    var m, p, z, l := [0x61, 0x62, 0x63], Padded([0x61, 0x62, 0x63]), Zeros(52), LengthBytes(3);
    AbcLength();
    assert p == m + [0x80] + z + l;
    hide Padded, LengthBytes, Zeros, ZerosFor;
    forall i | 4 <= i < 64 && i != 56 ensures p[i] == 0 {
      if i < 56 {
        assert p[i] == z[i - 4];
      } else {
        assert p[i] == l[i - 56];
      }
    }
  }

  lemma AbcWords(p: seq<Byte>)
    requires |p| == 64 && p[0] == 0x61 && p[1] == 0x62 && p[2] == 0x63 && p[3] == 0x80 && p[56] == 24
    requires forall i :: 4 <= i < 64 && i != 56 ==> p[i] == 0
    ensures IsAbc(Words(p))
  {
    assert WordAt(p, 0) == 0x80636261;
    assert WordAt(p, 14) == 24;
    forall n | 0 < n < 16 && n != 14 ensures WordAt(p, n) == 0 {
    }
  }

  lemma AbcCompressed(p: seq<Byte>)
    requires |p| == 64 && IsAbc(Words(p))
    ensures Compress(INIT_STATE, p) == State(0x98500190, 0xb04fd23c, 0x7d3f96d6, 0x727fe128)
  {
    var x := Words(p);
    Abc1(x);
    Abc2(x);
    Abc3(x);
    Abc4(x);
    hide Rounds, Words, IsAbc;
  }

  lemma AbcBytes()
    ensures Output(0x98500190) + Output(0xb04fd23c) + Output(0x7d3f96d6) + Output(0x727fe128) ==
      [0x90, 0x01, 0x50, 0x98, 0x3c, 0xd2, 0x4f, 0xb0, 0xd6, 0x96, 0x3f, 0x7d, 0x28, 0xe1, 0x7f, 0x72]
  {
  }

  /** The digest of abc is 900150983cd24fb0d6963f7d28e17f72. */
  lemma DigestOfAbc()
    ensures Digest([0x61, 0x62, 0x63]) ==
      [0x90, 0x01, 0x50, 0x98, 0x3c, 0xd2, 0x4f, 0xb0, 0xd6, 0x96, 0x3f, 0x7d, 0x28, 0xe1, 0x7f, 0x72]
  {
    var p := Padded([0x61, 0x62, 0x63]);
    AbcBlock();
    AbcWords(p);
    AbcCompressed(p);
    BlocksOne(INIT_STATE, p);
    AbcBytes();
    hide Words, Padded, IsAbc, Blocks, Compress, Output;
  }
}
