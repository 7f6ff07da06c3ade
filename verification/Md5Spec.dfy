/** MD5 as RFC 1321 defines it, in one shot over a whole message. */
module Md5Spec {

  type Word = bv32
  type Byte = bv8

  /** The four-word buffer of section 3.3. */
  datatype State = State(a: Word, b: Word, c: Word, d: Word)

  const INIT_STATE := State(0x67452301, 0xefcdab89, 0x98badcfe, 0x10325476)

  // ---- the auxiliary functions of section 3.4

  function F(x: Word, y: Word, z: Word): Word { (x & y) | (!x & z) }
  function G(x: Word, y: Word, z: Word): Word { (x & z) | (y & !z) }
  function H(x: Word, y: Word, z: Word): Word { x ^ y ^ z }
  function I(x: Word, y: Word, z: Word): Word { y ^ (x | !z) }

  function Rotate(x: Word, s: Word): Word
    requires 0 < s < 32
  {
    (x << s) | (x >> (32 - s))
  }

  /** The operation [abcd k s i]: a = b + ((a + f(b,c,d) + X[k] + T[i]) <<< s). */
  function Operation(a: Word, b: Word, f: Word, x: Word, t: Word, s: Word): Word
    requires 0 < s < 32
  {
    b + Rotate(a + f + x + t, s)
  }

  /** The function of operation i. */
  function Mix(i: nat, x: Word, y: Word, z: Word): Word {
    if i < 16 then F(x, y, z) else if i < 32 then G(x, y, z) else if i < 48 then H(x, y, z) else I(x, y, z)
  }

  /** The word of the block operation i adds. */
  function Pick(i: nat): (k: nat)
    ensures k < 16
  {
    if i < 16 then i else if i < 32 then (5 * i + 1) % 16 else if i < 48 then (3 * i + 5) % 16 else 7 * i % 16
  }

  /** The rotation of operation i. */
  function Shift(i: nat): (s: Word)
    ensures 0 < s < 32
  {
    if i < 16 then (if i % 4 == 0 then 7 else if i % 4 == 1 then 12 else if i % 4 == 2 then 17 else 22)
    else if i < 32 then (if i % 4 == 0 then 5 else if i % 4 == 1 then 9 else if i % 4 == 2 then 14 else 20)
    else if i < 48 then (if i % 4 == 0 then 4 else if i % 4 == 1 then 11 else if i % 4 == 2 then 16 else 23)
    else (if i % 4 == 0 then 6 else if i % 4 == 1 then 10 else if i % 4 == 2 then 15 else 21)
  }

  /** T[i + 1], the integer part of 2^32 times abs(sin(i + 1)). */
  function Sine(i: nat): Word {
    if i < 16 then Sine1(i) else if i < 32 then Sine2(i) else if i < 48 then Sine3(i) else Sine4(i)
  }

  function Sine1(i: nat): Word {
    match i
    case 0 => 0xd76aa478
    case 1 => 0xe8c7b756
    case 2 => 0x242070db
    case 3 => 0xc1bdceee
    case 4 => 0xf57c0faf
    case 5 => 0x4787c62a
    case 6 => 0xa8304613
    case 7 => 0xfd469501
    case 8 => 0x698098d8
    case 9 => 0x8b44f7af
    case 10 => 0xffff5bb1
    case 11 => 0x895cd7be
    case 12 => 0x6b901122
    case 13 => 0xfd987193
    case 14 => 0xa679438e
    case _ => 0x49b40821
  }

  function Sine2(i: nat): Word {
    match i
    case 16 => 0xf61e2562
    case 17 => 0xc040b340
    case 18 => 0x265e5a51
    case 19 => 0xe9b6c7aa
    case 20 => 0xd62f105d
    case 21 => 0x02441453
    case 22 => 0xd8a1e681
    case 23 => 0xe7d3fbc8
    case 24 => 0x21e1cde6
    case 25 => 0xc33707d6
    case 26 => 0xf4d50d87
    case 27 => 0x455a14ed
    case 28 => 0xa9e3e905
    case 29 => 0xfcefa3f8
    case 30 => 0x676f02d9
    case _ => 0x8d2a4c8a
  }

  function Sine3(i: nat): Word {
    match i
    case 32 => 0xfffa3942
    case 33 => 0x8771f681
    case 34 => 0x6d9d6122
    case 35 => 0xfde5380c
    case 36 => 0xa4beea44
    case 37 => 0x4bdecfa9
    case 38 => 0xf6bb4b60
    case 39 => 0xbebfbc70
    case 40 => 0x289b7ec6
    case 41 => 0xeaa127fa
    case 42 => 0xd4ef3085
    case 43 => 0x04881d05
    case 44 => 0xd9d4d039
    case 45 => 0xe6db99e5
    case 46 => 0x1fa27cf8
    case _ => 0xc4ac5665
  }

  function Sine4(i: nat): Word {
    match i
    case 48 => 0xf4292244
    case 49 => 0x432aff97
    case 50 => 0xab9423a7
    case 51 => 0xfc93a039
    case 52 => 0x655b59c3
    case 53 => 0x8f0ccc92
    case 54 => 0xffeff47d
    case 55 => 0x85845dd1
    case 56 => 0x6fa87e4f
    case 57 => 0xfe2ce6e0
    case 58 => 0xa3014314
    case 59 => 0x4e0811a1
    case 60 => 0xf7537e82
    case 61 => 0xbd3af235
    case 62 => 0x2ad7d2bb
    case _ => 0xeb86d391
  }

  /** One operation, with the buffer renamed so that the next one again starts at its first word. */
  function Round(i: nat, st: State, x: seq<Word>): State
    requires |x| == 16
  {
    State(st.d, Operation(st.a, st.b, Mix(i, st.b, st.c, st.d), x[Pick(i)], Sine(i), Shift(i)), st.b, st.c)
  }

  /** The buffer after the first n operations. */
  function Rounds(x: seq<Word>, st: State, n: nat): State
    requires |x| == 16
  {
    if n == 0 then st else Round(n - 1, Rounds(x, st, n - 1), x)
  }

  function Add(s: State, t: State): State {
    State(s.a + t.a, s.b + t.b, s.c + t.c, s.d + t.d)
  }

  function WordAt(p: seq<Byte>, n: nat): Word
    requires 4 * n + 4 <= |p|
  {
    (p[4 * n] as Word) | ((p[4 * n + 1] as Word) << 8) | ((p[4 * n + 2] as Word) << 16) | ((p[4 * n + 3] as Word) << 24)
  }

  function Words(p: seq<Byte>): (x: seq<Word>)
    requires |p| == 64
    ensures |x| == 16 && forall n :: 0 <= n < 16 ==> x[n] == WordAt(p, n)
  {
    seq(16, n requires 0 <= n < 16 => WordAt(p, n))
  }

  /** The buffer after one 64-byte block. */
  function Compress(st: State, p: seq<Byte>): State
    requires |p| == 64
  {
    Add(Rounds(Words(p), st, 64), st)
  }

  /** The buffer after all whole blocks of p. */
  function Blocks(st: State, p: seq<Byte>): State
    decreases |p|
  {
    if |p| < 64 then st else Blocks(Compress(st, p[..64]), p[64..])
  }

  function ByteOf(n: int, i: nat): Byte {
    (if i == 0 then n % 256 else if i == 1 then n / 0x100 % 256
     else if i == 2 then n / 0x1_0000 % 256 else n / 0x100_0000 % 256) as Byte
  }

  function Zeros(n: nat): (z: seq<Byte>)
    ensures |z| == n && forall i :: 0 <= i < n ==> z[i] == 0
  {
    seq(n, i => 0)
  }

  /** Bytes of zeros that make a message of n bytes, a byte 0x80 and 8 length bytes whole blocks. */
  function ZerosFor(n: nat): nat {
    (119 - n % 64) % 64
  }

  /** The bit count modulo 2^64, low-order word first, low-order byte first. */
  function LengthBytes(n: nat): (l: seq<Byte>)
    ensures |l| == 8
  {
    var bits := 8 * n % 0x1_0000_0000_0000_0000;
    var lo, hi := bits % 0x1_0000_0000, bits / 0x1_0000_0000;
    [ByteOf(lo, 0), ByteOf(lo, 1), ByteOf(lo, 2), ByteOf(lo, 3), ByteOf(hi, 0), ByteOf(hi, 1), ByteOf(hi, 2), ByteOf(hi, 3)]
  }

  /** Sections 3.1 and 3.2. */
  function Padded(msg: seq<Byte>): seq<Byte> {
    msg + [0x80] + Zeros(ZerosFor(|msg|)) + LengthBytes(|msg|)
  }

  function LowByte(w: Word, i: nat): Byte
    requires i < 4
  {
    if i == 0 then (w & 0xff) as Byte
    else if i == 1 then ((w >> 8) & 0xff) as Byte
    else if i == 2 then ((w >> 16) & 0xff) as Byte
    else ((w >> 24) & 0xff) as Byte
  }

  function Output(w: Word): (o: seq<Byte>)
    ensures |o| == 4
  {
    [LowByte(w, 0), LowByte(w, 1), LowByte(w, 2), LowByte(w, 3)]
  }

  /** The digest of a whole message. */
  function Digest(msg: seq<Byte>): (o: seq<Byte>)
    ensures |o| == 16
  {
    var st := Blocks(INIT_STATE, Padded(msg));
    Output(st.a) + Output(st.b) + Output(st.c) + Output(st.d)
  }

  lemma PaddedWhole(msg: seq<Byte>)
    ensures |Padded(msg)| % 64 == 0
  {
    PadLength(|msg|);
    assert |Padded(msg)| == |msg| + 1 + ZerosFor(|msg|) + 8;
  }

  lemma PadLength(n: nat)
    ensures (n + 1 + ZerosFor(n) + 8) % 64 == 0
  {
    var q, r := n / 64, n % 64;
    assert n == 64 * q + r;
    if r <= 55 {
      assert ZerosFor(n) == 55 - r;
    } else {
      assert ZerosFor(n) == 119 - r;
    }
  }

  /** Whole blocks first, then the rest. */
  lemma {:induction false} BlocksConcat(st: State, p: seq<Byte>, q: seq<Byte>)
    requires |p| % 64 == 0
    ensures Blocks(st, p + q) == Blocks(Blocks(st, p), q)
    decreases |p|
  {
    if |p| == 0 {
      assert p + q == q;
    } else {
      assert (p + q)[..64] == p[..64] && (p + q)[64..] == p[64..] + q;
      BlocksConcat(Compress(st, p[..64]), p[64..], q);
    }
  }

  lemma BlocksOne(st: State, p: seq<Byte>)
    requires |p| == 64
    ensures Blocks(st, p) == Compress(st, p)
  {
    assert p[..64] == p;
    assert Blocks(Compress(st, p), p[64..]) == Compress(st, p);
  }
}
