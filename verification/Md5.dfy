/** The incremental MD5 of HashKit: a context that is fed a message in pieces. */
module Md5 {
  import opened Chunks
  import opened Md5Spec

  // ---- the basic functions, F and G without an and-not

  function FastF(x: Word, y: Word, z: Word): Word { z ^ (x & (y ^ z)) }
  function FastG(x: Word, y: Word, z: Word): Word { y ^ (z & (x ^ y)) }

  lemma FBits(x: Word, y: Word, z: Word)
    ensures z ^ (x & (y ^ z)) == (x & y) | (!x & z)
  {
  }

  lemma GBits(x: Word, y: Word, z: Word)
    ensures y ^ (z & (x ^ y)) == (x & z) | (y & !z)
  {
  }

  /** The optimised functions are those of section 3.4 of RFC 1321. */
  lemma FastFIsF(x: Word, y: Word, z: Word)
    ensures FastF(x, y, z) == F(x, y, z)
  {
    FBits(x, y, z);
  }

  lemma FastGIsG(x: Word, y: Word, z: Word)
    ensures FastG(x, y, z) == G(x, y, z)
  {
    GBits(x, y, z);
  }

  /** The STEP macro: what the three assignments leave in the variable they assign. */
  function Step(f: Word, a: Word, b: Word, x: Word, t: Word, s: Word): (r: Word)
    requires 0 < s < 32
  {
    Rotate(a + (f + x + t), s) + b
  }

  lemma SumAssociates(a: Word, f: Word, x: Word, t: Word)
    ensures a + (f + x + t) == a + f + x + t
  {
  }

  lemma SumCommutes(a: Word, b: Word)
    ensures a + b == b + a
  {
  }

  lemma StepIsOperation(f: Word, a: Word, b: Word, x: Word, t: Word, s: Word)
    requires 0 < s < 32
    ensures Step(f, a, b, x, t, s) == Operation(a, b, f, x, t, s)
  {
    hide Rotate;
    SumAssociates(a, f, x, t);
    SumCommutes(Rotate(a + f + x + t, s), b);
  }

  lemma RoundAt(x: seq<Word>, st: State, n: nat, a: Word, b: Word, c: Word, d: Word)
    requires |x| == 16 && Rounds(x, st, n) == State(a, b, c, d)
    ensures Rounds(x, st, n + 1) == State(d, Operation(a, b, Mix(n, b, c, d), x[Pick(n)], Sine(n), Shift(n)), b, c)
  {
    hide Operation, Mix, Pick, Sine, Shift;
  }

  lemma MixIs(n: nat, x: Word, y: Word, z: Word)
    ensures n < 16 ==> Mix(n, x, y, z) == F(x, y, z)
    ensures 16 <= n < 32 ==> Mix(n, x, y, z) == G(x, y, z)
    ensures 32 <= n < 48 ==> Mix(n, x, y, z) == H(x, y, z)
    ensures 48 <= n ==> Mix(n, x, y, z) == I(x, y, z)
  {
    hide F, G, H, I;
  }

  /** The numbers the source writes out for round 1 are those of the schedule. */
  lemma Schedule1()
    ensures Pick(0) == 0 && Shift(0) == 7
    ensures Pick(1) == 1 && Shift(1) == 12
    ensures Pick(2) == 2 && Shift(2) == 17
    ensures Pick(3) == 3 && Shift(3) == 22
    ensures Pick(4) == 4 && Shift(4) == 7
    ensures Pick(5) == 5 && Shift(5) == 12
    ensures Pick(6) == 6 && Shift(6) == 17
    ensures Pick(7) == 7 && Shift(7) == 22
    ensures Pick(8) == 8 && Shift(8) == 7
    ensures Pick(9) == 9 && Shift(9) == 12
    ensures Pick(10) == 10 && Shift(10) == 17
    ensures Pick(11) == 11 && Shift(11) == 22
    ensures Pick(12) == 12 && Shift(12) == 7
    ensures Pick(13) == 13 && Shift(13) == 12
    ensures Pick(14) == 14 && Shift(14) == 17
    ensures Pick(15) == 15 && Shift(15) == 22
  {
  }

  lemma Sines1()
    ensures Sine(0) == 0xd76aa478
    ensures Sine(1) == 0xe8c7b756
    ensures Sine(2) == 0x242070db
    ensures Sine(3) == 0xc1bdceee
    ensures Sine(4) == 0xf57c0faf
    ensures Sine(5) == 0x4787c62a
    ensures Sine(6) == 0xa8304613
    ensures Sine(7) == 0xfd469501
    ensures Sine(8) == 0x698098d8
    ensures Sine(9) == 0x8b44f7af
    ensures Sine(10) == 0xffff5bb1
    ensures Sine(11) == 0x895cd7be
    ensures Sine(12) == 0x6b901122
    ensures Sine(13) == 0xfd987193
    ensures Sine(14) == 0xa679438e
    ensures Sine(15) == 0x49b40821
  {
    hide Sine2, Sine3, Sine4;
  }

  method Round1(a0: Word, b0: Word, c0: Word, d0: Word, x: seq<Word>, ghost st: State)
    returns (a: Word, b: Word, c: Word, d: Word)
    requires |x| == 16 && Rounds(x, st, 0) == State(a0, b0, c0, d0)
    ensures Rounds(x, st, 16) == State(a, b, c, d)
  {
    hide Rounds, Operation, Step, FastF, FastG, F, G, H, I, Mix, Pick, Sine, Shift;
    Schedule1();
    Sines1();
    a, b, c, d := a0, b0, c0, d0;
    At1(x, st, 0, a, b, c, d);
    a := Step(FastF(b, c, d), a, b, x[0], 0xd76aa478, 7);
    At1(x, st, 1, d, a, b, c);
    d := Step(FastF(a, b, c), d, a, x[1], 0xe8c7b756, 12);
    At1(x, st, 2, c, d, a, b);
    c := Step(FastF(d, a, b), c, d, x[2], 0x242070db, 17);
    At1(x, st, 3, b, c, d, a);
    b := Step(FastF(c, d, a), b, c, x[3], 0xc1bdceee, 22);
    At1(x, st, 4, a, b, c, d);
    a := Step(FastF(b, c, d), a, b, x[4], 0xf57c0faf, 7);
    At1(x, st, 5, d, a, b, c);
    d := Step(FastF(a, b, c), d, a, x[5], 0x4787c62a, 12);
    At1(x, st, 6, c, d, a, b);
    c := Step(FastF(d, a, b), c, d, x[6], 0xa8304613, 17);
    At1(x, st, 7, b, c, d, a);
    b := Step(FastF(c, d, a), b, c, x[7], 0xfd469501, 22);
    At1(x, st, 8, a, b, c, d);
    a := Step(FastF(b, c, d), a, b, x[8], 0x698098d8, 7);
    At1(x, st, 9, d, a, b, c);
    d := Step(FastF(a, b, c), d, a, x[9], 0x8b44f7af, 12);
    At1(x, st, 10, c, d, a, b);
    c := Step(FastF(d, a, b), c, d, x[10], 0xffff5bb1, 17);
    At1(x, st, 11, b, c, d, a);
    b := Step(FastF(c, d, a), b, c, x[11], 0x895cd7be, 22);
    At1(x, st, 12, a, b, c, d);
    a := Step(FastF(b, c, d), a, b, x[12], 0x6b901122, 7);
    At1(x, st, 13, d, a, b, c);
    d := Step(FastF(a, b, c), d, a, x[13], 0xfd987193, 12);
    At1(x, st, 14, c, d, a, b);
    c := Step(FastF(d, a, b), c, d, x[14], 0xa679438e, 17);
    At1(x, st, 15, b, c, d, a);
    b := Step(FastF(c, d, a), b, c, x[15], 0x49b40821, 22);
  }

  lemma At1(x: seq<Word>, st: State, n: nat, a: Word, b: Word, c: Word, d: Word)
    requires |x| == 16 && Rounds(x, st, n) == State(a, b, c, d) && 0 <= n < 16
    ensures Rounds(x, st, n + 1) == State(d, Step(FastF(b, c, d), a, b, x[Pick(n)], Sine(n), Shift(n)), b, c)
  {
    hide Rounds, Operation, Step, FastF, FastG, F, G, H, I, Mix, Pick, Sine, Shift;
    RoundAt(x, st, n, a, b, c, d);
    MixIs(n, b, c, d);
    StepIsOperation(Mix(n, b, c, d), a, b, x[Pick(n)], Sine(n), Shift(n));
    FastFIsF(b, c, d);
  }

  /** The numbers the source writes out for round 2 are those of the schedule. */
  lemma Schedule2()
    ensures Pick(16) == 1 && Shift(16) == 5
    ensures Pick(17) == 6 && Shift(17) == 9
    ensures Pick(18) == 11 && Shift(18) == 14
    ensures Pick(19) == 0 && Shift(19) == 20
    ensures Pick(20) == 5 && Shift(20) == 5
    ensures Pick(21) == 10 && Shift(21) == 9
    ensures Pick(22) == 15 && Shift(22) == 14
    ensures Pick(23) == 4 && Shift(23) == 20
    ensures Pick(24) == 9 && Shift(24) == 5
    ensures Pick(25) == 14 && Shift(25) == 9
    ensures Pick(26) == 3 && Shift(26) == 14
    ensures Pick(27) == 8 && Shift(27) == 20
    ensures Pick(28) == 13 && Shift(28) == 5
    ensures Pick(29) == 2 && Shift(29) == 9
    ensures Pick(30) == 7 && Shift(30) == 14
    ensures Pick(31) == 12 && Shift(31) == 20
  {
  }

  lemma Sines2()
    ensures Sine(16) == 0xf61e2562
    ensures Sine(17) == 0xc040b340
    ensures Sine(18) == 0x265e5a51
    ensures Sine(19) == 0xe9b6c7aa
    ensures Sine(20) == 0xd62f105d
    ensures Sine(21) == 0x02441453
    ensures Sine(22) == 0xd8a1e681
    ensures Sine(23) == 0xe7d3fbc8
    ensures Sine(24) == 0x21e1cde6
    ensures Sine(25) == 0xc33707d6
    ensures Sine(26) == 0xf4d50d87
    ensures Sine(27) == 0x455a14ed
    ensures Sine(28) == 0xa9e3e905
    ensures Sine(29) == 0xfcefa3f8
    ensures Sine(30) == 0x676f02d9
    ensures Sine(31) == 0x8d2a4c8a
  {
    hide Sine1, Sine3, Sine4;
  }

  method Round2(a0: Word, b0: Word, c0: Word, d0: Word, x: seq<Word>, ghost st: State)
    returns (a: Word, b: Word, c: Word, d: Word)
    requires |x| == 16 && Rounds(x, st, 16) == State(a0, b0, c0, d0)
    ensures Rounds(x, st, 32) == State(a, b, c, d)
  {
    hide Rounds, Operation, Step, FastF, FastG, F, G, H, I, Mix, Pick, Sine, Shift;
    Schedule2();
    Sines2();
    a, b, c, d := a0, b0, c0, d0;
    At2(x, st, 16, a, b, c, d);
    a := Step(FastG(b, c, d), a, b, x[1], 0xf61e2562, 5);
    At2(x, st, 17, d, a, b, c);
    d := Step(FastG(a, b, c), d, a, x[6], 0xc040b340, 9);
    At2(x, st, 18, c, d, a, b);
    c := Step(FastG(d, a, b), c, d, x[11], 0x265e5a51, 14);
    At2(x, st, 19, b, c, d, a);
    b := Step(FastG(c, d, a), b, c, x[0], 0xe9b6c7aa, 20);
    At2(x, st, 20, a, b, c, d);
    a := Step(FastG(b, c, d), a, b, x[5], 0xd62f105d, 5);
    At2(x, st, 21, d, a, b, c);
    d := Step(FastG(a, b, c), d, a, x[10], 0x02441453, 9);
    At2(x, st, 22, c, d, a, b);
    c := Step(FastG(d, a, b), c, d, x[15], 0xd8a1e681, 14);
    At2(x, st, 23, b, c, d, a);
    b := Step(FastG(c, d, a), b, c, x[4], 0xe7d3fbc8, 20);
    At2(x, st, 24, a, b, c, d);
    a := Step(FastG(b, c, d), a, b, x[9], 0x21e1cde6, 5);
    At2(x, st, 25, d, a, b, c);
    d := Step(FastG(a, b, c), d, a, x[14], 0xc33707d6, 9);
    At2(x, st, 26, c, d, a, b);
    c := Step(FastG(d, a, b), c, d, x[3], 0xf4d50d87, 14);
    At2(x, st, 27, b, c, d, a);
    b := Step(FastG(c, d, a), b, c, x[8], 0x455a14ed, 20);
    At2(x, st, 28, a, b, c, d);
    a := Step(FastG(b, c, d), a, b, x[13], 0xa9e3e905, 5);
    At2(x, st, 29, d, a, b, c);
    d := Step(FastG(a, b, c), d, a, x[2], 0xfcefa3f8, 9);
    At2(x, st, 30, c, d, a, b);
    c := Step(FastG(d, a, b), c, d, x[7], 0x676f02d9, 14);
    At2(x, st, 31, b, c, d, a);
    b := Step(FastG(c, d, a), b, c, x[12], 0x8d2a4c8a, 20);
  }

  lemma At2(x: seq<Word>, st: State, n: nat, a: Word, b: Word, c: Word, d: Word)
    requires |x| == 16 && Rounds(x, st, n) == State(a, b, c, d) && 16 <= n < 32
    ensures Rounds(x, st, n + 1) == State(d, Step(FastG(b, c, d), a, b, x[Pick(n)], Sine(n), Shift(n)), b, c)
  {
    hide Rounds, Operation, Step, FastF, FastG, F, G, H, I, Mix, Pick, Sine, Shift;
    RoundAt(x, st, n, a, b, c, d);
    MixIs(n, b, c, d);
    StepIsOperation(Mix(n, b, c, d), a, b, x[Pick(n)], Sine(n), Shift(n));
    FastGIsG(b, c, d);
  }

  /** The numbers the source writes out for round 3 are those of the schedule. */
  lemma Schedule3()
    ensures Pick(32) == 5 && Shift(32) == 4
    ensures Pick(33) == 8 && Shift(33) == 11
    ensures Pick(34) == 11 && Shift(34) == 16
    ensures Pick(35) == 14 && Shift(35) == 23
    ensures Pick(36) == 1 && Shift(36) == 4
    ensures Pick(37) == 4 && Shift(37) == 11
    ensures Pick(38) == 7 && Shift(38) == 16
    ensures Pick(39) == 10 && Shift(39) == 23
    ensures Pick(40) == 13 && Shift(40) == 4
    ensures Pick(41) == 0 && Shift(41) == 11
    ensures Pick(42) == 3 && Shift(42) == 16
    ensures Pick(43) == 6 && Shift(43) == 23
    ensures Pick(44) == 9 && Shift(44) == 4
    ensures Pick(45) == 12 && Shift(45) == 11
    ensures Pick(46) == 15 && Shift(46) == 16
    ensures Pick(47) == 2 && Shift(47) == 23
  {
  }

  lemma Sines3()
    ensures Sine(32) == 0xfffa3942
    ensures Sine(33) == 0x8771f681
    ensures Sine(34) == 0x6d9d6122
    ensures Sine(35) == 0xfde5380c
    ensures Sine(36) == 0xa4beea44
    ensures Sine(37) == 0x4bdecfa9
    ensures Sine(38) == 0xf6bb4b60
    ensures Sine(39) == 0xbebfbc70
    ensures Sine(40) == 0x289b7ec6
    ensures Sine(41) == 0xeaa127fa
    ensures Sine(42) == 0xd4ef3085
    ensures Sine(43) == 0x04881d05
    ensures Sine(44) == 0xd9d4d039
    ensures Sine(45) == 0xe6db99e5
    ensures Sine(46) == 0x1fa27cf8
    ensures Sine(47) == 0xc4ac5665
  {
    hide Sine1, Sine2, Sine4;
  }

  method Round3(a0: Word, b0: Word, c0: Word, d0: Word, x: seq<Word>, ghost st: State)
    returns (a: Word, b: Word, c: Word, d: Word)
    requires |x| == 16 && Rounds(x, st, 32) == State(a0, b0, c0, d0)
    ensures Rounds(x, st, 48) == State(a, b, c, d)
  {
    hide Rounds, Operation, Step, FastF, FastG, F, G, H, I, Mix, Pick, Sine, Shift;
    Schedule3();
    Sines3();
    a, b, c, d := a0, b0, c0, d0;
    At3(x, st, 32, a, b, c, d);
    a := Step(H(b, c, d), a, b, x[5], 0xfffa3942, 4);
    At3(x, st, 33, d, a, b, c);
    d := Step(H(a, b, c), d, a, x[8], 0x8771f681, 11);
    At3(x, st, 34, c, d, a, b);
    c := Step(H(d, a, b), c, d, x[11], 0x6d9d6122, 16);
    At3(x, st, 35, b, c, d, a);
    b := Step(H(c, d, a), b, c, x[14], 0xfde5380c, 23);
    At3(x, st, 36, a, b, c, d);
    a := Step(H(b, c, d), a, b, x[1], 0xa4beea44, 4);
    At3(x, st, 37, d, a, b, c);
    d := Step(H(a, b, c), d, a, x[4], 0x4bdecfa9, 11);
    At3(x, st, 38, c, d, a, b);
    c := Step(H(d, a, b), c, d, x[7], 0xf6bb4b60, 16);
    At3(x, st, 39, b, c, d, a);
    b := Step(H(c, d, a), b, c, x[10], 0xbebfbc70, 23);
    At3(x, st, 40, a, b, c, d);
    a := Step(H(b, c, d), a, b, x[13], 0x289b7ec6, 4);
    At3(x, st, 41, d, a, b, c);
    d := Step(H(a, b, c), d, a, x[0], 0xeaa127fa, 11);
    At3(x, st, 42, c, d, a, b);
    c := Step(H(d, a, b), c, d, x[3], 0xd4ef3085, 16);
    At3(x, st, 43, b, c, d, a);
    b := Step(H(c, d, a), b, c, x[6], 0x04881d05, 23);
    At3(x, st, 44, a, b, c, d);
    a := Step(H(b, c, d), a, b, x[9], 0xd9d4d039, 4);
    At3(x, st, 45, d, a, b, c);
    d := Step(H(a, b, c), d, a, x[12], 0xe6db99e5, 11);
    At3(x, st, 46, c, d, a, b);
    c := Step(H(d, a, b), c, d, x[15], 0x1fa27cf8, 16);
    At3(x, st, 47, b, c, d, a);
    b := Step(H(c, d, a), b, c, x[2], 0xc4ac5665, 23);
  }

  lemma At3(x: seq<Word>, st: State, n: nat, a: Word, b: Word, c: Word, d: Word)
    requires |x| == 16 && Rounds(x, st, n) == State(a, b, c, d) && 32 <= n < 48
    ensures Rounds(x, st, n + 1) == State(d, Step(H(b, c, d), a, b, x[Pick(n)], Sine(n), Shift(n)), b, c)
  {
    hide Rounds, Operation, Step, FastF, FastG, F, G, H, I, Mix, Pick, Sine, Shift;
    RoundAt(x, st, n, a, b, c, d);
    MixIs(n, b, c, d);
    StepIsOperation(Mix(n, b, c, d), a, b, x[Pick(n)], Sine(n), Shift(n));
  }

  /** The numbers the source writes out for round 4 are those of the schedule. */
  lemma Schedule4()
    ensures Pick(48) == 0 && Shift(48) == 6
    ensures Pick(49) == 7 && Shift(49) == 10
    ensures Pick(50) == 14 && Shift(50) == 15
    ensures Pick(51) == 5 && Shift(51) == 21
    ensures Pick(52) == 12 && Shift(52) == 6
    ensures Pick(53) == 3 && Shift(53) == 10
    ensures Pick(54) == 10 && Shift(54) == 15
    ensures Pick(55) == 1 && Shift(55) == 21
    ensures Pick(56) == 8 && Shift(56) == 6
    ensures Pick(57) == 15 && Shift(57) == 10
    ensures Pick(58) == 6 && Shift(58) == 15
    ensures Pick(59) == 13 && Shift(59) == 21
    ensures Pick(60) == 4 && Shift(60) == 6
    ensures Pick(61) == 11 && Shift(61) == 10
    ensures Pick(62) == 2 && Shift(62) == 15
    ensures Pick(63) == 9 && Shift(63) == 21
  {
  }

  lemma Sines4()
    ensures Sine(48) == 0xf4292244
    ensures Sine(49) == 0x432aff97
    ensures Sine(50) == 0xab9423a7
    ensures Sine(51) == 0xfc93a039
    ensures Sine(52) == 0x655b59c3
    ensures Sine(53) == 0x8f0ccc92
    ensures Sine(54) == 0xffeff47d
    ensures Sine(55) == 0x85845dd1
    ensures Sine(56) == 0x6fa87e4f
    ensures Sine(57) == 0xfe2ce6e0
    ensures Sine(58) == 0xa3014314
    ensures Sine(59) == 0x4e0811a1
    ensures Sine(60) == 0xf7537e82
    ensures Sine(61) == 0xbd3af235
    ensures Sine(62) == 0x2ad7d2bb
    ensures Sine(63) == 0xeb86d391
  {
    hide Sine1, Sine2, Sine3;
  }

  method Round4(a0: Word, b0: Word, c0: Word, d0: Word, x: seq<Word>, ghost st: State)
    returns (a: Word, b: Word, c: Word, d: Word)
    requires |x| == 16 && Rounds(x, st, 48) == State(a0, b0, c0, d0)
    ensures Rounds(x, st, 64) == State(a, b, c, d)
  {
    hide Rounds, Operation, Step, FastF, FastG, F, G, H, I, Mix, Pick, Sine, Shift;
    Schedule4();
    Sines4();
    a, b, c, d := a0, b0, c0, d0;
    At4(x, st, 48, a, b, c, d);
    a := Step(I(b, c, d), a, b, x[0], 0xf4292244, 6);
    At4(x, st, 49, d, a, b, c);
    d := Step(I(a, b, c), d, a, x[7], 0x432aff97, 10);
    At4(x, st, 50, c, d, a, b);
    c := Step(I(d, a, b), c, d, x[14], 0xab9423a7, 15);
    At4(x, st, 51, b, c, d, a);
    b := Step(I(c, d, a), b, c, x[5], 0xfc93a039, 21);
    At4(x, st, 52, a, b, c, d);
    a := Step(I(b, c, d), a, b, x[12], 0x655b59c3, 6);
    At4(x, st, 53, d, a, b, c);
    d := Step(I(a, b, c), d, a, x[3], 0x8f0ccc92, 10);
    At4(x, st, 54, c, d, a, b);
    c := Step(I(d, a, b), c, d, x[10], 0xffeff47d, 15);
    At4(x, st, 55, b, c, d, a);
    b := Step(I(c, d, a), b, c, x[1], 0x85845dd1, 21);
    At4(x, st, 56, a, b, c, d);
    a := Step(I(b, c, d), a, b, x[8], 0x6fa87e4f, 6);
    At4(x, st, 57, d, a, b, c);
    d := Step(I(a, b, c), d, a, x[15], 0xfe2ce6e0, 10);
    At4(x, st, 58, c, d, a, b);
    c := Step(I(d, a, b), c, d, x[6], 0xa3014314, 15);
    At4(x, st, 59, b, c, d, a);
    b := Step(I(c, d, a), b, c, x[13], 0x4e0811a1, 21);
    At4(x, st, 60, a, b, c, d);
    a := Step(I(b, c, d), a, b, x[4], 0xf7537e82, 6);
    At4(x, st, 61, d, a, b, c);
    d := Step(I(a, b, c), d, a, x[11], 0xbd3af235, 10);
    At4(x, st, 62, c, d, a, b);
    c := Step(I(d, a, b), c, d, x[2], 0x2ad7d2bb, 15);
    At4(x, st, 63, b, c, d, a);
    b := Step(I(c, d, a), b, c, x[9], 0xeb86d391, 21);
  }

  lemma At4(x: seq<Word>, st: State, n: nat, a: Word, b: Word, c: Word, d: Word)
    requires |x| == 16 && Rounds(x, st, n) == State(a, b, c, d) && 48 <= n < 64
    ensures Rounds(x, st, n + 1) == State(d, Step(I(b, c, d), a, b, x[Pick(n)], Sine(n), Shift(n)), b, c)
  {
    hide Rounds, Operation, Step, FastF, FastG, F, G, H, I, Mix, Pick, Sine, Shift;
    RoundAt(x, st, n, a, b, c, d);
    MixIs(n, b, c, d);
    StepIsOperation(Mix(n, b, c, d), a, b, x[Pick(n)], Sine(n), Shift(n));
  }

  // ---- the byte counter: 29 bits in lo, 32 more in hi

  const LO_RANGE := 0x2000_0000
  const WORD_RANGE := 0x1_0000_0000

  ghost predicate Counts(lo: nat, hi: nat, n: nat) {
    lo == n % LO_RANGE && hi == n / LO_RANGE % WORD_RANGE
  }

  lemma DivideBy64(q: nat, r: nat)
    requires r < 64
    ensures (64 * q + r) / 64 == q && (64 * q + r) % 64 == r
  {
  }

  lemma DivideByLo(q: nat, r: nat)
    requires r < LO_RANGE
    ensures (LO_RANGE * q + r) / LO_RANGE == q && (LO_RANGE * q + r) % LO_RANGE == r
  {
  }

  lemma DivideByWord(q: nat, r: nat)
    requires r < WORD_RANGE
    ensures (WORD_RANGE * q + r) / WORD_RANGE == q && (WORD_RANGE * q + r) % WORD_RANGE == r
  {
  }

  lemma DivideByBits(q: nat, r: nat)
    requires r < 0x1_0000_0000_0000_0000
    ensures (0x1_0000_0000_0000_0000 * q + r) % 0x1_0000_0000_0000_0000 == r
  {
  }

  lemma ModWord(q: nat, p: nat)
    ensures (q % WORD_RANGE + p) % WORD_RANGE == (q + p) % WORD_RANGE
  {
    var w, r := q / WORD_RANGE, q % WORD_RANGE;
    var w', r' := (r + p) / WORD_RANGE, (r + p) % WORD_RANGE;
    assert q + p == WORD_RANGE * (w + w') + r';
    DivideByWord(w + w', r');
  }

  /** Adding a length to lo with a carry into hi counts the bytes of both messages modulo 2^61. */
  lemma CounterAdds(lo: nat, hi: nat, n: nat, k: nat)
    requires Counts(lo, hi, n)
    ensures var lo' := (lo + k) % LO_RANGE;
            var hi' := if lo' < lo then (hi + 1) % WORD_RANGE else hi;
            Counts(lo', (hi' + k / LO_RANGE) % WORD_RANGE, n + k)
  {
    var q, p, r := n / LO_RANGE, k / LO_RANGE, k % LO_RANGE;
    assert n == LO_RANGE * q + lo && k == LO_RANGE * p + r;
    var carry := if lo + r < LO_RANGE then 0 else 1;
    var low := lo + r - LO_RANGE * carry;
    assert n + k == LO_RANGE * (q + p + carry) + low && lo + k == LO_RANGE * (p + carry) + low;
    DivideByLo(q + p + carry, low);
    DivideByLo(p + carry, low);
    ModWord(q, carry);
    ModWord(q + carry, p);
    ModWord(q, p);
  }

  /** The eight bytes written from the counter are the length in bits modulo 2^64. */
  lemma CounterBytes(lo: nat, hi: nat, n: nat)
    requires Counts(lo, hi, n)
    ensures LengthBytes(n) == [ByteOf(8 * lo, 0), ByteOf(8 * lo, 1), ByteOf(8 * lo, 2), ByteOf(8 * lo, 3),
                               ByteOf(hi, 0), ByteOf(hi, 1), ByteOf(hi, 2), ByteOf(hi, 3)]
  {
    hide ByteOf;
    var q := n / LO_RANGE;
    var w := q / WORD_RANGE;
    assert n == LO_RANGE * q + lo && q == WORD_RANGE * w + hi;
    var bits := 8 * n % 0x1_0000_0000_0000_0000;
    assert 8 * n == 0x1_0000_0000_0000_0000 * w + (WORD_RANGE * hi + 8 * lo);
    DivideByBits(w, WORD_RANGE * hi + 8 * lo);
    DivideByWord(hi, 8 * lo);
  }

  function WholePart(n: nat): (w: nat)
    ensures w <= n && w % 64 == 0 && n - w == n % 64
  {
    n / 64 * 64
  }

  class Context {
    var lo: nat
    var hi: nat
    var a: Word
    var b: Word
    var c: Word
    var d: Word
    const buffer: array<Byte>
    ghost var msg: seq<Byte>

    ghost function Chain(): State
      reads this
    {
      State(a, b, c, d)
    }

    /** The context has digested the whole blocks of msg and holds the rest. */
    ghost predicate Valid()
      reads this, buffer
    {
      && buffer.Length == 64
      && Counts(lo, hi, |msg|)
      && Chain() == Blocks(INIT_STATE, msg[..WholePart(|msg|)])
      && buffer[..|msg| % 64] == msg[WholePart(|msg|)..]
    }

    constructor ()
      ensures Valid() && msg == [] && fresh(buffer)
    {
      buffer := new Byte[64];
      a, b, c, d := 0x67452301, 0xefcdab89, 0x98badcfe, 0x10325476;
      lo, hi := 0, 0;
      msg := [];
    }

    /** The four rounds over one block, and the additions that end them. */
    method Transform(a0: Word, b0: Word, c0: Word, d0: Word, x: seq<Word>) returns (a1: Word, b1: Word, c1: Word, d1: Word)
      requires |x| == 16
      ensures State(a1, b1, c1, d1) == Add(Rounds(x, State(a0, b0, c0, d0), 64), State(a0, b0, c0, d0))
    {
      hide Rounds, Add;
      var st := State(a0, b0, c0, d0);
      NoRounds(x, st);
      a1, b1, c1, d1 := Round1(a0, b0, c0, d0, x, st);
      a1, b1, c1, d1 := Round2(a1, b1, c1, d1, x, st);
      a1, b1, c1, d1 := Round3(a1, b1, c1, d1, x, st);
      a1, b1, c1, d1 := Round4(a1, b1, c1, d1, x, st);
      var sum := Add(State(a1, b1, c1, d1), st);
      a1, b1, c1, d1 := sum.a, sum.b, sum.c, sum.d;
    }

    /** Digests one or more whole blocks. */
    method Body(data: seq<Byte>)
      requires |data| > 0 && |data| % 64 == 0
      modifies this`a, this`b, this`c, this`d
      ensures Chain() == Blocks(old(Chain()), data)
    {
      hide Blocks, Rounds, Words, Add;
      var at: nat := 0;
      var a0, b0, c0, d0 := a, b, c, d;
      ghost var start := Chain();
      NoBlocks(start);
      var size: nat := |data|;
      while size != 0
        invariant size % 64 == 0 && at + size == |data|
        invariant State(a0, b0, c0, d0) == Blocks(start, data[..at])
      {
        NextBlock(start, data, at);
        a0, b0, c0, d0 := Transform(a0, b0, c0, d0, Words(data[at..at + 64]));
        at := at + 64;
        size := size - 64;
      }
      assert data[..at] == data;
      a, b, c, d := a0, b0, c0, d0;
    }

    /** memcpy into the buffer. */
    method Copy(at: nat, data: seq<Byte>)
      requires at + |data| <= buffer.Length
      modifies buffer
      ensures buffer[..] == old(buffer[..at]) + data + old(buffer[at + |data|..])
    {
      forall i | 0 <= i < |data| {
        buffer[at + i] := data[i];
      }
    }

    /** Counts size more bytes. */
    method Count(size: nat, ghost n: nat)
      requires Counts(lo, hi, n)
      modifies this`lo, this`hi
      ensures Counts(lo, hi, n + size)
    {
      CounterAdds(lo, hi, n, size);
      var savedLo := lo;
      lo := (savedLo + size) % LO_RANGE;
      if lo < savedLo {
        hi := (hi + 1) % WORD_RANGE;
      }
      hi := (hi + size / LO_RANGE) % WORD_RANGE;
    }

    /** Feeds data to the context: afterwards it stands for the longer message. */
    method Update(data: seq<Byte>)
      requires Valid()
      modifies this, buffer
      ensures Valid() && msg == old(msg) + data
    {
      hide Blocks, Counts;
      ghost var m0 := msg;
      CounterLow(lo, hi, |msg|);
      var used := lo % 64;
      Count(|data|, |m0|);
      var rest := data;
      msg := m0 + data;
      if used != 0 {
        var free := 64 - used;
        if |data| < free {
          Copy(used, data);
          TailOnly(m0, data);
          return;
        }
        Copy(used, data[..free]);
        rest := data[free..];
        Body(buffer[..]);
        TailFilled(m0, data, buffer[..], Chain());
        assert msg[..|msg| - |rest|] == m0 + data[..free];
      } else {
        TailEmpty(m0);
        assert msg[..|msg| - |rest|] == m0;
      }
      Finish(rest, msg[..|msg| - |rest|]);
    }

    /** The first half of MD5_Final: the byte 0x80 and zeros up to the length bytes. */
    method Pad()
      requires Valid()
      modifies this`a, this`b, this`c, this`d, buffer
      ensures var tail := msg[WholePart(|msg|)..];
              if |tail| < 56 then
                Chain() == old(Chain()) && buffer[..56] == tail + [0x80] + Zeros(55 - |tail|)
              else
                Chain() == Blocks(old(Chain()), tail + [0x80] + Zeros(63 - |tail|)) && buffer[..56] == Zeros(56)
    {
      hide Blocks, Counts;
      ghost var tail := msg[WholePart(|msg|)..];
      CounterLow(lo, hi, |msg|);
      var used := lo % 64;
      assert buffer[..used] == tail;
      buffer[used] := 0x80;
      used := used + 1;
      assert buffer[..used] == tail + [0x80];
      var free := 64 - used;
      if free < 8 {
        Copy(used, Zeros(free));
        assert buffer[..] == tail + [0x80] + Zeros(63 - |tail|);
        Body(buffer[..]);
        used := 0;
        free := 64;
      }
      Copy(used, Zeros(free - 8));
      assert |tail| >= 56 ==> buffer[..56] == Zeros(56);
    }

    /** Pads the message, digests what is left of it, gives out the digest and wipes the context. */
    method Final() returns (result: seq<Byte>)
      requires Valid()
      modifies this, buffer
      ensures result == Digest(old(msg))
      ensures lo == hi == 0 && Chain() == State(0, 0, 0, 0) && buffer[..] == Zeros(buffer.Length)
    {
      hide Blocks, Counts, Output, ByteOf, Padded, LengthBytes, Digest;
      ghost var w := WholePart(|msg|);
      ghost var tail, st := msg[w..], Chain();
      CounterBytes(lo, hi, |msg|);
      CounterRange(lo, hi, |msg|);
      Pad();
      lo := 8 * lo % WORD_RANGE;
      ghost var mid, head := Chain(), buffer[..56];
      Copy(56, [ByteOf(lo, 0), ByteOf(lo, 1), ByteOf(lo, 2), ByteOf(lo, 3), ByteOf(hi, 0), ByteOf(hi, 1), ByteOf(hi, 2), ByteOf(hi, 3)]);
      assert buffer[..] == head + LengthBytes(|msg|);
      LastBlocks(msg, tail, st, mid, buffer[..]);
      Body(buffer[..]);
      result := Output(a) + Output(b) + Output(c) + Output(d);
      DigestIs(msg, a, b, c, d);
      Wipe();
    }

    /** memset of the whole context. */
    method Wipe()
      requires buffer.Length == 64
      modifies this, buffer
      ensures lo == hi == 0 && Chain() == State(0, 0, 0, 0) && buffer[..] == Zeros(buffer.Length)
    {
      lo, hi, a, b, c, d := 0, 0, 0, 0, 0, 0;
      Copy(0, Zeros(64));
    }

    /** The end of MD5_Update: whole blocks straight from the data, the rest into the buffer. */
    method Finish(data: seq<Byte>, ghost done: seq<Byte>)
      requires buffer.Length == 64 && Counts(lo, hi, |msg|)
      requires |done| % 64 == 0 && Chain() == Blocks(INIT_STATE, done) && msg == done + data
      modifies this`a, this`b, this`c, this`d, buffer
      ensures Valid()
    {
      hide Blocks, Counts;
      var rest := data;
      if |rest| >= 64 {
        var whole := |rest| / 64 * 64;
        BlocksConcat(INIT_STATE, done, rest[..whole]);
        Body(rest[..whole]);
        assert done + rest[..whole] == msg[..|done| + whole];
        rest := rest[whole..];
      }
      Copy(0, rest);
      SplitAt(msg, rest);
      assert msg[..|msg| - |rest|] == if |data| >= 64 then done + data[..|data| / 64 * 64] else done;
    }
  }

  lemma CounterLow(lo: nat, hi: nat, n: nat)
    requires Counts(lo, hi, n)
    ensures lo % 64 == n % 64
  {
    var q := n / LO_RANGE;
    assert n == 64 * (0x80_0000 * q) + lo;
    assert lo == 64 * (lo / 64) + lo % 64;
    DivideBy64(0x80_0000 * q + lo / 64, lo % 64);
  }

  lemma NoRounds(x: seq<Word>, st: State)
    requires |x| == 16
    ensures Rounds(x, st, 0) == st
  {
  }

  lemma NoBlocks(st: State)
    ensures Blocks(st, []) == st
  {
  }

  lemma NextBlock(st: State, data: seq<Byte>, at: nat)
    requires at % 64 == 0 && at + 64 <= |data|
    ensures var s := Blocks(st, data[..at]);
            Blocks(st, data[..at + 64]) == Add(Rounds(Words(data[at..at + 64]), s, 64), s)
  {
    hide Rounds, Words, Add;
    var p, q := data[..at], data[at..at + 64];
    assert data[..at + 64] == p + q;
    BlocksConcat(st, p, q);
    BlocksOne(Blocks(st, p), q);
  }

  lemma TailOnly(m: seq<Byte>, data: seq<Byte>)
    requires |m| % 64 + |data| < 64
    ensures var n := m + data;
            WholePart(|n|) == WholePart(|m|) && n[..WholePart(|n|)] == m[..WholePart(|m|)]
            && n[WholePart(|n|)..] == m[WholePart(|m|)..] + data && |n| % 64 == |m| % 64 + |data|
  {
    var q, r := |m| / 64, |m| % 64;
    DivideBy64(q, r + |data|);
    assert |m + data| == 64 * q + (r + |data|);
  }

  lemma TailEmpty(m: seq<Byte>)
    requires |m| % 64 == 0
    ensures m[..WholePart(|m|)] == m
  {
  }

  /** The buffer, filled up, is the block that ends the message so far. */
  lemma TailFilled(m: seq<Byte>, data: seq<Byte>, block: seq<Byte>, st: State)
    requires |m| % 64 + |data| >= 64 && |block| == 64
    requires block == m[WholePart(|m|)..] + data[..64 - |m| % 64]
    requires st == Blocks(Blocks(INIT_STATE, m[..WholePart(|m|)]), block)
    ensures var done := m + data[..64 - |m| % 64];
            |done| % 64 == 0 && st == Blocks(INIT_STATE, done)
  {
    hide Blocks;
    var w := WholePart(|m|);
    BlocksConcat(INIT_STATE, m[..w], block);
    assert m[..w] + block == m + data[..64 - |m| % 64];
  }

  lemma SplitAt(m: seq<Byte>, rest: seq<Byte>)
    requires |rest| < 64 && |rest| <= |m| && (|m| - |rest|) % 64 == 0
    ensures |m| % 64 == |rest| && WholePart(|m|) == |m| - |rest|
  {
    var q := (|m| - |rest|) / 64;
    assert |m| == 64 * q + |rest|;
    DivideBy64(q, |rest|);
  }

  lemma DigestIs(m: seq<Byte>, a: Word, b: Word, c: Word, d: Word)
    requires Blocks(INIT_STATE, Padded(m)) == State(a, b, c, d)
    ensures Digest(m) == Output(a) + Output(b) + Output(c) + Output(d)
  {
    hide Blocks, Padded, Output;
  }

  lemma CounterRange(lo: nat, hi: nat, n: nat)
    requires Counts(lo, hi, n)
    ensures lo < LO_RANGE && hi < WORD_RANGE
  {
  }

  /** The padded message is the whole blocks digested so far and one or two more. */
  lemma LastBlocks(m: seq<Byte>, tail: seq<Byte>, st: State, mid: State, last: seq<Byte>)
    requires tail == m[WholePart(|m|)..] && st == Blocks(INIT_STATE, m[..WholePart(|m|)])
    requires |last| == 64
    requires if |tail| < 56 then
               mid == st && last == tail + [0x80] + Zeros(55 - |tail|) + LengthBytes(|m|)
             else
               mid == Blocks(st, tail + [0x80] + Zeros(63 - |tail|)) && last == Zeros(56) + LengthBytes(|m|)
    ensures Blocks(mid, last) == Blocks(INIT_STATE, Padded(m))
  {
    hide Blocks, LengthBytes;
    var w := WholePart(|m|);
    var z := Zeros(ZerosFor(|m|));
    assert m == m[..w] + tail;
    if |tail| < 56 {
      assert ZerosFor(|m|) == 55 - |tail|;
      assert Padded(m) == m[..w] + last;
      BlocksConcat(INIT_STATE, m[..w], last);
    } else {
      assert ZerosFor(|m|) == 119 - |tail|;
      var p := tail + [0x80] + Zeros(63 - |tail|);
      assert z == Zeros(63 - |tail|) + Zeros(56);
      assert Padded(m) == m[..w] + (p + last);
      BlocksConcat(INIT_STATE, m[..w], p + last);
      BlocksConcat(st, p, last);
    }
  }

  // ---- the digest of a message fed in any pieces

  /** However a message is cut into updates, the digest is that of the whole message. */
  method DigestPieces(pieces: seq<seq<Byte>>) returns (result: seq<Byte>)
    ensures result == Digest(Flatten(pieces))
  {
    hide Digest;
    var ctx := new Context();
    for i := 0 to |pieces|
      invariant ctx.Valid() && ctx.msg == Flatten(pieces[..i])
      invariant fresh(ctx) && fresh(ctx.buffer)
    {
      FlattenNext(pieces, i);
      ctx.Update(pieces[i]);
    }
    assert pieces[..|pieces|] == pieces;
    result := ctx.Final();
  }

  /** md5_signature: the digest of a message given at once. */
  method Signature(key: seq<Byte>) returns (result: seq<Byte>)
    ensures result == Digest(key)
  {
    hide Digest;
    var ctx := new Context();
    ctx.Update(key);
    assert ctx.msg == key;
    result := ctx.Final();
  }

  /** hash_md5: the first four bytes of the digest, read back as a little-endian word. */
  method HashMd5(key: seq<Byte>) returns (h: Word)
    ensures h == Blocks(INIT_STATE, Padded(key)).a && Output(h) == Digest(key)[..4]
  {
    hide Blocks;
    var results := Signature(key);
    ghost var w := Blocks(INIT_STATE, Padded(key)).a;
    assert results[..4] == Output(w);
    h := ((results[3] as Word) << 24) | ((results[2] as Word) << 16) | ((results[1] as Word) << 8) | (results[0] as Word);
    assert results[3] == results[..4][3] && results[2] == results[..4][2] && results[1] == results[..4][1] && results[0] == results[..4][0];
    WordFromBytes(w);
  }

  lemma ByteBits(w: Word)
    ensures ((((w >> 24) & 0xff) as bv8 as Word) << 24) | ((((w >> 16) & 0xff) as bv8 as Word) << 16)
            | ((((w >> 8) & 0xff) as bv8 as Word) << 8) | ((w & 0xff) as bv8 as Word) == w
  {
  }

  lemma WordFromBytes(w: Word)
    ensures ((LowByte(w, 3) as Word) << 24) | ((LowByte(w, 2) as Word) << 16) | ((LowByte(w, 1) as Word) << 8) | (LowByte(w, 0) as Word) == w
  {
    ByteBits(w);
  }
}
