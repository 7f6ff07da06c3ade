/** Bytes and machine words, with their bitwise operations, written out on integers. */
module Bits {

  type Byte = x: int | 0 <= x < 256

  const TWO_TO_THE_31 := 0x8000_0000
  const TWO_TO_THE_32 := 0x1_0000_0000
  const TWO_TO_THE_63 := 0x8000_0000_0000_0000
  const TWO_TO_THE_64 := 0x1_0000_0000_0000_0000

  function Pow2(n: nat): (p: nat)
    ensures p > 0
  {
    if n == 0 then 1 else 2 * Pow2(n - 1)
  }

  /** Bitwise or of two words. */
  function BitOr(a: nat, b: nat, width: nat): (r: nat)
    ensures r < Pow2(width)
  {
    if width == 0 then 0
    else 2 * BitOr(a / 2, b / 2, width - 1) + (if a % 2 == 1 || b % 2 == 1 then 1 else 0)
  }

  function BitXor(a: nat, b: nat, width: nat): (r: nat)
    ensures r < Pow2(width)
  {
    if width == 0 then 0
    else 2 * BitXor(a / 2, b / 2, width - 1) + (if a % 2 != b % 2 then 1 else 0)
  }

  function BitAnd(a: nat, b: nat, width: nat): nat {
    if width == 0 then 0
    else 2 * BitAnd(a / 2, b / 2, width - 1) + (if a % 2 == 1 && b % 2 == 1 then 1 else 0)
  }

  lemma {:induction false} BitOrZero(a: nat, width: nat)
    requires a < Pow2(width)
    ensures BitOr(a, 0, width) == a
  {
    if width > 0 {
      BitOrZero(a / 2, width - 1);
    }
  }

  /** Words that share no bit: or is addition. */
  lemma {:induction false} BitOrApart(a: nat, b: nat, n: nat, width: nat)
    requires n <= width && a < Pow2(width - n) && b < Pow2(n)
    ensures BitOr(a * Pow2(n), b, width) == a * Pow2(n) + b
  {
    if n == 0 {
      BitOrZero(a, width);
    } else {
      assert a * Pow2(n) == 2 * (a * Pow2(n - 1));
      BitOrApart(a, b / 2, n - 1, width - 1);
    }
  }

  lemma {:induction false} BitOrOnes(a: nat, width: nat)
    ensures BitOr(a, Pow2(width) - 1, width) == Pow2(width) - 1
  {
    if width > 0 {
      assert (Pow2(width) - 1) / 2 == Pow2(width - 1) - 1;
      BitOrOnes(a / 2, width - 1);
    }
  }

  lemma Powers()
    ensures Pow2(32) == TWO_TO_THE_32 && Pow2(64) == TWO_TO_THE_64
  {
    assert Pow2(8) == 256;
    assert Pow2(16) == 0x1_0000;
    assert Pow2(24) == 0x100_0000;
    assert Pow2(32) == 0x1_0000_0000;
    assert Pow2(40) == 0x100_0000_0000;
    assert Pow2(48) == 0x1_0000_0000_0000;
    assert Pow2(56) == 0x100_0000_0000_0000;
  }

  /** Exclusive or with the same word twice changes nothing. */
  lemma {:induction false} BitXorTwice(a: nat, b: nat, width: nat)
    requires a < Pow2(width)
    ensures BitXor(BitXor(a, b, width), b, width) == a
  {
    if width > 0 {
      var half, r := BitXor(a / 2, b / 2, width - 1), BitXor(a, b, width);
      assert r == 2 * half + (if a % 2 != b % 2 then 1 else 0);
      assert r / 2 == half && r % 2 == if a % 2 != b % 2 then 1 else 0;
      BitXorTwice(a / 2, b / 2, width - 1);
    }
  }

  /** Bit i of a word. */
  function Bit(a: nat, i: nat): nat {
    a / Pow2(i) % 2
  }

  lemma BitHalf(a: nat, i: nat)
    ensures Bit(a, i + 1) == Bit(a / 2, i) && Bit(a, 0) == a % 2
  {
    DivideTwice(a, 2, Pow2(i));
  }

  /** Exclusive or, bit by bit. */
  lemma {:induction false} BitXorBits(a: nat, b: nat, width: nat, i: nat)
    requires i < width
    ensures Bit(BitXor(a, b, width), i) == if Bit(a, i) != Bit(b, i) then 1 else 0
  {
    var half, r := BitXor(a / 2, b / 2, width - 1), BitXor(a, b, width);
    assert r == 2 * half + (if a % 2 != b % 2 then 1 else 0);
    assert r / 2 == half && r % 2 == if a % 2 != b % 2 then 1 else 0;
    if i > 0 {
      BitXorBits(a / 2, b / 2, width - 1, i - 1);
      BitHalf(a, i - 1);
      BitHalf(b, i - 1);
      BitHalf(r, i - 1);
    }
  }

  lemma {:induction false} PowersAdd(m: nat, n: nat)
    ensures Pow2(m + n) == Pow2(m) * Pow2(n)
  {
    if m > 0 {
      PowersAdd(m - 1, n);
      assert 2 * (Pow2(m - 1) * Pow2(n)) == (2 * Pow2(m - 1)) * Pow2(n);
    }
  }

  /** A mask of n ones keeps the remainder. */
  lemma {:induction false} BitAndMask(a: nat, n: nat, width: nat)
    requires n <= width
    ensures BitAnd(a, Pow2(n) - 1, width) == a % Pow2(n)
  {
    if n == 0 {
      BitAndZero(a, width);
    } else {
      assert (Pow2(n) - 1) / 2 == Pow2(n - 1) - 1;
      BitAndMask(a / 2, n - 1, width - 1);
      HalfModulo(a, Pow2(n - 1));
    }
  }

  lemma {:induction false} BitAndZero(a: nat, width: nat)
    ensures BitAnd(a, 0, width) == 0
  {
    if width > 0 {
      BitAndZero(a / 2, width - 1);
    }
  }

  lemma HalfModulo(a: nat, p: nat)
    requires p > 0
    ensures a % (2 * p) == a / 2 % p * 2 + a % 2
  {
    var q, r := a / 2 / p, a / 2 % p;
    assert a / 2 == p * q + r;
    assert a == 2 * p * q + (2 * r + a % 2);
    Remainder(2 * p, q, 2 * r + a % 2);
  }

  lemma Remainder(d: nat, q: nat, r: nat)
    requires r < d
    ensures (d * q + r) % d == r
  {
    var x := d * q + r;
    assert x == d * (x / d) + x % d;
    assert d * (q - x / d) == x % d - r;
    Multiple(d, q - x / d);
  }

  lemma Multiple(d: nat, n: int)
    requires d > 0
    ensures n > 0 ==> d * n >= d
    ensures n < 0 ==> d * n + d <= 0
  {
  }

  lemma Quotient(d: nat, q: nat, r: nat, v: nat)
    requires r < d && v == d * q + r
    ensures v / d == q && v % d == r
  {
    assert d * (v / d - q) == r - v % d;
    Multiple(d, v / d - q);
  }

  /** Division and remainder may change places. */
  lemma DivideModulo(v: nat, a: nat, b: nat)
    requires a > 0 && b > 0
    ensures a * b > 0 && v % (a * b) / a == v / a % b
  {
    var ab := a * b;
    assert ab > 0;
    var q, r := v / ab, v % ab;
    assert v == ab * q + r;
    var t, u := r / a, r % a;
    assert r == a * t + u;
    Reassociate(a, b, q, t, u);
    Smaller(a, b, t, u);
    Quotient(a, b * q + t, u, v);
    Quotient(b, q, t, v / a);
  }

  lemma Reassociate(a: nat, b: nat, q: nat, t: nat, u: nat)
    ensures (a * b) * q + (a * t + u) == a * (b * q + t) + u
  {
  }

  lemma Smaller(a: nat, b: nat, t: nat, u: nat)
    requires a > 0 && a * t + u < a * b
    ensures t < b
  {
    assert a * (b - t) > 0;
    Multiple(a, b - t);
  }

  /** A multiple of the divisor may be taken off first. */
  lemma ModuloModulo(v: nat, a: nat, b: nat)
    requires a > 0 && b > 0
    ensures a * b > 0 && v % (a * b) % a == v % a
  {
    var ab := a * b;
    assert ab > 0;
    var q, r := v / ab, v % ab;
    assert v == ab * q + r;
    var t, u := r / a, r % a;
    assert r == a * t + u;
    Reassociate(a, b, q, t, u);
    Quotient(a, b * q + t, u, v);
  }

  lemma DivideTwice(v: nat, a: nat, b: nat)
    requires a > 0 && b > 0
    ensures a * b > 0 && v / (a * b) == v / a / b
  {
    var q, r := v / a, v % a;
    var t, u := q / b, q % b;
    assert v == a * q + r && q == b * t + u;
    Reassociate(a, b, t, u, r);
    Fits(a, b, u, r);
    Quotient(a * b, t, a * u + r, v);
  }

  lemma Fits(a: nat, b: nat, u: nat, r: nat)
    requires u < b && r < a
    ensures 0 <= a * u + r < a * b
  {
    Multiple(a, b - u);
    assert a * (b - u) == a * b - a * u;
  }
}
