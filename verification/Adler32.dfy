/** The Adler-32 checksum of RFC 1950, section 2.2, computed as its sample code in section 9 does, and the
    damage it is sure to notice. */
module Adler32 {
  import opened Buffer

  const BASE := 65521

  datatype Sums = Sums(s1: nat, s2: nat)

  function Add(t: Sums, b: Byte): (r: Sums)
    ensures r.s1 < BASE && r.s2 < BASE
  {
    var s1 := (t.s1 + b as int) % BASE;
    Sums(s1, (t.s2 + s1) % BASE)
  }

  function Fold(t: Sums, data: seq<Byte>): (r: Sums)
    ensures t.s1 < BASE && t.s2 < BASE ==> r.s1 < BASE && r.s2 < BASE
    decreases |data|
  {
    if data == [] then t else Fold(Add(t, data[0]), data[1..])
  }

  /** adler32(1, data). */
  function Adler(data: seq<Byte>): (c: nat)
    ensures c < 0x1_0000_0000
  {
    var t := Fold(Sums(1, 0), data);
    t.s2 * 0x1_0000 + t.s1
  }

  lemma {:induction false} FoldConcat(t: Sums, p: seq<Byte>, q: seq<Byte>)
    ensures Fold(t, p + q) == Fold(Fold(t, p), q)
    decreases |p|
  {
    if p == [] {
      assert p + q == q;
    } else {
      assert (p + q)[0] == p[0] && (p + q)[1..] == p[1..] + q;
      FoldConcat(Add(t, p[0]), p[1..], q);
    }
  }

  /** Once the first sums differ they stay different. */
  lemma {:induction false} FirstSumsApart(t: Sums, u: Sums, q: seq<Byte>)
    requires t.s1 < BASE && u.s1 < BASE && t.s1 != u.s1
    ensures Fold(t, q).s1 != Fold(u, q).s1
    decreases |q|
  {
    if q != [] {
      FirstSumsApart(Add(t, q[0]), Add(u, q[0]), q[1..]);
    }
  }

  /** With equal first sums, second sums that differ stay different. */
  lemma {:induction false} SecondSumsApart(t: Sums, u: Sums, q: seq<Byte>)
    requires t.s1 == u.s1 && t.s2 < BASE && u.s2 < BASE && t.s2 != u.s2
    ensures Fold(t, q).s2 != Fold(u, q).s2
    decreases |q|
  {
    if q != [] {
      SecondSumsApart(Add(t, q[0]), Add(u, q[0]), q[1..]);
    }
  }

  lemma AdlerApart(p: seq<Byte>, q: seq<Byte>)
    requires Fold(Sums(1, 0), p) != Fold(Sums(1, 0), q)
    ensures Adler(p) != Adler(q)
  {
  }

  lemma FoldCons(t: Sums, x: Byte, q: seq<Byte>)
    ensures Fold(t, [x] + q) == Fold(Add(t, x), q)
  {
    assert ([x] + q)[0] == x && ([x] + q)[1..] == q;
  }

  /** Remainders of numbers less than the modulus apart differ. */
  lemma ModApart(a: int, b: int)
    requires -BASE < a - b < BASE && a != b
    ensures a % BASE != b % BASE
  {
  }

  lemma ModAdd(a: int, y: int)
    ensures (a % BASE + y) % BASE == (a + y) % BASE
  {
  }

  lemma AddApart(t: Sums, x: Byte, y: Byte)
    requires x != y
    ensures Add(t, x).s1 != Add(t, y).s1
  {
    ModApart(t.s1 + x as int, t.s1 + y as int);
  }

  /** One changed byte changes the checksum. */
  lemma OneByte(p: seq<Byte>, x: Byte, y: Byte, q: seq<Byte>)
    requires x != y
    ensures Adler(p + [x] + q) != Adler(p + [y] + q)
  {
    hide Adler, Fold, Add;
    var t := Fold(Sums(1, 0), p);
    FoldConcat(Sums(1, 0), p, [x] + q);
    FoldConcat(Sums(1, 0), p, [y] + q);
    assert p + [x] + q == p + ([x] + q) && p + [y] + q == p + ([y] + q);
    FoldCons(t, x, q);
    FoldCons(t, y, q);
    AddApart(t, x, y);
    FirstSumsApart(Add(t, x), Add(t, y), q);
    AdlerApart(p + [x] + q, p + [y] + q);
  }

  /** The sums after two bytes, from the sums before. */
  lemma AddTwice(t: Sums, x: Byte, y: Byte)
    ensures Add(Add(t, x), y).s1 == (t.s1 + x as int + y as int) % BASE
    ensures Add(Add(t, x), y).s2 == (t.s2 + 2 * t.s1 + 2 * x as int + y as int) % BASE
  {
    var a := t.s1 + x as int;
    var b := a + y as int;
    ModAdd(a, y as int);
    ModAdd(a, t.s2);
    ModAdd(t.s2 + a, b % BASE);
    ModAdd(b, t.s2 + a);
  }

  lemma AddTwo(t: Sums, x: Byte, y: Byte)
    requires x != y
    ensures Add(Add(t, x), y).s1 == Add(Add(t, y), x).s1
    ensures Add(Add(t, x), y).s2 != Add(Add(t, y), x).s2
  {
    hide Add;
    AddTwice(t, x, y);
    AddTwice(t, y, x);
    ModApart(t.s2 + 2 * t.s1 + 2 * x as int + y as int, t.s2 + 2 * t.s1 + 2 * y as int + x as int);
  }

  /** Two unequal neighbours swapped change the checksum. */
  lemma Swapped(p: seq<Byte>, x: Byte, y: Byte, q: seq<Byte>)
    requires x != y
    ensures Adler(p + [x, y] + q) != Adler(p + [y, x] + q)
  {
    hide Adler, Fold, Add;
    var t := Fold(Sums(1, 0), p);
    FoldConcat(Sums(1, 0), p, [x, y] + q);
    FoldConcat(Sums(1, 0), p, [y, x] + q);
    assert p + [x, y] + q == p + ([x, y] + q) && p + [y, x] + q == p + ([y, x] + q);
    FoldConcat(t, [x, y], q);
    FoldConcat(t, [y, x], q);
    FoldTwo(t, x, y);
    FoldTwo(t, y, x);
    AddTwo(t, x, y);
    SecondSumsApart(Add(Add(t, x), y), Add(Add(t, y), x), q);
    AdlerApart(p + [x, y] + q, p + [y, x] + q);
  }

  lemma FoldTwo(t: Sums, x: Byte, y: Byte)
    ensures Fold(t, [x, y]) == Add(Add(t, x), y)
  {
    assert [x, y][1..] == [y] && [y][1..] == [];
    assert Fold(Add(t, x), [y]) == Fold(Add(Add(t, x), y), []);
  }

  // ---- what the checksum is

  /** The sum of the bytes. */
  function Sum(data: seq<Byte>): nat {
    if data == [] then 0 else data[0] as nat + Sum(data[1..])
  }

  /** The sum of the bytes, each times the number of bytes from it to the end. */
  function Weighted(data: seq<Byte>): nat {
    if data == [] then 0 else |data| * data[0] as nat + Weighted(data[1..])
  }

  lemma ModTimes(a: int, m: int, b: int)
    ensures (a + m * (b % BASE)) % BASE == (a + m * b) % BASE
  {
    var q := b / BASE;
    assert m * b == m * (b % BASE) + BASE * (m * q) by {
      assert b == BASE * q + b % BASE;
    }
    ModMultiple(a + m * (b % BASE), m * q);
  }

  lemma ModMultiple(a: int, k: int)
    ensures (a + BASE * k) % BASE == a % BASE
  {
  }

  lemma SecondSum(s1: nat, s2: nat, x: nat, n: nat, w: nat)
    requires n > 0
    ensures var u1 := (s1 + x) % BASE; var u2 := (s2 + u1) % BASE;
      (u2 + (n - 1) * u1 + w) % BASE == (s2 + n * s1 + (n * x + w)) % BASE
  {
    var u1 := (s1 + x) % BASE;
    var most := (n - 1) * u1;
    ModAdd(s2 + u1, most + w);
    assert most + u1 == n * u1;
    ModTimes(s2 + w, n, s1 + x);
    assert n * (s1 + x) == n * s1 + n * x;
  }

  lemma {:induction false} FoldIs(t: Sums, data: seq<Byte>)
    requires t.s1 < BASE && t.s2 < BASE
    ensures Fold(t, data).s1 == (t.s1 + Sum(data)) % BASE
    ensures Fold(t, data).s2 == (t.s2 + |data| * t.s1 + Weighted(data)) % BASE
    decreases |data|
  {
    if data != [] {
      var x, rest := data[0] as nat, data[1..];
      FoldIs(Add(t, data[0]), rest);
      ModAdd(t.s1 + x, Sum(rest));
      SecondSum(t.s1, t.s2, x, |data|, Weighted(rest));
    } else {
      assert 0 * t.s1 == 0;
    }
  }

  lemma Halves(low: nat, high: nat)
    requires low < 0x1_0000
    ensures (high * 0x1_0000 + low) % 0x1_0000 == low && (high * 0x1_0000 + low) / 0x1_0000 == high
  {
  }

  /** The low half is one and the sum of the bytes, the high half the number of bytes and the weighted sum, both
      modulo the largest prime below 65536. */
  lemma AdlerIs(data: seq<Byte>)
    ensures Adler(data) % 0x1_0000 == (1 + Sum(data)) % 65521
    ensures Adler(data) / 0x1_0000 == (|data| + Weighted(data)) % 65521
  {
    var t := Fold(Sums(1, 0), data);
    FoldIs(Sums(1, 0), data);
    Halves(t.s1, t.s2);
    hide Fold, Sum, Weighted;
  }
}
