/** The integer formatting of the log stream: digits are written backwards with truncating division, the sign is
    put last, and the text is reversed in place. */
module LogStream {
  import opened Bits

  // ---- numerals

  const MAX_NUMERIC_SIZE := 32

  predicate Radix(r: int) {
    r == 10 || r == 16
  }

  /** The digits of n without leading zeros. */
  function Digits(n: nat, r: int): (s: string)
    requires Radix(r)
    decreases n
  {
    if n < r then [DigitChar(n)] else Digits(n / r, r) + [DigitChar(n % r)]
  }

  function DigitChar(d: int): char
    requires 0 <= d < 16
  {
    "0123456789ABCDEF"[d]
  }

  function DigitOf(c: char): int {
    if '0' <= c <= '9' then c as int - '0' as int
    else if 'A' <= c <= 'F' then c as int - 'A' as int + 10
    else -1
  }

  ghost predicate IsNumeral(s: string, r: int) {
    && s != [] && (forall c :: c in s ==> 0 <= DigitOf(c) < r)
    && (s[0] == '0' ==> |s| == 1)
  }

  /** What a string of digits stands for. */
  function ValueOf(s: string, r: int): int {
    if s == [] then 0 else WithDigit(ValueOf(s[..|s| - 1], r), DigitOf(s[|s| - 1]), r)
  }

  function WithDigit(v: int, d: int, r: int): int {
    v * r + d
  }

  lemma DigitBack(d: int)
    requires 0 <= d < 16
    ensures DigitOf(DigitChar(d)) == d && (DigitChar(d) == '0' <==> d == 0)
  {
  }

  lemma CharBack(c: char)
    requires 0 <= DigitOf(c)
    ensures DigitOf(c) < 16 && DigitChar(DigitOf(c)) == c
  {
  }

  /** The digits of a number are a numeral that stands for it. */
  lemma {:induction false} DigitsRead(n: nat, r: int)
    requires Radix(r)
    ensures IsNumeral(Digits(n, r), r) && ValueOf(Digits(n, r), r) == n && (n > 0 ==> Digits(n, r)[0] != '0')
    decreases n
  {
    if n < r {
      DigitBack(n);
      assert ValueOf([], r) == 0;
      assert [DigitChar(n)][..0] == [];
    } else {
      DigitsRead(n / r, r);
      DigitBack(n % r);
      var s := Digits(n / r, r);
      assert Digits(n, r)[..|s|] == s;
    }
  }

  lemma DigitsStep(n: nat, r: int)
    requires Radix(r)
    ensures n >= r ==> Digits(n, r) == Digits(n / r, r) + [DigitChar(n % r)]
    ensures n < r ==> Digits(n, r) == [DigitChar(n)] && n / r == 0 && n % r == n
  {
  }

  lemma DivBack(v: nat, d: nat, r: int)
    requires Radix(r) && d < r
    ensures (v * r + d) / r == v && (v * r + d) % r == d && (v > 0 ==> v * r + d >= r)
  {
  }

  /** And the only one. */
  lemma {:induction false} NumeralUnique(s: string, r: int)
    requires Radix(r) && IsNumeral(s, r)
    ensures ValueOf(s, r) >= 0 && Digits(ValueOf(s, r), r) == s && (s[0] != '0' ==> ValueOf(s, r) > 0)
    decreases |s|
  {
    var k := |s| - 1;
    var p := s[..k];
    LastValue(p, s[k], r);
    NumeralPrefix(s, r);
    hide ValueOf, DigitOf, Digits, IsNumeral, WithDigit;
    assert s == p + [s[k]];
    if k > 0 {
      NumeralUnique(p, r);
      NumeralMore(ValueOf(p, r), s[k], r);
    } else {
      ZeroAnd(DigitOf(s[0]), r);
      NumeralOne(s[0], r);
    }
  }

  lemma ZeroAnd(d: int, r: int)
    ensures WithDigit(0, d, r) == d
  {
  }

  lemma NumeralPrefix(s: string, r: int)
    requires IsNumeral(s, r)
    ensures var k := |s| - 1; 0 <= DigitOf(s[k]) < r && (k > 0 ==> IsNumeral(s[..k], r) && s[0] != '0')
  {
    assert forall c :: c in s[..|s| - 1] ==> c in s;
  }

  lemma DivWithDigit(v: nat, d: nat, r: int)
    requires Radix(r) && d < r && v > 0
    ensures var n := WithDigit(v, d, r); n >= r > 0 && n / r == v && n % r == d
  {
    DivBack(v, d, r);
  }

  lemma NumeralMore(v: nat, c: char, r: int)
    requires Radix(r) && v > 0 && 0 <= DigitOf(c) < r
    ensures WithDigit(v, DigitOf(c), r) > 0 && Digits(WithDigit(v, DigitOf(c), r), r) == Digits(v, r) + [c]
  {
    CharBack(c);
    hide DigitOf, DigitChar, Digits, WithDigit;
    DivWithDigit(v, DigitOf(c), r);
    DigitsStep(WithDigit(v, DigitOf(c), r), r);
  }

  lemma NumeralOne(c: char, r: int)
    requires Radix(r) && 0 <= DigitOf(c) < r
    ensures Digits(DigitOf(c), r) == [c] && (c != '0' ==> DigitOf(c) > 0)
  {
    CharBack(c);
    DigitBack(DigitOf(c));
    hide DigitOf, DigitChar;
  }

  lemma LastValue(p: string, c: char, r: int)
    ensures ValueOf(p + [c], r) == WithDigit(ValueOf(p, r), DigitOf(c), r)
    ensures p == [] ==> ValueOf(p, r) == 0
  {
    assert (p + [c])[..|p|] == p;
  }

  /** How long a numeral can be. */
  function Power(r: int, k: nat): int {
    if k == 0 then 1 else r * Power(r, k - 1)
  }

  lemma {:induction false} DigitsShort(n: nat, r: int, k: nat)
    requires Radix(r) && k > 0 && n < Power(r, k)
    ensures |Digits(n, r)| <= k
    decreases k
  {
    if n >= r {
      assert Power(r, k) == r * Power(r, k - 1);
      if k > 1 {
        DigitsShort(n / r, r, k - 1);
      }
    }
  }

  lemma PowersOfRadix()
    ensures Power(10, 19) > TWO_TO_THE_63 && Power(10, 20) >= TWO_TO_THE_64 && Power(16, 16) == TWO_TO_THE_64
  {
    assert Power(10, 5) == 100000;
    assert Power(10, 10) == 100000 * 100000;
    assert Power(10, 15) == 100000 * 100000 * 100000;
    assert Power(10, 19) == 10000 * 100000 * 100000 * 100000;
    assert Power(16, 5) == 0x10_0000;
    assert Power(16, 10) == 0x100_0000_0000;
    assert Power(16, 15) == 0x1000_0000_0000_0000;
  }

  // ---- decimal text

  /** Every integer type up to 64 bits, signed or not. */
  predicate Is64(v: int) {
    -TWO_TO_THE_63 <= v < TWO_TO_THE_64
  }

  function Abs(v: int): nat {
    if v < 0 then -v else v
  }

  function Decimal(v: int): string {
    if v < 0 then "-" + Digits(-v, 10) else Digits(v, 10)
  }

  function ParseDecimal(s: string): int {
    if s != [] && s[0] == '-' then -ValueOf(s[1..], 10) else ValueOf(s, 10)
  }

  /** The text parses back to the value. */
  lemma DecimalRoundTrip(v: int)
    ensures ParseDecimal(Decimal(v)) == v
  {
    DigitsRead(Abs(v), 10);
    MinusNoDigit();
    hide Digits, ValueOf, DigitOf;
    if v < 0 {
      assert Decimal(v)[1..] == Digits(-v, 10);
    } else {
      assert Decimal(v)[0] in Decimal(v);
    }
  }

  /** The digits are the ten decimal ones and then the letters from A. */
  lemma DigitsAsText(d: nat)
    requires d < 16
    ensures DigitChar(d) as int == if d < 10 then 48 + d else 65 + (d - 10)
  {
  }

  lemma KnownTexts()
    ensures Decimal(0) == "0" && Decimal(-120) == "-120" && Decimal(90) == "90" && Digits(431, 16) == "1AF"
  {
    assert Digits(1, 10) == "1" && Digits(12, 10) == "12" && Digits(9, 10) == "9";
    assert Digits(1, 16) == "1" && Digits(26, 16) == "1A";
  }

  lemma MinusNoDigit()
    ensures DigitOf('-') == -1
  {
  }

  /** With its NUL it fits what formatInteger asks for. */
  lemma DecimalFits(v: int)
    requires Is64(v)
    ensures |Decimal(v)| + 1 <= 21 <= MAX_NUMERIC_SIZE
  {
    PowersOfRadix();
    hide Power, Digits;
    DigitsShort(Abs(v), 10, if v < 0 then 19 else 20);
  }

  lemma HexFits(v: nat)
    requires v < TWO_TO_THE_64
    ensures 2 + |Digits(v, 16)| + 1 <= 19 <= MAX_NUMERIC_SIZE
  {
    PowersOfRadix();
    hide Power, Digits;
    DigitsShort(v, 16, 16);
  }

  // ---- the conversions

  /** C's division and remainder, which truncate. */
  function TruncDiv(i: int, r: nat): int
    requires r > 0
  {
    if i < 0 then -(-i / r) else i / r
  }

  function TruncMod(i: int, r: nat): int
    requires r > 0
  {
    i - TruncDiv(i, r) * r
  }

  const DIGITS := "9876543210123456789"

  function Reversed(s: string): (t: string)
    ensures |t| == |s|
  {
    seq(|s|, i requires 0 <= i < |s| => s[|s| - 1 - i])
  }

  lemma ReversedMore(s: string, c: char)
    ensures Reversed(s + [c]) == [c] + Reversed(s)
  {
  }

  /** Nothing but buf[at..p] changed. */
  twostate predicate Only(buf: array<char>, at: nat, p: nat)
    reads buf
  {
    forall j :: 0 <= j < buf.Length && (j < at || p <= j) ==> buf[j] == old(buf[j])
  }

  /** std::reverse of buf[at..at + n]. */
  method Reverse(buf: array<char>, at: nat, n: nat)
    requires at + n <= buf.Length
    modifies buf
    ensures buf[at..at + n] == Reversed(old(buf[at..at + n])) && Only(buf, at, at + n)
  {
    var first, last := at, at + n;
    while first < last && first < last - 1
      invariant at <= first <= last <= at + n && first - at == at + n - last
      invariant forall i :: 0 <= i < buf.Length && (i < at || first <= i < last || at + n <= i) ==> buf[i] == old(buf[i])
      invariant forall i :: at <= i < first || last <= i < at + n ==> buf[i] == old(buf[at + n - 1 - (i - at)])
      decreases last - first
    {
      last := last - 1;
      buf[first], buf[last] := buf[last], buf[first];
      first := first + 1;
    }
    ghost var was, now := old(buf[at..at + n]), buf[at..at + n];
    forall i | 0 <= i < n ensures now[i] == was[n - 1 - i] {
      assert now[i] == buf[at + i] && was[n - 1 - i] == old(buf[at + (n - 1 - i)]);
    }
    assert now == Reversed(was);
  }

  /** One digit of a number that may be negative. */
  lemma DigitStep(i: int)
    ensures Abs(TruncDiv(i, 10)) == Abs(i) / 10 && -10 < TruncMod(i, 10) < 10
    ensures DIGITS[9 + TruncMod(i, 10)] == DigitChar(Abs(i) % 10)
  {
    var d := TruncMod(i, 10);
    assert d == (if i < 0 then -(Abs(i) % 10) else Abs(i) % 10);
  }

  /** *p++ = c. */
  method Put(buf: array<char>, at: nat, p: nat, c: char)
    requires at <= p < buf.Length
    modifies buf
    ensures Reversed(buf[at..p + 1]) == [c] + Reversed(old(buf[at..p])) && Only(buf, p, p + 1)
  {
    ReversedMore(buf[at..p], c);
    ghost var text := buf[at..p];
    buf[p] := c;
    assert buf[at..p + 1] == text + [c];
  }

  /** The last digit of a value, and the value without it: no number is negated on the way. */
  method LastDigit(i: int) returns (c: char, j: int)
    ensures Digits(Abs(i), 10) == (if j != 0 then Digits(Abs(j), 10) else []) + [c]
    ensures j != 0 ==> Abs(j) < Abs(i)
  {
    hide Digits;
    DigitsStep(Abs(i), 10);
    DigitStep(i);
    var lsd := TruncMod(i, 10);
    j := TruncDiv(i, 10);
    c := DIGITS[9 + lsd];
  }

  /** The digits of a value, last one first. */
  method PutDigits(buf: array<char>, at: nat, value: int) returns (p: nat)
    requires at + |Digits(Abs(value), 10)| <= buf.Length
    modifies buf
    ensures at <= p <= buf.Length && Reversed(buf[at..p]) == Digits(Abs(value), 10) && Only(buf, at, p)
  {
    hide Digits, Reversed, Abs;
    var i, more := value, true;
    p := at;
    ReversedNone();
    assert buf[at..at] == [];
    while more
      invariant at <= p <= buf.Length
      invariant Digits(Abs(value), 10) == (if more then Digits(Abs(i), 10) else []) + Reversed(buf[at..p])
      invariant Only(buf, at, p)
      decreases more, Abs(i)
    {
      ghost var text := Reversed(buf[at..p]);
      var c;
      c, i := LastDigit(i);
      more := i != 0;
      Regroup(if more then Digits(Abs(i), 10) else [], c, text);
      Put(buf, at, p, c);
      p := p + 1;
    }
  }

  lemma Regroup(x: string, c: char, y: string)
    ensures x + [c] + y == x + ([c] + y)
  {
  }

  lemma ReversedNone()
    ensures Reversed([]) == []
  {
  }

  /** Writes the decimal text of a value and a NUL at a place in a buffer, and nothing else. */
  method Convert(buf: array<char>, at: nat, value: int) returns (len: nat)
    requires Is64(value) && at + MAX_NUMERIC_SIZE <= buf.Length
    modifies buf
    ensures at + len < buf.Length && buf[at..at + len] == Decimal(value) && buf[at + len] == '\0'
    ensures Only(buf, at, at + len + 1)
  {
    hide Digits, Reversed;
    DecimalFits(value);
    var p := PutDigits(buf, at, value);
    if value < 0 {
      Put(buf, at, p, '-');
      p := p + 1;
    }
    Finish(buf, at, p);
    len := p - at;
  }

  /** Ends a text that was written backwards. */
  method Finish(buf: array<char>, at: nat, p: nat)
    requires at <= p < buf.Length
    modifies buf
    ensures buf[at..p] == Reversed(old(buf[at..p])) && buf[p] == '\0' && Only(buf, at, p + 1)
  {
    hide Reversed;
    ghost var text := buf[at..p];
    buf[p] := '\0';
    assert buf[at..p] == text;
    Reverse(buf, at, p - at);
  }

  /** The same in base 16, for addresses. */
  method ConvertHex(buf: array<char>, at: nat, value: nat) returns (len: nat)
    requires value < TWO_TO_THE_64 && at + MAX_NUMERIC_SIZE - 2 <= buf.Length
    modifies buf
    ensures at + len < buf.Length && buf[at..at + len] == Digits(value, 16) && buf[at + len] == '\0'
    ensures Only(buf, at, at + len + 1)
  {
    hide Digits, Reversed;
    HexFits(value);
    var p := PutHexDigits(buf, at, value);
    Finish(buf, at, p);
    len := p - at;
  }

  method LastHexDigit(i: nat) returns (c: char, j: nat)
    ensures Digits(i, 16) == (if j != 0 then Digits(j, 16) else []) + [c]
    ensures j != 0 ==> j < i
  {
    hide Digits;
    DigitsStep(i, 16);
    var lsd := i % 16;
    j := i / 16;
    c := "0123456789ABCDEF"[lsd];
  }

  method PutHexDigits(buf: array<char>, at: nat, value: nat) returns (p: nat)
    requires at + |Digits(value, 16)| <= buf.Length
    modifies buf
    ensures at <= p <= buf.Length && Reversed(buf[at..p]) == Digits(value, 16) && Only(buf, at, p)
  {
    hide Digits, Reversed;
    var i, more := value, true;
    p := at;
    ReversedNone();
    assert buf[at..at] == [];
    while more
      invariant at <= p <= buf.Length
      invariant Digits(value, 16) == (if more then Digits(i, 16) else []) + Reversed(buf[at..p])
      invariant Only(buf, at, p)
      decreases more, i
    {
      ghost var text := Reversed(buf[at..p]);
      var c;
      c, i := LastHexDigit(i);
      more := i != 0;
      Regroup(if more then Digits(i, 16) else [], c, text);
      Put(buf, at, p, c);
      p := p + 1;
    }
  }

  // ---- the stream

  /** A fixed buffer and how much of it is used. */
  class LogStream {
    const data: array<char>
    var cur: nat

    ghost predicate Valid()
      reads this
    {
      cur <= data.Length
    }

    ghost function Text(): string
      requires Valid()
      reads this, data
    {
      data[..cur]
    }

    constructor (size: nat)
      ensures Valid() && fresh(data) && data.Length == size && Text() == []
    {
      data := new char[size];
      cur := 0;
    }

    function Avail(): int
      reads this
    {
      data.Length - cur
    }

    /** Copies a text that leaves room for one more character, or nothing. */
    method Append(s: string)
      requires Valid()
      modifies this, data
      ensures Valid() && Text() == old(Text()) + (if old(Avail()) > |s| then s else [])
    {
      if Avail() > |s| {
        forall i | 0 <= i < |s| {
          data[cur + i] := s[i];
        }
        cur := cur + |s|;
      }
    }

    /** Appends an integer's text while there is room for any, or nothing. */
    method FormatInteger(v: int)
      requires Valid() && Is64(v)
      modifies this, data
      ensures Valid() && Text() == old(Text()) + (if old(Avail()) >= 32 then Decimal(v) else [])
    {
      hide Decimal;
      if Avail() >= MAX_NUMERIC_SIZE {
        var len := Convert(data, cur, v);
        assert data[..cur + len] == data[..cur] + data[cur..cur + len];
        cur := cur + len;
      }
    }

    /** Appends an address. */
    method FormatPointer(v: nat)
      requires Valid() && v < TWO_TO_THE_64
      modifies this, data
      ensures Valid() && Text() == old(Text()) + (if old(Avail()) >= 32 then "0x" + Digits(v, 16) else [])
    {
      hide Digits;
      if Avail() >= MAX_NUMERIC_SIZE {
        ghost var text := Text();
        data[cur] := '0';
        data[cur + 1] := 'x';
        assert data[..cur + 2] == text + "0x";
        label before:
        var len := ConvertHex(data, cur + 2, v);
        assert data[..cur + 2] == old@before(data[..cur + 2]);
        assert data[..cur + 2 + len] == data[..cur + 2] + data[cur + 2..cur + 2 + len];
        cur := cur + 2 + len;
      }
    }
  }
}
