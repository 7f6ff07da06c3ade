/** The byte buffer of a connection: a vector with a reader and a writer index, refining a byte sequence. */
module Buffer {
  import Bits

  type Byte = Bits.Byte

  const CHEAP_PREPEND := 8
  const INITIAL_SIZE := 1024
  const EXTRA_BUF := 65536

  // ---- integers in network byte order

  predicate IsInt32(x: int) {
    -0x8000_0000 <= x < 0x8000_0000
  }

  function Unsigned32(x: int): (u: nat)
    requires IsInt32(x)
    ensures u < 0x1_0000_0000
  {
    if x < 0 then x + 0x1_0000_0000 else x
  }

  function Signed32(u: nat): (x: int)
    requires u < 0x1_0000_0000
    ensures IsInt32(x) && Unsigned32(x) == u
  {
    if u >= 0x8000_0000 then u - 0x1_0000_0000 else u
  }

  function Network32(x: int): (b: seq<Byte>)
    requires IsInt32(x)
    ensures |b| == 4
  {
    var u := Unsigned32(x);
    [u / 0x100_0000, u / 0x1_0000 % 256, u / 0x100 % 256, u % 256]
  }

  function Host32(b: seq<Byte>): (x: int)
    requires |b| == 4
    ensures IsInt32(x)
  {
    Signed32(b[0] as int * 0x100_0000 + b[1] as int * 0x1_0000 + b[2] as int * 0x100 + b[3] as int)
  }

  lemma Digits256(u: nat)
    requires u < 0x1_0000_0000
    ensures u == u / 0x100_0000 * 0x100_0000 + u / 0x1_0000 % 256 * 0x1_0000 + u / 0x100 % 256 * 0x100 + u % 256
  {
    var p, q, r := u / 0x100, u / 0x1_0000, u / 0x100_0000;
    assert p / 0x100 == q && q / 0x100 == r;
  }

  /** Every 32-bit integer survives the network. */
  lemma Int32RoundTrip(x: int)
    requires IsInt32(x)
    ensures Host32(Network32(x)) == x
  {
    Digits256(Unsigned32(x));
  }

  lemma BytesRoundTrip(b: seq<Byte>)
    requires |b| == 4
    ensures Network32(Host32(b)) == b
  {
    var p := b[0] as int * 0x100 + b[1] as int;
    var q := p * 0x100 + b[2] as int;
    var u := q * 0x100 + b[3] as int;
    assert u / 0x100 == q && u % 0x100 == b[3];
    assert q / 0x100 == p && q % 0x100 == b[2];
    assert p / 0x100 == b[0] && p % 0x100 == b[1];
    assert u / 0x1_0000 == p;
    assert u / 0x100_0000 == b[0];
    assert Unsigned32(Host32(b)) == u;
  }

  /** The number that bytes stand for, the most significant first. */
  function BigEndian(b: seq<Byte>): nat {
    if b == [] then 0 else BigEndian(b[..|b| - 1]) * 0x100 + b[|b| - 1] as nat
  }

  lemma FourBytes(b: seq<Byte>)
    requires |b| == 4
    ensures BigEndian(b) == b[0] as int * 0x100_0000 + b[1] as int * 0x1_0000 + b[2] as int * 0x100 + b[3] as int
    ensures BigEndian(b) < 0x1_0000_0000
  {
    var c := b[..3];
    var d := c[..2];
    var e := d[..1];
    assert BigEndian(e[..0]) == 0;
    assert BigEndian(e) == b[0] as int;
    assert BigEndian(d) == BigEndian(e) * 0x100 + b[1] as int;
    assert BigEndian(c) == BigEndian(d) * 0x100 + b[2] as int;
  }

  /** Network order is the most significant byte first, of two's complement. */
  lemma NetworkIs(x: int)
    requires IsInt32(x)
    ensures BigEndian(Network32(x)) == if x < 0 then x + 0x1_0000_0000 else x
  {
    FourBytes(Network32(x));
    Digits256(if x < 0 then x + 0x1_0000_0000 else x);
    hide BigEndian;
  }

  lemma HostIs(b: seq<Byte>)
    requires |b| == 4
    ensures Host32(b) == if BigEndian(b) < 0x8000_0000 then BigEndian(b) else BigEndian(b) - 0x1_0000_0000
  {
    FourBytes(b);
    hide BigEndian;
  }

  /** The first place of a line end in s, or |s|; std::search for two bytes. */
  function FindCrlf(s: seq<Byte>): (n: nat)
    ensures n <= |s|
    ensures n < |s| ==> n + 1 < |s| && s[n] == 13 && s[n + 1] == 10
    ensures forall i :: 0 <= i < n && i + 1 < |s| ==> !(s[i] == 13 && s[i + 1] == 10)
  {
    if |s| < 2 then |s|
    else if s[0] == 13 && s[1] == 10 then 0
    else
      var n := FindCrlf(s[1..]);
      assert forall i :: 0 < i < |s| ==> s[i] == s[1..][i - 1];
      n + 1
  }

  class Buffer {
    var buffer: seq<Byte>
    var readerIndex: nat
    var writerIndex: nat

    ghost predicate Valid()
      reads this
    {
      readerIndex <= writerIndex <= |buffer| && CHEAP_PREPEND <= |buffer|
    }

    /** What the buffer stands for: the readable bytes. */
    ghost function Contents(): (s: seq<Byte>)
      requires Valid()
      reads this
    {
      buffer[readerIndex..writerIndex]
    }

    constructor ()
      ensures Valid() && Contents() == [] && readerIndex == 8 && |buffer| == 8 + 1024
    {
      buffer := seq(CHEAP_PREPEND + INITIAL_SIZE, i => 0);
      readerIndex, writerIndex := CHEAP_PREPEND, CHEAP_PREPEND;
    }

    function ReadableBytes(): nat
      requires Valid()
      reads this
    {
      writerIndex - readerIndex
    }

    function WritableBytes(): nat
      requires Valid()
      reads this
    {
      |buffer| - writerIndex
    }

    function PrependableBytes(): nat
      requires Valid()
      reads this
    {
      readerIndex
    }

    /** Makes room for len bytes by growing or by moving the content down; the content stays. */
    method MakeSpace(len: nat)
      requires Valid() && WritableBytes() < len
      modifies this
      ensures Valid() && Contents() == old(Contents()) && WritableBytes() >= len
      ensures readerIndex == old(readerIndex) || readerIndex == CHEAP_PREPEND
    {
      if WritableBytes() + PrependableBytes() < len + CHEAP_PREPEND {
        buffer := buffer + seq(writerIndex + len - |buffer|, i => 0);
      } else {
        assert CHEAP_PREPEND < readerIndex;
        var readable := ReadableBytes();
        buffer := buffer[..CHEAP_PREPEND] + buffer[readerIndex..writerIndex] + buffer[CHEAP_PREPEND + readable..];
        readerIndex := CHEAP_PREPEND;
        writerIndex := readerIndex + readable;
        assert readable == ReadableBytes();
      }
    }

    method EnsureWritableBytes(len: nat)
      requires Valid()
      modifies this
      ensures Valid() && Contents() == old(Contents()) && WritableBytes() >= len
      ensures old(WritableBytes()) >= len ==> WritableBytes() == old(WritableBytes())
      ensures readerIndex == old(readerIndex) || readerIndex == CHEAP_PREPEND
    {
      if WritableBytes() < len {
        MakeSpace(len);
      }
    }

    method Append(data: seq<Byte>)
      requires Valid()
      modifies this
      ensures Valid() && Contents() == old(Contents()) + data
      ensures old(WritableBytes()) >= |data| ==> WritableBytes() == old(WritableBytes()) - |data|
      ensures readerIndex == old(readerIndex) || readerIndex == CHEAP_PREPEND
    {
      EnsureWritableBytes(|data|);
      buffer := buffer[..writerIndex] + data + buffer[writerIndex + |data|..];
      writerIndex := writerIndex + |data|;
    }

    method Prepend(data: seq<Byte>)
      requires Valid() && |data| <= PrependableBytes()
      modifies this
      ensures Valid() && Contents() == data + old(Contents()) && readerIndex == old(readerIndex) - |data|
    {
      readerIndex := readerIndex - |data|;
      buffer := buffer[..readerIndex] + data + buffer[readerIndex + |data|..];
    }

    method RetrieveAll()
      requires Valid()
      modifies this
      ensures Valid() && Contents() == []
    {
      readerIndex := CHEAP_PREPEND;
      writerIndex := CHEAP_PREPEND;
    }

    method Retrieve(len: nat)
      requires Valid() && len <= ReadableBytes()
      modifies this
      ensures Valid() && Contents() == old(Contents())[len..]
    {
      if len < ReadableBytes() {
        readerIndex := readerIndex + len;
      } else {
        RetrieveAll();
      }
    }

    method RetrieveAsString(len: nat) returns (s: seq<Byte>)
      requires Valid() && len <= ReadableBytes()
      modifies this
      ensures Valid() && s + Contents() == old(Contents()) && |s| == len
    {
      s := buffer[readerIndex..readerIndex + len];
      Retrieve(len);
    }

    /** Returns the whole content and leaves none. */
    method RetrieveAllAsString() returns (s: seq<Byte>)
      requires Valid()
      modifies this
      ensures Valid() && s == old(Contents()) && Contents() == []
    {
      s := RetrieveAsString(ReadableBytes());
      assert Contents() == [] && s + [] == s;
    }

    method AppendInt32(x: int)
      requires Valid() && IsInt32(x)
      modifies this
      ensures Valid() && Contents() == old(Contents()) + Network32(x)
      ensures readerIndex == old(readerIndex) || readerIndex == CHEAP_PREPEND
    {
      Append(Network32(x));
    }

    method PeekInt32() returns (x: int)
      requires Valid() && ReadableBytes() >= 4
      ensures x == Host32(Contents()[..4])
    {
      assert buffer[readerIndex..readerIndex + 4] == Contents()[..4];
      x := Host32(buffer[readerIndex..readerIndex + 4]);
    }

    /** Reads back what was appended. */
    method ReadInt32() returns (x: int)
      requires Valid() && ReadableBytes() >= 4
      modifies this
      ensures Valid() && IsInt32(x) && old(Contents()) == Network32(x) + Contents()
    {
      x := PeekInt32();
      BytesRoundTrip(Contents()[..4]);
      Retrieve(4);
    }

    method PrependInt32(x: int)
      requires Valid() && IsInt32(x) && PrependableBytes() >= 4
      modifies this
      ensures Valid() && Contents() == Network32(x) + old(Contents())
    {
      Prepend(Network32(x));
    }

    /** A fresh buffer with the same content and room for reserve more bytes takes this one's place. */
    method Shrink(reserve: nat)
      requires Valid()
      modifies this
      ensures Valid() && Contents() == old(Contents()) && WritableBytes() >= reserve
    {
      var other := new Buffer();
      other.EnsureWritableBytes(ReadableBytes() + reserve);
      other.Append(buffer[readerIndex..writerIndex]);
      buffer, readerIndex, writerIndex := other.buffer, other.readerIndex, other.writerIndex;
    }

    /** A scatter read of the bytes the kernel has ready: first into the writable part, the overflow through
        an extra area. Exactly the bytes read are appended, wherever they were split. */
    method ReadFd(ready: seq<Byte>) returns (n: nat)
      requires Valid()
      modifies this
      ensures Valid() && n <= |ready| && Contents() == old(Contents()) + ready[..n]
      ensures n == |ready| || n == old(WritableBytes()) + 65536
    {
      var writable := WritableBytes();
      n := if |ready| <= writable + EXTRA_BUF then |ready| else writable + EXTRA_BUF;
      var direct := if n <= writable then n else writable;
      buffer := buffer[..writerIndex] + ready[..direct] + buffer[writerIndex + direct..];
      if n <= writable {
        writerIndex := writerIndex + n;
      } else {
        writerIndex := |buffer|;
        ghost var before := Contents();
        Append(ready[writable..n]);
        assert before + ready[writable..n] == old(Contents()) + ready[..n];
      }
    }

    /** Where the first line end of the content starts, or -1. */
    method FindCRLF() returns (at: int)
      requires Valid()
      ensures at == if FindCrlf(Contents()) == |Contents()| then -1 else FindCrlf(Contents())
    {
      var n := FindCrlf(buffer[readerIndex..writerIndex]);
      at := if n == ReadableBytes() then -1 else n;
    }
  }
}
