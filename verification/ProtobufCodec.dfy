/** The Protobuf codec of the proxy: length, name length, type name, body and checksum. */
module ProtobufCodec {
  import opened Buffer
  import opened Chunks
  import opened Framing
  import opened Adler32

  const HEADER_LEN := 4
  const MIN_MESSAGE_LEN := 2 * HEADER_LEN + 2
  const MAX_MESSAGE_LEN := 64 * 1024 * 1024

  datatype Error = InvalidLength | CheckSumError | InvalidNameLen | UnknownMessageType | ParseError

  /** What the Protobuf library makes of a type name and a body. */
  datatype Decoded<+M> = UnknownType | BadBody | Good(message: M)

  /** The library: name and body of a message, and the way back. */
  datatype Schema<!M(!new)> = Schema(typeName: M -> seq<Byte>, body: M -> seq<Byte>, decode: (seq<Byte>, seq<Byte>) -> Decoded<M>)

  datatype Parsed<+M> = Message(message: M) | Failed(error: Error)

  /** What stands between the length and the checksum. */
  function Summed<M(!new)>(sc: Schema<M>, m: M): seq<Byte>
    requires |sc.typeName(m)| < 0x7fff_ffff
  {
    Network32(|sc.typeName(m)| + 1) + sc.typeName(m) + [0] + sc.body(m)
  }

  /** A message the codec can send: a type name, and no more bytes than the receiver takes. */
  ghost predicate Sendable<M(!new)>(sc: Schema<M>, m: M) {
    sc.typeName(m) != [] && HEADER_LEN + |sc.typeName(m)| + 1 + |sc.body(m)| + HEADER_LEN <= MAX_MESSAGE_LEN
  }

  /** Lengths the 32-bit length fields can hold. */
  ghost predicate Encodable<M(!new)>(sc: Schema<M>, m: M) {
    |sc.typeName(m)| < 0x7fff_ffff && |FrameBody(sc, m)| <= 0x7fff_ffff
  }

  function FrameBody<M(!new)>(sc: Schema<M>, m: M): seq<Byte>
    requires |sc.typeName(m)| < 0x7fff_ffff
  {
    Summed(sc, m) + Network32(Signed32(Adler(Summed(sc, m))))
  }

  /** The bytes of a whole frame. */
  function Encode<M(!new)>(sc: Schema<M>, m: M): seq<Byte>
    requires |sc.typeName(m)| < 0x7fff_ffff && |FrameBody(sc, m)| <= 0x7fff_ffff
  {
    Network32(|FrameBody(sc, m)|) + FrameBody(sc, m)
  }

  /** The body of a frame: checksum first, then the name length, the type and the body. */
  function Parse<M(!new)>(sc: Schema<M>, buf: seq<Byte>): Parsed<M>
    requires MIN_MESSAGE_LEN <= |buf|
  {
    var n := |buf|;
    if Signed32(Adler(buf[..n - HEADER_LEN])) == Host32(buf[n - HEADER_LEN..]) then
      var nameLen := Host32(buf[..4]);
      if 2 <= nameLen <= n - 2 * HEADER_LEN then
        match sc.decode(buf[HEADER_LEN..HEADER_LEN + nameLen - 1], buf[HEADER_LEN + nameLen..n - HEADER_LEN])
        case Good(m) => Message(m)
        case BadBody => Failed(ParseError)
        case UnknownType => Failed(UnknownMessageType)
      else Failed(InvalidNameLen)
    else Failed(CheckSumError)
  }

  /** What onMessage makes of the unread bytes. */
  function AtFront<M(!new)>(sc: Schema<M>, s: seq<Byte>): Front<M, Error> {
    if |s| < MIN_MESSAGE_LEN + HEADER_LEN then Wait
    else
      var len := Host32(s[..4]);
      if len > MAX_MESSAGE_LEN || len < MIN_MESSAGE_LEN then Bad(InvalidLength)
      else if |s| >= len + HEADER_LEN then
        match Parse(sc, s[HEADER_LEN..HEADER_LEN + len])
        case Message(m) => Frame(m, HEADER_LEN + len)
        case Failed(e) => Bad(e)
      else Wait
  }

  function FrontOf<M(!new)>(sc: Schema<M>): seq<Byte> -> Front<M, Error> {
    s => AtFront(sc, s)
  }

  /** Frames and errors do not depend on what follows; every frame is at least 14 bytes long. */
  lemma FrontStable<M(!new)>(sc: Schema<M>)
    ensures Stable(FrontOf(sc))
    ensures forall s :: AtFront(sc, s).Frame? ==> AtFront(sc, s).n >= 14
  {
    hide Parse, Host32;
    var f := FrontOf(sc);
    forall s, t | !f(s).Wait? ensures f(s + t) == f(s) {
      assert (s + t)[..4] == s[..4];
      var len := Host32(s[..4]);
      if MIN_MESSAGE_LEN <= len <= MAX_MESSAGE_LEN {
        assert (s + t)[HEADER_LEN..HEADER_LEN + len] == s[HEADER_LEN..HEADER_LEN + len];
      }
    }
  }

  // ---- the format, from the bytes alone

  lemma ChecksumIs(data: seq<Byte>)
    ensures Adler(data) == (|data| + Weighted(data)) % 65521 * 0x1_0000 + (1 + Sum(data)) % 65521
  {
    AdlerIs(data);
    hide Adler, Weighted, Sum;
  }

  /** The body of a frame: a checksum of all before it in the last four bytes, which is tested first, then a name
      length in the first four that counts one byte more than the type name, the name, and the rest. */
  lemma ParseExactly<M(!new)>(sc: Schema<M>, b: seq<Byte>)
    requires |b| >= 10
    ensures var n, nameLen := |b|, BigEndian(b[..4]);
      Parse(sc, b) ==
        if BigEndian(b[n - 4..]) != Adler(b[..n - 4]) then Failed(CheckSumError)
        else if nameLen < 2 || nameLen > n - 8 || nameLen >= 0x8000_0000 then Failed(InvalidNameLen)
        else match sc.decode(b[4..3 + nameLen], b[4 + nameLen..n - 4])
             case Good(m) => Message(m)
             case BadBody => Failed(ParseError)
             case UnknownType => Failed(UnknownMessageType)
  {
    var n := |b|;
    HostIs(b[..4]);
    HostIs(b[n - 4..]);
    FourBytes(b[..4]);
    FourBytes(b[n - 4..]);
    hide Adler, Host32, BigEndian;
  }

  /** What stands at the front: at least 14 bytes, a length from 10 to 67108864, and then so many bytes. */
  lemma FrontExactly<M(!new)>(sc: Schema<M>, s: seq<Byte>)
    ensures |s| < 14 ==> AtFront(sc, s) == Wait
    ensures |s| >= 14 ==>
      var n := BigEndian(s[..4]);
      && (n < 10 || n > 67108864 ==> AtFront(sc, s) == Bad(InvalidLength))
      && (10 <= n <= 67108864 && |s| < 4 + n ==> AtFront(sc, s) == Wait)
      && (10 <= n <= 67108864 && |s| >= 4 + n ==>
            AtFront(sc, s) == match Parse(sc, s[4..4 + n])
                              case Message(m) => Frame(m, 4 + n)
                              case Failed(e) => Bad(e))
  {
    if |s| >= 14 {
      HostIs(s[..4]);
      FourBytes(s[..4]);
      hide Parse, Host32, BigEndian;
    }
  }

  /** The bytes of a frame: its length, the name length, the name, a zero, the body, and the checksum of all between
      length and checksum. */
  lemma EncodedExactly<M(!new)>(sc: Schema<M>, m: M)
    requires Encodable(sc, m)
    ensures var e, name, body := Encode(sc, m), sc.typeName(m), sc.body(m);
      && |e| == 4 + 4 + |name| + 1 + |body| + 4
      && BigEndian(e[..4]) == |e| - 4 && BigEndian(e[4..8]) == |name| + 1
      && e[8..8 + |name|] == name && e[8 + |name|] == 0 && e[9 + |name|..|e| - 4] == body
      && BigEndian(e[|e| - 4..]) == Adler(e[4..|e| - 4])
  {
    var e, sum, b := Encode(sc, m), Summed(sc, m), FrameBody(sc, m);
    var check := Signed32(Adler(sum));
    NetworkIs(|b|);
    NetworkIs(|sc.typeName(m)| + 1);
    NetworkIs(check);
    hide Network32, BigEndian, Adler;
    assert e[..4] == Network32(|b|) && e[4..8] == Network32(|sc.typeName(m)| + 1);
    assert e[4..|e| - 4] == sum && e[|e| - 4..] == Network32(check);
  }

  // ---- round trip

  lemma ParseEncoded<M(!new)>(sc: Schema<M>, m: M)
    requires Sendable(sc, m) && sc.decode(sc.typeName(m), sc.body(m)) == Good(m)
    ensures MIN_MESSAGE_LEN <= |FrameBody(sc, m)| <= MAX_MESSAGE_LEN
    ensures Parse(sc, FrameBody(sc, m)) == Message(m)
  {
    hide Network32, Host32, Adler;
    var name, body, sum := sc.typeName(m), sc.body(m), Summed(sc, m);
    var check := Signed32(Adler(sum));
    var buf := sum + Network32(check);
    var n := |buf|;
    assert buf[..n - HEADER_LEN] == sum && buf[n - HEADER_LEN..] == Network32(check);
    Int32RoundTrip(check);
    assert buf[..4] == Network32(|name| + 1);
    Int32RoundTrip(|name| + 1);
    assert buf[HEADER_LEN..HEADER_LEN + |name|] == name;
    assert buf[HEADER_LEN + (|name| + 1)..n - HEADER_LEN] == body;
  }

  /** Parsing inverts encoding, at the front of any stream. */
  lemma RoundTrip<M(!new)>(sc: Schema<M>, m: M, more: seq<Byte>)
    requires Sendable(sc, m) && sc.decode(sc.typeName(m), sc.body(m)) == Good(m)
    ensures |FrameBody(sc, m)| <= MAX_MESSAGE_LEN
    ensures AtFront(sc, Encode(sc, m) + more) == Frame(m, |Encode(sc, m)|)
  {
    hide Network32, Host32, Parse, FrameBody;
    ParseEncoded(sc, m);
    var b := FrameBody(sc, m);
    var s := Encode(sc, m) + more;
    Int32RoundTrip(|b|);
    assert s[..4] == Network32(|b|);
    assert s[HEADER_LEN..HEADER_LEN + |b|] == b;
  }

  /** Exactly the sendable messages come out on the other side; whatever follows in the stream. */
  lemma RoundTripExactly<M(!new)>(sc: Schema<M>, m: M, more: seq<Byte>)
    requires Encodable(sc, m) && sc.decode(sc.typeName(m), sc.body(m)) == Good(m)
    ensures Sendable(sc, m) <==> AtFront(sc, Encode(sc, m) + more) == Frame(m, |Encode(sc, m)|)
  {
    if Sendable(sc, m) {
      RoundTrip(sc, m, more);
    } else {
      TooShortOrLong(sc, m, more);
    }
  }

  /** Without a type name, or with too many bytes, no message is delivered. */
  lemma TooShortOrLong<M(!new)>(sc: Schema<M>, m: M, more: seq<Byte>)
    requires Encodable(sc, m) && !Sendable(sc, m)
    ensures !AtFront(sc, Encode(sc, m) + more).Frame?
  {
    hide Network32, Host32, Adler;
    var b, s := FrameBody(sc, m), Encode(sc, m) + more;
    Int32RoundTrip(|b|);
    assert s[..4] == Network32(|b|);
    if MIN_MESSAGE_LEN <= |b| <= MAX_MESSAGE_LEN && |s| >= MIN_MESSAGE_LEN + HEADER_LEN {
      assert s[HEADER_LEN..HEADER_LEN + |b|] == b;
      assert b[..4] == Network32(1);
      Int32RoundTrip(1);
    }
  }

  // ---- damage

  lemma ChecksumSees<M(!new)>(sc: Schema<M>, m: M, buf: seq<Byte>)
    requires Sendable(sc, m) && |buf| == |FrameBody(sc, m)|
    requires var k := |Summed(sc, m)|;
             || (buf[k..] == FrameBody(sc, m)[k..] && Adler(buf[..k]) != Adler(Summed(sc, m)))
             || (buf[k..] != FrameBody(sc, m)[k..] && buf[..k] == Summed(sc, m))
    ensures MIN_MESSAGE_LEN <= |buf| && Parse(sc, buf) == Failed(CheckSumError)
  {
    hide Network32, Host32, Adler;
    var k, check := |Summed(sc, m)|, Signed32(Adler(Summed(sc, m)));
    assert FrameBody(sc, m)[k..] == Network32(check);
    Int32RoundTrip(check);
    if buf[k..] != Network32(check) {
      BytesRoundTrip(buf[k..]);
    }
  }

  /** A frame body that differs from a sent one in a single byte is rejected. */
  lemma OneByteDamage<M(!new)>(sc: Schema<M>, m: M, i: nat, x: Byte)
    requires Sendable(sc, m) && i < |FrameBody(sc, m)| && x != FrameBody(sc, m)[i]
    ensures MIN_MESSAGE_LEN <= |FrameBody(sc, m)|
    ensures Parse(sc, FrameBody(sc, m)[i := x]) == Failed(CheckSumError)
  {
    hide Network32, Host32, Adler, Parse;
    var b, sum := FrameBody(sc, m), Summed(sc, m);
    var k, buf := |sum|, b[i := x];
    assert b[..k] == sum;
    if i < k {
      OneByte(sum[..i], sum[i], x, sum[i + 1..]);
      assert sum[..i] + [sum[i]] + sum[i + 1..] == sum;
      assert sum[..i] + [x] + sum[i + 1..] == buf[..k];
      assert buf[k..] == b[k..];
    } else {
      assert buf[..k] == sum;
      assert buf[k..][i - k] != b[k..][i - k];
    }
    ChecksumSees(sc, m, buf);
  }

  /** So is one with two unequal neighbours of the checksummed part swapped. */
  lemma SwapDamage<M(!new)>(sc: Schema<M>, m: M, i: nat)
    requires Sendable(sc, m) && i + 1 < |Summed(sc, m)| && Summed(sc, m)[i] != Summed(sc, m)[i + 1]
    ensures MIN_MESSAGE_LEN <= |FrameBody(sc, m)|
    ensures var b := FrameBody(sc, m); Parse(sc, b[i := b[i + 1]][i + 1 := b[i]]) == Failed(CheckSumError)
  {
    hide Network32, Host32, Adler, Parse;
    var b, sum := FrameBody(sc, m), Summed(sc, m);
    var k, buf := |sum|, b[i := b[i + 1]][i + 1 := b[i]];
    assert b[..k] == sum;
    Swapped(sum[..i], sum[i], sum[i + 1], sum[i + 2..]);
    assert sum[..i] + [sum[i], sum[i + 1]] + sum[i + 2..] == sum;
    assert sum[..i] + [sum[i + 1], sum[i]] + sum[i + 2..] == buf[..k];
    assert buf[k..] == b[k..];
    ChecksumSees(sc, m, buf);
  }

  // ---- the buffer operations

  /** Fills an empty buffer by appends, checksums what it holds, and prepends the length. */
  method FillEmptyBuffer<M(!new)>(sc: Schema<M>, m: M, buf: Buffer)
    requires buf.Valid() && buf.Contents() == [] && buf.PrependableBytes() >= HEADER_LEN && Encodable(sc, m)
    modifies buf
    ensures buf.Valid() && buf.Contents() == Encode(sc, m)
  {
    hide Network32, Adler;
    var nameLen := |sc.typeName(m)| + 1;
    buf.AppendInt32(nameLen);
    buf.Append(sc.typeName(m) + [0]);
    buf.Append(sc.body(m));
    assert buf.Contents() == Summed(sc, m);
    var checkSum := Signed32(Adler(buf.buffer[buf.readerIndex..buf.writerIndex]));
    buf.AppendInt32(checkSum);
    assert buf.Contents() == FrameBody(sc, m);
    buf.PrependInt32(buf.ReadableBytes());
  }

  class Codec<M(!new)> {
    const schema: Schema<M>
    /** The messages handed to the message callback, and the errors handed to the error callback, so far. */
    var delivered: seq<M>
    var errors: seq<Error>

    constructor (schema: Schema<M>)
      ensures this.schema == schema && delivered == [] && errors == []
    {
      this.schema := schema;
      delivered, errors := [], [];
    }

    /** Delivers every whole message in the buffer, in order, and leaves the rest; an error at the front of
        the rest is reported. */
    method OnMessage(buf: Buffer)
      requires buf.Valid()
      modifies this, buf
      ensures buf.Valid() && Stable(FrontOf(schema))
      ensures delivered == old(delivered) + Messages(FrontOf(schema), old(buf.Contents()))
      ensures buf.Contents() == Rest(FrontOf(schema), old(buf.Contents()))
      ensures errors == old(errors) + ErrorsAt(AtFront(schema, buf.Contents()))
    {
      FrontStable(schema);
      hide Stable, Messages, Rest, AtFront;
      var f := FrontOf(schema);
      ghost var all, rest := delivered + Messages(f, buf.Contents()), Rest(f, buf.Contents());
      while buf.ReadableBytes() >= MIN_MESSAGE_LEN + HEADER_LEN
        invariant buf.Valid() && errors == old(errors)
        invariant delivered + Messages(f, buf.Contents()) == all
        invariant Rest(f, buf.Contents()) == rest
        decreases buf.ReadableBytes()
      {
        Step(f, buf.Contents());
        var stop := Round(buf);
        if stop { return; }
      }
      ShortFront(schema, buf.Contents());
      Step(f, buf.Contents());
    }

    /** More bytes arrive after those in before. */
    method Feed(buf: Buffer, chunk: seq<Byte>, ghost before: seq<Byte>)
      requires buf.Valid() && Stable(FrontOf(schema))
      requires delivered == Messages(FrontOf(schema), before) && buf.Contents() == Rest(FrontOf(schema), before)
      modifies this, buf
      ensures buf.Valid()
      ensures delivered == Messages(FrontOf(schema), before + chunk)
      ensures buf.Contents() == Rest(FrontOf(schema), before + chunk)
    {
      hide Stable, Messages, Rest, AtFront, FrontOf, ErrorsAt;
      Continue(FrontOf(schema), before, chunk);
      buf.Append(chunk);
      OnMessage(buf);
    }

    /** The body of the loop: delivers the message of a whole frame, at least 14 bytes, or stops. */
    method Round(buf: Buffer) returns (stop: bool)
      requires buf.Valid() && buf.ReadableBytes() >= MIN_MESSAGE_LEN + HEADER_LEN
      modifies this, buf
      ensures buf.Valid() && (stop <==> !AtFront(schema, old(buf.Contents())).Frame?)
      ensures stop ==> delivered == old(delivered) && buf.Contents() == old(buf.Contents())
      ensures stop ==> errors == old(errors) + ErrorsAt(AtFront(schema, buf.Contents()))
      ensures !stop ==>
        var f := AtFront(schema, old(buf.Contents()));
        && 14 <= f.n <= |old(buf.Contents())| && errors == old(errors)
        && delivered == old(delivered) + [f.message] && buf.Contents() == old(buf.Contents())[f.n..]
    {
      hide Host32, AtFront, Parse;
      stop := true;
      FrontCases(schema, buf.Contents());
      var len := buf.PeekInt32();
      if len > MAX_MESSAGE_LEN || len < MIN_MESSAGE_LEN {
        errors := errors + [InvalidLength];
      } else if buf.ReadableBytes() >= len + HEADER_LEN {
        Inside(buf.buffer, buf.readerIndex, buf.writerIndex, HEADER_LEN, HEADER_LEN + len);
        match Parse(schema, buf.buffer[buf.readerIndex + HEADER_LEN..buf.readerIndex + HEADER_LEN + len])
        case Message(m) =>
          delivered := delivered + [m];
          buf.Retrieve(HEADER_LEN + len);
          stop := false;
        case Failed(e) =>
          errors := errors + [e];
      }
    }
  }

  lemma Inside(s: seq<Byte>, from: nat, to: nat, i: nat, j: nat)
    requires from <= to <= |s| && i <= j <= to - from
    ensures s[from + i..from + j] == s[from..to][i..j]
  {
    var a, b := s[from + i..from + j], s[from..to][i..j];
    assert |a| == |b|;
    forall k | 0 <= k < |a| ensures a[k] == b[k] {
      assert a[k] == s[from + i + k] && b[k] == s[from..to][i + k];
    }
  }

  function ErrorsAt<M>(f: Front<M, Error>): seq<Error> {
    if f.Bad? then [f.error] else []
  }

  lemma ShortFront<M(!new)>(sc: Schema<M>, s: seq<Byte>)
    requires |s| < MIN_MESSAGE_LEN + HEADER_LEN
    ensures AtFront(sc, s) == Wait
  {
  }

  lemma FrontCases<M(!new)>(sc: Schema<M>, s: seq<Byte>)
    requires |s| >= MIN_MESSAGE_LEN + HEADER_LEN
    ensures var len := Host32(s[..4]);
            && (len > MAX_MESSAGE_LEN || len < MIN_MESSAGE_LEN ==> AtFront(sc, s) == Bad(InvalidLength))
            && (MIN_MESSAGE_LEN <= len <= MAX_MESSAGE_LEN ==>
                  if |s| < len + HEADER_LEN then AtFront(sc, s) == Wait
                  else match Parse(sc, s[HEADER_LEN..HEADER_LEN + len])
                       case Message(m) => AtFront(sc, s) == Frame(m, HEADER_LEN + len)
                       case Failed(e) => AtFront(sc, s) == Bad(e))
  {
  }

  /** However the stream is cut, up to the first error the messages of its well-formed prefix are delivered
      in order and exactly the bytes after it stay unread. */
  method Receive<M(!new)>(sc: Schema<M>, chunks: seq<seq<Byte>>) returns (delivered: seq<M>, unread: seq<Byte>)
    ensures Stable(FrontOf(sc))
    ensures delivered == Messages(FrontOf(sc), Flatten(chunks)) && unread == Rest(FrontOf(sc), Flatten(chunks))
  {
    FrontStable(sc);
    hide Stable, Messages, Rest, AtFront, Flatten, FrontOf;
    Nothing(sc);
    var buf := new Buffer();
    var codec := new Codec(sc);
    for i := 0 to |chunks|
      invariant buf.Valid() && fresh(buf) && fresh(codec) && codec.schema == sc
      invariant codec.delivered == Messages(FrontOf(sc), Flatten(chunks[..i]))
      invariant buf.Contents() == Rest(FrontOf(sc), Flatten(chunks[..i]))
    {
      FlattenNext(chunks, i);
      codec.Feed(buf, chunks[i], Flatten(chunks[..i]));
    }
    assert chunks[..|chunks|] == chunks;
    delivered := codec.delivered;
    unread := buf.RetrieveAllAsString();
  }

  lemma Nothing<M(!new)>(sc: Schema<M>)
    requires Stable(FrontOf(sc))
    ensures Flatten<Byte>([]) == [] && Messages(FrontOf(sc), []) == [] && Rest(FrontOf(sc), []) == []
  {
  }

  // ---- end to end

  /** The frames of a list of messages, one after the other. */
  ghost function EncodeAll<M(!new)>(sc: Schema<M>, ms: seq<M>): seq<Byte>
    requires forall i :: 0 <= i < |ms| ==> Encodable(sc, ms[i])
  {
    if ms == [] then [] else
      assert Encodable(sc, ms[0]);
      Encode(sc, ms[0]) + EncodeAll(sc, ms[1..])
  }

  /** Messages sent are the messages received, in order, and what follows them is received as if alone. */
  lemma {:induction false} AllReceived<M(!new)>(sc: Schema<M>, ms: seq<M>, more: seq<Byte>)
    requires forall i :: 0 <= i < |ms| ==> Encodable(sc, ms[i])
    requires forall i :: 0 <= i < |ms| ==> Sendable(sc, ms[i])
    requires forall i :: 0 <= i < |ms| ==> sc.decode(sc.typeName(ms[i]), sc.body(ms[i])) == Good(ms[i])
    ensures Stable(FrontOf(sc))
    ensures Messages(FrontOf(sc), EncodeAll(sc, ms) + more) == ms + Messages(FrontOf(sc), more)
    ensures Rest(FrontOf(sc), EncodeAll(sc, ms) + more) == Rest(FrontOf(sc), more)
    decreases |ms|
  {
    FrontStable(sc);
    hide Stable, Messages, Rest, AtFront, Encode;
    if ms == [] {
      assert EncodeAll(sc, ms) + more == more;
    } else {
      var f := Encode(sc, ms[0]);
      RoundTrip(sc, ms[0], []);
      assert f + [] == f;
      AllReceived(sc, ms[1..], more);
      FrameFirst(FrontOf(sc), f, ms[0], EncodeAll(sc, ms[1..]) + more);
      assert EncodeAll(sc, ms) + more == f + (EncodeAll(sc, ms[1..]) + more);
    }
  }
}
