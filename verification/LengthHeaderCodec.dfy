/** The length-header codec of the sender: a 32-bit length in network order, then that many bytes. */
module LengthHeaderCodec {
  import opened Buffer
  import opened Chunks
  import opened Framing

  const HEADER_LEN := 4
  const MAX_LEN := 65536

  datatype Error = InvalidLength

  /** What onMessage makes of the unread bytes. */
  function AtFront(s: seq<Byte>): Front<seq<Byte>, Error> {
    if |s| < HEADER_LEN then Wait
    else
      var len := Host32(s[..4]);
      if len > MAX_LEN || len < 0 then Bad(InvalidLength)
      else if |s| >= len + HEADER_LEN then Frame(s[HEADER_LEN..HEADER_LEN + len], HEADER_LEN + len)
      else Wait
  }

  lemma FrontStable()
    ensures Stable(AtFront)
  {
    forall s, t | !AtFront(s).Wait? ensures AtFront(s + t) == AtFront(s) {
      assert (s + t)[..4] == s[..4];
      var len := Host32(s[..4]);
      if 0 <= len <= MAX_LEN {
        assert (s + t)[HEADER_LEN..HEADER_LEN + len] == s[HEADER_LEN..HEADER_LEN + len];
      }
    }
  }

  lemma ShortFront(s: seq<Byte>)
    requires |s| < HEADER_LEN
    ensures AtFront(s) == Wait
  {
  }

  lemma FrontCases(s: seq<Byte>)
    requires |s| >= HEADER_LEN
    ensures var len := Host32(s[..4]);
            && (len > MAX_LEN || len < 0 ==> AtFront(s) == Bad(InvalidLength))
            && (0 <= len <= MAX_LEN && |s| >= len + HEADER_LEN ==>
                  AtFront(s) == Frame(s[HEADER_LEN..HEADER_LEN + len], HEADER_LEN + len))
            && (0 <= len <= MAX_LEN && |s| < len + HEADER_LEN ==> AtFront(s) == Wait)
  {
  }

  /** The bytes send puts on the wire. */
  function Encode(message: seq<Byte>): seq<Byte>
    requires |message| <= 0x7fff_ffff
  {
    Network32(|message|) + message
  }

  /** What is sent comes out on the other side, up to the length the receiver accepts, and only then. */
  lemma EncodedFront(message: seq<Byte>)
    requires |message| <= 0x7fff_ffff
    ensures |message| <= 65536 <==> AtFront(Encode(message)) == Frame(message, |Encode(message)|)
    ensures |message| > 65536 ==> AtFront(Encode(message)) == Bad(InvalidLength)
  {
    var s := Encode(message);
    Int32RoundTrip(|message|);
    assert s[..4] == Network32(|message|);
    hide Host32, Network32;
    assert s[HEADER_LEN..HEADER_LEN + |message|] == message;
  }

  /** What stands at the front, from the bytes alone: the first four, most significant first, are the length. */
  lemma FrontExactly(s: seq<Byte>)
    ensures |s| < 4 ==> AtFront(s) == Wait
    ensures |s| >= 4 ==>
      var n := BigEndian(s[..4]);
      AtFront(s) == if n > 65536 then Bad(InvalidLength)
                    else if |s| < 4 + n then Wait
                    else Frame(s[4..4 + n], 4 + n)
  {
    if |s| >= 4 {
      HostIs(s[..4]);
      FourBytes(s[..4]);
      hide Host32, BigEndian;
    }
  }

  /** And the bytes sent are those of the length and then the message. */
  lemma EncodedExactly(message: seq<Byte>)
    requires |message| <= 0x7fff_ffff
    ensures |Encode(message)| == 4 + |message| && Encode(message)[4..] == message
    ensures BigEndian(Encode(message)[..4]) == |message|
  {
    NetworkIs(|message|);
    hide Network32, BigEndian;
    assert Encode(message)[..4] == Network32(|message|);
  }

  class Codec {
    /** The messages handed to the callback so far. */
    var delivered: seq<seq<Byte>>

    constructor ()
      ensures delivered == []
    {
      delivered := [];
    }

    /** More bytes arrive after those in before. */
    method Feed(buf: Buffer, chunk: seq<Byte>, ghost before: seq<Byte>)
      requires buf.Valid() && Stable(AtFront)
      requires delivered == Messages(AtFront, before) && buf.Contents() == Rest(AtFront, before)
      modifies this, buf
      ensures buf.Valid()
      ensures delivered == Messages(AtFront, before + chunk) && buf.Contents() == Rest(AtFront, before + chunk)
    {
      hide Stable, Messages, Rest, AtFront;
      Continue(AtFront, before, chunk);
      buf.Append(chunk);
      var invalid := OnMessage(buf);
    }

    /** Delivers every whole message in the buffer, in order, and leaves the rest; says whether it stopped at
        an invalid length, when it shuts the connection down. */
    method OnMessage(buf: Buffer) returns (invalid: bool)
      requires buf.Valid()
      modifies this, buf
      ensures buf.Valid() && Stable(AtFront)
      ensures delivered == old(delivered) + Messages(AtFront, old(buf.Contents()))
      ensures buf.Contents() == Rest(AtFront, old(buf.Contents()))
      ensures invalid <==> AtFront(buf.Contents()).Bad?
    {
      FrontStable();
      hide Host32, Stable, Messages, Rest, AtFront;
      invalid := false;
      ghost var all, rest := delivered + Messages(AtFront, buf.Contents()), Rest(AtFront, buf.Contents());
      while buf.ReadableBytes() >= HEADER_LEN
        invariant buf.Valid() && !invalid
        invariant delivered + Messages(AtFront, buf.Contents()) == all
        invariant Rest(AtFront, buf.Contents()) == rest
        decreases buf.ReadableBytes()
      {
        Step(AtFront, buf.Contents());
        var stop;
        stop, invalid := Round(buf);
        if stop { return; }
      }
      ShortFront(buf.Contents());
      Step(AtFront, buf.Contents());
    }

    /** The body of the loop: delivers the message of a whole frame, or stops. */
    method Round(buf: Buffer) returns (stop: bool, invalid: bool)
      requires buf.Valid() && buf.ReadableBytes() >= HEADER_LEN
      modifies this, buf
      ensures buf.Valid() && (invalid ==> stop) && (stop <==> !AtFront(old(buf.Contents())).Frame?)
      ensures stop ==> delivered == old(delivered) && buf.Contents() == old(buf.Contents())
      ensures stop ==> (invalid <==> AtFront(buf.Contents()).Bad?)
      ensures !stop ==>
        var f := AtFront(old(buf.Contents()));
        && 0 < f.n <= |old(buf.Contents())|
        && delivered == old(delivered) + [f.message] && buf.Contents() == old(buf.Contents())[f.n..]
    {
      hide Host32, AtFront;
      stop, invalid := false, false;
      FrontCases(buf.Contents());
      var len := buf.PeekInt32();
      if len > MAX_LEN || len < 0 {
        stop, invalid := true, true;
      } else if buf.ReadableBytes() >= len + HEADER_LEN {
        var message := TakeMessage(buf, len);
        delivered := delivered + [message];
      } else {
        stop := true;
      }
    }

    /** Takes the message of a whole frame out of the buffer. */
    method TakeMessage(buf: Buffer, len: nat) returns (message: seq<Byte>)
      requires buf.Valid() && buf.ReadableBytes() >= len + HEADER_LEN
      modifies buf
      ensures buf.Valid() && message == old(buf.Contents())[HEADER_LEN..HEADER_LEN + len]
      ensures buf.Contents() == old(buf.Contents())[HEADER_LEN + len..]
    {
      ghost var before := buf.Contents();
      buf.Retrieve(HEADER_LEN);
      message := buf.RetrieveAsString(len);
      assert message + buf.Contents() == before[HEADER_LEN..];
      assert message == before[HEADER_LEN..][..len] && buf.Contents() == before[HEADER_LEN..][len..];
    }

    /** Fills a buffer by append and prepend; the bytes sent are the encoding. */
    method Send(message: seq<Byte>) returns (bytes: seq<Byte>)
      requires |message| <= 0x7fff_ffff
      ensures bytes == Encode(message)
    {
      var buf := new Buffer();
      buf.Append(message);
      buf.PrependInt32(|message|);
      bytes := buf.RetrieveAllAsString();
    }
  }

  /** However the stream is cut, the messages of its well-formed prefix are delivered in order and the bytes
      after it stay unread. */
  method Receive(chunks: seq<seq<Byte>>) returns (delivered: seq<seq<Byte>>, unread: seq<Byte>)
    ensures Stable(AtFront)
    ensures delivered == Messages(AtFront, Flatten(chunks)) && unread == Rest(AtFront, Flatten(chunks))
  {
    FrontStable();
    hide Stable, Messages, Rest, AtFront, Flatten;
    Nothing();
    var buf := new Buffer();
    var codec := new Codec();
    for i := 0 to |chunks|
      invariant buf.Valid() && fresh(buf) && fresh(codec)
      invariant codec.delivered == Messages(AtFront, Flatten(chunks[..i]))
      invariant buf.Contents() == Rest(AtFront, Flatten(chunks[..i]))
    {
      FlattenNext(chunks, i);
      codec.Feed(buf, chunks[i], Flatten(chunks[..i]));
    }
    assert chunks[..|chunks|] == chunks;
    delivered := codec.delivered;
    unread := buf.RetrieveAllAsString();
  }

  lemma Nothing()
    requires Stable(AtFront)
    ensures Flatten<Byte>([]) == [] && Messages(AtFront, []) == [] && Rest(AtFront, []) == []
  {
  }
}
