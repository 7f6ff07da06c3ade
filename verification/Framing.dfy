/** Message framing over a byte stream, whatever the messages look like: why the messages delivered do not
    depend on how the network cuts the stream. */
module Framing {
  import opened Buffer

  /** What stands at the front of the unread bytes: not enough yet, a frame of n bytes, or an error. */
  datatype Front<+M, +E> = Wait | Frame(message: M, n: nat) | Bad(error: E)

  /** A frame or an error at the front does not change when more bytes arrive. */
  ghost predicate Stable<M(!new), E(!new)>(front: seq<Byte> -> Front<M, E>) {
    && (forall s {:trigger front(s)} :: front(s).Frame? ==> 0 < front(s).n <= |s|)
    && (forall s, t {:trigger front(s), front(s + t)} :: !front(s).Wait? ==> front(s + t) == front(s))
  }

  /** The messages of the longest prefix of whole, well-formed frames. */
  ghost function Messages<M(!new), E(!new)>(front: seq<Byte> -> Front<M, E>, s: seq<Byte>): seq<M>
    requires Stable(front)
    decreases |s|
  {
    if front(s).Frame? then [front(s).message] + Messages(front, s[front(s).n..]) else []
  }

  /** The bytes after it. */
  ghost function Rest<M(!new), E(!new)>(front: seq<Byte> -> Front<M, E>, s: seq<Byte>): (r: seq<Byte>)
    requires Stable(front)
    ensures |r| <= |s| && r == s[|s| - |r|..] && !front(r).Frame?
    decreases |s|
  {
    if front(s).Frame? then Rest(front, s[front(s).n..]) else s
  }

  lemma Step<M(!new), E(!new)>(front: seq<Byte> -> Front<M, E>, s: seq<Byte>)
    requires Stable(front)
    ensures front(s).Frame? ==>
      && 0 < front(s).n <= |s|
      && Messages(front, s) == [front(s).message] + Messages(front, s[front(s).n..])
      && Rest(front, s) == Rest(front, s[front(s).n..])
    ensures !front(s).Frame? ==> Messages(front, s) == [] && Rest(front, s) == s
  {
  }

  lemma Later<M(!new), E(!new)>(front: seq<Byte> -> Front<M, E>, s: seq<Byte>, t: seq<Byte>)
    requires Stable(front) && !front(s).Wait?
    ensures front(s + t) == front(s)
  {
  }

  /** Bytes that arrive later continue where the rest left off. */
  lemma {:induction false} Continue<M(!new), E(!new)>(front: seq<Byte> -> Front<M, E>, s: seq<Byte>, t: seq<Byte>)
    requires Stable(front)
    ensures Messages(front, s + t) == Messages(front, s) + Messages(front, Rest(front, s) + t)
    ensures Rest(front, s + t) == Rest(front, Rest(front, s) + t)
    decreases |s|
  {
    hide Stable, Messages, Rest;
    Step(front, s);
    if front(s).Frame? {
      var n := front(s).n;
      Later(front, s, t);
      Step(front, s + t);
      assert (s + t)[n..] == s[n..] + t;
      Continue(front, s[n..], t);
    }
  }

  /** A frame at the front is delivered and what follows it stays. */
  lemma FrameFirst<M(!new), E(!new)>(front: seq<Byte> -> Front<M, E>, f: seq<Byte>, m: M, t: seq<Byte>)
    requires Stable(front) && front(f) == Frame(m, |f|)
    ensures Messages(front, f + t) == [m] + Messages(front, t) && Rest(front, f + t) == Rest(front, t)
  {
    hide Stable, Messages, Rest;
    Later(front, f, t);
    Step(front, f + t);
    assert (f + t)[|f|..] == t;
  }
}
