/** A request of the HTTP server, and how one line at a time becomes part of it. */
module HttpRequest {
  import opened Buffer

  datatype Method = Invalid | Get | Post | Head | Put | Delete
  datatype Version = Unknown | Http10 | Http11

  const SPACE: Byte := 32
  const COLON: Byte := 58

  /** What a request stands for. */
  datatype Request = Request(m: Method, version: Version, path: seq<Byte>, headers: map<seq<Byte>, seq<Byte>>)

  /** The method names of section 5.1.1 of RFC 2616 that are known. */
  function MethodName(m: Method): seq<Byte> {
    match m
    case Get => [71, 69, 84]
    case Post => [80, 79, 83, 84]
    case Head => [72, 69, 65, 68]
    case Put => [80, 85, 84]
    case Delete => [68, 69, 76, 69, 84, 69]
    case Invalid => []
  }

  /** HTTP/1.0 or HTTP/1.1. */
  function VersionName(v: Version): seq<Byte> {
    [72, 84, 84, 80, 47, 49, 46] + (match v case Http10 => [48] case Http11 => [49] case Unknown => [])
  }

  /** std::find: the first place of b in s, or |s|. */
  function Find(s: seq<Byte>, b: Byte): (n: nat)
    ensures n <= |s| && b !in s[..n] && (n < |s| ==> s[n] == b)
  {
    if s == [] || s[0] == b then 0
    else
      assert forall n :: 0 <= n < |s| ==> s[..n + 1] == [s[0]] + s[1..][..n];
      Find(s[1..], b) + 1
  }

  lemma {:induction false} NotFound(s: seq<Byte>, b: Byte)
    requires b !in s
    ensures Find(s, b) == |s|
  {
    if s != [] {
      NotFound(s[1..], b);
    }
  }

  lemma {:induction false} FindFirst(p: seq<Byte>, b: Byte, q: seq<Byte>)
    requires b !in p
    ensures Find(p + [b] + q, b) == |p|
  {
    var s := p + [b] + q;
    if p != [] {
      assert s[0] == p[0] && s[1..] == p[1..] + [b] + q;
      FindFirst(p[1..], b, q);
    }
  }

  /** isspace in the C locale. */
  predicate IsSpace(b: Byte) {
    b == 32 || 9 <= b <= 13
  }

  function TrimLeft(s: seq<Byte>): seq<Byte> {
    if s != [] && IsSpace(s[0]) then TrimLeft(s[1..]) else s
  }

  function TrimRight(s: seq<Byte>): seq<Byte> {
    if s != [] && IsSpace(s[|s| - 1]) then TrimRight(s[..|s| - 1]) else s
  }

  lemma {:induction false} SpacesLeft(l: seq<Byte>, s: seq<Byte>)
    requires forall b :: b in l ==> IsSpace(b)
    ensures TrimLeft(l + s) == TrimLeft(s)
  {
    if l == [] {
      assert l + s == s;
    } else {
      assert (l + s)[0] == l[0] && (l + s)[1..] == l[1..] + s;
      SpacesLeft(l[1..], s);
    }
  }

  lemma {:induction false} SpacesRight(s: seq<Byte>, r: seq<Byte>)
    requires forall b :: b in r ==> IsSpace(b)
    ensures TrimRight(s + r) == TrimRight(s)
    decreases |r|
  {
    if r == [] {
      assert s + r == s;
    } else {
      var n := |s + r| - 1;
      assert (s + r)[n] == r[|r| - 1] && (s + r)[..n] == s + r[..|r| - 1];
      SpacesRight(s, r[..|r| - 1]);
    }
  }

  lemma NothingLeft(s: seq<Byte>)
    ensures s == [] || !IsSpace(s[0]) ==> TrimLeft(s) == s
    ensures s == [] || !IsSpace(s[|s| - 1]) ==> TrimRight(s) == s
  {
  }

  /** Trimming leaves what is between the spaces. */
  lemma TrimBetween(l: seq<Byte>, v: seq<Byte>, r: seq<Byte>)
    requires (forall b :: b in l ==> IsSpace(b)) && (forall b :: b in r ==> IsSpace(b))
    requires v != [] ==> !IsSpace(v[0]) && !IsSpace(v[|v| - 1])
    ensures TrimRight(TrimLeft(l + v + r)) == v
  {
    hide TrimLeft, TrimRight;
    assert l + v + r == l + (v + r);
    SpacesLeft(l, v + r);
    NothingLeft(v);
    if v == [] {
      assert v + r == r + [];
      SpacesLeft(r, []);
    } else {
      NothingLeft(v + r);
      SpacesRight(v, r);
    }
  }

  lemma TrimStep(s: seq<Byte>)
    requires s != []
    ensures IsSpace(s[0]) ==> TrimLeft(s) == TrimLeft(s[1..])
    ensures IsSpace(s[|s| - 1]) ==> TrimRight(s) == TrimRight(s[..|s| - 1])
  {
  }

  class HttpRequest {
    var m: Method
    var version: Version
    var path: seq<Byte>
    var headers: map<seq<Byte>, seq<Byte>>

    function Value(): Request
      reads this
    {
      Request(m, version, path, headers)
    }

    constructor ()
      ensures Value() == Request(Invalid, Unknown, [], map[])
    {
      m, version, path, headers := Invalid, Unknown, [], map[];
    }

    /** The source asserts that no method was set before. */
    method SetMethod(name: seq<Byte>) returns (known: bool)
      requires m == Invalid
      modifies this`m
      ensures known <==> m != Invalid
      ensures known ==> name == MethodName(m)
      ensures !known ==> forall k :: k != Invalid ==> name != MethodName(k)
    {
      m := if name == MethodName(Get) then Get
           else if name == MethodName(Post) then Post
           else if name == MethodName(Head) then Head
           else if name == MethodName(Put) then Put
           else if name == MethodName(Delete) then Delete
           else Invalid;
      known := m != Invalid;
    }

    method SetPath(p: seq<Byte>)
      modifies this`path
      ensures path == p
    {
      path := p;
    }

    method SetVersion(v: Version)
      modifies this`version
      ensures version == v
    {
      version := v;
    }

    /** Files what stands after the colon, without the spaces around it, under what stands before. A field seen
        again replaces the first. */
    method AddHeader(line: seq<Byte>, colon: nat)
      requires colon < |line|
      modifies this`headers
      ensures headers == old(headers)[line[..colon] := TrimRight(TrimLeft(line[colon + 1..]))]
    {
      hide TrimLeft, TrimRight;
      var start := colon + 1;
      while start < |line| && IsSpace(line[start])
        invariant colon < start <= |line| && headers == old(headers)
        invariant TrimLeft(line[start..]) == TrimLeft(line[colon + 1..])
      {
        TrimStep(line[start..]);
        start := start + 1;
      }
      NothingLeft(line[start..]);
      var value := line[start..];
      while value != [] && IsSpace(value[|value| - 1])
        invariant headers == old(headers) && TrimRight(value) == TrimRight(TrimLeft(line[colon + 1..]))
      {
        TrimStep(value);
        value := value[..|value| - 1];
      }
      NothingLeft(value);
      headers := headers[line[..colon] := value];
    }
  }
}
