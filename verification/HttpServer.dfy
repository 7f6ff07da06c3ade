/** The HTTP request parser: it takes whole lines off the front of the buffer, so how the stream is cut does not
    matter. */
module HttpServer {
  import opened Buffer
  import opened HttpRequest
  import opened Chunks

  datatype ParseState = ExpectRequestLine | ExpectHeaders | GotAll

  /** The parser's state as a value, and what a call leaves: success, state and unread bytes. */
  datatype Context = Context(state: ParseState, request: Request)
  datatype Outcome = Outcome(ok: bool, context: Context, rest: seq<Byte>)

  // ---- the request line, section 5.1 of RFC 2616

  function MethodOf(name: seq<Byte>): Method {
    if name == MethodName(Get) then Get
    else if name == MethodName(Post) then Post
    else if name == MethodName(Head) then Head
    else if name == MethodName(Put) then Put
    else if name == MethodName(Delete) then Delete
    else Invalid
  }

  function VersionOf(name: seq<Byte>): Version {
    if name == VersionName(Http11) then Http11
    else if name == VersionName(Http10) then Http10
    else Unknown
  }

  /** What a request line makes of a request; an error may leave method and path behind. */
  function AfterRequestLine(line: seq<Byte>, r: Request): (bool, Request) {
    var n := Find(line, SPACE);
    if n == |line| then (false, r)
    else
      var m := MethodOf(line[..n]);
      var r1 := r.(m := m);
      var rest := line[n + 1..];
      var k := Find(rest, SPACE);
      if m == Invalid || k == |rest| then (false, r1)
      else
        var r2, v := r1.(path := rest[..k]), VersionOf(rest[k + 1..]);
        if v == Unknown then (false, r2) else (true, r2.(version := v))
  }

  function RequestLine(m: Method, path: seq<Byte>, v: Version): seq<Byte> {
    MethodName(m) + [SPACE] + path + [SPACE] + VersionName(v)
  }

  /** Every well-formed request line is read back. */
  lemma RequestLineRead(m: Method, path: seq<Byte>, v: Version, r: Request)
    requires m != Invalid && v != Unknown && SPACE !in path
    ensures AfterRequestLine(RequestLine(m, path, v), r) == (true, r.(m := m, path := path, version := v))
  {
    hide Find, MethodName, VersionName, MethodOf, VersionOf;
    var line := RequestLine(m, path, v);
    var rest := path + [SPACE] + VersionName(v);
    assert line == MethodName(m) + [SPACE] + rest;
    NoSpace(m);
    FindFirst(MethodName(m), SPACE, rest);
    FindFirst(path, SPACE, VersionName(v));
    assert line[..|MethodName(m)|] == MethodName(m) && line[|MethodName(m)| + 1..] == rest;
    assert rest[..|path|] == path && rest[|path| + 1..] == VersionName(v);
    NamesDiffer(m, v);
  }

  lemma NoSpace(m: Method)
    ensures SPACE !in MethodName(m)
  {
  }

  lemma NamesDiffer(m: Method, v: Version)
    ensures MethodOf(MethodName(m)) == m && VersionOf(VersionName(v)) == v
  {
    assert VersionName(Http10)[7] == 48 && VersionName(Http11)[7] == 49;
  }

  /** And nothing else is. */
  lemma OnlyRequestLines(line: seq<Byte>, r: Request)
    requires AfterRequestLine(line, r).0
    ensures var q := AfterRequestLine(line, r).1;
      q.m != Invalid && q.version != Unknown && SPACE !in q.path && q.headers == r.headers
      && line == RequestLine(q.m, q.path, q.version)
  {
    hide MethodName, VersionName, MethodOf, VersionOf, Find;
    var n := Find(line, SPACE);
    var rest := line[n + 1..];
    var k := Find(rest, SPACE);
    NamesFit(line[..n], rest[k + 1..]);
    Split(line, n);
    Split(rest, k);
    assert line == line[..n] + [SPACE] + rest[..k] + [SPACE] + rest[k + 1..];
  }

  lemma Split(s: seq<Byte>, n: nat)
    requires n < |s|
    ensures s == s[..n] + [s[n]] + s[n + 1..]
  {
  }

  lemma NamesFit(name: seq<Byte>, version: seq<Byte>)
    ensures MethodOf(name) != Invalid ==> name == MethodName(MethodOf(name))
    ensures VersionOf(version) != Unknown ==> version == VersionName(VersionOf(version))
  {
    hide MethodName, VersionName;
  }

  // ---- the whole request

  /** What parseRequest makes of the state and the unread bytes. A header line without a colon ends the
      headers. */
  function Parse(c: Context, s: seq<Byte>): Outcome
    decreases |s|
  {
    var n := FindCrlf(s);
    if n == |s| || c.state.GotAll? then Outcome(true, c, s)
    else if c.state.ExpectRequestLine? then
      var (ok, r) := AfterRequestLine(s[..n], c.request);
      if ok then Parse(Context(ExpectHeaders, r), s[n + 2..]) else Outcome(false, Context(ExpectRequestLine, r), s)
    else
      var colon := Find(s[..n], COLON);
      if colon == n then Outcome(true, Context(GotAll, c.request), s[n + 2..])
      else Parse(Context(ExpectHeaders, WithHeader(c.request, s[..n], colon)), s[n + 2..])
  }

  function WithHeader(r: Request, line: seq<Byte>, colon: nat): Request
    requires colon < |line|
  {
    r.(headers := r.headers[line[..colon] := TrimRight(TrimLeft(line[colon + 1..]))])
  }

  predicate Finished(o: Outcome) {
    !o.ok || o.context.state.GotAll?
  }

  lemma {:induction false} CrlfStays(s: seq<Byte>, t: seq<Byte>)
    ensures FindCrlf(s) < |s| ==> FindCrlf(s + t) == FindCrlf(s)
  {
    if |s| >= 2 {
      assert (s + t)[0] == s[0] && (s + t)[1] == s[1] && (s + t)[1..] == s[1..] + t;
      CrlfStays(s[1..], t);
    }
  }

  /** One line of parsing, as the loop takes it. */
  lemma ParseLine(c: Context, s: seq<Byte>)
    ensures var n := FindCrlf(s);
      && (n == |s| || c.state.GotAll? ==> Parse(c, s) == Outcome(true, c, s))
      && (n < |s| && c.state.ExpectRequestLine? ==>
            var (ok, r) := AfterRequestLine(s[..n], c.request);
            Parse(c, s) == if ok then Parse(Context(ExpectHeaders, r), s[n + 2..])
                           else Outcome(false, Context(ExpectRequestLine, r), s))
      && (n < |s| && c.state.ExpectHeaders? ==>
            var colon := Find(s[..n], COLON);
            Parse(c, s) == if colon == n then Outcome(true, Context(GotAll, c.request), s[n + 2..])
                           else Parse(Context(ExpectHeaders, WithHeader(c.request, s[..n], colon)), s[n + 2..]))
  {
    hide Parse, FindCrlf, Find, AfterRequestLine, WithHeader;
    ParseNone(c, s);
    if FindCrlf(s) < |s| && c.state.ExpectRequestLine? {
      ParseRequestLine(c, s);
    } else if FindCrlf(s) < |s| && c.state.ExpectHeaders? {
      ParseHeader(c, s);
    }
  }

  lemma ParseNone(c: Context, s: seq<Byte>)
    ensures FindCrlf(s) == |s| || c.state.GotAll? ==> Parse(c, s) == Outcome(true, c, s)
  {
    hide FindCrlf, Find, AfterRequestLine, WithHeader;
  }

  lemma ParseRequestLine(c: Context, s: seq<Byte>)
    requires FindCrlf(s) < |s| && c.state.ExpectRequestLine?
    ensures var n := FindCrlf(s);
      var (ok, r) := AfterRequestLine(s[..n], c.request);
      Parse(c, s) == if ok then Parse(Context(ExpectHeaders, r), s[n + 2..])
                     else Outcome(false, Context(ExpectRequestLine, r), s)
  {
    hide FindCrlf, Find, AfterRequestLine, WithHeader;
  }

  lemma ParseHeader(c: Context, s: seq<Byte>)
    requires FindCrlf(s) < |s| && c.state.ExpectHeaders?
    ensures var n := FindCrlf(s);
      var colon := Find(s[..n], COLON);
      Parse(c, s) == if colon == n then Outcome(true, Context(GotAll, c.request), s[n + 2..])
                     else Parse(Context(ExpectHeaders, WithHeader(c.request, s[..n], colon)), s[n + 2..])
  {
    hide FindCrlf, Find, AfterRequestLine, WithHeader;
  }

  /** Bytes that come later are read as if they had come at once. */
  lemma {:induction false} ParseLater(c: Context, s: seq<Byte>, t: seq<Byte>)
    ensures var o := Parse(c, s);
      Parse(c, s + t) == if Finished(o) then o.(rest := o.rest + t) else Parse(o.context, o.rest + t)
    decreases |s|
  {
    hide Parse, FindCrlf, Find, AfterRequestLine, WithHeader;
    ParseLine(c, s);
    ParseLine(c, s + t);
    var n := FindCrlf(s);
    if n < |s| && !c.state.GotAll? {
      CrlfStays(s, t);
      assert (s + t)[..n] == s[..n] && (s + t)[n + 2..] == s[n + 2..] + t;
      if c.state.ExpectRequestLine? {
        var (ok, r) := AfterRequestLine(s[..n], c.request);
        if ok { ParseLater(Context(ExpectHeaders, r), s[n + 2..], t); }
      } else {
        var colon := Find(s[..n], COLON);
        if colon < n { ParseLater(Context(ExpectHeaders, WithHeader(c.request, s[..n], colon)), s[n + 2..], t); }
      }
    }
  }

  // ---- requests as they are sent are the requests read

  ghost predicate NoCrlf(line: seq<Byte>) {
    forall i :: 0 <= i && i + 1 < |line| ==> !(line[i] == 13 && line[i + 1] == 10)
  }

  lemma CrlfAt(line: seq<Byte>, more: seq<Byte>)
    requires NoCrlf(line)
    ensures FindCrlf(line + [13, 10] + more) == |line|
  {
    hide FindCrlf;
    var s := line + [13, 10] + more;
    assert forall i :: 0 <= i < |line| ==> s[i] == line[i];
    var n := FindCrlf(s);
    assert s[|line|] == 13 && s[|line| + 1] == 10;
  }

  /** A header line: a field, and a value with spaces around it. */
  datatype Header = Header(field: seq<Byte>, before: seq<Byte>, value: seq<Byte>, after: seq<Byte>)

  function HeaderLine(h: Header): seq<Byte> {
    h.field + [COLON] + (h.before + h.value + h.after)
  }

  ghost predicate GoodHeader(h: Header) {
    && COLON !in h.field && NoCrlf(HeaderLine(h))
    && (forall b :: b in h.before ==> IsSpace(b)) && (forall b :: b in h.after ==> IsSpace(b))
    && (h.value != [] ==> !IsSpace(h.value[0]) && !IsSpace(h.value[|h.value| - 1]))
  }

  /** The header part of a request, with the empty line that ends it. */
  function HeaderBytes(hs: seq<Header>): seq<Byte> {
    if hs == [] then [13, 10] else HeaderLine(hs[0]) + [13, 10] + HeaderBytes(hs[1..])
  }

  /** The header map they make: of two with the same field the later counts. */
  function HeaderMap(headers: map<seq<Byte>, seq<Byte>>, hs: seq<Header>): map<seq<Byte>, seq<Byte>>
    decreases |hs|
  {
    if hs == [] then headers else HeaderMap(headers[hs[0].field := hs[0].value], hs[1..])
  }

  lemma HeaderRead(h: Header, r: Request)
    requires GoodHeader(h)
    ensures Find(HeaderLine(h), COLON) == |h.field| < |HeaderLine(h)|
    ensures WithHeader(r, HeaderLine(h), |h.field|) == r.(headers := r.headers[h.field := h.value])
  {
    hide Find, TrimLeft, TrimRight, IsSpace;
    FindFirst(h.field, COLON, h.before + h.value + h.after);
    assert HeaderLine(h)[..|h.field|] == h.field;
    assert HeaderLine(h)[|h.field| + 1..] == h.before + h.value + h.after;
    TrimBetween(h.before, h.value, h.after);
  }

  lemma {:induction false} HeadersRead(r: Request, hs: seq<Header>, more: seq<Byte>)
    requires forall i :: 0 <= i < |hs| ==> GoodHeader(hs[i])
    ensures Parse(Context(ExpectHeaders, r), HeaderBytes(hs) + more)
         == Outcome(true, Context(GotAll, r.(headers := HeaderMap(r.headers, hs))), more)
    decreases |hs|
  {
    hide Parse, FindCrlf, Find, WithHeader, HeaderLine, GoodHeader;
    var c, s := Context(ExpectHeaders, r), HeaderBytes(hs) + more;
    ParseLine(c, s);
    if hs == [] {
      assert s == [] + [13, 10] + more;
      CrlfAt([], more);
      assert s[..0] == [] && s[2..] == more;
    } else {
      var line := HeaderLine(hs[0]);
      assert s == line + [13, 10] + (HeaderBytes(hs[1..]) + more);
      GoodLine(hs[0]);
      CrlfAt(line, HeaderBytes(hs[1..]) + more);
      assert s[..|line|] == line && s[|line| + 2..] == HeaderBytes(hs[1..]) + more;
      HeaderRead(hs[0], r);
      HeadersRead(r.(headers := r.headers[hs[0].field := hs[0].value]), hs[1..], more);
    }
  }

  lemma GoodLine(h: Header)
    requires GoodHeader(h)
    ensures NoCrlf(HeaderLine(h))
  {
  }

  function RequestBytes(m: Method, path: seq<Byte>, v: Version, hs: seq<Header>): seq<Byte> {
    RequestLine(m, path, v) + [13, 10] + HeaderBytes(hs)
  }

  /** A well-formed request is read back: method, path, version and headers; what follows it stays. */
  lemma RequestRead(m: Method, path: seq<Byte>, v: Version, hs: seq<Header>, r: Request, more: seq<Byte>)
    requires m != Invalid && v != Unknown && SPACE !in path && NoCrlf(path)
    requires forall i :: 0 <= i < |hs| ==> GoodHeader(hs[i])
    ensures Parse(Context(ExpectRequestLine, r), RequestBytes(m, path, v, hs) + more)
         == Outcome(true, Context(GotAll, Request(m, v, path, HeaderMap(r.headers, hs))), more)
  {
    hide Parse, FindCrlf, Find, AfterRequestLine, RequestLine, GoodHeader, HeaderBytes, HeaderMap;
    var line := RequestLine(m, path, v);
    var c, s := Context(ExpectRequestLine, r), RequestBytes(m, path, v, hs) + more;
    ParseLine(c, s);
    assert s == line + [13, 10] + (HeaderBytes(hs) + more);
    RequestLineNoCrlf(m, path, v);
    CrlfAt(line, HeaderBytes(hs) + more);
    assert s[..|line|] == line && s[|line| + 2..] == HeaderBytes(hs) + more;
    RequestLineRead(m, path, v, r);
    HeadersRead(Request(m, v, path, r.headers), hs, more);
  }

  lemma RequestLineNoCrlf(m: Method, path: seq<Byte>, v: Version)
    requires NoCrlf(path)
    ensures NoCrlf(RequestLine(m, path, v))
  {
    var line, a := RequestLine(m, path, v), |MethodName(m)| + 1;
    var b := a + |path| + 1;
    NamesPlain(m, v);
    assert forall i :: 0 <= i < a ==> line[i] != 13;
    assert forall i :: a <= i < b - 1 ==> line[i] == path[i - a];
    assert line[b - 1] == SPACE;
    assert forall i :: b <= i < |line| ==> line[i] == VersionName(v)[i - b];
    hide MethodName, VersionName;
    forall i | 0 <= i && i + 1 < |line| ensures !(line[i] == 13 && line[i + 1] == 10) {
      if a <= i && i + 1 < b - 1 {
        assert line[i] == path[i - a] && line[i + 1] == path[i - a + 1];
      }
    }
  }

  lemma NamesPlain(m: Method, v: Version)
    ensures 13 !in MethodName(m) && 13 !in VersionName(v)
  {
  }

  // ---- the same, letter by letter

  /** The bytes of a text in ASCII. */
  function Text(s: string): seq<Byte> {
    seq(|s|, i requires 0 <= i < |s| => s[i] as int % 256)
  }

  lemma MethodsAsText()
    ensures MethodName(Get) + [SPACE] == Text("GET ") && MethodName(Post) + [SPACE] == Text("POST ")
    ensures MethodName(Head) + [SPACE] == Text("HEAD ") && MethodName(Put) + [SPACE] == Text("PUT ")
    ensures MethodName(Delete) + [SPACE] == Text("DELETE ")
  {
  }

  lemma VersionsAsText()
    ensures [SPACE] + VersionName(Http10) + [13, 10] == Text(" HTTP/1.0\r\n")
    ensures [SPACE] + VersionName(Http11) + [13, 10] == Text(" HTTP/1.1\r\n")
  {
  }

  lemma SignsAsText()
    ensures Text(": ") == [COLON] + [32] && Text("\r\n\r\n") == [13, 10] + [13, 10]
  {
  }

  /** A request with one header line is read as this method, this version, its path and its header. */
  ghost predicate ReadAs(start: string, path: seq<Byte>, end: string, field: seq<Byte>, value: seq<Byte>, m: Method, v: Version) {
    forall r, more :: Parse(Context(ExpectRequestLine, r),
      Text(start) + path + Text(end) + field + Text(": ") + value + Text("\r\n\r\n") + more)
      == Outcome(true, Context(GotAll, Request(m, v, path, r.headers[field := value])), more)
  }

  lemma ReadOne(start: string, path: seq<Byte>, end: string, field: seq<Byte>, value: seq<Byte>, m: Method, v: Version)
    requires Text(start) == MethodName(m) + [SPACE] && Text(end) == [SPACE] + VersionName(v) + [13, 10]
    requires m != Invalid && v != Unknown && SPACE !in path && NoCrlf(path)
    requires COLON !in field && NoCrlf(field + Text(": ") + value)
    requires value != [] ==> !IsSpace(value[0]) && !IsSpace(value[|value| - 1])
    ensures ReadAs(start, path, end, field, value, m, v)
  {
    SignsAsText();
    var h := Header(field, [32], value, []);
    HeaderAsText(h);
    OneHeader(h);
    OneHeaderMap(h);
    hide Text, MethodName, VersionName, NoCrlf, HeaderLine, HeaderBytes, HeaderMap;
    assert GoodHeader(h);
    forall r, more ensures Parse(Context(ExpectRequestLine, r),
      Text(start) + path + Text(end) + field + Text(": ") + value + Text("\r\n\r\n") + more)
      == Outcome(true, Context(GotAll, Request(m, v, path, r.headers[field := value])), more)
    {
      RequestRead(m, path, v, [h], r, more);
      hide Parse, GoodHeader;
      Glue(MethodName(m), [SPACE], path, VersionName(v), [13, 10], field, Text(": "), value);
    }
  }

  lemma HeaderAsText(h: Header)
    requires h.before == [32] && h.after == []
    ensures HeaderLine(h) == h.field + Text(": ") + h.value
  {
    SignsAsText();
    hide Text;
    assert h.before + h.value + h.after == [32] + h.value;
  }

  lemma Glue(name: seq<Byte>, space: seq<Byte>, path: seq<Byte>, version: seq<Byte>, crlf: seq<Byte>, field: seq<Byte>,
             colon: seq<Byte>, value: seq<Byte>)
    ensures name + space + path + space + version + crlf + (field + colon + value + (crlf + crlf))
         == (name + space) + path + (space + version + crlf) + field + colon + value + (crlf + crlf)
  {
    var line := name + space + path;
    assert line + space + version + crlf == line + (space + version + crlf);
    var top := line + (space + version + crlf);
    assert top + (field + colon + value + (crlf + crlf)) == top + field + colon + value + (crlf + crlf);
  }

  lemma OneHeaderMap(h: Header)
    ensures forall headers :: HeaderMap(headers, [h]) == headers[h.field := h.value]
  {
    assert [h][1..] == [];
  }

  lemma OneHeader(h: Header)
    ensures HeaderBytes([h]) == HeaderLine(h) + ([13, 10] + [13, 10])
  {
    assert [h][1..] == [];
    assert HeaderBytes([]) == [13, 10];
  }

  /** Each of the five methods in each of the two versions. */
  lemma ReadAsText(path: seq<Byte>, field: seq<Byte>, value: seq<Byte>)
    requires 32 !in path && NoCrlf(path)
    requires 58 !in field && NoCrlf(field + Text(": ") + value)
    requires value != [] ==> !IsSpace(value[0]) && !IsSpace(value[|value| - 1])
    ensures ReadAs("GET ", path, " HTTP/1.0\r\n", field, value, Get, Http10)
    ensures ReadAs("GET ", path, " HTTP/1.1\r\n", field, value, Get, Http11)
    ensures ReadAs("POST ", path, " HTTP/1.0\r\n", field, value, Post, Http10)
    ensures ReadAs("POST ", path, " HTTP/1.1\r\n", field, value, Post, Http11)
    ensures ReadAs("HEAD ", path, " HTTP/1.0\r\n", field, value, Head, Http10)
    ensures ReadAs("HEAD ", path, " HTTP/1.1\r\n", field, value, Head, Http11)
    ensures ReadAs("PUT ", path, " HTTP/1.0\r\n", field, value, Put, Http10)
    ensures ReadAs("PUT ", path, " HTTP/1.1\r\n", field, value, Put, Http11)
    ensures ReadAs("DELETE ", path, " HTTP/1.0\r\n", field, value, Delete, Http10)
    ensures ReadAs("DELETE ", path, " HTTP/1.1\r\n", field, value, Delete, Http11)
  {
    MethodsAsText();
    VersionsAsText();
    hide Text, MethodName, VersionName, ReadAs, NoCrlf;
    ReadOne("GET ", path, " HTTP/1.0\r\n", field, value, Get, Http10);
    ReadOne("GET ", path, " HTTP/1.1\r\n", field, value, Get, Http11);
    ReadOne("POST ", path, " HTTP/1.0\r\n", field, value, Post, Http10);
    ReadOne("POST ", path, " HTTP/1.1\r\n", field, value, Post, Http11);
    ReadOne("HEAD ", path, " HTTP/1.0\r\n", field, value, Head, Http10);
    ReadOne("HEAD ", path, " HTTP/1.1\r\n", field, value, Head, Http11);
    ReadOne("PUT ", path, " HTTP/1.0\r\n", field, value, Put, Http10);
    ReadOne("PUT ", path, " HTTP/1.1\r\n", field, value, Put, Http11);
    ReadOne("DELETE ", path, " HTTP/1.0\r\n", field, value, Delete, Http10);
    ReadOne("DELETE ", path, " HTTP/1.1\r\n", field, value, Delete, Http11);
  }

  /** A header line without a colon, empty or not, ends the headers, and no header line fails. */
  lemma NoColonEnds(line: seq<Byte>, r: Request, more: seq<Byte>)
    requires NoCrlf(line) && 58 !in line
    ensures Parse(Context(ExpectHeaders, r), line + Text("\r\n") + more) == Outcome(true, Context(GotAll, r), more)
  {
    assert Text("\r\n") == [13, 10];
    var s := line + [13, 10] + more;
    hide Parse, Find, FindCrlf, WithHeader, Text, NoCrlf;
    CrlfAt(line, more);
    assert s[..|line|] == line && s[|line| + 2..] == more;
    ParseLine(Context(ExpectHeaders, r), s);
    NotFound(line, COLON);
  }

  /** The six white-space characters are those of ASCII. */
  lemma SpacesAre(b: Byte)
    ensures IsSpace(b) <==> b in Text(" \t\n\r") || b == 11 || b == 12
  {
    var t := Text(" \t\n\r");
    assert t[0] == 32 && t[1] == 9 && t[2] == 10 && t[3] == 13 && |t| == 4;
    assert t == [32, 9, 10, 13];
  }

  /** A field has the value of its last line, here line n - 1, and no other field has one. */
  lemma {:induction false} LastCounts(headers: map<seq<Byte>, seq<Byte>>, hs: seq<Header>, f: seq<Byte>, n: nat)
    requires n <= |hs| && (n > 0 ==> hs[n - 1].field == f) && forall j :: n <= j < |hs| ==> hs[j].field != f
    ensures f in HeaderMap(headers, hs) <==> n > 0 || f in headers
    ensures f in HeaderMap(headers, hs) ==> HeaderMap(headers, hs)[f] == if n > 0 then hs[n - 1].value else headers[f]
    decreases |hs|
  {
    if hs != [] {
      LastCounts(headers[hs[0].field := hs[0].value], hs[1..], f, if n > 0 then n - 1 else 0);
    }
  }

  // ---- the parser

  lemma MethodFits(name: seq<Byte>, m: Method)
    requires if m != Invalid then name == MethodName(m) else forall k :: k != Invalid ==> name != MethodName(k)
    ensures MethodOf(name) == m
  {
    hide MethodName;
    NamesDiffer(m, Unknown);
  }

  lemma VersionFits(name: seq<Byte>)
    ensures VersionOf(name) == if |name| == 8 && name[..7] == VersionName(Unknown)
                               then (if name[7] == 49 then Http11 else if name[7] == 48 then Http10 else Unknown)
                               else Unknown
  {
    if |name| == 8 {
      assert name == name[..7] + [name[7]];
      assert VersionName(Http10)[..7] == VersionName(Http11)[..7] == VersionName(Unknown);
      assert VersionName(Http10)[7] == 48 && VersionName(Http11)[7] == 49;
    }
  }

  class HttpContext {
    var state: ParseState
    const request: HttpRequest

    function Value(): Context
      reads this, request
    {
      Context(state, request.Value())
    }

    constructor ()
      ensures fresh(request) && Value() == Context(ExpectRequestLine, Request(Invalid, Unknown, [], map[]))
    {
      state := ExpectRequestLine;
      request := new HttpRequest();
    }

    method ProcessRequestLine(line: seq<Byte>) returns (succeed: bool)
      requires request.m == Invalid
      modifies request
      ensures (succeed, request.Value()) == AfterRequestLine(line, old(request.Value()))
    {
      hide Find, MethodName, MethodOf, VersionOf;
      succeed := false;
      var space := Find(line, SPACE);
      if space != |line| {
        var known := request.SetMethod(line[..space]);
        MethodFits(line[..space], request.m);
        if known {
          var rest := line[space + 1..];
          space := Find(rest, SPACE);
          if space != |rest| {
            request.SetPath(rest[..space]);
            rest := rest[space + 1..];
            VersionFits(rest);
            succeed := |rest| == 8 && rest[..7] == VersionName(Unknown);
            if succeed {
              if rest[7] == 49 {
                request.SetVersion(Http11);
              } else if rest[7] == 48 {
                request.SetVersion(Http10);
              } else {
                succeed := false;
              }
            }
          }
        }
      }
    }

    /** May parseRequest be entered? With all headers read its loop does not end, and with a request line to come
        the source asserts that no method is set. */
    predicate Ready()
      reads this, request
    {
      state != GotAll && (state == ExpectRequestLine ==> request.m == Invalid)
    }

    /** Reads whole lines off the front of the buffer until the request is complete, wrong, or out of lines. */
    method ParseRequest(buf: Buffer) returns (ok: bool)
      requires buf.Valid() && Ready()
      modifies this`state, request, buf
      ensures buf.Valid() && Outcome(ok, Value(), buf.Contents()) == Parse(old(Value()), old(buf.Contents()))
      ensures ok && state != GotAll ==> Ready()
      ensures !ok ==> (Ready() <==> !BeginsWithMethod(buf.Contents()))
    {
      hide Parse, AfterRequestLine, WithHeader, FindCrlf, Find, BeginsWithMethod;
      ok := true;
      var hasMore := true;
      ghost var o := Parse(Value(), buf.Contents());
      while hasMore
        invariant buf.Valid() && (hasMore ==> ok && Ready() && Parse(Value(), buf.Contents()) == o)
        invariant !hasMore ==> Outcome(ok, Value(), buf.Contents()) == o && (ok && state != GotAll ==> Ready())
        invariant !ok ==> (Ready() <==> !BeginsWithMethod(buf.Contents()))
        decreases hasMore, buf.ReadableBytes()
      {
        ParseLine(Value(), buf.Contents());
        var crlf := buf.FindCRLF();
        if crlf == -1 {
          hasMore := false;
        } else if state == ExpectRequestLine {
          ok := TakeRequestLine(buf, crlf);
          hasMore := ok;
        } else {
          hasMore := TakeHeader(buf, crlf);
        }
      }
    }

    method TakeRequestLine(buf: Buffer, crlf: nat) returns (ok: bool)
      requires buf.Valid() && crlf + 2 <= |buf.Contents()| && state == ExpectRequestLine && request.m == Invalid
      modifies this`state, request, buf
      ensures buf.Valid() && (ok, request.Value()) == AfterRequestLine(old(buf.Contents())[..crlf], old(request.Value()))
      ensures ok ==> state == ExpectHeaders && buf.Contents() == old(buf.Contents())[crlf + 2..]
      ensures !ok ==> state == ExpectRequestLine && buf.Contents() == old(buf.Contents())
      ensures !ok && crlf == FindCrlf(buf.Contents()) ==> (Ready() <==> !BeginsWithMethod(buf.Contents()))
    {
      hide AfterRequestLine, FindCrlf, Find, MethodOf, VersionOf;
      BadLineMethod(buf.Contents()[..crlf], request.Value());
      assert buf.buffer[buf.readerIndex..buf.readerIndex + crlf] == buf.Contents()[..crlf];
      ok := ProcessRequestLine(buf.buffer[buf.readerIndex..buf.readerIndex + crlf]);
      if ok {
        buf.Retrieve(crlf + 2);
        state := ExpectHeaders;
      }
    }

    /** A header, or the line that ends them. */
    method TakeHeader(buf: Buffer, crlf: nat) returns (hasMore: bool)
      requires buf.Valid() && crlf + 2 <= |buf.Contents()| && state == ExpectHeaders
      modifies this`state, request, buf
      ensures buf.Valid() && buf.Contents() == old(buf.Contents())[crlf + 2..]
      ensures var line := old(buf.Contents())[..crlf];
        var colon := Find(line, COLON);
        if colon == crlf then !hasMore && state == GotAll && request.Value() == old(request.Value())
        else hasMore && state == ExpectHeaders && request.Value() == WithHeader(old(request.Value()), line, colon)
    {
      hide Find, TrimLeft, TrimRight;
      assert buf.buffer[buf.readerIndex..buf.readerIndex + crlf] == buf.Contents()[..crlf];
      var line := buf.buffer[buf.readerIndex..buf.readerIndex + crlf];
      var colon := Find(line, COLON);
      hasMore := true;
      if colon != |line| {
        request.AddHeader(line, colon);
      } else {
        state := GotAll;
        hasMore := false;
      }
      buf.Retrieve(crlf + 2);
    }
  }

  /** However the stream is cut: feeding it piece by piece, until a request is complete or wrong, ends as parsing
      the whole stream at once does; pieces after that stay unread. */
  method Receive(chunks: seq<seq<Byte>>) returns (ok: bool, context: HttpContext, unread: seq<Byte>)
    ensures fresh(context)
    ensures Outcome(ok, context.Value(), unread) ==
      Parse(Context(ExpectRequestLine, Request(Invalid, Unknown, [], map[])), Flatten(chunks))
  {
    hide Parse, Flatten;
    var buf := new Buffer();
    context := new HttpContext();
    ok := true;
    ghost var first := context.Value();
    ParseLine(first, []);
    FlattenNone();
    for i := 0 to |chunks|
      invariant buf.Valid() && fresh(buf) && fresh(context) && fresh(context.request)
      invariant ok && context.state != GotAll ==> context.Ready()
      invariant Outcome(ok, context.Value(), buf.Contents()) == Parse(first, Flatten(chunks[..i]))
    {
      FlattenNext(chunks, i);
      ParseLater(first, Flatten(chunks[..i]), chunks[i]);
      buf.Append(chunks[i]);
      if ok && context.state != GotAll {
        ok := context.ParseRequest(buf);
      }
    }
    assert chunks[..|chunks|] == chunks;
    unread := buf.RetrieveAllAsString();
  }

  lemma FlattenNone()
    ensures Flatten<Byte>([]) == [] && FindCrlf([]) == 0
  {
  }

  /** Does the first line begin with a known method and a space? */
  predicate BeginsWithMethod(s: seq<Byte>) {
    var line := s[..FindCrlf(s)];
    Find(line, SPACE) < |line| && MethodOf(line[..Find(line, SPACE)]) != Invalid
  }

  lemma BadLineMethod(line: seq<Byte>, r: Request)
    requires r.m == Invalid
    ensures !AfterRequestLine(line, r).0 ==>
      (AfterRequestLine(line, r).1.m == Invalid <==> Find(line, SPACE) == |line| || MethodOf(line[..Find(line, SPACE)]) == Invalid)
  {
    hide AfterRequestLine, Find, MethodOf, VersionOf;
    if !AfterRequestLine(line, r).0 {
      LineMethod(line, r);
    }
  }

  /** A bad request line leaves its method behind when it begins with a known one, and then the parser may not be
      entered again, though the connection stays open for reading; with any other it may. */
  lemma FailureKeepsMethod(c: Context, s: seq<Byte>)
    requires c.state == ExpectRequestLine && c.request.m == Invalid && !Parse(c, s).ok
    ensures Parse(c, s).context.state == ExpectRequestLine
      && (Parse(c, s).context.request.m == Invalid <==> !BeginsWithMethod(s))
  {
    hide Parse, Find, MethodOf, VersionOf, AfterRequestLine;
    ParseLine(c, s);
    var n := FindCrlf(s);
    var (ok, r) := AfterRequestLine(s[..n], c.request);
    if ok {
      HeadersNeverFail(Context(ExpectHeaders, r), s[n + 2..]);
    }
    LineMethod(s[..n], c.request);
  }

  /** Such a line: GET, a space, and a path with nothing after it. Its bytes stay unread, and the next call would
      fail the source's assertion. */
  method StuckAfterFailure(context: HttpContext, buf: Buffer, path: seq<Byte>) returns (ok: bool)
    requires context.state == ExpectRequestLine && context.request.m == Invalid
    requires buf.Valid() && buf.Contents() == [] && SPACE !in path && NoCrlf(path)
    modifies context, context.request, buf
    ensures buf.Valid() && buf.Contents() == MethodName(Get) + [SPACE] + path + [13, 10]
    ensures !ok && context.state == ExpectRequestLine && context.request.m == Get && !context.Ready()
  {
    hide Parse, MethodName, MethodOf, AfterRequestLine, Find, FindCrlf, BeginsWithMethod;
    GetAloneParsed(path, context.request.Value());
    ghost var bytes := MethodName(Get) + [SPACE] + path + [13, 10];
    assert [] + bytes == bytes;
    buf.Append(MethodName(Get) + [SPACE] + path + [13, 10]);
    ok := context.ParseRequest(buf);
  }

  lemma GetAloneParsed(path: seq<Byte>, r: Request)
    requires SPACE !in path && NoCrlf(path)
    ensures var s := MethodName(Get) + [SPACE] + path + [13, 10];
      Parse(Context(ExpectRequestLine, r), s) == Outcome(false, Context(ExpectRequestLine, r.(m := Get)), s)
  {
    hide Parse, Find, MethodOf, AfterRequestLine, FindCrlf;
    var line := MethodName(Get) + [SPACE] + path;
    GetAlone(path, r);
    CrlfAt(line, []);
    assert line + [13, 10] + [] == line + [13, 10] && (line + [13, 10])[..|line|] == line;
    ParseLine(Context(ExpectRequestLine, r), line + [13, 10]);
  }

  lemma GetAlone(path: seq<Byte>, r: Request)
    requires SPACE !in path && NoCrlf(path)
    ensures var line := MethodName(Get) + [SPACE] + path;
      NoCrlf(line) && AfterRequestLine(line, r) == (false, r.(m := Get))
  {
    var line := MethodName(Get) + [SPACE] + path;
    FindFirst(MethodName(Get), SPACE, path);
    NamesDiffer(Get, Unknown);
    assert line[..3] == MethodName(Get) && line[4..] == path;
    hide MethodOf;
    assert Find(path, SPACE) == |path|;
    assert forall i :: 4 <= i < |line| ==> line[i] == path[i - 4];
    forall i | 0 <= i && i + 1 < |line| ensures !(line[i] == 13 && line[i + 1] == 10) {
      if i >= 4 {
        assert line[i] == path[i - 4] && line[i + 1] == path[i - 3];
      }
    }
  }

  lemma LineMethod(line: seq<Byte>, r: Request)
    requires r.m == Invalid && !AfterRequestLine(line, r).0
    ensures AfterRequestLine(line, r).1.m ==
      if Find(line, SPACE) == |line| then Invalid else MethodOf(line[..Find(line, SPACE)])
  {
    hide Find, MethodOf, VersionOf;
  }

  lemma {:induction false} HeadersNeverFail(c: Context, s: seq<Byte>)
    requires c.state == ExpectHeaders
    ensures Parse(c, s).ok
    decreases |s|
  {
    hide Parse, Find, WithHeader;
    ParseLine(c, s);
    var n := FindCrlf(s);
    if n < |s| {
      var colon := Find(s[..n], COLON);
      if colon < n { HeadersNeverFail(Context(ExpectHeaders, WithHeader(c.request, s[..n], colon)), s[n + 2..]); }
    }
  }
}
