/** A request survives the way over the wire, and both parsers read the same message alike. */
module RequestWire {
  import opened Text
  import opened HttpBase
  import opened HttpRequest
  import opened Wire

  // ---------- searching in a part of a text ----------

  lemma FindHere(s: string, i: nat, t: string, c: char, j: nat)
    requires Here(s, i, t) && j <= |t| && Find(t, c, j) < |t|
    ensures i + j <= |s| && Find(s, c, i + j) == i + Find(t, c, j)
  {
    var k := FindFinds(t, c, j);
    forall x | i + j <= x < i + k ensures s[x] != c {
      assert s[i + (x - i)] == t[x - i];
    }
    assert s[i + k] == t[k];
    FindIs(s, c, i + j, i + k);
  }

  lemma {:induction false} FindFinds(t: string, c: char, j: nat) returns (k: nat)
    requires j <= |t|
    ensures k == Find(t, c, j) && (forall x :: j <= x < k ==> t[x] != c) && (k < |t| ==> t[k] == c)
    decreases |t| - j
  {
    if j < |t| && t[j] != c {
      k := FindFinds(t, c, j + 1);
    } else {
      k := j;
    }
  }

  lemma SpanHere(s: string, i: nat, t: string, p: char -> bool, j: nat)
    requires Here(s, i, t) && j <= |t| && Span(t, j, p) < |t|
    ensures i + j <= |s| && Span(s, i + j, p) == i + Span(t, j, p)
  {
    SpanEnds(t, j, p);
    var k := Span(t, j, p);
    forall x | i + j <= x < i + k ensures p(s[x]) {
      assert s[i + (x - i)] == t[x - i];
    }
    assert s[i + k] == t[k];
    SpanIs(s, i + j, p, i + k);
  }

  lemma SubstrHere(s: string, i: nat, t: string, pos: nat, len: nat)
    requires Here(s, i, t) && pos + len <= |t|
    ensures Substr(s, i + pos, len) == Substr(t, pos, len)
  {
    var a, b := s[i + pos..i + pos + len], t[pos..pos + len];
    forall x | 0 <= x < len ensures a[x] == b[x] {
      assert s[i + (pos + x)] == t[pos + x];
    }
    assert a == b;
  }

  // ---------- both parsers read a line alike ----------

  /** A request line with its two separators. */
  predicate StartShape(first: string) {
    && NoLineFeed(first)
    && var e := Find(first, ' ', 0);
    && e < |first| && Find(first, ' ', Span(first, e + 1, IsSpaceChar)) < |first|
  }

  /** A header with a non-empty name and a colon. */
  predicate HeaderShape(h: string) {
    NoLineFeed(h) && h != "" && h[0] != '\r' && h[0] != ':' && Find(h, ':', 0) < |h|
  }

  /** A run inside a line ends before the carriage return behind it. */
  lemma SpanInLine(line: string, j: nat)
    requires j <= |line|
    ensures Span(line + "\r\n", j, IsSpaceChar) <= |line|
  {
    SpanEnds(line + "\r\n", j, IsSpaceChar);
    assert (line + "\r\n")[|line|] == '\r';
  }

  lemma FindInLine(line: string, c: char, j: nat)
    requires j <= |line| && Find(line, c, j) < |line|
    ensures Find(line + "\r\n", c, j) == Find(line, c, j)
  {
    FindHere(line + "\r\n", 0, line, c, j);
  }

  lemma LineFeedAt(s: string, i: nat, line: string)
    requires Here(s, i, line + "\r\n") && NoLineFeed(line)
    ensures i <= |s| && Find(s, '\n', i) == i + |line| + 1
  {
    var t := line + "\r\n";
    FindIs(t, '\n', 0, |line| + 1);
    FindHere(s, i, t, '\n', 0);
  }

  /** The request line is read the same whatever follows it. */
  lemma StartAgrees(q: Request, s: string, first: string)
    requires StartShape(first) && Here(s, 0, first + "\r\n")
    ensures ParseStart(q, s, |first| + 1) == ParseStart(q, first + "\r\n", |first| + 1)
  {
    hide Find, Span, Substr, ScanVersion, Here;
    var t := first + "\r\n";
    var e, u, e2, p := StartParts(first);
    FindHere(s, 0, t, ' ', 0);
    SpanHere(s, 0, t, IsSpaceChar, e + 1);
    FindHere(s, 0, t, ' ', u);
    SpanHere(s, 0, t, IsSpaceChar, e2 + 1);
    SubstrHere(s, 0, t, 0, e);
    SubstrHere(s, 0, t, u, e2 - u);
    SubstrHere(s, 0, t, p, |first| - p);
  }

  lemma StartParts(first: string) returns (e: nat, u: nat, e2: nat, p: nat)
    requires StartShape(first)
    ensures var t := first + "\r\n";
            && e < |first| && e == Find(t, ' ', 0) && u == Span(t, e + 1, IsSpaceChar) <= |first|
            && e2 == Find(t, ' ', u) < |first| && p == Span(t, e2 + 1, IsSpaceChar) <= |first|
            && e == Find(first, ' ', 0) && u == Span(first, e + 1, IsSpaceChar) && e2 == Find(first, ' ', u)
  {
    hide Find, Span;
    var t := first + "\r\n";
    e := Find(first, ' ', 0);
    FindInLine(first, ' ', 0);
    u := Span(first, e + 1, IsSpaceChar);
    e2 := Find(first, ' ', u);
    assert Here(t, 0, first);
    SpanHere(t, 0, first, IsSpaceChar, e + 1);
    FindInLine(first, ' ', u);
    p := Span(t, e2 + 1, IsSpaceChar);
    SpanInLine(first, e2 + 1);
  }

  /** A header is read the same wherever it stands. */
  lemma HeaderAgrees(q: Request, s: string, i: nat, h: string)
    requires HeaderShape(h) && Here(s, i, h + "\r\n")
    ensures i + |h| + 1 < |s|
    ensures ParseHeader(q, s, i, i + |h| + 1) == ParseHeader(q, h + "\r\n", 0, |h| + 1)
    ensures ParseHeader(q, s, i, i + |h| + 1).fault == NoFault
  {
    hide Find, Span, Substr;
    var t := h + "\r\n";
    FindInLine(h, ':', 0);
    var colon := Find(t, ':', 0);
    FindHere(s, i, t, ':', 0);
    SpanInLine(h, colon + 1);
    var v := Span(t, colon + 1, IsSpaceChar);
    SpanHere(s, i, t, IsSpaceChar, colon + 1);
    SubstrHere(s, i, t, 0, colon);
    SubstrHere(s, i, t, v, |h| - v);
  }

  // ---------- streaming agrees with one-shot ----------

  function Lines(hs: seq<string>): string {
    if hs == [] then "" else hs[0] + "\r\n" + Lines(hs[1..])
  }

  function Message(first: string, hs: seq<string>): string {
    first + "\r\n" + Lines(hs) + "\r\n"
  }

  predicate HeaderShapes(hs: seq<string>) {
    forall i :: 0 <= i < |hs| ==> HeaderShape(hs[i])
  }

  /** What both parsers make of the headers. */
  function Stored(q: Request, hs: seq<string>): Request
    requires HeaderShapes(hs)
    decreases |hs|
  {
    if hs == [] then q else Stored(ParseHeader(q, hs[0] + "\r\n", 0, |hs[0]| + 1).q, hs[1..])
  }

  lemma {:induction false} OneShotHeaders(q: Request, s: string, i: nat, hs: seq<string>)
    requires HeaderShapes(hs) && Here(s, i, Lines(hs) + "\r\n")
    ensures i <= |s| && ParseHeaders(q, s, i) == Parsed(Stored(q, hs), NoFault)
    decreases |hs|
  {
    hide Find, ParseHeader, HeaderShape;
    if hs == [] {
      HereFirst(s, i, Lines(hs) + "\r\n");
    } else {
      var h, more := hs[0], Lines(hs[1..]) + "\r\n";
      assert Lines(hs) + "\r\n" == (h + "\r\n") + more;
      HereSplit(s, i, h + "\r\n", more);
      HeaderStart(s, i, h);
      HeaderAgrees(q, s, i, h);
      OneShotHeaders(ParseHeader(q, s, i, i + |h| + 1).q, s, i + |h| + 2, hs[1..]);
    }
  }

  lemma HeaderStart(s: string, i: nat, h: string)
    requires HeaderShape(h) && Here(s, i, h + "\r\n")
    ensures i < |s| && s[i] != '\r' && Find(s, '\n', i) == i + |h| + 1
  {
    HereFirst(s, i, h + "\r\n");
    LineFeedAt(s, i, h);
  }

  lemma {:induction false} StreamHeaders(q: Request, hs: seq<string>, rest: string)
    requires HeaderShapes(hs) && q.firstLineAdded && !q.headersRead
    ensures Feed(WithLine, "", q, Lines(hs) + rest) == Feed(WithLine, "", Stored(q, hs), rest)
    decreases |hs|
  {
    hide Feed, ParseHeader, HeaderShape, WithLine;
    if hs == [] {
      assert Lines(hs) + rest == rest;
    } else {
      var h := hs[0];
      HeaderIsAdded(q, h);
      assert Lines(hs) + rest == (h + "\r") + "\n" + (Lines(hs[1..]) + rest);
      assert "" + (h + "\r") + "\n" == h + "\r\n";
      HeaderFeed(h);
      FeedLine(WithLine, "", q, h + "\r", Lines(hs[1..]) + rest);
      StreamHeaders(ParseHeader(q, h + "\r\n", 0, |h| + 1).q, hs[1..], rest);
    }
  }

  lemma HeaderFeed(h: string)
    requires HeaderShape(h)
    ensures NoLineFeed(h + "\r")
  {
  }

  lemma HeaderIsAdded(q: Request, h: string)
    requires HeaderShape(h) && q.firstLineAdded && !q.headersRead
    ensures WithLine(q, h + "\r\n") == ParseHeader(q, h + "\r\n", 0, |h| + 1)
    ensures var r := WithLine(q, h + "\r\n"); r.fault == NoFault && r.q.firstLineAdded && !r.q.headersRead
  {
    hide ParseHeader, Find;
    var t := h + "\r\n";
    HeaderStart(t, 0, h);
    HeaderIsLong(h);
    HeaderAgrees(q, t, 0, h);
    HeaderKeepsFlags(q, t, |h| + 1);
  }

  lemma HeaderIsLong(h: string)
    requires HeaderShape(h)
    ensures |h| >= 2
  {
    FindInLine(h, ':', 0);
  }

  lemma HeaderKeepsFlags(q: Request, t: string, lf: nat)
    requires lf < |t|
    ensures var r := ParseHeader(q, t, 0, lf).q;
            r.firstLineAdded == q.firstLineAdded && r.headersRead == q.headersRead && r.ended == q.ended
  {
  }

  lemma StartIsLong(first: string)
    requires StartShape(first)
    ensures |first| >= 2
  {
    hide Find, Span;
    var e, u, e2, p := StartParts(first);
  }

  /** The request line, as the line reader sees it. */
  lemma StartIsAdded(q: Request, first: string)
    requires StartShape(first) && !q.firstLineAdded
    ensures var r := ParseStart(q, first + "\r\n", |first| + 1);
            WithLine(q, first + "\r\n")
            == if r.fault == NoFault then Parsed(r.q.(firstLineAdded := true), NoFault) else r
  {
    hide ParseStart, Find, StartShape;
    StartIsLong(first);
    StartFeed(first);
    LineFeedAt(first + "\r\n", 0, first);
  }

  lemma StartFeed(first: string)
    requires StartShape(first)
    ensures NoLineFeed(first) && NoLineFeed(first + "\r")
  {
  }

  /** The parts of a message that a parser reads; the flags are only kept by the line reader. */
  predicate SameMessage(a: Request, b: Request) {
    a.method_ == b.method_ && a.url == b.url && a.major == b.major && a.minor == b.minor && a.headers == b.headers
  }

  lemma {:induction false} StoredSame(a: Request, b: Request, hs: seq<string>)
    requires HeaderShapes(hs) && SameMessage(a, b)
    ensures SameMessage(Stored(a, hs), Stored(b, hs))
    ensures Stored(a, hs)
            == Stored(b, hs).(firstLineAdded := a.firstLineAdded, headersRead := a.headersRead, ended := a.ended)
    decreases |hs|
  {
    hide Find, Span, Substr;
    if hs != [] {
      var line, lf := hs[0] + "\r\n", |hs[0]| + 1;
      StoredSame(ParseHeader(a, line, 0, lf).q, ParseHeader(b, line, 0, lf).q, hs[1..]);
    }
  }

  /** On a message of CRLF-terminated lines the constructor and the line reader throw alike and otherwise read
      the same method, URL, version and headers, and the line reader is done. */
  lemma StreamingAgreesWithOneShot(q: Request, first: string, hs: seq<string>)
    requires StartShape(first) && HeaderShapes(hs)
    requires !q.firstLineAdded && !q.headersRead
    ensures var whole, fed := ParseMessage(q, Message(first, hs)), Feed(WithLine, "", q, Message(first, hs));
            && fed.fault == whole.fault && SameMessage(fed.q, whole.q)
            && (fed.fault == NoFault ==> fed.q.ended && fed.line == "" && fed.rest == "")
  {
    hide Find, ParseStart, ParseHeader, Feed, HeaderShape, StartShape, Stored, WithLine;
    var s := Message(first, hs);
    var more := Lines(hs) + "\r\n";
    assert s == (first + "\r\n") + more;
    HereSplit(s, 0, first + "\r\n", more);
    StartFeed(first);
    LineFeedAt(s, 0, first);
    StartAgrees(q, s, first);
    StartIsAdded(q, first);
    assert s == (first + "\r") + "\n" + more;
    assert "" + (first + "\r") + "\n" == first + "\r\n";
    FeedLine(WithLine, "", q, first + "\r", more);
    var r := ParseStart(q, s, |first| + 1);
    if r.fault == NoFault {
      StartKeepsFlags(q, s, |first| + 1);
      OneShotHeaders(r.q, s, |first| + 2, hs);
      var q1 := r.q.(firstLineAdded := true);
      StreamHeaders(q1, hs, "\r\n");
      StoredSame(r.q, q1, hs);
      StreamEnd(Stored(q1, hs), "\r");
      assert "\r" + "\n" == "\r\n";
    }
  }

  lemma StartKeepsFlags(q: Request, t: string, lf: nat)
    requires lf < |t|
    ensures var r := ParseStart(q, t, lf).q;
            r.firstLineAdded == q.firstLineAdded && r.headersRead == q.headersRead && r.ended == q.ended
            && r.headers == q.headers
  {
    hide Find, Span, Substr, ScanVersion;
  }

  /** The blank line, with one or with two carriage returns. */
  lemma StreamEnd(q: Request, line: string)
    requires line == "\r" || line == "\r\r"
    ensures Feed(WithLine, "", q, line + "\n") == Fed("", q.(ended := true), NoFault, "")
  {
    assert line + "\n" == line + "\n" + "";
    assert "" + line + "\n" == line + "\n";
    FeedLine(WithLine, "", q, line, "");
  }

  // ---------- the round trip ----------

  predicate NameOk(name: string) {
    NoLineFeed(name) && name != "" && name[0] != '\r' && (forall i :: 0 <= i < |name| ==> name[i] != ':')
    && ToLower(name) == name
  }

  predicate ValueOk(value: string) {
    NoLineFeed(value) && (value != "" ==> value[0] != ' ') && ToLower(value) == value
  }

  predicate NoBlank(s: string) {
    forall i :: 0 <= i < |s| ==> s[i] != ' ' && s[i] != '\n'
  }

  /** A request with a method and a URL free of separators, and lower-case headers. */
  predicate WellFormed(q: Request) {
    && NoBlank(q.method_) && NoBlank(q.url) && q.url != ""
    && forall k :: k in q.headers ==> NameOk(k) && ValueOk(q.headers[k])
  }

  function Protocol(q: Request): string {
    "HTTP/" + ToString(q.major) + "." + ToString(q.minor)
  }

  function First(q: Request): string {
    q.method_ + " " + q.url + " " + Protocol(q)
  }

  lemma PrintedVersion(q: Request)
    ensures ScanVersion(Protocol(q)) == Version(Some(q.major), Some(q.minor))
  {
    hide ScanInt, ToString, Here;
    var s, a, b := Protocol(q), ToString(q.major), ToString(q.minor);
    assert s == "HTTP/" + (a + ("." + b));
    HereSlice(s, 0, s);
    assert s[0..0 + |s|] == s;
    HereSplit(s, 0, "HTTP/", a + ("." + b));
    HereSplit(s, 5, a, "." + b);
    HereSplit(s, 5 + |a|, ".", b);
    HereFirst(s, 5 + |a|, ".");
    ScanPrinted(s, 5, q.major);
    ScanPrinted(s, 6 + |a|, q.minor);
  }

  lemma NoLineFeedIn(n: int)
    ensures NoLineFeed(ToString(n)) && ToString(n) != ""
  {
    var ds := Dec(if n < 0 then -n else n);
    assert forall i :: 0 <= i < |ds| ==> IsDigit(ds[i]);
  }

  lemma NoBlankHere(t: string, i: nat, frag: string)
    requires Here(t, i, frag) && NoBlank(frag)
    ensures i + |frag| <= |t| && forall k :: i <= k < i + |frag| ==> t[k] != ' '
  {
    forall k | i <= k < i + |frag| ensures t[k] != ' ' {
      assert t[i + (k - i)] == frag[k - i];
    }
  }

  lemma ProtocolStarts(q: Request)
    ensures Protocol(q) != "" && Protocol(q)[0] == 'H'
  {
  }

  /** The parts of a printed request line stand where they should. */
  lemma PrintedParts(q: Request, t: string)
    requires WellFormed(q) && Here(t, 0, First(q)) && |t| > |First(q)| && t[|First(q)|] == '\r'
    ensures var e := |q.method_|; var e2 := e + 1 + |q.url|;
            && Find(t, ' ', 0) == e && Span(t, e + 1, IsSpaceChar) == e + 1
            && Find(t, ' ', e + 1) == e2 && Span(t, e2 + 1, IsSpaceChar) == e2 + 1
            && Here(t, 0, q.method_) && Here(t, e + 1, q.url) && Here(t, e2 + 1, Protocol(q))
            && |First(q)| == e2 + 1 + |Protocol(q)|
  {
    hide Find, Span, ToString, Here, Protocol;
    ProtocolStarts(q);
    var e := |q.method_|;
    var e2 := e + 1 + |q.url|;
    assert First(q) == q.method_ + (" " + (q.url + (" " + Protocol(q))));
    HereSplit(t, 0, q.method_, " " + (q.url + (" " + Protocol(q))));
    HereSplit(t, e, " ", q.url + (" " + Protocol(q)));
    HereSplit(t, e + 1, q.url, " " + Protocol(q));
    HereSplit(t, e2, " ", Protocol(q));
    HereFirst(t, e, " ");
    HereFirst(t, e + 1, q.url);
    HereFirst(t, e2, " ");
    HereFirst(t, e2 + 1, Protocol(q));
    NoBlankHere(t, 0, q.method_);
    FindIs(t, ' ', 0, e);
    SpanIs(t, e + 1, IsSpaceChar, e + 1);
    NoBlankHere(t, e + 1, q.url);
    FindIs(t, ' ', e + 1, e2);
    SpanIs(t, e2 + 1, IsSpaceChar, e2 + 1);
  }

  lemma SubstrOf(t: string, pos: nat, frag: string)
    requires Here(t, pos, frag)
    ensures pos <= |t| && Substr(t, pos, |frag|) == frag
  {
    HereSlice(t, pos, frag);
  }

  lemma PrintedStart(q0: Request, q: Request)
    requires WellFormed(q)
    ensures ParseStart(q0, First(q) + "\r\n", |First(q)| + 1)
            == Parsed(q0.(method_ := q.method_, url := q.url, major := q.major, minor := q.minor), NoFault)
  {
    hide Find, Span, ToString, ScanVersion, WellFormed, Substr, Protocol;
    var t := First(q) + "\r\n";
    PrintedParts(q, t);
    var e := |q.method_|;
    var e2 := e + 1 + |q.url|;
    SubstrOf(t, 0, q.method_);
    SubstrOf(t, e + 1, q.url);
    SubstrOf(t, e2 + 1, Protocol(q));
    PrintedVersion(q);
  }

  lemma PrintedShape(q: Request)
    requires WellFormed(q)
    ensures StartShape(First(q))
  {
    hide Find, Span, ToString;
    var t := First(q) + "\r\n";
    PrintedParts(q, t);
    NoLineFeedIn(q.major);
    NoLineFeedIn(q.minor);
    var e := |q.method_|;
    var e2 := e + 1 + |q.url|;
    FindFound(t, 0);
    FindFound(t, e + 1);
    FindIs(First(q), ' ', 0, e);
    SpanIs(First(q), e + 1, IsSpaceChar, e + 1);
    FindIs(First(q), ' ', e + 1, e2);
  }

  lemma FindFound(t: string, j: nat)
    requires j <= |t|
    ensures var k := Find(t, ' ', j); (forall x :: j <= x < k ==> t[x] != ' ') && (k < |t| ==> t[k] == ' ')
  {
    var k := FindFinds(t, ' ', j);
  }

  function HeaderText(name: string, value: string): string {
    name + ": " + value
  }

  lemma PrintedHeader(q: Request, name: string, value: string)
    requires NameOk(name) && ValueOk(value)
    ensures var h := HeaderText(name, value);
            && HeaderShape(h)
            && ParseHeader(q, h + "\r\n", 0, |h| + 1) == Parsed(q.(headers := q.headers[name := value]), NoFault)
  {
    hide Find, Span, ToLower;
    var h := HeaderText(name, value);
    var t := h + "\r\n";
    FindIs(h, ':', 0, |name|);
    FindIs(t, ':', 0, |name|);
    SpanIs(t, |name| + 1, IsSpaceChar, |name| + 2);
    assert Substr(t, 0, |name|) == name;
    assert Substr(t, |name| + 2, |value|) == value;
  }

  /** The headers as lines without their line ends, in the order of the hash map. */
  function HeaderTexts(headers: map<string, string>, order: seq<string>): (hs: seq<string>)
    requires forall i :: 0 <= i < |order| ==> order[i] in headers
    ensures |hs| == |order|
  {
    if order == [] then [] else [HeaderText(order[0], headers[order[0]])] + HeaderTexts(headers, order[1..])
  }

  lemma {:induction false} TextsAreLines(headers: map<string, string>, order: seq<string>)
    requires forall i :: 0 <= i < |order| ==> order[i] in headers
    ensures HeaderLines(headers, order) == Lines(HeaderTexts(headers, order))
    decreases |order|
  {
    if order != [] {
      TextsAreLines(headers, order[1..]);
      var hs := HeaderTexts(headers, order);
      assert hs[0] == HeaderText(order[0], headers[order[0]]) && hs[1..] == HeaderTexts(headers, order[1..]);
      assert hs[0] + "\r\n" == HeaderLine(order[0], headers[order[0]]);
    }
  }

  predicate HeadersOk(headers: map<string, string>) {
    forall k :: k in headers ==> NameOk(k) && ValueOk(headers[k])
  }

  lemma {:induction false} TextsShape(headers: map<string, string>, order: seq<string>, q: Request)
    requires HeadersOk(headers) && forall i :: 0 <= i < |order| ==> order[i] in headers
    ensures HeaderShapes(HeaderTexts(headers, order))
    decreases |order|
  {
    hide HeaderShape, ParseHeader, NameOk, ValueOk;
    if order != [] {
      PrintedHeader(q, order[0], headers[order[0]]);
      TextsShape(headers, order[1..], q);
    }
  }

  /** Reading the printed headers stores each under its name. */
  lemma {:induction false} TextsStored(q: Request, headers: map<string, string>, order: seq<string>)
    requires HeadersOk(headers) && forall i :: 0 <= i < |order| ==> order[i] in headers
    requires HeaderShapes(HeaderTexts(headers, order))
    ensures Stored(q, HeaderTexts(headers, order))
            == q.(headers := q.headers + map k | k in order && k in headers :: headers[k])
    decreases |order|
  {
    hide HeaderShape, ParseHeader, NameOk, ValueOk, HeaderText;
    var hs := HeaderTexts(headers, order);
    if order == [] {
      NoMap(q.headers, headers, order);
    } else {
      var k0 := order[0];
      var q1 := q.(headers := q.headers[k0 := headers[k0]]);
      PrintedHeader(q, k0, headers[k0]);
      assert hs[0] == HeaderText(k0, headers[k0]) && hs[1..] == HeaderTexts(headers, order[1..]);
      TextsStored(q1, headers, order[1..]);
      MapGrows(q.headers, headers, order);
    }
  }

  lemma MapGrows(stored: map<string, string>, headers: map<string, string>, order: seq<string>)
    requires order != [] && forall i :: 0 <= i < |order| ==> order[i] in headers
    ensures stored[order[0] := headers[order[0]]] + (map k | k in order[1..] && k in headers :: headers[k])
            == stored + (map k | k in order && k in headers :: headers[k])
  {
    assert order == [order[0]] + order[1..];
  }

  lemma NoMap(stored: map<string, string>, headers: map<string, string>, order: seq<string>)
    requires order == []
    ensures stored + (map k | k in order && k in headers :: headers[k]) == stored
  {
  }

  lemma EnumeratedMap(headers: map<string, string>, order: seq<string>)
    requires Enumerates(order, headers)
    ensures map[] + (map k | k in order && k in headers :: headers[k]) == headers
  {
  }

  /** A printed request is a message. */
  lemma PrintedIsMessage(q: Request, order: seq<string>)
    requires Enumerates(order, q.headers)
    ensures Printed(q, order) == Message(First(q), HeaderTexts(q.headers, order))
  {
    hide ToString;
    TextsAreLines(q.headers, order);
    assert StartLine(q) == First(q) + "\r\n";
  }

  function Ended(q: Request): Request {
    q.(firstLineAdded := true, headersRead := false, ended := true)
  }

  /** The image of a request up to its blank line, and what reading that leaves. */
  lemma PrintedFront(q0: Request, q: Request, order: seq<string>) returns (front: string)
    requires WellFormed(q) && Enumerates(order, q.headers)
    requires q0 == NewRequest(q0.major, q0.minor)
    ensures Image(Printed(q, order)) == front + ("\r\r" + "\n")
    ensures Feed(WithLine, "", q0, front) == Fed("", Ended(q).(ended := false), NoFault, "")
  {
    hide Feed, WithLine, ParseStart, Stored, StartShape, HeaderShapes, Printed, First, HeaderTexts, NameOk, ValueOk;
    var hs := HeaderTexts(q.headers, order);
    var first := First(q);
    PrintedIsMessage(q, order);
    PrintedShape(q);
    PrintedStart(q0, q);
    TextsShape(q.headers, order, q0);
    var q1 := q0.(method_ := q.method_, url := q.url, major := q.major, minor := q.minor, firstLineAdded := true);
    StartIsAdded(q0, first);
    StartFeed(first);
    front := first + "\r\n" + Lines(hs);
    assert front == (first + "\r") + "\n" + Lines(hs);
    assert "" + (first + "\r") + "\n" == first + "\r\n";
    FeedLine(WithLine, "", q0, first + "\r", Lines(hs));
    StreamHeaders(q1, hs, "");
    assert Lines(hs) + "" == Lines(hs);
    FeedNoLine(WithLine, "", Stored(q1, hs), "");
    TextsStored(q1, q.headers, order);
    EnumeratedMap(q.headers, order);
  }

  lemma RequestLasts()
    ensures Lasts(WithLine, (q: Request) => q.ended)
  {
    hide Find, ParseStart, ParseHeader;
    forall q: Request, line: string | q.ended ensures WithLine(q, line).q.ended {
      EndedStays(q, line);
    }
  }

  lemma EndedStays(q: Request, line: string)
    requires q.ended
    ensures WithLine(q, line).q.ended
  {
    hide Find, ParseStart, ParseHeader;
    var lf := Find(line, '\n', 0);
    if lf < |line| {
      StartKeepsFlags(q, line, lf);
      HeaderKeepsFlags(q, line, lf);
    }
  }

  /** Any well-formed request, printed in any header order and emitted by `send_header`, is read back the same, and
      its end is recognised with the last byte and not before. */
  lemma RequestCompletes(q0: Request, q: Request, order: seq<string>)
    requires WellFormed(q) && Enumerates(order, q.headers)
    requires q0 == NewRequest(q0.major, q0.minor)
    ensures Completes(WithLine, (q: Request) => q.ended, "", q0, Image(Printed(q, order)), Ended(q))
  {
    hide Feed, WithLine, Printed, Lasts, WellFormed;
    var front := PrintedFront(q0, q, order);
    RequestLasts();
    StreamEnd(Ended(q).(ended := false), "\r\r");
    LastLineCompletes(WithLine, (q: Request) => q.ended, "", q0, front, "\r\r", Ended(q).(ended := false), Ended(q));
  }

  /** In particular whatever pieces the bytes arrive in, as long as they are all read. */
  lemma RequestRoundTrip(q0: Request, q: Request, order: seq<string>, pieces: seq<string>)
    requires WellFormed(q) && Enumerates(order, q.headers)
    requires q0 == NewRequest(q0.major, q0.minor)
    requires Concat(pieces) == Image(Printed(q, order))
    ensures FeedAll(WithLine, "", q0, pieces) == Fed("", Ended(q), NoFault, "")
  {
    hide Feed, FeedAll, WithLine, Printed, WellFormed;
    RequestCompletes(q0, q, order);
    SplitDoesNotMatter(WithLine, "", q0, pieces);
  }

  // ---------- what follows the blank line ----------

  /** Both reading loops read on behind the blank line: what follows it is read as header lines of the request. */
  lemma RestIsRead(q0: Request, q: Request, order: seq<string>, rest: string)
    requires WellFormed(q) && Enumerates(order, q.headers)
    requires q0 == NewRequest(q0.major, q0.minor)
    ensures Feed(WithLine, "", q0, Image(Printed(q, order)) + rest) == Feed(WithLine, "", Ended(q), rest)
  {
    hide Feed, WithLine, WellFormed;
    RequestCompletes(q0, q, order);
    FeedJoins(WithLine, "", q0, Image(Printed(q, order)), rest);
  }

  /** What the reader takes for the end: two or three characters, one of the first two a carriage return. */
  predicate LooksLikeEnd(l: string) {
    |l| in {2, 3} && '\r' in l[..2]
  }

  /** A line of a body that has come with the header throws exactly if it has no colon and does not look like the
      end of the headers. */
  lemma BodyLineThrowsExactly(q: Request, line: string)
    requires q.firstLineAdded && !q.headersRead && NoLineFeed(line) && line != ""
    ensures Feed(WithLine, "", q, line + "\n").fault != NoFault
            <==> !LooksLikeEnd(line + "\n") && line[0] != '\r' && ':' !in line
  {
    hide Feed, Span, Substr;
    assert line + "\n" == line + "\n" + "" && "" + line + "\n" == line + "\n";
    FeedLine(WithLine, "", q, line, "");
    var t := line + "\n";
    FindIs(t, '\n', 0, |line|);
    var k := FindFinds(t, ':', 0);
    if k < |t| {
      assert t[k] == ':' && line[k] == ':';
    } else {
      assert forall i :: 0 <= i < |line| ==> line[i] == t[i];
    }
    FeedDone(WithLine(q, t));
  }

  lemma FeedDone(r: Parsed<Request>)
    ensures Feed(WithLine, "", r.q, "").fault == NoFault
  {
  }

  /** Behind its first line a request ends with a line that looks like an end, or with any line once its headers
      have been closed. */
  lemma EndsExactly(q: Request, l: string)
    requires q.firstLineAdded && !q.ended && |l| >= 2 && l[|l| - 1] == '\n'
    ensures WithLine(q, l).q.ended <==> LooksLikeEnd(l) || q.headersRead
  {
    hide ParseHeader;
    var lf := FindFinds(l, '\n', 0);
    HeaderKeepsFlags(q, l, lf);
  }

  /** A line that the reader of headers throws at, and one that makes it ignore all that follow. */
  predicate ThrowsAt(l: string) {
    l != "" && !LooksLikeEnd(l) && l[0] != '\n' && l[0] != '\r' && ':' !in l
  }

  predicate Closes(l: string) {
    l != "" && !LooksLikeEnd(l) && (l[0] == '\n' || l[0] == '\r')
  }

  lemma LinesAreJudged()
    ensures Judged(WithLine, (q: Request) => q.firstLineAdded, (q: Request) => !q.headersRead,
                   ThrowsAt, Closes)
  {
    hide ParseHeader;
    forall q: Request, l: string | q.firstLineAdded && IsLine(l)
      ensures var r := WithLine(q, l);
              && r.q.firstLineAdded
              && (if !q.headersRead then (r.fault != NoFault <==> ThrowsAt(l)) && (!r.q.headersRead <==> !Closes(l))
                  else r.fault == NoFault && r.q.headersRead)
    {
      LineIsJudged(q, l);
    }
  }

  lemma LineIsJudged(q: Request, l: string)
    requires q.firstLineAdded && IsLine(l)
    ensures var r := WithLine(q, l);
            && r.q.firstLineAdded
            && (if !q.headersRead then (r.fault != NoFault <==> ThrowsAt(l)) && (!r.q.headersRead <==> !Closes(l))
                else r.fault == NoFault && r.q.headersRead)
  {
    hide Find, Span, Substr, ToLower;
    var lf := FindFinds(l, '\n', 0);
    var colon := FindFinds(l, ':', 0);
  }

  /** What comes along behind the header throws exactly if one of its lines has no colon, does not look like an
      end and begins with neither a carriage return nor a line feed, and none before it begins with one of the two
      without looking like an end. */
  lemma RestThrowsExactly(q0: Request, q: Request, order: seq<string>, rest: string)
    requires WellFormed(q) && Enumerates(order, q.headers)
    requires q0 == NewRequest(q0.major, q0.minor)
    ensures Feed(WithLine, "", q0, Image(Printed(q, order)) + rest).fault != NoFault
            <==> ThrownAt(CutLines("", rest), ThrowsAt, Closes)
  {
    hide Feed, WithLine, WellFormed, ThrownAt, CutLines, Judged, Printed;
    RestIsRead(q0, q, order, rest);
    LinesAreJudged();
    FeedThrowsExactly(WithLine, (q: Request) => q.firstLineAdded, (q: Request) => !q.headersRead,
                      ThrowsAt, Closes, "", Ended(q), rest);
  }
}
