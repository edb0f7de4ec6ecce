/** What is read of a request or a response written out in full (sections 3 and 3.2 of RFC 7230). */
module HttpTexts {
  import opened Text
  import opened HttpBase
  import opened Wire
  import Req = HttpRequest
  import Res = HttpResponse
  import RequestWire
  import ResponseWire

  /** A header with the blanks between colon and value. */
  datatype Header = Header(name: string, gap: string, value: string)

  predicate OnlyBlanks(s: string) {
    forall i :: 0 <= i < |s| ==> s[i] == ' '
  }

  function HeaderBlock(hs: seq<Header>): string
    decreases |hs|
  {
    if hs == [] then "" else hs[0].name + ":" + hs[0].gap + hs[0].value + "\r\n" + HeaderBlock(hs[1..])
  }

  /** A field name in any case, and a value. */
  predicate HeaderOk(h: Header) {
    && NoLineFeed(h.name) && h.name != "" && h.name[0] != '\r' && ':' !in h.name
    && OnlyBlanks(h.gap) && NoLineFeed(h.value) && (h.value != "" ==> h.value[0] != ' ')
  }

  predicate HeadersOk(hs: seq<Header>) {
    forall i :: 0 <= i < |hs| ==> HeaderOk(hs[i])
  }

  /** One header after the other is stored under its name in lower case; of a name the last one stays. A request lowers
      the values too. */
  function Kept(stored: map<string, string>, hs: seq<Header>, lowers: bool): map<string, string>
    decreases |hs|
  {
    if hs == [] then stored
    else Kept(stored[ToLower(hs[0].name) := if lowers then ToLower(hs[0].value) else hs[0].value], hs[1..], lowers)
  }

  // ---------- requests ----------

  function LineOf(h: Header): string {
    h.name + ":" + h.gap + h.value
  }

  function Texts(hs: seq<Header>): (ts: seq<string>)
    ensures |ts| == |hs|
  {
    if hs == [] then [] else [LineOf(hs[0])] + Texts(hs[1..])
  }

  lemma {:induction false} BlockIsLines(hs: seq<Header>)
    ensures HeaderBlock(hs) == RequestWire.Lines(Texts(hs))
    decreases |hs|
  {
    if hs != [] {
      BlockIsLines(hs[1..]);
      var ts := Texts(hs);
      assert ts[0] == LineOf(hs[0]) && ts[1..] == Texts(hs[1..]);
    }
  }

  lemma HeaderIsRead(q: Req.Request, h: Header)
    requires HeaderOk(h)
    ensures var t := LineOf(h);
            && RequestWire.HeaderShape(t)
            && Req.ParseHeader(q, t + "\r\n", 0, |t| + 1)
               == Parsed(q.(headers := q.headers[ToLower(h.name) := ToLower(h.value)]), NoFault)
  {
    hide Find, Span, ToLower;
    var t := LineOf(h);
    var line := t + "\r\n";
    FindIs(t, ':', 0, |h.name|);
    FindIs(line, ':', 0, |h.name|);
    var v := |h.name| + 1 + |h.gap|;
    forall k | |h.name| < k < v ensures line[k] == ' ' {
      assert line[k] == h.gap[k - |h.name| - 1];
    }
    assert line[v] == if h.value == "" then '\r' else h.value[0];
    SpanIs(line, |h.name| + 1, IsSpaceChar, v);
    assert Substr(line, 0, |h.name|) == h.name;
    assert Substr(line, v, |h.value|) == h.value;
  }

  lemma {:induction false} HeadersAreRead(q: Req.Request, hs: seq<Header>)
    requires HeadersOk(hs)
    ensures RequestWire.HeaderShapes(Texts(hs))
    ensures RequestWire.Stored(q, Texts(hs)) == q.(headers := Kept(q.headers, hs, true))
    decreases |hs|
  {
    hide RequestWire.HeaderShape, Req.ParseHeader, HeaderOk, ToLower, LineOf;
    if hs != [] {
      var h := hs[0];
      var q1 := q.(headers := q.headers[ToLower(h.name) := ToLower(h.value)]);
      HeaderIsRead(q, h);
      HeadersAreRead(q1, hs[1..]);
      var ts := Texts(hs);
      assert ts[0] == LineOf(h) && ts[1..] == Texts(hs[1..]);
      assert forall i :: 0 < i < |ts| ==> ts[i] == Texts(hs[1..])[i - 1];
    }
  }

  /** A request line with any number of blanks between its parts. */
  function RequestLine(verb: string, gap1: string, url: string, gap2: string, major: nat, minor: nat): string {
    verb + " " + gap1 + url + " " + gap2 + "HTTP/" + Dec(major) + "." + Dec(minor)
  }

  predicate LineOk(verb: string, gap1: string, url: string, gap2: string) {
    RequestWire.NoBlank(verb) && RequestWire.NoBlank(url) && url != "" && OnlyBlanks(gap1) && OnlyBlanks(gap2)
  }

  /** Where the parts stand in a text that begins with the line. */
  lemma PartsStand(t: string, verb: string, gap1: string, url: string, gap2: string, major: nat, minor: nat)
    returns (e: nat, u: nat, e2: nat, p: nat)
    requires LineOk(verb, gap1, url, gap2) && Here(t, 0, RequestLine(verb, gap1, url, gap2, major, minor))
    ensures e == |verb| && u == e + 1 + |gap1| && e2 == u + |url| && p == e2 + 1 + |gap2|
    ensures e < e2 < p <= |t| && t[e] == ' ' && t[e2] == ' '
    ensures Find(t, ' ', 0) == e && Span(t, e + 1, IsSpaceChar) == u && Find(t, ' ', u) == e2
    ensures Span(t, e2 + 1, IsSpaceChar) == p
    ensures Here(t, 0, verb) && Here(t, u, url) && Here(t, p, "HTTP/" + Dec(major) + "." + Dec(minor))
  {
    hide Find, Span, Here, Dec;
    var proto := "HTTP/" + Dec(major) + "." + Dec(minor);
    assert RequestLine(verb, gap1, url, gap2, major, minor)
           == verb + (" " + (gap1 + (url + (" " + (gap2 + proto)))));
    e := |verb|;
    u := e + 1 + |gap1|;
    e2 := u + |url|;
    p := e2 + 1 + |gap2|;
    HereSplit(t, 0, verb, " " + (gap1 + (url + (" " + (gap2 + proto)))));
    HereSplit(t, e, " ", gap1 + (url + (" " + (gap2 + proto))));
    HereSplit(t, e + 1, gap1, url + (" " + (gap2 + proto)));
    HereSplit(t, u, url, " " + (gap2 + proto));
    HereSplit(t, e2, " ", gap2 + proto);
    HereSplit(t, e2 + 1, gap2, proto);
    HereFirst(t, e, " ");
    HereFirst(t, u, url);
    HereFirst(t, e2, " ");
    HereFirst(t, p, proto);
    RequestWire.NoBlankHere(t, 0, verb);
    FindIs(t, ' ', 0, e);
    BlanksHere(t, e + 1, gap1);
    SpanIs(t, e + 1, IsSpaceChar, u);
    RequestWire.NoBlankHere(t, u, url);
    FindIs(t, ' ', u, e2);
    BlanksHere(t, e2 + 1, gap2);
    assert proto[0] == 'H';
    SpanIs(t, e2 + 1, IsSpaceChar, p);
  }

  lemma BlanksHere(t: string, i: nat, gap: string)
    requires OnlyBlanks(gap) && Here(t, i, gap)
    ensures i + |gap| <= |t| && forall k :: i <= k < i + |gap| ==> IsSpaceChar(t[k])
  {
    forall k | i <= k < i + |gap| ensures IsSpaceChar(t[k]) {
      assert t[i + (k - i)] == gap[k - i];
    }
  }

  lemma ProtocolIs(q: Req.Request, major: nat, minor: nat)
    requires q.major == major && q.minor == minor
    ensures RequestWire.Protocol(q) == "HTTP/" + Dec(major) + "." + Dec(minor)
  {
    hide Dec;
  }

  lemma RequestLineIsRead(q0: Req.Request, verb: string, gap1: string, url: string, gap2: string,
                          major: nat, minor: nat)
    requires LineOk(verb, gap1, url, gap2)
    ensures var first := RequestLine(verb, gap1, url, gap2, major, minor);
            Req.ParseStart(q0, first + "\r\n", |first| + 1)
            == Parsed(q0.(method_ := verb, url := url, major := major, minor := minor), NoFault)
  {
    hide Find, Span, ScanInt, Req.ScanVersion, Substr, Dec, Here, LineOk;
    var first := RequestLine(verb, gap1, url, gap2, major, minor);
    var t := first + "\r\n";
    HereFront(first, "\r\n");
    var e, u, e2, p := PartsStand(t, verb, gap1, url, gap2, major, minor);
    RequestWire.SubstrOf(t, 0, verb);
    RequestWire.SubstrOf(t, u, url);
    var q := q0.(major := major, minor := minor);
    ProtocolIs(q, major, minor);
    RequestWire.SubstrOf(t, p, RequestWire.Protocol(q));
    RequestWire.PrintedVersion(q);
    LineLength(verb, gap1, url, gap2, major, minor);
  }

  lemma HereFront(a: string, b: string)
    ensures Here(a + b, 0, a)
  {
  }

  lemma LineLength(verb: string, gap1: string, url: string, gap2: string, major: nat, minor: nat)
    ensures |RequestLine(verb, gap1, url, gap2, major, minor)|
            == |verb| + 1 + |gap1| + |url| + 1 + |gap2| + |"HTTP/" + Dec(major) + "." + Dec(minor)|
  {
    hide Dec;
  }

  lemma RequestLineShape(verb: string, gap1: string, url: string, gap2: string,
                          major: nat, minor: nat)
    requires LineOk(verb, gap1, url, gap2)
    ensures RequestWire.StartShape(RequestLine(verb, gap1, url, gap2, major, minor))
  {
    hide Find, Span, Here, Dec, LineOk;
    var first := RequestLine(verb, gap1, url, gap2, major, minor);
    HereFront(first, "");
    assert first + "" == first;
    var e, u, e2, p := PartsStand(first, verb, gap1, url, gap2, major, minor);
    NoLineFeeds(verb, gap1, url, gap2, major, minor);
  }

  lemma NoLineFeeds(verb: string, gap1: string, url: string, gap2: string,
                          major: nat, minor: nat)
    requires LineOk(verb, gap1, url, gap2)
    ensures NoLineFeed(RequestLine(verb, gap1, url, gap2, major, minor))
  {
    hide Dec;
    var a, b := Dec(major), Dec(minor);
    assert NoLineFeed(a) && NoLineFeed(b) by {
      assert forall i :: 0 <= i < |a| ==> IsDigit(a[i]);
      assert forall i :: 0 <= i < |b| ==> IsDigit(b[i]);
    }
    BothClean(verb, " ");
    BothClean(verb + " ", gap1);
    BothClean(verb + " " + gap1, url);
    BothClean(verb + " " + gap1 + url, " ");
    BothClean(verb + " " + gap1 + url + " ", gap2);
    BothClean(verb + " " + gap1 + url + " " + gap2, "HTTP/");
    BothClean(verb + " " + gap1 + url + " " + gap2 + "HTTP/", a);
    BothClean(verb + " " + gap1 + url + " " + gap2 + "HTTP/" + a, ".");
    BothClean(verb + " " + gap1 + url + " " + gap2 + "HTTP/" + a + ".", b);
  }

  lemma BothClean(a: string, b: string)
    requires NoLineFeed(a) && NoLineFeed(b)
    ensures NoLineFeed(a + b)
  {
  }

  /** A request written out, with any number of blanks between the parts of its first line and behind its colons, is
      read, line by line and in one go, with its method, URL, version and headers, and the line reader is done with
      its last byte. */
  lemma RequestTextIsRead(q0: Req.Request, verb: string, gap1: string, url: string, gap2: string,
                          major: nat, minor: nat, hs: seq<Header>)
    requires q0 == Req.NewRequest(q0.major, q0.minor)
    requires LineOk(verb, gap1, url, gap2) && HeadersOk(hs)
    ensures var text := verb + " " + gap1 + url + " " + gap2 + "HTTP/" + Dec(major) + "." + Dec(minor) + "\r\n"
                        + HeaderBlock(hs) + "\r\n";
            var read := Req.Request(verb, url, major, minor, Kept(map[], hs, true), true, false, true);
            && Feed(Req.WithLine, "", q0, text) == Fed("", read, NoFault, "")
            && var whole := Req.ParseMessage(q0, text);
               whole.fault == NoFault && RequestWire.SameMessage(whole.q, read)
  {
    hide Feed, Req.WithLine, Req.ParseStart, RequestWire.Stored, RequestWire.StartShape, RequestWire.HeaderShapes,
      RequestLine, HeaderBlock, Texts, Kept, Req.ParseMessage, HeadersOk, LineOk;
    var first, ts := RequestLine(verb, gap1, url, gap2, major, minor), Texts(hs);
    RequestLineShape(verb, gap1, url, gap2, major, minor);
    RequestLineIsRead(q0, verb, gap1, url, gap2, major, minor);
    var q1 := Req.Request(verb, url, major, minor, map[], true, false, false);
    HeadersAreRead(q1, hs);
    RequestWire.StartIsAdded(q0, first);
    RequestWire.StartFeed(first);
    var more := RequestWire.Lines(ts) + "\r\n";
    assert RequestWire.Message(first, ts) == (first + "\r") + "\n" + more;
    assert "" + (first + "\r") + "\n" == first + "\r\n";
    FeedLine(Req.WithLine, "", q0, first + "\r", more);
    RequestWire.StreamHeaders(q1, ts, "\r\n");
    RequestWire.StreamEnd(RequestWire.Stored(q1, ts), "\r");
    assert "\r" + "\n" == "\r\n";
    RequestWire.StreamingAgreesWithOneShot(q0, first, ts);
    TextIsMessage(verb, gap1, url, gap2, major, minor, hs);
  }

  lemma TextIsMessage(verb: string, gap1: string, url: string, gap2: string, major: nat, minor: nat, hs: seq<Header>)
    ensures verb + " " + gap1 + url + " " + gap2 + "HTTP/" + Dec(major) + "." + Dec(minor) + "\r\n" + HeaderBlock(hs)
            + "\r\n" == RequestWire.Message(RequestLine(verb, gap1, url, gap2, major, minor), Texts(hs))
  {
    hide HeaderBlock, Texts, Dec, RequestWire.Lines;
    BlockIsLines(hs);
  }

  /** A first line without a blank, or with none behind its second part, throws for want of a delimiter, having assigned
      the method if there is one blank; one whose third part is no version throws as unreadable, having assigned method
      and URL, and the first number of the version if that can be read. */
  lemma StartFaults(q0: Req.Request, verb: string, gap: string, url: string, rest: string, major: nat, tail: string)
    requires RequestWire.NoBlank(verb) && RequestWire.NoBlank(url) && url != "" && OnlyBlanks(gap)
    requires NoLineFeed(rest) && rest != "" && rest[0] != ' ' && rest[0] != 'H'
    ensures var t := verb + "\r\n"; Req.ParseStart(q0, t, |t| - 1) == Parsed(q0, DelimFault)
    ensures var t := verb + " " + gap + url + "\r\n";
            Req.ParseStart(q0, t, |t| - 1) == Parsed(q0.(method_ := verb), DelimFault)
    ensures var t := verb + " " + gap + url + " " + rest + "\r\n";
            Req.ParseStart(q0, t, |t| - 1) == Parsed(q0.(method_ := verb, url := url), ReadFault)
    ensures tail == "" || tail == "." || (!IsDigit(tail[0]) && tail[0] != '.') ==>
              var t := verb + " " + gap + url + " " + ("HTTP/" + (Dec(major) + tail)) + "\r\n";
              Req.ParseStart(q0, t, |t| - 1) == Parsed(q0.(method_ := verb, url := url, major := major), ReadFault)
  {
    hide Dec, Req.ParseStart;
    NoDelimiter(q0, verb);
    OneDelimiter(q0, verb, gap, url);
    NotAVersion(rest);
    ThirdPart(q0, verb, gap, url, rest);
    if tail == "" || tail == "." || (!IsDigit(tail[0]) && tail[0] != '.') {
      HalfAVersion(major, tail);
      ThirdPart(q0, verb, gap, url, "HTTP/" + (Dec(major) + tail));
    }
  }

  lemma HalfAVersion(major: nat, tail: string)
    requires tail == "" || tail == "." || (!IsDigit(tail[0]) && tail[0] != '.')
    ensures Req.ScanVersion("HTTP/" + (Dec(major) + tail)) == Req.Version(Some(major), None)
  {
    hide ScanInt, Dec, Here;
    var s := "HTTP/" + (Dec(major) + tail);
    var d := 5 + |Dec(major)|;
    WholeHere(s);
    HereSplit(s, 0, "HTTP/", Dec(major) + tail);
    HereSplit(s, 5, Dec(major), tail);
    if tail != "" {
      HereFirst(s, d, tail);
    }
    ScanPrinted(s, 5, major);
    if tail == "." {
      NothingToScan(s);
    }
  }

  lemma WholeHere(s: string)
    ensures Here(s, 0, s)
  {
  }

  lemma NothingToScan(s: string)
    ensures ScanInt(s, |s|) == None
  {
  }

  lemma NoDelimiter(q0: Req.Request, verb: string)
    requires RequestWire.NoBlank(verb)
    ensures var t := verb + "\r\n"; Req.ParseStart(q0, t, |t| - 1) == Parsed(q0, DelimFault)
  {
    var t := verb + "\r\n";
    FindIs(t, ' ', 0, |t|);
  }

  lemma OneDelimiter(q0: Req.Request, verb: string, gap: string, url: string)
    requires RequestWire.NoBlank(verb) && RequestWire.NoBlank(url) && url != "" && OnlyBlanks(gap)
    ensures var t := verb + " " + gap + url + "\r\n";
            Req.ParseStart(q0, t, |t| - 1) == Parsed(q0.(method_ := verb), DelimFault)
  {
    hide Find, Span, Substr, Here;
    var t := verb + " " + gap + url + "\r\n";
    var e, u := FrontStands(t, verb, gap, url, "\r\n");
    forall k | u <= k < |t| ensures t[k] != ' ' {
      if k < u + |url| {
        assert t[k] == url[k - u];
      }
    }
    FindIs(t, ' ', u, |t|);
    RequestWire.SubstrOf(t, 0, verb);
  }

  /** Method and URL stand at the front. */
  lemma FrontStands(t: string, verb: string, gap: string, url: string, rest: string) returns (e: nat, u: nat)
    requires RequestWire.NoBlank(verb) && RequestWire.NoBlank(url) && url != "" && OnlyBlanks(gap)
    requires t == verb + " " + gap + url + rest
    ensures e == |verb| < |t| && u == e + 1 + |gap| && u + |url| <= |t|
    ensures Find(t, ' ', 0) == e && Span(t, e + 1, IsSpaceChar) == u
    ensures Here(t, 0, verb) && Here(t, u, url) && Here(t, u + |url|, rest)
  {
    hide Find, Span, Here;
    e := |verb|;
    u := e + 1 + |gap|;
    assert t == verb + (" " + (gap + (url + rest)));
    HereAll(t);
    HereSplit(t, 0, verb, " " + (gap + (url + rest)));
    HereSplit(t, e, " ", gap + (url + rest));
    HereSplit(t, e + 1, gap, url + rest);
    HereSplit(t, u, url, rest);
    HereFirst(t, e, " ");
    HereFirst(t, u, url);
    RequestWire.NoBlankHere(t, 0, verb);
    RequestWire.NoBlankHere(t, u, url);
    FindIs(t, ' ', 0, e);
    BlanksHere(t, e + 1, gap);
    SpanIs(t, e + 1, IsSpaceChar, u);
  }

  lemma HereAll(t: string)
    ensures Here(t, 0, t)
  {
  }

  lemma ThirdPart(q0: Req.Request, verb: string, gap: string, url: string, rest: string)
    requires RequestWire.NoBlank(verb) && RequestWire.NoBlank(url) && url != "" && OnlyBlanks(gap)
    requires rest != "" && rest[0] != ' ' && Req.ScanVersion(rest).minor == None
    ensures var t := verb + " " + gap + url + " " + rest + "\r\n";
            Req.ParseStart(q0, t, |t| - 1)
            == Parsed(q0.(method_ := verb, url := url, major := Or(Req.ScanVersion(rest).major, q0.major)), ReadFault)
  {
    hide Find, Span, Here, Req.ScanVersion, Substr;
    var t := verb + " " + gap + url + " " + rest + "\r\n";
    var tail := " " + rest + "\r\n";
    assert t == verb + " " + gap + url + tail;
    var e, u := FrontStands(t, verb, gap, url, tail);
    var e2 := u + |url|;
    assert tail == " " + (rest + "\r\n");
    HereSplit(t, e2, " ", rest + "\r\n");
    HereSplit(t, e2 + 1, rest, "\r\n");
    HereFirst(t, e2, " ");
    HereFirst(t, e2 + 1, rest);
    RequestWire.NoBlankHere(t, u, url);
    FindIs(t, ' ', u, e2);
    SpanIs(t, e2 + 1, IsSpaceChar, e2 + 1);
    RequestWire.SubstrOf(t, 0, verb);
    RequestWire.SubstrOf(t, u, url);
    SubstrFront(t, e2 + 1, rest);
  }

  lemma SubstrFront(t: string, pos: nat, rest: string)
    requires Here(t, pos, rest) && |t| == pos + |rest| + 2
    ensures Substr(t, pos, |t| - 1 - 1 - pos) == rest
  {
    HereSlice(t, pos, rest);
  }

  lemma NotAVersion(s: string)
    requires s != "" && s[0] != 'H'
    ensures Req.ScanVersion(s) == Req.Version(None, None)
  {
    assert "HTTP/"[0] == 'H';
    if Here(s, 0, "HTTP/") {
      HereFirst(s, 0, "HTTP/");
    }
  }

  // ---------- responses ----------

  lemma ResponseHeaderIsRead(q: Res.Response, h: Header)
    requires HeaderOk(h) && q.firstLineAdded && !q.headersRead
    ensures Res.WithLine(q, LineOf(h) + "\r\n")
            == Parsed(q.(headers := q.headers[ToLower(h.name) := h.value]), NoFault)
    ensures NoLineFeed(LineOf(h) + "\r")
  {
    hide Find, Span, ToLower;
    var line := LineOf(h) + "\r\n";
    var v := |h.name| + 1 + |h.gap|;
    FindIs(line, ':', 0, |h.name|);
    FindIs(line, '\n', 0, |line| - 1);
    forall k | |h.name| < k < v ensures line[k] == ' ' {
      assert line[k] == h.gap[k - |h.name| - 1];
    }
    assert line[v] == if h.value == "" then '\r' else h.value[0];
    SpanIs(line, |h.name| + 1, IsSpaceChar, v);
    assert Substr(line, 0, |h.name|) == h.name;
    assert Substr(line, v, |h.value|) == h.value;
  }

  lemma {:induction false} ResponseHeadersAreRead(q: Res.Response, hs: seq<Header>, rest: string)
    requires HeadersOk(hs) && q.firstLineAdded && !q.headersRead
    ensures Feed(Res.WithLine, "", q, HeaderBlock(hs) + rest)
            == Feed(Res.WithLine, "", q.(headers := Kept(q.headers, hs, false)), rest)
    decreases |hs|
  {
    hide Feed, Res.WithLine, ToLower;
    if hs == [] {
      assert HeaderBlock(hs) + rest == rest;
    } else {
      var h := hs[0];
      assert HeaderOk(h);
      var line, more := LineOf(h) + "\r", HeaderBlock(hs[1..]) + rest;
      ResponseHeaderIsRead(q, h);
      assert HeaderBlock(hs) + rest == line + "\n" + more;
      assert "" + line + "\n" == LineOf(h) + "\r\n";
      FeedLine(Res.WithLine, "", q, line, more);
      ResponseHeadersAreRead(q.(headers := q.headers[ToLower(h.name) := h.value]), hs[1..], rest);
    }
  }

  /** A response written out is read with its version, its status and its headers, and of its phrase the part behind the
      last blank, with the carriage return that follows it. */
  lemma ResponseTextIsRead(q0: Res.Response, major: nat, minor: nat, status: nat, front: string, word: string,
                           hs: seq<Header>)
    requires q0 == Res.NewResponse(q0.major, q0.minor) && HeadersOk(hs)
    requires NoLineFeed(front) && NoLineFeed(word) && ' ' !in word
    requires front == "" || front[|front| - 1] == ' '
    ensures var text := "HTTP/" + Dec(major) + "." + Dec(minor) + " " + Dec(status) + " " + front + word + "\r\n"
                        + HeaderBlock(hs) + "\r\n";
            Feed(Res.WithLine, "", q0, text)
            == Fed("", Res.Response(major, minor, status, word + "\r", Kept(map[], hs, false), true, false, true),
                   NoFault, "")
  {
    hide Feed, Res.WithLine, HeaderBlock, Kept, HeadersOk, ResponseWire.LastWord, Res.StartLine, FindLast, Dec,
      NoLineFeed;
    var q := Res.Response(major, minor, status, front + word, map[], false, false, false);
    BothClean(front, word);
    WordBehind(front, word);
    var q1 := ResponseWire.StatusRead(q0, q);
    StartIsFed(q0, q, HeaderBlock(hs) + ("\r" + "\n"));
    StatusLineIs(q, major, minor, status, front, word);
    assert "HTTP/" + Dec(major) + "." + Dec(minor) + " " + Dec(status) + " " + front + word + "\r\n" + HeaderBlock(hs)
           + "\r\n" == Res.StartLine(q) + (HeaderBlock(hs) + ("\r" + "\n"));
    ResponseHeadersAreRead(q1, hs, "\r" + "\n");
    ResponseWire.StreamEnd(q1.(headers := Kept(q1.headers, hs, false)));
  }

  lemma StartIsFed(q0: Res.Response, q: Res.Response, more: string)
    requires NoLineFeed(q.message) && !q0.firstLineAdded
    ensures Feed(Res.WithLine, "", q0, Res.StartLine(q) + more)
            == Feed(Res.WithLine, "", ResponseWire.StatusRead(q0, q), more)
  {
    hide Feed, Res.WithLine, Res.StartLine, ResponseWire.StatusRead;
    var start := Res.StartLine(q);
    ResponseWire.StartNotEmpty(q);
    var line := start[..|start| - 1];
    ResponseWire.StartIsAdded(q0, q);
    assert "" + line + "\n" == start;
    FeedLine(Res.WithLine, "", q0, line, more);
    assert start + more == line + "\n" + more;
  }

  lemma StatusLineIs(q: Res.Response, major: nat, minor: nat, status: nat, front: string, word: string)
    requires q.major == major && q.minor == minor && q.status == status && q.message == front + word
    ensures Res.StartLine(q)
            == "HTTP/" + Dec(major) + "." + Dec(minor) + " " + Dec(status) + " " + front + word + "\r\n"
  {
    hide Dec;
    assert " " + (front + word) + "\r\n" == " " + front + word + "\r\n";
  }

  lemma WordBehind(front: string, word: string)
    requires ' ' !in word && (front == "" || front[|front| - 1] == ' ')
    ensures ResponseWire.LastWord(front + word) == word
  {
    hide FindLast;
    var s := front + word;
    if front == "" {
      var k := ResponseWire.FindLastFinds(s, ' ');
      assert s == word && k == -1;
    } else {
      assert s[|front| - 1] == ' ';
      forall x | |front| - 1 < x < |s| ensures s[x] != ' ' {
        assert s[x] == word[x - |front|];
      }
      ResponseWire.FindLastIs(s, ' ', |front| - 1);
    }
  }

  // ---------- status lines that throw ----------

  lemma {:induction false} FindHits(s: string, c: char, i: nat, j: nat)
    requires i <= j < |s| && s[j] == c
    ensures Find(s, c, i) <= j
    decreases j - i
  {
    if s[i] != c {
      FindHits(s, c, i + 1, j);
    }
  }

  /** What is scanned of a status line that breaks off behind its first number, behind the dot, or behind the second
      number, and of one whose version and status are not set apart by a blank. */
  lemma BrokenStatus(major: nat, minor: nat, status: nat)
    ensures Res.ScanStatus("HTTP/" + (Dec(major) + "\r\n")) == Res.Status(Some(major), None, None)
    ensures Res.ScanStatus("HTTP/" + (Dec(major) + ("." + "\r\n"))) == Res.Status(Some(major), None, None)
    ensures Res.ScanStatus("HTTP/" + (Dec(major) + ("." + (Dec(minor) + "\r\n"))))
            == Res.Status(Some(major), Some(minor), None)
    ensures Res.ScanStatus("HTTP/" + (Dec(major) + ("." + (Dec(minor) + ("\t" + (Dec(status) + "\r\n"))))))
            == Res.Status(Some(major), Some(minor), Some(status))
  {
    hide ScanInt, Dec, Here, Span, Res.ScanStatus;
    BehindMajor(major, "\r\n");
    BehindMajor(major, "." + "\r\n");
    BehindMinor(major, minor, "\r\n");
    BehindMinor(major, minor, "\t" + (Dec(status) + "\r\n"));
    TabbedStatus(major, minor, status);
  }

  lemma LineEnds(s: string, i: nat)
    requires Here(s, i, "\r\n") && |s| == i + 2
    ensures ScanInt(s, i) == None && !IsDigit(s[i]) && s[i] == '\r' && Span(s, i, IsSpace) == |s|
    ensures ScanInt(s, |s|) == None
  {
    assert "\r" + "\n" == "\r\n";
    HereSplit(s, i, "\r", "\n");
    HereFirst(s, i, "\r");
    HereFirst(s, i + 1, "\n");
    SpanIs(s, i, IsSpace, |s|);
  }

  /** Where the first number of a version ends. */
  lemma MajorScanned(s: string, major: nat, tail: string) returns (d: nat)
    requires s == "HTTP/" + (Dec(major) + tail) && tail != "" && !IsDigit(tail[0])
    ensures Here(s, 0, "HTTP/") && d <= |s| && ScanInt(s, 5) == Some(Scanned(major, d)) && Here(s, d, tail)
    ensures d == 5 + |Dec(major)| && d + |tail| == |s| && s[d] == tail[0]
  {
    hide ScanInt, Dec, Here;
    d := 5 + |Dec(major)|;
    WholeHere(s);
    HereSplit(s, 0, "HTTP/", Dec(major) + tail);
    HereSplit(s, 5, Dec(major), tail);
    HereFirst(s, d, tail);
    ScanPrinted(s, 5, major);
  }

  lemma BehindMajor(major: nat, tail: string)
    requires tail == "\r\n" || tail == "." + "\r\n"
    ensures Res.ScanStatus("HTTP/" + (Dec(major) + tail)) == Res.Status(Some(major), None, None)
  {
    hide ScanInt, Dec, Here, Span;
    var s := "HTTP/" + (Dec(major) + tail);
    var d := MajorScanned(s, major, tail);
    if tail != "\r\n" {
      HereSplit(s, d, ".", "\r\n");
      LineEnds(s, d + 1);
    }
  }

  function NumberAt(s: string, i: nat): Option<int>
    requires i <= |s|
  {
    if ScanInt(s, i) == None then None else Some(ScanInt(s, i).value.value)
  }

  lemma ThirdNumber(s: string, major: nat, d: nat, minor: nat, e: nat)
    requires Here(s, 0, "HTTP/") && ScanInt(s, 5) == Some(Scanned(major, d)) && d < |s| && s[d] == '.'
    requires ScanInt(s, d + 1) == Some(Scanned(minor, e)) && e <= |s|
    ensures Res.ScanStatus(s) == Res.Status(Some(major), Some(minor), NumberAt(s, Span(s, e, IsSpace)))
  {
    hide ScanInt, Here, Span;
  }

  lemma BehindMinor(major: nat, minor: nat, tail: string)
    requires tail != "" && !IsDigit(tail[0])
    ensures var s := "HTTP/" + (Dec(major) + ("." + (Dec(minor) + tail)));
            var e := 5 + |Dec(major)| + 1 + |Dec(minor)|;
            && Here(s, e, tail) && |s| == e + |tail|
            && (tail == "\r\n" ==> ScanInt(s, Span(s, e, IsSpace)) == None)
            && Res.ScanStatus(s) == Res.Status(Some(major), Some(minor), NumberAt(s, Span(s, e, IsSpace)))
  {
    hide ScanInt, Dec, Here, Span, Res.ScanStatus, NumberAt;
    var rest := "." + (Dec(minor) + tail);
    var s := "HTTP/" + (Dec(major) + rest);
    var d := MajorScanned(s, major, rest);
    HereSplit(s, d, ".", Dec(minor) + tail);
    HereSplit(s, d + 1, Dec(minor), tail);
    var e := d + 1 + |Dec(minor)|;
    HereFirst(s, e, tail);
    ScanPrinted(s, d + 1, minor);
    ThirdNumber(s, major, d, minor, e);
    if tail == "\r\n" {
      LineEnds(s, e);
    }
  }

  lemma TabbedStatus(major: nat, minor: nat, status: nat)
    ensures Res.ScanStatus("HTTP/" + (Dec(major) + ("." + (Dec(minor) + ("\t" + (Dec(status) + "\r\n"))))))
            == Res.Status(Some(major), Some(minor), Some(status))
  {
    hide ScanInt, Dec, Here, Span, Res.ScanStatus, NumberAt;
    var tail := "\t" + (Dec(status) + "\r\n");
    BehindMinor(major, minor, tail);
    BehindTab("HTTP/" + (Dec(major) + ("." + (Dec(minor) + tail))), 5 + |Dec(major)| + 1 + |Dec(minor)|, status);
  }

  lemma BehindTab(s: string, e: nat, status: nat)
    requires Here(s, e, "\t" + (Dec(status) + "\r\n")) && e <= |s|
    ensures NumberAt(s, Span(s, e, IsSpace)) == Some(status)
  {
    hide ScanInt, Dec, Here, Span;
    HereSplit(s, e, "\t", Dec(status) + "\r\n");
    HereSplit(s, e + 1, Dec(status), "\r\n");
    HereFirst(s, e, "\t");
    HereFirst(s, e + 1 + |Dec(status)|, "\r\n");
    DigitsHere(s, e + 1, Dec(status));
    SpanIs(s, e, IsSpace, e + 1);
    ScanPrinted(s, e + 1, status);
  }

  /** A status line without a line feed throws for want of it, and one that is no status line, or breaks off, as
      unreadable, having assigned the numbers in front of the break. One that is complete but has no blank throws for
      want of that, having assigned all three. */
  lemma StatusFaults(q0: Res.Response, line: string, rest: string, major: nat, minor: nat, status: nat)
    ensures NoLineFeed(line) ==> Res.WithFirstLine(q0, line) == Parsed(q0, DelimFault)
    ensures rest != "" && rest[0] != 'H' ==> Res.WithFirstLine(q0, rest + "\n") == Parsed(q0, ReadFault)
    ensures var q1 := q0.(major := major);
            && Res.WithFirstLine(q0, "HTTP/" + (Dec(major) + "\r\n")) == Parsed(q1, ReadFault)
            && Res.WithFirstLine(q0, "HTTP/" + (Dec(major) + ("." + "\r\n"))) == Parsed(q1, ReadFault)
    ensures var q2 := q0.(major := major, minor := minor);
            && Res.WithFirstLine(q0, "HTTP/" + (Dec(major) + ("." + (Dec(minor) + "\r\n")))) == Parsed(q2, ReadFault)
            && Res.WithFirstLine(q0, "HTTP/" + (Dec(major) + ("." + (Dec(minor) + ("\t" + (Dec(status) + "\r\n"))))))
               == Parsed(q2.(status := status), DelimFault)
  {
    hide ScanInt, Dec, Here, Span, Res.ScanStatus, Find, FindLast;
    if NoLineFeed(line) {
      FindIs(line, '\n', 0, |line|);
    }
    if rest != "" && rest[0] != 'H' {
      NoStatus(rest + "\n");
      FindHits(rest + "\n", '\n', 0, |rest|);
    }
    BrokenStatus(major, minor, status);
    EndsInLineFeed("HTTP/", Dec(major), "\r\n");
    EndsInLineFeed("HTTP/", Dec(major), "." + "\r\n");
    EndsInLineFeed("HTTP/", Dec(major), "." + (Dec(minor) + "\r\n"));
    var whole := Dec(minor) + ("\t" + (Dec(status) + "\r\n"));
    EndsInLineFeed("HTTP/", Dec(major), "." + whole);
    NoBlankAnywhere(major, minor, status);
  }

  lemma NoStatus(s: string)
    requires s != "" && s[0] != 'H'
    ensures Res.ScanStatus(s) == Res.Status(None, None, None)
  {
    assert "HTTP/"[0] == 'H';
    if Here(s, 0, "HTTP/") {
      HereFirst(s, 0, "HTTP/");
    }
  }

  lemma EndsInLineFeed(a: string, b: string, c: string)
    requires c != "" && c[|c| - 1] == '\n'
    ensures var s := a + (b + c); Find(s, '\n', 0) < |s|
  {
    hide Find;
    var s := a + (b + c);
    FindHits(s, '\n', 0, |s| - 1);
  }

  lemma NoBlankAnywhere(major: nat, minor: nat, status: nat)
    ensures FindLast("HTTP/" + (Dec(major) + ("." + (Dec(minor) + ("\t" + (Dec(status) + "\r\n"))))), ' ') == -1
  {
    hide FindLast, Dec;
    var a, b, c := Dec(major), Dec(minor), Dec(status);
    var s := "HTTP/" + (a + ("." + (b + ("\t" + (c + "\r\n")))));
    assert ' ' !in a && ' ' !in b && ' ' !in c;
    assert ' ' !in s;
    var k := ResponseWire.FindLastFinds(s, ' ');
  }
}
