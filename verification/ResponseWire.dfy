/** A response survives the way over the wire, but for its reason phrase and the case of its header names. */
module ResponseWire {
  import opened Text
  import opened HttpBase
  import opened HttpResponse
  import opened Wire
  import Req = RequestWire

  // ---------- the status line ----------

  function Numbers(q: Response): string {
    "HTTP/" + ToString(q.major) + "." + ToString(q.minor) + " " + ToString(q.status) + " "
  }

  lemma PrintedStatus(q: Response, t: string)
    requires Here(t, 0, Numbers(q))
    ensures ScanStatus(t) == Status(Some(q.major), Some(q.minor), Some(q.status))
  {
    hide ScanInt, ToString, Here;
    var a, b, c := ToString(q.major), ToString(q.minor), ToString(q.status);
    var i, j := 5 + |a|, 6 + |a| + |b|;
    assert Numbers(q) == "HTTP/" + (a + ("." + (b + (" " + (c + " ")))));
    HereSplit(t, 0, "HTTP/", a + ("." + (b + (" " + (c + " ")))));
    HereSplit(t, 5, a, "." + (b + (" " + (c + " "))));
    HereSplit(t, i, ".", b + (" " + (c + " ")));
    HereSplit(t, i + 1, b, " " + (c + " "));
    HereSplit(t, j, " ", c + " ");
    HereSplit(t, j + 1, c, " ");
    HereFirst(t, i, ".");
    HereFirst(t, j, " ");
    HereFirst(t, j + 1 + |c|, " ");
    ScanPrinted(t, 5, q.major);
    ScanPrinted(t, i + 1, q.minor);
    ScanPrinted(t, j + 1, q.status);
    NumberStart(t, j + 1, q.status);
    SpanIs(t, j, IsSpace, j + 1);
  }

  lemma NumberStart(t: string, i: nat, n: int)
    requires Here(t, i, ToString(n))
    ensures i < |t| && !IsSpace(t[i])
  {
    var ds := Dec(if n < 0 then -n else n);
    assert IsDigit(ds[0]);
    HereFirst(t, i, ToString(n));
  }

  /** A printed status line scans. */
  lemma PrintedScans(q: Response)
    ensures ScanStatus(StartLine(q)).status.Some?
  {
    hide ScanStatus, ToString;
    assert StartLine(q) == Numbers(q) + (q.message + "\r\n");
    HereSlice(StartLine(q), 0, StartLine(q));
    assert StartLine(q)[0..|StartLine(q)|] == StartLine(q);
    HereSplit(StartLine(q), 0, Numbers(q), q.message + "\r\n");
    PrintedStatus(q, StartLine(q));
  }

  /** The text behind the last blank. */
  function LastWord(s: string): string {
    s[FindLast(s, ' ') + 1..]
  }

  lemma {:induction false} FindLastIs(s: string, c: char, k: nat)
    requires k < |s| && s[k] == c && forall x :: k < x < |s| ==> s[x] != c
    ensures FindLast(s, c) == k
    decreases |s|
  {
    if k < |s| - 1 {
      FindLastIs(s[..|s| - 1], c, k);
    }
  }

  lemma {:induction false} FindLastFinds(s: string, c: char) returns (k: int)
    ensures k == FindLast(s, c) && (forall x :: k < x < |s| ==> s[x] != c) && (k >= 0 ==> s[k] == c)
    decreases |s|
  {
    if |s| == 0 || s[|s| - 1] == c {
      k := |s| - 1;
    } else {
      k := FindLastFinds(s[..|s| - 1], c);
    }
  }

  /** Only the last word of the reason phrase is kept, and with a carriage return behind it. */
  lemma LastWordKept(numbers: string, m: string)
    requires numbers != "" && numbers[|numbers| - 1] == ' ' && NoLineFeed(m)
    ensures var t := numbers + m + "\r\n"; var p := FindLast(t, ' ');
            0 <= p && p + 2 <= |t| && Substr(t, p + 1, |t| - 2 - p) == LastWord(m) + "\r"
  {
    hide FindLast, NoLineFeed;
    LastBlank(numbers, m);
    Behind(numbers, m, FindLast(m, ' ') + 1);
  }

  /** The last blank of the line is the last one of the phrase, or the one in front of it. */
  lemma LastBlank(numbers: string, m: string)
    requires numbers != "" && numbers[|numbers| - 1] == ' '
    ensures -1 <= FindLast(m, ' ') < |m|
    ensures FindLast(numbers + m + "\r\n", ' ') == |numbers| + FindLast(m, ' ')
  {
    hide FindLast;
    var k := FindLastFinds(m, ' ');
    var t, n := numbers + m + "\r\n", |numbers|;
    forall x | n + k < x < |t| ensures t[x] != ' ' {
      AtBehind(numbers, m, x - n);
    }
    AtBehind(numbers, m, k);
    FindLastIs(t, ' ', n + k);
  }

  lemma AtBehind(numbers: string, m: string, i: int)
    requires numbers != "" && -1 <= i < |m| + 2
    ensures var c := (numbers + m + "\r\n")[|numbers| + i];
            c == if i < 0 then numbers[|numbers| - 1] else if i < |m| then m[i] else if i == |m| then '\r' else '\n'
  {
  }

  lemma Behind(numbers: string, m: string, j: nat)
    requires j <= |m|
    ensures (numbers + m + "\r\n")[|numbers| + j..|numbers| + |m| + 1] == m[j..] + "\r"
  {
    var word := (numbers + m + "\r\n")[|numbers| + j..|numbers| + |m| + 1];
    forall x | 0 <= x < |word| ensures word[x] == (m[j..] + "\r")[x] {
      assert word[x] == (numbers + m + "\r\n")[|numbers| + j + x];
    }
  }

  /** What reading a printed status line leaves. */
  function StatusRead(q0: Response, q: Response): Response {
    q0.(major := q.major, minor := q.minor, status := q.status, message := LastWord(q.message) + "\r",
        firstLineAdded := true)
  }

  lemma StartIsAdded(q0: Response, q: Response)
    requires NoLineFeed(q.message) && !q0.firstLineAdded
    ensures WithLine(q0, StartLine(q)) == Parsed(StatusRead(q0, q), NoFault)
    ensures NoLineFeed(StartLine(q)[..|StartLine(q)| - 1])
  {
    hide ScanStatus, FindLast, Substr, Find, ToString, LastWord;
    var t := StartLine(q);
    assert t == Numbers(q) + q.message + "\r\n";
    PrintedStatus(q, t);
    LastWordKept(Numbers(q), q.message);
    Req.NoLineFeedIn(q.major);
    Req.NoLineFeedIn(q.minor);
    Req.NoLineFeedIn(q.status);
    FindIs(t, '\n', 0, |t| - 1);
  }

  // ---------- the headers ----------

  predicate NameOk(name: string) {
    NoLineFeed(name) && name != "" && name[0] != '\r' && forall i :: 0 <= i < |name| ==> name[i] != ':'
  }

  predicate ValueOk(value: string) {
    NoLineFeed(value) && (value != "" ==> value[0] != ' ')
  }

  predicate HeadersOk(headers: map<string, string>) {
    forall k :: k in headers ==> NameOk(k) && ValueOk(headers[k])
  }

  lemma HeaderIsAdded(q: Response, name: string, value: string)
    requires NameOk(name) && ValueOk(value) && q.firstLineAdded && !q.headersRead
    ensures WithLine(q, HeaderLine(name, value))
            == Parsed(q.(headers := q.headers[ToLower(name) := value]), NoFault)
    ensures NoLineFeed(name + ": " + value + "\r")
  {
    hide Find, Span, ToLower;
    var t := HeaderLine(name, value);
    FindIs(t, ':', 0, |name|);
    FindIs(t, '\n', 0, |t| - 1);
    SpanIs(t, |name| + 1, IsSpaceChar, |name| + 2);
    assert Substr(t, 0, |name|) == name;
    assert Substr(t, |name| + 2, |value|) == value;
  }

  /** The headers are stored one after the other, under lower-case names. */
  function Stored(stored: map<string, string>, headers: map<string, string>, order: seq<string>): map<string, string>
    requires forall i :: 0 <= i < |order| ==> order[i] in headers
    decreases |order|
  {
    if order == [] then stored else Stored(stored[ToLower(order[0]) := headers[order[0]]], headers, order[1..])
  }

  lemma {:induction false} StreamHeaders(q: Response, headers: map<string, string>, order: seq<string>, rest: string)
    requires forall i :: 0 <= i < |order| ==> order[i] in headers
    requires HeadersOk(headers) && q.firstLineAdded && !q.headersRead
    ensures Feed(WithLine, "", q, HeaderLines(headers, order) + rest)
            == Feed(WithLine, "", q.(headers := Stored(q.headers, headers, order)), rest)
    decreases |order|
  {
    hide Feed, WithLine, NameOk, ValueOk;
    if order == [] {
      assert HeaderLines(headers, order) + rest == rest;
    } else {
      var k, v := order[0], headers[order[0]];
      var line, more := k + ": " + v + "\r", HeaderLines(headers, order[1..]) + rest;
      HeaderIsAdded(q, k, v);
      assert HeaderLines(headers, order) + rest == line + "\n" + more;
      assert "" + line + "\n" == HeaderLine(k, v);
      FeedLine(WithLine, "", q, line, more);
      StreamHeaders(q.(headers := q.headers[ToLower(k) := v]), headers, order[1..], rest);
    }
  }

  /** The header names differ even in lower case. */
  predicate NamesDistinct(headers: map<string, string>) {
    forall a, b :: a in headers && b in headers && ToLower(a) == ToLower(b) ==> a == b
  }

  /** The same headers under lower-case names. */
  predicate Lowered(headers: map<string, string>, lower: map<string, string>) {
    && (forall k :: k in headers ==> ToLower(k) in lower && lower[ToLower(k)] == headers[k])
    && (forall l :: l in lower ==> exists k :: k in headers && l == ToLower(k))
  }

  lemma {:induction false} StoredHolds(stored: map<string, string>, headers: map<string, string>, order: seq<string>,
                                       k: string)
    requires forall i :: 0 <= i < |order| ==> order[i] in headers
    requires NamesDistinct(headers) && k in headers
    requires k in order || (ToLower(k) in stored && stored[ToLower(k)] == headers[k])
    ensures var r := Stored(stored, headers, order); ToLower(k) in r && r[ToLower(k)] == headers[k]
    decreases |order|
  {
    hide ToLower;
    if order != [] {
      assert order == [order[0]] + order[1..];
      StoredHolds(stored[ToLower(order[0]) := headers[order[0]]], headers, order[1..], k);
    }
  }

  lemma {:induction false} StoredOnly(stored: map<string, string>, headers: map<string, string>, order: seq<string>)
    requires forall i :: 0 <= i < |order| ==> order[i] in headers
    requires forall l :: l in stored ==> exists k :: k in headers && l == ToLower(k)
    ensures forall l :: l in Stored(stored, headers, order) ==> exists k :: k in headers && l == ToLower(k)
    decreases |order|
  {
    hide ToLower;
    if order != [] {
      StoredOnly(stored[ToLower(order[0]) := headers[order[0]]], headers, order[1..]);
    }
  }

  lemma StoredIsLowered(headers: map<string, string>, order: seq<string>)
    requires Enumerates(order, headers) && NamesDistinct(headers)
    ensures Lowered(headers, Stored(map[], headers, order))
  {
    hide ToLower;
    forall k | k in headers
      ensures ToLower(k) in Stored(map[], headers, order) && Stored(map[], headers, order)[ToLower(k)] == headers[k]
    {
      StoredHolds(map[], headers, order, k);
    }
    StoredOnly(map[], headers, order);
  }

  // ---------- the round trip ----------

  /** The image of a response up to its blank line. */
  function Front(q: Response, order: seq<string>): string
    requires Enumerates(order, q.headers)
  {
    StartLine(q) + HeaderLines(q.headers, order)
  }

  lemma PrintedImage(q: Response, order: seq<string>)
    requires Enumerates(order, q.headers)
    ensures Printed(q, order) != "" && Image(Printed(q, order)) == Front(q, order) + ("\r" + "\n")
  {
    hide StartLine, HeaderLines;
  }

  /** What reading all but the blank line leaves, the status line having left `s`. */
  function Read(s: Response, q: Response, order: seq<string>): Response
    requires Enumerates(order, q.headers)
  {
    s.(headers := Stored(s.headers, q.headers, order))
  }

  /** The header is read behind `buffer`, whatever is left in it: the status line is what it makes of the two. */
  lemma FrontFrom(buffer: string, q0: Response, q: Response, order: seq<string>)
    requires NoLineFeed(q.message) && HeadersOk(q.headers) && Enumerates(order, q.headers)
    requires q0 == NewResponse(q0.major, q0.minor)
    ensures var r := WithFirstLine(q0, buffer + StartLine(q)); var f := Feed(WithLine, buffer, q0, Front(q, order));
            if r.fault == NoFault then f == Fed("", Read(r.q, q, order), NoFault, "")
            else f == Fed(buffer + StartLine(q), r.q, r.fault, HeaderLines(q.headers, order))
  {
    hide Feed, WithFirstLine, HeadersOk, StartLine, Stored, WithLine;
    StartIsAdded(q0, q);
    StartNotEmpty(q);
    var start, more := StartLine(q), HeaderLines(q.headers, order);
    var line := start[..|start| - 1];
    assert Front(q, order) == line + "\n" + more;
    assert buffer + line + "\n" == buffer + start;
    FeedLine(WithLine, buffer, q0, line, more);
    LongLine(q0, buffer + start);
    var r := WithFirstLine(q0, buffer + start);
    if r.fault == NoFault {
      FirstLineFlags(q0, buffer + start);
      assert more + "" == more;
      StreamHeaders(r.q, q.headers, order, "");
      FeedNoLine(WithLine, "", Read(r.q, q, order), "");
    }
  }

  lemma LongLine(q0: Response, line: string)
    requires |line| > 2 && !q0.firstLineAdded
    ensures WithLine(q0, line) == WithFirstLine(q0, line)
  {
    hide WithFirstLine;
  }

  lemma FirstLineFlags(q0: Response, line: string)
    requires WithFirstLine(q0, line).fault == NoFault
    ensures var r := WithFirstLine(q0, line).q;
            r.firstLineAdded && r.headersRead == q0.headersRead && r.ended == q0.ended && r.headers == q0.headers
  {
    hide Find, FindLast, ScanStatus, Substr;
  }

  /** The status line is read exactly if what is left in the buffer and it scan as one. */
  lemma StartScans(buffer: string, q0: Response, q: Response)
    requires NoLineFeed(q.message) && !q0.firstLineAdded
    ensures WithFirstLine(q0, buffer + StartLine(q)).fault == NoFault
            <==> ScanStatus(buffer + StartLine(q)).status.Some?
  {
    hide Find, FindLast, ScanStatus, Substr, StartLine;
    var t := buffer + StartLine(q);
    StartNotEmpty(q);
    BlankInStart(q);
    assert t[|t| - 1] == '\n';
    var lf := Req.FindFinds(t, '\n', 0);
    var k := FindLastFinds(t, ' ');
    var b :| 0 <= b < |StartLine(q)| && StartLine(q)[b] == ' ';
    assert t[|buffer| + b] == ' ';
  }

  lemma BlankInStart(q: Response)
    ensures exists b :: 0 <= b < |StartLine(q)| && StartLine(q)[b] == ' '
  {
    var b := |Numbers(q)| - 1;
    assert StartLine(q) == Numbers(q) + q.message + "\r\n";
    assert StartLine(q)[b] == ' ';
  }

  lemma ResponseLasts()
    ensures Lasts(WithLine, (q: Response) => q.ended)
  {
    hide Find, FindLast, ScanStatus, Span, Substr;
  }

  /** What `get_proxy_header` reads of a printed response if its buffer holds something already: nothing is thrown
      exactly if the buffer and the status line scan as one, and then the response is complete with the last byte and
      not before, with the numbers scanned and all header values under lower-case names. */
  lemma ResponseFromBuffer(buffer: string, q0: Response, q: Response, order: seq<string>)
    requires NoLineFeed(q.message) && HeadersOk(q.headers) && NamesDistinct(q.headers)
    requires Enumerates(order, q.headers) && q0 == NewResponse(q0.major, q0.minor)
    ensures var v, f := ScanStatus(buffer + StartLine(q)), Feed(WithLine, buffer, q0, Image(Printed(q, order)));
            && (f.fault == NoFault <==> v.status.Some?)
            && (f.fault == NoFault ==>
                  && Completes(WithLine, (r: Response) => r.ended, buffer, q0, Image(Printed(q, order)), f.q)
                  && f.q.firstLineAdded && !f.q.headersRead
                  && v == Status(Some(f.q.major), Some(f.q.minor), Some(f.q.status)) && Lowered(q.headers, f.q.headers))
  {
    hide Feed, WithLine, WithFirstLine, HeadersOk, NamesDistinct, StartLine, Lowered, Stored, ScanStatus, Lasts,
      Printed, Front;
    var front := Front(q, order);
    PrintedImage(q, order);
    FrontFrom(buffer, q0, q, order);
    StartScans(buffer, q0, q);
    FeedJoins(WithLine, buffer, q0, front, "\r" + "\n");
    var r := WithFirstLine(q0, buffer + StartLine(q));
    if r.fault == NoFault {
      var before := Read(r.q, q, order);
      FirstLineFlags(q0, buffer + StartLine(q));
      ReadsNumbers(q0, buffer + StartLine(q));
      StreamEnd(before);
      ResponseLasts();
      LastLineCompletes(WithLine, (r: Response) => r.ended, buffer, q0, front, "\r", before, before.(ended := true));
      StoredIsLowered(q.headers, order);
    }
  }

  lemma ReadsNumbers(q0: Response, line: string)
    requires WithFirstLine(q0, line).fault == NoFault
    ensures var r := WithFirstLine(q0, line).q; ScanStatus(line) == Status(Some(r.major), Some(r.minor), Some(r.status))
  {
    hide Find, FindLast, Substr, ScanInt;
  }

  /** Something that does not begin like a status line makes the reading throw, such as the body of a request. */
  lemma LeftoverThrows(buffer: string, q0: Response, q: Response, order: seq<string>)
    requires NoLineFeed(q.message) && HeadersOk(q.headers) && NamesDistinct(q.headers)
    requires Enumerates(order, q.headers) && q0 == NewResponse(q0.major, q0.minor)
    requires buffer != "" && buffer[0] != 'H'
    ensures Feed(WithLine, buffer, q0, Image(Printed(q, order))).fault != NoFault
  {
    hide Feed, WithLine, HeadersOk, NamesDistinct, StartLine, Lowered, Printed;
    ResponseFromBuffer(buffer, q0, q, order);
    assert (buffer + StartLine(q))[0] == buffer[0];
    if Here(buffer + StartLine(q), 0, "HTTP/") {
      HereFirst(buffer + StartLine(q), 0, "HTTP/");
    }
  }

  /** Any response whose header names differ in lower case too, printed in any header order and emitted by
      `send_header`, is read back from an empty buffer with its version, status and header values; of the reason
      phrase the last word is left. The end is recognised with the last byte and not before. */
  lemma ResponseCompletes(q0: Response, q: Response, order: seq<string>) returns (end: Response)
    requires NoLineFeed(q.message) && HeadersOk(q.headers) && NamesDistinct(q.headers)
    requires Enumerates(order, q.headers) && q0 == NewResponse(q0.major, q0.minor)
    ensures Completes(WithLine, (r: Response) => r.ended, "", q0, Image(Printed(q, order)), end)
    ensures end == StatusRead(q0, q).(headers := end.headers, ended := true) && Lowered(q.headers, end.headers)
  {
    hide Feed, WithLine, HeadersOk, NamesDistinct, StartLine, Lowered, Stored, ScanStatus, Lasts, Printed, Front,
      LastWord;
    var front := Front(q, order);
    PrintedImage(q, order);
    FrontFrom("", q0, q, order);
    StartIsAdded(q0, q);
    StartNotEmpty(q);
    LongLine(q0, StartLine(q));
    assert "" + StartLine(q) == StartLine(q);
    var before := Read(StatusRead(q0, q), q, order);
    end := before.(ended := true);
    StreamEnd(before);
    ResponseLasts();
    LastLineCompletes(WithLine, (r: Response) => r.ended, "", q0, front, "\r", before, end);
    StoredIsLowered(q.headers, order);
  }

  lemma StartNotEmpty(q: Response)
    ensures |StartLine(q)| > 2 && StartLine(q)[|StartLine(q)| - 1] == '\n'
  {
  }

  lemma StreamEnd(q: Response)
    ensures Feed(WithLine, "", q, "\r" + "\n") == Fed("", q.(ended := true), NoFault, "")
  {
    assert "\r" + "\n" == "\r" + "\n" + "";
    assert "" + "\r" + "\n" == "\r\n";
    FeedLine(WithLine, "", q, "\r", "");
  }

  // ---------- what follows the blank line ----------

  /** The reading loop reads on behind the blank line: what follows it is read as header lines of the response, or
      stays in the buffer. */
  lemma RestIsRead(buffer: string, q0: Response, q: Response, order: seq<string>, rest: string)
    requires NoLineFeed(q.message) && HeadersOk(q.headers) && NamesDistinct(q.headers)
    requires Enumerates(order, q.headers) && q0 == NewResponse(q0.major, q0.minor)
    requires ScanStatus(buffer + StartLine(q)).status.Some?
    ensures var end := Feed(WithLine, buffer, q0, Image(Printed(q, order))).q;
            var f := Feed(WithLine, buffer, q0, Image(Printed(q, order)) + rest);
            f == Feed(WithLine, "", end, rest) && end.ended && end.firstLineAdded && !end.headersRead && f.q.ended
  {
    hide Feed, WithLine, HeadersOk, NamesDistinct, StartLine, Lowered, ScanStatus, Printed, Lasts;
    PrintedImage(q, order);
    ResponseFromBuffer(buffer, q0, q, order);
    FeedJoins(WithLine, buffer, q0, Image(Printed(q, order)), rest);
    ResponseLasts();
    CompleteLasts(WithLine, (r: Response) => r.ended, "", Feed(WithLine, buffer, q0, Image(Printed(q, order))).q, rest);
  }

  /** A line of a body that has come with the header throws exactly if it has no colon and does not begin with a
      carriage return. */
  lemma BodyLineThrowsExactly(q: Response, line: string)
    requires q.firstLineAdded && !q.headersRead && NoLineFeed(line) && line != ""
    ensures Feed(WithLine, "", q, line + "\n").fault != NoFault <==> line[0] != '\r' && ':' !in line
  {
    hide Feed, Span, Substr;
    assert line + "\n" == line + "\n" + "" && "" + line + "\n" == line + "\n";
    FeedLine(WithLine, "", q, line, "");
    var t := line + "\n";
    FindIs(t, '\n', 0, |line|);
    var k := Req.FindFinds(t, ':', 0);
    if k < |t| {
      assert t[k] == ':' && line[k] == ':';
    } else {
      assert forall i :: 0 <= i < |line| ==> line[i] == t[i];
    }
    FeedNoLine(WithLine, "", WithLine(q, t).q, "");
  }

  /** Behind its first line a response ends with an empty line, and not otherwise. */
  lemma EndsExactly(q: Response, l: string)
    requires q.firstLineAdded && !q.ended && |l| >= 2 && l[|l| - 1] == '\n'
    ensures WithLine(q, l).q.ended <==> |l| == 2 && l[0] == '\r'
  {
    hide Find, Span, Substr;
  }

  /** A line that the reader of headers throws at, and one that makes it ignore all that follow. */
  predicate ThrowsAt(l: string) {
    l != "" && l[0] != '\n' && l[0] != '\r' && ':' !in l
  }

  predicate Closes(l: string) {
    (|l| > 2 && l[0] == '\r') || (l != "" && l[0] == '\n')
  }

  lemma LinesAreJudged()
    ensures Judged(WithLine, (q: Response) => q.firstLineAdded, (q: Response) => !q.headersRead,
                   ThrowsAt, Closes)
  {
    forall q: Response, l: string | q.firstLineAdded && IsLine(l)
      ensures var r := WithLine(q, l);
              && r.q.firstLineAdded
              && (if !q.headersRead then (r.fault != NoFault <==> ThrowsAt(l)) && (!r.q.headersRead <==> !Closes(l))
                  else r.fault == NoFault && r.q.headersRead)
    {
      LineIsJudged(q, l);
    }
  }

  lemma LineIsJudged(q: Response, l: string)
    requires q.firstLineAdded && IsLine(l)
    ensures var r := WithLine(q, l);
            && r.q.firstLineAdded
            && (if !q.headersRead then (r.fault != NoFault <==> ThrowsAt(l)) && (!r.q.headersRead <==> !Closes(l))
                else r.fault == NoFault && r.q.headersRead)
  {
    hide Find, Span, Substr, ToLower;
    var lf := Req.FindFinds(l, '\n', 0);
    var colon := Req.FindFinds(l, ':', 0);
  }

  /** What comes along behind the header throws exactly if one of its lines has no colon and begins with neither a
      carriage return nor a line feed, and none before it begins with one of the two without being an end. */
  lemma RestThrowsExactly(buffer: string, q0: Response, q: Response, order: seq<string>, rest: string)
    requires NoLineFeed(q.message) && HeadersOk(q.headers) && NamesDistinct(q.headers)
    requires Enumerates(order, q.headers) && q0 == NewResponse(q0.major, q0.minor)
    requires ScanStatus(buffer + StartLine(q)).status.Some?
    ensures Feed(WithLine, buffer, q0, Image(Printed(q, order)) + rest).fault != NoFault
            <==> ThrownAt(CutLines("", rest), ThrowsAt, Closes)
  {
    hide Feed, WithLine, HeadersOk, NamesDistinct, StartLine, ScanStatus, Printed, ThrownAt, CutLines, Judged;
    PrintedImage(q, order);
    RestIsRead(buffer, q0, q, order, rest);
    LinesAreJudged();
    FeedThrowsExactly(WithLine, (q: Response) => q.firstLineAdded, (q: Response) => !q.headersRead,
                      ThrowsAt, Closes, "",
                      Feed(WithLine, buffer, q0, Image(Printed(q, order))).q, rest);
  }
}
