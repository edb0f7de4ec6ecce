/** The HTTP request: its two parsers, one over a whole message and one line by line, and its printer. */
module HttpRequest {
  import opened Text
  import opened HttpBase

  datatype Request = Request(method_: string, url: string, major: int, minor: int, headers: map<string, string>,
                             firstLineAdded: bool, headersRead: bool, ended: bool)

  /** A default-constructed request, whose version fields are not initialised. */
  function NewRequest(major: int, minor: int): Request {
    Request("", "", major, minor, map[], false, false, false)
  }

  /** What `sscanf(s, "HTTP/%d.%d", …)` assigns. */
  datatype Version = Version(major: Option<int>, minor: Option<int>)

  function ScanVersion(s: string): (v: Version)
    ensures v.minor.Some? ==> v.major.Some?
  {
    if !Here(s, 0, "HTTP/") then Version(None, None)
    else
      match ScanInt(s, 5)
      case None => Version(None, None)
      case Some(a) =>
        if a.next < |s| && s[a.next] == '.' then
          match ScanInt(s, a.next + 1)
          case None => Version(Some(a.value), None)
          case Some(b) => Version(Some(a.value), Some(b.value))
        else Version(Some(a.value), None)
  }

  // ---------- the parsers as functions ----------

  /** The request line that ends at the line feed at `lf`. */
  function ParseStart(q: Request, s: string, lf: nat): Parsed<Request>
    requires lf < |s|
  {
    var e := Find(s, ' ', 0);
    if e == |s| then Parsed(q, DelimFault)
    else
      var q1 := q.(method_ := Substr(s, 0, e));
      var u := Span(s, e + 1, IsSpaceChar);
      var e2 := Find(s, ' ', u);
      if e2 == |s| then Parsed(q1, DelimFault)
      else
        var q2 := q1.(url := Substr(s, u, e2 - u));
        var p := Span(s, e2 + 1, IsSpaceChar);
        var v := ScanVersion(Substr(s, p, lf - 1 - p));
        Parsed(q2.(major := Or(v.major, q2.major), minor := Or(v.minor, q2.minor)),
               if v.minor.Some? then NoFault else ReadFault)
  }

  /** The header that starts at `i` and ends at the line feed at `lf`. */
  function ParseHeader(q: Request, s: string, i: nat, lf: nat): Parsed<Request>
    requires i <= lf < |s|
  {
    var colon := Find(s, ':', i);
    if colon == |s| then Parsed(q, DelimFault)
    else
      var v := Span(s, colon + 1, IsSpaceChar);
      Parsed(q.(headers := q.headers[ToLower(Substr(s, i, colon - i)) := ToLower(Substr(s, v, lf - 1 - v))]), NoFault)
  }

  function WithFirstLine(q: Request, line: string): Parsed<Request> {
    var lf := Find(line, '\n', 0);
    if lf == |line| then Parsed(q, DelimFault)
    else
      var r := ParseStart(q, line, lf);
      if r.fault == NoFault then Parsed(r.q.(firstLineAdded := true), NoFault) else r
  }

  function WithHeader(q: Request, line: string): Parsed<Request> {
    var lf := Find(line, '\n', 0);
    if lf == |line| then Parsed(q, DelimFault)
    else if lf == 0 || line[0] == '\r' then Parsed(q.(headersRead := true), NoFault)
    else ParseHeader(q, line, 0, lf)
  }

  /** A line of two or three characters with a carriage return among the first two. */
  predicate EndsRequest(line: string) {
    (|line| == 2 || |line| == 3) && (line[0] == '\r' || line[1] == '\r')
  }

  function WithLine(q: Request, line: string): Parsed<Request> {
    if EndsRequest(line) then Parsed(q.(ended := true), NoFault)
    else if !q.firstLineAdded then WithFirstLine(q, line)
    else if !q.headersRead then WithHeader(q, line)
    else Parsed(q.(ended := true), NoFault)
  }

  /** The header loop of the constructor, from position `i` on. */
  function ParseHeaders(q: Request, s: string, i: nat): Parsed<Request>
    requires i <= |s|
    decreases |s| - i
  {
    var lf := Find(s, '\n', i);
    if lf == |s| || lf == i || s[i] == '\r' then Parsed(q, NoFault)
    else
      var r := ParseHeader(q, s, i, lf);
      if r.fault == NoFault then ParseHeaders(r.q, s, lf + 1) else r
  }

  /** The constructor that takes a whole message. */
  function ParseMessage(q: Request, s: string): Parsed<Request> {
    var lf := Find(s, '\n', 0);
    if lf == |s| then Parsed(q, DelimFault)
    else
      var r := ParseStart(q, s, lf);
      if r.fault == NoFault then ParseHeaders(r.q, s, lf + 1) else r
  }

  // ---------- the printer as a function ----------

  function StartLine(q: Request): string {
    q.method_ + " " + q.url + " HTTP/" + ToString(q.major) + "." + ToString(q.minor) + "\r\n"
  }

  function Printed(q: Request, order: seq<string>): string
    requires Enumerates(order, q.headers)
  {
    StartLine(q) + HeaderLines(q.headers, order) + "\r\n"
  }

  // ---------- the class ----------

  class HttpRequest {
    var method_: string
    var url: string
    var versionMajor: int
    var versionMinor: int
    var headers: map<string, string>
    var firstLineAdded: bool
    var headersRead: bool
    var requestEnded: bool

    function View(): Request
      reads this
    {
      Request(method_, url, versionMajor, versionMinor, headers, firstLineAdded, headersRead, requestEnded)
    }

    constructor ()
      ensures View() == NewRequest(versionMajor, versionMinor)
    {
      method_, url, headers := "", "", map[];
      firstLineAdded, headersRead, requestEnded := false, false, false;
    }

    method AddLine(line: string) returns (fault: Fault)
      modifies this
      ensures Parsed(View(), fault) == WithLine(old(View()), line)
    {
      hide WithFirstLine, WithHeader;
      fault := NoFault;
      if (|line| == 2 || |line| == 3) && (line[0] == '\r' || line[1] == '\r') {
        requestEnded := true;
      } else if !firstLineAdded {
        fault := AddFirstLine(line);
      } else if !headersRead {
        fault := AddHeader(line);
      } else {
        requestEnded := true;
      }
    }

    /** The request line, which the constructor and `add_first_line` read alike. */
    method ReadStart(s: string, lf: nat) returns (fault: Fault)
      requires lf < |s|
      modifies this
      ensures Parsed(View(), fault) == ParseStart(old(View()), s, lf)
    {
      hide Find, Span, ScanVersion, Substr;
      var endPos := Find(s, ' ', 0);
      if endPos == |s| {
        return DelimFault;
      }
      method_ := Substr(s, 0, endPos);
      var startPos := SkipWhile(s, endPos + 1, IsSpaceChar);
      endPos := Find(s, ' ', startPos);
      if endPos == |s| {
        return DelimFault;
      }
      url := Substr(s, startPos, endPos - startPos);
      startPos := SkipWhile(s, endPos + 1, IsSpaceChar);
      var v := ScanVersion(Substr(s, startPos, lf - 1 - startPos));
      versionMajor, versionMinor := Or(v.major, versionMajor), Or(v.minor, versionMinor);
      fault := if v.minor.Some? then NoFault else ReadFault;
    }

    method AddFirstLine(line: string) returns (fault: Fault)
      modifies this
      ensures Parsed(View(), fault) == WithFirstLine(old(View()), line)
    {
      hide Find, ParseStart, ParseHeader;
      var lfPos := Find(line, '\n', 0);
      if lfPos == |line| {
        return DelimFault;
      }
      fault := ReadStart(line, lfPos);
      if fault == NoFault {
        firstLineAdded := true;
      }
    }

    /** One header, which the constructor and `add_header` read alike. */
    method ReadHeader(s: string, startPos: nat, lf: nat) returns (fault: Fault)
      requires startPos <= lf < |s|
      modifies `headers
      ensures Parsed(View(), fault) == ParseHeader(old(View()), s, startPos, lf)
    {
      hide Find, Span, Substr;
      var colonPos := Find(s, ':', startPos);
      if colonPos == |s| {
        return DelimFault;
      }
      var headerName := ToLower(Substr(s, startPos, colonPos - startPos));
      var valuePos := SkipWhile(s, colonPos + 1, IsSpaceChar);
      var headerValue := ToLower(Substr(s, valuePos, lf - 1 - valuePos));
      headers := headers[headerName := headerValue];
      fault := NoFault;
    }

    method AddHeader(line: string) returns (fault: Fault)
      modifies this
      ensures Parsed(View(), fault) == WithHeader(old(View()), line)
    {
      hide Find, ParseStart, ParseHeader;
      var lfPos := Find(line, '\n', 0);
      if lfPos == |line| {
        return DelimFault;
      }
      fault := NoFault;
      if lfPos == 0 || line[0] == '\r' {
        headersRead := true;
      } else {
        fault := ReadHeader(line, 0, lfPos);
      }
    }

    /** The constructor that parses a whole message, run on a new object. */
    method Init(str: string) returns (fault: Fault)
      modifies this
      ensures Parsed(View(), fault) == ParseMessage(old(View()), str)
    {
      hide Find, ParseStart, ParseHeader;
      var lfPos := Find(str, '\n', 0);
      if lfPos == |str| {
        return DelimFault;
      }
      fault := ReadStart(str, lfPos);
      if fault != NoFault {
        return;
      }
      var startPos := lfPos + 1;
      while true
        invariant startPos <= |str| && fault == NoFault
        invariant ParseMessage(old(View()), str) == ParseHeaders(View(), str, startPos)
        decreases |str| - startPos
      {
        lfPos := Find(str, '\n', startPos);
        if lfPos == |str| || lfPos == startPos || str[startPos] == '\r' {
          break;
        }
        fault := ReadHeader(str, startPos, lfPos);
        if fault != NoFault {
          return;
        }
        startPos := lfPos + 1;
      }
    }

    method GetString(order: seq<string>) returns (str: string)
      requires Enumerates(order, headers)
      ensures str == Printed(View(), order)
    {
      hide HeaderLines, ToString;
      str := method_ + " " + url + " HTTP/" + ToString(versionMajor) + "." + ToString(versionMinor) + "\r\n";
      ghost var start := str;
      assert order[0..] == order;
      for i := 0 to |order|
        invariant start + HeaderLines(headers, order) == str + HeaderLines(headers, order[i..])
      {
        HeaderLinesFrom(headers, order, i);
        str := str + order[i] + ": " + headers[order[i]] + "\r\n";
      }
      NoHeaderLines(headers, order[|order|..]);
      str := str + "\r\n";
    }
  }
}
