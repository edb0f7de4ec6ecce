/** The HTTP response: its parser, line by line, and its printer. */
module HttpResponse {
  import opened Text
  import opened HttpBase

  datatype Response = Response(major: int, minor: int, status: int, message: string, headers: map<string, string>,
                               firstLineAdded: bool, headersRead: bool, ended: bool)

  /** A default-constructed response, whose version fields are not initialised. */
  function NewResponse(major: int, minor: int): Response {
    Response(major, minor, 0, "", map[], false, false, false)
  }

  // ---------- the parser as functions ----------

  /** What `sscanf(s, "HTTP/%d.%d %d", …)` assigns. */
  datatype Status = Status(major: Option<int>, minor: Option<int>, status: Option<int>)

  function ScanStatus(s: string): Status {
    if !Here(s, 0, "HTTP/") then Status(None, None, None)
    else
      match ScanInt(s, 5)
      case None => Status(None, None, None)
      case Some(a) =>
        if !(a.next < |s| && s[a.next] == '.') then Status(Some(a.value), None, None)
        else
          match ScanInt(s, a.next + 1)
          case None => Status(Some(a.value), None, None)
          case Some(b) =>
            match ScanInt(s, Span(s, b.next, IsSpace))
            case None => Status(Some(a.value), Some(b.value), None)
            case Some(c) => Status(Some(a.value), Some(b.value), Some(c.value))
  }

  function WithFirstLine(q: Response, line: string): Parsed<Response> {
    var lf := Find(line, '\n', 0);
    if lf == |line| then Parsed(q, DelimFault)
    else
      var v := ScanStatus(line);
      var q1 := q.(major := Or(v.major, q.major), minor := Or(v.minor, q.minor), status := Or(v.status, q.status));
      if v.status.None? then Parsed(q1, ReadFault)
      else
        var p := FindLast(line, ' ');
        if p == -1 then Parsed(q1, DelimFault)
        else Parsed(q1.(message := Substr(line, p + 1, lf - 1 - p), firstLineAdded := true), NoFault)
  }

  /** Header names are lower-cased, values are kept as they are. */
  function WithHeader(q: Response, line: string): Parsed<Response> {
    var lf := Find(line, '\n', 0);
    if lf == |line| then Parsed(q, DelimFault)
    else if lf == 0 || line[0] == '\r' then Parsed(q.(headersRead := true), NoFault)
    else
      var colon := Find(line, ':', 0);
      if colon == |line| then Parsed(q, DelimFault)
      else
        var v := Span(line, colon + 1, IsSpaceChar);
        Parsed(q.(headers := q.headers[ToLower(Substr(line, 0, colon)) := Substr(line, v, lf - 1 - v)]), NoFault)
  }

  predicate EndsResponse(line: string) {
    |line| == 2 && line[0] == '\r'
  }

  function WithLine(q: Response, line: string): Parsed<Response> {
    if EndsResponse(line) then Parsed(q.(ended := true), NoFault)
    else if !q.firstLineAdded then WithFirstLine(q, line)
    else if !q.headersRead then WithHeader(q, line)
    else Parsed(q, NoFault)
  }

  // ---------- the printer as a function ----------

  function StartLine(q: Response): string {
    "HTTP/" + ToString(q.major) + "." + ToString(q.minor) + " " + ToString(q.status) + " " + q.message + "\r\n"
  }

  function Printed(q: Response, order: seq<string>): string
    requires Enumerates(order, q.headers)
  {
    StartLine(q) + HeaderLines(q.headers, order) + "\n"
  }

  // ---------- the class ----------

  class HttpResponse {
    var versionMajor: int
    var versionMinor: int
    var status: int
    var message: string
    var headers: map<string, string>
    var firstLineAdded: bool
    var headersRead: bool
    var responseEnded: bool

    function View(): Response
      reads this
    {
      Response(versionMajor, versionMinor, status, message, headers, firstLineAdded, headersRead, responseEnded)
    }

    constructor ()
      ensures View() == NewResponse(versionMajor, versionMinor)
    {
      status, message, headers := 0, "", map[];
      firstLineAdded, headersRead, responseEnded := false, false, false;
    }

    method AddLine(line: string) returns (fault: Fault)
      modifies this
      ensures Parsed(View(), fault) == WithLine(old(View()), line)
    {
      hide WithFirstLine, WithHeader;
      fault := NoFault;
      if |line| == 2 && line[0] == '\r' {
        responseEnded := true;
      } else if !firstLineAdded {
        fault := AddFirstLine(line);
      } else if !headersRead {
        fault := AddHeader(line);
      }
    }

    method AddFirstLine(line: string) returns (fault: Fault)
      modifies this
      ensures Parsed(View(), fault) == WithFirstLine(old(View()), line)
    {
      hide Find, FindLast, ScanStatus, Substr;
      var lfPos := Find(line, '\n', 0);
      if lfPos == |line| {
        return DelimFault;
      }
      var v := ScanStatus(line);
      versionMajor, versionMinor, status := Or(v.major, versionMajor), Or(v.minor, versionMinor), Or(v.status, status);
      if v.status.None? {
        return ReadFault;
      }
      var startPos := FindLast(line, ' ');
      if startPos == -1 {
        return DelimFault;
      }
      message := Substr(line, startPos + 1, lfPos - 1 - startPos);
      firstLineAdded := true;
      fault := NoFault;
    }

    method AddHeader(line: string) returns (fault: Fault)
      modifies this
      ensures Parsed(View(), fault) == WithHeader(old(View()), line)
    {
      hide Find, Span, Substr;
      var lfPos: int := Find(line, '\n', 0);
      if lfPos == |line| {
        return DelimFault;
      }
      fault := NoFault;
      if lfPos == 0 || line[0] == '\r' {
        headersRead := true;
        return;
      }
      var colonPos := Find(line, ':', 0);
      if colonPos == |line| {
        return DelimFault;
      }
      var headerName := Substr(line, 0, colonPos);
      var valuePos := SkipWhile(line, colonPos + 1, IsSpaceChar);
      var headerValue := Substr(line, valuePos, lfPos - 1 - valuePos);
      headers := headers[ToLower(headerName) := headerValue];
    }

    method GetString(order: seq<string>) returns (str: string)
      requires Enumerates(order, headers)
      ensures str == Printed(View(), order)
    {
      hide HeaderLines, ToString;
      str := "HTTP/" + ToString(versionMajor) + "." + ToString(versionMinor) + " " + ToString(status) + " " + message
             + "\r\n";
      ghost var start := str;
      assert order[0..] == order;
      for i := 0 to |order|
        invariant start + HeaderLines(headers, order) == str + HeaderLines(headers, order[i..])
      {
        HeaderLinesFrom(headers, order, i);
        str := str + order[i] + ": " + headers[order[i]] + "\r\n";
      }
      NoHeaderLines(headers, order[|order|..]);
      str := str + "\n";
    }
  }
}
