/** Which header names a parsed message can have. */
module HeaderNames {
  import opened Text
  import opened HttpBase
  import opened Wire
  import Req = HttpRequest
  import Res = HttpResponse

  const CONTENT_LENGTH_HDR := "Content-Length"

  predicate LowerNames(headers: map<string, string>) {
    forall k :: k in headers ==> ToLower(k) == k
  }

  predicate LowerValues(headers: map<string, string>) {
    forall k :: k in headers ==> ToLower(headers[k]) == headers[k]
  }

  lemma LowerStays(headers: map<string, string>, name: string, value: string)
    requires LowerNames(headers)
    ensures LowerNames(headers[ToLower(name) := value])
    ensures LowerValues(headers) ==> LowerValues(headers[ToLower(name) := ToLower(value)])
  {
    ToLowerIdempotent(name);
    ToLowerIdempotent(value);
  }

  lemma RequestLine(q: Req.Request, line: string)
    requires LowerNames(q.headers) && LowerValues(q.headers)
    ensures LowerNames(Req.WithLine(q, line).q.headers) && LowerValues(Req.WithLine(q, line).q.headers)
  {
    hide Find, Span, Substr, LowerNames, LowerValues, ToLower, Req.ScanVersion;
    var colon := Find(line, ':', 0);
    if colon < |line| {
      var lf: int := Find(line, '\n', 0);
      var v := Span(line, colon + 1, IsSpaceChar);
      LowerStays(q.headers, Substr(line, 0, colon), Substr(line, v, lf - 1 - v));
      LowerStays(q.headers, Substr(line, 0, colon), ToLower(Substr(line, v, lf - 1 - v)));
    }
  }

  lemma ResponseLine(q: Res.Response, line: string)
    requires LowerNames(q.headers)
    ensures LowerNames(Res.WithLine(q, line).q.headers)
  {
    hide Find, Span, Substr, LowerNames, ToLower, Res.ScanStatus, FindLast;
    var colon := Find(line, ':', 0);
    if colon < |line| {
      var lf: int := Find(line, '\n', 0);
      var v := Span(line, colon + 1, IsSpaceChar);
      LowerStays(q.headers, Substr(line, 0, colon), Substr(line, v, lf - 1 - v));
    }
  }

  /** Whatever bytes a request is read from, its headers are lower-case, names and values. */
  lemma {:induction false} RequestNames(line: string, q: Req.Request, bytes: string)
    requires LowerNames(q.headers) && LowerValues(q.headers)
    ensures LowerNames(Feed(Req.WithLine, line, q, bytes).q.headers)
    ensures LowerValues(Feed(Req.WithLine, line, q, bytes).q.headers)
    decreases |bytes|
  {
    hide LowerNames, LowerValues, Req.WithLine;
    if bytes != "" {
      var longer := line + [bytes[0]];
      if bytes[0] == '\n' && |longer| != 1 {
        RequestLine(q, longer);
        RequestNames("", Req.WithLine(q, longer).q, bytes[1..]);
      } else {
        RequestNames(longer, q, bytes[1..]);
      }
    }
  }

  /** Whatever bytes a response is read from, its header names are lower-case. */
  lemma {:induction false} ResponseNames(line: string, q: Res.Response, bytes: string)
    requires LowerNames(q.headers)
    ensures LowerNames(Feed(Res.WithLine, line, q, bytes).q.headers)
    decreases |bytes|
  {
    hide LowerNames, Res.WithLine;
    if bytes != "" {
      var longer := line + [bytes[0]];
      if bytes[0] == '\n' && |longer| != 1 {
        ResponseLine(q, longer);
        ResponseNames("", Res.WithLine(q, longer).q, bytes[1..]);
      } else {
        ResponseNames(longer, q, bytes[1..]);
      }
    }
  }

  /** Whatever bytes a request or a response is read from, it has no header under the mixed-case name by which
      the connection looks up the length of the body. */
  lemma ContentLengthNeverFound(bytes: string, major: int, minor: int)
    ensures CONTENT_LENGTH_HDR !in Feed(Req.WithLine, "", Req.NewRequest(major, minor), bytes).q.headers
    ensures CONTENT_LENGTH_HDR !in Feed(Res.WithLine, "", Res.NewResponse(major, minor), bytes).q.headers
  {
    RequestNames("", Req.NewRequest(major, minor), bytes);
    ResponseNames("", Res.NewResponse(major, minor), bytes);
    assert ToLower(CONTENT_LENGTH_HDR)[0] == 'c';
  }
}
