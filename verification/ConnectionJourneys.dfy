/** Runs that lead a proxied request through to the body of its response, where the wrong socket is watched. */
module ConnectionJourneys {
  import opened Text
  import opened HttpBase
  import opened ServerSettings
  import opened Wire
  import opened Connection
  import opened ConnectionSafety
  import Req = HttpRequest
  import Res = HttpResponse
  import RequestWire
  import ResponseWire
  import ConnectionReads

  /** Every map can be iterated over. */
  lemma {:induction false} SomeOrder(headers: map<string, string>) returns (order: seq<string>)
    ensures Enumerates(order, headers)
    decreases |headers|
  {
    if headers == map[] {
      order := [];
    } else {
      var k :| k in headers;
      order := SomeOrder(headers - {k});
      order := [k] + order;
    }
  }

  /** Answers that get this input, and let everything be written. */
  function Generous(input: string, accepts: nat, order: seq<string>): Events {
    Events(input, 0, accepts, 0, 2, [], false, true, None, None, _ => order, false, 0)
  }

  /** A URL that is passed on. */
  predicate PassedOn(w: World, url: string) {
    var r := Route(w.rx, w.server, url);
    r.Found? && r.index < |w.server.Of(r.kind)| && w.server.Of(r.kind)[r.index].isProxy
  }

  lemma RequestComes(w: World, c: Conn, q: Req.Request, order: seq<string>) returns (d: Conn)
    requires Fresh(c) && RequestWire.WellFormed(q) && Enumerates(order, q.headers) && PassedOn(w, q.url)
    ensures Process(w, c, Generous(Image(Req.Printed(q, order)), 0, order)) == Return(d, ProxyForWrite)
    ensures d.stage.SendHeaderToProxy? && d.request == RequestWire.Ended(q) && d.requestStr == Req.Printed(q, order)
    ensures d.requestPos == 0 && d.responsePos == 0 && d.response == c.response && d.buffer == "" && d.getInd == 0
    ensures d.readCount == 0
  {
    hide Feed, Route, Req.WithLine, RequestWire.WellFormed;
    var e := Generous(Image(Req.Printed(q, order)), 0, order);
    RequestWire.RequestCompletes(c.request, q, order);
    var f := Feed(Req.WithLine, c.line, c.request, e.input);
    assert f == Fed("", RequestWire.Ended(q), NoFault, "");
    d := Process(w, c, e).c;
    assert Req.Printed(RequestWire.Ended(q), order) == Req.Printed(q, order);
  }

  lemma RequestIsSent(w: World, c: Conn) returns (e: Events, d: Conn)
    requires c.stage.SendHeaderToProxy? && c.requestPos == 0 && |c.requestStr| >= 2 && c.request.method_ == "GET"
    ensures Process(w, c, e) == Return(d, ProxyForRead)
    ensures d.stage.GetResponseFromProxy? && d.response == c.response && d.responsePos == c.responsePos
    ensures d.buffer == c.buffer && d.getInd == c.getInd && d.readCount == c.readCount
  {
    hide Bytes;
    e := Generous("", |c.requestStr| - 1, []);
    d := Process(w, c, e).c;
  }

  /** The response has a header that the lookup finds, and `stoul` reads a length from it. */
  predicate HasLength(w: World, q: Res.Response, name: string, length: nat) {
    name in q.headers && ToLower(name) == w.lengthName && Stoul(q.headers[name]) == Some(length)
  }

  lemma ResponseComes(w: World, c: Conn, q: Res.Response, order: seq<string>, name: string, length: nat)
    returns (e: Events, d: Conn)
    requires c.stage.GetResponseFromProxy? && c.buffer == ""
    requires c.response == Res.NewResponse(c.response.major, c.response.minor)
    requires NoLineFeed(q.message) && ResponseWire.HeadersOk(q.headers) && ResponseWire.NamesDistinct(q.headers)
    requires Enumerates(order, q.headers) && HasLength(w, q, name, length)
    ensures Process(w, c, e) == Return(d, ClientForWrite)
    ensures d.stage.SendProxyResponseToClient? && |d.responseStr| >= 2 && d.responsePos == c.responsePos
    ensures d.bodyLength == length && d.buffer == "" && d.getInd == c.getInd && d.readCount == c.readCount
  {
    hide Feed, Res.WithLine, ResponseWire.HeadersOk, ResponseWire.NamesDistinct, ToLower, Stoul, Res.StartLine,
      HeaderLines, Begin, Respond, OnBodyToProxy, OnBodyFromClient, OnBodyFromProxy, OnBodyToClient;
    var end := ResponseWire.ResponseCompletes(c.response, q, order);
    var printed := SomeOrder(end.headers);
    e := Generous(Image(Res.Printed(q, order)), 0, printed);
    assert Feed(Res.WithLine, c.buffer, c.response, e.input) == Fed("", end, NoFault, "");
    assert BodyLength(end.headers, w.lengthName) == Some(length);
    ResponseWire.StartNotEmpty(end);
    ConnectionReads.OnlyReadsHeader(w, c, e);
    d := OnProxyResponse(w, c, e).c;
  }

  lemma ResponseIsSent(w: World, c: Conn) returns (e: Events, d: Conn)
    requires c.stage.SendProxyResponseToClient? && c.responsePos == 0 && |c.responseStr| >= 2
    ensures Process(w, c, e) == Return(d, ProxyForRead)
    ensures d.stage.GetBodyFromProxy? && d.bodyLength == c.bodyLength
    ensures d.buffer == c.buffer && d.getInd == c.getInd && d.readCount == c.readCount
  {
    hide Bytes;
    e := Generous("", |c.responseStr| - 1, []);
    d := Process(w, c, e).c;
  }

  /** A fill that is complete, and one that is not. */
  lemma FillIsLeft(w: World, c: Conn) returns (e: Events, d: Conn, e': Events, d': Conn)
    requires c.stage.GetBodyFromProxy? && c.getInd == 0 && c.readCount == 0 && 0 < c.bodyLength <= BUFFER_LENGTH
    ensures Process(w, c, e) == Return(d, ProxyForWrite) && d.stage.SendBodyToClient?
    ensures Process(w, c, e') == Return(d', ClientForWrite) && d'.stage.GetBodyFromProxy?
  {
    e := Generous(seq(c.bodyLength, _ => 'x'), 0, []);
    d := Process(w, c, e).c;
    e' := Generous("", 0, []);
    d' := Process(w, c, e').c;
  }

  lemma OneMore(w: World, run: Run, events: seq<Events>, at: Run, e: Events, d: Conn, status: Status)
    requires Calls(w, run, events) == at && !Terminal(at.status) && Process(w, at.c, e) == Return(d, status)
    ensures Calls(w, run, events + [e]) == Run(d, Watch(at.side, status), status)
    decreases |events|
  {
    hide Process;
    if events == [] {
      assert (events + [e])[1..] == [] && (events + [e])[0] == e;
    } else {
      assert (events + [e])[0] == events[0] && (events + [e])[1..] == events[1..] + [e];
      if !Terminal(run.status) {
        var n := Process(w, run.c, events[0]);
        OneMore(w, Run(n.c, Watch(run.side, n.status), n.status), events[1..], at, e, d, status);
      }
    }
  }

  /** For every GET request that is passed on and every response in which a length is found there is a run that comes to
      the body of the response, with nothing in the buffer. */
  lemma ComesToBody(w: World, c: Conn, q: Req.Request, order: seq<string>, r: Res.Response, order': seq<string>,
                    name: string, length: nat)
    returns (events: seq<Events>, d: Conn)
    requires Fresh(c) && RequestWire.WellFormed(q) && Enumerates(order, q.headers) && PassedOn(w, q.url)
    requires q.method_ == "GET"
    requires NoLineFeed(r.message) && ResponseWire.HeadersOk(r.headers) && ResponseWire.NamesDistinct(r.headers)
    requires Enumerates(order', r.headers) && HasLength(w, r, name, length)
    ensures Calls(w, Run(c, ClientSide, Processing), events) == Run(d, UpstreamSide, ProxyForRead)
    ensures d.stage.GetBodyFromProxy? && d.bodyLength == length
    ensures d.buffer == "" && d.getInd == 0 && d.readCount == 0
  {
    hide Process, Calls, RequestWire.WellFormed, PassedOn, ResponseWire.HeadersOk, ResponseWire.NamesDistinct,
      HasLength, Req.Printed, Enumerates;
    var run0 := Run(c, ClientSide, Processing);
    NoCalls(w, run0);
    var c1 := RequestComes(w, c, q, order);
    LongRequest(q, order);
    var e1 := Generous(Image(Req.Printed(q, order)), 0, order);
    OneMore(w, run0, [], run0, e1, c1, ProxyForWrite);
    var e2, c2 := RequestIsSent(w, c1);
    OneMore(w, run0, [] + [e1], Run(c1, UpstreamSide, ProxyForWrite), e2, c2, ProxyForRead);
    FreshFields(c);
    var e3, c3 := ResponseComes(w, c2, r, order', name, length);
    OneMore(w, run0, [] + [e1] + [e2], Run(c2, UpstreamSide, ProxyForRead), e3, c3, ClientForWrite);
    var e4;
    e4, d := ResponseIsSent(w, c3);
    OneMore(w, run0, [] + [e1] + [e2] + [e3], Run(c3, ClientSide, ClientForWrite), e4, d, ProxyForRead);
    events := [] + [e1] + [e2] + [e3] + [e4];
  }

  /** For every GET request that is passed on and every response in which a length is found there are two runs in
      which the wrong socket is watched: the upstream's while the body is sent to the client, behind a complete fill,
      and the client's while it is read from the upstream, behind an incomplete one. */
  lemma WrongSideRuns(w: World, c: Conn, q: Req.Request, order: seq<string>, r: Res.Response, order': seq<string>,
                      name: string, length: nat)
    returns (events: seq<Events>, events': seq<Events>)
    requires Fresh(c) && RequestWire.WellFormed(q) && Enumerates(order, q.headers) && PassedOn(w, q.url)
    requires q.method_ == "GET"
    requires NoLineFeed(r.message) && ResponseWire.HeadersOk(r.headers) && ResponseWire.NamesDistinct(r.headers)
    requires Enumerates(order', r.headers) && HasLength(w, r, name, length) && 0 < length <= BUFFER_LENGTH
    ensures var run := Calls(w, Run(c, ClientSide, Processing), events);
            run.c.stage.SendBodyToClient? && run.side.UpstreamSide? && !Terminal(run.status)
    ensures var run := Calls(w, Run(c, ClientSide, Processing), events');
            run.c.stage.GetBodyFromProxy? && run.side.ClientSide? && !Terminal(run.status)
  {
    hide Process, Calls, RequestWire.WellFormed, PassedOn, ResponseWire.HeadersOk, ResponseWire.NamesDistinct,
      HasLength, Enumerates, Fresh;
    var run0 := Run(c, ClientSide, Processing);
    var before, d := ComesToBody(w, c, q, order, r, order', name, length);
    var e, d1, e', d2 := FillIsLeft(w, d);
    OneMore(w, run0, before, Run(d, UpstreamSide, ProxyForRead), e, d1, ProxyForWrite);
    OneMore(w, run0, before, Run(d, UpstreamSide, ProxyForRead), e', d2, ClientForWrite);
    events, events' := before + [e], before + [e'];
  }

  lemma NoCalls(w: World, run: Run)
    ensures Calls(w, run, []) == run
  {
  }

  lemma FreshFields(c: Conn)
    requires Fresh(c)
    ensures c.response == Res.NewResponse(c.response.major, c.response.minor)
  {
  }

  lemma LongRequest(q: Req.Request, order: seq<string>)
    requires Enumerates(order, q.headers)
    ensures |Req.Printed(q, order)| >= 2
  {
  }
}
