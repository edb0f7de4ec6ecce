/** A body some of whose bytes come along with the header. The reading loop of the header takes them, and the count of
    the bytes of the body never hears of them. */
module BodyAlong {
  import opened Text
  import opened HttpBase
  import opened ServerSettings
  import opened Wire
  import opened Connection
  import opened ConnectionSafety
  import opened BodyRelay
  import opened RelayRuns
  import opened ConnectionReads
  import opened ConnectionJourneys
  import Req = HttpRequest
  import Res = HttpResponse
  import RequestWire
  import ResponseWire

  // ---------- a relay that runs short ----------

  /** A connection on its way to pass a body of this length on to the given side, or given up on the way. */
  predicate PassesOn(w: World, c: Conn, side: Side, length: nat) {
    match c.stage
    case SendHeaderToProxy =>
      side.UpstreamSide? && c.request.method_ != "GET" && BodyLength(c.request.headers, w.lengthName) == Some(length)
    case GetBodyFromClient | SendBodyToProxy => side.UpstreamSide? && c.bodyLength == length
    case SendProxyResponseToClient | GetBodyFromProxy | SendBodyToClient => side.ClientSide? && c.bodyLength == length
    case ErrorStage | ProxyTimeout => true
    case _ => false
  }

  predicate ReadsBody(stage: Stage) {
    stage.GetBodyFromClient? || stage.GetBodyFromProxy?
  }

  /** What the calls that read the body are offered are the bytes of `source`, each byte once; the answers of the world
      are arbitrary otherwise. */
  predicate ComesFrom(w: World, run: Run, events: seq<Events>, source: string)
    decreases |events|
  {
    events == [] || Terminal(run.status) ||
    var n := Process(w, run.c, events[0]);
    var read := n.c.readCount - run.c.readCount;
    && (ReadsBody(run.c.stage) ==> events[0].input <= source)
    && 0 <= read <= |source|
    && ComesFrom(w, Run(n.c, Watch(run.side, n.status), n.status), events[1..], source[read..])
  }

  /** The header of the request is sent on, and then the length of its body is looked up. */
  lemma HeaderCall(w: World, c: Conn, e: Events, length: nat)
    requires PassesOn(w, c, UpstreamSide, length) && c.stage.SendHeaderToProxy?
    ensures var n := Process(w, c, e);
            PassesOn(w, n.c, UpstreamSide, length) && !n.status.Finished?
  {
    hide Bytes, SendHeader, BodyLength, Connection.Relay, Respond;
    var n := Begin(w, c, e);
    if n.Go? {
      RelayIsIdle(w, n.c, e);
      RespondIsIdle(n.c, e);
    }
  }

  /** The response is passed on. */
  lemma ResponseCall(w: World, c: Conn, e: Events, length: nat)
    requires PassesOn(w, c, ClientSide, length) && c.stage.SendProxyResponseToClient?
    ensures var n := Process(w, c, e);
            PassesOn(w, n.c, ClientSide, length) && !n.status.Finished?
  {
    hide Bytes, SendHeader, Begin, Connection.Relay;
    BeginIsIdle(w, c, e);
    RelayIsIdle(w, c, e);
  }

  predicate Relaying(s: Stage) {
    ReadsBody(s) || s.SendBodyToProxy? || s.SendBodyToClient? || s.ErrorStage? || s.ProxyTimeout?
  }

  /** Before the last byte of the body has been counted no chunk is sent. */
  predicate Short(w: World, c: Conn, side: Side, length: nat) {
    && Relaying(c.stage) && PassesOn(w, c, side, length)
    && (c.stage.SendBodyToProxy? || c.stage.SendBodyToClient? ==> c.readCount < length)
  }

  predicate ShortNext(w: World, n: Next, side: Side, length: nat) {
    if n.Go? then Short(w, n.c, side, length) else PassesOn(w, n.c, side, length) && !n.status.Finished?
  }

  lemma FillParts(w: World, c: Conn, e: Events, side: Side, length: nat)
    requires Short(w, c, side, length)
    ensures ShortNext(w, OnBodyFromClient(c, e), side, length) && ShortNext(w, OnBodyFromProxy(c, e), side, length)
    ensures OnProxyResponse(w, c, e) == Go(c)
  {
    hide BodyLength, Feed, GetBody;
  }

  lemma DrainParts(w: World, c: Conn, e: Events, side: Side, length: nat)
    requires Short(w, c, side, length)
    ensures ShortNext(w, OnBodyToProxy(c, e), side, length) && ShortNext(w, OnBodyToClient(c, e), side, length)
  {
    hide Bytes, BodyLength, SendBody;
  }

  lemma RelayParts(w: World, c: Conn, e: Events, side: Side, length: nat)
    requires Short(w, c, side, length)
    ensures ShortNext(w, OnBodyToProxy(c, e), side, length) && ShortNext(w, OnBodyFromClient(c, e), side, length)
    ensures ShortNext(w, OnBodyFromProxy(c, e), side, length) && ShortNext(w, OnBodyToClient(c, e), side, length)
    ensures OnProxyResponse(w, c, e) == Go(c)
  {
    hide OnBodyToProxy, OnBodyFromClient, OnProxyResponse, OnBodyFromProxy, OnBodyToClient, Short, ShortNext;
    FillParts(w, c, e, side, length);
    DrainParts(w, c, e, side, length);
  }

  lemma RelayCall(w: World, c: Conn, e: Events, side: Side, length: nat)
    requires Short(w, c, side, length)
    ensures var n := Process(w, c, e); PassesOn(w, n.c, side, length) && !n.status.Finished?
  {
    hide OnBodyToProxy, OnBodyFromClient, OnProxyResponse, OnBodyFromProxy, OnBodyToClient, Begin, Respond, PassesOn;
    if !c.stage.ErrorStage? {
      BeginIsIdle(w, c, e);
      RelayParts(w, c, e, side, length);
      var n1 := OnBodyToProxy(c, e);
      if n1.Go? {
        RelayParts(w, n1.c, e, side, length);
        var n2 := OnBodyFromClient(n1.c, e);
        if n2.Go? {
          RelayParts(w, n2.c, e, side, length);
          var n4 := OnBodyFromProxy(n2.c, e);
          if n4.Go? {
            RelayParts(w, n4.c, e, side, length);
            if OnBodyToClient(n4.c, e).Go? {
              RespondIsIdle(OnBodyToClient(n4.c, e).c, e);
            }
          }
        }
      }
    }
  }

  lemma OneCall(w: World, c: Conn, e: Events, side: Side, length: nat)
    requires PassesOn(w, c, side, length) && c.readCount < length
    ensures var n := Process(w, c, e); PassesOn(w, n.c, side, length) && !n.status.Finished?
  {
    hide Process, BodyLength;
    match c.stage
    case SendHeaderToProxy => HeaderCall(w, c, e, length);
    case SendProxyResponseToClient => ResponseCall(w, c, e, length);
    case _ => RelayCall(w, c, e, side, length);
  }

  /** If fewer bytes are to come than the count is short of the length, the relay never gets through, whatever else
      the world answers. */
  lemma {:induction false} NeverThrough(w: World, run: Run, side: Side, length: nat, source: string,
                                        events: seq<Events>)
    requires !run.status.Finished? && PassesOn(w, run.c, side, length) && ComesFrom(w, run, events, source)
    requires run.c.readCount + |source| < length
    ensures !Through(Calls(w, run, events), side) && !Calls(w, run, events).status.Finished?
    decreases |events|
  {
    hide Process, BodyLength;
    if events != [] && !Terminal(run.status) {
      var n := Process(w, run.c, events[0]);
      OneCall(w, run.c, events[0], side, length);
      NeverThrough(w, Run(n.c, Watch(run.side, n.status), n.status), side, length,
                   source[n.c.readCount - run.c.readCount..], events[1..]);
    }
  }

  lemma ReadOn(w: World, c: Conn, s: Relay, e: Events, n: nat, side: Side)
    requires Shows(s, c) && !s.finished && Grants(e, s.source, n) && c.stage == StageOf(s, side)
    ensures var t, d := Step(false, c.bodyLength, s, n), Process(w, c, e).c;
            && Relays(side, s, t, c, Process(w, c, e))
            && (ReadsBody(c.stage) ==> e.input <= s.source)
            && 0 <= d.readCount - c.readCount <= |s.source| && t.source == s.source[d.readCount - c.readCount..]
  {
    hide Process, Bytes;
    StepIsCode(w, c, s, e, n, side);
  }

  lemma {:induction false} GrantedComesFrom(w: World, run: Run, s: Relay, events: seq<Events>, grants: seq<nat>,
                                            side: Side)
    requires !Terminal(run.status) && Shows(s, run.c) && !s.finished && run.c.stage == StageOf(s, side)
    requires Granted(run.c.bodyLength, s, events, grants)
    ensures ComesFrom(w, run, events, s.source)
    decreases |events|
  {
    hide Process, Step, Shows, Grants;
    if events != [] {
      var t := Step(false, run.c.bodyLength, s, grants[0]);
      var n := Process(w, run.c, events[0]);
      ReadOn(w, run.c, s, events[0], grants[0], side);
      if !t.finished {
        GrantedComesFrom(w, Run(n.c, Watch(run.side, n.status), n.status), t, events[1..], grants[1..], side);
      } else {
        assert events[1..] == [];
      }
    }
  }

  /** There is a run in which the rest of a body gets through if and only if with it the count reaches the length: with
      the count at 0 if and only if no byte of the body has come before. */
  lemma ThroughExactly(w: World, run: Run, source: string, side: Side)
    requires Begins(run, Start(run.c.buffer, source, run.c.readCount, run.c.bodyLength), side)
    ensures (exists events :: ComesFrom(w, run, events, source) && Through(Calls(w, run, events), side))
            <==> run.c.readCount + |source| >= run.c.bodyLength
  {
    hide Calls, ComesFrom, Rounds, Granted;
    var s := Begun(Start(run.c.buffer, source, run.c.readCount, run.c.bodyLength));
    if run.c.readCount + |source| >= run.c.bodyLength {
      var grants, t := FinishingSchedule(false, run.c.bodyLength, s);
      var events, used := EventsFor(run.c.bodyLength, s, grants);
      RunIsRounds(w, run, s, events, used, side);
      GrantedComesFrom(w, run, s, events, used, side);
      assert ComesFrom(w, run, events, source) && Through(Calls(w, run, events), side);
    } else {
      forall events | ComesFrom(w, run, events, source) ensures !Through(Calls(w, run, events), side) {
        NeverThrough(w, run, side, run.c.bodyLength, source, events);
      }
    }
  }

  // ---------- the header and the first bytes of the body in one call ----------

  /** Behind the response there are bytes of the body in the same call, and reading them throws nothing: they are header
      lines, or stay in the buffer, and the count stays as it is. */
  lemma ResponseWithBody(w: World, run: Run, q: Res.Response, order: seq<string>, came: string, e: Events, length: nat)
    requires AwaitsResponse(run)
    requires NoLineFeed(q.message) && ResponseWire.HeadersOk(q.headers) && ResponseWire.NamesDistinct(q.headers)
    requires Enumerates(order, q.headers) && e.input == Image(Res.Printed(q, order)) + came
    requires Res.ScanStatus(run.c.buffer + Res.StartLine(q)).status.Some?
    requires var f := Feed(Res.WithLine, run.c.buffer, run.c.response, e.input);
             f.fault == NoFault && BodyLength(f.q.headers, w.lengthName) == Some(length)
    ensures var n := Process(w, run.c, e); var f := Feed(Res.WithLine, run.c.buffer, run.c.response, e.input);
            && n.status.ClientForWrite? && PassesOn(w, n.c, ClientSide, length)
            && n.c.readCount == run.c.readCount && n.c.buffer == f.line && n.c.response == f.q
  {
    hide Feed, ResponseWire.HeadersOk, ResponseWire.NamesDistinct, Res.ScanStatus, Res.StartLine, Res.Printed,
      BodyLength, Begin, Respond, OnBodyToProxy, OnBodyFromClient, Res.WithLine;
    ResponseWire.RestIsRead(run.c.buffer, run.c.response, q, order, came);
    OnlyReadsHeader(w, run.c, e);
    assert OnProxyResponse(w, run.c, e).Return?;
  }

  /** A response whose body has begun to come along with its header is never passed on to its end: the bytes that came
      along are missing in the count, whatever the world answers. */
  lemma ResponseNeverEnds(w: World, run: Run, q: Res.Response, order: seq<string>, e: Events, body: string, k: nat,
                          events: seq<Events>)
    requires AwaitsResponse(run) && run.c.readCount < k <= |body|
    requires NoLineFeed(q.message) && ResponseWire.HeadersOk(q.headers) && ResponseWire.NamesDistinct(q.headers)
    requires Enumerates(order, q.headers) && e.input == Image(Res.Printed(q, order)) + body[..k]
    requires Res.ScanStatus(run.c.buffer + Res.StartLine(q)).status.Some?
    requires var f := Feed(Res.WithLine, run.c.buffer, run.c.response, e.input);
             f.fault == NoFault && BodyLength(f.q.headers, w.lengthName) == Some(|body|)
    requires ComesFrom(w, Calls(w, run, [e]), events, body[k..])
    ensures !Calls(w, run, [e] + events).status.Finished?
  {
    hide Process, Feed, ResponseWire.HeadersOk, ResponseWire.NamesDistinct, Res.ScanStatus, Res.StartLine, Res.Printed,
      BodyLength, PassesOn, ComesFrom, Image;
    ResponseWithBody(w, run, q, order, body[..k], e, |body|);
    var n := Process(w, run.c, e);
    var next := Run(n.c, Watch(run.side, n.status), n.status);
    assert [e][1..] == [] && ([e] + events)[1..] == events;
    assert Calls(w, next, []) == next;
    NeverThrough(w, next, ClientSide, |body|, body[k..], events);
  }

  lemma LineKeepsStart(q: Req.Request, line: string)
    requires q.firstLineAdded
    ensures var d := Req.WithLine(q, line).q; d.firstLineAdded && d.method_ == q.method_ && d.url == q.url
  {
    hide Find, Span, Substr, ToLower;
  }

  lemma {:induction false} LinesKeepStart(line: string, q: Req.Request, bytes: string)
    requires q.firstLineAdded
    ensures var d := Feed(Req.WithLine, line, q, bytes).q; d.method_ == q.method_ && d.url == q.url
    decreases |bytes|
  {
    hide Req.WithLine;
    if bytes != "" {
      var longer := line + [bytes[0]];
      LineKeepsStart(q, longer);
      if bytes[0] == '\n' && |longer| != 1 {
        LinesKeepStart("", Req.WithLine(q, longer).q, bytes[1..]);
      } else {
        LinesKeepStart(longer, q, bytes[1..]);
      }
    }
  }

  /** The same for a request that is not a GET request and is passed on. */
  lemma RequestWithBody(w: World, c: Conn, q: Req.Request, order: seq<string>, came: string, e: Events, length: nat)
    requires Fresh(c) && RequestWire.WellFormed(q) && Enumerates(order, q.headers) && q.method_ != "GET"
    requires PassedOn(w, q.url) && e.connected && e.input == Image(Req.Printed(q, order)) + came
    requires var f := Feed(Req.WithLine, "", c.request, e.input);
             f.fault == NoFault && BodyLength(f.q.headers, w.lengthName) == Some(length)
    ensures var n := Process(w, c, e); var f := Feed(Req.WithLine, "", c.request, e.input);
            && n.status.ProxyForWrite? && PassesOn(w, n.c, UpstreamSide, length)
            && n.c.readCount == 0 && n.c.line == f.line && n.c.request == f.q
  {
    hide Feed, RequestWire.WellFormed, Req.Printed, BodyLength, Req.WithLine, Route, Lasts;
    RequestWire.RestIsRead(c.request, q, order, came);
    RequestWire.RequestLasts();
    CompleteLasts(Req.WithLine, (q: Req.Request) => q.ended, "", RequestWire.Ended(q), came);
    LinesKeepStart("", RequestWire.Ended(q), came);
  }

  lemma RequestNeverThrough(w: World, c: Conn, q: Req.Request, order: seq<string>, e: Events, body: string, k: nat,
                            events: seq<Events>)
    requires Fresh(c) && RequestWire.WellFormed(q) && Enumerates(order, q.headers) && q.method_ != "GET"
    requires 0 < k <= |body|
    requires PassedOn(w, q.url) && e.connected && e.input == Image(Req.Printed(q, order)) + body[..k]
    requires var f := Feed(Req.WithLine, "", c.request, e.input);
             f.fault == NoFault && BodyLength(f.q.headers, w.lengthName) == Some(|body|)
    requires ComesFrom(w, Calls(w, Run(c, ClientSide, Processing), [e]), events, body[k..])
    ensures !Calls(w, Run(c, ClientSide, Processing), [e] + events).c.stage.GetResponseFromProxy?
  {
    hide Process, Feed, RequestWire.WellFormed, Req.Printed, BodyLength, PassesOn, ComesFrom, Image, PassedOn, Fresh;
    RequestWithBody(w, c, q, order, body[..k], e, |body|);
    var n := Process(w, c, e);
    var next := Run(n.c, Watch(ClientSide, n.status), n.status);
    assert [e][1..] == [] && ([e] + events)[1..] == events;
    assert Calls(w, next, []) == next;
    NeverThrough(w, next, UpstreamSide, |body|, body[k..], events);
  }
}
