/** What a connection does with a request once it has been read: which page the client gets, or that it is passed on. */
module ConnectionPages {
  import opened Text
  import opened HttpBase
  import opened ServerSettings
  import opened Wire
  import opened Connection
  import opened ConnectionSafety
  import opened ConnectionReads
  import Req = HttpRequest
  import Res = HttpResponse
  import RequestWire

  /** The header and the file of this page have been chosen for the client. */
  predicate Gives(c: Conn, p: Page) {
    && c.history.header == p.header && c.history.content == (if p.file.Some? then p.file.value else "")
    && c.line == ""
  }

  /** The location that the URL is routed to. */
  function RoutedTo(w: World, url: string): Option<Location> {
    var r := Route(w.rx, w.server, url);
    if r.Found? && r.index < |w.server.Of(r.kind)| then Some(w.server.Of(r.kind)[r.index]) else None
  }

  /** The page of the location is there: the handler has found it, and its file can be opened. */
  predicate HasPage(l: Option<Location>, e: Events) {
    l.Some? && e.found.Some? && e.found.value.file.Some?
  }

  /** How a call leaves the connection that has got a request for this URL in it. */
  predicate Served(w: World, url: string, e: Events, n: Next) {
    var l := RoutedTo(w, url);
    && n.Return? && (l.Some? ==> n.c.location == l)
    && if l.Some? && l.value.isProxy then
         if e.connected then n.status.ProxyForWrite? && n.c.stage.SendHeaderToProxy?
         else n.status.Processing? && n.c.stage.FailedToConnect?
       else if HasPage(l, e) then Gives(n.c, e.found.value) && RootNotFound !in n.c.history.visited && !n.status.Thrown?
       else if (l.Some? && e.found.None?) || e.notFound.None? then n.status.Thrown?
       else Gives(n.c, e.notFound.value) && RootNotFound in n.c.history.visited && !n.status.Thrown?
  }

  /** What the parts behind the choice of the page leave alone. */
  predicate SameChoice(c: Conn, d: Conn) {
    && d.history.header == c.history.header && d.history.content == c.history.content
    && d.location == c.location && d.line == c.line
    && (RootNotFound in d.history.visited <==> RootNotFound in c.history.visited)
  }

  lemma AnswersKeep(c: Conn, e: Events)
    ensures SameChoice(c, OnResponseToClient(c, e).c) && SameChoice(c, OnHeaderToClient(c, e).c)
    ensures SameChoice(c, OnFile(c, e).c)
    ensures !(OnResponseToClient(c, e).Return? && OnResponseToClient(c, e).status.Thrown?)
    ensures !(OnHeaderToClient(c, e).Return? && OnHeaderToClient(c, e).status.Thrown?)
    ensures !(OnFile(c, e).Return? && OnFile(c, e).status.Thrown?)
  {
    hide SendHeader, SendChunks, Bytes;
  }

  lemma RespondKeepsChoice(c: Conn, e: Events)
    ensures SameChoice(c, Respond(c, e).c) && Respond(c, e).Return? && !Respond(c, e).status.Thrown?
  {
    hide OnResponseToClient, OnHeaderToClient, OnFile;
    AnswersKeep(c, e);
    var n1 := OnResponseToClient(c, e);
    AnswersKeep(n1.c, e);
    AnswersKeep(OnHeaderToClient(n1.c, e).c, e);
  }

  /** Behind the reading of the request: the location, and the page. */
  lemma Chosen(w: World, c: Conn, e: Events)
    requires RootNotFound !in c.history.visited
    ensures var c1 := ProcessLocation(w, c); var l := RoutedTo(w, c.request.url); var n := OnRoot(c1, e);
            && (l.Some? ==> c1.location == l)
            && (c1.stage.PassToProxy? <==> l.Some? && l.value.isProxy)
            && (if c1.stage.PassToProxy? then n == Go(c1)
                else if HasPage(l, e) then
                  n.Go? && n.c.stage.SendHttpHeaderResponse? && Gives(n.c, e.found.value)
                  && RootNotFound !in n.c.history.visited
                else if (l.Some? && e.found.None?) || e.notFound.None? then n.Return? && n.status.Thrown?
                else
                  n.Go? && n.c.stage.SendHttpHeaderResponse? && Gives(n.c, e.notFound.value)
                  && RootNotFound in n.c.history.visited)
            && n.c.location == c1.location
  {
    hide Route;
  }

  /** The request is taken for read: to its end, or reading has thrown and the flag that was not initialised says so. */
  predicate TakenForRead(c: Conn, e: Events) {
    var f := Feed(Req.WithLine, c.line, c.request, e.input);
    if f.fault == NoFault then f.q.ended else e.staleFlag
  }

  lemma BeginServes(w: World, c: Conn, e: Events)
    requires c.stage.GetRequest? && RootNotFound !in c.history.visited && TakenForRead(c, e)
    ensures var c1 := ReadRequest(c, e).0; var n := Begin(w, c, e); var l := RoutedTo(w, c1.request.url);
            var m := OnRoot(ProcessLocation(w, c1), e);
            && RootNotFound !in c1.history.visited
            && c1.request == Feed(Req.WithLine, c.line, c.request, e.input).q
            && (if l.Some? && l.value.isProxy then
                  if e.connected then n.Return? && n.status.ProxyForWrite? && n.c.stage.SendHeaderToProxy?
                  else n.Go? && n.c.stage.FailedToConnect?
                else n == m)
            && (l.Some? ==> n.c.location == l)
  {
    hide Feed, Route, Req.WithLine, Enumerates, Req.Printed, OnRoot, OnPass, ProcessLocation;
    var c1 := ReadRequest(c, e).0;
    Chosen(w, c1, e);
    var n2 := OnRoot(ProcessLocation(w, c1), e);
    if n2.Go? {
      PassParts(w, n2.c, e);
    }
  }

  lemma PassParts(w: World, c: Conn, e: Events)
    ensures c.stage.PassToProxy? && e.connected ==>
              var n := OnPass(c, e);
              n.Return? && n.status.ProxyForWrite? && n.c.stage.SendHeaderToProxy? && n.c.location == c.location
    ensures c.stage.PassToProxy? && !e.connected ==>
              var n := OnPass(c, e);
              && n.Go? && n.c.stage.FailedToConnect? && n.c.location == c.location
              && OnHeaderToProxy(n.c, e) == Go(n.c) && OnBodyOrNot(w, n.c) == Go(n.c)
    ensures c.stage.SendHttpHeaderResponse? ==>
              OnPass(c, e) == Go(c) && OnHeaderToProxy(c, e) == Go(c) && OnBodyOrNot(w, c) == Go(c)
  {
    hide Enumerates, Req.Printed;
  }

  /** The call that gets the last byte of a request: if it is routed to a location that is no proxy, and the handler
      finds a file there that can be opened, the client gets that page. If nothing is found, a pattern is bad or the
      file cannot be opened, it gets the page for that. A request routed to a proxy is passed on. */
  lemma RequestIsServed(w: World, c: Conn, e: Events)
    requires c.stage.GetRequest? && RootNotFound !in c.history.visited && TakenForRead(c, e)
    ensures Served(w, Feed(Req.WithLine, c.line, c.request, e.input).q.url, e, Process(w, c, e))
  {
    hide Feed, Req.WithLine, Begin, Connection.Relay, Respond, RoutedTo, OnRoot, ProcessLocation;
    BeginServes(w, c, e);
    var c1 := ReadRequest(c, e).0;
    Chosen(w, c1, e);
    var n := Begin(w, c, e);
    if n.Go? {
      NothingToRelay(w, n.c, e);
      RespondKeepsChoice(n.c, e);
      if n.c.stage.FailedToConnect? {
        RespondIsIdle(n.c, e);
      }
    }
  }

  lemma NothingToRelay(w: World, c: Conn, e: Events)
    requires c.stage.SendHttpHeaderResponse? || c.stage.FailedToConnect?
    ensures Connection.Relay(w, c, e) == Go(c)
  {
  }

  /** No call before the end of the request has answered it. */
  lemma PartKeepsChoice(w: World, c: Conn, e: Events)
    requires c.stage.GetRequest? && RootNotFound !in c.history.visited && !e.timeout && e.inputEnd != -1
    requires Unfinished(Feed(Req.WithLine, c.line, c.request, e.input), (q: Req.Request) => q.ended)
    ensures var n := Process(w, c, e);
            n.status.Processing? && n.c.stage.GetRequest? && RootNotFound !in n.c.history.visited
            && n.c.line == Feed(Req.WithLine, c.line, c.request, e.input).line
            && n.c.request == Feed(Req.WithLine, c.line, c.request, e.input).q
  {
    hide Feed, Process;
    PartOfRequest(w, c, e);
  }

  lemma {:induction false} ServedInRun(w: World, run: Run, events: seq<Events>, bytes: string, end: Req.Request)
    requires !Terminal(run.status) && run.c.stage.GetRequest? && RootNotFound !in run.c.history.visited
    requires Delivers(events, bytes) && Unbroken(events) && end.ended
    requires Completes(Req.WithLine, (q: Req.Request) => q.ended, run.c.line, run.c.request, bytes, end)
    ensures var r := Calls(w, run, events);
            Served(w, end.url, events[|events| - 1], Return(r.c, r.status))
    decreases |events|
  {
    hide Process, Feed, Concat, Inputs, Req.WithLine, Served;
    var e, rest := events[0], events[1..];
    var n := Process(w, run.c, e);
    var next := Run(n.c, Watch(run.side, n.status), n.status);
    if |events| == 1 {
      DeliversAll(events, bytes);
      RequestIsServed(w, run.c, e);
      assert rest == [];
    } else {
      DeliversLess(events, bytes);
      var k := |e.input|;
      CompletesOn(Req.WithLine, (q: Req.Request) => q.ended, run.c.line, run.c.request, bytes, end, k);
      PartKeepsChoice(w, run.c, e);
      UnbrokenRest(events);
      ServedInRun(w, next, rest, bytes[k..], end);
    }
  }

  /** Over the calls in which a fresh connection reads a well-formed request without a break: the last one serves it. */
  lemma WellFormedIsServed(w: World, c: Conn, q: Req.Request, order: seq<string>, events: seq<Events>)
    requires Fresh(c) && RequestWire.WellFormed(q) && Enumerates(order, q.headers)
    requires Delivers(events, Image(Req.Printed(q, order))) && Unbroken(events)
    ensures var r := Calls(w, Run(c, ClientSide, Processing), events);
            Served(w, q.url, events[|events| - 1], Return(r.c, r.status))
  {
    hide Calls, RequestWire.WellFormed, Delivers, Unbroken, Completes, Served;
    RequestWire.RequestCompletes(c.request, q, order);
    ServedInRun(w, Run(c, ClientSide, Processing), events, Image(Req.Printed(q, order)), RequestWire.Ended(q));
  }

  /** A request at which reading throws, the flag that is then read being false, leaves the connection in a stage
      that no part of a call is about. */
  lemma ThrownAtIsBad(w: World, c: Conn, e: Events)
    requires c.stage.GetRequest? && !e.staleFlag
    requires Feed(Req.WithLine, c.line, c.request, e.input).fault != NoFault
    ensures var n := Process(w, c, e);
            && n.c.stage.BadRequest? && n.status == (if e.timeout then TimeoutError else Processing)
            && forall e' :: Process(w, n.c, e') == Return(n.c, Processing)
  {
    hide Feed, Req.WithLine, Begin, Connection.Relay, Respond;
    var d := OnRequest(w, c, e).c;
    BeginsBad(w, c, e);
    BadIsIdle(w, d, e);
    forall e' ensures Process(w, d, e') == Return(d, Processing) {
      BadIsIdle(w, d, e');
    }
  }

  lemma BeginsBad(w: World, c: Conn, e: Events)
    requires c.stage.GetRequest? && !e.staleFlag
    requires Feed(Req.WithLine, c.line, c.request, e.input).fault != NoFault
    ensures Begin(w, c, e) == OnRequest(w, c, e) && OnRequest(w, c, e).c.stage.BadRequest?
    ensures OnRequest(w, c, e) == if e.timeout then Return(OnRequest(w, c, e).c, TimeoutError)
                                  else Go(OnRequest(w, c, e).c)
  {
    hide Feed, Req.WithLine, Route;
  }

  lemma BadIsIdle(w: World, c: Conn, e: Events)
    requires c.stage.BadRequest?
    ensures Begin(w, c, e) == Go(c) && Connection.Relay(w, c, e) == Go(c) && Respond(c, e) == Return(c, Processing)
  {
  }
}
