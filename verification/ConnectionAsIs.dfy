/** What the lookup of the body length comes to: the code as it is relays no body and no response. */
module ConnectionAsIs {
  import opened Text
  import opened HttpBase
  import opened ServerSettings
  import opened Wire
  import opened HeaderNames
  import opened Connection
  import opened ConnectionSafety
  import Req = HttpRequest
  import Res = HttpResponse

  /** The stages behind a successful lookup. */
  predicate BehindLookup(s: Stage) {
    s.SendBodyToProxy? || s.SendProxyResponseToClient? || s.GetBodyFromProxy? || s.SendBodyToClient?
  }

  predicate NoneBehind(c: Conn) {
    (forall s :: s in c.history.visited ==> !BehindLookup(s)) && !BehindLookup(c.stage)
  }

  predicate NamesLower(c: Conn) {
    && LowerNames(c.request.headers) && LowerValues(c.request.headers) && LowerNames(c.response.headers)
  }

  predicate AsIs(c: Conn) {
    NamesLower(c) && NoneBehind(c)
  }

  /** `stoul` of the missing header throws. */
  lemma LookupThrows(headers: map<string, string>)
    requires LowerNames(headers)
    ensures BodyLength(headers, CONTENT_LENGTH_HDR) == None
  {
    assert ToLower(CONTENT_LENGTH_HDR)[0] == 'c';
    assert Span("", 0, IsSpace) == 0 && Span("", 0, IsDigit) == 0;
  }

  predicate Throws(n: Next) {
    n.Return? && n.status.Thrown?
  }

  /** A part keeps the invariant, and a connection that comes to wait for a body has just been thrown out of. */
  predicate PartAsIs(n: Next) {
    AsIs(n.c) && (n.c.stage.GetBodyFromClient? ==> Throws(n))
  }

  lemma RequestAsIs(w: World, c: Conn, e: Events)
    requires AsIs(c) && !c.stage.GetBodyFromClient?
    ensures PartAsIs(OnRequest(w, c, e))
  {
    hide Feed, Route, LowerNames, LowerValues, ProcessLocation;
    RequestNames(c.line, c.request, e.input);
    var c1 := ReadRequest(c, e).0;
    LocationAsIs(w, c1);
  }

  lemma LocationAsIs(w: World, c: Conn)
    requires AsIs(c)
    ensures AsIs(ProcessLocation(w, c)) && !ProcessLocation(w, c).stage.GetBodyFromClient?
  {
    hide Route, LowerNames, LowerValues;
  }

  lemma BeginParts(w: World, c: Conn, e: Events)
    requires AsIs(c) && !c.stage.GetBodyFromClient? && w.lengthName == CONTENT_LENGTH_HDR
    ensures PartAsIs(OnRoot(c, e)) && PartAsIs(OnPass(c, e)) && PartAsIs(OnHeaderToProxy(c, e))
    ensures PartAsIs(OnBodyOrNot(w, c))
  {
    hide SendHeader, LowerNames, LowerValues, Bytes, BodyLength;
    LookupThrows(c.request.headers);
  }

  lemma ResponseAsIs(w: World, c: Conn, e: Events)
    requires AsIs(c) && !c.stage.GetBodyFromClient? && w.lengthName == CONTENT_LENGTH_HDR
    ensures PartAsIs(OnProxyResponse(w, c, e))
  {
    hide Feed, LowerNames, LowerValues, BodyLength;
    ResponseNames(c.buffer, c.response, e.input);
    LookupThrows(ReadProxyHeader(c, e).0.response.headers);
  }

  lemma AnswerAsIs(c: Conn, e: Events)
    requires AsIs(c) && !c.stage.GetBodyFromClient?
    ensures PartAsIs(OnHeaderToClient(c, e)) && PartAsIs(OnFile(c, e))
  {
    hide SendHeader, SendChunks, LowerNames, LowerValues, Bytes;
  }

  lemma BeginAsIs(w: World, c: Conn, e: Events)
    requires AsIs(c) && !c.stage.GetBodyFromClient? && w.lengthName == CONTENT_LENGTH_HDR
    ensures PartAsIs(Begin(w, c, e))
  {
    hide AsIs, OnRequest, OnRoot, OnPass, OnHeaderToProxy, OnBodyOrNot;
    RequestAsIs(w, c, e);
    var n1 := OnRequest(w, c, e);
    if n1.Go? {
      BeginParts(w, n1.c, e);
      var n2 := OnRoot(n1.c, e);
      if n2.Go? {
        BeginParts(w, n2.c, e);
        var n3 := OnPass(n2.c, e);
        if n3.Go? {
          BeginParts(w, n3.c, e);
          var n4 := OnHeaderToProxy(n3.c, e);
          if n4.Go? {
            BeginParts(w, n4.c, e);
          }
        }
      }
    }
  }

  /** Of the relaying parts only the reading of the response header is ever at work. */
  lemma RelayAsIs(w: World, c: Conn, e: Events)
    requires AsIs(c) && !c.stage.GetBodyFromClient? && w.lengthName == CONTENT_LENGTH_HDR
    ensures PartAsIs(Relay(w, c, e))
  {
    hide OnProxyResponse, LowerNames, LowerValues;
    assert OnBodyToProxy(c, e) == Go(c) && OnBodyFromClient(c, e) == Go(c);
    ResponseAsIs(w, c, e);
    var n := OnProxyResponse(w, c, e);
    if n.Go? {
      assert OnBodyFromProxy(n.c, e) == Go(n.c) && OnBodyToClient(n.c, e) == Go(n.c);
    }
  }

  lemma RespondAsIs(c: Conn, e: Events)
    requires AsIs(c) && !c.stage.GetBodyFromClient?
    ensures PartAsIs(Respond(c, e))
  {
    hide OnHeaderToClient, OnFile, LowerNames, LowerValues;
    assert OnResponseToClient(c, e) == Go(c);
    AnswerAsIs(c, e);
    var n := OnHeaderToClient(c, e);
    if n.Go? {
      AnswerAsIs(n.c, e);
    }
  }

  lemma CallAsIs(w: World, c: Conn, e: Events)
    requires AsIs(c) && !c.stage.GetBodyFromClient? && w.lengthName == CONTENT_LENGTH_HDR
    ensures PartAsIs(Process(w, c, e))
  {
    hide AsIs, Begin, Relay, Respond;
    if c.stage != ErrorStage {
      BeginAsIs(w, c, e);
      var n1 := Begin(w, c, e);
      if n1.Go? {
        RelayAsIs(w, n1.c, e);
        var n2 := Relay(w, n1.c, e);
        if n2.Go? {
          RespondAsIs(n2.c, e);
        }
      }
    }
  }

  lemma {:induction false} RunsAsIs(w: World, run: Run, events: seq<Events>)
    requires w.lengthName == CONTENT_LENGTH_HDR && AsIs(run.c)
    requires run.c.stage.GetBodyFromClient? ==> run.status.Thrown?
    ensures AsIs(Calls(w, run, events).c)
    ensures Calls(w, run, events).c.stage.GetBodyFromClient? ==> Calls(w, run, events).status.Thrown?
    decreases |events|
  {
    hide Process, AsIs;
    if events != [] && !Terminal(run.status) {
      CallAsIs(w, run.c, events[0]);
      var n := Process(w, run.c, events[0]);
      RunsAsIs(w, Run(n.c, Watch(run.side, n.status), n.status), events[1..]);
    }
  }

  /** Over every run of the code as it is no connection comes to send a body on, to send a response of the upstream
      or its body to the client; one that asks for the body of a request is left by an exception. */
  lemma NothingIsRelayed(w: World, c: Conn, events: seq<Events>)
    requires Fresh(c) && w.lengthName == CONTENT_LENGTH_HDR
    ensures var run := Calls(w, Run(c, ClientSide, Processing), events);
            && (forall s :: s in run.c.history.visited ==> !BehindLookup(s))
            && (run.c.stage.GetBodyFromClient? ==> run.status.Thrown?)
  {
    hide Calls;
    RunsAsIs(w, Run(c, ClientSide, Processing), events);
  }
}
