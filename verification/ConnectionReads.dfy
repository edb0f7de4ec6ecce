/** How a connection reads a request and the response to it over its calls. */
module ConnectionReads {
  import opened Text
  import opened HttpBase
  import opened ServerSettings
  import opened Wire
  import opened Connection
  import opened ConnectionSafety
  import Req = HttpRequest
  import Res = HttpResponse
  import RequestWire
  import ResponseWire

  /** The bytes that the reading loops of the calls get, call by call. */
  function Inputs(events: seq<Events>): (pieces: seq<string>)
    ensures |pieces| == |events|
  {
    if events == [] then [] else [events[0].input] + Inputs(events[1..])
  }

  /** No call before the last one ends in a failed read or a timeout. */
  predicate Unbroken(events: seq<Events>) {
    forall i :: 0 <= i < |events| - 1 ==> events[i].inputEnd != -1 && !events[i].timeout
  }

  /** The bytes come in these calls, and the last one gets the last of them. */
  predicate Delivers(events: seq<Events>, bytes: string) {
    events != [] && Concat(Inputs(events)) == bytes && events[|events| - 1].input != ""
  }

  lemma DeliversLess(events: seq<Events>, bytes: string)
    requires Delivers(events, bytes) && |events| > 1
    ensures var k := |events[0].input|;
            k < |bytes| && events[0].input == bytes[..k] && Delivers(events[1..], bytes[k..])
  {
    NonEmptyConcat(events[1..]);
  }

  lemma {:induction false} NonEmptyConcat(events: seq<Events>)
    requires events != [] && events[|events| - 1].input != ""
    ensures Concat(Inputs(events)) != ""
    decreases |events|
  {
    if |events| > 1 {
      NonEmptyConcat(events[1..]);
    } else {
      assert Inputs(events)[0] == events[0].input && Inputs(events)[1..] == [];
    }
  }

  lemma DeliversAll(events: seq<Events>, bytes: string)
    requires Delivers(events, bytes) && |events| == 1
    ensures events[0].input == bytes
  {
    var p := Inputs(events);
    assert events[1..] == [] && p == [events[0].input];
    assert p[1..] == [] && Concat(p[1..]) == "";
    assert Concat(p) == p[0] + "";
  }

  // ---------- the request ----------

  lemma BeginPartsKeepRequest(w: World, c: Conn, e: Events)
    ensures OnRoot(c, e).c.request == c.request && OnPass(c, e).c.request == c.request
    ensures OnHeaderToProxy(c, e).c.request == c.request && OnBodyOrNot(w, c).c.request == c.request
  {
    hide SendHeader, Bytes;
  }

  lemma RelayPartsKeepRequest(w: World, c: Conn, e: Events)
    ensures OnBodyToProxy(c, e).c.request == c.request && OnBodyFromClient(c, e).c.request == c.request
    ensures OnProxyResponse(w, c, e).c.request == c.request
    ensures OnBodyFromProxy(c, e).c.request == c.request && OnBodyToClient(c, e).c.request == c.request
  {
    hide Feed, SendHeader, SendBody, GetBody, Bytes;
  }

  lemma RespondKeeps(c: Conn, e: Events)
    ensures Respond(c, e).c.request == c.request && Respond(c, e).c.response == c.response
  {
    hide OnResponseToClient, OnHeaderToClient, OnFile;
    RespondPartsKeep(c, e);
    var n := OnResponseToClient(c, e);
    RespondPartsKeep(n.c, e);
    RespondPartsKeep(OnHeaderToClient(n.c, e).c, e);
  }

  lemma RespondPartsKeep(c: Conn, e: Events)
    ensures OnResponseToClient(c, e).c.request == c.request && OnResponseToClient(c, e).c.response == c.response
    ensures OnHeaderToClient(c, e).c.request == c.request && OnHeaderToClient(c, e).c.response == c.response
    ensures OnFile(c, e).c.request == c.request && OnFile(c, e).c.response == c.response
  {
    hide SendHeader, SendChunks, Bytes;
  }

  /** The request a call leaves is the one its reading loop leaves. */
  lemma CallKeepsRequest(w: World, c: Conn, e: Events)
    requires c.stage.GetRequest?
    ensures Process(w, c, e).c.request == Feed(Req.WithLine, c.line, c.request, e.input).q
  {
    hide OnRoot, OnPass, OnHeaderToProxy, OnBodyOrNot, OnBodyToProxy, OnBodyFromClient, OnProxyResponse,
      OnBodyFromProxy, OnBodyToClient, Respond, Feed, Route;
    var n1 := OnRequest(w, c, e);
    BeginPartsKeepRequest(w, n1.c, e);
    var n2 := OnRoot(n1.c, e);
    BeginPartsKeepRequest(w, n2.c, e);
    var n3 := OnPass(n2.c, e);
    BeginPartsKeepRequest(w, n3.c, e);
    BeginPartsKeepRequest(w, OnHeaderToProxy(n3.c, e).c, e);
    var b := Begin(w, c, e).c;
    assert b.request == Feed(Req.WithLine, c.line, c.request, e.input).q;
    RelayKeepsRequest(w, b, e);
    RespondKeeps(Relay(w, b, e).c, e);
  }

  lemma RelayKeepsRequest(w: World, c: Conn, e: Events)
    ensures Relay(w, c, e).c.request == c.request
  {
    hide OnBodyToProxy, OnBodyFromClient, OnProxyResponse, OnBodyFromProxy, OnBodyToClient;
    RelayPartsKeepRequest(w, c, e);
    var n1 := OnBodyToProxy(c, e);
    RelayPartsKeepRequest(w, n1.c, e);
    var n2 := OnBodyFromClient(n1.c, e);
    RelayPartsKeepRequest(w, n2.c, e);
    var n3 := OnProxyResponse(w, n2.c, e);
    RelayPartsKeepRequest(w, n3.c, e);
    RelayPartsKeepRequest(w, OnBodyFromProxy(n3.c, e).c, e);
  }

  /** A call that does not get the end of the request: it goes on waiting, or is over if a read has failed or the
      time is up. */
  lemma PartOfRequest(w: World, c: Conn, e: Events)
    requires c.stage.GetRequest?
    requires Unfinished(Feed(Req.WithLine, c.line, c.request, e.input), (q: Req.Request) => q.ended)
    ensures var f := Feed(Req.WithLine, c.line, c.request, e.input); var c1 := c.(line := f.line, request := f.q);
            Process(w, c, e)
            == (var d := if e.inputEnd == -1 then c1.To(ErrorStage) else c1;
                Return(d, if e.timeout then TimeoutError else Processing))
  {
    hide Feed, Route, Begin, Relay, Respond;
    var n := OnRequest(w, c, e);
    RestIsIdle(w, n.c, e);
    BeginIsRequest(w, c, e);
  }

  lemma BeginIsRequest(w: World, c: Conn, e: Events)
    requires var d := OnRequest(w, c, e).c; d.stage.GetRequest? || d.stage.ErrorStage?
    ensures Begin(w, c, e) == OnRequest(w, c, e)
  {
    hide OnRequest;
  }

  lemma RestIsIdle(w: World, c: Conn, e: Events)
    requires c.stage.GetRequest? || c.stage.ErrorStage?
    ensures Relay(w, c, e) == Go(c) && Respond(c, e) == Return(c, Processing)
  {
  }

  lemma {:induction false} ReadsOn(w: World, run: Run, events: seq<Events>, bytes: string, end: Req.Request)
    requires !Terminal(run.status) && run.c.stage.GetRequest? && Delivers(events, bytes)
    requires Completes(Req.WithLine, (q: Req.Request) => q.ended, run.c.line, run.c.request, bytes, end)
    ensures if Unbroken(events) then Calls(w, run, events).c.request == end
            else !Calls(w, run, events).c.request.ended
    decreases |events|
  {
    hide Process, Feed, Concat, Inputs, Req.WithLine;
    var e, rest := events[0], events[1..];
    var n := Process(w, run.c, e);
    var next := Run(n.c, Watch(run.side, n.status), n.status);
    if |events| == 1 {
      DeliversAll(events, bytes);
      CallKeepsRequest(w, run.c, e);
      assert rest == [];
    } else {
      DeliversLess(events, bytes);
      var k := |e.input|;
      CompletesOn(Req.WithLine, (q: Req.Request) => q.ended, run.c.line, run.c.request, bytes, end, k);
      PartOfRequest(w, run.c, e);
      if e.inputEnd != -1 && !e.timeout {
        UnbrokenRest(events);
        ReadsOn(w, next, rest, bytes[k..], end);
      } else if !e.timeout {
        Fails(w, next, rest);
      }
    }
  }

  lemma UnbrokenRest(events: seq<Events>)
    requires |events| > 1 && events[0].inputEnd != -1 && !events[0].timeout
    ensures Unbroken(events) <==> Unbroken(events[1..])
  {
    if Unbroken(events[1..]) {
      forall i | 0 <= i < |events| - 1 ensures events[i].inputEnd != -1 && !events[i].timeout {
        if i > 0 {
          assert events[i] == events[1..][i - 1];
        }
      }
    }
    if Unbroken(events) {
      forall i | 0 <= i < |events[1..]| - 1 ensures events[1..][i].inputEnd != -1 && !events[1..][i].timeout {
        assert events[i + 1] == events[1..][i];
      }
    }
  }

  /** The next call gives the connection up as it is. */
  lemma Fails(w: World, run: Run, events: seq<Events>)
    requires run.c.stage.ErrorStage?
    ensures Calls(w, run, events).c == run.c
  {
    if events != [] && !Terminal(run.status) {
      var next := Run(run.c, run.side, Failed);
      assert Calls(w, next, events[1..]) == next;
    }
  }

  /** A well-formed request in any header order that a client sends is read back by the connection if and only if
      no call before the one that gets its last byte ends in a failed read or a timeout. On a socket that does not
      block a read that finds nothing is a failed one. */
  lemma RequestReadExactly(w: World, c: Conn, q: Req.Request, order: seq<string>, events: seq<Events>)
    requires Fresh(c) && RequestWire.WellFormed(q) && Enumerates(order, q.headers)
    requires Delivers(events, Image(Req.Printed(q, order)))
    ensures var end := Calls(w, Run(c, ClientSide, Processing), events).c;
            (end.request == RequestWire.Ended(q) <==> Unbroken(events)) && (end.request.ended <==> Unbroken(events))
  {
    hide Calls, RequestWire.WellFormed, Delivers, Unbroken, Completes;
    RequestWire.RequestCompletes(c.request, q, order);
    ReadsOn(w, Run(c, ClientSide, Processing), events, Image(Req.Printed(q, order)), RequestWire.Ended(q));
  }

  /** The input that shows it: one byte, and then nothing yet. */
  lemma BrokenRead(w: World, c: Conn, e: Events, later: Events)
    requires Fresh(c) && e.input == "G" && e.inputEnd == -1 && !e.timeout
    ensures var run := Calls(w, Run(c, ClientSide, Processing), [e, later]);
            run.status == Failed && run.c.stage.ErrorStage? && run.c.line == "G"
  {
    hide Process;
    FeedNoLine(Req.WithLine, c.line, c.request, "G");
    PartOfRequest(w, c, e);
    var n := Process(w, c, e);
    var next := Run(n.c, ClientSide, Processing);
    assert [e, later][1..] == [later] && [later][1..] == [];
    assert Process(w, n.c, later) == Return(n.c, Failed) by { FailsAgain(w, n.c, later); }
    assert Calls(w, next, [later]) == Run(n.c, ClientSide, Failed);
  }

  lemma FailsAgain(w: World, c: Conn, e: Events)
    requires c.stage.ErrorStage?
    ensures Process(w, c, e) == Return(c, Failed)
  {
  }

  // ---------- the response ----------

  lemma OnlyReadsHeader(w: World, c: Conn, e: Events)
    requires c.stage.GetResponseFromProxy?
    ensures Begin(w, c, e) == Go(c) && OnBodyToProxy(c, e) == Go(c) && OnBodyFromClient(c, e) == Go(c)
  {
  }

  lemma AfterHeaderIsIdle(c: Conn, e: Events)
    requires c.stage.GetResponseFromProxy? || c.stage.ErrorStage? || c.stage.ProxyTimeout?
    ensures OnBodyFromProxy(c, e) == Go(c) && OnBodyToClient(c, e) == Go(c) && Respond(c, e) == Return(c, Processing)
  {
  }

  /** The call that gets the whole header goes on with it. */
  lemma WholeResponse(w: World, c: Conn, e: Events)
    requires c.stage.GetResponseFromProxy?
    requires var f := Feed(Res.WithLine, c.buffer, c.response, e.input); f.fault == NoFault && f.q.ended
    ensures Process(w, c, e).c.response == Feed(Res.WithLine, c.buffer, c.response, e.input).q
  {
    hide Feed, Respond, Begin, OnBodyToProxy, OnBodyFromClient;
    OnlyReadsHeader(w, c, e);
    assert OnProxyResponse(w, c, e).Return?;
  }

  lemma PartOfResponse(w: World, c: Conn, e: Events)
    requires c.stage.GetResponseFromProxy?
    requires Unfinished(Feed(Res.WithLine, c.buffer, c.response, e.input), (q: Res.Response) => q.ended)
    ensures var f := Feed(Res.WithLine, c.buffer, c.response, e.input); var c1 := c.(buffer := f.line, response := f.q);
            var c2 := if e.inputEnd == -1 then c1.To(ErrorStage) else c1;
            Process(w, c, e) == Return(if e.timeout then c2.To(ProxyTimeout) else c2, Processing)
  {
    hide Feed, Respond, Begin, OnBodyToProxy, OnBodyFromClient, OnBodyFromProxy, OnBodyToClient;
    OnlyReadsHeader(w, c, e);
    AfterHeaderIsIdle(OnProxyResponse(w, c, e).c, e);
  }

  // The parts of a call that are about other stages.

  lemma BeginIsIdle(w: World, c: Conn, e: Events)
    requires c.stage.GetBodyFromClient? || c.stage.SendBodyToProxy? || c.stage.GetBodyFromProxy?
             || c.stage.SendBodyToClient? || c.stage.SendProxyResponseToClient? || c.stage.ErrorStage?
             || c.stage.ProxyTimeout?
    ensures Begin(w, c, e) == Go(c)
  {
  }

  lemma RelayIsIdle(w: World, c: Conn, e: Events)
    requires c.stage.SendHeaderToProxy? || c.stage.SendProxyResponseToClient? || c.stage.ErrorStage?
             || c.stage.ProxyTimeout?
    ensures Relay(w, c, e) == Go(c)
  {
  }

  lemma RespondIsIdle(c: Conn, e: Events)
    requires !c.stage.SendProxyResponseToClient? && !c.stage.SendHttpHeaderResponse? && !c.stage.SendFile?
    ensures Respond(c, e) == Return(c, Processing)
  {
  }

  /** From these stages a connection does not come back. */
  lemma {:induction false} StaysOver(w: World, run: Run, events: seq<Events>)
    requires run.c.stage.ErrorStage? || run.c.stage.ProxyTimeout?
    ensures Calls(w, run, events).c == run.c
    decreases |events|
  {
    hide Process;
    if events != [] && !Terminal(run.status) {
      IsOver(w, run.c, events[0]);
      var n := Process(w, run.c, events[0]);
      StaysOver(w, Run(n.c, Watch(run.side, n.status), n.status), events[1..]);
    }
  }

  lemma IsOver(w: World, c: Conn, e: Events)
    requires c.stage.ErrorStage? || c.stage.ProxyTimeout?
    ensures Process(w, c, e).c == c
  {
    hide Begin, Relay, Respond;
    BeginIsIdle(w, c, e);
    RelayIsIdle(w, c, e);
    RespondIsIdle(c, e);
  }

  lemma {:induction false} ReadsResponseOn(w: World, run: Run, events: seq<Events>, bytes: string, end: Res.Response)
    requires !Terminal(run.status) && run.c.stage.GetResponseFromProxy? && Delivers(events, bytes)
    requires Completes(Res.WithLine, (q: Res.Response) => q.ended, run.c.buffer, run.c.response, bytes, end)
    ensures if Unbroken(events) then Calls(w, run, events).c.response == end
            else !Calls(w, run, events).c.response.ended
    decreases |events|
  {
    hide Process, Feed, Concat, Inputs, Res.WithLine;
    var e, rest := events[0], events[1..];
    var n := Process(w, run.c, e);
    var next := Run(n.c, Watch(run.side, n.status), n.status);
    if |events| == 1 {
      DeliversAll(events, bytes);
      WholeResponse(w, run.c, e);
      assert rest == [];
    } else {
      DeliversLess(events, bytes);
      var k := |e.input|;
      CompletesOn(Res.WithLine, (q: Res.Response) => q.ended, run.c.buffer, run.c.response, bytes, end, k);
      PartOfResponse(w, run.c, e);
      if e.inputEnd != -1 && !e.timeout {
        UnbrokenRest(events);
        ReadsResponseOn(w, next, rest, bytes[k..], end);
      } else {
        StaysOver(w, next, rest);
      }
    }
  }

  /** A connection in a run that waits for the header of a response, of which it has read nothing. */
  predicate AwaitsResponse(run: Run) {
    !Terminal(run.status) && run.c.stage.GetResponseFromProxy?
    && run.c.response == Res.NewResponse(run.c.response.major, run.c.response.minor)
  }

  /** A printed response that comes behind what is left in the buffer, if the two scan as a status line, is read to
      its end if and only if no call before the one that gets its last byte ends in a failed read or a timeout. */
  lemma ResponseReadExactly(w: World, run: Run, q: Res.Response, order: seq<string>, events: seq<Events>)
    requires AwaitsResponse(run)
    requires NoLineFeed(q.message) && ResponseWire.HeadersOk(q.headers) && ResponseWire.NamesDistinct(q.headers)
    requires Enumerates(order, q.headers) && Delivers(events, Image(Res.Printed(q, order)))
    requires Res.ScanStatus(run.c.buffer + Res.StartLine(q)).status.Some?
    ensures var end := Calls(w, run, events).c.response;
            && (end.ended <==> Unbroken(events))
            && (end.ended ==>
                  && Res.ScanStatus(run.c.buffer + Res.StartLine(q))
                     == Res.Status(Some(end.major), Some(end.minor), Some(end.status))
                  && ResponseWire.Lowered(q.headers, end.headers)
                  && (run.c.buffer == "" ==>
                        end == ResponseWire.StatusRead(run.c.response, q).(headers := end.headers, ended := true)))
  {
    hide Calls, Delivers, Unbroken, Completes, ResponseWire.HeadersOk, ResponseWire.NamesDistinct, Res.ScanStatus,
      ResponseWire.Lowered, Feed, Res.StartLine;
    var bytes := Image(Res.Printed(q, order));
    ResponseWire.ResponseFromBuffer(run.c.buffer, run.c.response, q, order);
    var f := Feed(Res.WithLine, run.c.buffer, run.c.response, bytes);
    EndIsComplete(run.c.buffer, run.c.response, bytes, f.q);
    ReadsResponseOn(w, run, events, bytes, f.q);
    if run.c.buffer == "" {
      var end := ResponseWire.ResponseCompletes(run.c.response, q, order);
      SameEnd(run.c.response, bytes, f.q, end);
    }
  }

  lemma EndIsComplete(buffer: string, q0: Res.Response, bytes: string, end: Res.Response)
    requires Completes(Res.WithLine, (q: Res.Response) => q.ended, buffer, q0, bytes, end)
    ensures end.ended
  {
  }

  lemma SameEnd(q0: Res.Response, bytes: string, a: Res.Response, b: Res.Response)
    requires Completes(Res.WithLine, (q: Res.Response) => q.ended, "", q0, bytes, a)
    requires Completes(Res.WithLine, (q: Res.Response) => q.ended, "", q0, bytes, b)
    ensures a == b
  {
  }
}
