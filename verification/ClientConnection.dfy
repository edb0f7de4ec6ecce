/** The connection class: its methods do what the stage machine says. */
module ClientConnection {
  import opened Text
  import opened HttpBase
  import opened ServerSettings
  import opened Wire
  import opened Connection
  import ConfigInvariants
  import Req = HttpRequest
  import Res = HttpResponse

  /** One byte of the reading loop. */
  lemma FeedStep<Q>(add: (Q, string) -> Parsed<Q>, line: string, q: Q, bytes: string, i: nat)
    requires i < |bytes|
    ensures var longer := line + [bytes[i]];
            Feed(add, line, q, bytes[i..])
            == if bytes[i] == '\n' && |longer| != 1 then
                 var r := add(q, longer);
                 if r.fault == NoFault then Feed(add, "", r.q, bytes[i + 1..])
                 else Fed(longer, r.q, r.fault, bytes[i + 1..])
               else Feed(add, longer, q, bytes[i + 1..])
  {
    assert bytes[i..][1..] == bytes[i + 1..];
  }

  class ClientConnection {
    const settings: ServerSettings
    const lengthName: string
    const request: Req.HttpRequest
    const response: Res.HttpResponse
    var stage: Stage
    var line: string
    var location: Option<Location>
    var responseStr: string
    var requestStr: string
    var upstreamBuffer: string
    var bufferReadCount: nat
    var bodyLength: nat
    var getBodyInd: nat
    var sendBodyInd: nat
    var requestPos: nat
    var responsePos: nat
    var file: Option<string>
    var history: History

    function View(): Conn
      reads this, request, response
    {
      Conn(stage, line, request.View(), location, responseStr, requestStr, upstreamBuffer, bufferReadCount, bodyLength,
           getBodyInd, sendBodyInd, response.View(), requestPos, responsePos, file, history)
    }

    constructor (settings: ServerSettings, lengthName: string)
      ensures this.settings == settings && this.lengthName == lengthName && fresh(request) && fresh(response)
      ensures Fresh(View())
    {
      this.settings, this.lengthName := settings, lengthName;
      request := new Req.HttpRequest();
      response := new Res.HttpResponse();
      stage, line, location, responseStr, requestStr, upstreamBuffer := GetRequest, "", None, "", "", "";
      bufferReadCount, getBodyInd, sendBodyInd, requestPos, responsePos := 0, 0, 0, 0, 0;
      file, history := None, History({GetRequest}, "", "", "", "", 0);
    }

    method SetStage(next: Stage)
      modifies `stage, `history
      ensures View() == old(View()).To(next)
    {
      stage := next;
      history := history.(visited := history.visited + {next});
    }

    /** The bytes a socket has accepted. */
    method Write(out: string, toProxy: bool)
      modifies `history
      ensures View() == old(View()).Wrote(out, toProxy)
    {
      if toProxy {
        history := history.(toProxy := history.toProxy + out);
      } else {
        history := history.(toClient := history.toClient + out);
      }
    }

    method ReadRequest(e: Events) returns (fault: Fault, succeeded: bool)
      modifies this, request
      ensures var f := Feed(Req.WithLine, old(line), old(request.View()), e.input);
              && fault == f.fault && View() == AfterRequest(old(View()), f, e)
              && (fault == NoFault ==> succeeded == f.q.ended)
    {
      hide Feed, Req.WithLine;
      fault, succeeded := NoFault, false;
      ghost var f := Feed(Req.WithLine, line, request.View(), e.input);
      assert e.input[0..] == e.input;
      var i := 0;
      while i < |e.input|
        invariant i <= |e.input| && fault == NoFault && !succeeded
        invariant View() == old(View()).(line := line, request := request.View())
        invariant f == Feed(Req.WithLine, line, request.View(), e.input[i..])
      {
        FeedStep(Req.WithLine, line, request.View(), e.input, i);
        var lastChar := e.input[i];
        i := i + 1;
        line := line + [lastChar];
        if lastChar == '\n' && |line| != 1 {
          fault := request.AddLine(line);
          if fault != NoFault {
            return;
          }
          line := "";
        }
      }
      FeedNothing(Req.WithLine, line, request.View(), e.input[|e.input|..]);
      if request.requestEnded {
        succeeded := true;
      } else if e.inputEnd == -1 {
        SetStage(ErrorStage);
      }
    }

    method ReadProxyHeader(e: Events) returns (fault: Fault, succeeded: bool)
      modifies this, response
      ensures var f := Feed(Res.WithLine, old(upstreamBuffer), old(response.View()), e.input);
              && fault == f.fault && View() == AfterProxyHeader(old(View()), f, e)
              && (fault == NoFault ==> succeeded == f.q.ended)
    {
      hide Feed, Res.WithLine;
      fault, succeeded := NoFault, false;
      ghost var f := Feed(Res.WithLine, upstreamBuffer, response.View(), e.input);
      assert e.input[0..] == e.input;
      var i := 0;
      while i < |e.input|
        invariant i <= |e.input| && fault == NoFault && !succeeded
        invariant View() == old(View()).(buffer := upstreamBuffer, response := response.View())
        invariant f == Feed(Res.WithLine, upstreamBuffer, response.View(), e.input[i..])
      {
        FeedStep(Res.WithLine, upstreamBuffer, response.View(), e.input, i);
        var lastChar := e.input[i];
        i := i + 1;
        upstreamBuffer := upstreamBuffer + [lastChar];
        if lastChar == '\n' && |upstreamBuffer| != 1 {
          fault := response.AddLine(upstreamBuffer);
          if fault != NoFault {
            return;
          }
          upstreamBuffer := "";
        }
      }
      FeedNothing(Res.WithLine, upstreamBuffer, response.View(), e.input[|e.input|..]);
      if response.responseEnded {
        succeeded := true;
      } else if e.inputEnd == -1 {
        SetStage(ErrorStage);
      }
    }

    method ProcessLocation(rx: RegexEngine)
      modifies `stage, `history, `location
      ensures View() == Connection.ProcessLocation(World(rx, settings.View(), lengthName), old(View()))
    {
      hide Route;
      var r := settings.GetLocation(rx, request.url);
      if r.Found? && r.index < |settings.View().Of(r.kind)| {
        var l := settings.View().Of(r.kind)[r.index];
        location := Some(l);
        SetStage(if l.isProxy then PassToProxy else RootFound);
      } else {
        SetStage(RootNotFound);
      }
    }

    method TakePage(p: Page)
      modifies `responseStr, `file, `line, `history
      ensures View() == WithPage(old(View()), p)
    {
      responseStr, file, line := p.header, p.file, "";
      history := history.(header := p.header, content := if p.file.Some? then p.file.value else "");
    }

    /** `make_response_header`, in which the handler may throw. */
    method MakeResponseHeader(e: Events) returns (thrown: bool)
      requires stage.RootFound? || stage.RootNotFound?
      modifies `stage, `responseStr, `file, `line, `history
      ensures var n := Connection.OnRoot(old(View()), e);
              thrown == n.Return? && (thrown ==> View() == n.c)
              && (!thrown ==> View().To(SendHttpHeaderResponse) == n.c)
    {
      if stage.RootFound? {
        if e.found.None? {
          return true;
        }
        if e.found.value.file.Some? {
          TakePage(e.found.value);
          return false;
        }
      }
      SetStage(RootNotFound);
      if e.notFound.None? {
        return true;
      }
      TakePage(e.notFound.value);
      thrown := false;
    }

    /** The loop of `send_header`, which stops at the last byte. */
    method WriteHeader(str: string, pos: nat, toProxy: bool, e: Events) returns (pos': nat, reached: bool)
      modifies `history
      ensures pos' >= pos
      ensures history == old(View()).Wrote(Bytes(str, pos, pos' - pos), toProxy).history
      ensures if reached then pos < Last(str) == pos' && pos' - pos <= e.accepts
              else pos' == pos + e.accepts && (pos < Last(str) ==> pos' < Last(str))
    {
      hide Bytes;
      pos', reached := pos, false;
      var left := e.accepts;
      NoBytes(str, pos);
      ghost var c0 := View();
      while left > 0 && !reached
        invariant 0 <= left <= e.accepts && pos' == pos + (e.accepts - left)
        invariant if reached then pos < Last(str) == pos' else pos < Last(str) ==> pos' < Last(str)
        invariant history == c0.Wrote(Bytes(str, pos, pos' - pos), toProxy).history
        decreases left, !reached
      {
        BytesMore(str, pos, pos' - pos);
        WroteTwice(c0, Bytes(str, pos, pos' - pos), [CStr(str, pos')], toProxy);
        Write([CStr(str, pos')], toProxy);
        left := left - 1;
        pos' := pos' + 1;
        reached := pos' == |str| - 1;
      }
    }

    /** Sends a header from `pos` on, byte by byte, and in place of its last byte CRLF. */
    method SendHeader(str: string, pos: nat, toProxy: bool, e: Events) returns (str': string, pos': nat, done: bool)
      modifies `stage, `history
      ensures var s := Connection.SendHeader(str, pos, e);
              && str' == s.str && pos' == s.pos && done == s.done
      ensures var s := Connection.SendHeader(str, pos, e);
              var c1 := old(View()).Wrote(s.out, toProxy);
              var c2 := if toProxy then c1 else c1.(history := c1.history.(lost := c1.history.lost + s.lost));
              View() == if s.failed then c2.To(ErrorStage) else c2
    {
      hide Bytes, Connection.SendHeader;
      ghost var c0 := View();
      var reached;
      str', done := str, false;
      pos', reached := WriteHeader(str, pos, toProxy, e);
      if reached {
        HeaderReached(str, pos, e, pos' - pos);
        str' := "";
        var taken := Taken(e.closing, 2);
        WroteTwice(c0, Bytes(str, pos, pos' - pos), "\r\n"[..taken], toProxy);
        Write("\r\n"[..taken], toProxy);
        if !toProxy {
          history := history.(lost := history.lost + (2 - taken));
        }
        if e.closing == -1 {
          SetStage(ErrorStage);
        } else {
          done := true;
        }
      } else {
        HeaderPaused(str, pos, e);
        if e.acceptEnd == -1 {
          SetStage(ErrorStage);
        }
      }
    }

    /** The loop of `send_file`: a chunk that is not accepted at all ends it. */
    method WriteChunks(content: string, e: Events) returns (rest: string, attempted: bool, refused: bool)
      modifies `history
      ensures var s := SendChunks(content, e.chunks); var h := old(history);
              && history == h.(toClient := h.toClient + s.out, lost := h.lost + s.lost)
              && rest == s.rest && attempted == s.attempted && (rest == "" && !refused <==> s.atEnd)
    {
      hide SendChunks, Continued, Taken;
      ghost var whole, h := SendChunks(content, e.chunks), history;
      ghost var out := "";
      ghost var lost: nat := 0;
      var chunks := e.chunks;
      rest, attempted, refused := content, false, false;
      NothingYet(content, chunks);
      while rest != "" && !refused
        invariant history == h.(toClient := h.toClient + out, lost := h.lost + lost)
        invariant if refused then whole == FileSent(rest, out, lost, false, true) && attempted
                  else whole == Continued(rest, chunks, out, lost, attempted)
        decreases |rest|, !refused
      {
        ChunkTaken(whole, rest, chunks, out, lost, attempted);
        var n := Min(|rest|, FILE_CHUNK);
        var result := if chunks == [] then -1 else chunks[0];
        var taken := Taken(result, n);
        history := history.(toClient := history.toClient + rest[..taken], lost := history.lost + (n - taken));
        out, lost := out + rest[..taken], lost + (n - taken);
        attempted := true;
        rest := rest[n..];
        if result > 0 {
          chunks := chunks[1..];
        } else {
          refused := true;
        }
      }
      if !refused {
        ChunksEnd(rest, chunks, out, lost, attempted);
      }
    }

    /** Sends the file on in chunks of at most a hundred bytes. */
    method SendFile(e: Events) returns (done: bool)
      modifies `stage, `history, `file
      ensures View() == AfterFile(old(View()), e) && done == FileDone(old(View()), e)
      ensures stage == old(stage) || stage.ErrorStage?
    {
      hide SendChunks, AfterFile, FileDone;
      done := false;
      FileIs(View(), e);
      if file.None? {
        if e.staleResult == -1 {
          SetStage(ErrorStage);
        }
        return;
      }
      var rest, attempted, refused := WriteChunks(file.value, e);
      file := Some(rest);
      if !attempted && e.staleResult == -1 {
        SetStage(ErrorStage);
      } else {
        done := rest == "" && !refused;
      }
    }

    /** Fills the buffer up to its bound, byte by byte. */
    method GetBody(e: Events) returns (done: bool)
      requires sendBodyInd == 0
      modifies `stage, `history, `upstreamBuffer, `bufferReadCount, `getBodyInd
      ensures View() == AfterGet(old(View()), e)
      ensures done == Connection.GetBody(old(bufferReadCount), old(getBodyInd), bodyLength, e).done
    {
      ghost var c0 := View();
      var i := 0;
      while getBodyInd < BUFFER_LENGTH && i < |e.input|
        invariant i <= |e.input| && (i > 0 ==> getBodyInd <= BUFFER_LENGTH)
        invariant getBodyInd == c0.getInd + i && bufferReadCount == c0.readCount + i
        invariant upstreamBuffer == c0.buffer + e.input[..i]
        invariant stage == c0.stage && history == c0.history
      {
        upstreamBuffer := upstreamBuffer + [e.input[i]];
        getBodyInd := getBodyInd + 1;
        bufferReadCount := bufferReadCount + 1;
        i := i + 1;
      }
      if getBodyInd < BUFFER_LENGTH && e.inputEnd == -1 {
        SetStage(ErrorStage);
        done := false;
      } else {
        done := getBodyInd >= BUFFER_LENGTH || bufferReadCount >= bodyLength;
      }
    }

    /** The loop of `send_body`. */
    method WriteBody(toProxy: bool, e: Events) returns (broke: bool)
      modifies `history, `sendBodyInd
      ensures sendBodyInd >= old(sendBodyInd)
      ensures var k := sendBodyInd - old(sendBodyInd);
              && history == old(View()).Wrote(Bytes(upstreamBuffer, old(sendBodyInd), k), toProxy).history
              && (if broke then old(sendBodyInd) < getBodyInd == sendBodyInd && k <= e.accepts
                  else k == e.accepts && (old(sendBodyInd) < getBodyInd ==> sendBodyInd < getBodyInd))
    {
      hide Bytes;
      ghost var c0 := View();
      var left := e.accepts;
      broke := false;
      NoBytes(upstreamBuffer, sendBodyInd);
      while left > 0 && !broke
        invariant 0 <= left <= e.accepts && sendBodyInd == c0.sendInd + (e.accepts - left)
        invariant broke ==> c0.sendInd < getBodyInd == sendBodyInd
        invariant c0.sendInd < getBodyInd && !broke ==> sendBodyInd < getBodyInd
        invariant history == c0.Wrote(Bytes(upstreamBuffer, c0.sendInd, sendBodyInd - c0.sendInd), toProxy).history
        decreases left, !broke
      {
        BytesMore(upstreamBuffer, c0.sendInd, sendBodyInd - c0.sendInd);
        var byte := [CStr(upstreamBuffer, sendBodyInd)];
        WroteTwice(c0, Bytes(upstreamBuffer, c0.sendInd, sendBodyInd - c0.sendInd), byte, toProxy);
        Write(byte, toProxy);
        left := left - 1;
        sendBodyInd := sendBodyInd + 1;
        if sendBodyInd == getBodyInd {
          broke := true;
        }
      }
    }

    /** Drains the buffer, byte by byte. */
    method SendBody(toProxy: bool, e: Events) returns (done: bool)
      modifies `stage, `history, `sendBodyInd
      ensures View() == AfterSend(old(View()), toProxy, e)
      ensures done == Connection.SendBody(old(sendBodyInd), getBodyInd, e).done
      ensures stage == old(stage) || stage.ErrorStage?
    {
      hide Bytes, Connection.SendBody, AfterSend;
      var broke := WriteBody(toProxy, e);
      BodySentIs(old(View()), toProxy, e, sendBodyInd - old(sendBodyInd), broke);
      if !broke && e.acceptEnd == -1 {
        SetStage(ErrorStage);
        done := false;
      } else {
        done := sendBodyInd == getBodyInd;
      }
    }

    // ---------- the parts of connection_processing ----------

    predicate Became(n: Next, status: Option<Status>)
      reads this, request, response
    {
      View() == n.c && status == if n.Return? then Some(n.status) else None
    }

    /** A location to which requests are passed on has a first upstream. */
    predicate CanPass()
      reads this
    {
      stage.PassToProxy? ==> location.Some? && location.value.upstreams != []
    }

    method OnRequest(rx: RegexEngine, e: Events) returns (status: Option<Status>)
      requires ConfigInvariants.ServerOk(settings.View()) && CanPass()
      modifies this, request
      ensures Became(Connection.OnRequest(World(rx, settings.View(), lengthName), old(View()), e), status)
      ensures CanPass() && (status.Some? ==> !stage.PassToProxy?)
    {
      hide Feed, Route, ConfigInvariants.ServerOk, Req.WithLine, Connection.ProcessLocation;
      status := None;
      if !stage.GetRequest? {
        return;
      }
      var fault, succeeded := ReadRequest(e);
      if fault != NoFault {
        SetStage(BadRequest);
        succeeded := e.staleFlag;
      }
      if succeeded {
        PassesToUpstream(rx, View());
        ProcessLocation(rx);
      } else if e.timeout {
        status := Some(TimeoutError);
      }
    }

    /** Where a request is passed on, the location has an upstream. */
    lemma PassesToUpstream(rx: RegexEngine, c: Conn)
      requires ConfigInvariants.ServerOk(settings.View())
      ensures var d := Connection.ProcessLocation(World(rx, settings.View(), lengthName), c);
              d.stage.PassToProxy? ==> d.location.Some? && d.location.value.upstreams != []
    {
      hide Route, ConfigInvariants.ServerOk;
      if Route(rx, settings.View(), c.request.url).Found? {
        ConfigInvariants.ProxyHasUpstream(rx, settings.View(), c.request.url);
      }
    }

    method ConnectToUpstream(e: Events) returns (connected: bool)
      requires location.Some? && location.value.upstreams != []
      ensures connected == e.connected
    {
      var upstream := location.value.upstreams[0];
      connected := e.connected;
    }

    method OnPass(e: Events) returns (status: Option<Status>)
      requires CanPass()
      modifies `stage, `history, `requestStr
      ensures Became(Connection.OnPass(old(View()), e), status)
      ensures !stage.PassToProxy?
    {
      status := None;
      if stage.PassToProxy? {
        var connected := ConnectToUpstream(e);
        if connected {
          SetStage(SendHeaderToProxy);
          var order := e.order(request.headers);
          if Enumerates(order, request.headers) {
            requestStr := request.GetString(order);
          } else {
            requestStr := "";
          }
          status := Some(ProxyForWrite);
        } else {
          SetStage(FailedToConnect);
        }
      }
    }

    method OnRoot(e: Events) returns (status: Option<Status>)
      modifies `stage, `responseStr, `file, `line, `history
      ensures Became(Connection.OnRoot(old(View()), e), status)
      ensures stage.PassToProxy? ==> old(stage).PassToProxy?
      ensures status.Some? ==> !stage.PassToProxy?
    {
      hide SendChunks;
      status := None;
      if stage.RootFound? || stage.RootNotFound? {
        var thrown := MakeResponseHeader(e);
        if thrown {
          status := Some(Thrown);
        } else {
          SetStage(SendHttpHeaderResponse);
        }
      }
    }

    method OnHeaderToProxy(e: Events) returns (status: Option<Status>)
      modifies `stage, `history, `requestStr, `requestPos
      ensures Became(Connection.OnHeaderToProxy(old(View()), e), status)
      ensures stage.PassToProxy? ==> old(stage).PassToProxy?
    {
      hide Connection.SendHeader;
      status := None;
      if stage.SendHeaderToProxy? {
        var done;
        requestStr, requestPos, done := SendHeader(requestStr, requestPos, true, e);
        if done {
          SetStage(GetBodyOrNotFromClient);
        } else if e.timeout {
          SetStage(ProxyTimeout);
        }
      }
    }

    method OnBodyOrNot(rx: RegexEngine) returns (status: Option<Status>)
      modifies `stage, `history, `bodyLength
      ensures Became(Connection.OnBodyOrNot(World(rx, settings.View(), lengthName), old(View())), status)
      ensures stage.PassToProxy? ==> old(stage).PassToProxy?
    {
      hide Connection.SendHeader;
      status := None;
      if stage.GetBodyOrNotFromClient? {
        if request.method_ == "GET" {
          SetStage(GetResponseFromProxy);
          status := Some(ProxyForRead);
        } else {
          SetStage(GetBodyFromClient);
          var length := BodyLength(request.headers, lengthName);
          if length.None? {
            status := Some(Thrown);
          } else {
            bodyLength := length.value;
            status := Some(ClientForRead);
          }
        }
      }
    }

    method OnBodyToProxy(e: Events) returns (status: Option<Status>)
      modifies `stage, `history, `sendBodyInd, `getBodyInd
      ensures Became(Connection.OnBodyToProxy(old(View()), e), status)
      ensures stage.PassToProxy? ==> old(stage).PassToProxy?
    {
      hide AfterSend, Connection.SendBody;
      status := None;
      if stage.SendBodyToProxy? {
        var done := SendBody(true, e);
        if done {
          getBodyInd := 0;
          if bufferReadCount >= bodyLength {
            SetStage(GetResponseFromProxy);
            status := Some(ProxyForRead);
          } else {
            SetStage(GetBodyFromClient);
            status := Some(ClientForRead);
          }
        } else if e.timeout {
          SetStage(ProxyTimeout);
        }
      }
    }

    method OnBodyFromClient(e: Events) returns (status: Option<Status>)
      modifies `stage, `history, `sendBodyInd, `upstreamBuffer, `bufferReadCount, `getBodyInd
      ensures Became(Connection.OnBodyFromClient(old(View()), e), status)
      ensures stage.PassToProxy? ==> old(stage).PassToProxy?
    {
      hide Connection.GetBody;
      status := None;
      if stage.GetBodyFromClient? {
        sendBodyInd := 0;
        var done := GetBody(e);
        if done {
          SetStage(SendBodyToProxy);
          status := Some(ProxyForWrite);
        } else if e.timeout {
          status := Some(TimeoutError);
        }
      }
    }

    method OnProxyResponse(rx: RegexEngine, e: Events) returns (status: Option<Status>)
      modifies this, response
      ensures Became(Connection.OnProxyResponse(World(rx, settings.View(), lengthName), old(View()), e), status)
      ensures stage.PassToProxy? ==> old(stage).PassToProxy?
    {
      hide Feed, Res.WithLine, Res.Printed;
      status := None;
      if stage.GetResponseFromProxy? {
        var fault, succeeded := ReadProxyHeader(e);
        if fault != NoFault {
          succeeded := e.staleFlag;
        }
        if succeeded {
          var order := e.order(response.headers);
          if Enumerates(order, response.headers) {
            responseStr := response.GetString(order);
          } else {
            responseStr := "";
          }
          var length := BodyLength(response.headers, lengthName);
          if length.None? {
            return Some(Thrown);
          }
          bodyLength := length.value;
          SetStage(SendProxyResponseToClient);
          status := Some(ClientForWrite);
        } else if e.timeout {
          SetStage(ProxyTimeout);
        }
      }
    }

    method OnBodyFromProxy(e: Events) returns (status: Option<Status>)
      modifies `stage, `history, `sendBodyInd, `upstreamBuffer, `bufferReadCount, `getBodyInd
      ensures Became(Connection.OnBodyFromProxy(old(View()), e), status)
      ensures stage.PassToProxy? ==> old(stage).PassToProxy?
    {
      hide Connection.GetBody;
      status := None;
      if stage.GetBodyFromProxy? {
        sendBodyInd := 0;
        var done := GetBody(e);
        if done {
          SetStage(SendBodyToClient);
          status := Some(ProxyForWrite);
        } else if e.timeout {
          status := Some(TimeoutError);
        } else {
          status := Some(ClientForWrite);
        }
      }
    }

    method OnBodyToClient(e: Events) returns (status: Option<Status>)
      modifies `stage, `history, `sendBodyInd, `getBodyInd
      ensures Became(Connection.OnBodyToClient(old(View()), e), status)
      ensures stage.PassToProxy? ==> old(stage).PassToProxy?
    {
      hide AfterSend, Connection.SendBody;
      status := None;
      if stage.SendBodyToClient? {
        var done := SendBody(false, e);
        if done {
          getBodyInd := 0;
          if bufferReadCount >= bodyLength {
            status := Some(Finished);
          } else {
            SetStage(GetBodyFromProxy);
            status := Some(ProxyForRead);
          }
        } else if e.timeout {
          SetStage(ProxyTimeout);
        }
      }
    }

    method OnResponseToClient(e: Events) returns (status: Option<Status>)
      modifies `stage, `history, `responseStr, `responsePos
      ensures Became(Connection.OnResponseToClient(old(View()), e), status)
      ensures stage.PassToProxy? ==> old(stage).PassToProxy?
    {
      hide Connection.SendHeader;
      status := None;
      if stage.SendProxyResponseToClient? {
        var done;
        responseStr, responsePos, done := SendHeader(responseStr, responsePos, false, e);
        if done {
          SetStage(GetBodyFromProxy);
          status := Some(ProxyForRead);
        } else if e.timeout {
          status := Some(TimeoutError);
        }
      }
    }

    method OnHeaderToClient(e: Events) returns (status: Option<Status>)
      modifies `stage, `history, `responseStr, `responsePos
      ensures Became(Connection.OnHeaderToClient(old(View()), e), status)
      ensures stage.PassToProxy? ==> old(stage).PassToProxy?
    {
      hide Connection.SendHeader;
      status := None;
      if stage.SendHttpHeaderResponse? {
        var done;
        responseStr, responsePos, done := SendHeader(responseStr, responsePos, false, e);
        if done {
          SetStage(Stage.SendFile);
        } else if e.timeout {
          status := Some(TimeoutError);
        }
      }
    }

    method OnFile(e: Events) returns (status: Option<Status>)
      modifies `stage, `history, `file
      ensures Became(Connection.OnFile(old(View()), e), status)
      ensures stage.PassToProxy? ==> old(stage).PassToProxy?
    {
      hide AfterFile, FileDone;
      status := None;
      if stage.SendFile? {
        var done := SendFile(e);
        if done {
          status := Some(Finished);
        } else if e.timeout {
          status := Some(TimeoutError);
        }
      }
    }

    /** `connection_processing`: the parts in turn, until one returns. */
    method ConnectionProcessing(rx: RegexEngine, e: Events) returns (status: Status)
      requires ConfigInvariants.ServerOk(settings.View()) && !stage.PassToProxy?
      modifies this, request, response
      ensures Return(View(), status) == Process(World(rx, settings.View(), lengthName), old(View()), e)
      ensures !stage.PassToProxy?
    {
      hide Connection.OnRequest, Connection.OnRoot, Connection.OnPass, Connection.OnHeaderToProxy,
        Connection.OnBodyOrNot, Connection.Relay, Connection.Respond;
      if stage.ErrorStage? {
        return Failed;
      }
      var r := OnRequest(rx, e);
      if r.Some? { return r.value; }
      r := OnRoot(e);
      if r.Some? { return r.value; }
      r := OnPass(e);
      if r.Some? { return r.value; }
      r := OnHeaderToProxy(e);
      if r.Some? { return r.value; }
      r := OnBodyOrNot(rx);
      if r.Some? { return r.value; }
      r := Relay(rx, e);
      if r.Some? { return r.value; }
      r := Respond(e);
      status := r.value;
    }

    method Relay(rx: RegexEngine, e: Events) returns (status: Option<Status>)
      requires !stage.PassToProxy?
      modifies this, response
      ensures Became(Connection.Relay(World(rx, settings.View(), lengthName), old(View()), e), status)
      ensures !stage.PassToProxy?
    {
      hide Connection.OnBodyToProxy, Connection.OnBodyFromClient, Connection.OnProxyResponse,
        Connection.OnBodyFromProxy, Connection.OnBodyToClient;
      status := OnBodyToProxy(e);
      if status.Some? { return; }
      status := OnBodyFromClient(e);
      if status.Some? { return; }
      status := OnProxyResponse(rx, e);
      if status.Some? { return; }
      status := OnBodyFromProxy(e);
      if status.Some? { return; }
      status := OnBodyToClient(e);
    }

    method Respond(e: Events) returns (status: Option<Status>)
      requires !stage.PassToProxy?
      modifies this
      ensures Became(Connection.Respond(old(View()), e), status)
      ensures status.Some? && !stage.PassToProxy?
    {
      hide Connection.OnResponseToClient, Connection.OnHeaderToClient, Connection.OnFile;
      status := OnResponseToClient(e);
      if status.Some? { return; }
      status := OnHeaderToClient(e);
      if status.Some? { return; }
      status := OnFile(e);
      if status.None? {
        status := Some(Processing);
      }
    }
  }

  lemma HeaderReached(str: string, pos: nat, e: Events, k: nat)
    requires pos < Last(str) == pos + k && k <= e.accepts
    ensures var taken := Taken(e.closing, 2);
            Connection.SendHeader(str, pos, e)
            == HeaderSent("", pos + k, Bytes(str, pos, k) + "\r\n"[..taken], e.closing != -1, e.closing == -1,
                          2 - taken)
  {
  }

  lemma HeaderPaused(str: string, pos: nat, e: Events)
    requires pos < Last(str) ==> pos + e.accepts < Last(str)
    ensures Connection.SendHeader(str, pos, e)
            == HeaderSent(str, pos + e.accepts, Bytes(str, pos, e.accepts), false, e.acceptEnd == -1, 0)
  {
  }

  lemma BodySentIs(c: Conn, toProxy: bool, e: Events, k: nat, broke: bool)
    requires if broke then c.sendInd < c.getInd == c.sendInd + k && k <= e.accepts
             else k == e.accepts && (c.sendInd < c.getInd ==> c.sendInd + k < c.getInd)
    ensures var c1 := c.(sendInd := c.sendInd + k).Wrote(Bytes(c.buffer, c.sendInd, k), toProxy);
            var failed := !broke && e.acceptEnd == -1;
            && AfterSend(c, toProxy, e) == (if failed then c1.To(ErrorStage) else c1)
            && Connection.SendBody(c.sendInd, c.getInd, e).done == (!failed && c.sendInd + k == c.getInd)
  {
  }

  lemma FileIs(c: Conn, e: Events)
    ensures c.file.None? ==> AfterFile(c, e) == (if e.staleResult == -1 then c.To(ErrorStage) else c) && !FileDone(c, e)
    ensures c.file.Some? ==>
              var s := SendChunks(c.file.value, e.chunks);
              var c1 := c.(file := Some(s.rest),
                           history := c.history.(toClient := c.history.toClient + s.out,
                                                 lost := c.history.lost + s.lost));
              var failed := !s.attempted && e.staleResult == -1;
              AfterFile(c, e) == (if failed then c1.To(ErrorStage) else c1) && FileDone(c, e) == (s.atEnd && !failed)
  {
  }

  lemma NoBytes(s: string, from: nat)
    ensures Bytes(s, from, 0) == ""
  {
  }

  lemma BytesMore(s: string, from: nat, k: nat)
    ensures Bytes(s, from, k + 1) == Bytes(s, from, k) + [CStr(s, from + k)]
  {
  }

  lemma WroteTwice(c: Conn, a: string, b: string, toProxy: bool)
    ensures c.Wrote(a, toProxy).Wrote(b, toProxy) == c.Wrote(a + b, toProxy)
  {
    var h := c.history;
    assert (h.toProxy + a) + b == h.toProxy + (a + b);
    assert (h.toClient + a) + b == h.toClient + (a + b);
  }

  /** What the loop of `send_file` ends in, some chunks having been written already. */
  function Continued(rest: string, chunks: seq<int>, out: string, lost: nat, attempted: bool): FileSent {
    var more := SendChunks(rest, chunks);
    FileSent(more.rest, out + more.out, lost + more.lost, more.atEnd, attempted || more.attempted)
  }

  lemma NothingYet(rest: string, chunks: seq<int>)
    ensures Continued(rest, chunks, "", 0, false) == SendChunks(rest, chunks)
  {
  }

  lemma ChunksEnd(rest: string, chunks: seq<int>, out: string, lost: nat, attempted: bool)
    requires rest == ""
    ensures Continued(rest, chunks, out, lost, attempted) == FileSent("", out, lost, true, attempted)
  {
  }

  /** One chunk of the loop. */
  lemma ChunkTaken(whole: FileSent, rest: string, chunks: seq<int>, out: string, lost: nat, attempted: bool)
    requires rest != "" && whole == Continued(rest, chunks, out, lost, attempted)
    ensures var n := Min(|rest|, FILE_CHUNK);
            var result := if chunks == [] then -1 else chunks[0];
            var taken := Taken(result, n);
            && taken <= n <= |rest| && n > 0
            && whole == if result > 0
                        then Continued(rest[n..], chunks[1..], out + rest[..taken], lost + (n - taken), true)
                        else FileSent(rest[n..], out + rest[..taken], lost + (n - taken), false, true)
  {
    var n := Min(|rest|, FILE_CHUNK);
    if chunks != [] && chunks[0] > 0 {
      var taken, more := Taken(chunks[0], n), SendChunks(rest[n..], chunks[1..]);
      assert out + (rest[..taken] + more.out) == (out + rest[..taken]) + more.out;
    }
  }

  lemma FeedNothing<Q>(add: (Q, string) -> Parsed<Q>, line: string, q: Q, bytes: string)
    requires bytes == ""
    ensures Feed(add, line, q, bytes) == Fed(line, q, NoFault, "")
  {
  }
}
