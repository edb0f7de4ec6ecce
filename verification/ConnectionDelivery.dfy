/** When a response is delivered whole, told from what the writes return. */
module ConnectionDelivery {
  import opened Text
  import opened ServerSettings
  import opened Wire
  import opened Connection
  import opened ConnectionSafety

  // ---------- writes that take all they are given ----------

  /** If this call of `send_header` comes to the closing line end, that write returns 2. (No write returns more
      than it was given.) */
  predicate ClosesFully(str: string, pos: nat, e: Events) {
    pos < Last(str) <= pos + e.accepts ==> e.closing >= 2
  }

  /** Every chunk of the file that is written in this call is taken whole; past the given answers a write fails. */
  predicate ChunksTakenWhole(file: string, chunks: seq<int>)
    decreases |file|
  {
    if file == "" then true
    else
      var n := if |file| < 100 then |file| else 100;
      chunks != [] && chunks[0] >= n && ChunksTakenWhole(file[n..], chunks[1..])
  }

  /** The writes to the client in the last part of a call. */
  predicate RespondsFully(c: Conn, e: Events) {
    && (c.stage.SendProxyResponseToClient? || c.stage.SendHttpHeaderResponse? ==>
          ClosesFully(c.responseStr, c.responsePos, e))
    && var n := OnHeaderToClient(c, e);
    n.Go? && n.c.stage.SendFile? && n.c.file.Some? ==> ChunksTakenWhole(n.c.file.value, e.chunks)
  }

  predicate CallWritesFully(w: World, c: Conn, e: Events) {
    c.stage.ErrorStage?
    || var n1 := Begin(w, c, e);
    n1.Go? ==> var n2 := Relay(w, n1.c, e); n2.Go? ==> RespondsFully(n2.c, e)
  }

  /** In all calls of a run. */
  predicate WritesFully(w: World, run: Run, events: seq<Events>)
    decreases |events|
  {
    if events == [] || Terminal(run.status) then true
    else
      var n := Process(w, run.c, events[0]);
      CallWritesFully(w, run.c, events[0])
      && WritesFully(w, Run(n.c, Watch(run.side, n.status), n.status), events[1..])
  }

  // ---------- they are those that lose nothing ----------

  lemma HeaderLoses(str: string, pos: nat, e: Events)
    ensures SendHeader(str, pos, e).lost == 0 <==> ClosesFully(str, pos, e)
  {
  }

  lemma {:induction false} ChunksLose(file: string, chunks: seq<int>)
    ensures SendChunks(file, chunks).lost == 0 <==> ChunksTakenWhole(file, chunks)
    decreases |file|
  {
    if file != "" && chunks != [] && chunks[0] > 0 {
      ChunksLose(file[Min(|file|, FILE_CHUNK)..], chunks[1..]);
    }
  }

  lemma BeginLosesNothing(w: World, c: Conn, e: Events)
    ensures Begin(w, c, e).c.history.lost == c.history.lost
  {
    hide OnRequest, OnRoot, OnPass, OnHeaderToProxy, OnBodyOrNot;
    FirstPartsLoseNothing(w, c, e);
    var n1 := OnRequest(w, c, e);
    FirstPartsLoseNothing(w, n1.c, e);
    var n2 := OnRoot(n1.c, e);
    FirstPartsLoseNothing(w, n2.c, e);
    var n3 := OnPass(n2.c, e);
    FirstPartsLoseNothing(w, n3.c, e);
    FirstPartsLoseNothing(w, OnHeaderToProxy(n3.c, e).c, e);
  }

  lemma FirstPartsLoseNothing(w: World, c: Conn, e: Events)
    ensures OnRequest(w, c, e).c.history.lost == c.history.lost
    ensures OnRoot(c, e).c.history.lost == c.history.lost
    ensures OnPass(c, e).c.history.lost == c.history.lost
    ensures OnHeaderToProxy(c, e).c.history.lost == c.history.lost
    ensures OnBodyOrNot(w, c).c.history.lost == c.history.lost
  {
    hide Feed, Route, SendHeader, Bytes;
  }

  lemma RelayLosesNothing(w: World, c: Conn, e: Events)
    ensures Relay(w, c, e).c.history.lost == c.history.lost
  {
    hide OnBodyToProxy, OnBodyFromClient, OnProxyResponse, OnBodyFromProxy, OnBodyToClient;
    PartsLoseNothing(w, c, e);
    var n1 := OnBodyToProxy(c, e);
    PartsLoseNothing(w, n1.c, e);
    var n2 := OnBodyFromClient(n1.c, e);
    PartsLoseNothing(w, n2.c, e);
    var n3 := OnProxyResponse(w, n2.c, e);
    PartsLoseNothing(w, n3.c, e);
    var n4 := OnBodyFromProxy(n3.c, e);
    PartsLoseNothing(w, n4.c, e);
  }

  lemma PartsLoseNothing(w: World, c: Conn, e: Events)
    ensures OnBodyToProxy(c, e).c.history.lost == c.history.lost
    ensures OnBodyFromClient(c, e).c.history.lost == c.history.lost
    ensures OnProxyResponse(w, c, e).c.history.lost == c.history.lost
    ensures OnBodyFromProxy(c, e).c.history.lost == c.history.lost
    ensures OnBodyToClient(c, e).c.history.lost == c.history.lost
  {
    hide Feed, SendBody, GetBody, Bytes;
  }

  lemma HeaderPartsLose(c: Conn, e: Events)
    ensures var n := OnResponseToClient(c, e);
            && n.c.history.lost >= c.history.lost
            && (n.c.history.lost == c.history.lost <==>
                  (c.stage.SendProxyResponseToClient? ==> ClosesFully(c.responseStr, c.responsePos, e)))
            && (n.c.stage == c.stage || !n.c.stage.SendHttpHeaderResponse?)
            && (n.Go? && n.c.stage != c.stage ==> n.c.stage.ErrorStage?)
            && (!c.stage.SendProxyResponseToClient? ==> n == Go(c))
    ensures var n := OnHeaderToClient(c, e);
            && n.c.history.lost >= c.history.lost
            && (n.c.history.lost == c.history.lost <==>
                  (c.stage.SendHttpHeaderResponse? ==> ClosesFully(c.responseStr, c.responsePos, e)))
            && (!c.stage.SendHttpHeaderResponse? ==> n == Go(c))
  {
    hide SendHeader, ClosesFully, Bytes;
    HeaderLoses(c.responseStr, c.responsePos, e);
  }

  lemma FilePartLoses(c: Conn, e: Events)
    ensures var n := OnFile(c, e);
            && n.c.history.lost >= c.history.lost
            && (n.c.history.lost == c.history.lost <==>
                  (c.stage.SendFile? && c.file.Some? ==> ChunksTakenWhole(c.file.value, e.chunks)))
  {
    hide SendChunks, ChunksTakenWhole;
    if c.file.Some? {
      ChunksLose(c.file.value, e.chunks);
    }
  }

  lemma RespondLoses(c: Conn, e: Events)
    ensures Respond(c, e).c.history.lost >= c.history.lost
    ensures Respond(c, e).c.history.lost == c.history.lost <==> RespondsFully(c, e)
  {
    hide OnResponseToClient, OnHeaderToClient, OnFile, ClosesFully, ChunksTakenWhole;
    HeaderPartsLose(c, e);
    var n1 := OnResponseToClient(c, e);
    if n1.Go? {
      HeaderPartsLose(n1.c, e);
      FilePartLoses(OnHeaderToClient(n1.c, e).c, e);
    }
  }

  lemma CallLoses(w: World, c: Conn, e: Events)
    ensures Process(w, c, e).c.history.lost >= c.history.lost
    ensures Process(w, c, e).c.history.lost == c.history.lost <==> CallWritesFully(w, c, e)
  {
    hide Begin, Relay, Respond, RespondsFully;
    var n1 := Begin(w, c, e);
    BeginLosesNothing(w, c, e);
    RelayLosesNothing(w, n1.c, e);
    RespondLoses(Relay(w, n1.c, e).c, e);
  }

  lemma {:induction false} RunLoses(w: World, run: Run, events: seq<Events>)
    ensures Calls(w, run, events).c.history.lost >= run.c.history.lost
    ensures Calls(w, run, events).c.history.lost == run.c.history.lost <==> WritesFully(w, run, events)
    decreases |events|
  {
    hide Process, CallWritesFully;
    if events != [] && !Terminal(run.status) {
      CallLoses(w, run.c, events[0]);
      var n := Process(w, run.c, events[0]);
      RunLoses(w, Run(n.c, Watch(run.side, n.status), n.status), events[1..]);
    }
  }

  // ---------- main results ----------

  /** On the static path the client has got a prefix of header and file as long as every write has taken all it
      was given, and when the connection is finished it has got them whole if and only if every write has. */
  lemma StaticResponse(w: World, c: Conn, events: seq<Events>)
    requires Fresh(c) && AllPossible(events)
    ensures var run := Calls(w, Run(c, ClientSide, Processing), events); var got := run.c.history.toClient;
            var fully := WritesFully(w, Run(c, ClientSide, Processing), events);
            NoneProxied(run.c) ==>
              && (fully ==> got <= Response(run.c))
              && (run.status.Finished? ==> (got == Response(run.c) <==> fully))
  {
    hide Calls, Watched, NoneProxied, WritesFully;
    FreshOk(c);
    RunsKeep(w, Run(c, ClientSide, Processing), events);
    RunLoses(w, Run(c, ClientSide, Processing), events);
    var run := Calls(w, Run(c, ClientSide, Processing), events);
    if NoneProxied(run.c) && run.status.Finished? {
      WholeFile(run.c);
    }
  }

  // ---------- what a stage uses ----------

  /** The stages a call can pass through, having begun in a stage that uses the given side. */
  predicate Beside(side: Side, s: Stage) {
    match side
    case ClientSide => !s.SendHeaderToProxy? && !s.GetBodyOrNotFromClient? && !s.SendBodyToProxy?
    case UpstreamSide =>
      s.SendHeaderToProxy? || s.GetBodyOrNotFromClient? || s.SendBodyToProxy? || s.GetResponseFromProxy?
      || s.GetBodyFromProxy? || s.ProxyTimeout? || s.ErrorStage?
  }

  /** Nothing is written to the other side, and the call stays beside this one. */
  predicate Spares(side: Side, c: Conn, n: Next) {
    && (n.Go? ==> Beside(side, n.c.stage))
    && (if side == ClientSide then n.c.history.toProxy == c.history.toProxy
        else n.c.history.toClient == c.history.toClient)
  }

  lemma BeginSpares(side: Side, w: World, c: Conn, e: Events)
    requires Beside(side, c.stage)
    ensures Spares(side, c, OnRequest(w, c, e)) && Spares(side, c, OnRoot(c, e)) && Spares(side, c, OnPass(c, e))
    ensures Spares(side, c, OnHeaderToProxy(c, e)) && Spares(side, c, OnBodyOrNot(w, c))
  {
    hide Feed, Route, SendHeader, Bytes;
  }

  lemma RelaySpares(side: Side, w: World, c: Conn, e: Events)
    requires Beside(side, c.stage)
    ensures Spares(side, c, OnBodyToProxy(c, e)) && Spares(side, c, OnBodyFromClient(c, e))
    ensures Spares(side, c, OnProxyResponse(w, c, e))
    ensures Spares(side, c, OnBodyFromProxy(c, e)) && Spares(side, c, OnBodyToClient(c, e))
  {
    hide Feed, SendBody, GetBody, Bytes;
  }

  lemma RespondSpares(side: Side, c: Conn, e: Events)
    requires Beside(side, c.stage)
    ensures Spares(side, c, OnResponseToClient(c, e)) && Spares(side, c, OnHeaderToClient(c, e))
    ensures Spares(side, c, OnFile(c, e))
  {
    hide SendHeader, SendChunks, Bytes;
  }

  lemma AllOfBeginSpares(side: Side, w: World, c: Conn, e: Events)
    requires Beside(side, c.stage)
    ensures Spares(side, c, Begin(w, c, e))
  {
    hide OnRequest, OnRoot, OnPass, OnHeaderToProxy, OnBodyOrNot, Beside;
    BeginSpares(side, w, c, e);
    var n1 := OnRequest(w, c, e);
    if n1.Go? {
      BeginSpares(side, w, n1.c, e);
      var n2 := OnRoot(n1.c, e);
      if n2.Go? {
        BeginSpares(side, w, n2.c, e);
        var n3 := OnPass(n2.c, e);
        if n3.Go? {
          BeginSpares(side, w, n3.c, e);
          var n4 := OnHeaderToProxy(n3.c, e);
          if n4.Go? {
            BeginSpares(side, w, n4.c, e);
          }
        }
      }
    }
  }

  lemma AllOfRelaySpares(side: Side, w: World, c: Conn, e: Events)
    requires Beside(side, c.stage)
    ensures Spares(side, c, Relay(w, c, e))
  {
    hide OnBodyToProxy, OnBodyFromClient, OnProxyResponse, OnBodyFromProxy, OnBodyToClient, Beside;
    RelaySpares(side, w, c, e);
    var n1 := OnBodyToProxy(c, e);
    if n1.Go? {
      RelaySpares(side, w, n1.c, e);
      var n2 := OnBodyFromClient(n1.c, e);
      if n2.Go? {
        RelaySpares(side, w, n2.c, e);
        var n3 := OnProxyResponse(w, n2.c, e);
        if n3.Go? {
          RelaySpares(side, w, n3.c, e);
          var n4 := OnBodyFromProxy(n3.c, e);
          if n4.Go? {
            RelaySpares(side, w, n4.c, e);
          }
        }
      }
    }
  }

  lemma AllOfRespondSpares(side: Side, c: Conn, e: Events)
    requires Beside(side, c.stage)
    ensures Spares(side, c, Respond(c, e))
  {
    hide OnResponseToClient, OnHeaderToClient, OnFile, Beside;
    RespondSpares(side, c, e);
    var n1 := OnResponseToClient(c, e);
    if n1.Go? {
      RespondSpares(side, n1.c, e);
      var n2 := OnHeaderToClient(n1.c, e);
      if n2.Go? {
        RespondSpares(side, n2.c, e);
      }
    }
  }

  /** A stage that uses one side writes nothing to the other one in the same call. */
  lemma UsesItsSide(w: World, c: Conn, e: Events)
    requires Uses(c.stage).Some?
    ensures Spares(Uses(c.stage).value, c, Process(w, c, e))
  {
    hide Begin, Relay, Respond;
    var side := Uses(c.stage).value;
    AllOfBeginSpares(side, w, c, e);
    var n1 := Begin(w, c, e);
    if n1.Go? {
      AllOfRelaySpares(side, w, n1.c, e);
      var n2 := Relay(w, n1.c, e);
      if n2.Go? {
        AllOfRespondSpares(side, n2.c, e);
      }
    }
  }
}
