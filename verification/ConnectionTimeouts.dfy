/** What becomes of a connection whose stage is not through in a call. */
module ConnectionTimeouts {
  import opened Text
  import opened HttpBase
  import opened ServerSettings
  import opened Wire
  import opened Connection
  import opened ConnectionSafety
  import opened ConnectionReads
  import Req = HttpRequest
  import Res = HttpResponse

  // ---------- what a stage waits for, and what breaks it ----------

  /** All but the last byte of the text, and the line end, are written: the last byte is never sent. */
  predicate HeaderThrough(str: string, pos: nat, e: Events) {
    |str| >= 2 && pos < |str| - 1 <= pos + e.accepts && e.closing != -1
  }

  predicate HeaderBreaks(str: string, pos: nat, e: Events) {
    if |str| >= 2 && pos < |str| - 1 <= pos + e.accepts then e.closing == -1 else e.acceptEnd == -1
  }

  /** The bytes up to the index that has been filled are written; where there is none, nothing fails. */
  predicate BodyThrough(c: Conn, e: Events) {
    c.sendInd < c.getInd <= c.sendInd + e.accepts || (c.sendInd == c.getInd && e.accepts == 0 && e.acceptEnd != -1)
  }

  predicate FillThrough(c: Conn, e: Events) {
    c.getInd + |e.input| >= 1024 || (e.inputEnd != -1 && c.readCount + |e.input| >= c.bodyLength)
  }

  /** Something of every chunk of the file is accepted, or the file is empty and the variable that is looked at holds
      anything but -1. */
  predicate FileThrough(c: Conn, e: Events) {
    c.file.Some? && if c.file.value == "" then e.staleResult != -1 else AllTaken(c.file.value, e.chunks)
  }

  predicate AllTaken(file: string, chunks: seq<int>) {
    |file| <= 100 * |chunks| && forall i :: 0 <= i < |chunks| && 100 * i < |file| ==> chunks[i] > 0
  }

  /** What the stage waits for does not come to its end in this call. */
  predicate NotThrough(c: Conn, e: Events) {
    match c.stage
    case GetRequest => var f := Feed(Req.WithLine, c.line, c.request, e.input); f.fault == NoFault && !f.q.ended
    case GetResponseFromProxy =>
      var f := Feed(Res.WithLine, c.buffer, c.response, e.input);
      if f.fault == NoFault then !f.q.ended else !e.staleFlag
    case SendHeaderToProxy => !HeaderThrough(c.requestStr, c.requestPos, e)
    case SendProxyResponseToClient => !HeaderThrough(c.responseStr, c.responsePos, e)
    case SendHttpHeaderResponse => !HeaderThrough(c.responseStr, c.responsePos, e)
    case GetBodyFromClient => !FillThrough(c, e)
    case GetBodyFromProxy => !FillThrough(c, e)
    case SendBodyToProxy => !BodyThrough(c, e)
    case SendBodyToClient => !BodyThrough(c, e)
    case SendFile => !FileThrough(c, e)
    case _ => false
  }

  /** A read or a write has failed. Not so in the sending of a file: there a write that fails only ends the call. */
  predicate Breaks(c: Conn, e: Events) {
    match c.stage
    case GetRequest => e.inputEnd == -1
    case GetResponseFromProxy => Feed(Res.WithLine, c.buffer, c.response, e.input).fault == NoFault && e.inputEnd == -1
    case SendHeaderToProxy => HeaderBreaks(c.requestStr, c.requestPos, e)
    case SendProxyResponseToClient => HeaderBreaks(c.responseStr, c.responsePos, e)
    case SendHttpHeaderResponse => HeaderBreaks(c.responseStr, c.responsePos, e)
    case GetBodyFromClient => e.inputEnd == -1
    case GetBodyFromProxy => e.inputEnd == -1
    case SendBodyToProxy => e.acceptEnd == -1
    case SendBodyToClient => e.acceptEnd == -1
    case SendFile => (c.file == None || c.file.value == "") && e.staleResult == -1
    case _ => false
  }

  /** `send_file` comes to the end of the file exactly if something of every chunk is accepted. A chunk that is not
      accepted ends it, and is skipped by the next call. */
  lemma {:induction false} ChunksExactly(file: string, chunks: seq<int>, k: nat)
    requires k <= |chunks| && (forall i :: 0 <= i < k ==> chunks[i] > 0) && (k < |chunks| ==> chunks[k] <= 0)
    ensures var s := SendChunks(file, chunks);
            && (s.atEnd <==> |file| <= 100 * k) && (s.attempted <==> file != "")
            && s.rest == (if |file| <= 100 * (k + 1) then "" else file[100 * (k + 1)..])
    decreases |file|
  {
    if file != "" && k > 0 {
      var n := Min(|file|, 100);
      ChunksExactly(file[n..], chunks[1..], k - 1);
      if |file| > 100 * (k + 1) {
        assert file[100..][100 * k..] == file[100 * (k + 1)..];
      }
    }
  }

  lemma AcceptedChunks(chunks: seq<int>) returns (k: nat)
    ensures k <= |chunks| && (forall i :: 0 <= i < k ==> chunks[i] > 0) && (k < |chunks| ==> chunks[k] <= 0)
  {
    k := 0;
    while k < |chunks| && chunks[k] > 0
      invariant k <= |chunks| && forall i :: 0 <= i < k ==> chunks[i] > 0
    {
      k := k + 1;
    }
  }

  lemma HeaderIsThrough(str: string, pos: nat, e: Events)
    ensures SendHeader(str, pos, e).done <==> HeaderThrough(str, pos, e)
    ensures SendHeader(str, pos, e).failed <==> HeaderBreaks(str, pos, e)
  {
    hide Bytes;
  }

  lemma FillIsThrough(c: Conn, e: Events)
    ensures var g := GetBody(c.readCount, c.getInd, c.bodyLength, e);
            && (g.done <==> FillThrough(c, e))
            && (!g.done ==> (g.failed <==> e.inputEnd == -1))
  {
  }

  lemma DrainIsThrough(c: Conn, e: Events)
    ensures var s := SendBody(c.sendInd, c.getInd, e);
            && (s.done <==> BodyThrough(c, e))
            && (!s.done ==> (s.failed <==> e.acceptEnd == -1))
  {
  }

  lemma FileIsThrough(c: Conn, e: Events)
    ensures FileThrough(c, e) <==> FileDone(c, e)
  {
    hide SendChunks;
    if c.file.Some? {
      var k := AcceptedChunks(e.chunks);
      ChunksExactly(c.file.value, e.chunks, k);
      if k < |e.chunks| && 100 * k < |c.file.value| {
        assert e.chunks[k] <= 0;
      }
    }
  }

  /** The stages that give up on the upstream, and not on the client, when the time is up. The sending of a body to the
      client is one of them. */
  predicate BlamesUpstream(s: Stage) {
    s.SendHeaderToProxy? || s.SendBodyToProxy? || s.GetResponseFromProxy? || s.SendBodyToClient?
  }

  /** Time up, or broken, or to be called again in the same stage. */
  predicate LeftWaiting(c: Conn, e: Events, n: Next) {
    n.Return?
    && if e.timeout then
         if BlamesUpstream(c.stage) then n.status.Processing? && n.c.stage.ProxyTimeout? else n.status.TimeoutError?
       else
         && n.c.stage == (if Breaks(c, e) then ErrorStage else c.stage)
         && n.status == if c.stage.GetBodyFromProxy? then ClientForWrite else Processing
  }

  lemma RequestWaits(w: World, c: Conn, e: Events)
    requires NotThrough(c, e) && c.stage.GetRequest?
    ensures LeftWaiting(c, e, Process(w, c, e))
  {
    hide Feed, SendHeader, Bytes, Connection.Relay, Respond, Route;
    var n := Begin(w, c, e);
    if n.Go? {
      RestIsIdle(w, n.c, e);
    }
  }

  lemma HeaderWaits(w: World, c: Conn, e: Events)
    requires NotThrough(c, e) && c.stage.SendHeaderToProxy?
    ensures LeftWaiting(c, e, Process(w, c, e))
  {
    hide Feed, SendHeader, Bytes, Connection.Relay, Respond, Route, HeaderThrough, HeaderBreaks;
    HeaderIsThrough(c.requestStr, c.requestPos, e);
    var n := Begin(w, c, e);
    if n.Go? {
      RelayIsIdle(w, n.c, e);
      RespondIsIdle(n.c, e);
    }
  }

  lemma BodyFills(w: World, c: Conn, e: Events)
    requires NotThrough(c, e) && (c.stage.GetBodyFromClient? || c.stage.GetBodyFromProxy?)
    ensures LeftWaiting(c, e, Process(w, c, e))
  {
    hide Feed, GetBody, Begin, Respond, FillThrough;
    FillIsThrough(c, e);
    BeginIsIdle(w, c, e);
    var n := Connection.Relay(w, c, e);
    if n.Go? {
      RespondIsIdle(n.c, e);
    }
  }

  lemma DrainsToProxy(w: World, c: Conn, e: Events)
    requires NotThrough(c, e) && c.stage.SendBodyToProxy?
    ensures LeftWaiting(c, e, Process(w, c, e))
  {
    hide Feed, SendBody, Bytes, Begin, Respond, BodyThrough;
    DrainIsThrough(c, e);
    BeginIsIdle(w, c, e);
    var n := Connection.Relay(w, c, e);
    if n.Go? {
      RespondIsIdle(n.c, e);
    }
  }

  lemma DrainsToClient(w: World, c: Conn, e: Events)
    requires NotThrough(c, e) && c.stage.SendBodyToClient?
    ensures LeftWaiting(c, e, Process(w, c, e))
  {
    hide Feed, SendBody, Bytes, Begin, Respond, BodyThrough;
    DrainIsThrough(c, e);
    BeginIsIdle(w, c, e);
    var n := Connection.Relay(w, c, e);
    if n.Go? {
      RespondIsIdle(n.c, e);
    }
  }

  lemma ResponseWaits(w: World, c: Conn, e: Events)
    requires NotThrough(c, e) && c.stage.GetResponseFromProxy?
    ensures LeftWaiting(c, e, Process(w, c, e))
  {
    hide Feed, Respond, Begin, OnBodyToProxy, OnBodyFromClient, OnBodyFromProxy, OnBodyToClient, BodyLength, Enumerates,
      Res.Printed, HeaderThrough, HeaderBreaks, BodyThrough, FillThrough, FileThrough;
    OnlyReadsHeader(w, c, e);
    AfterHeaderIsIdle(OnProxyResponse(w, c, e).c, e);
  }

  lemma Answers(w: World, c: Conn, e: Events)
    requires NotThrough(c, e)
    requires c.stage.SendProxyResponseToClient? || c.stage.SendHttpHeaderResponse? || c.stage.SendFile?
    ensures LeftWaiting(c, e, Process(w, c, e))
  {
    hide SendHeader, SendChunks, Bytes, Begin, Connection.Relay, HeaderThrough, HeaderBreaks, FileThrough;
    AnswerStagesAreIdle(w, c, e);
    HeaderIsThrough(c.responseStr, c.responsePos, e);
    FileIsThrough(c, e);
    FileIsTried(c, e);
  }

  lemma FileIsTried(c: Conn, e: Events)
    ensures c.file.Some? ==> (SendChunks(c.file.value, e.chunks).attempted <==> c.file.value != "")
  {
    var k := AcceptedChunks(e.chunks);
    if c.file.Some? {
      ChunksExactly(c.file.value, e.chunks, k);
    }
  }

  lemma AnswerStagesAreIdle(w: World, c: Conn, e: Events)
    requires c.stage.SendProxyResponseToClient? || c.stage.SendHttpHeaderResponse? || c.stage.SendFile?
    ensures Begin(w, c, e) == Go(c) && Connection.Relay(w, c, e) == Go(c)
  {
  }

  /** A call in which a stage does not come to its end: with the time up, the connection is over, or, in the stages that
      blame the upstream, stuck; otherwise it is called again in the same stage, or has failed. */
  lemma WaitsOrGivesUp(w: World, c: Conn, e: Events)
    requires NotThrough(c, e)
    ensures LeftWaiting(c, e, Process(w, c, e))
  {
    hide Process, NotThrough, LeftWaiting;
    if c.stage.GetRequest? {
      RequestWaits(w, c, e);
    } else if c.stage.SendHeaderToProxy? {
      HeaderWaits(w, c, e);
    } else if c.stage.GetBodyFromClient? || c.stage.GetBodyFromProxy? {
      BodyFills(w, c, e);
    } else if c.stage.SendBodyToProxy? {
      DrainsToProxy(w, c, e);
    } else if c.stage.SendBodyToClient? {
      DrainsToClient(w, c, e);
    } else if c.stage.GetResponseFromProxy? {
      ResponseWaits(w, c, e);
    } else {
      NamedStage(c, e);
      Answers(w, c, e);
    }
  }

  lemma NamedStage(c: Conn, e: Events)
    requires NotThrough(c, e)
    ensures Uses(c.stage).Some?
  {
  }
}
