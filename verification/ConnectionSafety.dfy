/** What every run of a connection keeps, whatever sockets, files, clock and handler answer. */
module ConnectionSafety {
  import opened Text
  import opened ServerSettings
  import opened Wire
  import opened Connection

  // ---------- the two kinds of connections ----------

  predicate Static(s: Stage) {
    s.RootFound? || s.RootNotFound? || s.SendHttpHeaderResponse? || s.SendFile?
  }

  predicate Common(s: Stage) {
    s.GetRequest? || s.BadRequest? || s.ErrorStage?
  }

  predicate Proxied(s: Stage) {
    !Static(s) && !Common(s)
  }

  predicate NoneStatic(c: Conn) {
    forall s :: s in c.history.visited ==> !Static(s)
  }

  predicate NoneProxied(c: Conn) {
    forall s :: s in c.history.visited ==> !Proxied(s)
  }

  /** A connection has entered stages of one kind only. */
  predicate Exclusive(c: Conn) {
    && c.stage in c.history.visited
    && (NoneStatic(c) || NoneProxied(c))
    && (NoneProxied(c) || PassToProxy in c.history.visited)
    && (Static(c.stage) ==> NoneProxied(c))
    && (Proxied(c.stage) ==> NoneStatic(c))
    && (c.stage.GetRequest? || c.stage.BadRequest? ==> NoneStatic(c) && NoneProxied(c))
  }

  // ---------- what the client has got ----------

  /** The whole static response. */
  function Response(c: Conn): string {
    (if c.history.header == "" then "" else Image(c.history.header)) + c.history.content
  }

  /** How much of the file has been read. */
  function ReadSoFar(c: Conn): nat {
    var rest := if c.file.Some? then |c.file.value| else 0;
    if rest <= |c.history.content| then |c.history.content| - rest else 0
  }

  /** The header is being sent: what it holds up to the position has been accepted. */
  predicate HeaderUnderWay(c: Conn) {
    var h := c.history;
    && c.responseStr == h.header && |h.header| >= 2 && c.responsePos < |h.header| - 1
    && h.toClient == h.header[..c.responsePos] && h.lost == 0
    && c.file == (if c.file.Some? then Some(h.content) else None) && (c.file.None? ==> h.content == "")
  }

  /** The header is out and a part of the file: what is not lost has been accepted in order. */
  predicate FileUnderWay(c: Conn) {
    var h := c.history;
    && |h.header| >= 2
    && (c.file.None? ==> h.content == "")
    && (c.file.Some? ==> |c.file.value| <= |h.content| && c.file.value == h.content[ReadSoFar(c)..])
    && |h.toClient| + h.lost == |h.header| + 1 + ReadSoFar(c)
    && (h.lost == 0 ==> h.toClient == Image(h.header) + h.content[..ReadSoFar(c)])
  }

  predicate Untold(c: Conn) {
    c.history.toClient == "" && c.history.lost == 0 && c.responsePos == 0
  }

  predicate OutputOk(c: Conn) {
    && (c.stage.GetRequest? || c.stage.BadRequest? || c.stage.RootFound? || c.stage.RootNotFound? ==> Untold(c))
    && (c.stage.SendHttpHeaderResponse? ==> HeaderUnderWay(c))
    && (c.stage.SendFile? ==> FileUnderWay(c))
    && (NoneProxied(c) && c.history.lost == 0 ==> c.history.toClient <= Response(c))
  }

  // ---------- which socket is watched ----------

  datatype Side = ClientSide | UpstreamSide

  /** The worker swaps the watched socket according to the status. */
  function Watch(side: Side, status: Status): Side {
    match status
    case ClientForRead | ClientForWrite => ClientSide
    case ProxyForRead | ProxyForWrite => UpstreamSide
    case _ => side
  }

  /** The side whose socket a stage reads or writes, if any. */
  function Uses(s: Stage): Option<Side> {
    match s
    case GetRequest | SendHttpHeaderResponse | SendFile => Some(ClientSide)
    case GetBodyFromClient | SendProxyResponseToClient | SendBodyToClient => Some(ClientSide)
    case SendHeaderToProxy | SendBodyToProxy | GetResponseFromProxy | GetBodyFromProxy => Some(UpstreamSide)
    case _ => None
  }

  /** The side the statuses leave watched in a stage. */
  predicate Watched(s: Stage, side: Side) {
    match s
    case GetBodyFromProxy | ProxyTimeout | ErrorStage => true
    case SendHeaderToProxy | GetBodyOrNotFromClient | SendBodyToProxy | GetResponseFromProxy | SendBodyToClient =>
      side.UpstreamSide?
    case _ => side.ClientSide?
  }

  predicate Checkout(status: Status) {
    status.ClientForRead? || status.ClientForWrite? || status.ProxyForRead? || status.ProxyForWrite?
  }

  /** The worker ends the connection. */
  predicate Terminal(status: Status) {
    status.Finished? || status.TimeoutError? || status.Failed? || status.Thrown?
  }

  predicate Ok(c: Conn) {
    Exclusive(c) && OutputOk(c)
  }

  predicate OkNext(n: Next, side: Side) {
    && Ok(n.c)
    && (n.Go? ==> Watched(n.c.stage, side))
    && (n.Return? && !Terminal(n.status) ==> Watched(n.c.stage, Watch(side, n.status)))
    && (n.Return? && Checkout(n.status) ==> !NoneProxied(n.c))
    && (n.Return? && n.status.Finished? && NoneProxied(n.c) ==> n.c.stage.SendFile? && n.c.file == Some(""))
  }

  /** A printed response header has more than one character. */
  predicate PageOk(p: Option<Page>) {
    p.Some? ==> |p.value.header| >= 2
  }

  predicate Possible(e: Events) {
    PageOk(e.found) && PageOk(e.notFound)
  }

  // ---------- sending the header ----------

  lemma BytesInside(s: string, from: nat, k: nat)
    requires from + k <= |s|
    ensures Bytes(s, from, k) == s[from..from + k]
  {
    hide Bytes;
    assert Bytes(s, from, k) == s[from..from + k];
  }

  lemma SendHeaderOut(str: string, pos: nat, e: Events)
    requires |str| >= 2 && pos < |str| - 1
    ensures var s := SendHeader(str, pos, e);
            && pos <= s.pos <= |str| - 1
            && (s.pos == |str| - 1 ==>
                  s.out == str[pos..|str| - 1] + "\r\n"[..Taken(e.closing, 2)] && s.lost == 2 - Taken(e.closing, 2))
            && (s.pos < |str| - 1 ==> s.out == str[pos..s.pos] && s.lost == 0 && s.str == str)
            && (s.done || s.failed || s.pos < |str| - 1) && (s.done ==> s.pos == |str| - 1 && !s.failed)
  {
    BytesInside(str, pos, Steps(pos, Last(str), e.accepts));
  }

  /** What `send_header` to the client leaves as it is, but for the stage. */
  predicate SameResponse(c: Conn, d: Conn) {
    && d.history.header == c.history.header && d.history.content == c.history.content && d.file == c.file
  }

  lemma HeaderGoesOn(c: Conn, e: Events)
    requires HeaderUnderWay(c) && SendHeader(c.responseStr, c.responsePos, e).pos < |c.responseStr| - 1
    ensures var c1 := AfterHeader(c, e);
            HeaderUnderWay(c1) && SameResponse(c, c1) && c1.history.toClient <= Response(c1)
    ensures !SendHeader(c.responseStr, c.responsePos, e).done
  {
    hide SendHeader;
    var header, pos := c.history.header, c.responsePos;
    SendHeaderOut(header, pos, e);
    var s := SendHeader(header, pos, e);
    var c1 := AfterHeader(c, e);
    assert header[..pos] + header[pos..s.pos] == header[..s.pos];
    assert Response(c1)[..s.pos] == header[..s.pos];
  }

  lemma HeaderIsOut(c: Conn, e: Events)
    requires HeaderUnderWay(c) && SendHeader(c.responseStr, c.responsePos, e).pos >= |c.responseStr| - 1
    ensures var c1 := AfterHeader(c, e);
            && FileUnderWay(c1) && SameResponse(c, c1)
            && (c1.history.lost == 0 ==> c1.history.toClient <= Response(c1))
    ensures SendHeader(c.responseStr, c.responsePos, e).done || SendHeader(c.responseStr, c.responsePos, e).failed
  {
    hide SendHeader;
    var header, pos := c.history.header, c.responsePos;
    SendHeaderOut(header, pos, e);
    var s := SendHeader(header, pos, e);
    var c1 := AfterHeader(c, e);
    var body := header[..|header| - 1];
    assert header[..pos] + header[pos..|header| - 1] == body;
    assert c1.history.toClient == body + "\r\n"[..Taken(e.closing, 2)];
    assert c.history.content[..0] == "";
    if s.lost == 0 {
      assert c1.history.toClient == Image(header) + "";
    }
  }

  lemma AfterHeaderStage(c: Conn, e: Events)
    requires Exclusive(c) && !c.stage.GetRequest?
    ensures var c1 := AfterHeader(c, e);
            && Exclusive(c1) && (NoneProxied(c1) <==> NoneProxied(c))
            && c1.stage == (if SendHeader(c.responseStr, c.responsePos, e).failed then ErrorStage else c.stage)
  {
    hide SendHeader;
  }

  lemma HeaderStep(c: Conn, e: Events, side: Side)
    requires OkNext(Go(c), side)
    ensures OkNext(OnHeaderToClient(c, e), side)
  {
    hide SendHeader, Exclusive, HeaderUnderWay, FileUnderWay, NoneProxied, AfterHeader, Response, OutputOk;
    if c.stage.SendHttpHeaderResponse? {
      HeaderCases(c, e);
    }
  }

  lemma HeaderCases(c: Conn, e: Events)
    requires Ok(c) && c.stage.SendHttpHeaderResponse?
    ensures var c1, s := AfterHeader(c, e), SendHeader(c.responseStr, c.responsePos, e);
            if s.done then Ok(c1.To(SendFile)) && c1.stage == c.stage
            else Ok(c1) && (c1.stage.ErrorStage? || c1.stage == c.stage)
  {
    hide SendHeader, HeaderUnderWay, FileUnderWay, AfterHeader, NoneProxied, NoneStatic, Response;
    AfterHeaderStage(c, e);
    var c1 := AfterHeader(c, e);
    if SendHeader(c.responseStr, c.responsePos, e).pos < Last(c.responseStr) {
      LastIs(c);
      HeaderGoesOn(c, e);
    } else {
      LastIs(c);
      HeaderIsOut(c, e);
      DoneOrFailed(c, e);
      if SendHeader(c.responseStr, c.responsePos, e).done {
        ToKeeps(c1, SendFile);
      }
    }
  }

  lemma LastIs(c: Conn)
    requires HeaderUnderWay(c)
    ensures Last(c.responseStr) == |c.responseStr| - 1
  {
  }

  lemma DoneOrFailed(c: Conn, e: Events)
    requires HeaderUnderWay(c)
    ensures var s := SendHeader(c.responseStr, c.responsePos, e);
            !(s.done && s.failed) && (s.pos >= Last(c.responseStr) ==> s.done || s.failed)
  {
    SendHeaderOut(c.history.header, c.responsePos, e);
  }

  /** Entering a stage changes nothing that is said of the output. */
  lemma ToKeeps(c: Conn, next: Stage)
    requires Exclusive(c) && Static(c.stage) && Static(next)
    ensures Exclusive(c.To(next)) && (NoneProxied(c.To(next)) <==> NoneProxied(c))
    ensures FileUnderWay(c.To(next)) <==> FileUnderWay(c)
    ensures HeaderUnderWay(c.To(next)) <==> HeaderUnderWay(c)
    ensures Response(c.To(next)) == Response(c)
  {
  }

  // ---------- sending the file ----------

  lemma {:induction false} SendChunksOut(file: string, chunks: seq<int>)
    ensures var s := SendChunks(file, chunks);
            && |s.rest| <= |file| && s.rest == file[|file| - |s.rest|..]
            && |s.out| + s.lost == |file| - |s.rest|
            && (s.lost == 0 ==> s.out == file[..|file| - |s.rest|])
            && (s.atEnd ==> s.rest == "")
    decreases |file|
  {
    if file != "" {
      var n := Min(|file|, FILE_CHUNK);
      var result := if chunks == [] then -1 else chunks[0];
      if result > 0 {
        SendChunksOut(file[n..], chunks[1..]);
        ChunkJoins(file, n, Taken(result, n), SendChunks(file[n..], chunks[1..]));
      }
    }
  }

  /** One more chunk in front, of which `k` bytes have been accepted. */
  lemma ChunkJoins(file: string, n: nat, k: nat, more: FileSent)
    requires k <= n <= |file| && |more.rest| <= |file| - n && more.rest == file[n..][|file| - n - |more.rest|..]
    requires more.lost == 0 ==> more.out == file[n..][..|file| - n - |more.rest|]
    ensures more.rest == file[|file| - |more.rest|..]
    ensures k == n && more.lost == 0 ==> file[..k] + more.out == file[..|file| - |more.rest|]
  {
    var end := |file| - |more.rest|;
    assert file[n..][end - n..] == file[end..];
    assert file[..n] + file[n..][..end - n] == file[..end];
  }

  lemma ReadOn(content: string, k: nat, rest: string)
    requires k <= |content| && |rest| <= |content| - k && rest == content[k..][|content| - k - |rest|..]
    ensures rest == content[|content| - |rest|..]
    ensures content[..k] + content[k..][..|content| - k - |rest|] == content[..|content| - |rest|]
  {
  }

  lemma FileIsPrefix(c: Conn)
    requires FileUnderWay(c) && c.history.lost == 0
    ensures c.history.toClient <= Response(c)
  {
    hide Image;
    var h := c.history;
    assert h.content == h.content[..ReadSoFar(c)] + h.content[ReadSoFar(c)..];
    assert Response(c) == (Image(h.header) + h.content[..ReadSoFar(c)]) + h.content[ReadSoFar(c)..];
  }

  lemma FileSentOk(c: Conn, e: Events)
    requires FileUnderWay(c)
    ensures FileUnderWay(AfterFile(c, e)) && (FileDone(c, e) ==> AfterFile(c, e).file == Some(""))
  {
    hide SendChunks, Image, Response;
    if c.file.Some? {
      SendChunksOut(c.file.value, e.chunks);
      ReadOn(c.history.content, ReadSoFar(c), SendChunks(c.file.value, e.chunks).rest);
    }
  }

  lemma FileStage(c: Conn, e: Events)
    requires Exclusive(c) && c.stage.SendFile?
    ensures var c1 := AfterFile(c, e);
            && Exclusive(c1) && NoneProxied(c1) && (c1.stage.ErrorStage? || c1.stage.SendFile?)
            && (FileDone(c, e) ==> c1.stage.SendFile?)
  {
    hide SendChunks;
  }

  lemma FileStep(c: Conn, e: Events, side: Side)
    requires OkNext(Go(c), side)
    ensures OkNext(OnFile(c, e), side)
  {
    hide SendChunks, Exclusive, HeaderUnderWay, FileUnderWay, NoneProxied, AfterFile, FileDone, Response;
    if c.stage.SendFile? {
      FileSentOk(c, e);
      FileStage(c, e);
      if AfterFile(c, e).history.lost == 0 {
        FileIsPrefix(AfterFile(c, e));
      }
    }
  }

  // ---------- the request ----------

  lemma RequestStep(w: World, c: Conn, e: Events, side: Side)
    requires OkNext(Go(c), side)
    ensures OkNext(OnRequest(w, c, e), side)
  {
    hide Feed, Route, HeaderUnderWay, FileUnderWay, Response;
  }

  lemma RootStep(c: Conn, e: Events, side: Side)
    requires OkNext(Go(c), side) && Possible(e)
    ensures OkNext(OnRoot(c, e), side)
  {
    hide FileUnderWay;
  }

  // ---------- the upstream ----------

  /** From a stage of the upstream on there are only such stages and the error stage. */
  lemma StaysProxied(c: Conn, d: Conn)
    requires Exclusive(c) && Proxied(c.stage)
    requires c.history.visited <= d.history.visited <= c.history.visited + {d.stage, ErrorStage}
    requires d.stage in d.history.visited && (Proxied(d.stage) || d.stage.ErrorStage?)
    ensures Ok(d) && !NoneProxied(d)
  {
  }

  lemma PassStep(c: Conn, e: Events, side: Side)
    requires OkNext(Go(c), side)
    ensures OkNext(OnPass(c, e), side)
  {
    hide HeaderUnderWay, FileUnderWay, Response;
  }

  lemma HeaderToProxyStep(c: Conn, e: Events, side: Side)
    requires OkNext(Go(c), side)
    ensures OkNext(OnHeaderToProxy(c, e), side)
  {
    hide HeaderUnderWay, FileUnderWay, Response, SendHeader;
  }

  lemma BodyOrNotStep(w: World, c: Conn, side: Side)
    requires OkNext(Go(c), side)
    ensures OkNext(OnBodyOrNot(w, c), side)
  {
    hide HeaderUnderWay, FileUnderWay, Response;
  }

  lemma BodyToProxyStep(c: Conn, e: Events, side: Side)
    requires OkNext(Go(c), side)
    ensures OkNext(OnBodyToProxy(c, e), side)
  {
    hide HeaderUnderWay, FileUnderWay, Response, SendBody;
  }

  lemma BodyFromClientStep(c: Conn, e: Events, side: Side)
    requires OkNext(Go(c), side)
    ensures OkNext(OnBodyFromClient(c, e), side)
  {
    hide HeaderUnderWay, FileUnderWay, Response, GetBody;
  }

  lemma ProxyResponseStep(w: World, c: Conn, e: Events, side: Side)
    requires OkNext(Go(c), side)
    ensures OkNext(OnProxyResponse(w, c, e), side)
  {
    hide HeaderUnderWay, FileUnderWay, Response, Feed, Exclusive, OutputOk, NoneProxied;
    if c.stage.GetResponseFromProxy? {
      ProxyHeaderStages(w, c, e);
      StaysProxied(c, OnProxyResponse(w, c, e).c);
    }
  }

  lemma ProxyHeaderStages(w: World, c: Conn, e: Events)
    requires Exclusive(c) && c.stage.GetResponseFromProxy?
    ensures var d := OnProxyResponse(w, c, e).c;
            && c.history.visited <= d.history.visited <= c.history.visited + {d.stage, ErrorStage}
            && d.stage in d.history.visited
  {
    hide Feed, NoneStatic, NoneProxied;
  }

  lemma BodyFromProxyStep(c: Conn, e: Events, side: Side)
    requires OkNext(Go(c), side)
    ensures OkNext(OnBodyFromProxy(c, e), side)
  {
    hide HeaderUnderWay, FileUnderWay, Response, GetBody;
  }

  lemma BodyToClientStep(c: Conn, e: Events, side: Side)
    requires OkNext(Go(c), side)
    ensures OkNext(OnBodyToClient(c, e), side)
  {
    hide HeaderUnderWay, FileUnderWay, Response, SendBody;
  }

  lemma ResponseToClientStep(c: Conn, e: Events, side: Side)
    requires OkNext(Go(c), side)
    ensures OkNext(OnResponseToClient(c, e), side)
  {
    hide HeaderUnderWay, FileUnderWay, Response, SendHeader;
  }

  // ---------- one call ----------

  lemma BeginKeeps(w: World, c: Conn, e: Events, side: Side)
    requires OkNext(Go(c), side) && Possible(e)
    ensures OkNext(Begin(w, c, e), side)
  {
    hide OkNext, OnRequest, OnRoot, OnPass, OnHeaderToProxy, OnBodyOrNot, Possible;
    var n1 := OnRequest(w, c, e);
    RequestStep(w, c, e, side);
    if n1.Go? {
      assert n1 == Go(n1.c);
      var n2 := OnRoot(n1.c, e);
      RootStep(n1.c, e, side);
      if n2.Go? {
        assert n2 == Go(n2.c);
        var n3 := OnPass(n2.c, e);
        PassStep(n2.c, e, side);
        if n3.Go? {
          assert n3 == Go(n3.c);
          var n4 := OnHeaderToProxy(n3.c, e);
          HeaderToProxyStep(n3.c, e, side);
          if n4.Go? {
            assert n4 == Go(n4.c);
            BodyOrNotStep(w, n4.c, side);
          }
        }
      }
    }
  }

  lemma RelayKeeps(w: World, c: Conn, e: Events, side: Side)
    requires OkNext(Go(c), side)
    ensures OkNext(Relay(w, c, e), side)
  {
    hide OkNext, OnBodyToProxy, OnBodyFromClient, OnProxyResponse, OnBodyFromProxy, OnBodyToClient;
    var n1 := OnBodyToProxy(c, e);
    BodyToProxyStep(c, e, side);
    if n1.Go? {
      assert n1 == Go(n1.c);
      var n2 := OnBodyFromClient(n1.c, e);
      BodyFromClientStep(n1.c, e, side);
      if n2.Go? {
        assert n2 == Go(n2.c);
        var n3 := OnProxyResponse(w, n2.c, e);
        ProxyResponseStep(w, n2.c, e, side);
        if n3.Go? {
          assert n3 == Go(n3.c);
          var n4 := OnBodyFromProxy(n3.c, e);
          BodyFromProxyStep(n3.c, e, side);
          if n4.Go? {
            assert n4 == Go(n4.c);
            BodyToClientStep(n4.c, e, side);
          }
        }
      }
    }
  }

  lemma RespondKeeps(c: Conn, e: Events, side: Side)
    requires OkNext(Go(c), side)
    ensures OkNext(Respond(c, e), side)
  {
    hide Ok, OnResponseToClient, OnHeaderToClient, OnFile, Watched;
    var n1 := OnResponseToClient(c, e);
    ResponseToClientStep(c, e, side);
    if n1.Go? {
      assert n1 == Go(n1.c);
      var n2 := OnHeaderToClient(n1.c, e);
      HeaderStep(n1.c, e, side);
      if n2.Go? {
        assert n2 == Go(n2.c);
        FileStep(n2.c, e, side);
      }
    }
  }

  lemma CallKeeps(w: World, c: Conn, e: Events, side: Side)
    requires OkNext(Go(c), side) && Possible(e)
    ensures OkNext(Process(w, c, e), side)
  {
    hide Ok, Begin, Relay, Respond, Watched, Possible;
    if c.stage != ErrorStage {
      var n1 := Begin(w, c, e);
      BeginKeeps(w, c, e, side);
      if n1.Go? {
        assert n1 == Go(n1.c);
        var n2 := Relay(w, n1.c, e);
        RelayKeeps(w, n1.c, e, side);
        if n2.Go? {
          assert n2 == Go(n2.c);
          RespondKeeps(n2.c, e, side);
        }
      }
    }
  }

  // ---------- how a fill from the upstream is left ----------

  lemma SendKeepsStage(c: Conn, toProxy: bool, e: Events)
    ensures AfterSend(c, toProxy, e).stage == c.stage || AfterSend(c, toProxy, e).stage.ErrorStage?
  {
    hide SendBody;
  }

  lemma GetKeepsStage(c: Conn, e: Events)
    ensures AfterGet(c, e).stage == c.stage || AfterGet(c, e).stage.ErrorStage?
  {
    hide GetBody;
  }

  lemma HeaderKeepsStage(c: Conn, e: Events)
    ensures AfterHeader(c, e).stage == c.stage || AfterHeader(c, e).stage.ErrorStage?
  {
    hide SendHeader;
  }

  lemma FileKeepsStage(c: Conn, e: Events)
    ensures AfterFile(c, e).stage == c.stage || AfterFile(c, e).stage.ErrorStage?
  {
    hide SendChunks;
  }

  lemma ReadKeepsStage(c: Conn, e: Events)
    ensures ReadProxyHeader(c, e).0.stage == c.stage || ReadProxyHeader(c, e).0.stage.ErrorStage?
  {
    hide Feed;
  }

  /** The part does not lead to the reading of the body of a response. */
  predicate NoFill(n: Next, c: Conn) {
    n.c.stage.GetBodyFromProxy? ==> n == Go(c)
  }

  /** A call that leaves the connection reading the body of a response says so: with the upstream checked out for
      the next fill, or with the client after a fill that is not complete. */
  predicate FillStatus(n: Next) {
    n.c.stage.GetBodyFromProxy? ==>
      n.Return? && (n.status.ProxyForRead? || n.status.ClientForWrite? || n.status.TimeoutError?)
  }

  lemma FillParts(w: World, c: Conn, e: Events)
    ensures NoFill(OnBodyToProxy(c, e), c) && NoFill(OnBodyFromClient(c, e), c)
    ensures NoFill(OnProxyResponse(w, c, e), c) && FillStatus(OnBodyFromProxy(c, e))
  {
    hide AfterSend, AfterGet, ReadProxyHeader, GetBody, SendBody;
    SendKeepsStage(c, true, e);
    GetKeepsStage(c, e);
    ReadKeepsStage(c, e);
  }

  lemma AnswerParts(c: Conn, e: Events)
    requires !c.stage.GetBodyFromProxy?
    ensures FillStatus(OnBodyToClient(c, e)) && FillStatus(OnResponseToClient(c, e))
    ensures FillStatus(OnHeaderToClient(c, e)) && FillStatus(OnFile(c, e))
  {
    hide AfterSend, AfterHeader, AfterFile, FileDone, SendBody, SendHeader;
    SendKeepsStage(c, false, e);
    HeaderKeepsStage(c, e);
    FileKeepsStage(c, e);
  }

  lemma BeginFill(w: World, c: Conn, e: Events)
    ensures NoFill(Begin(w, c, e), c)
  {
    hide OnRequest, OnRoot, OnPass, OnHeaderToProxy, OnBodyOrNot;
    BeginPartsFill(w, c, e);
    var n1 := OnRequest(w, c, e);
    BeginPartsFill(w, n1.c, e);
    var n2 := OnRoot(n1.c, e);
    BeginPartsFill(w, n2.c, e);
    var n3 := OnPass(n2.c, e);
    BeginPartsFill(w, n3.c, e);
    BeginPartsFill(w, OnHeaderToProxy(n3.c, e).c, e);
  }

  lemma BeginPartsFill(w: World, c: Conn, e: Events)
    ensures NoFill(OnRequest(w, c, e), c) && NoFill(OnRoot(c, e), c) && NoFill(OnPass(c, e), c)
    ensures NoFill(OnHeaderToProxy(c, e), c) && NoFill(OnBodyOrNot(w, c), c)
  {
    hide Feed, Route, SendHeader, Bytes;
  }

  lemma RelayFill(w: World, c: Conn, e: Events)
    ensures FillStatus(Relay(w, c, e))
  {
    hide OnBodyToProxy, OnBodyFromClient, OnProxyResponse, OnBodyFromProxy, OnBodyToClient;
    FillParts(w, c, e);
    var n1 := OnBodyToProxy(c, e);
    if n1.Go? {
      FillParts(w, n1.c, e);
      var n2 := OnBodyFromClient(n1.c, e);
      if n2.Go? {
        FillParts(w, n2.c, e);
        var n3 := OnProxyResponse(w, n2.c, e);
        if n3.Go? {
          FillParts(w, n3.c, e);
          var n4 := OnBodyFromProxy(n3.c, e);
          if n4.Go? {
            AnswerParts(n4.c, e);
          }
        }
      }
    }
  }

  lemma RespondFill(c: Conn, e: Events)
    requires !c.stage.GetBodyFromProxy?
    ensures FillStatus(Respond(c, e))
  {
    hide OnResponseToClient, OnHeaderToClient, OnFile;
    AnswerParts(c, e);
    var n1 := OnResponseToClient(c, e);
    if n1.Go? {
      AnswerParts(n1.c, e);
      var n2 := OnHeaderToClient(n1.c, e);
      if n2.Go? {
        AnswerParts(n2.c, e);
      }
    }
  }

  lemma CallFill(w: World, c: Conn, e: Events)
    ensures FillStatus(Process(w, c, e))
  {
    hide Begin, Relay, Respond;
    if c.stage != ErrorStage {
      BeginFill(w, c, e);
      var n1 := Begin(w, c, e);
      if n1.Go? {
        RelayFill(w, n1.c, e);
        var n2 := Relay(w, n1.c, e);
        if n2.Go? {
          RespondFill(n2.c, e);
        }
      }
    }
  }

  // ---------- whole runs ----------

  /** A run of a connection: a call for each event, until the worker ends the connection. */
  datatype Run = Run(c: Conn, side: Side, status: Status)

  function Calls(w: World, run: Run, events: seq<Events>): Run
    decreases |events|
  {
    if events == [] || Terminal(run.status) then run
    else
      var n := Process(w, run.c, events[0]);
      Calls(w, Run(n.c, Watch(run.side, n.status), n.status), events[1..])
  }

  predicate AllPossible(events: seq<Events>) {
    forall i :: 0 <= i < |events| ==> Possible(events[i])
  }

  predicate RunOk(run: Run) {
    && Ok(run.c)
    && (!Terminal(run.status) ==> Watched(run.c.stage, run.side))
    && (run.status.Finished? && NoneProxied(run.c) ==> run.c.stage.SendFile? && run.c.file == Some(""))
    && (!Terminal(run.status) && run.c.stage.GetBodyFromProxy? ==>
          (run.status.ProxyForRead? && run.side.UpstreamSide?) || (run.status.ClientForWrite? && run.side.ClientSide?))
  }

  lemma {:induction false} RunsKeep(w: World, run: Run, events: seq<Events>)
    requires RunOk(run) && AllPossible(events)
    ensures RunOk(Calls(w, run, events))
    decreases |events|
  {
    hide Ok, Process, Watched, NoneProxied, Possible;
    if events != [] && !Terminal(run.status) {
      CallKeeps(w, run.c, events[0], run.side);
      CallFill(w, run.c, events[0]);
      var n := Process(w, run.c, events[0]);
      RunsKeep(w, Run(n.c, Watch(run.side, n.status), n.status), events[1..]);
    }
  }

  lemma FreshOk(c: Conn)
    requires Fresh(c)
    ensures RunOk(Run(c, ClientSide, Processing))
  {
  }

  // ---------- main results ----------

  /** Over every run a connection that has been passed to the proxy has entered no stage of a static response,
      and the other way round. */
  lemma ProxyAndStaticExclude(w: World, c: Conn, events: seq<Events>)
    requires Fresh(c) && AllPossible(events)
    ensures var visited := Calls(w, Run(c, ClientSide, Processing), events).c.history.visited;
            !(PassToProxy in visited && (SendHttpHeaderResponse in visited || SendFile in visited))
  {
    hide Calls, OutputOk, Watched;
    FreshOk(c);
    RunsKeep(w, Run(c, ClientSide, Processing), events);
  }

  /** Over every run, while a connection lives, the watched socket is the one its stage reads or writes, except
      for exactly two cases: a body is sent to the client, or a fill from the upstream was not complete. */
  lemma WatchedSideExactly(w: World, c: Conn, events: seq<Events>)
    requires Fresh(c) && AllPossible(events)
    ensures var run := Calls(w, Run(c, ClientSide, Processing), events);
            !Terminal(run.status) && Uses(run.c.stage).Some? ==>
              (run.side == Uses(run.c.stage).value
               <==> !run.c.stage.SendBodyToClient? && !(run.c.stage.GetBodyFromProxy? && run.status.ClientForWrite?))
  {
    hide Calls, Ok;
    FreshOk(c);
    RunsKeep(w, Run(c, ClientSide, Processing), events);
  }

  lemma WholeFile(c: Conn)
    requires FileUnderWay(c) && c.file == Some("")
    ensures var h := c.history;
            |h.toClient| + h.lost == |Response(c)| && (h.lost == 0 ==> h.toClient == Response(c))
  {
    assert c.history.content[..|c.history.content|] == c.history.content;
  }
}
