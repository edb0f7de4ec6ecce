/** One client connection as a machine over its stages. Sockets, files, the clock and the request handler are
    an oracle that is asked anew in every call. */
module Connection {
  import opened Text
  import opened HttpBase
  import opened ServerSettings
  import opened Wire
  import Req = HttpRequest
  import Res = HttpResponse

  const BUFFER_LENGTH := 1024
  const FILE_CHUNK := 100

  datatype Stage =
    | GetRequest | RootFound | RootNotFound | SendHttpHeaderResponse | SendFile | BadRequest | PassToProxy
    | SendHeaderToProxy | GetBodyFromClient | GetBodyFromProxy | SendBodyToProxy | SendProxyResponseToClient
    | GetBodyOrNotFromClient | SendBodyToClient | FailedToConnect | ProxyTimeout | GetResponseFromProxy | ErrorStage

  /** What a call returns; `Thrown` is an exception that leaves it. */
  datatype Status =
    | Processing | TimeoutError | Finished | Failed | Thrown
    | ClientForRead | ClientForWrite | ProxyForRead | ProxyForWrite

  /** What a run has done so far: the stages it has entered, the header and the file chosen for a static
      response, what the two sockets have accepted, and how many bytes were offered to the client in vain. */
  datatype History = History(visited: set<Stage>, header: string, content: string, toClient: string, toProxy: string,
                             lost: nat)

  /** The fields of a connection. `file` is the unread rest of the open file, None if it cannot be read. */
  datatype Conn = Conn(stage: Stage, line: string, request: Req.Request, location: Option<Location>,
                       responseStr: string, requestStr: string, buffer: string, readCount: nat, bodyLength: nat,
                       getInd: nat, sendInd: nat, response: Res.Response, requestPos: nat, responsePos: nat,
                       file: Option<string>, history: History)
  {
    /** The assignment to `stage`. */
    function To(next: Stage): Conn {
      this.(stage := next, history := history.(visited := history.visited + {next}))
    }

    function Wrote(out: string, toProxy: bool): Conn {
      if toProxy then this.(history := history.(toProxy := history.toProxy + out))
      else this.(history := history.(toClient := history.toClient + out))
    }
  }

  /** The response text and the file that `http_handler` and `open` come up with; None if the handler throws. */
  datatype Page = Page(header: string, file: Option<string>)

  /** How the world answers during one call. The reading loop gets `input`, one byte at a time, and then
      `inputEnd`, 0 at the end of the stream and -1 otherwise. Of the bytes that are written one at a time
      `accepts` are accepted, and then `acceptEnd` is returned; the closing CRLF is answered by `closing`,
      the chunks of a file by `chunks`, and by -1 after these. */
  datatype Events = Events(
    input: string, inputEnd: int, accepts: nat, acceptEnd: int, closing: int, chunks: seq<int>, timeout: bool,
    connected: bool, found: Option<Page>, notFound: Option<Page>, order: map<string, string> -> seq<string>,
    staleFlag: bool,           // the uninitialised flag that is read after an exception
    staleResult: int)          // the uninitialised result of a write that did not take place

  /** The state after a part of a call, which goes on or returns. */
  datatype Next = Go(c: Conn) | Return(c: Conn, status: Status)

  /** What a connection is configured with. `lengthName` is the header name by which the length of a body is
      looked up, "Content-Length" in the source. */
  datatype World = World(rx: RegexEngine, server: Server, lengthName: string)

  // ---------- reading and writing ----------

  function Min(a: nat, b: nat): nat {
    if a < b then a else b
  }

  /** How many of `n` bytes a write that returned `result` has accepted. */
  function Taken(result: int, n: nat): nat {
    if result < 0 then 0 else Min(result, n)
  }

  /** `c_str()[i]`, where behind the end there is a zero. */
  function CStr(s: string, i: nat): char {
    if i < |s| then s[i] else '\0'
  }

  function Bytes(s: string, from: nat, k: nat): (r: string)
    ensures |r| == k && forall i :: 0 <= i < k ==> r[i] == CStr(s, from + i)
  {
    seq(k, i requires 0 <= i < k => CStr(s, from + i))
  }

  /** How many bytes a loop writes that stops when its index reaches `end`. */
  function Steps(from: nat, end: nat, accepts: nat): nat {
    if from < end then Min(accepts, end - from) else accepts
  }

  /** Where `send_header` stops: at the last byte. */
  function Last(str: string): nat {
    if str == "" then 0 else |str| - 1
  }

  datatype HeaderSent = HeaderSent(str: string, pos: nat, out: string, done: bool, failed: bool, lost: nat)

  function SendHeader(str: string, pos: nat, e: Events): HeaderSent {
    var k := Steps(pos, Last(str), e.accepts);
    var out := Bytes(str, pos, k);
    if pos < Last(str) == pos + k then
      var taken := Taken(e.closing, 2);
      HeaderSent("", pos + k, out + "\r\n"[..taken], e.closing != -1, e.closing == -1, 2 - taken)
    else HeaderSent(str, pos + k, out, false, e.acceptEnd == -1, 0)
  }

  datatype FileSent = FileSent(rest: string, out: string, lost: nat, atEnd: bool, attempted: bool)

  /** The loop of `send_file`: a chunk is read and written; a chunk that is not accepted at all ends it. */
  function SendChunks(file: string, chunks: seq<int>): FileSent
    decreases |file|
  {
    if file == "" then FileSent("", "", 0, true, false)
    else
      var n := Min(|file|, FILE_CHUNK);
      var result := if chunks == [] then -1 else chunks[0];
      var k := Taken(result, n);
      if result > 0 then
        var more := SendChunks(file[n..], chunks[1..]);
        FileSent(more.rest, file[..k] + more.out, n - k + more.lost, more.atEnd, true)
      else FileSent(file[n..], "", n, false, true)
  }

  datatype BodyGot = BodyGot(taken: nat, done: bool, failed: bool)

  function GetBody(readCount: nat, getInd: nat, bodyLength: nat, e: Events): BodyGot {
    var k := if getInd < BUFFER_LENGTH then Min(|e.input|, BUFFER_LENGTH - getInd) else 0;
    var failed := getInd + k < BUFFER_LENGTH && e.inputEnd == -1;
    BodyGot(k, !failed && (getInd + k >= BUFFER_LENGTH || readCount + k >= bodyLength), failed)
  }

  datatype BodySent = BodySent(taken: nat, done: bool, failed: bool)

  function SendBody(sendInd: nat, getInd: nat, e: Events): BodySent {
    var k := Steps(sendInd, getInd, e.accepts);
    var done := sendInd + k == getInd;
    var failed := !(sendInd < getInd == sendInd + k) && e.acceptEnd == -1;
    BodySent(k, done && !failed, failed)
  }

  // ---------- the length of a body ----------

  const ULONG_MAX := 0xffff_ffff_ffff_ffff

  /** `std::stoul`, which takes a sign and negates modulo the width; None stands for its two exceptions. */
  function Stoul(s: string): Option<nat> {
    match ScanInt(s, 0)
    case None => None
    case Some(r) =>
      if r.value > ULONG_MAX || r.value < -ULONG_MAX then None
      else if r.value < 0 then Some(ULONG_MAX + 1 + r.value)
      else Some(r.value)
  }

  /** A header of digits is read as the number it denotes, as long as that fits an unsigned long; with a minus sign
      it is what is missing to the next power of two. */
  lemma StoulReads(ds: string)
    requires ds != "" && AllDigits(ds)
    ensures Stoul(ds) == if Value(ds) <= 18446744073709551615 then Some(Value(ds)) else None
    ensures Stoul("-" + ds) == if Value(ds) > 18446744073709551615 then None
                               else if Value(ds) == 0 then Some(0) else Some(18446744073709551616 - Value(ds))
  {
    hide ScanInt, Value;
    assert Here(ds, 0, "" + ("" + ds)) && Here("-" + ds, 0, "" + ("-" + ds));
    ScanReads(ds, 0, "", "", ds);
    ScanReads("-" + ds, 0, "", "-", ds);
  }

  /** `stoul` of the header of that name. A missing header is taken for an empty one, on which `stoul` throws. */
  function BodyLength(headers: map<string, string>, name: string): Option<nat> {
    Stoul(if name in headers then headers[name] else "")
  }

  // ---------- the parts of connection_processing ----------

  /** `get_request` after its reading loop: without an end of the request a failed read is an error. */
  function AfterRequest(c: Conn, f: Fed<Req.Request>, e: Events): Conn {
    var c1 := c.(line := f.line, request := f.q);
    if f.fault == NoFault && !f.q.ended && e.inputEnd == -1 then c1.To(ErrorStage) else c1
  }

  /** `get_request`, and whether it has succeeded; after an exception that flag is not initialised. */
  function ReadRequest(c: Conn, e: Events): (Conn, bool) {
    var f := Feed(Req.WithLine, c.line, c.request, e.input);
    var c1 := AfterRequest(c, f, e);
    if f.fault == NoFault then (c1, f.q.ended) else (c1.To(BadRequest), e.staleFlag)
  }

  function ProcessLocation(w: World, c: Conn): Conn {
    var r := Route(w.rx, w.server, c.request.url);
    if r.Found? && r.index < |w.server.Of(r.kind)| then
      var l := w.server.Of(r.kind)[r.index];
      c.(location := Some(l)).To(if l.isProxy then PassToProxy else RootFound)
    else c.To(RootNotFound)
  }

  function OnRequest(w: World, c: Conn, e: Events): Next {
    if c.stage != GetRequest then Go(c)
    else
      var (c1, succeeded) := ReadRequest(c, e);
      if succeeded then Go(ProcessLocation(w, c1))
      else if e.timeout then Return(c1, TimeoutError)
      else Go(c1)
  }

  function WithPage(c: Conn, p: Page): Conn {
    c.(responseStr := p.header, file := p.file, line := "",
       history := c.history.(header := p.header, content := if p.file.Some? then p.file.value else ""))
  }

  /** `make_response_header`. */
  function OnRoot(c: Conn, e: Events): Next {
    if c.stage != RootFound && c.stage != RootNotFound then Go(c)
    else if c.stage == RootFound && e.found.None? then Return(c, Thrown)
    else if c.stage == RootFound && e.found.value.file.Some? then
      Go(WithPage(c, e.found.value).To(SendHttpHeaderResponse))
    else
      var c1 := c.To(RootNotFound);
      if e.notFound.None? then Return(c1, Thrown)
      else Go(WithPage(c1, e.notFound.value).To(SendHttpHeaderResponse))
  }

  function OnPass(c: Conn, e: Events): Next {
    if c.stage != PassToProxy then Go(c)
    else if e.connected then
      var order := e.order(c.request.headers);
      var text := if Enumerates(order, c.request.headers) then Req.Printed(c.request, order) else "";
      Return(c.To(SendHeaderToProxy).(requestStr := text), ProxyForWrite)
    else Go(c.To(FailedToConnect))
  }

  function OnHeaderToProxy(c: Conn, e: Events): Next {
    if c.stage != SendHeaderToProxy then Go(c)
    else
      var s := SendHeader(c.requestStr, c.requestPos, e);
      var c1 := c.(requestStr := s.str, requestPos := s.pos).Wrote(s.out, true);
      var c2 := if s.failed then c1.To(ErrorStage) else c1;
      if s.done then Go(c2.To(GetBodyOrNotFromClient))
      else if e.timeout then Go(c2.To(ProxyTimeout))
      else Go(c2)
  }

  function OnBodyOrNot(w: World, c: Conn): Next {
    if c.stage != GetBodyOrNotFromClient then Go(c)
    else if c.request.method_ == "GET" then Return(c.To(GetResponseFromProxy), ProxyForRead)
    else
      var c1, length := c.To(GetBodyFromClient), BodyLength(c.request.headers, w.lengthName);
      if length.None? then Return(c1, Thrown) else Return(c1.(bodyLength := length.value), ClientForRead)
  }

  /** `send_body`, to the upstream or to the client. */
  function AfterSend(c: Conn, toProxy: bool, e: Events): Conn {
    var s := SendBody(c.sendInd, c.getInd, e);
    var c1 := c.(sendInd := c.sendInd + s.taken).Wrote(Bytes(c.buffer, c.sendInd, s.taken), toProxy);
    if s.failed then c1.To(ErrorStage) else c1
  }

  function OnBodyToProxy(c: Conn, e: Events): Next {
    if c.stage != SendBodyToProxy then Go(c)
    else
      var c1 := AfterSend(c, true, e);
      if SendBody(c.sendInd, c.getInd, e).done then
        if c.readCount >= c.bodyLength then Return(c1.(getInd := 0).To(GetResponseFromProxy), ProxyForRead)
        else Return(c1.(getInd := 0).To(GetBodyFromClient), ClientForRead)
      else if e.timeout then Go(c1.To(ProxyTimeout))
      else Go(c1)
  }

  /** `get_body` after `send_body_ind` has been reset. */
  function AfterGet(c: Conn, e: Events): Conn {
    var g := GetBody(c.readCount, c.getInd, c.bodyLength, e);
    var c1 := c.(sendInd := 0, buffer := c.buffer + e.input[..Min(g.taken, |e.input|)],
                 getInd := c.getInd + g.taken, readCount := c.readCount + g.taken);
    if g.failed then c1.To(ErrorStage) else c1
  }

  function OnBodyFromClient(c: Conn, e: Events): Next {
    if c.stage != GetBodyFromClient then Go(c)
    else
      var c1 := AfterGet(c, e);
      if GetBody(c.readCount, c.getInd, c.bodyLength, e).done then Return(c1.To(SendBodyToProxy), ProxyForWrite)
      else if e.timeout then Return(c1, TimeoutError)
      else Go(c1)
  }

  /** `get_proxy_header` after its reading loop. */
  function AfterProxyHeader(c: Conn, f: Fed<Res.Response>, e: Events): Conn {
    var c1 := c.(buffer := f.line, response := f.q);
    if f.fault == NoFault && !f.q.ended && e.inputEnd == -1 then c1.To(ErrorStage) else c1
  }

  /** `get_proxy_header`, and whether it has succeeded; after an exception that flag is not initialised. */
  function ReadProxyHeader(c: Conn, e: Events): (Conn, bool) {
    var f := Feed(Res.WithLine, c.buffer, c.response, e.input);
    (AfterProxyHeader(c, f, e), if f.fault == NoFault then f.q.ended else e.staleFlag)
  }

  function OnProxyResponse(w: World, c: Conn, e: Events): Next {
    if c.stage != GetResponseFromProxy then Go(c)
    else
      var (c1, succeeded) := ReadProxyHeader(c, e);
      if succeeded then
        var order := e.order(c1.response.headers);
        var text := if Enumerates(order, c1.response.headers) then Res.Printed(c1.response, order) else "";
        var c2 := c1.(responseStr := text);
        var length := BodyLength(c1.response.headers, w.lengthName);
        if length.None? then Return(c2, Thrown)
        else Return(c2.(bodyLength := length.value).To(SendProxyResponseToClient), ClientForWrite)
      else if e.timeout then Go(c1.To(ProxyTimeout))
      else Go(c1)
  }

  function OnBodyFromProxy(c: Conn, e: Events): Next {
    if c.stage != GetBodyFromProxy then Go(c)
    else
      var c1 := AfterGet(c, e);
      if GetBody(c.readCount, c.getInd, c.bodyLength, e).done then Return(c1.To(SendBodyToClient), ProxyForWrite)
      else if e.timeout then Return(c1, TimeoutError)
      else Return(c1, ClientForWrite)
  }

  function OnBodyToClient(c: Conn, e: Events): Next {
    if c.stage != SendBodyToClient then Go(c)
    else
      var c1 := AfterSend(c, false, e);
      if SendBody(c.sendInd, c.getInd, e).done then
        if c.readCount >= c.bodyLength then Return(c1.(getInd := 0), Finished)
        else Return(c1.(getInd := 0).To(GetBodyFromProxy), ProxyForRead)
      else if e.timeout then Go(c1.To(ProxyTimeout))
      else Go(c1)
  }

  /** `send_header` to the client; the bytes of the CRLF that are not accepted are lost. */
  function AfterHeader(c: Conn, e: Events): Conn {
    var s := SendHeader(c.responseStr, c.responsePos, e);
    var c1 := c.(responseStr := s.str, responsePos := s.pos).Wrote(s.out, false);
    var c2 := c1.(history := c1.history.(lost := c1.history.lost + s.lost));
    if s.failed then c2.To(ErrorStage) else c2
  }

  function OnResponseToClient(c: Conn, e: Events): Next {
    if c.stage != SendProxyResponseToClient then Go(c)
    else
      var c1 := AfterHeader(c, e);
      if SendHeader(c.responseStr, c.responsePos, e).done then Return(c1.To(GetBodyFromProxy), ProxyForRead)
      else if e.timeout then Return(c1, TimeoutError)
      else Go(c1)
  }

  function OnHeaderToClient(c: Conn, e: Events): Next {
    if c.stage != SendHttpHeaderResponse then Go(c)
    else
      var c1 := AfterHeader(c, e);
      if SendHeader(c.responseStr, c.responsePos, e).done then Go(c1.To(SendFile))
      else if e.timeout then Return(c1, TimeoutError)
      else Go(c1)
  }

  function AfterFile(c: Conn, e: Events): Conn {
    if c.file.None? then (if e.staleResult == -1 then c.To(ErrorStage) else c)
    else
      var s := SendChunks(c.file.value, e.chunks);
      var c1 := c.(file := Some(s.rest)).Wrote(s.out, false);
      var c2 := c1.(history := c1.history.(lost := c1.history.lost + s.lost));
      if !s.attempted && e.staleResult == -1 then c2.To(ErrorStage) else c2
  }

  function FileDone(c: Conn, e: Events): bool {
    c.file.Some?
    && var s := SendChunks(c.file.value, e.chunks);
    s.atEnd && (s.attempted || e.staleResult != -1)
  }

  function OnFile(c: Conn, e: Events): Next {
    if c.stage != SendFile then Go(c)
    else
      var c1 := AfterFile(c, e);
      if FileDone(c, e) then Return(c1, Finished)
      else if e.timeout then Return(c1, TimeoutError)
      else Go(c1)
  }

  // ---------- one call ----------

  /** The first part of a call, up to the stages of the upstream. */
  function Begin(w: World, c: Conn, e: Events): Next {
    var n1 := OnRequest(w, c, e);
    if n1.Return? then n1 else
    var n2 := OnRoot(n1.c, e);
    if n2.Return? then n2 else
    var n3 := OnPass(n2.c, e);
    if n3.Return? then n3 else
    var n4 := OnHeaderToProxy(n3.c, e);
    if n4.Return? then n4 else OnBodyOrNot(w, n4.c)
  }

  /** The stages in which bodies and the response of the upstream are passed on. */
  function Relay(w: World, c: Conn, e: Events): Next {
    var n1 := OnBodyToProxy(c, e);
    if n1.Return? then n1 else
    var n2 := OnBodyFromClient(n1.c, e);
    if n2.Return? then n2 else
    var n3 := OnProxyResponse(w, n2.c, e);
    if n3.Return? then n3 else
    var n4 := OnBodyFromProxy(n3.c, e);
    if n4.Return? then n4 else OnBodyToClient(n4.c, e)
  }

  /** The stages that send a response to the client. */
  function Respond(c: Conn, e: Events): Next {
    var n1 := OnResponseToClient(c, e);
    if n1.Return? then n1 else
    var n2 := OnHeaderToClient(n1.c, e);
    if n2.Return? then n2 else
    var n3 := OnFile(n2.c, e);
    if n3.Return? then n3 else Return(n3.c, Processing)
  }

  /** `connection_processing`. */
  function Process(w: World, c: Conn, e: Events): (n: Next)
    ensures n.Return?
  {
    if c.stage == ErrorStage then Return(c, Failed)
    else
      var n1 := Begin(w, c, e);
      if n1.Return? then n1 else
      var n2 := Relay(w, n1.c, e);
      if n2.Return? then n2 else Respond(n2.c, e)
  }

  /** A new connection; the version fields of its two messages and the length of the body are not initialised. */
  predicate Fresh(c: Conn) {
    && c.request == Req.NewRequest(c.request.major, c.request.minor)
    && c.response == Res.NewResponse(c.response.major, c.response.minor)
    && c == Conn(GetRequest, "", c.request, None, "", "", "", 0, c.bodyLength, 0, 0, c.response, 0, 0, None,
                 History({GetRequest}, "", "", "", "", 0))
  }
}
