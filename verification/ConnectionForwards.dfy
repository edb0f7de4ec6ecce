/** How a connection passes a header on: the request to the upstream, and the response to the client. */
module ConnectionForwards {
  import opened Text
  import opened HttpBase
  import opened ServerSettings
  import opened Wire
  import opened Connection
  import opened ConnectionSafety
  import opened ConnectionDelivery
  import opened ConnectionReads
  import opened ConnectionPages
  import Req = HttpRequest
  import Res = HttpResponse
  import RequestWire
  import ResponseWire
  import WirePath

  // ---------- one call ----------

  /** The stage in which a header is sent on to this side. */
  function HeaderStage(side: Side): Stage {
    if side == UpstreamSide then SendHeaderToProxy else SendProxyResponseToClient
  }

  function HeaderText(c: Conn, side: Side): string {
    if side == UpstreamSide then c.requestStr else c.responseStr
  }

  function HeaderPos(c: Conn, side: Side): nat {
    if side == UpstreamSide then c.requestPos else c.responsePos
  }

  /** What this side has accepted. */
  function Got(c: Conn, side: Side): string {
    if side == UpstreamSide then c.history.toProxy else c.history.toClient
  }

  /** The stages a connection is in behind a header that is out. */
  predicate Behind(s: Stage, side: Side) {
    if side == UpstreamSide then s.GetBodyFromClient? || s.GetResponseFromProxy? else s.GetBodyFromProxy?
  }

  /** In this call of `connection_processing` the bytes of one `send_header` are written to this side, and the
      connection goes on behind it, goes on with it in the next call, or gives up. */
  predicate SendsOn(c: Conn, e: Events, n: Next, side: Side) {
    var s := SendHeader(HeaderText(c, side), HeaderPos(c, side), e);
    && n.Return? && Got(n.c, side) == Got(c, side) + s.out
    && if s.done then Behind(n.c.stage, side)
       else if s.failed || e.timeout then
         n.c.stage.ErrorStage? || n.c.stage.ProxyTimeout? || (n.c.stage == c.stage && n.status.TimeoutError?)
       else
         && n.c.stage == c.stage && !Terminal(n.status)
         && HeaderText(n.c, side) == s.str && HeaderPos(n.c, side) == s.pos
  }

  lemma RequestGoesOn(w: World, c: Conn, e: Events)
    requires c.stage.SendHeaderToProxy?
    ensures SendsOn(c, e, Process(w, c, e), UpstreamSide)
  {
    hide SendHeader, Connection.Relay, Respond, BodyLength;
    SentOrNot(c.requestStr, c.requestPos, e);
    var n := Begin(w, c, e);
    if n.Go? {
      RelayIsIdle(w, n.c, e);
      RespondIsIdle(n.c, e);
    }
  }

  lemma ResponseGoesOn(w: World, c: Conn, e: Events)
    requires c.stage.SendProxyResponseToClient?
    ensures SendsOn(c, e, Process(w, c, e), ClientSide)
  {
    hide SendHeader, Connection.Relay, Begin;
    SentOrNot(c.responseStr, c.responsePos, e);
    BeginIsIdle(w, c, e);
    RelayIsIdle(w, c, e);
  }

  lemma SentOrNot(str: string, pos: nat, e: Events)
    ensures var s := SendHeader(str, pos, e); !(s.done && s.failed)
  {
  }

  lemma GoesOn(w: World, c: Conn, e: Events, side: Side)
    requires c.stage == HeaderStage(side)
    ensures SendsOn(c, e, Process(w, c, e), side)
  {
    hide Process, SendsOn;
    if side == UpstreamSide {
      RequestGoesOn(w, c, e);
    } else {
      ResponseGoesOn(w, c, e);
    }
  }

  // ---------- runs ----------

  /** A run that is about to send a header on; this side has got `was` before. */
  predicate SetsOut(run: Run, side: Side, was: string, str: string) {
    && !Terminal(run.status) && run.c.stage == HeaderStage(side) && |str| >= 2
    && HeaderText(run.c, side) == str && HeaderPos(run.c, side) == 0 && Got(run.c, side) == was
  }

  /** The header is under way: what has been accepted of it is what stands before the position. */
  predicate UnderWay(c: Conn, side: Side, was: string, str: string) {
    && |str| >= 2 && HeaderText(c, side) == str && HeaderPos(c, side) < |str| - 1
    && Got(c, side) == was + str[..HeaderPos(c, side)]
  }

  lemma StepUnderWay(w: World, c: Conn, e: Events, side: Side, was: string, str: string)
    requires c.stage == HeaderStage(side) && UnderWay(c, side, was, str)
    ensures var n := Process(w, c, e);
            && was <= Got(n.c, side) <= was + Image(str)
            && (n.c.stage == HeaderStage(side) && !Terminal(n.status) ==> UnderWay(n.c, side, was, str))
            && (Behind(n.c.stage, side) <==>
                  HeaderPos(c, side) + e.accepts >= |str| - 1 && e.closing != -1)
            && (Behind(n.c.stage, side) ==> (Got(n.c, side) == was + Image(str) <==> e.closing >= 2))
  {
    hide Process, SendHeader, Image;
    GoesOn(w, c, e, side);
    var pos := HeaderPos(c, side);
    var s := SendHeader(str, pos, e);
    SendHeaderOut(str, pos, e);
    WirePath.LastCall(str, pos, e);
    EndsWhen(str, pos, e);
    assert was + str[..pos] + s.out == was + (str[..pos] + s.out);
    if s.pos < |str| - 1 {
      assert str[..pos] + str[pos..s.pos] == str[..s.pos];
    }
    StagesApart(side);
    PrefixBehind(was, str[..pos] + s.out, Image(str));
  }

  lemma EndsWhen(str: string, pos: nat, e: Events)
    requires |str| >= 2 && pos < |str| - 1
    ensures var s := SendHeader(str, pos, e);
            && (s.done <==> pos + e.accepts >= |str| - 1 && e.closing != -1)
            && (s.pos == |str| - 1 <==> pos + e.accepts >= |str| - 1)
            && (s.done ==> (s.lost == 0 <==> e.closing >= 2))
  {
    hide Bytes;
  }

  lemma StagesApart(side: Side)
    ensures !Behind(HeaderStage(side), side) && !Behind(ErrorStage, side) && !Behind(ProxyTimeout, side)
  {
  }

  lemma PrefixBehind(was: string, a: string, b: string)
    requires a <= b
    ensures was <= was + a <= was + b && (was + a == was + b <==> a == b)
  {
    assert (was + b)[..|was + a|] == was + a;
    if was + a == was + b {
      assert a == (was + a)[|was|..] && b == (was + b)[|was|..];
    }
  }

  /** The run up to the call in which the header has been sent or given up; `k` is the number of its calls. */
  predicate UpTo(w: World, run: Run, side: Side, events: seq<Events>, k: nat) {
    && k <= |events|
    && (forall j :: 0 <= j < k ==>
          var r := Calls(w, run, events[..j]); r.c.stage == HeaderStage(side) && !Terminal(r.status))
    && (k < |events| ==> var r := Calls(w, run, events[..k]); r.c.stage != HeaderStage(side) || Terminal(r.status))
  }

  lemma CallsFrom(w: World, run: Run, events: seq<Events>, j: nat)
    requires !Terminal(run.status) && 0 < j <= |events|
    ensures var n := Process(w, run.c, events[0]); var next := Run(n.c, Watch(run.side, n.status), n.status);
            Calls(w, run, events[..j]) == Calls(w, next, events[1..][..j - 1])
  {
    hide Process;
    assert events[..j][0] == events[0] && events[..j][1..] == events[1..][..j - 1];
  }

  lemma NoCalls(w: World, run: Run, events: seq<Events>)
    ensures Calls(w, run, events[..0]) == run
  {
  }

  predicate Within(run: Run, side: Side, was: string, str: string)
    requires str != ""
  {
    was <= Got(run.c, side) <= was + Image(str)
  }

  lemma {:induction false} SendsInRun(w: World, run: Run, side: Side, was: string, str: string, events: seq<Events>)
    returns (k: nat)
    requires run.c.stage == HeaderStage(side) && !Terminal(run.status) && UnderWay(run.c, side, was, str) && |str| >= 2
    ensures k <= |events| && UpTo(w, run, side, events, k)
    ensures forall j :: 0 <= j <= k ==> Within(Calls(w, run, events[..j]), side, was, str)
    ensures var end := Calls(w, run, events[..k]);
            Behind(end.c.stage, side) ==>
              k > 0 && (Got(end.c, side) == was + Image(str) <==> events[k - 1].closing >= 2)
    decreases |events|
  {
    hide Process, UnderWay, Within, Image;
    NoCalls(w, run, events);
    StagesApart(side);
    WithinAtFirst(run, side, was, str);
    if events == [] {
      k := 0;
    } else {
      var n := Process(w, run.c, events[0]);
      var next := Run(n.c, Watch(run.side, n.status), n.status);
      StepUnderWay(w, run.c, events[0], side, was, str);
      StepWithin(next, side, was, str);
      CallsFrom(w, run, events, 1);
      NoCalls(w, next, events[1..]);
      if next.c.stage == HeaderStage(side) && !Terminal(next.status) {
        var m := SendsInRun(w, next, side, was, str, events[1..]);
        k := m + 1;
        forall j | 0 < j <= k ensures Calls(w, run, events[..j]) == Calls(w, next, events[1..][..j - 1]) {
          CallsFrom(w, run, events, j);
        }
      } else {
        k := 1;
      }
    }
  }

  lemma WithinAtFirst(run: Run, side: Side, was: string, str: string)
    requires UnderWay(run.c, side, was, str)
    ensures Within(run, side, was, str)
  {
    var pos := HeaderPos(run.c, side);
    assert str[..pos] <= Image(str);
    PrefixBehind(was, str[..pos], Image(str));
  }

  lemma StepWithin(run: Run, side: Side, was: string, str: string)
    requires str != "" && was <= Got(run.c, side) <= was + Image(str)
    ensures Within(run, side, was, str)
  {
  }

  /** A header that is passed on, the request to the upstream or the response to the client, under any answers of the
      world: up to the call that ends it the other side has got a prefix of its image, and if the connection goes on
      behind it, all of it if and only if the write of the closing line end took both bytes. */
  lemma HeaderIsPassedOn(w: World, run: Run, side: Side, was: string, str: string, events: seq<Events>) returns (k: nat)
    requires SetsOut(run, side, was, str)
    ensures k <= |events| && UpTo(w, run, side, events, k)
    ensures forall j :: 0 <= j <= k ==> was <= Got(Calls(w, run, events[..j]).c, side) <= was + Image(str)
    ensures var end := Calls(w, run, events[..k]);
            Behind(end.c.stage, side) ==>
              k > 0 && (Got(end.c, side) == was + Image(str) <==> events[k - 1].closing >= 2)
  {
    hide Calls, UpTo, Image;
    assert was + str[..0] == was;
    k := SendsInRun(w, run, side, was, str, events);
  }

  // ---------- a request, from client to upstream ----------

  predicate Proxied(w: World, url: string) {
    RoutedTo(w, url).Some? && RoutedTo(w, url).value.isProxy
  }

  /** Nothing has been sent to the upstream. */
  predicate Silent(c: Conn) {
    c.requestPos == 0 && c.history.toProxy == ""
  }

  lemma PassedOnCall(w: World, c: Conn, e: Events)
    requires c.stage.GetRequest? && Silent(c) && e.connected
    requires var f := Feed(Req.WithLine, c.line, c.request, e.input);
             f.fault == NoFault && f.q.ended && Proxied(w, f.q.url) && Enumerates(e.order(f.q.headers), f.q.headers)
    ensures var n := Process(w, c, e); var q := Feed(Req.WithLine, c.line, c.request, e.input).q;
            && n.status.ProxyForWrite? && n.c.stage.SendHeaderToProxy? && Silent(n.c)
            && n.c.requestStr == Req.Printed(q, e.order(q.headers))
  {
    hide Feed, Route, Req.WithLine, Enumerates, Req.Printed;
  }

  lemma {:induction false} PassedOnInRun(w: World, run: Run, events: seq<Events>, bytes: string, end: Req.Request)
    requires !Terminal(run.status) && run.c.stage.GetRequest? && Silent(run.c)
    requires Delivers(events, bytes) && Unbroken(events) && end.ended && Proxied(w, end.url)
    requires var e := events[|events| - 1]; e.connected && Enumerates(e.order(end.headers), end.headers)
    requires Completes(Req.WithLine, (q: Req.Request) => q.ended, run.c.line, run.c.request, bytes, end)
    ensures var e := events[|events| - 1];
            ReadyToSend(Calls(w, run, events), Req.Printed(end, e.order(end.headers)))
    decreases |events|
  {
    hide Process, Feed, Concat, Inputs, Req.WithLine, Req.Printed, Enumerates, Proxied;
    var e, rest := events[0], events[1..];
    var n := Process(w, run.c, e);
    var next := Run(n.c, Watch(run.side, n.status), n.status);
    if |events| == 1 {
      DeliversAll(events, bytes);
      PassedOnCall(w, run.c, e);
      assert rest == [];
    } else {
      DeliversLess(events, bytes);
      var k := |e.input|;
      CompletesOn(Req.WithLine, (q: Req.Request) => q.ended, run.c.line, run.c.request, bytes, end, k);
      PartOfRequest(w, run.c, e);
      UnbrokenRest(events);
      PassedOnInRun(w, next, rest, bytes[k..], end);
    }
  }

  /** About to send this header to the upstream. */
  predicate ReadyToSend(run: Run, str: string) {
    !Terminal(run.status) && run.c.stage.SendHeaderToProxy? && Silent(run.c) && run.c.requestStr == str
  }

  /** Passing a request on is transparent. A fresh connection that reads a well-formed request without a break, for a
      location that is a proxy whose upstream can be connected to, sends it off; when it goes on behind the header, the
      last write of which took both bytes, a server that reads the same way whatever pieces it comes in has the same
      request if and only if none of its own calls is broken off before the last byte. */
  lemma RequestIsForwarded(w: World, c: Conn, q: Req.Request, order: seq<string>, gets: seq<Events>,
                           sends: seq<Events>, w': World, c': Conn, calls': seq<Events>)
    returns (k: nat)
    requires Fresh(c) && Fresh(c') && RequestWire.WellFormed(q) && Enumerates(order, q.headers) && Proxied(w, q.url)
    requires Delivers(gets, Image(Req.Printed(q, order))) && Unbroken(gets)
    requires var e := gets[|gets| - 1]; e.connected && Enumerates(e.order(q.headers), q.headers)
    ensures k <= |sends| && UpTo(w, Calls(w, Run(c, ClientSide, Processing), gets), UpstreamSide, sends, k)
    ensures var at := Calls(w, Run(c, ClientSide, Processing), gets); var end := Calls(w, at, sends[..k]);
            && at.c.stage.SendHeaderToProxy? && at.c.history.toProxy == ""
            && (Behind(end.c.stage, UpstreamSide) ==>
                  && k > 0
                  && (sends[k - 1].closing >= 2 && Delivers(calls', end.c.history.toProxy) ==>
                        (Calls(w', Run(c', ClientSide, Processing), calls').c.request == RequestWire.Ended(q)
                         <==> Unbroken(calls'))))
  {
    hide Calls, RequestWire.WellFormed, Delivers, Unbroken, Completes, Req.Printed, Enumerates, Proxied, UpTo, Image;
    var run0 := Run(c, ClientSide, Processing);
    FreshIsSilent(c);
    WirePath.PrintedIsLong(q, order);
    DeliversSome(gets, Image(Req.Printed(q, order)));
    RequestWire.RequestCompletes(c.request, q, order);
    PassedOnInRun(w, run0, gets, Image(Req.Printed(q, order)), RequestWire.Ended(q));
    var order' := gets[|gets| - 1].order(q.headers);
    var str := Req.Printed(q, order');
    PrintedAlike(q, order');
    WirePath.PrintedIsLong(q, order');
    var at := Calls(w, run0, gets);
    k := HeaderIsPassedOn(w, at, UpstreamSide, "", str, sends);
    var end := Calls(w, at, sends[..k]);
    assert "" + Image(str) == Image(str);
    if Behind(end.c.stage, UpstreamSide) && sends[k - 1].closing >= 2 && Delivers(calls', end.c.history.toProxy) {
      RequestReadExactly(w', c', q, order', calls');
    }
  }

  lemma DeliversSome(events: seq<Events>, bytes: string)
    requires Delivers(events, bytes)
    ensures events != []
  {
  }

  lemma FreshIsSilent(c: Conn)
    requires Fresh(c)
    ensures Silent(c) && c.stage.GetRequest? && c.line == ""
    ensures c.request == Req.NewRequest(c.request.major, c.request.minor)
  {
  }

  /** The flags of the reader are not printed. */
  lemma PrintedAlike(q: Req.Request, order: seq<string>)
    requires Enumerates(order, q.headers)
    ensures Req.Printed(RequestWire.Ended(q), order) == Req.Printed(q, order)
  {
  }

  // ---------- a response, from upstream to client ----------

  /** A response that is taken for read: to its end, or reading has thrown and the flag that was not initialised says
      so. */
  lemma ResponseCall(w: World, c: Conn, e: Events)
    requires c.stage.GetResponseFromProxy?
    requires var f := Feed(Res.WithLine, c.buffer, c.response, e.input);
             && (if f.fault == NoFault then f.q.ended else e.staleFlag) && BodyLength(f.q.headers, w.lengthName).Some?
             && Enumerates(e.order(f.q.headers), f.q.headers)
    ensures var n := Process(w, c, e); var r := Feed(Res.WithLine, c.buffer, c.response, e.input).q;
            && n.status.ClientForWrite? && n.c.stage.SendProxyResponseToClient?
            && n.c.response == r && n.c.responseStr == Res.Printed(r, e.order(r.headers))
            && n.c.responsePos == c.responsePos && n.c.history.toClient == c.history.toClient
            && BodyLength(r.headers, w.lengthName) == Some(n.c.bodyLength)
  {
    hide Feed, Respond, Begin, OnBodyToProxy, OnBodyFromClient, Res.WithLine, Enumerates, Res.Printed, BodyLength;
    OnlyReadsHeader(w, c, e);
    assert OnProxyResponse(w, c, e).Return?;
  }

  lemma {:induction false} ResponseInRun(w: World, run: Run, events: seq<Events>, bytes: string, end: Res.Response,
                                         was: string)
    requires !Terminal(run.status) && run.c.stage.GetResponseFromProxy?
    requires run.c.responsePos == 0 && run.c.history.toClient == was
    requires Delivers(events, bytes) && Unbroken(events) && end.ended && BodyLength(end.headers, w.lengthName).Some?
    requires Enumerates(events[|events| - 1].order(end.headers), end.headers)
    requires Completes(Res.WithLine, (q: Res.Response) => q.ended, run.c.buffer, run.c.response, bytes, end)
    ensures var at := Calls(w, run, events);
            && !Terminal(at.status) && at.c.stage.SendProxyResponseToClient? && at.c.response == end
            && at.c.responseStr == Res.Printed(end, events[|events| - 1].order(end.headers))
            && at.c.responsePos == 0 && at.c.history.toClient == was
            && BodyLength(end.headers, w.lengthName) == Some(at.c.bodyLength)
    decreases |events|
  {
    hide Process, Feed, Concat, Inputs, Res.WithLine, Res.Printed, Enumerates, BodyLength;
    var e, rest := events[0], events[1..];
    var n := Process(w, run.c, e);
    var next := Run(n.c, Watch(run.side, n.status), n.status);
    if |events| == 1 {
      DeliversAll(events, bytes);
      ResponseCall(w, run.c, e);
      assert rest == [];
    } else {
      DeliversLess(events, bytes);
      var k := |e.input|;
      CompletesOn(Res.WithLine, (q: Res.Response) => q.ended, run.c.buffer, run.c.response, bytes, end, k);
      PartOfResponse(w, run.c, e);
      UnbrokenRest(events);
      ResponseInRun(w, next, rest, bytes[k..], end, was);
    }
  }

  /** A connection that awaits a response with nothing left in its buffer, and reads one without a break in which it
      finds a length, sends the client what it has read: the numbers, the header values under lower-case names, and
      of the phrase the last word. Going on behind the header, the last write of which took both bytes, the client
      has got all of it, and otherwise a prefix. */
  lemma ResponseIsForwarded(w: World, run: Run, q: Res.Response, order: seq<string>, gets: seq<Events>,
                            end: Res.Response, sends: seq<Events>)
    returns (k: nat)
    requires AwaitsResponse(run) && run.c.buffer == "" && run.c.responsePos == 0
    requires NoLineFeed(q.message) && ResponseWire.HeadersOk(q.headers) && ResponseWire.NamesDistinct(q.headers)
    requires Enumerates(order, q.headers) && Delivers(gets, Image(Res.Printed(q, order))) && Unbroken(gets)
    requires end == Feed(Res.WithLine, "", run.c.response, Image(Res.Printed(q, order))).q
    requires BodyLength(end.headers, w.lengthName).Some?
    requires Enumerates(gets[|gets| - 1].order(end.headers), end.headers)
    ensures end == ResponseWire.StatusRead(run.c.response, q).(headers := end.headers, ended := true)
    ensures ResponseWire.Lowered(q.headers, end.headers)
    ensures k <= |sends| && UpTo(w, Calls(w, run, gets), ClientSide, sends, k)
    ensures var at := Calls(w, run, gets); var was := run.c.history.toClient;
            var image := Image(Res.Printed(end, gets[|gets| - 1].order(end.headers)));
            && (forall j :: 0 <= j <= k ==> was <= Calls(w, at, sends[..j]).c.history.toClient <= was + image)
            && var sent := Calls(w, at, sends[..k]);
               Behind(sent.c.stage, ClientSide) ==>
                 k > 0 && (sent.c.history.toClient == was + image <==> sends[k - 1].closing >= 2)
  {
    hide Calls, Delivers, Unbroken, Completes, Res.Printed, Enumerates, UpTo, Image, ResponseWire.HeadersOk,
      ResponseWire.NamesDistinct, ResponseWire.Lowered, BodyLength, Feed;
    WirePath.ResponseIsLong(q, order);
    DeliversSome(gets, Image(Res.Printed(q, order)));
    var read := ResponseWire.ResponseCompletes(run.c.response, q, order);
    ReadIs(run.c.response, Image(Res.Printed(q, order)), read);
    ResponseInRun(w, run, gets, Image(Res.Printed(q, order)), end, run.c.history.toClient);
    var order' := gets[|gets| - 1].order(end.headers);
    WirePath.ResponseIsLong(end, order');
    k := HeaderIsPassedOn(w, Calls(w, run, gets), ClientSide, run.c.history.toClient, Res.Printed(end, order'), sends);
  }

  lemma ReadIs(q0: Res.Response, bytes: string, end: Res.Response)
    requires Completes(Res.WithLine, (q: Res.Response) => q.ended, "", q0, bytes, end)
    ensures Feed(Res.WithLine, "", q0, bytes).q == end && end.ended
  {
  }

  // ---------- repeated send_header ----------

  /** Calling `send_header` again and again, as `WirePath.Emit` has it, is what the calls of a connection do as long
      as no time is up. */
  lemma {:induction false} EmitIsTheCalls(w: World, run: Run, side: Side, was: string, str: string, pos: nat,
                                          events: seq<Events>)
    returns (k: nat)
    requires run.c.stage == HeaderStage(side) && !Terminal(run.status) && |str| >= 2 && pos < |str| - 1
    requires HeaderText(run.c, side) == str && HeaderPos(run.c, side) == pos && Got(run.c, side) == was
    requires forall i :: 0 <= i < |events| ==> !events[i].timeout
    ensures UpTo(w, run, side, events, k)
    ensures var end, m := Calls(w, run, events[..k]), WirePath.Emit(str, pos, events);
            Got(end.c, side) == was + m.out && (Behind(end.c.stage, side) <==> m.done)
    decreases |events|
  {
    hide Process, SendHeader;
    NoCalls(w, run, events);
    StagesApart(side);
    if events == [] {
      k := 0;
      assert was + "" == was;
    } else {
      var n := Process(w, run.c, events[0]);
      var next := Run(n.c, Watch(run.side, n.status), n.status);
      var s := SendHeader(str, pos, events[0]);
      GoesOn(w, run.c, events[0], side);
      SendHeaderOut(str, pos, events[0]);
      CallsFrom(w, run, events, 1);
      NoCalls(w, next, events[1..]);
      if s.done || s.failed {
        k := 1;
      } else {
        var more := WirePath.Emit(s.str, s.pos, events[1..]);
        assert was + s.out + more.out == was + (s.out + more.out);
        var m := EmitIsTheCalls(w, next, side, was + s.out, str, s.pos, events[1..]);
        k := m + 1;
        forall j | 0 < j <= k ensures Calls(w, run, events[..j]) == Calls(w, next, events[1..][..j - 1]) {
          CallsFrom(w, run, events, j);
        }
      }
    }
  }
}
