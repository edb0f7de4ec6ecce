/** A body that is taken for complete before its first byte: the empty fill is followed by a send whose loop has missed
    its end, so that bytes are written that are none of it. */
module BodyOverrun {
  import opened Text
  import opened HttpBase
  import opened ServerSettings
  import opened Wire
  import opened Connection
  import opened ConnectionSafety
  import opened BodyRelay
  import opened RelayRuns
  import opened ConnectionReads
  import opened ConnectionJourneys
  import Req = HttpRequest
  import Res = HttpResponse
  import RequestWire
  import ResponseWire

  // ---------- when it happens ----------

  /** The run: a fill that gets nothing, and a send that is allowed `n` bytes. */
  lemma OverrunRun(w: World, run: Run, st: Start, side: Side, n: nat) returns (events: seq<Events>)
    requires Begins(run, st, side) && st.count >= st.length && n > 0
    ensures Granted(st.length, Begun(st), events, [0, n])
    ensures var end := Calls(w, run, events);
            && Overruns(end, side) && !Through(end, side) && end.c.readCount == run.c.readCount
            && RelayRuns.Written(end.c, side) == RelayRuns.Written(run.c, side) + Bytes(st.buffer, 0, n)
  {
    hide Calls, Rounds, Bytes, Shows, Granted;
    var s := Begun(st);
    var s1 := Step(false, st.length, s, 0);
    events := [Granting(s.source, 0), Granting(s1.source, n)];
    TwoGrants(st.length, s, 0, n);
    BegunShows(run, st, side);
    RunIsRounds(w, run, s, events, [0, n], side);
    EmptyFill(false, st, n);
    var t := Rounds(false, st.length, s, [0, n]);
    OverrunShows(t, Calls(w, run, events), side);
    assert t.out[0..] == t.out;
  }

  lemma TwoGrants(length: nat, s: Relay, m: nat, n: nat)
    requires !s.finished && !Step(false, length, s, m).finished
    ensures var events := [Granting(s.source, m), Granting(Step(false, length, s, m).source, n)];
            Granted(length, s, events, [m, n])
  {
    hide Step;
    var t := Step(false, length, s, m);
    var events := [Granting(s.source, m), Granting(t.source, n)];
    assert events[1..] == [Granting(t.source, n)] && [m, n][1..] == [n];
    assert [Granting(t.source, n)][1..] == [] && [n][1..] == [];
    assert Granted(length, Step(false, length, t, n), [], []);
    assert Granted(length, t, [Granting(t.source, n)], [n]);
  }

  /** From any buffer and with any bytes to come some run under granted events overruns if and only if the count has
      reached the length. */
  lemma OverrunsExactly(w: World, run: Run, st: Start, side: Side)
    requires Begins(run, st, side)
    ensures (exists events, grants ::
               Granted(st.length, Begun(st), events, grants) && Overruns(Calls(w, run, events), side))
            <==> st.count >= st.length
  {
    hide Calls, Granted, Begins, Out, Bytes, Repeats, Overruns;
    if st.count >= st.length {
      var events := OverrunRun(w, run, st, side, 1);
      assert Granted(st.length, Begun(st), events, [0, 1]) && Overruns(Calls(w, run, events), side);
    } else {
      forall events, grants | Granted(st.length, Begun(st), events, grants)
        ensures !Overruns(Calls(w, run, events), side)
      {
        BodyArrivesExactly(w, run, st, events, grants, side);
      }
    }
  }

  // ---------- there is no way back ----------

  predicate Lost(c: Conn, side: Side) {
    || c.stage.ErrorStage? || c.stage.ProxyTimeout?
    || (c.sendInd > c.getInd && c.stage == (if side == UpstreamSide then SendBodyToProxy else SendBodyToClient))
  }

  lemma LostCall(w: World, c: Conn, e: Events, side: Side)
    requires Lost(c, side)
    ensures var n := Process(w, c, e); Lost(n.c, side) && !n.status.Finished?
  {
    hide OnBodyToProxy, OnBodyFromClient, OnProxyResponse, OnBodyFromProxy, OnBodyToClient, Begin, Respond;
    if !c.stage.ErrorStage? {
      BeginIsIdle(w, c, e);
      LostFills(w, c, e, side);
      LostDrains(c, e, side);
      var n := OnBodyToProxy(c, e);
      LostFills(w, n.c, e, side);
      LostDrains(n.c, e, side);
      RespondIsIdle(OnBodyToClient(n.c, e).c, e);
    }
  }

  lemma LostFills(w: World, c: Conn, e: Events, side: Side)
    requires Lost(c, side)
    ensures OnBodyFromClient(c, e) == Go(c) && OnProxyResponse(w, c, e) == Go(c) && OnBodyFromProxy(c, e) == Go(c)
  {
  }

  lemma LostDrains(c: Conn, e: Events, side: Side)
    requires Lost(c, side)
    ensures var n := OnBodyToProxy(c, e); n.Go? && Lost(n.c, side)
    ensures var n := OnBodyToClient(c, e); n.Go? && Lost(n.c, side)
  {
    hide Bytes;
  }

  /** Whatever the world answers from then on, the relay never gets through. */
  lemma {:induction false} LostForever(w: World, run: Run, side: Side, events: seq<Events>)
    requires Lost(run.c, side) && !run.status.Finished?
    ensures !Through(Calls(w, run, events), side)
    decreases |events|
  {
    hide Process;
    if events != [] && !Terminal(run.status) {
      var n := Process(w, run.c, events[0]);
      LostCall(w, run.c, events[0], side);
      LostForever(w, Run(n.c, Watch(run.side, n.status), n.status), side, events[1..]);
    }
  }

  // ---------- a response without a body ----------

  lemma {:induction false} CallsJoin(w: World, run: Run, a: seq<Events>, b: seq<Events>)
    ensures Calls(w, run, a + b) == Calls(w, Calls(w, run, a), b)
    decreases |a|
  {
    hide Process;
    if a == [] {
      assert a + b == b;
    } else if !Terminal(run.status) {
      assert (a + b)[1..] == a[1..] + b;
      var n := Process(w, run.c, a[0]);
      CallsJoin(w, Run(n.c, Watch(run.side, n.status), n.status), a[1..], b);
    }
  }

  /** For every GET request that is passed on and every response that says its body has no bytes there is a run
      from the first call on in which any number of bytes are sent to the client behind the header, none of which
      the upstream has sent, and which no answers can bring to its end any more. */
  lemma EmptyBodyOverruns(w: World, c: Conn, q: Req.Request, order: seq<string>, r: Res.Response, order': seq<string>,
                          name: string, n: nat)
    returns (before: seq<Events>, events: seq<Events>)
    requires Fresh(c) && RequestWire.WellFormed(q) && Enumerates(order, q.headers) && PassedOn(w, q.url)
    requires q.method_ == "GET" && n > 0
    requires NoLineFeed(r.message) && ResponseWire.HeadersOk(r.headers) && ResponseWire.NamesDistinct(r.headers)
    requires Enumerates(order', r.headers) && HasLength(w, r, name, 0)
    ensures var at := Calls(w, Run(c, ClientSide, Processing), before);
            var end := Calls(w, Run(c, ClientSide, Processing), before + events);
            && at.c.stage.GetBodyFromProxy? && end.c.history.toClient == at.c.history.toClient + Bytes("", 0, n)
            && end.c.readCount == 0
    ensures forall later ::
              !Through(Calls(w, Calls(w, Run(c, ClientSide, Processing), before + events), later), ClientSide)
  {
    hide Process, Calls, RequestWire.WellFormed, PassedOn, ResponseWire.HeadersOk, ResponseWire.NamesDistinct,
      HasLength, Enumerates, Fresh, Bytes, Granted;
    var run0 := Run(c, ClientSide, Processing);
    var d;
    before, d := ComesToBody(w, c, q, order, r, order', name, 0);
    var at := Run(d, UpstreamSide, ProxyForRead);
    events := OverrunRun(w, at, Start("", "", 0, 0), ClientSide, n);
    CallsJoin(w, run0, before, events);
    var end := Calls(w, at, events);
    forall later ensures !Through(Calls(w, end, later), ClientSide) {
      LostForever(w, end, ClientSide, later);
    }
  }
}
