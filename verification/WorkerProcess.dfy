/** The event loop of a worker: which sockets its epoll set holds, and for which connection. */
module WorkerProcess {
  import opened Text
  import opened Connection
  import opened ConnectionSafety
  import opened ConnectionJourneys
  import opened HttpBase
  import opened Wire
  import Req = HttpRequest
  import RequestWire
  import ConnectionReads

  /** The two sockets of a connection, the second one from `connect_to_upstream` on, and the side that the
      last status to swap the sockets has named. */
  datatype Sockets = Sockets(client: int, upstream: Option<int>, side: Side)

  /** `epoll` maps a descriptor to the connection it was added for. */
  datatype Loop = Loop(epoll: map<int, int>, live: map<int, Sockets>)

  /** A client is accepted, or a call of a connection returns, its upstream socket being what it is then. */
  datatype Event = Accepted(id: int, client: int) | Returned(id: int, status: Status, upstream: Option<int>)

  /** EPOLL_CTL_ADD, which fails on a descriptor that is in the set. */
  function Added(epoll: map<int, int>, fd: int, id: int): map<int, int> {
    if fd in epoll then epoll else epoll[fd := id]
  }

  /** EPOLL_CTL_DEL, which fails on a descriptor that is not in the set. */
  function Deleted(epoll: map<int, int>, fd: Option<int>): map<int, int> {
    if fd.Some? then epoll - {fd.value} else epoll
  }

  /** What the worker does with the status of connection `id`. A finished connection has closed its upstream
      socket, if any, which takes it out of the set. */
  function Handled(l: Loop, id: int, status: Status, upstream: Option<int>): Loop
    requires id in l.live
  {
    var s := l.live[id].(upstream := upstream, side := Watch(l.live[id].side, status));
    if Terminal(status) then
      var closed := if status.Finished? then Deleted(l.epoll, upstream) else l.epoll;
      Loop(Deleted(closed, Some(s.client)), l.live - {id})
    else if (status.ProxyForRead? || status.ProxyForWrite?) && upstream.Some? then
      Loop(Added(Deleted(l.epoll, Some(s.client)), upstream.value, id), l.live[id := s])
    else if status.ClientForRead? || status.ClientForWrite? then
      Loop(Added(Deleted(l.epoll, upstream), s.client, id), l.live[id := s])
    else l.(live := l.live[id := s])
  }

  function Next(l: Loop, ev: Event): Loop {
    match ev
    case Accepted(id, client) => Loop(Added(l.epoll, client, id), l.live[id := Sockets(client, None, ClientSide)])
    case Returned(id, status, upstream) => if id in l.live then Handled(l, id, status, upstream) else l
  }

  // ---------- what the system guarantees ----------

  predicate Owns(s: Sockets, fd: int) {
    s.client == fd || s.upstream == Some(fd)
  }

  /** A descriptor that nothing open has. */
  predicate Unused(l: Loop, fd: int) {
    fd !in l.epoll && forall id :: id in l.live ==> !Owns(l.live[id], fd)
  }

  /** New descriptors are unused ones, a connection keeps its upstream socket, and it is connected when the
      status names the upstream or turns back from it. */
  predicate Possible(l: Loop, ev: Event) {
    match ev
    case Accepted(id, client) => id !in l.live && Unused(l, client)
    case Returned(id, status, upstream) =>
      && id in l.live && !status.Thrown?
      && (l.live[id].upstream.Some? ==> upstream == l.live[id].upstream)
      && (l.live[id].upstream.None? && upstream.Some? ==> Unused(l, upstream.value))
      && (status.ProxyForRead? || status.ProxyForWrite? || status.ClientForRead? || status.ClientForWrite? ==>
            upstream.Some?)
  }

  // ---------- the invariant ----------

  /** Exactly one of the two sockets is in the set, for this connection: the one on the named side. */
  predicate WatchesOne(epoll: map<int, int>, id: int, s: Sockets) {
    && s.upstream != Some(s.client)
    && match s.side
       case ClientSide =>
         s.client in epoll && epoll[s.client] == id && (s.upstream.Some? ==> s.upstream.value !in epoll)
       case UpstreamSide =>
         s.upstream.Some? && s.upstream.value in epoll && epoll[s.upstream.value] == id && s.client !in epoll
  }

  predicate Apart(a: Sockets, b: Sockets) {
    !Owns(b, a.client) && (a.upstream.Some? ==> !Owns(b, a.upstream.value))
  }

  predicate LoopOk(l: Loop) {
    && (forall id :: id in l.live ==> WatchesOne(l.epoll, id, l.live[id]))
    && (forall i, j :: i in l.live && j in l.live && i != j ==> Apart(l.live[i], l.live[j]))
  }

  lemma AcceptKeeps(l: Loop, id: int, client: int)
    requires LoopOk(l) && Possible(l, Accepted(id, client))
    ensures LoopOk(Next(l, Accepted(id, client)))
  {
  }

  lemma HandledKeeps(l: Loop, id: int, status: Status, upstream: Option<int>)
    requires LoopOk(l) && Possible(l, Returned(id, status, upstream))
    ensures LoopOk(Handled(l, id, status, upstream))
  {
    var s := l.live[id].(upstream := upstream, side := Watch(l.live[id].side, status));
    var m := Handled(l, id, status, upstream);
    forall j | j in m.live ensures WatchesOne(m.epoll, j, m.live[j]) {
      assert WatchesOne(l.epoll, j, l.live[j]);
      if j != id {
        assert Apart(l.live[j], l.live[id]) && Apart(l.live[id], l.live[j]);
      }
    }
    forall i, j | i in m.live && j in m.live && i != j ensures Apart(m.live[i], m.live[j]) {
      assert Apart(l.live[i], l.live[j]);
    }
  }

  function LoopRun(l: Loop, events: seq<Event>): Loop
    decreases |events|
  {
    if events == [] then l else LoopRun(Next(l, events[0]), events[1..])
  }

  predicate AllPossible(l: Loop, events: seq<Event>)
    decreases |events|
  {
    events == [] || (Possible(l, events[0]) && AllPossible(Next(l, events[0]), events[1..]))
  }

  /** Over every run of the loop exactly one socket of each live connection is registered, and for it. */
  lemma {:induction false} OneSocketWatched(l: Loop, events: seq<Event>)
    requires LoopOk(l) && AllPossible(l, events)
    ensures LoopOk(LoopRun(l, events))
    decreases |events|
  {
    hide LoopOk, Possible, Handled;
    if events != [] {
      match events[0] {
        case Accepted(id, client) => AcceptKeeps(l, id, client);
        case Returned(id, status, upstream) =>
          PossibleIsLive(l, id, status, upstream);
          HandledKeeps(l, id, status, upstream);
      }
      OneSocketWatched(Next(l, events[0]), events[1..]);
    }
  }

  lemma PossibleIsLive(l: Loop, id: int, status: Status, upstream: Option<int>)
    requires Possible(l, Returned(id, status, upstream))
    ensures id in l.live
  {
  }

  /** When a connection ends, its descriptors are all out of the set exactly if it was the client that was
      watched or it has finished: an error or a timeout while the upstream is watched leaves that socket in. */
  lemma EndLeavesNothingExactly(l: Loop, id: int, status: Status, upstream: Option<int>)
    requires LoopOk(l) && Possible(l, Returned(id, status, upstream)) && Terminal(status)
    ensures var epoll := Handled(l, id, status, upstream).epoll;
            (l.live[id].client !in epoll && (upstream.Some? ==> upstream.value !in epoll))
            <==> (l.live[id].side.ClientSide? || status.Finished?)
  {
    assert WatchesOne(l.epoll, id, l.live[id]);
  }

  // ---------- all the connections of a worker ----------

  /** A worker with its connections, each in its run. An exception that leaves a call ends the worker. */
  datatype Worker = Worker(runs: map<int, ConnectionSafety.Run>, loop: Loop, dead: bool)

  /** A client connects, or a connection is served on an event of its watched socket; `fd` is the descriptor that
      `socket` gives if it is called. */
  datatype Happening = Arrives(id: int, client: int, c: Conn) | Serves(id: int, e: Events, fd: int)

  /** The upstream socket after a call: `connect_to_upstream` has made one when the request is passed on. */
  function UpstreamAfter(c: Conn, known: Option<int>, fd: int): Option<int> {
    if known.Some? then known else if PassToProxy in c.history.visited then Some(fd) else None
  }

  function Happens(w: World, h: Worker, x: Happening): Worker {
    if h.dead then h
    else
      match x
      case Arrives(id, client, c) =>
        h.(runs := h.runs[id := ConnectionSafety.Run(c, ClientSide, Processing)],
           loop := Next(h.loop, Accepted(id, client)))
      case Serves(id, e, fd) =>
        if id !in h.loop.live || id !in h.runs then h
        else
          var n := Process(w, h.runs[id].c, e);
          var upstream := UpstreamAfter(n.c, h.loop.live[id].upstream, fd);
          if n.status.Thrown? then h.(dead := true)
          else
            var run := ConnectionSafety.Run(n.c, Watch(h.runs[id].side, n.status), n.status);
            Worker(if Terminal(n.status) then h.runs - {id} else h.runs[id := run],
                   Next(h.loop, Returned(id, n.status, upstream)), false)
  }

  function AllHappen(w: World, h: Worker, xs: seq<Happening>): Worker
    decreases |xs|
  {
    if xs == [] then h else AllHappen(w, Happens(w, h, xs[0]), xs[1..])
  }

  /** An exception out of `connection_processing` ends the worker: no connection is accepted or served after it. */
  lemma ThrownEndsWorker(w: World, h: Worker, id: int, e: Events, fd: int, xs: seq<Happening>)
    requires !h.dead && id in h.loop.live && id in h.runs && Process(w, h.runs[id].c, e).status.Thrown?
    ensures AllHappen(w, h, [Serves(id, e, fd)] + xs) == h.(dead := true)
  {
    hide Process;
    assert ([Serves(id, e, fd)] + xs)[1..] == xs;
    DeadStays(w, h.(dead := true), xs);
  }

  lemma {:induction false} DeadStays(w: World, h: Worker, xs: seq<Happening>)
    requires h.dead
    ensures AllHappen(w, h, xs) == h
    decreases |xs|
  {
    hide Process;
    if xs != [] {
      DeadStays(w, h, xs[1..]);
    }
  }

  /** The system hands out unused descriptors, connections begin as new ones, and the handler prints headers. */
  predicate CanHappen(h: Worker, x: Happening) {
    match x
    case Arrives(id, client, c) => id !in h.loop.live && Unused(h.loop, client) && Fresh(c)
    case Serves(id, e, fd) => ConnectionSafety.Possible(e) && Unused(h.loop, fd)
  }

  predicate AllCanHappen(w: World, h: Worker, xs: seq<Happening>)
    decreases |xs|
  {
    xs == [] || (CanHappen(h, xs[0]) && AllCanHappen(w, Happens(w, h, xs[0]), xs[1..]))
  }

  predicate LiveOk(h: Worker, id: int)
    requires id in h.loop.live
  {
    && id in h.runs && RunOk(h.runs[id]) && !Terminal(h.runs[id].status)
    && h.runs[id].side == h.loop.live[id].side
  }

  predicate WorkerOk(h: Worker) {
    h.dead || (LoopOk(h.loop) && forall id :: id in h.loop.live ==> LiveOk(h, id))
  }

  lemma ArrivalKeeps(w: World, h: Worker, id: int, client: int, c: Conn)
    requires WorkerOk(h) && !h.dead && CanHappen(h, Arrives(id, client, c))
    ensures WorkerOk(Happens(w, h, Arrives(id, client, c)))
  {
    hide RunOk, LoopOk, Fresh;
    AcceptKeeps(h.loop, id, client);
    FreshOk(c);
    var h' := Happens(w, h, Arrives(id, client, c));
    forall i | i in h'.loop.live ensures LiveOk(h', i) {
      if i != id {
        assert LiveOk(h, i);
      }
    }
  }

  /** The stage machine gives what the loop relies on: a status that checks a socket out comes from a connection
      that has been passed on, so that there is an upstream socket. */
  lemma CheckoutHasUpstream(w: World, run: ConnectionSafety.Run, e: Events)
    requires RunOk(run) && !Terminal(run.status) && ConnectionSafety.Possible(e)
    ensures var n := Process(w, run.c, e);
            && (Checkout(n.status) ==> PassToProxy in n.c.history.visited)
            && RunOk(ConnectionSafety.Run(n.c, Watch(run.side, n.status), n.status))
  {
    hide Process, ConnectionSafety.Possible, OutputOk, Watched;
    CallKeeps(w, run.c, e, run.side);
    CallFill(w, run.c, e);
  }

  lemma ServiceKeeps(w: World, h: Worker, id: int, e: Events, fd: int)
    requires WorkerOk(h) && !h.dead && CanHappen(h, Serves(id, e, fd))
    ensures WorkerOk(Happens(w, h, Serves(id, e, fd)))
  {
    hide RunOk, LoopOk, Process, Handled, Unused, ConnectionSafety.Possible;
    if id in h.loop.live {
      assert LiveOk(h, id);
      var n := Process(w, h.runs[id].c, e);
      CheckoutHasUpstream(w, h.runs[id], e);
      if !n.status.Thrown? {
        var upstream := UpstreamAfter(n.c, h.loop.live[id].upstream, fd);
        HandledKeeps(h.loop, id, n.status, upstream);
        HandledLive(h.loop, id, n.status, upstream);
        var h' := Happens(w, h, Serves(id, e, fd));
        forall i | i in h'.loop.live ensures LiveOk(h', i) {
          if i != id {
            assert LiveOk(h, i);
          }
        }
      }
    }
  }

  lemma HandledLive(l: Loop, id: int, status: Status, upstream: Option<int>)
    requires id in l.live
    ensures var m := Handled(l, id, status, upstream);
            && m.live.Keys == (if Terminal(status) then l.live.Keys - {id} else l.live.Keys)
            && (forall i :: i in m.live && i != id ==> m.live[i] == l.live[i])
            && (!Terminal(status) ==> m.live[id].side == Watch(l.live[id].side, status))
  {
  }

  /** Over every run of a worker, with any number of connections, each of them is in a proper run and exactly one of
      its two sockets is registered, for it, on the side its last checkout named. */
  lemma {:induction false} WorkerRuns(w: World, h: Worker, xs: seq<Happening>)
    requires WorkerOk(h) && AllCanHappen(w, h, xs)
    ensures WorkerOk(AllHappen(w, h, xs))
    decreases |xs|
  {
    hide WorkerOk, CanHappen, Happens;
    if xs != [] {
      HappeningKeeps(w, h, xs[0]);
      WorkerRuns(w, Happens(w, h, xs[0]), xs[1..]);
    }
  }

  lemma HappeningKeeps(w: World, h: Worker, x: Happening)
    requires WorkerOk(h) && CanHappen(h, x)
    ensures WorkerOk(Happens(w, h, x))
  {
    hide LoopOk, LiveOk, CanHappen;
    if !h.dead {
      match x
      case Arrives(id, client, c) => ArrivalKeeps(w, h, id, client, c);
      case Serves(id, e, fd) => ServiceKeeps(w, h, id, e, fd);
    }
  }

  /** Only the socket of this side is in the set, for this connection. */
  predicate OnlyRegistered(l: Loop, id: int, side: Side)
    requires id in l.live
  {
    var s := l.live[id];
    match side
    case ClientSide =>
      s.client in l.epoll && l.epoll[s.client] == id && (s.upstream.Some? ==> s.upstream.value !in l.epoll)
    case UpstreamSide =>
      s.upstream.Some? && s.upstream.value in l.epoll && l.epoll[s.upstream.value] == id && s.client !in l.epoll
  }

  /** At any time of a worker's life the socket that the stage of a connection reads or writes is the one that is
      registered for it, unless a body is being sent to the client or a fill from the upstream was not complete,
      and in these two cases it is not. */
  lemma RegisteredExactly(w: World, xs: seq<Happening>, id: int)
    requires AllCanHappen(w, Worker(map[], Loop(map[], map[]), false), xs)
    ensures var h := AllHappen(w, Worker(map[], Loop(map[], map[]), false), xs);
            !h.dead && id in h.loop.live ==>
              && id in h.runs
              && var run := h.runs[id];
              Uses(run.c.stage).Some? ==>
                (OnlyRegistered(h.loop, id, Uses(run.c.stage).value)
                 <==> !run.c.stage.SendBodyToClient?
                      && !(run.c.stage.GetBodyFromProxy? && run.status.ClientForWrite?))
  {
    hide AllHappen, AllCanHappen, Ok;
    WorkerRuns(w, Worker(map[], Loop(map[], map[]), false), xs);
    var h := AllHappen(w, Worker(map[], Loop(map[], map[]), false), xs);
    if !h.dead && id in h.loop.live {
      assert LiveOk(h, id);
      assert WatchesOne(h.loop.epoll, id, h.loop.live[id]);
    }
  }

  // ---------- a socket that is left in the set ----------

  /** A write that fails at once. */
  function Refused(): Events {
    Events("", 0, 0, -1, -1, [], false, true, None, None, _ => [], false, 0)
  }

  /** The header of the request cannot be sent. */
  lemma SendingFails(w: World, c: Conn)
    requires c.stage.SendHeaderToProxy? && c.requestPos == 0 && |c.requestStr| >= 2
    ensures var n := Process(w, c, Refused()); n == Return(n.c, Processing) && n.c.stage.ErrorStage?
  {
    hide Bytes, Connection.Relay, Respond;
    var n := Begin(w, c, Refused());
    assert n.Go? && n.c.stage.ErrorStage?;
    ConnectionReads.RestIsIdle(w, n.c, Refused());
  }

  /** A connection that has been accepted, and then passed on. */
  function Once(id: int, s: Sockets, run: ConnectionSafety.Run): Worker {
    var epoll := if s.side.ClientSide? then map[s.client := id]
                 else if s.upstream.Some? then map[s.upstream.value := id] else map[];
    Worker(map[id := run], Loop(epoll, map[id := s]), false)
  }

  lemma OneHappens(w: World, h: Worker, x: Happening, h': Worker, xs: seq<Happening>)
    requires CanHappen(h, x) && Happens(w, h, x) == h' && AllCanHappen(w, h', xs)
    ensures AllCanHappen(w, h, [x] + xs) && AllHappen(w, h, [x] + xs) == AllHappen(w, h', xs)
  {
    hide CanHappen, Happens;
    assert ([x] + xs)[1..] == xs;
  }

  lemma IsPassedOn(w: World, c: Conn, e: Events, d: Conn, id: int, client: int, fd: int)
    requires Fresh(c) && ConnectionSafety.Possible(e) && Process(w, c, e) == Return(d, ProxyForWrite) && client != fd
    ensures var h := Once(id, Sockets(client, None, ClientSide), ConnectionSafety.Run(c, ClientSide, Processing));
            && CanHappen(h, Serves(id, e, fd))
            && var s := Sockets(client, Some(fd), UpstreamSide);
               Happens(w, h, Serves(id, e, fd)) == Once(id, s, ConnectionSafety.Run(d, UpstreamSide, ProxyForWrite))
  {
    hide Process, RunOk;
    FreshOk(c);
    CheckoutHasUpstream(w, ConnectionSafety.Run(c, ClientSide, Processing), e);
  }

  lemma GivesUp(w: World, d: Conn, id: int, s: Sockets, spare: int) returns (xs: seq<Happening>)
    requires d.stage.SendHeaderToProxy? && d.requestPos == 0 && |d.requestStr| >= 2
    requires s.side.UpstreamSide? && s.upstream.Some? && spare != s.client && spare != s.upstream.value
    requires s.upstream.value != s.client
    ensures var h := Once(id, s, ConnectionSafety.Run(d, UpstreamSide, ProxyForWrite));
            && AllCanHappen(w, h, xs)
            && AllHappen(w, h, xs) == Worker(map[], Loop(map[s.upstream.value := id], map[]), false)
  {
    hide Process, AllCanHappen, AllHappen;
    var h := Once(id, s, ConnectionSafety.Run(d, UpstreamSide, ProxyForWrite));
    SendingFails(w, d);
    var c := Process(w, d, Refused()).c;
    ConnectionReads.FailsAgain(w, c, Refused());
    var x := Serves(id, Refused(), spare);
    var h1 := Once(id, s, ConnectionSafety.Run(c, UpstreamSide, Processing));
    var end := Worker(map[], Loop(map[s.upstream.value := id], map[]), false);
    assert Happens(w, h, x) == h1;
    assert Happens(w, h1, x) == end;
    Nothing(w, end);
    OneHappens(w, h1, x, end, []);
    OneHappens(w, h, x, h1, [x] + []);
    xs := [x] + ([x] + []);
  }

  lemma Nothing(w: World, h: Worker)
    ensures AllCanHappen(w, h, []) && AllHappen(w, h, []) == h
  {
  }

  /** For every request that is passed on there is a run of a worker, from the arrival of the client on, after which the
      connection is gone and its upstream socket still in the set. */
  lemma LeftInSet(w: World, c: Conn, q: Req.Request, order: seq<string>, id: int, client: int, fd: int, spare: int)
    returns (xs: seq<Happening>)
    requires Fresh(c) && RequestWire.WellFormed(q) && Enumerates(order, q.headers) && PassedOn(w, q.url)
    requires client != fd && spare != client && spare != fd
    ensures var h := Worker(map[], Loop(map[], map[]), false);
            AllCanHappen(w, h, xs) && AllHappen(w, h, xs) == Worker(map[], Loop(map[fd := id], map[]), false)
  {
    hide Process, RequestWire.WellFormed, PassedOn, Req.Printed, Enumerates, Fresh, AllCanHappen, AllHappen;
    var h := Worker(map[], Loop(map[], map[]), false);
    LongRequest(q, order);
    var e := Generous(Image(Req.Printed(q, order)), 0, order);
    var d := RequestComes(w, c, q, order);
    var x, y := Arrives(id, client, c), Serves(id, e, fd);
    var h1 := Once(id, Sockets(client, None, ClientSide), ConnectionSafety.Run(c, ClientSide, Processing));
    var s := Sockets(client, Some(fd), UpstreamSide);
    IsPassedOn(w, c, e, d, id, client, fd);
    xs := GivesUp(w, d, id, s, spare);
    OneHappens(w, h1, y, Once(id, s, ConnectionSafety.Run(d, UpstreamSide, ProxyForWrite)), xs);
    OneHappens(w, h, x, h1, [y] + xs);
    xs := [x] + ([y] + xs);
  }

  // ---------- the class ----------

  class WorkerProcess {
    const listenSock: int
    var epoll: map<int, int>
    var live: map<int, Sockets>

    function View(): Loop
      reads this
    {
      Loop(epoll, live)
    }

    constructor (listenSock: int)
      ensures this.listenSock == listenSock && View() == Loop(map[], map[])
    {
      this.listenSock := listenSock;
      epoll, live := map[], map[];
    }

    method Add(fd: int, id: int)
      modifies `epoll
      ensures epoll == Added(old(epoll), fd, id)
    {
      if fd !in epoll {
        epoll := epoll[fd := id];
      }
    }

    method Delete(fd: int)
      modifies `epoll
      ensures epoll == old(epoll) - {fd}
    {
      epoll := epoll - {fd};
    }

    /** The body of the event loop for a client socket, once `connection_processing` has returned. */
    method Handle(id: int, status: Status, upstream: Option<int>)
      requires id in live
      modifies this
      ensures View() == Handled(old(View()), id, status, upstream)
    {
      var s := live[id].(upstream := upstream);
      if status.Finished? && upstream.Some? {
        Delete(upstream.value);
      }
      if status.Finished? || status.TimeoutError? || status.Failed? || status.Thrown? {
        Delete(s.client);
        live := live - {id};
        return;
      }
      if (status.ProxyForRead? || status.ProxyForWrite?) && upstream.Some? {
        Delete(s.client);
        Add(upstream.value, id);
      } else if status.ClientForRead? || status.ClientForWrite? {
        if upstream.Some? {
          Delete(upstream.value);
        }
        Add(s.client, id);
      }
      live := live[id := s.(side := Watch(s.side, status))];
    }

    /** The event loop over the events of a run. */
    method RunLoop(events: seq<Event>)
      modifies this
      ensures View() == LoopRun(old(View()), events)
    {
      ghost var l := View();
      assert events[0..] == events;
      for i := 0 to |events|
        invariant LoopRun(l, events) == LoopRun(View(), events[i..])
      {
        assert events[i..][0] == events[i] && events[i..][1..] == events[i + 1..];
        match events[i] {
          case Accepted(id, client) =>
            Add(client, id);
            live := live[id := Sockets(client, None, ClientSide)];
          case Returned(id, status, upstream) =>
            if id in live {
              Handle(id, status, upstream);
            }
        }
      }
    }
  }
}
