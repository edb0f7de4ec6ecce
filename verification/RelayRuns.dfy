/** The relay of a body as it happens in the runs of a connection. */
module RelayRuns {
  import opened Text
  import opened ServerSettings
  import opened Connection
  import opened ConnectionSafety
  import opened BodyRelay

  /** An answer of the world that lets `n` bytes be read or written and does not fail. */
  predicate Grants(e: Events, source: string, n: nat) {
    && e.input == source[..Min(n, |source|)] && e.inputEnd == 0
    && e.accepts == n && e.acceptEnd == 0 && !e.timeout
  }

  /** The events of a run give what the schedule grants, up to the end of the relay. */
  predicate Granted(bodyLength: nat, s: Relay, events: seq<Events>, grants: seq<nat>)
    decreases |events|
  {
    && |events| == |grants|
    && (events == [] ||
        (!s.finished && Grants(events[0], s.source, grants[0])
         && Granted(bodyLength, Step(false, bodyLength, s, grants[0]), events[1..], grants[1..])))
  }

  /** The fields of the connection that the relay is about; what has been written is written to the given side. */
  predicate Shows(s: Relay, c: Conn) {
    && c.buffer == s.buffer && c.readCount == s.readCount && c.getInd == s.getInd
    && (if s.filling then !s.finished && s.getInd < BUFFER_LENGTH else c.sendInd == s.sendInd)
  }

  function Written(c: Conn, side: Side): string {
    if side == UpstreamSide then c.history.toProxy else c.history.toClient
  }

  /** The stage in which a body is passed on to the given side. */
  function StageOf(s: Relay, side: Side): Stage {
    if side == UpstreamSide then if s.filling then GetBodyFromClient else SendBodyToProxy
    else if s.filling then GetBodyFromProxy else SendBodyToClient
  }

  // ---------- one call ----------

  /** In a relaying stage a call is the one part of it that is about this stage. */
  lemma OnePart(w: World, c: Conn, e: Events)
    requires !e.timeout && e.inputEnd != -1 && e.acceptEnd != -1
    ensures c.stage.GetBodyFromClient? ==>
              var n := OnBodyFromClient(c, e); Process(w, c, e) == if n.Return? then n else Return(n.c, Processing)
    ensures c.stage.SendBodyToProxy? ==>
              var n := OnBodyToProxy(c, e); Process(w, c, e) == if n.Return? then n else Return(n.c, Processing)
    ensures c.stage.GetBodyFromProxy? ==> Process(w, c, e) == OnBodyFromProxy(c, e)
    ensures c.stage.SendBodyToClient? ==>
              var n := OnBodyToClient(c, e); Process(w, c, e) == if n.Return? then n else Return(n.c, Processing)
  {
    hide Bytes;
  }

  /** What one call does: a step of the relay, on the side the body is passed on to. */
  predicate Relays(side: Side, s: Relay, t: Relay, c: Conn, n: Next) {
    && n.Return? && Shows(t, n.c) && n.c.bodyLength == c.bodyLength
    && s.out <= t.out && Written(n.c, side) == Written(c, side) + t.out[|s.out|..]
    && (if t.finished then (if side == UpstreamSide then n.c.stage.GetResponseFromProxy? && n.status.ProxyForRead?
                            else n.status.Finished?)
        else n.c.stage == StageOf(t, side) && !Terminal(n.status))
  }

  lemma FillIsCode(w: World, c: Conn, s: Relay, e: Events, n: nat, side: Side)
    requires Shows(s, c) && s.filling && Grants(e, s.source, n) && c.stage == StageOf(s, side)
    ensures Relays(side, s, Step(false, c.bodyLength, s, n), c, Process(w, c, e))
  {
    hide Process, Bytes;
    OnePart(w, c, e);
    var k := Min(Min(n, |s.source|), BUFFER_LENGTH - s.getInd);
    assert e.input[..k] == s.source[..k];
  }

  lemma DrainIsCode(w: World, c: Conn, s: Relay, e: Events, n: nat, side: Side)
    requires Shows(s, c) && !s.filling && !s.finished && Grants(e, s.source, n) && c.stage == StageOf(s, side)
    ensures Relays(side, s, Step(false, c.bodyLength, s, n), c, Process(w, c, e))
  {
    hide Process, Bytes;
    OnePart(w, c, e);
  }

  lemma StepIsCode(w: World, c: Conn, s: Relay, e: Events, n: nat, side: Side)
    requires Shows(s, c) && !s.finished && Grants(e, s.source, n) && c.stage == StageOf(s, side)
    ensures Relays(side, s, Step(false, c.bodyLength, s, n), c, Process(w, c, e))
  {
    hide Process, Bytes, Step, Grants;
    if s.filling {
      FillIsCode(w, c, s, e, n, side);
    } else {
      DrainIsCode(w, c, s, e, n, side);
    }
  }

  // ---------- runs ----------

  /** Over any run under granted events the bytes written are those of the rounds, and when these are finished so is
      the relay, and only then. */
  lemma {:induction false} RunIsRounds(w: World, run: Run, s: Relay, events: seq<Events>, grants: seq<nat>, side: Side)
    requires !Terminal(run.status) && Shows(s, run.c) && !s.finished && run.c.stage == StageOf(s, side)
    requires Granted(run.c.bodyLength, s, events, grants)
    ensures var end, t := Calls(w, run, events), Rounds(false, run.c.bodyLength, s, grants);
            && Shows(t, end.c) && s.out <= t.out && Written(end.c, side) == Written(run.c, side) + t.out[|s.out|..]
            && (if t.finished then
                  (if side == UpstreamSide then end.c.stage.GetResponseFromProxy? else end.status.Finished?)
                else end.c.stage == StageOf(t, side) && !Terminal(end.status))
    decreases |events|
  {
    hide Process, Step, Shows;
    if events != [] {
      var t := Step(false, run.c.bodyLength, s, grants[0]);
      var n := Process(w, run.c, events[0]);
      StepIsCode(w, run.c, s, events[0], grants[0], side);
      var next := Run(n.c, Watch(run.side, n.status), n.status);
      if t.finished {
        assert events[1..] == [] && grants[1..] == [];
      } else {
        RunIsRounds(w, next, t, events[1..], grants[1..], side);
      }
    }
  }

  /** A connection in a run that is about to read the first byte of those that are still to come. */
  predicate Begins(run: Run, st: Start, side: Side) {
    && !Terminal(run.status) && run.c.stage == StageOf(Begun(st), side) && run.c.getInd == 0
    && run.c.buffer == st.buffer && run.c.readCount == st.count && run.c.bodyLength == st.length
  }

  /** The body has been passed on to this side, as the code sees it. */
  predicate Through(end: Run, side: Side) {
    if side == UpstreamSide then end.c.stage.GetResponseFromProxy? else end.status.Finished?
  }

  /** A connection that sends a body and whose send index has passed the fill index. */
  predicate Overruns(end: Run, side: Side) {
    && !Terminal(end.status) && end.c.sendInd > end.c.getInd
    && end.c.stage == (if side == UpstreamSide then SendBodyToProxy else SendBodyToClient)
  }

  lemma OverrunShows(s: Relay, end: Run, side: Side)
    requires Shows(s, end.c)
    requires if s.finished then Through(end, side) else end.c.stage == StageOf(s, side) && !Terminal(end.status)
    ensures Overruns(end, side) <==> Overrun(s)
    ensures (Through(end, side) <==> s.finished) && end.c.readCount == s.readCount
  {
  }

  /** In every run under granted events, whatever the buffer and the count are at first. As long as the send index
      has not passed the fill index, what is written to the other side are the bytes at the start of the buffer,
      over and over, as many as have come at most. When the relay is finished they are at least as many as the
      count was short of the length, and what has come if and only if that repeats the start of the buffer. A
      whole body, from an empty buffer and the count 0, is then passed on in its full length, and unchanged if and
      only if it repeats its first 1024 bytes. When the send index has passed the fill index, the count had
      reached the length, nothing has come, and what is written is what the buffer held and what lies behind it. */
  lemma BodyArrivesExactly(w: World, run: Run, st: Start, events: seq<Events>, grants: seq<nat>, side: Side)
    requires Begins(run, st, side) && Granted(st.length, Begun(st), events, grants)
    ensures var end := Calls(w, run, events); var was := Written(run.c, side);
            && was <= Written(end.c, side)
            && var sent := Written(end.c, side)[|was|..]; var k := |sent|;
            if Overruns(end, side) then
              && st.count >= st.length && end.c.readCount == st.count && k > 0 && sent == Bytes(st.buffer, 0, k)
              && !Through(end, side)
            else
              && k <= |st.source| && sent == Out(false, st, k)
              && (Through(end, side) ==>
                    && st.length - st.count <= k
                    && (sent == st.source[..k] <==> Repeats(st, k))
                    && (st == Start("", st.source, 0, |st.source|) ==>
                          k == |st.source| && (sent == st.source <==> RepeatsItself(st.source))))
  {
    hide Calls, Rounds, Granted, Bytes, Out, Shows, Repeats;
    var s := Begun(st);
    BegunShows(run, st, side);
    RunIsRounds(w, run, s, events, grants, side);
    KeptBufferRelaysExactly(st, grants);
    var t := Rounds(false, st.length, s, grants);
    assert t.out[0..] == t.out;
    OverrunShows(t, Calls(w, run, events), side);
    if t.finished && st == Start("", st.source, 0, |st.source|) && st.source != "" {
      RepeatedBody(st.source, grants);
    }
  }

  lemma BegunShows(run: Run, st: Start, side: Side)
    requires Begins(run, st, side)
    ensures Shows(Begun(st), run.c)
  {
  }

  /** A relayed request body stays behind: its bytes in the buffer, and their number in the count. */
  lemma LeftInBuffer(w: World, run: Run, body: string, events: seq<Events>, grants: seq<nat>)
    requires body != "" && Begins(run, Start("", body, 0, |body|), UpstreamSide)
    requires Granted(|body|, NewRelay(body, 0), events, grants)
    ensures var end := Calls(w, run, events);
            Through(end, UpstreamSide) ==> end.c.buffer == body && end.c.readCount == |body|
  {
    hide Calls, Rounds, Granted;
    var st := Start("", body, 0, |body|);
    RunIsRounds(w, run, Begun(st), events, grants, UpstreamSide);
    Started(false, st);
    RoundsKeep(false, st, Begun(st), grants);
    assert "" + body[..|body|] == body;
  }

  /** A run in which a count of r carried over cuts the body short by as much. */
  lemma CutShortRun(w: World, run: Run, body: string, side: Side) returns (events: seq<Events>)
    requires body != "" && Begins(run, Start(run.c.buffer, body, run.c.readCount, |body|), side)
    ensures var end := Calls(w, run, events); var r := run.c.readCount; var was := Written(run.c, side);
            && Through(end, side) && |Written(end.c, side)| == |was| + (if r < |body| then |body| - r else 0)
  {
    hide Calls, Rounds, Granted;
    var s := Begun(Start(run.c.buffer, body, run.c.readCount, |body|));
    var grants, t := FinishingSchedule(false, |body|, s);
    var used;
    events, used := EventsFor(|body|, s, grants);
    RunIsRounds(w, run, s, events, used, side);
  }

  function Granting(source: string, n: nat): Events {
    Events(source[..Min(n, |source|)], 0, n, 0, 2, [], false, true, None, None, _ => [], false, 0)
  }

  /** The events of a schedule that finishes, up to where it does. */
  lemma {:induction false} EventsFor(bodyLength: nat, s: Relay, grants: seq<nat>)
    returns (events: seq<Events>, used: seq<nat>)
    requires !s.finished && Rounds(false, bodyLength, s, grants).finished
    ensures Granted(bodyLength, s, events, used)
    ensures Rounds(false, bodyLength, s, used) == Rounds(false, bodyLength, s, grants)
    decreases |grants|
  {
    hide Step;
    var t := Step(false, bodyLength, s, grants[0]);
    var e := Granting(s.source, grants[0]);
    if t.finished {
      events, used := [e], [grants[0]];
      StaysFinished(false, bodyLength, t, grants[1..]);
    } else {
      events, used := EventsFor(bodyLength, t, grants[1..]);
      assert ([e] + events)[1..] == events && ([grants[0]] + used)[1..] == used;
      events, used := [e] + events, [grants[0]] + used;
    }
  }
}
