/** The whole way of a header: printed, emitted by `send_header` over any number of calls, cut into pieces by
    the network, and read line by line. */
module WirePath {
  import opened Text
  import opened HttpBase
  import opened Wire
  import opened Connection
  import Req = HttpRequest
  import Res = HttpResponse
  import RequestWire
  import ResponseWire
  import opened ConnectionSafety
  import opened ConnectionDelivery
  import opened ConnectionReads

  /** What a sequence of calls of `send_header` has emitted, up to the one that reports success or fails. */
  datatype Emitted = Emitted(out: string, done: bool)

  function Emit(str: string, pos: nat, events: seq<Events>): Emitted
    decreases |events|
  {
    if events == [] then Emitted("", false)
    else
      var s := SendHeader(str, pos, events[0]);
      if s.done || s.failed then Emitted(s.out, s.done)
      else
        var more := Emit(s.str, s.pos, events[1..]);
        Emitted(s.out + more.out, more.done)
  }

  /** The call that comes to the closing line end, if one of them does, has both its bytes taken. */
  predicate ClosesFullyIn(str: string, pos: nat, events: seq<Events>)
    decreases |events|
  {
    events == []
    || (ClosesFully(str, pos, events[0])
        && var s := SendHeader(str, pos, events[0]);
        s.done || s.failed || ClosesFullyIn(s.str, s.pos, events[1..]))
  }

  /** Under every write schedule the emitted bytes are a prefix of the image of the header; once `send_header`
      reports success they are all of it if and only if the write of the closing line end has returned 2. */
  lemma {:induction false} EmitsImage(str: string, pos: nat, events: seq<Events>)
    requires |str| >= 2 && pos < |str| - 1
    ensures var m := Emit(str, pos, events);
            && str[..pos] + m.out <= Image(str)
            && (m.done ==> (str[..pos] + m.out == Image(str) <==> ClosesFullyIn(str, pos, events)))
    decreases |events|
  {
    hide SendHeader, ClosesFully;
    if events != [] {
      SendHeaderOut(str, pos, events[0]);
      var s := SendHeader(str, pos, events[0]);
      HeaderLoses(str, pos, events[0]);
      if s.done || s.failed {
        LastCall(str, pos, events[0]);
      } else {
        EmitsImage(str, s.pos, events[1..]);
        assert str[..pos] + str[pos..s.pos] == str[..s.pos];
        var more := Emit(s.str, s.pos, events[1..]).out;
        assert str[..pos] + (s.out + more) == str[..s.pos] + more;
      }
    }
  }

  lemma LastCall(str: string, pos: nat, e: Events)
    requires |str| >= 2 && pos < |str| - 1
    ensures var s := SendHeader(str, pos, e);
            && str[..pos] + s.out <= Image(str)
            && (s.done ==> |str[..pos] + s.out| + s.lost == |Image(str)|)
            && (s.done && s.lost == 0 ==> str[..pos] + s.out == Image(str))
  {
    hide SendHeader;
    SendHeaderOut(str, pos, e);
    var s := SendHeader(str, pos, e);
    var body := str[..|str| - 1];
    if s.pos == |str| - 1 {
      assert str[..pos] + str[pos..|str| - 1] == body;
      assert str[..pos] + s.out == body + "\r\n"[..Taken(e.closing, 2)];
    } else {
      assert str[..pos] + str[pos..s.pos] == str[..s.pos];
    }
  }

  /** The call that gets to the end of the text writes a line end in place of its last byte. A failed write sends
      none of it and is an error; one that is cut short sends what it has taken, and is not. */
  lemma ClosingWrite(str: string, pos: nat, e: Events)
    requires |str| >= 2 && pos < |str| - 1 && e.accepts >= |str| - 1 - pos
    ensures var s := SendHeader(str, pos, e);
            && s.out == str[pos..|str| - 1] + (if e.closing <= 0 then "" else if e.closing == 1 then "\r" else "\r\n")
            && s.lost == (if e.closing <= 0 then 2 else if e.closing == 1 then 1 else 0)
            && s.pos == |str| - 1 && s.failed == (e.closing == -1) && s.done == (e.closing != -1)
  {
    SendHeaderOut(str, pos, e);
  }

  /** A text of fewer than two bytes, or one whose last byte has been passed, is never sent, whatever is accepted: the
      position is compared with a value it does not come to. */
  lemma {:induction false} NeverCloses(str: string, pos: nat, events: seq<Events>)
    requires |str| < 2 || pos >= |str| - 1
    ensures !Emit(str, pos, events).done
    decreases |events|
  {
    if events != [] {
      NeverCloses(str, pos + events[0].accepts, events[1..]);
    }
  }

  lemma PrintedIsLong(q: Req.Request, order: seq<string>)
    requires Enumerates(order, q.headers)
    ensures |Req.Printed(q, order)| >= 2
  {
  }

  /** A well-formed request that `send_header` has sent off in any header order and under any write schedule, the
      closing write having taken both bytes, is read by a connection as the same request if and only if no call before
      the one that gets its last byte ends in a failed read or a timeout. */
  lemma RequestArrives(w: World, c: Conn, q: Req.Request, order: seq<string>, writes: seq<Events>, calls: seq<Events>)
    requires Fresh(c) && RequestWire.WellFormed(q) && Enumerates(order, q.headers)
    requires var str := Req.Printed(q, order);
             Emit(str, 0, writes).done && ClosesFullyIn(str, 0, writes) && Delivers(calls, Emit(str, 0, writes).out)
    ensures Calls(w, Run(c, ClientSide, Processing), calls).c.request == RequestWire.Ended(q) <==> Unbroken(calls)
  {
    hide Emit, Calls, Delivers, Unbroken, Req.Printed, RequestWire.WellFormed, ClosesFullyIn;
    var str := Req.Printed(q, order);
    PrintedIsLong(q, order);
    EmitsImage(str, 0, writes);
    assert str[..0] + Emit(str, 0, writes).out == Emit(str, 0, writes).out;
    RequestReadExactly(w, c, q, order, calls);
  }

  lemma ResponseIsLong(q: Res.Response, order: seq<string>)
    requires Enumerates(order, q.headers)
    ensures |Res.Printed(q, order)| >= 2
  {
  }

  /** The same of a response that a connection awaits from its upstream with nothing left in its buffer. */
  lemma ResponseArrives(w: World, run: Run, q: Res.Response, order: seq<string>, writes: seq<Events>,
                        calls: seq<Events>)
    requires AwaitsResponse(run) && run.c.buffer == ""
    requires NoLineFeed(q.message) && ResponseWire.HeadersOk(q.headers) && ResponseWire.NamesDistinct(q.headers)
    requires Enumerates(order, q.headers)
    requires var str := Res.Printed(q, order);
             Emit(str, 0, writes).done && ClosesFullyIn(str, 0, writes) && Delivers(calls, Emit(str, 0, writes).out)
    ensures var end := Calls(w, run, calls).c.response;
            && (end.ended <==> Unbroken(calls))
            && (end.ended ==>
                  && end == ResponseWire.StatusRead(run.c.response, q).(headers := end.headers, ended := true)
                  && ResponseWire.Lowered(q.headers, end.headers))
  {
    hide Emit, Calls, Delivers, Unbroken, Res.Printed, ResponseWire.HeadersOk, ResponseWire.NamesDistinct,
      ResponseWire.Lowered, ClosesFullyIn, Res.ScanStatus, Res.StartLine;
    var str := Res.Printed(q, order);
    ResponseIsLong(q, order);
    EmitsImage(str, 0, writes);
    assert str[..0] + Emit(str, 0, writes).out == Emit(str, 0, writes).out;
    ResponseWire.PrintedScans(q);
    assert "" + Res.StartLine(q) == Res.StartLine(q);
    ResponseReadExactly(w, run, q, order, calls);
  }
}
