/** Passing a body on through the bounded buffer, in rounds that fill it and drain it. */
module BodyRelay {
  import opened Text
  import opened Connection

  /** `source` are the bytes of the body that have not been read, `out` those that have been written. */
  datatype Relay = Relay(source: string, buffer: string, readCount: nat, getInd: nat, sendInd: nat,
                         filling: bool, finished: bool, out: string)

  /** One call in a filling or a draining stage. `clears` tells the code as it is, which keeps the buffer when
      it zeroes `get_body_ind`, from the one that clears it there. */
  function Step(clears: bool, bodyLength: nat, s: Relay, n: nat): Relay {
    if s.finished then s
    else if s.filling then
      var offered := Min(n, |s.source|);
      var k := if s.getInd < BUFFER_LENGTH then Min(offered, BUFFER_LENGTH - s.getInd) else 0;
      s.(source := s.source[k..], buffer := s.buffer + s.source[..k], readCount := s.readCount + k,
         getInd := s.getInd + k, sendInd := 0,
         filling := s.getInd + k < BUFFER_LENGTH && s.readCount + k < bodyLength)
    else
      var k := Steps(s.sendInd, s.getInd, n);
      var s1 := s.(sendInd := s.sendInd + k, out := s.out + Bytes(s.buffer, s.sendInd, k));
      if s1.sendInd != s.getInd then s1
      else s1.(getInd := 0, buffer := if clears then "" else s.buffer,
               filling := s.readCount < bodyLength, finished := s.readCount >= bodyLength)
  }

  function Rounds(clears: bool, bodyLength: nat, s: Relay, grants: seq<nat>): Relay
    decreases |grants|
  {
    if grants == [] then s else Rounds(clears, bodyLength, Step(clears, bodyLength, s, grants[0]), grants[1..])
  }

  /** What a relay starts from: what is left in the buffer, the bytes that are still to come, the count of read bytes,
      which is never reset between two bodies, and the length of the body. */
  datatype Start = Start(buffer: string, source: string, count: nat, length: nat)

  function Begun(st: Start): Relay {
    Relay(st.source, st.buffer, st.count, 0, 0, true, false, "")
  }

  /** The relay of a whole body from an empty buffer. */
  function NewRelay(body: string, carried: nat): Relay {
    Begun(Start("", body, carried, |body|))
  }

  /** There is something to relay, and where the buffer is cleared it is clear from the start. */
  predicate Proper(clears: bool, st: Start) {
    st.count < st.length && (clears ==> st.buffer == "")
  }

  // ---------- what every step keeps ----------

  /** How much had been written when this round began. */
  function Base(st: Start, s: Relay): int {
    s.readCount - st.count - s.getInd
  }

  /** The byte that comes out at `j`: the one that went in, or, if every round sends the buffer from its start,
      the one in its place in the first chunk. */
  function ByteOut(clears: bool, st: Start, j: nat): char
    requires j < |st.source|
  {
    if clears then st.source[j] else (st.buffer + st.source)[j % 1024]
  }

  /** The first `k` bytes that come out. */
  function Out(clears: bool, st: Start, k: nat): (r: string)
    requires k <= |st.source|
    ensures |r| == k && forall j :: 0 <= j < k ==> r[j] == ByteOut(clears, st, j)
  {
    seq(k, j requires 0 <= j < k => ByteOut(clears, st, j))
  }

  /** How many bytes of this round have been written. */
  function Written(s: Relay): nat {
    if s.filling || s.finished then 0 else s.sendInd
  }

  predicate RelayOk(clears: bool, st: Start, s: Relay) {
    var got := s.readCount - st.count;
    && 0 <= got <= |st.source| && s.source == st.source[got..]
    && s.getInd <= BUFFER_LENGTH && 0 <= Base(st, s) && Base(st, s) + Written(s) <= |st.source|
    && s.buffer == (if clears then st.source[Base(st, s)..got] else st.buffer + st.source[..got])
    && (s.filling ==>
          !s.finished && s.getInd < BUFFER_LENGTH && s.readCount < st.length && Base(st, s) % BUFFER_LENGTH == 0)
    && (!s.filling && !s.finished ==>
          && s.sendInd < s.getInd && Base(st, s) % BUFFER_LENGTH == 0
          && (s.getInd == BUFFER_LENGTH || s.readCount >= st.length))
    && (s.finished ==> s.readCount >= st.length && s.getInd == 0)
    && s.out == Out(clears, st, Base(st, s) + Written(s))
  }

  lemma Joins(body: string, from: nat, i: nat, k: nat)
    requires from <= i && i + k <= |body|
    ensures body[i..][k..] == body[i + k..] && body[from..i] + body[i..][..k] == body[from..i + k]
  {
  }

  lemma JoinsBehind(front: string, body: string, i: nat, k: nat)
    requires i + k <= |body|
    ensures front + body[..i] + body[i..][..k] == front + body[..i + k]
  {
  }

  /** `k` bytes more are in the buffer. */
  lemma FillJoins(clears: bool, st: Start, s: Relay, k: nat)
    requires RelayOk(clears, st, s) && k <= |s.source|
    ensures var got := s.readCount - st.count;
            && s.source[k..] == st.source[got + k..]
            && s.buffer + s.source[..k]
               == (if clears then st.source[Base(st, s)..got + k] else st.buffer + st.source[..got + k])
  {
    hide Out;
    var got := s.readCount - st.count;
    Joins(st.source, Base(st, s), got, k);
    JoinsBehind(st.buffer, st.source, got, k);
  }

  lemma FillKeeps(clears: bool, st: Start, s: Relay, n: nat)
    requires RelayOk(clears, st, s) && s.filling
    ensures RelayOk(clears, st, Step(clears, st.length, s, n))
  {
    hide Out, Min, Bytes, Steps;
    var offered := Min(n, |s.source|);
    var k := Min(offered, BUFFER_LENGTH - s.getInd);
    MinIs(n, |s.source|);
    MinIs(offered, BUFFER_LENGTH - s.getInd);
    var t := Step(clears, st.length, s, n);
    FillJoins(clears, st, s, k);
    assert Base(st, t) == Base(st, s) && Written(t) == 0;
  }

  lemma MinIs(a: nat, b: nat)
    ensures Min(a, b) <= a && Min(a, b) <= b
  {
  }

  /** `piece` is what should come out from position `at` on. */
  predicate Continues(clears: bool, st: Start, at: nat, piece: string) {
    at + |piece| <= |st.source| && forall i :: 0 <= i < |piece| ==> piece[i] == ByteOut(clears, st, at + i)
  }

  lemma Extends(clears: bool, st: Start, at: nat, piece: string)
    requires Continues(clears, st, at, piece)
    ensures Out(clears, st, at) + piece == Out(clears, st, at + |piece|)
  {
    var whole, joined := Out(clears, st, at + |piece|), Out(clears, st, at) + piece;
    forall j | 0 <= j < |whole| ensures joined[j] == whole[j] {
      if j >= at {
        assert piece[j - at] == ByteOut(clears, st, at + (j - at));
      }
    }
  }

  /** The bytes a drain step writes. */
  lemma DrainWrites(clears: bool, st: Start, s: Relay, k: nat)
    requires RelayOk(clears, st, s) && !s.filling && !s.finished && s.sendInd + k <= s.getInd
    ensures Continues(clears, st, Base(st, s) + s.sendInd, Bytes(s.buffer, s.sendInd, k))
  {
    hide Out;
    var at, piece := Base(st, s) + s.sendInd, Bytes(s.buffer, s.sendInd, k);
    forall i | 0 <= i < k ensures piece[i] == ByteOut(clears, st, at + i) {
      assert piece[i] == s.buffer[s.sendInd + i];
    }
  }

  lemma DrainKeeps(clears: bool, st: Start, s: Relay, n: nat)
    requires RelayOk(clears, st, s) && !s.filling && !s.finished
    ensures RelayOk(clears, st, Step(clears, st.length, s, n))
  {
    hide Out, Bytes, Continues;
    var k, got := Steps(s.sendInd, s.getInd, n), s.readCount - st.count;
    DrainWrites(clears, st, s, k);
    Extends(clears, st, Base(st, s) + s.sendInd, Bytes(s.buffer, s.sendInd, k));
    assert st.source[got..got] == "";
  }

  lemma {:induction false} RoundsKeep(clears: bool, st: Start, s: Relay, grants: seq<nat>)
    requires RelayOk(clears, st, s)
    ensures RelayOk(clears, st, Rounds(clears, st.length, s, grants))
    decreases |grants|
  {
    hide RelayOk, Step;
    if grants != [] {
      var t := Step(clears, st.length, s, grants[0]);
      assert RelayOk(clears, st, t) by { StepKeeps(clears, st, s, grants[0]); }
      RoundsKeep(clears, st, t, grants[1..]);
    }
  }

  lemma StepKeeps(clears: bool, st: Start, s: Relay, n: nat)
    requires RelayOk(clears, st, s)
    ensures RelayOk(clears, st, Step(clears, st.length, s, n))
  {
    hide Out;
    if s.filling {
      FillKeeps(clears, st, s, n);
    } else if !s.finished {
      DrainKeeps(clears, st, s, n);
    }
  }

  lemma Started(clears: bool, st: Start)
    requires Proper(clears, st)
    ensures RelayOk(clears, st, Begun(st))
  {
    assert st.source[0..] == st.source && st.source[..0] == "" && st.source[0..0] == "";
  }

  // ---------- a count that has reached the length ----------

  /** The send index has passed the fill index, so that the loop of `send_body` does not find its end any more. */
  predicate Overrun(s: Relay) {
    !s.filling && !s.finished && s.sendInd > s.getInd
  }

  /** A chunk that is being sent holds 1 to 1024 bytes, all of them in the buffer, and is not through. */
  predicate Bounded(s: Relay) {
    s.getInd <= 1024 && (!s.filling && !s.finished ==> 1 <= s.getInd && s.sendInd < s.getInd <= |s.buffer|)
  }

  /** Every fill ends with something in the buffer. */
  predicate FillsUp(length: nat, s: Relay) {
    && Bounded(s) && s.getInd <= |s.buffer|
    && (s.filling ==> !s.finished && s.getInd < BUFFER_LENGTH && s.readCount < length)
  }

  lemma {:induction false} RoundsFillUp(clears: bool, length: nat, s: Relay, grants: seq<nat>)
    requires FillsUp(length, s)
    ensures FillsUp(length, Rounds(clears, length, s, grants))
    decreases |grants|
  {
    hide FillsUp, Step;
    if grants != [] {
      StepFillsUp(clears, length, s, grants[0]);
      RoundsFillUp(clears, length, Step(clears, length, s, grants[0]), grants[1..]);
    }
  }

  lemma StepFillsUp(clears: bool, length: nat, s: Relay, n: nat)
    requires FillsUp(length, s)
    ensures FillsUp(length, Step(clears, length, s, n))
  {
    hide Bytes;
  }

  /** An empty fill is taken for complete, and then one byte that is written puts the send index past its end: `n` bytes
      are written that are none of the body. */
  lemma EmptyFill(clears: bool, st: Start, n: nat)
    requires st.count >= st.length && n > 0
    ensures var s := Rounds(clears, st.length, Begun(st), [0, n]);
            && Overrun(s) && s.getInd == 0 && s.sendInd == n && s.readCount == st.count
            && s.out == Bytes(st.buffer, 0, n)
  {
    hide Rounds, Bytes;
    var t := Step(clears, st.length, Begun(st), 0);
    assert st.source[..0] == "" && st.source[0..] == st.source && st.buffer + "" == st.buffer;
    assert [0, n] == [0] + ([n] + []);
    OneGrant(clears, st.length, Begun(st), 0, [n] + []);
    OneGrant(clears, st.length, t, n, []);
    NoGrants(clears, st.length, Step(clears, st.length, t, n));
    assert "" + Bytes(st.buffer, 0, n) == Bytes(st.buffer, 0, n);
  }

  /** Whatever is in the buffer, and whether it is cleared: in every schedule every chunk that is sent is within bounds,
      if and only if the count starts below the length. Otherwise a schedule overruns the buffer. */
  lemma ChunksAreBoundedExactly(clears: bool, st: Start)
    ensures (forall grants :: Bounded(Rounds(clears, st.length, Begun(st), grants))) <==> st.count < st.length
    ensures (exists grants :: Overrun(Rounds(clears, st.length, Begun(st), grants))) <==> st.count >= st.length
  {
    hide Rounds;
    if st.count < st.length {
      forall grants ensures FillsUp(st.length, Rounds(clears, st.length, Begun(st), grants)) {
        RoundsFillUp(clears, st.length, Begun(st), grants);
      }
    } else {
      EmptyFill(clears, st, 1);
    }
  }

  // ---------- main results ----------

  /** With the buffer cleared after each round a body of any length is passed on byte for byte, over any number
      of rounds: always a prefix, in the end all of it. */
  lemma ClearedBufferRelays(body: string, grants: seq<nat>)
    requires body != ""
    ensures var s := Rounds(true, |body|, NewRelay(body, 0), grants);
            s.out <= body && (s.finished ==> s.out == body)
  {
    hide Rounds;
    var st := Start("", body, 0, |body|);
    Started(true, st);
    RoundsKeep(true, st, Begun(st), grants);
    var s := Rounds(true, |body|, NewRelay(body, 0), grants);
    assert s.out == body[..Base(st, s) + Written(s)];
  }

  /** Of what comes, the first `k` bytes are those at the start of the buffer, over and over. */
  predicate Repeats(st: Start, k: nat)
    requires k <= |st.source|
  {
    forall j :: 0 <= j < k ==> st.source[j] == (st.buffer + st.source)[j % 1024]
  }

  /** Behind an empty fill: what has been written is what the buffer held, and zeros behind it. */
  predicate Idle(st: Start, s: Relay) {
    && st.count >= st.length && s.readCount == st.count && s.getInd == 0 && !s.filling && !s.finished
    && s.source == st.source && s.buffer == st.buffer && s.out == Bytes(st.buffer, 0, s.sendInd)
  }

  lemma BytesJoin(s: string, from: nat, k: nat, more: nat)
    ensures Bytes(s, from, k) + Bytes(s, from + k, more) == Bytes(s, from, k + more)
  {
  }

  lemma IdleStep(st: Start, s: Relay, n: nat)
    requires Idle(st, s)
    ensures var t := Step(false, st.length, s, n);
            if s.sendInd == 0 && n == 0 then t.finished && RelayOk(false, st, t) else Idle(st, t)
  {
    hide Bytes, Out;
    BytesJoin(st.buffer, 0, s.sendInd, n);
    assert st.source[..0] == "" && st.source[0..] == st.source && st.buffer + "" == st.buffer;
    if s.sendInd == 0 && n == 0 {
      assert Bytes(st.buffer, 0, 0) == "" && Out(false, st, 0) == "";
    }
  }

  lemma {:induction false} IdleRounds(st: Start, s: Relay, grants: seq<nat>)
    requires Idle(st, s)
    ensures var t := Rounds(false, st.length, s, grants); Idle(st, t) || (t.finished && RelayOk(false, st, t))
    decreases |grants|
  {
    hide Idle, Step, RelayOk;
    if grants != [] {
      var t := Step(false, st.length, s, grants[0]);
      IdleStep(st, s, grants[0]);
      if Idle(st, t) {
        IdleRounds(st, t, grants[1..]);
      } else {
        RoundsKeep(false, st, t, grants[1..]);
        StaysFinished(false, st.length, t, grants[1..]);
      }
    }
  }

  lemma {:induction false} StaysFinished(clears: bool, bodyLength: nat, s: Relay, grants: seq<nat>)
    requires s.finished
    ensures Rounds(clears, bodyLength, s, grants) == s
    decreases |grants|
  {
    if grants != [] {
      StaysFinished(clears, bodyLength, s, grants[1..]);
    }
  }

  /** The first fill if the count has reached the length: it is complete, empty or not. */
  lemma OnlyFill(st: Start, n: nat)
    requires st.count >= st.length
    ensures var t := Step(false, st.length, Begun(st), n); Idle(st, t) || RelayOk(false, st, t)
  {
    hide Out;
    var k := Min(Min(n, |st.source|), BUFFER_LENGTH);
    assert st.source[..0] == "" && st.source[0..] == st.source && st.buffer + "" == st.buffer;
    assert Out(false, st, 0) == "" && Bytes(st.buffer, 0, 0) == "";
  }

  /** From any buffer and any count: the relay has not begun, or keeps its invariant, or idles. */
  lemma AnyRounds(st: Start, grants: seq<nat>)
    ensures var s := Rounds(false, st.length, Begun(st), grants); s == Begun(st) || RelayOk(false, st, s) || Idle(st, s)
  {
    hide RelayOk, Idle, Step;
    if st.count < st.length {
      Started(false, st);
      RoundsKeep(false, st, Begun(st), grants);
    } else if grants != [] {
      OnlyFill(st, grants[0]);
      var t := Step(false, st.length, Begun(st), grants[0]);
      if Idle(st, t) {
        IdleRounds(st, t, grants[1..]);
      } else {
        RoundsKeep(false, st, t, grants[1..]);
      }
    }
  }

  /** As the code is, whatever the buffer and the count are at first. As long as the send index has not run past
      the fill index, what has been written are the bytes at the start of the buffer, over and over; a relay is
      finished only when as many bytes have come as the count was short of the length, and then as many have been
      written, unchanged exactly if they repeat the start of the buffer. A relay that has run past it began with a
      count that had reached the length, nothing has come, and what has been written is what the buffer held and
      what lies behind it. */
  lemma KeptBufferRelaysExactly(st: Start, grants: seq<nat>)
    ensures var s := Rounds(false, st.length, Begun(st), grants); var k := |s.out|;
            if Overrun(s) then
              st.count >= st.length && s.readCount == st.count && k > 0 && s.out == Bytes(st.buffer, 0, k)
            else
              && k <= |st.source| && s.out == Out(false, st, k)
              && (s.finished ==> st.length - st.count <= k && (s.out == st.source[..k] <==> Repeats(st, k)))
  {
    hide Rounds, Bytes, Out;
    AnyRounds(st, grants);
    var s := Rounds(false, st.length, Begun(st), grants);
    var out := s.out;
    if !Overrun(s) {
      assert |Out(false, st, 0)| == 0 && |Bytes(st.buffer, 0, 0)| == 0;
      if out == st.source[..|out|] {
        forall j | 0 <= j < |out| ensures st.source[j] == (st.buffer + st.source)[j % BUFFER_LENGTH] {
          assert out[j] == ByteOut(false, st, j);
        }
      } else if Repeats(st, |out|) {
        OutIsSource(st, |out|);
      }
    }
  }

  lemma OutIsSource(st: Start, k: nat)
    requires k <= |st.source| && Repeats(st, k)
    ensures Out(false, st, k) == st.source[..k]
  {
  }

  /** A body in one piece, from an empty buffer and the count 0, is passed on unchanged exactly if it repeats its first
      1024 bytes over and over; so a body that fits into one round always is. */
  lemma RepeatedBody(body: string, grants: seq<nat>)
    requires body != "" && Rounds(false, |body|, NewRelay(body, 0), grants).finished
    ensures var out := Rounds(false, |body|, NewRelay(body, 0), grants).out;
            && |out| == |body|
            && (out == body <==> RepeatsItself(body))
            && (|body| <= 1024 ==> out == body)
  {
    hide Rounds;
    var st := Start("", body, 0, |body|);
    KeptBufferRelaysExactly(st, grants);
    assert body[..|body|] == body && "" + body == body;
  }

  predicate RepeatsItself(body: string) {
    forall j :: 1024 <= j < |body| ==> body[j] == body[j % 1024]
  }

  // ---------- a count carried over from an earlier body ----------

  /** The schedule that grants each fill and each drain all it can take. */
  lemma {:induction false} FinishingSchedule(clears: bool, bodyLength: nat, s: Relay)
    returns (grants: seq<nat>, t: Relay)
    requires s.filling && !s.finished && s.getInd == 0
    requires s.readCount + |s.source| >= bodyLength
    ensures t == Rounds(clears, bodyLength, s, grants) && t.finished
    ensures |t.out| == |s.out| + (if s.readCount < bodyLength then bodyLength - s.readCount else 0)
    decreases if s.readCount < bodyLength then bodyLength - s.readCount else 0
  {
    hide Rounds, Bytes;
    var k := if s.readCount < bodyLength then Min(bodyLength - s.readCount, BUFFER_LENGTH) else 0;
    var filled := Step(clears, bodyLength, s, k);
    var drained := Step(clears, bodyLength, filled, k);
    if drained.finished {
      grants, t := [], drained;
      NoGrants(clears, bodyLength, drained);
    } else {
      grants, t := FinishingSchedule(clears, bodyLength, drained);
    }
    OneGrant(clears, bodyLength, filled, k, grants);
    OneGrant(clears, bodyLength, s, k, [k] + grants);
    grants := [k] + ([k] + grants);
  }

  lemma NoGrants(clears: bool, bodyLength: nat, s: Relay)
    ensures Rounds(clears, bodyLength, s, []) == s
  {
  }

  lemma OneGrant(clears: bool, bodyLength: nat, s: Relay, n: nat, grants: seq<nat>)
    ensures Rounds(clears, bodyLength, s, [n] + grants)
            == Rounds(clears, bodyLength, Step(clears, bodyLength, s, n), grants)
  {
    assert ([n] + grants)[1..] == grants;
  }

  /** The body has been passed on whole by every schedule that finishes. */
  ghost predicate AlwaysWhole(clears: bool, body: string, carried: nat) {
    forall grants :: Rounds(clears, |body|, NewRelay(body, carried), grants).finished ==>
                       Rounds(clears, |body|, NewRelay(body, carried), grants).out == body
  }

  /** Every schedule that finishes passes the whole body on if and only if the count starts from 0, and, as the buffer
      is not cleared, the body repeats its first 1024 bytes. */
  lemma WholeBodyExactly(clears: bool, body: string, carried: nat)
    requires body != ""
    ensures AlwaysWhole(clears, body, carried) <==> carried == 0 && (clears || RepeatsItself(body))
  {
    hide Rounds;
    var grants, t := FinishingSchedule(clears, |body|, NewRelay(body, carried));
    if carried == 0 && (clears || RepeatsItself(body)) {
      forall g | Rounds(clears, |body|, NewRelay(body, 0), g).finished
        ensures Rounds(clears, |body|, NewRelay(body, 0), g).out == body
      {
        if clears {
          ClearedBufferRelays(body, g);
        } else {
          RepeatedBody(body, g);
        }
      }
    } else if carried == 0 {
      RepeatedBody(body, grants);
      assert t.out != body;
    } else {
      assert |t.out| < |body|;
    }
  }

  /** With a count of r carried over, the body is cut short by as much: a schedule that finishes after all but r bytes,
      or after none, if r reaches the length already and even an empty fill is taken for complete. */
  lemma CutShort(clears: bool, body: string, carried: nat) returns (grants: seq<nat>)
    requires body != ""
    ensures var t := Rounds(clears, |body|, NewRelay(body, carried), grants);
            t.finished && |t.out| == (if carried < |body| then |body| - carried else 0)
  {
    hide Rounds;
    var t;
    grants, t := FinishingSchedule(clears, |body|, NewRelay(body, carried));
  }

  /** A fill with room in the buffer succeeds exactly if it fills the buffer, or reaches the length and the read behind
      the last byte does not fail: a body that is complete is still given up if that read returns -1. */
  lemma FillSucceedsExactly(readCount: nat, getInd: nat, bodyLength: nat, e: Events)
    requires getInd < BUFFER_LENGTH
    ensures GetBody(readCount, getInd, bodyLength, e).done
            <==> getInd + |e.input| >= 1024 || (e.inputEnd != -1 && readCount + |e.input| >= bodyLength)
  {
  }
}
