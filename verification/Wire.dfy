/** How a stream of bytes is cut into lines for the parsers, whatever pieces it arrives in. */
module Wire {
  import opened Text
  import opened HttpBase

  /** The reading loops of `get_request` and `get_proxy_header` between two reads: the line read so far and
      the message. `rest` are the bytes left in the socket when a parser throws. */
  datatype Fed<+Q> = Fed(line: string, q: Q, fault: Fault, rest: string)

  /** The loop over the bytes that are available. A line feed alone does not end a line, and a line is kept
      when its parser throws. */
  function Feed<Q>(add: (Q, string) -> Parsed<Q>, line: string, q: Q, bytes: string): Fed<Q>
    decreases |bytes|
  {
    if bytes == "" then Fed(line, q, NoFault, "")
    else
      var longer := line + [bytes[0]];
      if bytes[0] == '\n' && |longer| != 1 then
        var r := add(q, longer);
        if r.fault == NoFault then Feed(add, "", r.q, bytes[1..])
        else Fed(longer, r.q, r.fault, bytes[1..])
      else Feed(add, longer, q, bytes[1..])
  }

  /** A line feed on its own does not end a line: what follows is read as a part of it. */
  lemma LoneLineFeed<Q>(add: (Q, string) -> Parsed<Q>, q: Q, bytes: string)
    ensures Feed(add, "", q, "\n" + bytes) == Feed(add, "\n", q, bytes)
  {
    assert ("\n" + bytes)[1..] == bytes && "" + "\n" == "\n";
  }

  /** Reading `a` and then `b` is reading `a + b`: only the concatenated bytes matter. */
  lemma {:induction false} FeedJoins<Q>(add: (Q, string) -> Parsed<Q>, line: string, q: Q, a: string, b: string)
    ensures var f := Feed(add, line, q, a);
            Feed(add, line, q, a + b)
            == if f.fault == NoFault then Feed(add, f.line, f.q, b) else f.(rest := f.rest + b)
    decreases |a|
  {
    if a == "" {
      assert a + b == b;
    } else {
      assert (a + b)[0] == a[0] && (a + b)[1..] == a[1..] + b;
      var longer := line + [a[0]];
      if a[0] == '\n' && |longer| != 1 {
        var r := add(q, longer);
        if r.fault == NoFault {
          FeedJoins(add, "", r.q, a[1..], b);
        }
      } else {
        FeedJoins(add, longer, q, a[1..], b);
      }
    }
  }

  /** The state after reading the pieces one after the other. */
  function FeedAll<Q>(add: (Q, string) -> Parsed<Q>, line: string, q: Q, pieces: seq<string>): Fed<Q>
    decreases |pieces|
  {
    if pieces == [] then Fed(line, q, NoFault, "")
    else
      var f := Feed(add, line, q, pieces[0]);
      if f.fault == NoFault then FeedAll(add, f.line, f.q, pieces[1..])
      else f.(rest := f.rest + Concat(pieces[1..]))
  }

  function Concat(pieces: seq<string>): string {
    if pieces == [] then "" else pieces[0] + Concat(pieces[1..])
  }

  /** The line, the message and the exception depend on the bytes alone, not on how reads split them. */
  lemma {:induction false} SplitDoesNotMatter<Q>(add: (Q, string) -> Parsed<Q>, line: string, q: Q, pieces: seq<string>)
    ensures FeedAll(add, line, q, pieces) == Feed(add, line, q, Concat(pieces))
    decreases |pieces|
  {
    if pieces != [] {
      FeedJoins(add, line, q, pieces[0], Concat(pieces[1..]));
      var f := Feed(add, line, q, pieces[0]);
      if f.fault == NoFault {
        SplitDoesNotMatter(add, f.line, f.q, pieces[1..]);
      }
    }
  }

  predicate NoLineFeed(s: string) {
    forall i :: 0 <= i < |s| ==> s[i] != '\n'
  }

  /** A line reaches the parser whole. */
  lemma {:induction false} FeedLine<Q>(add: (Q, string) -> Parsed<Q>, start: string, q: Q, line: string, rest: string)
    requires NoLineFeed(line) && start + line != ""
    ensures var r := add(q, start + line + "\n");
            Feed(add, start, q, line + "\n" + rest)
            == if r.fault == NoFault then Feed(add, "", r.q, rest) else Fed(start + line + "\n", r.q, r.fault, rest)
    decreases |line|
  {
    var bytes := line + "\n" + rest;
    if line == "" {
      assert bytes[0] == '\n' && bytes[1..] == rest;
      assert start + line + "\n" == start + [bytes[0]];
    } else {
      assert bytes[0] == line[0] && bytes[1..] == line[1..] + "\n" + rest;
      assert start + [line[0]] + line[1..] == start + line;
      assert (start + [line[0]]) + line[1..] + "\n" == start + line + "\n";
      FeedLine(add, start + [line[0]], q, line[1..], rest);
    }
  }

  // ---------- when a message is complete ----------

  /** No line takes a message back that is complete. */
  ghost predicate Lasts<Q(!new)>(add: (Q, string) -> Parsed<Q>, complete: Q -> bool) {
    forall q, line :: complete(q) ==> complete(add(q, line).q)
  }

  lemma {:induction false} CompleteLasts<Q(!new)>(add: (Q, string) -> Parsed<Q>, complete: Q -> bool, line: string,
                                                 q: Q, bytes: string)
    requires Lasts(add, complete) && complete(q)
    ensures complete(Feed(add, line, q, bytes).q)
    decreases |bytes|
  {
    if bytes != "" {
      var longer := line + [bytes[0]];
      if bytes[0] == '\n' && |longer| != 1 {
        CompleteLasts(add, complete, "", add(q, longer).q, bytes[1..]);
      } else {
        CompleteLasts(add, complete, longer, q, bytes[1..]);
      }
    }
  }

  lemma {:induction false} FeedNoLine<Q>(add: (Q, string) -> Parsed<Q>, line: string, q: Q, bytes: string)
    requires NoLineFeed(bytes)
    ensures Feed(add, line, q, bytes) == Fed(line + bytes, q, NoFault, "")
    decreases |bytes|
  {
    if bytes == "" {
      assert line + bytes == line;
    } else {
      FeedNoLine(add, line + [bytes[0]], q, bytes[1..]);
      assert (line + [bytes[0]]) + bytes[1..] == line + bytes;
    }
  }

  /** The reading of `bytes` throws nothing, and the message is complete with the last byte and not before. */
  ghost predicate Completes<Q>(add: (Q, string) -> Parsed<Q>, complete: Q -> bool, line: string, q: Q, bytes: string,
                               end: Q)
  {
    && Feed(add, line, q, bytes) == Fed("", end, NoFault, "") && complete(end)
    && forall k :: 0 <= k < |bytes| ==> Unfinished(Feed(add, line, q, bytes[..k]), complete)
  }

  predicate Unfinished<Q>(f: Fed<Q>, complete: Q -> bool) {
    f.fault == NoFault && !complete(f.q)
  }

  /** A message whose last line makes it complete, and none before. */
  lemma LastLineCompletes<Q(!new)>(add: (Q, string) -> Parsed<Q>, complete: Q -> bool, line: string, q: Q,
                                  front: string, tail: string, before: Q, end: Q)
    requires Lasts(add, complete) && NoLineFeed(tail)
    requires Feed(add, line, q, front) == Fed("", before, NoFault, "") && !complete(before)
    requires Feed(add, "", before, tail + "\n") == Fed("", end, NoFault, "") && complete(end)
    ensures Completes(add, complete, line, q, front + (tail + "\n"), end)
  {
    var bytes := front + (tail + "\n");
    FeedJoins(add, line, q, front, tail + "\n");
    forall k | 0 <= k < |bytes| ensures Unfinished(Feed(add, line, q, bytes[..k]), complete) {
      if k <= |front| {
        var f := Feed(add, line, q, bytes[..k]);
        assert bytes[..k] + front[k..] == front;
        FeedJoins(add, line, q, bytes[..k], front[k..]);
        if f.fault == NoFault && complete(f.q) {
          CompleteLasts(add, complete, f.line, f.q, front[k..]);
        }
      } else {
        var part := tail[..k - |front|];
        assert bytes[..k] == front + part;
        FeedJoins(add, line, q, front, part);
        FeedNoLine(add, "", before, part);
      }
    }
  }

  /** What is left to read once a part has been read. */
  lemma CompletesOn<Q>(add: (Q, string) -> Parsed<Q>, complete: Q -> bool, line: string, q: Q, bytes: string, end: Q,
                       k: nat)
    requires Completes(add, complete, line, q, bytes, end) && k < |bytes|
    ensures var f := Feed(add, line, q, bytes[..k]);
            Unfinished(f, complete) && Completes(add, complete, f.line, f.q, bytes[k..], end)
  {
    var f := Feed(add, line, q, bytes[..k]);
    assert bytes[..k] + bytes[k..] == bytes;
    FeedJoins(add, line, q, bytes[..k], bytes[k..]);
    forall j | 0 <= j < |bytes[k..]| ensures Unfinished(Feed(add, f.line, f.q, bytes[k..][..j]), complete) {
      assert bytes[..k] + bytes[k..][..j] == bytes[..k + j];
      FeedJoins(add, line, q, bytes[..k], bytes[k..][..j]);
    }
  }

  // ---------- which bytes make a parser throw ----------

  /** The lines that the loop hands to the parser, `line` being what it has of the first one. */
  function CutLines(line: string, bytes: string): seq<string>
    decreases |bytes|
  {
    if bytes == "" then []
    else
      var longer := line + [bytes[0]];
      if bytes[0] == '\n' && |longer| != 1 then [longer] + CutLines("", bytes[1..]) else CutLines(longer, bytes[1..])
  }

  predicate IsLine(l: string) {
    |l| >= 2 && l[|l| - 1] == '\n'
  }

  /** Of an open message, a line is thrown at or closes it as these predicates say; a closed one throws at nothing. */
  ghost predicate Judged<Q(!new)>(add: (Q, string) -> Parsed<Q>, begun: Q -> bool, open: Q -> bool,
                                  throws: string -> bool, closes: string -> bool)
  {
    forall q, l :: begun(q) && IsLine(l) ==>
      var r := add(q, l);
      && begun(r.q)
      && (if open(q) then (r.fault != NoFault <==> throws(l)) && (open(r.q) <==> !closes(l))
          else r.fault == NoFault && !open(r.q))
  }

  /** Some line is thrown at, and none before it closes the message. */
  predicate ThrownAt(lines: seq<string>, throws: string -> bool, closes: string -> bool) {
    exists i :: 0 <= i < |lines| && throws(lines[i]) && forall j :: 0 <= j < i ==> !closes(lines[j])
  }

  lemma ThrownAtFirst(lines: seq<string>, throws: string -> bool, closes: string -> bool)
    requires lines != []
    ensures ThrownAt(lines, throws, closes)
            <==> throws(lines[0]) || (!closes(lines[0]) && ThrownAt(lines[1..], throws, closes))
  {
    if ThrownAt(lines, throws, closes) && !throws(lines[0]) {
      var i :| 0 <= i < |lines| && throws(lines[i]) && forall j :: 0 <= j < i ==> !closes(lines[j]);
      assert throws(lines[1..][i - 1]) && forall j :: 0 <= j < i - 1 ==> !closes(lines[1..][j]);
    }
    if !closes(lines[0]) && ThrownAt(lines[1..], throws, closes) {
      var i :| 0 <= i < |lines[1..]| && throws(lines[1..][i]) && forall j :: 0 <= j < i ==> !closes(lines[1..][j]);
      assert throws(lines[i + 1]);
      forall j | 0 <= j < i + 1 ensures !closes(lines[j]) {
        if j > 0 {
          assert lines[j] == lines[1..][j - 1];
        }
      }
    }
  }

  /** Reading throws exactly if a line is thrown at before one closes the message. */
  lemma {:induction false} FeedThrowsExactly<Q(!new)>(add: (Q, string) -> Parsed<Q>, begun: Q -> bool,
                                                     open: Q -> bool, throws: string -> bool,
                                                     closes: string -> bool, line: string, q: Q, bytes: string)
    requires Judged(add, begun, open, throws, closes) && begun(q)
    ensures Feed(add, line, q, bytes).fault != NoFault
            <==> open(q) && ThrownAt(CutLines(line, bytes), throws, closes)
    decreases |bytes|
  {
    hide Judged, ThrownAt;
    if bytes == "" {
      assert !ThrownAt([], throws, closes) by { NoneThrown(throws, closes); }
    } else {
      var longer := line + [bytes[0]];
      if bytes[0] == '\n' && |longer| != 1 {
        ThrownAtFirst(CutLines(line, bytes), throws, closes);
        JudgedLine(add, begun, open, throws, closes, q, longer);
        FeedThrowsExactly(add, begun, open, throws, closes, "", add(q, longer).q, bytes[1..]);
      } else {
        FeedThrowsExactly(add, begun, open, throws, closes, longer, q, bytes[1..]);
      }
    }
  }

  lemma NoneThrown(throws: string -> bool, closes: string -> bool)
    ensures !ThrownAt([], throws, closes)
  {
  }

  lemma JudgedLine<Q(!new)>(add: (Q, string) -> Parsed<Q>, begun: Q -> bool, open: Q -> bool, throws: string -> bool,
                            closes: string -> bool, q: Q, l: string)
    requires Judged(add, begun, open, throws, closes) && begun(q) && IsLine(l)
    ensures var r := add(q, l);
            && begun(r.q)
            && (if open(q) then (r.fault != NoFault <==> throws(l)) && (open(r.q) <==> !closes(l))
                else r.fault == NoFault && !open(r.q))
  {
  }

  // ---------- what send_header emits ----------

  /** A whole header as `send_header` emits it: without its last byte, and CRLF. */
  function Image(str: string): string
    requires str != ""
  {
    str[..|str| - 1] + "\r\n"
  }
}
