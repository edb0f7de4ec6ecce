/** The table loop with its server flag against an explicit grammar of configuration files. */
module ConfigGrammar {
  import opened Text
  import opened ServerSettings
  import opened MainServerSettings
  import opened ConfigLexer
  import opened ConfigParser

  /** What one turn of the loop takes in: a lexeme, or a whole block with whether it could be read. */
  datatype Token =
    | TProtocol | TOpen | TClose | TNewLine | TKey(known: bool) | TValue | TServer
    | TLocation(read: bool) | TUpstreams(read: bool) | TBad

  datatype Mode = Mode(state: State, inServer: bool)

  const START := Mode(SStart, false)

  /** One turn of the table loop, setters aside. */
  function Take(m: Mode, t: Token): Mode {
    if !Running(m.state) then m.(state := SErr)
    else
      match t
      case TProtocol => m.(state := Stages(m.state, LProtocol))
      case TOpen => m.(state := Stages(m.state, LBraceOpen))
      case TClose =>
        if Stages(m.state, LBraceClose) == SErr then m.(state := SErr)
        else if m.inServer then Mode(Stages(m.state, LServerEnd), false)
        else m.(state := Stages(m.state, LBraceClose))
      case TNewLine => m.(state := Stages(m.state, LNewLine))
      case TKey(known) => m.(state := if known then Stages(m.state, LKey) else SErr)
      case TValue => m.(state := Stages(m.state, LValue))
      case TServer =>
        if m.inServer || Stages(m.state, LServerStart) == SErr then m.(state := SErr)
        else Mode(Stages(m.state, LServerStart), true)
      case TLocation(read) =>
        if !m.inServer || Stages(m.state, LLocation) == SErr then m.(state := SErr)
        else m.(state := if read then Stages(SLocation, LEndLocation) else SErr)
      case TUpstreams(read) =>
        if Stages(m.state, LUpstream) == SErr then m.(state := SErr)
        else m.(state := if read then Stages(SUpstream, LEndUpstream) else SErr)
      case TBad => m.(state := SErr)
  }

  function TakeAll(m: Mode, ts: seq<Token>): Mode
    decreases |ts|
  {
    if ts == [] then m else TakeAll(Take(m, ts[0]), ts[1..])
  }

  predicate Accepts(ts: seq<Token>) {
    TakeAll(START, ts).state == SEnd
  }

  // ---------- the grammar ----------

  /** Inside a server block. The table also lets an upstreams block stand here, which no text can produce
      (`ConfigLexer.LexerKeepsBlocksApart`). */
  datatype Inner = InnerBlank | InnerPair | InnerLocation | InnerUpstreams

  /** Inside the main block; `gap` empty lines may precede the brace of a server block. */
  datatype Element = Blank | Pair | UpstreamsBlock | ServerBlock(gap: nat, inner: seq<Inner>)

  datatype Tree = Tree(before: nat, gap: nat, elements: seq<Element>)

  function Lines(n: nat): seq<Token> {
    if n == 0 then [] else [TNewLine] + Lines(n - 1)
  }

  function InnerTokens(i: Inner): seq<Token> {
    match i
    case InnerBlank => [TNewLine]
    case InnerPair => [TKey(true), TValue]
    case InnerLocation => [TLocation(true)]
    case InnerUpstreams => [TUpstreams(true)]
  }

  function AllInner(inners: seq<Inner>): seq<Token> {
    if inners == [] then [] else InnerTokens(inners[0]) + AllInner(inners[1..])
  }

  function ElementTokens(e: Element): seq<Token> {
    match e
    case Blank => [TNewLine]
    case Pair => [TKey(true), TValue]
    case UpstreamsBlock => [TUpstreams(true)]
    case ServerBlock(gap, inner) => [TServer] + (Lines(gap) + ([TOpen] + (AllInner(inner) + [TClose])))
  }

  function AllElements(es: seq<Element>): seq<Token> {
    if es == [] then [] else ElementTokens(es[0]) + AllElements(es[1..])
  }

  function Tokens(t: Tree): seq<Token> {
    Lines(t.before) + ([TProtocol] + (Lines(t.gap) + ([TOpen] + (AllElements(t.elements) + [TClose]))))
  }

  // ---------- what the grammar derives is accepted ----------

  lemma {:induction false} TakeAllConcat(m: Mode, a: seq<Token>, b: seq<Token>)
    ensures TakeAll(m, a + b) == TakeAll(TakeAll(m, a), b)
    decreases |a|
  {
    if a == [] {
      assert a + b == b;
    } else {
      assert (a + b)[1..] == a[1..] + b;
      TakeAllConcat(Take(m, a[0]), a[1..], b);
    }
  }

  lemma {:induction false} TakeLines(m: Mode, n: nat, rest: seq<Token>)
    requires m.state in {SStart, SBraceOpen, SKey, SServerStart}
    ensures TakeAll(m, Lines(n) + rest) == TakeAll(m, rest)
    decreases n
  {
    if n == 0 {
      assert Lines(n) + rest == rest;
    } else {
      assert (Lines(n) + rest)[1..] == Lines(n - 1) + rest;
      TakeLines(m, n - 1, rest);
    }
  }

  lemma TakeInnerOne(i: Inner)
    ensures TakeAll(Mode(SKey, true), InnerTokens(i)) == Mode(SKey, true)
  {
    TakePair(true);
  }

  lemma TakePair(inServer: bool)
    ensures TakeAll(Mode(SKey, inServer), [TKey(true), TValue]) == Mode(SKey, inServer)
  {
    assert [TKey(true), TValue][1..] == [TValue];
  }

  lemma {:induction false} TakeInner(inners: seq<Inner>, rest: seq<Token>)
    ensures TakeAll(Mode(SKey, true), AllInner(inners) + rest) == TakeAll(Mode(SKey, true), rest)
    decreases |inners|
  {
    if inners == [] {
      assert AllInner(inners) + rest == rest;
    } else {
      var head, tail := InnerTokens(inners[0]), AllInner(inners[1..]) + rest;
      assert AllInner(inners) + rest == head + tail;
      TakeInnerOne(inners[0]);
      TakeAllConcat(Mode(SKey, true), head, tail);
      TakeInner(inners[1..], rest);
    }
  }

  lemma TakeServer(gap: nat, inner: seq<Inner>)
    ensures TakeAll(Mode(SServerStart, true), Lines(gap) + ([TOpen] + (AllInner(inner) + [TClose]))) ==
            Mode(SKey, false)
  {
    var body := AllInner(inner) + [TClose];
    TakeLines(Mode(SServerStart, true), gap, [TOpen] + body);
    assert ([TOpen] + body)[1..] == body;
    TakeInner(inner, [TClose]);
    assert TakeAll(Mode(SKey, true), [TClose]) == Mode(SKey, false);
  }

  lemma TakeElement(e: Element)
    ensures TakeAll(Mode(SKey, false), ElementTokens(e)) == Mode(SKey, false)
  {
    hide Lines, AllInner;
    if e.ServerBlock? {
      TakeServer(e.gap, e.inner);
      assert ElementTokens(e)[1..] == Lines(e.gap) + ([TOpen] + (AllInner(e.inner) + [TClose]));
    } else {
      TakePair(false);
    }
  }

  lemma {:induction false} TakeElements(es: seq<Element>, rest: seq<Token>)
    ensures TakeAll(Mode(SKey, false), AllElements(es) + rest) == TakeAll(Mode(SKey, false), rest)
    decreases |es|
  {
    if es == [] {
      assert AllElements(es) + rest == rest;
    } else {
      var head, tail := ElementTokens(es[0]), AllElements(es[1..]) + rest;
      assert AllElements(es) + rest == head + tail;
      TakeElement(es[0]);
      TakeAllConcat(Mode(SKey, false), head, tail);
      TakeElements(es[1..], rest);
    }
  }

  lemma TreeAccepted(t: Tree)
    ensures Accepts(Tokens(t))
  {
    var block := AllElements(t.elements) + [TClose];
    var braced := [TOpen] + block;
    var named := [TProtocol] + (Lines(t.gap) + braced);
    TakeLines(START, t.before, named);
    assert named[1..] == Lines(t.gap) + braced;
    TakeLines(Mode(SBraceOpen, false), t.gap, braced);
    assert braced[1..] == block;
    TakeElements(t.elements, [TClose]);
  }

  // ---------- what is accepted the grammar derives ----------

  /** Once the loop has been left no token leads back. */
  lemma {:induction false} NoReturn(m: Mode, ts: seq<Token>)
    requires !Running(m.state)
    ensures TakeAll(m, ts).state == if ts == [] then m.state else SErr
    decreases |ts|
  {
    if ts != [] {
      NoReturn(Take(m, ts[0]), ts[1..]);
    }
  }

  /** Empty lines up to the one token that lets the loop go on. */
  lemma {:induction false} ReadLines(m: Mode, ts: seq<Token>) returns (n: nat, rest: seq<Token>)
    requires m.state in {SStart, SBraceOpen, SServerStart} && TakeAll(m, ts).state == SEnd
    ensures var t := if m.state == SStart then TProtocol else TOpen;
            ts == Lines(n) + ([t] + rest) && TakeAll(Take(m, t), rest).state == SEnd
    decreases |ts|
  {
    if ts[0] == TNewLine {
      n, rest := ReadLines(m, ts[1..]);
      n := n + 1;
    } else {
      NoReturn(m.(state := SErr), ts[1..]);
      n, rest := 0, ts[1..];
    }
  }

  /** The next inner element, unless the server block is closed. */
  lemma ReadInnerOne(ts: seq<Token>) returns (i: Inner, rest: seq<Token>)
    requires TakeAll(Mode(SKey, true), ts).state == SEnd && ts[0] != TClose
    ensures ts == InnerTokens(i) + rest && |rest| < |ts| && TakeAll(Mode(SKey, true), rest).state == SEnd
  {
    var t := ts[0];
    NoReturn(Mode(SErr, true), ts[1..]);
    if t == TKey(true) {
      NoReturn(Mode(SErr, true), ts[2..]);
      assert ts[1..][1..] == ts[2..];
      i, rest := InnerPair, ts[2..];
    } else {
      i := if t == TNewLine then InnerBlank else if t == TLocation(true) then InnerLocation else InnerUpstreams;
      rest := ts[1..];
    }
  }

  lemma {:induction false} ReadInner(ts: seq<Token>) returns (inners: seq<Inner>, rest: seq<Token>)
    requires TakeAll(Mode(SKey, true), ts).state == SEnd
    ensures ts == AllInner(inners) + ([TClose] + rest) && TakeAll(Mode(SKey, false), rest).state == SEnd
    decreases |ts|
  {
    if ts[0] == TClose {
      inners, rest := [], ts[1..];
    } else {
      var i, after := ReadInnerOne(ts);
      inners, rest := ReadInner(after);
      assert InnerTokens(i) + (AllInner(inners) + ([TClose] + rest)) == AllInner([i] + inners) + ([TClose] + rest);
      inners := [i] + inners;
    }
  }

  lemma ReadServer(ts: seq<Token>) returns (e: Element, rest: seq<Token>)
    requires TakeAll(Mode(SServerStart, true), ts).state == SEnd
    ensures [TServer] + ts == ElementTokens(e) + rest && TakeAll(Mode(SKey, false), rest).state == SEnd
  {
    hide TakeAll, Lines, AllInner;
    var gap, behind := ReadLines(Mode(SServerStart, true), ts);
    var inner;
    inner, rest := ReadInner(behind);
    e := ServerBlock(gap, inner);
    assert ts == Lines(gap) + ([TOpen] + (AllInner(inner) + [TClose])) + rest;
  }

  /** The next element, unless the main block is closed. */
  lemma ReadElement(ts: seq<Token>) returns (e: Element, rest: seq<Token>)
    requires TakeAll(Mode(SKey, false), ts).state == SEnd && ts[0] != TClose
    ensures ts == ElementTokens(e) + rest && TakeAll(Mode(SKey, false), rest).state == SEnd
  {
    var t := ts[0];
    NoReturn(Mode(SErr, false), ts[1..]);
    if t == TServer {
      e, rest := ReadServer(ts[1..]);
    } else if t == TKey(true) {
      NoReturn(Mode(SErr, false), ts[2..]);
      assert ts[1..][1..] == ts[2..];
      e, rest := Pair, ts[2..];
    } else {
      e, rest := if t == TNewLine then Blank else UpstreamsBlock, ts[1..];
    }
  }

  lemma {:induction false} ReadElements(ts: seq<Token>) returns (es: seq<Element>)
    requires TakeAll(Mode(SKey, false), ts).state == SEnd
    ensures ts == AllElements(es) + [TClose]
    decreases |ts|
  {
    if ts[0] == TClose {
      NoReturn(Mode(SEnd, false), ts[1..]);
      es := [];
    } else {
      var e, rest := ReadElement(ts);
      es := ReadElements(rest);
      assert ElementTokens(e) + (AllElements(es) + [TClose]) == AllElements([e] + es) + [TClose];
      es := [e] + es;
    }
  }

  /** The loop accepts exactly the token sequences of the grammar. */
  lemma AcceptsExactlyTheGrammar(ts: seq<Token>)
    ensures Accepts(ts) <==> exists t :: Tokens(t) == ts
  {
    if Accepts(ts) {
      var before, named := ReadLines(START, ts);
      var gap, braced := ReadLines(Mode(SBraceOpen, false), named);
      var es := ReadElements(braced);
      assert Tokens(Tree(before, gap, es)) == ts;
    }
    if t :| Tokens(t) == ts {
      TreeAccepted(t);
    }
  }

  // ---------- brace depth ----------

  function Depth(ts: seq<Token>): int {
    if ts == [] then 0
    else Depth(ts[..|ts| - 1]) + (match ts[|ts| - 1] case TOpen => 1 case TClose => -1 case _ => 0)
  }

  /** The depth that state and flag stand for. */
  function OpenBraces(m: Mode): int {
    match m.state
    case SKey => if m.inServer then 2 else 1
    case SValue => if m.inServer then 2 else 1
    case SServerStart => 1
    case _ => 0
  }

  /** After any tokens that are not an error, state and flag determine the brace depth; it is 0 at the end. */
  lemma {:induction false} DepthIsDetermined(ts: seq<Token>)
    ensures var m := TakeAll(START, ts);
            m.state != SErr ==>
              && Depth(ts) == OpenBraces(m)
              && m.state !in {SUpstream, SLocation, SBraceClose}
              && m.inServer == (m.state == SServerStart || Depth(ts) == 2)
  {
    if ts != [] {
      var prefix := ts[..|ts| - 1];
      var last := [ts[|ts| - 1]];
      assert ts == prefix + last;
      TakeAllConcat(START, prefix, last);
      DepthIsDetermined(prefix);
    }
  }

  // ---------- the tokens of a text ----------

  /** The token that the turn on a lexeme takes in. */
  function TokenOn(text: string, c: Config, x: Lexed): Token
    requires c.pos <= |text| && Terminated(text)
    requires x.lexeme != LErr ==> c.pos < x.pos <= |text|
  {
    match x.lexeme
    case LProtocol => TProtocol
    case LBraceOpen => TOpen
    case LBraceClose => TClose
    case LNewLine => TNewLine
    case LKey => TKey(IndexIn(Names(c.inServer), PropertyName(text[c.pos..x.pos])) != -1)
    case LValue => TValue
    case LServerStart => TServer
    case LLocation => TLocation(ReadLocation(c.m.server, text, x.pos).lexeme == Some(LEndLocation))
    case LUpstream => TUpstreams(ReadUpstreams(c.m.server, text, x.pos).lexeme == Some(LEndUpstream))
    case _ => TBad
  }

  function TokenAt(text: string, c: Config): Token
    requires Running(c.state) && c.pos <= |text| && Terminated(text)
  {
    ListsAreKeywords();
    LexemAdvances(text, c.pos, Names(c.inServer));
    TokenOn(text, c, GetLexem(text, c.pos, Names(c.inServer)))
  }

  function ModeOf(c: Config): Mode {
    Mode(c.state, c.inServer)
  }

  /** A turn that is not left by an exception agrees with taking the token; what becomes of the flag on an
      error does not matter. */
  predicate Agrees(c: Config, turn: Turn, t: Token) {
    turn.Next? ==>
      var after, taken := ModeOf(turn.config), Take(ModeOf(c), t);
      after.state == taken.state && (after.state != SErr ==> after == taken)
  }

  lemma PlainTurnAgrees(text: string, c: Config, x: Lexed)
    requires Running(c.state) && c.pos <= |text| && Terminated(text)
    requires x.lexeme != LErr ==> c.pos < x.pos <= |text|
    requires x.lexeme !in {LEndLocation, LServerEnd, LEndUpstream, LLocation, LUpstream}
    ensures Agrees(c, TurnOn(text, c, x), TokenOn(text, c, x))
  {
  }

  lemma LocationTurnAgrees(text: string, c: Config, x: Lexed)
    requires Running(c.state) && c.pos <= |text| && Terminated(text)
    requires x.lexeme == LLocation && c.pos < x.pos <= |text|
    ensures Agrees(c, TurnOn(text, c, x), TokenOn(text, c, x))
  {
    hide ReadLocation, ReadUpstreams;
  }

  lemma UpstreamTurnAgrees(text: string, c: Config, x: Lexed)
    requires Running(c.state) && c.pos <= |text| && Terminated(text)
    requires x.lexeme == LUpstream && c.pos < x.pos <= |text|
    ensures Agrees(c, TurnOn(text, c, x), TokenOn(text, c, x))
  {
    hide ReadLocation, ReadUpstreams;
  }

  /** A turn of the parser is a turn of the table loop on its token. */
  lemma TurnTakesToken(text: string, c: Config)
    requires Running(c.state) && c.pos <= |text| && Terminated(text)
    ensures Agrees(c, TurnAt(text, c), TokenAt(text, c))
  {
    ListsAreKeywords();
    LexemAdvances(text, c.pos, Names(c.inServer));
    var x := GetLexem(text, c.pos, Names(c.inServer));
    if x.lexeme == LLocation {
      LocationTurnAgrees(text, c, x);
    } else if x.lexeme == LUpstream {
      UpstreamTurnAgrees(text, c, x);
    } else {
      PlainTurnAgrees(text, c, x);
    }
  }

  function TokensFrom(text: string, c: Config): seq<Token>
    requires Terminated(text) && (c.state != SErr ==> c.pos <= |text|)
    decreases if Running(c.state) then |text| + 1 - c.pos else 0
  {
    if !Running(c.state) then []
    else
      match TurnAt(text, c)
      case Leave(_, _) => [TokenAt(text, c)]
      case Next(c') => [TokenAt(text, c)] + TokensFrom(text, c')
  }

  lemma {:induction false} RunTakesTokens(text: string, c: Config)
    requires Terminated(text) && (c.state != SErr ==> c.pos <= |text|)
    ensures var r, m := Run(text, c), TakeAll(ModeOf(c), TokensFrom(text, c));
            && (r.outcome == Finished ==> m.state == SEnd)
            && (r.outcome == Invalid ==> m.state == SErr)
    decreases if Running(c.state) then |text| + 1 - c.pos else 0
  {
    hide TokenAt, Take, Stages, GetLexem;
    if Running(c.state) {
      TurnTakesToken(text, c);
      var turn := TurnAt(text, c);
      if turn.Next? {
        RunTakesTokens(text, turn.config);
        assert TokensFrom(text, c)[1..] == TokensFrom(text, turn.config);
        if turn.config.state == SErr {
          assert TokensFrom(text, turn.config) == [];
        }
      }
    }
  }

  /** A parse that no exception cuts short ends at the closing brace exactly when the tokens of the text
      are derived by the grammar, and is an error otherwise. */
  lemma ParsedExactlyTheGrammar(m: Main, text: string)
    requires Terminated(text)
    requires ParseText(m, text).outcome in {Finished, Invalid}
    ensures ParseText(m, text).outcome == Finished <==> exists t :: Tokens(t) == TokensFrom(text, Start(m))
  {
    RunTakesTokens(text, Start(m));
    AcceptsExactlyTheGrammar(TokensFrom(text, Start(m)));
  }
}
