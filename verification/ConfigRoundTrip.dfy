/** Running `parse_config` on a printed configuration gives the settings, and the outcome, it means. */
module ConfigRoundTrip {
  import opened Text
  import opened ServerSettings
  import opened MainServerSettings
  import opened ConfigLexer
  import opened ConfigParser
  import opened ConfigPrinter
  import opened ConfigLexing
  import opened ConfigBlocks
  import opened ConfigUpstreams
  import opened ConfigRuns

  // ---------- setters ----------

  lemma MainSetter(m: Main, key: MainKey, lexeme: string, value: string)
    requires Trim(lexeme) == value && Trim(value) == value
    ensures WithMainProperty(m, MainNumber(key), lexeme) == ApplyMain(m, key, value)
  {
    hide Trim, Stoi;
  }

  lemma ServerSetter(sv: Server, key: ServerKey, lexeme: string, value: string)
    requires Trim(lexeme) == value
    ensures WithProperty(sv, ServerNumber(key), lexeme) == ApplyServer(sv, key, value)
  {
    hide Trim, Stoi;
  }

  /** A clean value has nothing more to trim, which matters where the main block hands it on. */
  lemma CleanIsTrimmed(value: string)
    requires CleanValue(value)
    ensures Trim(value) == value
  {
    SpanIs(value, 0, IsSpace, 0);
  }

  // ---------- pairs ----------

  /** Between the items of the main block, or of the server block. */
  function AtItem(m: Main, pos: nat, inServer: bool, number: int): Config {
    Config(m, pos, SKey, inServer, number)
  }

  lemma MainPairRead(text: string, pos: nat, pad: string, key: MainKey, value: string) returns (p1: nat, p2: nat)
    requires Pad(pad) && CleanValue(value)
    requires Here(text, pos, PairLine(pad, MainKeyName(key), value))
    ensures pos < p1 < p2 < |text| && p2 + 1 == pos + |PairLine(pad, MainKeyName(key), value)|
    ensures GetLexem(text, pos, MAIN_PROPERTIES) == Lexed(LKey, p1)
    ensures GetLexem(text, p1, MAIN_PROPERTIES) == Lexed(LValue, p2)
    ensures GetLexem(text, p2, MAIN_PROPERTIES) == Lexed(LNewLine, p2 + 1)
    ensures IndexIn(MAIN_PROPERTIES, PropertyName(text[pos..p1])) == MainNumber(key)
    ensures Trim(text[p1..p2]) == value
  {
    hide GetLexem, Here, PairLine, CleanValue, IndexIn, PropertyName, Trim, KeywordLexeme;
    MainNamesArePlain(key);
    p1, p2 := LexPair(text, pos, pad, MAIN_PROPERTIES, MainNumber(key), value);
  }

  lemma ServerPairRead(text: string, pos: nat, pad: string, key: ServerKey, value: string) returns (p1: nat, p2: nat)
    requires Pad(pad) && CleanValue(value)
    requires Here(text, pos, PairLine(pad, ServerKeyName(key), value))
    ensures pos < p1 < p2 < |text| && p2 + 1 == pos + |PairLine(pad, ServerKeyName(key), value)|
    ensures GetLexem(text, pos, SERVER_PROPERTIES) == Lexed(LKey, p1)
    ensures GetLexem(text, p1, SERVER_PROPERTIES) == Lexed(LValue, p2)
    ensures GetLexem(text, p2, SERVER_PROPERTIES) == Lexed(LNewLine, p2 + 1)
    ensures IndexIn(SERVER_PROPERTIES, PropertyName(text[pos..p1])) == ServerNumber(key)
    ensures Trim(text[p1..p2]) == value
  {
    hide GetLexem, Here, PairLine, CleanValue, IndexIn, PropertyName, Trim, KeywordLexeme;
    ServerNamesArePlain(key);
    p1, p2 := LexPair(text, pos, pad, SERVER_PROPERTIES, ServerNumber(key), value);
  }

  lemma RunMainPair(text: string, m: Main, pos: nat, number: int, pad: string, key: MainKey, value: string)
    returns (next: nat)
    requires Terminated(text) && Pad(pad) && CleanValue(value)
    requires Here(text, pos, PairLine(pad, MainKeyName(key), value))
    ensures next == pos + |PairLine(pad, MainKeyName(key), value)| <= |text|
    ensures var m' := ApplyMain(m, key, value);
            Run(text, AtItem(m, pos, false, number)) ==
            if m' == None then Parsed(m, Stopped) else Run(text, AtItem(m'.value, next, false, MainNumber(key)))
  {
    hide GetLexem, Here, PairLine, CleanValue, Run, ApplyMain, WithMainProperty, IndexIn, PropertyName, Trim,
      MainNumber;
    var p1, p2 := MainPairRead(text, pos, pad, key, value);
    next := p2 + 1;
    var c := AtItem(m, pos, false, number);
    RunKey(text, c, p1, MainNumber(key));
    var c1 := c.(pos := p1, state := SValue, number := MainNumber(key));
    RunMainValue(text, c1, p2);
    CleanIsTrimmed(value);
    MainSetter(m, key, text[p1..p2], value);
    if ApplyMain(m, key, value).Some? {
      RunNewLine(text, c1.(m := ApplyMain(m, key, value).value, pos := p2, state := SKey), next);
    }
  }

  lemma RunServerPair(text: string, m: Main, pos: nat, number: int, pad: string, key: ServerKey, value: string)
    returns (next: nat)
    requires Terminated(text) && Pad(pad) && CleanValue(value)
    requires Here(text, pos, PairLine(pad, ServerKeyName(key), value))
    ensures next == pos + |PairLine(pad, ServerKeyName(key), value)| <= |text|
    ensures var sv := ApplyServer(m.server, key, value);
            Run(text, AtItem(m, pos, true, number)) ==
            if sv == None then Parsed(m, Stopped)
            else Run(text, AtItem(m.(server := sv.value), next, true, ServerNumber(key)))
  {
    hide GetLexem, Here, PairLine, CleanValue, Run, ApplyServer, WithProperty, IndexIn, PropertyName, Trim,
      ServerNumber;
    var p1, p2 := ServerPairRead(text, pos, pad, key, value);
    next := p2 + 1;
    var c := AtItem(m, pos, true, number);
    RunKey(text, c, p1, ServerNumber(key));
    var c1 := c.(pos := p1, state := SValue, number := ServerNumber(key));
    RunServerValue(text, c1, p2);
    ServerSetter(m.server, key, text[p1..p2], value);
    var sv := ApplyServer(m.server, key, value);
    if sv.Some? {
      RunNewLine(text, c1.(m := m.(server := sv.value), pos := p2, state := SKey), next);
    }
  }

  // ---------- location blocks ----------

  lemma LocationKeyword(text: string, pos: nat, pad: string, head: string) returns (p: nat)
    requires Pad(pad) && Here(text, pos, pad + ("location" + (" " + head)))
    requires At(text, Span(text, pos + |pad| + 9, BeforeSemicolon)) != ';'
    ensures p == pos + |pad| + 9 <= |text| && Here(text, p, head)
    ensures GetLexem(text, pos, SERVER_PROPERTIES) == Lexed(LLocation, p)
  {
    hide GetLexem, Here;
    HereSplit(text, pos, pad, "location" + (" " + head));
    HereSplit(text, pos + |pad|, "location", " " + head);
    HereSplit(text, pos + |pad| + 8, " ", head);
    BlockNamesArePlain();
    PassOver(text, pos + |pad| + 8, " ");
    LexName(text, pos, pad, SERVER_PROPERTIES, 4);
    p := pos + |pad| + 9;
    HereFirst(text, pos + |pad| + 8, " ");
  }

  lemma HeadHasNoSemicolon(kind: Kind, caseSensitive: bool, url: string)
    requires CleanUrl(url)
    ensures var head := LocationHead(kind, caseSensitive, url);
            head != "" && head[|head| - 1] == '\n' && forall i :: 0 <= i < |head| ==> head[i] != ';'
  {
    var front := Star(caseSensitive) + (Sign(kind) + " ");
    assert forall i :: 0 <= i < |front| ==> front[i] != ';';
    assert LocationHead(kind, caseSensitive, url) == front + url + " {" + "\n";
  }

  /** A fragment up to a line feed that holds no semicolon is no value. */
  lemma NoValueHere(text: string, p: nat, frag: string)
    requires Here(text, p, frag) && frag != "" && frag[|frag| - 1] == '\n'
    requires forall i :: 0 <= i < |frag| ==> frag[i] != ';'
    ensures At(text, Span(text, p, BeforeSemicolon)) != ';'
  {
    var e := Span(text, p, BeforeSemicolon);
    SpanEnds(text, p, BeforeSemicolon);
    assert text[p + (|frag| - 1)] == frag[|frag| - 1];
    if e < p + |frag| {
      assert text[p + (e - p)] == frag[e - p];
    }
  }

  lemma RunLocationItem(text: string, m: Main, pos: nat, number: int, pad: string, item: ServerItem)
    returns (next: nat)
    requires Terminated(text) && Pad(pad) && item.LocationItem? && CleanServerItem(item)
    requires Here(text, pos, PrintServerItem(pad, item))
    ensures next == pos + |PrintServerItem(pad, item)| <= |text|
    ensures var sv := EvalLocation(m.server, item.kind, item.caseSensitive, item.url, item.pairs);
            Run(text, AtItem(m, pos, true, number)) ==
            if sv == None then Parsed(m, Invalid) else Run(text, AtItem(m.(server := sv.value), next, true, number))
  {
    hide GetLexem, Here, Run, EvalLocation, ReadLocation, CleanUrl, CleanPairs, CloseLine, PrintPairs, LocationHead,
      PrintServerItem, Pad;
    var p, end := LocationLexed(text, pos, pad, item);
    var e := PrintedLocation(m.server, text, p, pad, item.kind, item.caseSensitive, item.url, item.pairs);
    CloseLineLength(pad);
    next := e + 1;
    HereFirst(text, e, "\n");
    var c := AtItem(m, pos, true, number);
    var block := ReadLocation(m.server, text, p);
    RunLocation(text, c, p, block);
    if block.lexeme == Some(LEndLocation) {
      LexNewLine(text, e, SERVER_PROPERTIES);
      RunNewLine(text, c.(m := m.(server := block.sv), pos := e), next);
    } else {
      assert m.(server := m.server) == m;
    }
  }

  lemma CloseLineLength(pad: string)
    ensures |CloseLine(pad)| == |pad| + 2
  {
  }

  lemma LocationPrinted(pad: string, item: ServerItem)
    requires item.LocationItem?
    ensures PrintServerItem(pad, item)
            == pad + ("location" + (" " + (LocationHead(item.kind, item.caseSensitive, item.url)
                                           + (PrintPairs(pad, item.pairs) + CloseLine(pad)))))
  {
    hide LocationHead, PrintPairs, CloseLine;
  }

  lemma LocationLexed(text: string, pos: nat, pad: string, item: ServerItem) returns (p: nat, end: nat)
    requires Pad(pad) && item.LocationItem? && CleanServerItem(item)
    requires Here(text, pos, PrintServerItem(pad, item))
    ensures p == pos + |pad| + 9 <= |text|
    ensures GetLexem(text, pos, SERVER_PROPERTIES) == Lexed(LLocation, p)
    ensures var head := LocationHead(item.kind, item.caseSensitive, item.url);
            var pairs := PrintPairs(pad, item.pairs);
            && Here(text, p, head + (pairs + CloseLine(pad)))
            && end == p + |head| + |pairs| + |pad| + 1
            && Here(text, end, "\n")
            && end + 1 == pos + |PrintServerItem(pad, item)|
  {
    hide GetLexem, Here, CleanUrl, CleanPairs, PrintPairs, LocationHead, PrintServerItem;
    LocationPrinted(pad, item);
    var head := LocationHead(item.kind, item.caseSensitive, item.url);
    var pairs := PrintPairs(pad, item.pairs);
    var all := head + (pairs + CloseLine(pad));
    p := pos + |pad| + 9;
    HereSplit(text, pos, pad, "location" + (" " + all));
    HereSplit(text, pos + |pad|, "location", " " + all);
    HereSplit(text, pos + |pad| + 8, " ", all);
    HereSplit(text, p, head, pairs + CloseLine(pad));
    HeadHasNoSemicolon(item.kind, item.caseSensitive, item.url);
    NoValueHere(text, p, head);
    p := LocationKeyword(text, pos, pad, all);
    HereSplit(text, p + |head|, pairs, CloseLine(pad));
    var close := p + |head| + |pairs|;
    end := close + |pad| + 1;
    HereSplit(text, close, pad, "}" + "\n");
    HereSplit(text, close + |pad|, "}", "\n");
  }

  // ---------- server blocks ----------

  lemma RunServerItem(text: string, m: Main, pos: nat, number: int, pad: string, item: ServerItem)
    returns (next: nat, n: int)
    requires Terminated(text) && Pad(pad) && CleanServerItem(item) && Here(text, pos, PrintServerItem(pad, item))
    ensures next == pos + |PrintServerItem(pad, item)| <= |text|
    ensures var e := EvalServer(m.server, [item]);
            Run(text, AtItem(m, pos, true, number)) ==
            if e.left == None then Run(text, AtItem(m.(server := e.settings), next, true, n))
            else Parsed(m, e.left.value)
    ensures EvalServer(m.server, [item]).left != None ==> EvalServer(m.server, [item]).settings == m.server
  {
    hide GetLexem, Here, Run, EvalLocation, ApplyServer, PairLine, CleanValue, CleanUrl, CleanPairs, CloseLine,
      PrintPairs;
    match item {
      case ServerPair(key, value) =>
        next := RunServerPair(text, m, pos, number, pad, key, value);
        n := ServerNumber(key);
      case LocationItem(_, _, _, _) =>
        next := RunLocationItem(text, m, pos, number, pad, item);
        n := number;
    }
  }

  lemma EvalServerStep(sv: Server, items: seq<ServerItem>)
    requires items != []
    ensures var e := EvalServer(sv, [items[0]]);
            EvalServer(sv, items) == if e.left == None then EvalServer(e.settings, items[1..]) else e
  {
    hide EvalLocation, ApplyServer;
  }

  /** The items of a printed server block, up to its closing brace. */
  lemma {:induction false} RunServerItems(text: string, m: Main, pos: nat, number: int, pad: string,
                                          items: seq<ServerItem>)
    returns (next: nat, n: int)
    requires Terminated(text) && Pad(pad) && CleanServer(items) && Here(text, pos, PrintServer(pad, items))
    ensures next == pos + |PrintServer(pad, items)| && (pos <= |text| ==> next <= |text|)
    ensures pos <= |text| ==>
              var e := EvalServer(m.server, items);
              Run(text, AtItem(m, pos, true, number)) ==
              if e.left == None then Run(text, AtItem(m.(server := e.settings), next, true, n))
              else Parsed(m.(server := e.settings), e.left.value)
    decreases |items|
  {
    hide GetLexem, Here, Run, PrintServerItem, CleanServerItem;
    if items == [] {
      next, n := pos, number;
    } else {
      HereSplit(text, pos, PrintServerItem(pad, items[0]), PrintServer(pad, items[1..]));
      EvalServerStep(m.server, items);
      var e := EvalServer(m.server, [items[0]]);
      var p, k := RunServerItem(text, m, pos, number, pad, items[0]);
      assert CleanServer(items[1..]);
      next, n := RunServerItems(text, m.(server := e.settings), p, k, pad, items[1..]);
    }
  }

  // ---------- blocks of the main block ----------

  /** The line that opens a block, up to its brace. */
  lemma RunServerOpen(text: string, m: Main, pos: nat, number: int, pad: string) returns (next: nat)
    requires Terminated(text) && Pad(pad) && Here(text, pos, OpenLine(pad, "server"))
    ensures next == pos + |OpenLine(pad, "server")| <= |text|
    ensures Run(text, AtItem(m, pos, false, number)) == Run(text, AtItem(m, next, true, number))
  {
    hide GetLexem, Here, Run, OpenLine;
    BlockNamesArePlain();
    var p := LexOpenLine(text, pos, pad, MAIN_PROPERTIES, 4);
    next := p + 2;
    var c := AtItem(m, pos, false, number);
    RunServerStart(text, c, p);
    var c1 := c.(pos := p, state := SServerStart, inServer := true);
    LexOpen(text, p, SERVER_PROPERTIES);
    RunOpen(text, c1, p + 1);
    LexNewLine(text, p + 1, SERVER_PROPERTIES);
    RunNewLine(text, c1.(pos := p + 1, state := SKey), next);
  }

  lemma RunServerClose(text: string, m: Main, pos: nat, number: int, pad: string) returns (next: nat)
    requires Terminated(text) && Pad(pad) && Here(text, pos, CloseLine(pad))
    ensures next == pos + |pad| + 2 <= |text|
    ensures Run(text, AtItem(m, pos, true, number)) == Run(text, AtItem(m, next, false, number))
  {
    hide GetLexem, Here, Run;
    HereSplit(text, pos, pad, "}" + "\n");
    HereSplit(text, pos + |pad|, "}", "\n");
    HereFirst(text, pos + |pad|, "}");
    LexClose(text, pos, pad, SERVER_PROPERTIES);
    var e := pos + |pad| + 1;
    var c := AtItem(m, pos, true, number);
    RunServerEnd(text, c, e);
    LexNewLine(text, e, MAIN_PROPERTIES);
    next := e + 1;
    RunNewLine(text, c.(pos := e, inServer := false), next);
  }

  lemma RunServerBlock(text: string, m: Main, pos: nat, number: int, pad: string, items: seq<ServerItem>)
    returns (next: nat, n: int)
    requires Terminated(text) && Pad(pad) && CleanServer(items)
    requires Here(text, pos, OpenLine(pad, "server") + (PrintServer(pad, items) + CloseLine(pad)))
    ensures next == pos + |OpenLine(pad, "server")| + |PrintServer(pad, items)| + |CloseLine(pad)| <= |text|
    ensures var e := EvalServer(m.server, items);
            Run(text, AtItem(m, pos, false, number)) ==
            if e.left == None then Run(text, AtItem(m.(server := e.settings), next, false, n))
            else Parsed(m.(server := e.settings), e.left.value)
  {
    hide GetLexem, Here, Run, OpenLine, PrintServer, EvalServer, CleanServer;
    HereSplit(text, pos, OpenLine(pad, "server"), PrintServer(pad, items) + CloseLine(pad));
    var first := RunServerOpen(text, m, pos, number, pad);
    HereSplit(text, first, PrintServer(pad, items), CloseLine(pad));
    var close;
    close, n := RunServerItems(text, m, first, number, pad, items);
    next := RunServerClose(text, m.(server := EvalServer(m.server, items).settings), close, n, pad);
  }

  lemma RunUpstreamsBlock(text: string, m: Main, pos: nat, number: int, pad: string, lines: seq<UpstreamLine>)
    returns (next: nat)
    requires Terminated(text) && Pad(pad) && CleanLines(lines)
    requires Here(text, pos, OpenLine(pad, "upstreams") + (PrintUpstreams(pad, lines) + CloseLine(pad)))
    ensures next == pos + |OpenLine(pad, "upstreams")| + |PrintUpstreams(pad, lines)| + |CloseLine(pad)| <= |text|
    ensures var e := EvalUpstreams(m.server, lines);
            Run(text, AtItem(m, pos, false, number)) ==
            if e.left == None then Run(text, AtItem(m.(server := e.settings), next, false, number))
            else Parsed(m.(server := e.settings), e.left.value)
  {
    hide GetLexem, Here, Run, OpenLine, PrintUpstreams, EvalUpstreams, CleanLines, ReadUpstreams;
    HereSplit(text, pos, OpenLine(pad, "upstreams"), PrintUpstreams(pad, lines) + CloseLine(pad));
    BlockNamesArePlain();
    var p := LexOpenLine(text, pos, pad, MAIN_PROPERTIES, 5);
    PrintedUpstreams(m.server, text, p, pad, lines);
    var close := p + 2 + |PrintUpstreams(pad, lines)|;
    HereSplit(text, p + 2, PrintUpstreams(pad, lines), CloseLine(pad));
    HereSplit(text, close, pad, "}" + "\n");
    HereSplit(text, close + |pad|, "}", "\n");
    var end := close + |pad| + 1;
    next := end + 1;
    HereFirst(text, end, "\n");
    var c := AtItem(m, pos, false, number);
    var block := ReadUpstreams(m.server, text, p);
    RunUpstreams(text, c, p, block);
    if block.lexeme.Some? {
      LexNewLine(text, end, MAIN_PROPERTIES);
      RunNewLine(text, c.(m := m.(server := block.sv), pos := end), next);
    }
  }

  // ---------- whole configurations ----------

  lemma RunItem(text: string, m: Main, pos: nat, number: int, pad: string, item: MainItem)
    returns (next: nat, n: int)
    requires Terminated(text) && Pad(pad) && CleanItem(item) && Here(text, pos, PrintItem(pad, item))
    ensures next == pos + |PrintItem(pad, item)| <= |text|
    ensures var e := EvalItem(m, item);
            Run(text, AtItem(m, pos, false, number)) ==
            if e.left == None then Run(text, AtItem(e.settings, next, false, n)) else Parsed(e.settings, e.left.value)
  {
    hide GetLexem, Here, Run, OpenLine, CloseLine, PairLine, PrintServer, PrintUpstreams, ApplyMain, EvalServer,
      EvalUpstreams, CleanValue, CleanServer, CleanLines;
    match item {
      case MainPair(key, value) =>
        next := RunMainPair(text, m, pos, number, pad, key, value);
        n := MainNumber(key);
      case UpstreamsItem(lines) =>
        next := RunUpstreamsBlock(text, m, pos, number, pad, lines);
        n := number;
      case ServerItems(items) =>
        next, n := RunServerBlock(text, m, pos, number, pad, items);
    }
  }

  lemma {:induction false} RunItems(text: string, m: Main, pos: nat, number: int, pad: string, items: seq<MainItem>)
    requires Terminated(text) && Pad(pad) && Clean(items) && Here(text, pos, PrintItems(pad, items))
    requires Here(text, pos + |PrintItems(pad, items)|, CloseLine(pad))
    ensures pos <= |text| && Run(text, AtItem(m, pos, false, number)) == Eval(m, items)
    decreases |items|
  {
    hide GetLexem, Here, Run, PrintItem, CleanItem, EvalItem;
    if items == [] {
      RunLast(text, m, pos, number, pad);
    } else {
      HereSplit(text, pos, PrintItem(pad, items[0]), PrintItems(pad, items[1..]));
      var next, n := RunItem(text, m, pos, number, pad, items[0]);
      assert Clean(items[1..]);
      RunItems(text, EvalItem(m, items[0]).settings, next, n, pad, items[1..]);
    }
  }

  lemma RunLast(text: string, m: Main, pos: nat, number: int, pad: string)
    requires Terminated(text) && Pad(pad) && Here(text, pos, CloseLine(pad))
    ensures pos <= |text| && Run(text, AtItem(m, pos, false, number)) == Parsed(m, Finished)
  {
    hide GetLexem, Here, Run;
    HereSplit(text, pos, pad, "}" + "\n");
    HereFirst(text, pos + |pad|, "}" + "\n");
    LexClose(text, pos, pad, MAIN_PROPERTIES);
    RunEnd(text, AtItem(m, pos, false, number), pos + |pad| + 1);
  }

  /** The first line names the protocol and opens the main block. */
  lemma RunFirst(text: string, m: Main, pad: string) returns (next: nat)
    requires Terminated(text) && Pad(pad) && Here(text, 0, OpenLine(pad, "http"))
    ensures next == |OpenLine(pad, "http")| <= |text|
    ensures ParseText(m, text) == Run(text, AtItem(m, next, false, -1))
  {
    hide GetLexem, Here, Run;
    var p := |pad| + 4;
    HereSplit(text, 0, pad, "http" + (" {" + "\n"));
    HereSplit(text, |pad|, "http", " {" + "\n");
    assert " {" == " " + "{";
    HereSplit(text, p, " {", "\n");
    HereSplit(text, p, " ", "{");
    HereFirst(text, p + 2, "\n");
    LexProtocol(text, pad);
    RunProtocol(text, Start(m), p);
    var c := Start(m).(pos := p, state := SBraceOpen);
    LexSpacedBrace(text, p);
    RunOpen(text, c, p + 2);
    LexNewLine(text, p + 2, MAIN_PROPERTIES);
    next := p + 3;
    RunNewLine(text, c.(pos := p + 2, state := SKey), next);
  }

  lemma LexProtocol(text: string, pad: string)
    requires Pad(pad) && Here(text, 0, pad) && Here(text, |pad|, "http") && Here(text, |pad| + 4, " {")
    requires Here(text, |pad| + 6, "\n")
    ensures GetLexem(text, 0, MAIN_PROPERTIES) == Lexed(LProtocol, |pad| + 4)
  {
    HereFirst(text, |pad|, "http");
    SkipPad(text, 0, pad);
    PassOver(text, |pad|, "http");
    PassOver(text, |pad| + 4, " {");
    HereFirst(text, |pad| + 6, "\n");
  }

  lemma LexSpacedBrace(text: string, pos: nat)
    requires Here(text, pos, " ") && Here(text, pos + 1, "{")
    ensures GetLexem(text, pos, MAIN_PROPERTIES) == Lexed(LBraceOpen, pos + 2)
  {
    HereFirst(text, pos, " ");
    HereFirst(text, pos + 1, "{");
    SpanIs(text, pos, IsBlank, pos + 1);
  }

  lemma PrintedIsTerminated(pad: string, items: seq<MainItem>)
    ensures Terminated(Print(pad, items))
  {
    hide PrintItems;
    var front := OpenLine(pad, "http") + (PrintItems(pad, items) + (pad + "}"));
    assert Print(pad, items) == front + "\n";
  }

  /** Printing any configuration and parsing it gives exactly what it means: the setters folded over its
      items in order, and the outcome of the first one that fails, if one does. */
  lemma PrintedConfigIsParsed(m: Main, pad: string, items: seq<MainItem>)
    requires Pad(pad) && Clean(items)
    ensures Terminated(Print(pad, items))
    ensures ParseText(m, Print(pad, items)) == Eval(m, items)
  {
    hide Here, Run, ParseText, Eval, Clean, OpenLine, CloseLine, PrintItems;
    var text := Print(pad, items);
    PrintedIsTerminated(pad, items);
    HereSlice(text, 0, text);
    HereSplit(text, 0, OpenLine(pad, "http"), PrintItems(pad, items) + CloseLine(pad));
    var first := RunFirst(text, m, pad);
    HereSplit(text, first, PrintItems(pad, items), CloseLine(pad));
    RunItems(text, m, first, -1, pad, items);
  }
}
