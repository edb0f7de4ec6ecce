/** Which texts are entries of an upstreams block, and which are bodies of a location: both directions, for any text. */
module ConfigExact {
  import opened Text
  import opened ServerSettings
  import opened MainServerSettings
  import opened ConfigLexer
  import opened ConfigParser
  import opened ConfigUpstreams

  // ---------- entries of an upstreams block ----------

  /** How a setting may be written: not at all; as its name alone, which counts as not at all; or in full. White space
      behind it is skipped, except behind a name alone. */
  datatype Part =
    | Absent(space: string)
    | Bare(blanks: string)
    | Given(before: string, after: string, digits: string, space: string)

  function PartText(name: string, s: Part): string {
    match s
    case Absent(space) => space
    case Bare(blanks) => name + blanks
    case Given(before, after, digits, space) => name + (before + ("=" + (after + (digits + space))))
  }

  predicate PartOk(s: Part) {
    match s
    case Absent(space) => Blanks(space)
    case Bare(blanks) => OnlyBlanks(blanks)
    case Given(before, after, digits, space) =>
      OnlyBlanks(before) && OnlyBlanks(after) && AllDigits(digits) && digits != "" && Value(digits) <= 2147483647
      && Blanks(space)
  }

  /** The part stands here, and what follows does not belong to it. */
  predicate PartHere(text: string, pos: nat, name: string, s: Part) {
    && Here(text, pos, PartText(name, s))
    && var e := pos + |PartText(name, s)|;
    match s
    case Absent(_) => !Here(text, pos, name) && (e < |text| ==> !IsSpace(text[e]))
    case Bare(_) => e < |text| ==> text[e] != ' ' && text[e] != '='
    case Given(_, _, _, space) =>
      e < |text| ==> !IsSpace(text[e]) && (space == "" ==> !IsDigit(text[e]))
  }

  function PartValue(s: Part): int {
    if s.Given? then Value(s.digits) else -1
  }

  lemma OverSpace(text: string, pos: nat, space: string)
    requires Blanks(space) && Here(text, pos, space)
    requires pos + |space| < |text| ==> !IsSpace(text[pos + |space|])
    ensures Span(text, pos, IsSpace) == pos + |space|
  {
    forall k | pos <= k < pos + |space| ensures IsSpace(text[k]) {
      assert text[pos + (k - pos)] == space[k - pos];
    }
    SpanIs(text, pos, IsSpace, pos + |space|);
  }

  /** Skipping blanks first does not change where white space ends. */
  lemma BlanksAreSpace(text: string, pos: nat)
    requires pos <= |text|
    ensures Span(text, Span(text, pos, IsSpaceChar), IsSpace) == Span(text, pos, IsSpace)
  {
    SpanEnds(text, pos, IsSpaceChar);
    var b := Span(text, pos, IsSpaceChar);
    SpanEnds(text, b, IsSpace);
    SpanIs(text, pos, IsSpace, Span(text, b, IsSpace));
  }

  lemma PartIsRead(text: string, pos: nat, name: string, s: Part)
    requires pos <= |text| && PartOk(s) && PartHere(text, pos, name, s)
    ensures ReadSetting(text, pos, name) == Setting(PartValue(s), pos + |PartText(name, s)|)
  {
    hide Span, Stoi, Value, Here;
    match s
    case Absent(space) => OverSpace(text, pos, space);
    case Bare(blanks) =>
      HereSplit(text, pos, name, blanks);
      OverBlanks(text, pos + |name|, blanks);
      assert pos + |name| + |blanks| <= |text| by { InsideText(text, pos, name + blanks); }
    case Given(before, after, digits, space) =>
      GivenSplit(text, pos, name, before, after, digits, space);
      var e := pos + |name| + |before| + 1 + |after| + |digits|;
      DigitsEnd(text, e, space);
      SettingReads(text, pos, name, before, after, digits);
      BlanksAreSpace(text, e);
      OverSpace(text, e, space);
  }

  lemma InsideText(text: string, pos: nat, frag: string)
    requires Here(text, pos, frag)
    ensures pos + |frag| <= |text|
  {
  }

  lemma DigitsEnd(text: string, e: nat, space: string)
    requires Blanks(space) && Here(text, e, space)
    requires space == "" && e < |text| ==> !IsDigit(text[e])
    ensures e < |text| ==> !IsDigit(text[e])
  {
    if space != "" {
      HereFirst(text, e, space);
    }
  }

  lemma GivenSplit(text: string, pos: nat, name: string, before: string, after: string, digits: string, space: string)
    ensures Here(text, pos, name + (before + ("=" + (after + (digits + space))))) <==>
            && Here(text, pos, name + (before + ("=" + (after + digits))))
            && Here(text, pos + |name| + |before| + 1 + |after| + |digits|, space)
  {
    hide Here;
    var front := name + (before + ("=" + (after + digits)));
    assert name + (before + ("=" + (after + (digits + space)))) == front + space;
    HereSplit(text, pos, front, space);
  }

  /** What is read as a setting is written in one of the three ways. */
  lemma PartIsFound(text: string, pos: nat, name: string) returns (s: Part)
    requires pos <= |text| && ReadSetting(text, pos, name).Setting?
    ensures PartOk(s) && PartHere(text, pos, name, s)
    ensures ReadSetting(text, pos, name) == Setting(PartValue(s), pos + |PartText(name, s)|)
  {
    hide Span, Stoi, Value;
    if !Here(text, pos, name) {
      SpanEnds(text, pos, IsSpace);
      s := Absent(text[pos..Span(text, pos, IsSpace)]);
    } else {
      var b := pos + |name|;
      SpanEnds(text, b, IsSpaceChar);
      var p := Span(text, b, IsSpaceChar);
      if At(text, p) != '=' {
        s := Bare(text[b..p]);
        HereJoin(text, pos, name, p);
      } else {
        s := GivenIsFound(text, pos, name, p);
      }
    }
  }

  lemma HereJoin(text: string, pos: nat, name: string, p: nat)
    requires Here(text, pos, name) && pos + |name| <= p <= |text|
    ensures Here(text, pos, name + text[pos + |name|..p])
  {
    HereSlice(text, pos + |name|, text[pos + |name|..p]);
    HereSplit(text, pos, name, text[pos + |name|..p]);
  }

  lemma GivenIsFound(text: string, pos: nat, name: string, p: nat) returns (s: Part)
    requires Here(text, pos, name) && ReadSetting(text, pos, name).Setting?
    requires p < |text| && text[p] == '=' && p == Span(text, pos + |name|, IsSpaceChar)
    ensures s.Given? && PartOk(s) && PartHere(text, pos, name, s)
    ensures ReadSetting(text, pos, name) == Setting(PartValue(s), pos + |PartText(name, s)|)
  {
    hide Span, Stoi, Value, PartOk, PartHere, RunEnds, Here;
    var b := pos + |name|;
    SpanEnds(text, b, IsSpaceChar);
    SpanEnds(text, p + 1, IsSpaceChar);
    var q := Span(text, p + 1, IsSpaceChar);
    SpanEnds(text, q, IsDigit);
    var e := Span(text, q, IsDigit);
    StoiDigits(text[q..e]);
    BlanksAreSpace(text, e);
    SpanEnds(text, e, IsSpace);
    var t := Span(text, e, IsSpace);
    s := Given(text[b..p], text[p + 1..q], text[q..e], text[e..t]);
    GivenFits(text, pos, name, p, q, e, t);
  }

  lemma GivenFits(text: string, pos: nat, name: string, p: nat, q: nat, e: nat, t: nat)
    requires Here(text, pos, name) && RunEnds(text, pos + |name|, IsSpaceChar, p) && p < |text| && text[p] == '='
    requires RunEnds(text, p + 1, IsSpaceChar, q) && RunEnds(text, q, IsDigit, e) && RunEnds(text, e, IsSpace, t)
    requires q < e && Value(text[q..e]) <= 2147483647
    ensures var s := Given(text[pos + |name|..p], text[p + 1..q], text[q..e], text[e..t]);
            PartOk(s) && PartHere(text, pos, name, s) && pos + |PartText(name, s)| == t
  {
    hide Value, Here, RunEnds, Blanks, OnlyBlanks, AllDigits;
    GivenRuns(text, pos + |name|, p, q, e, t);
    SlicesJoin(text, pos + |name|, p, q, e, t);
    HereJoin(text, pos, name, t);
    SliceIsBlanks(text, pos + |name|, p);
    SliceIsBlanks(text, p + 1, q);
    SliceIsDigits(text, q, e);
    SliceIsSpace(text, e, t);
  }

  lemma GivenRuns(text: string, b: nat, p: nat, q: nat, e: nat, t: nat)
    requires RunEnds(text, b, IsSpaceChar, p) && RunEnds(text, p + 1, IsSpaceChar, q)
    requires RunEnds(text, q, IsDigit, e) && RunEnds(text, e, IsSpace, t)
    ensures b <= p < q <= e <= t <= |text|
    ensures t < |text| ==> !IsSpace(text[t]) && (t == e ==> !IsDigit(text[t]))
  {
  }

  lemma SlicesJoin(text: string, b: nat, p: nat, q: nat, e: nat, t: nat)
    requires b <= p < q <= e <= t <= |text| && text[p] == '='
    ensures text[b..p] + ("=" + (text[p + 1..q] + (text[q..e] + text[e..t]))) == text[b..t]
  {
    assert text[q..e] + text[e..t] == text[q..t];
    assert text[p + 1..q] + text[q..t] == text[p + 1..t];
    assert "=" + text[p + 1..t] == text[p..t];
    assert text[b..p] + text[p..t] == text[b..t];
  }

  /** An entry: an address up to a blank or a semicolon, blanks, the two settings, a semicolon, white space. */
  datatype EntryText = EntryText(address: string, gap: string, weight: Part, port: Part, space: string)

  predicate EntryHere(text: string, pos: nat, t: EntryText) {
    && (forall i :: 0 <= i < |t.address| ==> t.address[i] != ' ' && t.address[i] != ';')
    && OnlyBlanks(t.gap) && PartOk(t.weight) && PartOk(t.port) && Blanks(t.space)
    && Here(text, pos, t.address)
    && var g := pos + |t.address|;
    && Here(text, g, t.gap)
    && var w := g + |t.gap|;
    && w < |text| && text[w] != ' ' && (t.gap == "" ==> text[w] == ';')
    && PartHere(text, w, "weight", t.weight)
    && var p := w + |PartText("weight", t.weight)|;
    && PartHere(text, p, "port", t.port)
    && var semicolon := p + |PartText("port", t.port)|;
    && semicolon < |text| && text[semicolon] == ';'
    && Here(text, semicolon + 1, t.space)
    && (EntryEnd(pos, t) < |text| ==> !IsSpace(text[EntryEnd(pos, t)]))
  }

  function EntryEnd(pos: nat, t: EntryText): nat {
    pos + |t.address| + |t.gap| + |PartText("weight", t.weight)| + |PartText("port", t.port)| + 1 + |t.space|
  }

  /** A text is read as an entry exactly if it is written as one: with that address, and with the numbers written, or
      1 and 80 where none is. */
  lemma EntryIsRead(text: string, pos: nat, t: EntryText)
    requires EntryHere(text, pos, t)
    ensures pos <= |text|
    ensures ReadEntry(text, pos) == Entry(t.address, if t.weight.Given? then Value(t.weight.digits) else 1,
                                          if t.port.Given? then Value(t.port.digits) else 80, EntryEnd(pos, t))
  {
    hide Span, Value, PartOk, PartHere, PartText, ReadSetting, Here, Blanks, OnlyBlanks;
    var g := pos + |t.address|;
    InsideText(text, pos, t.address);
    if t.gap != "" {
      HereFirst(text, g, t.gap);
      BlankFirst(t.gap);
    }
    AddressEnds(text, pos, t.address);
    OverBlanks(text, g, t.gap);
    var w := g + |t.gap|;
    PartIsRead(text, w, "weight", t.weight);
    PartIsRead(text, w + |PartText("weight", t.weight)|, "port", t.port);
    OverSpace(text, EntryEnd(pos, t) - |t.space|, t.space);
  }

  lemma BlankFirst(s: string)
    requires OnlyBlanks(s) && s != ""
    ensures s[0] == ' '
  {
  }

  lemma AddressEnds(text: string, pos: nat, address: string)
    requires forall i :: 0 <= i < |address| ==> address[i] != ' ' && address[i] != ';'
    requires Here(text, pos, address)
    requires pos + |address| < |text| && text[pos + |address|] in {' ', ';'}
    ensures Span(text, pos, NotBlankOrSemicolon) == pos + |address| && text[pos..pos + |address|] == address
  {
    var e := pos + |address|;
    forall i | pos <= i < e ensures NotBlankOrSemicolon(text[i]) {
      assert text[pos + (i - pos)] == address[i - pos];
    }
    SpanIs(text, pos, NotBlankOrSemicolon, e);
    HereSlice(text, pos, address);
  }

  lemma EntryIsFound(text: string, pos: nat) returns (t: EntryText)
    requires pos <= |text| && ReadEntry(text, pos).Entry?
    ensures EntryHere(text, pos, t)
  {
    hide Span, Value, PartOk, PartHere, PartText, ReadSetting, EntryHere, RunEnds;
    var e := Span(text, pos, NotBlankOrSemicolon);
    SpanEnds(text, pos, NotBlankOrSemicolon);
    var w := Span(text, e, IsSpaceChar);
    SpanEnds(text, e, IsSpaceChar);
    var weight := PartIsFound(text, w, "weight");
    var p := w + |PartText("weight", weight)|;
    var port := PartIsFound(text, p, "port");
    var semicolon := p + |PartText("port", port)|;
    var next := Span(text, semicolon + 1, IsSpace);
    SpanEnds(text, semicolon + 1, IsSpace);
    t := EntryText(text[pos..e], text[e..w], weight, port, text[semicolon + 1..next]);
    EntryFits(text, pos, e, w, weight, port, semicolon, next);
  }

  lemma EntryFits(text: string, pos: nat, e: nat, w: nat, weight: Part, port: Part, semicolon: nat, next: nat)
    requires RunEnds(text, pos, NotBlankOrSemicolon, e) && RunEnds(text, e, IsSpaceChar, w)
    requires PartOk(weight) && PartHere(text, w, "weight", weight)
    requires var p := w + |PartText("weight", weight)|;
             PartOk(port) && PartHere(text, p, "port", port) && semicolon == p + |PartText("port", port)|
    requires semicolon < |text| && text[semicolon] == ';' && RunEnds(text, semicolon + 1, IsSpace, next)
    requires w < |text|
    ensures EntryHere(text, pos, EntryText(text[pos..e], text[e..w], weight, port, text[semicolon + 1..next]))
  {
    hide PartOk, PartHere, PartText, Here, Blanks, OnlyBlanks;
    HereSlice(text, pos, text[pos..e]);
    HereSlice(text, e, text[e..w]);
    HereSlice(text, semicolon + 1, text[semicolon + 1..next]);
    SliceIsBlanks(text, e, w);
    SliceIsSpace(text, semicolon + 1, next);
  }

  lemma SliceIsBlanks(text: string, i: nat, j: nat)
    requires RunEnds(text, i, IsSpaceChar, j)
    ensures OnlyBlanks(text[i..j])
  {
  }

  lemma SliceIsDigits(text: string, i: nat, j: nat)
    requires RunEnds(text, i, IsDigit, j)
    ensures AllDigits(text[i..j])
  {
  }

  lemma SliceIsSpace(text: string, i: nat, j: nat)
    requires RunEnds(text, i, IsSpace, j)
    ensures Blanks(text[i..j])
  {
  }

  // ---------- the body of a location ----------

  /** What a body may hold in front of its closing brace. */
  datatype Item = EmptyLine | KeyValue(key: string, value: string)

  /** The lexemes from `pos` to `end` are these items, and a closing brace. */
  predicate Derives(text: string, pos: nat, items: seq<Item>, end: nat)
    requires Terminated(text)
    decreases |items|
  {
    && pos <= |text|
    && var x := GetLexem(text, pos, LOCATION_PROPERTIES);
    && x.pos <= |text|
    && if items == [] then x == Lexed(LBraceClose, end)
       else
         match items[0]
         case EmptyLine => x.lexeme == LNewLine && Derives(text, x.pos, items[1..], end)
         case KeyValue(key, value) =>
           && x.lexeme == LKey
           && var y := GetLexem(text, x.pos, LOCATION_PROPERTIES);
           && y.lexeme == LValue && pos <= x.pos <= y.pos <= |text|
           && key == text[pos..x.pos] && value == text[x.pos..y.pos]
           && Derives(text, y.pos, items[1..], end)
  }

  /** What the items make of a location, None if a value is refused. */
  function Made(sv: Server, items: seq<Item>, l: Location): Option<Location>
    decreases |items|
  {
    if items == [] then Some(l)
    else
      match items[0]
      case EmptyLine => Made(sv, items[1..], l)
      case KeyValue(key, value) =>
        match WithLocationProperty(sv, IndexIn(LOCATION_PROPERTIES, PropertyName(key)), value, l)
        case None => None
        case Some(l') => Made(sv, items[1..], l')
  }

  /** A body that the items derive is read to its brace if every value is accepted, and is an error otherwise. */
  lemma {:induction false} BodyIsRead(sv: Server, text: string, pos: nat, number: int, l: Location, items: seq<Item>,
                                      end: nat)
    requires Terminated(text) && Derives(text, pos, items, end)
    ensures pos <= |text|
    ensures var body := ReadBody(sv, text, pos, SKey, number, l);
            match Made(sv, items, l)
            case Some(l') => body == Body(SEnd, l', end)
            case None => body.state == SErr
    decreases |items|
  {
    hide GetLexem, WithLocationProperty, IndexIn, PropertyName;
    ListsAreKeywords();
    LexemAdvances(text, pos, LOCATION_PROPERTIES);
    var x := GetLexem(text, pos, LOCATION_PROPERTIES);
    if items != [] {
      match items[0]
      case EmptyLine => BodyIsRead(sv, text, x.pos, number, l, items[1..], end);
      case KeyValue(key, value) =>
        LexemAdvances(text, x.pos, LOCATION_PROPERTIES);
        var y := GetLexem(text, x.pos, LOCATION_PROPERTIES);
        var n := IndexIn(LOCATION_PROPERTIES, PropertyName(key));
        var l' := WithLocationProperty(sv, n, value, l);
        if l'.Some? {
          BodyIsRead(sv, text, y.pos, n, l'.value, items[1..], end);
        }
    }
  }

  /** A body that is read to its brace is derived by some items. */
  lemma {:induction false} BodyIsDerived(sv: Server, text: string, pos: nat, number: int, l: Location)
    returns (items: seq<Item>)
    requires Terminated(text) && pos <= |text| && ReadBody(sv, text, pos, SKey, number, l).state == SEnd
    ensures Derives(text, pos, items, ReadBody(sv, text, pos, SKey, number, l).pos)
    ensures Made(sv, items, l) == Some(ReadBody(sv, text, pos, SKey, number, l).location)
    decreases |text| - pos
  {
    hide GetLexem, WithLocationProperty, IndexIn, PropertyName;
    ListsAreKeywords();
    LexemAdvances(text, pos, LOCATION_PROPERTIES);
    var x := GetLexem(text, pos, LOCATION_PROPERTIES);
    if x.lexeme == LBraceClose {
      items := [];
    } else if x.lexeme == LNewLine {
      var rest := BodyIsDerived(sv, text, x.pos, number, l);
      items := [EmptyLine] + rest;
    } else {
      LexemAdvances(text, x.pos, LOCATION_PROPERTIES);
      var y := GetLexem(text, x.pos, LOCATION_PROPERTIES);
      var key, value := text[pos..x.pos], text[x.pos..y.pos];
      var n := IndexIn(LOCATION_PROPERTIES, PropertyName(key));
      var rest := BodyIsDerived(sv, text, y.pos, n, WithLocationProperty(sv, n, value, l).value);
      items := [KeyValue(key, value)] + rest;
    }
  }
}
