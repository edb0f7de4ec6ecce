/** How the lexer reads the lines that `ConfigPrinter` writes. */
module ConfigLexing {
  import opened Text
  import opened ServerSettings
  import opened MainServerSettings
  import opened ConfigLexer
  import opened ConfigParser
  import opened ConfigPrinter

  // ---------- keywords ----------

  /** Two keywords that differ within their first two characters; neither is a prefix of the other. */
  predicate Apart(a: string, b: string) {
    |a| >= 2 && |b| >= 2 && (a[0] != b[0] || a[1] != b[1])
  }

  /** A keyword that nothing in the lexer mistakes for something else. */
  predicate PlainName(name: string) {
    && |name| >= 2
    && (forall i :: 0 <= i < |name| ==> BeforeSemicolon(name[i]))
    && !IsSpace(name[0]) && name[0] != '{' && name[0] != '}' && name[0] != 'h'
  }

  predicate ApartBefore(names: seq<string>, k: nat)
    requires k < |names|
  {
    forall j :: 0 <= j < k ==> Apart(names[j], names[k])
  }

  lemma {:induction false} KeywordIs(text: string, p: nat, names: seq<string>, i: nat, k: nat)
    requires p <= |text| && i <= k < |names|
    requires ApartBefore(names, k) && Here(text, p, names[k])
    ensures KeywordAt(text, p, names, i) == k
    decreases k - i
  {
    if i < k {
      assert Apart(names[i], names[k]);
      assert text[p + 0] == names[k][0] && text[p + 1] == names[k][1];
      assert names[i][0] != text[p + 0] || names[i][1] != text[p + 1];
      KeywordIs(text, p, names, i + 1, k);
    }
  }

  lemma MainNamesArePlain(key: MainKey)
    ensures MAIN_PROPERTIES[MainNumber(key)] == MainKeyName(key)
    ensures var k := MainNumber(key);
            && ApartBefore(MAIN_PROPERTIES, k) && PlainName(MAIN_PROPERTIES[k])
            && KeywordLexeme(MAIN_PROPERTIES[k]) == LKey && IndexIn(MAIN_PROPERTIES, MAIN_PROPERTIES[k]) == k
  {
    IndexIs(MAIN_PROPERTIES, MAIN_PROPERTIES[MainNumber(key)], 0, MainNumber(key));
  }

  lemma BlockNamesArePlain()
    ensures ApartBefore(MAIN_PROPERTIES, 4) && PlainName("server") && MAIN_PROPERTIES[4] == "server"
    ensures ApartBefore(MAIN_PROPERTIES, 5) && PlainName("upstreams") && MAIN_PROPERTIES[5] == "upstreams"
    ensures ApartBefore(SERVER_PROPERTIES, 4) && PlainName("location") && SERVER_PROPERTIES[4] == "location"
  {
  }

  lemma ServerNamesArePlain(key: ServerKey)
    ensures SERVER_PROPERTIES[ServerNumber(key)] == ServerKeyName(key)
    ensures var k := ServerNumber(key);
            && ApartBefore(SERVER_PROPERTIES, k) && PlainName(SERVER_PROPERTIES[k])
            && KeywordLexeme(SERVER_PROPERTIES[k]) == LKey && IndexIn(SERVER_PROPERTIES, SERVER_PROPERTIES[k]) == k
  {
    IndexIs(SERVER_PROPERTIES, SERVER_PROPERTIES[ServerNumber(key)], 0, ServerNumber(key));
  }

  lemma LocationNamesArePlain(key: LocationKey)
    ensures LOCATION_PROPERTIES[LocationNumber(key)] == LocationKeyName(key)
    ensures var k := LocationNumber(key);
            && ApartBefore(LOCATION_PROPERTIES, k) && PlainName(LOCATION_PROPERTIES[k])
            && KeywordLexeme(LOCATION_PROPERTIES[k]) == LKey
            && IndexIn(LOCATION_PROPERTIES, LOCATION_PROPERTIES[k]) == k
  {
    IndexIs(LOCATION_PROPERTIES, LOCATION_PROPERTIES[LocationNumber(key)], 0, LocationNumber(key));
  }

  // ---------- single lexemes ----------

  lemma SkipPad(text: string, pos: nat, pad: string)
    requires Pad(pad) && Here(text, pos, pad)
    requires pos + |pad| < |text| ==> !IsBlank(text[pos + |pad|])
    ensures Span(text, pos, IsBlank) == pos + |pad|
  {
    forall k | pos <= k < pos + |pad| ensures IsBlank(text[k]) {
      assert text[pos + (k - pos)] == pad[k - pos];
    }
    SpanIs(text, pos, IsBlank, pos + |pad|);
  }

  /** Characters that a semicolon may follow are passed over. */
  lemma PassOver(text: string, p: nat, frag: string)
    requires Here(text, p, frag) && forall i :: 0 <= i < |frag| ==> BeforeSemicolon(frag[i])
    ensures Span(text, p, BeforeSemicolon) == Span(text, p + |frag|, BeforeSemicolon)
  {
    var e := Span(text, p + |frag|, BeforeSemicolon);
    SpanEnds(text, p + |frag|, BeforeSemicolon);
    forall k | p <= k < p + |frag| ensures BeforeSemicolon(text[k]) {
      assert text[p + (k - p)] == frag[k - p];
    }
    SpanIs(text, p, BeforeSemicolon, e);
  }

  lemma LexName(text: string, pos: nat, pad: string, names: seq<string>, k: nat)
    requires k < |names| && ApartBefore(names, k) && PlainName(names[k])
    requires Pad(pad) && Here(text, pos, pad) && Here(text, pos + |pad|, names[k])
    requires At(text, Span(text, pos + |pad| + |names[k]|, BeforeSemicolon)) != ';'
    ensures GetLexem(text, pos, names) == Lexed(KeywordLexeme(names[k]), pos + |pad| + |names[k]| + 1)
  {
    var p := pos + |pad|;
    HereFirst(text, p, names[k]);
    SkipPad(text, pos, pad);
    PassOver(text, p, names[k]);
    KeywordIs(text, p, names, 0, k);
    assert "http"[0] == 'h';
  }

  lemma LexValue(text: string, pos: nat, value: string, names: seq<string>)
    requires CleanValue(value) && Here(text, pos, " ") && Here(text, pos + 1, value)
    requires Here(text, pos + 1 + |value|, ";")
    ensures GetLexem(text, pos, names) == Lexed(LValue, pos + 1 + |value| + 1)
  {
    var e := pos + 1 + |value|;
    HereFirst(text, pos, " ");
    HereFirst(text, e, ";");
    if value != "" {
      HereFirst(text, pos + 1, value);
    }
    SkipPad(text, pos, " ");
    PassOver(text, pos + 1, value);
  }

  lemma LexNewLine(text: string, pos: nat, names: seq<string>)
    requires Here(text, pos, "\n")
    ensures GetLexem(text, pos, names) == Lexed(LNewLine, pos + 1)
  {
    HereFirst(text, pos, "\n");
  }

  lemma LexClose(text: string, pos: nat, pad: string, names: seq<string>)
    requires Pad(pad) && Here(text, pos, CloseLine(pad))
    ensures GetLexem(text, pos, names) == Lexed(LBraceClose, pos + |pad| + 1)
  {
    HereSplit(text, pos, pad, "}" + "\n");
    HereSplit(text, pos + |pad|, "}", "\n");
    HereFirst(text, pos + |pad|, "}");
    SkipPad(text, pos, pad);
  }

  lemma LexOpen(text: string, pos: nat, names: seq<string>)
    requires Here(text, pos, "{")
    ensures GetLexem(text, pos, names) == Lexed(LBraceOpen, pos + 1)
  {
    HereFirst(text, pos, "{");
  }

  // ---------- lines ----------

  /** Where the parts of a pair line stand. */
  lemma PairHere(text: string, pos: nat, pad: string, name: string, value: string)
    requires Here(text, pos, PairLine(pad, name, value))
    ensures var n := pos + |pad|; var c := n + |name|; var v := c + 2;
            && Here(text, pos, pad) && Here(text, n, name) && Here(text, c, ":")
            && Here(text, c + 1, " ") && Here(text, v, value) && Here(text, v + |value|, ";")
            && Here(text, v + |value| + 1, "\n")
            && |PairLine(pad, name, value)| == |pad| + |name| + |value| + 4
  {
    var rest := " " + value + ";" + "\n";
    HereSplit(text, pos, pad, name + (":" + rest));
    HereSplit(text, pos + |pad|, name, ":" + rest);
    HereSplit(text, pos + |pad| + |name|, ":", rest);
    HereSplit(text, pos + |pad| + |name| + 1, " " + value + ";", "\n");
    HereSplit(text, pos + |pad| + |name| + 1, " " + value, ";");
    HereSplit(text, pos + |pad| + |name| + 1, " ", value);
  }

  /** A line `name: value;` is a key, a value and a line feed; `p1` and `p2` lie between them. */
  lemma LexPair(text: string, pos: nat, pad: string, names: seq<string>, k: nat, value: string)
    returns (p1: nat, p2: nat)
    requires k < |names| && ApartBefore(names, k) && PlainName(names[k])
    requires Pad(pad) && CleanValue(value) && Here(text, pos, PairLine(pad, names[k], value))
    ensures pos < p1 < p2 < |text| && p2 + 1 == pos + |PairLine(pad, names[k], value)|
    ensures GetLexem(text, pos, names) == Lexed(KeywordLexeme(names[k]), p1)
    ensures GetLexem(text, p1, names) == Lexed(LValue, p2)
    ensures GetLexem(text, p2, names) == Lexed(LNewLine, p2 + 1)
    ensures PropertyName(text[pos..p1]) == names[k]
    ensures Trim(text[p1..p2]) == value
  {
    hide GetLexem, Here, CleanValue, PropertyName, Trim, KeywordLexeme, ApartBefore;
    PairHere(text, pos, pad, names[k], value);
    var c := pos + |pad| + |names[k]|;
    p1, p2 := c + 1, c + 3 + |value|;
    HereFirst(text, c, ":");
    LexName(text, pos, pad, names, k);
    LexValue(text, p1, value, names);
    LexNewLine(text, p2, names);
    KeyText(text, pos, pad, names[k]);
    ValueText(text, p1, value);
  }

  /** What the setters make of the two lexemes of a pair line. */
  lemma KeyText(text: string, pos: nat, pad: string, name: string)
    requires Pad(pad) && PlainName(name)
    requires Here(text, pos, pad) && Here(text, pos + |pad|, name) && Here(text, pos + |pad| + |name|, ":")
    ensures PropertyName(text[pos..pos + |pad| + |name| + 1]) == name
  {
    HereSplit(text, pos, pad, name);
    HereSplit(text, pos, pad + name, ":");
    HereSlice(text, pos, pad + name + ":");
    KeyName(text[pos..pos + |pad| + |name| + 1], pad, name);
  }

  lemma ValueText(text: string, pos: nat, value: string)
    requires CleanValue(value)
    requires Here(text, pos, " ") && Here(text, pos + 1, value) && Here(text, pos + 1 + |value|, ";")
    ensures Trim(text[pos..pos + 2 + |value|]) == value
  {
    HereSplit(text, pos, " ", value);
    HereSplit(text, pos, " " + value, ";");
    HereSlice(text, pos, " " + value + ";");
    ValueTrims(text[pos..pos + 2 + |value|], value);
  }

  lemma KeyName(key: string, pad: string, name: string)
    requires key == pad + name + ":" && Pad(pad) && PlainName(name)
    ensures PropertyName(key) == name
  {
    assert forall i :: 0 <= i < |pad| ==> key[i] == pad[i];
    assert key[|pad|] == name[0];
    SpanIs(key, 0, IsSpace, |pad|);
  }

  lemma ValueTrims(lexeme: string, value: string)
    requires lexeme == " " + value + ";" && CleanValue(value)
    ensures Trim(lexeme) == value
  {
    assert value != "" ==> lexeme[1] == value[0];
    SpanIs(lexeme, 0, IsSpace, 1);
  }

  /** A line `name {` is a keyword, a brace and a line feed. */
  lemma LexOpenLine(text: string, pos: nat, pad: string, names: seq<string>, k: nat) returns (p: nat)
    requires k < |names| && ApartBefore(names, k) && PlainName(names[k])
    requires Pad(pad) && Here(text, pos, OpenLine(pad, names[k]))
    ensures pos < p && p + 2 == pos + |OpenLine(pad, names[k])| <= |text|
    ensures GetLexem(text, pos, names) == Lexed(KeywordLexeme(names[k]), p)
    ensures Here(text, p, "{") && Here(text, p + 1, "\n")
  {
    HereSplit(text, pos, pad, names[k] + (" {" + "\n"));
    var n := pos + |pad|;
    HereSplit(text, n, names[k], " {" + "\n");
    var b := n + |names[k]|;
    assert " {" == " " + "{";
    HereSplit(text, b, " {", "\n");
    HereSplit(text, b, " ", "{");
    PassOver(text, b, " {");
    HereFirst(text, b + 2, "\n");
    LexName(text, pos, pad, names, k);
    p := b + 1;
  }
}
