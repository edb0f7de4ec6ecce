/** Lexemes of a configuration file. The keywords that are recognised depend on the enclosing block. */
module ConfigLexer {
  import opened Text
  import opened ServerSettings
  import opened MainServerSettings

  datatype Lexeme =
    | LProtocol | LBraceOpen | LBraceClose | LNewLine | LKey | LValue | LServerStart | LLocation
    | LEndLocation | LServerEnd | LUpstream | LEndUpstream | LErr

  /** A lexeme and the cursor behind it. */
  datatype Lexed = Lexed(lexeme: Lexeme, pos: nat)

  /** The text ends in white space, as a file that ends with a line feed does, or is empty, as it is
      when the file could not be read. This is what keeps the cursor loops inside the text. */
  predicate Terminated(text: string) {
    text == "" || IsSpace(text[|text| - 1])
  }

  /** Keywords are not empty and do not end in white space. */
  predicate Keywords(names: seq<string>) {
    forall i | 0 <= i < |names| :: names[i] != "" && !IsSpace(names[i][|names[i]| - 1])
  }

  /** A character that a semicolon may still follow on the same line, before any colon. */
  predicate BeforeSemicolon(c: char) {
    c != '\n' && c != ':' && c != ';'
  }

  /** Index of the first keyword that stands at `pos`, `|names|` if none does. */
  function KeywordAt(text: string, pos: nat, names: seq<string>, i: nat): (r: nat)
    requires pos <= |text| && i <= |names|
    ensures i <= r <= |names|
    decreases |names| - i
  {
    if i == |names| then i
    else if Here(text, pos, names[i]) then i
    else KeywordAt(text, pos, names, i + 1)
  }

  lemma {:induction false} KeywordStands(text: string, pos: nat, names: seq<string>, i: nat)
    requires pos <= |text| && i <= |names|
    ensures var r := KeywordAt(text, pos, names, i);
            r < |names| ==> Here(text, pos, names[r])
    decreases |names| - i
  {
    if i < |names| && !Here(text, pos, names[i]) {
      KeywordStands(text, pos, names, i + 1);
    }
  }

  function KeywordLexeme(name: string): Lexeme {
    if name == "server" then LServerStart
    else if name == "location" then LLocation
    else if name == "upstreams" then LUpstream
    else LKey
  }

  /** The part of `get_lexem` behind the leading white space. */
  function LexemAt(text: string, p: nat, names: seq<string>): (r: Lexed)
    requires p <= |text|
    ensures r.lexeme != LEndLocation && r.lexeme != LServerEnd && r.lexeme != LEndUpstream
  {
    var semicolon := Span(text, p, BeforeSemicolon);
    var k := KeywordAt(text, p, names, 0);
    if At(text, p) == '\n' then Lexed(LNewLine, p + 1)
    else if At(text, p) == '{' then Lexed(LBraceOpen, p + 1)
    else if At(text, p) == '}' then Lexed(LBraceClose, p + 1)
    else if At(text, semicolon) == ';' then Lexed(LValue, semicolon + 1)
    else if Here(text, p, "http") then Lexed(LProtocol, p + |"http"|)
    else if k < |names| then Lexed(KeywordLexeme(names[k]), p + |names[k]| + 1)
    else Lexed(LErr, p)
  }

  function GetLexem(text: string, pos: nat, names: seq<string>): Lexed
    requires pos <= |text|
  {
    LexemAt(text, Span(text, pos, IsBlank), names)
  }

  /** Every lexeme but the error consumes text, and none runs past its end. */
  lemma LexemAdvances(text: string, pos: nat, names: seq<string>)
    requires pos <= |text| && Terminated(text) && Keywords(names)
    ensures var r := GetLexem(text, pos, names);
            if r.lexeme == LErr then pos <= r.pos <= |text| else pos < r.pos <= |text|
  {
    var p := Span(text, pos, IsBlank);
    var k := KeywordAt(text, p, names, 0);
    KeywordStands(text, p, names, 0);
    if k < |names| {
      assert text[p + (|names[k]| - 1)] == names[k][|names[k]| - 1];
    }
  }

  lemma ListsAreKeywords()
    ensures Keywords(MAIN_PROPERTIES) && Keywords(SERVER_PROPERTIES) && Keywords(LOCATION_PROPERTIES)
  {
  }

  /** A list whose names open no block of a kind gives no lexeme of that kind. */
  lemma NoSuchBlock(text: string, pos: nat, names: seq<string>, block: Lexeme)
    requires pos <= |text| && (block == LServerStart || block == LUpstream || block == LLocation)
    requires forall i :: 0 <= i < |names| ==> KeywordLexeme(names[i]) != block
    ensures GetLexem(text, pos, names).lexeme != block
  {
    hide KeywordLexeme;
  }

  /** Inside a server block no lexeme opens an upstreams block or another server block; outside none
      opens a location; inside a location there is nothing but keys. */
  lemma LexerKeepsBlocksApart(text: string, pos: nat)
    requires pos <= |text|
    ensures GetLexem(text, pos, SERVER_PROPERTIES).lexeme != LServerStart
    ensures GetLexem(text, pos, SERVER_PROPERTIES).lexeme != LUpstream
    ensures GetLexem(text, pos, MAIN_PROPERTIES).lexeme != LLocation
    ensures GetLexem(text, pos, LOCATION_PROPERTIES).lexeme != LServerStart
    ensures GetLexem(text, pos, LOCATION_PROPERTIES).lexeme != LUpstream
    ensures GetLexem(text, pos, LOCATION_PROPERTIES).lexeme != LLocation
  {
    hide GetLexem;
    NoSuchBlock(text, pos, SERVER_PROPERTIES, LServerStart);
    NoSuchBlock(text, pos, SERVER_PROPERTIES, LUpstream);
    NoSuchBlock(text, pos, MAIN_PROPERTIES, LLocation);
    NoSuchBlock(text, pos, LOCATION_PROPERTIES, LServerStart);
    NoSuchBlock(text, pos, LOCATION_PROPERTIES, LUpstream);
    NoSuchBlock(text, pos, LOCATION_PROPERTIES, LLocation);
  }

  /** `get_lexem`, moving the cursor. */
  method NextLexem(text: string, pos: nat, names: seq<string>) returns (lexeme: Lexeme, next: nat)
    requires pos <= |text|
    ensures Lexed(lexeme, next) == GetLexem(text, pos, names)
  {
    next := SkipWhile(text, pos, IsBlank);
    if At(text, next) == '\n' {
      return LNewLine, next + 1;
    }
    if At(text, next) == '{' {
      return LBraceOpen, next + 1;
    }
    if At(text, next) == '}' {
      return LBraceClose, next + 1;
    }
    var i := next;
    while i < |text| && text[i] != '\n'
      invariant next <= i <= |text|
      invariant Span(text, next, BeforeSemicolon) == Span(text, i, BeforeSemicolon)
    {
      if text[i] == ':' {
        break;
      }
      if text[i] == ';' {
        return LValue, i + 1;
      }
      i := i + 1;
    }
    if Here(text, next, "http") {
      return LProtocol, next + |"http"|;
    }
    for k := 0 to |names|
      invariant KeywordAt(text, next, names, 0) == KeywordAt(text, next, names, k)
    {
      if Here(text, next, names[k]) {
        return KeywordLexeme(names[k]), next + |names[k]| + 1;
      }
    }
    return LErr, next;
  }
}
