/** How the two sub-parsers read the blocks that `ConfigPrinter` writes. */
module ConfigBlocks {
  import opened Text
  import opened UpstreamSettings
  import opened ServerSettings
  import opened MainServerSettings
  import opened ConfigLexer
  import opened ConfigParser
  import opened ConfigPrinter
  import opened ConfigLexing

  // ---------- the body of a location ----------

  lemma LocationSetter(sv: Server, key: LocationKey, lexeme: string, value: string, l: Location)
    requires Trim(lexeme) == value
    ensures WithLocationProperty(sv, LocationNumber(key), lexeme, l) == ApplyLocation(sv, l, key, value)
  {
  }

  lemma BodyKey(sv: Server, text: string, pos: nat, number: int, l: Location, next: nat)
    requires pos <= |text| && Terminated(text)
    requires GetLexem(text, pos, LOCATION_PROPERTIES) == Lexed(LKey, next)
    ensures pos < next <= |text|
    ensures ReadBody(sv, text, pos, SKey, number, l) ==
            ReadBody(sv, text, next, SValue, IndexIn(LOCATION_PROPERTIES, PropertyName(text[pos..next])), l)
  {
    ListsAreKeywords();
    LexemAdvances(text, pos, LOCATION_PROPERTIES);
  }

  lemma BodyValue(sv: Server, text: string, pos: nat, number: int, l: Location, next: nat)
    requires pos <= |text| && Terminated(text)
    requires GetLexem(text, pos, LOCATION_PROPERTIES) == Lexed(LValue, next)
    ensures pos < next <= |text|
    ensures ReadBody(sv, text, pos, SValue, number, l) ==
            match WithLocationProperty(sv, number, text[pos..next], l)
            case None => Body(SErr, l, next)
            case Some(l') => ReadBody(sv, text, next, SKey, number, l')
  {
    ListsAreKeywords();
    LexemAdvances(text, pos, LOCATION_PROPERTIES);
  }

  lemma BodyNewLine(sv: Server, text: string, pos: nat, number: int, l: Location, next: nat)
    requires pos <= |text| && Terminated(text)
    requires GetLexem(text, pos, LOCATION_PROPERTIES) == Lexed(LNewLine, next)
    ensures pos < next <= |text|
    ensures ReadBody(sv, text, pos, SKey, number, l) == ReadBody(sv, text, next, SKey, number, l)
  {
    ListsAreKeywords();
    LexemAdvances(text, pos, LOCATION_PROPERTIES);
  }

  lemma BodyClose(sv: Server, text: string, pos: nat, number: int, l: Location, next: nat)
    requires pos <= |text| && Terminated(text)
    requires GetLexem(text, pos, LOCATION_PROPERTIES) == Lexed(LBraceClose, next)
    ensures ReadBody(sv, text, pos, SKey, number, l) == Body(SEnd, l, next)
  {
    ListsAreKeywords();
    LexemAdvances(text, pos, LOCATION_PROPERTIES);
  }

  /** The lexemes of a printed location pair. */
  lemma PairRead(text: string, pos: nat, pad: string, p: LocationPair) returns (p1: nat, p2: nat)
    requires Pad(pad) && CleanValue(p.value)
    requires Here(text, pos, PairLine(pad, LocationKeyName(p.key), p.value))
    ensures pos < p1 < p2 < |text|
    ensures p2 + 1 == pos + |PairLine(pad, LocationKeyName(p.key), p.value)|
    ensures GetLexem(text, pos, LOCATION_PROPERTIES) == Lexed(LKey, p1)
    ensures GetLexem(text, p1, LOCATION_PROPERTIES) == Lexed(LValue, p2)
    ensures GetLexem(text, p2, LOCATION_PROPERTIES) == Lexed(LNewLine, p2 + 1)
    ensures IndexIn(LOCATION_PROPERTIES, PropertyName(text[pos..p1])) == LocationNumber(p.key)
    ensures Trim(text[p1..p2]) == p.value
  {
    LocationNamesArePlain(p.key);
    p1, p2 := LexPair(text, pos, pad, LOCATION_PROPERTIES, LocationNumber(p.key), p.value);
  }

  lemma BodyPairValue(sv: Server, text: string, p1: nat, p2: nat, l: Location, p: LocationPair)
    requires p1 <= |text| && Terminated(text)
    requires GetLexem(text, p1, LOCATION_PROPERTIES) == Lexed(LValue, p2)
    requires p1 <= p2 <= |text| && GetLexem(text, p2, LOCATION_PROPERTIES) == Lexed(LNewLine, p2 + 1)
    requires Trim(text[p1..p2]) == p.value
    ensures p2 + 1 <= |text|
    ensures var k := LocationNumber(p.key);
            match ApplyLocation(sv, l, p.key, p.value)
            case None => ReadBody(sv, text, p1, SValue, k, l).state == SErr
            case Some(l') => ReadBody(sv, text, p1, SValue, k, l) == ReadBody(sv, text, p2 + 1, SKey, k, l')
  {
    var k := LocationNumber(p.key);
    LocationSetter(sv, p.key, text[p1..p2], p.value, l);
    BodyNewLine(sv, text, p2, k, l, p2 + 1);
    BodyValue(sv, text, p1, k, l, p2);
    var l' := ApplyLocation(sv, l, p.key, p.value);
    if l'.Some? {
      BodyNewLine(sv, text, p2, k, l'.value, p2 + 1);
    }
  }

  /** One printed pair sets what it says, or fails the block. */
  lemma BodyPair(sv: Server, text: string, pos: nat, number: int, l: Location, pad: string, p: LocationPair)
    requires pos <= |text| && Terminated(text) && Pad(pad) && CleanValue(p.value)
    requires Here(text, pos, PairLine(pad, LocationKeyName(p.key), p.value))
    ensures var k := LocationNumber(p.key);
            var next := pos + |PairLine(pad, LocationKeyName(p.key), p.value)|;
            && next <= |text|
            && match ApplyLocation(sv, l, p.key, p.value)
               case None => ReadBody(sv, text, pos, SKey, number, l).state == SErr
               case Some(l') =>
                 ReadBody(sv, text, pos, SKey, number, l) == ReadBody(sv, text, next, SKey, k, l')
  {
    hide Here, GetLexem, ReadBody, PairLine, CleanValue, ApplyLocation, Trim, PropertyName, IndexIn, LocationNumber;
    var p1, p2 := PairRead(text, pos, pad, p);
    BodyKey(sv, text, pos, number, l, p1);
    BodyPairValue(sv, text, p1, p2, l, p);
  }

  /** The printed pairs of a location, and the brace behind them, are read as they are meant. */
  lemma {:induction false} BodyPairs(sv: Server, text: string, pos: nat, number: int, l: Location, pad: string,
                                    pairs: seq<LocationPair>)
    requires pos <= |text| && Terminated(text) && Pad(pad)
    requires CleanPairs(pairs)
    requires Here(text, pos, PrintPairs(pad, pairs)) && Here(text, pos + |PrintPairs(pad, pairs)|, CloseLine(pad))
    ensures var body := ReadBody(sv, text, pos, SKey, number, l);
            match EvalPairs(sv, l, pairs)
            case None => body.state == SErr
            case Some(l') => body == Body(SEnd, l', pos + |PrintPairs(pad, pairs)| + |pad| + 1)
    decreases |pairs|
  {
    hide ReadBody, GetLexem, ApplyLocation, PairLine, Here, CleanValue;
    if pairs == [] {
      LexClose(text, pos, pad, LOCATION_PROPERTIES);
      BodyClose(sv, text, pos, number, l, pos + |pad| + 1);
    } else {
      var k := LocationNumber(pairs[0].key);
      var line := PairLine(pad, LocationKeyName(pairs[0].key), pairs[0].value);
      HereSplit(text, pos, line, PrintPairs(pad, pairs[1..]));
      BodyPair(sv, text, pos, number, l, pad, pairs[0]);
      var l' := ApplyLocation(sv, l, pairs[0].key, pairs[0].value);
      if l'.Some? {
        BodyPairs(sv, text, pos + |line|, k, l'.value, pad, pairs[1..]);
      }
    }
  }

  // ---------- the head of a location ----------

  /** Sign and blank in front of the URL, wherever the cursor stands before the sign. */
  lemma SignRead(text: string, p: nat, kind: Kind, url: string)
    requires Here(text, p, Sign(kind)) && Here(text, p + |Sign(kind)|, " ")
    requires CleanUrl(url) && Here(text, p + |Sign(kind)| + 1, url)
    ensures PrefixStatus(text, p) == Status(kind, p + |Sign(kind)|)
    ensures Span(text, p + |Sign(kind)|, IsSpace) == p + |Sign(kind)| + 1
  {
    var b := p + |Sign(kind)|;
    HereFirst(text, b, " ");
    HereFirst(text, b + 1, url);
    SpanIs(text, b, IsSpace, b + 1);
    if kind != Prefix {
      HereFirst(text, p, Sign(kind));
    }
    if kind == Preferential {
      assert Sign(kind)[1] == '~' && text[p + 1] == Sign(kind)[1];
    }
  }

  lemma UrlRead(text: string, u: nat, url: string)
    requires CleanUrl(url) && Here(text, u, url) && Here(text, u + |url|, " {")
    ensures At(text, u) == '/' && Span(text, u, NotSpace) == u + |url| && text[u..u + |url|] == url
    ensures Span(text, u + |url|, IsSpace) == u + |url| + 1 && At(text, u + |url| + 1) == '{'
  {
    var e := u + |url|;
    HereFirst(text, u, url);
    assert " {" == " " + "{";
    HereSplit(text, e, " ", "{");
    HereFirst(text, e, " ");
    HereFirst(text, e + 1, "{");
    forall k | u <= k < e ensures NotSpace(text[k]) {
      assert text[u + (k - u)] == url[k - u];
    }
    SpanIs(text, u, NotSpace, e);
    HereSlice(text, u, url);
    SpanIs(text, e, IsSpace, e + 1);
  }

  /** Where the parts of a location head stand. */
  lemma HeadHere(text: string, pos: nat, kind: Kind, caseSensitive: bool, url: string)
    requires Here(text, pos, LocationHead(kind, caseSensitive, url))
    ensures var p := pos + |Star(caseSensitive)|; var b := p + |Sign(kind)|; var e := b + 1 + |url|;
            && Here(text, pos, Star(caseSensitive)) && Here(text, p, Sign(kind)) && Here(text, b, " ")
            && Here(text, b + 1, url) && Here(text, e, " {") && Here(text, e + 2, "\n")
            && pos + |LocationHead(kind, caseSensitive, url)| == e + 3
  {
    var p := pos + |Star(caseSensitive)|;
    var b := p + |Sign(kind)|;
    HereSplit(text, pos, Star(caseSensitive), Sign(kind) + (" " + (url + (" {" + "\n"))));
    HereSplit(text, p, Sign(kind), " " + (url + (" {" + "\n")));
    HereSplit(text, b, " ", url + (" {" + "\n"));
    HereSplit(text, b + 1, url, " {" + "\n");
    HereSplit(text, b + 1 + |url|, " {", "\n");
  }

  lemma PrintedHead(text: string, pos: nat, kind: Kind, caseSensitive: bool, url: string) returns (brace: nat)
    requires Terminated(text) && CleanUrl(url) && Here(text, pos, LocationHead(kind, caseSensitive, url))
    ensures brace + 2 == pos + |LocationHead(kind, caseSensitive, url)| && brace < |text|
    ensures ReadHead(text, pos) == Head(kind, caseSensitive, url, brace) && Here(text, brace + 1, "\n")
  {
    hide Here, CleanUrl, Sign, PrefixStatus, Span, LocationHead, Terminated, ReadHead;
    HeadHere(text, pos, kind, caseSensitive, url);
    var p := pos + |Star(caseSensitive)|;
    var u := p + |Sign(kind)| + 1;
    SignRead(text, p, kind, url);
    UrlRead(text, u, url);
    StarRead(text, pos, kind, caseSensitive, u);
    brace := u + |url| + 1;
    if caseSensitive && kind == Prefix {
      HeadIs(text, pos, kind, caseSensitive, u, u, u, u + |url|);
    } else {
      HeadIs(text, pos, kind, caseSensitive, pos, p + |Sign(kind)|, u, u + |url|);
    }
  }

  lemma HeadIs(text: string, pos: nat, kind: Kind, caseSensitive: bool, p: nat, q: nat, u: nat, e: nat)
    requires Terminated(text) && pos <= |text| && p <= |text| && q <= |text| && u <= e < |text|
    requires Span(text, pos, IsSpace) == p && (At(text, p) == '*') == !caseSensitive
    requires PrefixStatus(text, if caseSensitive then p else p + 1) == Status(kind, q)
    requires Span(text, q, IsSpace) == u && Span(text, u, NotSpace) == e && Span(text, e, IsSpace) == e + 1
    requires At(text, u) == '/' && At(text, e + 1) == '{'
    ensures ReadHead(text, pos) == Head(kind, caseSensitive, text[u..e], e + 1)
  {
    hide PrefixStatus, Span;
  }

  /** The optional star, and the white space before it. */
  lemma StarRead(text: string, pos: nat, kind: Kind, caseSensitive: bool, u: nat)
    requires Here(text, pos, Star(caseSensitive)) && Here(text, pos + |Star(caseSensitive)|, Sign(kind))
    requires u == pos + |Star(caseSensitive)| + |Sign(kind)| + 1 && Here(text, u - 1, " ") && At(text, u) == '/'
    ensures var p := Span(text, pos, IsSpace);
            && (At(text, p) == '*') == !caseSensitive
            && if caseSensitive && kind == Prefix then p == u else p == pos
    ensures Span(text, u, IsSpace) == u && PrefixStatus(text, u) == Status(Prefix, u)
  {
    HereFirst(text, u - 1, " ");
    SpanIs(text, u, IsSpace, u);
    if !caseSensitive {
      HereFirst(text, pos, "*");
      SpanIs(text, pos, IsSpace, pos);
    } else if kind == Prefix {
      SpanIs(text, pos, IsSpace, u);
    } else {
      HereFirst(text, pos, Sign(kind));
      SpanIs(text, pos, IsSpace, pos);
    }
  }

  /** The rest of a printed location block, from the line feed behind its brace on. */
  lemma PrintedBody(sv: Server, text: string, pos: nat, l: Location, pad: string, pairs: seq<LocationPair>)
    requires Terminated(text) && Pad(pad) && Here(text, pos, "\n")
    requires CleanPairs(pairs)
    requires Here(text, pos + 1, PrintPairs(pad, pairs) + CloseLine(pad))
    ensures pos <= |text|
    ensures var body := ReadBody(sv, text, pos, SKey, -1, l);
            match EvalPairs(sv, l, pairs)
            case None => body.state == SErr
            case Some(l') => body == Body(SEnd, l', pos + 1 + |PrintPairs(pad, pairs)| + |pad| + 1)
  {
    hide Here, ReadBody, GetLexem, CleanPairs, PrintPairs, CloseLine;
    HereSplit(text, pos + 1, PrintPairs(pad, pairs), CloseLine(pad));
    HereFirst(text, pos, "\n");
    LexNewLine(text, pos, LOCATION_PROPERTIES);
    BodyNewLine(sv, text, pos, -1, l, pos + 1);
    BodyPairs(sv, text, pos + 1, -1, l, pad, pairs);
  }

  /** A printed location block is read as it is meant, or fails without a trace. */
  lemma PrintedLocation(sv: Server, text: string, pos: nat, pad: string, kind: Kind, caseSensitive: bool, url: string,
                        pairs: seq<LocationPair>)
    returns (end: nat)
    requires pos <= |text| && Terminated(text) && Pad(pad) && CleanUrl(url)
    requires CleanPairs(pairs)
    requires Here(text, pos, LocationHead(kind, caseSensitive, url) + (PrintPairs(pad, pairs) + CloseLine(pad)))
    ensures end == pos + |LocationHead(kind, caseSensitive, url)| + |PrintPairs(pad, pairs)| + |pad| + 1
    ensures match EvalLocation(sv, kind, caseSensitive, url, pairs)
            case None => ReadLocation(sv, text, pos).lexeme == Some(LErr) && ReadLocation(sv, text, pos).sv == sv
            case Some(sv') => ReadLocation(sv, text, pos) == Block(sv', Some(LEndLocation), end)
  {
    hide Here, ReadBody, ReadHead, EvalPairs, PrintPairs, LocationHead, CloseLine, CleanUrl, CleanPairs;
    HereSplit(text, pos, LocationHead(kind, caseSensitive, url), PrintPairs(pad, pairs) + CloseLine(pad));
    var brace := PrintedHead(text, pos, kind, caseSensitive, url);
    PrintedBody(sv, text, brace + 1, FreshLocation(sv, caseSensitive, url), pad, pairs);
    end := brace + 2 + |PrintPairs(pad, pairs)| + |pad| + 1;
  }
}
