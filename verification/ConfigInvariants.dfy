/** What every parse leaves true of the stored locations, however it ends. */
module ConfigInvariants {
  import opened Text
  import opened UpstreamSettings
  import opened ServerSettings
  import opened MainServerSettings
  import opened ConfigLexer
  import opened ConfigParser
  import Routing

  /** A location is for a URL that begins with a slash, is a proxy exactly when it has upstreams, and names only
      declared ones. */
  predicate FieldsOk(declared: map<string, Upstream>, l: Location) {
    && |l.url| >= 1 && l.url[0] == '/'
    && (l.isProxy <==> l.upstreams != [])
    && forall i :: 0 <= i < |l.upstreams| ==> l.upstreams[i] in declared
  }

  predicate LocationOk(declared: map<string, Upstream>, l: Location) {
    l.root != NO_ROOT && FieldsOk(declared, l)
  }

  predicate AllOk(declared: map<string, Upstream>, ls: seq<Location>) {
    forall i :: 0 <= i < |ls| ==> LocationOk(declared, ls[i])
  }

  /** The root a server block hands to its locations: none, or one under the statics folder. */
  predicate RootOk(sv: Server) {
    if sv.isRoot then STATICS_FOLDER_PATH <= sv.root else sv.root == ""
  }

  predicate UpstreamsOk(declared: map<string, Upstream>) {
    forall a :: a in declared ==> declared[a].address == a
  }

  predicate ServerOk(sv: Server) {
    && RootOk(sv) && UpstreamsOk(sv.upstreams)
    && AllOk(sv.upstreams, sv.exact) && AllOk(sv.upstreams, sv.preferential)
    && AllOk(sv.upstreams, sv.regex) && AllOk(sv.upstreams, sv.prefix)
  }

  // ---------- setters ----------

  lemma TrimmedStart(value: string)
    ensures Trim(value) == "" || !IsSpace(Trim(value)[0])
  {
    SpanEnds(value, 0, IsSpace);
  }

  lemma PropertyKeepsOk(sv: Server, number: int, value: string)
    requires ServerOk(sv)
    ensures WithProperty(sv, number, value).Some? ==> ServerOk(WithProperty(sv, number, value).value)
  {
  }

  lemma UpstreamKeepsOk(sv: Server, address: string, weight: int, port: int)
    requires ServerOk(sv)
    ensures var r := WithUpstream(sv, address, weight, port);
            r.Some? ==> ServerOk(r.value) && sv.upstreams.Keys <= r.value.upstreams.Keys
  {
  }

  lemma MainPropertyKeepsOk(m: Main, number: int, value: string)
    requires ServerOk(m.server)
    ensures WithMainProperty(m, number, value).Some? ==> ServerOk(WithMainProperty(m, number, value).value.server)
  {
  }

  lemma LocationPropertyKeepsOk(sv: Server, number: int, value: string, l: Location)
    requires RootOk(sv) && FieldsOk(sv.upstreams, l)
    ensures var r := WithLocationProperty(sv, number, value, l);
            r.Some? ==> FieldsOk(sv.upstreams, r.value) && (r.value.root == NO_ROOT ==> l.root == NO_ROOT)
  {
    RootIsSet(sv, value);
  }

  /** No setter can produce the mark of a missing root. */
  lemma RootIsSet(sv: Server, value: string)
    requires RootOk(sv)
    ensures STATICS_FOLDER_PATH + Trim(value) != NO_ROOT && sv.root + Trim(value) != NO_ROOT
  {
    TrimmedStart(value);
    assert NO_ROOT[0] == '\n';
    assert (STATICS_FOLDER_PATH + Trim(value))[0] == 's';
  }

  // ---------- blocks ----------

  lemma {:induction false} EntriesKeepOk(sv: Server, text: string, pos: nat)
    requires pos <= |text| && ServerOk(sv)
    ensures ServerOk(ReadEntries(sv, text, pos).sv)
    decreases |text| - pos
  {
    if pos < |text| && text[pos] != '}' {
      var e := ReadEntry(text, pos);
      if e.Entry? {
        UpstreamKeepsOk(sv, e.address, e.weight, e.port);
        var r := WithUpstream(sv, e.address, e.weight, e.port);
        if r.Some? {
          EntriesKeepOk(r.value, text, e.pos);
        }
      }
    }
  }

  lemma {:induction false} BodyKeepsOk(sv: Server, text: string, pos: nat, state: State, number: int, l: Location)
    requires pos <= |text| && Terminated(text)
    requires RootOk(sv) && FieldsOk(sv.upstreams, l)
    ensures FieldsOk(sv.upstreams, ReadBody(sv, text, pos, state, number, l).location)
    decreases |text| - pos
  {
    ListsAreKeywords();
    LexemAdvances(text, pos, LOCATION_PROPERTIES);
    var x := GetLexem(text, pos, LOCATION_PROPERTIES);
    if x.lexeme == LNewLine && state == SKey {
      BodyKeepsOk(sv, text, x.pos, state, number, l);
    } else if x.lexeme == LKey && state == SKey {
      BodyKeepsOk(sv, text, x.pos, SValue, IndexIn(LOCATION_PROPERTIES, PropertyName(text[pos..x.pos])), l);
    } else if x.lexeme == LValue && state == SValue {
      var value := text[pos..x.pos];
      LocationPropertyKeepsOk(sv, number, value, l);
      var l' := WithLocationProperty(sv, number, value, l);
      if l'.Some? {
        BodyKeepsOk(sv, text, x.pos, SKey, number, l'.value);
      }
    }
  }

  lemma AddKeepsOk(sv: Server, kind: Kind, l: Location)
    requires ServerOk(sv) && LocationOk(sv.upstreams, l)
    ensures ServerOk(sv.Add(kind, l))
  {
  }

  lemma LocationKeepsOk(sv: Server, text: string, pos: nat)
    requires pos <= |text| && Terminated(text) && ServerOk(sv)
    ensures ServerOk(ReadLocation(sv, text, pos).sv)
  {
    var head := ReadHead(text, pos);
    if head.Head? {
      HeadHasSlash(text, pos);
      BodyIsAdded(sv, text, head.brace + 1, head.kind, FreshLocation(sv, head.caseSensitive, head.url));
    }
  }

  lemma HeadHasSlash(text: string, pos: nat)
    requires pos <= |text| && Terminated(text) && ReadHead(text, pos).Head?
    ensures var url := ReadHead(text, pos).url; |url| >= 1 && url[0] == '/'
  {
  }

  lemma BodyIsAdded(sv: Server, text: string, pos: nat, kind: Kind, l: Location)
    requires pos <= |text| && Terminated(text) && ServerOk(sv) && FieldsOk(sv.upstreams, l)
    ensures var body := ReadBody(sv, text, pos, SKey, -1, l);
            body.location.root != NO_ROOT ==> ServerOk(sv.Add(kind, body.location))
  {
    BodyKeepsOk(sv, text, pos, SKey, -1, l);
    var body := ReadBody(sv, text, pos, SKey, -1, l);
    if body.location.root != NO_ROOT {
      AddKeepsOk(sv, kind, body.location);
    }
  }

  // ---------- whole parses ----------

  function MainOf(t: Turn): Main {
    match t
    case Next(c) => c.m
    case Leave(m, _) => m
  }

  lemma TurnKeepsOk(text: string, c: Config, x: Lexed)
    requires c.pos <= |text| && Terminated(text) && Running(c.state)
    requires x.lexeme != LErr ==> c.pos < x.pos <= |text|
    requires ServerOk(c.m.server)
    ensures ServerOk(MainOf(TurnOn(text, c, x)).server)
  {
    if x.lexeme == LValue {
      PropertyKeepsOk(c.m.server, c.number, text[c.pos..x.pos]);
      MainPropertyKeepsOk(c.m, c.number, text[c.pos..x.pos]);
    } else if x.lexeme == LLocation {
      LocationKeepsOk(c.m.server, text, x.pos);
    } else if x.lexeme == LUpstream {
      UpstreamsKeepOk(c.m.server, text, x.pos);
    }
  }

  lemma UpstreamsKeepOk(sv: Server, text: string, pos: nat)
    requires pos <= |text| && ServerOk(sv)
    ensures ServerOk(ReadUpstreams(sv, text, pos).sv)
  {
    var p := Span(text, pos, IsSpace);
    if At(text, p) == '{' {
      EntriesKeepOk(sv, text, Span(text, p + 1, IsSpace));
    }
  }

  lemma {:induction false} RunKeepsOk(text: string, c: Config)
    requires Terminated(text) && (c.state != SErr ==> c.pos <= |text|)
    requires ServerOk(c.m.server)
    ensures ServerOk(Run(text, c).m.server)
    decreases if Running(c.state) then |text| + 1 - c.pos else 0
  {
    if Running(c.state) {
      ListsAreKeywords();
      LexemAdvances(text, c.pos, Names(c.inServer));
      TurnKeepsOk(text, c, GetLexem(text, c.pos, Names(c.inServer)));
      var turn := TurnAt(text, c);
      if turn.Next? {
        RunKeepsOk(text, turn.config);
      }
    }
  }

  /** Every parse, finished, stopped, failed or thrown out of, leaves only well-formed locations behind. */
  lemma ParsedLocationsOk(text: string)
    requires Terminated(text)
    ensures ServerOk(ParseText(NEW_MAIN, text).m.server)
  {
    RunKeepsOk(text, Start(NEW_MAIN));
  }

  /** A request routed to a proxying location finds a first upstream there, and that one is configured. */
  lemma ProxyHasUpstream(rx: RegexEngine, sv: Server, url: string)
    requires ServerOk(sv) && Route(rx, sv, url).Found?
    ensures var r := Route(rx, sv, url);
            && r.index < |sv.Of(r.kind)|
            && var l := sv.Of(r.kind)[r.index];
            l.root != NO_ROOT && (l.isProxy ==> l.upstreams != [] && l.upstreams[0] in sv.upstreams)
  {
  }
}
