/** The table-driven configuration parser and its two sub-parsers, which move one cursor over the text. */
module ConfigParser {
  import opened Text
  import opened UpstreamSettings
  import opened ServerSettings
  import opened MainServerSettings
  import opened ConfigLexer

  datatype State =
    | SStart | SBraceOpen | SKey | SValue | SUpstream | SServerStart | SBraceClose | SLocation | SErr | SEnd

  /** The transition table. */
  function Stages(s: State, l: Lexeme): State {
    match (s, l)
    case (SStart, LProtocol) => SBraceOpen
    case (SStart, LNewLine) => SStart
    case (SBraceOpen, LBraceOpen) => SKey
    case (SBraceOpen, LNewLine) => SBraceOpen
    case (SKey, LBraceClose) => SEnd
    case (SKey, LNewLine) => SKey
    case (SKey, LKey) => SValue
    case (SKey, LServerStart) => SServerStart
    case (SKey, LLocation) => SLocation
    case (SKey, LServerEnd) => SKey
    case (SKey, LUpstream) => SUpstream
    case (SValue, LValue) => SKey
    case (SUpstream, LEndUpstream) => SKey
    case (SServerStart, LBraceOpen) => SKey
    case (SServerStart, LNewLine) => SServerStart
    case (SLocation, LEndLocation) => SKey
    case _ => SErr
  }

  predicate NotSpace(c: char) {
    !IsSpace(c)
  }

  predicate NotBlankOrSemicolon(c: char) {
    c != ' ' && c != ';'
  }

  // ---------- upstreams blocks ----------

  /** What `set_upstream_settings` reads, with -1 for an absent setting, or its `stoi` exception. */
  datatype Setting = Setting(value: int, pos: nat) | SettingThrows

  function ReadSetting(text: string, pos: nat, name: string): (r: Setting)
    requires pos <= |text|
    ensures r.Setting? ==> pos <= r.pos <= |text|
  {
    if Here(text, pos, name) then
      var p := Span(text, pos + |name|, IsSpaceChar);
      if At(text, p) != '=' then Setting(-1, p)
      else
        var q := Span(text, p + 1, IsSpaceChar);
        var e := Span(text, q, IsDigit);
        match Stoi(text[q..e])
        case None => SettingThrows
        case Some(n) => Setting(n, Span(text, Span(text, e, IsSpaceChar), IsSpace))
    else Setting(-1, Span(text, pos, IsSpace))
  }

  /** The two settings of an entry up to its semicolon. */
  datatype Settings = Settings(weight: int, port: int, semicolon: nat) | BadSettings(pos: nat) | SettingsThrow

  function ReadSettings(text: string, pos: nat): (r: Settings)
    requires pos <= |text|
    ensures r.Settings? ==> pos <= r.semicolon < |text|
  {
    var w := ReadSetting(text, pos, "weight");
    if w.SettingThrows? then SettingsThrow
    else
      var p := ReadSetting(text, w.pos, "port");
      if p.SettingThrows? then SettingsThrow
      else if At(text, p.pos) != ';' then BadSettings(p.pos)
      else Settings(if w.value == -1 then 1 else w.value, if p.value == -1 then 80 else p.value, p.pos)
  }

  /** One entry of an upstreams block: read, malformed, or thrown out of. */
  datatype Entry = Entry(address: string, weight: int, port: int, pos: nat) | BadEntry(pos: nat) | EntryThrows

  function ReadEntry(text: string, pos: nat): (r: Entry)
    requires pos <= |text|
    ensures r.Entry? ==> pos < r.pos <= |text|
  {
    var e := Span(text, pos, NotBlankOrSemicolon);
    match ReadSettings(text, Span(text, e, IsSpaceChar))
    case SettingsThrow => EntryThrows
    case BadSettings(p) => BadEntry(p)
    case Settings(weight, port, semicolon) =>
      Entry(text[pos..e], weight, port, Span(text, semicolon + 1, IsSpace))
  }

  /** A block that has been read: the lexeme it stands for, None for an exception nothing catches. */
  datatype Block = Block(sv: Server, lexeme: Option<Lexeme>, pos: nat)

  function ReadEntries(sv: Server, text: string, pos: nat): (r: Block)
    requires pos <= |text|
    ensures r.lexeme == Some(LEndUpstream) ==> pos < r.pos <= |text|
    decreases |text| - pos
  {
    if pos == |text| then Block(sv, Some(LErr), pos + 1)
    else if text[pos] == '}' then Block(sv, Some(LEndUpstream), pos + 1)
    else
      match ReadEntry(text, pos)
      case EntryThrows => Block(sv, None, pos)
      case BadEntry(p) => Block(sv, Some(LErr), p)
      case Entry(address, weight, port, p) =>
        match WithUpstream(sv, address, weight, port)
        case None => Block(sv, None, pos)
        case Some(sv') => ReadEntries(sv', text, p)
  }

  function ReadUpstreams(sv: Server, text: string, pos: nat): (r: Block)
    requires pos <= |text|
    ensures r.lexeme == Some(LEndUpstream) ==> pos < r.pos <= |text|
  {
    var p := Span(text, pos, IsSpace);
    if At(text, p) != '{' then Block(sv, Some(LErr), p)
    else ReadEntries(sv, text, Span(text, p + 1, IsSpace))
  }

  // ---------- location blocks ----------

  datatype Status = Status(kind: Kind, pos: nat)

  function PrefixStatus(text: string, pos: nat): (r: Status)
    requires pos <= |text|
    ensures pos <= r.pos <= |text|
  {
    if At(text, pos) == '=' then Status(Exact, pos + 1)
    else if At(text, pos) == '^' && At(text, pos + 1) == '~' then Status(Preferential, pos + 2)
    else if At(text, pos) == '~' then Status(Regex, pos + 1)
    else Status(Prefix, pos)
  }

  datatype Body = Body(state: State, location: Location, pos: nat)

  /** The key-value pairs of a location block up to its closing brace. */
  function ReadBody(sv: Server, text: string, pos: nat, state: State, number: int, l: Location): (r: Body)
    requires pos <= |text| && Terminated(text)
    ensures pos <= r.pos <= |text| && (r.state == SEnd ==> pos < r.pos)
    decreases |text| - pos
  {
    ListsAreKeywords();
    LexemAdvances(text, pos, LOCATION_PROPERTIES);
    var x := GetLexem(text, pos, LOCATION_PROPERTIES);
    if x.lexeme == LNewLine && state == SKey then ReadBody(sv, text, x.pos, state, number, l)
    else if x.lexeme == LKey && state == SKey then
      ReadBody(sv, text, x.pos, SValue, IndexIn(LOCATION_PROPERTIES, PropertyName(text[pos..x.pos])), l)
    else if x.lexeme == LValue && state == SValue then
      match WithLocationProperty(sv, number, text[pos..x.pos], l)
      case None => Body(SErr, l, x.pos)
      case Some(l') => ReadBody(sv, text, x.pos, SKey, number, l')
    else if x.lexeme == LBraceClose && state == SKey then Body(SEnd, l, x.pos)
    else Body(SErr, l, x.pos)
  }

  /** The root that marks a location for which none was set; no setter can produce it. */
  const NO_ROOT := "\n"

  function FreshLocation(sv: Server, caseSensitive: bool, url: string): Location {
    Location(url, if sv.isRoot then sv.root else NO_ROOT, [], caseSensitive, None, None, false)
  }

  /** What stands before the body of a location: all of it, with the position of the brace, or an error. */
  datatype Head = Head(kind: Kind, caseSensitive: bool, url: string, brace: nat) | BadHead(pos: nat)

  function ReadHead(text: string, pos: nat): (r: Head)
    requires pos <= |text| && Terminated(text)
    ensures r.Head? ==> pos < r.brace < |text|
  {
    var p := Span(text, pos, IsSpace);
    var star := At(text, p) == '*';
    var status := PrefixStatus(text, if star then p + 1 else p);
    var u := Span(text, status.pos, IsSpace);
    var e := Span(text, u, NotSpace);
    var b := Span(text, e, IsSpace);
    if At(text, u) != '/' then BadHead(u)
    else if At(text, b) != '{' then BadHead(b + 1)
    else Head(status.kind, !star, text[u..e], b)
  }

  function ReadLocation(sv: Server, text: string, pos: nat): (r: Block)
    requires pos <= |text| && Terminated(text)
    ensures r.lexeme.Some?
    ensures r.lexeme == Some(LEndLocation) ==> pos < r.pos <= |text|
  {
    match ReadHead(text, pos)
    case BadHead(p) => Block(sv, Some(LErr), p)
    case Head(kind, caseSensitive, url, brace) =>
      var body := ReadBody(sv, text, brace + 1, SKey, -1, FreshLocation(sv, caseSensitive, url));
      if body.location.root == NO_ROOT || body.state != SEnd then Block(sv, Some(LErr), body.pos)
      else Block(sv.Add(kind, body.location), Some(LEndLocation), body.pos)
  }

  // ---------- the main loop ----------

  /** How `parse_config` is left: at the closing brace, by the `break` after a setter exception, by its
      own exception, or by an exception that it does not catch. */
  datatype Outcome = Finished | Stopped | Invalid | Threw

  /** The variables of the main loop. */
  datatype Config = Config(m: Main, pos: nat, state: State, inServer: bool, number: int)

  datatype Turn = Next(config: Config) | Leave(m: Main, outcome: Outcome)

  function Names(inServer: bool): seq<string> {
    if inServer then SERVER_PROPERTIES else MAIN_PROPERTIES
  }

  predicate Running(s: State) {
    s != SErr && s != SEnd
  }

  function Failed(c: Config, pos: nat): Turn {
    Next(c.(pos := pos, state := SErr))
  }

  /** A lexeme that stands for itself or, where a block has been read, for that block. */
  function Move(c: Config, state: State, lexeme: Lexeme, pos: nat): Turn {
    Next(c.(pos := pos, state := Stages(state, lexeme)))
  }

  /** One turn of the loop, on the lexeme that was read. A turn that does not end in an error moves the
      cursor forward and keeps it inside the text. */
  function TurnOn(text: string, c: Config, x: Lexed): (t: Turn)
    requires c.pos <= |text| && Terminated(text) && Running(c.state)
    requires x.lexeme != LErr ==> c.pos < x.pos <= |text|
    ensures t.Next? && t.config.state != SErr ==> c.pos < t.config.pos <= |text|
  {
    if Stages(c.state, x.lexeme) == SErr then Failed(c, x.pos)
    else
      match x.lexeme
      case LKey =>
        var number := IndexIn(Names(c.inServer), PropertyName(text[c.pos..x.pos]));
        if number == -1 then Failed(c.(number := -1), x.pos) else Move(c.(number := number), c.state, LKey, x.pos)
      case LValue =>
        if c.inServer then
          (match WithProperty(c.m.server, c.number, text[c.pos..x.pos])
           case None => Leave(c.m, Stopped)
           case Some(sv) => Move(c.(m := c.m.(server := sv)), c.state, LValue, x.pos))
        else
          (match WithMainProperty(c.m, c.number, text[c.pos..x.pos])
           case None => Leave(c.m, Stopped)
           case Some(m) => Move(c.(m := m), c.state, LValue, x.pos))
      case LServerStart =>
        if c.inServer then Failed(c, x.pos) else Move(c.(inServer := true), c.state, LServerStart, x.pos)
      case LBraceClose =>
        if c.inServer then Move(c.(inServer := false), c.state, LServerEnd, x.pos)
        else Move(c, c.state, LBraceClose, x.pos)
      case LLocation =>
        if !c.inServer then Failed(c, x.pos)
        else
          var b := ReadLocation(c.m.server, text, x.pos);
          Move(c.(m := c.m.(server := b.sv)), SLocation, b.lexeme.value, b.pos)
      case LUpstream =>
        var b := ReadUpstreams(c.m.server, text, x.pos);
        var m := c.m.(server := b.sv);
        if b.lexeme == None then Leave(m, Threw)
        else Move(c.(m := m), SUpstream, b.lexeme.value, b.pos)
      case _ => Move(c, c.state, x.lexeme, x.pos)
  }

  datatype Parsed = Parsed(m: Main, outcome: Outcome)

  function TurnAt(text: string, c: Config): (t: Turn)
    requires Running(c.state) && c.pos <= |text| && Terminated(text)
    ensures t.Next? && t.config.state != SErr ==> c.pos < t.config.pos <= |text|
  {
    ListsAreKeywords();
    LexemAdvances(text, c.pos, Names(c.inServer));
    var x := GetLexem(text, c.pos, Names(c.inServer));
    TurnOn(text, c, x)
  }

  /** The main loop from the given values of its variables on. */
  function Run(text: string, c: Config): Parsed
    requires Terminated(text) && (c.state != SErr ==> c.pos <= |text|)
    decreases if Running(c.state) then |text| + 1 - c.pos else 0
  {
    if c.state == SEnd then Parsed(c.m, Finished)
    else if c.state == SErr then Parsed(c.m, Invalid)
    else
      match TurnAt(text, c)
      case Leave(m, outcome) => Parsed(m, outcome)
      case Next(c') => Run(text, c')
  }

  function Start(m: Main): Config {
    Config(m, 0, SStart, false, -1)
  }

  /** `parse_config` on the text of the configuration file, which is empty if there is no such file. */
  function ParseText(m: Main, text: string): Parsed
    requires Terminated(text)
  {
    Run(text, Start(m))
  }
}
