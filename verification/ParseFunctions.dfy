/** The parsing routines themselves: loops over the text that change the settings in place. Each is proved
    to do what its counterpart in `ConfigParser` says. No index past the end of the text is read. */
module ParseFunctions {
  import opened Text
  import opened UpstreamSettings
  import opened ServerSettings
  import opened MainServerSettings
  import opened ConfigLexer
  import opened ConfigParser

  method GetPrefixStatus(text: string, pos: nat) returns (kind: Kind, next: nat)
    requires pos <= |text|
    ensures PrefixStatus(text, pos) == Status(kind, next)
  {
    if At(text, pos) == '=' {
      return Exact, pos + 1;
    } else if At(text, pos) == '^' && At(text, pos + 1) == '~' {
      return Preferential, pos + 2;
    } else if At(text, pos) == '~' {
      return Regex, pos + 1;
    } else {
      return Prefix, pos;
    }
  }

  /** The white space at the end of the text is what stops the loop. */
  method GetUrl(text: string, pos: nat) returns (ok: bool, url: string, next: nat)
    requires pos <= |text| && Terminated(text)
    ensures ok <==> At(text, pos) == '/'
    ensures ok ==> next == Span(text, pos, NotSpace) < |text| && url == text[pos..next]
    ensures !ok ==> next == pos
  {
    if At(text, pos) != '/' {
      return false, "", pos;
    }
    next := pos;
    while !IsSpace(text[next]) && text[next] != ' '
      invariant pos <= next < |text|
      invariant Span(text, pos, NotSpace) == Span(text, next, NotSpace)
      decreases |text| - next
    {
      next := next + 1;
    }
    return true, text[pos..next], next;
  }

  method SetUpstreamSettings(text: string, pos: nat, name: string)
    returns (value: int, next: nat, thrown: bool)
    requires pos <= |text|
    ensures ReadSetting(text, pos, name) == if thrown then SettingThrows else Setting(value, next)
  {
    value, next, thrown := -1, pos, false;
    if Here(text, pos, name) {
      next := SkipWhile(text, pos + |name|, IsSpaceChar);
      if At(text, next) != '=' {
        return -1, next, false;
      }
      next := SkipWhile(text, next + 1, IsSpaceChar);
      var before := next;
      next := SkipWhile(text, next, IsDigit);
      var number := Stoi(text[before..next]);
      if number == None {
        return -1, next, true;
      }
      value := number.value;
      next := SkipWhile(text, next, IsSpaceChar);
    }
    next := SkipWhile(text, next, IsSpace);
  }

  method GetSettings(text: string, pos: nat) returns (settings: Settings)
    requires pos <= |text|
    ensures settings == ReadSettings(text, pos)
  {
    var weight, next, thrown := SetUpstreamSettings(text, pos, "weight");
    if thrown {
      return SettingsThrow;
    }
    if weight == -1 {
      weight := 1;
    }
    var port;
    port, next, thrown := SetUpstreamSettings(text, next, "port");
    if thrown {
      return SettingsThrow;
    }
    if port == -1 {
      port := 80;
    }
    if At(text, next) != ';' {
      return BadSettings(next);
    }
    return Settings(weight, port, next);
  }

  /** One pass of the loop of `parse_upstreams` up to `add_upstream`. */
  method GetEntry(text: string, pos: nat) returns (entry: Entry)
    requires pos < |text|
    ensures entry == ReadEntry(text, pos)
  {
    var end := SkipWhile(text, pos, NotBlankOrSemicolon);
    var next := SkipWhile(text, end, IsSpaceChar);
    var settings := GetSettings(text, next);
    match settings {
      case SettingsThrow => return EntryThrows;
      case BadSettings(p) => return BadEntry(p);
      case Settings(weight, port, semicolon) =>
        next := SkipWhile(text, semicolon + 1, IsSpace);
        return Entry(text[pos..end], weight, port, next);
    }
  }

  /** The whole pass; an exception of `add_upstream` is reported like one of `stoi`. */
  method TakeEntry(server: ServerSettings, text: string, pos: nat) returns (entry: Entry)
    requires pos < |text| && text[pos] != '}'
    modifies server
    ensures entry.Entry? ==> pos < entry.pos <= |text|
    ensures ReadEntries(old(server.View()), text, pos) ==
            match entry
            case EntryThrows => Block(server.View(), None, pos)
            case BadEntry(next) => Block(server.View(), Some(LErr), next)
            case Entry(_, _, _, next) => ReadEntries(server.View(), text, next)
  {
    entry := GetEntry(text, pos);
    if entry.Entry? {
      var ok := server.AddUpstream(entry.address, entry.weight, entry.port);
      if !ok {
        return EntryThrows;
      }
    }
  }

  method ParseUpstreams(server: ServerSettings, text: string, pos: nat)
    returns (lexeme: Option<Lexeme>, next: nat)
    requires pos <= |text|
    modifies server
    ensures ReadUpstreams(old(server.View()), text, pos) == Block(server.View(), lexeme, next)
  {
    hide ReadEntries;
    next := SkipWhile(text, pos, IsSpace);
    if At(text, next) != '{' {
      return Some(LErr), next;
    }
    next := SkipWhile(text, next + 1, IsSpace);
    lexeme, next := ParseEntries(server, text, next);
  }

  /** The loop of `parse_upstreams`. */
  method ParseEntries(server: ServerSettings, text: string, pos: nat)
    returns (lexeme: Option<Lexeme>, next: nat)
    requires pos <= |text|
    modifies server
    ensures ReadEntries(old(server.View()), text, pos) == Block(server.View(), lexeme, next)
  {
    next := pos;
    while next < |text| && text[next] != '}'
      invariant next <= |text|
      invariant ReadEntries(old(server.View()), text, pos) == ReadEntries(server.View(), text, next)
      decreases |text| - next
    {
      var entry := TakeEntry(server, text, next);
      match entry {
        case EntryThrows => return None, next;
        case BadEntry(p) => return Some(LErr), p;
        case Entry(_, _, _, p) => next := p;
      }
    }
    return Some(if At(text, next) == '}' then LEndUpstream else LErr), next + 1;
  }

  /** The loop of `parse_location` over the key-value pairs. */
  method ParseBody(server: ServerSettings, text: string, pos: nat, location: Location) returns (body: Body)
    requires pos <= |text| && Terminated(text)
    ensures body == ReadBody(server.View(), text, pos, SKey, -1, location)
  {
    ListsAreKeywords();
    var next: nat := pos;
    var state, number, l := SKey, -1, location;
    while Running(state)
      invariant next <= |text| && state in {SKey, SValue, SErr, SEnd}
      invariant ReadBody(server.View(), text, pos, SKey, -1, location) ==
                if Running(state) then ReadBody(server.View(), text, next, state, number, l)
                else Body(state, l, next)
      decreases Running(state), |text| - next
    {
      var before := next;
      var lexeme;
      LexemAdvances(text, next, LOCATION_PROPERTIES);
      lexeme, next := NextLexem(text, next, LOCATION_PROPERTIES);
      if lexeme == LNewLine && state == SKey {
        continue;
      } else if lexeme == LKey && state == SKey {
        state := SValue;
        number := GetNumber(LOCATION_PROPERTIES, text[before..next]);
      } else if lexeme == LValue && state == SValue {
        var ok, changed := server.SetLocationProperty(number, text[before..next], l);
        if ok {
          l := changed;
          state := SKey;
        } else {
          state := SErr;
        }
      } else if state == SKey && lexeme == LBraceClose {
        state := SEnd;
      } else {
        state := SErr;
      }
    }
    return Body(state, l, next);
  }

  /** The part of `parse_location` before the body. */
  method GetHead(text: string, pos: nat) returns (head: Head)
    requires pos <= |text| && Terminated(text)
    ensures head == ReadHead(text, pos)
  {
    var next := SkipWhile(text, pos, IsSpace);
    var caseSensitive := true;
    if At(text, next) == '*' {
      caseSensitive := false;
      next := next + 1;
    }
    var kind, ok, url;
    kind, next := GetPrefixStatus(text, next);
    next := SkipWhile(text, next, IsSpace);
    ok, url, next := GetUrl(text, next);
    if !ok {
      return BadHead(next);
    }
    next := SkipWhile(text, next, IsSpace);
    if At(text, next) != '{' {
      return BadHead(next + 1);
    }
    return Head(kind, caseSensitive, url, next);
  }

  method ParseLocation(server: ServerSettings, text: string, pos: nat) returns (lexeme: Lexeme, next: nat)
    requires pos <= |text| && Terminated(text)
    modifies server
    ensures ReadLocation(old(server.View()), text, pos) == Block(server.View(), Some(lexeme), next)
  {
    hide ReadHead, ReadBody;
    var head := GetHead(text, pos);
    if head.BadHead? {
      return LErr, head.pos;
    }
    var location := Location(head.url, if server.isRoot then server.root else NO_ROOT, [],
                             head.caseSensitive, None, None, false);
    var body := ParseBody(server, text, head.brace + 1, location);
    if body.location.root == NO_ROOT {
      return LErr, body.pos;
    }
    if body.state == SEnd {
      server.AddLocation(head.kind, body.location);
      return LEndLocation, body.pos;
    } else {
      return LErr, body.pos;
    }
  }

  /** The body of the main loop behind `get_lexem`: the new values of its variables, and an outcome if the
      loop is left by an exception. */
  method TakeTurn(main: MainServerSettings, text: string, before: nat, state: State, inServer: bool, number: int,
                  lexeme: Lexeme, pos: nat)
    returns (state': State, inServer': bool, number': int, pos': nat, left: Option<Outcome>)
    requires before <= |text| && Terminated(text) && Running(state)
    requires lexeme != LErr ==> before < pos <= |text|
    modifies main, main.server
    ensures TurnOn(text, Config(old(main.View()), before, state, inServer, number), Lexed(lexeme, pos)) ==
            if left == None then Next(Config(main.View(), pos', state', inServer', number'))
            else Leave(main.View(), left.value)
  {
    state', inServer', number', pos', left := state, inServer, number, pos, None;
    if Stages(state, lexeme) == SErr {
      state' := SErr;
      return;
    }
    var seen := lexeme;
    if lexeme == LKey {
      number' := GetNumber(Names(inServer), text[before..pos]);
      if number' == -1 {
        state' := SErr;
        return;
      }
    } else if lexeme == LValue {
      var ok;
      if inServer {
        ok := main.server.SetProperty(number, text[before..pos]);
      } else {
        ok := main.SetProperty(number, text[before..pos]);
      }
      if !ok {
        left := Some(Stopped);
        return;
      }
    } else if lexeme == LServerStart && Stages(state, lexeme) == SServerStart {
      if inServer {
        state' := SErr;
        return;
      }
      inServer' := true;
    } else if lexeme == LBraceClose && inServer {
      inServer' := false;
      seen := LServerEnd;
    } else if lexeme == LLocation {
      if !inServer {
        state' := SErr;
        return;
      }
      state' := SLocation;
      seen, pos' := ParseLocation(main.server, text, pos);
    } else if lexeme == LUpstream && Stages(state, lexeme) != SErr {
      state' := Stages(state, lexeme);
      var read;
      read, pos' := ParseUpstreams(main.server, text, pos);
      if read == None {
        left := Some(Threw);
        return;
      }
      seen := read.value;
    }
    state' := Stages(state', seen);
  }

  /** `parse_config` behind the reading of the file. */
  method ParseConfig(main: MainServerSettings, text: string) returns (outcome: Outcome)
    requires Terminated(text)
    modifies main, main.server
    ensures ParseText(old(main.View()), text) == Parsed(main.View(), outcome)
  {
    ListsAreKeywords();
    var pos: nat, state, number, inServer := 0, SStart, -1, false;
    while Running(state)
      invariant state != SErr ==> pos <= |text|
      invariant ParseText(old(main.View()), text) == Run(text, Config(main.View(), pos, state, inServer, number))
      decreases Running(state), |text| - pos
    {
      LexemAdvances(text, pos, Names(inServer));
      var lexeme, next := NextLexem(text, pos, Names(inServer));
      ghost var c := Config(main.View(), pos, state, inServer, number);
      assert TurnAt(text, c) == TurnOn(text, c, Lexed(lexeme, next));
      var left;
      state, inServer, number, pos, left := TakeTurn(main, text, pos, state, inServer, number, lexeme, next);
      if left != None {
        return left.value;
      }
    }
    return if state == SErr then Invalid else Finished;
  }
}
