/** How `parse_upstreams` reads the blocks that `ConfigPrinter` writes. */
module ConfigUpstreams {
  import opened Text
  import opened UpstreamSettings
  import opened ServerSettings
  import opened ConfigLexer
  import opened ConfigParser
  import opened ConfigPrinter

  /** The settings loops stop at `pos`: no blank, no white space, no digit stands there. */
  predicate StopsAt(text: string, pos: nat) {
    pos < |text| && !IsSpace(text[pos]) && !IsDigit(text[pos])
  }

  lemma StoppedSpans(text: string, pos: nat)
    requires StopsAt(text, pos)
    ensures Span(text, pos, IsSpaceChar) == pos && Span(text, pos, IsSpace) == pos
  {
  }

  /** One blank in front of a stop is all there is to skip. */
  lemma BlankSpans(text: string, pos: nat)
    requires Here(text, pos, " ") && StopsAt(text, pos + 1)
    ensures Span(text, pos, IsSpaceChar) == pos + 1
    ensures pos < |text| && !IsDigit(text[pos])
  {
    HereFirst(text, pos, " ");
    SpanIs(text, pos, IsSpaceChar, pos + 1);
  }

  /** The place where the next setting, or the semicolon, is looked for. */
  predicate Gap(text: string, pos: nat, stop: nat) {
    && StopsAt(text, stop)
    && (stop == pos || (stop == pos + 1 && Here(text, pos, " ")))
  }

  lemma GapSpans(text: string, pos: nat, stop: nat)
    requires Gap(text, pos, stop)
    ensures Span(text, pos, IsSpaceChar) == stop && Span(text, stop, IsSpace) == stop
    ensures pos < |text| && !IsDigit(text[pos])
  {
    StoppedSpans(text, stop);
    if stop == pos + 1 {
      BlankSpans(text, pos);
    }
  }

  /** A printed setting: the cursor is moved to the stop behind it. */
  lemma ReadPrinted(text: string, pos: nat, name: string, v: nat, stop: nat)
    requires Here(text, pos, name) && Here(text, pos + |name|, "=") && Here(text, pos + |name| + 1, Dec(v))
    requires Gap(text, pos + |name| + 1 + |Dec(v)|, stop)
    ensures ReadSetting(text, pos, name) == if v > INT_MAX then SettingThrows else Setting(v, stop)
  {
    hide Stoi, Here, Gap;
    var d := pos + |name| + 1;
    HereFirst(text, d - 1, "=");
    HereFirst(text, d, Dec(v));
    GapSpans(text, d + |Dec(v)|, stop);
    DigitsHere(text, d, Dec(v));
    StoiDigits(Dec(v));
  }

  predicate OnlyBlanks(s: string) {
    forall i :: 0 <= i < |s| ==> s[i] == ' '
  }

  lemma OverBlanks(text: string, pos: nat, blanks: string)
    requires OnlyBlanks(blanks) && Here(text, pos, blanks)
    requires pos + |blanks| < |text| ==> text[pos + |blanks|] != ' '
    ensures Span(text, pos, IsSpaceChar) == pos + |blanks|
  {
    forall k | pos <= k < pos + |blanks| ensures IsSpaceChar(text[k]) {
      assert text[pos + (k - pos)] == blanks[k - pos];
    }
    SpanIs(text, pos, IsSpaceChar, pos + |blanks|);
  }

  /** A setting may have blanks around its equals sign, and any digits. */
  lemma SettingReads(text: string, pos: nat, name: string, before: string, after: string, ds: string)
    requires OnlyBlanks(before) && OnlyBlanks(after) && AllDigits(ds) && ds != ""
    requires Here(text, pos, name + (before + ("=" + (after + ds))))
    requires var e := pos + |name| + |before| + 1 + |after| + |ds|; e < |text| ==> !IsDigit(text[e])
    ensures var e := pos + |name| + |before| + 1 + |after| + |ds|;
            && e <= |text|
            && ReadSetting(text, pos, name)
               == if Value(ds) > 2147483647 then SettingThrows
                  else Setting(Value(ds), Span(text, Span(text, e, IsSpaceChar), IsSpace))
  {
    hide Stoi, Here, Span, Value;
    SettingStands(text, pos, name, before, after, ds);
    StoiDigits(ds);
  }

  /** Where the loops of a setting stop. */
  lemma SettingStands(text: string, pos: nat, name: string, before: string, after: string, ds: string)
    requires OnlyBlanks(before) && OnlyBlanks(after) && AllDigits(ds) && ds != ""
    requires Here(text, pos, name + (before + ("=" + (after + ds))))
    requires var e := pos + |name| + |before| + 1 + |after| + |ds|; e < |text| ==> !IsDigit(text[e])
    ensures var p := pos + |name| + |before|;
            var d := p + 1 + |after|;
            && Here(text, pos, name) && d + |ds| <= |text| && text[p] == '='
            && Span(text, pos + |name|, IsSpaceChar) == p && Span(text, p + 1, IsSpaceChar) == d
            && Span(text, d, IsDigit) == d + |ds| && text[d..d + |ds|] == ds
  {
    hide Here, Span, AllDigits, OnlyBlanks;
    HereSplit(text, pos, name, before + ("=" + (after + ds)));
    var b := pos + |name|;
    HereSplit(text, b, before, "=" + (after + ds));
    var q := b + |before|;
    HereSplit(text, q, "=", after + ds);
    HereSplit(text, q + 1, after, ds);
    HereFirst(text, q, "=");
    OverBlanks(text, b, before);
    DigitsHere(text, q + 1 + |after|, ds);
    OverBlanks(text, q + 1, after);
  }

  lemma ReadAbsent(text: string, pos: nat, name: string)
    requires StopsAt(text, pos) && name != "" && text[pos] != name[0]
    ensures ReadSetting(text, pos, name) == Setting(-1, pos)
  {
    StoppedSpans(text, pos);
    assert name[0] != text[pos + 0];
  }

  /** A printed line behind its address. */
  function PrintedTail(line: UpstreamLine): string {
    PrintSetting("weight", line.weight) + (PrintSetting("port", line.port) + (";" + "\n"))
  }

  /** Where the settings of a printed line stand: `k0` for the weight, `k1` for the port, `end` for the
      semicolon, each behind the blank that may lead to it. */
  lemma SettingsHere(text: string, e: nat, line: UpstreamLine) returns (k0: nat, k1: nat, end: nat)
    requires Here(text, e, PrintedTail(line))
    ensures Gap(text, e, k0) && k1 < |text| && end < |text|
    ensures end == e + |PrintSetting("weight", line.weight)| + |PrintSetting("port", line.port)|
    ensures ReadSetting(text, k0, "weight") == Expected(line.weight, k1)
    ensures ReadSetting(text, k1, "port") == Expected(line.port, end)
    ensures Here(text, end, ";") && Here(text, end + 1, "\n")
  {
    hide Here, ReadSetting, Expected, PrintSetting, Gap;
    var end1 := e + |PrintSetting("weight", line.weight)|;
    HereSplit(text, e, PrintSetting("weight", line.weight), PrintSetting("port", line.port) + (";" + "\n"));
    HereSplit(text, end1, PrintSetting("port", line.port), ";" + "\n");
    end := end1 + |PrintSetting("port", line.port)|;
    HereSplit(text, end, ";", "\n");
    HereFirst(text, end, ";");
    NoGap(text, end);
    k1 := PrintedSetting(text, end1, "port", line.port, end);
    k0 := PrintedSetting(text, e, "weight", line.weight, k1);
  }

  lemma NoGap(text: string, pos: nat)
    requires pos < |text| && text[pos] == ';'
    ensures Gap(text, pos, pos)
  {
  }

  /** What reading a setting that was printed, or left out, is to yield. */
  function Expected(n: Option<nat>, stop: nat): Setting {
    match n
    case None => Setting(-1, stop)
    case Some(v) => if v > INT_MAX then SettingThrows else Setting(v, stop)
  }

  lemma PrintedSetting(text: string, pos: nat, name: string, n: Option<nat>, stop: nat) returns (k: nat)
    requires name in {"weight", "port"} && Here(text, pos, PrintSetting(name, n))
    requires Gap(text, pos + |PrintSetting(name, n)|, stop)
    requires n == None ==> text[stop] != name[0]
    ensures k < |text| && Gap(text, pos, k) && (n.Some? ==> text[k] == name[0]) && (n == None ==> k == stop)
    ensures ReadSetting(text, k, name) == Expected(n, stop)
  {
    if n == None {
      k := stop;
      ReadAbsent(text, k, name);
    } else {
      var v := n.value;
      HereSplit(text, pos, " ", name + ("=" + Dec(v)));
      HereSplit(text, pos + 1, name, "=" + Dec(v));
      HereSplit(text, pos + 1 + |name|, "=", Dec(v));
      k := pos + 1;
      HereFirst(text, k, name);
      ReadPrinted(text, k, name, v, stop);
    }
  }

  lemma AddressRead(text: string, pos: nat, address: string)
    requires CleanAddress(address) && Here(text, pos, address)
    requires pos + |address| < |text| && !NotBlankOrSemicolon(text[pos + |address|])
    ensures Span(text, pos, NotBlankOrSemicolon) == pos + |address|
    ensures text[pos..pos + |address|] == address
  {
    var e := pos + |address|;
    forall i | pos <= i < e ensures NotBlankOrSemicolon(text[i]) {
      assert text[pos + (i - pos)] == address[i - pos];
    }
    SpanIs(text, pos, NotBlankOrSemicolon, e);
    HereSlice(text, pos, address);
  }

  /** From a line feed to what stands behind the indentation of the next line. */
  lemma NextLine(text: string, pos: nat, line: nat, pad: string, next: nat)
    requires line == pos + 1 && next == line + |pad|
    requires Pad(pad) && Here(text, pos, "\n") && Here(text, line, pad)
    requires next < |text| && !IsSpace(text[next])
    ensures Span(text, pos, IsSpace) == next
  {
    HereFirst(text, pos, "\n");
    forall i | line <= i < next ensures IsSpace(text[i]) {
      assert text[line + (i - line)] == pad[i - line];
    }
    SpanIs(text, pos, IsSpace, next);
  }

  /** What an entry that was printed, and stands in front of the next line, is to be read as. */
  function ExpectedEntry(line: UpstreamLine, next: nat): Entry {
    var weight := if line.weight == None then 1 else line.weight.value;
    var port := if line.port == None then 80 else line.port.value;
    if weight > INT_MAX || port > INT_MAX then EntryThrows else Entry(line.address, weight, port, next)
  }

  /** The settings of a printed line. */
  function ExpectedSettings(line: UpstreamLine, semicolon: nat): Settings {
    var weight := if line.weight == None then 1 else line.weight.value;
    var port := if line.port == None then 80 else line.port.value;
    if weight > INT_MAX || port > INT_MAX then SettingsThrow else Settings(weight, port, semicolon)
  }

  lemma PrintedSettings(text: string, e: nat, line: UpstreamLine) returns (k0: nat, end: nat)
    requires Here(text, e, PrintedTail(line))
    ensures e < |text| && Span(text, e, IsSpaceChar) == k0 && !NotBlankOrSemicolon(text[e])
    ensures end == e + |PrintSetting("weight", line.weight)| + |PrintSetting("port", line.port)| < |text|
    ensures ReadSettings(text, k0) == ExpectedSettings(line, end)
    ensures Here(text, end + 1, "\n")
  {
    hide Here, PrintSetting, ReadSetting, Gap, Span;
    var k1;
    k0, k1, end := SettingsHere(text, e, line);
    HereFirst(text, e, PrintedTail(line));
    TailStart(line);
    GapSpans(text, e, k0);
    HereFirst(text, end, ";");
  }

  /** The three parts of a printed line. */
  lemma EntryHere(text: string, pos: nat, pad: string, line: UpstreamLine) returns (a: nat, e: nat)
    requires Here(text, pos, PrintUpstream(pad, line))
    ensures Here(text, pos, pad) && Here(text, a, line.address) && Here(text, e, PrintedTail(line))
    ensures a == pos + |pad| && e == a + |line.address|
    ensures pos + |PrintUpstream(pad, line)| == e + |PrintedTail(line)|
    ensures |PrintedTail(line)| == |PrintSetting("weight", line.weight)| + |PrintSetting("port", line.port)| + 2
  {
    a := pos + |pad|;
    e := a + |line.address|;
    HereSplit(text, pos, pad, line.address + PrintedTail(line));
    HereSplit(text, a, line.address, PrintedTail(line));
  }

  lemma PrintedEntry(text: string, pos: nat, pad: string, line: UpstreamLine, next: nat) returns (a: nat)
    requires Pad(pad) && CleanAddress(line.address)
    requires Here(text, pos, PrintUpstream(pad, line)) && Here(text, pos + |PrintUpstream(pad, line)|, pad)
    requires next == pos + |PrintUpstream(pad, line)| + |pad| < |text| && !IsSpace(text[next])
    ensures a == pos + |pad| < |text| && Here(text, pos, pad) && !IsSpace(text[a]) && text[a] != '}'
    ensures ReadEntry(text, a) == ExpectedEntry(line, next)
  {
    hide Here, PrintUpstream, PrintedTail, ReadEntry, ReadSettings, ExpectedEntry, ExpectedSettings, Pad, PrintSetting,
      Span;
    var e;
    a, e := EntryHere(text, pos, pad, line);
    var k0, end := PrintedSettings(text, e, line);
    NextLine(text, end + 1, pos + |PrintUpstream(pad, line)|, pad, next);
    HereFirst(text, a, line.address);
    AddressRead(text, a, line.address);
    EntryByParts(text, a, line, e, k0, end, next);
  }

  lemma EntryByParts(text: string, a: nat, line: UpstreamLine, e: nat, k0: nat, end: nat, next: nat)
    requires a <= |text| && Span(text, a, NotBlankOrSemicolon) == e && text[a..e] == line.address
    requires Span(text, e, IsSpaceChar) == k0 && ReadSettings(text, k0) == ExpectedSettings(line, end)
    requires end < |text| && Span(text, end + 1, IsSpace) == next
    ensures ReadEntry(text, a) == ExpectedEntry(line, next)
  {
    hide Span, ReadSettings;
  }

  lemma TailStart(line: UpstreamLine)
    ensures PrintedTail(line) != "" && !NotBlankOrSemicolon(PrintedTail(line)[0])
  {
  }

  /** An entry that is read as expected is added, or thrown out of. */
  lemma EntriesStep(sv: Server, text: string, pos: nat, line: UpstreamLine, next: nat)
    requires pos < |text| && text[pos] != '}' && ReadEntry(text, pos) == ExpectedEntry(line, next)
    ensures var e := EvalUpstreams(sv, [line]);
            if e.left == None then next <= |text| && ReadEntries(sv, text, pos) == ReadEntries(e.settings, text, next)
            else e == Evaluated(sv, Some(Threw)) && ReadEntries(sv, text, pos) == Block(sv, None, pos)
  {
  }

  lemma EvalStep(sv: Server, lines: seq<UpstreamLine>)
    requires lines != []
    ensures var e := EvalUpstreams(sv, [lines[0]]);
            EvalUpstreams(sv, lines) == if e.left == None then EvalUpstreams(e.settings, lines[1..]) else e
  {
  }

  /** How reading a block is to end, given what its lines mean. */
  predicate AsEvaluated(block: Block, e: Evaluated<Server>, end: nat) {
    && block.sv == e.settings
    && (e.left == None ==> block.lexeme == Some(LEndUpstream) && block.pos == end)
    && (e.left != None ==> e.left == Some(Threw) && block.lexeme == None)
  }

  /** The lines of a printed upstreams block, and the brace behind them, are read as they are meant. */
  lemma {:induction false} PrintedEntries(sv: Server, text: string, pos: nat, pad: string, lines: seq<UpstreamLine>)
    returns (a: nat)
    requires Pad(pad) && CleanLines(lines)
    requires Here(text, pos, PrintUpstreams(pad, lines))
    requires Here(text, pos + |PrintUpstreams(pad, lines)|, CloseLine(pad))
    ensures Here(text, pos, pad) && a == pos + |pad| < |text| && !IsSpace(text[a])
    ensures AsEvaluated(ReadEntries(sv, text, a), EvalUpstreams(sv, lines),
                        pos + |PrintUpstreams(pad, lines)| + |pad| + 1)
    decreases |lines|
  {
    hide Here, PrintUpstream, ReadEntries, ReadEntry, ExpectedEntry, CleanAddress, CloseLine;
    if lines == [] {
      a := PrintedClose(sv, text, pos, pad);
    } else {
      var line := PrintUpstream(pad, lines[0]);
      HereSplit(text, pos, line, PrintUpstreams(pad, lines[1..]));
      var next := PrintedEntries(EvalUpstreams(sv, [lines[0]]).settings, text, pos + |line|, pad, lines[1..]);
      a := PrintedEntry(text, pos, pad, lines[0], next);
      EntriesStep(sv, text, a, lines[0], next);
      EvalStep(sv, lines);
    }
  }

  lemma PrintedClose(sv: Server, text: string, pos: nat, pad: string) returns (a: nat)
    requires Here(text, pos, CloseLine(pad))
    ensures Here(text, pos, pad) && a == pos + |pad| < |text| && !IsSpace(text[a])
    ensures ReadEntries(sv, text, a) == Block(sv, Some(LEndUpstream), a + 1)
  {
    HereSplit(text, pos, pad, "}" + "\n");
    HereSplit(text, pos + |pad|, "}", "\n");
    HereFirst(text, pos + |pad|, "}");
    a := pos + |pad|;
  }

  /** A printed upstreams block is read as it is meant, from the brace on. */
  lemma PrintedUpstreams(sv: Server, text: string, pos: nat, pad: string, lines: seq<UpstreamLine>)
    requires Pad(pad) && CleanLines(lines)
    requires Here(text, pos, "{") && Here(text, pos + 1, "\n")
    requires Here(text, pos + 2, PrintUpstreams(pad, lines) + CloseLine(pad))
    ensures pos <= |text|
    ensures AsEvaluated(ReadUpstreams(sv, text, pos), EvalUpstreams(sv, lines),
                        pos + 2 + |PrintUpstreams(pad, lines)| + |pad| + 1)
  {
    hide Here, PrintUpstreams, ReadEntries, ReadUpstreams, CleanLines, CloseLine, AsEvaluated, EvalUpstreams;
    HereFirst(text, pos, "{");
    SpanIs(text, pos, IsSpace, pos);
    HereSplit(text, pos + 2, PrintUpstreams(pad, lines), CloseLine(pad));
    var a := PrintedEntries(sv, text, pos + 2, pad, lines);
    NextLine(text, pos + 1, pos + 2, pad, a);
    BehindBrace(sv, text, pos, a);
  }

  lemma BehindBrace(sv: Server, text: string, pos: nat, a: nat)
    requires pos < |text| && text[pos] == '{' && Span(text, pos, IsSpace) == pos
    requires Span(text, pos + 1, IsSpace) == a
    ensures ReadUpstreams(sv, text, pos) == ReadEntries(sv, text, a)
  {
    hide ReadEntries, Span;
  }
}
