/** What a printed block leaves in the settings, told field by field. */
module ConfigMeaning {
  import opened Text
  import opened UpstreamSettings
  import opened ServerSettings
  import opened ConfigLexer
  import opened ConfigParser
  import opened ConfigPrinter
  import opened ConfigBlocks
  import opened ConfigUpstreams
  import opened ConfigInvariants

  // ---------- upstreams ----------

  /** The settings of a line, those that are not printed having their defaults. */
  function LineWeight(line: UpstreamLine): nat {
    if line.weight == None then 1 else line.weight.value
  }

  function LinePort(line: UpstreamLine): nat {
    if line.port == None then 80 else line.port.value
  }

  /** Behind some valid octets with dots there is a number that cannot be read. */
  ghost predicate BreaksOff(address: string) {
    exists n: nat, rest :: n <= 3 && Dotted(address, n, rest) && Unreadable(rest, n)
  }

  /** Reading the line throws. */
  ghost predicate ThrowsOn(line: UpstreamLine) {
    LineWeight(line) > 2147483647 || LinePort(line) > 2147483647 || BreaksOff(line.address)
  }

  /** The address of this line is not printed again behind it. */
  predicate LastOf(lines: seq<UpstreamLine>, i: nat)
    requires i < |lines|
  {
    forall j :: i < j < |lines| ==> lines[j].address != lines[i].address
  }

  predicate Printed(lines: seq<UpstreamLine>, address: string) {
    exists i :: 0 <= i < |lines| && lines[i].address == address
  }

  /** The entry under the address of a line holds what the line says. */
  ghost predicate Holds(upstreams: map<string, Upstream>, line: UpstreamLine) {
    && line.address in upstreams
    && var u := upstreams[line.address];
    && u.address == line.address && u.weight == LineWeight(line) && u.port == LinePort(line)
    && (u.isIp <==> Quad(line.address))
  }

  /** The lines have been added: each address has the entry of its last line, every other one the entry it had, and
      nothing but the upstreams has changed. */
  ghost predicate Added(before: Server, lines: seq<UpstreamLine>, after: Server) {
    && after == before.(upstreams := after.upstreams)
    && (forall i :: 0 <= i < |lines| && LastOf(lines, i) ==> Holds(after.upstreams, lines[i]))
    && (forall a :: !Printed(lines, a) ==> SameEntry(before.upstreams, after.upstreams, a))
  }

  predicate SameEntry(before: map<string, Upstream>, after: map<string, Upstream>, a: string) {
    (a in after <==> a in before) && (a in before ==> after[a] == before[a])
  }

  lemma OneLine(sv: Server, line: UpstreamLine)
    ensures var e := EvalUpstreams(sv, [line]);
            if ThrowsOn(line) then e == Evaluated(sv, Some(Threw))
            else
              && e.left == None && e.settings == sv.(upstreams := e.settings.upstreams)
              && Holds(e.settings.upstreams, line)
              && forall a :: a != line.address ==> SameEntry(sv.upstreams, e.settings.upstreams, a)
  {
    hide Judge, Quad, Dotted, Unreadable;
    IsIpExactly(line.address);
    ThrowsExactly(line.address);
  }

  lemma AddedOnTop(sv: Server, line: UpstreamLine, mid: Server, rest: seq<UpstreamLine>, after: Server)
    requires mid == sv.(upstreams := mid.upstreams) && Holds(mid.upstreams, line)
    requires forall a :: a != line.address ==> SameEntry(sv.upstreams, mid.upstreams, a)
    requires Added(mid, rest, after)
    ensures Added(sv, [line] + rest, after)
  {
    hide Holds, SameEntry, LastOf, Printed;
    var lines := [line] + rest;
    forall i | 0 <= i < |lines| && LastOf(lines, i) ensures Holds(after.upstreams, lines[i]) {
      if i == 0 {
        LastIsUnprinted(line, rest);
        HoldsOn(mid.upstreams, after.upstreams, line);
      } else {
        LastBehind(line, rest, i);
      }
    }
    forall a | !Printed(lines, a) ensures SameEntry(sv.upstreams, after.upstreams, a) {
      UnprintedBehind(line, rest, a);
      SameOn(sv.upstreams, mid.upstreams, after.upstreams, a);
    }
  }

  lemma LastIsUnprinted(line: UpstreamLine, rest: seq<UpstreamLine>)
    requires LastOf([line] + rest, 0)
    ensures !Printed(rest, line.address)
  {
    forall j | 0 <= j < |rest| ensures rest[j].address != line.address {
      assert ([line] + rest)[j + 1] == rest[j];
    }
  }

  lemma LastBehind(line: UpstreamLine, rest: seq<UpstreamLine>, i: nat)
    requires 0 < i <= |rest| && LastOf([line] + rest, i)
    ensures LastOf(rest, i - 1) && ([line] + rest)[i] == rest[i - 1]
  {
    forall j | i - 1 < j < |rest| ensures rest[j].address != rest[i - 1].address {
      assert ([line] + rest)[j + 1] == rest[j];
    }
  }

  lemma UnprintedBehind(line: UpstreamLine, rest: seq<UpstreamLine>, a: string)
    requires !Printed([line] + rest, a)
    ensures a != line.address && !Printed(rest, a)
  {
    assert ([line] + rest)[0] == line;
    forall j | 0 <= j < |rest| ensures rest[j].address != a {
      assert ([line] + rest)[j + 1] == rest[j];
    }
  }

  lemma HoldsOn(mid: map<string, Upstream>, after: map<string, Upstream>, line: UpstreamLine)
    requires Holds(mid, line) && SameEntry(mid, after, line.address)
    ensures Holds(after, line)
  {
  }

  lemma SameOn(before: map<string, Upstream>, mid: map<string, Upstream>, after: map<string, Upstream>, a: string)
    requires SameEntry(before, mid, a) && SameEntry(mid, after, a)
    ensures SameEntry(before, after, a)
  {
  }

  lemma NothingAdded(sv: Server)
    ensures Added(sv, [], sv)
  {
  }

  /** The lines of a block are added up to the first, if any, that is thrown at. */
  lemma {:induction false} LinesMean(sv: Server, lines: seq<UpstreamLine>) returns (k: nat)
    ensures k <= |lines| && (forall i :: 0 <= i < k ==> !ThrowsOn(lines[i])) && (k < |lines| ==> ThrowsOn(lines[k]))
    ensures var e := EvalUpstreams(sv, lines);
            Added(sv, lines[..k], e.settings) && e.left == (if k < |lines| then Some(Threw) else None)
    decreases |lines|
  {
    hide EvalUpstreams, ThrowsOn, Added, Holds, SameEntry;
    if lines == [] {
      k := 0;
      EvalNothing(sv);
      NothingAdded(sv);
    } else {
      OneLine(sv, lines[0]);
      EvalStep(sv, lines);
      var e := EvalUpstreams(sv, [lines[0]]);
      if ThrowsOn(lines[0]) {
        k := 0;
        NothingAdded(sv);
      } else {
        var n := LinesMean(e.settings, lines[1..]);
        k := n + 1;
        AddedOnTop(sv, lines[0], e.settings, lines[1..][..n], EvalUpstreams(e.settings, lines[1..]).settings);
        assert [lines[0]] + lines[1..][..n] == lines[..k];
        forall i | 0 <= i < k ensures !ThrowsOn(lines[i]) {
          if i > 0 {
            assert lines[i] == lines[1..][i - 1];
          }
        }
      }
    }
  }

  lemma EvalNothing(sv: Server)
    ensures EvalUpstreams(sv, []) == Evaluated(sv, None)
  {
  }

  /** A printed upstreams block stores, under the address of each line, the weight and the port that the last line
      of that address prints, 1 and 80 where it prints none, and whether the address is an IP address. It does so up
      to the first line with a number beyond an int or an address that breaks off, which is thrown out of. */
  lemma PrintedUpstreamsMean(sv: Server, text: string, pos: nat, pad: string, lines: seq<UpstreamLine>)
    returns (k: nat)
    requires Pad(pad) && CleanLines(lines)
    requires Here(text, pos, "{") && Here(text, pos + 1, "\n")
    requires Here(text, pos + 2, PrintUpstreams(pad, lines) + CloseLine(pad))
    ensures pos <= |text| && k <= |lines|
    ensures (forall i :: 0 <= i < k ==> !ThrowsOn(lines[i])) && (k < |lines| ==> ThrowsOn(lines[k]))
    ensures var block := ReadUpstreams(sv, text, pos);
            && Added(sv, lines[..k], block.sv)
            && block.lexeme == (if k < |lines| then None else Some(LEndUpstream))
  {
    hide Here, PrintUpstreams, CloseLine, ReadUpstreams, EvalUpstreams, ThrowsOn, Added, CleanLines;
    PrintedUpstreams(sv, text, pos, pad, lines);
    k := LinesMean(sv, lines);
  }

  /** A block that does not open with a brace, or that the text ends in, is an error of the configuration; nothing
      has been added. */
  lemma UnopenedUpstreams(sv: Server, text: string, pos: nat, p: nat)
    requires RunEnds(text, pos, IsSpace, p)
    ensures p == |text| || text[p] != '{' ==> ReadUpstreams(sv, text, pos) == Block(sv, Some(LErr), p)
    ensures p < |text| && text[p] == '{' && RunEnds(text, p + 1, IsSpace, |text|) ==>
              ReadUpstreams(sv, text, pos) == Block(sv, Some(LErr), |text| + 1)
  {
    hide ReadEntries, Span, RunEnds;
    SpanIs(text, pos, IsSpace, p);
    if p < |text| && RunEnds(text, p + 1, IsSpace, |text|) {
      SpanIs(text, p + 1, IsSpace, |text|);
      NoEntries(sv, text);
    }
  }

  lemma NoEntries(sv: Server, text: string)
    ensures ReadEntries(sv, text, |text|) == Block(sv, Some(LErr), |text| + 1)
  {
  }

  /** So is an entry with anything but its two settings in front of the semicolon. */
  lemma StrangeEntry(sv: Server, text: string, pos: nat, address: string, stop: nat)
    requires CleanAddress(address) && Here(text, pos, address) && Here(text, pos + |address|, " ")
    requires stop == pos + |address| + 1 < |text| && text[stop] !in {';', 'w', 'p', ' '} && !IsSpace(text[stop])
    ensures pos <= |text| && ReadEntries(sv, text, pos) == Block(sv, Some(LErr), stop)
  {
    hide Span, Stoi;
    HereFirst(text, pos, address);
    HereFirst(text, pos + |address|, " ");
    AddressRead(text, pos, address);
    SpanIs(text, pos + |address|, IsSpaceChar, stop);
    SpanIs(text, stop, IsSpace, stop);
    NotNamed(text, stop, "weight");
    NotNamed(text, stop, "port");
  }

  lemma NotNamed(text: string, pos: nat, name: string)
    requires pos < |text| && name != "" && text[pos] != name[0]
    ensures !Here(text, pos, name)
  {
    assert text[pos + 0] != name[0];
  }

  // ---------- locations ----------

  /** The root that the printed pairs leave: that of the last pair that gives one, otherwise that of the server
      block, if it has one. */
  function RootOf(sv: Server, pairs: seq<LocationPair>): Option<string>
    decreases |pairs|
  {
    if pairs == [] then if sv.isRoot then Some(sv.root) else None
    else
      var p := pairs[|pairs| - 1];
      match p.key
      case LocationRoot => Some("static" + p.value)
      case AddRoot => Some(sv.root + p.value)
      case _ => RootOf(sv, pairs[..|pairs| - 1])
  }

  /** The last value of a switch, None if it is not printed. */
  function SwitchOf(key: LocationKey, pairs: seq<LocationPair>): Option<bool>
    decreases |pairs|
  {
    if pairs == [] then None
    else
      var p := pairs[|pairs| - 1];
      if p.key == key then Some(p.value == "on") else SwitchOf(key, pairs[..|pairs| - 1])
  }

  /** The upstreams named, in order. */
  function PathsOf(pairs: seq<LocationPair>): seq<string>
    decreases |pairs|
  {
    if pairs == [] then []
    else
      var p := pairs[|pairs| - 1];
      PathsOf(pairs[..|pairs| - 1]) + (if p.key == ProxyPath then [p.value] else [])
  }

  /** A switch is on or off, and an upstream is a declared one. */
  predicate Accepted(sv: Server, p: LocationPair) {
    && (p.key == LogAccess || p.key == LogErrors ==> p.value == "on" || p.value == "off")
    && (p.key == ProxyPath ==> p.value in sv.upstreams)
  }

  predicate AllAccepted(sv: Server, pairs: seq<LocationPair>) {
    forall i :: 0 <= i < |pairs| ==> Accepted(sv, pairs[i])
  }

  /** The fields of the location that these pairs describe. */
  predicate Described(sv: Server, caseSensitive: bool, url: string, pairs: seq<LocationPair>, l: Location) {
    && l.url == url && l.caseSensitive == caseSensitive
    && l.root == (if RootOf(sv, pairs).Some? then RootOf(sv, pairs).value else "\n")
    && l.isAccessLog == SwitchOf(LogAccess, pairs) && l.isErrorLog == SwitchOf(LogErrors, pairs)
    && l.upstreams == PathsOf(pairs) && l.isProxy == (PathsOf(pairs) != [])
  }

  lemma {:induction false} EvalPairsSnoc(sv: Server, l: Location, pairs: seq<LocationPair>, p: LocationPair)
    ensures EvalPairs(sv, l, pairs + [p]) ==
            match EvalPairs(sv, l, pairs)
            case None => None
            case Some(l') => ApplyLocation(sv, l', p.key, p.value)
    decreases |pairs|
  {
    hide ApplyLocation;
    if pairs == [] {
      assert pairs + [p] == [p] && [p][1..] == [];
    } else {
      assert (pairs + [p])[0] == pairs[0] && (pairs + [p])[1..] == pairs[1..] + [p];
      var l' := ApplyLocation(sv, l, pairs[0].key, pairs[0].value);
      if l'.Some? {
        EvalPairsSnoc(sv, l'.value, pairs[1..], p);
      }
    }
  }

  lemma OnePair(sv: Server, caseSensitive: bool, url: string, pairs: seq<LocationPair>, p: LocationPair, l: Location)
    requires Described(sv, caseSensitive, url, pairs, l)
    ensures var r := ApplyLocation(sv, l, p.key, p.value);
            && (r.Some? <==> Accepted(sv, p))
            && (r.Some? ==> Described(sv, caseSensitive, url, pairs + [p], r.value))
  {
    hide RootOf, SwitchOf, PathsOf;
    RootOfMore(sv, pairs, p);
    SwitchOfMore(LogAccess, pairs, p);
    SwitchOfMore(LogErrors, pairs, p);
    PathsOfMore(pairs, p);
  }

  lemma RootOfMore(sv: Server, pairs: seq<LocationPair>, p: LocationPair)
    ensures RootOf(sv, pairs + [p]) == if p.key == LocationRoot then Some("static" + p.value)
                                       else if p.key == AddRoot then Some(sv.root + p.value) else RootOf(sv, pairs)
  {
    assert (pairs + [p])[..|pairs|] == pairs;
  }

  lemma SwitchOfMore(key: LocationKey, pairs: seq<LocationPair>, p: LocationPair)
    ensures SwitchOf(key, pairs + [p]) == if p.key == key then Some(p.value == "on") else SwitchOf(key, pairs)
  {
    assert (pairs + [p])[..|pairs|] == pairs;
  }

  lemma PathsOfMore(pairs: seq<LocationPair>, p: LocationPair)
    ensures PathsOf(pairs + [p]) == PathsOf(pairs) + (if p.key == ProxyPath then [p.value] else [])
  {
    assert (pairs + [p])[..|pairs|] == pairs;
  }

  lemma {:induction false} PairsMean(sv: Server, caseSensitive: bool, url: string, pairs: seq<LocationPair>)
    ensures var r := EvalPairs(sv, FreshLocation(sv, caseSensitive, url), pairs);
            && (r.Some? <==> AllAccepted(sv, pairs))
            && (r.Some? ==> Described(sv, caseSensitive, url, pairs, r.value))
    decreases |pairs|
  {
    hide ApplyLocation, Accepted;
    if pairs != [] {
      var front, p := pairs[..|pairs| - 1], pairs[|pairs| - 1];
      assert pairs == front + [p];
      PairsMean(sv, caseSensitive, url, front);
      EvalPairsSnoc(sv, FreshLocation(sv, caseSensitive, url), front, p);
      var r := EvalPairs(sv, FreshLocation(sv, caseSensitive, url), front);
      if r.Some? {
        OnePair(sv, caseSensitive, url, front, p, r.value);
      }
    }
  }

  /** A root that is set is none of the mark for a missing one. */
  lemma {:induction false} RootIsNoMark(sv: Server, pairs: seq<LocationPair>)
    requires RootOk(sv) && CleanPairs(pairs)
    ensures RootOf(sv, pairs) != Some("\n")
    decreases |pairs|
  {
    ServerRoot(sv);
    if pairs != [] {
      var p := pairs[|pairs| - 1];
      assert CleanValue(p.value);
      NoMark(p.value);
      NoMark("static" + p.value);
      NoMark(sv.root + p.value);
      RootIsNoMark(sv, pairs[..|pairs| - 1]);
    } else {
      NoMark(sv.root);
    }
  }

  lemma NoMark(s: string)
    requires s == "" || s[0] != '\n'
    ensures s != "\n"
  {
    assert "\n"[0] == '\n';
  }

  lemma ServerRoot(sv: Server)
    requires RootOk(sv)
    ensures sv.root == "" || sv.root[0] == 's'
  {
    if sv.isRoot {
      assert sv.root[0] == "static"[0];
    }
  }

  /** A printed location block appends to its class one location that has the printed URL, ignores case exactly behind a
      star, has the root of the last pair that gives one and otherwise that of the server block, the last printed values
      of the two switches, and the named upstreams in order, being a proxy if there are any. It is an error, and changes
      nothing, exactly if a switch is neither on nor off, an upstream is not declared, or there is no root at all. */
  lemma PrintedLocationMeans(sv: Server, text: string, pos: nat, pad: string, kind: Kind, caseSensitive: bool,
                             url: string, pairs: seq<LocationPair>)
    requires pos <= |text| && Terminated(text) && Pad(pad) && CleanUrl(url) && CleanPairs(pairs) && RootOk(sv)
    requires var star := if caseSensitive then "" else "*";
             var sign := if kind == Exact then "=" else if kind == Preferential then "^~"
                         else if kind == Regex then "~" else "";
             Here(text, pos, star + (sign + (" " + (url + (" {" + "\n")))) + (PrintPairs(pad, pairs) + CloseLine(pad)))
    ensures var block := ReadLocation(sv, text, pos);
            if AllAccepted(sv, pairs) && RootOf(sv, pairs).Some? then
              && block.lexeme == Some(LEndLocation) && |block.sv.Of(kind)| == |sv.Of(kind)| + 1
              && block.sv.Of(kind)[..|sv.Of(kind)|] == sv.Of(kind)
              && (forall k :: k != kind ==> block.sv.Of(k) == sv.Of(k))
              && block.sv.(exact := sv.exact, preferential := sv.preferential, regex := sv.regex, prefix := sv.prefix)
                 == sv
              && Described(sv, caseSensitive, url, pairs, block.sv.Of(kind)[|sv.Of(kind)|])
            else block == Block(sv, Some(LErr), block.pos)
  {
    hide Here, ReadLocation, PrintPairs, CloseLine, CleanUrl, CleanPairs, RootOk, AllAccepted, Described, EvalPairs;
    HeadIsPrinted(kind, caseSensitive, url);
    var end := PrintedLocation(sv, text, pos, pad, kind, caseSensitive, url, pairs);
    PairsMean(sv, caseSensitive, url, pairs);
    RootIsNoMark(sv, pairs);
    var r := EvalPairs(sv, FreshLocation(sv, caseSensitive, url), pairs);
    if r.Some? {
      RootField(sv, caseSensitive, url, pairs, r.value);
      Appended(sv, kind, r.value);
    }
  }

  lemma HeadIsPrinted(kind: Kind, caseSensitive: bool, url: string)
    ensures var star := if caseSensitive then "" else "*";
            var sign := if kind == Exact then "=" else if kind == Preferential then "^~"
                        else if kind == Regex then "~" else "";
            LocationHead(kind, caseSensitive, url) == star + (sign + (" " + (url + (" {" + "\n"))))
  {
  }

  lemma RootField(sv: Server, caseSensitive: bool, url: string, pairs: seq<LocationPair>, l: Location)
    requires Described(sv, caseSensitive, url, pairs, l)
    ensures l.root == (if RootOf(sv, pairs).Some? then RootOf(sv, pairs).value else "\n")
  {
  }

  lemma Appended(sv: Server, kind: Kind, l: Location)
    ensures var t := sv.Add(kind, l);
            && t.Of(kind) == sv.Of(kind) + [l] && (forall k :: k != kind ==> t.Of(k) == sv.Of(k))
            && t.(exact := sv.exact, preferential := sv.preferential, regex := sv.regex, prefix := sv.prefix) == sv
  {
  }
}
