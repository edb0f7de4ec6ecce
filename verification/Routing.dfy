/** What `get_location` answers, stated on the concatenation of the four classes of locations. */
module Routing {
  import opened Text
  import opened ServerSettings

  datatype Candidate = Candidate(kind: Kind, index: nat, location: Location)

  function Tagged(kind: Kind, ls: seq<Location>): seq<Candidate> {
    seq(|ls|, i requires 0 <= i < |ls| => Candidate(kind, i, ls[i]))
  }

  /** Every location, in the order in which the classes rank and within a class as configured. */
  function Candidates(sv: Server): seq<Candidate> {
    Tagged(Exact, sv.exact) + Tagged(Preferential, sv.preferential) +
    Tagged(Regex, sv.regex) + Tagged(Prefix, sv.prefix)
  }

  predicate Stops(rx: RegexEngine, c: Candidate, url: string) {
    Hit(rx, c.kind, c.location, url)
  }

  /** The candidate `g` is the first at which the scan stops. */
  ghost predicate FirstStop(rx: RegexEngine, cs: seq<Candidate>, url: string, g: int) {
    0 <= g < |cs| && Stops(rx, cs[g], url) && forall j | 0 <= j < g :: !Stops(rx, cs[j], url)
  }

  ghost predicate NoStop(rx: RegexEngine, cs: seq<Candidate>, url: string) {
    forall j | 0 <= j < |cs| :: !Stops(rx, cs[j], url)
  }

  /** The answer that stopping at a candidate gives. */
  function Answer(rx: RegexEngine, c: Candidate): Routed {
    if Malformed(rx, c.kind, c.location) then BadRegex else Found(c.kind, c.index)
  }

  lemma {:induction false} FirstHitIs(rx: RegexEngine, kind: Kind, ls: seq<Location>, url: string, i: nat)
    requires i <= |ls|
    ensures var r := FirstHit(rx, kind, ls, url, i);
            (r < |ls| ==> Hit(rx, kind, ls[r], url)) && forall j | i <= j < r :: !Hit(rx, kind, ls[j], url)
    decreases |ls| - i
  {
    if i < |ls| && !Hit(rx, kind, ls[i], url) {
      FirstHitIs(rx, kind, ls, url, i + 1);
    }
  }

  /** One class behaves like its own list of candidates. */
  lemma RouteInIs(rx: RegexEngine, sv: Server, kind: Kind, url: string) returns (g: nat)
    ensures g <= |sv.Of(kind)|
    ensures RouteIn(rx, sv, kind, url) == NotFound <==> g == |sv.Of(kind)|
    ensures g == |sv.Of(kind)| ==> NoStop(rx, Tagged(kind, sv.Of(kind)), url)
    ensures g < |sv.Of(kind)| ==>
              && FirstStop(rx, Tagged(kind, sv.Of(kind)), url, g)
              && RouteIn(rx, sv, kind, url) == Answer(rx, Tagged(kind, sv.Of(kind))[g])
  {
    FirstHitIs(rx, kind, sv.Of(kind), url, 0);
    g := FirstHit(rx, kind, sv.Of(kind), url, 0);
  }

  lemma StopsInConcat(rx: RegexEngine, a: seq<Candidate>, b: seq<Candidate>, url: string, g: int)
    ensures NoStop(rx, a + b, url) <==> NoStop(rx, a, url) && NoStop(rx, b, url)
    ensures FirstStop(rx, a, url, g) ==> FirstStop(rx, a + b, url, g) && (a + b)[g] == a[g]
    ensures NoStop(rx, a, url) && FirstStop(rx, b, url, g) ==>
              FirstStop(rx, a + b, url, |a| + g) && (a + b)[|a| + g] == b[g]
  {
    if NoStop(rx, a + b, url) {
      assert forall j | 0 <= j < |a| :: (a + b)[j] == a[j];
      assert forall j | 0 <= j < |b| :: (a + b)[|a| + j] == b[j];
    }
  }

  /** `r` is the answer of the first stop in `cs`, or there is no stop. */
  ghost predicate Decides(rx: RegexEngine, cs: seq<Candidate>, url: string, r: Routed) {
    if r == NotFound then NoStop(rx, cs, url)
    else exists g :: FirstStop(rx, cs, url, g) && r == Answer(rx, cs[g])
  }

  lemma ClassDecides(rx: RegexEngine, sv: Server, kind: Kind, url: string)
    ensures Decides(rx, Tagged(kind, sv.Of(kind)), url, RouteIn(rx, sv, kind, url))
  {
    var g := RouteInIs(rx, sv, kind, url);
  }

  lemma Joined(rx: RegexEngine, a: seq<Candidate>, b: seq<Candidate>, url: string, r: Routed, q: Routed)
    requires Decides(rx, a, url, r) && Decides(rx, b, url, q)
    ensures Decides(rx, a + b, url, OrElse(r, q))
  {
    hide Stops, NoStop, Answer;
    if r != NotFound {
      var g :| FirstStop(rx, a, url, g) && r == Answer(rx, a[g]);
      StopsInConcat(rx, a, b, url, g);
    } else if q != NotFound {
      var g :| FirstStop(rx, b, url, g) && q == Answer(rx, b[g]);
      StopsInConcat(rx, a, b, url, g);
    } else {
      StopsInConcat(rx, a, b, url, 0);
    }
  }

  /** The answer is that of the first stop in the concatenation, and there is none exactly when nothing
      in it stops the scan. */
  lemma RouteIsFirstStop(rx: RegexEngine, sv: Server, url: string)
    ensures Route(rx, sv, url) == NotFound <==> NoStop(rx, Candidates(sv), url)
    ensures Route(rx, sv, url) != NotFound ==>
              exists g :: FirstStop(rx, Candidates(sv), url, g) && Route(rx, sv, url) == Answer(rx, Candidates(sv)[g])
  {
    RouteDecides(rx, sv, url);
  }

  lemma RouteDecides(rx: RegexEngine, sv: Server, url: string)
    ensures Decides(rx, Candidates(sv), url, Route(rx, sv, url))
  {
    hide Decides, RouteIn, Tagged;
    ClassDecides(rx, sv, Exact, url);
    ClassDecides(rx, sv, Preferential, url);
    ClassDecides(rx, sv, Regex, url);
    ClassDecides(rx, sv, Prefix, url);
    var a, b := Tagged(Exact, sv.exact), Tagged(Preferential, sv.preferential);
    var c, d := Tagged(Regex, sv.regex), Tagged(Prefix, sv.prefix);
    var ra, rb := RouteIn(rx, sv, Exact, url), RouteIn(rx, sv, Preferential, url);
    var rc, rd := RouteIn(rx, sv, Regex, url), RouteIn(rx, sv, Prefix, url);
    Joined(rx, a, b, url, ra, rb);
    Joined(rx, a + b, c, url, OrElse(ra, rb), rc);
    Joined(rx, a + b + c, d, url, OrElse(OrElse(ra, rb), rc), rd);
  }

  /** A request is answered 404 for want of a location exactly when no location matches it, as long as
      every configured regular expression can be built. */
  lemma NotFoundExactly(rx: RegexEngine, sv: Server, url: string)
    requires forall l | l in sv.regex :: rx.valid(l.url)
    ensures Route(rx, sv, url) == NotFound <==>
            forall kind, l | l in sv.Of(kind) :: !Matches(rx, kind, l, url)
    ensures Route(rx, sv, url) != BadRegex
  {
    hide Route, Matches;
    RouteIsFirstStop(rx, sv, url);
    forall kind, l | l in sv.Of(kind)
      ensures exists j :: 0 <= j < |Candidates(sv)| && Candidates(sv)[j].kind == kind && Candidates(sv)[j].location == l
    {
      var i :| 0 <= i < |sv.Of(kind)| && sv.Of(kind)[i] == l;
      var j := i + (match kind
                    case Exact => 0
                    case Preferential => |sv.exact|
                    case Regex => |sv.exact| + |sv.preferential|
                    case Prefix => |sv.exact| + |sv.preferential| + |sv.regex|);
      assert Candidates(sv)[j] == Candidate(kind, i, l);
    }
    forall j | 0 <= j < |Candidates(sv)| ensures var c := Candidates(sv)[j];
                                                 c.location in sv.Of(c.kind) {
    }
  }

  // ---------- adding a location ----------

  function Rank(kind: Kind): nat {
    match kind
    case Exact => 0
    case Preferential => 1
    case Regex => 2
    case Prefix => 3
  }

  /** Nothing in the class of `kind` or in a class ranking before it stops the scan. */
  predicate FreeUpTo(rx: RegexEngine, sv: Server, kind: Kind, url: string) {
    && RouteIn(rx, sv, Exact, url) == NotFound
    && (Rank(kind) >= 1 ==> RouteIn(rx, sv, Preferential, url) == NotFound)
    && (Rank(kind) >= 2 ==> RouteIn(rx, sv, Regex, url) == NotFound)
    && (Rank(kind) >= 3 ==> RouteIn(rx, sv, Prefix, url) == NotFound)
  }

  lemma {:induction false} FirstHitAppended(rx: RegexEngine, kind: Kind, ls: seq<Location>, l: Location,
                                           url: string, i: nat)
    requires i <= |ls|
    ensures FirstHit(rx, kind, ls + [l], url, i) ==
            var r := FirstHit(rx, kind, ls, url, i);
            if r == |ls| && !Hit(rx, kind, l, url) then |ls| + 1 else r
    decreases |ls| - i
  {
    if i < |ls| && !Hit(rx, kind, ls[i], url) {
      FirstHitAppended(rx, kind, ls, l, url, i + 1);
    }
  }

  /** Appending a location changes the answer only for URLs that it stops and that nothing in its class
      or an earlier one had stopped. */
  lemma AppendedLocation(rx: RegexEngine, sv: Server, kind: Kind, l: Location, url: string)
    ensures Route(rx, sv.Add(kind, l), url) ==
            if FreeUpTo(rx, sv, kind, url) && Hit(rx, kind, l, url)
            then Answer(rx, Candidate(kind, |sv.Of(kind)|, l))
            else Route(rx, sv, url)
  {
    ClassAfterAppend(rx, sv, kind, l, url, Exact);
    ClassAfterAppend(rx, sv, kind, l, url, Preferential);
    ClassAfterAppend(rx, sv, kind, l, url, Regex);
    ClassAfterAppend(rx, sv, kind, l, url, Prefix);
  }

  lemma ClassAfterAppend(rx: RegexEngine, sv: Server, kind: Kind, l: Location, url: string, k: Kind)
    ensures RouteIn(rx, sv.Add(kind, l), k, url) ==
            if k == kind && RouteIn(rx, sv, k, url) == NotFound && Hit(rx, kind, l, url)
            then Answer(rx, Candidate(kind, |sv.Of(kind)|, l))
            else RouteIn(rx, sv, k, url)
  {
    if k == kind {
      FirstHitAppended(rx, kind, sv.Of(kind), l, url, 0);
      assert sv.Add(kind, l).Of(kind) == sv.Of(kind) + [l];
    } else {
      assert sv.Add(kind, l).Of(k) == sv.Of(k);
    }
  }

  // ---------- the answer told from the URLs alone ----------

  predicate BeginsWith(url: string, front: string) {
    |front| <= |url| && url[..|front|] == front
  }

  /** What it takes for a location to answer a URL: an exact one is the URL, a prefix begins it, and a regular
      expression matches it; unless the location is case-sensitive, the URL in lower case will do as well. */
  predicate Answers(rx: RegexEngine, kind: Kind, l: Location, url: string) {
    match kind
    case Exact => url == l.url || (!l.caseSensitive && ToLower(url) == l.url)
    case Preferential => BeginsWith(url, l.url) || (!l.caseSensitive && BeginsWith(ToLower(url), l.url))
    case Regex => rx.matches(l.url, url) || (!l.caseSensitive && rx.matches(l.url, ToLower(url)))
    case Prefix => BeginsWith(url, l.url) || (!l.caseSensitive && BeginsWith(ToLower(url), l.url))
  }

  /** The scan goes past this location: it does not answer, and its pattern is not a bad one. */
  predicate PassedOver(rx: RegexEngine, kind: Kind, l: Location, url: string) {
    !Answers(rx, kind, l, url) && (kind == Regex ==> rx.valid(l.url))
  }

  lemma HitMeans(rx: RegexEngine, kind: Kind, l: Location, url: string)
    ensures Matches(rx, kind, l, url) <==> Answers(rx, kind, l, url)
    ensures Hit(rx, kind, l, url) <==> !PassedOver(rx, kind, l, url)
    ensures Malformed(rx, kind, l) <==> kind == Regex && !rx.valid(l.url)
  {
  }

  /** All of these locations are passed over. */
  predicate AllPassed(rx: RegexEngine, kind: Kind, ls: seq<Location>, url: string) {
    forall j :: 0 <= j < |ls| ==> PassedOver(rx, kind, ls[j], url)
  }

  /** The scan of a class stops at its location `i`. */
  predicate StopsAt(rx: RegexEngine, kind: Kind, ls: seq<Location>, url: string, i: nat) {
    && i < |ls| && !PassedOver(rx, kind, ls[i], url)
    && forall j :: 0 <= j < i ==> PassedOver(rx, kind, ls[j], url)
  }

  /** The scan of a class ends with its location `i` as the answer. */
  predicate FoundAt(rx: RegexEngine, kind: Kind, ls: seq<Location>, url: string, i: nat) {
    StopsAt(rx, kind, ls, url, i) && (kind == Regex ==> rx.valid(ls[i].url))
  }

  /** The scan of a class comes to a bad pattern at its location `i`. */
  predicate BadAt(rx: RegexEngine, kind: Kind, ls: seq<Location>, url: string, i: nat) {
    StopsAt(rx, kind, ls, url, i) && kind == Regex && !rx.valid(ls[i].url)
  }

  lemma ClassExactly(rx: RegexEngine, sv: Server, kind: Kind, url: string)
    ensures var r, ls := RouteIn(rx, sv, kind, url), sv.Of(kind);
            && (r == NotFound <==> AllPassed(rx, kind, ls, url))
            && (forall i: nat :: r == Found(kind, i) <==> FoundAt(rx, kind, ls, url, i))
            && (r == BadRegex <==> exists i: nat :: BadAt(rx, kind, ls, url, i))
            && (r.Found? ==> r.kind == kind)
  {
    hide Answers, Matches, Compares, PassedOver, Hit, FirstHit, Malformed;
    var ls := sv.Of(kind);
    FirstHitIs(rx, kind, ls, url, 0);
    forall j | 0 <= j < |ls|
      ensures Hit(rx, kind, ls[j], url) <==> !PassedOver(rx, kind, ls[j], url)
      ensures Malformed(rx, kind, ls[j]) <==> kind == Regex && !rx.valid(ls[j].url)
    {
      HitMeans(rx, kind, ls[j], url);
    }
    var r := FirstHit(rx, kind, ls, url, 0);
    if r < |ls| {
      assert StopsAt(rx, kind, ls, url, r);
      assert BadAt(rx, kind, ls, url, r) || FoundAt(rx, kind, ls, url, r);
    }
  }

  /** The locations of these classes, which are asked first, are all passed over. */
  predicate NoneBefore(rx: RegexEngine, sv: Server, kind: Kind, url: string) {
    && (kind != Exact ==> AllPassed(rx, Exact, sv.exact, url))
    && (kind == Regex || kind == Prefix ==> AllPassed(rx, Preferential, sv.preferential, url))
    && (kind == Prefix ==> AllPassed(rx, Regex, sv.regex, url))
  }

  lemma AllClasses(rx: RegexEngine, sv: Server, url: string)
    ensures forall kind ::
              var r, ls := RouteIn(rx, sv, kind, url), sv.Of(kind);
              && (r == NotFound <==> AllPassed(rx, kind, ls, url))
              && (forall i: nat :: r == Found(kind, i) <==> FoundAt(rx, kind, ls, url, i))
              && (r == BadRegex <==> exists i: nat :: BadAt(rx, kind, ls, url, i))
              && (r.Found? ==> r.kind == kind)
  {
    hide AllPassed, FoundAt, BadAt, RouteIn;
    forall kind
      ensures var r, ls := RouteIn(rx, sv, kind, url), sv.Of(kind);
              && (r == NotFound <==> AllPassed(rx, kind, ls, url))
              && (forall i: nat :: r == Found(kind, i) <==> FoundAt(rx, kind, ls, url, i))
              && (r == BadRegex <==> exists i: nat :: BadAt(rx, kind, ls, url, i))
              && (r.Found? ==> r.kind == kind)
    {
      ClassExactly(rx, sv, kind, url);
    }
  }

  /** The answer is the location `i` of a class exactly if that is the first of its class to answer, and no location of
      the classes before it does, and no bad pattern is come across on the way. */
  lemma FoundExactly(rx: RegexEngine, sv: Server, kind: Kind, url: string, i: nat)
    ensures Route(rx, sv, url) == Found(kind, i)
            <==> NoneBefore(rx, sv, kind, url) && FoundAt(rx, kind, sv.Of(kind), url, i)
  {
    hide AllPassed, FoundAt, BadAt, RouteIn;
    AllClasses(rx, sv, url);
    assert sv.Of(Exact) == sv.exact && sv.Of(Preferential) == sv.preferential && sv.Of(Regex) == sv.regex;
  }

  /** Nothing is found exactly if every location is passed over. */
  lemma NothingExactly(rx: RegexEngine, sv: Server, url: string)
    ensures Route(rx, sv, url) == NotFound <==>
            && AllPassed(rx, Exact, sv.exact, url) && AllPassed(rx, Preferential, sv.preferential, url)
            && AllPassed(rx, Regex, sv.regex, url) && AllPassed(rx, Prefix, sv.prefix, url)
  {
    hide AllPassed, FoundAt, BadAt, RouteIn;
    AllClasses(rx, sv, url);
    assert sv.Of(Exact) == sv.exact && sv.Of(Preferential) == sv.preferential && sv.Of(Regex) == sv.regex;
    assert sv.Of(Prefix) == sv.prefix;
  }

  /** Routing throws exactly if the scan comes to a bad pattern: no location before it answers. */
  lemma BadRegexExactly(rx: RegexEngine, sv: Server, url: string)
    ensures Route(rx, sv, url) == BadRegex
            <==> NoneBefore(rx, sv, Regex, url) && exists i: nat :: BadAt(rx, Regex, sv.regex, url, i)
  {
    hide AllPassed, FoundAt, BadAt, RouteIn;
    AllClasses(rx, sv, url);
    NeverBad(rx, sv.preferential, url);
    NeverBad(rx, sv.exact, url);
    assert sv.Of(Exact) == sv.exact && sv.Of(Preferential) == sv.preferential && sv.Of(Regex) == sv.regex;
    assert sv.Of(Prefix) == sv.prefix;
    NeverBad(rx, sv.prefix, url);
  }

  /** Only the patterns of one class are regular expressions. */
  lemma NeverBad(rx: RegexEngine, ls: seq<Location>, url: string)
    ensures forall kind, i: nat :: kind != Regex ==> !BadAt(rx, kind, ls, url, i)
  {
  }
}
