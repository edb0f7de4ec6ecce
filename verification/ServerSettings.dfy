/** The server block of the configuration: its setters, its locations and the routing of URLs. */
module ServerSettings {
  import opened Text
  import opened UpstreamSettings

  const STATICS_FOLDER_PATH := "static"

  const SERVER_PROPERTIES := ["listen", "root", "access_log", "error_log", "location", "servername"]
  const LOCATION_PROPERTIES := ["root", "add_root", "access_log", "error_log", "proxy_path"]

  /** A location block; upstreams are named by their keys. The two log switches start out unset. */
  datatype Location = Location(url: string, root: string, upstreams: seq<string>, caseSensitive: bool,
                               isAccessLog: Option<bool>, isErrorLog: Option<bool>, isProxy: bool)

  datatype Kind = Exact | Preferential | Regex | Prefix

  datatype Server = Server(port: Option<int>, servername: string, accessLog: string, errorLog: string,
                           root: string, isRoot: bool, exact: seq<Location>, preferential: seq<Location>,
                           regex: seq<Location>, prefix: seq<Location>, upstreams: map<string, Upstream>)
  {
    function Of(kind: Kind): seq<Location> {
      match kind
      case Exact => exact
      case Preferential => preferential
      case Regex => regex
      case Prefix => prefix
    }

    function Add(kind: Kind, l: Location): Server {
      match kind
      case Exact => this.(exact := exact + [l])
      case Preferential => this.(preferential := preferential + [l])
      case Regex => this.(regex := regex + [l])
      case Prefix => this.(prefix := prefix + [l])
    }
  }

  const NEW_SERVER := Server(None, "", "", "", "", false, [], [], [], [], map[])

  // ---------- setters as functions ----------

  /** The value without leading white space and closing semicolon. */
  function Trim(value: string): string {
    var begin := Span(value, 0, IsSpace);
    if value != "" && begin < |value| && value[|value| - 1] == ';' then value[begin..|value| - 1]
    else value[begin..]
  }

  function IndexIn(names: seq<string>, name: string): int {
    IndexFrom(names, name, 0)
  }

  function IndexFrom(names: seq<string>, name: string, i: nat): (r: int)
    ensures -1 <= r < |names|
    decreases |names| - i
  {
    if i >= |names| then -1 else if names[i] == name then i else IndexFrom(names, name, i + 1)
  }

  lemma {:induction false} IndexIs(names: seq<string>, name: string, i: nat, k: nat)
    requires i <= k < |names| && names[k] == name
    requires forall j | i <= j < k :: names[j] != name
    ensures IndexFrom(names, name, i) == k
    decreases k - i
  {
    if i < k {
      IndexIs(names, name, i + 1, k);
    }
  }

  /** The property named by a key lexeme: leading white space and a closing colon are not part of it. */
  function PropertyName(property: string): string {
    var begin := Span(property, 0, IsSpace);
    if begin < |property| && property[|property| - 1] == ':' then property[begin..|property| - 1]
    else property[begin..]
  }

  /** `set_property`; None when it throws, which leaves the settings as they were. */
  function WithProperty(sv: Server, number: int, value: string): Option<Server> {
    var v := Trim(value);
    match number
    case 0 => (match Stoi(v)
               case None => None
               case Some(port) => Some(sv.(port := Some(port))))
    case 1 => Some(sv.(root := STATICS_FOLDER_PATH + v, isRoot := true))
    case 2 => Some(sv.(accessLog := v))
    case 3 => Some(sv.(errorLog := v))
    case 5 => Some(sv.(servername := v))
    case _ => Some(sv)
  }

  function Switch(v: string): Option<bool> {
    if v == "on" then Some(true) else if v == "off" then Some(false) else None
  }

  /** `set_location_property`; None when it throws. */
  function WithLocationProperty(sv: Server, number: int, value: string, l: Location): Option<Location> {
    var v := Trim(value);
    match number
    case 0 => Some(l.(root := STATICS_FOLDER_PATH + v))
    case 1 => Some(l.(root := sv.root + v))
    case 2 => if Switch(v) == None then None else Some(l.(isAccessLog := Switch(v)))
    case 3 => if Switch(v) == None then None else Some(l.(isErrorLog := Switch(v)))
    case 4 => if v in sv.upstreams then Some(l.(isProxy := true, upstreams := l.upstreams + [v])) else None
    case _ => Some(l)
  }

  /** A number that names no property sets nothing. */
  lemma UnknownSetsNothing(sv: Server, number: int, value: string, l: Location)
    ensures number !in {0, 1, 2, 3, 5} ==> WithProperty(sv, number, value) == Some(sv)
    ensures number !in {0, 1, 2, 3, 4} ==> WithLocationProperty(sv, number, value, l) == Some(l)
  {
  }

  /** `add_upstream`; None when reading the address throws. */
  function WithUpstream(sv: Server, address: string, weight: int, port: int): Option<Server> {
    if Judge(address, 3) == Throws then None
    else Some(sv.(upstreams := sv.upstreams[address :=
                    Upstream(address, weight, port, Judge(address, 3) == IsIp)]))
  }

  // ---------- routing as a function ----------

  /** `std::regex`, of which only this much matters here. */
  datatype RegexEngine = RegexEngine(valid: string -> bool, matches: (string, string) -> bool)

  datatype Routed = Found(kind: Kind, index: nat) | NotFound | BadRegex

  predicate Compares(rx: RegexEngine, kind: Kind, pattern: string, url: string) {
    match kind
    case Exact => url == pattern
    case Regex => rx.matches(pattern, url)
    case _ => pattern <= url
  }

  predicate Matches(rx: RegexEngine, kind: Kind, l: Location, url: string) {
    (!l.caseSensitive && Compares(rx, kind, l.url, ToLower(url))) || Compares(rx, kind, l.url, url)
  }

  /** Building the regular expression of the location throws. */
  predicate Malformed(rx: RegexEngine, kind: Kind, l: Location) {
    kind == Regex && !rx.valid(l.url)
  }

  /** The scan stops at this location, with an answer or an exception. */
  predicate Hit(rx: RegexEngine, kind: Kind, l: Location, url: string) {
    Malformed(rx, kind, l) || Matches(rx, kind, l, url)
  }

  function FirstHit(rx: RegexEngine, kind: Kind, ls: seq<Location>, url: string, i: nat): (r: nat)
    requires i <= |ls|
    ensures i <= r <= |ls|
    decreases |ls| - i
  {
    if i < |ls| && !Hit(rx, kind, ls[i], url) then FirstHit(rx, kind, ls, url, i + 1) else i
  }

  function RouteIn(rx: RegexEngine, sv: Server, kind: Kind, url: string): Routed {
    var i := FirstHit(rx, kind, sv.Of(kind), url, 0);
    if i == |sv.Of(kind)| then NotFound
    else if Malformed(rx, kind, sv.Of(kind)[i]) then BadRegex
    else Found(kind, i)
  }

  function OrElse(a: Routed, b: Routed): Routed {
    if a == NotFound then b else a
  }

  function Route(rx: RegexEngine, sv: Server, url: string): Routed {
    OrElse(RouteIn(rx, sv, Exact, url),
           OrElse(RouteIn(rx, sv, Preferential, url),
                  OrElse(RouteIn(rx, sv, Regex, url), RouteIn(rx, sv, Prefix, url))))
  }

  // ---------- the class ----------

  class ServerSettings {
    var port: Option<int>
    var servername: string
    var accessLog: string
    var errorLog: string
    var root: string
    var isRoot: bool
    var exact: seq<Location>
    var preferential: seq<Location>
    var regex: seq<Location>
    var prefix: seq<Location>
    var upstreams: map<string, Upstream>

    function View(): Server
      reads this
    {
      Server(port, servername, accessLog, errorLog, root, isRoot, exact, preferential, regex, prefix, upstreams)
    }

    constructor ()
      ensures View() == NEW_SERVER
    {
      port, servername, accessLog, errorLog, root, isRoot := None, "", "", "", "", false;
      exact, preferential, regex, prefix, upstreams := [], [], [], [], map[];
    }

    method SetProperty(number: int, value: string) returns (ok: bool)
      modifies this
      ensures ok <==> WithProperty(old(View()), number, value).Some?
      ensures View() == if ok then WithProperty(old(View()), number, value).value else old(View())
    {
      var v := TrimValue(value);
      ok := true;
      match number {
        case 0 =>
          var n := Stoi(v);
          if n == None {
            return false;
          }
          port := n;
        case 2 =>
          accessLog := v;
        case 3 =>
          errorLog := v;
        case 1 =>
          root := STATICS_FOLDER_PATH + v;
          isRoot := true;
        case 5 =>
          servername := v;
        case _ =>
      }
    }

    /** Updates the location it is given, as the source does through a reference. */
    method SetLocationProperty(number: int, value: string, location: Location) returns (ok: bool, l: Location)
      ensures ok <==> WithLocationProperty(View(), number, value, location).Some?
      ensures ok ==> l == WithLocationProperty(View(), number, value, location).value
    {
      l := location;
      var v := TrimValue(value);
      ok := true;
      match number {
        case 0 =>
          l := l.(root := STATICS_FOLDER_PATH + v);
        case 1 =>
          l := l.(root := root + v);
        case 2 =>
          if v == "on" {
            l := l.(isAccessLog := Some(true));
          } else if v == "off" {
            l := l.(isAccessLog := Some(false));
          } else {
            ok := false;
          }
        case 3 =>
          if v == "on" {
            l := l.(isErrorLog := Some(true));
          } else if v == "off" {
            l := l.(isErrorLog := Some(false));
          } else {
            ok := false;
          }
        case 4 =>
          l := l.(isProxy := true);
          if v !in upstreams {
            return false, l;
          }
          l := l.(upstreams := l.upstreams + [v]);
        case _ =>
      }
    }

    method AddUpstream(address: string, weight: int, port: int) returns (ok: bool)
      modifies this`upstreams
      ensures ok <==> WithUpstream(old(View()), address, weight, port).Some?
      ensures View() == if ok then WithUpstream(old(View()), address, weight, port).value else old(View())
      ensures ok ==> address in upstreams && upstreams[address].weight == weight && upstreams[address].port == port
    {
      var upstream := new UpstreamSettings();
      ok := upstream.Init(address, weight, port);
      if ok {
        upstreams := upstreams[address := upstream.View()];
      }
    }

    /** `add_exact_match_url` and its three siblings. */
    method AddLocation(kind: Kind, location: Location)
      modifies this
      ensures View() == old(View()).Add(kind, location)
    {
      match kind {
        case Exact => exact := exact + [location];
        case Preferential => preferential := preferential + [location];
        case Regex => regex := regex + [location];
        case Prefix => prefix := prefix + [location];
      }
    }

    method GetLocation(rx: RegexEngine, url: string) returns (r: Routed)
      ensures r == Route(rx, View(), url)
    {
      r := Scan(rx, Exact, exact, url);
      if r != NotFound {
        return;
      }
      r := Scan(rx, Preferential, preferential, url);
      if r != NotFound {
        return;
      }
      r := Scan(rx, Regex, regex, url);
      if r != NotFound {
        return;
      }
      r := Scan(rx, Prefix, prefix, url);
    }
  }

  /** One of the four loops of `get_location`. */
  method Scan(rx: RegexEngine, kind: Kind, ls: seq<Location>, url: string) returns (r: Routed)
    ensures var i := FirstHit(rx, kind, ls, url, 0);
            r == if i == |ls| then NotFound else if Malformed(rx, kind, ls[i]) then BadRegex else Found(kind, i)
  {
    var lowered := ToLower(url);
    for i := 0 to |ls|
      invariant FirstHit(rx, kind, ls, url, 0) == FirstHit(rx, kind, ls, url, i)
    {
      if kind == Regex && !rx.valid(ls[i].url) {
        return BadRegex;
      }
      var pattern := ls[i].url;
      var found := if kind == Exact then lowered == pattern
                   else if kind == Regex then rx.matches(pattern, lowered) else pattern <= lowered;
      if !ls[i].caseSensitive && found {
        return Found(kind, i);
      }
      found := if kind == Exact then url == pattern
               else if kind == Regex then rx.matches(pattern, url) else pattern <= url;
      if found {
        return Found(kind, i);
      }
    }
    return NotFound;
  }

  method TrimValue(value: string) returns (v: string)
    ensures v == Trim(value)
  {
    var begin := SkipWhile(value, 0, IsSpace);
    // An empty value has no last character to look at; whatever is read there, "" is the result.
    if value != "" && begin < |value| && value[|value| - 1] == ';' {
      v := value[begin..|value| - 1];
    } else {
      v := value[begin..];
    }
  }

  /** `get_number_of_property` and its siblings, on their lists of names. */
  method GetNumber(names: seq<string>, property: string) returns (number: int)
    requires property != ""
    ensures number == IndexIn(names, PropertyName(property))
  {
    var begin := SkipWhile(property, 0, IsSpace);
    var length := if property[|property| - 1] == ':' then |property| - begin - 1 else |property| - begin;
    SpanEnds(property, 0, IsSpace);
    var name := property[begin..begin + length];
    for i := 0 to |names|
      invariant IndexIn(names, PropertyName(property)) == IndexFrom(names, PropertyName(property), i)
    {
      if name == names[i] {
        return i;
      }
    }
    return -1;
  }
}
