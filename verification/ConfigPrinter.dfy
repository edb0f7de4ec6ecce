/** Configurations as data: what they mean, and how they are written down. */
module ConfigPrinter {
  import opened Text
  import opened UpstreamSettings
  import opened ServerSettings
  import opened MainServerSettings
  import opened ConfigLexer
  import opened ConfigParser

  datatype MainKey = CountWorkflows | MainAccessLog | MainErrorLog
  datatype ServerKey = Listen | ServerRoot | AccessLog | ErrorLog | ServerName
  datatype LocationKey = LocationRoot | AddRoot | LogAccess | LogErrors | ProxyPath

  datatype LocationPair = LocationPair(key: LocationKey, value: string)
  datatype UpstreamLine = UpstreamLine(address: string, weight: Option<nat>, port: Option<nat>)

  datatype ServerItem =
    | ServerPair(key: ServerKey, value: string)
    | LocationItem(kind: Kind, caseSensitive: bool, url: string, pairs: seq<LocationPair>)

  datatype MainItem =
    | MainPair(key: MainKey, value: string)
    | UpstreamsItem(lines: seq<UpstreamLine>)
    | ServerItems(items: seq<ServerItem>)

  // ---------- meaning: the setters folded over the items, the last writer winning ----------

  function ApplyMain(m: Main, key: MainKey, value: string): Option<Main> {
    match key
    case CountWorkflows => if Stoi(value) == None then None else Some(m.(countWorkflows := Stoi(value).value))
    case MainAccessLog =>
      Some(m.(accessLog := value, isAccessLog := true, server := m.server.(accessLog := value)))
    case MainErrorLog =>
      Some(m.(errorLog := value, isErrorLog := true, server := m.server.(errorLog := value)))
  }

  function ApplyServer(sv: Server, key: ServerKey, value: string): Option<Server> {
    match key
    case Listen => if Stoi(value) == None then None else Some(sv.(port := Stoi(value)))
    case ServerRoot => Some(sv.(root := "static" + value, isRoot := true))
    case AccessLog => Some(sv.(accessLog := value))
    case ErrorLog => Some(sv.(errorLog := value))
    case ServerName => Some(sv.(servername := value))
  }

  function ApplyLocation(sv: Server, l: Location, key: LocationKey, value: string): Option<Location> {
    match key
    case LocationRoot => Some(l.(root := "static" + value))
    case AddRoot => Some(l.(root := sv.root + value))
    case LogAccess => if value in {"on", "off"} then Some(l.(isAccessLog := Some(value == "on"))) else None
    case LogErrors => if value in {"on", "off"} then Some(l.(isErrorLog := Some(value == "on"))) else None
    case ProxyPath =>
      if value in sv.upstreams then Some(l.(isProxy := true, upstreams := l.upstreams + [value])) else None
  }

  function EvalPairs(sv: Server, l: Location, pairs: seq<LocationPair>): Option<Location>
    decreases |pairs|
  {
    if pairs == [] then Some(l)
    else
      match ApplyLocation(sv, l, pairs[0].key, pairs[0].value)
      case None => None
      case Some(l') => EvalPairs(sv, l', pairs[1..])
  }

  /** A location counts once it has a root, its own or that of the server block so far. */
  function EvalLocation(sv: Server, kind: Kind, caseSensitive: bool, url: string, pairs: seq<LocationPair>)
    : Option<Server>
  {
    match EvalPairs(sv, FreshLocation(sv, caseSensitive, url), pairs)
    case None => None
    case Some(l) => if l.root == NO_ROOT then None else Some(sv.Add(kind, l))
  }

  /** What evaluating items comes to: settings, and an outcome if it is not to go on. */
  datatype Evaluated<T> = Evaluated(settings: T, left: Option<Outcome>)

  function EvalServer(sv: Server, items: seq<ServerItem>): Evaluated<Server>
    decreases |items|
  {
    if items == [] then Evaluated(sv, None)
    else
      match items[0]
      case ServerPair(key, value) =>
        (match ApplyServer(sv, key, value)
         case None => Evaluated(sv, Some(Stopped))
         case Some(sv') => EvalServer(sv', items[1..]))
      case LocationItem(kind, caseSensitive, url, pairs) =>
        (match EvalLocation(sv, kind, caseSensitive, url, pairs)
         case None => Evaluated(sv, Some(Invalid))
         case Some(sv') => EvalServer(sv', items[1..]))
  }

  /** A number that does not fit an int, or an address that cannot be read, is thrown out of. */
  function EvalUpstreams(sv: Server, lines: seq<UpstreamLine>): Evaluated<Server>
    decreases |lines|
  {
    if lines == [] then Evaluated(sv, None)
    else
      var weight := if lines[0].weight == None then 1 else lines[0].weight.value;
      var port := if lines[0].port == None then 80 else lines[0].port.value;
      if weight > INT_MAX || port > INT_MAX then Evaluated(sv, Some(Threw))
      else
        match WithUpstream(sv, lines[0].address, weight, port)
        case None => Evaluated(sv, Some(Threw))
        case Some(sv') => EvalUpstreams(sv', lines[1..])
  }

  function EvalItem(m: Main, item: MainItem): Evaluated<Main> {
    match item
    case MainPair(key, value) =>
      (match ApplyMain(m, key, value)
       case None => Evaluated(m, Some(Stopped))
       case Some(m') => Evaluated(m', None))
    case UpstreamsItem(lines) =>
      var e := EvalUpstreams(m.server, lines);
      Evaluated(m.(server := e.settings), e.left)
    case ServerItems(items) =>
      var e := EvalServer(m.server, items);
      Evaluated(m.(server := e.settings), e.left)
  }

  function Eval(m: Main, items: seq<MainItem>): Parsed
    decreases |items|
  {
    if items == [] then Parsed(m, Finished)
    else
      var e := EvalItem(m, items[0]);
      if e.left == None then Eval(e.settings, items[1..]) else Parsed(e.settings, e.left.value)
  }

  // ---------- notation ----------

  function MainNumber(key: MainKey): nat {
    match key case CountWorkflows => 1 case MainAccessLog => 2 case MainErrorLog => 3
  }

  function ServerNumber(key: ServerKey): nat {
    match key case Listen => 0 case ServerRoot => 1 case AccessLog => 2 case ErrorLog => 3 case ServerName => 5
  }

  function LocationNumber(key: LocationKey): nat {
    match key case LocationRoot => 0 case AddRoot => 1 case LogAccess => 2 case LogErrors => 3 case ProxyPath => 4
  }

  function MainKeyName(key: MainKey): string {
    match key
    case CountWorkflows => "count_workflows"
    case MainAccessLog => "access_log"
    case MainErrorLog => "error_log"
  }

  function ServerKeyName(key: ServerKey): string {
    match key
    case Listen => "listen"
    case ServerRoot => "root"
    case AccessLog => "access_log"
    case ErrorLog => "error_log"
    case ServerName => "servername"
  }

  function LocationKeyName(key: LocationKey): string {
    match key
    case LocationRoot => "root"
    case AddRoot => "add_root"
    case LogAccess => "access_log"
    case LogErrors => "error_log"
    case ProxyPath => "proxy_path"
  }

  /** `name: value;` on a line of its own, indented by `pad`. */
  function PairLine(pad: string, name: string, value: string): string {
    pad + (name + (":" + (" " + value + ";" + "\n")))
  }

  function OpenLine(pad: string, name: string): string {
    pad + (name + (" {" + "\n"))
  }

  function CloseLine(pad: string): string {
    pad + ("}" + "\n")
  }

  function PrintPairs(pad: string, pairs: seq<LocationPair>): string {
    if pairs == [] then ""
    else PairLine(pad, LocationKeyName(pairs[0].key), pairs[0].value) + PrintPairs(pad, pairs[1..])
  }

  function Sign(kind: Kind): string {
    match kind case Exact => "=" case Preferential => "^~" case Regex => "~" case Prefix => ""
  }

  function Star(caseSensitive: bool): string {
    if caseSensitive then "" else "*"
  }

  function LocationHead(kind: Kind, caseSensitive: bool, url: string): string {
    Star(caseSensitive) + (Sign(kind) + (" " + (url + (" {" + "\n"))))
  }

  function PrintServerItem(pad: string, item: ServerItem): string {
    match item
    case ServerPair(key, value) => PairLine(pad, ServerKeyName(key), value)
    case LocationItem(kind, caseSensitive, url, pairs) =>
      pad + ("location" + (" " + (LocationHead(kind, caseSensitive, url) + (PrintPairs(pad, pairs) + CloseLine(pad)))))
  }

  function PrintServer(pad: string, items: seq<ServerItem>): string {
    if items == [] then "" else PrintServerItem(pad, items[0]) + PrintServer(pad, items[1..])
  }

  function PrintSetting(name: string, n: Option<nat>): string {
    match n
    case None => ""
    case Some(v) => " " + (name + ("=" + Dec(v)))
  }

  function PrintUpstream(pad: string, line: UpstreamLine): string {
    pad + (line.address + (PrintSetting("weight", line.weight) + (PrintSetting("port", line.port) + (";" + "\n"))))
  }

  function PrintUpstreams(pad: string, lines: seq<UpstreamLine>): string {
    if lines == [] then "" else PrintUpstream(pad, lines[0]) + PrintUpstreams(pad, lines[1..])
  }

  function PrintItem(pad: string, item: MainItem): string {
    match item
    case MainPair(key, value) => PairLine(pad, MainKeyName(key), value)
    case UpstreamsItem(lines) => OpenLine(pad, "upstreams") + (PrintUpstreams(pad, lines) + CloseLine(pad))
    case ServerItems(items) => OpenLine(pad, "server") + (PrintServer(pad, items) + CloseLine(pad))
  }

  function PrintItems(pad: string, items: seq<MainItem>): string {
    if items == [] then "" else PrintItem(pad, items[0]) + PrintItems(pad, items[1..])
  }

  function Print(pad: string, items: seq<MainItem>): string {
    OpenLine(pad, "http") + (PrintItems(pad, items) + CloseLine(pad))
  }

  // ---------- what can be written down ----------

  predicate Pad(pad: string) {
    forall i :: 0 <= i < |pad| ==> IsBlank(pad[i])
  }

  /** A value that the lexer takes as one lexeme and gives back as it is. */
  predicate CleanValue(v: string) {
    && (forall i :: 0 <= i < |v| ==> BeforeSemicolon(v[i]))
    && (v != "" ==> !IsSpace(v[0]) && v[0] != '{' && v[0] != '}')
  }

  predicate CleanUrl(u: string) {
    && u != "" && u[0] == '/'
    && forall i :: 0 <= i < |u| ==> !IsSpace(u[i]) && u[i] != ';'
  }

  predicate CleanAddress(a: string) {
    && a != "" && !IsSpace(a[0]) && a[0] != '}'
    && forall i :: 0 <= i < |a| ==> a[i] != ' ' && a[i] != ';'
  }

  predicate CleanLines(lines: seq<UpstreamLine>) {
    forall i :: 0 <= i < |lines| ==> CleanAddress(lines[i].address)
  }

  predicate CleanPairs(pairs: seq<LocationPair>) {
    forall i :: 0 <= i < |pairs| ==> CleanValue(pairs[i].value)
  }

  predicate CleanServer(items: seq<ServerItem>) {
    forall i :: 0 <= i < |items| ==> CleanServerItem(items[i])
  }

  predicate CleanServerItem(item: ServerItem) {
    match item
    case ServerPair(_, value) => CleanValue(value)
    case LocationItem(_, _, url, pairs) =>
      CleanUrl(url) && CleanPairs(pairs)
  }

  predicate CleanItem(item: MainItem) {
    match item
    case MainPair(_, value) => CleanValue(value)
    case UpstreamsItem(lines) => CleanLines(lines)
    case ServerItems(items) => CleanServer(items)
  }

  predicate Clean(items: seq<MainItem>) {
    forall i :: 0 <= i < |items| ==> CleanItem(items[i])
  }
}
