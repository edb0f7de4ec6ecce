/** The main block of the configuration, whose log settings also write into its server block. */
module MainServerSettings {
  import opened Text
  import opened ServerSettings

  const MAIN_PROPERTIES := ["http", "count_workflows", "access_log", "error_log", "server", "upstreams"]

  datatype Main = Main(countWorkflows: int, accessLog: string, errorLog: string, server: Server,
                       isAccessLog: bool, isErrorLog: bool, isAnyServer: bool)

  /** The settings before a configuration is read, with `add_server` already called. */
  const NEW_MAIN := Main(4, "", "", NEW_SERVER, false, false, true)

  /** `set_property` of the main block; None when it throws, which leaves the settings as they were. */
  function WithMainProperty(m: Main, number: int, value: string): Option<Main> {
    var v := Trim(value);
    match number
    case 1 => (match Stoi(v)
               case None => None
               case Some(n) => Some(m.(countWorkflows := n)))
    case 2 => Some(m.(accessLog := v, isAccessLog := true, server := m.server.(accessLog := Trim(v))))
    case 3 => Some(m.(errorLog := v, isErrorLog := true, server := m.server.(errorLog := Trim(v))))
    case _ => Some(m)
  }

  /** A number that names no property sets nothing. */
  lemma UnknownSetsNothing(m: Main, number: int, value: string)
    ensures number !in {1, 2, 3} ==> WithMainProperty(m, number, value) == Some(m)
  {
  }

  lemma LogNumbers()
    ensures IndexIn(SERVER_PROPERTIES, PropertyName("access_log")) == 2
    ensures IndexIn(SERVER_PROPERTIES, PropertyName("error_log")) == 3
  {
    hide IndexFrom;
    assert PropertyName("access_log") == "access_log";
    assert PropertyName("error_log") == "error_log";
    IndexIs(SERVER_PROPERTIES, "access_log", 0, 2);
    IndexIs(SERVER_PROPERTIES, "error_log", 0, 3);
  }

  class MainServerSettings {
    var countWorkflows: int
    var accessLog: string
    var errorLog: string
    const server: ServerSettings
    var isAccessLog: bool
    var isErrorLog: bool
    var isAnyServer: bool

    function View(): Main
      reads this, server
    {
      Main(countWorkflows, accessLog, errorLog, server.View(), isAccessLog, isErrorLog, isAnyServer)
    }

    /** The constructor up to the call of `parse_config`. */
    constructor ()
      ensures View() == NEW_MAIN && fresh(server)
      ensures countWorkflows == 4 && accessLog == errorLog == "" && !isAccessLog && !isErrorLog && isAnyServer
      ensures server.port == None && server.root == "" && !server.isRoot && server.upstreams == map[]
      ensures server.exact == server.preferential == server.regex == server.prefix == []
    {
      countWorkflows, accessLog, errorLog := 4, "", "";
      server := new ServerSettings();
      isAccessLog, isErrorLog, isAnyServer := false, false, false;
      new;
      AddServer();
    }

    method SetProperty(number: int, value: string) returns (ok: bool)
      modifies this, server
      ensures ok <==> WithMainProperty(old(View()), number, value).Some?
      ensures View() == if ok then WithMainProperty(old(View()), number, value).value else old(View())
    {
      var v := TrimValue(value);
      LogNumbers();
      ok := true;
      match number {
        case 1 =>
          var n := Stoi(v);
          if n == None {
            return false;
          }
          countWorkflows := n.value;
        case 2 =>
          accessLog := v;
          var logNumber := GetNumber(SERVER_PROPERTIES, "access_log");
          ok := server.SetProperty(logNumber, accessLog);
          isAccessLog := true;
        case 3 =>
          errorLog := v;
          var logNumber := GetNumber(SERVER_PROPERTIES, "error_log");
          ok := server.SetProperty(logNumber, errorLog);
          isErrorLog := true;
        case _ =>
      }
    }

    /** Hands logs already set in the main block on to the server block. */
    method AddServer()
      modifies this, server
      ensures var sv := old(View()).server;
              View() == old(View()).(isAnyServer := true,
                                     server := sv.(accessLog := if isAccessLog then Trim(accessLog) else sv.accessLog,
                                                   errorLog := if isErrorLog then Trim(errorLog) else sv.errorLog))
    {
      LogNumbers();
      isAnyServer := true;
      if isAccessLog {
        var logNumber := GetNumber(SERVER_PROPERTIES, "access_log");
        var _ := server.SetProperty(logNumber, accessLog);
      }
      if isErrorLog {
        var logNumber := GetNumber(SERVER_PROPERTIES, "error_log");
        var _ := server.SetProperty(logNumber, errorLog);
      }
    }
  }
}
