/**
 * The environment selector: its request handler (`SelectorHandler.do_GET`),
 * the port scan and the interpretation of what the user picked.
 */
module Selector {
  import opened Wrappers
  import opened Text
  import opened Url
  import opened Http

  const DefaultStartPort := 8787
  const DefaultMaxAttempts := 10
  const NoPortMessage := "Could not find an available port"
  /** What `socket.bind` raises (an `OverflowError`, not an `OSError`) for a port outside 0..65535. */
  const PortRangeMessage := "bind(): port must be 0-65535."

  /** The query field the page's script sends the choice in. */
  const EnvField := "env"
  const CancelChoice := "cancel"
  const OkJson := "{\"status\": \"ok\"}"
  const NoEnvironmentJson := "{\"status\": \"error\", \"message\": \"No environment specified\"}"

  predicate ValidPort(p: int) {
    0 <= p <= 65535
  }

  /**
   * `_find_available_port`: tries the ports `startPort`, `startPort + 1`, …
   * in turn and returns the first one that `bindable` accepts. A port the
   * socket layer refuses as out of range ends the scan with that error, since
   * only `OSError` moves the scan on.
   */
  method FindAvailablePort(bindable: int -> bool, startPort: int, maxAttempts: int) returns (r: Result<int>)
    ensures r.Ok? ==> startPort <= r.value < startPort + maxAttempts && ValidPort(r.value) && bindable(r.value)
    ensures r.Ok? ==> forall p :: startPort <= p < r.value ==> ValidPort(p) && !bindable(p)
    ensures r == Err(NoPortMessage) <==>
      forall p :: startPort <= p < startPort + maxAttempts ==> ValidPort(p) && !bindable(p)
    ensures r.Err? && r.error != NoPortMessage ==>
      r.error == PortRangeMessage
      && exists p :: startPort <= p < startPort + maxAttempts && !ValidPort(p)
    ensures r.Err? ==> r.error == NoPortMessage || r.error == PortRangeMessage
    ensures maxAttempts <= 0 ==> r == Err(NoPortMessage)
  {
    var port := startPort;
    while port < startPort + maxAttempts
      invariant startPort <= port || maxAttempts <= 0
      invariant port == startPort || port <= startPort + maxAttempts
      invariant forall p :: startPort <= p < port ==> ValidPort(p) && !bindable(p)
      decreases startPort + maxAttempts - port
    {
      if !ValidPort(port) {
        return Err(PortRangeMessage);
      }
      if bindable(port) {
        return Ok(port);
      }
      port := port + 1;
    }
    return Err(NoPortMessage);
  }

  /** The three ways `do_GET` reads a path. */
  datatype SelectorRequest = ServeSelector | Select(env: Option<string>) | NotFound

  /**
   * Exactly `/` serves the page; any path starting with `/select` is a choice
   * carrying the first non-blank `env` of its query; anything else is unknown.
   */
  function Route(path: string): SelectorRequest {
    if path == "/" then ServeSelector
    else if "/select" <= path then Select(QueryValue(UrlQuery(path), EnvField))
    else NotFound
  }

  /** The choice the first request that fires the selection event carries. */
  function FirstSelection(requests: seq<string>): (e: Option<string>)
    ensures e.Some? ==> e.value != ""
    decreases |requests|
  {
    if |requests| == 0 then None
    else match Route(requests[0])
      case Select(Some(e)) => Some(e)
      case _ =>
        FirstSelection(requests[1..])
  }

  /** A choice is stored exactly when some request carries a non-blank one. */
  lemma {:induction false} FirstSelectionFound(requests: seq<string>)
    ensures FirstSelection(requests).Some? <==>
      exists i :: 0 <= i < |requests| && Route(requests[i]).Select? && Route(requests[i]).env.Some?
    decreases |requests|
  {
    if |requests| > 0 {
      FirstSelectionFound(requests[1..]);
      assert forall i :: 1 <= i < |requests| ==> requests[i] == requests[1..][i - 1];
      if !(Route(requests[0]).Select? && Route(requests[0]).env.Some?) {
        forall i | 0 <= i < |requests| && Route(requests[i]).Select? && Route(requests[i]).env.Some?
          ensures exists j :: 0 <= j < |requests[1..]| && Route(requests[1..][j]).Select? && Route(requests[1..][j]).env.Some?
        {
          assert requests[1..][i - 1] == requests[i];
        }
      }
    }
  }

  /** The selector's server and the two attributes the handler sets on it. */
  class SelectorServer {
    const port: int
    var selectedEnvironment: Option<string>
    var selectionEvent: bool
    var running: bool

    constructor (port: int)
      ensures this.port == port
      ensures selectedEnvironment == None && !selectionEvent && running
    {
      this.port := port;
      selectedEnvironment := None;
      selectionEvent := false;
      running := true;
    }

    /**
     * `do_GET`. `writeError` is the text of an exception raised while the
     * reply is written; the handler answers it with a 500 carrying that
     * text, after any choice has already been stored. Every string is stored,
     * `cancel` and unknown names included.
     */
    method HandleGet(path: string, writeError: Option<string>) returns (resp: Response)
      modifies this`selectedEnvironment, this`selectionEvent
      ensures Route(path).Select? && Route(path).env.Some? ==>
        selectedEnvironment == Route(path).env && selectionEvent
      ensures !(Route(path).Select? && Route(path).env.Some?) ==>
        selectedEnvironment == old(selectedEnvironment) && selectionEvent == old(selectionEvent)
      ensures writeError.Some? ==> resp == Response(500, StatusErrorJson(writeError.value))
      ensures writeError.None? ==> resp == match Route(path)
        case ServeSelector => Response(200, Page)
        case Select(Some(_)) => Response(200, Json(OkJson))
        case Select(None) => Response(400, Json(NoEnvironmentJson))
        case NotFound => Response(404, NoBody)
    {
      match Route(path) {
        case ServeSelector =>
          resp := Response(200, Page);
        case Select(env) =>
          if env.Some? {
            selectedEnvironment := env;
            selectionEvent := true;
            resp := Response(200, Json(OkJson));
          } else {
            resp := Response(400, Json(NoEnvironmentJson));
          }
        case NotFound =>
          resp := Response(404, NoBody);
      }
      if writeError.Some? {
        resp := Response(500, StatusErrorJson(writeError.value));
      }
    }

    method Shutdown()
      modifies this`running
      ensures !running
    {
      running := false;
    }
  }

  /**
   * What `show` makes of the wait: a cancelled choice and an empty or
   * missing one give nothing; any other choice made in time is returned.
   */
  function Interpret(fired: bool, selected: Option<string>): (r: Option<string>)
    ensures r.Some? <==> fired && selected.Some? && selected.value != "" && selected.value != CancelChoice
    ensures r.Some? ==> r == selected
  {
    if fired && selected == Some(CancelChoice) then None
    else if fired && selected.Some? && selected.value != "" then selected
    else None
  }

  /** Some port of the default scan range is free. */
  predicate PortAvailable(bindable: int -> bool) {
    exists p :: DefaultStartPort <= p < DefaultStartPort + DefaultMaxAttempts && bindable(p)
  }

  /** What `show` returns: nothing unless a port was found and bound, then the interpreted choice. */
  function ShowResult(bindable: int -> bool, serverBinds: bool, requests: seq<string>): (r: Option<string>)
    ensures r.Some? ==> r.value != "" && r.value != CancelChoice
    ensures r.Some? <==> PortAvailable(bindable) && serverBinds && FirstSelection(requests).Some?
                         && FirstSelection(requests).value != CancelChoice
  {
    if PortAvailable(bindable) && serverBinds
    then Interpret(FirstSelection(requests).Some?, FirstSelection(requests))
    else None
  }

  class EnvironmentSelector {
    var server: SelectorServer?

    constructor ()
      ensures server == null
    {
      server := null;
    }

    /**
     * `show`. `bindable` says which ports the scan finds free, `serverBinds`
     * whether the server then binds the chosen port, and `requests` are the
     * paths the browser asks for before the wait ends (the wait ends early
     * when one of them fires the selection event). Whatever happens, the
     * server held in `server` afterwards is shut down.
     */
    method Show(bindable: int -> bool, serverBinds: bool, requests: seq<string>) returns (r: Option<string>)
      modifies this, server
      ensures r == ShowResult(bindable, serverBinds, requests)
      ensures PortAvailable(bindable) && serverBinds ==>
        fresh(server) && DefaultStartPort <= server.port < DefaultStartPort + DefaultMaxAttempts
      ensures !(PortAvailable(bindable) && serverBinds) ==> server == old(server)
      ensures server != null ==> !server.running
    {
      var scan := FindAvailablePort(bindable, DefaultStartPort, DefaultMaxAttempts);
      if scan.Err? || !serverBinds {
        r := None;
      } else {
        var srv := new SelectorServer(scan.value);
        server := srv;
        var i := 0;
        while i < |requests| && !srv.selectionEvent
          invariant 0 <= i <= |requests|
          invariant server == srv
          invariant !srv.selectionEvent ==>
            srv.selectedEnvironment == None && FirstSelection(requests) == FirstSelection(requests[i..])
          invariant srv.selectionEvent ==>
            srv.selectedEnvironment == FirstSelection(requests) && srv.selectedEnvironment.Some?
        {
          assert requests[i..] == [requests[i]] + requests[i + 1..];
          var _ := srv.HandleGet(requests[i], None);
          i := i + 1;
        }
        r := Interpret(srv.selectionEvent, srv.selectedEnvironment);
      }
      if server != null {
        server.Shutdown();
      }
    }
  }

  /** Any path that starts with `/select` is a choice read from its query. */
  lemma SelectByPrefix(prefix: string, query: string)
    requires "/select" <= prefix && '?' !in prefix && '#' !in prefix && '#' !in query
    ensures Route(prefix + "?" + query) == Select(QueryValue(query, EnvField))
  {
    var path := prefix + "?" + query;
    assert path[..7] == prefix[..7];
    assert path != "/" by { assert |path| > 1; }
    UrlQueryOf(prefix, query);
  }

  /** A choice sent as the page's script sends it is stored exactly. */
  lemma ChoiceCarried(prefix: string, env: string, query: string)
    requires "/select" <= prefix && '?' !in prefix && '#' !in prefix
    requires IsAscii(env) && env != ""
    requires query == EnvField + "=" + EncodeUriComponent(env)
    ensures Route(prefix + "?" + query) == Select(Some(env))
  {
    EnvFieldUnreserved();
    QueryValueOfEncoded(EnvField, env);
    SelectByPrefix(prefix, query);
  }

  lemma EnvFieldUnreserved()
    ensures AllUnreserved(EnvField)
  {
  }
}
