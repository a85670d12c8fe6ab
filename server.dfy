/**
 * The tools the extension offers (`MCPSalesforceExtension`): login with
 * environment resolution, the query guard and its `LIMIT 200` rewrite,
 * search, logout, and the session-expiry rule shared by query and search.
 */
module Tools {
  import opened Wrappers
  import opened Text
  import opened Http
  import opened Login
  import Selector
  import opened Auth

  const LoginCancelled := "Login cancelled"
  const NotAuthenticated := "Not authenticated. Please login first using mcp_salesforce_login"
  const SelectOnly := "Only SELECT queries are allowed. DML operations are not permitted."
  const CountNeedsWhere := "COUNT queries must include a WHERE clause for performance reasons."
  const SessionExpired := "Session expired. Please login again."
  const LoggedOut := "Successfully logged out"
  /** The text in an execution error that marks an expired session. */
  const InvalidSessionMarker := "INVALID_SESSION_ID"
  /** What the rewrite appends to the right-stripped query. */
  const LimitClause := " LIMIT 200"

  // ---------------------------------------------------------------------------
  // The query guard
  // ---------------------------------------------------------------------------

  /** The text the guard inspects: upper-cased, then stripped. */
  function Normalized(soql: string): string {
    Strip(Upper(soql))
  }

  /** Neither `LIMIT` nor `COUNT(` occurs in the inspected text: the query gets a limit appended. */
  predicate NeedsLimit(soql: string) {
    !Contains(Normalized(soql), "LIMIT") && !Contains(Normalized(soql), "COUNT(")
  }

  /**
   * The checks of the `query` tool before anything is sent: a SELECT prefix,
   * then a WHERE for any COUNT, then the limit rewrite. The result is the
   * text handed to `query_all`.
   */
  function QueryGuard(soql: string): (r: Result<string>)
    ensures r == Err(SelectOnly) <==> !("SELECT" <= Normalized(soql))
    ensures r == Err(CountNeedsWhere) <==>
      "SELECT" <= Normalized(soql) && Contains(Normalized(soql), "COUNT(") && !Contains(Normalized(soql), "WHERE")
    ensures r.Err? ==> r.error == SelectOnly || r.error == CountNeedsWhere
    ensures r.Ok? && !NeedsLimit(soql) ==> r.value == soql
    ensures r.Ok? && NeedsLimit(soql) ==> r.value == RStrip(soql) + LimitClause
  {
    var upper := Normalized(soql);
    if !("SELECT" <= upper) then Err(SelectOnly)
    else if Contains(upper, "COUNT(") && !Contains(upper, "WHERE") then Err(CountNeedsWhere)
    else if NeedsLimit(soql) then Ok(RStrip(soql) + LimitClause)
    else Ok(soql)
  }

  /** Upper-casing keeps whitespace and non-whitespace apart, so it commutes with `rstrip`. */
  lemma {:induction false} UpperRStrip(s: string)
    ensures Upper(RStrip(s)) == RStrip(Upper(s))
    decreases |s|
  {
    if |s| > 0 {
      var n := |s| - 1;
      UpperSpace(s[n]);
      if IsSpace(s[n]) {
        assert Upper(s)[..n] == Upper(s[..n]);
        UpperRStrip(s[..n]);
      }
    }
  }

  lemma UpperSpace(c: char)
    ensures IsSpace(UpperChar(c)) <==> IsSpace(c)
  {
  }

  /** Stripping the front of `a + x` only reaches into `x` when `a` is all whitespace. */
  lemma {:induction false} LStripAppend(a: string, x: string)
    requires LStrip(a) != ""
    ensures LStrip(a + x) == LStrip(a) + x
    decreases |a|
  {
    if IsSpace(a[0]) {
      assert (a + x)[1..] == a[1..] + x;
      LStripAppend(a[1..], x);
    }
  }

  /** `COUNT(` ends in `(`, which the limit clause lacks, so appending the clause creates none. */
  lemma NoCountAcross(n: string)
    requires !Contains(n, "COUNT(")
    ensures !Contains(n + LimitClause, "COUNT(")
  {
    var t := n + LimitClause;
    forall i | 0 <= i <= |t|
      ensures !OccursAt(t, "COUNT(", i)
    {
      if i + 6 <= |n| {
        assert t[i..i + 6] == n[i..i + 6];
        assert !OccursAt(n, "COUNT(", i);
      } else if i + 6 <= |t| {
        var k := i + 5 - |n|;
        assert t[i + 5] == LimitClause[k];
        assert LimitClause[k] != '(';
      }
    }
  }

  /** The rewritten query reads, to the guard, as the original one followed by the limit clause. */
  lemma RewriteNormalized(soql: string)
    requires Normalized(soql) != ""
    ensures Normalized(RStrip(soql) + LimitClause) == Normalized(soql) + LimitClause
  {
    var a := Upper(RStrip(soql));
    StripUpperRStrip(soql);
    UpperLimitAppend(RStrip(soql));
    NonSpaceEnd(a);
    LStripAppend(a, LimitClause);
  }

  lemma StripUpperRStrip(soql: string)
    ensures LStrip(Upper(RStrip(soql))) == Normalized(soql)
  {
    UpperRStrip(soql);
  }

  lemma UpperLimitAppend(r: string)
    ensures Upper(r + LimitClause) == Upper(r) + LimitClause
  {
    LimitClauseUpper();
    UpperAppend(r, LimitClause);
  }

  lemma LimitClauseUpper()
    ensures Upper(LimitClause) == LimitClause
  {
  }

  /** `rstrip` leaves text that ends in the limit clause alone. */
  lemma NonSpaceEnd(a: string)
    ensures RStrip(a + LimitClause) == a + LimitClause
  {
    var t := a + LimitClause;
    assert t[|t| - 1] == '0';
  }

  /**
   * Whatever the guard lets through starts with SELECT and carries a LIMIT
   * or is a COUNT: no accepted query asks for an unbounded row set.
   */
  lemma GuardedQueryBounded(soql: string)
    requires QueryGuard(soql).Ok?
    ensures "SELECT" <= Normalized(QueryGuard(soql).value)
    ensures Contains(Normalized(QueryGuard(soql).value), "LIMIT")
            || Contains(Normalized(QueryGuard(soql).value), "COUNT(")
  {
    if NeedsLimit(soql) {
      RewrittenPasses(soql);
    }
  }

  /** The appended clause itself carries `LIMIT`. */
  lemma LimitInClause(n: string)
    ensures Contains(n + LimitClause, "LIMIT")
  {
    var t := n + LimitClause;
    assert t[|n| + 1..|n| + 6] == LimitClause[1..6];
    assert LimitClause[1..6] == "LIMIT";
    ContainsAt(t, "LIMIT", |n| + 1);
  }

  /** The guard is idempotent: a query it already rewrote passes it unchanged. */
  lemma QueryGuardIdempotent(soql: string)
    requires QueryGuard(soql).Ok?
    ensures QueryGuard(QueryGuard(soql).value) == QueryGuard(soql)
  {
    if NeedsLimit(soql) {
      RewrittenPasses(soql);
    }
  }

  /** What the guard sees in a rewritten query: SELECT first, a LIMIT, and still no `COUNT(`. */
  lemma RewrittenPasses(soql: string)
    requires "SELECT" <= Normalized(soql) && NeedsLimit(soql)
    ensures var n := Normalized(RStrip(soql) + LimitClause);
      "SELECT" <= n && Contains(n, "LIMIT") && !Contains(n, "COUNT(")
  {
    var n := Normalized(soql);
    PrefixKept(n);
    RewriteNormalized(soql);
    NoCountAcross(n);
    LimitInClause(n);
  }

  lemma PrefixKept(n: string)
    requires "SELECT" <= n
    ensures n != "" && "SELECT" <= n + LimitClause
  {
    assert (n + LimitClause)[..6] == n[..6];
  }


  // ---------------------------------------------------------------------------
  // Execution errors
  // ---------------------------------------------------------------------------

  /** An execution outcome whose error text marks an expired session. */
  predicate Expired(outcome: Result<string>) {
    outcome.Err? && Contains(outcome.error, InvalidSessionMarker)
  }

  /** What `query` and `search` return for the client's outcome. */
  function ExecutionReply(outcome: Result<string>): (r: Reply)
    ensures r.Results? <==> outcome.Ok?
    ensures r.Results? ==> r.results == outcome.value
    ensures Expired(outcome) ==> r == Failure(SessionExpired)
    ensures outcome.Err? && !Expired(outcome) ==> r == Failure(outcome.error)
  {
    match outcome
    case Ok(results) => Results(results)
    case Err(e) => if Contains(e, InvalidSessionMarker) then Failure(SessionExpired) else Failure(e)
  }

  /** What `query` returns, given the session it finds. */
  function QueryReply(session: Option<SalesforceClient>, soql: string, execute: string -> Result<string>): (r: Reply)
    ensures session.None? ==> r == Failure(NotAuthenticated)
    ensures r.Results? ==> session.Some? && QueryGuard(soql).Ok? && execute(QueryGuard(soql).value).Ok?
    ensures session.Some? && QueryGuard(soql).Err? ==> r == Failure(QueryGuard(soql).error)
  {
    if session.None? then Failure(NotAuthenticated)
    else match QueryGuard(soql)
      case Err(e) => Failure(e)
      case Ok(q) => ExecutionReply(execute(q))
  }

  /** The query `query` hands to the client, if any. */
  function QuerySent(session: Option<SalesforceClient>, soql: string): (q: Option<string>)
    ensures q.Some? <==> session.Some? && QueryGuard(soql).Ok?
  {
    if session.Some? && QueryGuard(soql).Ok? then Some(QueryGuard(soql).value) else None
  }

  // ---------------------------------------------------------------------------
  // Login
  // ---------------------------------------------------------------------------

  /**
   * The environment the login tool goes on with: a truthy argument as it is;
   * otherwise the selector's choice, unless the selector gave nothing or
   * `cancel`.
   */
  function LoginEnvironment(environment: Option<string>, chosen: Option<string>): (e: Option<string>)
    ensures Truthy(environment) ==> e == environment
    ensures e.None? <==> !Truthy(environment) && (chosen.None? || chosen.value == Selector.CancelChoice)
    ensures !Truthy(environment) && e.Some? ==> e == chosen
  {
    if Truthy(environment) then environment
    else if chosen.None? || chosen.value == Selector.CancelChoice then None
    else chosen
  }

  /** The environment a login tool call goes on with, the selector shown only without a truthy argument. */
  function ChosenEnvironment(environment: Option<string>, bindable: int -> bool, serverBinds: bool,
                             selectorRequests: seq<string>): Option<string>
  {
    LoginEnvironment(environment, if Truthy(environment) then None
                                  else Selector.ShowResult(bindable, serverBinds, selectorRequests))
  }

  /** A choice the selector returns is never `cancel`, so only a missing choice cancels a login. */
  lemma SelectorNeverCancels(environment: Option<string>, bindable: int -> bool, serverBinds: bool, requests: seq<string>)
    requires !Truthy(environment)
    ensures LoginEnvironment(environment, Selector.ShowResult(bindable, serverBinds, requests)).None?
            <==> Selector.ShowResult(bindable, serverBinds, requests).None?
  {
  }

  /** `MCPSalesforceExtension`: the tools share one login handler. */
  class Extension {
    const loginHandler: LoginHandler

    constructor ()
      ensures fresh(loginHandler)
      ensures loginHandler.sf == None && loginHandler.state == None && loginHandler.server == null
    {
      loginHandler := new LoginHandler();
    }

    /**
     * The `mcp_salesforce_login` tool. Without a truthy environment the
     * selector is shown (`bindable`, `serverBinds` and `selectorRequests`
     * are its world); a cancelled selection returns without touching the
     * login handler. Otherwise `start_login_flow`'s reply is returned.
     */
    method Login(environment: Option<string>, bindable: int -> bool, serverBinds: bool,
                 selectorRequests: seq<string>, w: World) returns (r: Reply)
      modifies loginHandler, loginHandler.server
      ensures var e := ChosenEnvironment(environment, bindable, serverBinds, selectorRequests);
        r == (if e.None? then Failure(LoginCancelled)
              else LoginReply(EnvironmentOf(e), w, old(loginHandler.ListenerFree(w.callbackPortFree))))
      ensures r == Failure(LoginCancelled) ==>
        loginHandler.sf == old(loginHandler.sf) && loginHandler.state == old(loginHandler.state)
        && loginHandler.authContext == old(loginHandler.authContext)
        && loginHandler.clientId == old(loginHandler.clientId)
        && loginHandler.server == old(loginHandler.server)
        && (loginHandler.server != null ==> loginHandler.server.running == old(loginHandler.server.running))
      // A login that goes on leaves what `start_login_flow` leaves.
      ensures var e := ChosenEnvironment(environment, bindable, serverBinds, selectorRequests);
        e.Some? ==>
          fresh(loginHandler.authContext) && loginHandler.clientId == ConfiguredKey(w)
          && loginHandler.authContext.environment == EnvironmentOf(e) && loginHandler.authContext.instanceUrl == None
          && LegalTrace(loginHandler.authContext.trace)
          && ((OAuthFlow in loginHandler.authContext.trace) <==> Truthy(ConfiguredKey(w)))
          && (loginHandler.authContext.state == Completed <==> r.Success?)
      ensures var e := ChosenEnvironment(environment, bindable, serverBinds, selectorRequests);
        e.Some? && !Truthy(ConfiguredKey(w)) ==>
          loginHandler.sf == old(loginHandler.sf) && loginHandler.state == old(loginHandler.state)
          && loginHandler.server == old(loginHandler.server)
          && (loginHandler.server != null ==> loginHandler.server.running == old(loginHandler.server.running))
      ensures var e := ChosenEnvironment(environment, bindable, serverBinds, selectorRequests);
        e.Some? && Truthy(ConfiguredKey(w)) ==>
          loginHandler.state == Some(w.freshState)
          && loginHandler.sf == FlowSession(old(loginHandler.sf), old(loginHandler.ListenerFree(w.callbackPortFree)),
                                            EnvironmentOf(e), FirstCallback(CallbackPort, w.callbackRequests), w.freshState)
      ensures var e := ChosenEnvironment(environment, bindable, serverBinds, selectorRequests);
        e.Some? && Truthy(ConfiguredKey(w)) && !old(loginHandler.ListenerFree(w.callbackPortFree)) ==>
          loginHandler.server == old(loginHandler.server)
          && (loginHandler.server != null ==> !loginHandler.server.running)
      ensures var e := ChosenEnvironment(environment, bindable, serverBinds, selectorRequests);
        e.Some? && Truthy(ConfiguredKey(w)) && old(loginHandler.ListenerFree(w.callbackPortFree)) ==>
          fresh(loginHandler.server) && loginHandler.server.port == CallbackPort
          && (loginHandler.server.running <==> BaseUrl(EnvironmentOf(e)).Some?
                                               && FirstCallback(CallbackPort, w.callbackRequests).None?)
    {
      var e := environment;
      if !Truthy(environment) {
        var selector := new Selector.EnvironmentSelector();
        var chosen := selector.Show(bindable, serverBinds, selectorRequests);
        if chosen.None? || chosen.value == Selector.CancelChoice {
          return Failure(LoginCancelled);
        }
        e := chosen;
      }
      r := loginHandler.StartLoginFlow(e, w);
      LoginNotCancelled(EnvironmentOf(e), w, old(loginHandler.ListenerFree(w.callbackPortFree)));
    }

    /** The `mcp_salesforce_handle_oauth` tool: `handle_oauth_callback` as it is. */
    method HandleOAuth(url: string) returns (r: Reply)
      modifies loginHandler`sf
      ensures r == Report(CallbackOutcome(url, loginHandler.state))
      ensures r.Success? <==> CallbackOutcome(url, loginHandler.state).Accepted?
      ensures loginHandler.sf == (if r.Success? then Some(CallbackOutcome(url, loginHandler.state).client)
                                  else old(loginHandler.sf))
    {
      r := loginHandler.HandleOAuthCallback(url);
    }

    /** The `mcp_salesforce_logout` tool: the session is cleared and the logout always succeeds. */
    method Logout() returns (r: Reply)
      modifies loginHandler`sf, loginHandler`state, loginHandler.server
      ensures r == Success(LoggedOut)
      ensures loginHandler.GetSf() == None && loginHandler.state == None
      ensures loginHandler.server != null ==> !loginHandler.server.running
    {
      loginHandler.ClearSession();
      r := Success(LoggedOut);
    }

    /**
     * The `mcp_salesforce_query` tool. `execute` is the client's `query_all`;
     * `sent` is the text handed to it. Without a session nothing is sent;
     * a rejected query is not sent; an expired session is cleared.
     */
    method Query(soql: string, execute: string -> Result<string>) returns (r: Reply, sent: Option<string>)
      modifies loginHandler`sf, loginHandler`state, loginHandler.server
      ensures sent == QuerySent(old(loginHandler.sf), soql)
      ensures r == QueryReply(old(loginHandler.sf), soql, execute)
      ensures sent.Some? ==>
        "SELECT" <= Normalized(sent.value)
        && (Contains(Normalized(sent.value), "LIMIT") || Contains(Normalized(sent.value), "COUNT("))
      ensures loginHandler.server == old(loginHandler.server)
      ensures sent.Some? && Expired(execute(sent.value)) ==>
        loginHandler.sf == None && loginHandler.state == None
        && (loginHandler.server != null ==> !loginHandler.server.running)
      ensures !(sent.Some? && Expired(execute(sent.value))) ==>
        loginHandler.sf == old(loginHandler.sf) && loginHandler.state == old(loginHandler.state)
        && (loginHandler.server != null ==> loginHandler.server.running == old(loginHandler.server.running))
    {
      sent := None;
      if loginHandler.GetSf().None? {
        return Failure(NotAuthenticated), None;
      }
      var guarded := QueryGuard(soql);
      if guarded.Err? {
        return Failure(guarded.error), None;
      }
      GuardedQueryBounded(soql);
      sent := Some(guarded.value);
      var outcome := execute(guarded.value);
      if outcome.Err? && Contains(outcome.error, InvalidSessionMarker) {
        loginHandler.ClearSession();
      }
      r := ExecutionReply(outcome);
    }

    /**
     * The `mcp_salesforce_search` tool. `execute` is the client's `search`;
     * the term is sent as it is once there is a session.
     */
    method Search(term: string, execute: string -> Result<string>) returns (r: Reply, sent: Option<string>)
      modifies loginHandler`sf, loginHandler`state, loginHandler.server
      ensures sent == (if old(loginHandler.sf).Some? then Some(term) else None)
      ensures r == (if sent.None? then Failure(NotAuthenticated) else ExecutionReply(execute(term)))
      ensures loginHandler.server == old(loginHandler.server)
      ensures sent.Some? && Expired(execute(term)) ==>
        loginHandler.sf == None && loginHandler.state == None
        && (loginHandler.server != null ==> !loginHandler.server.running)
      ensures !(sent.Some? && Expired(execute(term))) ==>
        loginHandler.sf == old(loginHandler.sf) && loginHandler.state == old(loginHandler.state)
        && (loginHandler.server != null ==> loginHandler.server.running == old(loginHandler.server.running))
    {
      if loginHandler.GetSf().None? {
        return Failure(NotAuthenticated), None;
      }
      sent := Some(term);
      var outcome := execute(term);
      if outcome.Err? && Contains(outcome.error, InvalidSessionMarker) {
        loginHandler.ClearSession();
      }
      r := ExecutionReply(outcome);
    }
  }

  /** A login that reaches `start_login_flow` never reports the cancellation. */
  lemma LoginNotCancelled(environment: string, w: World, listenerFree: bool)
    ensures LoginReply(environment, w, listenerFree) != Failure(LoginCancelled)
  {
    LoginFailures(environment, w, listenerFree);
    assert LoginCancelled[0] == 'L';
  }
}
