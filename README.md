# mcp_salesforce login helper, modelled in Dafny

`mcp_salesforce` is a Goose extension that logs into Salesforce with the
OAuth 2.0 implicit grant (section 4.2 of RFC 6749). The authorize request
goes out through the browser. Salesforce redirects back to a local callback
server with the access token in the URL's fragment. A small page served by
that server sends the fragment back as a `?hash=` query. The extension then
offers read-only query, search and logout tools on the resulting session.

This project models that logic in Dafny and proves what it does:

- `Text` and `Url`: the Python string and `urllib.parse` operations the code
  relies on (`upper`, `strip`, `split`, `unquote`, `quote_plus`/`urlencode`,
  `parse_qs`, the query part of `urlparse`), and the browser's
  `encodeURIComponent`.
- `Auth`: `AuthState` and the mutable `AuthContext` with `update_state`
  (`auth_state.py`).
- `Soql`: the rule chain of `QueryValidator.validate_query`
  (`query_validator.py`).
- `Config`: the configuration page's request handler (`config_handler.py`).
- `Selector`: the environment selector's request handler, its port scan and
  the interpretation of the user's choice (`environment_selector.py`).
- `Login`: the callback server, the parsing and checks of the redirect
  fragment, the authorize URL, and `LoginHandler`. `LoginHandler` drives one
  login through `INITIAL → WAITING_FOR_CONFIG? → OAUTH_FLOW → COMPLETED | ERROR`
  (`login_handler.py`).
- `Tools`: the `login`, `handle_oauth`, `logout`, `query` and `search` tools
  (`server.py`).

Everything outside the process is a parameter. That covers the key stored in
the keyring, whether a port can be bound, the paths the browser requests, the
fresh state token, whether saving the key works, and what the Salesforce
client answers. A wait on a `threading.Event` is modelled as the server
handling a given sequence of requests in order until one of them fires the
event. A timeout is that sequence running out.

The login follows the code. There is one `_state` string, and the callback's
`state` is compared with it by plain equality. `_state` is `None` before any
flow and after `clear_session`. It is never consumed and never expires, so a
replayed redirect is accepted again (`Login.ReplayedCallback`). No code keeps a
registry of state tokens, gives them a time-to-live or rejects a second use,
so the model has none of that either.

## Model

| member | source | states |
|---|---|---|
| Auth.AuthContext.constructor | src/mcp_salesforce/auth_state.py:17-20 | a new context is INITIAL, in `sandbox`, with no instance URL and no error |
| Auth.AuthContext.UpdateState | src/mcp_salesforce/auth_state.py:22-25 | sets the state and the error message (an omitted error clears the old one); environment and instance URL are unchanged; the record becomes `Updated` of the old one; the state is appended to the context's trace |
| Auth.UpdateIdempotent | src/mcp_salesforce/auth_state.py:22-25 | applying the same update twice gives the record that applying it once gives |
| Auth.LastUpdateWins | src/mcp_salesforce/auth_state.py:22-25 | of two updates in a row only the second is visible |
| Soql.ValidateQuery | src/mcp_salesforce/query_validator.py:13-48 | the verdict is valid exactly when it carries no message |
| Soql.FindWord | src/mcp_salesforce/query_validator.py:28 | reports a whole-word match at or after the start, or that there is none there |
| Soql.FirstForbidden | src/mcp_salesforce/query_validator.py:26-29 | the loop's result is a forbidden word that is mentioned, and no earlier word in list order is; no result means none is mentioned |
| Soql.ForbiddenSearch | src/mcp_salesforce/query_validator.py:26-29 | the loop rejects exactly when some forbidden word occurs as a whole word |
| Soql.FindCount | src/mcp_salesforce/query_validator.py:32 | finds the leftmost match of the COUNT pattern, or reports that there is none |
| Soql.CountSearch | src/mcp_salesforce/query_validator.py:32-33 | the match the search reports is the leftmost one, and no match means none anywhere |
| Soql.FindBreak | src/mcp_salesforce/query_validator.py:45 | true exactly when a `;`, optional whitespace and a word character occur somewhere |
| Soql.SelectCheckedFirst | src/mcp_salesforce/query_validator.py:19-23 | text whose upper-cased, stripped form does not start with SELECT is refused with the DML message, before any other rule |
| Soql.ForbiddenNamed | src/mcp_salesforce/query_validator.py:26-29 | a forbidden word mentioned as a whole word is refused, and the message names the first one in list order |
| Soql.EmbeddedWordIgnored | src/mcp_salesforce/query_validator.py:28 | a word running on into a longer identifier (CREATE in CREATEDDATE) is no match there |
| Soql.CountFieldRequired | src/mcp_salesforce/query_validator.py:32-37 | a blank argument to the leftmost COUNT is refused with the field message |
| Soql.CountWhereRequired | src/mcp_salesforce/query_validator.py:40-41 | a COUNT with an argument and no `WHERE` anywhere is refused with the WHERE message |
| Soql.BadCountRejected | src/mcp_salesforce/query_validator.py:32-41 | past the first two rules, either COUNT failure makes the query invalid |
| Soql.StatementsRejected | src/mcp_salesforce/query_validator.py:45-46 | a query that passes the other rules but chains a second statement is refused with the multiple-statements message |
| Soql.TrailingSemicolonAllowed | src/mcp_salesforce/query_validator.py:45 | a lone trailing `;` followed only by whitespace adds no statement break |
| Soql.RulesPassedValid | src/mcp_salesforce/query_validator.py:45-48 | once the first three rules pass, the query is valid exactly when it has no statement break |
| Soql.ValidIffAllRulesPass | src/mcp_salesforce/query_validator.py:13-48 | valid exactly when SELECT comes first, no forbidden word is mentioned, the COUNT rules hold and there is no statement break |
| Text.LStrip | src/mcp_salesforce/query_validator.py:19 | removes exactly the leading whitespace |
| Text.RStrip | src/mcp_salesforce/server.py:104 | removes exactly the trailing whitespace |
| Text.Split | src/mcp_salesforce/login_handler.py:224 | the pieces contain no separator, and joining them gives the text back |
| Text.SplitJoin | src/mcp_salesforce/login_handler.py:224 | splitting a join of separator-free pieces gives the pieces back |
| Text.SplitFirst | src/mcp_salesforce/login_handler.py:226 | the text is the part before, the separator and the part after, and the part before has no separator |
| Url.QuotePlusRoundTrip | src/mcp_salesforce/login_handler.py:176 | `unquote_plus` undoes `quote_plus` on ASCII text |
| Url.UrlEncodeRoundTrip | src/mcp_salesforce/login_handler.py:176 | `parse_qsl` of `urlencode(pairs)` gives the pairs back in order (ASCII, non-blank values) |
| Url.UriComponentRoundTrip | src/mcp_salesforce/login_handler.py:77 | `unquote_plus` undoes the page script's `encodeURIComponent` on ASCII text |
| Url.QueryValueOfEncoded | src/mcp_salesforce/login_handler.py:49-52 | `parse_qs` reads `name=encodeURIComponent(v)` back as exactly `v` |
| Url.UrlQueryOf | src/mcp_salesforce/login_handler.py:49 | the query of `path?q` is `q` when the path has no `?` or `#` |
| Url.UrlQuery | src/mcp_salesforce/login_handler.py:49 | the query part of a URL never holds a `#`, and a URL without `?` has an empty query |
| Url.ParseQsl | src/mcp_salesforce/login_handler.py:49 | `parse_qsl` drops blank values: every pair it returns has a non-empty value |
| Url.QueryValue | src/mcp_salesforce/login_handler.py:49-52 | `query[name][0]`: a value found is non-empty and is the value of a pair named `name`; nothing is found exactly when no pair has that name |
| Url.Decode | src/mcp_salesforce/login_handler.py:227 | `unquote` never lengthens its input and gives a non-empty result for a non-empty input |
| Url.UrlEncode | src/mcp_salesforce/login_handler.py:176 | the encoded parameters hold no `#`, so the authorize URL has no fragment of its own |
| Url.EncodeUriComponent | src/mcp_salesforce/login_handler.py:77 | the result is empty exactly for empty text, and holds only unreserved characters and `%` |
| Config.Route | src/mcp_salesforce/config_handler.py:168-171 | only `/` serves the page; any path starting with `/submit` is a submission carrying the first non-blank `consumer_key`; anything else is unknown |
| Config.ConfigServer.HandleGet | src/mcp_salesforce/config_handler.py:12-206 | a submission with a key stores it and fires the event (200, or 500 when writing the reply fails); `/` gives the page, a blank key 400 and anything else 404, and these change nothing |
| Config.ConfigServer.AwaitSubmission | src/mcp_salesforce/login_handler.py:302-310 | served until the event fires, the server holds the first submitted key, and the event fired exactly when there is one |
| Config.FirstSubmissionFound | src/mcp_salesforce/config_handler.py:171-177 | a key is stored exactly when some request submits a non-blank one |
| Config.FirstSubmission | src/mcp_salesforce/config_handler.py:171-177 | the key the wait ends with is never blank |
| Config.SubmitByPrefix | src/mcp_salesforce/config_handler.py:168-171 | any path starting with `/submit`, `/submitX` included, is read as a submission |
| Config.SubmissionCarriesKey | src/mcp_salesforce/config_handler.py:168-177 | the page's `/submit?consumer_key=` plus the encoded key carries exactly that key, whatever its length |
| Config.BlankKeyRejected | src/mcp_salesforce/config_handler.py:170-203 | a blank `consumer_key` carries no key, so the submission is answered with 400 |
| Selector.FindAvailablePort | src/mcp_salesforce/environment_selector.py:194-203 | returns the first bindable port of the range, and every lower port of the range is in range and not bindable; the no-port error comes exactly when none is bindable, always when there are no attempts; a port outside 0..65535 ends the scan with the bind error |
| Selector.Route | src/mcp_salesforce/environment_selector.py:138-152 | only `/` serves the page; a path starting with `/select` is a choice carrying the first non-blank `env`; anything else is unknown |
| Selector.SelectorServer.HandleGet | src/mcp_salesforce/environment_selector.py:136-183 | a choice with a value stores it, fires the event and answers ok; no value gives 400, `/` the page, others 404, and these store nothing; a failure while replying gives 500 with its text |
| Selector.FirstSelectionFound | src/mcp_salesforce/environment_selector.py:151-154 | a choice is stored exactly when some request carries a non-blank one |
| Selector.FirstSelection | src/mcp_salesforce/environment_selector.py:151-154 | the choice the wait ends with is never blank |
| Selector.Interpret | src/mcp_salesforce/environment_selector.py:228-238 | a choice is returned exactly when the event fired with a non-empty choice other than `cancel`, and then it is that choice |
| Selector.ShowResult | src/mcp_salesforce/environment_selector.py:205-242 | a result is never empty or `cancel`; there is one exactly when a port was found and bound and the first choice made is not `cancel` |
| Selector.EnvironmentSelector.Show | src/mcp_salesforce/environment_selector.py:205-249 | returns `ShowResult`; a started server is fresh, on a port of the scan range, and shut down on every exit |
| Selector.SelectByPrefix | src/mcp_salesforce/environment_selector.py:146-152 | any path starting with `/select` is read as a choice from its query |
| Selector.ChoiceCarried | src/mcp_salesforce/environment_selector.py:146-153 | the page's `/select?env=` plus the encoded choice stores exactly that choice, `cancel` and unknown names included |
| Login.LocalUrl | src/mcp_salesforce/login_handler.py:38 | the local address holds no `#` and no `?` |
| Login.CallbackRoute | src/mcp_salesforce/login_handler.py:36-62 | a path holding `#` is a direct fragment; otherwise a non-blank `hash` query value is a captured fragment carrying exactly that value; anything else gets the capture page |
| Login.RecordedUrl | src/mcp_salesforce/login_handler.py:36-55 | a URL is stored exactly for a direct fragment or a captured one, and it starts with the local address |
| Login.RecordedFragment | src/mcp_salesforce/login_handler.py:36-55 | the stored URL carries the browser's fragment: a path holding `#` keeps its own fragment, and a `hash` query value becomes the fragment |
| Login.CallbackServer.HandleGet | src/mcp_salesforce/login_handler.py:33-91 | a path with `#` or a non-blank `hash` query stores the rebuilt URL and fires the event; any other path gets the capture page and changes nothing; a failure while replying gives a bare 500 |
| Login.CallbackServer.AwaitCallback | src/mcp_salesforce/login_handler.py:183-184 | served until the event fires, the server holds the URL of the first callback, and the event fired exactly when there is one |
| Login.FirstCallbackFound | src/mcp_salesforce/login_handler.py:183-184 | the wait ends in a callback exactly when some request is one |
| Login.FragmentOf | src/mcp_salesforce/login_handler.py:212 | a URL without `#` has no fragment, and the fragment is shorter than the URL |
| Login.FragmentAfterFirstHash | src/mcp_salesforce/login_handler.py:212 | the fragment is everything after the first `#`, further `#`s included |
| Login.ParseFragment | src/mcp_salesforce/login_handler.py:223-227 | the loop builds the dictionary `PieceParams` of the `&`-separated pieces |
| Login.LastBindingWins | src/mcp_salesforce/login_handler.py:223-227 | the dictionary keeps the decoded value of the last piece binding a key |
| Login.UnboundKeyAbsent | src/mcp_salesforce/login_handler.py:223-227 | a key that no piece binds is absent |
| Login.ParamsAgree | src/mcp_salesforce/login_handler.py:223-227 | for every key, the dictionary the loop builds (`PieceParams`) holds exactly the value of the last piece binding it, and nothing when no piece does |
| Login.GrantPiecesParsed | src/mcp_salesforce/login_handler.py:223-227 | `access_token=T&instance_url=I&state=S` gives the three keys, the values percent-decoded and the keys not |
| Login.CallbackOutcome | src/mcp_salesforce/login_handler.py:212-252 | the URL-format error comes exactly when the fragment is empty; a callback is accepted exactly when the fragment is not empty, the parsed `access_token` and `instance_url` are non-empty and the parsed `state` equals the expected state (a missing `state` equals a missing `_state`), and the client is then built from the parsed `instance_url` and `access_token`; the state error comes exactly when only the state differs; every refusal is one of the handler's four errors |
| Login.CallbackLastBindings | src/mcp_salesforce/login_handler.py:223-252 | the same rule read off the pieces: accepted exactly when the last pieces binding `access_token` and `instance_url` are non-empty and the last piece binding `state` gives the expected state; the client comes from those last pieces |
| Login.RedirectOutcome | src/mcp_salesforce/login_handler.py:212-258 | a redirect `before#p1&…&pn` whose last `access_token` and `instance_url` are non-empty is accepted, with those values, exactly when its last `state` (or its lack of one) matches the expected state; otherwise it gets the state error |
| Login.Report | src/mcp_salesforce/login_handler.py:240-264 | success exactly for an accepted callback, and otherwise the refusal's error |
| Login.MissingAccessTokenIsTypeError | src/mcp_salesforce/login_handler.py:232-236 | without an `access_token` piece the callback fails through the `TypeError` raised when the log line slices the token, not through the no-token branch |
| Login.GrantRedirectOutcome | src/mcp_salesforce/login_handler.py:223-258 | a redirect whose fragment is any fields other than the three keys, then `access_token=T&instance_url=I&state=S`, then any further such fields, is accepted with the decoded `I` and `T` exactly when the decoded `S` equals the expected state; otherwise it gets the state error |
| Login.StatelessRedirectAccepted | src/mcp_salesforce/login_handler.py:234-252 | while `_state` is `None`, a redirect whose fragment is other fields around `access_token=T&instance_url=I`, with no `state` field at all, is accepted with the decoded `I` and `T` |
| Login.RecordedFragmentRoundTrip | src/mcp_salesforce/login_handler.py:53 | the fragment of `http://localhost:{port}/#` + `hash` is exactly `hash` |
| Login.HashQueryCaptured | src/mcp_salesforce/login_handler.py:49-55 | the capture page's `?hash=` plus the encoded fragment is stored as a URL whose fragment is exactly that fragment |
| Login.AuthorizeUrl | src/mcp_salesforce/login_handler.py:160-176 | fails exactly for an environment other than `sandbox` and `production`, with the `KeyError`'s text; otherwise starts with the environment's base, the authorize path and `?` |
| Login.BaseUrl | src/mcp_salesforce/login_handler.py:160-164 | a base URL exists exactly for `sandbox` and `production`, and it holds no `?` and no `#` |
| Login.AuthorizeUrlQuery | src/mcp_salesforce/login_handler.py:166-176 | reading the authorize URL's query back gives exactly the seven parameters in order: `response_type=token`, the client id, the redirect URI, the state, `scope=api full refresh_token`, `prompt=login consent select_account` and `display=page` |
| Login.CallbackReply | src/mcp_salesforce/login_handler.py:183-194 | a timeout gives the timeout error; success exactly when a callback arrived and is accepted |
| Login.OAuthReply | src/mcp_salesforce/login_handler.py:149-204 | the flow succeeds exactly when the port was bound, the environment is known, and a callback arrived and is accepted |
| Login.SessionAfter | src/mcp_salesforce/login_handler.py:255-258 | the session changes only for an accepted callback |
| Login.FlowSession | src/mcp_salesforce/login_handler.py:149-204 | the session after `_start_oauth_flow` changes only when the flow succeeds, and a success installs the accepted callback's client |
| Login.ScreenKey | src/mcp_salesforce/login_handler.py:310-320 | the screen never hands back an empty key |
| Login.LoginReply | src/mcp_salesforce/login_handler.py:104-139 | a login succeeds only with a configured key, a free port and a known environment |
| Login.LoginFailures | src/mcp_salesforce/login_handler.py:104-147 | every failed login carries the configuration, bind, environment, timeout or callback error |
| Login.LoginHandler.constructor | src/mcp_salesforce/login_handler.py:94-102 | no session, no state, no server, no client id; the redirect URI is the callback address; a default context |
| Login.LoginHandler.GetSf | src/mcp_salesforce/login_handler.py:360-362 | returns the current session: the last accepted callback's client, and nothing after `clear_session` |
| Login.LoginHandler.HandleOAuthCallback | src/mcp_salesforce/login_handler.py:206-271 | replies with `Report(CallbackOutcome(url, _state))`; only an accepted callback replaces the session, and every failure leaves it unchanged |
| Login.ReplayedCallback | src/mcp_salesforce/login_handler.py:247-252 | the same callback URL handled twice gets the same reply, because `_state` is not consumed |
| Login.LoginHandler.ShowConfigurationScreen | src/mcp_salesforce/login_handler.py:292-329 | the first submitted key, when the server binds and saving succeeds; nothing otherwise |
| Login.LoginHandler.AwaitAndHandle | src/mcp_salesforce/login_handler.py:183-194 | a timeout leaves the server listening; a callback shuts it down, and its reply and session are `handle_oauth_callback`'s |
| Login.LoginHandler.LaunchOAuthFlow | src/mcp_salesforce/login_handler.py:156-204 | a fresh server on the callback port; an unknown environment fails and shuts it down; otherwise the browser gets the authorize URL and the reply is the callback's |
| Login.LoginHandler.StartOAuthFlow | src/mcp_salesforce/login_handler.py:149-204 | stores the fresh state; the reply is `OAuthReply` and the session `FlowSession`; a busy port (including a previous server still listening) fails, keeps the server and shuts it down; otherwise the server is a fresh one on port 8787 that is still listening exactly when the environment is known and the wait timed out |
| Login.LoginHandler.PrepareLogin | src/mcp_salesforce/login_handler.py:109-125 | a fresh context for the environment (default `sandbox`); the stored key or the screen's; without either the context ends in ERROR with "Configuration required" |
| Login.LoginHandler.RunOAuthFlow | src/mcp_salesforce/login_handler.py:127-139 | the context enters OAUTH_FLOW, then ends in COMPLETED on success or in ERROR with the flow's error; the reply is the flow's, unchanged; the state, session and callback server are those `_start_oauth_flow` leaves |
| Login.LoginHandler.StartLoginFlow | src/mcp_salesforce/login_handler.py:104-147 | the reply is `LoginReply`; the trace is legal, enters OAUTH_FLOW exactly when a key is configured, and passes WAITING_FOR_CONFIG exactly when none was stored; COMPLETED exactly on success; without a key nothing but the context and client id changes, and a callback server left listening stays listening; with one, the state is the fresh one, the session is `FlowSession`, and the callback server is the old one shut down after a failed bind or a fresh one on port 8787 otherwise |
| Login.LoginHandler.ClearSession | src/mcp_salesforce/login_handler.py:351-358 | no session, no state, and any callback server is shut down |
| Tools.QueryGuard | src/mcp_salesforce/server.py:86-105 | the SELECT error exactly without a SELECT prefix; the COUNT error exactly for `COUNT(` without `WHERE`; otherwise the query, with `LIMIT 200` appended to its right-stripped text exactly when neither `LIMIT` nor `COUNT(` occurs |
| Tools.GuardedQueryBounded | src/mcp_salesforce/server.py:86-105 | any query the guard lets through starts with SELECT and contains `LIMIT` or `COUNT(` |
| Tools.QueryGuardIdempotent | src/mcp_salesforce/server.py:103-104 | a query the guard already passed or rewrote passes it unchanged |
| Tools.RewriteNormalized | src/mcp_salesforce/server.py:104 | the guard reads the rewritten query as the original one followed by the limit clause |
| Tools.ExecutionReply | src/mcp_salesforce/server.py:108-124 | results exactly on success; an `INVALID_SESSION_ID` error becomes "Session expired"; any other error is returned as it is |
| Tools.QueryReply | src/mcp_salesforce/server.py:78-124 | no session gives "Not authenticated"; a query the guard refuses gets the guard's error; results only with a session, a guarded query and a successful execution |
| Tools.QuerySent | src/mcp_salesforce/server.py:78-110 | a query is sent exactly when there is a session and the guard passes it |
| Tools.LoginEnvironment | src/mcp_salesforce/server.py:33-44 | a truthy environment is kept; otherwise the selector's choice, and the login is cancelled exactly when that is missing or `cancel` |
| Tools.SelectorNeverCancels | src/mcp_salesforce/server.py:36-42 | the selector never returns `cancel`, so only a missing choice cancels |
| Tools.LoginNotCancelled | src/mcp_salesforce/server.py:47 | a login that reaches `start_login_flow` never reports the cancellation |
| Tools.Extension.Login | src/mcp_salesforce/server.py:31-51 | a cancelled selection returns "Login cancelled" without touching the login handler (session, state, context, client id, server and its listening); otherwise the reply, the context, the client id, the state, the session and the callback server are what `start_login_flow` leaves for the chosen environment |
| Tools.Extension.HandleOAuth | src/mcp_salesforce/server.py:58-62 | the reply is `handle_oauth_callback`'s; an accepted callback installs its client as the session and any other leaves the session as it was |
| Tools.Extension.Logout | src/mcp_salesforce/server.py:64-72 | always succeeds, and afterwards there is no session, no state and no listening callback server |
| Tools.Extension.Query | src/mcp_salesforce/server.py:74-128 | without a session nothing is sent; whatever is sent starts with SELECT and is bounded; an expired session is cleared and the callback server shut down; otherwise session, state and the server's listening are unchanged |
| Tools.Extension.Search | src/mcp_salesforce/server.py:130-161 | without a session nothing is sent; the term is sent as it is; an expired session is cleared and the callback server shut down; otherwise session, state and the server's listening are unchanged |

## Left out

- Sockets, `HTTPServer`, `serve_forever`, threads and `shutdown`/`server_close` are I/O and concurrency. A server is an object with a `running` flag, and its thread is the ordered sequence of requests it handles.
- The 300-second and 60-second waits are clocks. A timeout is the request sequence ending before the event fires. Requests that arrive after the event but before `shutdown` are not modelled.
- `keyring.get_password`/`set_password` are external storage. They become the stored key and a save-succeeds flag, and a failing read is the same as no key.
- `webbrowser.open` is I/O. The authorize URL handed to it is an out-parameter of `Login.LoginHandler.LaunchOAuthFlow`. Opening the configuration and selector pages is not modelled.
- `secrets.token_urlsafe` is randomness. The fresh state is a parameter.
- The Salesforce client is a foreign call. `Salesforce(...)` becomes a record of instance URL and token, and is assumed not to raise. `query_all` and `search` are a function from the sent text to results or an error text.
- `salesforce.py`, logging, `run_mcp_server`, `__main__.py`, `run.py` and `setup.py` are outside the login logic.
- The HTML, CSS and JavaScript texts are static output. The page is one opaque body. Only the pages' `encodeURIComponent` calls are modelled.
- `Text.UpperChar`: upper-cases ASCII letters only; Python's `str.upper` also maps other letters.
- `Text.IsWordChar`: `\w` is ASCII-only here; Python's Unicode `\w` also matches other letters and digits.
- `Url.Decode`: a `%XX` escape becomes the character with code XX. Python decodes escaped bytes of 0x80 and above as UTF-8, so the round-trip lemmas are stated for ASCII text only.
- `Login.AuthorizeUrl`: the error text is `'` + environment + `'`. This is the `KeyError`'s text only when `repr` of the environment adds no escapes.
- `Login.LoginHandler.StartOAuthFlow`: a failed bind is reported with the Linux text "[Errno 98] Address already in use". Other bind errors are not modelled.
- The outer `except Exception` of `start_login_flow` and of the tools cannot be reached once every inner failure is modelled as a reply. The tools' string arguments cannot be of the wrong type.
- The `_server_thread` and `self.thread` fields only hold threads, and threads are not modelled.
- `Config.ConfigServer.HandleGet`: only a failure while writing the success reply of a submission is modelled, since it is the only one the handler catches. Failures in the other branches reach the server and are not modelled.
- `SandboxLogin` is declared in `Auth.AuthState` but no code enters it.
