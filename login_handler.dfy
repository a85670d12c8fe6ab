/**
 * The OAuth 2.0 implicit-grant login (section 4.2 of RFC 6749): the local
 * callback server that captures the redirect's fragment, the fragment's
 * parsing and checks, the authorize URL, and the `LoginHandler` that drives
 * one login through its states.
 */
module Login {
  import opened Wrappers
  import opened Text
  import opened Url
  import opened Http
  import opened Auth
  import Config

  const CallbackPort := 8787
  /** `LoginHandler.callback_url`, sent as the `redirect_uri`. */
  const RedirectUri := "http://localhost:8787"
  const AuthorizePath := "/services/oauth2/authorize"

  /** The fragment fields the callback reads, and the query field the capture page sends the fragment in. */
  const AccessTokenKey := "access_token"
  const InstanceUrlKey := "instance_url"
  const StateKey := "state"
  const HashField := "hash"

  const AuthenticatedPage := "Authentication successful! You can close this window."
  const InvalidCallbackUrl := "Invalid callback URL format"
  /** What slicing the missing access token (`None[:10]`) raises. */
  const NoneNotSubscriptable := "'NoneType' object is not subscriptable"
  const NoAccessToken := "Authentication failed - no access token received"
  const InvalidState := "Invalid state parameter"
  const Authenticated := "Successfully authenticated with Salesforce"
  const CallbackTimeout := "Timeout waiting for authentication"
  /** What binding the callback port raises while something listens on it. */
  const AddressInUse := "[Errno 98] Address already in use"
  /** The error the auth context records when no key could be configured … */
  const ConfigurationMissing := "Configuration required"
  /** … and the different error the login returns in that case. */
  const ConfigurationRequired := "Configuration required. Please configure the Consumer Key."

  /** The Salesforce client built from a successful callback. */
  datatype SalesforceClient = SalesforceClient(instanceUrl: string, sessionId: string)

  /** Python truthiness of an optional string. */
  predicate Truthy(s: Option<string>) {
    s.Some? && s.value != ""
  }

  // ---------------------------------------------------------------------------
  // The callback server (`OAuthCallbackHandler.do_GET`)
  // ---------------------------------------------------------------------------

  /** The three ways the callback handler reads a path. */
  datatype CallbackRequest = DirectFragment | HashQuery(fragment: string) | CapturePage

  function CallbackRoute(path: string): (r: CallbackRequest)
    ensures r == DirectFragment <==> '#' in path
    ensures r.HashQuery? <==> '#' !in path && QueryValue(UrlQuery(path), HashField).Some?
    ensures r.HashQuery? ==> r.fragment != "" && QueryValue(UrlQuery(path), HashField) == Some(r.fragment)
  {
    if '#' in path then DirectFragment
    else match QueryValue(UrlQuery(path), HashField)
      case Some(f) => HashQuery(f)
      case None => CapturePage
  }

  function LocalUrl(port: int): (u: string)
    ensures '#' !in u && '?' !in u
  {
    var digits := IntToString(port);
    assert '#' !in digits && '?' !in digits;
    "http://localhost:" + digits
  }

  /**
   * The URL the handler stores for a path, if the path is a callback: the
   * local address followed by something that carries the browser's fragment.
   */
  function RecordedUrl(port: int, path: string): (u: Option<string>)
    ensures u.Some? <==> CallbackRoute(path) != CapturePage
    ensures u.Some? ==> LocalUrl(port) <= u.value
  {
    match CallbackRoute(path)
    case DirectFragment => Some(LocalUrl(port) + path)
    case HashQuery(f) => Some(LocalUrl(port) + "/#" + f)
    case CapturePage => None
  }

  /**
   * The stored URL carries the browser's fragment: a path holding `#` keeps
   * its own, and a `hash` query becomes the fragment.
   */
  lemma RecordedFragment(port: int, path: string)
    ensures '#' in path ==> FragmentOf(RecordedUrl(port, path).value) == FragmentOf(path)
    ensures CallbackRoute(path).HashQuery? ==>
      FragmentOf(RecordedUrl(port, path).value) == CallbackRoute(path).fragment
  {
    match CallbackRoute(path)
    case DirectFragment => FragmentBehind(LocalUrl(port), path);
    case HashQuery(f) => RecordedFragmentRoundTrip(port, f);
    case CapturePage =>
  }

  /** The URL stored by the first of `requests` that is a callback. */
  function FirstCallback(port: int, requests: seq<string>): (u: Option<string>)
    decreases |requests|
  {
    if |requests| == 0 then None
    else if RecordedUrl(port, requests[0]).Some? then RecordedUrl(port, requests[0])
    else FirstCallback(port, requests[1..])
  }

  /** The wait ends in a callback exactly when some request is one. */
  lemma {:induction false} FirstCallbackFound(port: int, requests: seq<string>)
    ensures FirstCallback(port, requests).Some? <==>
      exists i :: 0 <= i < |requests| && RecordedUrl(port, requests[i]).Some?
    decreases |requests|
  {
    if |requests| > 0 {
      FirstCallbackFound(port, requests[1..]);
      assert forall i :: 1 <= i < |requests| ==> requests[i] == requests[1..][i - 1];
      if RecordedUrl(port, requests[0]).None? {
        forall i | 0 <= i < |requests| && RecordedUrl(port, requests[i]).Some?
          ensures exists j :: 0 <= j < |requests[1..]| && RecordedUrl(port, requests[1..][j]).Some?
        {
          assert requests[1..][i - 1] == requests[i];
        }
      }
    }
  }

  class CallbackServer {
    const port: int
    var callbackUrl: Option<string>
    var callbackReceived: bool
    var running: bool

    constructor (port: int)
      ensures this.port == port
      ensures callbackUrl == None && !callbackReceived && running
    {
      this.port := port;
      callbackUrl := None;
      callbackReceived := false;
      running := true;
    }

    /**
     * `do_GET`. A callback stores its URL and fires the event; any other
     * request is answered with the page whose script sends the fragment back
     * as `?hash=`. `writeError` is an exception raised while replying, which
     * the handler answers with a bare 500 after the URL is stored.
     */
    method HandleGet(path: string, writeError: Option<string>) returns (resp: Response)
      modifies this`callbackUrl, this`callbackReceived
      ensures RecordedUrl(port, path).Some? ==> callbackUrl == RecordedUrl(port, path) && callbackReceived
      ensures RecordedUrl(port, path).None? ==>
        callbackUrl == old(callbackUrl) && callbackReceived == old(callbackReceived)
      ensures resp == (if writeError.Some? then Response(500, NoBody)
                       else if RecordedUrl(port, path).Some? then Response(200, Plain(AuthenticatedPage))
                       else Response(200, Page))
    {
      var recorded := RecordedUrl(port, path);
      if recorded.Some? {
        callbackUrl := recorded;
        callbackReceived := true;
        resp := Response(200, Plain(AuthenticatedPage));
      } else {
        resp := Response(200, Page);
      }
      if writeError.Some? {
        resp := Response(500, NoBody);
      }
    }

    /**
     * Serves `requests` in order until one of them fires the event, as the
     * server thread does while `_start_oauth_flow` waits.
     */
    method AwaitCallback(requests: seq<string>)
      requires callbackUrl == None && !callbackReceived
      modifies this`callbackUrl, this`callbackReceived
      ensures callbackUrl == FirstCallback(port, requests)
      ensures callbackReceived <==> callbackUrl.Some?
    {
      var i := 0;
      while i < |requests| && !callbackReceived
        invariant 0 <= i <= |requests|
        invariant !callbackReceived ==>
          callbackUrl == None && FirstCallback(port, requests) == FirstCallback(port, requests[i..])
        invariant callbackReceived ==> callbackUrl == FirstCallback(port, requests) && callbackUrl.Some?
      {
        assert requests[i..] == [requests[i]] + requests[i + 1..];
        var _ := HandleGet(requests[i], None);
        i := i + 1;
      }
    }

    method Shutdown()
      modifies this`running
      ensures !running
    {
      running := false;
    }
  }

  // ---------------------------------------------------------------------------
  // The fragment (`handle_oauth_callback`)
  // ---------------------------------------------------------------------------

  /** Everything after the first `#`, or nothing when there is no `#`. */
  function FragmentOf(url: string): (f: string)
    ensures '#' !in url ==> f == ""
    ensures |f| < |url| || url == ""
  {
    if '#' in url then SplitFirst(url, '#').1 else ""
  }

  /** A piece with an `=` binds the text before its first `=` … */
  function PieceKey(piece: string): string
    requires '=' in piece
  {
    SplitFirst(piece, '=').0
  }

  /** … to the percent-decoded text after it; the key is not decoded. */
  function PieceValue(piece: string): string
    requires '=' in piece
  {
    Unquote(SplitFirst(piece, '=').1)
  }

  predicate Binds(piece: string, key: string) {
    '=' in piece && PieceKey(piece) == key
  }

  /** The dictionary the loop over `pieces` builds: later pieces overwrite earlier ones. */
  function PieceParams(pieces: seq<string>): map<string, string>
    decreases |pieces|
  {
    if |pieces| == 0 then map[]
    else
      var params := PieceParams(pieces[..|pieces| - 1]);
      var piece := pieces[|pieces| - 1];
      if '=' in piece then params[PieceKey(piece) := PieceValue(piece)] else params
  }

  /** The loop of `handle_oauth_callback` that fills `params` from the fragment's `&`-separated pieces. */
  method ParseFragment(fragment: string) returns (params: map<string, string>)
    ensures params == PieceParams(Split(fragment, '&'))
  {
    var pieces := Split(fragment, '&');
    params := map[];
    var i := 0;
    while i < |pieces|
      invariant 0 <= i <= |pieces|
      invariant params == PieceParams(pieces[..i])
    {
      var piece := pieces[i];
      PrefixStep(pieces, i);
      if '=' in piece {
        var (key, value) := SplitFirst(piece, '=');
        params := params[key := Unquote(value)];
      }
      i := i + 1;
    }
    assert pieces[..|pieces|] == pieces;
  }

  /** One more piece of the loop: the dictionary of the longer prefix. */
  lemma PrefixStep(pieces: seq<string>, i: nat)
    requires i < |pieces|
    ensures PieceParams(pieces[..i + 1]) ==
      if '=' in pieces[i] then PieceParams(pieces[..i])[PieceKey(pieces[i]) := PieceValue(pieces[i])]
      else PieceParams(pieces[..i])
  {
    assert pieces[..i + 1][..i] == pieces[..i];
  }

  /** The value of the last piece binding `key` is the one the dictionary keeps. */
  lemma {:induction false} LastBindingWins(pieces: seq<string>, key: string, i: nat)
    requires i < |pieces| && Binds(pieces[i], key)
    requires forall j :: i < j < |pieces| ==> !Binds(pieces[j], key)
    ensures key in PieceParams(pieces) && PieceParams(pieces)[key] == PieceValue(pieces[i])
    decreases |pieces|
  {
    var init := pieces[..|pieces| - 1];
    if i < |pieces| - 1 {
      assert init[i] == pieces[i];
      forall j | i < j < |init| ensures !Binds(init[j], key) {
        assert init[j] == pieces[j];
      }
      LastBindingWins(init, key, i);
    }
  }

  /** A key no piece binds is absent from the dictionary. */
  lemma {:induction false} UnboundKeyAbsent(pieces: seq<string>, key: string)
    requires forall i :: 0 <= i < |pieces| ==> !Binds(pieces[i], key)
    ensures key !in PieceParams(pieces)
    decreases |pieces|
  {
    if |pieces| > 0 {
      var init := pieces[..|pieces| - 1];
      forall j | 0 <= j < |init| ensures !Binds(init[j], key) {
        assert init[j] == pieces[j];
      }
      UnboundKeyAbsent(init, key);
    }
  }

  /** `params.get(key)`. */
  function Get(params: map<string, string>, key: string): Option<string> {
    if key in params then Some(params[key]) else None
  }

  /** What a callback URL amounts to, against the expected `_state`. */
  datatype CallbackVerdict = Accepted(client: SalesforceClient) | Rejected(error: string)

  /**
   * The checks of `handle_oauth_callback`, in their order: a fragment must be
   * there; a missing `access_token` fails when the log line slices it; both
   * tokens must be non-empty; the received `state` must equal the expected
   * one, `None` matching `None`.
   */
  function CallbackOutcome(url: string, expected: Option<string>): (v: CallbackVerdict)
    ensures v == Rejected(InvalidCallbackUrl) <==> FragmentOf(url) == ""
    ensures v.Rejected? ==> CallbackError(v.error)
    ensures var params := PieceParams(Split(FragmentOf(url), '&'));
      v.Accepted? <==> FragmentOf(url) != "" && Truthy(Get(params, AccessTokenKey))
                       && Truthy(Get(params, InstanceUrlKey)) && Get(params, StateKey) == expected
    ensures var params := PieceParams(Split(FragmentOf(url), '&'));
      v.Accepted? ==> v.client == SalesforceClient(params[InstanceUrlKey], params[AccessTokenKey])
    ensures var params := PieceParams(Split(FragmentOf(url), '&'));
      v == Rejected(InvalidState) <==> FragmentOf(url) != "" && Truthy(Get(params, AccessTokenKey))
                                       && Truthy(Get(params, InstanceUrlKey)) && Get(params, StateKey) != expected
    ensures v.Accepted? ==> v.client.instanceUrl != "" && v.client.sessionId != ""
  {
    var fragment := FragmentOf(url);
    if fragment == "" then Rejected(InvalidCallbackUrl)
    else
      var params := PieceParams(Split(fragment, '&'));
      var accessToken := Get(params, AccessTokenKey);
      var instanceUrl := Get(params, InstanceUrlKey);
      if accessToken.None? then Rejected(NoneNotSubscriptable)
      else if !Truthy(accessToken) || !Truthy(instanceUrl) then Rejected(NoAccessToken)
      else if Get(params, StateKey) != expected then Rejected(InvalidState)
      else Accepted(SalesforceClient(instanceUrl.value, accessToken.value))
  }

  /** The errors `handle_oauth_callback` reports. */
  predicate CallbackError(e: string) {
    e == InvalidCallbackUrl || e == NoneNotSubscriptable || e == NoAccessToken || e == InvalidState
  }

  /** The reply `handle_oauth_callback` gives for a verdict. */
  function Report(v: CallbackVerdict): (r: Reply)
    ensures r.Success? <==> v.Accepted?
    ensures v.Rejected? ==> r == Failure(v.error)
  {
    match v
    case Accepted(_) => Success(Authenticated)
    case Rejected(e) => Failure(e)
  }

  /** The fragment is what follows the first `#`, whatever it contains. */
  lemma FragmentAfterFirstHash(before: string, f: string)
    requires '#' !in before
    ensures FragmentOf(before + "#" + f) == f
  {
    SplitFirstUnique(before + "#" + f, '#', before, f);
  }

  /** The handler's `http://localhost:{port}/#` + `hash` gives back exactly the `hash` value. */
  lemma RecordedFragmentRoundTrip(port: int, h: string)
    ensures FragmentOf(LocalUrl(port) + "/#" + h) == h
  {
    FragmentAfterFirstHash(LocalUrl(port) + "/", h);
    assert LocalUrl(port) + "/#" + h == (LocalUrl(port) + "/") + "#" + h;
  }

  lemma HashFieldUnreserved()
    ensures AllUnreserved(HashField)
  {
  }

  /**
   * The capture page sends the fragment back as `?hash=` + `encodeURIComponent(fragment)`;
   * the stored URL then carries exactly that fragment.
   */
  lemma HashQueryCaptured(port: int, prefix: string, query: string, fragment: string)
    requires '?' !in prefix && '#' !in prefix
    requires IsAscii(fragment) && fragment != ""
    requires query == HashField + "=" + EncodeUriComponent(fragment)
    ensures CallbackRoute(prefix + "?" + query) == HashQuery(fragment)
    ensures RecordedUrl(port, prefix + "?" + query) == Some(LocalUrl(port) + "/#" + fragment)
    ensures FragmentOf(RecordedUrl(port, prefix + "?" + query).value) == fragment
  {
    HashFieldUnreserved();
    QueryValueOfEncoded(HashField, fragment);
    UrlQueryOf(prefix, query);
    var path := prefix + "?" + query;
    assert '#' !in path;
    RecordedFragmentRoundTrip(port, fragment);
  }

  /** Text without a `#` put in front of a URL does not change its fragment. */
  lemma FragmentBehind(prefix: string, path: string)
    requires '#' !in prefix && '#' in path
    ensures FragmentOf(prefix + path) == FragmentOf(path)
  {
    var parts := SplitFirst(path, '#');
    var before, f := parts.0, parts.1;
    FragmentAfterFirstHash(before, f);
    assert prefix + path == (prefix + before) + "#" + f;
    FragmentAfterFirstHash(prefix + before, f);
  }

  /** Without an `access_token` piece the callback fails through the `TypeError`, not the "no access token" branch. */
  lemma MissingAccessTokenIsTypeError(url: string, expected: Option<string>)
    requires FragmentOf(url) != ""
    requires forall p :: p in Split(FragmentOf(url), '&') ==> !Binds(p, AccessTokenKey)
    ensures CallbackOutcome(url, expected) == Rejected(NoneNotSubscriptable)
  {
    var pieces := Split(FragmentOf(url), '&');
    forall i | 0 <= i < |pieces| ensures !Binds(pieces[i], AccessTokenKey) {
      assert pieces[i] in pieces;
    }
    UnboundKeyAbsent(pieces, AccessTokenKey);
  }

  lemma KeysPlain()
    ensures '=' !in AccessTokenKey && '=' !in InstanceUrlKey && '=' !in StateKey
    ensures '&' !in AccessTokenKey && '&' !in InstanceUrlKey && '&' !in StateKey
  {
  }

  /** `key=value` binds `key` to the decoded `value`. */
  lemma PieceOf(key: string, value: string)
    requires '=' !in key
    ensures '=' in key + "=" + value
    ensures PieceKey(key + "=" + value) == key && PieceValue(key + "=" + value) == Unquote(value)
  {
    SplitFirstUnique(key + "=" + value, '=', key, value);
  }

  lemma ParamsSnoc(ps: seq<string>, piece: string)
    requires '=' in piece
    ensures PieceParams(ps + [piece]) == PieceParams(ps)[PieceKey(piece) := PieceValue(piece)]
  {
    assert (ps + [piece])[..|ps|] == ps;
  }

  /** The pieces `access_token=T`, `instance_url=I`, `state=S` of an implicit-grant redirect. */
  function GrantPieces(token: string, instance: string, st: string): seq<string> {
    [AccessTokenKey + "=" + token, InstanceUrlKey + "=" + instance, StateKey + "=" + st]
  }

  lemma GrantPiecesParsed(token: string, instance: string, st: string)
    ensures PieceParams(GrantPieces(token, instance, st))
      == map[AccessTokenKey := Unquote(token), InstanceUrlKey := Unquote(instance), StateKey := Unquote(st)]
  {
    KeysPlain();
    var p0 := AccessTokenKey + "=" + token;
    var p1 := InstanceUrlKey + "=" + instance;
    var p2 := StateKey + "=" + st;
    PieceOf(AccessTokenKey, token);
    PieceOf(InstanceUrlKey, instance);
    PieceOf(StateKey, st);
    ParamsSnoc([], p0);
    assert [] + [p0] == [p0];
    ParamsSnoc([p0], p1);
    assert [p0] + [p1] == [p0, p1];
    ParamsSnoc([p0, p1], p2);
    assert [p0, p1] + [p2] == GrantPieces(token, instance, st);
  }

  lemma KeysDistinct()
    ensures AccessTokenKey != InstanceUrlKey && AccessTokenKey != StateKey && InstanceUrlKey != StateKey
  {
    assert AccessTokenKey[0] != InstanceUrlKey[0];
    assert |AccessTokenKey| != |StateKey|;
    assert |InstanceUrlKey| != |StateKey|;
  }

  /**
   * An independent reading of the fragment: the decoded value of the last
   * piece that binds `key`, found by scanning from the end.
   */
  function LastValue(pieces: seq<string>, key: string): Option<string>
    decreases |pieces|
  {
    if |pieces| == 0 then None
    else if Binds(pieces[|pieces| - 1], key) then Some(PieceValue(pieces[|pieces| - 1]))
    else LastValue(pieces[..|pieces| - 1], key)
  }

  /** For every key, the loop's dictionary holds exactly the value of the last piece binding it. */
  lemma {:induction false} ParamsAgree(pieces: seq<string>, key: string)
    ensures Get(PieceParams(pieces), key) == LastValue(pieces, key)
    decreases |pieces|
  {
    if |pieces| > 0 {
      ParamsAgree(pieces[..|pieces| - 1], key);
    }
  }

  /** Later pieces hide the earlier bindings of the keys they bind, and only those. */
  lemma {:induction false} LastValueAppend(a: seq<string>, b: seq<string>, key: string)
    ensures LastValue(a + b, key) == if LastValue(b, key).Some? then LastValue(b, key) else LastValue(a, key)
    decreases |b|
  {
    if |b| == 0 {
      assert a + b == a;
    } else {
      assert (a + b)[..|a + b| - 1] == a + b[..|b| - 1];
      LastValueAppend(a, b[..|b| - 1], key);
    }
  }

  /**
   * Pieces of a redirect other than the three the callback reads, such as
   * `id`, `issued_at`, `signature`, `scope` and `token_type`.
   */
  predicate OtherFields(pieces: seq<string>) {
    forall i :: 0 <= i < |pieces| ==>
      '&' !in pieces[i] && !Binds(pieces[i], AccessTokenKey) && !Binds(pieces[i], InstanceUrlKey)
      && !Binds(pieces[i], StateKey)
  }

  lemma {:induction false} OtherFieldsUnbound(pieces: seq<string>, key: string)
    requires OtherFields(pieces)
    requires key == AccessTokenKey || key == InstanceUrlKey || key == StateKey
    ensures LastValue(pieces, key) == None
    decreases |pieces|
  {
    if |pieces| > 0 {
      var init := pieces[..|pieces| - 1];
      assert forall i :: 0 <= i < |init| ==> init[i] == pieces[i];
      OtherFieldsUnbound(init, key);
    }
  }

  /** A fragment with a piece that binds something is not empty. */
  lemma BoundFragment(pieces: seq<string>, key: string)
    requires |pieces| >= 1 && LastValue(pieces, key).Some?
    ensures Join(pieces, '&') != ""
  {
    if |pieces| == 1 {
      assert pieces[..0] == [];
      assert '=' in pieces[0];
    }
  }

  /**
   * Any redirect whose fragment carries a non-empty `access_token` and
   * `instance_url`, among whatever other fields and in whatever order, is
   * accepted exactly when its last `state` value, or its lack of one,
   * matches the expected state; the client is then built from the last
   * `instance_url` and `access_token`. Otherwise it gets the state error.
   */
  lemma RedirectOutcome(before: string, pieces: seq<string>, expected: Option<string>)
    requires '#' !in before
    requires |pieces| >= 1 && forall p :: p in pieces ==> '&' !in p
    requires Truthy(LastValue(pieces, AccessTokenKey)) && Truthy(LastValue(pieces, InstanceUrlKey))
    ensures CallbackOutcome(before + "#" + Join(pieces, '&'), expected)
      == if LastValue(pieces, StateKey) == expected
         then Accepted(SalesforceClient(LastValue(pieces, InstanceUrlKey).value, LastValue(pieces, AccessTokenKey).value))
         else Rejected(InvalidState)
  {
    var fragment := Join(pieces, '&');
    SplitJoin(pieces, '&');
    BoundFragment(pieces, AccessTokenKey);
    FragmentAfterFirstHash(before, fragment);
    ParamsAgree(pieces, AccessTokenKey);
    ParamsAgree(pieces, InstanceUrlKey);
    ParamsAgree(pieces, StateKey);
  }

  /**
   * The state rule read off the pieces themselves: a callback is accepted
   * exactly when its fragment is not empty, the last pieces binding
   * `access_token` and `instance_url` give non-empty values, and the last
   * piece binding `state` gives the expected state (no such piece matching
   * a missing one); the client comes from those last pieces.
   */
  lemma CallbackLastBindings(url: string, expected: Option<string>)
    ensures var pieces := Split(FragmentOf(url), '&');
      CallbackOutcome(url, expected).Accepted? <==>
        FragmentOf(url) != "" && Truthy(LastValue(pieces, AccessTokenKey))
        && Truthy(LastValue(pieces, InstanceUrlKey)) && LastValue(pieces, StateKey) == expected
    ensures var pieces := Split(FragmentOf(url), '&');
      CallbackOutcome(url, expected).Accepted? ==>
        CallbackOutcome(url, expected).client
          == SalesforceClient(LastValue(pieces, InstanceUrlKey).value, LastValue(pieces, AccessTokenKey).value)
  {
    var pieces := Split(FragmentOf(url), '&');
    ParamsAgree(pieces, AccessTokenKey);
    ParamsAgree(pieces, InstanceUrlKey);
    ParamsAgree(pieces, StateKey);
  }

  /** One more piece at the end: it decides the keys it binds. */
  lemma LastValueSnoc(ps: seq<string>, piece: string, key: string)
    ensures LastValue(ps + [piece], key) == if Binds(piece, key) then Some(PieceValue(piece)) else LastValue(ps, key)
  {
    assert (ps + [piece])[..|ps|] == ps;
  }

  /** `key=value` binds `key`, to the decoded `value`, and no other key. */
  lemma PieceBinds(key: string, value: string)
    requires '=' !in key
    ensures Binds(key + "=" + value, key) && PieceValue(key + "=" + value) == Unquote(value)
    ensures forall other :: other != key ==> !Binds(key + "=" + value, other)
  {
    PieceOf(key, value);
  }

  /** The three grant pieces bind their keys to the decoded values. */
  lemma GrantLastValues(token: string, instance: string, st: string)
    ensures var g := GrantPieces(token, instance, st);
      LastValue(g, AccessTokenKey) == Some(Unquote(token)) && LastValue(g, InstanceUrlKey) == Some(Unquote(instance))
      && LastValue(g, StateKey) == Some(Unquote(st))
  {
    KeysPlain();
    KeysDistinct();
    var p0, p1, p2 := AccessTokenKey + "=" + token, InstanceUrlKey + "=" + instance, StateKey + "=" + st;
    PieceBinds(AccessTokenKey, token);
    PieceBinds(InstanceUrlKey, instance);
    PieceBinds(StateKey, st);
    assert GrantPieces(token, instance, st) == [p0, p1] + [p2];
    assert [p0, p1] == [p0] + [p1];
    LastValueSnoc([p0, p1], p2, AccessTokenKey);
    LastValueSnoc([p0, p1], p2, InstanceUrlKey);
    LastValueSnoc([p0, p1], p2, StateKey);
    LastValueSnoc([p0], p1, AccessTokenKey);
    LastValueSnoc([p0], p1, InstanceUrlKey);
    LastValueSnoc([p0], p1, StateKey);
    LastValueSnoc([], p0, AccessTokenKey);
    LastValueSnoc([], p0, InstanceUrlKey);
    LastValueSnoc([], p0, StateKey);
    assert [] + [p0] == [p0];
  }

  /** Whatever other fields surround them, the grant pieces decide the outcome. */
  lemma GrantValuesAmong(others: seq<string>, g: seq<string>, more: seq<string>, key: string)
    requires OtherFields(others) && OtherFields(more)
    requires key == AccessTokenKey || key == InstanceUrlKey || key == StateKey
    ensures LastValue(others + g + more, key) == if LastValue(g, key).Some? then LastValue(g, key) else None
  {
    OtherFieldsUnbound(others, key);
    OtherFieldsUnbound(more, key);
    LastValueAppend(others + g, more, key);
    LastValueAppend(others, g, key);
  }

  /** Pieces that are other fields or grant pieces hold no `&`. */
  lemma PiecesPlain(others: seq<string>, g: seq<string>, more: seq<string>)
    requires OtherFields(others) && OtherFields(more)
    requires forall p :: p in g ==> '&' !in p
    ensures forall p :: p in others + g + more ==> '&' !in p
  {
    forall p | p in others + g + more ensures '&' !in p {
      if p in others {
        var i :| 0 <= i < |others| && others[i] == p;
      } else if p in more {
        var i :| 0 <= i < |more| && more[i] == p;
      }
    }
  }

  /**
   * A redirect `…#F&access_token=T&instance_url=I&state=S&G`, whatever other
   * fields F and G hold, yields a client built from the decoded `I` and `T`
   * exactly when the decoded `S` is the expected state, and the state error
   * otherwise.
   */
  lemma GrantRedirectOutcome(before: string, others: seq<string>, more: seq<string>,
                             token: string, instance: string, st: string, expected: Option<string>)
    requires '#' !in before
    requires OtherFields(others) && OtherFields(more)
    requires '&' !in token && '&' !in instance && '&' !in st
    requires token != "" && instance != ""
    ensures CallbackOutcome(before + "#" + Join(others + GrantPieces(token, instance, st) + more, '&'), expected)
      == if expected == Some(Unquote(st)) then Accepted(SalesforceClient(Unquote(instance), Unquote(token)))
         else Rejected(InvalidState)
  {
    var g := GrantPieces(token, instance, st);
    KeysPlain();
    assert '&' !in g[0] && '&' !in g[1] && '&' !in g[2];
    PiecesPlain(others, g, more);
    GrantLastValues(token, instance, st);
    GrantValuesAmong(others, g, more, AccessTokenKey);
    GrantValuesAmong(others, g, more, InstanceUrlKey);
    GrantValuesAmong(others, g, more, StateKey);
    RedirectOutcome(before, others + g + more, expected);
  }

  /** The pieces `access_token=T`, `instance_url=I` of a redirect without `state`. */
  function StatelessPieces(token: string, instance: string): seq<string> {
    [AccessTokenKey + "=" + token, InstanceUrlKey + "=" + instance]
  }

  lemma StatelessLastValues(token: string, instance: string)
    ensures var g := StatelessPieces(token, instance);
      LastValue(g, AccessTokenKey) == Some(Unquote(token)) && LastValue(g, InstanceUrlKey) == Some(Unquote(instance))
      && LastValue(g, StateKey) == None
  {
    KeysPlain();
    KeysDistinct();
    var p0, p1 := AccessTokenKey + "=" + token, InstanceUrlKey + "=" + instance;
    PieceBinds(AccessTokenKey, token);
    PieceBinds(InstanceUrlKey, instance);
    assert StatelessPieces(token, instance) == [p0] + [p1];
    LastValueSnoc([p0], p1, AccessTokenKey);
    LastValueSnoc([p0], p1, InstanceUrlKey);
    LastValueSnoc([p0], p1, StateKey);
    LastValueSnoc([], p0, AccessTokenKey);
    LastValueSnoc([], p0, InstanceUrlKey);
    LastValueSnoc([], p0, StateKey);
    assert [] + [p0] == [p0];
  }

  /**
   * Before any flow `_state` is `None`, and a redirect without `state`, whatever
   * other fields surround its two pieces, then passes the check.
   */
  lemma StatelessRedirectAccepted(before: string, others: seq<string>, more: seq<string>,
                                  token: string, instance: string)
    requires '#' !in before
    requires OtherFields(others) && OtherFields(more)
    requires '&' !in token && '&' !in instance
    requires token != "" && instance != ""
    ensures CallbackOutcome(before + "#" + Join(others + StatelessPieces(token, instance) + more, '&'), None)
      == Accepted(SalesforceClient(Unquote(instance), Unquote(token)))
  {
    var g := StatelessPieces(token, instance);
    KeysPlain();
    assert '&' !in g[0] && '&' !in g[1];
    PiecesPlain(others, g, more);
    StatelessLastValues(token, instance);
    GrantValuesAmong(others, g, more, AccessTokenKey);
    GrantValuesAmong(others, g, more, InstanceUrlKey);
    GrantValuesAmong(others, g, more, StateKey);
    RedirectOutcome(before, others + g + more, None);
  }

  // ---------------------------------------------------------------------------
  // The authorize URL (`_start_oauth_flow`)
  // ---------------------------------------------------------------------------

  const SandboxBase := "https://test.salesforce.com"
  const ProductionBase := "https://login.salesforce.com"

  function BaseUrl(environment: string): (r: Option<string>)
    ensures r.Some? <==> environment == "sandbox" || environment == "production"
    ensures r.Some? ==> '?' !in r.value && '#' !in r.value
  {
    SandboxPlain();
    ProductionPlain();
    if environment == "sandbox" then Some(SandboxBase)
    else if environment == "production" then Some(ProductionBase)
    else None
  }

  /** The seven authorize parameters, in the order they are sent. */
  function AuthorizeParams(clientId: string, redirectUri: string, state: string): seq<(string, string)> {
    [ ("response_type", "token"),
      ("client_id", clientId),
      ("redirect_uri", redirectUri),
      ("state", state),
      ("scope", "api full refresh_token"),
      ("prompt", "login consent select_account"),
      ("display", "page") ]
  }

  /**
   * The authorize URL for an environment; an environment other than
   * `sandbox` and `production` fails with the `KeyError`'s text.
   */
  function AuthorizeUrl(environment: string, clientId: string, redirectUri: string, state: string): (r: Result<string>)
    ensures r.Err? <==> BaseUrl(environment).None?
    ensures r.Err? ==> r.error == "'" + environment + "'"
    ensures r.Ok? ==> BaseUrl(environment).value + AuthorizePath + "?" <= r.value
  {
    match BaseUrl(environment)
    case None => Err("'" + environment + "'")
    case Some(base) => Ok(base + AuthorizePath + "?" + UrlEncode(AuthorizeParams(clientId, redirectUri, state)))
  }

  lemma AuthorizeParamsEncodable(clientId: string, redirectUri: string, state: string)
    requires IsAscii(clientId) && IsAscii(redirectUri) && IsAscii(state)
    requires clientId != "" && redirectUri != "" && state != ""
    ensures Encodable(AuthorizeParams(clientId, redirectUri, state))
  {
    FixedKeysAscii();
    FixedValuesAscii();
  }

  lemma FixedKeysAscii()
    ensures IsAscii("response_type") && IsAscii("client_id") && IsAscii("redirect_uri") && IsAscii("state")
    ensures IsAscii("scope") && IsAscii("prompt") && IsAscii("display")
  {
  }

  lemma FixedValuesAscii()
    ensures IsAscii("token") && IsAscii("api full refresh_token")
    ensures IsAscii("login consent select_account") && IsAscii("page")
  {
  }

  lemma EndpointPlain(environment: string)
    requires BaseUrl(environment).Some?
    ensures '?' !in BaseUrl(environment).value + AuthorizePath
    ensures '#' !in BaseUrl(environment).value + AuthorizePath
  {
    AuthorizePathPlain();
  }

  lemma SandboxPlain()
    ensures '?' !in SandboxBase && '#' !in SandboxBase
  {
  }

  lemma ProductionPlain()
    ensures '?' !in ProductionBase && '#' !in ProductionBase
  {
  }

  lemma AuthorizePathPlain()
    ensures '?' !in AuthorizePath && '#' !in AuthorizePath
  {
  }

  /**
   * Reading the authorize URL's query back gives exactly the seven
   * parameters in order: the URL carries what the flow meant to send.
   */
  lemma AuthorizeUrlQuery(environment: string, clientId: string, redirectUri: string, state: string)
    requires BaseUrl(environment).Some?
    requires IsAscii(clientId) && IsAscii(redirectUri) && IsAscii(state)
    requires clientId != "" && redirectUri != "" && state != ""
    ensures ParseQsl(UrlQuery(AuthorizeUrl(environment, clientId, redirectUri, state).value))
      == AuthorizeParams(clientId, redirectUri, state)
  {
    var ps := AuthorizeParams(clientId, redirectUri, state);
    var endpoint := BaseUrl(environment).value + AuthorizePath;
    EndpointPlain(environment);
    UrlQueryOf(endpoint, UrlEncode(ps));
    AuthorizeParamsEncodable(clientId, redirectUri, state);
    UrlEncodeRoundTrip(ps);
  }

  // ---------------------------------------------------------------------------
  // The login sequence
  // ---------------------------------------------------------------------------

  /** What the wait for the callback ends in: a timeout, or the reply to the first callback. */
  function CallbackReply(callback: Option<string>, expected: Option<string>): (r: Reply)
    ensures !r.Results?
    ensures callback.None? ==> r == Failure(CallbackTimeout)
    ensures r.Success? <==> callback.Some? && CallbackOutcome(callback.value, expected).Accepted?
  {
    if callback.None? then Failure(CallbackTimeout) else Report(CallbackOutcome(callback.value, expected))
  }

  /**
   * What `_start_oauth_flow` returns, given whether the callback port could be
   * bound, the environment and the first callback.
   */
  function OAuthReply(bound: bool, environment: string, callback: Option<string>, state: string): (r: Reply)
    ensures !r.Results?
    ensures r.Success? <==> bound && BaseUrl(environment).Some? && callback.Some?
                            && CallbackOutcome(callback.value, Some(state)).Accepted?
  {
    if !bound then Failure(AddressInUse)
    else if BaseUrl(environment).None? then Failure("'" + environment + "'")
    else CallbackReply(callback, Some(state))
  }

  /** The session after a callback: the client of an accepted one, or the old one. */
  function SessionAfter(old_sf: Option<SalesforceClient>, callback: Option<string>, expected: Option<string>)
    : (sf: Option<SalesforceClient>)
    ensures sf != old_sf ==> callback.Some? && CallbackOutcome(callback.value, expected).Accepted?
  {
    if callback.Some? && CallbackOutcome(callback.value, expected).Accepted?
    then Some(CallbackOutcome(callback.value, expected).client)
    else old_sf
  }

  /**
   * The session after `_start_oauth_flow`: the client of an accepted callback
   * when the port was bound and the environment known, the old one otherwise.
   */
  function FlowSession(old_sf: Option<SalesforceClient>, bound: bool, environment: string,
                       callback: Option<string>, state: string): (sf: Option<SalesforceClient>)
    ensures sf != old_sf ==> OAuthReply(bound, environment, callback, state).Success?
    ensures OAuthReply(bound, environment, callback, state).Success? ==>
      sf == Some(CallbackOutcome(callback.value, Some(state)).client)
  {
    if bound && BaseUrl(environment).Some? then SessionAfter(old_sf, callback, Some(state)) else old_sf
  }

  /**
   * Everything outside the process a login depends on: the key stored in the
   * keyring, whether the configuration server binds, what the browser sends
   * it and whether saving the key works, the fresh state token, whether the
   * callback port is free and what the browser sends the callback server.
   */
  datatype World = World(
    storedKey: Option<string>,
    configBinds: bool,
    configRequests: seq<string>,
    saveSucceeds: bool,
    freshState: string,
    callbackPortFree: bool,
    callbackRequests: seq<string>)

  /** The key `_show_configuration_screen` returns. */
  function ScreenKey(w: World): (k: Option<string>)
    ensures k.Some? ==> k.value != ""
  {
    if w.configBinds && w.saveSucceeds then Config.FirstSubmission(w.configRequests) else None
  }

  /** The client id the login goes on with: the stored key, else the one from the screen. */
  function ConfiguredKey(w: World): Option<string> {
    if Truthy(w.storedKey) then w.storedKey else ScreenKey(w)
  }

  function EnvironmentOf(environment: Option<string>): string {
    if Truthy(environment) then environment.value else "sandbox"
  }

  /** The reply of a login, given whether the callback listener could be bound. */
  function LoginReply(environment: string, w: World, listenerFree: bool): (r: Reply)
    ensures !r.Results?
    ensures r.Success? ==> Truthy(ConfiguredKey(w)) && listenerFree && BaseUrl(environment).Some?
  {
    var key := ConfiguredKey(w);
    if !Truthy(key) then Failure(ConfigurationRequired)
    else OAuthReply(listenerFree, environment, FirstCallback(CallbackPort, w.callbackRequests), w.freshState)
  }

  /** Every failed login carries one of the login's own error texts. */
  lemma LoginFailures(environment: string, w: World, listenerFree: bool)
    ensures var r := LoginReply(environment, w, listenerFree);
      r.Failure? ==>
        r.error == ConfigurationRequired || r.error == AddressInUse || r.error == "'" + environment + "'"
        || r.error == CallbackTimeout || CallbackError(r.error)
  {
  }

  /**
   * The state sequences one login can leave behind:
   * INITIAL → WAITING_FOR_CONFIG → ERROR when no key is configured, otherwise
   * INITIAL → (WAITING_FOR_CONFIG) → OAUTH_FLOW → COMPLETED or ERROR.
   */
  predicate LegalTrace(t: seq<AuthState>) {
    t == [Initial, WaitingForConfig, Error]
    || ((|t| == 3 || |t| == 4) && t[0] == Initial && (|t| == 4 ==> t[1] == WaitingForConfig)
        && t[|t| - 2] == OAuthFlow && (t[|t| - 1] == Completed || t[|t| - 1] == Error))
  }

  /** A configured login's trace: the preparation's states, OAUTH_FLOW, then COMPLETED or ERROR. */
  lemma OAuthTraceLegal(prepared: seq<AuthState>, last: AuthState, stored: bool)
    requires prepared == (if stored then [Initial] else [Initial, WaitingForConfig])
    requires last == Completed || last == Error
    ensures LegalTrace(prepared + [OAuthFlow, last])
    ensures OAuthFlow in prepared + [OAuthFlow, last]
    ensures (WaitingForConfig in prepared + [OAuthFlow, last]) <==> !stored
  {
  }

  class LoginHandler {
    var sf: Option<SalesforceClient>
    var state: Option<string>
    var server: CallbackServer?
    var clientId: Option<string>
    const callbackUrl: string
    var authContext: AuthContext

    constructor ()
      ensures sf == None && state == None && server == null && clientId == None
      ensures callbackUrl == RedirectUri
      ensures fresh(authContext) && authContext.Value() == Snapshot(Initial, "sandbox", None, None)
    {
      sf := None;
      state := None;
      server := null;
      clientId := None;
      callbackUrl := RedirectUri;
      authContext := new AuthContext();
    }

    /** `get_sf`. */
    function GetSf(): (s: Option<SalesforceClient>)
      reads this
      ensures s == sf
    {
      sf
    }

    /** The callback port can be bound: nothing else holds it and no earlier callback server still listens. */
    predicate ListenerFree(portFree: bool)
      reads this, server
    {
      portFree && (server == null || !server.running)
    }

    /**
     * `handle_oauth_callback`. Only an accepted callback changes anything:
     * it replaces the client. The expected state is not consumed, so the
     * same URL is accepted again.
     */
    method HandleOAuthCallback(url: string) returns (r: Reply)
      modifies this`sf
      ensures r == Report(CallbackOutcome(url, state))
      ensures sf == (if CallbackOutcome(url, state).Accepted? then Some(CallbackOutcome(url, state).client) else old(sf))
    {
      var fragment := FragmentOf(url);
      if fragment == "" {
        return Failure(InvalidCallbackUrl);
      }
      var params := ParseFragment(fragment);
      var accessToken := Get(params, AccessTokenKey);
      var instanceUrl := Get(params, InstanceUrlKey);
      var receivedState := Get(params, StateKey);
      if accessToken.None? {
        return Failure(NoneNotSubscriptable);
      }
      if !Truthy(accessToken) || !Truthy(instanceUrl) {
        return Failure(NoAccessToken);
      }
      if receivedState != state {
        return Failure(InvalidState);
      }
      sf := Some(SalesforceClient(instanceUrl.value, accessToken.value));
      r := Success(Authenticated);
    }

    /**
     * `_show_configuration_screen`: the key of the first submission, when the
     * server could be bound, a submission came before the wait ended and the
     * key could be saved; nothing otherwise.
     */
    method ShowConfigurationScreen(configBinds: bool, requests: seq<string>, saveSucceeds: bool)
      returns (key: Option<string>)
      ensures key == (if configBinds && saveSucceeds then Config.FirstSubmission(requests) else None)
    {
      if !configBinds {
        return None;
      }
      var srv := new Config.ConfigServer();
      srv.AwaitSubmission(requests);
      if srv.configReceived {
        srv.Shutdown();
        if Truthy(srv.consumerKey) && saveSucceeds {
          return srv.consumerKey;
        }
      }
      srv.Shutdown();
      key := None;
    }

    /**
     * The wait of `_start_oauth_flow` on a freshly started callback server:
     * a timeout leaves the server listening; a callback shuts it down and is
     * handed to `handle_oauth_callback`.
     */
    method AwaitAndHandle(srv: CallbackServer, requests: seq<string>) returns (r: Reply)
      requires srv.callbackUrl == None && !srv.callbackReceived && srv.running
      modifies srv, this`sf
      ensures r == CallbackReply(FirstCallback(srv.port, requests), state)
      ensures sf == SessionAfter(old(sf), FirstCallback(srv.port, requests), state)
      ensures srv.running <==> FirstCallback(srv.port, requests).None?
    {
      srv.AwaitCallback(requests);
      if !srv.callbackReceived {
        return Failure(CallbackTimeout);
      }
      srv.Shutdown();
      r := HandleOAuthCallback(srv.callbackUrl.value);
    }

    /**
     * `_start_oauth_flow` once the callback port is bound: the authorize URL
     * is built and handed to the browser, and the callback awaited. An
     * unknown environment shuts the new server down; a timeout leaves it
     * listening, so that the next flow's bind fails.
     */
    method LaunchOAuthFlow(requests: seq<string>) returns (r: Reply, browserUrl: Option<string>)
      requires state.Some?
      modifies this`server, this`sf
      ensures r == (if BaseUrl(authContext.environment).None? then Failure("'" + authContext.environment + "'")
                    else CallbackReply(FirstCallback(CallbackPort, requests), state))
      ensures browserUrl == (if BaseUrl(authContext.environment).None? then None
                             else Some(AuthorizeUrl(authContext.environment, ClientText(clientId), callbackUrl, state.value).value))
      ensures fresh(server) && server.port == CallbackPort
      ensures server.running <==> BaseUrl(authContext.environment).Some? && FirstCallback(CallbackPort, requests).None?
      ensures sf == (if BaseUrl(authContext.environment).None? then old(sf)
                     else SessionAfter(old(sf), FirstCallback(CallbackPort, requests), state))
    {
      var srv := new CallbackServer(CallbackPort);
      server := srv;
      var url := AuthorizeUrl(authContext.environment, ClientText(clientId), callbackUrl, state.value);
      if url.Err? {
        srv.Shutdown();
        return Failure(url.error), None;
      }
      browserUrl := Some(url.value);
      r := AwaitAndHandle(srv, requests);
    }

    /**
     * `_start_oauth_flow`. The fresh state is stored first. Binding the
     * callback port fails while it is taken or the previous callback server
     * still listens; the failure shuts that server down.
     * `browserUrl` is the URL handed to the browser.
     */
    method StartOAuthFlow(freshState: string, portFree: bool, requests: seq<string>)
      returns (r: Reply, browserUrl: Option<string>)
      modifies this`state, this`server, this`sf, server
      ensures state == Some(freshState)
      ensures r == OAuthReply(old(ListenerFree(portFree)), authContext.environment,
                              FirstCallback(CallbackPort, requests), freshState)
      ensures browserUrl == (if old(ListenerFree(portFree)) && BaseUrl(authContext.environment).Some?
                             then Some(AuthorizeUrl(authContext.environment, ClientText(clientId), callbackUrl, freshState).value)
                             else None)
      ensures sf == FlowSession(old(sf), old(ListenerFree(portFree)), authContext.environment,
                                FirstCallback(CallbackPort, requests), freshState)
      ensures !old(ListenerFree(portFree)) ==> server == old(server) && (server != null ==> !server.running)
      ensures old(ListenerFree(portFree)) ==> fresh(server) && server.port == CallbackPort
      ensures old(ListenerFree(portFree)) ==>
        (server.running <==> BaseUrl(authContext.environment).Some? && FirstCallback(CallbackPort, requests).None?)
    {
      state := Some(freshState);
      if !ListenerFree(portFree) {
        if server != null {
          server.Shutdown();
        }
        return Failure(AddressInUse), None;
      }
      r, browserUrl := LaunchOAuthFlow(requests);
    }

    /**
     * The first half of `start_login_flow`: a fresh context for the
     * environment, then the stored key or, without one, the configuration
     * screen. Without a key from either the context ends in ERROR.
     */
    method PrepareLogin(environment: Option<string>, w: World) returns (configured: bool)
      modifies this`authContext, this`clientId
      ensures configured <==> Truthy(ConfiguredKey(w))
      ensures clientId == ConfiguredKey(w)
      ensures fresh(authContext)
      ensures authContext.environment == EnvironmentOf(environment) && authContext.instanceUrl == None
      ensures authContext.trace == (if Truthy(w.storedKey) then [Initial]
                                    else if configured then [Initial, WaitingForConfig]
                                    else [Initial, WaitingForConfig, Error])
      ensures authContext.state == authContext.trace[|authContext.trace| - 1]
      ensures authContext.errorMessage == (if configured then None else Some(ConfigurationMissing))
    {
      var ctx := new AuthContext();
      authContext := ctx;
      ctx.environment := EnvironmentOf(environment);
      clientId := w.storedKey;
      if !Truthy(clientId) {
        ctx.UpdateState(WaitingForConfig, None);
        clientId := ShowConfigurationScreen(w.configBinds, w.configRequests, w.saveSucceeds);
        if !Truthy(clientId) {
          ctx.UpdateState(Error, Some(ConfigurationMissing));
          return false;
        }
      }
      configured := true;
    }

    /**
     * The second half of `start_login_flow`, once a key is configured: the
     * context enters OAUTH_FLOW, the OAuth flow runs, and the context ends
     * in COMPLETED or in ERROR with the flow's error.
     */
    method RunOAuthFlow(w: World) returns (r: Reply)
      modifies this`state, this`server, this`sf, server, authContext
      ensures r == OAuthReply(old(ListenerFree(w.callbackPortFree)), authContext.environment,
                              FirstCallback(CallbackPort, w.callbackRequests), w.freshState)
      ensures state == Some(w.freshState)
      ensures authContext.trace == old(authContext.trace) + [OAuthFlow, authContext.state]
      ensures authContext.state == (if r.Success? then Completed else Error)
      ensures authContext.errorMessage == (if r.Success? then None else Some(r.error))
      ensures authContext.environment == old(authContext.environment)
      ensures authContext.instanceUrl == old(authContext.instanceUrl)
      ensures sf == FlowSession(old(sf), old(ListenerFree(w.callbackPortFree)), authContext.environment,
                                FirstCallback(CallbackPort, w.callbackRequests), w.freshState)
      ensures !old(ListenerFree(w.callbackPortFree)) ==> server == old(server) && (server != null ==> !server.running)
      ensures old(ListenerFree(w.callbackPortFree)) ==> fresh(server) && server.port == CallbackPort
      ensures old(ListenerFree(w.callbackPortFree)) ==>
        (server.running <==> BaseUrl(authContext.environment).Some? && FirstCallback(CallbackPort, w.callbackRequests).None?)
    {
      authContext.UpdateState(OAuthFlow, None);
      var browserUrl;
      r, browserUrl := StartOAuthFlow(w.freshState, w.callbackPortFree, w.callbackRequests);
      var outcome := if r.Success? then Completed else Error;
      var message := if r.Success? then None else Some(r.error);
      authContext.UpdateState(outcome, message);
    }

    /**
     * `start_login_flow`. Without a configured key the login ends in ERROR
     * without entering OAUTH_FLOW. Otherwise the OAuth flow's reply is
     * returned unchanged and the context ends in COMPLETED or in ERROR with
     * that reply's error.
     */
    method StartLoginFlow(environment: Option<string>, w: World) returns (r: Reply)
      modifies this, server
      ensures r == LoginReply(EnvironmentOf(environment), w, old(ListenerFree(w.callbackPortFree)))
      ensures fresh(authContext)
      ensures authContext.environment == EnvironmentOf(environment) && authContext.instanceUrl == None
      ensures clientId == ConfiguredKey(w)
      ensures LegalTrace(authContext.trace)
      ensures authContext.state == authContext.trace[|authContext.trace| - 1]
      ensures (OAuthFlow in authContext.trace) <==> Truthy(ConfiguredKey(w))
      ensures (WaitingForConfig in authContext.trace) <==> !Truthy(w.storedKey)
      ensures authContext.state == Completed <==> r.Success?
      ensures authContext.errorMessage == (if r.Success? then None
                                          else if Truthy(ConfiguredKey(w)) then Some(r.error)
                                          else Some(ConfigurationMissing))
      ensures !Truthy(ConfiguredKey(w)) ==>
        sf == old(sf) && state == old(state) && server == old(server)
        && (server != null ==> server.running == old(server.running))
      ensures Truthy(ConfiguredKey(w)) ==> state == Some(w.freshState)
      ensures Truthy(ConfiguredKey(w)) ==>
        sf == FlowSession(old(sf), old(ListenerFree(w.callbackPortFree)), EnvironmentOf(environment),
                          FirstCallback(CallbackPort, w.callbackRequests), w.freshState)
      ensures Truthy(ConfiguredKey(w)) && !old(ListenerFree(w.callbackPortFree)) ==>
        server == old(server) && (server != null ==> !server.running)
      ensures Truthy(ConfiguredKey(w)) && old(ListenerFree(w.callbackPortFree)) ==>
        fresh(server) && server.port == CallbackPort
        && (server.running <==> BaseUrl(EnvironmentOf(environment)).Some?
                                && FirstCallback(CallbackPort, w.callbackRequests).None?)
    {
      var configured := PrepareLogin(environment, w);
      if !configured {
        return Failure(ConfigurationRequired);
      }
      ghost var prepared := authContext.trace;
      r := RunOAuthFlow(w);
      OAuthTraceLegal(prepared, authContext.state, Truthy(w.storedKey));
    }

    /** `clear_session`: forgets the client and the state and shuts down the callback server. */
    method ClearSession()
      modifies this`sf, this`state, server
      ensures GetSf() == None && state == None
      ensures server == old(server) && (server != null ==> !server.running)
    {
      sf := None;
      state := None;
      if server != null {
        server.Shutdown();
      }
    }
  }

  /** `urlencode` writes a missing client id as `None`. */
  function ClientText(clientId: Option<string>): string {
    if clientId.Some? then clientId.value else "None"
  }

  /**
   * The same callback URL handled twice gives the same reply: `_state` is
   * not consumed, so a replayed redirect is accepted again.
   */
  method ReplayedCallback(h: LoginHandler, url: string) returns (first: Reply, second: Reply)
    modifies h`sf
    ensures first == second
    ensures first == Report(CallbackOutcome(url, h.state))
  {
    first := h.HandleOAuthCallback(url);
    second := h.HandleOAuthCallback(url);
  }
}
