/** The request handler of the configuration page (`ConfigurationHandler.do_GET`). */
module Config {
  import opened Wrappers
  import opened Text
  import opened Url
  import opened Http

  /** The query field the page submits the key in. */
  const KeyField := "consumer_key"
  const SavedJson := "{\"success\": true, \"message\": \"Configuration saved\"}"
  const InvalidKeyJson := "{\"success\": false, \"error\": \"Invalid Consumer Key\"}"

  /** The three ways `do_GET` reads a path. */
  datatype ConfigRequest = ServePage | Submit(key: Option<string>) | NotFound

  /**
   * Exactly `/` serves the page; any path that merely starts with `/submit`
   * is a submission carrying the first non-blank `consumer_key` of its query;
   * everything else is unknown.
   */
  function Route(path: string): ConfigRequest {
    if path == "/" then ServePage
    else if "/submit" <= path then Submit(QueryValue(UrlQuery(path), KeyField))
    else NotFound
  }

  /** The key the first successful submission among `requests` stores, if any. */
  function FirstSubmission(requests: seq<string>): (k: Option<string>)
    ensures k.Some? ==> k.value != ""
    decreases |requests|
  {
    if |requests| == 0 then None
    else match Route(requests[0])
      case Submit(Some(k)) => Some(k)
      case _ =>
        FirstSubmission(requests[1..])
  }

  /** A key is stored exactly when some request submits a non-blank one. */
  lemma {:induction false} FirstSubmissionFound(requests: seq<string>)
    ensures FirstSubmission(requests).Some? <==>
      exists i :: 0 <= i < |requests| && Route(requests[i]).Submit? && Route(requests[i]).key.Some?
    decreases |requests|
  {
    if |requests| > 0 {
      FirstSubmissionFound(requests[1..]);
      assert forall i :: 1 <= i < |requests| ==> requests[i] == requests[1..][i - 1];
      if !(Route(requests[0]).Submit? && Route(requests[0]).key.Some?) {
        forall i | 0 <= i < |requests| && Route(requests[i]).Submit? && Route(requests[i]).key.Some?
          ensures exists j :: 0 <= j < |requests[1..]| && Route(requests[1..][j]).Submit? && Route(requests[1..][j]).key.Some?
        {
          assert requests[1..][i - 1] == requests[i];
        }
      }
    }
  }

  /** The configuration server and the two attributes the handler sets on it. */
  class ConfigServer {
    var consumerKey: Option<string>
    var configReceived: bool
    var running: bool

    constructor ()
      ensures consumerKey == None && !configReceived && running
    {
      consumerKey := None;
      configReceived := false;
      running := true;
    }

    /**
     * `do_GET`. `writeError` is the text of an exception raised while the
     * success reply of a submission is written: the one place the handler
     * catches one, after the key is already stored.
     */
    method HandleGet(path: string, writeError: Option<string>) returns (resp: Response)
      modifies this`consumerKey, this`configReceived
      ensures Route(path).Submit? && Route(path).key.Some? ==>
        consumerKey == Route(path).key && configReceived
        && resp == (if writeError.None? then Response(200, Json(SavedJson))
                    else Response(500, FailureJson("Error saving configuration: " + writeError.value)))
      ensures !(Route(path).Submit? && Route(path).key.Some?) ==>
        consumerKey == old(consumerKey) && configReceived == old(configReceived)
      ensures Route(path) == ServePage ==> resp == Response(200, Page)
      ensures Route(path) == Submit(None) ==> resp == Response(400, Json(InvalidKeyJson))
      ensures Route(path) == NotFound ==> resp == Response(404, NoBody)
    {
      match Route(path)
      case ServePage =>
        resp := Response(200, Page);
      case Submit(key) =>
        if key.Some? {
          consumerKey := key;
          configReceived := true;
          if writeError.None? {
            resp := Response(200, Json(SavedJson));
          } else {
            resp := Response(500, FailureJson("Error saving configuration: " + writeError.value));
          }
        } else {
          resp := Response(400, Json(InvalidKeyJson));
        }
      case NotFound =>
        resp := Response(404, NoBody);
    }

    /**
     * Serves `requests` in order until one of them fires the event, as the
     * server thread does while `_show_configuration_screen` waits.
     */
    method AwaitSubmission(requests: seq<string>)
      requires consumerKey == None && !configReceived
      modifies this`consumerKey, this`configReceived
      ensures consumerKey == FirstSubmission(requests)
      ensures configReceived <==> consumerKey.Some?
    {
      var i := 0;
      while i < |requests| && !configReceived
        invariant 0 <= i <= |requests|
        invariant !configReceived ==>
          consumerKey == None && FirstSubmission(requests) == FirstSubmission(requests[i..])
        invariant configReceived ==> consumerKey == FirstSubmission(requests) && consumerKey.Some?
      {
        assert requests[i..] == [requests[i]] + requests[i + 1..];
        var _ := HandleGet(requests[i], None);
        i := i + 1;
      }
    }

    method Shutdown()
      modifies this`running
      ensures !running
    {
      running := false;
    }
  }

  /** Any path that starts with `/submit` is a submission. */
  lemma SubmitByPrefix(prefix: string, query: string)
    requires "/submit" <= prefix && '?' !in prefix && '#' !in prefix && '#' !in query
    ensures Route(prefix + "?" + query) == Submit(QueryValue(query, KeyField))
  {
    var path := prefix + "?" + query;
    assert path[..7] == prefix[..7];
    assert path != "/" by { assert |path| > 1; }
    UrlQueryOf(prefix, query);
  }

  /**
   * The page's form sends `/submit?consumer_key=` followed by the encoded key;
   * any path beginning with `/submit` is read the same way, and every
   * non-empty key is accepted (the ten-character minimum lives only in the
   * page script).
   */
  lemma SubmissionCarriesKey(prefix: string, key: string, query: string)
    requires "/submit" <= prefix && '?' !in prefix && '#' !in prefix
    requires IsAscii(key) && key != ""
    requires query == KeyField + "=" + EncodeUriComponent(key)
    ensures Route(prefix + "?" + query) == Submit(Some(key))
  {
    KeyFieldUnreserved();
    QueryValueOfEncoded(KeyField, key);
    SubmitByPrefix(prefix, query);
  }

  lemma KeyFieldUnreserved()
    ensures AllUnreserved(KeyField)
  {
  }

  /** A submission whose `consumer_key` is blank carries no key and is answered with 400. */
  lemma BlankKeyRejected(prefix: string, query: string)
    requires "/submit" <= prefix && '?' !in prefix && '#' !in prefix
    requires query == KeyField + "="
    ensures Route(prefix + "?" + query) == Submit(None)
  {
    assert '&' !in query && '#' !in query;
    assert Split(query, '&') == [query];
    SplitFirstUnique(query, '=', KeyField, "");
    assert ParseField(query) == None;
    assert ParseFields([query]) == ParseFields([]);
    SubmitByPrefix(prefix, query);
  }
}
