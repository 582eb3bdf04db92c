/**
  The URL map app.py registers with Flask (its `@app.route` decorators) and
  how Werkzeug dispatches a request on it: rules whose pattern matches the
  path are tried static-first; the first that allows the method wins; a
  path that some rule matches but none allows the method for is answered
  405, a path no rule matches 404.
*/
module Routes {
  import opened Common
  import opened Text

  datatype Endpoint =
    | Index | Chat | History | ClearHistory | ListSessions | CreateSession
    | SwitchSession(sessionId: string) | DeleteSession(sessionId: string) | DeleteAll | Health

  datatype Rule = Rule(methods: set<string>, endpoint: Endpoint)

  datatype Routed = Found(endpoint: Endpoint) | NotFound | MethodNotAllowed

  /** A rule declared without `methods=` serves GET, and Werkzeug adds HEAD. */
  const Get: set<string> := {"GET", "HEAD"}

  const SessionsPrefix: string := "/api/sessions/"

  /** The `<session_id>` converter: `path` is `prefix + id + suffix` for a
      non-empty `id` without '/'. */
  function Param(path: string, prefix: string, suffix: string): (r: Option<string>)
    ensures r.Some? ==> path == prefix + r.value + suffix && r.value != [] && '/' !in r.value
  {
    if |path| >= |prefix| + |suffix| && path[..|prefix|] == prefix && path[|path| - |suffix|..] == suffix then
      var id := path[|prefix|..|path| - |suffix|];
      if id != [] && '/' !in id then
        assert path == path[..|prefix|] + id + path[|path| - |suffix|..];
        Some(id)
      else None
    else None
  }

  /** The converter recovers every id it can match. */
  lemma ParamRoundTrip(prefix: string, id: string, suffix: string)
    requires id != [] && '/' !in id
    ensures Param(prefix + id + suffix, prefix, suffix) == Some(id)
  {
    var path := prefix + id + suffix;
    assert path[..|prefix|] == prefix;
    assert path[|path| - |suffix|..] == suffix;
    assert path[|prefix|..|path| - |suffix|] == id;
  }

  /** The rules whose pattern matches `path`, static rules first. */
  function MatchingRules(path: string): seq<Rule>
  {
    (if path == "/" then [Rule(Get, Index)] else [])
    + (if path == "/api/chat" then [Rule({"POST"}, Chat)] else [])
    + (if path == "/api/history" then [Rule(Get, History)] else [])
    + (if path == "/api/clear-history" then [Rule({"POST"}, ClearHistory)] else [])
    + (if path == "/api/sessions" then [Rule(Get, ListSessions), Rule({"POST"}, CreateSession)] else [])
    + (if path == "/api/sessions/all" then [Rule({"DELETE"}, DeleteAll)] else [])
    + (if path == "/health" then [Rule(Get, Health)] else [])
    + (match Param(path, SessionsPrefix, "/switch")
       case Some(id) => [Rule({"POST"}, SwitchSession(id))]
       case None => [])
    + (match Param(path, SessionsPrefix, "")
       case Some(id) => [Rule({"DELETE"}, DeleteSession(id))]
       case None => [])
  }

  /** The endpoint of the first rule that allows `verb`. */
  function FirstAllowing(rules: seq<Rule>, verb: string): (r: Option<Endpoint>)
    ensures r.None? <==> forall i :: 0 <= i < |rules| ==> verb !in rules[i].methods
    ensures r.Some? ==> exists i :: && 0 <= i < |rules| && verb in rules[i].methods
                                    && rules[i].endpoint == r.value
                                    && forall j :: 0 <= j < i ==> verb !in rules[j].methods
  {
    if rules == [] then None
    else if verb in rules[0].methods then Some(rules[0].endpoint)
    else
      var r := FirstAllowing(rules[1..], verb);
      assert forall i :: 1 <= i < |rules| ==> rules[i] == rules[1..][i - 1];
      r
  }

  /** How a `verb` request for `path` is dispatched. */
  function Route(verb: string, path: string): (r: Routed)
    ensures r == NotFound <==> MatchingRules(path) == []
    ensures r == MethodNotAllowed <==>
              MatchingRules(path) != [] && forall i :: 0 <= i < |MatchingRules(path)| ==> verb !in MatchingRules(path)[i].methods
    ensures r.Found? ==> FirstAllowing(MatchingRules(path), verb) == Some(r.endpoint)
  {
    var rules := MatchingRules(path);
    if rules == [] then NotFound
    else match FirstAllowing(rules, verb)
      case Some(e) => Found(e)
      case None => MethodNotAllowed
  }

  /** `/api/chat` only takes POST: a GET is answered 405. */
  lemma ChatRejectsGet()
    ensures Route("GET", "/api/chat") == MethodNotAllowed
    ensures Route("POST", "/api/chat") == Found(Chat)
  {
    assert Param("/api/chat", SessionsPrefix, "/switch") == None;
    assert Param("/api/chat", SessionsPrefix, "") == None;
  }

  /** The legacy client's `/api/status` and `/api/clear` are not served. */
  lemma LegacyEndpointsMissing()
    ensures Route("GET", "/api/status") == NotFound
    ensures Route("POST", "/api/clear") == NotFound
  {
    assert Param("/api/status", SessionsPrefix, "/switch") == None;
    assert Param("/api/status", SessionsPrefix, "") == None;
    assert Param("/api/clear", SessionsPrefix, "/switch") == None;
    assert Param("/api/clear", SessionsPrefix, "") == None;
  }

  /** DELETE on `/api/sessions/all` reaches the static rule, not the
      single-session one; other verbs are refused with 405. */
  lemma DeleteAllIsStatic()
    ensures Route("DELETE", "/api/sessions/all") == Found(DeleteAll)
    ensures Route("GET", "/api/sessions/all") == MethodNotAllowed
  {
    var path := "/api/sessions/all";
    assert Param(path, SessionsPrefix, "/switch") == None;
    ParamRoundTrip(SessionsPrefix, "all", "");
    assert SessionsPrefix + "all" + "" == path;
  }

  /** Any id without '/' reaches the switch handler with that id. */
  lemma SwitchRoute(id: string)
    requires id != [] && '/' !in id
    ensures Route("POST", SessionsPrefix + id + "/switch") == Found(SwitchSession(id))
  {
    var path := SessionsPrefix + id + "/switch";
    ParamRoundTrip(SessionsPrefix, id, "/switch");
    assert path[|SessionsPrefix| - 1] == '/' && path[|path| - 1] == 'h';
    assert |path| > |"/api/sessions/all"|;
  }

  /** Any id without '/' other than "all" reaches the delete handler with that id. */
  lemma DeleteRoute(id: string)
    requires id != [] && '/' !in id && id != "all"
    ensures Route("DELETE", SessionsPrefix + id) == Found(DeleteSession(id))
  {
    var path := SessionsPrefix + id;
    ParamRoundTrip(SessionsPrefix, id, "");
    assert path + "" == path;
    assert path[|SessionsPrefix| - 1] == '/';
    assert path[|SessionsPrefix|..] == id;
    assert "/api/sessions/all"[|SessionsPrefix|..] == "all";
    assert |id| >= 7 ==> path[|path| - 7..][0] == id[|id| - 7] != '/';
    assert Param(path, SessionsPrefix, "/switch") == None;
  }
}
