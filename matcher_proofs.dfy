/** What `handle_request` promises: path normalisation, 404/405, first-match-wins,
    fallback to the route default, and how query and body rules are judged. */
module MatcherProofs {
  import opened Wrappers
  import opened JsonValues
  import opened Text
  import opened Loader
  import opened Matcher

  /** Normalising a normalised path changes nothing. */
  lemma NormalizePathIdempotent(path: string)
    ensures NormalizePath(NormalizePath(path)) == NormalizePath(path)
  {
    var r := NormalizePath(path);
    if r != "/" {
      assert TrimRight(r, '/') == r;
    }
  }

  /** Trailing slashes go, however many there are, and the root stays the root. */
  lemma NormalizePathExamples()
    ensures NormalizePath("/a/b//") == "/a/b"
    ensures NormalizePath("/") == "/"
    ensures NormalizePath("") == "/"
    ensures NormalizePath("///") == "/"
  {
    assert TrimRight("/a/b//", '/') == TrimRight("/a/b/", '/') == TrimRight("/a/b", '/');
  }

  /** With no route under the request's method and path, the answer is 405 when some
      other method has a route at that path and 404 otherwise, whatever the query and body. */
  lemma UnknownRoute(table: Routes, verb: string, rawPath: string, query: Query, input: BodyInput)
    requires RouteKey(Upper(verb), NormalizePath(rawPath)) !in table
    ensures var path := NormalizePath(rawPath);
      Respond(table, verb, rawPath, query, input) ==
        if exists other :: RouteKey(other, path) in table then MethodNotAllowed else NotFound
    ensures !ReadsBody(table, verb, rawPath, query, input)
  {
    var path := NormalizePath(rawPath);
    if exists other :: RouteKey(other, path) in table {
      var other :| RouteKey(other, path) in table;
      assert RouteKey(other, path).path == path;
    }
  }

  /** A GET-only path answers a POST with 405 and an unknown path with 404. */
  lemma GetOnlyRoute(entry: RouteEntry, query: Query, input: BodyInput)
    ensures Respond(map[RouteKey("GET", "/users") := entry], "POST", "/users", query, input) == MethodNotAllowed
    ensures Respond(map[RouteKey("GET", "/users") := entry], "GET", "/orders/", query, input) == NotFound
  {
    var table := map[RouteKey("GET", "/users") := entry];
    assert NormalizePath("/users") == "/users";
    assert Upper("POST") == "POST";
    assert Upper("GET") == "GET";
    assert TrimRight("/orders/", '/') == "/orders";
    UnknownRoute(table, "POST", "/users", query, input);
    UnknownRoute(table, "GET", "/orders/", query, input);
  }

  /** First match wins: once rule `a` holds and no earlier one does, rule `a` answers,
      whatever later rules would say. */
  lemma FirstSatisfiedRuleAnswers(table: Routes, verb: string, rawPath: string, query: Query, input: BodyInput, a: nat)
    requires RouteKey(Upper(verb), NormalizePath(rawPath)) in table
    requires var ms := table[RouteKey(Upper(verb), NormalizePath(rawPath))].matches;
      && a < |ms|
      && Satisfied(ms[a], Flatten(query), ReadBody(input))
      && forall j :: 0 <= j < a ==> !Satisfied(ms[j], Flatten(query), ReadBody(input))
    ensures var m := table[RouteKey(Upper(verb), NormalizePath(rawPath))].matches[a];
      Respond(table, verb, rawPath, query, input) == Send(m.status, m.response)
  {
  }

  /** A request that satisfies no rule gets the route's own status and default
      response, never the 404/405 of an unknown route. */
  lemma NoRuleFallsBack(table: Routes, verb: string, rawPath: string, query: Query, input: BodyInput)
    requires RouteKey(Upper(verb), NormalizePath(rawPath)) in table
    requires var ms := table[RouteKey(Upper(verb), NormalizePath(rawPath))].matches;
      forall j :: 0 <= j < |ms| ==> !Satisfied(ms[j], Flatten(query), ReadBody(input))
    ensures var route := table[RouteKey(Upper(verb), NormalizePath(rawPath))];
      Respond(table, verb, rawPath, query, input) == Send(route.status, route.defaultResponse)
  {
  }

  /** A rule with `params` is judged on the query alone: the body never matters to it. */
  lemma QueryRuleIgnoresBody(m: MatchEntry, flat: map<string, QueryValue>, body1: Json, body2: Json)
    requires m.params.Some?
    ensures Satisfied(m, flat, body1) == Satisfied(m, flat, body2)
  {
  }

  /** `params: {}` holds for every query, since `all` of nothing is true. */
  lemma EmptyParamsAlwaysHold(m: MatchEntry, flat: map<string, QueryValue>, body: Json)
    requires m.params == Some(map[])
    ensures Satisfied(m, flat, body)
  {
  }

  /** A key given more than once flattens to a list, so it never equals a string expectation. */
  lemma RepeatedKeyFailsStringExpectation(params: map<string, Json>, query: Query, k: string, s: string)
    requires k in query && |query[k]| >= 2
    requires k in params && params[k] == JStr(s)
    ensures !ParamsHold(params, Flatten(query))
  {
    assert !QueryEquals(Flatten(query), k, params[k]);
  }

  /** A missing key reads as `None`: it fails every expectation except `null`. */
  lemma MissingKey(params: map<string, Json>, query: Query, k: string)
    requires k !in query && k in params
    ensures QueryEquals(Flatten(query), k, params[k]) <==> params[k] == JNull
    ensures params[k] != JNull ==> !ParamsHold(params, Flatten(query))
  {
  }

  /** A key given once holds its expectation exactly when that is the same string. */
  lemma SingleValuedKey(params: map<string, Json>, query: Query, k: string)
    requires k in query && |query[k]| == 1 && k in params
    ensures QueryEquals(Flatten(query), k, params[k]) <==> params[k] == JStr(query[k][0])
  {
  }

  /** An empty or unparseable body matches no body rule. */
  lemma NoBodyMatchesNoBodyRule(m: MatchEntry, flat: map<string, QueryValue>, input: BodyInput)
    requires input.contentLength.GetOr(0) == 0 || input.parsed.None?
    requires m.params.None?
    ensures !Satisfied(m, flat, ReadBody(input))
  {
  }

  /** A body rule holds exactly when the request has a non-zero length and its body
      parses to the very value the rule expects (type-sensitive: `1` is not `"1"`). */
  lemma BodyRuleHolds(m: MatchEntry, flat: map<string, QueryValue>, input: BodyInput)
    requires IsBodyRule(m)
    ensures Satisfied(m, flat, ReadBody(input)) <==>
      input.contentLength.GetOr(0) != 0 && input.parsed == Some(m.requestBody)
  {
  }

  /** A rule with neither `params` nor a request body. */
  predicate IsDead(m: MatchEntry) {
    m.params.None? && m.requestBody == JNull
  }

  /** The rules that can ever hold, in order. */
  function LiveRules(ms: seq<MatchEntry>): (live: seq<MatchEntry>)
    ensures forall j :: 0 <= j < |live| ==> !IsDead(live[j])
    decreases |ms|
  {
    if |ms| == 0 then []
    else (if IsDead(ms[0]) then [] else [ms[0]]) + LiveRules(ms[1..])
  }

  /** The winning rule, if any. */
  function Selected(ms: seq<MatchEntry>, flat: map<string, QueryValue>, body: Json): Option<MatchEntry> {
    var k := FirstSatisfied(ms, flat, body);
    if k < |ms| then Some(ms[k]) else None
  }

  /** Dead rules are never selected: dropping them selects the same rule. */
  lemma {:induction false} DeadRulesChangeNothing(ms: seq<MatchEntry>, flat: map<string, QueryValue>, body: Json)
    ensures Selected(LiveRules(ms), flat, body) == Selected(ms, flat, body)
    decreases |ms|
  {
    if |ms| > 0 {
      DeadRulesChangeNothing(ms[1..], flat, body);
      var live := LiveRules(ms);
      var k := FirstSatisfied(ms[1..], flat, body);
      if IsDead(ms[0]) {
        assert live == LiveRules(ms[1..]);
        assert FirstSatisfied(ms, flat, body) == 1 + k;
        assert k < |ms[1..]| ==> ms[1 + k] == ms[1..][k];
      } else {
        assert live[0] == ms[0];
        assert live[1..] == LiveRules(ms[1..]);
        if !Satisfied(ms[0], flat, body) {
          assert k < |ms[1..]| ==> ms[1 + k] == ms[1..][k];
        }
      }
    }
  }

  /** The body is never read for a route without body rules, nor for a request that
      a query rule answers before the first body rule. */
  lemma BodyReadOnlyWhenNeeded(table: Routes, verb: string, rawPath: string, query: Query, input: BodyInput)
    requires RouteKey(Upper(verb), NormalizePath(rawPath)) in table
    requires var ms := table[RouteKey(Upper(verb), NormalizePath(rawPath))].matches;
      exists a :: 0 <= a < |ms| && Satisfied(ms[a], Flatten(query), ReadBody(input))
        && forall j :: 0 <= j <= a ==> !IsBodyRule(ms[j])
    ensures !ReadsBody(table, verb, rawPath, query, input)
  {
    var ms := table[RouteKey(Upper(verb), NormalizePath(rawPath))].matches;
    var flat, body := Flatten(query), ReadBody(input);
    var a :| 0 <= a < |ms| && Satisfied(ms[a], flat, body) && forall j :: 0 <= j <= a ==> !IsBodyRule(ms[j]);
    assert FirstSatisfied(ms, flat, body) <= a;
  }
}
