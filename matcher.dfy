/** The match engine: `MockHandler.handle_request` and `_read_body`, answering one
    request against one routing table. */
module Matcher {
  import opened Wrappers
  import opened JsonValues
  import opened Text
  import opened Loader

  /** What the handler writes back: a status and a JSON body, `None` for an empty body. */
  datatype Response = Response(status: int, body: Option<Json>)

  /** `_send`: the body is serialised unless the payload is `None`. */
  function Send(status: int, payload: Json): (r: Response)
    ensures r.status == status
    ensures r.body.None? <==> payload == JNull
    ensures r.body.Some? ==> r.body.value == payload
  {
    Response(status, if payload == JNull then None else Some(payload))
  }

  function ErrorBody(message: string): Json {
    JObject(map["error" := JStr(message)])
  }

  const NotFound: Response := Response(404, Some(ErrorBody("Not Found")))
  const MethodNotAllowed: Response := Response(405, Some(ErrorBody("Method Not Allowed")))

  /** The request path without its trailing slashes; a path that is empty or made
      only of slashes becomes the root `/`. */
  function NormalizePath(path: string): (r: string)
    ensures |r| >= 1
    ensures r == "/" || r[|r| - 1] != '/'
    ensures r == "/" <==> forall i :: 0 <= i < |path| ==> path[i] == '/'
    ensures r != "/" ==> |r| <= |path| && r == path[..|r|] && forall i :: |r| <= i < |path| ==> path[i] == '/'
  {
    var trimmed := TrimRight(path, '/');
    if trimmed == "" then "/" else trimmed
  }

  /** A flattened query value: a key given once maps to its string, a repeated key to the list. */
  datatype QueryValue = One(value: string) | Many(values: seq<string>)

  /** `parse_qs` output: each key with the non-empty list of its values, in order. */
  type Query = map<string, seq<string>>

  /** The query as rules see it: a key given once stands for its only value, a key
      given several times for the list of all its values. */
  function Flatten(query: Query): map<string, QueryValue> {
    map k | k in query :: if |query[k]| == 1 then One(query[k][0]) else Many(query[k])
  }

  function Strings(values: seq<string>): (r: seq<Json>)
    ensures |r| == |values|
    ensures forall i :: 0 <= i < |values| ==> r[i] == JStr(values[i])
  {
    seq(|values|, i requires 0 <= i < |values| => JStr(values[i]))
  }

  /** Whether the flattened query agrees with one expected value under Python's
      `==`: a missing key reads as `None`, a single value as a string, a repeated
      key as a list of strings. */
  predicate QueryEquals(flat: map<string, QueryValue>, k: string, expected: Json) {
    if k !in flat then expected == JNull
    else match flat[k]
      case One(s) => expected == JStr(s)
      case Many(vs) => expected == JArray(Strings(vs))
  }

  /** A `params` rule holds when every key it names agrees with the flattened query. */
  predicate ParamsHold(params: map<string, Json>, flat: map<string, QueryValue>) {
    forall k | k in params :: QueryEquals(flat, k, params[k])
  }

  /** A rule with `params` is only ever judged on the query; otherwise it is a body
      rule when its request body is not `None`, and a rule that is neither never holds. */
  predicate Satisfied(m: MatchEntry, flat: map<string, QueryValue>, body: Json) {
    if m.params.Some? then ParamsHold(m.params.value, flat)
    else m.requestBody != JNull && body == m.requestBody
  }

  /** A rule whose check needs the request body. */
  predicate IsBodyRule(m: MatchEntry) {
    m.params.None? && m.requestBody != JNull
  }

  /** The index of the first satisfied rule in declaration order, `|ms|` when none is. */
  function FirstSatisfied(ms: seq<MatchEntry>, flat: map<string, QueryValue>, body: Json): (k: nat)
    ensures k <= |ms|
    ensures k < |ms| ==> Satisfied(ms[k], flat, body)
    ensures forall j :: 0 <= j < k ==> !Satisfied(ms[j], flat, body)
    decreases |ms|
  {
    if |ms| == 0 then 0
    else if Satisfied(ms[0], flat, body) then 0
    else 1 + FirstSatisfied(ms[1..], flat, body)
  }

  /** What the client sends as the body: the `Content-Length` header (`None` when
      absent) and the bytes read, parsed as JSON (`None` when they do not parse). */
  datatype BodyInput = BodyInput(contentLength: Option<int>, parsed: Option<Json>)

  /** `_read_body`: no body for a zero length or for bytes that are not JSON. */
  function ReadBody(input: BodyInput): (body: Json)
    ensures input.contentLength.GetOr(0) == 0 ==> body == JNull
    ensures input.parsed.None? ==> body == JNull
    ensures input.contentLength.GetOr(0) != 0 && input.parsed.Some? ==> body == input.parsed.value
  {
    if input.contentLength.GetOr(0) == 0 then JNull else input.parsed.GetOr(JNull)
  }

  /** Some route, of any method, is registered under this path. */
  predicate PathExists(table: Routes, path: string) {
    exists key | key in table :: key.path == path
  }

  /** The response `handle_request` writes. */
  function Respond(table: Routes, verb: string, rawPath: string, query: Query, input: BodyInput): Response {
    var path := NormalizePath(rawPath);
    var key := RouteKey(Upper(verb), path);
    if key !in table then
      if PathExists(table, path) then MethodNotAllowed else NotFound
    else
      var route := table[key];
      var k := FirstSatisfied(route.matches, Flatten(query), ReadBody(input));
      if k < |route.matches| then Send(route.matches[k].status, route.matches[k].response)
      else Send(route.status, route.defaultResponse)
  }

  /** How many rules `handle_request` looks at: up to and including the winner. */
  function Examined(ms: seq<MatchEntry>, flat: map<string, QueryValue>, body: Json): (n: nat)
    ensures n <= |ms|
  {
    var k := FirstSatisfied(ms, flat, body);
    if k < |ms| then k + 1 else k
  }

  /** Whether the body is read: the route exists and a body rule is among the rules examined. */
  predicate ReadsBody(table: Routes, verb: string, rawPath: string, query: Query, input: BodyInput) {
    var key := RouteKey(Upper(verb), NormalizePath(rawPath));
    && key in table
    && var ms := table[key].matches;
    && exists j | 0 <= j < Examined(ms, Flatten(query), ReadBody(input)) :: IsBodyRule(ms[j])
  }

  /** `handle_request`, with the number of times it calls `_read_body`. */
  method HandleRequest(table: Routes, verb: string, rawPath: string, query: Query, input: BodyInput)
    returns (response: Response, bodyReads: nat)
    ensures response == Respond(table, verb, rawPath, query, input)
    ensures bodyReads <= 1
    ensures bodyReads == 1 <==> ReadsBody(table, verb, rawPath, query, input)
  {
    var path := NormalizePath(rawPath);
    var upper := Upper(verb);
    var flat := Flatten(query);
    var pathExists := PathExists(table, path);
    bodyReads := 0;

    var key := RouteKey(upper, path);
    if key !in table {
      response := if pathExists then MethodNotAllowed else NotFound;
      return;
    }
    var route := table[key];

    ghost var requestBody := ReadBody(input);
    var body := JNull;
    var bodyRead := false;
    var i := 0;
    while i < |route.matches|
      invariant 0 <= i <= |route.matches|
      invariant forall j :: 0 <= j < i ==> !Satisfied(route.matches[j], flat, requestBody)
      invariant bodyRead <==> exists j :: 0 <= j < i && IsBodyRule(route.matches[j])
      invariant bodyRead ==> body == requestBody
      invariant bodyReads == if bodyRead then 1 else 0
    {
      var m := route.matches[i];
      if m.params.Some? {
        if ParamsHold(m.params.value, flat) {
          response := Send(m.status, m.response);
          return;
        }
      } else if m.requestBody != JNull {
        if !bodyRead {
          body := ReadBody(input);
          bodyRead := true;
          bodyReads := bodyReads + 1;
        }
        if body == m.requestBody {
          response := Send(m.status, m.response);
          return;
        }
      }
      i := i + 1;
    }
    response := Send(route.status, route.defaultResponse);
  }
}
