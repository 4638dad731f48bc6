/** Whole-engine examples: a spec directory loaded, then requests answered against it. */
module Scenarios {
  import opened Wrappers
  import opened JsonValues
  import opened Text
  import opened Loader
  import opened Matcher

  lemma SpecNameOfParts(a: string, b: string)
    requires '.' !in a && '.' !in b
    ensures SpecNameOf(a + "." + b) == Some(SpecName(a, b))
  {
    SplitAround(a, b, '.');
    SplitNoSep(b, '.');
  }

  /** Loading a single file. */
  lemma LoadOne(spec: SpecFile, files: Files)
    ensures Load([spec], files) ==
      match BuildRoute(spec, files)
      case Err(e) => Err(e)
      case Ok(None) => Ok(map[])
      case Ok(Some(kv)) => Ok(map[kv.0 := kv.1])
  {
    assert [spec][..0] == [];
  }

  /** Loading one more route file after a listing. */
  lemma AppendRoute(listing: seq<SpecFile>, spec: SpecFile, files: Files, table: Routes, key: RouteKey, entry: RouteEntry)
    requires Load(listing, files) == Ok(table)
    requires BuildRoute(spec, files) == Ok(Some((key, entry)))
    ensures Load(listing + [spec], files) == Ok(table[key := entry])
  {
    assert (listing + [spec])[..|listing|] == listing;
  }

  /** Loading two route files: the second one's entry is written over the first's,
      replacing it outright when both derive the same key. */
  lemma LoadTwo(a: SpecFile, b: SpecFile, files: Files, ka: RouteKey, ea: RouteEntry, kb: RouteKey, eb: RouteEntry)
    requires BuildRoute(a, files) == Ok(Some((ka, ea)))
    requires BuildRoute(b, files) == Ok(Some((kb, eb)))
    ensures Load([a, b], files) == Ok(map[ka := ea][kb := eb])
    ensures ka == kb ==> Load([a, b], files) == Ok(map[kb := eb])
  {
    LoadOne(a, files);
    AppendRoute([a], b, files, map[ka := ea], kb, eb);
    assert [a] + [b] == [a, b];
    if ka == kb {
      assert map[ka := ea][kb := eb] == map[kb := eb];
    }
  }

  const UsersDoc: Json := JObject(map["users" := JArray([])])
  const UsersSpec: SpecFile := SpecFile([], "users.get", Some(SpecConfig(Some(200), [])))
  const UsersFiles: Files := map[FileKey([], "users.get.resp.json") := Some(UsersDoc)]
  const UsersTable: Routes := map[RouteKey("GET", "/users") := RouteEntry(200, UsersDoc, [])]

  lemma UsersName()
    ensures SpecNameOf("users.get") == Some(SpecName("users", "get"))
  {
    assert "users" + "." + "get" == "users.get";
    SpecNameOfParts("users", "get");
  }

  lemma UsersKey()
    ensures KeyOf([], SpecName("users", "get")) == RouteKey("GET", "/users")
    ensures DefaultRespName(SpecName("users", "get")) == "users.get.resp.json"
  {
    assert Upper("get") == "GET";
  }

  lemma UsersLoads()
    ensures Load([UsersSpec], UsersFiles) == Ok(UsersTable)
  {
    UsersName();
    UsersKey();
    assert BuildRoute(UsersSpec, UsersFiles) == Ok(Some((RouteKey("GET", "/users"), RouteEntry(200, UsersDoc, []))));
    LoadOne(UsersSpec, UsersFiles);
  }

  /** `users.get.yaml` (status 200, no matches) beside `users.get.resp.json` holding
      `{"users": []}`: `GET /users` answers 200 with that document. */
  lemma DefaultResponseFromConventionFile(query: Query, input: BodyInput)
    ensures Load([UsersSpec], UsersFiles).Ok?
    ensures Respond(Load([UsersSpec], UsersFiles).value, "GET", "/users", query, input) == Response(200, Some(UsersDoc))
  {
    UsersLoads();
    assert NormalizePath("/users") == "/users";
    assert Upper("GET") == "GET";
  }

  /** Resolving a one-item `matches` list. */
  lemma ResolveOne(m: MatchSpec, dir: seq<string>, sn: SpecName, files: Files, status: int)
    ensures ResolveMatches([m], dir, sn, files, status) ==
      match ResolveMatch(m, 1, dir, sn, files, status)
      case Err(e) => Err(e)
      case Ok(entry) => Ok([entry])
  {
    assert [m][..0] == [];
    assert ResolveMatches([m][..0], dir, sn, files, status) == Ok([]);
    var r := ResolveMatch(m, 1, dir, sn, files, status);
    if r.Ok? {
      assert [] + [r.value] == [r.value];
    }
  }

  const Queued: Json := JObject(map["queued" := JBool(true)])
  const FastRule: MatchSpec := MatchSpec(Some(map["fast" := JStr("true")]), Some(202), Some(Queued), None, None, None)
  const OrderSpec: SpecFile := SpecFile([], "order.post", Some(SpecConfig(None, [FastRule])))
  const OrderTable: Routes :=
    map[RouteKey("POST", "/order") := RouteEntry(200, JNull, [MatchEntry(FastRule.params, JNull, 202, Queued)])]

  lemma OrderKey()
    ensures KeyOf([], SpecName("order", "post")) == RouteKey("POST", "/order")
  {
    assert Upper("post") == "POST";
  }

  lemma OrderLoads()
    ensures Load([OrderSpec], map[]) == Ok(OrderTable)
  {
    var sn := SpecName("order", "post");
    assert "order" + "." + "post" == "order.post";
    SpecNameOfParts("order", "post");
    OrderKey();
    ResolveOne(FastRule, [], sn, map[], 200);
    LoadOne(OrderSpec, map[]);
  }

  lemma OrderRequestKey()
    ensures NormalizePath("/order") == "/order"
    ensures Upper("POST") == "POST"
  {
  }

  /** `order.post.yaml` with one rule `{params: {fast: "true"}, status: 202, response:
      {"queued": true}}`: `POST /order?fast=true` gets 202, `POST /order` the route's
      default (200, and an empty body since there is no `order.post.resp.json`). */
  lemma QueryRuleOrDefault(input: BodyInput)
    ensures Load([OrderSpec], map[]).Ok?
    ensures Respond(Load([OrderSpec], map[]).value, "POST", "/order", map["fast" := ["true"]], input) == Response(202, Some(Queued))
    ensures Respond(Load([OrderSpec], map[]).value, "POST", "/order", map[], input) == Response(200, None)
  {
    OrderLoads();
    FastQueryAnswered(input);
    NoQueryFallsBack(input);
  }

  lemma FastQueryAnswered(input: BodyInput)
    ensures Respond(OrderTable, "POST", "/order", map["fast" := ["true"]], input) == Response(202, Some(Queued))
  {
    OrderRequestKey();
    var flat := Flatten(map["fast" := ["true"]]);
    assert flat == map["fast" := One("true")];
    assert ParamsHold(map["fast" := JStr("true")], flat);
  }

  lemma NoQueryFallsBack(input: BodyInput)
    ensures Respond(OrderTable, "POST", "/order", map[], input) == Response(200, None)
  {
    OrderRequestKey();
    assert Flatten(map[]) == map[];
    var params := map["fast" := JStr("true")];
    assert "fast" in params && !QueryEquals(map[], "fast", params["fast"]);
    assert !ParamsHold(params, map[]);
  }

  const IdDoc: Json := JObject(map["id" := JNum(1.0)])
  const Created: Json := JObject(map["created" := JBool(true)])
  const PayloadRule: MatchSpec := MatchSpec(None, Some(201), Some(Created), None, None, Some("payload.json"))
  const ItemsSpec: SpecFile := SpecFile(["api"], "items.post", Some(SpecConfig(None, [PayloadRule])))
  const ItemsFiles: Files := map[FileKey(["api"], "payload.json") := Some(IdDoc)]
  const ItemsTable: Routes :=
    map[RouteKey("POST", "/api/items") := RouteEntry(200, JNull, [MatchEntry(None, IdDoc, 201, Created)])]

  lemma ItemsKey()
    ensures KeyOf(["api"], SpecName("items", "post")) == RouteKey("POST", "/api/items")
    ensures FileKey(["api"], DefaultRespName(SpecName("items", "post"))) !in ItemsFiles
  {
    assert Upper("post") == "POST";
    assert Join(["api", "items"], '/') == "api/items";
    assert DefaultRespName(SpecName("items", "post")) != "payload.json";
  }

  lemma ItemsLoads()
    ensures Load([ItemsSpec], ItemsFiles) == Ok(ItemsTable)
  {
    var sn := SpecName("items", "post");
    assert "items" + "." + "post" == "items.post";
    SpecNameOfParts("items", "post");
    ItemsKey();
    ResolveOne(PayloadRule, ["api"], sn, ItemsFiles, 200);
    LoadOne(ItemsSpec, ItemsFiles);
  }

  lemma ItemsRequestKey()
    ensures NormalizePath("/api/items") == "/api/items"
    ensures Upper("POST") == "POST"
  {
    assert TrimRight("/api/items", '/') == "/api/items";
  }

  /** A rule whose `request_file` is `payload.json` holding `{"id": 1}` matches a body
      that parses to `{"id": 1}`, and not one that parses to `{"id": "1"}`. */
  lemma RequestFileRoundTrip(length: int)
    requires length != 0
    ensures Load([ItemsSpec], ItemsFiles).Ok?
    ensures Respond(Load([ItemsSpec], ItemsFiles).value, "POST", "/api/items", map[], BodyInput(Some(length), Some(IdDoc)))
      == Response(201, Some(Created))
    ensures Respond(Load([ItemsSpec], ItemsFiles).value, "POST", "/api/items", map[],
      BodyInput(Some(length), Some(JObject(map["id" := JStr("1")])))) == Response(200, None)
  {
    ItemsLoads();
    EqualBodyAnswered(length);
    StringIdFallsBack(length);
  }

  lemma EqualBodyAnswered(length: int)
    requires length != 0
    ensures Respond(ItemsTable, "POST", "/api/items", map[], BodyInput(Some(length), Some(IdDoc))) == Response(201, Some(Created))
  {
    ItemsRequestKey();
    assert ReadBody(BodyInput(Some(length), Some(IdDoc))) == IdDoc;
  }

  lemma StringIdFallsBack(length: int)
    requires length != 0
    ensures Respond(ItemsTable, "POST", "/api/items", map[], BodyInput(Some(length), Some(JObject(map["id" := JStr("1")]))))
      == Response(200, None)
  {
    ItemsRequestKey();
    var other := JObject(map["id" := JStr("1")]);
    assert ReadBody(BodyInput(Some(length), Some(other))) == other;
    assert other != IdDoc by {
      assert other.fields["id"] != IdDoc.fields["id"];
    }
  }

  const PingLower: SpecFile := SpecFile([], "ping.get", Some(SpecConfig(Some(200), [])))
  const PingUpper: SpecFile := SpecFile([], "ping.GET", Some(SpecConfig(Some(204), [])))

  lemma PingNames()
    ensures SpecNameOf("ping.get") == Some(SpecName("ping", "get"))
    ensures SpecNameOf("ping.GET") == Some(SpecName("ping", "GET"))
  {
    assert "ping" + "." + "get" == "ping.get";
    SpecNameOfParts("ping", "get");
    assert "ping" + "." + "GET" == "ping.GET";
    SpecNameOfParts("ping", "GET");
  }

  lemma PingKeys()
    ensures KeyOf([], SpecName("ping", "get")) == PingKey
    ensures KeyOf([], SpecName("ping", "GET")) == PingKey
  {
    assert Upper("get") == "GET" && Upper("GET") == "GET";
  }

  const PingKey: RouteKey := RouteKey("GET", "/ping")
  const PingTable: Routes := map[PingKey := RouteEntry(200, JNull, [])]

  /** In sorted order `ping.GET.yaml` comes before `ping.get.yaml` ('G' sorts before 'g'). */
  lemma PingLoads()
    ensures Load([PingUpper, PingLower], map[]) == Ok(PingTable)
  {
    PingUpperBuilds();
    PingLowerBuilds();
    LoadTwo(PingUpper, PingLower, map[], PingKey, RouteEntry(204, JNull, []), PingKey, RouteEntry(200, JNull, []));
  }

  lemma PingLowerBuilds()
    ensures BuildRoute(PingLower, map[]) == Ok(Some((PingKey, RouteEntry(200, JNull, []))))
  {
    PingNames();
    PingKeys();
  }

  lemma PingUpperBuilds()
    ensures BuildRoute(PingUpper, map[]) == Ok(Some((PingKey, RouteEntry(204, JNull, []))))
  {
    PingNames();
    PingKeys();
  }

  lemma PingRequestKey()
    ensures NormalizePath("/ping/") == "/ping"
    ensures Upper("GET") == "GET"
  {
    assert TrimRight("/ping/", '/') == "/ping";
  }

  /** Two files deriving `GET /ping`, `ping.GET.yaml` (status 204) and `ping.get.yaml`
      (status 200), listed in sorted order: the later `ping.get.yaml` is served, and a
      trailing slash on the request does not matter. */
  lemma LaterDuplicateWins(query: Query, input: BodyInput)
    ensures Load([PingUpper, PingLower], map[]).Ok?
    ensures Respond(Load([PingUpper, PingLower], map[]).value, "GET", "/ping/", query, input) == Response(200, None)
  {
    PingLoads();
    PingRequestKey();
  }
}
