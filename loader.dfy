/** The spec loader and response resolver: `load_specs` turns the sorted list of
    `<name>.<method>.yaml` files under the spec directory into the routing table. */
module Loader {
  import opened Wrappers
  import opened JsonValues
  import opened Text

  /** One rule of a route, after its payloads were resolved (`MatchEntry`). */
  datatype MatchEntry = MatchEntry(
    params: Option<map<string, Json>>,
    requestBody: Json,
    status: int,
    response: Json)

  /** One route of the table (`RouteEntry`). */
  datatype RouteEntry = RouteEntry(status: int, defaultResponse: Json, matches: seq<MatchEntry>)

  /** A table key: the upper-cased method and the URL path. */
  datatype RouteKey = RouteKey(verb: string, path: string)

  type Routes = map<RouteKey, RouteEntry>

  /** One item of a spec's `matches` list as the YAML gives it; `None` is an absent key. */
  datatype MatchSpec = MatchSpec(
    params: Option<map<string, Json>>,
    status: Option<int>,
    response: Option<Json>,
    responseFile: Option<string>,
    request: Option<Json>,
    requestFile: Option<string>)

  /** The parsed YAML document of a spec file (an empty document is `SpecConfig(None, [])`). */
  datatype SpecConfig = SpecConfig(status: Option<int>, matches: seq<MatchSpec>)

  /** One `*.yaml` file found under the spec directory: its directory segments
      relative to the root, its name without `.yaml`, and its parsed document.
      A document that parses to an empty or false value (empty file, `[]`, `0`,
      `false`, `''`) is read as an empty mapping, so it is `Some(SpecConfig(None, []))`;
      `None` stands for YAML that does not parse, or parses to some other non-mapping. */
  datatype SpecFile = SpecFile(dir: seq<string>, stem: string, config: Option<SpecConfig>)

  /** A file named `name` in (or relative to) directory `dir`. */
  datatype FileKey = FileKey(dir: seq<string>, name: string)

  /** What opening each file yields: absent when the file does not exist,
      `None` when it exists but is not valid JSON. */
  type Files = map<FileKey, Option<Json>>

  /** Why `load_specs` raises. */
  datatype LoadError =
    | MalformedSpec(dir: seq<string>, stem: string)
    | MissingFile(file: FileKey)
    | InvalidJson(file: FileKey)

  /** The first two dot-separated parts of a spec stem: `name` and the method token as written. */
  datatype SpecName = SpecName(name: string, token: string)

  const DefaultStatus: int := 200

  function SpecNameOf(stem: string): Option<SpecName> {
    var parts := Split(stem, '.');
    if |parts| < 2 then None else Some(SpecName(parts[0], parts[1]))
  }

  /** The URL path of a route: a leading slash, then the directory segments and the
      route name joined by slashes. */
  function UrlPath(dir: seq<string>, name: string): string {
    if |dir| > 0 then "/" + Join(dir + [name], '/') else "/" + name
  }

  function KeyOf(dir: seq<string>, sn: SpecName): RouteKey {
    RouteKey(Upper(sn.token), UrlPath(dir, sn.name))
  }

  /** The key a listed file defines, if it is a route spec at all. */
  function DerivedKey(spec: SpecFile): Option<RouteKey> {
    match SpecNameOf(spec.stem)
    case None => None
    case Some(sn) => Some(KeyOf(spec.dir, sn))
  }

  function Prefix(sn: SpecName): string {
    sn.name + "." + sn.token
  }

  /** `<name>.<method>.resp.json`: the route's default response. */
  function DefaultRespName(sn: SpecName): string {
    Prefix(sn) + ".resp.json"
  }

  /** `<name>.<method>.resp.<i>.json`: the response of the `i`-th match. */
  function RespName(sn: SpecName, i: nat): string {
    Prefix(sn) + ".resp." + NatToString(i) + ".json"
  }

  /** `<name>.<method>.req.<i>.json`: the request body of the `i`-th match. */
  function ReqName(sn: SpecName, i: nat): string {
    Prefix(sn) + ".req." + NatToString(i) + ".json"
  }

  /** A conventional file: no value when it does not exist. */
  function Conventional(files: Files, f: FileKey): Result<Json, LoadError> {
    if f !in files then Ok(JNull)
    else if files[f].None? then Err(InvalidJson(f))
    else Ok(files[f].value)
  }

  /** A file named by `*_file`: it must exist. */
  function Referenced(files: Files, f: FileKey): Result<Json, LoadError> {
    if f !in files then Err(MissingFile(f))
    else if files[f].None? then Err(InvalidJson(f))
    else Ok(files[f].value)
  }

  /** Inline value, else the referenced file, else the conventional file. */
  function Resolve(inline: Option<Json>, ref: Option<string>, files: Files, dir: seq<string>, convention: string): Result<Json, LoadError> {
    if inline.Some? then Ok(inline.value)
    else if ref.Some? then Referenced(files, FileKey(dir, ref.value))
    else Conventional(files, FileKey(dir, convention))
  }

  /** What a resolved payload `v` is, stated on the files themselves. */
  ghost predicate ResolvedFrom(v: Json, inline: Option<Json>, ref: Option<string>, files: Files, dir: seq<string>, convention: string) {
    if inline.Some? then v == inline.value
    else if ref.Some? then FileKey(dir, ref.value) in files && files[FileKey(dir, ref.value)] == Some(v)
    else if FileKey(dir, convention) in files then files[FileKey(dir, convention)] == Some(v)
    else v == JNull
  }

  /** The `i`-th (1-based) match of a spec: response first, then request body. */
  function ResolveMatch(m: MatchSpec, i: nat, dir: seq<string>, sn: SpecName, files: Files, routeStatus: int): Result<MatchEntry, LoadError> {
    match Resolve(m.response, m.responseFile, files, dir, RespName(sn, i))
    case Err(e) => Err(e)
    case Ok(response) =>
      match Resolve(m.request, m.requestFile, files, dir, ReqName(sn, i))
      case Err(e) => Err(e)
      case Ok(body) => Ok(MatchEntry(m.params, body, m.status.GetOr(routeStatus), response))
  }

  /** All matches of a spec, in order, stopping at the first failure. */
  function ResolveMatches(ms: seq<MatchSpec>, dir: seq<string>, sn: SpecName, files: Files, routeStatus: int): Result<seq<MatchEntry>, LoadError>
    decreases |ms|
  {
    if |ms| == 0 then Ok([])
    else
      match ResolveMatches(ms[..|ms| - 1], dir, sn, files, routeStatus)
      case Err(e) => Err(e)
      case Ok(es) =>
        match ResolveMatch(ms[|ms| - 1], |ms|, dir, sn, files, routeStatus)
        case Err(e) => Err(e)
        case Ok(entry) => Ok(es + [entry])
  }

  /** The route one listed file defines: `Ok(None)` for a file that is not a route spec. */
  function BuildRoute(spec: SpecFile, files: Files): Result<Option<(RouteKey, RouteEntry)>, LoadError> {
    match SpecNameOf(spec.stem)
    case None => Ok(None)
    case Some(sn) =>
      match spec.config
      case None => Err(MalformedSpec(spec.dir, spec.stem))
      case Some(config) =>
        var status := config.status.GetOr(DefaultStatus);
        match Conventional(files, FileKey(spec.dir, DefaultRespName(sn)))
        case Err(e) => Err(e)
        case Ok(defaultResponse) =>
          match ResolveMatches(config.matches, spec.dir, sn, files, status)
          case Err(e) => Err(e)
          case Ok(matches) => Ok(Some((KeyOf(spec.dir, sn), RouteEntry(status, defaultResponse, matches))))
  }

  /** The routing table of a listing: files in order, later keys overwriting earlier ones. */
  function Load(listing: seq<SpecFile>, files: Files): Result<Routes, LoadError>
    decreases |listing|
  {
    if |listing| == 0 then Ok(map[])
    else
      match Load(listing[..|listing| - 1], files)
      case Err(e) => Err(e)
      case Ok(table) =>
        match BuildRoute(listing[|listing| - 1], files)
        case Err(e) => Err(e)
        case Ok(None) => Ok(table)
        case Ok(Some(kv)) => Ok(table[kv.0 := kv.1])
  }

  /** `load_specs`: the loop over the sorted listing, filling the table. */
  method LoadSpecs(listing: seq<SpecFile>, files: Files) returns (r: Result<Routes, LoadError>)
    ensures r == Load(listing, files)
  {
    var routes: Routes := map[];
    var k := 0;
    while k < |listing|
      invariant 0 <= k <= |listing|
      invariant Load(listing[..k], files) == Ok(routes)
    {
      assert listing[..k + 1][..k] == listing[..k];
      var route := LoadRoute(listing[k], files);
      if route.Err? {
        r := Err(route.error);
        LoadErrorSticky(listing, k + 1, files);
        return;
      }
      if route.value.Some? {
        var (key, entry) := route.value.value;
        routes := routes[key := entry];
      }
      k := k + 1;
    }
    assert listing[..|listing|] == listing;
    r := Ok(routes);
  }

  /** The body of the `load_specs` loop for one file, with the loop over its matches. */
  method LoadRoute(spec: SpecFile, files: Files) returns (r: Result<Option<(RouteKey, RouteEntry)>, LoadError>)
    ensures r == BuildRoute(spec, files)
  {
    var parts := Split(spec.stem, '.');
    if |parts| < 2 {
      return Ok(None);
    }
    var sn := SpecName(parts[0], parts[1]);
    var key := RouteKey(Upper(parts[1]), UrlPath(spec.dir, parts[0]));
    if spec.config.None? {
      return Err(MalformedSpec(spec.dir, spec.stem));
    }
    var config := spec.config.value;
    var status := config.status.GetOr(DefaultStatus);

    var respFile := FileKey(spec.dir, DefaultRespName(sn));
    var defaultResponse := JNull;
    if respFile in files {
      if files[respFile].None? {
        return Err(InvalidJson(respFile));
      }
      defaultResponse := files[respFile].value;
    }

    var matches: seq<MatchEntry> := [];
    var i := 1;
    while i <= |config.matches|
      invariant 1 <= i <= |config.matches| + 1
      invariant ResolveMatches(config.matches[..i - 1], spec.dir, sn, files, status) == Ok(matches)
    {
      var m := config.matches[i - 1];
      assert config.matches[..i][..i - 1] == config.matches[..i - 1];
      var matchStatus := m.status.GetOr(status);
      var response := ResolvePayload(m.response, m.responseFile, files, spec.dir, RespName(sn, i));
      if response.Err? {
        MatchErrorSticky(config.matches, i, spec.dir, sn, files, status);
        return Err(response.error);
      }
      var body := ResolvePayload(m.request, m.requestFile, files, spec.dir, ReqName(sn, i));
      if body.Err? {
        MatchErrorSticky(config.matches, i, spec.dir, sn, files, status);
        return Err(body.error);
      }
      matches := matches + [MatchEntry(m.params, body.value, matchStatus, response.value)];
      i := i + 1;
    }
    assert config.matches[..|config.matches|] == config.matches;
    r := Ok(Some((key, RouteEntry(status, defaultResponse, matches))));
  }

  /** One `inline > *_file > convention` block of the matches loop. */
  method ResolvePayload(inline: Option<Json>, ref: Option<string>, files: Files, dir: seq<string>, convention: string)
    returns (r: Result<Json, LoadError>)
    ensures r == Resolve(inline, ref, files, dir, convention)
    ensures r.Ok? ==> ResolvedFrom(r.value, inline, ref, files, dir, convention)
  {
    if inline.Some? {
      return Ok(inline.value);
    } else if ref.Some? {
      var rf := FileKey(dir, ref.value);
      if rf !in files {
        return Err(MissingFile(rf));
      }
      if files[rf].None? {
        return Err(InvalidJson(rf));
      }
      return Ok(files[rf].value);
    } else {
      var conv := FileKey(dir, convention);
      var payload := JNull;
      if conv in files {
        if files[conv].None? {
          return Err(InvalidJson(conv));
        }
        payload := files[conv].value;
      }
      return Ok(payload);
    }
  }

  /** Once a prefix of the listing fails, loading the whole listing fails the same way. */
  lemma {:induction false} LoadErrorSticky(listing: seq<SpecFile>, n: nat, files: Files)
    requires n <= |listing|
    requires Load(listing[..n], files).Err?
    ensures Load(listing, files) == Load(listing[..n], files)
    decreases |listing| - n
  {
    if n < |listing| {
      var next := listing[..n + 1];
      assert next[..n] == listing[..n];
      LoadErrorSticky(listing, n + 1, files);
    } else {
      assert listing[..n] == listing;
    }
  }

  /** The same for the matches of one spec. */
  lemma {:induction false} MatchErrorSticky(ms: seq<MatchSpec>, n: nat, dir: seq<string>, sn: SpecName, files: Files, status: int)
    requires 1 <= n <= |ms|
    requires ResolveMatches(ms[..n - 1], dir, sn, files, status).Ok?
    requires ResolveMatch(ms[n - 1], n, dir, sn, files, status).Err?
    ensures ResolveMatches(ms, dir, sn, files, status) == Err(ResolveMatch(ms[n - 1], n, dir, sn, files, status).error)
    decreases |ms| - n
  {
    assert ms[..n][..n - 1] == ms[..n - 1];
    MatchPrefixErrorSticky(ms, n, dir, sn, files, status);
  }

  lemma {:induction false} MatchPrefixErrorSticky(ms: seq<MatchSpec>, n: nat, dir: seq<string>, sn: SpecName, files: Files, status: int)
    requires n <= |ms|
    requires ResolveMatches(ms[..n], dir, sn, files, status).Err?
    ensures ResolveMatches(ms, dir, sn, files, status) == ResolveMatches(ms[..n], dir, sn, files, status)
    decreases |ms| - n
  {
    if n < |ms| {
      assert ms[..n + 1][..n] == ms[..n];
      MatchPrefixErrorSticky(ms, n + 1, dir, sn, files, status);
    } else {
      assert ms[..n] == ms;
    }
  }
}
