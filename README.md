# mockpath engine, modelled in Dafny

mockpath is a mock HTTP server driven by a directory of spec files. A file
`<dir>/<name>.<method>.yaml` defines the route `METHOD /<dir>/<name>`. The file
holds a fallback status and an ordered list of `matches` rules. Each rule is
either a query-parameter rule (`params`) or a body-equality rule (`request` /
`request_file` / `<name>.<method>.req.<i>.json`). Its response comes from
`response`, then `response_file`, then `<name>.<method>.resp.<i>.json`.

The repository holds the same engine twice: `src/mockpath/cli.py` (the click
CLI) and `main.py` (an older argparse copy). Lines 28-181 of `main.py` repeat
lines 28-182 of `cli.py`. They differ in three ways, none of which is modelled:
`cli.py` sends a `Content-Length` header, logs through click, and sets
`protocol_version = "HTTP/1.1"` so that connections are kept alive. The model
defines the engine once, and the table below cites whichever copy states a
property most directly.

The model has three parts, one module each, plus one module of lemmas per part:

- `Loader` (`load_specs`). The filesystem is given as two things:
  - a listing of `SpecFile(dir, stem, config)` values, in the order `sorted(spec_dir.rglob("*.yaml"))` gives;
  - a map `Files` from `(directory, file name)` to what opening that file
    yields: absent when the file does not exist, `None` when it is not valid JSON.

  `LoadSpecs` is the loop over the listing. `LoadRoute` is the body of that loop,
  including the loop over `matches`. Each is proved equal to a spec function
  (`Load`, `BuildRoute`). `LoaderProofs` then proves four things about `Load`:
  which keys the table has, that the last file wins, that loading stops at the
  first error, and what each entry holds.
- `Matcher` (`handle_request`, `_read_body`, `_send`). `HandleRequest` is the
  handler's loop, with its lazy `body_read` flag. It returns the response and
  how many times the body was read. It is proved equal to the spec function
  `Respond`, and it reads the body at most once, exactly when a body rule is
  reached. `MatcherProofs` covers:
  - 404 versus 405;
  - first match wins, and the fallback when no rule holds;
  - how query and body rules are judged;
  - that dead rules are never selected.
- `Watcher` (`watch_reload`, `snapshot`). `Snapshot` is the snapshot loop.
  `SpecWatcher` holds `mtimes` and the published `routes`. Its `Tick` method is
  one turn of the polling loop, with the sleep abstracted away.

`Scenarios` proves what the engine answers for small concrete spec directories,
from loading the files to the response.

Python's `None` and JSON `null` are the same value to the server. A rule
written `request: null`, a request file holding `null`, a missing convention
file and an empty request body all become `None`. The model uses `JNull` for
all of them, so a body rule can never require a literal `null` body. Numbers
are reals, so `1` and `1.0` are equal, as they are in Python.

Some behaviours of the code are easy to overlook. The model follows the code in each:

- A query key given several times flattens to the LIST of its values
  (`main.py:109`). It is not compared by its first value, so it satisfies only a
  `params` expectation that is the same YAML list of strings.
- A reload that raises is not caught (`main.py:180`). The watcher thread ends
  and no later change is ever picked up. `SpecWatcher.Tick` models this as
  `alive` becoming false. The previous table stays published.
- The loader never reads a top-level `response` or `response_file` key. A
  route's default response comes only from `<name>.<method>.resp.json`
  (`main.py:45-49`).
- A `params` entry whose expected value is `null` is satisfied when the key is
  absent from the query, because `query_flat.get(k)` is then `None`
  (`main.py:128`).

## Model

| member | source | states |
|---|---|---|
| `Loader.LoadSpecs` | src/mockpath/cli.py:28-96 | the table built by the loop over the listing is `Load`, the left-to-right fold in which a later file overwrites an earlier key and the first failing file's error is raised |
| `Loader.LoadRoute` | src/mockpath/cli.py:32-94 | the work done for one listed file, including its loop over `matches`, is `BuildRoute`: no route for a stem without a dot, an error for malformed YAML, otherwise the key and the fully resolved entry |
| `Loader.ResolvePayload` | src/mockpath/cli.py:55-81 | a payload is the inline value if the key is present; otherwise the referenced file, which must exist and parse; otherwise the conventional file if it exists, else `None`; a conventional file that exists but does not parse is an error |
| `LoaderProofs.SpecNameOfStem` | src/mockpath/cli.py:32-35 | a stem names a route iff it contains a dot; the name and the method token are then dot-free and the stem starts with `name.token` followed by nothing or by another dot |
| `LoaderProofs.UrlPathSegments` | src/mockpath/cli.py:37-38 | the route path is `/` then the directory segments and the name joined by `/` (just `/name` at the root), and splitting it on `/` gives those segments back when none contains `/` |
| `LoaderProofs.ConventionNamesDistinct` | main.py:45-78 | the convention files of different ordinals differ, response and request files never coincide, and none is the route's default-response file |
| `LoaderProofs.LoadKeys` | src/mockpath/cli.py:31-38 | the table's keys are exactly the `(METHOD, path)` pairs derived from the listed file names; a file whose stem has no dot contributes no key |
| `LoaderProofs.LastWriterWins` | src/mockpath/cli.py:90 | under duplicate keys, the entry kept is the one built from the last listed file deriving that key |
| `LoaderProofs.LoadStopsAtFirstError` | src/mockpath/cli.py:40-81 | when a file fails to load and every earlier file loads, the whole load fails with that file's error |
| `LoaderProofs.LoadSucceeds` | src/mockpath/cli.py:31-96 | a listing whose files each load gives a table |
| `LoaderProofs.NonSpecFileIgnored` | src/mockpath/cli.py:32-34 | removing a listed file whose stem has no dot leaves the result unchanged, even when its YAML is malformed |
| `LoaderProofs.ResolveMatchesInOrder` | main.py:51-88 | the resolved match list has exactly one entry per `matches` item, in order; the `j`-th keeps its `params`, resolves with ordinal `j + 1`, and its status defaults to the route's |
| `LoaderProofs.RouteEntryOfSpec` | src/mockpath/cli.py:43-94 | a built entry has status `status` or 200, its default response from `<name>.<method-token>.resp.json` or `None`, and per-match statuses and payloads resolved in the inline, referenced, conventional order |
| `LoaderProofs.LoadedEntry` | src/mockpath/cli.py:28-96 | every table entry is what the last file deriving its key says, together with that file's sibling files |
| `Text.SplitShape` | src/mockpath/cli.py:32 | `str.split` yields one more piece than there are separators, none containing the separator |
| `Text.JoinSplit` | src/mockpath/cli.py:32 | joining the pieces of a split gives the original stem back |
| `Text.Upper` | src/mockpath/cli.py:35 | the method is the token with each ASCII lower-case letter made upper-case, same length |
| `Text.TrimRight` | src/mockpath/cli.py:107 | `rstrip("/")` removes exactly the trailing run of `/` and nothing else |
| `Matcher.NormalizePath` | main.py:105 | the normalised path is never empty, ends without `/` unless it is `/`, is `/` exactly for an all-slash path, and otherwise is the request path minus its trailing slashes |
| `MatcherProofs.NormalizePathIdempotent` | main.py:105 | normalising twice is normalising once |
| `MatcherProofs.NormalizePathExamples` | main.py:105 | `/a/b//` becomes `/a/b`; `/`, the empty path and `///` become `/` |
| `Matcher.Send` | src/mockpath/cli.py:151-158 | the response carries the given status, and its body is empty exactly when the payload is `None` |
| `Matcher.ReadBody` | src/mockpath/cli.py:142-149 | a zero or missing `Content-Length` or a body that is not JSON reads as `None`; otherwise the parsed body |
| `Matcher.FirstSatisfied` | src/mockpath/cli.py:127-138 | the chosen index is the first satisfied rule in declaration order: it holds and every earlier rule does not, or no rule holds |
| `Matcher.HandleRequest` | src/mockpath/cli.py:105-140 | the handler's response is `Respond`; it reads the body at most once, and exactly when the route exists and a body rule is among the rules examined |
| `MatcherProofs.UnknownRoute` | src/mockpath/cli.py:112-117 | with no route under `(METHOD, path)`, the answer is 405 if another method has that path, 404 otherwise, and the body is not read |
| `MatcherProofs.GetOnlyRoute` | src/mockpath/cli.py:112-123 | a path with only a GET route answers POST with 405; an unknown path answers 404 |
| `MatcherProofs.FirstSatisfiedRuleAnswers` | src/mockpath/cli.py:127-138 | the first satisfied rule's status and response are sent, whatever later rules say |
| `MatcherProofs.NoRuleFallsBack` | src/mockpath/cli.py:140 | when no rule holds, the route's status and default response are sent, never a 404/405 |
| `MatcherProofs.QueryRuleIgnoresBody` | src/mockpath/cli.py:128-132 | a rule with `params` is judged on the query alone, never as a body rule |
| `MatcherProofs.EmptyParamsAlwaysHold` | main.py:127-130 | a rule whose `params` is an empty mapping holds for every request |
| `MatcherProofs.RepeatedKeyFailsStringExpectation` | main.py:109-128 | a query key given more than once never satisfies a string expectation |
| `MatcherProofs.MissingKey` | main.py:128 | a key absent from the query satisfies its expectation only when that expectation is `null`; otherwise the rule fails |
| `MatcherProofs.SingleValuedKey` | main.py:109 | a key given once satisfies its expectation exactly when the expectation is that same string |
| `MatcherProofs.NoBodyMatchesNoBodyRule` | src/mockpath/cli.py:142-149 | an empty or unparseable body satisfies no rule without `params` |
| `MatcherProofs.BodyRuleHolds` | src/mockpath/cli.py:132-138 | a body rule holds iff the length is non-zero and the body parses to exactly the expected value (type-sensitive) |
| `MatcherProofs.DeadRulesChangeNothing` | main.py:126-137 | rules with neither `params` nor a request body are never selected: dropping them selects the same rule |
| `MatcherProofs.BodyReadOnlyWhenNeeded` | src/mockpath/cli.py:125-136 | when a query rule holds before any body rule, the body is never read |
| `Watcher.Suffix` | main.py:169 | a non-empty suffix is a tail of the name that starts with its only dot, is at least two characters, and is shorter than the name |
| `WatcherProofs.SuffixIs` | main.py:169 | a name has suffix `.yaml` (or `.json`) iff it ends with it and has something before it |
| `WatcherProofs.SuffixExamples` | main.py:169 | `users.get.yaml` and `users.get.resp.1.json` are tracked; `.json` has no suffix; `notes.yaml.bak` has `.bak` |
| `Watcher.Snapshot` | main.py:166-171 | the loop's result is `SnapshotOf` of the listed entries |
| `WatcherProofs.SnapshotContents` | main.py:166-171 | the snapshot holds exactly the regular files with suffix `.yaml` or `.json`, each with its mtime |
| `Watcher.SpecWatcher.constructor` | main.py:173 | the watcher starts with the current snapshot and the table loaded at startup |
| `Watcher.SpecWatcher.Tick` | main.py:174-181 | a live watcher always stores the new snapshot; it reloads iff the snapshot differs and the load succeeds, then publishes the new table; a failed load keeps the old table and ends the watcher; a dead watcher changes nothing |
| `Watcher.TickSettles` | main.py:175-180 | a second poll of an unchanged disk never reloads |
| `WatcherProofs.NewEntryChangesSnapshot` | src/mockpath/cli.py:167-178 | a tracked file whose path the previous snapshot lacks makes the new snapshot differ from it |
| `WatcherProofs.ListedRoutesLoaded` | src/mockpath/cli.py:31-90 | a successful load has a route for every listed spec file whose stem names one |
| `WatcherProofs.TickServesNewSpec` | src/mockpath/cli.py:166-181 | on a live watcher, a listed spec file with a tracked entry whose path the last snapshot lacks (same-named files polled earlier in other directories notwithstanding) makes the next poll reload; when the load succeeds, the published table is the new load, and it holds the route of every listed spec file |
| `Scenarios.DefaultResponseFromConventionFile` | src/mockpath/cli.py:45-49 | `users.get.yaml` with status 200 beside `users.get.resp.json` holding `{"users": []}` answers `GET /users` with 200 and that document |
| `Scenarios.QueryRuleOrDefault` | src/mockpath/cli.py:127-140 | a `params: {fast: "true"}` rule answers `POST /order?fast=true` with 202; `POST /order` gets the default 200 with an empty body |
| `Scenarios.RequestFileRoundTrip` | src/mockpath/cli.py:73-76 | a `request_file` holding `{"id": 1}` matches a body `{"id": 1}` and not `{"id": "1"}` |
| `Scenarios.LoadTwo` | src/mockpath/cli.py:90 | loading two route files writes the second entry over the first, and replaces it outright when both derive the same key |
| `Scenarios.LaterDuplicateWins` | src/mockpath/cli.py:31 | `ping.GET.yaml` (204) and `ping.get.yaml` (200), in the sorted order `ping.GET.yaml` first: `GET /ping/` is answered 200 from `ping.get.yaml`, the later file |

## Left out

- The HTTP server is left out: `send_response`, headers (`Content-Type`, and the `Content-Length` that only `cli.py` sends), writing to `wfile`, `log_message`, and the JSON serialisation of bodies. A response is modelled as a status and an optional JSON body.
- The CLI is left out: click in `cli.py`, argparse and the directory check in `main.py`, and the startup printing. They are thin wrappers around `load_specs`.
- Threads, `time.sleep(2)`, the endless loop and the swap of the global `routes` are left out. One poll is `SpecWatcher.Tick`, and the published table is its `routes` field. Concurrent readers are not modelled: `HandleRequest` takes one table value, so in the model each request sees one generation of the table.
- YAML and JSON parsing, `rglob`, `open`, `exists` and `stat` are left out. They are foreign calls. Spec files come as a listing of already-parsed documents, sibling files as the `Files` map, and directory entries as a sequence of `DirEntry` values. mtimes are an opaque type with equality.
- Sorting is left out. `sorted(...)` belongs to the listing abstraction: `LoadSpecs` processes files in the order given, and the duplicate-key lemmas speak of that order.
- Schema errors inside a well-formed YAML document are left out: a non-integer `status`, a `matches` that is not a list, `params` that is not a mapping, or a `null` `*_file` value. The document types already have the right shape. A document whose value is empty or false (an empty file, `[]`, `0`, `false`, `''`) is read as an empty mapping: it is `SpecConfig(None, [])` and loads as a status-200 route with no rules. Only YAML that does not parse, or parses to another non-mapping, is `None` and raises `MalformedSpec`.
- Path resolution is left out: a `*_file` value is looked up as `(spec directory, value)` verbatim, with no `..` or absolute-path handling. The `Files` map may still give two spellings of one file the same content.
- `urlparse` and `parse_qs` are left out: the handler receives the path string and a map from each query key to its non-empty list of values.
- A `Content-Length` that is not an integer is left out. `int()` then raises outside the `try`. `BodyInput` carries an integer length or none.
- Python `==` across types (`True == 1`) is left out: `Json` equality is structural. Numbers are reals, so `1 == 1.0` does hold, as in Python.
- Text.Upper: only ASCII letters are upper-cased, whereas Python's `str.upper` also maps non-ASCII letters (and can change the length, as `ß` becomes `SS`).
- Watcher.Snapshot: a file deleted between `rglob` and `stat` makes `stat` raise and end the watcher. This is not modelled.
- WatcherProofs.SnapshotContents: assumes the listed paths are distinct, as `rglob` yields each path once.
- Method dispatch is left out. Only `GET`, `POST`, `PUT`, `PATCH` and `DELETE` reach `handle_request` (`src/mockpath/cli.py:163`); the HTTP server answers any other method, lower-case spellings included, with 501 before the handler runs. `Respond` takes any verb and would answer 404 or 405, so a route such as `users.head.yaml` is loaded but can never be served.
- Keep-alive connections are left out. `cli.py` speaks HTTP/1.1 (`src/mockpath/cli.py:103`), and the handler reads the body only when it reaches a body rule. A body left unread (a 404 or 405, or a query rule answering first) stays in the connection and is read as the start of the next request. `HandleRequest` counts body reads but does not model the connection.
- A file named exactly `.yaml` is loaded as a spec (its stem is `.yaml`), but its suffix is empty, so the watcher does not track it; `SpecEntry` does not cover it.
- WatcherProofs.TickServesNewSpec: assumes distinct entry paths, as `rglob` yields each path once. Entries are matched to spec files by name, because entry paths are opaque strings in the model.
- A reload in the middle of a request is left out. `handle_request` reads the global table twice: once for the path check and once for the route lookup (`src/mockpath/cli.py:112-114`, `main.py:112-114`). A reload between the two reads can give an answer that neither table gives. For example, if the only route at `/x` is GET and the reload removes it, `GET /x` gets 405, although the old table serves the route and the new one answers 404. `Respond` reads one table for both.
