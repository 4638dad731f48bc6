/** What `load_specs` promises about the table it builds: which keys it has,
    which file each entry comes from, and what each entry holds. */
module LoaderProofs {
  import opened Wrappers
  import opened JsonValues
  import opened Text
  import opened Loader

  /** A spec stem names a route exactly when it has a dot; `name` and the method
      token are then its first two dot-free pieces. */
  lemma SpecNameOfStem(stem: string)
    ensures SpecNameOf(stem).Some? <==> '.' in stem
    ensures SpecNameOf(stem).Some? ==>
      var sn := SpecNameOf(stem).value;
      && '.' !in sn.name && '.' !in sn.token
      && exists rest :: stem == sn.name + "." + sn.token + rest && (rest == "" || rest[0] == '.')
  {
    var parts := Split(stem, '.');
    SplitHasTwoParts(stem, '.');
    SplitShape(stem, '.');
    if |parts| >= 2 {
      JoinSplit(stem, '.');
      assert '.' !in parts[0] && '.' !in parts[1];
      var rest := if |parts| == 2 then "" else "." + Join(parts[2..], '.');
      assert Join(parts[1..], '.') == parts[1] + rest by {
        assert parts[1..][0] == parts[1];
        assert parts[1..][1..] == parts[2..];
      }
      assert stem == parts[0] + "." + parts[1] + rest;
    }
  }

  /** The route path is `/` followed by the directory segments and `name` joined
      by `/`; when none of them holds a `/`, the segments can be read back from it. */
  lemma {:induction false} UrlPathSegments(dir: seq<string>, name: string)
    ensures UrlPath(dir, name) == "/" + Join(dir + [name], '/')
    ensures |dir| == 0 ==> UrlPath(dir, name) == "/" + name
    ensures (forall k :: 0 <= k < |dir| ==> '/' !in dir[k]) && '/' !in name ==>
      Split(UrlPath(dir, name)[1..], '/') == dir + [name]
  {
    var segs := dir + [name];
    if |dir| == 0 {
      assert segs == [name];
    }
    var path := UrlPath(dir, name);
    assert path[1..] == Join(segs, '/');
    if (forall k :: 0 <= k < |dir| ==> '/' !in dir[k]) && '/' !in name {
      forall k | 0 <= k < |segs| ensures '/' !in segs[k] {
        if k < |dir| { assert segs[k] == dir[k]; }
      }
      SplitJoin(segs, '/');
    }
  }

  /** Each ordinal has its own response and request file, none of which is the
      route's default response file. */
  lemma ConventionNamesDistinct(sn: SpecName, i: nat, j: nat)
    ensures RespName(sn, i) != DefaultRespName(sn)
    ensures ReqName(sn, j) != DefaultRespName(sn)
    ensures RespName(sn, i) != ReqName(sn, j)
    ensures i != j ==> RespName(sn, i) != RespName(sn, j)
    ensures i != j ==> ReqName(sn, i) != ReqName(sn, j)
  {
    var p := Prefix(sn);
    var a := RespName(sn, i);
    assert |a| > |DefaultRespName(sn)|;
    assert a[|p| + 3] == 's';
    assert ReqName(sn, j)[|p| + 3] == 'q';
    assert DefaultRespName(sn)[|p| + 3] == 's';
    if i != j {
      if RespName(sn, i) == RespName(sn, j) {
        MiddleEqual(p + ".resp.", NatToString(i), NatToString(j), ".json");
        NatToStringInjective(i, j);
      }
      if ReqName(sn, i) == ReqName(sn, j) {
        MiddleEqual(p + ".req.", NatToString(i), NatToString(j), ".json");
        NatToStringInjective(i, j);
      }
    }
  }

  lemma MiddleEqual(p: string, x: string, y: string, s: string)
    requires p + x + s == p + y + s
    ensures x == y
  {
    var a, b := p + x + s, p + y + s;
    assert |x| == |y|;
    assert x == a[|p|..|p| + |x|];
    assert y == b[|p|..|p| + |y|];
  }

  /** A listed file yields a route exactly when its stem derives a key, and the
      route is filed under that key. */
  lemma BuildRouteKey(spec: SpecFile, files: Files)
    ensures BuildRoute(spec, files).Err? ==> DerivedKey(spec).Some?
    ensures BuildRoute(spec, files).Ok? ==>
      (BuildRoute(spec, files).value.Some? <==> DerivedKey(spec).Some?)
    ensures BuildRoute(spec, files).Ok? && BuildRoute(spec, files).value.Some? ==>
      BuildRoute(spec, files).value.value.0 == DerivedKey(spec).value
  {
  }

  /** The table has exactly the keys that the listed files' names derive: a file
      whose stem has no dot contributes nothing. */
  lemma {:induction false} LoadKeys(listing: seq<SpecFile>, files: Files, table: Routes)
    requires Load(listing, files) == Ok(table)
    ensures forall key :: key in table <==> exists i :: 0 <= i < |listing| && DerivedKey(listing[i]) == Some(key)
    decreases |listing|
  {
    if |listing| > 0 {
      var n := |listing|;
      var init := listing[..n - 1];
      var last := listing[n - 1];
      var prev := Load(init, files).value;
      LoadKeys(init, files, prev);
      BuildRouteKey(last, files);
      forall key
        ensures key in table <==> exists i :: 0 <= i < n && DerivedKey(listing[i]) == Some(key)
      {
        if key in table {
          if DerivedKey(last) == Some(key) {
            assert DerivedKey(listing[n - 1]) == Some(key);
          } else {
            assert key in prev;
            var i :| 0 <= i < n - 1 && DerivedKey(init[i]) == Some(key);
            assert listing[i] == init[i];
          }
        }
        if exists i :: 0 <= i < n && DerivedKey(listing[i]) == Some(key) {
          var i :| 0 <= i < n && DerivedKey(listing[i]) == Some(key);
          if i < n - 1 {
            assert init[i] == listing[i];
          }
        }
      }
    }
  }

  /** Duplicate keys: the entry under a key is the one built from the LAST listed
      file deriving that key; earlier files with that key are overwritten silently. */
  lemma {:induction false} LastWriterWins(listing: seq<SpecFile>, files: Files, table: Routes, key: RouteKey, w: nat)
    requires Load(listing, files) == Ok(table)
    requires w < |listing| && DerivedKey(listing[w]) == Some(key)
    requires forall j :: w < j < |listing| ==> DerivedKey(listing[j]) != Some(key)
    ensures key in table && BuildRoute(listing[w], files) == Ok(Some((key, table[key])))
    decreases |listing|
  {
    var n := |listing|;
    var init := listing[..n - 1];
    var last := listing[n - 1];
    var prev := Load(init, files).value;
    BuildRouteKey(last, files);
    if w < n - 1 {
      assert init[w] == listing[w];
      forall j | w < j < |init| ensures DerivedKey(init[j]) != Some(key) {
        assert init[j] == listing[j];
      }
      LastWriterWins(init, files, prev, key, w);
    }
  }

  /** Every file is loaded until the first one that fails, whose error is the result. */
  lemma {:induction false} LoadStopsAtFirstError(listing: seq<SpecFile>, files: Files, i: nat)
    requires i < |listing| && BuildRoute(listing[i], files).Err?
    requires forall j :: 0 <= j < i ==> BuildRoute(listing[j], files).Ok?
    ensures Load(listing, files) == Err(BuildRoute(listing[i], files).error)
  {
    LoadSucceeds(listing[..i], files);
    assert listing[..i + 1][..i] == listing[..i];
    LoadErrorSticky(listing, i + 1, files);
  }

  /** A listing loads when every one of its files does. */
  lemma {:induction false} LoadSucceeds(listing: seq<SpecFile>, files: Files)
    requires forall j :: 0 <= j < |listing| ==> BuildRoute(listing[j], files).Ok?
    ensures Load(listing, files).Ok?
    decreases |listing|
  {
    if |listing| > 0 {
      var init := listing[..|listing| - 1];
      forall j | 0 <= j < |init| ensures BuildRoute(init[j], files).Ok? {
        assert init[j] == listing[j];
      }
      LoadSucceeds(init, files);
    }
  }

  /** A file whose stem has no dot can be dropped from the listing without any
      effect, even when its YAML is malformed. */
  lemma {:induction false} NonSpecFileIgnored(listing: seq<SpecFile>, files: Files, i: nat)
    requires i < |listing| && '.' !in listing[i].stem
    ensures Load(listing[..i] + listing[i + 1..], files) == Load(listing, files)
    decreases |listing|
  {
    SpecNameOfStem(listing[i].stem);
    var n := |listing|;
    var init := listing[..n - 1];
    if i == n - 1 {
      assert listing[..i] + listing[i + 1..] == init;
    } else {
      var shorter := listing[..i] + listing[i + 1..];
      assert init[i] == listing[i];
      NonSpecFileIgnored(init, files, i);
      assert shorter[..|shorter| - 1] == init[..i] + init[i + 1..];
      assert shorter[|shorter| - 1] == listing[n - 1];
    }
  }

  /** How one match entry relates to the `matches` item `m` it came from. */
  ghost predicate MatchResolvedFrom(e: MatchEntry, m: MatchSpec, i: nat, dir: seq<string>, sn: SpecName, files: Files, routeStatus: int) {
    && e.params == m.params
    && e.status == m.status.GetOr(routeStatus)
    && ResolvedFrom(e.response, m.response, m.responseFile, files, dir, RespName(sn, i))
    && ResolvedFrom(e.requestBody, m.request, m.requestFile, files, dir, ReqName(sn, i))
  }

  /** How a route entry relates to the spec file it was built from. */
  ghost predicate RouteBuiltFrom(spec: SpecFile, files: Files, key: RouteKey, entry: RouteEntry) {
    && SpecNameOf(spec.stem).Some?
    && spec.config.Some?
    && var sn := SpecNameOf(spec.stem).value;
    && var config := spec.config.value;
    && key == KeyOf(spec.dir, sn)
    && entry.status == config.status.GetOr(DefaultStatus)
    && ResolvedFrom(entry.defaultResponse, None, None, files, spec.dir, DefaultRespName(sn))
    && |entry.matches| == |config.matches|
    && forall j :: 0 <= j < |config.matches| ==>
         MatchResolvedFrom(entry.matches[j], config.matches[j], j + 1, spec.dir, sn, files, entry.status)
  }

  /** The matches come out one per `matches` item, in order, the `j`-th resolved with ordinal `j + 1`. */
  lemma {:induction false} ResolveMatchesInOrder(ms: seq<MatchSpec>, dir: seq<string>, sn: SpecName, files: Files, status: int, es: seq<MatchEntry>)
    requires ResolveMatches(ms, dir, sn, files, status) == Ok(es)
    ensures |es| == |ms|
    ensures forall j :: 0 <= j < |ms| ==> MatchResolvedFrom(es[j], ms[j], j + 1, dir, sn, files, status)
    decreases |ms|
  {
    if |ms| > 0 {
      var n := |ms|;
      var init := ms[..n - 1];
      var prev := ResolveMatches(init, dir, sn, files, status).value;
      ResolveMatchesInOrder(init, dir, sn, files, status, prev);
      assert es == prev + [ResolveMatch(ms[n - 1], n, dir, sn, files, status).value];
      forall j | 0 <= j < n ensures MatchResolvedFrom(es[j], ms[j], j + 1, dir, sn, files, status) {
        if j < n - 1 {
          assert init[j] == ms[j];
        }
      }
    }
  }

  /** A built route: statuses default to 200 and then to the route's own, payloads
      resolve inline, then referenced file, then conventional file. */
  lemma RouteEntryOfSpec(spec: SpecFile, files: Files, key: RouteKey, entry: RouteEntry)
    requires BuildRoute(spec, files) == Ok(Some((key, entry)))
    ensures RouteBuiltFrom(spec, files, key, entry)
  {
    var sn := SpecNameOf(spec.stem).value;
    var config := spec.config.value;
    var status := config.status.GetOr(DefaultStatus);
    ResolveMatchesInOrder(config.matches, spec.dir, sn, files, status, entry.matches);
  }

  /** The whole table: every entry comes from the last file deriving its key, and
      is what that file's document and its sibling files say. */
  lemma LoadedEntry(listing: seq<SpecFile>, files: Files, table: Routes, key: RouteKey)
    requires Load(listing, files) == Ok(table)
    requires key in table
    ensures exists w :: (
      && 0 <= w < |listing|
      && DerivedKey(listing[w]) == Some(key)
      && (forall j :: w < j < |listing| ==> DerivedKey(listing[j]) != Some(key))
      && RouteBuiltFrom(listing[w], files, key, table[key]))
  {
    LoadKeys(listing, files, table);
    var w := LastIndexWithKey(listing, key);
    LastWriterWins(listing, files, table, key, w);
    RouteEntryOfSpec(listing[w], files, key, table[key]);
  }

  lemma LastIndexWithKey(listing: seq<SpecFile>, key: RouteKey) returns (w: nat)
    requires exists i :: 0 <= i < |listing| && DerivedKey(listing[i]) == Some(key)
    ensures w < |listing| && DerivedKey(listing[w]) == Some(key)
    ensures forall j :: w < j < |listing| ==> DerivedKey(listing[j]) != Some(key)
  {
    w := |listing| - 1;
    while DerivedKey(listing[w]) != Some(key)
      invariant 0 <= w < |listing|
      invariant exists i :: 0 <= i <= w && DerivedKey(listing[i]) == Some(key)
      invariant forall j :: w < j < |listing| ==> DerivedKey(listing[j]) != Some(key)
      decreases w
    {
      w := w - 1;
    }
  }
}
