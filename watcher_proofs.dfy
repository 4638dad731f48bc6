/** What the watcher's snapshot holds. */
module WatcherProofs {
  import opened Wrappers
  import opened Text
  import opened Loader
  import opened LoaderProofs
  import opened Watcher

  /** A name has a given extension as its suffix exactly when it ends with that
      extension and has something before it. */
  lemma {:induction false} SuffixIs(name: string, ext: string)
    requires |ext| >= 2 && ext[0] == '.' && '.' !in ext[1..]
    ensures Suffix(name) == ext <==> |name| > |ext| && name[|name| - |ext|..] == ext
  {
    if |name| > |ext| && name[|name| - |ext|..] == ext {
      var d := |name| - |ext|;
      assert name[d] == '.';
      forall j | d < j < |name| ensures name[j] != '.' {
        assert name[j] == ext[j - d] == ext[1..][j - d - 1];
      }
      var i := LastIndexOf(name, '.');
      assert i == d;
    }
  }

  /** Typical names: spec files and JSON files are tracked, a bare `.json` is not. */
  lemma SuffixExamples()
    ensures Suffix("users.get.yaml") == ".yaml"
    ensures Suffix("users.get.resp.1.json") == ".json"
    ensures Suffix(".json") == ""
    ensures Suffix("notes.yaml.bak") == ".bak"
  {
    SuffixIs("users.get.yaml", ".yaml");
    SuffixIs("users.get.resp.1.json", ".json");
    SuffixIs("notes.yaml.bak", ".bak");
    assert LastIndexOf(".json", '.') == 0;
  }

  /** The snapshot holds exactly the regular `.yaml`/`.json` files, each with its mtime. */
  lemma {:induction false} SnapshotContents<M>(entries: seq<DirEntry<M>>)
    requires forall i, j :: 0 <= i < j < |entries| ==> entries[i].path != entries[j].path
    ensures forall p :: p in SnapshotOf(entries) <==>
      exists i :: 0 <= i < |entries| && entries[i].path == p && Tracked(entries[i])
    ensures forall i :: 0 <= i < |entries| && Tracked(entries[i]) ==>
      SnapshotOf(entries)[entries[i].path] == entries[i].mtime
    decreases |entries|
  {
    if |entries| > 0 {
      var n := |entries|;
      var init := entries[..n - 1];
      SnapshotContents(init);
      forall p ensures p in SnapshotOf(entries) <==>
        exists i :: 0 <= i < n && entries[i].path == p && Tracked(entries[i])
      {
        if p in SnapshotOf(entries) && !(Tracked(entries[n - 1]) && entries[n - 1].path == p) {
          assert p in SnapshotOf(init);
          var i :| 0 <= i < n - 1 && init[i].path == p && Tracked(init[i]);
          assert entries[i] == init[i];
        }
        if exists i :: 0 <= i < n && entries[i].path == p && Tracked(entries[i]) {
          var i :| 0 <= i < n && entries[i].path == p && Tracked(entries[i]);
          if i < n - 1 {
            assert init[i] == entries[i];
          }
        }
      }
      forall i | 0 <= i < n && Tracked(entries[i])
        ensures SnapshotOf(entries)[entries[i].path] == entries[i].mtime
      {
        if i < n - 1 {
          assert init[i] == entries[i];
        }
      }
    }
  }

  /** A spec file added since the last poll is served after the next one: its entry
      is a path the old snapshot lacks, so the watcher reloads, and once the load
      succeeds every listed spec file's route is in the published table. Entries
      of the same name already polled in other directories do not matter. */
  method TickServesNewSpec<M(==)>(w: SpecWatcher<M>, disk: Disk<M>, spec: SpecFile) returns (reloaded: bool)
    requires w.alive
    requires forall i, j :: 0 <= i < j < |disk.entries| ==> disk.entries[i].path != disk.entries[j].path
    requires spec in disk.specs
    requires exists i :: 0 <= i < |disk.entries| && SpecEntry(spec, disk.entries[i]) && disk.entries[i].path !in w.mtimes
    requires Load(disk.specs, disk.files).Ok?
    modifies w
    ensures reloaded && w.alive
    ensures w.routes == Load(disk.specs, disk.files).value
    ensures forall s | s in disk.specs && DerivedKey(s).Some? :: DerivedKey(s).value in w.routes
  {
    var i :| 0 <= i < |disk.entries| && SpecEntry(spec, disk.entries[i]) && disk.entries[i].path !in w.mtimes;
    NewEntryChangesSnapshot(disk.entries, w.mtimes, i);
    ListedRoutesLoaded(disk.specs, disk.files);
    reloaded := w.Tick(disk);
  }

  /** A tracked entry whose path an old snapshot lacks makes the new snapshot differ. */
  lemma NewEntryChangesSnapshot<M>(entries: seq<DirEntry<M>>, mtimes: map<string, M>, i: int)
    requires forall i, j :: 0 <= i < j < |entries| ==> entries[i].path != entries[j].path
    requires 0 <= i < |entries| && Tracked(entries[i]) && entries[i].path !in mtimes
    ensures SnapshotOf(entries) != mtimes
  {
    SnapshotContents(entries);
    assert entries[i].path in SnapshotOf(entries);
  }

  /** A successful load has a route for every listed spec file that names one. */
  lemma ListedRoutesLoaded(specs: seq<SpecFile>, files: Files)
    requires Load(specs, files).Ok?
    ensures forall s | s in specs && DerivedKey(s).Some? :: DerivedKey(s).value in Load(specs, files).value
  {
    var table := Load(specs, files).value;
    LoadKeys(specs, files, table);
    forall s | s in specs && DerivedKey(s).Some?
      ensures DerivedKey(s).value in table
    {
      var k :| 0 <= k < |specs| && specs[k] == s;
    }
  }
}
