/** The reload watcher: `watch_reload` and its `snapshot`, one poll at a time. */
module Watcher {
  import opened Wrappers
  import opened Text
  import opened Loader

  /** One entry under the spec directory as `rglob("*")` lists it: full path, final
      component, whether it is a regular file, and its modification time. */
  datatype DirEntry<M> = DirEntry(path: string, name: string, isFile: bool, mtime: M)

  /** `PurePath.suffix`: from the last dot of the name, unless that dot leads or ends it. */
  function Suffix(name: string): (r: string)
    ensures r != "" ==> 2 <= |r| < |name| && r == name[|name| - |r|..] && r[0] == '.' && '.' !in r[1..]
  {
    var i := LastIndexOf(name, '.');
    if 0 < i < |name| - 1 then name[i..] else ""
  }

  /** The files `snapshot` records. */
  predicate Tracked<M>(e: DirEntry<M>) {
    e.isFile && (Suffix(e.name) == ".yaml" || Suffix(e.name) == ".json")
  }

  /** The snapshot of a listing: path to mtime for each tracked file. */
  function SnapshotOf<M>(entries: seq<DirEntry<M>>): map<string, M>
    decreases |entries|
  {
    if |entries| == 0 then map[]
    else
      var last := entries[|entries| - 1];
      var earlier := SnapshotOf(entries[..|entries| - 1]);
      if Tracked(last) then earlier[last.path := last.mtime] else earlier
  }

  /** `snapshot()`. */
  method Snapshot<M>(entries: seq<DirEntry<M>>) returns (result: map<string, M>)
    ensures result == SnapshotOf(entries)
  {
    result := map[];
    var i := 0;
    while i < |entries|
      invariant 0 <= i <= |entries|
      invariant result == SnapshotOf(entries[..i])
    {
      var p := entries[i];
      assert entries[..i + 1][..i] == entries[..i];
      assert SnapshotOf(entries[..i + 1]) ==
        if Tracked(p) then SnapshotOf(entries[..i])[p.path := p.mtime] else SnapshotOf(entries[..i]);
      if p.isFile && (Suffix(p.name) == ".yaml" || Suffix(p.name) == ".json") {
        result := result[p.path := p.mtime];
      }
      i := i + 1;
    }
    assert entries[..|entries|] == entries;
  }

  /** What the watcher polls: the entries `snapshot` sees and what `load_specs` reads. */
  datatype Disk<M> = Disk(entries: seq<DirEntry<M>>, specs: seq<SpecFile>, files: Files)

  /** A directory entry that can be a listed spec file: a tracked file named after its
      stem. Files of the same name in other directories also qualify. */
  predicate SpecEntry<M>(spec: SpecFile, e: DirEntry<M>) {
    Tracked(e) && e.name == spec.stem + ".yaml"
  }

  /** The state `watch_reload` keeps: the last snapshot and the routing table it
      publishes. `alive` turns false when a reload raises, which ends the thread. */
  class SpecWatcher<M(==)> {
    var mtimes: map<string, M>
    var routes: Routes
    var alive: bool

    /** Startup: the table `main` loaded, and the snapshot taken as the thread starts. */
    constructor(disk: Disk<M>, initial: Routes)
      ensures mtimes == SnapshotOf(disk.entries)
      ensures routes == initial
      ensures alive
    {
      var current := Snapshot(disk.entries);
      mtimes := current;
      routes := initial;
      alive := true;
    }

    /** One turn of the `while True` loop after the sleep: reload only when the
        snapshot changed, remembering the new snapshot before loading. */
    method Tick(disk: Disk<M>) returns (reloaded: bool)
      modifies this
      ensures !old(alive) ==> !reloaded && !alive && mtimes == old(mtimes) && routes == old(routes)
      ensures old(alive) ==> mtimes == SnapshotOf(disk.entries)
      ensures reloaded <==>
        old(alive) && SnapshotOf(disk.entries) != old(mtimes) && Load(disk.specs, disk.files).Ok?
      ensures routes == if reloaded then Load(disk.specs, disk.files).value else old(routes)
      ensures alive <==>
        old(alive) && (SnapshotOf(disk.entries) == old(mtimes) || Load(disk.specs, disk.files).Ok?)
    {
      if !alive {
        return false;
      }
      var current := Snapshot(disk.entries);
      if current == mtimes {
        return false;
      }
      mtimes := current;
      var loaded := LoadSpecs(disk.specs, disk.files);
      if loaded.Err? {
        alive := false;
        return false;
      }
      routes := loaded.value;
      return true;
    }
  }

  /** Polling an unchanged disk again right after a tick never reloads. */
  method TickSettles<M(==)>(w: SpecWatcher<M>, disk: Disk<M>) returns (first: bool, second: bool)
    modifies w
    ensures !second
    ensures first ==> Load(disk.specs, disk.files).Ok?
    ensures w.routes == if first then Load(disk.specs, disk.files).value else old(w.routes)
  {
    first := w.Tick(disk);
    second := w.Tick(disk);
  }
}
