/** The daemon's fields for one workspace, and the methods that update them. */
module DaemonManager {
  import opened Wrappers
  import opened Paths
  import opened Sequences
  import opened Workspace
  import opened TrackedDirs
  import FullRefresh
  import IncrementalRefresh
  import opened DaemonRuns

  class Manager {
    const cfg: Config
    var workspaceState: Option<WorkspaceState>
    var dirtyFiles: Option<set<Path>>
    var workspacePendingChanges: Option<Pending>
    var trackedDirs: Option<set<Path>>
    var ignorePatterns: Option<Patterns>
    var vcsOperationActive: bool
    var vcsBufferedEvents: Option<set<Path>>
    /** The environment: the files on disk, and watcher reports not yet delivered. */
    var disk: Disk
    ghost var inflight: set<Path>

    /** The state of the machine these fields represent. */
    ghost function Abs(): Daemon
      reads this
    {
      Daemon(workspaceState, dirtyFiles, workspacePendingChanges, trackedDirs, ignorePatterns,
             vcsOperationActive, vcsBufferedEvents, disk, inflight)
    }

    ghost predicate Valid()
      reads this
    {
      Inv(cfg, Abs())
    }

    constructor (cfg: Config, ignorePatterns: Option<Patterns>, disk: Disk)
      requires ValidConfig(cfg) && ValidDisk(disk)
      ensures this.cfg == cfg && Initial(Abs()) && Valid()
      ensures this.disk == disk && this.ignorePatterns == ignorePatterns
    {
      this.cfg := cfg;
      workspaceState, dirtyFiles, workspacePendingChanges, trackedDirs := None, None, None, None;
      this.ignorePatterns := ignorePatterns;
      vcsOperationActive, vcsBufferedEvents := false, None;
      this.disk := disk;
      inflight := {};
    }

    /** The environment changes the disk; the watcher will report the given paths. */
    method EditDisk(disk: Disk, ghost reports: set<Path>)
      requires Valid() && Legal(cfg, Abs(), Edit(disk, reports))
      modifies this`disk, this`inflight
      ensures Abs() == Step(cfg, old(Abs()), Edit(disk, reports)) && Valid()
    {
      StepKeepsInv(cfg, Abs(), Edit(disk, reports));
      this.disk := disk;
      inflight := inflight + reports;
    }

    // ---- Ignore files ----

    static lemma SplitEntry(entries: seq<IgnoreEntry>, idx: nat)
      requires 0 < idx < |entries|
      ensures entries[..idx] + entries[idx + 1..] == [entries[0]] + (entries[1..][..idx - 1] + entries[1..][idx..])
    {
    }

    static lemma {:induction false} EntryRemoved(entries: seq<IgnoreEntry>, p: Path, idx: nat)
      requires idx <= |entries| && forall k :: 0 <= k < idx ==> entries[k].path != p
      requires idx < |entries| ==> entries[idx].path == p
      ensures WithoutEntry(entries, p) == if idx < |entries| then entries[..idx] + entries[idx + 1..] else entries
      decreases idx
    {
      if 0 < idx {
        EntryRemoved(entries[1..], p, idx - 1);
        if idx < |entries| {
          SplitEntry(entries, idx);
        } else {
          assert entries == [entries[0]] + entries[1..];
        }
      } else if entries != [] {
        assert entries[..0] + entries[1..] == entries[1..];
      }
    }

    static method RereadEntries(w: World, disk: Disk, entries: seq<IgnoreEntry>, p: Path) returns (r: seq<IgnoreEntry>)
      ensures r == Reread(w, disk, entries, p)
    {
      var idx := 0;
      while idx < |entries| && entries[idx].path != p
        invariant 0 <= idx <= |entries| && forall k :: 0 <= k < idx ==> entries[k].path != p
      {
        idx := idx + 1;
      }
      EntryRemoved(entries, p, idx);
      r := if idx < |entries| then entries[..idx] + entries[idx + 1..] else entries;
      if ExistsSync(disk, p) {
        r := r + [IgnoreEntry(p, w.parse(p, disk[p]))];
      }
    }

    method HandleIgnoreFileChange(relativePath: Path)
      modifies this`ignorePatterns
      ensures ignorePatterns == HandleIgnoreFile(cfg.w, disk, old(ignorePatterns), relativePath)
    {
      var fileName := Basename(relativePath);
      var isIgnore := fileName == ".chkignore";
      var isHidden := fileName == ".chkhidden";
      if !isIgnore && !isHidden {
        return;
      }
      if ignorePatterns.None? {
        return;
      }
      var patterns := ignorePatterns.value;
      var list := RereadEntries(cfg.w, disk, if isIgnore then patterns.ignored else patterns.hidden, relativePath);
      ignorePatterns := Some(if isIgnore then patterns.(ignored := list) else patterns.(hidden := list));
    }

    /** Re-reads every ignore file among the given paths, in some order. */
    method HandleIgnoreFileChanges(paths: set<Path>) returns (ghost order: seq<Path>)
      modifies this`ignorePatterns
      ensures Lists(order, IgnoreFiles(paths))
      ensures ignorePatterns == HandleIgnoreFiles(cfg.w, disk, old(ignorePatterns), order)
    {
      order := [];
      var todo := IgnoreFiles(paths);
      while todo != {}
        invariant todo <= IgnoreFiles(paths)
        invariant Lists(order, IgnoreFiles(paths) - todo)
        invariant ignorePatterns == HandleIgnoreFiles(cfg.w, disk, old(ignorePatterns), order)
        decreases todo
      {
        var dirtyPath :| dirtyPath in todo;
        HandleIgnoreFileChange(dirtyPath);
        assert (order + [dirtyPath])[..|order|] == order;
        ListsAppend(order, IgnoreFiles(paths) - todo, dirtyPath);
        todo, order := todo - {dirtyPath}, order + [dirtyPath];
        assert IgnoreFiles(paths) - todo == IgnoreFiles(paths) - (todo + {dirtyPath}) + {dirtyPath};
      }
      assert IgnoreFiles(paths) - todo == IgnoreFiles(paths);
    }

    // ---- Tracked directories ----

    method GetTrackedDirSet() returns (dirs: set<Path>)
      requires workspaceState.Some?
      requires trackedDirs.Some? ==> trackedDirs.value == TrackedDirSet(workspaceState.value.files.Keys, workspaceState.value.markedForAdd)
      modifies this`trackedDirs
      ensures dirs == TrackedDirSet(workspaceState.value.files.Keys, workspaceState.value.markedForAdd)
      ensures trackedDirs == Some(dirs)
    {
      if trackedDirs.Some? {
        return trackedDirs.value;
      }
      var st := workspaceState.value;
      dirs := BuildTrackedDirSet(st.files.Keys, st.markedForAdd);
      TrackedDirSetUnique(dirs, st.files.Keys, st.markedForAdd);
      trackedDirs := Some(dirs);
    }

    static lemma TrackedDirSetUnique(dirs: set<Path>, files: set<Path>, marks: set<Path>)
      requires IsTrackedDirSet(dirs, files, marks)
      ensures dirs == TrackedDirSet(files, marks)
    {
      assert forall a :: a in dirs <==> a in TrackedDirSet(files, marks);
    }

    // ---- Refresh ----

    method LoadWorkspaceState(loaded: WorkspaceState)
      modifies this`workspaceState, this`dirtyFiles, this`trackedDirs
      ensures workspaceState == Some(loaded) && dirtyFiles == Some({}) && trackedDirs == None
    {
      workspaceState := Some(loaded);
      dirtyFiles := Some({});
      trackedDirs := None;
    }

    /** What a refresh reads. */
    method ReadContext() returns (c: Context)
      requires workspaceState.Some? && WellFormedState(cfg, Abs())
      modifies this`trackedDirs
      ensures c == ContextOf(cfg, Abs()) == old(ContextOf(cfg, Abs())) && ValidContext(c)
      ensures Abs() == old(Abs()).(tracked := Some(TrackedDirSet(workspaceState.value.files.Keys, workspaceState.value.markedForAdd)))
    {
      ContextValid(cfg, Abs());
      var dirs := GetTrackedDirSet();
      var rules := if ignorePatterns.Some? then ignorePatterns.value else Patterns([], []);
      c := Context(cfg.w, rules, dirs, workspaceState.value.markedForAdd, cfg.checkouts);
    }

    method StoreResult(result: Pending, base: Baseline, ghost before: Daemon)
      requires workspaceState.Some? && before.state == workspaceState
      requires Abs() == before.(tracked := Some(TrackedDirSet(before.state.value.files.Keys, before.state.value.markedForAdd)))
      modifies this`workspaceState, this`workspacePendingChanges, this`dirtyFiles
      ensures Abs() == Refreshed(before, result, base)
      ensures workspacePendingChanges == Some(result)
    {
      workspaceState := Some(workspaceState.value.(files := base));
      workspacePendingChanges := Some(result);
      dirtyFiles := Some({});
    }

    method RunFullRefresh() returns (result: Pending)
      requires workspaceState.Some? && WellFormedState(cfg, Abs())
      modifies this`workspaceState, this`workspacePendingChanges, this`dirtyFiles, this`trackedDirs
      ensures Abs() == AfterFull(cfg, old(Abs()))
      ensures workspacePendingChanges == Some(result)
    {
      ghost var before := Abs();
      var c := ReadContext();
      var base;
      result, base := FullRefresh.Refresh(c, disk, workspaceState.value.files);
      assert result == FullPending(c, disk, workspaceState.value.files);
      StoreResult(result, base, before);
    }

    static lemma IncrementalPendingIs(c: Context, disk: Disk, base: Baseline, cached: Pending, dirty: set<Path>, result: Pending)
      requires ValidDisk(disk) && ValidContext(c)
      requires result.files == IncrementalRefresh.IncrementalFiles(c, disk, base, cached.files, dirty)
      requires result.numChanges - |result.files| ==
               cached.numChanges - |cached.files| + |IncrementalRefresh.ReplacedByCheckouts(c, disk, base, cached.files, dirty)|
      ensures result == IncrementalPending(c, disk, base, cached, dirty)
    {
    }

    method RunIncrementalRefresh() returns (result: Pending)
      requires workspaceState.Some? && workspacePendingChanges.Some? && dirtyFiles.Some? && WellFormedState(cfg, Abs())
      modifies this`workspaceState, this`workspacePendingChanges, this`dirtyFiles, this`trackedDirs
      ensures Abs() == AfterIncremental(cfg, old(Abs()))
      ensures workspacePendingChanges == Some(result)
    {
      ghost var before := Abs();
      var base0, cached, dirtyPaths := workspaceState.value.files, workspacePendingChanges.value, dirtyFiles.value;
      var c := ReadContext();
      var base;
      result, base := IncrementalRefresh.Refresh(c, disk, base0, cached, dirtyPaths);
      IncrementalPendingIs(c, disk, base0, cached, dirtyPaths, result);
      StoreResult(result, base, before);
    }

    /** `refreshWorkspaceContents`, from any well-formed state. */
    method ChooseRefresh(forceFullRefresh: bool, loaded: WorkspaceState) returns (result: Pending, ghost order: seq<Path>)
      requires WellFormedState(cfg, Abs()) && ValidBaseline(loaded.files)
      modifies this
      ensures disk == old(disk) && inflight == old(inflight)
      ensures LegalRefresh(old(Abs()), loaded, order)
      ensures Abs() == AfterRefresh(cfg, old(Abs()), forceFullRefresh, loaded, order)
      ensures workspacePendingChanges == Some(result)
    {
      ghost var before := Abs();
      if workspaceState.None? {
        LoadWorkspaceState(loaded);
      }
      var dirty := dirtyFiles;
      order := [];
      if dirty.Some? {
        var ignoreChanged := IgnoreFiles(dirty.value) != {};
        order := HandleIgnoreFileChanges(dirty.value);
        assert ignoreChanged <==> order != [] by {
          NonEmptyHasMember(order);
          assert order != [] ==> order[0] in IgnoreFiles(dirty.value);
        }
        if ignoreChanged {
          workspacePendingChanges := None;
        }
      }
      assert Abs() == Prepared(cfg, before, loaded, order);
      PreparedWellFormed(cfg, before, loaded, order);
      var cached := workspacePendingChanges;
      if !forceFullRefresh && cached.Some? && dirty.Some? && |dirty.value| == 0 {
        return cached.value, order;
      }
      if !forceFullRefresh && cached.Some? && dirty.Some? && |dirty.value| > 0
         && |dirty.value| <= INCREMENTAL_DIRTY_THRESHOLD {
        result := RunIncrementalRefresh();
      } else {
        result := RunFullRefresh();
      }
    }

    /** The same from a state that a run can reach. */
    method RefreshWorkspaceContents(forceFullRefresh: bool, loaded: WorkspaceState)
      returns (result: Pending, ghost order: seq<Path>)
      requires Valid() && ValidBaseline(loaded.files)
      modifies this
      ensures disk == old(disk) && inflight == old(inflight)
      ensures Legal(cfg, old(Abs()), RefreshCall(forceFullRefresh, loaded, order))
      ensures Abs() == Step(cfg, old(Abs()), RefreshCall(forceFullRefresh, loaded, order)) && Valid()
      ensures workspacePendingChanges == Some(result)
      ensures ResultAgrees(cfg, Abs())
    {
      ghost var before := Abs();
      result, order := ChooseRefresh(forceFullRefresh, loaded);
      RefreshTrue(cfg, before, forceFullRefresh, loaded, order);
      ResultGivesInv(cfg, Abs());
    }

    // ---- Rescan ----

    static method ScanForFile(w: World, disk: Disk, dirs: set<Path>, fileName: string) returns (entries: seq<IgnoreEntry>)
      ensures Lists(entries, Scanned(w, disk, dirs, fileName))
    {
      entries := [];
      var todo := dirs;
      while todo != {}
        invariant todo <= dirs
        invariant Lists(entries, Scanned(w, disk, dirs - todo, fileName))
        decreases todo
      {
        var dir :| dir in todo;
        var ignoreFilePath := Join(dir, fileName);
        ScannedNext(w, disk, dirs - todo, dir, fileName);
        assert dirs - (todo - {dir}) == (dirs - todo) + {dir};
        if ExistsSync(disk, ignoreFilePath) {
          var entry := IgnoreEntry(ignoreFilePath, w.parse(ignoreFilePath, disk[ignoreFilePath]));
          ListsAppend(entries, Scanned(w, disk, dirs - todo, fileName), entry);
          entries := entries + [entry];
        }
        todo := todo - {dir};
      }
      assert dirs - todo == dirs;
    }

    /** Different directories hold different files. */
    static lemma JoinInjective(a: Path, b: Path, name: string)
      requires Join(a, name) == Join(b, name)
      ensures a == b
    {
      assert a != "" ==> Join(a, name)[..|a|] == a;
      assert b != "" ==> Join(b, name)[..|b|] == b;
    }

    static lemma ScannedNext(w: World, disk: Disk, dirs: set<Path>, dir: Path, name: string)
      requires dir !in dirs
      ensures var p := Join(dir, name);
              Scanned(w, disk, dirs + {dir}, name) ==
              Scanned(w, disk, dirs, name) + if ExistsSync(disk, p) then {IgnoreEntry(p, w.parse(p, disk[p]))} else {}
      ensures forall e :: e in Scanned(w, disk, dirs, name) ==> e.path != Join(dir, name)
    {
      forall d | d in dirs
        ensures Join(d, name) != Join(dir, name)
      {
        if Join(d, name) == Join(dir, name) {
          JoinInjective(d, dir, name);
        }
      }
    }

    /** `scanIgnoreFiles`. */
    method ScanIgnoreFiles() returns (ghost rules: Patterns)
      requires WellFormedState(cfg, Abs())
      modifies this`ignorePatterns, this`trackedDirs
      ensures IsScan(cfg.w, disk, ScanDirs(old(Abs())), rules)
      ensures Abs() == old(Abs()).(rules := Some(rules), tracked := trackedDirs)
      ensures trackedDirs == if workspaceState.Some? then Some(ScanDirs(old(Abs()))) else old(trackedDirs)
    {
      var dirs := {""};
      if workspaceState.Some? {
        dirs := GetTrackedDirSet();
      }
      var ignored := ScanForFile(cfg.w, disk, dirs, ".chkignore");
      var hidden := ScanForFile(cfg.w, disk, dirs, ".chkhidden");
      ignorePatterns := Some(Patterns(ignored, hidden));
      rules := Patterns(ignored, hidden);
    }

    /** The forced refresh fills the tracked-directory cache in any case. */
    static lemma ForcedFillsCache(cfg: Config, s: Daemon, tracked: Option<set<Path>>, loaded: WorkspaceState, order: seq<Path>)
      requires ValidConfig(cfg) && ValidDisk(s.disk)
      ensures AfterRefresh(cfg, s.(tracked := tracked), true, loaded, order) == AfterRefresh(cfg, s, true, loaded, order)
    {
    }

    /** The route that rescans and then refreshes, with no other call in between. */
    method RescanIgnoreFiles(loaded: WorkspaceState) returns (result: Pending, ghost rules: Patterns, ghost order: seq<Path>)
      requires Valid() && ValidBaseline(loaded.files)
      modifies this
      ensures disk == old(disk) && inflight == old(inflight)
      ensures Legal(cfg, old(Abs()), Rescan(rules, loaded, order))
      ensures Abs() == Step(cfg, old(Abs()), Rescan(rules, loaded, order)) && Valid()
      ensures workspacePendingChanges == Some(result)
      ensures ResultAgrees(cfg, Abs())
    {
      ghost var before := Abs();
      rules := ScanIgnoreFiles();
      ghost var cache := trackedDirs;
      result, order := ChooseRefresh(true, loaded);
      ForcedFillsCache(cfg, before.(rules := Some(rules)), cache, loaded, order);
      RescanTrue(cfg, before, rules, loaded, order);
      ResultGivesInv(cfg, Abs());
    }

    // ---- Watcher and VCS-operation guard ----

    /** The watcher callback. */
    method OnWatchEvent(filename: Path)
      requires Valid()
      modifies this`ignorePatterns, this`workspacePendingChanges, this`dirtyFiles, this`vcsBufferedEvents, this`inflight
      ensures Abs() == Step(cfg, old(Abs()), Watch(filename)) && Valid()
    {
      WatchKeepsInv(cfg, Abs(), filename);
      inflight := inflight - {filename};
      if InCheckpointDir(filename) {
        return;
      }
      if vcsOperationActive {
        if vcsBufferedEvents.Some? {
          vcsBufferedEvents := Some(vcsBufferedEvents.value + {filename});
        }
        return;
      }
      var baseName := Basename(filename);
      if baseName == ".chkignore" || baseName == ".chkhidden" {
        HandleIgnoreFileChange(filename);
        workspacePendingChanges := None;
      }
      if dirtyFiles.Some? {
        dirtyFiles := Some(dirtyFiles.value + {filename});
      }
    }

    /** A second begin drops what the first has buffered. */
    method BeginVcsOperation()
      requires Valid()
      modifies this`vcsOperationActive, this`vcsBufferedEvents
      ensures Abs() == Step(cfg, old(Abs()), BeginVcs)
      ensures WellFormedState(cfg, Abs()) && (!old(vcsOperationActive) ==> Valid())
    {
      if !vcsOperationActive {
        BeginKeepsInv(cfg, Abs());
      }
      vcsOperationActive := true;
      vcsBufferedEvents := Some({});
    }

    method EndVcsOperation() returns (ghost order: seq<Path>)
      requires Valid()
      modifies this`vcsOperationActive, this`vcsBufferedEvents, this`dirtyFiles, this`ignorePatterns
      ensures Legal(cfg, old(Abs()), EndVcs(order))
      ensures Abs() == Step(cfg, old(Abs()), EndVcs(order)) && Valid()
    {
      ghost var before := Abs();
      order := [];
      vcsOperationActive := false;
      var buffered := vcsBufferedEvents;
      if buffered.Some? && |buffered.value| > 0 {
        if dirtyFiles.Some? {
          dirtyFiles := Some(dirtyFiles.value + buffered.value);
        }
        order := HandleIgnoreFileChanges(buffered.value);
      }
      vcsBufferedEvents := None;
      EndKeepsInv(cfg, before, order);
    }

    // ---- Reload, marks, unlink ----

    method ReloadWorkspaceState(loaded: WorkspaceState)
      requires Valid() && ValidBaseline(loaded.files)
      modifies this`workspaceState, this`dirtyFiles, this`trackedDirs, this`workspacePendingChanges
      ensures Abs() == Step(cfg, old(Abs()), Reload(loaded)) && Valid()
      ensures workspaceState == Some(loaded) && dirtyFiles == Some({}) && trackedDirs == None && workspacePendingChanges == None
    {
      StepKeepsInv(cfg, Abs(), Reload(loaded));
      LoadWorkspaceState(loaded);
      workspacePendingChanges := None;
    }

    method MarkForAdd(relativePaths: seq<Path>)
      requires Valid()
      modifies this`workspaceState, this`trackedDirs, this`workspacePendingChanges
      ensures Abs() == Step(cfg, old(Abs()), Mark(set p | p in relativePaths)) && Valid()
    {
      StepKeepsInv(cfg, Abs(), Mark(set p | p in relativePaths));
      if workspaceState.None? {
        return;
      }
      var st := workspaceState.value;
      var existing := st.markedForAdd;
      for i := 0 to |relativePaths|
        invariant existing == st.markedForAdd + set p | p in relativePaths[..i]
      {
        assert relativePaths[..i + 1] == relativePaths[..i] + [relativePaths[i]];
        existing := existing + {relativePaths[i]};
      }
      assert relativePaths[..|relativePaths|] == relativePaths;
      workspaceState := Some(st.(markedForAdd := existing));
      workspacePendingChanges := None;
      trackedDirs := None;
    }

    method UnmarkForAdd(relativePaths: seq<Path>)
      requires Valid()
      modifies this`workspaceState, this`trackedDirs, this`workspacePendingChanges
      ensures Abs() == Step(cfg, old(Abs()), Unmark(set p | p in relativePaths)) && Valid()
    {
      StepKeepsInv(cfg, Abs(), Unmark(set p | p in relativePaths));
      if workspaceState.None? {
        return;
      }
      var st := workspaceState.value;
      var existing := st.markedForAdd;
      for i := 0 to |relativePaths|
        invariant existing == st.markedForAdd - set p | p in relativePaths[..i]
      {
        assert relativePaths[..i + 1] == relativePaths[..i] + [relativePaths[i]];
        existing := existing - {relativePaths[i]};
      }
      assert relativePaths[..|relativePaths|] == relativePaths;
      workspaceState := Some(st.(markedForAdd := existing));
      workspacePendingChanges := None;
      trackedDirs := None;
    }

    method UnlinkWorkspace()
      requires Valid()
      modifies this`workspaceState, this`dirtyFiles, this`workspacePendingChanges, this`trackedDirs,
               this`ignorePatterns, this`vcsOperationActive, this`vcsBufferedEvents
      ensures Abs() == Step(cfg, old(Abs()), Unlink) && Valid()
    {
      workspaceState, dirtyFiles, workspacePendingChanges, trackedDirs := None, None, None, None;
      ignorePatterns, vcsOperationActive, vcsBufferedEvents := None, false, None;
    }
  }
}
