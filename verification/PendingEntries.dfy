/** Every entry of a refresh written out on disk, baseline, rules, marks and checkouts: its status and all its fields. */
module PendingEntries {
  import opened Wrappers
  import opened Paths
  import opened Sequences
  import opened Workspace
  import opened TrackedDirs
  import ChangeDetection
  import opened DirectoryWalk
  import FullRefresh
  import IncrementalRefresh
  import opened Agreement
  import opened DaemonRuns

  // ---- The ignore rules ----

  /** The patterns of every held entry reach the matcher, in the order of the entries and of each entry's lines. */
  lemma {:induction false} FlattenAppend(a: seq<IgnoreEntry>, b: seq<IgnoreEntry>)
    ensures Flatten(a + b) == Flatten(a) + Flatten(b)
    decreases |a|
  {
    if a == [] {
      assert a + b == b;
    } else {
      FlattenAppend(a[1..], b);
      assert (a + b)[1..] == a[1..] + b;
    }
  }

  lemma FlattenOne(e: IgnoreEntry)
    ensures Flatten([e]) == e.patterns && Flatten([]) == []
  {
    assert Flatten([e][1..]) == [];
  }

  lemma {:induction false} FlattenHolds(entries: seq<IgnoreEntry>, pattern: string)
    ensures pattern in Flatten(entries) <==> exists i :: 0 <= i < |entries| && pattern in entries[i].patterns
    decreases |entries|
  {
    if entries != [] {
      var rest := entries[1..];
      FlattenHolds(rest, pattern);
      assert forall i :: 0 <= i < |rest| ==> rest[i] == entries[i + 1];
      if pattern in Flatten(rest) {
        var i :| 0 <= i < |rest| && pattern in rest[i].patterns;
        assert pattern in entries[i + 1].patterns;
      }
      if i :| 0 <= i < |entries| && pattern in entries[i].patterns {
        assert i > 0 ==> pattern in rest[i - 1].patterns;
      }
    }
  }

  /** The two matchers answer, `.checkpoint` being ignored in any case. */
  ghost predicate IgnoredOrHidden(c: Context, p: Path) {
    || c.w.matches([".checkpoint/", ".checkpoint/**"] + Flatten(c.rules.ignored), p)
    || c.w.matches(Flatten(c.rules.hidden), p)
  }

  // ---- What is on disk ----

  /** A file the refresh looks at: not a directory, not ignored or hidden, outside `.checkpoint`, under tracked directories. */
  ghost predicate Looked(c: Context, disk: Disk, p: Path) {
    && p in disk && disk[p].Leaf? && !(".checkpoint" <= p) && !IgnoredOrHidden(c, p)
    && forall a :: Under(a, p) ==> a in c.tracked
  }

  /** Some regular file or link beneath d is neither ignored nor hidden. */
  ghost predicate HoldsVisible(c: Context, disk: Disk, d: Path) {
    exists q :: q in disk && disk[q].Leaf? && !disk[q].kind.Special? && Under(d, q) && !IgnoredOrHidden(c, q)
  }

  /** A topmost untracked directory that is not ignored or hidden and holds such a file. */
  ghost predicate ListedDir(c: Context, disk: Disk, d: Path) {
    && d in disk && disk[d].Dir? && d != "" && !IgnoredOrHidden(c, d) && d !in c.tracked
    && (forall a :: Under(a, d) ==> a in c.tracked)
    && HoldsVisible(c, disk, d)
  }

  /** The file is not the baseline's: another size, or another mtime and another hash, both known. */
  ghost predicate Differs(c: Context, n: Node, b: BaselineFile)
    requires n.Leaf?
  {
    n.size != b.size || (b.mtime != 0 && n.mtime != b.mtime && b.md5 != "" && c.w.hash(n.content) != b.md5)
  }

  /** A text file with conflict markers. */
  ghost predicate Conflicted(c: Context, p: Path, n: Node)
    requires n.Leaf?
  {
    !c.w.binary(p) && c.w.conflictMarkers(n.content)
  }

  // ---- The law of an entry ----

  /** Which status an entry has, each exactly when. */
  ghost predicate StatusLaw(c: Context, disk: Disk, base: Baseline, p: Path, e: Option<File>) {
    && (e.Some? && e.value.status == ChangedCheckedOut <==>
          Looked(c, disk, p) && p in base && Differs(c, disk[p], base[p]) && !Conflicted(c, p, disk[p]) && base[p].fileId in c.checkouts)
    && (e.Some? && e.value.status == ChangedNotCheckedOut <==>
          Looked(c, disk, p) && p in base && Differs(c, disk[p], base[p]) && !Conflicted(c, p, disk[p]) && base[p].fileId !in c.checkouts)
    && (e.Some? && e.value.status == MergeConflict <==>
          Looked(c, disk, p) && p in base && Differs(c, disk[p], base[p]) && Conflicted(c, p, disk[p]))
    && (e.Some? && e.value.status == NotChangedCheckedOut <==>
          Looked(c, disk, p) && p in base && !Differs(c, disk[p], base[p]) && base[p].fileId in c.checkouts && disk[p].resolves)
    && (e.Some? && e.value.status == Deleted <==> p in base && !Looked(c, disk, p))
    && (e.Some? && e.value.status == Added <==> p !in base && p in c.marks && (Looked(c, disk, p) || ListedDir(c, disk, p)))
    && (e.Some? && e.value.status == Local <==> p !in base && p !in c.marks && (Looked(c, disk, p) || ListedDir(c, disk, p)))
    && (e.Some? ==> e.value.status in {ChangedCheckedOut, ChangedNotCheckedOut, MergeConflict, NotChangedCheckedOut, Deleted, Added, Local})
  }

  /** And what its other fields hold. */
  ghost predicate FieldsLaw(c: Context, disk: Disk, base: Baseline, p: Path, f: File) {
    && f.path == p
    && f.id == (if p in base then Some(base[p].fileId) else None)
    && f.changelist == (if p in base then Some(base[p].changelist) else None)
    && (Looked(c, disk, p) ==>
          && f.ftype == (if disk[p].kind == Symlink then SymlinkType else Binary)
          && f.size == disk[p].size && f.modifiedAt == disk[p].mtime)
    && (!Looked(c, disk, p) ==>
          f.ftype == (if p in base then UnknownType else Directory) && f.size == 0 && f.modifiedAt == 0)
  }

  ghost predicate EntryLaw(c: Context, disk: Disk, base: Baseline, p: Path, e: Option<File>) {
    StatusLaw(c, disk, base, p, e) && (e.Some? ==> FieldsLaw(c, disk, base, p, e.value))
  }

  lemma LookedIff(c: Context, disk: Disk, p: Path)
    requires ValidDisk(disk) && ValidContext(c)
    ensures FullRefresh.FoundAt(c, disk, p) <==> Looked(c, disk, p)
  {
    if Looked(c, disk, p) {
      OpenAbove(c, p);
    }
  }

  lemma HoldsIff(c: Context, disk: Disk, d: Path)
    requires ValidContext(c) && d != ""
    ensures HoldsFile(c, disk, d) <==> HoldsVisible(c, disk, d)
  {
    if HoldsFile(c, disk, d) {
      var q :| q in disk && VisibleFile(c, disk, d, q);
      assert q in disk && disk[q].Leaf? && !disk[q].kind.Special? && Under(d, q) && !IgnoredOrHidden(c, q);
    }
    if HoldsVisible(c, disk, d) {
      var q :| q in disk && disk[q].Leaf? && !disk[q].kind.Special? && Under(d, q) && !IgnoredOrHidden(c, q);
      HoldsFileClosed(c, disk, d, q);
    }
  }

  lemma ListedIff(c: Context, disk: Disk, d: Path)
    requires ValidDisk(disk) && ValidContext(c)
    ensures Collapsed(c, disk, "", d) <==> ListedDir(c, disk, d)
  {
    if d != "" {
      HoldsIff(c, disk, d);
    }
    if ListedDir(c, disk, d) {
      OpenAbove(c, d);
    }
  }

  /** Every entry of a full refresh, at every path. */
  lemma FullEntryLaw(c: Context, disk: Disk, base: Baseline, p: Path)
    requires ValidDisk(disk) && ValidContext(c)
    ensures EntryLaw(c, disk, base, p, FullRefresh.FullAt(c, disk, base, p))
  {
    LookedIff(c, disk, p);
    ListedIff(c, disk, p);
  }

  // ---- Which paths an incremental refresh re-decides ----

  /** Those reported, and baseline or cached paths beneath a reported one. */
  lemma CoveredIff(reports: set<Path>, base: Baseline, files: Files, p: Path)
    ensures Covered(reports, base, files, p) <==>
            p in reports || ((p in base || p in files) && exists d :: d in reports && (d + "/" <= p || (d != "" && d[|d| - 1] == '/' && d <= p)))
  {
    assert forall d :: Under(d, p) <==> d + "/" <= p;
    assert Covered(reports, base, files, p) <==> p in reports || (p in base.Keys + files.Keys && exists d :: d in reports && IncrementalRefresh.Expands(d, p));
  }

  /** Re-decided, and neither ignored, hidden nor under `.checkpoint`. */
  ghost predicate Redecided(c: Context, base: Baseline, cached: Files, dirty: set<Path>, p: Path) {
    Covered(dirty, base, cached, p) && !IgnoredOrHidden(c, p) && !(".checkpoint" <= p)
  }

  // ---- The stored baseline ----

  /** The baseline after a refresh: a hash that was missing is taken from the file where size and mtime leave it open. */
  ghost predicate BaselineLaw(c: Context, disk: Disk, base: Baseline, looked: bool, p: Path, settled: Option<BaselineFile>) {
    settled ==
      if looked && p in base && p in disk && disk[p].Leaf? && base[p].md5 == "" && base[p].mtime != 0
         && disk[p].size == base[p].size && disk[p].mtime != base[p].mtime
      then Some(BaselineFile(base[p].fileId, base[p].changelist, c.w.hash(disk[p].content), base[p].size, disk[p].mtime))
      else if p in base then Some(base[p]) else None
  }

  /** A full refresh settles every file it looks at, an incremental one every file it re-decides. */
  lemma SettledLaw(c: Context, disk: Disk, base: Baseline, cached: Files, dirty: set<Path>, p: Path)
    requires ValidDisk(disk) && ValidContext(c)
    ensures BaselineLaw(c, disk, base, Looked(c, disk, p), p, Get(FullRefresh.SettledByFull(c, disk, base), p))
    ensures BaselineLaw(c, disk, base, Redecided(c, base, cached, dirty, p), p,
                        Get(IncrementalRefresh.SettledByIncremental(c, disk, base, cached, dirty), p))
  {
    LookedIff(c, disk, p);
    var expanded := IncrementalRefresh.ExpandedSet(dirty, base, cached);
    assert IncrementalRefresh.Compared(c, expanded, p) <==> Redecided(c, base, cached, dirty, p);
  }

  // ---- Untracked directories in an incremental refresh ----

  /** A re-decided new file makes its topmost untracked directory d appear. */
  ghost predicate Surfaces(c: Context, disk: Disk, base: Baseline, cached: Files, dirty: set<Path>, d: Path) {
    && (forall a :: Under(a, d) ==> a in c.tracked)
    && exists q :: Redecided(c, base, cached, dirty, q) && q in disk && disk[q].Leaf? && q !in base && q !in c.marks && Under(d, q)
  }

  lemma SurfacesIff(c: Context, disk: Disk, base: Baseline, cached: Files, dirty: set<Path>, d: Path)
    requires ValidDisk(disk) && ValidContext(c) && d !in c.tracked
    ensures var expanded := IncrementalRefresh.ExpandedSet(dirty, base, cached);
            (exists q :: q in expanded && IncrementalRefresh.Lifts(c, disk, base, q, d)) <==>
            Surfaces(c, disk, base, cached, dirty, d) && HoldsVisible(c, disk, d)
  {
    var expanded := IncrementalRefresh.ExpandedSet(dirty, base, cached);
    assert d != "";
    HoldsIff(c, disk, d);
    assert forall q :: q in expanded <==> Covered(dirty, base, cached, q);
    forall q
      ensures q in expanded && IncrementalRefresh.Lifts(c, disk, base, q, d) <==>
              && (forall a :: Under(a, d) ==> a in c.tracked) && HoldsVisible(c, disk, d)
              && Redecided(c, base, cached, dirty, q) && q in disk && disk[q].Leaf? && q !in base && q !in c.marks && Under(d, q)
    {
    }
  }

  /** The entry of an untracked directory after an incremental refresh. */
  ghost predicate DirLaw(c: Context, disk: Disk, base: Baseline, cached: Files, dirty: set<Path>, d: Path, e: Option<File>) {
    e == if Covered(dirty, base, cached, d) then
           if !IgnoredOrHidden(c, d) && HoldsVisible(c, disk, d)
           then Some(File(d, Directory, 0, 0, if d in c.marks then Added else Local, None, None)) else None
         else if d in cached then Some(cached[d])
         else if Surfaces(c, disk, base, cached, dirty, d) && HoldsVisible(c, disk, d)
         then Some(File(d, Directory, 0, 0, Local, None, None)) else None
  }

  lemma IncrementalDirLaw(c: Context, disk: Disk, base: Baseline, cached: Files, dirty: set<Path>, d: Path)
    requires ValidDisk(disk) && ValidContext(c) && Sane(c, base, cached)
    requires d in disk && disk[d].Dir? && d !in c.tracked && d !in base && !(".checkpoint" <= d)
    ensures DirLaw(c, disk, base, cached, dirty, d, Get(IncrementalRefresh.IncrementalFiles(c, disk, base, cached, dirty), d))
  {
    var expanded := IncrementalRefresh.ExpandedSet(dirty, base, cached);
    var files := IncrementalRefresh.PatchedFiles(c, disk, base, cached, expanded);
    PatchedSane(c, disk, base, cached, expanded);
    SaneStaysFresh(c, base, files);
    assert Get(files, d) == IncrementalRefresh.PatchedAt(c, disk, base, cached, expanded, d);
    SurfacesIff(c, disk, base, cached, dirty, d);
    HoldsIff(c, disk, d);
  }

  // ---- numChanges ----

  /** An incremental refresh gives directory d an entry. */
  ghost predicate Surfaced(c: Context, disk: Disk, base: Baseline, cached: Files, dirty: set<Path>, d: Path) {
    && d in disk && disk[d].Dir? && d !in c.tracked && !IgnoredOrHidden(c, d) && !(".checkpoint" <= d) && HoldsVisible(c, disk, d)
    && (Covered(dirty, base, cached, d) || (d !in cached && Surfaces(c, disk, base, cached, dirty, d)))
  }

  lemma SurfacedIff(c: Context, disk: Disk, base: Baseline, cached: Files, dirty: set<Path>, d: Path)
    requires ValidDisk(disk) && ValidContext(c)
    ensures IncrementalRefresh.ListsDir(c, disk, base, cached, IncrementalRefresh.ExpandedSet(dirty, base, cached), d) <==>
            Surfaced(c, disk, base, cached, dirty, d)
  {
    if IsDir(disk, d) && d !in c.tracked {
      SurfacesIff(c, disk, base, cached, dirty, d);
      HoldsIff(c, disk, d);
    }
  }

  /** The baseline paths that an incremental refresh counts twice. */
  ghost function CountedAgain(c: Context, disk: Disk, base: Baseline, cached: Files, dirty: set<Path>): set<Path> {
    set p | p in base && base[p].fileId in c.checkouts && Surfaced(c, disk, base, cached, dirty, p)
  }

  lemma CountedAgainIs(c: Context, disk: Disk, base: Baseline, cached: Files, dirty: set<Path>)
    requires ValidDisk(disk) && ValidBaseline(base) && ValidContext(c) && Sane(c, base, cached) && CheckoutsCarryIds(c.checkouts, base, cached)
    ensures IncrementalRefresh.ReplacedByCheckouts(c, disk, base, cached, dirty) == CountedAgain(c, disk, base, cached, dirty)
  {
    forall p
      ensures p in IncrementalRefresh.ReplacedByCheckouts(c, disk, base, cached, dirty) <==> p in CountedAgain(c, disk, base, cached, dirty)
    {
      ReplacedIff(c, disk, base, cached, dirty, p);
      SurfacedIff(c, disk, base, cached, dirty, p);
    }
  }

  /** A full refresh counts its entries, and once more each directory listed at a baseline path. */
  lemma FullCountLaw(c: Context, disk: Disk, base: Baseline)
    requires ValidDisk(disk) && ValidContext(c)
    ensures var pending := FullPending(c, disk, base);
            pending.numChanges == |pending.files| + |set p | p in base && ListedDir(c, disk, p)|
  {
    forall p
      ensures Collapsed(c, disk, "", p) <==> ListedDir(c, disk, p)
    {
      ListedIff(c, disk, p);
    }
    assert FullRefresh.CountedTwice(c, disk, base) == set p | p in base && ListedDir(c, disk, p);
  }

  /** An incremental one keeps what was counted too often, and counts once more each directory that gets an entry at a
      checked-out baseline path. */
  lemma IncrementalCountLaw(c: Context, disk: Disk, base: Baseline, cached: Pending, dirty: set<Path>)
    requires ValidDisk(disk) && ValidBaseline(base) && ValidContext(c) && Sane(c, base, cached.files)
    requires CheckoutsCarryIds(c.checkouts, base, cached.files)
    ensures var pending := IncrementalPending(c, disk, base, cached, dirty);
            pending.numChanges - |pending.files| == cached.numChanges - |cached.files|
              + |CountedAgain(c, disk, base, cached.files, dirty)|
  {
    CountedAgainIs(c, disk, base, cached.files, dirty);
  }

  // ---- Which refresh runs ----

  /** A refresh that finds no dirty ignore file: the cached result while nothing is dirty, a patch of it for up to five
      thousand dirty paths, and a full refresh otherwise or when forced. */
  lemma DispatchLaw(cfg: Config, s: Daemon, force: bool, loaded: WorkspaceState, t: Daemon)
    requires ValidConfig(cfg) && ValidDisk(s.disk) && s.state.Some? && s.dirty.Some?
    requires t == Step(cfg, s, RefreshCall(force, loaded, []))
    ensures t.pending.Some? && t.dirty == Some({}) && t.rules == s.rules
    ensures if !force && s.pending.Some? && s.dirty.value == {} then t == s
            else if !force && s.pending.Some? && |s.dirty.value| <= 5000 then
              t.pending.value == IncrementalPending(ContextOf(cfg, s), s.disk, s.state.value.files, s.pending.value, s.dirty.value)
            else t.pending.value == FullPending(ContextOf(cfg, s), s.disk, s.state.value.files)
  {
  }

  /** And with a dirty ignore file, whose rules it re-reads first, always a full one. */
  lemma DirtyRulesLaw(cfg: Config, s: Daemon, force: bool, loaded: WorkspaceState, order: seq<Path>, t: Daemon)
    requires ValidConfig(cfg) && ValidDisk(s.disk) && s.state.Some? && order != []
    requires t == Step(cfg, s, RefreshCall(force, loaded, order))
    ensures t.rules == HandleIgnoreFiles(cfg.w, s.disk, s.rules, order)
    ensures t.pending == Some(FullPending(ContextOf(cfg, s.(rules := t.rules)), s.disk, s.state.value.files))
  {
    var ready := Prepared(cfg, s, loaded, order);
    assert ContextOf(cfg, ready) == ContextOf(cfg, s.(rules := ready.rules));
  }

  // ---- The stored map ----

  /** Whatever path a refresh takes, every file-level entry it stores that no remaining report covers is the one the
      disk, the rules, the baseline, the marks and the checkouts call for. */
  lemma StoredEntryLaw(cfg: Config, s: Daemon, force: bool, loaded: WorkspaceState, order: seq<Path>, t: Daemon, p: Path)
    requires Inv(cfg, s) && Legal(cfg, s, RefreshCall(force, loaded, order)) && t == Step(cfg, s, RefreshCall(force, loaded, order))
    ensures t.state.Some? && t.pending.Some?
    ensures FileLevel(ContextOf(cfg, t), t.disk, t.state.value.files, p) && !Awaited(t, p) ==>
              EntryLaw(ContextOf(cfg, t), t.disk, t.state.value.files, p, Get(t.pending.value.files, p))
  {
    RefreshTrue(cfg, s, force, loaded, order);
    ContextValid(cfg, t);
    FullEntryLaw(ContextOf(cfg, t), t.disk, t.state.value.files, p);
    if FileLevel(ContextOf(cfg, t), t.disk, t.state.value.files, p) && !Awaited(t, p) {
      assert Agrees(cfg, t, p);
    }
  }
}
