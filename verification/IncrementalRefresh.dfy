/** `incrementalRefresh`: a cached pending map patched at the paths the watcher reported. */
module IncrementalRefresh {
  import opened Wrappers
  import opened Paths
  import opened Workspace
  import opened TrackedDirs
  import opened ChangeDetection
  import opened DirectoryWalk
  import FullRefresh

  // ---- Directory-level dirty paths ----

  /** `k.startsWith(prefix)`, where prefix is d with one trailing slash. */
  predicate Expands(d: Path, k: Path) {
    if d != "" && d[|d| - 1] == '/' then d <= k else Under(d, k)
  }

  /** k is dirty, or a baseline or cached path beneath a dirty one. */
  ghost predicate InExpanded(dirty: set<Path>, known: set<Path>, k: Path) {
    k in dirty || (k in known && exists d :: d in dirty && Expands(d, k))
  }

  method AddBeneath(expanded0: set<Path>, d: Path, keys: set<Path>) returns (expanded: set<Path>)
    ensures forall k :: k in expanded <==> k in expanded0 || (k in keys && Expands(d, k))
  {
    expanded := expanded0;
    var todo := keys;
    while todo != {}
      invariant todo <= keys
      invariant forall k :: k in expanded <==> k in expanded0 || (k in keys && k !in todo && Expands(d, k))
      decreases todo
    {
      var filePath :| filePath in todo;
      if Expands(d, filePath) {
        expanded := expanded + {filePath};
      }
      todo := todo - {filePath};
    }
  }

  method ExpandDirty(dirty: set<Path>, base: Baseline, files: Files) returns (expanded: set<Path>)
    ensures forall k :: k in expanded <==> InExpanded(dirty, base.Keys + files.Keys, k)
  {
    expanded := dirty;
    var todo := dirty;
    while todo != {}
      invariant todo <= dirty
      invariant forall k :: k in expanded <==> k in dirty || (k in base.Keys + files.Keys && exists d :: d in dirty && d !in todo && Expands(d, k))
      decreases todo
    {
      var dirtyPath :| dirtyPath in todo;
      expanded := AddBeneath(expanded, dirtyPath, base.Keys);
      expanded := AddBeneath(expanded, dirtyPath, files.Keys);
      var rest := todo - {dirtyPath};
      forall k
        ensures k in expanded <==> k in dirty || (k in base.Keys + files.Keys && exists d :: d in dirty && d !in rest && Expands(d, k))
      {
        if d :| d in dirty && d !in rest && Expands(d, k) {
          assert d == dirtyPath || d !in todo;
        }
      }
      todo := rest;
    }
  }

  // ---- One dirty path ----

  /** What the refresh decides for a dirty path outside `.checkpoint`. */
  ghost function RecheckedAt(c: Context, disk: Disk, base: Baseline, k: Path): Option<File> {
    if Skipped(c, k) then None
    else if k !in disk then (if k in base then Some(DeletedEntry(k, base[k])) else None)
    else if disk[k].Dir? then (if k !in c.tracked && HoldsFile(c, disk, k) then Some(CollapsedEntry(c, k)) else None)
    else if k !in base && k !in c.marks && !AllTrackedAbove(k, c.tracked) then None
    else Detected(c, k, disk[k], Get(base, k))
  }

  /** The dirty file q makes the refresh list its topmost untracked directory d. */
  ghost predicate Lifts(c: Context, disk: Disk, base: Baseline, q: Path, d: Path) {
    && IsLeaf(disk, q) && !Skipped(c, q) && !InCheckpointDir(q) && q !in base && q !in c.marks
    && IsTopmostUntracked(d, q, c.tracked) && HoldsFile(c, disk, d)
  }

  /** The entry of k after the given dirty paths were processed. */
  ghost function PatchedAt(c: Context, disk: Disk, base: Baseline, files: Files, done: set<Path>, k: Path): Option<File> {
    if k in done && !InCheckpointDir(k) then RecheckedAt(c, disk, base, k)
    else if k in files then Some(files[k])
    else if exists q :: q in done && Lifts(c, disk, base, q, k) then Some(DirEntry(k, Local))
    else None
  }

  /** Its baseline entry is settled exactly when its content was compared. */
  ghost predicate Compared(c: Context, done: set<Path>, k: Path) {
    k in done && !InCheckpointDir(k) && !Skipped(c, k)
  }

  ghost predicate Patched(c: Context, disk: Disk, base0: Baseline, files0: Files, done: set<Path>, files: Files, base: Baseline) {
    && (forall k :: Get(files, k) == PatchedAt(c, disk, base0, files0, done, k))
    && (forall k :: Get(base, k) == FullRefresh.SettledAt(c.w, disk, base0, Compared(c, done, k), k))
  }

  lemma LiftedDir(c: Context, disk: Disk, base: Baseline, q: Path, d: Path)
    requires ValidDisk(disk) && ValidContext(c) && IsLeaf(disk, q) && !Skipped(c, q) && !InCheckpointDir(q)
    requires IsTopmostUntracked(d, q, c.tracked)
    ensures IsDir(disk, d) && !Skipped(c, d) && !InCheckpointDir(d) && d != q
    ensures RecheckedAt(c, disk, base, d) == if HoldsFile(c, disk, d) then Some(CollapsedEntry(c, d)) else None
  {
  }

  /** Processing q changes the entry of q, and may add that of its topmost untracked directory. */
  lemma PatchStep(c: Context, disk: Disk, base: Baseline, files: Files, done: set<Path>, q: Path, k: Path)
    requires ValidDisk(disk) && ValidContext(c) && q !in done
    ensures k == q && !InCheckpointDir(q) ==> PatchedAt(c, disk, base, files, done + {q}, k) == RecheckedAt(c, disk, base, q)
    ensures k != q || InCheckpointDir(q) ==>
              PatchedAt(c, disk, base, files, done + {q}, k) ==
              if PatchedAt(c, disk, base, files, done, k).None? && Lifts(c, disk, base, q, k) then Some(DirEntry(k, Local))
              else PatchedAt(c, disk, base, files, done, k)
  {
    if Lifts(c, disk, base, q, k) {
      LiftedDir(c, disk, base, q, k);
    }
    if exists p :: p in done + {q} && Lifts(c, disk, base, p, k) {
      var p :| p in done + {q} && Lifts(c, disk, base, p, k);
      assert p in done || p == q;
    }
  }

  /** Every other path keeps its entry, except that q may lift its topmost untracked directory. */
  ghost predicate OthersKept(c: Context, disk: Disk, base: Baseline, q: Path, files0: Files, files: Files) {
    forall k :: k != q ==>
      Get(files, k) == if k !in files0 && Lifts(c, disk, base, q, k) then Some(DirEntry(k, Local)) else Get(files0, k)
  }

  method ProcessDirty(c: Context, disk: Disk, q: Path, files1: Files, numChanges1: int, base1: Baseline)
    returns (files: Files, numChanges: int, base: Baseline)
    requires ValidDisk(disk) && ValidContext(c)
    ensures numChanges - |files| == numChanges1 - |files1|
    ensures InCheckpointDir(q) ==> files == files1 && base == base1
    ensures !InCheckpointDir(q) ==> Get(files, q) == RecheckedAt(c, disk, base1, q)
    ensures !InCheckpointDir(q) ==> OthersKept(c, disk, base1, q, files1, files)
    ensures base == if !InCheckpointDir(q) && !Skipped(c, q) && IsLeaf(disk, q) && q in base1
                    then base1[q := Settle(c.w, base1[q], disk[q])] else base1
  {
    files, numChanges, base := files1, numChanges1, base1;
    if InCheckpointDir(q) {
      return;
    }
    if q in files {
      files, numChanges := map k | k in files && k != q :: files[k], numChanges - 1;
      RemoveSize(files1, files, q);
    }
    if Skipped(c, q) {
      return;
    }
    assert forall k :: k != q ==> Get(files, k) == Get(files1, k);
    if IsLeaf(disk, q) {
      files, numChanges, base := RecheckFile(c, disk, q, files, numChanges, base);
    } else {
      files, numChanges := RecheckOther(c, disk, q, files, numChanges, base);
    }
  }

  lemma RemoveSize(before: Files, after: Files, q: Path)
    requires q in before && after == map k | k in before && k != q :: before[k]
    ensures |after| == |before| - 1
  {
    assert after.Keys == before.Keys - {q};
  }

  /** A dirty path that is a directory or missing. */
  method RecheckOther(c: Context, disk: Disk, q: Path, files1: Files, numChanges1: int, base: Baseline)
    returns (files: Files, numChanges: int)
    requires ValidDisk(disk) && !IsLeaf(disk, q) && !Skipped(c, q) && q !in files1
    ensures numChanges - |files| == numChanges1 - |files1|
    ensures Get(files, q) == RecheckedAt(c, disk, base, q)
    ensures forall k :: k != q ==> Get(files, k) == Get(files1, k)
  {
    files, numChanges := files1, numChanges1;
    if q in disk {
      if q !in c.tracked {
        var holds := HasNonIgnoredFiles(c, disk, q);
        if holds {
          files, numChanges := files[q := DirEntry(q, if q in c.marks then Added else Local)], numChanges + 1;
        }
      }
    } else if q in base {
      files, numChanges := files[q := DeletedEntry(q, base[q])], numChanges + 1;
    }
  }

  /** A dirty path that is a file. */
  method RecheckFile(c: Context, disk: Disk, q: Path, files1: Files, numChanges1: int, base1: Baseline)
    returns (files: Files, numChanges: int, base: Baseline)
    requires ValidDisk(disk) && ValidContext(c)
    requires IsLeaf(disk, q) && !Skipped(c, q) && !InCheckpointDir(q) && q !in files1
    ensures numChanges - |files| == numChanges1 - |files1|
    ensures Get(files, q) == RecheckedAt(c, disk, base1, q)
    ensures OthersKept(c, disk, base1, q, files1, files)
    ensures base == if q in base1 then base1[q := Settle(c.w, base1[q], disk[q])] else base1
  {
    files, numChanges, base := files1, numChanges1, base1;
    var baselineFile := Get(base, q);
    if baselineFile.None? && q !in c.marks {
      var topmostDir := FindTopmostUntrackedDir(q, c.tracked);
      DropSlashesWellFormed(q);
      if topmostDir.Some? {
        files, numChanges := Lift(c, disk, base, q, topmostDir.value, files, numChanges);
        return;
      }
    }
    assert forall k :: !Lifts(c, disk, base1, q, k);
    var pendingFile, updated := DetectFileChange(c, q, disk[q], baselineFile);
    if updated.Some? {
      base := base[q := updated.value];
    }
    if pendingFile.Some? {
      files, numChanges := files[q := pendingFile.value], numChanges + 1;
    }
  }

  /** List the topmost untracked directory of q instead of q itself. */
  method Lift(c: Context, disk: Disk, base: Baseline, q: Path, d: Path, files1: Files, numChanges1: int)
    returns (files: Files, numChanges: int)
    requires ValidDisk(disk) && ValidContext(c)
    requires IsLeaf(disk, q) && !Skipped(c, q) && !InCheckpointDir(q) && q !in files1
    requires q !in base && q !in c.marks && IsTopmostUntracked(d, q, c.tracked)
    ensures numChanges - |files| == numChanges1 - |files1|
    ensures q !in files && OthersKept(c, disk, base, q, files1, files)
  {
    files, numChanges := files1, numChanges1;
    OnlyLift(c, disk, base, q, d);
    if d !in files {
      var holds := HasNonIgnoredFiles(c, disk, d);
      if holds {
        files, numChanges := files[d := DirEntry(d, Local)], numChanges + 1;
      }
    }
  }

  lemma OnlyLift(c: Context, disk: Disk, base: Baseline, q: Path, d: Path)
    requires ValidDisk(disk) && ValidContext(c) && IsLeaf(disk, q) && !Skipped(c, q) && !InCheckpointDir(q)
    requires q !in base && q !in c.marks && IsTopmostUntracked(d, q, c.tracked)
    ensures d != q
    ensures forall k :: Lifts(c, disk, base, q, k) <==> k == d && HoldsFile(c, disk, d)
  {
  }

  // ---- The loop over the expanded dirty set ----

  lemma PatchedNext(c: Context, disk: Disk, base0: Baseline, files0: Files, done: set<Path>, q: Path,
                    files1: Files, base1: Baseline, files: Files, base: Baseline)
    requires ValidDisk(disk) && ValidContext(c) && q !in done
    requires Patched(c, disk, base0, files0, done, files1, base1)
    requires InCheckpointDir(q) ==> files == files1 && base == base1
    requires !InCheckpointDir(q) ==> Get(files, q) == RecheckedAt(c, disk, base1, q)
    requires !InCheckpointDir(q) ==> OthersKept(c, disk, base1, q, files1, files)
    requires base == if !InCheckpointDir(q) && !Skipped(c, q) && IsLeaf(disk, q) && q in base1
                     then base1[q := Settle(c.w, base1[q], disk[q])] else base1
    ensures Patched(c, disk, base0, files0, done + {q}, files, base)
  {
    assert Get(base1, q) == Get(base0, q);
    assert q in base1 <==> q in base0;
    assert RecheckedAt(c, disk, base1, q) == RecheckedAt(c, disk, base0, q);
    forall k
      ensures Get(files, k) == PatchedAt(c, disk, base0, files0, done + {q}, k)
    {
      PatchStep(c, disk, base0, files0, done, q, k);
      assert Lifts(c, disk, base1, q, k) <==> Lifts(c, disk, base0, q, k);
      assert k in files1 <==> Get(files1, k).Some?;
    }
    forall k
      ensures Get(base, k) == FullRefresh.SettledAt(c.w, disk, base0, Compared(c, done + {q}, k), k)
    {
      assert Compared(c, done + {q}, k) <==> Compared(c, done, k) || (k == q && !InCheckpointDir(q) && !Skipped(c, q));
    }
  }

  /** One turn of the loop, with what was done before it. */
  method ProcessNext(c: Context, disk: Disk, q: Path, files1: Files, numChanges1: int, base1: Baseline,
                     ghost base0: Baseline, ghost files0: Files, ghost done: set<Path>)
    returns (files: Files, numChanges: int, base: Baseline)
    requires ValidDisk(disk) && ValidContext(c) && q !in done && Patched(c, disk, base0, files0, done, files1, base1)
    ensures Patched(c, disk, base0, files0, done + {q}, files, base)
    ensures numChanges - |files| == numChanges1 - |files1|
  {
    files, numChanges, base := ProcessDirty(c, disk, q, files1, numChanges1, base1);
    PatchedNext(c, disk, base0, files0, done, q, files1, base1, files, base);
  }

  method ProcessAll(c: Context, disk: Disk, base0: Baseline, files0: Files, numChanges0: int, expanded: set<Path>)
    returns (files: Files, numChanges: int, base: Baseline)
    requires ValidDisk(disk) && ValidContext(c)
    ensures Patched(c, disk, base0, files0, expanded, files, base)
    ensures numChanges - |files| == numChanges0 - |files0|
  {
    files, numChanges, base := files0, numChanges0, base0;
    var todo := expanded;
    ghost var done: set<Path> := {};
    PatchedNone(c, disk, base0, files0);
    while todo != {}
      invariant done + todo == expanded && done !! todo
      invariant Patched(c, disk, base0, files0, done, files, base)
      invariant numChanges - |files| == numChanges0 - |files0|
      decreases todo
    {
      var relativePath :| relativePath in todo;
      files, numChanges, base := ProcessNext(c, disk, relativePath, files, numChanges, base, base0, files0, done);
      todo, done := todo - {relativePath}, done + {relativePath};
    }
    assert done == expanded;
  }

  lemma PatchedNone(c: Context, disk: Disk, base0: Baseline, files0: Files)
    ensures Patched(c, disk, base0, files0, {}, files0, base0)
  {
  }

  // ---- Checkout-only entries ----

  /** A checkout-only entry whose file is no longer checked out. */
  predicate Stale(c: Context, f: File) {
    f.status.NotChangedCheckedOut? && (f.id.None? || f.id.value !in c.checkouts)
  }

  function FreshAt(c: Context, files: Files, p: Path): Option<File> {
    if p in files && Stale(c, files[p]) then None else Get(files, p)
  }

  method RemoveStaleCheckouts(c: Context, files0: Files, numChanges0: int) returns (files: Files, numChanges: int)
    ensures forall p :: Get(files, p) == FreshAt(c, files0, p)
    ensures numChanges - |files| == numChanges0 - |files0|
  {
    files, numChanges := files0, numChanges0;
    var todo := files0.Keys;
    while todo != {}
      invariant todo <= files0.Keys
      invariant forall p :: Get(files, p) == if p in todo then Get(files0, p) else FreshAt(c, files0, p)
      invariant numChanges - |files| == numChanges0 - |files0|
      decreases todo
    {
      var filePath :| filePath in todo;
      assert Get(files, filePath) == Some(files0[filePath]);
      if Stale(c, files0[filePath]) {
        ghost var before := files;
        files, numChanges := map k | k in files && k != filePath :: files[k], numChanges - 1;
        RemoveSize(before, files, filePath);
        assert forall p :: p != filePath ==> Get(files, p) == Get(before, p);
      }
      todo := todo - {filePath};
    }
  }

  // ---- incrementalRefresh ----

  ghost function ExpandedSet(dirty: set<Path>, base: Baseline, files: Files): (expanded: set<Path>)
    ensures forall k :: k in expanded <==> InExpanded(dirty, base.Keys + files.Keys, k)
  {
    set k | k in dirty + base.Keys + files.Keys && InExpanded(dirty, base.Keys + files.Keys, k)
  }

  ghost function PatchedFiles(c: Context, disk: Disk, base: Baseline, files0: Files, done: set<Path>): (files: Files)
    requires ValidDisk(disk) && ValidContext(c)
    ensures forall k :: Get(files, k) == PatchedAt(c, disk, base, files0, done, k)
  {
    var domain := done + files0.Keys + disk.Keys;
    forall k
      ensures k !in domain ==> PatchedAt(c, disk, base, files0, done, k).None?
    {
      if q :| q in done && Lifts(c, disk, base, q, k) {
        LiftedDir(c, disk, base, q, k);
      }
    }
    map k | k in domain && PatchedAt(c, disk, base, files0, done, k).Some? :: PatchedAt(c, disk, base, files0, done, k).value
  }

  ghost function FreshFiles(c: Context, files0: Files): (files: Files)
    ensures forall p :: Get(files, p) == FreshAt(c, files0, p)
  {
    map p | p in files0 && !Stale(c, files0[p]) :: files0[p]
  }

  ghost function WithCheckouts(c: Context, disk: Disk, base: Baseline, files0: Files): (files: Files)
    ensures forall p :: Get(files, p) == FullRefresh.WithCheckoutAt(disk, base, FullRefresh.ChangedIds(files0), c.checkouts, files0, p)
  {
    map p | p in base.Keys + files0.Keys && FullRefresh.WithCheckoutAt(disk, base, FullRefresh.ChangedIds(files0), c.checkouts, files0, p).Some?
      :: FullRefresh.WithCheckoutAt(disk, base, FullRefresh.ChangedIds(files0), c.checkouts, files0, p).value
  }

  /** The patched map without stale checkout-only entries. */
  ghost function BeforeCheckouts(c: Context, disk: Disk, base: Baseline, cached: Files, dirty: set<Path>): Files
    requires ValidDisk(disk) && ValidContext(c)
  {
    FreshFiles(c, PatchedFiles(c, disk, base, cached, ExpandedSet(dirty, base, cached)))
  }

  /** The whole result. */
  ghost function IncrementalFiles(c: Context, disk: Disk, base: Baseline, cached: Files, dirty: set<Path>): Files
    requires ValidDisk(disk) && ValidContext(c)
  {
    WithCheckouts(c, disk, base, BeforeCheckouts(c, disk, base, cached, dirty))
  }

  ghost function SettledByIncremental(c: Context, disk: Disk, base: Baseline, cached: Files, dirty: set<Path>): (settled: Baseline)
    ensures forall k :: Get(settled, k) == FullRefresh.SettledAt(c.w, disk, base, Compared(c, ExpandedSet(dirty, base, cached), k), k)
    ensures SameFiles(base, settled)
    ensures ValidBaseline(base) ==> ValidBaseline(settled)
  {
    map k | k in base :: FullRefresh.SettledAt(c.w, disk, base, Compared(c, ExpandedSet(dirty, base, cached), k), k).value
  }

  /** The refresh lists a directory at p: an untracked one that holds a file, dirty itself or lifted by a dirty file. */
  ghost predicate ListsDir(c: Context, disk: Disk, base: Baseline, cached: Files, expanded: set<Path>, p: Path) {
    && IsDir(disk, p) && p !in c.tracked && !Skipped(c, p) && !InCheckpointDir(p) && HoldsFile(c, disk, p)
    && (p in expanded || (p !in cached && exists q :: q in expanded && Lifts(c, disk, base, q, p)))
  }

  /** Entries that a checkout-only entry replaces: they are counted twice. */
  ghost function ReplacedByCheckouts(c: Context, disk: Disk, base: Baseline, cached: Files, dirty: set<Path>): set<Path>
    requires ValidDisk(disk) && ValidContext(c)
  {
    var files := BeforeCheckouts(c, disk, base, cached, dirty);
    FullRefresh.Replaced(disk, base, FullRefresh.ChangedIds(files), c.checkouts, files)
  }

  method Refresh(c: Context, disk: Disk, base0: Baseline, cached: Pending, dirtyPaths: set<Path>)
    returns (pending: Pending, base: Baseline)
    requires ValidDisk(disk) && ValidBaseline(base0) && ValidContext(c)
    ensures pending.files == IncrementalFiles(c, disk, base0, cached.files, dirtyPaths)
    ensures pending.numChanges - |pending.files| ==
            cached.numChanges - |cached.files| + |ReplacedByCheckouts(c, disk, base0, cached.files, dirtyPaths)|
    ensures base == SettledByIncremental(c, disk, base0, cached.files, dirtyPaths)
  {
    var expandedDirty := ExpandDirty(dirtyPaths, base0, cached.files);
    assert expandedDirty == ExpandedSet(dirtyPaths, base0, cached.files);
    var files1, numChanges1, base1 := ProcessAll(c, disk, base0, cached.files, cached.numChanges, expandedDirty);
    SameMap(files1, PatchedFiles(c, disk, base0, cached.files, expandedDirty));
    SameMap(base1, SettledByIncremental(c, disk, base0, cached.files, dirtyPaths));
    var files2, numChanges2 := RemoveStaleCheckouts(c, files1, numChanges1);
    SameMap(files2, FreshFiles(c, files1));
    var files3, numChanges3 := FullRefresh.AddCheckoutOnlyFiles(c, disk, base1, files2, numChanges2);
    SameBaselineCheckouts(c, disk, base0, base1, files2, files3);
    pending, base := Pending(numChanges3, files3), base1;
  }

  lemma SameBaselineCheckouts(c: Context, disk: Disk, base0: Baseline, base: Baseline, files: Files, files3: Files)
    requires SameFiles(base0, base)
    requires forall p :: Get(files3, p) == FullRefresh.WithCheckoutAt(disk, base, FullRefresh.ChangedIds(files), c.checkouts, files, p)
    ensures files3 == WithCheckouts(c, disk, base0, files)
    ensures FullRefresh.Replaced(disk, base, FullRefresh.ChangedIds(files), c.checkouts, files)
         == FullRefresh.Replaced(disk, base0, FullRefresh.ChangedIds(files), c.checkouts, files)
  {
    var changed := FullRefresh.ChangedIds(files);
    forall p
      ensures FullRefresh.AddsCheckout(disk, base, changed, c.checkouts, p) <==> FullRefresh.AddsCheckout(disk, base0, changed, c.checkouts, p)
      ensures Get(files3, p) == FullRefresh.WithCheckoutAt(disk, base0, changed, c.checkouts, files, p)
    {
    }
    SameMap(files3, WithCheckouts(c, disk, base0, files));
  }
}
