/** Incremental and full refresh agree at file level. */
module Agreement {
  import opened Wrappers
  import opened Paths
  import opened Workspace
  import opened TrackedDirs
  import opened ChangeDetection
  import opened DirectoryWalk
  import opened FullRefresh
  import opened IncrementalRefresh

  // ---- The collapsed view covers the disk exactly ----

  lemma OpenAbove(c: Context, p: Path)
    requires ValidContext(c) && AllTrackedAbove(p, c.tracked) && !Skipped(c, p)
    ensures OpenFrom(c, "", p)
  {
  }

  /** A non-ignored file is reached by the walk when no directory above it is untracked. Otherwise its topmost untracked
      directory is the only one above it that can be collapsed, and it is when it holds a file: always for the file
      itself, unless that is a pipe, socket or device. */
  lemma CollapsedViewCoversFile(c: Context, disk: Disk, q: Path)
    requires ValidDisk(disk) && ValidContext(c) && IsLeaf(disk, q) && !Skipped(c, q)
    ensures match TopmostUntracked(q, c.tracked)
            case None => Reached(c, disk, "", q) && forall e :: Under(e, q) ==> !Collapsed(c, disk, "", e)
            case Some(d) =>
              && !Reached(c, disk, "", q) && (!disk[q].kind.Special? ==> HoldsFile(c, disk, d))
              && forall e :: Under(e, q) ==> (Collapsed(c, disk, "", e) <==> e == d && HoldsFile(c, disk, d))
  {
    var top := TopmostUntracked(q, c.tracked);
    if top.None? {
      OpenAbove(c, q);
    } else {
      var d := top.value;
      if Skipped(c, d) { SkippedBelow(c, d, q); }
      OpenAbove(c, d);
      if !disk[q].kind.Special? {
        HoldsFileClosed(c, disk, d, q);
      }
      forall e | Under(e, q) && Collapsed(c, disk, "", e)
        ensures e == d
      {
        assert IsTopmostUntracked(e, q, c.tracked);
        TopmostUnique(d, e, q, c.tracked);
      }
      assert Under(d, q) && d !in c.tracked;
    }
  }

  /** Every collapsed directory stands for some non-ignored file. */
  lemma CollapsedDirHasFile(c: Context, disk: Disk, d: Path) returns (q: Path)
    requires ValidDisk(disk) && ValidContext(c) && Collapsed(c, disk, "", d)
    ensures IsLeaf(disk, q) && !disk[q].kind.Special? && !Skipped(c, q)
    ensures TopmostUntracked(q, c.tracked) == Some(d)
  {
    q :| q in disk && VisibleFile(c, disk, d, q);
    assert d != "";
    assert IsTopmostUntracked(d, q, c.tracked);
    var top := TopmostUntracked(q, c.tracked);
    assert top.Some?;
    TopmostUnique(d, top.value, q, c.tracked);
  }

  // ---- File level ----

  /** No directory above a baseline or marked file is untracked: `buildTrackedDirSet` sees to that. */
  ghost predicate InTrackedDirs(c: Context, disk: Disk, base: Baseline, p: Path) {
    IsLeaf(disk, p) && (p in base || p in c.marks) ==> AllTrackedAbove(p, c.tracked)
  }

  /** p is not an untracked directory, and does not lie under a `.checkpoint` prefix. */
  ghost predicate NotCollapsible(c: Context, disk: Disk, base: Baseline, p: Path) {
    && !InCheckpointDir(p)
    && !(IsDir(disk, p) && p !in c.tracked)
    && InTrackedDirs(c, disk, base, p)
  }

  /** And p is neither an ignored baseline path nor a baseline path that has become a directory. */
  ghost predicate FileLevel(c: Context, disk: Disk, base: Baseline, p: Path) {
    NotCollapsible(c, disk, base, p) && !(p in base && (Skipped(c, p) || IsDir(disk, p)))
  }

  /** At file level the full refresh looks only at p's own disk and baseline entries, and reports no file that lies in
      an untracked directory. */
  ghost function OwnEntry(c: Context, disk: Disk, base: Baseline, p: Path): Option<File> {
    if IsLeaf(disk, p) && !Skipped(c, p) && AllTrackedAbove(p, c.tracked) then
      var changed := Detected(c, p, disk[p], Get(base, p));
      if changed.None? && CheckedOutOnDisk(c, disk, base, p) then Some(CheckoutEntry(p, disk[p], base[p])) else changed
    else if p in base then Some(DeletedEntry(p, base[p]))
    else None
  }

  lemma FullIsOwnEntry(c: Context, disk: Disk, base: Baseline, p: Path)
    requires ValidDisk(disk) && ValidContext(c) && FileLevel(c, disk, base, p)
    ensures FullAt(c, disk, base, p) == OwnEntry(c, disk, base, p)
  {
  }

  // ---- Deferred hashes ----

  /** Some files of base were looked at. */
  ghost predicate SettledFrom(w: World, disk: Disk, base: Baseline, settled: Baseline) {
    forall p :: Get(settled, p) == SettledAt(w, disk, base, true, p) || Get(settled, p) == Get(base, p)
  }

  /** Filling in deferred hashes changes no entry of a full refresh of the same disk. */
  lemma SettlingKeepsFull(c: Context, disk: Disk, base: Baseline, settled: Baseline, p: Path)
    requires SettledFrom(c.w, disk, base, settled)
    ensures FullAt(c, disk, settled, p) == FullAt(c, disk, base, p)
    ensures p in settled <==> p in base
  {
    assert Get(settled, p) == SettledAt(c.w, disk, base, true, p) || Get(settled, p) == Get(base, p);
    if p in base && IsLeaf(disk, p) {
      SettleKeepsVerdict(c, p, disk[p], base[p]);
    }
  }

  lemma FullSettles(c: Context, disk: Disk, base: Baseline)
    ensures SettledFrom(c.w, disk, base, SettledByFull(c, disk, base))
  {
  }

  lemma IncrementalSettles(c: Context, disk: Disk, base: Baseline, cached: Files, dirty: set<Path>)
    ensures SettledFrom(c.w, disk, base, SettledByIncremental(c, disk, base, cached, dirty))
  {
  }

  // ---- What a cached map always satisfies ----

  /** Entries carry the id of their own baseline file, and a checkout-only entry that of a current checkout. */
  ghost predicate Sane(c: Context, base: Baseline, files: Files) {
    && IdsMatch(base, files)
    && forall p :: p in files && files[p].status.NotChangedCheckedOut? ==> !Stale(c, files[p])
  }

  lemma FullSane(c: Context, disk: Disk, base: Baseline)
    ensures Sane(c, base, FullFiles(c, disk, base))
  {
    var files := FullFiles(c, disk, base);
    forall p | p in files
      ensures files[p].id.Some? ==> p in base && files[p].id.value == base[p].fileId
      ensures files[p].status.NotChangedCheckedOut? ==> !Stale(c, files[p])
    {
      assert Get(files, p) == FullAt(c, disk, base, p);
    }
  }

  lemma PatchedSane(c: Context, disk: Disk, base: Baseline, cached: Files, done: set<Path>)
    requires ValidDisk(disk) && ValidContext(c) && Sane(c, base, cached)
    ensures Sane(c, base, PatchedFiles(c, disk, base, cached, done))
  {
    var files := PatchedFiles(c, disk, base, cached, done);
    forall p | p in files
      ensures files[p].id.Some? ==> p in base && files[p].id.value == base[p].fileId
      ensures files[p].status.NotChangedCheckedOut? ==> !Stale(c, files[p])
    {
      assert Get(files, p) == PatchedAt(c, disk, base, cached, done, p);
    }
  }

  lemma SaneStaysFresh(c: Context, base: Baseline, files: Files)
    requires Sane(c, base, files)
    ensures FreshFiles(c, files) == files
  {
  }

  lemma CheckoutsSane(c: Context, disk: Disk, base: Baseline, files: Files)
    requires Sane(c, base, files)
    ensures Sane(c, base, WithCheckouts(c, disk, base, files))
  {
  }

  lemma IncrementalSane(c: Context, disk: Disk, base: Baseline, cached: Files, dirty: set<Path>)
    requires ValidDisk(disk) && ValidContext(c) && Sane(c, base, cached)
    ensures Sane(c, base, IncrementalFiles(c, disk, base, cached, dirty))
  {
    var patched := PatchedFiles(c, disk, base, cached, ExpandedSet(dirty, base, cached));
    PatchedSane(c, disk, base, cached, ExpandedSet(dirty, base, cached));
    SaneStaysFresh(c, base, patched);
    CheckoutsSane(c, disk, base, patched);
  }

  // ---- The agreement ----

  ghost predicate Covered(reports: set<Path>, base: Baseline, files: Files, p: Path) {
    InExpanded(reports, base.Keys + files.Keys, p)
  }

  /** A dirty path at file level is decided as a full refresh would, before checkouts. */
  lemma RecheckedIsChanged(c: Context, disk: Disk, base: Baseline, p: Path)
    requires ValidDisk(disk) && ValidContext(c) && FileLevel(c, disk, base, p)
    ensures RecheckedAt(c, disk, base, p) == ChangedAt(c, disk, base, p)
  {
  }

  /** The checkout pass completes an entry exactly as the full refresh does. */
  lemma CheckoutCompletes(c: Context, disk: Disk, base: Baseline, files: Files, p: Path)
    requires ValidBaseline(base) && IdsMatch(base, files)
    requires p in files && p in base ==> files[p].id.Some?
    ensures WithCheckoutAt(disk, base, ChangedIds(files), c.checkouts, files, p) ==
            if p !in files && CheckedOutOnDisk(c, disk, base, p) then Some(CheckoutEntry(p, disk[p], base[p])) else Get(files, p)
  {
  }

  /** If the cached entry of p is that of a full refresh, or p is covered by the dirty paths, the incremental
      result has the entry of a full refresh at p. */
  lemma IncrementalAgrees(c: Context, disk: Disk, base: Baseline, cached: Files, dirty: set<Path>, p: Path)
    requires ValidDisk(disk) && ValidBaseline(base) && ValidContext(c) && Sane(c, base, cached)
    requires FileLevel(c, disk, base, p)
    requires Covered(dirty, base, cached, p) || Get(cached, p) == FullAt(c, disk, base, p)
    ensures Get(IncrementalFiles(c, disk, base, cached, dirty), p) == FullAt(c, disk, base, p)
  {
    var expanded := ExpandedSet(dirty, base, cached);
    var files := PatchedFiles(c, disk, base, cached, expanded);
    PatchedSane(c, disk, base, cached, expanded);
    SaneStaysFresh(c, base, files);
    assert Get(files, p) == PatchedAt(c, disk, base, cached, expanded, p);
    if Covered(dirty, base, cached, p) {
      RecheckedIsChanged(c, disk, base, p);
      assert Get(files, p) == ChangedAt(c, disk, base, p);
    } else {
      NotLifted(c, disk, base, p);
      assert Get(files, p) == FullAt(c, disk, base, p);
    }
    assert p in files ==> Get(files, p) == Some(files[p]);
    CheckoutCompletes(c, disk, base, files, p);
  }

  /** The exclusion of FileLevel is needed: for a dirty path that is not an untracked directory the refreshes agree
      exactly when it is not a baseline path that is ignored or has become a directory. */
  lemma DirtyPathAgreesIff(c: Context, disk: Disk, base: Baseline, cached: Files, dirty: set<Path>, p: Path)
    requires ValidDisk(disk) && ValidBaseline(base) && ValidContext(c) && Sane(c, base, cached)
    requires NotCollapsible(c, disk, base, p) && Covered(dirty, base, cached, p)
    ensures Get(IncrementalFiles(c, disk, base, cached, dirty), p) == FullAt(c, disk, base, p) <==>
            !(p in base && (Skipped(c, p) || IsDir(disk, p)))
  {
    if FileLevel(c, disk, base, p) {
      IncrementalAgrees(c, disk, base, cached, dirty, p);
    } else {
      var expanded := ExpandedSet(dirty, base, cached);
      var files := PatchedFiles(c, disk, base, cached, expanded);
      PatchedSane(c, disk, base, cached, expanded);
      SaneStaysFresh(c, base, files);
      assert Get(files, p) == PatchedAt(c, disk, base, cached, expanded, p) == None;
      CheckoutCompletes(c, disk, base, files, p);
    }
  }

  // ---- Checkouts that changed since the map was cached ----

  lemma PatchedIdsMatch(c: Context, disk: Disk, base: Baseline, cached: Files, done: set<Path>)
    requires ValidDisk(disk) && ValidContext(c) && IdsMatch(base, cached)
    ensures IdsMatch(base, PatchedFiles(c, disk, base, cached, done))
  {
    var files := PatchedFiles(c, disk, base, cached, done);
    forall p | p in files
      ensures files[p].id.Some? ==> p in base && files[p].id.value == base[p].fileId
    {
      assert Get(files, p) == PatchedAt(c, disk, base, cached, done, p);
    }
  }

  lemma FreshIdsMatch(c: Context, base: Baseline, files: Files)
    requires IdsMatch(base, files)
    ensures IdsMatch(base, FreshFiles(c, files))
  {
    forall p | p in FreshFiles(c, files)
      ensures Get(FreshFiles(c, files), p) == Some(files[p])
    {
      assert Get(FreshFiles(c, files), p) == FreshAt(c, files, p);
    }
  }

  /** An entry for a checkout only goes when its file is no longer checked out, and comes when the file now is. */
  function KeptEntry(c: Context, disk: Disk, base: Baseline, p: Path, e: Option<File>): Option<File> {
    if e.Some? && !(e.value.status == NotChangedCheckedOut && (e.value.id.None? || e.value.id.value !in c.checkouts)) then e
    else if CheckedOutOnDisk(c, disk, base, p) then Some(CheckoutEntry(p, disk[p], base[p]))
    else None
  }

  /** What an incremental refresh leaves of a cached entry it does not recheck. */
  lemma UncoveredEntry(c: Context, disk: Disk, base: Baseline, cached: Files, dirty: set<Path>, p: Path)
    requires ValidDisk(disk) && ValidBaseline(base) && ValidContext(c) && IdsMatch(base, cached)
    requires FileLevel(c, disk, base, p) && !Covered(dirty, base, cached, p)
    requires p in cached && p in base ==> cached[p].id.Some?
    ensures Get(IncrementalFiles(c, disk, base, cached, dirty), p) == KeptEntry(c, disk, base, p, Get(cached, p))
  {
    var expanded := ExpandedSet(dirty, base, cached);
    var files := PatchedFiles(c, disk, base, cached, expanded);
    assert Get(files, p) == PatchedAt(c, disk, base, cached, expanded, p);
    NotLifted(c, disk, base, p);
    PatchedIdsMatch(c, disk, base, cached, expanded);
    FreshIdsMatch(c, base, files);
    assert Get(FreshFiles(c, files), p) == FreshAt(c, files, p);
    CheckoutCompletes(c, disk, base, FreshFiles(c, files), p);
  }

  /** A changed baseline file, not in conflict, whose own checkout came or went. */
  predicate CheckoutMoved(c0: Context, c: Context, disk: Disk, base: Baseline, p: Path) {
    && p in base && IsLeaf(disk, p) && Changed(c.w, base[p], disk[p])
    && (c.w.binary(p) || !c.w.conflictMarkers(disk[p].content))
    && (base[p].fileId in c0.checkouts <==> base[p].fileId !in c.checkouts)
  }

  lemma KeptOwnEntry(c0: Context, c: Context, disk: Disk, base: Baseline, p: Path)
    requires ValidDisk(disk) && ValidContext(c) && c == c0.(checkouts := c.checkouts) && FileLevel(c, disk, base, p)
    ensures KeptEntry(c, disk, base, p, OwnEntry(c0, disk, base, p)) == OwnEntry(c, disk, base, p) <==>
            !CheckoutMoved(c0, c, disk, base, p)
  {
  }

  /** With a cached entry that was true under other checkouts, a path that is not rechecked becomes true under the
      present ones exactly unless it is such a file. */
  lemma CheckoutsMovedIff(c0: Context, c: Context, disk: Disk, base: Baseline, cached: Files, dirty: set<Path>, p: Path)
    requires ValidDisk(disk) && ValidBaseline(base) && ValidContext(c0) && ValidContext(c) && c == c0.(checkouts := c.checkouts)
    requires IdsMatch(base, cached) && Get(cached, p) == FullAt(c0, disk, base, p)
    requires FileLevel(c, disk, base, p) && !Covered(dirty, base, cached, p)
    ensures Get(IncrementalFiles(c, disk, base, cached, dirty), p) == FullAt(c, disk, base, p) <==> !CheckoutMoved(c0, c, disk, base, p)
  {
    FullIsOwnEntry(c0, disk, base, p);
    FullIsOwnEntry(c, disk, base, p);
    UncoveredEntry(c, disk, base, cached, dirty, p);
    KeptOwnEntry(c0, c, disk, base, p);
  }

  lemma NotLifted(c: Context, disk: Disk, base: Baseline, p: Path)
    requires ValidDisk(disk) && ValidContext(c) && FileLevel(c, disk, base, p)
    ensures forall q :: !Lifts(c, disk, base, q, p)
  {
  }

  /** The incremental refresh forgets no cached path it did not recheck. */
  lemma UncoveredStaysKnown(c: Context, disk: Disk, base: Baseline, cached: Files, dirty: set<Path>, p: Path)
    requires ValidDisk(disk) && ValidContext(c) && Sane(c, base, cached)
    requires p in cached && !Covered(dirty, base, cached, p)
    ensures p in IncrementalFiles(c, disk, base, cached, dirty)
  {
    var expanded := ExpandedSet(dirty, base, cached);
    var files := PatchedFiles(c, disk, base, cached, expanded);
    PatchedSane(c, disk, base, cached, expanded);
    SaneStaysFresh(c, base, files);
    assert Get(files, p) == PatchedAt(c, disk, base, cached, expanded, p) == Some(cached[p]);
    var result := WithCheckouts(c, disk, base, files);
    assert Get(result, p) == WithCheckoutAt(disk, base, ChangedIds(files), c.checkouts, files, p);
  }

  /** With further reports still awaited, a path they do not cover afterwards is right. */
  lemma IncrementalAgreesUnlessAwaited(c: Context, disk: Disk, base: Baseline, cached: Files, dirty: set<Path>,
                                       awaited: set<Path>, p: Path)
    requires ValidDisk(disk) && ValidBaseline(base) && ValidContext(c) && Sane(c, base, cached)
    requires FileLevel(c, disk, base, p)
    requires Covered(dirty + awaited, base, cached, p) || Get(cached, p) == FullAt(c, disk, base, p)
    requires !Covered(awaited, base, IncrementalFiles(c, disk, base, cached, dirty), p)
    ensures Get(IncrementalFiles(c, disk, base, cached, dirty), p) == FullAt(c, disk, base, p)
  {
    if !Covered(dirty, base, cached, p) {
      if p in cached {
        UncoveredStaysKnown(c, disk, base, cached, dirty, p);
      }
      NotCoveredBefore(dirty, awaited, base, cached, IncrementalFiles(c, disk, base, cached, dirty), p);
    }
    IncrementalAgrees(c, disk, base, cached, dirty, p);
  }

  /** A path neither rechecked nor awaited afterwards was not covered before. */
  lemma NotCoveredBefore(dirty: set<Path>, awaited: set<Path>, base: Baseline, cached: Files, files: Files, p: Path)
    requires !Covered(dirty, base, cached, p) && !Covered(awaited, base, files, p)
    requires p in cached ==> p in files
    ensures !Covered(dirty + awaited, base, cached, p)
  {
  }

  /** The same for the whole result, measured against the settled baseline. */
  lemma IncrementalResultTrue(c: Context, disk: Disk, base: Baseline, cached: Files, dirty: set<Path>, awaited: set<Path>)
    requires ValidDisk(disk) && ValidBaseline(base) && ValidContext(c) && Sane(c, base, cached)
    requires forall p :: FileLevel(c, disk, base, p) && !Covered(dirty + awaited, base, cached, p) ==>
               Get(cached, p) == FullAt(c, disk, base, p)
    ensures var files := IncrementalFiles(c, disk, base, cached, dirty);
            var settled := SettledByIncremental(c, disk, base, cached, dirty);
            forall p :: FileLevel(c, disk, settled, p) && !Covered(awaited, settled, files, p) ==>
              Get(files, p) == FullAt(c, disk, settled, p)
  {
    var files := IncrementalFiles(c, disk, base, cached, dirty);
    var settled := SettledByIncremental(c, disk, base, cached, dirty);
    IncrementalSettles(c, disk, base, cached, dirty);
    assert settled.Keys == base.Keys;
    forall p | FileLevel(c, disk, settled, p) && !Covered(awaited, settled, files, p)
      ensures Get(files, p) == FullAt(c, disk, settled, p)
    {
      IncrementalAgreesUnlessAwaited(c, disk, base, cached, dirty, awaited, p);
      SettlingKeepsFull(c, disk, base, settled, p);
    }
  }

  /** From a cache that equals a full refresh of the old disk, and dirty paths covering every change, the
      incremental refresh of the new disk equals its full refresh at file level. */
  lemma IncrementalRefinesFull(c: Context, old_: Disk, disk: Disk, base: Baseline, dirty: set<Path>, p: Path)
    requires ValidDisk(old_) && ValidDisk(disk) && ValidBaseline(base) && ValidContext(c)
    requires FileLevel(c, disk, base, p)
    requires Get(disk, p) != Get(old_, p) ==> Covered(dirty, base, FullFiles(c, old_, base), p)
    ensures Get(IncrementalFiles(c, disk, base, FullFiles(c, old_, base), dirty), p) == FullAt(c, disk, base, p)
  {
    FullSane(c, old_, base);
    if Get(disk, p) == Get(old_, p) {
      UnchangedOnDisk(c, old_, disk, base, p);
    }
    IncrementalAgrees(c, disk, base, FullFiles(c, old_, base), dirty, p);
  }

  lemma UnchangedOnDisk(c: Context, before: Disk, after: Disk, base: Baseline, p: Path)
    requires ValidDisk(before) && ValidDisk(after) && ValidContext(c)
    requires FileLevel(c, after, base, p) && Get(before, p) == Get(after, p)
    ensures FileLevel(c, before, base, p)
    ensures FullAt(c, after, base, p) == FullAt(c, before, base, p)
  {
  }

  // ---- numChanges ----

  /** Entries at checked-out baseline paths carry an id, so the checkout pass leaves them alone. */
  ghost predicate CheckoutsCarryIds(checkouts: seq<FileId>, base: Baseline, files: Files) {
    forall p :: p in files && p in base && base[p].fileId in checkouts ==> files[p].id.Some?
  }

  lemma FullCarriesIds(c: Context, disk: Disk, base: Baseline)
    ensures CheckoutsCarryIds(c.checkouts, base, FullFiles(c, disk, base))
  {
    var files := FullFiles(c, disk, base);
    forall p | p in files && p in base
      ensures files[p].id.Some?
    {
      assert Get(files, p) == FullAt(c, disk, base, p);
    }
  }

  /** Before the checkout pass, a checked-out baseline path has an entry without an id exactly where a directory was listed. */
  lemma PatchedWithoutId(c: Context, disk: Disk, base: Baseline, cached: Files, expanded: set<Path>, p: Path)
    requires ValidDisk(disk) && ValidContext(c) && CheckoutsCarryIds(c.checkouts, base, cached)
    requires p in base && base[p].fileId in c.checkouts
    ensures var files := PatchedFiles(c, disk, base, cached, expanded);
            p in files && files[p].id.None? <==> ListsDir(c, disk, base, cached, expanded, p)
  {
    var files := PatchedFiles(c, disk, base, cached, expanded);
    assert Get(files, p) == PatchedAt(c, disk, base, cached, expanded, p);
    if q :| q in expanded && Lifts(c, disk, base, q, p) {
      LiftedDir(c, disk, base, q, p);
    }
  }

  lemma ReplacedIff(c: Context, disk: Disk, base: Baseline, cached: Files, dirty: set<Path>, p: Path)
    requires ValidDisk(disk) && ValidBaseline(base) && ValidContext(c) && Sane(c, base, cached) && CheckoutsCarryIds(c.checkouts, base, cached)
    ensures p in ReplacedByCheckouts(c, disk, base, cached, dirty) <==>
            p in base && base[p].fileId in c.checkouts && ListsDir(c, disk, base, cached, ExpandedSet(dirty, base, cached), p)
  {
    var expanded := ExpandedSet(dirty, base, cached);
    var files := PatchedFiles(c, disk, base, cached, expanded);
    PatchedSane(c, disk, base, cached, expanded);
    SaneStaysFresh(c, base, files);
    if p in base && base[p].fileId in c.checkouts {
      PatchedWithoutId(c, disk, base, cached, expanded, p);
      ChangedIdAt(base, files, p);
    }
  }

  /** An incremental refresh counts no entry twice exactly when it lists no directory at a checked-out baseline path. */
  lemma IncrementalCountExactIff(c: Context, disk: Disk, base: Baseline, cached: Files, dirty: set<Path>)
    requires ValidDisk(disk) && ValidBaseline(base) && ValidContext(c) && Sane(c, base, cached) && CheckoutsCarryIds(c.checkouts, base, cached)
    ensures ReplacedByCheckouts(c, disk, base, cached, dirty) == {} <==>
            forall p :: p in base && base[p].fileId in c.checkouts ==>
              !ListsDir(c, disk, base, cached, ExpandedSet(dirty, base, cached), p)
  {
    forall p
      ensures p in ReplacedByCheckouts(c, disk, base, cached, dirty) <==>
              p in base && base[p].fileId in c.checkouts && ListsDir(c, disk, base, cached, ExpandedSet(dirty, base, cached), p)
    {
      ReplacedIff(c, disk, base, cached, dirty, p);
    }
  }

  /** And leaves every entry at a checked-out baseline path with an id. */
  lemma IncrementalCarriesIds(c: Context, disk: Disk, base: Baseline, cached: Files, dirty: set<Path>)
    requires ValidDisk(disk) && ValidBaseline(base) && ValidContext(c) && Sane(c, base, cached) && CheckoutsCarryIds(c.checkouts, base, cached)
    ensures CheckoutsCarryIds(c.checkouts, base, IncrementalFiles(c, disk, base, cached, dirty))
  {
    var expanded := ExpandedSet(dirty, base, cached);
    var files := PatchedFiles(c, disk, base, cached, expanded);
    PatchedSane(c, disk, base, cached, expanded);
    SaneStaysFresh(c, base, files);
    var result := WithCheckouts(c, disk, base, files);
    forall p | p in result && p in base && base[p].fileId in c.checkouts
      ensures result[p].id.Some?
    {
      assert Get(result, p) == WithCheckoutAt(disk, base, ChangedIds(files), c.checkouts, files, p);
      PatchedWithoutId(c, disk, base, cached, expanded, p);
      ChangedIdAt(base, files, p);
    }
  }
}
