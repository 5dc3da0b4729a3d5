/** `fullRefresh`: the pending map recomputed from disk, baseline, ignore rules, marks and checkouts. */
module FullRefresh {
  import opened Wrappers
  import opened Paths
  import opened Sequences
  import opened Workspace
  import opened ChangeDetection
  import opened DirectoryWalk

  // ---- What a full refresh reports, path by path ----

  /** A full refresh looks at the file p. */
  ghost predicate FoundAt(c: Context, disk: Disk, p: Path) {
    Reached(c, disk, "", p) && !InCheckpointDir(p)
  }

  /** Changed, deleted or collapsed: every entry except the checkout-only ones. */
  ghost function ChangedAt(c: Context, disk: Disk, base: Baseline, p: Path): Option<File> {
    if FoundAt(c, disk, p) then Detected(c, p, disk[p], Get(base, p))
    else if p in base then Some(DeletedEntry(p, base[p]))
    else if Collapsed(c, disk, "", p) then Some(CollapsedEntry(c, p))
    else None
  }

  /** p has no other entry, its baseline file is checked out, and it exists. */
  predicate CheckedOutOnDisk(c: Context, disk: Disk, base: Baseline, p: Path) {
    p in base && base[p].fileId in c.checkouts && ExistsSync(disk, p)
  }

  ghost function FullAt(c: Context, disk: Disk, base: Baseline, p: Path): Option<File> {
    var changed := ChangedAt(c, disk, base, p);
    if changed.None? && CheckedOutOnDisk(c, disk, base, p) then Some(CheckoutEntry(p, disk[p], base[p])) else changed
  }

  /** The whole map. */
  ghost function FullFiles(c: Context, disk: Disk, base: Baseline): (files: Files)
    ensures forall p :: Get(files, p) == FullAt(c, disk, base, p)
  {
    map p | p in base.Keys + disk.Keys && FullAt(c, disk, base, p).Some? :: FullAt(c, disk, base, p).value
  }

  /** The baseline entry of p once its file has been looked at, or not. */
  ghost function SettledAt(w: World, disk: Disk, base: Baseline, looked: bool, p: Path): Option<BaselineFile> {
    if p in base && looked && IsLeaf(disk, p) then Some(Settle(w, base[p], disk[p])) else Get(base, p)
  }

  ghost function SettledByFull(c: Context, disk: Disk, base: Baseline): (settled: Baseline)
    ensures forall p :: Get(settled, p) == SettledAt(c.w, disk, base, FoundAt(c, disk, p), p)
  {
    map p | p in base :: SettledAt(c.w, disk, base, FoundAt(c, disk, p), p).value
  }

  // ---- addCheckoutOnlyFiles ----

  /** Ids of the entries already present. */
  function ChangedIds(files: Files): set<FileId> {
    set p | p in files && files[p].id.Some? && files[p].id.value != "" :: files[p].id.value
  }

  predicate AddsCheckout(disk: Disk, base: Baseline, changed: set<FileId>, checkouts: seq<FileId>, p: Path) {
    p in base && base[p].fileId in checkouts && base[p].fileId !in changed && ExistsSync(disk, p)
  }

  function WithCheckoutAt(disk: Disk, base: Baseline, changed: set<FileId>, checkouts: seq<FileId>, files: Files, p: Path): Option<File> {
    if AddsCheckout(disk, base, changed, checkouts, p) then Some(CheckoutEntry(p, disk[p], base[p])) else Get(files, p)
  }

  /** Entries that a checkout-only entry replaces. */
  ghost function Replaced(disk: Disk, base: Baseline, changed: set<FileId>, checkouts: seq<FileId>, files: Files): set<Path> {
    set p | p in files && AddsCheckout(disk, base, changed, checkouts, p)
  }

  /** One more checkout adds at most the entry of its baseline file. */
  lemma NextCheckout(disk: Disk, base: Baseline, changed: set<FileId>, checkouts: seq<FileId>, i: nat, p: Path)
    requires Distinct(checkouts) && i < |checkouts|
    ensures AddsCheckout(disk, base, changed, checkouts[..i + 1], p) <==>
            AddsCheckout(disk, base, changed, checkouts[..i], p) || AddsCheckout(disk, base, changed, [checkouts[i]], p)
    ensures p in base && base[p].fileId == checkouts[i] ==> !AddsCheckout(disk, base, changed, checkouts[..i], p)
  {
    assert checkouts[..i + 1] == checkouts[..i] + [checkouts[i]];
  }

  lemma ReplacedNext(disk: Disk, base: Baseline, changed: set<FileId>, checkouts: seq<FileId>, i: nat, files: Files)
    requires ValidBaseline(base) && Distinct(checkouts) && i < |checkouts|
    ensures Replaced(disk, base, changed, checkouts[..i + 1], files) ==
            Replaced(disk, base, changed, checkouts[..i], files) + Replaced(disk, base, changed, [checkouts[i]], files)
    ensures Replaced(disk, base, changed, checkouts[..i], files) !! Replaced(disk, base, changed, [checkouts[i]], files)
  {
  }

  method AddCheckoutOnlyFiles(c: Context, disk: Disk, base: Baseline, files0: Files, numChanges0: int)
    returns (files: Files, numChanges: int)
    requires ValidBaseline(base) && Distinct(c.checkouts)
    ensures forall p :: Get(files, p) == WithCheckoutAt(disk, base, ChangedIds(files0), c.checkouts, files0, p)
    ensures numChanges - |files| == numChanges0 - |files0| + |Replaced(disk, base, ChangedIds(files0), c.checkouts, files0)|
  {
    files, numChanges := files0, numChanges0;
    var changedFileIds := ChangedIds(files0);
    for i := 0 to |c.checkouts|
      invariant forall p :: Get(files, p) == WithCheckoutAt(disk, base, changedFileIds, c.checkouts[..i], files0, p)
      invariant numChanges - |files| == numChanges0 - |files0| + |Replaced(disk, base, changedFileIds, c.checkouts[..i], files0)|
    {
      ghost var files1 := files;
      files, numChanges := AddCheckout(disk, base, changedFileIds, c.checkouts[i], files, numChanges);
      forall p
        ensures Get(files, p) == WithCheckoutAt(disk, base, changedFileIds, c.checkouts[..i + 1], files0, p)
        ensures AddsCheckout(disk, base, changedFileIds, [c.checkouts[i]], p) ==> Get(files1, p) == Get(files0, p)
      {
        NextCheckout(disk, base, changedFileIds, c.checkouts, i, p);
      }
      ReplacedNext(disk, base, changedFileIds, c.checkouts, i, files0);
      ReplacedSame(disk, base, changedFileIds, c.checkouts[i], files0, files1);
    }
    assert c.checkouts[..|c.checkouts|] == c.checkouts;
  }

  lemma ReplacedSame(disk: Disk, base: Baseline, changed: set<FileId>, fileId: FileId, files0: Files, files1: Files)
    requires forall p :: AddsCheckout(disk, base, changed, [fileId], p) ==> Get(files1, p) == Get(files0, p)
    ensures Replaced(disk, base, changed, [fileId], files1) == Replaced(disk, base, changed, [fileId], files0)
  {
  }

  method AddCheckout(disk: Disk, base: Baseline, changedFileIds: set<FileId>, fileId: FileId, files0: Files, numChanges0: int)
    returns (files: Files, numChanges: int)
    requires ValidBaseline(base)
    ensures forall p :: Get(files, p) == WithCheckoutAt(disk, base, changedFileIds, [fileId], files0, p)
    ensures numChanges - |files| == numChanges0 - |files0| + |Replaced(disk, base, changedFileIds, [fileId], files0)|
  {
    files, numChanges := files0, numChanges0;
    ghost var replaced := Replaced(disk, base, changedFileIds, [fileId], files0);
    var entries := set p | p in base && base[p].fileId == fileId;
    if fileId !in changedFileIds && entries != {} {
      var relativePath :| relativePath in entries;
      assert forall p :: p in base && base[p].fileId == fileId ==> p == relativePath;
      if ExistsSync(disk, relativePath) {
        assert replaced == if relativePath in files0 then {relativePath} else {};
        files := files[relativePath := CheckoutEntry(relativePath, disk[relativePath], base[relativePath])];
        numChanges := numChanges + 1;
        return;
      }
    }
    assert forall p :: p in base && base[p].fileId == fileId ==> p in entries;
    assert replaced == {};
  }

  // ---- fullRefresh ----

  /** The accumulators after the given files were looked at. */
  ghost predicate Processed(c: Context, disk: Disk, base0: Baseline, looked: set<Path>, files0: Files,
                            files: Files, base: Baseline, seen: set<Path>) {
    && (forall p :: p in looked ==> IsLeaf(disk, p))
    && (forall p :: Get(files, p) == if p in looked then Detected(c, p, disk[p], Get(base0, p)) else Get(files0, p))
    && (forall p :: Get(base, p) == SettledAt(c.w, disk, base0, p in looked, p))
    && (forall p :: p in seen <==> p in looked && p in base0)
  }

  method ProcessFile(c: Context, disk: Disk, p: Path, base1: Baseline, files1: Files, numChanges1: int, seen1: set<Path>,
                     ghost base0: Baseline, ghost files0: Files, ghost looked: set<Path>)
    returns (files: Files, numChanges: int, base: Baseline, seen: set<Path>)
    requires IsLeaf(disk, p) && p !in looked && p !in files0
    requires Processed(c, disk, base0, looked, files0, files1, base1, seen1)
    ensures Processed(c, disk, base0, looked + {p}, files0, files, base, seen)
    ensures numChanges - |files| == numChanges1 - |files1|
  {
    files, numChanges, base, seen := files1, numChanges1, base1, seen1;
    var baselineFile := Get(base, p);
    NotLookedYet(c, disk, base0, looked, files0, files1, base1, seen1, p);
    if baselineFile.Some? {
      seen := seen + {p};
    }
    var pendingFile, updated := DetectFileChange(c, p, disk[p], baselineFile);
    if updated.Some? {
      base := base[p := updated.value];
    }
    if pendingFile.Some? {
      files := files[p := pendingFile.value];
      numChanges := numChanges + 1;
    }
    ProcessedNext(c, disk, base0, looked, files0, files1, base1, seen1, p, files, base, seen);
  }

  lemma NotLookedYet(c: Context, disk: Disk, base0: Baseline, looked: set<Path>, files0: Files,
                     files: Files, base: Baseline, seen: set<Path>, p: Path)
    requires Processed(c, disk, base0, looked, files0, files, base, seen) && p !in looked && p !in files0
    ensures Get(base, p) == Get(base0, p) && p !in files
  {
    assert Get(files, p) == Get(files0, p);
  }

  lemma ProcessedNext(c: Context, disk: Disk, base0: Baseline, looked: set<Path>, files0: Files,
                      files1: Files, base1: Baseline, seen1: set<Path>, p: Path, files: Files, base: Baseline, seen: set<Path>)
    requires Processed(c, disk, base0, looked, files0, files1, base1, seen1) && IsLeaf(disk, p) && p !in looked && p !in files1
    requires var pending := Detected(c, p, disk[p], Get(base0, p));
             files == if pending.Some? then files1[p := pending.value] else files1
    requires base == if p in base0 then base1[p := Settle(c.w, base0[p], disk[p])] else base1
    requires seen == if p in base0 then seen1 + {p} else seen1
    ensures Processed(c, disk, base0, looked + {p}, files0, files, base, seen)
  {
    forall q
      ensures Get(files, q) == if q in looked + {p} then Detected(c, q, disk[q], Get(base0, q)) else Get(files0, q)
    {
      assert Get(files1, q) == if q in looked then Detected(c, q, disk[q], Get(base0, q)) else Get(files0, q);
    }
    forall q
      ensures Get(base, q) == SettledAt(c.w, disk, base0, q in looked + {p}, q)
    {
      assert Get(base1, q) == SettledAt(c.w, disk, base0, q in looked, q);
    }
  }

  ghost function OutsideCheckpointDir(paths: set<Path>): set<Path> {
    set p | p in paths && !InCheckpointDir(p)
  }

  /** The detection loop: one verdict per collected file, deferred hashes filled in on the way. */
  method ProcessFoundFiles(c: Context, disk: Disk, base0: Baseline, diskFiles: seq<Path>, files0: Files, numChanges0: int,
                           ghost reached: set<Path>)
    returns (files: Files, numChanges: int, base: Baseline, seen: set<Path>)
    requires Lists(diskFiles, reached) && forall p :: p in reached ==> IsLeaf(disk, p)
    requires forall p :: p in files0 ==> !IsLeaf(disk, p)
    ensures Processed(c, disk, base0, OutsideCheckpointDir(reached), files0, files, base, seen)
    ensures numChanges - |files| == numChanges0 - |files0|
  {
    files, numChanges, base, seen := files0, numChanges0, base0, {};
    ghost var looked: set<Path> := {};
    for i := 0 to |diskFiles|
      invariant forall p :: p in looked <==> p in diskFiles[..i] && !InCheckpointDir(p)
      invariant Processed(c, disk, base0, looked, files0, files, base, seen)
      invariant numChanges - |files| == numChanges0 - |files0|
    {
      var p := diskFiles[i];
      assert p in reached;
      TakeNext(diskFiles, i);
      if !InCheckpointDir(p) {
        files, numChanges, base, seen := ProcessFile(c, disk, p, base, files, numChanges, seen, base0, files0, looked);
        looked := looked + {p};
      }
    }
    assert looked == OutsideCheckpointDir(reached) by {
      assert diskFiles[..|diskFiles|] == diskFiles;
    }
  }

  lemma TakeNext<T>(s: seq<T>, i: nat)
    requires Distinct(s) && i < |s|
    ensures s[i] !in s[..i] && forall x :: x in s[..i + 1] <==> x in s[..i] || x == s[i]
  {
    assert s[..i + 1] == s[..i] + [s[i]];
  }

  lemma AllProcessed(c: Context, disk: Disk, base0: Baseline, files0: Files, files: Files, base: Baseline, seen: set<Path>)
    requires Processed(c, disk, base0, OutsideCheckpointDir(ReachedSet(c, disk, "")), files0, files, base, seen)
    ensures forall p :: Get(files, p) == if FoundAt(c, disk, p) then Detected(c, p, disk[p], Get(base0, p)) else Get(files0, p)
    ensures base == SettledByFull(c, disk, base0)
    ensures forall p :: p in seen <==> FoundAt(c, disk, p) && p in base0
  {
    assert forall p :: p in OutsideCheckpointDir(ReachedSet(c, disk, "")) <==> FoundAt(c, disk, p);
    SameMap(base, SettledByFull(c, disk, base0));
  }

  /** The deletion loop after the baseline keys in `done`. */
  ghost predicate Deleted(base: Baseline, seen: set<Path>, files0: Files, done: set<Path>, files: Files) {
    forall p :: Get(files, p) == if p in done && p in base && p !in seen then Some(DeletedEntry(p, base[p])) else Get(files0, p)
  }

  ghost function Overwritten(base: Baseline, seen: set<Path>, files0: Files, done: set<Path>): set<Path> {
    set p | p in done && p in base && p !in seen && p in files0
  }

  lemma OverwrittenNext(base: Baseline, seen: set<Path>, files0: Files, done: set<Path>, q: Path)
    requires q !in done && q in base
    ensures |Overwritten(base, seen, files0, done + {q})| ==
            |Overwritten(base, seen, files0, done)| + if q !in seen && q in files0 then 1 else 0
  {
    var before := Overwritten(base, seen, files0, done);
    assert Overwritten(base, seen, files0, done + {q}) == if q !in seen && q in files0 then before + {q} else before;
  }

  /** One turn of the deletion loop. */
  method ProcessMissing(base: Baseline, seen: set<Path>, stateKey: Path, files1: Files, numChanges1: int, ghost files0: Files, ghost done: set<Path>)
    returns (files: Files, numChanges: int)
    requires ValidBaseline(base) && stateKey in base && stateKey !in done && Deleted(base, seen, files0, done, files1)
    ensures Deleted(base, seen, files0, done + {stateKey}, files)
    ensures numChanges - |files| == numChanges1 - |files1| + if stateKey !in seen && stateKey in files0 then 1 else 0
  {
    files, numChanges := files1, numChanges1;
    var relativePath := StripLeadingSlash(stateKey);
    DropSlashesWellFormed(stateKey);
    assert Get(files1, stateKey) == Get(files0, stateKey);
    if relativePath !in seen {
      files := files[relativePath := DeletedEntry(relativePath, base[stateKey])];
      numChanges := numChanges + 1;
    }
  }

  /** The deletion loop: every baseline file not seen on disk. */
  method ProcessMissingFiles(base: Baseline, seen: set<Path>, files0: Files, numChanges0: int)
    returns (files: Files, numChanges: int)
    requires ValidBaseline(base)
    ensures forall p :: Get(files, p) == if p in base && p !in seen then Some(DeletedEntry(p, base[p])) else Get(files0, p)
    ensures numChanges - |files| == numChanges0 - |files0| + |set p | p in files0 && p in base && p !in seen|
  {
    files, numChanges := files0, numChanges0;
    var todo := base.Keys;
    ghost var done: set<Path> := {};
    while todo != {}
      invariant todo <= base.Keys && done == base.Keys - todo
      invariant Deleted(base, seen, files0, done, files)
      invariant numChanges - |files| == numChanges0 - |files0| + |Overwritten(base, seen, files0, done)|
      decreases todo
    {
      var stateKey :| stateKey in todo;
      files, numChanges := ProcessMissing(base, seen, stateKey, files, numChanges, files0, done);
      OverwrittenNext(base, seen, files0, done, stateKey);
      todo, done := todo - {stateKey}, done + {stateKey};
    }
    assert Overwritten(base, seen, files0, done) == set p | p in files0 && p in base && p !in seen;
  }

  /** Baseline paths at which the walk finds an untracked directory with files: entered once, counted twice. */
  ghost function CountedTwice(c: Context, disk: Disk, base: Baseline): set<Path> {
    set p | p in base && Collapsed(c, disk, "", p)
  }

  method Refresh(c: Context, disk: Disk, base0: Baseline) returns (pending: Pending, base: Baseline)
    requires ValidDisk(disk) && ValidBaseline(base0) && ValidContext(c)
    ensures pending.files == FullFiles(c, disk, base0)
    ensures pending.numChanges == |pending.files| + |CountedTwice(c, disk, base0)|
    ensures base == SettledByFull(c, disk, base0)
  {
    var acc := Walk(c, disk, "", Found(map[], 0, []), {});
    var files0, numChanges0 := acc.files, acc.numChanges;
    WalkOutcome(c, disk, acc);
    var files1, numChanges1, base1, seen :=
      ProcessFoundFiles(c, disk, base0, acc.diskFiles, files0, numChanges0, ReachedSet(c, disk, ""));
    AllProcessed(c, disk, base0, files0, files1, base1, seen);
    SettledValid(c, disk, base0);
    var files2, numChanges2 := ProcessMissingFiles(base1, seen, files1, numChanges1);
    MissingOutcome(c, disk, base0, base1, seen, files0, files1, files2);
    var files3, numChanges3 := AddCheckoutOnlyFiles(c, disk, base1, files2, numChanges2);
    CheckoutOutcome(c, disk, base0, base1, files2, files3);
    pending, base := Pending(numChanges3, files3), base1;
  }

  lemma WalkOutcome(c: Context, disk: Disk, acc: Found)
    requires Walked(c, disk, "", Found(map[], 0, []), {}, acc)
    ensures forall p :: Get(acc.files, p) == if Collapsed(c, disk, "", p) then Some(CollapsedEntry(c, p)) else None
    ensures acc.numChanges == |acc.files|
    ensures Lists(acc.diskFiles, ReachedSet(c, disk, ""))
  {
    var collapsed := CollapsedSet(c, disk, "");
    EntriesSize(c, collapsed);
    EmptyMerge(EntriesOf(c, collapsed));
    EmptyUnion(ReachedSet(c, disk, ""));
    EntriesAt(c, disk, acc.files);
  }

  lemma EntriesAt(c: Context, disk: Disk, files: Files)
    requires files == EntriesOf(c, CollapsedSet(c, disk, ""))
    ensures forall p :: Get(files, p) == if Collapsed(c, disk, "", p) then Some(CollapsedEntry(c, p)) else None
  {
    assert forall p :: p in files <==> p in CollapsedSet(c, disk, "");
  }

  lemma EntriesSize(c: Context, dirs: set<Path>)
    ensures |EntriesOf(c, dirs)| == |dirs|
  {
    assert EntriesOf(c, dirs).Keys == dirs;
  }

  lemma SettledValid(c: Context, disk: Disk, base: Baseline)
    ensures SameFiles(base, SettledByFull(c, disk, base))
    ensures ValidBaseline(base) ==> ValidBaseline(SettledByFull(c, disk, base))
  {
  }

  lemma MissingOutcome(c: Context, disk: Disk, base0: Baseline, base: Baseline, seen: set<Path>, files0: Files, files1: Files, files2: Files)
    requires SameFiles(base0, base)
    requires forall p :: p in seen <==> FoundAt(c, disk, p) && p in base0
    requires forall p :: Get(files0, p) == if Collapsed(c, disk, "", p) then Some(CollapsedEntry(c, p)) else None
    requires forall p :: Get(files1, p) == if FoundAt(c, disk, p) then Detected(c, p, disk[p], Get(base0, p)) else Get(files0, p)
    requires forall p :: Get(files2, p) == if p in base && p !in seen then Some(DeletedEntry(p, base[p])) else Get(files1, p)
    ensures forall p :: Get(files2, p) == ChangedAt(c, disk, base0, p)
    ensures (set p | p in files1 && p in base && p !in seen) == CountedTwice(c, disk, base0)
  {
  }

  /** Entries carry the file id of the baseline file at their own path, and every entry at a baseline path has one. */
  ghost predicate IdsMatch(base: Baseline, files: Files) {
    forall p :: p in files && files[p].id.Some? ==> p in base && files[p].id.value == base[p].fileId
  }

  lemma ChangedIdAt(base: Baseline, files: Files, p: Path)
    requires ValidBaseline(base) && IdsMatch(base, files) && p in base
    ensures base[p].fileId in ChangedIds(files) <==> p in files && files[p].id.Some?
  {
  }

  lemma ChangedIdsMatch(c: Context, disk: Disk, base: Baseline, files: Files)
    requires forall p :: Get(files, p) == ChangedAt(c, disk, base, p)
    ensures IdsMatch(base, files)
    ensures forall p :: p in files && p in base ==> files[p].id.Some?
  {
    forall p | p in files
      ensures files[p].id.Some? ==> p in base && files[p].id.value == base[p].fileId
      ensures p in base ==> files[p].id.Some?
    {
      assert Get(files, p) == Some(files[p]);
    }
  }

  lemma CheckoutOutcome(c: Context, disk: Disk, base0: Baseline, base: Baseline, files: Files, files3: Files)
    requires ValidBaseline(base0) && SameFiles(base0, base)
    requires forall p :: Get(files, p) == ChangedAt(c, disk, base0, p)
    requires forall p :: Get(files3, p) == WithCheckoutAt(disk, base, ChangedIds(files), c.checkouts, files, p)
    ensures files3 == FullFiles(c, disk, base0)
    ensures Replaced(disk, base, ChangedIds(files), c.checkouts, files) == {}
  {
    ChangedIdsMatch(c, disk, base0, files);
    forall p
      ensures AddsCheckout(disk, base, ChangedIds(files), c.checkouts, p) <==> p !in files && CheckedOutOnDisk(c, disk, base0, p)
    {
      if p in base0 {
        ChangedIdAt(base0, files, p);
      }
    }
    forall p
      ensures Get(files3, p) == FullAt(c, disk, base0, p)
    {
      assert p in files <==> ChangedAt(c, disk, base0, p).Some?;
    }
    SameMap(files3, FullFiles(c, disk, base0));
  }

  /** After a full refresh numChanges is the number of entries exactly when no baseline path is an
      untracked, non-ignored directory on disk that holds a non-ignored file. */
  lemma CountExactIff(c: Context, disk: Disk, base: Baseline, pending: Pending)
    requires pending.files == FullFiles(c, disk, base)
    requires pending.numChanges == |pending.files| + |CountedTwice(c, disk, base)|
    ensures pending.numChanges == |pending.files| <==> forall p :: p in base ==> !Collapsed(c, disk, "", p)
  {
    if p :| p in base && Collapsed(c, disk, "", p) {
      assert p in CountedTwice(c, disk, base);
    } else {
      assert CountedTwice(c, disk, base) == {};
    }
  }
}
