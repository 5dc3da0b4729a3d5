/** The two disk walks: the test for non-ignored files, and the walk of a full refresh. */
module DirectoryWalk {
  import opened Wrappers
  import opened Paths
  import opened Sequences
  import opened Workspace

  // ---- hasNonIgnoredFiles ----

  /** Neither q nor a directory between dir and q is ignored or hidden. */
  ghost predicate VisibleFrom(c: Context, dir: Path, q: Path) {
    && !Skipped(c, q)
    && forall a :: Beneath(dir, a) && Under(a, q) ==> !Skipped(c, a)
  }

  ghost predicate VisibleFile(c: Context, disk: Disk, dir: Path, q: Path) {
    IsLeaf(disk, q) && !disk[q].kind.Special? && Beneath(dir, q) && VisibleFrom(c, dir, q)
  }

  /** Some regular file or symbolic link beneath dir is neither ignored nor hidden. */
  ghost predicate HoldsFile(c: Context, disk: Disk, dir: Path) {
    exists q :: q in disk && VisibleFile(c, disk, dir, q)
  }

  lemma VisibleStep(c: Context, disk: Disk, dir: Path, x: Path, q: Path)
    requires ValidDisk(disk) && x in Readdir(disk, dir) && q in disk && Within(x, q)
    ensures VisibleFile(c, disk, dir, q) <==>
            !Skipped(c, x) && (if q == x then IsLeaf(disk, x) && !disk[x].kind.Special? else VisibleFile(c, disk, x, q))
  {
  }

  method HasNonIgnoredFiles(c: Context, disk: Disk, dir: Path) returns (found: bool)
    requires ValidDisk(disk)
    ensures found <==> HoldsFile(c, disk, dir)
    decreases LongerThan(disk, |dir|)
  {
    var entries := Readdir(disk, dir);
    var todo := entries;
    while todo != {}
      invariant todo <= entries
      invariant forall x, q :: x in entries - todo && q in disk && Within(x, q) ==> !VisibleFile(c, disk, dir, q)
      decreases todo
    {
      var entry :| entry in todo;
      todo := todo - {entry};
      forall q | q in disk && Within(entry, q)
        ensures VisibleFile(c, disk, dir, q) <==>
                !Skipped(c, entry) && (if q == entry then IsLeaf(disk, entry) && !disk[entry].kind.Special?
                                       else VisibleFile(c, disk, entry, q))
      {
        VisibleStep(c, disk, dir, entry, q);
      }
      if !Skipped(c, entry) {
        match disk[entry]
        case Leaf(kind, _, _, _, _) =>
          if kind.Regular? || kind.Symlink? {
            assert VisibleFile(c, disk, dir, entry);
            return true;
          }
          assert forall q :: q in disk ==> !Under(entry, q);
        case Dir =>
          assert entry in LongerThan(disk, |dir|) && entry !in LongerThan(disk, |entry|);
          var below := HasNonIgnoredFiles(c, disk, entry);
          if below {
            ghost var q :| q in disk && VisibleFile(c, disk, entry, q);
            assert Within(entry, q);
            return true;
          }
          assert forall q :: q in disk && Under(entry, q) ==> !VisibleFile(c, disk, entry, q);
      }
    }
    forall q | q in disk
      ensures !VisibleFile(c, disk, dir, q)
    {
      if Beneath(dir, q) {
        var x := StepTowards(dir, q);
        assert x in entries - todo;
      }
    }
    found := false;
  }

  /** With ignore rules closed under descendants, only the file itself has to be looked at. */
  lemma HoldsFileClosed(c: Context, disk: Disk, dir: Path, q: Path)
    requires ValidContext(c) && IsLeaf(disk, q) && !disk[q].kind.Special? && Beneath(dir, q) && !Skipped(c, q)
    ensures HoldsFile(c, disk, dir)
  {
  }

  // ---- The walk of fullRefresh ----

  /** Every directory between dir and p is tracked and neither ignored nor hidden. */
  ghost predicate OpenFrom(c: Context, dir: Path, p: Path) {
    forall a :: Beneath(dir, a) && Under(a, p) ==> a in c.tracked && !Skipped(c, a)
  }

  /** The walk from dir collects file p. */
  ghost predicate Reached(c: Context, disk: Disk, dir: Path, p: Path) {
    IsLeaf(disk, p) && Beneath(dir, p) && !Skipped(c, p) && OpenFrom(c, dir, p)
  }

  /** The walk from dir stops at directory d and gives it one entry. */
  ghost predicate Collapsed(c: Context, disk: Disk, dir: Path, d: Path) {
    && IsDir(disk, d) && Beneath(dir, d) && !Skipped(c, d) && d !in c.tracked && OpenFrom(c, dir, d)
    && HoldsFile(c, disk, d)
  }

  ghost function ReachedSet(c: Context, disk: Disk, dir: Path): set<Path> {
    set p | p in disk && Reached(c, disk, dir, p)
  }

  ghost function CollapsedSet(c: Context, disk: Disk, dir: Path): set<Path> {
    set d | d in disk && Collapsed(c, disk, dir, d)
  }

  function CollapsedEntry(c: Context, d: Path): File {
    DirEntry(d, if d in c.marks then Added else Local)
  }

  /** The part of a set of paths that lies within one of the given children. */
  ghost function Via(paths: set<Path>, children: set<Path>): set<Path> {
    set p | p in paths && exists x :: x in children && Within(x, p)
  }

  /** What the walk finds within child x of dir, case by case. */
  lemma ChildCases(c: Context, disk: Disk, dir: Path, x: Path, p: Path)
    requires ValidDisk(disk) && x in Readdir(disk, dir) && p in disk && Within(x, p)
    ensures Skipped(c, x) ==> !Reached(c, disk, dir, p) && !Collapsed(c, disk, dir, p)
    ensures !Skipped(c, x) && disk[x].Leaf? ==> p == x && Reached(c, disk, dir, p) && !Collapsed(c, disk, dir, p)
    ensures !Skipped(c, x) && disk[x].Dir? && x !in c.tracked ==>
              !Reached(c, disk, dir, p) && (Collapsed(c, disk, dir, p) <==> p == x && HoldsFile(c, disk, x))
    ensures !Skipped(c, x) && disk[x].Dir? && x in c.tracked ==>
              && (Reached(c, disk, dir, p) <==> Reached(c, disk, x, p))
              && (Collapsed(c, disk, dir, p) <==> Collapsed(c, disk, x, p))
  {
  }

  lemma ViaAll(disk: Disk, dir: Path, paths: set<Path>)
    requires ValidDisk(disk) && forall p :: p in paths ==> p in disk && Beneath(dir, p)
    ensures Via(paths, Readdir(disk, dir)) == paths
  {
    forall p | p in paths
      ensures p in Via(paths, Readdir(disk, dir))
    {
      var x := StepTowards(dir, p);
      assert x in Readdir(disk, dir) && Within(x, p);
    }
  }

  lemma ViaStep(disk: Disk, dir: Path, paths: set<Path>, done: set<Path>, x: Path)
    requires ValidDisk(disk) && done <= Readdir(disk, dir) && x in Readdir(disk, dir) - done
    requires forall p :: p in paths ==> p in disk
    ensures Via(paths, done + {x}) == Via(paths, done) + Via(paths, {x})
    ensures Via(paths, done) !! Via(paths, {x})
  {
  }

  /** What child x adds to the walk from dir. */
  lemma ChildContribution(c: Context, disk: Disk, dir: Path, x: Path)
    requires ValidDisk(disk) && x in Readdir(disk, dir)
    ensures var r := Via(ReachedSet(c, disk, dir), {x}); var d := Via(CollapsedSet(c, disk, dir), {x});
            && (Skipped(c, x) ==> r == {} && d == {})
            && (!Skipped(c, x) && disk[x].Leaf? ==> r == {x} && d == {})
            && (!Skipped(c, x) && disk[x].Dir? && x !in c.tracked ==> r == {} && d == if HoldsFile(c, disk, x) then {x} else {})
            && (!Skipped(c, x) && disk[x].Dir? && x in c.tracked ==> r == ReachedSet(c, disk, x) && d == CollapsedSet(c, disk, x))
  {
    forall p | p in disk && Within(x, p) {
      ChildCases(c, disk, dir, x, p);
    }
    assert Within(x, x);
    var r := Via(ReachedSet(c, disk, dir), {x});
    var d := Via(CollapsedSet(c, disk, dir), {x});
    assert forall p :: p in r <==> p in disk && Reached(c, disk, dir, p) && Within(x, p);
    assert forall p :: p in d <==> p in disk && Collapsed(c, disk, dir, p) && Within(x, p);
  }

  ghost function EntriesOf(c: Context, dirs: set<Path>): Files {
    map d | d in dirs :: CollapsedEntry(c, d)
  }

  /** The accumulators every directory of the walk adds to. */
  datatype Found = Found(files: Files, numChanges: int, diskFiles: seq<Path>)

  /** acc is acc0, which listed the given files, plus the given collapsed directories and reached files. */
  ghost predicate Accumulated(c: Context, acc0: Found, listed: set<Path>, collapsed: set<Path>, reached: set<Path>, acc: Found) {
    && acc.files == acc0.files + EntriesOf(c, collapsed)
    && acc.numChanges == acc0.numChanges + |collapsed|
    && Lists(acc.diskFiles, listed + reached)
  }

  lemma AccumulatedThen(c: Context, acc0: Found, listed: set<Path>, collapsed0: set<Path>, reached0: set<Path>, acc1: Found,
                        collapsed1: set<Path>, reached1: set<Path>, acc2: Found)
    requires Accumulated(c, acc0, listed, collapsed0, reached0, acc1)
    requires Accumulated(c, acc1, listed + reached0, collapsed1, reached1, acc2)
    requires collapsed0 !! collapsed1
    ensures Accumulated(c, acc0, listed, collapsed0 + collapsed1, reached0 + reached1, acc2)
  {
    assert listed + reached0 + reached1 == listed + (reached0 + reached1);
  }

  lemma NoneBeneathYet(disk: Disk, dir: Path, paths: set<Path>, done: set<Path>, x: Path, listed: set<Path>)
    requires ValidDisk(disk) && done <= Readdir(disk, dir) && x in Readdir(disk, dir) - done
    requires forall p :: p in paths ==> p in disk
    requires forall p :: p in listed ==> !Beneath(dir, p)
    ensures forall p :: p in listed + Via(paths, done) ==> !Within(x, p)
  {
  }

  /** acc is acc0 plus what the walk from dir finds within the given children. */
  ghost predicate WalkedVia(c: Context, disk: Disk, dir: Path, acc0: Found, listed: set<Path>, children: set<Path>, acc: Found) {
    Accumulated(c, acc0, listed, Via(CollapsedSet(c, disk, dir), children), Via(ReachedSet(c, disk, dir), children), acc)
  }

  /** acc is acc0 plus all that the walk from dir finds. */
  ghost predicate Walked(c: Context, disk: Disk, dir: Path, acc0: Found, listed: set<Path>, acc: Found) {
    Accumulated(c, acc0, listed, CollapsedSet(c, disk, dir), ReachedSet(c, disk, dir), acc)
  }

  lemma WalkedNone(c: Context, disk: Disk, dir: Path, acc0: Found, listed: set<Path>)
    requires Lists(acc0.diskFiles, listed)
    ensures WalkedVia(c, disk, dir, acc0, listed, {}, acc0)
  {
    assert listed + {} == listed;
  }

  lemma WalkedAll(c: Context, disk: Disk, dir: Path, acc0: Found, listed: set<Path>, acc: Found)
    requires ValidDisk(disk) && WalkedVia(c, disk, dir, acc0, listed, Readdir(disk, dir), acc)
    ensures Walked(c, disk, dir, acc0, listed, acc)
  {
    ViaAll(disk, dir, CollapsedSet(c, disk, dir));
    ViaAll(disk, dir, ReachedSet(c, disk, dir));
  }

  method Walk(c: Context, disk: Disk, dir: Path, acc0: Found, ghost listed: set<Path>) returns (acc: Found)
    requires ValidDisk(disk)
    requires Lists(acc0.diskFiles, listed) && forall p :: p in listed ==> !Beneath(dir, p)
    ensures Walked(c, disk, dir, acc0, listed, acc)
    decreases LongerThan(disk, |dir|), 2
  {
    acc := acc0;
    var entries := Readdir(disk, dir);
    var todo := entries;
    ghost var done: set<Path> := {};
    WalkedNone(c, disk, dir, acc0, listed);
    while todo != {}
      invariant done + todo == entries && done !! todo
      invariant WalkedVia(c, disk, dir, acc0, listed, done, acc)
      decreases todo
    {
      var entry :| entry in todo;
      acc := WalkNext(c, disk, dir, entry, acc, acc0, listed, done);
      todo, done := todo - {entry}, done + {entry};
    }
    assert done == entries;
    WalkedAll(c, disk, dir, acc0, listed, acc);
  }

  method WalkNext(c: Context, disk: Disk, dir: Path, entry: Path, acc1: Found,
                  ghost acc0: Found, ghost listed: set<Path>, ghost done: set<Path>) returns (acc: Found)
    requires ValidDisk(disk) && done <= Readdir(disk, dir) && entry in Readdir(disk, dir) - done
    requires forall p :: p in listed ==> !Beneath(dir, p)
    requires WalkedVia(c, disk, dir, acc0, listed, done, acc1)
    ensures WalkedVia(c, disk, dir, acc0, listed, done + {entry}, acc)
    decreases LongerThan(disk, |dir|), 1
  {
    ghost var collapsed, reached := CollapsedSet(c, disk, dir), ReachedSet(c, disk, dir);
    ViaStep(disk, dir, reached, done, entry);
    ViaStep(disk, dir, collapsed, done, entry);
    NoneBeneathYet(disk, dir, reached, done, entry, listed);
    acc := WalkEntry(c, disk, dir, entry, acc1, listed + Via(reached, done));
    AccumulatedThen(c, acc0, listed, Via(collapsed, done), Via(reached, done), acc1,
                    Via(collapsed, {entry}), Via(reached, {entry}), acc);
  }

  lemma AddNothing(c: Context, acc0: Found, listed: set<Path>)
    requires Lists(acc0.diskFiles, listed)
    ensures Accumulated(c, acc0, listed, {}, {}, acc0)
  {
    assert listed + {} == listed;
  }

  lemma AddDir(c: Context, acc0: Found, listed: set<Path>, d: Path)
    requires Lists(acc0.diskFiles, listed)
    ensures Accumulated(c, acc0, listed, {d}, {},
                        acc0.(files := acc0.files[d := CollapsedEntry(c, d)], numChanges := acc0.numChanges + 1))
  {
    assert listed + {} == listed;
  }

  lemma AddFile(c: Context, acc0: Found, listed: set<Path>, p: Path)
    requires Lists(acc0.diskFiles, listed) && p !in listed
    ensures Accumulated(c, acc0, listed, {}, {p}, acc0.(diskFiles := acc0.diskFiles + [p]))
  {
    ListsAppend(acc0.diskFiles, listed, p);
  }

  method WalkEntry(c: Context, disk: Disk, dir: Path, entry: Path, acc0: Found, ghost listed: set<Path>) returns (acc: Found)
    requires ValidDisk(disk) && entry in Readdir(disk, dir)
    requires Lists(acc0.diskFiles, listed) && forall p :: p in listed ==> !Within(entry, p)
    ensures WalkedVia(c, disk, dir, acc0, listed, {entry}, acc)
    decreases LongerThan(disk, |dir|), 0
  {
    acc := acc0;
    ChildContribution(c, disk, dir, entry);
    AddNothing(c, acc0, listed);
    if Skipped(c, entry) {
      return;
    }
    if disk[entry].Dir? {
      if entry !in c.tracked {
        var holds := HasNonIgnoredFiles(c, disk, entry);
        if holds {
          AddDir(c, acc0, listed, entry);
          acc := acc.(files := acc.files[entry := DirEntry(entry, if entry in c.marks then Added else Local)],
                      numChanges := acc.numChanges + 1);
        }
        return;
      }
      assert entry in LongerThan(disk, |dir|) && entry !in LongerThan(disk, |entry|);
      acc := Walk(c, disk, entry, acc, listed);
    } else {
      assert Within(entry, entry);
      AddFile(c, acc0, listed, entry);
      acc := acc.(diskFiles := acc.diskFiles + [entry]);
    }
  }
}
