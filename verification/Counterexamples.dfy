/** Valid inputs on which the code does not do what one would expect of it. The lemmas they belong to give the exact
    conditions. */
module Counterexamples {
  import opened Wrappers
  import opened Paths
  import opened Workspace
  import opened TrackedDirs
  import opened ChangeDetection
  import opened DirectoryWalk
  import opened FullRefresh
  import opened IncrementalRefresh
  import opened Agreement
  import opened FileStatuses

  /** Patterns name files and directories outright, and content is its own hash. */
  function PlainWorld(): World {
    World((patterns, p) => exists q :: q in patterns && Within(q, p), (p, n) => [], content => content, content => false, p => false)
  }

  lemma PlainWorldClosed()
    ensures ClosedUnderDescendants(PlainWorld()) && Injective(PlainWorld())
  {
    forall patterns: seq<string>, a, p | Under(a, p) && PlainWorld().matches(patterns, a)
      ensures PlainWorld().matches(patterns, p)
    {
      var q :| q in patterns && Within(q, a);
      if q != a {
        UnderTransitive(q, a, p);
      }
      assert Within(q, p);
    }
  }

  function File1(content: Content, mtime: int): Node {
    Leaf(Regular, |content|, mtime, content, true)
  }

  // ---- A directory at a baseline path is counted twice ----

  /** The tracked file "a" has become a directory that holds a file. */
  function FileBecameDir(): Disk {
    map["a" := Dir, "a/x" := File1("x", 1)]
  }

  function OneTracked(): Baseline {
    map["a" := BaselineFile("id", 1, "a", 1, 1)]
  }

  function Nothing(checkouts: seq<FileId>): Context {
    Context(PlainWorld(), Patterns([], []), {""}, {}, checkouts)
  }

  /** The built-in pattern for `.checkpoint` is longer than these paths. */
  lemma NothingSkipped(checkouts: seq<FileId>, p: Path)
    requires |p| <= 3
    ensures !Skipped(Nothing(checkouts), p)
  {
    var patterns := [".checkpoint/", ".checkpoint/**"] + Flatten([]);
    assert Flatten([]) == [];
    forall q | q in patterns
      ensures !Within(q, p)
    {
      assert q == ".checkpoint/" || q == ".checkpoint/**";
    }
    assert !PlainWorld().matches(patterns, p) && !PlainWorld().matches(Flatten([]), p);
  }

  lemma NothingValid(checkouts: seq<FileId>)
    requires |checkouts| <= 1
    ensures ValidContext(Nothing(checkouts)) && ValidBaseline(OneTracked())
  {
    PlainWorldClosed();
  }

  lemma FileBecameDirValid()
    ensures ValidDisk(FileBecameDir())
  {
    forall a: Path | Under(a, "a/x")
      ensures a == "a"
    {
      assert |a| == 1;
    }
  }

  /** The tracked directories are what the daemon computes for this baseline. */
  lemma NothingTracked()
    ensures TrackedDirSet(OneTracked().Keys, {}) == {""}
  {
    forall a
      ensures a in TrackedDirSet(OneTracked().Keys, {}) <==> a in {""}
    {
      assert DropSlashes("a") == "a";
      assert !Above(a, "a");
    }
  }

  lemma ADirHoldsFile(checkouts: seq<FileId>)
    requires |checkouts| <= 1
    ensures HoldsFile(Nothing(checkouts), FileBecameDir(), "a")
  {
    NothingValid(checkouts);
    NothingSkipped(checkouts, "a/x");
    HoldsFileClosed(Nothing(checkouts), FileBecameDir(), "a", "a/x");
  }

  /** A full refresh counts the directory "a" and again the deleted file "a", which replaces its entry. */
  lemma FullRefreshOvercounts()
    ensures ValidContext(Nothing([])) && ValidDisk(FileBecameDir()) && ValidBaseline(OneTracked())
    ensures TrackedDirSet(OneTracked().Keys, {}) == Nothing([]).tracked
    ensures CountedTwice(Nothing([]), FileBecameDir(), OneTracked()) == {"a"}
  {
    NothingValid([]);
    FileBecameDirValid();
    NothingTracked();
    ADirHoldsFile([]);
    NothingSkipped([], "a");
    assert forall a: Path :: !Under(a, "a");
    assert Collapsed(Nothing([]), FileBecameDir(), "", "a");
  }

  function OldDisk(): Disk {
    map["a" := File1("a", 1)]
  }

  lemma ADirListed(cached: Files)
    ensures ListsDir(Nothing(["id"]), FileBecameDir(), OneTracked(), cached, ExpandedSet({"a"}, OneTracked(), cached), "a")
  {
    ADirHoldsFile(["id"]);
    NothingSkipped(["id"], "a");
    assert InExpanded({"a"}, OneTracked().Keys + cached.Keys, "a");
  }

  /** With "a" checked out and its change reported, an incremental refresh from the full result of the old disk lists
      the directory "a" and counts its checkout-only entry again. */
  lemma IncrementalRefreshOvercounts()
    ensures ValidContext(Nothing(["id"])) && ValidDisk(OldDisk()) && ValidDisk(FileBecameDir()) && ValidBaseline(OneTracked())
    ensures CountedTwice(Nothing(["id"]), OldDisk(), OneTracked()) == {}
    ensures ReplacedByCheckouts(Nothing(["id"]), FileBecameDir(), OneTracked(), FullFiles(Nothing(["id"]), OldDisk(), OneTracked()), {"a"})
         == {"a"}
  {
    var c, base, cached := Nothing(["id"]), OneTracked(), FullFiles(Nothing(["id"]), OldDisk(), OneTracked());
    NothingValid(["id"]);
    FileBecameDirValid();
    FullSane(c, OldDisk(), base);
    FullCarriesIds(c, OldDisk(), base);
    ADirListed(cached);
    forall p
      ensures p in ReplacedByCheckouts(c, FileBecameDir(), base, cached, {"a"}) <==> p == "a"
    {
      ReplacedIff(c, FileBecameDir(), base, cached, {"a"}, p);
    }
  }

  // ---- An ignored baseline file ----

  /** The tracked file "f" is unchanged on disk, but a rule ignores it. */
  function IgnoringF(): Context {
    Context(PlainWorld(), Patterns([IgnoreEntry(".chkignore", ["f"])], []), {""}, {}, [])
  }

  function OnlyF(): Disk {
    map["f" := File1("f", 1)]
  }

  function TrackingF(): Baseline {
    map["f" := BaselineFile("id", 1, "f", 1, 1)]
  }

  lemma IgnoringFValid()
    ensures ValidContext(IgnoringF()) && ValidDisk(OnlyF()) && ValidBaseline(TrackingF()) && Skipped(IgnoringF(), "f")
  {
    PlainWorldClosed();
    var patterns := [".checkpoint/", ".checkpoint/**"] + Flatten(IgnoringF().rules.ignored);
    assert Flatten([IgnoreEntry(".chkignore", ["f"])]) == ["f"];
    assert patterns[2] == "f" && Within("f", "f");
    assert PlainWorld().matches(patterns, "f");
  }

  /** A full refresh reports the unchanged file as Deleted, so the two status lookups differ on it. */
  lemma IgnoredBaselineStatusesDiffer(writable: Path -> bool)
    ensures var c := IgnoringF();
            var s := Sources(c.w, c.rules, Some(WorkspaceState(TrackingF(), {})), Some(FullFiles(c, OnlyF(), TrackingF())), writable);
            !SameStatus(s, Query("f", true, false))
  {
    var c := IgnoringF();
    IgnoringFValid();
    FullPendingStatuses(c, OnlyF(), TrackingF());
    FullReportsSkippedIff(c, OnlyF(), TrackingF(), "f");
    OrdersAgreeIff(Sources(c.w, c.rules, Some(WorkspaceState(TrackingF(), {})), Some(FullFiles(c, OnlyF(), TrackingF())), writable),
                   Query("f", true, false));
  }

  /** And when it is dirty, an incremental refresh drops the entry that a full refresh reports. */
  lemma IgnoredBaselineRefreshesDiffer()
    ensures var c, cached := IgnoringF(), FullFiles(IgnoringF(), OnlyF(), TrackingF());
            && ValidContext(c) && ValidDisk(OnlyF()) && ValidBaseline(TrackingF()) && Sane(c, TrackingF(), cached)
            && Get(IncrementalFiles(c, OnlyF(), TrackingF(), cached, {"f"}), "f") != FullAt(c, OnlyF(), TrackingF(), "f")
  {
    var c, cached := IgnoringF(), FullFiles(IgnoringF(), OnlyF(), TrackingF());
    IgnoringFValid();
    FullSane(c, OnlyF(), TrackingF());
    assert forall a: Path :: !Under(a, "f");
    DirtyPathAgreesIff(c, OnlyF(), TrackingF(), cached, {"f"}, "f");
  }

  // ---- Edits that are not seen ----

  /** What a pull writes: size and mtime, with the hash deferred. */
  function AfterPull(): BaselineFile {
    BaselineFile("id", 1, "", 3, 5)
  }

  /** An edit of the same size before the first look is not reported although size and mtime were recorded: its hash
      becomes the baseline's, and it is restoring the pulled content "old" that is reported. */
  lemma FirstEditUnnoticed(c: Context, p: Path)
    requires c.w == PlainWorld()
    ensures var settled := Settle(c.w, AfterPull(), File1("new", 9));
            && Describes(c.w, AfterPull(), "old") && "new" != "old"
            && Detected(c, p, File1("new", 9), Some(AfterPull())).None?
            && settled.md5 == c.w.hash("new")
            && Detected(c, p, File1("new", 10), Some(settled)).None?
            && Detected(c, p, File1("old", 11), Some(settled)).Some?
  {
    assert "new"[0] != "old"[0];
  }

  /** With a recorded hash, an edit that keeps size and mtime is not reported. */
  lemma SameTimeEditUnnoticed(c: Context, p: Path)
    requires c.w == PlainWorld()
    ensures var b := BaselineFile("id", 1, "old", 3, 5);
            Describes(c.w, b, "old") && "new" != "old" && Detected(c, p, File1("new", 5), Some(b)).None?
  {
    assert "new"[0] != "old"[0];
  }
}
