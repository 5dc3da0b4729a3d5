/** `expandDirectoriesForSubmit`: directories in a submit become the files beneath them. */
module SubmitExpansion {
  import opened Wrappers
  import opened Paths
  import opened Sequences
  import opened Workspace
  import opened DirectoryWalk

  datatype Modification = Modification(delete: bool, path: Path, oldPath: Option<Path>)

  /** What the expansion reads. `stat` and `readdir` follow symbolic links: links holds each path that leads through
      one to a directory, with the tree seen through it. A walk does not enter the links it finds, but `existsSync`
      follows them too: linked holds the paths that exist only beneath such a link. */
  datatype Submit = Submit(w: World, rules: Patterns, disk: Disk, links: map<Path, Disk>, linked: set<Path>,
                           state: Option<WorkspaceState>)

  ghost predicate ValidSubmit(s: Submit) {
    && ValidDisk(s.disk) && (forall d :: d in s.links ==> ValidDisk(s.links[d]))
    && (s.state.Some? ==> ValidBaseline(s.state.value.files))
  }

  /** The same with the tree that is seen beneath dir. */
  function Through(s: Submit, dir: Path): Submit {
    if dir in s.links then s.(disk := s.links[dir]) else s
  }

  /** `existsSync`, with links followed. */
  predicate Exists(s: Submit, p: Path) {
    ExistsSync(s.disk, p) || p in s.linked
  }

  // ---- Paths as clients send them ----

  function ForwardSlashes(s: string): string {
    seq(|s|, i requires 0 <= i < |s| => if s[i] == '\\' then '/' else s[i])
  }

  /** One leading slash of either kind dropped, backslashes turned round. */
  function Normalized(p: string): Path {
    ForwardSlashes(if p != "" && (p[0] == '/' || p[0] == '\\') then p[1..] else p)
  }

  /** Character by character: one leading slash or backslash is dropped, and every other backslash becomes a slash. */
  lemma NormalizedByCharacter(p: string)
    ensures var q := if p != "" && (p[0] == '/' || p[0] == '\\') then p[1..] else p;
            |Normalized(p)| == |q| && forall i :: 0 <= i < |q| ==> Normalized(p)[i] == if q[i] == '\\' then '/' else q[i]
  {
  }

  /** `stat` says directory; the empty path is the workspace root. */
  predicate StatIsDirectory(s: Submit, p: Path) {
    p == "" || IsDir(s.disk, p) || p in s.links
  }

  function NonDirectories(s: Submit, mods: seq<Modification>): seq<Modification> {
    if mods == [] then []
    else if StatIsDirectory(s, Normalized(mods[0].path)) then NonDirectories(s, mods[1..])
    else [mods[0]] + NonDirectories(s, mods[1..])
  }

  function Directories(s: Submit, mods: seq<Modification>): seq<Path> {
    if mods == [] then []
    else if StatIsDirectory(s, Normalized(mods[0].path)) then [Normalized(mods[0].path)] + Directories(s, mods[1..])
    else Directories(s, mods[1..])
  }

  lemma {:induction false} SplitAppend(s: Submit, mods: seq<Modification>, m: Modification)
    ensures NonDirectories(s, mods + [m]) == NonDirectories(s, mods) + if StatIsDirectory(s, Normalized(m.path)) then [] else [m]
    ensures Directories(s, mods + [m]) ==
            Directories(s, mods) + if StatIsDirectory(s, Normalized(m.path)) then [Normalized(m.path)] else []
    decreases |mods|
  {
    if mods == [] {
      assert mods + [m] == [m];
    } else {
      SplitAppend(s, mods[1..], m);
      assert (mods + [m])[1..] == mods[1..] + [m];
    }
  }

  // ---- What one directory contributes ----

  predicate Excluded(s: Submit, p: Path) {
    InCheckpointDir(p) || Skips(s.w, s.rules, p)
  }

  /** The walk from dir submits file q. */
  ghost predicate SubmitsFile(s: Submit, dir: Path, q: Path) {
    && IsLeaf(s.disk, q) && Beneath(dir, q) && !Excluded(s, q)
    && forall a :: Beneath(dir, a) && Under(a, q) ==> !Excluded(s, a)
  }

  ghost function SubmittedFiles(s: Submit, dir: Path): set<Path> {
    set q | q in s.disk && SubmitsFile(s, dir, q)
  }

  /** With ignore rules closed under descendants: every non-ignored, non-hidden file beneath dir outside `.checkpoint`. */
  lemma SubmitsEveryVisibleFile(s: Submit, dir: Path, q: Path)
    requires ClosedUnderDescendants(s.w) && ValidDisk(s.disk)
    ensures SubmitsFile(s, dir, q) <==> IsLeaf(s.disk, q) && Beneath(dir, q) && !InCheckpointDir(q) && !Skips(s.w, s.rules, q)
  {
  }

  ghost predicate MissingBaseline(s: Submit, dir: Path, p: Path) {
    s.state.Some? && p in s.state.value.files && Under(dir, p) && !Exists(s, p)
  }

  /** Everything one directory contributes: its files, and a delete for each baseline path beneath it missing on disk. */
  ghost predicate Contributed(s: Submit, dir: Path, m: Modification) {
    && m.oldPath == None
    && if m.delete then MissingBaseline(s, dir, m.path) else SubmitsFile(s, dir, m.path)
  }

  /** The part lists exactly the directory's contribution, each modification once. */
  ghost predicate ContributionOf(s: Submit, dir: Path, part: seq<Modification>) {
    Distinct(part) && forall m :: m in part <==> Contributed(s, dir, m)
  }

  // ---- walkDir ----

  lemma SubmitChild(s: Submit, dir: Path, x: Path)
    requires ValidDisk(s.disk) && x in Readdir(s.disk, dir)
    ensures var here := Via(SubmittedFiles(s, dir), {x});
            && (Excluded(s, x) ==> here == {})
            && (!Excluded(s, x) && s.disk[x].Leaf? ==> here == {x})
            && (!Excluded(s, x) && s.disk[x].Dir? ==> here == SubmittedFiles(s, x))
  {
    var here := Via(SubmittedFiles(s, dir), {x});
    forall q | q in s.disk && Within(x, q)
      ensures SubmitsFile(s, dir, q) <==> !Excluded(s, x) && (if q == x then s.disk[x].Leaf? else SubmitsFile(s, x, q))
    {
      SubmitStep(s, dir, x, q);
    }
    assert Within(x, x);
    assert forall q :: q in here <==> q in s.disk && SubmitsFile(s, dir, q) && Within(x, q);
  }

  lemma SubmitStep(s: Submit, dir: Path, x: Path, q: Path)
    requires ValidDisk(s.disk) && x in Readdir(s.disk, dir) && q in s.disk && Within(x, q)
    ensures SubmitsFile(s, dir, q) <==> !Excluded(s, x) && (if q == x then s.disk[x].Leaf? else SubmitsFile(s, x, q))
  {
  }

  method WalkDir(s: Submit, dir: Path) returns (paths: seq<Path>)
    requires ValidDisk(s.disk)
    ensures Lists(paths, SubmittedFiles(s, dir))
    decreases LongerThan(s.disk, |dir|), 1
  {
    paths := [];
    var entries := Readdir(s.disk, dir);
    var todo := entries;
    ghost var done: set<Path> := {};
    ghost var all := SubmittedFiles(s, dir);
    while todo != {}
      invariant done + todo == entries && done !! todo
      invariant Lists(paths, Via(all, done))
      decreases todo
    {
      var entry :| entry in todo;
      var more := WalkSubmitEntry(s, dir, entry);
      ViaStep(s.disk, dir, all, done, entry);
      ListsJoin(paths, Via(all, done), more, Via(all, {entry}));
      paths := paths + more;
      todo, done := todo - {entry}, done + {entry};
    }
    assert done == entries;
    ViaAll(s.disk, dir, all);
  }

  method WalkSubmitEntry(s: Submit, dir: Path, entry: Path) returns (paths: seq<Path>)
    requires ValidDisk(s.disk) && entry in Readdir(s.disk, dir)
    ensures Lists(paths, Via(SubmittedFiles(s, dir), {entry}))
    decreases LongerThan(s.disk, |dir|), 0
  {
    SubmitChild(s, dir, entry);
    if InCheckpointDir(entry) {
      return [];
    }
    if Ignores(s.w, s.rules, entry) {
      return [];
    }
    if Hides(s.w, s.rules, entry) {
      return [];
    }
    if s.disk[entry].Dir? {
      assert entry in LongerThan(s.disk, |dir|) && entry !in LongerThan(s.disk, |entry|);
      paths := WalkDir(s, entry);
    } else {
      paths := [entry];
    }
  }

  // ---- Deleted files beneath a directory ----

  method CollectMissing(s: Submit, dir: Path) returns (paths: seq<Path>)
    requires s.state.Some? ==> ValidBaseline(s.state.value.files)
    ensures Distinct(paths) && forall p :: p in paths <==> MissingBaseline(s, dir, p)
  {
    paths := [];
    if s.state.None? {
      return;
    }
    var files := s.state.value.files;
    var todo := files.Keys;
    while todo != {}
      invariant todo <= files.Keys
      invariant Distinct(paths) && forall p :: p in paths <==> MissingBaseline(s, dir, p) && p !in todo
      decreases todo
    {
      var filePath :| filePath in todo;
      var normalized := StripLeadingSlash(filePath);
      assert normalized == filePath by { DropSlashesWellFormed(filePath); }
      if Under(dir, normalized) && !Exists(s, normalized) {
        paths := paths + [normalized];
      }
      todo := todo - {filePath};
    }
  }

  function AsModifications(paths: seq<Path>, delete: bool): (mods: seq<Modification>)
    ensures |mods| == |paths| && forall i :: 0 <= i < |paths| ==> mods[i] == Modification(delete, paths[i], None)
  {
    seq(|paths|, i requires 0 <= i < |paths| => Modification(delete, paths[i], None))
  }

  lemma ContributionParts(s: Submit, dir: Path, files: seq<Path>, missing: seq<Path>)
    requires Lists(files, SubmittedFiles(s, dir))
    requires Distinct(missing) && forall p :: p in missing <==> MissingBaseline(s, dir, p)
    ensures ContributionOf(s, dir, AsModifications(files, false) + AsModifications(missing, true))
  {
    var a, b := AsModifications(files, false), AsModifications(missing, true);
    var part := a + b;
    forall i, j | 0 <= i < j < |part|
      ensures part[i] != part[j]
    {
      assert part[i] == if i < |a| then a[i] else b[i - |a|];
      assert part[j] == if j < |a| then a[j] else b[j - |a|];
    }
    forall m
      ensures m in part <==> Contributed(s, dir, m)
    {
      if m in part {
        var i :| 0 <= i < |part| && part[i] == m;
        if i < |a| {
          assert files[i] in files;
        } else {
          assert missing[i - |a|] in missing;
        }
      }
      if Contributed(s, dir, m) {
        if m.delete {
          assert m.path in missing;
          var i :| 0 <= i < |missing| && missing[i] == m.path;
          assert part[|a| + i] == b[i] == m;
        } else {
          assert m.path in SubmittedFiles(s, dir) && m.path in files;
          var i :| 0 <= i < |files| && files[i] == m.path;
          assert part[i] == a[i] == m;
        }
      }
    }
  }

  // ---- expandDirectoriesForSubmit ----

  const CONCURRENCY := 256

  /** The modifications before index i, classified. */
  ghost predicate Classified(s: Submit, mods: seq<Modification>, i: nat, plain: seq<Modification>, dirs: seq<Path>) {
    i <= |mods| && plain == NonDirectories(s, mods[..i]) && dirs == Directories(s, mods[..i])
  }

  lemma ClassifiedNext(s: Submit, mods: seq<Modification>, i: nat, plain: seq<Modification>, dirs: seq<Path>)
    requires i < |mods| && Classified(s, mods, i, plain, dirs)
    ensures var p := Normalized(mods[i].path);
            if StatIsDirectory(s, p) then Classified(s, mods, i + 1, plain, dirs + [p])
            else Classified(s, mods, i + 1, plain + [mods[i]], dirs)
  {
    SplitAppend(s, mods[..i], mods[i]);
    assert mods[..i] + [mods[i]] == mods[..i + 1];
  }

  /** Classifies the modifications in batches, keeping their order. */
  method Classify(s: Submit, mods: seq<Modification>) returns (plain: seq<Modification>, dirs: seq<Path>)
    ensures plain == NonDirectories(s, mods) && dirs == Directories(s, mods)
  {
    plain, dirs := [], [];
    var i := 0;
    while i < |mods|
      invariant 0 <= i && Classified(s, mods, i, plain, dirs)
    {
      var end := if i + CONCURRENCY < |mods| then i + CONCURRENCY else |mods|;
      for j := i to end
        invariant Classified(s, mods, j, plain, dirs)
      {
        ClassifiedNext(s, mods, j, plain, dirs);
        var normalizedPath := Normalized(mods[j].path);
        if StatIsDirectory(s, normalizedPath) {
          dirs := dirs + [normalizedPath];
        } else {
          plain := plain + [mods[j]];
        }
      }
      i := end;
    }
    assert mods[..|mods|] == mods;
  }

  /** The first n directories, each with its part. */
  ghost predicate Expanded(s: Submit, dirs: seq<Path>, n: nat, parts: seq<seq<Modification>>) {
    |parts| == n <= |dirs| && forall i :: 0 <= i < n ==> ContributionOf(Through(s, dirs[i]), dirs[i], parts[i])
  }

  lemma ExpandedNext(s: Submit, dirs: seq<Path>, n: nat, parts: seq<seq<Modification>>, part: seq<Modification>)
    requires n < |dirs| && Expanded(s, dirs, n, parts) && ContributionOf(Through(s, dirs[n]), dirs[n], part)
    ensures Expanded(s, dirs, n + 1, parts + [part])
  {
  }

  /** result is the non-directories in order, then one part per directory in order. */
  ghost predicate Expansion(s: Submit, mods: seq<Modification>, parts: seq<seq<Modification>>, result: seq<Modification>) {
    Expanded(s, Directories(s, mods), |parts|, parts) && |parts| == |Directories(s, mods)|
    && result == NonDirectories(s, mods) + Flat(parts)
  }

  lemma JoinNext(plain: seq<Modification>, parts: seq<seq<Modification>>, part: seq<Modification>)
    ensures plain + Flat(parts) + part == plain + Flat(parts + [part])
  {
    FlatNext(parts, part);
  }

  /** What one directory adds. */
  method ExpandDirectory(s: Submit, dir: Path) returns (part: seq<Modification>)
    requires ValidSubmit(s)
    ensures ContributionOf(s, dir, part)
  {
    var files := WalkDir(s, dir);
    var missing := CollectMissing(s, dir);
    ContributionParts(s, dir, files, missing);
    part := AsModifications(files, false) + AsModifications(missing, true);
  }

  /** Non-directories pass through once and in order; then each directory contributes its files and deletes. */
  method ExpandDirectoriesForSubmit(s: Submit, mods: seq<Modification>) returns (result: seq<Modification>)
    requires ValidSubmit(s)
    ensures exists parts :: Expansion(s, mods, parts, result)
    ensures ClosedUnderDescendants(s.w) ==> forall m :: m in result <==> Submitted(s, mods, m)
  {
    var plain, dirs := Classify(s, mods);
    ghost var parts: seq<seq<Modification>> := [];
    result := plain;
    for i := 0 to |dirs|
      invariant Expanded(s, dirs, i, parts) && result == plain + Flat(parts)
    {
      var part := ExpandDirectory(Through(s, dirs[i]), dirs[i]);
      ExpandedNext(s, dirs, i, parts, part);
      JoinNext(plain, parts, part);
      result := result + part;
      parts := parts + [part];
    }
    assert Expansion(s, mods, parts, result);
    if ClosedUnderDescendants(s.w) {
      forall m
        ensures m in result <==> Submitted(s, mods, m)
      {
        SubmittedIff(s, mods, parts, result, m);
      }
    }
  }

  // ---- What a submit contains, written out ----

  ghost predicate NamesDirectory(s: Submit, dir: Path) {
    dir == "" || (dir in s.disk && s.disk[dir].Dir?) || dir in s.links
  }

  /** The tree seen at and beneath dir. */
  function TreeAt(s: Submit, dir: Path): Disk {
    if dir in s.links then s.links[dir] else s.disk
  }

  /** A file to add: not a directory, beneath dir, outside `.checkpoint`, neither ignored nor hidden. */
  ghost predicate AddedBeneath(s: Submit, dir: Path, p: Path) {
    var disk := TreeAt(s, dir);
    && p in disk && disk[p].Leaf? && (dir == "" || dir + "/" <= p) && !(".checkpoint" <= p)
    && !s.w.matches([".checkpoint/", ".checkpoint/**"] + Flatten(s.rules.ignored), p) && !s.w.matches(Flatten(s.rules.hidden), p)
  }

  /** A deletion: a baseline path beneath dir that does not exist. Nothing lies beneath the empty path in this sense. */
  ghost predicate DeletedBeneath(s: Submit, dir: Path, p: Path) {
    var disk := TreeAt(s, dir);
    && s.state.Some? && p in s.state.value.files && dir + "/" <= p
    && !(p in disk && (disk[p].Dir? || disk[p].resolves)) && p !in s.linked
  }

  /** What directory dir adds to the submit. */
  ghost predicate FromDirectory(s: Submit, dir: Path, m: Modification) {
    m.oldPath == None && if m.delete then DeletedBeneath(s, dir, m.path) else AddedBeneath(s, dir, m.path)
  }

  /** The submit's modifications: those given that name no directory, and those of each directory given. */
  ghost predicate Submitted(s: Submit, mods: seq<Modification>, m: Modification) {
    || (m in mods && !NamesDirectory(s, Normalized(m.path)))
    || exists d :: d in mods && NamesDirectory(s, Normalized(d.path)) && FromDirectory(s, Normalized(d.path), m)
  }

  lemma ContributedIff(s: Submit, dir: Path, m: Modification)
    requires ValidSubmit(s) && ClosedUnderDescendants(s.w)
    ensures Contributed(Through(s, dir), dir, m) <==> FromDirectory(s, dir, m)
  {
    SubmitsEveryVisibleFile(Through(s, dir), dir, m.path);
    UnderIsStartsWith(dir, m.path);
  }

  lemma {:induction false} NonDirectoriesHold(s: Submit, mods: seq<Modification>, m: Modification)
    ensures m in NonDirectories(s, mods) <==> m in mods && !NamesDirectory(s, Normalized(m.path))
    decreases |mods|
  {
    if mods != [] {
      NonDirectoriesHold(s, mods[1..], m);
      assert m in mods <==> m == mods[0] || m in mods[1..];
    }
  }

  lemma {:induction false} DirectoriesHold(s: Submit, mods: seq<Modification>, dir: Path)
    ensures dir in Directories(s, mods) <==> exists d :: d in mods && Normalized(d.path) == dir && NamesDirectory(s, dir)
    decreases |mods|
  {
    if mods != [] {
      DirectoriesHold(s, mods[1..], dir);
      assert forall d :: d in mods <==> d == mods[0] || d in mods[1..];
    }
  }

  lemma {:induction false} FlatHolds(parts: seq<seq<Modification>>, m: Modification)
    ensures m in Flat(parts) <==> exists i :: 0 <= i < |parts| && m in parts[i]
    decreases |parts|
  {
    if parts != [] {
      var init := parts[..|parts| - 1];
      FlatHolds(init, m);
      if i :| 0 <= i < |parts| && m in parts[i] {
        assert i < |init| ==> init[i] == parts[i];
      }
    }
  }

  /** The result holds a modification exactly when it is given and names no directory, or a given directory contributes it. */
  lemma SubmittedIff(s: Submit, mods: seq<Modification>, parts: seq<seq<Modification>>, result: seq<Modification>, m: Modification)
    requires ValidSubmit(s) && ClosedUnderDescendants(s.w) && Expansion(s, mods, parts, result)
    ensures m in result <==> Submitted(s, mods, m)
  {
    var dirs := Directories(s, mods);
    NonDirectoriesHold(s, mods, m);
    FlatHolds(parts, m);
    if i :| 0 <= i < |parts| && m in parts[i] {
      ContributedIff(s, dirs[i], m);
      DirectoriesHold(s, mods, dirs[i]);
    }
    if d :| d in mods && NamesDirectory(s, Normalized(d.path)) && FromDirectory(s, Normalized(d.path), m) {
      DirectoriesHold(s, mods, Normalized(d.path));
      var i :| 0 <= i < |dirs| && dirs[i] == Normalized(d.path);
      ContributedIff(s, dirs[i], m);
      assert m in parts[i];
    }
  }
}
