/** Directories that hold tracked files, and the topmost untracked ancestor of a path. */
module TrackedDirs {
  import opened Wrappers
  import opened Paths

  /** The directories above a path, ignoring any leading slashes. */
  predicate Above(a: Path, p: Path) {
    Under(a, DropSlashes(p))
  }

  /** Every directory the segment loop names, in order, except the file name itself. */
  function ParentChain(p: string): seq<Path> {
    var parts := Split(p);
    Chain("", parts[..|parts| - 1])
  }

  lemma SplitStep(r: string, n: nat)
    requires n == SegmentEnd(r, 0) < |r|
    ensures Split(r)[..|Split(r)| - 1] == [r[..n]] + Split(r[n + 1..])[..|Split(r[n + 1..])| - 1]
  {
  }

  lemma ChainStep(current: string, part: string, parts: seq<string>)
    ensures var next := if current != "" then current + "/" + part else part;
            Chain(current, [part] + parts) == [next] + Chain(next, parts)
  {
    assert ([part] + parts)[1..] == parts;
  }

  /** Each directory of a chain is strictly longer than the one before it, except for leading empty ones. */
  ghost predicate Lengthening(dirs: seq<Path>) {
    forall i, j :: 0 <= i < j < |dirs| ==> |dirs[i]| < |dirs[j]| || dirs[j] == ""
  }

  lemma LengtheningStep(x: Path, dirs: seq<Path>)
    requires Lengthening(dirs) && forall d :: d in dirs ==> |x| < |d| || d == ""
    ensures Lengthening([x] + dirs)
  {
  }

  /** dirs lists the directories above p that are at least `from` long. */
  ghost predicate ListsFrom(dirs: seq<Path>, p: string, from: nat) {
    && Lengthening(dirs)
    && forall a :: a in dirs <==> Under(a, p) && from <= |a|
  }

  /** Adding the next directory, when no slash lies before it. */
  lemma ListsFromStep(p: string, from: nat, m: nat, below: seq<Path>)
    requires from <= m < |p| && p[m] == '/' && 0 < m
    requires forall k :: from <= k < m ==> p[k] != '/'
    requires ListsFrom(below, p, m + 1)
    ensures ListsFrom([p[..m]] + below, p, from)
  {
  }

  /** The segment loop run on r, starting from a directory already named. */
  function ChainInto(current: Path, r: string): seq<Path> {
    Chain(current, Split(r)[..|Split(r)| - 1])
  }

  lemma ChainIntoStep(current: Path, r: string, n: nat)
    requires current != "" && n == SegmentEnd(r, 0)
    ensures ChainInto(current, r) ==
            if n == |r| then [] else [current + "/" + r[..n]] + ChainInto(current + "/" + r[..n], r[n + 1..])
  {
    if n < |r| {
      SplitStep(r, n);
      ChainStep(current, r[..n], Split(r[n + 1..])[..|Split(r[n + 1..])| - 1]);
    }
  }

  /** The segment between the slash at m and the index k, joined on again. */
  lemma Rejoin(p: string, m: nat, k: nat)
    requires m < k <= |p| && p[m] == '/'
    ensures p[..m] + "/" + p[m + 1..][..k - m - 1] == p[..k]
    ensures k < |p| ==> p[m + 1..][k - m - 1 + 1..] == p[k + 1..]
  {
  }

  /** The directories the segment loop names once `p[..m]` has been named. */
  function Named(p: string, m: nat): seq<Path>
    requires m < |p|
  {
    ChainInto(p[..m], p[m + 1..])
  }

  /** One turn of the loop: the segment after the slash at m ends at k. */
  lemma NamedStep(p: string, m: nat, k: nat)
    requires 0 < m < k <= |p| && p[m] == '/' && k == m + 1 + SegmentEnd(p[m + 1..], 0)
    ensures Named(p, m) == if k == |p| then [] else [p[..k]] + Named(p, k)
  {
    ChainIntoStep(p[..m], p[m + 1..], k - m - 1);
    Rejoin(p, m, k);
  }

  lemma {:induction false} ChainFrom(p: string, m: nat)
    requires 0 < m < |p| && p[m] == '/'
    ensures ListsFrom(Named(p, m), p, m + 1)
    decreases |p| - m
  {
    var k := m + 1 + SegmentEnd(p[m + 1..], 0);
    NamedStep(p, m, k);
    if k == |p| {
      EndOfSegments(p, m + 1);
    } else {
      NoSlashBefore(p, m + 1, k - m - 1);
      ChainFrom(p, k);
      ListsFromStep(p, m + 1, k, Named(p, k));
    }
  }

  lemma NoSlashBefore(p: string, at: nat, n: nat)
    requires at <= |p| && n == SegmentEnd(p[at..], 0)
    ensures forall k :: at <= k < at + n ==> p[k] != '/'
    ensures at + n < |p| ==> p[at + n] == '/'
  {
  }

  lemma EndOfSegments(p: string, at: nat)
    requires at <= |p| && SegmentEnd(p[at..], 0) == |p| - at
    ensures ListsFrom([], p, at)
  {
    NoSlashBefore(p, at, |p| - at);
  }

  lemma {:induction false} ParentChainIsAbove(p: string)
    ensures forall a :: a in ParentChain(p) && a != "" <==> Above(a, p)
    ensures Lengthening(ParentChain(p))
    decreases |p|
  {
    var n := SegmentEnd(p, 0);
    if n == |p| {
      assert ParentChain(p) == [];
      assert DropSlashes(p) == p;
      assert forall k :: 0 <= k < |p| ==> p[k] != '/';
    } else {
      var rest := p[n + 1..];
      SplitStep(p, n);
      ChainStep("", p[..n], Split(rest)[..|Split(rest)| - 1]);
      if n == 0 {
        assert p[..n] == "";
        ParentChainIsAbove(rest);
        assert ParentChain(p) == [""] + ParentChain(rest);
        LengtheningFromRoot(ParentChain(rest));
      } else {
        ParentChainNamed(p, n);
      }
    }
  }

  lemma LengtheningFromRoot(dirs: seq<Path>)
    requires Lengthening(dirs)
    ensures Lengthening([""] + dirs)
  {
    LengtheningStep("", dirs);
  }

  lemma ParentChainNamed(p: string, n: nat)
    requires 0 < n == SegmentEnd(p, 0) < |p|
    ensures forall a :: a in ParentChain(p) && a != "" <==> Above(a, p)
    ensures Lengthening(ParentChain(p))
  {
    var rest := p[n + 1..];
    SplitStep(p, n);
    ChainStep("", p[..n], Split(rest)[..|Split(rest)| - 1]);
    ChainFrom(p, n);
    ListsFromStep(p, 0, n, Named(p, n));
    assert DropSlashes(p) == p;
  }

  /** What `buildTrackedDirSet` promises: the root and every directory above a tracked or marked path. */
  ghost predicate IsTrackedDirSet(dirs: set<Path>, tracked: set<Path>, marked: set<Path>) {
    forall a :: a in dirs <==> a == "" || exists p :: p in tracked + marked && Above(a, p)
  }

  method AddAncestorDirs(dirs: set<Path>, filePath: Path) returns (r: set<Path>)
    requires "" in dirs
    ensures forall a :: a in r <==> a in dirs || Above(a, filePath)
  {
    var stripped := StripLeadingSlash(filePath);
    var parts := Split(stripped);
    parts := parts[..|parts| - 1];
    ghost var chain := Chain("", parts);
    var current := "";
    r := dirs;
    var k := 0;
    while k < |parts|
      invariant 0 <= k <= |parts|
      invariant Chain(current, parts[k..]) == chain[k..]
      invariant forall a :: a in r <==> a in dirs || a in chain[..k]
    {
      assert parts[k..][0] == parts[k] && parts[k..][1..] == parts[k + 1..];
      current := if current != "" then current + "/" + parts[k] else parts[k];
      assert chain[k..][0] == current && chain[k..][1..] == chain[k + 1..];
      r := r + {current};
      k := k + 1;
    }
    assert chain[..k] == chain == ParentChain(stripped);
    ParentChainIsAbove(stripped);
    assert DropSlashes(stripped) == DropSlashes(filePath);
    ParentChainIsAbove(filePath);
  }

  method BuildTrackedDirSet(files: set<Path>, markedForAdd: set<Path>) returns (dirs: set<Path>)
    ensures IsTrackedDirSet(dirs, files, markedForAdd)
  {
    dirs := {""};
    var todo := files;
    while todo != {}
      invariant todo <= files
      invariant forall a :: a in dirs <==> a == "" || exists p :: p in files - todo && Above(a, p)
      decreases todo
    {
      var filePath :| filePath in todo;
      dirs := AddAncestorDirs(dirs, filePath);
      assert files - (todo - {filePath}) == (files - todo) + {filePath};
      todo := todo - {filePath};
    }
    assert files - todo == files;
    todo := markedForAdd;
    while todo != {}
      invariant todo <= markedForAdd
      invariant forall a :: a in dirs <==> a == "" || exists p :: p in files + (markedForAdd - todo) && Above(a, p)
      decreases todo
    {
      var filePath :| filePath in todo;
      dirs := AddAncestorDirs(dirs, filePath);
      assert files + (markedForAdd - (todo - {filePath})) == (files + (markedForAdd - todo)) + {filePath};
      todo := todo - {filePath};
    }
    assert files + (markedForAdd - todo) == files + markedForAdd;
  }

  /** A directory set containing every directory above each of its members. */
  ghost predicate ParentClosed(dirs: set<Path>) {
    && "" in dirs
    && forall a, d :: d in dirs && Under(a, d) ==> a in dirs
  }

  lemma TrackedDirSetParentClosed(dirs: set<Path>, tracked: set<Path>, marked: set<Path>)
    requires IsTrackedDirSet(dirs, tracked, marked)
    ensures ParentClosed(dirs)
  {
  }

  /** The value of the tracked-directory set: unique, so a cached copy can be compared with it. */
  ghost function TrackedDirSet(tracked: set<Path>, marked: set<Path>): (dirs: set<Path>)
    ensures IsTrackedDirSet(dirs, tracked, marked)
    ensures ParentClosed(dirs)
  {
    var dirs := {""} + set p, i | p in tracked + marked && 0 <= i < |DropSlashes(p)| && DropSlashes(p)[i] == '/' :: DropSlashes(p)[..i];
    assert IsTrackedDirSet(dirs, tracked, marked) by {
      forall a, p | p in tracked + marked && Above(a, p)
        ensures a in dirs
      {
        var q, i := DropSlashes(p), |a|;
        assert q[i] == '/' && q[..i] == a;
      }
      forall a | a in dirs && a != ""
        ensures exists p :: p in tracked + marked && Above(a, p)
      {
        var p, i :| p in tracked + marked && 0 <= i < |DropSlashes(p)| && DropSlashes(p)[i] == '/' && DropSlashes(p)[..i] == a;
        assert Above(a, p);
      }
    }
    TrackedDirSetParentClosed(dirs, tracked, marked);
    dirs
  }

  // ---- findTopmostUntrackedDir ----

  /** No directory above p is untracked. */
  ghost predicate AllTrackedAbove(p: Path, dirs: set<Path>) {
    forall a :: Under(a, p) ==> a in dirs
  }

  /** d is the highest untracked directory above p. */
  ghost predicate IsTopmostUntracked(d: Path, p: Path, dirs: set<Path>) {
    Under(d, p) && d !in dirs && AllTrackedAbove(d, dirs)
  }

  lemma TopmostUnique(d: Path, e: Path, p: Path, dirs: set<Path>)
    requires IsTopmostUntracked(d, p, dirs) && IsTopmostUntracked(e, p, dirs)
    ensures d == e
  {
    UnderLinear(d, e, p);
  }

  /** The first directory of the chain that is not tracked is the topmost untracked one. */
  lemma FirstUntracked(p: string, i: nat, dirs: set<Path>)
    requires "" in dirs && i < |ParentChain(p)| && ParentChain(p)[i] !in dirs
    requires forall j :: 0 <= j < i ==> ParentChain(p)[j] in dirs
    ensures IsTopmostUntracked(ParentChain(p)[i], DropSlashes(p), dirs)
  {
    var chain := ParentChain(p);
    var d := chain[i];
    ParentChainIsAbove(p);
    assert d in chain && Above(d, p);
    forall a | Under(a, d)
      ensures a in dirs
    {
      UnderTransitive(a, d, DropSlashes(p));
      assert Above(a, p);
      if a != "" {
        var j :| 0 <= j < |chain| && chain[j] == a;
        assert j < i;
      }
    }
  }

  lemma WholeChainTracked(p: string, dirs: set<Path>)
    requires "" in dirs && forall d :: d in ParentChain(p) ==> d in dirs
    ensures AllTrackedAbove(DropSlashes(p), dirs)
  {
    ParentChainIsAbove(p);
    forall a | Under(a, DropSlashes(p))
      ensures a in dirs
    {
      assert Above(a, p);
    }
  }

  /** One turn of the segment loop along its chain. */
  lemma ChainTurn(current: Path, parts: seq<string>, i: nat, chain: seq<Path>)
    requires i < |parts| && |chain| == |parts| && Chain(current, parts[i..]) == chain[i..]
    ensures var next := if current != "" then current + "/" + parts[i] else parts[i];
            chain[i] == next && Chain(next, parts[i + 1..]) == chain[i + 1..]
  {
    assert parts[i..] == [parts[i]] + parts[i + 1..];
    ChainStep(current, parts[i], parts[i + 1..]);
    var next := if current != "" then current + "/" + parts[i] else parts[i];
    assert chain[i..][0] == chain[i] && chain[i..][1..] == chain[i + 1..];
    assert ([next] + Chain(next, parts[i + 1..]))[1..] == Chain(next, parts[i + 1..]);
  }

  method FindTopmostUntrackedDir(relativePath: Path, dirs: set<Path>) returns (r: Option<Path>)
    requires "" in dirs
    ensures r.None? <==> AllTrackedAbove(DropSlashes(relativePath), dirs)
    ensures r.Some? ==> IsTopmostUntracked(r.value, DropSlashes(relativePath), dirs)
  {
    var parts := Split(relativePath);
    parts := parts[..|parts| - 1];
    ghost var chain := ParentChain(relativePath);
    assert parts[0..] == parts && chain[0..] == chain;
    var current := "";
    var i := 0;
    while i < |parts|
      invariant 0 <= i <= |parts| == |chain| && Chain(current, parts[i..]) == chain[i..]
      invariant forall j :: 0 <= j < i ==> chain[j] in dirs
    {
      ChainTurn(current, parts, i, chain);
      current := if current != "" then current + "/" + parts[i] else parts[i];
      if current !in dirs {
        FirstUntracked(relativePath, i, dirs);
        return Some(current);
      }
      i := i + 1;
    }
    WholeChainTracked(relativePath, dirs);
    r := None;
  }

  /** The topmost untracked directory as a value, for use in specifications. */
  ghost function TopmostUntracked(p: Path, dirs: set<Path>): (r: Option<Path>)
    ensures r.None? <==> AllTrackedAbove(p, dirs)
    ensures r.Some? ==> IsTopmostUntracked(r.value, p, dirs)
  {
    TopmostExists(p, dirs, |p|);
    if AllTrackedAbove(p, dirs) then None
    else var d :| IsTopmostUntracked(d, p, dirs); Some(d)
  }

  lemma {:induction false} TopmostExists(p: Path, dirs: set<Path>, n: nat)
    ensures (exists d :: IsTopmostUntracked(d, p, dirs))
         || (forall a :: Under(a, p) && |a| < n ==> a in dirs)
    decreases n
  {
    if n > 0 {
      TopmostExists(p, dirs, n - 1);
      if forall a :: Under(a, p) && |a| < n - 1 ==> a in dirs {
        if d :| Under(d, p) && |d| == n - 1 && d !in dirs {
          forall a | Under(a, d)
            ensures a in dirs
          {
            UnderTransitive(a, d, p);
          }
          assert IsTopmostUntracked(d, p, dirs);
        }
      }
    }
  }
}
