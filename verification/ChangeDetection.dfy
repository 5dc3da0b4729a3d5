/** `detectFileChange`: the verdict on one file, and the deferred-hash baseline update. */
module ChangeDetection {
  import opened Wrappers
  import opened Paths
  import opened Workspace

  /** Same size but another mtime: only the content decides. */
  predicate NeedsHash(b: BaselineFile, n: Node)
    requires n.Leaf?
  {
    n.size == b.size && b.mtime != 0 && n.mtime != b.mtime
  }

  /** The content of n is known to differ from the baseline. */
  predicate Changed(w: World, b: BaselineFile, n: Node)
    requires n.Leaf?
  {
    n.size != b.size || (NeedsHash(b, n) && b.md5 != "" && w.hash(n.content) != b.md5)
  }

  /** The baseline after looking at n: a deferred hash is filled in from the content seen. */
  function Settle(w: World, b: BaselineFile, n: Node): BaselineFile
    requires n.Leaf?
  {
    if NeedsHash(b, n) && b.md5 == "" then b.(md5 := w.hash(n.content), mtime := n.mtime) else b
  }

  predicate CheckedOut(checkouts: seq<FileId>, b: BaselineFile) {
    b.fileId in checkouts
  }

  function ChangedStatus(c: Context, p: Path, b: BaselineFile, n: Node): FileStatus
    requires n.Leaf?
  {
    if !c.w.binary(p) && c.w.conflictMarkers(n.content) then MergeConflict
    else if CheckedOut(c.checkouts, b) then ChangedCheckedOut
    else ChangedNotCheckedOut
  }

  /** The pending entry of a file present on disk, or None when it is unchanged. */
  function Detected(c: Context, p: Path, n: Node, b: Option<BaselineFile>): Option<File>
    requires n.Leaf?
  {
    match b
    case None => Some(File(p, StatType(n), n.size, n.mtime, if p in c.marks then Added else Local, None, None))
    case Some(base) =>
      if Changed(c.w, base, n)
      then Some(File(p, StatType(n), n.size, n.mtime, ChangedStatus(c, p, base, n), Some(base.fileId), Some(base.changelist)))
      else None
  }

  method DetectFileChange(c: Context, p: Path, n: Node, baselineFile: Option<BaselineFile>)
    returns (pending: Option<File>, updated: Option<BaselineFile>)
    requires n.Leaf?
    ensures pending == Detected(c, p, n, baselineFile)
    ensures updated == match baselineFile case None => None case Some(b) => Some(Settle(c.w, b, n))
  {
    updated := baselineFile;
    var hasChanged := false;
    var needsHashCheck := false;
    if baselineFile.None? {
      hasChanged := true;
    } else if n.size != baselineFile.value.size {
      hasChanged := true;
    } else if baselineFile.value.mtime != 0 && n.mtime != baselineFile.value.mtime {
      needsHashCheck := true;
    }
    if needsHashCheck && baselineFile.Some? {
      if baselineFile.value.md5 == "" {
        updated := Some(baselineFile.value.(md5 := c.w.hash(n.content), mtime := n.mtime));
      } else {
        var currentHash := c.w.hash(n.content);
        hasChanged := currentHash != baselineFile.value.md5;
      }
    }
    if !hasChanged {
      return None, updated;
    }
    var isCheckedOut := baselineFile.Some? && updated.value.fileId in c.checkouts;
    var status;
    if baselineFile.None? {
      status := if p in c.marks then Added else Local;
    } else if !c.w.binary(p) {
      if c.w.conflictMarkers(n.content) {
        status := MergeConflict;
      } else {
        status := if isCheckedOut then ChangedCheckedOut else ChangedNotCheckedOut;
      }
    } else {
      status := if isCheckedOut then ChangedCheckedOut else ChangedNotCheckedOut;
    }
    pending := Some(File(p, if n.kind.Symlink? then SymlinkType else Binary, n.size, n.mtime, status,
                         if updated.Some? then Some(updated.value.fileId) else None,
                         if updated.Some? then Some(updated.value.changelist) else None));
  }

  /** Filling in a deferred hash never changes the verdict on the content it was taken from,
      and a second look at that content changes nothing more. */
  lemma SettleKeepsVerdict(c: Context, p: Path, n: Node, b: BaselineFile)
    requires n.Leaf?
    ensures Detected(c, p, n, Some(Settle(c.w, b, n))) == Detected(c, p, n, Some(b))
    ensures Settle(c.w, Settle(c.w, b, n), n) == Settle(c.w, b, n)
  {
  }

  /** Once settled, later content of the same size and another mtime is reported exactly when its hash differs. */
  lemma SettledDetectsLaterEdits(c: Context, p: Path, n: Node, later: Node, b: BaselineFile)
    requires n.Leaf? && later.Leaf? && NeedsHash(b, n) && b.md5 == "" && c.w.hash(n.content) != ""
    requires later.size == b.size && later.mtime != n.mtime && n.mtime != 0
    ensures Detected(c, p, later, Some(Settle(c.w, b, n))).Some? <==> c.w.hash(later.content) != c.w.hash(n.content)
  {
  }

  ghost predicate Injective(w: World) {
    forall a, b :: w.hash(a) == w.hash(b) ==> a == b
  }

  /** b stands for the given content; its hash may still be deferred, as it is after a pull or a submit. */
  ghost predicate Describes(w: World, b: BaselineFile, content: Content) {
    b.size == |content| && (b.md5 == "" || b.md5 == w.hash(content))
  }

  /** Unchanged content is never reported. Changed content is reported exactly when its size differs, or the baseline
      has both an mtime that the file's differs from and a hash. */
  lemma DetectsContentChangeIff(c: Context, p: Path, n: Node, b: BaselineFile, content: Content)
    requires n.Leaf? && n.size == |n.content| && Describes(c.w, b, content) && Injective(c.w)
    ensures n.content == content ==> Detected(c, p, n, Some(b)).None?
    ensures n.content != content ==>
              (Detected(c, p, n, Some(b)).Some? <==> n.size != b.size || (b.mtime != 0 && n.mtime != b.mtime && b.md5 != ""))
  {
    assert c.w.hash(n.content) == c.w.hash(content) ==> n.content == content;
  }
}
