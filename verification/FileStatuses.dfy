/** `getFileStatus` and its batch form, which test pending changes and ignore rules in different orders. */
module FileStatuses {
  import opened Wrappers
  import opened Paths
  import opened Workspace
  import opened FullRefresh

  datatype Query = Query(relativePath: Path, existsOnDisk: bool, isDirectory: bool)

  datatype StatusResult = StatusResult(status: FileStatus, fileId: Option<FileId>, changelist: Option<int>)

  /** What both forms read; writable answers the access check. */
  datatype Sources = Sources(w: World, rules: Patterns, state: Option<WorkspaceState>, pending: Option<Files>, writable: Path -> bool)

  function StateFile(s: Sources, p: Path): Option<BaselineFile> {
    if s.state.Some? then Get(s.state.value.files, p) else None
  }

  function PendingFile(s: Sources, p: Path): Option<File> {
    if s.pending.Some? then Get(s.pending.value, p) else None
  }

  function IdOf(b: Option<BaselineFile>): Option<FileId> {
    if b.Some? then Some(b.value.fileId) else None
  }

  function ChangelistOf(b: Option<BaselineFile>): Option<int> {
    if b.Some? then Some(b.value.changelist) else None
  }

  /** The rungs both forms share, below pending changes and ignore rules. */
  function Controlled(s: Sources, q: Query): StatusResult {
    var b := StateFile(s, q.relativePath);
    if b.Some? then
      StatusResult(if !q.existsOnDisk then Unknown
                   else if s.writable(q.relativePath) then WritableControlled
                   else ReadOnlyControlled, IdOf(b), ChangelistOf(b))
    else StatusResult(if q.existsOnDisk then Local else Unknown, None, None)
  }

  /** Pending changes first, then ignore rules. */
  function GetFileStatus(s: Sources, q: Query): StatusResult {
    var p := q.relativePath;
    if q.isDirectory then StatusResult(Unknown, None, None)
    else if PendingFile(s, p).Some? then
      var f := PendingFile(s, p).value;
      StatusResult(f.status, f.id, f.changelist)
    else if Ignores(s.w, s.rules, p) then StatusResult(Ignored, None, None)
    else if Hides(s.w, s.rules, p) then StatusResult(HiddenChanges, IdOf(StateFile(s, p)), ChangelistOf(StateFile(s, p)))
    else Controlled(s, q)
  }

  /** The batch form gives q the status the single form does. */
  ghost predicate SameStatus(s: Sources, q: Query) {
    BatchStatus(s, q) == GetFileStatus(s, q)
  }

  /** Ignore rules first, then pending changes. */
  function BatchStatus(s: Sources, q: Query): StatusResult {
    var p := q.relativePath;
    if q.isDirectory then StatusResult(Unknown, None, None)
    else if Ignores(s.w, s.rules, p) then StatusResult(Ignored, None, None)
    else if Hides(s.w, s.rules, p) then StatusResult(HiddenChanges, IdOf(StateFile(s, p)), ChangelistOf(StateFile(s, p)))
    else if PendingFile(s, p).Some? then
      var f := PendingFile(s, p).value;
      StatusResult(f.status, f.id, f.changelist)
    else Controlled(s, q)
  }

  // ---- The answers written out ----

  ghost predicate IgnoredPath(s: Sources, p: Path) {
    s.w.matches([".checkpoint/", ".checkpoint/**"] + Flatten(s.rules.ignored), p)
  }

  ghost predicate HiddenPath(s: Sources, p: Path) {
    s.w.matches(Flatten(s.rules.hidden), p)
  }

  ghost predicate IsPending(s: Sources, p: Path) {
    s.pending.Some? && p in s.pending.value
  }

  ghost predicate InBaseline(s: Sources, p: Path) {
    s.state.Some? && p in s.state.value.files
  }

  /** Which of its rungs answers a query: at most one does, and none for a directory or a path that is none of these. */
  datatype Rung = Rung(pending: bool, ignored: bool, hidden: bool)

  /** Which status is answered, each exactly when, and the id and changelist with it. */
  ghost predicate AnswerLaw(s: Sources, q: Query, rung: Rung, r: StatusResult)
    requires rung.pending ==> IsPending(s, q.relativePath)
  {
    var p := q.relativePath;
    var other := !q.isDirectory && !rung.pending && !rung.ignored && !rung.hidden;
    && (r.status == WritableControlled <==>
          (other && InBaseline(s, p) && q.existsOnDisk && s.writable(p)) || (rung.pending && s.pending.value[p].status == WritableControlled))
    && (r.status == ReadOnlyControlled <==>
          (other && InBaseline(s, p) && q.existsOnDisk && !s.writable(p)) || (rung.pending && s.pending.value[p].status == ReadOnlyControlled))
    && (r.status == Local <==>
          (other && !InBaseline(s, p) && q.existsOnDisk) || (rung.pending && s.pending.value[p].status == Local))
    && (r.status == Unknown <==>
          q.isDirectory || (other && !q.existsOnDisk) || (rung.pending && s.pending.value[p].status == Unknown))
    && (r.status == Ignored <==> rung.ignored || (rung.pending && s.pending.value[p].status == Ignored))
    && (r.status == HiddenChanges <==> rung.hidden || (rung.pending && s.pending.value[p].status == HiddenChanges))
    && (rung.pending ==> r == StatusResult(s.pending.value[p].status, s.pending.value[p].id, s.pending.value[p].changelist))
    && (!rung.pending ==>
          var known := !q.isDirectory && !rung.ignored && InBaseline(s, p);
          && r.fileId == (if known then Some(s.state.value.files[p].fileId) else None)
          && r.changelist == (if known then Some(s.state.value.files[p].changelist) else None))
  }

  /** The single form looks at pending changes first. */
  ghost predicate SingleLaw(s: Sources, q: Query, r: StatusResult) {
    var p := q.relativePath;
    var pending := !q.isDirectory && IsPending(s, p);
    var ignored := !q.isDirectory && !pending && IgnoredPath(s, p);
    AnswerLaw(s, q, Rung(pending, ignored, !q.isDirectory && !pending && !ignored && HiddenPath(s, p)), r)
  }

  /** The batch form looks at the ignore rules first. */
  ghost predicate BatchLaw(s: Sources, q: Query, r: StatusResult) {
    var p := q.relativePath;
    var ignored := !q.isDirectory && IgnoredPath(s, p);
    var hidden := !q.isDirectory && !ignored && HiddenPath(s, p);
    AnswerLaw(s, q, Rung(!q.isDirectory && !ignored && !hidden && IsPending(s, p), ignored, hidden), r)
  }

  lemma SingleAnswers(s: Sources, q: Query)
    ensures SingleLaw(s, q, GetFileStatus(s, q))
  {
  }

  lemma BatchAnswers(s: Sources, q: Query)
    ensures BatchLaw(s, q, BatchStatus(s, q))
  {
  }

  /** i is the last query for path p. */
  ghost predicate LastFor(files: seq<Query>, i: nat, p: Path) {
    && i < |files| && files[i].relativePath == p
    && forall j :: i < j < |files| ==> files[j].relativePath != p
  }

  /** One result per queried path: that of its last query. */
  method GetFileStatuses(s: Sources, files: seq<Query>) returns (results: map<Path, StatusResult>)
    ensures forall p :: p in results <==> exists i :: 0 <= i < |files| && files[i].relativePath == p
    ensures forall i: nat, p :: LastFor(files, i, p) ==> p in results && results[p] == BatchStatus(s, files[i])
    ensures forall i: nat, p :: LastFor(files, i, p) ==> BatchLaw(s, files[i], results[p])
  {
    results := map[];
    for n := 0 to |files|
      invariant forall p :: p in results <==> exists i :: 0 <= i < n && files[i].relativePath == p
      invariant forall i: nat, p :: LastFor(files[..n], i, p) ==> p in results && results[p] == BatchStatus(s, files[i])
    {
      var q := files[n];
      var p := q.relativePath;
      ghost var before := results;
      results := results[p := StatusResult(Unknown, None, None)];
      if q.isDirectory {
      } else if Ignores(s.w, s.rules, p) {
        results := results[p := StatusResult(Ignored, None, None)];
      } else if Hides(s.w, s.rules, p) {
        results := results[p := StatusResult(HiddenChanges, IdOf(StateFile(s, p)), ChangelistOf(StateFile(s, p)))];
      } else if PendingFile(s, p).Some? {
        var pending := PendingFile(s, p).value;
        results := results[p := StatusResult(pending.status, pending.id, pending.changelist)];
      } else {
        results := results[p := Controlled(s, q)];
      }
      assert results == before[p := BatchStatus(s, q)];
      forall i: nat, r | LastFor(files[..n + 1], i, r)
        ensures r in results && results[r] == BatchStatus(s, files[i])
      {
        if i < n {
          assert files[..n + 1][n] == q;
          assert LastFor(files[..n], i, r);
        }
      }
    }
    assert files[..|files|] == files;
    forall i: nat, p | LastFor(files, i, p)
      ensures BatchLaw(s, files[i], results[p])
    {
      BatchAnswers(s, files[i]);
    }
  }

  // ---- When the two orders agree ----

  /** Pending maps never hold the two statuses that ignore rules produce. */
  ghost predicate PendingStatuses(files: Files) {
    forall p :: p in files ==> !files[p].status.Ignored? && !files[p].status.HiddenChanges?
  }

  /** The two forms agree on a query exactly when no pending entry stands at an ignored or hidden file. */
  lemma OrdersAgreeIff(s: Sources, q: Query)
    requires s.pending.Some? ==> PendingStatuses(s.pending.value)
    ensures SameStatus(s, q) <==>
            q.isDirectory || PendingFile(s, q.relativePath).None? || !Skips(s.w, s.rules, q.relativePath)
  {
    assert PendingFile(s, q.relativePath).Some? ==> q.relativePath in s.pending.value;
  }

  lemma FullPendingStatuses(c: Context, disk: Disk, base: Baseline)
    ensures PendingStatuses(FullFiles(c, disk, base))
  {
  }

  /** A full refresh reports an ignored or hidden path exactly when it is a baseline path. */
  lemma FullReportsSkippedIff(c: Context, disk: Disk, base: Baseline, p: Path)
    requires Skipped(c, p)
    ensures p in FullFiles(c, disk, base) <==> p in base
  {
    assert Get(FullFiles(c, disk, base), p) == FullAt(c, disk, base, p);
  }

  /** With the pending map of a full refresh under the same rules, the batch form agrees with the single form on
      every query exactly when no baseline path is ignored or hidden. */
  lemma BatchAgreesWithSingleIff(s: Sources, c: Context, disk: Disk, base: Baseline)
    requires s.w == c.w && s.rules == c.rules && s.pending == Some(FullFiles(c, disk, base))
    ensures (forall q :: SameStatus(s, q)) <==> (forall p :: p in base ==> !Skipped(c, p))
  {
    FullPendingStatuses(c, disk, base);
    forall q
      ensures SameStatus(s, q) <==> q.isDirectory || q.relativePath !in base || !Skipped(c, q.relativePath)
    {
      OrdersAgreeIff(s, q);
      if Skipped(c, q.relativePath) {
        FullReportsSkippedIff(c, disk, base, q.relativePath);
      }
    }
    if p :| p in base && Skipped(c, p) {
      assert !SameStatus(s, Query(p, true, false));
    }
  }
}
