/** File statuses computed from the pending maps the daemon's runs can reach. */
module StatusRuns {
  import opened Wrappers
  import opened Paths
  import opened Workspace
  import opened DirectoryWalk
  import FullRefresh
  import opened IncrementalRefresh
  import opened Agreement
  import opened DaemonRuns
  import opened FileStatuses

  /** Only baseline paths have an entry although they are ignored or hidden. */
  ghost predicate SkippedAreBaseline(c: Context, base: Baseline, files: Files) {
    forall p :: p in files && Skipped(c, p) ==> p in base
  }

  lemma FullSkipped(c: Context, disk: Disk, base: Baseline)
    ensures SkippedAreBaseline(c, base, FullRefresh.FullFiles(c, disk, base)) && PendingStatuses(FullRefresh.FullFiles(c, disk, base))
  {
    FullPendingStatuses(c, disk, base);
    forall p | Skipped(c, p)
      ensures p in FullRefresh.FullFiles(c, disk, base) ==> p in base
    {
      FullReportsSkippedIff(c, disk, base, p);
    }
  }

  lemma PatchedSkipped(c: Context, disk: Disk, base: Baseline, cached: Files, done: set<Path>)
    requires ValidDisk(disk) && ValidContext(c) && SkippedAreBaseline(c, base, cached) && PendingStatuses(cached)
    ensures SkippedAreBaseline(c, base, PatchedFiles(c, disk, base, cached, done))
    ensures PendingStatuses(PatchedFiles(c, disk, base, cached, done))
  {
    var files := PatchedFiles(c, disk, base, cached, done);
    forall p | p in files
      ensures Skipped(c, p) ==> p in base
      ensures !files[p].status.Ignored? && !files[p].status.HiddenChanges?
    {
      assert Get(files, p) == PatchedAt(c, disk, base, cached, done, p);
      if q :| q in done && Lifts(c, disk, base, q, p) {
        LiftedDir(c, disk, base, q, p);
      }
    }
  }

  lemma CheckoutsSkipped(c: Context, disk: Disk, base: Baseline, files: Files)
    requires SkippedAreBaseline(c, base, files) && PendingStatuses(files)
    ensures SkippedAreBaseline(c, base, WithCheckouts(c, disk, base, files)) && PendingStatuses(WithCheckouts(c, disk, base, files))
  {
    var result := WithCheckouts(c, disk, base, files);
    forall p | p in result
      ensures Skipped(c, p) ==> p in base
      ensures !result[p].status.Ignored? && !result[p].status.HiddenChanges?
    {
      assert Get(result, p) == FullRefresh.WithCheckoutAt(disk, base, FullRefresh.ChangedIds(files), c.checkouts, files, p);
    }
  }

  lemma IncrementalSkipped(c: Context, disk: Disk, base: Baseline, cached: Files, dirty: set<Path>)
    requires ValidDisk(disk) && ValidContext(c) && Sane(c, base, cached) && SkippedAreBaseline(c, base, cached) && PendingStatuses(cached)
    ensures SkippedAreBaseline(c, base, IncrementalFiles(c, disk, base, cached, dirty))
    ensures PendingStatuses(IncrementalFiles(c, disk, base, cached, dirty))
  {
    var expanded := ExpandedSet(dirty, base, cached);
    PatchedSane(c, disk, base, cached, expanded);
    SaneStaysFresh(c, base, PatchedFiles(c, disk, base, cached, expanded));
    PatchedSkipped(c, disk, base, cached, expanded);
    CheckoutsSkipped(c, disk, base, PatchedFiles(c, disk, base, cached, expanded));
  }

  /** What every cached map satisfies; about ignored paths only while no ignore file is dirty. */
  ghost predicate StatusInv(cfg: Config, s: Daemon) {
    s.state.Some? && s.pending.Some? ==>
      && PendingStatuses(s.pending.value.files)
      && ((s.dirty.Some? && HasIgnoreFile(s.dirty.value)) || SkippedAreBaseline(ContextOf(cfg, s), s.state.value.files, s.pending.value.files))
  }

  lemma SameFilesSkipped(c: Context, base: Baseline, settled: Baseline, files: Files)
    requires SameFiles(base, settled)
    ensures SkippedAreBaseline(c, settled, files) <==> SkippedAreBaseline(c, base, files)
  {
    assert forall p :: p in settled.Keys <==> p in base.Keys;
  }

  lemma FullKeepsStatuses(cfg: Config, s: Daemon)
    requires Ready(cfg, s)
    ensures StatusInv(cfg, AfterFull(cfg, s))
  {
    var c, base := ContextOf(cfg, s), s.state.value.files;
    var settled := FullRefresh.SettledByFull(c, s.disk, base);
    FullSkipped(c, s.disk, base);
    FullRefresh.SettledValid(c, s.disk, base);
    SameFilesSkipped(c, base, settled, FullRefresh.FullFiles(c, s.disk, base));
    ContextAfterSettling(cfg, s, FullPending(c, s.disk, base), settled);
  }

  lemma IncrementalKeepsStatuses(cfg: Config, s: Daemon)
    requires Ready(cfg, s) && s.pending.Some? && StatusInv(cfg, s)
    ensures StatusInv(cfg, AfterIncremental(cfg, s))
  {
    var c, base, cached := ContextOf(cfg, s), s.state.value.files, s.pending.value.files;
    ContextValid(cfg, s);
    IncrementalWellFormed(cfg, s);
    IncrementalSkipped(c, s.disk, base, cached, s.dirty.value);
    SameFilesSkipped(c, base, SettledByIncremental(c, s.disk, base, cached, s.dirty.value),
                     IncrementalFiles(c, s.disk, base, cached, s.dirty.value));
  }

  lemma WatchKeepsStatuses(cfg: Config, s: Daemon, p: Path)
    requires Inv(cfg, s) && StatusInv(cfg, s)
    ensures StatusInv(cfg, Step(cfg, s, Watch(p)))
  {
    var t := Step(cfg, s, Watch(p));
    if s.state.Some? && t.pending.Some? && !HasIgnoreFile(t.dirty.value) {
      assert forall d :: d in s.dirty.value ==> d in t.dirty.value;
      assert ContextOf(cfg, t) == ContextOf(cfg, s);
    }
  }

  lemma EndKeepsStatuses(cfg: Config, s: Daemon, order: seq<Path>)
    requires Inv(cfg, s) && Legal(cfg, s, EndVcs(order)) && StatusInv(cfg, s)
    ensures StatusInv(cfg, Step(cfg, s, EndVcs(order)))
  {
    var t := Step(cfg, s, EndVcs(order));
    if s.state.Some? && s.pending.Some? && !HasIgnoreFile(t.dirty.value) {
      assert forall p :: p in s.dirty.value ==> p in t.dirty.value;
      assert s.buffered.Some? ==> forall p :: p in s.buffered.value ==> p in t.dirty.value;
      NonEmptyHasMember(order);
      assert order == [];
      assert ContextOf(cfg, t) == ContextOf(cfg, s);
    }
  }

  lemma StepKeepsStatuses(cfg: Config, s: Daemon, e: Event)
    requires Inv(cfg, s) && Legal(cfg, s, e) && StatusInv(cfg, s)
    ensures StatusInv(cfg, Step(cfg, s, e))
  {
    match e
    case RefreshCall(force, loaded, order) =>
      var ready := Prepared(cfg, s, loaded, order);
      PreparedReady(cfg, s, loaded, order);
      if FastPath(ready, force) {
      } else if IncrementalPath(ready, force) {
        IncrementalKeepsStatuses(cfg, ready);
      } else {
        FullKeepsStatuses(cfg, ready);
      }
    case Rescan(rules, loaded, order) =>
      RescanIsForced(cfg, s, rules, loaded, order);
      RescanFrom(cfg, s, rules, loaded, order);
      var from := s.(rules := Some(rules), pending := None);
      PreparedReady(cfg, from, loaded, order);
      FullKeepsStatuses(cfg, Prepared(cfg, from, loaded, order));
    case Watch(p) => WatchKeepsStatuses(cfg, s, p);
    case EndVcs(order) => EndKeepsStatuses(cfg, s, order);
    case _ =>
  }

  lemma {:induction false} RunKeepsStatuses(cfg: Config, s: Daemon, events: seq<Event>)
    requires Inv(cfg, s) && StatusInv(cfg, s) && LegalRun(cfg, s, events)
    ensures StatusInv(cfg, Run(cfg, s, events)) && Inv(cfg, Run(cfg, s, events))
    decreases |events|
  {
    if events != [] {
      StepKeepsStatuses(cfg, s, events[0]);
      StepKeepsInv(cfg, s, events[0]);
      RunKeepsStatuses(cfg, Step(cfg, s, events[0]), events[1..]);
    }
  }

  /** What both status forms read in a state with a cached map. */
  function SourcesOf(cfg: Config, s: Daemon, writable: Path -> bool): Sources
    requires s.state.Some? && s.pending.Some?
  {
    Sources(cfg.w, RulesOf(s), s.state, Some(s.pending.value.files), writable)
  }

  /** With any map a run can have cached while no ignore file is dirty, the single and the batch form agree on every
      query exactly when no ignored or hidden baseline path has an entry. */
  lemma ReachableStatusesAgreeIff(cfg: Config, s: Daemon, events: seq<Event>, writable: Path -> bool)
    requires ValidConfig(cfg) && ValidDisk(s.disk) && Initial(s) && LegalRun(cfg, s, events)
    requires var t := Run(cfg, s, events); t.state.Some? && t.pending.Some? && t.dirty.Some? && !HasIgnoreFile(t.dirty.value)
    ensures var t := Run(cfg, s, events);
            (forall q :: SameStatus(SourcesOf(cfg, t, writable), q)) <==>
            (forall p :: p in t.state.value.files && p in t.pending.value.files ==> !Skipped(ContextOf(cfg, t), p))
  {
    RunKeepsStatuses(cfg, s, events);
    StatusesAgreeIff(cfg, Run(cfg, s, events), writable);
  }

  lemma StatusesAgreeIff(cfg: Config, t: Daemon, writable: Path -> bool)
    requires StatusInv(cfg, t) && t.state.Some? && t.pending.Some? && t.dirty.Some? && !HasIgnoreFile(t.dirty.value)
    ensures (forall q :: SameStatus(SourcesOf(cfg, t, writable), q)) <==>
            (forall p :: p in t.state.value.files && p in t.pending.value.files ==> !Skipped(ContextOf(cfg, t), p))
  {
    var src, files := SourcesOf(cfg, t, writable), t.pending.value.files;
    forall q
      ensures SameStatus(src, q) <==> q.isDirectory || q.relativePath !in files || !Skipped(ContextOf(cfg, t), q.relativePath)
    {
      OrdersAgreeIff(src, q);
    }
    if p :| p in t.state.value.files && p in files && Skipped(ContextOf(cfg, t), p) {
      assert !SameStatus(src, Query(p, true, false));
    }
  }
}
