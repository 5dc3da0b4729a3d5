/** Further properties of the daemon's runs: the change counter, marks, and unpaired operations. */
module DaemonProperties {
  import opened Wrappers
  import opened Paths
  import opened Workspace
  import opened TrackedDirs
  import opened ChangeDetection
  import opened DirectoryWalk
  import FullRefresh
  import IncrementalRefresh
  import opened Agreement
  import opened DaemonRuns

  // ---- numChanges ----

  /** numChanges counts the entries. */
  ghost predicate CountExact(s: Daemon) {
    s.pending.Some? ==> s.pending.value.numChanges == |s.pending.value.files|
  }

  /** The counter never falls short, and entries at checked-out baseline paths carry ids. */
  ghost predicate CountInv(cfg: Config, s: Daemon) {
    s.pending.Some? && s.state.Some? ==>
      && s.pending.value.numChanges >= |s.pending.value.files|
      && CheckoutsCarryIds(cfg.checkouts, s.state.value.files, s.pending.value.files)
  }

  /** No baseline path is an untracked directory that the walk lists. */
  ghost predicate NothingCollapsed(cfg: Config, s: Daemon)
    requires s.state.Some?
  {
    forall p :: p in s.state.value.files ==> !Collapsed(ContextOf(cfg, s), s.disk, "", p)
  }

  /** The incremental refresh lists no directory at a checked-out baseline path. */
  ghost predicate NothingListed(cfg: Config, s: Daemon)
    requires s.state.Some? && s.pending.Some? && s.dirty.Some?
  {
    var base, cached := s.state.value.files, s.pending.value.files;
    forall p :: p in base && base[p].fileId in cfg.checkouts ==>
      !IncrementalRefresh.ListsDir(ContextOf(cfg, s), s.disk, base, cached, IncrementalRefresh.ExpandedSet(s.dirty.value, base, cached), p)
  }

  lemma SameFilesCarryIds(checkouts: seq<FileId>, base: Baseline, settled: Baseline, files: Files)
    requires SameFiles(base, settled)
    ensures CheckoutsCarryIds(checkouts, settled, files) <==> CheckoutsCarryIds(checkouts, base, files)
  {
    forall p
      ensures p in settled <==> p in base
    {
      assert p in settled.Keys <==> p in base.Keys;
    }
  }

  lemma FullCount(cfg: Config, s: Daemon)
    requires s.state.Some?
    ensures CountInv(cfg, AfterFull(cfg, s))
    ensures CountExact(AfterFull(cfg, s)) <==> NothingCollapsed(cfg, s)
  {
    var c, base := ContextOf(cfg, s), s.state.value.files;
    FullRefresh.CountExactIff(c, s.disk, base, FullPending(c, s.disk, base));
    FullRefresh.SettledValid(c, s.disk, base);
    FullCarriesIds(c, s.disk, base);
    SameFilesCarryIds(cfg.checkouts, base, FullRefresh.SettledByFull(c, s.disk, base), FullPending(c, s.disk, base).files);
  }

  lemma IncrementalCount(cfg: Config, s: Daemon)
    requires Ready(cfg, s) && s.pending.Some? && CountInv(cfg, s)
    ensures CountInv(cfg, AfterIncremental(cfg, s))
    ensures CountExact(AfterIncremental(cfg, s)) <==> CountExact(s) && NothingListed(cfg, s)
  {
    var c, base, cached := ContextOf(cfg, s), s.state.value.files, s.pending.value.files;
    ContextValid(cfg, s);
    IncrementalCountExactIff(c, s.disk, base, cached, s.dirty.value);
    IncrementalCarriesIds(c, s.disk, base, cached, s.dirty.value);
    SameFilesCarryIds(cfg.checkouts, base, IncrementalRefresh.SettledByIncremental(c, s.disk, base, cached, s.dirty.value),
                      IncrementalRefresh.IncrementalFiles(c, s.disk, base, cached, s.dirty.value));
  }

  /** Whether the counter is exact after a refresh, given whether it was exact before. */
  ghost predicate ExactAfterRefresh(cfg: Config, ready: Daemon, force: bool, exact: bool)
    requires ready.state.Some?
  {
    if FastPath(ready, force) then exact
    else if IncrementalPath(ready, force) then exact && NothingListed(cfg, ready)
    else NothingCollapsed(cfg, ready)
  }

  ghost predicate ExactAfter(cfg: Config, s: Daemon, e: Event, exact: bool)
    requires ValidConfig(cfg) && ValidDisk(s.disk)
  {
    match e
    case RefreshCall(force, loaded, order) => ExactAfterRefresh(cfg, Prepared(cfg, s, loaded, order), force, exact)
    case Rescan(rules, loaded, order) => NothingCollapsed(cfg, Prepared(cfg, s.(rules := Some(rules)), loaded, order))
    case _ => exact || Step(cfg, s, e).pending.None?
  }

  /** The same state with the cached map dropped keeps what is known about the counter. */
  lemma PreparedCount(cfg: Config, s: Daemon, loaded: WorkspaceState, order: seq<Path>)
    requires Inv(cfg, s) && Legal(cfg, s, RefreshCall(false, loaded, order)) && CountInv(cfg, s)
    ensures var ready := Prepared(cfg, s, loaded, order);
            Ready(cfg, ready) && CountInv(cfg, ready) && (ready.pending.Some? ==> CountExact(ready) == CountExact(s))
  {
    PreparedReady(cfg, s, loaded, order);
  }

  lemma RefreshCountExactIff(cfg: Config, ready: Daemon, force: bool, exact: bool)
    requires Ready(cfg, ready) && CountInv(cfg, ready) && (ready.pending.Some? ==> CountExact(ready) == exact)
    ensures var t := if FastPath(ready, force) then ready
                     else if IncrementalPath(ready, force) then AfterIncremental(cfg, ready)
                     else AfterFull(cfg, ready);
            CountInv(cfg, t) && (CountExact(t) <==> ExactAfterRefresh(cfg, ready, force, exact))
  {
    if FastPath(ready, force) {
    } else if IncrementalPath(ready, force) {
      IncrementalCount(cfg, ready);
    } else {
      FullCount(cfg, ready);
    }
  }

  /** A full refresh makes the counter exact exactly when it collapses no directory at a baseline path; an incremental
      one keeps it exact exactly when it lists none at a checked-out baseline path; other events change nothing. */
  lemma StepCountExactIff(cfg: Config, s: Daemon, e: Event)
    requires Inv(cfg, s) && Legal(cfg, s, e) && CountInv(cfg, s)
    ensures CountInv(cfg, Step(cfg, s, e))
    ensures CountExact(Step(cfg, s, e)) <==> ExactAfter(cfg, s, e, CountExact(s))
  {
    match e
    case RefreshCall(force, loaded, order) =>
      PreparedCount(cfg, s, loaded, order);
      RefreshCountExactIff(cfg, Prepared(cfg, s, loaded, order), force, CountExact(s));
    case Rescan(rules, loaded, order) => FullCount(cfg, Prepared(cfg, s.(rules := Some(rules)), loaded, order));
    case _ => OtherEventsCount(cfg, s, e);
  }

  lemma OtherEventsCount(cfg: Config, s: Daemon, e: Event)
    requires Inv(cfg, s) && Legal(cfg, s, e) && CountInv(cfg, s) && !e.RefreshCall? && !e.Rescan?
    ensures CountInv(cfg, Step(cfg, s, e))
    ensures CountExact(Step(cfg, s, e)) <==> CountExact(s) || Step(cfg, s, e).pending.None?
  {
    OtherEventsKeep(cfg, s, e);
  }

  /** No other event writes the cached map: it is kept with its baseline, or dropped. */
  lemma OtherEventsKeep(cfg: Config, s: Daemon, e: Event)
    requires ValidConfig(cfg) && ValidDisk(s.disk) && !e.RefreshCall? && !e.Rescan?
    ensures var t := Step(cfg, s, e); t.pending.None? || (t.pending == s.pending && t.state == s.state)
  {
  }

  ghost predicate ExactOverRun(cfg: Config, s: Daemon, events: seq<Event>, exact: bool)
    requires ValidConfig(cfg) && ValidDisk(s.disk) && LegalRun(cfg, s, events)
    decreases |events|
  {
    if events == [] then exact
    else ExactOverRun(cfg, Step(cfg, s, events[0]), events[1..], ExactAfter(cfg, s, events[0], exact))
  }

  /** Over every run, the counter ends exact exactly when the last full refresh collapsed no directory at a baseline
      path and no incremental refresh since listed one at a checked-out baseline path. */
  lemma {:induction false} CountExactOverEveryRun(cfg: Config, s: Daemon, events: seq<Event>)
    requires Inv(cfg, s) && CountInv(cfg, s) && LegalRun(cfg, s, events)
    ensures CountInv(cfg, Run(cfg, s, events))
    ensures CountExact(Run(cfg, s, events)) <==> ExactOverRun(cfg, s, events, CountExact(s))
    decreases |events|
  {
    if events != [] {
      StepCountExactIff(cfg, s, events[0]);
      StepKeepsInv(cfg, s, events[0]);
      CountExactOverEveryRun(cfg, Step(cfg, s, events[0]), events[1..]);
    }
  }

  // ---- Marks ----

  lemma MarkingForcesFull(cfg: Config, s: Daemon, marks: set<Path>, force: bool, loaded: WorkspaceState, order: seq<Path>)
    requires Inv(cfg, s) && s.state.Some?
    requires Legal(cfg, AfterMarking(s, marks), RefreshCall(force, loaded, order))
    ensures var ready := Prepared(cfg, AfterMarking(s, marks), loaded, order);
            && ready.state == AfterMarking(s, marks).state && ready.disk == s.disk
            && Step(cfg, AfterMarking(s, marks), RefreshCall(force, loaded, order)) == AfterFull(cfg, ready)
            && ContextOf(cfg, AfterFull(cfg, ready)) == ContextOf(cfg, ready)
  {
    var ready := Prepared(cfg, AfterMarking(s, marks), loaded, order);
    FullRefresh.SettledValid(ContextOf(cfg, ready), ready.disk, ready.state.value.files);
  }

  /** After marking an existing, non-ignored file that is not in the baseline, however deep inside untracked
      directories, the next refresh reports it as Added. */
  lemma MarkedFileIsAdded(cfg: Config, s: Daemon, paths: set<Path>, p: Path, force: bool, loaded: WorkspaceState, order: seq<Path>)
    requires Inv(cfg, s) && s.state.Some? && p in paths
    requires IsLeaf(s.disk, p) && p !in s.state.value.files && !InCheckpointDir(p)
    requires Legal(cfg, Step(cfg, s, Mark(paths)), RefreshCall(force, loaded, order))
    ensures var t := Step(cfg, Step(cfg, s, Mark(paths)), RefreshCall(force, loaded, order));
            && t.state.Some? && t.pending.Some?
            && (!Skipped(ContextOf(cfg, t), p) ==>
                  Get(t.pending.value.files, p) ==
                  Some(File(p, StatType(s.disk[p]), StatSize(s.disk[p]), StatMtime(s.disk[p]), Added, None, None)))
  {
    var marks := s.state.value.markedForAdd + paths;
    MarkingForcesFull(cfg, s, marks, force, loaded, order);
    var ready := Prepared(cfg, AfterMarking(s, marks), loaded, order);
    var c := ContextOf(cfg, ready);
    if !Skipped(c, p) {
      ContextValid(cfg, ready);
      forall a | Under(a, p)
        ensures a in c.tracked
      {
        DropSlashesWellFormed(p);
        assert Above(a, p);
        assert p in ready.state.value.files.Keys + marks;
      }
      OpenAbove(c, p);
      assert Get(AfterFull(cfg, ready).pending.value.files, p) == FullRefresh.FullAt(c, s.disk, s.state.value.files, p);
    }
  }

  lemma SameFullFiles(c: Context, disk: Disk, base: Baseline, settled: Baseline)
    requires SettledFrom(c.w, disk, base, settled)
    ensures FullRefresh.FullFiles(c, disk, settled) == FullRefresh.FullFiles(c, disk, base)
  {
    var a, b := FullRefresh.FullFiles(c, disk, settled), FullRefresh.FullFiles(c, disk, base);
    forall p
      ensures Get(a, p) == Get(b, p)
    {
      SettlingKeepsFull(c, disk, base, settled, p);
    }
    SameMap(a, b);
  }

  lemma SameKeys(w: World, disk: Disk, base: Baseline, settled: Baseline)
    requires SettledFrom(w, disk, base, settled)
    ensures settled.Keys == base.Keys
  {
    forall p
      ensures p in settled <==> p in base
    {
      assert Get(settled, p) == FullRefresh.SettledAt(w, disk, base, true, p) || Get(settled, p) == Get(base, p);
    }
  }

  lemma SameTwice(c: Context, disk: Disk, base: Baseline, settled: Baseline)
    requires settled.Keys == base.Keys
    ensures FullRefresh.CountedTwice(c, disk, settled) == FullRefresh.CountedTwice(c, disk, base)
  {
    assert forall p :: p in settled <==> p in base;
  }

  lemma SameFull(c: Context, disk: Disk, base: Baseline, settled: Baseline)
    requires SettledFrom(c.w, disk, base, settled)
    ensures FullPending(c, disk, settled) == FullPending(c, disk, base)
  {
    SameFullFiles(c, disk, base, settled);
    SameKeys(c.w, disk, base, settled);
    SameTwice(c, disk, base, settled);
  }

  lemma AfterFullContext(cfg: Config, s: Daemon)
    requires s.state.Some?
    ensures ContextOf(cfg, AfterFull(cfg, s)) == ContextOf(cfg, s)
  {
    FullRefresh.SettledValid(ContextOf(cfg, s), s.disk, s.state.value.files);
  }

  /** Two full refreshes of an unchanged disk return the same map and the same count. */
  lemma FullTwice(cfg: Config, s: Daemon)
    requires s.state.Some?
    ensures AfterFull(cfg, AfterFull(cfg, s)).pending == AfterFull(cfg, s).pending
  {
    var c, base := ContextOf(cfg, s), s.state.value.files;
    AfterFullContext(cfg, s);
    FullSettles(c, s.disk, base);
    SameFull(c, s.disk, base, FullRefresh.SettledByFull(c, s.disk, base));
  }

  // ---- Unmarking undoes marking ----

  lemma SettledTwice(w: World, disk: Disk, base: Baseline, mid: Baseline, settled: Baseline)
    requires SettledFrom(w, disk, base, mid) && SettledFrom(w, disk, mid, settled)
    ensures SettledFrom(w, disk, base, settled)
  {
    forall p
      ensures Get(settled, p) == FullRefresh.SettledAt(w, disk, base, true, p) || Get(settled, p) == Get(base, p)
    {
      assert Get(mid, p) == FullRefresh.SettledAt(w, disk, base, true, p) || Get(mid, p) == Get(base, p);
      assert Get(settled, p) == FullRefresh.SettledAt(w, disk, mid, true, p) || Get(settled, p) == Get(mid, p);
      if p in base && IsLeaf(disk, p) {
        SettlesOnce(w, disk[p], base[p]);
      }
    }
  }

  lemma SettlesOnce(w: World, node: Node, b: BaselineFile)
    requires node.Leaf?
    ensures Settle(w, Settle(w, b, node), node) == Settle(w, b, node)
  {
  }

  /** m differs from s in its marks, and otherwise only as refreshes and watcher events under unchanged rules leave it. */
  ghost predicate Since(cfg: Config, s: Daemon, m: Daemon, marks: set<Path>)
    requires s.state.Some?
  {
    && m.disk == s.disk && m.rules == s.rules && m.state.Some? && m.state.value.markedForAdd == marks
    && SettledFrom(cfg.w, s.disk, s.state.value.files, m.state.value.files)
  }

  /** Refreshes of any kind, watcher events and operations, none of which changes the rules held. */
  ghost predicate Quiet(cfg: Config, m: Daemon, e: Event)
    requires ValidConfig(cfg) && ValidDisk(m.disk)
  {
    && (e.RefreshCall? || e.Rescan? || e.Watch? || e.BeginVcs? || e.EndVcs?)
    && Step(cfg, m, e).rules == m.rules
  }

  ghost predicate QuietRun(cfg: Config, m: Daemon, events: seq<Event>)
    requires ValidConfig(cfg) && ValidDisk(m.disk) && LegalRun(cfg, m, events)
    decreases |events|
  {
    events != [] ==> Quiet(cfg, m, events[0]) && QuietRun(cfg, Step(cfg, m, events[0]), events[1..])
  }

  /** t has the marks of m, and its baseline with some deferred hashes filled in. */
  ghost predicate OnlySettles(cfg: Config, m: Daemon, t: Daemon) {
    && m.state.Some? && t.state.Some? && t.state.value.markedForAdd == m.state.value.markedForAdd
    && SettledFrom(cfg.w, m.disk, m.state.value.files, t.state.value.files)
  }

  lemma FullOnlySettles(cfg: Config, m: Daemon)
    requires m.state.Some?
    ensures OnlySettles(cfg, m, AfterFull(cfg, m))
  {
    FullSettles(ContextOf(cfg, m), m.disk, m.state.value.files);
  }

  lemma IncrementalOnlySettles(cfg: Config, m: Daemon)
    requires ValidConfig(cfg) && ValidDisk(m.disk) && m.state.Some? && m.pending.Some? && m.dirty.Some?
    ensures OnlySettles(cfg, m, AfterIncremental(cfg, m))
  {
    IncrementalSettles(ContextOf(cfg, m), m.disk, m.state.value.files, m.pending.value.files, m.dirty.value);
  }

  lemma PreparedKeepsState(cfg: Config, m: Daemon, loaded: WorkspaceState, order: seq<Path>)
    requires m.state.Some?
    ensures Prepared(cfg, m, loaded, order).state == m.state && OnlySettles(cfg, m, Prepared(cfg, m, loaded, order))
  {
  }

  /** A refresh with the state loaded keeps the marks and settles part of the baseline. */
  lemma RefreshSettles(cfg: Config, m: Daemon, force: bool, loaded: WorkspaceState, order: seq<Path>)
    requires ValidConfig(cfg) && ValidDisk(m.disk) && m.state.Some?
    ensures OnlySettles(cfg, m, AfterRefresh(cfg, m, force, loaded, order))
  {
    var ready := Prepared(cfg, m, loaded, order);
    PreparedKeepsState(cfg, m, loaded, order);
    if FastPath(ready, force) {
    } else if IncrementalPath(ready, force) {
      IncrementalOnlySettles(cfg, ready);
    } else {
      FullOnlySettles(cfg, ready);
    }
  }

  lemma QuietStep(cfg: Config, s: Daemon, m: Daemon, marks: set<Path>, e: Event)
    requires ValidConfig(cfg) && ValidDisk(m.disk) && s.state.Some? && Since(cfg, s, m, marks) && Quiet(cfg, m, e)
    ensures Since(cfg, s, Step(cfg, m, e), marks)
  {
    var t := Step(cfg, m, e);
    match e
    case RefreshCall(force, loaded, order) =>
      RefreshSettles(cfg, m, force, loaded, order);
      SettledTwice(cfg.w, s.disk, s.state.value.files, m.state.value.files, t.state.value.files);
    case Rescan(rules, loaded, order) =>
      RefreshSettles(cfg, m.(rules := Some(rules)), true, loaded, order);
      SettledTwice(cfg.w, s.disk, s.state.value.files, m.state.value.files, t.state.value.files);
    case _ =>
  }

  lemma {:induction false} QuietRunSince(cfg: Config, s: Daemon, m: Daemon, marks: set<Path>, events: seq<Event>)
    requires ValidConfig(cfg) && ValidDisk(m.disk) && s.state.Some? && Since(cfg, s, m, marks)
    requires LegalRun(cfg, m, events) && QuietRun(cfg, m, events)
    ensures Since(cfg, s, Run(cfg, m, events), marks)
    decreases |events|
  {
    if events != [] {
      QuietStep(cfg, s, m, marks, events[0]);
      QuietRunSince(cfg, s, Step(cfg, m, events[0]), marks, events[1..]);
    }
  }

  /** With the same marks, a full refresh returns the same. */
  lemma SameMarksSameFull(cfg: Config, s: Daemon, u: Daemon)
    requires s.state.Some? && Since(cfg, s, u, s.state.value.markedForAdd)
    ensures AfterFull(cfg, u).pending == AfterFull(cfg, s).pending
  {
    SameKeys(cfg.w, s.disk, s.state.value.files, u.state.value.files);
    assert ContextOf(cfg, u) == ContextOf(cfg, s);
    SameFull(ContextOf(cfg, s), s.disk, s.state.value.files, u.state.value.files);
  }

  /** Marking the paths, a run, and unmarking them. */
  ghost function Unmarked(cfg: Config, s: Daemon, paths: set<Path>, events: seq<Event>): (u: Daemon)
    requires ValidConfig(cfg) && ValidDisk(s.disk) && LegalRun(cfg, Step(cfg, s, Mark(paths)), events)
    ensures ValidDisk(u.disk)
  {
    Step(cfg, Run(cfg, Step(cfg, s, Mark(paths)), events), Unmark(paths))
  }

  /** Afterwards the marks are the old ones and no map is cached. */
  lemma UnmarkedSince(cfg: Config, s: Daemon, paths: set<Path>, events: seq<Event>)
    requires ValidConfig(cfg) && ValidDisk(s.disk) && s.state.Some? && paths !! s.state.value.markedForAdd
    requires LegalRun(cfg, Step(cfg, s, Mark(paths)), events) && QuietRun(cfg, Step(cfg, s, Mark(paths)), events)
    ensures Since(cfg, s, Unmarked(cfg, s, paths, events), s.state.value.markedForAdd)
    ensures Unmarked(cfg, s, paths, events).pending == None
  {
    var marks := s.state.value.markedForAdd;
    var marked := Step(cfg, s, Mark(paths));
    QuietRunSince(cfg, s, marked, marks + paths, events);
    assert marks + paths - paths == marks;
  }

  /** With no map cached a refresh that leaves the rules alone is a full one. */
  lemma UncachedRefresh(cfg: Config, u: Daemon, force: bool, loaded: WorkspaceState, order: seq<Path>)
    requires ValidConfig(cfg) && ValidDisk(u.disk) && u.state.Some? && u.pending == None
    requires Step(cfg, u, RefreshCall(force, loaded, order)).rules == u.rules
    ensures Step(cfg, u, RefreshCall(force, loaded, order)) == AfterFull(cfg, u)
  {
    assert Prepared(cfg, u, loaded, order).rules == u.rules;
  }

  /** The next refresh returns what a full refresh of s would have returned. */
  lemma UnmarkedRefreshIsFull(cfg: Config, s: Daemon, paths: set<Path>, events: seq<Event>,
                              force: bool, loaded: WorkspaceState, order: seq<Path>)
    requires ValidConfig(cfg) && ValidDisk(s.disk) && s.state.Some? && paths !! s.state.value.markedForAdd
    requires LegalRun(cfg, Step(cfg, s, Mark(paths)), events) && QuietRun(cfg, Step(cfg, s, Mark(paths)), events)
    requires Quiet(cfg, Unmarked(cfg, s, paths, events), RefreshCall(force, loaded, order))
    ensures Step(cfg, Unmarked(cfg, s, paths, events), RefreshCall(force, loaded, order)).pending == AfterFull(cfg, s).pending
  {
    UnmarkedSince(cfg, s, paths, events);
    UncachedRefresh(cfg, Unmarked(cfg, s, paths, events), force, loaded, order);
    SameMarksSameFull(cfg, s, Unmarked(cfg, s, paths, events));
  }

  lemma ForcedRefreshIsFull(cfg: Config, s: Daemon, loaded: WorkspaceState, order: seq<Path>)
    requires ValidConfig(cfg) && ValidDisk(s.disk)
    ensures var before := Step(cfg, s, RefreshCall(true, loaded, order));
            before.state.Some? && AfterFull(cfg, before).pending == before.pending
  {
    FullTwice(cfg, Prepared(cfg, s, loaded, order));
  }

  /** Unmarking paths that were not marked before undoes their marking, however many refreshes of whatever kind ran
      while they were marked: the next refresh returns what the full refresh before the marking returned. */
  lemma UnmarkUndoesMark(cfg: Config, s: Daemon, loaded0: WorkspaceState, order0: seq<Path>, before: Daemon, paths: set<Path>,
                         events: seq<Event>, force: bool, loaded: WorkspaceState, order: seq<Path>)
    requires ValidConfig(cfg) && ValidDisk(s.disk) && before == Step(cfg, s, RefreshCall(true, loaded0, order0))
    requires before.state.Some? && paths !! before.state.value.markedForAdd
    requires LegalRun(cfg, Step(cfg, before, Mark(paths)), events) && QuietRun(cfg, Step(cfg, before, Mark(paths)), events)
    requires Quiet(cfg, Unmarked(cfg, before, paths, events), RefreshCall(force, loaded, order))
    ensures Step(cfg, Unmarked(cfg, before, paths, events), RefreshCall(force, loaded, order)).pending == before.pending
  {
    ForcedRefreshIsFull(cfg, s, loaded0, order0);
    UnmarkedRefreshIsFull(cfg, before, paths, events, force, loaded, order);
  }

  lemma FullEntry(cfg: Config, s: Daemon, p: Path)
    requires ResultAgrees(cfg, s)
    requires FileLevel(ContextOf(cfg, s), s.disk, s.state.value.files, p) && !Awaited(s, p)
    ensures Get(AfterFull(cfg, s).pending.value.files, p) == Get(s.pending.value.files, p)
  {
    assert Agrees(cfg, s, p);
  }

  /** And when the refresh before the marking was of any kind, the next one returns the same entry at every file-level
      path that no report remaining from that refresh covers. */
  lemma UnmarkUndoesMarkAtFileLevel(cfg: Config, s: Daemon, force0: bool, loaded0: WorkspaceState, order0: seq<Path>,
                                    before: Daemon, paths: set<Path>, events: seq<Event>,
                                    force: bool, loaded: WorkspaceState, order: seq<Path>, p: Path)
    requires Inv(cfg, s) && Legal(cfg, s, RefreshCall(force0, loaded0, order0))
    requires before == Step(cfg, s, RefreshCall(force0, loaded0, order0))
    requires before.state.Some? && before.pending.Some? && paths !! before.state.value.markedForAdd
    requires LegalRun(cfg, Step(cfg, before, Mark(paths)), events) && QuietRun(cfg, Step(cfg, before, Mark(paths)), events)
    requires Quiet(cfg, Unmarked(cfg, before, paths, events), RefreshCall(force, loaded, order))
    requires FileLevel(ContextOf(cfg, before), before.disk, before.state.value.files, p) && !Awaited(before, p)
    ensures var after := Step(cfg, Unmarked(cfg, before, paths, events), RefreshCall(force, loaded, order));
            after.pending.Some? && Get(after.pending.value.files, p) == Get(before.pending.value.files, p)
  {
    RefreshTrue(cfg, s, force0, loaded0, order0);
    FullEntry(cfg, before, p);
    UnmarkedRefreshIsFull(cfg, before, paths, events, force, loaded, order);
  }

  // ---- Unpaired operations ----

  /** One tracked file "f" changed on disk while an operation is running: its report is buffered. */
  function EditBuffered(): Daemon {
    var base := map["f" := BaselineFile("id", 1, "old", 1, 1)];
    var disk := map["f" := Leaf(Regular, 2, 2, "new", true)];
    Daemon(Some(WorkspaceState(base, {})), Some({}), Some(Pending(0, map[])), None, None, true, Some({"f"}), disk, {})
  }

  ghost predicate IgnoresNothing(cfg: Config) {
    ValidConfig(cfg) && forall patterns, p :: !cfg.w.matches(patterns, p)
  }

  lemma EditBufferedEntries(cfg: Config)
    requires IgnoresNothing(cfg)
    ensures var s := EditBuffered(); var base := s.state.value.files;
            && ValidDisk(s.disk) && ValidBaseline(base)
            && FileLevel(ContextOf(cfg, s), s.disk, base, "f")
            && FullRefresh.FullAt(ContextOf(cfg, s), s.disk, base, "f").Some?
            && forall p :: p != "f" ==> FullRefresh.FullAt(ContextOf(cfg, s), s.disk, base, p) == None
  {
    var s := EditBuffered();
    var c, base := ContextOf(cfg, s), s.state.value.files;
    ContextValid(cfg, s);
    assert forall a: Path :: !Under(a, "f");
    FullIsOwnEntry(c, s.disk, base, "f");
  }

  lemma EditBufferedInv(cfg: Config)
    requires IgnoresNothing(cfg)
    ensures Inv(cfg, EditBuffered())
  {
  }

  /** A second begin drops the buffered reports: the edit of "f" is no longer covered. */
  lemma NestedBeginBreaks(cfg: Config)
    requires IgnoresNothing(cfg)
    ensures !Inv(cfg, Step(cfg, EditBuffered(), BeginVcs))
  {
    var s := EditBuffered();
    EditBufferedEntries(cfg);
    var t := Step(cfg, s, BeginVcs);
    assert ContextOf(cfg, t) == ContextOf(cfg, s);
    assert Reports(t) == {};
    assert !CoveredIn(t, "f") && !Agrees(cfg, t, "f");
  }

  /** The state after that begin and one end: the reports are gone, the cached map is as before. */
  lemma NestedBeginEnds(cfg: Config)
    requires IgnoresNothing(cfg)
    ensures Step(cfg, Step(cfg, EditBuffered(), BeginVcs), EndVcs([])) == EditBuffered().(vcsActive := false, buffered := None)
  {
  }

  lemma EditStillThere(cfg: Config)
    requires IgnoresNothing(cfg)
    ensures AfterFull(cfg, EditBuffered().(vcsActive := false, buffered := None)).pending != EditBuffered().pending
  {
    var s := EditBuffered();
    var u := s.(vcsActive := false, buffered := None);
    EditBufferedEntries(cfg);
    assert ContextOf(cfg, u) == ContextOf(cfg, s);
    assert Get(AfterFull(cfg, u).pending.value.files, "f").Some?;
  }

  /** And after the end an ordinary refresh returns the stale map although the full one differs: the edit is lost. */
  lemma NestedBeginLosesEdit(cfg: Config, st: WorkspaceState)
    requires IgnoresNothing(cfg)
    ensures var s := EditBuffered(); var u := Step(cfg, Step(cfg, s, BeginVcs), EndVcs([]));
            && Inv(cfg, s) && s.vcsActive
            && Step(cfg, u, RefreshCall(false, st, [])).pending == s.pending
            && AfterFull(cfg, u).pending != s.pending
  {
    EditBufferedInv(cfg);
    NestedBeginEnds(cfg);
    EditStillThere(cfg);
  }
}
