/** The daemon's state for one workspace as a state machine, and what every run of it keeps. */
module DaemonRuns {
  import opened Wrappers
  import opened Paths
  import opened Sequences
  import opened Workspace
  import opened TrackedDirs
  import FullRefresh
  import IncrementalRefresh
  import opened Agreement

  /** What stays fixed during a run. */
  datatype Config = Config(w: World, checkouts: seq<FileId>)

  ghost predicate ValidConfig(cfg: Config) {
    ClosedUnderDescendants(cfg.w) && Distinct(cfg.checkouts)
  }

  /** The manager's maps at one workspace id, with the disk and the watcher events not yet delivered. */
  datatype Daemon = Daemon(
    state: Option<WorkspaceState>,
    dirty: Option<set<Path>>,
    pending: Option<Pending>,
    tracked: Option<set<Path>>,
    rules: Option<Patterns>,
    vcsActive: bool,
    buffered: Option<set<Path>>,
    disk: Disk,
    inflight: set<Path>)

  const INCREMENTAL_DIRTY_THRESHOLD := 5000

  // ---- Ignore files ----

  /** `path.basename` of a normalised path. */
  function Basename(p: Path): string
    decreases |p|
  {
    var n := SegmentEnd(p, 0);
    if n == |p| then p else Basename(p[n + 1..])
  }

  predicate IsIgnoreFile(p: Path) {
    Basename(p) == ".chkignore" || Basename(p) == ".chkhidden"
  }

  ghost predicate HasIgnoreFile(paths: set<Path>) {
    exists p :: p in paths && IsIgnoreFile(p)
  }

  function IgnoreFiles(paths: set<Path>): set<Path> {
    set p | p in paths && IsIgnoreFile(p)
  }

  /** The list without its first entry for p. */
  function WithoutEntry(entries: seq<IgnoreEntry>, p: Path): seq<IgnoreEntry> {
    if entries == [] then []
    else if entries[0].path == p then entries[1..]
    else [entries[0]] + WithoutEntry(entries[1..], p)
  }

  /** Re-reads one ignore file. */
  function Reread(w: World, disk: Disk, entries: seq<IgnoreEntry>, p: Path): seq<IgnoreEntry> {
    WithoutEntry(entries, p) + if ExistsSync(disk, p) then [IgnoreEntry(p, w.parse(p, disk[p]))] else []
  }

  function HandleIgnoreFile(w: World, disk: Disk, rules: Option<Patterns>, p: Path): Option<Patterns> {
    match rules
    case None => None
    case Some(r) =>
      if Basename(p) == ".chkignore" then Some(r.(ignored := Reread(w, disk, r.ignored, p)))
      else if Basename(p) == ".chkhidden" then Some(r.(hidden := Reread(w, disk, r.hidden, p)))
      else rules
  }

  /** The path of a file in a directory. */
  function Join(dir: Path, name: string): Path {
    if dir == "" then name else dir + "/" + name
  }

  /** One entry for each of the directories that holds an ignore file of this name. */
  ghost function Scanned(w: World, disk: Disk, dirs: set<Path>, name: string): set<IgnoreEntry> {
    set d | d in dirs && ExistsSync(disk, Join(d, name)) :: IgnoreEntry(Join(d, name), w.parse(Join(d, name), disk[Join(d, name)]))
  }

  /** What `scanIgnoreFiles` leaves, in any order. */
  ghost predicate IsScan(w: World, disk: Disk, dirs: set<Path>, rules: Patterns) {
    Lists(rules.ignored, Scanned(w, disk, dirs, ".chkignore")) && Lists(rules.hidden, Scanned(w, disk, dirs, ".chkhidden"))
  }

  function HandleIgnoreFiles(w: World, disk: Disk, rules: Option<Patterns>, order: seq<Path>): Option<Patterns>
    decreases |order|
  {
    if order == [] then rules
    else HandleIgnoreFile(w, disk, HandleIgnoreFiles(w, disk, rules, order[..|order| - 1]), order[|order| - 1])
  }

  // ---- Events ----

  /** Disk edits with the paths the watcher will report, deliveries of those reports, and the daemon's calls.
      The order in which several ignore files are re-read is a parameter, and so are the rules a rescan finds. */
  datatype Event =
    | Edit(disk: Disk, reports: set<Path>)
    | Watch(path: Path)
    | RefreshCall(force: bool, loaded: WorkspaceState, order: seq<Path>)
    | BeginVcs
    | EndVcs(order: seq<Path>)
    | Rescan(rules: Patterns, loaded: WorkspaceState, order: seq<Path>)
    | Reload(newState: WorkspaceState)
    | Mark(paths: set<Path>)
    | Unmark(paths: set<Path>)
    | Unlink

  function RulesOf(s: Daemon): Patterns {
    if s.rules.Some? then s.rules.value else Patterns([], [])
  }

  /** What a refresh in state s would read. */
  ghost function ContextOf(cfg: Config, s: Daemon): Context
    requires s.state.Some?
  {
    var st := s.state.value;
    Context(cfg.w, RulesOf(s), TrackedDirSet(st.files.Keys, st.markedForAdd), st.markedForAdd, cfg.checkouts)
  }

  lemma ContextValid(cfg: Config, s: Daemon)
    requires ValidConfig(cfg) && s.state.Some?
    ensures ValidContext(ContextOf(cfg, s))
  {
  }

  lemma OwnDirsTracked(cfg: Config, s: Daemon, p: Path)
    requires s.state.Some? && WellFormed(p) && p in s.state.value.files.Keys + s.state.value.markedForAdd
    ensures AllTrackedAbove(p, ContextOf(cfg, s).tracked)
  {
    forall a | Under(a, p)
      ensures a in ContextOf(cfg, s).tracked
    {
      DropSlashesWellFormed(p);
      assert Above(a, p);
    }
  }

  /** What a refresh reads tracks the directories above every baseline and marked path, so file level excludes exactly
      the paths under `.checkpoint`, the untracked directories, and the baseline paths that are ignored or directories. */
  lemma FileLevelIff(cfg: Config, s: Daemon, p: Path)
    requires ValidDisk(s.disk) && s.state.Some?
    ensures FileLevel(ContextOf(cfg, s), s.disk, s.state.value.files, p) <==>
            && !(".checkpoint" <= p)
            && !(IsDir(s.disk, p) && p !in ContextOf(cfg, s).tracked)
            && !(p in s.state.value.files && (Skipped(ContextOf(cfg, s), p) || IsDir(s.disk, p)))
  {
    if IsLeaf(s.disk, p) && p in s.state.value.files.Keys + s.state.value.markedForAdd {
      OwnDirsTracked(cfg, s, p);
    }
  }

  /** At file level a full refresh has no entry inside an untracked directory. */
  lemma NoEntryInside(cfg: Config, s: Daemon, p: Path)
    requires ValidConfig(cfg) && ValidDisk(s.disk) && s.state.Some? && ValidBaseline(s.state.value.files)
    requires FileLevel(ContextOf(cfg, s), s.disk, s.state.value.files, p) && !AllTrackedAbove(p, ContextOf(cfg, s).tracked)
    ensures FullRefresh.FullAt(ContextOf(cfg, s), s.disk, s.state.value.files, p) == None
  {
    if p in s.state.value.files {
      OwnDirsTracked(cfg, s, p);
    }
    ContextValid(cfg, s);
    FullIsOwnEntry(ContextOf(cfg, s), s.disk, s.state.value.files, p);
  }

  /** State loaded when missing, and dirty ignore files re-read, as the dispatcher does first. */
  function Prepared(cfg: Config, s: Daemon, loaded: WorkspaceState, order: seq<Path>): (t: Daemon)
    ensures t.disk == s.disk && t.buffered == s.buffered && t.inflight == s.inflight && t.state.Some?
  {
    var s1 := if s.state.None? then s.(state := Some(loaded), dirty := Some({}), tracked := None) else s;
    var s2 := s1.(rules := HandleIgnoreFiles(cfg.w, s.disk, s1.rules, order));
    if order != [] then s2.(pending := None) else s2
  }

  predicate FastPath(s: Daemon, force: bool) {
    !force && s.pending.Some? && s.dirty.Some? && s.dirty.value == {}
  }

  predicate IncrementalPath(s: Daemon, force: bool) {
    !force && s.pending.Some? && s.dirty.Some? && 0 < |s.dirty.value| <= INCREMENTAL_DIRTY_THRESHOLD
  }

  /** The state after a refresh that stored the given result. */
  ghost function Refreshed(s: Daemon, pending: Pending, base: Baseline): (t: Daemon)
    requires s.state.Some?
    ensures t.disk == s.disk && t.buffered == s.buffered && t.inflight == s.inflight
  {
    var st := s.state.value;
    s.(state := Some(st.(files := base)), pending := Some(pending), dirty := Some({}),
       tracked := Some(TrackedDirSet(st.files.Keys, st.markedForAdd)))
  }

  ghost function FullPending(c: Context, disk: Disk, base: Baseline): Pending {
    var files := FullRefresh.FullFiles(c, disk, base);
    Pending(|files| + |FullRefresh.CountedTwice(c, disk, base)|, files)
  }

  ghost function AfterFull(cfg: Config, s: Daemon): (t: Daemon)
    requires s.state.Some?
    ensures t.disk == s.disk && t.buffered == s.buffered && t.inflight == s.inflight
  {
    var c, base := ContextOf(cfg, s), s.state.value.files;
    Refreshed(s, FullPending(c, s.disk, base), FullRefresh.SettledByFull(c, s.disk, base))
  }

  ghost function IncrementalPending(c: Context, disk: Disk, base: Baseline, cached: Pending, dirty: set<Path>): Pending
    requires ValidDisk(disk) && ValidContext(c)
  {
    var files := IncrementalRefresh.IncrementalFiles(c, disk, base, cached.files, dirty);
    var numChanges := |files| + cached.numChanges - |cached.files|
                      + |IncrementalRefresh.ReplacedByCheckouts(c, disk, base, cached.files, dirty)|;
    Pending(numChanges, files)
  }

  ghost function AfterIncremental(cfg: Config, s: Daemon): (t: Daemon)
    requires ValidConfig(cfg) && ValidDisk(s.disk)
    requires s.state.Some? && s.pending.Some? && s.dirty.Some?
    ensures t.disk == s.disk && t.buffered == s.buffered && t.inflight == s.inflight
  {
    var c, base := ContextOf(cfg, s), s.state.value.files;
    Refreshed(s, IncrementalPending(c, s.disk, base, s.pending.value, s.dirty.value),
              IncrementalRefresh.SettledByIncremental(c, s.disk, base, s.pending.value.files, s.dirty.value))
  }

  ghost function AfterRefresh(cfg: Config, s: Daemon, force: bool, loaded: WorkspaceState, order: seq<Path>): (t: Daemon)
    requires ValidConfig(cfg) && ValidDisk(s.disk)
    ensures t.disk == s.disk && t.buffered == s.buffered && t.inflight == s.inflight
  {
    var ready := Prepared(cfg, s, loaded, order);
    if FastPath(ready, force) then ready
    else if IncrementalPath(ready, force) then AfterIncremental(cfg, ready)
    else AfterFull(cfg, ready)
  }

  function AfterWatch(cfg: Config, s: Daemon, p: Path): Daemon {
    var s := s.(inflight := s.inflight - {p});
    if InCheckpointDir(p) then s
    else if s.vcsActive then
      s.(buffered := match s.buffered case None => None case Some(b) => Some(b + {p}))
    else
      var s1 := if IsIgnoreFile(p) then s.(rules := HandleIgnoreFile(cfg.w, s.disk, s.rules, p), pending := None) else s;
      s1.(dirty := match s.dirty case None => None case Some(d) => Some(d + {p}))
  }

  function AfterEndVcs(cfg: Config, s: Daemon, order: seq<Path>): Daemon {
    var s1 := if s.buffered.Some? && s.buffered.value != {} then
                s.(dirty := match s.dirty case None => None case Some(d) => Some(d + s.buffered.value),
                   rules := HandleIgnoreFiles(cfg.w, s.disk, s.rules, order))
              else s;
    s1.(vcsActive := false, buffered := None)
  }

  function AfterMarking(s: Daemon, marks: set<Path>): Daemon
    requires s.state.Some?
  {
    s.(state := Some(s.state.value.(markedForAdd := marks)), pending := None, tracked := None)
  }

  /** One event; only an edit changes the disk. */
  ghost function Step(cfg: Config, s: Daemon, e: Event): (t: Daemon)
    requires ValidConfig(cfg) && ValidDisk(s.disk)
    ensures !e.Edit? ==> t.disk == s.disk
  {
    match e
    case Edit(disk, reports) => s.(disk := disk, inflight := s.inflight + reports)
    case Watch(p) => AfterWatch(cfg, s, p)
    case RefreshCall(force, loaded, order) => AfterRefresh(cfg, s, force, loaded, order)
    case Rescan(rules, loaded, order) => AfterRefresh(cfg, s.(rules := Some(rules)), true, loaded, order)
    case BeginVcs => s.(vcsActive := true, buffered := Some({}))
    case EndVcs(order) => AfterEndVcs(cfg, s, order)
    case Reload(newState) => s.(state := Some(newState), dirty := Some({}), tracked := None, pending := None)
    case Mark(paths) => if s.state.None? then s else AfterMarking(s, s.state.value.markedForAdd + paths)
    case Unmark(paths) => if s.state.None? then s else AfterMarking(s, s.state.value.markedForAdd - paths)
    case Unlink => Daemon(None, None, None, None, None, false, None, s.disk, s.inflight)
  }

  // ---- Which events a run may contain ----

  /** Every path reported and not yet refreshed. */
  function Reports(s: Daemon): set<Path> {
    (if s.dirty.Some? then s.dirty.value else {}) + (if s.buffered.Some? then s.buffered.value else {}) + s.inflight
  }

  ghost predicate CoveredIn(s: Daemon, p: Path)
    requires s.state.Some? && s.pending.Some?
  {
    Covered(Reports(s), s.state.value.files, s.pending.value.files, p)
  }

  /** p changed at file level, and lies under tracked directories or has a cached entry. */
  ghost predicate ChangedInView(cfg: Config, s: Daemon, disk: Disk, p: Path)
    requires s.state.Some? && s.pending.Some?
  {
    && FileLevel(ContextOf(cfg, s), disk, s.state.value.files, p) && Get(disk, p) != Get(s.disk, p)
    && (AllTrackedAbove(p, ContextOf(cfg, s).tracked) || p in s.pending.value.files)
  }

  /** The watcher's promise: such a path is reported itself, or, when the daemon already knows the path, through a
      directory above it. */
  ghost predicate ReportsCover(cfg: Config, s: Daemon, disk: Disk, reports: set<Path>) {
    s.state.Some? && s.pending.Some? ==>
      forall p :: ChangedInView(cfg, s, disk, p) ==> CoveredIn(s.(inflight := s.inflight + reports), p)
  }

  /** The tracked directories as far as the daemon knows them. */
  ghost function ScanDirs(s: Daemon): set<Path> {
    if s.state.Some? then TrackedDirSet(s.state.value.files.Keys, s.state.value.markedForAdd) else {""}
  }

  ghost predicate LegalRefresh(s: Daemon, loaded: WorkspaceState, order: seq<Path>) {
    ValidBaseline(loaded.files) && Lists(order, if s.state.Some? && s.dirty.Some? then IgnoreFiles(s.dirty.value) else {})
  }

  ghost predicate Legal(cfg: Config, s: Daemon, e: Event) {
    match e
    case Edit(disk, reports) => ValidDisk(disk) && ReportsCover(cfg, s, disk, reports)
    case Watch(p) => true
    case RefreshCall(force, loaded, order) => LegalRefresh(s, loaded, order)
    case Rescan(rules, loaded, order) => IsScan(cfg.w, s.disk, ScanDirs(s), rules) && LegalRefresh(s, loaded, order)
    case BeginVcs => !s.vcsActive  // paired with EndVcs, not nested
    case EndVcs(order) => Lists(order, if s.buffered.Some? then IgnoreFiles(s.buffered.value) else {})
    case Reload(newState) => ValidBaseline(newState.files)
    case Mark(paths) => true
    case Unmark(paths) => true
    case Unlink => true
  }

  // ---- The invariant ----

  ghost predicate Agrees(cfg: Config, s: Daemon, p: Path)
    requires s.state.Some? && s.pending.Some?
  {
    Get(s.pending.value.files, p) == FullRefresh.FullAt(ContextOf(cfg, s), s.disk, s.state.value.files, p)
  }

  /** The parts of the state fit together. */
  ghost predicate WellFormedState(cfg: Config, s: Daemon) {
    && ValidConfig(cfg) && ValidDisk(s.disk)
    && (s.state.Some? ==> ValidBaseline(s.state.value.files) && s.dirty.Some?)
    && (s.pending.Some? ==> s.state.Some? && Sane(ContextOf(cfg, s), s.state.value.files, s.pending.value.files))
    && (s.tracked.Some? ==>
          s.state.Some? && s.tracked.value == TrackedDirSet(s.state.value.files.Keys, s.state.value.markedForAdd))
    && (s.vcsActive <==> s.buffered.Some?)
  }

  /** A cached pending map agrees with a fresh full refresh at every file-level path that no report covers,
      unless an ignore file is dirty, which makes the next refresh a full one. */
  ghost predicate CacheAgrees(cfg: Config, s: Daemon) {
    s.state.Some? && s.pending.Some? ==>
      || (s.dirty.Some? && HasIgnoreFile(s.dirty.value))
      || forall p :: FileLevel(ContextOf(cfg, s), s.disk, s.state.value.files, p) && !CoveredIn(s, p) ==> Agrees(cfg, s, p)
  }

  ghost predicate Inv(cfg: Config, s: Daemon) {
    WellFormedState(cfg, s) && CacheAgrees(cfg, s)
  }

  // ---- Each event keeps the invariant ----

  /** No report covers p after the edit: its node is the old one, or it lies inside an untracked directory unlisted. */
  lemma UnreportedAgrees(cfg: Config, s: Daemon, disk: Disk, reports: set<Path>, p: Path)
    requires Inv(cfg, s) && Legal(cfg, s, Edit(disk, reports)) && s.state.Some? && s.pending.Some? && !HasIgnoreFile(s.dirty.value)
    requires FileLevel(ContextOf(cfg, s), disk, s.state.value.files, p) && !CoveredIn(Step(cfg, s, Edit(disk, reports)), p)
    ensures Agrees(cfg, Step(cfg, s, Edit(disk, reports)), p)
  {
    var t, c, base := Step(cfg, s, Edit(disk, reports)), ContextOf(cfg, s), s.state.value.files;
    assert ContextOf(cfg, t) == c;
    assert CoveredIn(t, p) == CoveredIn(s.(inflight := s.inflight + reports), p);
    assert !ChangedInView(cfg, s, disk, p);
    if Get(disk, p) == Get(s.disk, p) {
      ContextValid(cfg, s);
      UnchangedOnDisk(c, s.disk, disk, base, p);
      if CoveredIn(s, p) {
        CoverMonotone(Reports(s), Reports(t), base, s.pending.value.files, p);
      }
      assert Agrees(cfg, s, p);
    } else {
      NoEntryInside(cfg, t, p);
    }
  }

  lemma EditKeepsInv(cfg: Config, s: Daemon, disk: Disk, reports: set<Path>)
    requires Inv(cfg, s) && Legal(cfg, s, Edit(disk, reports))
    ensures Inv(cfg, Step(cfg, s, Edit(disk, reports)))
  {
    var t := Step(cfg, s, Edit(disk, reports));
    if s.state.Some? && s.pending.Some? && !HasIgnoreFile(s.dirty.value) {
      var c, base := ContextOf(cfg, s), s.state.value.files;
      assert ContextOf(cfg, t) == c;
      forall p | FileLevel(c, disk, base, p) && !CoveredIn(t, p)
        ensures Agrees(cfg, t, p)
      {
        UnreportedAgrees(cfg, s, disk, reports, p);
      }
    }
  }

  lemma CoverMonotone(reports: set<Path>, more: set<Path>, base: Baseline, files: Files, p: Path)
    requires Covered(reports, base, files, p)
    requires forall d :: d in reports ==> d in more || InCheckpointDir(d)
    requires !InCheckpointDir(p)
    ensures Covered(more, base, files, p)
  {
    if p !in reports {
      var d :| d in reports && IncrementalRefresh.Expands(d, p);
      assert InCheckpointDir(d) ==> InCheckpointDir(p);
    }
  }

  lemma NonEmptyHasMember(order: seq<Path>)
    ensures order != [] ==> exists p :: p in order
  {
    if order != [] {
      assert order[0] in order;
    }
  }

  /** Only reports were added or dropped under `.checkpoint`: the cache stays truthful outside them. */
  lemma ReportsGrow(cfg: Config, s: Daemon, t: Daemon)
    requires Inv(cfg, s) && WellFormedState(cfg, t)
    requires t.state == s.state && t.pending == s.pending && t.rules == s.rules && t.disk == s.disk
    requires s.dirty.Some? ==> t.dirty.Some? && forall d :: d in s.dirty.value ==> d in t.dirty.value
    requires forall d :: d in Reports(s) ==> d in Reports(t) || InCheckpointDir(d)
    ensures Inv(cfg, t)
  {
    if s.state.Some? && s.pending.Some? && !HasIgnoreFile(t.dirty.value) {
      assert ContextOf(cfg, t) == ContextOf(cfg, s);
      forall q | FileLevel(ContextOf(cfg, s), s.disk, s.state.value.files, q) && !CoveredIn(t, q)
        ensures Agrees(cfg, t, q)
      {
        if CoveredIn(s, q) {
          CoverMonotone(Reports(s), Reports(t), s.state.value.files, s.pending.value.files, q);
        }
        assert Agrees(cfg, s, q);
      }
    }
  }

  lemma WatchWellFormed(cfg: Config, s: Daemon, p: Path)
    requires WellFormedState(cfg, s)
    ensures WellFormedState(cfg, AfterWatch(cfg, s, p))
  {
    var t := AfterWatch(cfg, s, p);
    assert t.pending.Some? ==> ContextOf(cfg, t) == ContextOf(cfg, s);
  }

  /** A report that does not drop the cached map is added to the dirty or the buffered paths. */
  lemma WatchAddsReport(cfg: Config, s: Daemon, p: Path)
    requires WellFormedState(cfg, s) && AfterWatch(cfg, s, p).pending.Some?
    ensures var t := AfterWatch(cfg, s, p);
            && t.state == s.state && t.pending == s.pending && t.rules == s.rules && t.disk == s.disk
            && (s.dirty.Some? ==> t.dirty.Some? && forall d :: d in s.dirty.value ==> d in t.dirty.value)
            && (forall d :: d in Reports(s) ==> d in Reports(t) || InCheckpointDir(d))
  {
  }

  lemma WatchKeepsInv(cfg: Config, s: Daemon, p: Path)
    requires Inv(cfg, s)
    ensures Inv(cfg, Step(cfg, s, Watch(p)))
  {
    var t := AfterWatch(cfg, s, p);
    WatchWellFormed(cfg, s, p);
    if t.pending.Some? {
      WatchAddsReport(cfg, s, p);
      ReportsGrow(cfg, s, t);
    }
  }

  lemma BeginKeepsInv(cfg: Config, s: Daemon)
    requires Inv(cfg, s) && Legal(cfg, s, BeginVcs)
    ensures Inv(cfg, Step(cfg, s, BeginVcs))
  {
  }

  lemma EndKeepsInv(cfg: Config, s: Daemon, order: seq<Path>)
    requires Inv(cfg, s) && Legal(cfg, s, EndVcs(order))
    ensures Inv(cfg, Step(cfg, s, EndVcs(order)))
  {
    var t := Step(cfg, s, EndVcs(order));
    if s.state.Some? && s.pending.Some? && !HasIgnoreFile(t.dirty.value) {
      assert !HasIgnoreFile(s.dirty.value) by {
        assert forall p :: p in s.dirty.value ==> p in t.dirty.value;
      }
      assert order == [] by {
        assert s.buffered.Some? ==> forall p :: p in s.buffered.value ==> p in t.dirty.value;
        NonEmptyHasMember(order);
      }
      assert Reports(t) == Reports(s);
      assert ContextOf(cfg, t) == ContextOf(cfg, s);
      assert forall p :: CoveredIn(t, p) <==> CoveredIn(s, p);
      assert forall p :: Agrees(cfg, t, p) <==> Agrees(cfg, s, p);
    }
  }

  // ---- Refresh ----

  /** What is known before the refresh path is chosen. */
  ghost predicate Ready(cfg: Config, s: Daemon) {
    Inv(cfg, s) && s.state.Some? && (s.pending.Some? ==> !HasIgnoreFile(s.dirty.value))
  }

  lemma PreparedReady(cfg: Config, s: Daemon, loaded: WorkspaceState, order: seq<Path>)
    requires Inv(cfg, s) && Legal(cfg, s, RefreshCall(false, loaded, order))
    ensures Ready(cfg, Prepared(cfg, s, loaded, order))
  {
    var t := Prepared(cfg, s, loaded, order);
    if t.pending.Some? {
      assert order == [] && t == s;
      assert IgnoreFiles(s.dirty.value) == {};
      assert forall p :: p in s.dirty.value && IsIgnoreFile(p) ==> p in IgnoreFiles(s.dirty.value);
    }
  }

  lemma PreparedWellFormed(cfg: Config, s: Daemon, loaded: WorkspaceState, order: seq<Path>)
    requires WellFormedState(cfg, s) && LegalRefresh(s, loaded, order)
    ensures WellFormedState(cfg, Prepared(cfg, s, loaded, order))
  {
  }

  /** Reports that remain after a refresh: those buffered by a running operation or still in flight. */
  function Remaining(s: Daemon): set<Path> {
    (if s.buffered.Some? then s.buffered.value else {}) + s.inflight
  }

  ghost predicate Awaited(t: Daemon, p: Path)
    requires t.state.Some? && t.pending.Some?
  {
    Covered(Remaining(t), t.state.value.files, t.pending.value.files, p)
  }

  /** The stored result agrees with a full refresh wherever no remaining report covers. */
  ghost predicate ResultAgrees(cfg: Config, t: Daemon) {
    && t.state.Some? && t.pending.Some? && t.dirty == Some({})
    && forall p :: FileLevel(ContextOf(cfg, t), t.disk, t.state.value.files, p) && !Awaited(t, p) ==> Agrees(cfg, t, p)
  }

  lemma ContextAfterSettling(cfg: Config, s: Daemon, pending: Pending, base: Baseline)
    requires s.state.Some? && SameFiles(s.state.value.files, base)
    ensures ContextOf(cfg, Refreshed(s, pending, base)) == ContextOf(cfg, s)
  {
  }

  lemma FullRefreshTrue(cfg: Config, s: Daemon)
    requires Ready(cfg, s)
    ensures var t := AfterFull(cfg, s);
            WellFormedState(cfg, t) && t.pending.Some? && t.dirty == Some({}) && forall p :: Agrees(cfg, t, p)
  {
    var c, base := ContextOf(cfg, s), s.state.value.files;
    var t := AfterFull(cfg, s);
    var settled := t.state.value.files;
    FullRefresh.SettledValid(c, s.disk, base);
    ContextAfterSettling(cfg, s, t.pending.value, settled);
    FullSane(c, s.disk, base);
    assert settled.Keys == base.Keys;
    FullSettles(c, s.disk, base);
    forall p
      ensures Agrees(cfg, t, p)
    {
      SettlingKeepsFull(c, s.disk, base, settled, p);
    }
    assert IdsKept(base, settled, t.pending.value.files);
  }

  /** Settling keeps ids, so a map that matched the old baseline matches the new one. */
  ghost predicate IdsKept(base: Baseline, settled: Baseline, files: Files) {
    SameFiles(base, settled) && FullRefresh.IdsMatch(base, files) ==> FullRefresh.IdsMatch(settled, files)
  }

  lemma IncrementalWellFormed(cfg: Config, s: Daemon)
    requires Ready(cfg, s) && s.pending.Some?
    ensures WellFormedState(cfg, AfterIncremental(cfg, s))
    ensures ContextOf(cfg, AfterIncremental(cfg, s)) == ContextOf(cfg, s)
  {
    var c, base := ContextOf(cfg, s), s.state.value.files;
    var t := AfterIncremental(cfg, s);
    var settled := t.state.value.files;
    ContextValid(cfg, s);
    ContextAfterSettling(cfg, s, t.pending.value, settled);
    IncrementalSane(c, s.disk, base, s.pending.value.files, s.dirty.value);
    assert settled.Keys == base.Keys;
    assert IdsKept(base, settled, t.pending.value.files);
  }

  lemma IncrementalRefreshTrue(cfg: Config, s: Daemon)
    requires Ready(cfg, s) && s.pending.Some?
    ensures WellFormedState(cfg, AfterIncremental(cfg, s)) && ResultAgrees(cfg, AfterIncremental(cfg, s))
  {
    IncrementalWellFormed(cfg, s);
    UncoveredCacheAgrees(cfg, s);
    ContextValid(cfg, s);
    IncrementalResultTrue(ContextOf(cfg, s), s.disk, s.state.value.files, s.pending.value.files, s.dirty.value, Remaining(s));
    IncrementalResultIs(cfg, s);
  }

  /** The invariant, read on values. */
  lemma UncoveredCacheAgrees(cfg: Config, s: Daemon)
    requires Ready(cfg, s) && s.pending.Some?
    ensures var c, base, cached := ContextOf(cfg, s), s.state.value.files, s.pending.value.files;
            forall p :: FileLevel(c, s.disk, base, p) && !Covered(s.dirty.value + Remaining(s), base, cached, p) ==>
              Get(cached, p) == FullRefresh.FullAt(c, s.disk, base, p)
  {
    assert Reports(s) == s.dirty.value + Remaining(s);
    forall p | FileLevel(ContextOf(cfg, s), s.disk, s.state.value.files, p) && !CoveredIn(s, p)
      ensures Agrees(cfg, s, p)
    {
    }
  }

  lemma IncrementalResultIs(cfg: Config, s: Daemon)
    requires WellFormedState(cfg, s) && s.state.Some? && s.pending.Some?
    requires ContextOf(cfg, AfterIncremental(cfg, s)) == ContextOf(cfg, s)
    requires var c, base := ContextOf(cfg, s), s.state.value.files;
             var files := IncrementalRefresh.IncrementalFiles(c, s.disk, base, s.pending.value.files, s.dirty.value);
             var settled := IncrementalRefresh.SettledByIncremental(c, s.disk, base, s.pending.value.files, s.dirty.value);
             forall p :: FileLevel(c, s.disk, settled, p) && !Covered(Remaining(s), settled, files, p) ==>
               Get(files, p) == FullRefresh.FullAt(c, s.disk, settled, p)
    ensures ResultAgrees(cfg, AfterIncremental(cfg, s))
  {
  }

  lemma FastPathTrue(cfg: Config, s: Daemon)
    requires Ready(cfg, s) && s.pending.Some? && s.dirty.value == {}
    ensures ResultAgrees(cfg, s)
  {
    assert Reports(s) == Remaining(s);
    forall p | FileLevel(ContextOf(cfg, s), s.disk, s.state.value.files, p) && !Awaited(s, p)
      ensures Agrees(cfg, s, p)
    {
      assert !CoveredIn(s, p);
    }
  }

  /** Whatever path the dispatcher takes, the stored result is that of a full refresh wherever no report remains. */
  lemma RefreshTrue(cfg: Config, s: Daemon, force: bool, loaded: WorkspaceState, order: seq<Path>)
    requires Inv(cfg, s) && Legal(cfg, s, RefreshCall(force, loaded, order))
    ensures var t := Step(cfg, s, RefreshCall(force, loaded, order));
            WellFormedState(cfg, t) && ResultAgrees(cfg, t)
  {
    var ready := Prepared(cfg, s, loaded, order);
    PreparedReady(cfg, s, loaded, order);
    if FastPath(ready, force) {
      FastPathTrue(cfg, ready);
    } else if IncrementalPath(ready, force) {
      IncrementalRefreshTrue(cfg, ready);
    } else {
      FullRefreshTrue(cfg, ready);
    }
  }

  lemma FullIgnoresCache(cfg: Config, s: Daemon)
    requires s.state.Some?
    ensures AfterFull(cfg, s.(pending := None)) == AfterFull(cfg, s)
  {
    assert ContextOf(cfg, s.(pending := None)) == ContextOf(cfg, s);
  }

  lemma PreparedUncached(cfg: Config, s: Daemon, loaded: WorkspaceState, order: seq<Path>)
    ensures Prepared(cfg, s.(pending := None), loaded, order) == Prepared(cfg, s, loaded, order).(pending := None)
  {
  }

  lemma ForcedIsFull(cfg: Config, s: Daemon, loaded: WorkspaceState, order: seq<Path>)
    requires ValidConfig(cfg) && ValidDisk(s.disk)
    ensures AfterRefresh(cfg, s, true, loaded, order) == AfterFull(cfg, Prepared(cfg, s, loaded, order))
  {
  }

  /** A rescan's refresh is forced, so whatever map was cached under the old rules is not read. */
  lemma RescanIsForced(cfg: Config, s: Daemon, rules: Patterns, loaded: WorkspaceState, order: seq<Path>)
    requires ValidConfig(cfg) && ValidDisk(s.disk)
    ensures Step(cfg, s, Rescan(rules, loaded, order)) ==
            Step(cfg, s.(rules := Some(rules), pending := None), RefreshCall(true, loaded, order))
  {
    var scanned := s.(rules := Some(rules));
    ForcedIsFull(cfg, scanned, loaded, order);
    ForcedIsFull(cfg, scanned.(pending := None), loaded, order);
    PreparedUncached(cfg, scanned, loaded, order);
    FullIgnoresCache(cfg, Prepared(cfg, scanned, loaded, order));
  }

  /** The state from which a rescan's refresh might as well start. */
  lemma RescanFrom(cfg: Config, s: Daemon, rules: Patterns, loaded: WorkspaceState, order: seq<Path>)
    requires Inv(cfg, s) && Legal(cfg, s, Rescan(rules, loaded, order))
    ensures Inv(cfg, s.(rules := Some(rules), pending := None))
    ensures Legal(cfg, s.(rules := Some(rules), pending := None), RefreshCall(true, loaded, order))
  {
  }

  /** After new rules have been read the stored result is true under them. */
  lemma RescanTrue(cfg: Config, s: Daemon, rules: Patterns, loaded: WorkspaceState, order: seq<Path>)
    requires Inv(cfg, s) && Legal(cfg, s, Rescan(rules, loaded, order))
    ensures var t := Step(cfg, s, Rescan(rules, loaded, order));
            WellFormedState(cfg, t) && ResultAgrees(cfg, t)
  {
    RescanIsForced(cfg, s, rules, loaded, order);
    RescanFrom(cfg, s, rules, loaded, order);
    RefreshTrue(cfg, s.(rules := Some(rules), pending := None), true, loaded, order);
  }

  lemma ResultGivesInv(cfg: Config, t: Daemon)
    requires WellFormedState(cfg, t) && ResultAgrees(cfg, t)
    ensures Inv(cfg, t)
  {
    assert Reports(t) == Remaining(t);
    forall p | FileLevel(ContextOf(cfg, t), t.disk, t.state.value.files, p) && !CoveredIn(t, p)
      ensures Agrees(cfg, t, p)
    {
    }
  }

  // ---- Runs ----

  lemma StepKeepsInv(cfg: Config, s: Daemon, e: Event)
    requires Inv(cfg, s) && Legal(cfg, s, e)
    ensures Inv(cfg, Step(cfg, s, e))
  {
    match e
    case Edit(disk, reports) => EditKeepsInv(cfg, s, disk, reports);
    case Watch(p) => WatchKeepsInv(cfg, s, p);
    case RefreshCall(force, loaded, order) =>
      RefreshTrue(cfg, s, force, loaded, order);
      ResultGivesInv(cfg, Step(cfg, s, e));
    case Rescan(rules, loaded, order) =>
      RescanTrue(cfg, s, rules, loaded, order);
      ResultGivesInv(cfg, Step(cfg, s, e));
    case BeginVcs => BeginKeepsInv(cfg, s);
    case EndVcs(order) => EndKeepsInv(cfg, s, order);
    case Reload(newState) =>
    case Mark(paths) =>
    case Unmark(paths) =>
    case Unlink =>
  }

  ghost predicate LegalRun(cfg: Config, s: Daemon, events: seq<Event>)
    requires ValidConfig(cfg) && ValidDisk(s.disk)
    decreases |events|
  {
    events == [] ||
    (Legal(cfg, s, events[0]) && ValidDisk(Step(cfg, s, events[0]).disk) && LegalRun(cfg, Step(cfg, s, events[0]), events[1..]))
  }

  ghost function Run(cfg: Config, s: Daemon, events: seq<Event>): (t: Daemon)
    requires ValidConfig(cfg) && ValidDisk(s.disk) && LegalRun(cfg, s, events)
    ensures ValidDisk(t.disk)
    decreases |events|
  {
    if events == [] then s else Run(cfg, Step(cfg, s, events[0]), events[1..])
  }

  /** A daemon that has just been created. */
  predicate Initial(s: Daemon) {
    s.state.None? && s.dirty.None? && s.pending.None? && s.tracked.None? && !s.vcsActive && s.buffered.None?
  }

  lemma {:induction false} RunKeepsInv(cfg: Config, s: Daemon, events: seq<Event>)
    requires Inv(cfg, s) && LegalRun(cfg, s, events)
    ensures Inv(cfg, Run(cfg, s, events))
    decreases |events|
  {
    if events != [] {
      StepKeepsInv(cfg, s, events[0]);
      RunKeepsInv(cfg, Step(cfg, s, events[0]), events[1..]);
    }
  }

  /** Over every run from a new daemon, a cached map agrees with a fresh full refresh at every file-level path
      outside what dirty, buffered and undelivered reports cover. */
  lemma CacheAgreesOverEveryRun(cfg: Config, s: Daemon, events: seq<Event>)
    requires ValidConfig(cfg) && ValidDisk(s.disk) && Initial(s) && LegalRun(cfg, s, events)
    ensures Inv(cfg, Run(cfg, s, events))
  {
    RunKeepsInv(cfg, s, events);
  }

  /** No report is lost: once every report has been delivered and no operation is running, a refresh returns what a
      full refresh would at every file-level path, whatever happened before. What a full refresh itself cannot see,
      such as an edit made before a deferred hash is first taken, stays unseen. */
  lemma NoEditLost(cfg: Config, s: Daemon, events: seq<Event>, force: bool, loaded: WorkspaceState, order: seq<Path>)
    requires ValidConfig(cfg) && ValidDisk(s.disk) && Initial(s) && LegalRun(cfg, s, events)
    requires var before := Run(cfg, s, events);
             !before.vcsActive && before.inflight == {} && Legal(cfg, before, RefreshCall(force, loaded, order))
    ensures var t := Step(cfg, Run(cfg, s, events), RefreshCall(force, loaded, order));
            && t.state.Some? && t.pending.Some?
            && forall p :: FileLevel(ContextOf(cfg, t), t.disk, t.state.value.files, p) ==> Agrees(cfg, t, p)
  {
    CacheAgreesOverEveryRun(cfg, s, events);
    QuietRefreshTrue(cfg, Run(cfg, s, events), force, loaded, order);
  }

  /** A refresh leaves undelivered and buffered reports as they are. */
  lemma RefreshKeepsReports(cfg: Config, s: Daemon, force: bool, loaded: WorkspaceState, order: seq<Path>)
    requires ValidConfig(cfg) && ValidDisk(s.disk)
    ensures Remaining(Step(cfg, s, RefreshCall(force, loaded, order))) == Remaining(s)
  {
  }

  lemma TrueEverywhere(cfg: Config, t: Daemon, p: Path)
    requires ResultAgrees(cfg, t) && Remaining(t) == {}
    ensures FileLevel(ContextOf(cfg, t), t.disk, t.state.value.files, p) ==> Agrees(cfg, t, p)
  {
    assert !Awaited(t, p);
  }

  lemma QuietRefreshTrue(cfg: Config, s: Daemon, force: bool, loaded: WorkspaceState, order: seq<Path>)
    requires Inv(cfg, s) && Legal(cfg, s, RefreshCall(force, loaded, order)) && !s.vcsActive && s.inflight == {}
    ensures var t := Step(cfg, s, RefreshCall(force, loaded, order));
            && t.state.Some? && t.pending.Some?
            && forall p :: FileLevel(ContextOf(cfg, t), t.disk, t.state.value.files, p) ==> Agrees(cfg, t, p)
  {
    var t := Step(cfg, s, RefreshCall(force, loaded, order));
    RefreshTrue(cfg, s, force, loaded, order);
    RefreshKeepsReports(cfg, s, force, loaded, order);
    forall p
      ensures FileLevel(ContextOf(cfg, t), t.disk, t.state.value.files, p) ==> Agrees(cfg, t, p)
    {
      TrueEverywhere(cfg, t, p);
    }
  }

  /** And then every entry is that of a directory or lies under tracked directories only: of what is inside an untracked
      directory no single entry remains, however it got there. */
  lemma EntriesUnderTracked(cfg: Config, s: Daemon, force: bool, loaded: WorkspaceState, order: seq<Path>, p: Path)
    requires Inv(cfg, s) && Legal(cfg, s, RefreshCall(force, loaded, order)) && !s.vcsActive && s.inflight == {}
    ensures var t := Step(cfg, s, RefreshCall(force, loaded, order));
            && t.state.Some? && t.pending.Some?
            && (p in t.pending.value.files && !InCheckpointDir(p) && !IsDir(t.disk, p) ==> AllTrackedAbove(p, ContextOf(cfg, t).tracked))
  {
    var t := Step(cfg, s, RefreshCall(force, loaded, order));
    QuietRefreshTrue(cfg, s, force, loaded, order);
    RefreshTrue(cfg, s, force, loaded, order);
    if !InCheckpointDir(p) && !IsDir(t.disk, p) {
      EntryUnderTracked(cfg, t, p);
    }
  }

  lemma EntryUnderTracked(cfg: Config, t: Daemon, p: Path)
    requires WellFormedState(cfg, t) && t.state.Some? && t.pending.Some? && !InCheckpointDir(p) && !IsDir(t.disk, p)
    requires FileLevel(ContextOf(cfg, t), t.disk, t.state.value.files, p) ==> Agrees(cfg, t, p)
    ensures p in t.pending.value.files ==> AllTrackedAbove(p, ContextOf(cfg, t).tracked)
  {
    FileLevelIff(cfg, t, p);
    if p in t.state.value.files {
      OwnDirsTracked(cfg, t, p);
    } else if !AllTrackedAbove(p, ContextOf(cfg, t).tracked) {
      NoEntryInside(cfg, t, p);
    }
  }
}
