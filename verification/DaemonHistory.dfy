/** What the daemon holds, told from the events alone: the loaded state and its marks, running operations, rules, reports. */
module DaemonHistory {
  import opened Wrappers
  import opened Paths
  import opened Workspace
  import opened TrackedDirs
  import FullRefresh
  import IncrementalRefresh
  import opened Agreement
  import opened DaemonRuns
  import opened PendingEntries

  // ---- The loaded state ----

  ghost predicate Marks(e: Event, p: Path) {
    e.Mark? && p in e.paths
  }

  ghost predicate Unmarks(e: Event, p: Path) {
    e.Unmark? && p in e.paths
  }

  /** p was marked and not unmarked since, or marked from the start and never unmarked. */
  ghost predicate MarkedAfter(marks: set<Path>, events: seq<Event>, p: Path) {
    || (exists i :: 0 <= i < |events| && Marks(events[i], p) && forall j :: i < j < |events| ==> !Unmarks(events[j], p))
    || (p in marks && forall j :: 0 <= j < |events| ==> !Unmarks(events[j], p))
  }

  /** The held state is st, but for hashes and mtimes filled in and for the marks, which are those of the events. */
  ghost predicate HoldsState(held: Option<WorkspaceState>, st: WorkspaceState, events: seq<Event>) {
    && held.Some? && SameFiles(st.files, held.value.files)
    && forall p :: p in held.value.markedForAdd <==> MarkedAfter(st.markedForAdd, events, p)
  }

  ghost predicate Replaces(e: Event) {
    e.Reload? || e.Unlink?
  }

  lemma SameFilesTrans(a: Baseline, b: Baseline, c: Baseline)
    requires SameFiles(a, b) && SameFiles(b, c)
    ensures SameFiles(a, c)
  {
    assert forall p :: p in a ==> p in a.Keys && p in b.Keys && p in b;
  }

  function MarksAfterOne(marks: set<Path>, e: Event): set<Path> {
    match e
    case Mark(paths) => marks + paths
    case Unmark(paths) => marks - paths
    case _ => marks
  }

  /** t's state is st but for hashes and mtimes filled in. */
  ghost predicate Kept(st: WorkspaceState, t: Daemon) {
    t.state.Some? && SameFiles(st.files, t.state.value.files) && t.state.value.markedForAdd == st.markedForAdd
  }

  lemma PreparedState(cfg: Config, s: Daemon, loaded: WorkspaceState, order: seq<Path>)
    ensures Prepared(cfg, s, loaded, order).state == Some(if s.state.Some? then s.state.value else loaded)
  {
  }

  lemma FullKeepsFiles(cfg: Config, s: Daemon)
    requires s.state.Some?
    ensures Kept(s.state.value, AfterFull(cfg, s))
  {
    FullRefresh.SettledValid(ContextOf(cfg, s), s.disk, s.state.value.files);
  }

  lemma IncrementalKeepsFiles(cfg: Config, s: Daemon)
    requires ValidConfig(cfg) && ValidDisk(s.disk) && s.state.Some? && s.pending.Some? && s.dirty.Some?
    ensures Kept(s.state.value, AfterIncremental(cfg, s))
  {
  }

  lemma RefreshKeepsFiles(cfg: Config, s: Daemon, force: bool, loaded: WorkspaceState, order: seq<Path>)
    requires ValidConfig(cfg) && ValidDisk(s.disk)
    ensures Kept(if s.state.Some? then s.state.value else loaded, AfterRefresh(cfg, s, force, loaded, order))
  {
    var ready := Prepared(cfg, s, loaded, order);
    PreparedState(cfg, s, loaded, order);
    if FastPath(ready, force) {
    } else if IncrementalPath(ready, force) {
      IncrementalKeepsFiles(cfg, ready);
    } else {
      FullKeepsFiles(cfg, ready);
    }
  }

  lemma OtherState(cfg: Config, s: Daemon, e: Event)
    requires ValidConfig(cfg) && ValidDisk(s.disk) && s.state.Some? && !Replaces(e) && !e.RefreshCall? && !e.Rescan?
    ensures Step(cfg, s, e).state == Some(s.state.value.(markedForAdd := MarksAfterOne(s.state.value.markedForAdd, e)))
  {
  }

  lemma StepState(cfg: Config, s: Daemon, e: Event)
    requires ValidConfig(cfg) && ValidDisk(s.disk) && s.state.Some? && !Replaces(e)
    ensures var t := Step(cfg, s, e);
            Kept(s.state.value.(markedForAdd := MarksAfterOne(s.state.value.markedForAdd, e)), t)
  {
    match e
    case RefreshCall(force, loaded, order) => RefreshKeepsFiles(cfg, s, force, loaded, order);
    case Rescan(rules, loaded, order) => RefreshKeepsFiles(cfg, s.(rules := Some(rules)), true, loaded, order);
    case _ => OtherState(cfg, s, e);
  }

  lemma MarkedFirst(marks: set<Path>, events: seq<Event>, p: Path)
    requires events != []
    ensures MarkedAfter(marks, events, p) <==> MarkedAfter(MarksAfterOne(marks, events[0]), events[1..], p)
  {
    var rest := events[1..];
    assert forall j :: 0 <= j < |rest| ==> rest[j] == events[j + 1];
    assert forall j :: 0 < j < |events| ==> events[j] == rest[j - 1];
    if i :| 0 <= i < |events| && Marks(events[i], p) && forall j :: i < j < |events| ==> !Unmarks(events[j], p) {
      if i > 0 {
        assert Marks(rest[i - 1], p);
      }
    }
    if i :| 0 <= i < |rest| && Marks(rest[i], p) && forall j :: i < j < |rest| ==> !Unmarks(rest[j], p) {
      assert Marks(events[i + 1], p);
    }
    if p in MarksAfterOne(marks, events[0]) && (forall j :: 0 <= j < |rest| ==> !Unmarks(rest[j], p)) {
      assert Marks(events[0], p) || p in marks;
      assert forall j :: 0 < j < |events| ==> !Unmarks(events[j], p);
    }
  }

  /** Until it is replaced, the held state has the keys, ids, changelists and sizes it had, and the marks are those the
      events since have made and not taken back. */
  lemma {:induction false} HeldSince(cfg: Config, s: Daemon, since: seq<Event>)
    requires ValidConfig(cfg) && ValidDisk(s.disk) && s.state.Some? && LegalRun(cfg, s, since)
    requires forall i :: 0 <= i < |since| ==> !Replaces(since[i])
    ensures HoldsState(Run(cfg, s, since).state, s.state.value, since)
    decreases |since|
  {
    if since != [] {
      var t := Step(cfg, s, since[0]);
      StepState(cfg, s, since[0]);
      HeldSince(cfg, t, since[1..]);
      SameFilesTrans(s.state.value.files, t.state.value.files, Run(cfg, s, since).state.value.files);
      forall p
        ensures MarkedAfter(s.state.value.markedForAdd, since, p) <==> MarkedAfter(t.state.value.markedForAdd, since[1..], p)
      {
        MarkedFirst(s.state.value.markedForAdd, since, p);
      }
    }
  }

  /** The event loads n: a reload does in any state, a refresh or a rescan when no state is held. */
  ghost predicate LoadsState(s: Daemon, e: Event, n: WorkspaceState) {
    || e == Reload(n)
    || (s.state.None? && (e.RefreshCall? || e.Rescan?) && e.loaded == n)
  }

  /** Over every run, what is held is the last state loaded or reloaded, with the marks of the events since. */
  lemma HeldIsLastLoaded(cfg: Config, s: Daemon, load: Event, n: WorkspaceState, since: seq<Event>)
    requires ValidConfig(cfg) && ValidDisk(s.disk) && LegalRun(cfg, s, [load] + since) && LoadsState(s, load, n)
    requires forall i :: 0 <= i < |since| ==> !Replaces(since[i])
    ensures HoldsState(Run(cfg, s, [load] + since).state, n, since)
  {
    var t := Step(cfg, s, load);
    assert ([load] + since)[1..] == since;
    match load {
      case RefreshCall(force, loaded, order) => RefreshKeepsFiles(cfg, s, force, loaded, order);
      case Rescan(rules, loaded, order) => RefreshKeepsFiles(cfg, s.(rules := Some(rules)), true, loaded, order);
      case _ =>
    }
    HeldSince(cfg, t, since);
    SameFilesTrans(n.files, t.state.value.files, Run(cfg, s, [load] + since).state.value.files);
  }

  /** And after an unlink, or before anything was loaded, nothing is held. */
  lemma {:induction false} NothingHeld(cfg: Config, s: Daemon, events: seq<Event>)
    requires ValidConfig(cfg) && ValidDisk(s.disk) && LegalRun(cfg, s, events)
    requires s.state.None? || (events != [] && events[0].Unlink?)
    requires forall i :: 0 <= i < |events| ==> !(events[i].Reload? || events[i].RefreshCall? || events[i].Rescan?)
    ensures events != [] || s.state.None? ==> Run(cfg, s, events).state == None
    decreases |events|
  {
    if events != [] {
      NothingHeld(cfg, Step(cfg, s, events[0]), events[1..]);
    }
  }

  /** An unlinked workspace leaves no trace in the manager's maps. */
  lemma UnlinkLaw(cfg: Config, s: Daemon, t: Daemon)
    requires ValidConfig(cfg) && ValidDisk(s.disk) && t == Step(cfg, s, Unlink)
    ensures t.state == None && t.dirty == None && t.pending == None && t.tracked == None && t.rules == None
    ensures !t.vcsActive && t.buffered == None
  {
  }

  // ---- A refresh after a reload ----

  /** The directories above the files and marks of n, and the root. */
  ghost predicate DirsOf(n: WorkspaceState, dirs: set<Path>) {
    forall a :: a in dirs <==> a == "" || exists p :: p in n.files.Keys + n.markedForAdd && Under(a, DropSlashes(p))
  }

  lemma DirsOfUnique(n: WorkspaceState, dirs: set<Path>)
    requires DirsOf(n, dirs)
    ensures dirs == TrackedDirSet(n.files.Keys, n.markedForAdd)
  {
    var tracked := TrackedDirSet(n.files.Keys, n.markedForAdd);
    assert IsTrackedDirSet(tracked, n.files.Keys, n.markedForAdd);
    forall a
      ensures a in dirs <==> a in tracked
    {
      assert forall p :: Above(a, p) <==> Under(a, DropSlashes(p));
    }
  }

  /** The refresh after a reload judges every path, whatever was held, cached or reported before, by the baseline, the
      marks and the tracked directories of the reloaded state. */
  lemma ReloadThenRefresh(cfg: Config, s: Daemon, n: WorkspaceState, m: Daemon, force: bool, loaded: WorkspaceState,
                          order: seq<Path>, t: Daemon, dirs: set<Path>, p: Path)
    requires Inv(cfg, s) && Legal(cfg, s, Reload(n)) && m == Step(cfg, s, Reload(n))
    requires Legal(cfg, m, RefreshCall(force, loaded, order)) && t == Step(cfg, m, RefreshCall(force, loaded, order))
    requires DirsOf(n, dirs)
    ensures t.pending.Some?
    ensures EntryLaw(Context(cfg.w, RulesOf(s), dirs, n.markedForAdd, cfg.checkouts), s.disk, n.files, p, Get(t.pending.value.files, p))
  {
    assert order == [] by {
      NonEmptyHasMember(order);
      assert IgnoreFiles({}) == {};
    }
    DirsOfUnique(n, dirs);
    ContextValid(cfg, m);
    assert t == AfterFull(cfg, m);
    FullEntryLaw(ContextOf(cfg, m), s.disk, n.files, p);
    assert Get(FullRefresh.FullFiles(ContextOf(cfg, m), s.disk, n.files), p) == FullRefresh.FullAt(ContextOf(cfg, m), s.disk, n.files, p);
  }

  // ---- Operations, rules, reports ----

  /** Some event of the first kind with none of the second after it, or the start had it and none of the second came. */
  ghost predicate Since(before: bool, events: seq<Event>, on: Event -> bool, off: Event -> bool) {
    || (exists i :: 0 <= i < |events| && on(events[i]) && forall j :: i < j < |events| ==> !off(events[j]))
    || (before && forall j :: 0 <= j < |events| ==> !off(events[j]))
  }

  lemma SinceFirst(before: bool, events: seq<Event>, on: Event -> bool, off: Event -> bool)
    requires events != [] && (on(events[0]) ==> !off(events[0]))
    ensures Since(before, events, on, off) <==>
            Since(on(events[0]) || (before && !off(events[0])), events[1..], on, off)
  {
    var rest := events[1..];
    assert forall j :: 0 <= j < |rest| ==> rest[j] == events[j + 1];
    assert forall j :: 0 < j < |events| ==> events[j] == rest[j - 1];
    if i :| 0 <= i < |events| && on(events[i]) && forall j :: i < j < |events| ==> !off(events[j]) {
      if i > 0 {
        assert on(rest[i - 1]);
      }
    }
    if i :| 0 <= i < |rest| && on(rest[i]) && forall j :: i < j < |rest| ==> !off(rest[j]) {
      assert on(events[i + 1]);
    }
    if forall j :: 0 <= j < |rest| ==> !off(rest[j]) {
      assert forall j :: 0 < j < |events| ==> !off(events[j]);
    }
  }

  /** An operation is running exactly when one was begun, or running at the start, and neither ended nor unlinked since. */
  lemma {:induction false} OperatingIff(cfg: Config, s: Daemon, events: seq<Event>)
    requires ValidConfig(cfg) && ValidDisk(s.disk) && LegalRun(cfg, s, events)
    ensures Run(cfg, s, events).vcsActive <==>
            Since(s.vcsActive, events, (e: Event) => e.BeginVcs?, (e: Event) => e.EndVcs? || e.Unlink?)
    decreases |events|
  {
    if events != [] {
      var t := Step(cfg, s, events[0]);
      OperatingIff(cfg, t, events[1..]);
      FlagStep(cfg, s, events[0]);
      SinceFirst(s.vcsActive, events, (e: Event) => e.BeginVcs?, (e: Event) => e.EndVcs? || e.Unlink?);
    }
  }

  /** Ignore rules are held exactly when they were scanned, or held at the start, and the workspace not unlinked since. */
  lemma {:induction false} RulesHeldIff(cfg: Config, s: Daemon, events: seq<Event>)
    requires ValidConfig(cfg) && ValidDisk(s.disk) && LegalRun(cfg, s, events)
    ensures Run(cfg, s, events).rules.Some? <==> Since(s.rules.Some?, events, (e: Event) => e.Rescan?, (e: Event) => e.Unlink?)
    decreases |events|
  {
    if events != [] {
      var t := Step(cfg, s, events[0]);
      RulesHeldIff(cfg, t, events[1..]);
      RulesStep(cfg, s, events[0]);
      SinceFirst(s.rules.Some?, events, (e: Event) => e.Rescan?, (e: Event) => e.Unlink?);
    }
  }

  lemma FlagStep(cfg: Config, s: Daemon, e: Event)
    requires ValidConfig(cfg) && ValidDisk(s.disk)
    ensures Step(cfg, s, e).vcsActive <==> e.BeginVcs? || (s.vcsActive && !(e.EndVcs? || e.Unlink?))
  {
  }

  lemma {:induction false} HandledSome(w: World, disk: Disk, rules: Option<Patterns>, order: seq<Path>)
    ensures HandleIgnoreFiles(w, disk, rules, order).Some? <==> rules.Some?
    decreases |order|
  {
    if order != [] {
      HandledSome(w, disk, rules, order[..|order| - 1]);
    }
  }

  lemma RulesStep(cfg: Config, s: Daemon, e: Event)
    requires ValidConfig(cfg) && ValidDisk(s.disk)
    ensures Step(cfg, s, e).rules.Some? <==> e.Rescan? || (s.rules.Some? && !e.Unlink?)
  {
    match e
    case RefreshCall(force, loaded, order) => HandledSome(cfg.w, s.disk, s.rules, order);
    case Rescan(rules, loaded, order) => HandledSome(cfg.w, s.disk, Some(rules), order);
    case EndVcs(order) => HandledSome(cfg.w, s.disk, s.rules, order);
    case _ =>
  }

  /** The reports the next refresh has to look at, now or once the running operation ends. */
  ghost predicate Noted(s: Daemon, q: Path) {
    (s.dirty.Some? && q in s.dirty.value) || (s.buffered.Some? && q in s.buffered.value)
  }

  ghost predicate Delivers(e: Event, q: Path) {
    e == Watch(q) && !(".checkpoint" <= q)
  }

  /** Between two refreshes exactly the delivered reports outside `.checkpoint` are noted, through operations too, and
      all of them as dirty when no operation is running. */
  lemma {:induction false} ReportsNoted(cfg: Config, s: Daemon, events: seq<Event>, q: Path)
    requires Inv(cfg, s) && s.state.Some? && LegalRun(cfg, s, events)
    requires forall i :: 0 <= i < |events| ==> !(events[i].RefreshCall? || events[i].Rescan? || Replaces(events[i]))
    ensures var t := Run(cfg, s, events);
            && (Noted(t, q) <==> Noted(s, q) || exists i :: 0 <= i < |events| && Delivers(events[i], q))
            && (!t.vcsActive ==> t.buffered == None && t.dirty.Some?)
    decreases |events|
  {
    if events != [] {
      var t := Step(cfg, s, events[0]);
      NotedStep(cfg, s, events[0], q);
      StepKeepsInv(cfg, s, events[0]);
      StepState(cfg, s, events[0]);
      ReportsNoted(cfg, t, events[1..], q);
      assert forall i :: 0 < i < |events| ==> events[i] == events[1..][i - 1];
    }
  }

  lemma NotedStep(cfg: Config, s: Daemon, e: Event, q: Path)
    requires Inv(cfg, s) && s.state.Some? && Legal(cfg, s, e) && !(e.RefreshCall? || e.Rescan? || Replaces(e))
    ensures Noted(Step(cfg, s, e), q) <==> Noted(s, q) || Delivers(e, q)
  {
  }

  /** Events that leave the cached map standing: only marks, loads, unlinks and reports of ignore files drop it. */
  lemma {:induction false} CacheKept(cfg: Config, s: Daemon, events: seq<Event>)
    requires ValidConfig(cfg) && ValidDisk(s.disk) && LegalRun(cfg, s, events)
    requires forall i :: 0 <= i < |events| ==>
               events[i].Edit? || events[i].BeginVcs? || events[i].EndVcs? || (events[i].Watch? && !IsIgnoreFile(events[i].path))
    ensures Run(cfg, s, events).pending == s.pending
    decreases |events|
  {
    if events != [] {
      assert Step(cfg, s, events[0]).pending == s.pending;
      CacheKept(cfg, Step(cfg, s, events[0]), events[1..]);
    }
  }

  // ---- Which list an ignore file belongs to ----

  /** A file's name is what follows its directory. */
  lemma {:induction false} BasenameJoin(dir: Path, name: string)
    requires '/' !in name
    ensures Basename(if dir == "" then name else dir + "/" + name) == name
    decreases |dir|
  {
    if dir != "" {
      var p := dir + "/" + name;
      var n := SegmentEnd(p, 0);
      assert n <= |dir| by { assert p[|dir|] == '/'; }
      if n == |dir| {
        assert p[n + 1..] == name;
        BasenameJoin("", name);
      } else {
        assert dir[n] == '/';
        assert p[n + 1..] == dir[n + 1..] + "/" + name;
        if dir[n + 1..] == "" {
          assert ("/" + name)[1..] == name;
          BasenameJoin("", name);
        } else {
          BasenameJoin(dir[n + 1..], name);
        }
      }
    }
  }

  /** Ignore files are those with one of the two names. */
  lemma IgnoreFileIff(p: Path)
    ensures IsIgnoreFile(p) <==> Basename(p) == ".chkignore" || Basename(p) == ".chkhidden"
  {
  }

  /** Re-reading an ignore file replaces its entry in the list its name says. */
  lemma IgnoreFileHandled(w: World, disk: Disk, rules: Patterns, p: Path)
    requires Basename(p) == ".chkignore"
    ensures HandleIgnoreFile(w, disk, Some(rules), p) == Some(Patterns(Reread(w, disk, rules.ignored, p), rules.hidden))
  {
  }

  lemma HiddenFileHandled(w: World, disk: Disk, rules: Patterns, p: Path)
    requires Basename(p) == ".chkhidden"
    ensures HandleIgnoreFile(w, disk, Some(rules), p) == Some(Patterns(rules.ignored, Reread(w, disk, rules.hidden, p)))
  {
    assert Basename(p)[4] == 'h';
  }

  lemma OtherFileHandled(w: World, disk: Disk, rules: Patterns, p: Path)
    requires Basename(p) != ".chkignore" && Basename(p) != ".chkhidden"
    ensures HandleIgnoreFile(w, disk, Some(rules), p) == Some(rules)
  {
  }
}
