/** The ignore rules held in memory over the daemon's runs. */
module RuleRuns {
  import opened Wrappers
  import opened Paths
  import opened Sequences
  import opened Workspace
  import TrackedDirs
  import opened DaemonRuns

  // ---- What is held for one ignore file ----

  function HeldFor(entries: seq<IgnoreEntry>, p: Path): seq<IgnoreEntry> {
    if entries == [] then []
    else if entries[0].path == p then [entries[0]] + HeldFor(entries[1..], p)
    else HeldFor(entries[1..], p)
  }

  /** The list an ignore file belongs to. */
  function ListOf(rules: Patterns, p: Path): seq<IgnoreEntry> {
    if Basename(p) == ".chkignore" then rules.ignored else rules.hidden
  }

  /** What reading the file now gives. */
  function Current(w: World, disk: Disk, p: Path): seq<IgnoreEntry> {
    if ExistsSync(disk, p) then [IgnoreEntry(p, w.parse(p, disk[p]))] else []
  }

  lemma {:induction false} HeldAppend(a: seq<IgnoreEntry>, b: seq<IgnoreEntry>, p: Path)
    ensures HeldFor(a + b, p) == HeldFor(a, p) + HeldFor(b, p)
    decreases |a|
  {
    if a == [] {
      assert a + b == b;
    } else {
      HeldAppend(a[1..], b, p);
      assert (a + b)[1..] == a[1..] + b;
    }
  }

  lemma {:induction false} HeldWithout(entries: seq<IgnoreEntry>, p: Path, q: Path)
    ensures HeldFor(WithoutEntry(entries, p), q) ==
            if q == p && HeldFor(entries, p) != [] then HeldFor(entries, p)[1..] else HeldFor(entries, q)
    decreases |entries|
  {
    if entries != [] && entries[0].path != p {
      HeldWithout(entries[1..], p, q);
      assert ([entries[0]] + WithoutEntry(entries[1..], p))[1..] == WithoutEntry(entries[1..], p);
    }
  }

  /** Re-reading a file held at most once leaves exactly its current patterns, and other files alone. */
  lemma HeldReread(w: World, disk: Disk, entries: seq<IgnoreEntry>, p: Path, q: Path)
    requires |HeldFor(entries, p)| <= 1
    ensures HeldFor(Reread(w, disk, entries, p), q) == if q == p then Current(w, disk, p) else HeldFor(entries, q)
  {
    HeldWithout(entries, p, q);
    HeldAppend(WithoutEntry(entries, p), Current(w, disk, p), q);
  }

  // ---- What a scan leaves ----

  /** Of a list without repetitions in which only x can be for p, x is what is held. */
  lemma {:induction false} HeldForOnly(entries: seq<IgnoreEntry>, p: Path, x: IgnoreEntry)
    requires Distinct(entries) && x.path == p && forall e :: e in entries && e.path == p ==> e == x
    ensures HeldFor(entries, p) == if x in entries then [x] else []
    decreases |entries|
  {
    if entries != [] {
      var rest := entries[1..];
      assert forall e :: e in rest ==> e in entries;
      assert entries[0] !in rest;
      HeldForOnly(rest, p, x);
    }
  }

  lemma {:induction false} HeldForNone(entries: seq<IgnoreEntry>, p: Path)
    requires forall e :: e in entries ==> e.path != p
    ensures HeldFor(entries, p) == []
    decreases |entries|
  {
    if entries != [] {
      assert forall e :: e in entries[1..] ==> e in entries;
      HeldForNone(entries[1..], p);
    }
  }

  /** p is an ignore file of one of the directories. */
  ghost predicate InOneOf(dirs: set<Path>, p: Path) {
    exists d :: d in dirs && Join(d, Basename(p)) == p
  }

  lemma InOneOfIff(dirs: set<Path>, p: Path)
    ensures InOneOf(dirs, p) <==> exists d :: d in dirs && p == if d == "" then Basename(p) else d + "/" + Basename(p)
  {
    assert forall d :: Join(d, Basename(p)) == if d == "" then Basename(p) else d + "/" + Basename(p);
  }

  /** A scan looks into the root and every directory above a baseline or marked path. */
  lemma ScanDirsAre(s: Daemon)
    requires s.state.Some?
    ensures forall a :: a in ScanDirs(s) <==>
              a == "" || exists p :: p in s.state.value.files.Keys + s.state.value.markedForAdd && Under(a, DropSlashes(p))
  {
    forall a
      ensures a in ScanDirs(s) <==>
              a == "" || exists p :: p in s.state.value.files.Keys + s.state.value.markedForAdd && Under(a, DropSlashes(p))
    {
      assert forall p :: TrackedDirs.Above(a, p) <==> Under(a, DropSlashes(p));
      assert TrackedDirs.IsTrackedDirSet(ScanDirs(s), s.state.value.files.Keys, s.state.value.markedForAdd);
    }
  }

  /** A scan of the directories holds an ignore file of one of them exactly as reading it now gives, and no other file. */
  lemma ScanHolds(w: World, disk: Disk, dirs: set<Path>, rules: Patterns, p: Path)
    requires IsScan(w, disk, dirs, rules) && IsIgnoreFile(p)
    ensures HeldFor(ListOf(rules, p), p) == if InOneOf(dirs, p) then Current(w, disk, p) else []
  {
    var entries, name := ListOf(rules, p), Basename(p);
    assert Lists(entries, Scanned(w, disk, dirs, name));
    if InOneOf(dirs, p) && ExistsSync(disk, p) {
      var x := IgnoreEntry(p, w.parse(p, disk[p]));
      assert x in Scanned(w, disk, dirs, name);
      HeldForOnly(entries, p, x);
    } else {
      HeldForNone(entries, p);
    }
  }

  // ---- The invariant ----

  /** Every ignore file is held at most once. */
  ghost predicate HeldOnce(rules: Patterns) {
    forall p :: IsIgnoreFile(p) ==> |HeldFor(ListOf(rules, p), p)| <= 1
  }

  ghost predicate HeldCurrent(w: World, disk: Disk, rules: Patterns, p: Path) {
    HeldFor(ListOf(rules, p), p) == Current(w, disk, p)
  }

  /** Reports the daemon has not acted on. */
  function Undelivered(s: Daemon): set<Path> {
    (if s.buffered.Some? then s.buffered.value else {}) + s.inflight
  }

  /** An ignore file outside `.checkpoint`: reports from inside it are dropped. */
  predicate WatchedIgnoreFile(p: Path) {
    IsIgnoreFile(p) && !InCheckpointDir(p)
  }

  /** The rules held for p are its current patterns unless its report is undelivered. */
  ghost predicate RuleCurrent(cfg: Config, s: Daemon, p: Path) {
    s.rules.Some? ==> HeldOnce(s.rules.value) && (p !in Undelivered(s) ==> HeldCurrent(cfg.w, s.disk, s.rules.value, p))
  }

  /** An edit that changes the ignore file is reported, and a rescan looks where it is. */
  ghost predicate ReportsRule(s: Daemon, e: Event, p: Path) {
    && (e.Edit? && Get(e.disk, p) != Get(s.disk, p) ==> p in e.reports)
    && (e.Rescan? && ExistsSync(s.disk, p) ==> InOneOf(ScanDirs(s), p))
  }

  lemma HandleHeld(w: World, disk: Disk, rules: Patterns, p: Path, q: Path)
    requires HeldOnce(rules) && IsIgnoreFile(p) && IsIgnoreFile(q)
    ensures var after := HandleIgnoreFile(w, disk, Some(rules), p).value;
            HeldFor(ListOf(after, q), q) == if q == p then Current(w, disk, p) else HeldFor(ListOf(rules, q), q)
  {
    HeldReread(w, disk, ListOf(rules, p), p, q);
  }

  lemma HandleKeepsOnce(w: World, disk: Disk, rules: Patterns, p: Path)
    requires HeldOnce(rules) && IsIgnoreFile(p)
    ensures HandleIgnoreFile(w, disk, Some(rules), p).Some? && HeldOnce(HandleIgnoreFile(w, disk, Some(rules), p).value)
  {
    var after := HandleIgnoreFile(w, disk, Some(rules), p).value;
    forall q | IsIgnoreFile(q)
      ensures |HeldFor(ListOf(after, q), q)| <= 1
    {
      HandleHeld(w, disk, rules, p, q);
    }
  }

  lemma {:induction false} HandleAllKeepsOnce(w: World, disk: Disk, rules: Patterns, order: seq<Path>)
    requires HeldOnce(rules) && forall p :: p in order ==> IsIgnoreFile(p)
    ensures var after := HandleIgnoreFiles(w, disk, Some(rules), order); after.Some? && HeldOnce(after.value)
    decreases |order|
  {
    if order != [] {
      HandleAllKeepsOnce(w, disk, rules, order[..|order| - 1]);
      HandleKeepsOnce(w, disk, HandleIgnoreFiles(w, disk, Some(rules), order[..|order| - 1]).value, order[|order| - 1]);
    }
  }

  lemma {:induction false} HandleAllHeld(w: World, disk: Disk, rules: Patterns, order: seq<Path>, q: Path)
    requires HeldOnce(rules) && IsIgnoreFile(q) && forall p :: p in order ==> IsIgnoreFile(p)
    ensures var after := HandleIgnoreFiles(w, disk, Some(rules), order);
            after.Some? && HeldFor(ListOf(after.value, q), q) == if q in order then Current(w, disk, q) else HeldFor(ListOf(rules, q), q)
    decreases |order|
  {
    HandleAllKeepsOnce(w, disk, rules, order);
    if order != [] {
      var init, last := order[..|order| - 1], order[|order| - 1];
      assert order == init + [last];
      HandleAllHeld(w, disk, rules, init, q);
      HandleAllKeepsOnce(w, disk, rules, init);
      HandleHeld(w, disk, HandleIgnoreFiles(w, disk, Some(rules), init).value, last, q);
    }
  }

  /** The disk is the same and the rules were re-read for the given files. */
  lemma RereadKeeps(cfg: Config, s: Daemon, t: Daemon, order: seq<Path>, p: Path)
    requires WatchedIgnoreFile(p) && RuleCurrent(cfg, s, p) && t.disk == s.disk && forall q :: q in order ==> IsIgnoreFile(q)
    requires t.rules == HandleIgnoreFiles(cfg.w, s.disk, s.rules, order)
    requires p in Undelivered(s) ==> p in Undelivered(t) || p in order
    ensures RuleCurrent(cfg, t, p)
  {
    if s.rules.None? {
      NoRulesHandled(cfg.w, s.disk, order);
    } else {
      HandleAllKeepsOnce(cfg.w, s.disk, s.rules.value, order);
      HandleAllHeld(cfg.w, s.disk, s.rules.value, order, p);
    }
  }

  lemma {:induction false} NoRulesHandled(w: World, disk: Disk, order: seq<Path>)
    ensures HandleIgnoreFiles(w, disk, None, order) == None
    decreases |order|
  {
    if order != [] {
      NoRulesHandled(w, disk, order[..|order| - 1]);
    }
  }

  lemma OneHandled(w: World, disk: Disk, rules: Option<Patterns>, p: Path)
    ensures HandleIgnoreFiles(w, disk, rules, [p]) == HandleIgnoreFile(w, disk, rules, p)
  {
    assert [p][..0] == [];
    assert HandleIgnoreFiles(w, disk, rules, []) == rules;
  }

  lemma WatchKeepsRule(cfg: Config, s: Daemon, q: Path, p: Path)
    requires WellFormedState(cfg, s) && WatchedIgnoreFile(p) && RuleCurrent(cfg, s, p)
    ensures RuleCurrent(cfg, Step(cfg, s, Watch(q)), p)
  {
    var t := Step(cfg, s, Watch(q));
    if !InCheckpointDir(q) && !s.vcsActive && IsIgnoreFile(q) {
      OneHandled(cfg.w, s.disk, s.rules, q);
      RereadKeeps(cfg, s, t, [q], p);
    } else {
      RereadKeeps(cfg, s, t, [], p);
    }
  }

  lemma EditKeepsRule(cfg: Config, s: Daemon, disk: Disk, reports: set<Path>, p: Path)
    requires ValidConfig(cfg) && ValidDisk(s.disk) && RuleCurrent(cfg, s, p) && ReportsRule(s, Edit(disk, reports), p)
    ensures RuleCurrent(cfg, Step(cfg, s, Edit(disk, reports)), p)
  {
    assert Get(disk, p) == Get(s.disk, p) ==> Current(cfg.w, disk, p) == Current(cfg.w, s.disk, p);
  }

  lemma RefreshRereads(cfg: Config, s: Daemon, force: bool, loaded: WorkspaceState, order: seq<Path>)
    requires ValidConfig(cfg) && ValidDisk(s.disk)
    ensures var t := Step(cfg, s, RefreshCall(force, loaded, order));
            && t.disk == s.disk && t.inflight == s.inflight && t.buffered == s.buffered
            && t.rules == HandleIgnoreFiles(cfg.w, s.disk, s.rules, order)
  {
  }

  lemma RefreshKeepsRule(cfg: Config, s: Daemon, force: bool, loaded: WorkspaceState, order: seq<Path>, p: Path)
    requires Inv(cfg, s) && Legal(cfg, s, RefreshCall(force, loaded, order)) && WatchedIgnoreFile(p) && RuleCurrent(cfg, s, p)
    ensures RuleCurrent(cfg, Step(cfg, s, RefreshCall(force, loaded, order)), p)
  {
    RefreshRereads(cfg, s, force, loaded, order);
    RereadKeeps(cfg, s, Step(cfg, s, RefreshCall(force, loaded, order)), order, p);
  }

  lemma EndKeepsRule(cfg: Config, s: Daemon, order: seq<Path>, p: Path)
    requires Inv(cfg, s) && Legal(cfg, s, EndVcs(order)) && WatchedIgnoreFile(p) && RuleCurrent(cfg, s, p)
    ensures RuleCurrent(cfg, Step(cfg, s, EndVcs(order)), p)
  {
    if s.buffered.Some? && s.buffered.value != {} {
      RereadKeeps(cfg, s, Step(cfg, s, EndVcs(order)), order, p);
    } else {
      RereadKeeps(cfg, s, Step(cfg, s, EndVcs(order)), [], p);
    }
  }

  /** What a scan has just read is current. */
  lemma ScanCurrent(cfg: Config, s: Daemon, rules: Patterns, p: Path)
    requires IsScan(cfg.w, s.disk, ScanDirs(s), rules) && WatchedIgnoreFile(p)
    requires ExistsSync(s.disk, p) ==> InOneOf(ScanDirs(s), p)
    ensures RuleCurrent(cfg, s.(rules := Some(rules), pending := None), p)
  {
    forall q | IsIgnoreFile(q)
      ensures |HeldFor(ListOf(rules, q), q)| <= 1
    {
      ScanHolds(cfg.w, s.disk, ScanDirs(s), rules, q);
    }
    ScanHolds(cfg.w, s.disk, ScanDirs(s), rules, p);
  }

  lemma RescanKeepsRule(cfg: Config, s: Daemon, rules: Patterns, loaded: WorkspaceState, order: seq<Path>, p: Path)
    requires Inv(cfg, s) && Legal(cfg, s, Rescan(rules, loaded, order)) && WatchedIgnoreFile(p)
    requires ExistsSync(s.disk, p) ==> InOneOf(ScanDirs(s), p)
    ensures RuleCurrent(cfg, Step(cfg, s, Rescan(rules, loaded, order)), p)
  {
    RescanIsForced(cfg, s, rules, loaded, order);
    RescanFrom(cfg, s, rules, loaded, order);
    ScanCurrent(cfg, s, rules, p);
    RefreshKeepsRule(cfg, s.(rules := Some(rules), pending := None), true, loaded, order, p);
  }

  lemma StepKeepsRule(cfg: Config, s: Daemon, e: Event, p: Path)
    requires Inv(cfg, s) && Legal(cfg, s, e) && ReportsRule(s, e, p) && WatchedIgnoreFile(p) && RuleCurrent(cfg, s, p)
    ensures RuleCurrent(cfg, Step(cfg, s, e), p)
  {
    match e
    case Edit(disk, reports) => EditKeepsRule(cfg, s, disk, reports, p);
    case Watch(q) => WatchKeepsRule(cfg, s, q, p);
    case RefreshCall(force, loaded, order) => RefreshKeepsRule(cfg, s, force, loaded, order, p);
    case Rescan(rules, loaded, order) => RescanKeepsRule(cfg, s, rules, loaded, order, p);
    case EndVcs(order) => EndKeepsRule(cfg, s, order, p);
    case Unlink =>
    case _ => RereadKeeps(cfg, s, Step(cfg, s, e), [], p);
  }

  ghost predicate RuleReported(cfg: Config, s: Daemon, events: seq<Event>, p: Path)
    requires ValidConfig(cfg) && ValidDisk(s.disk) && LegalRun(cfg, s, events)
    decreases |events|
  {
    events != [] ==> ReportsRule(s, events[0], p) && RuleReported(cfg, Step(cfg, s, events[0]), events[1..], p)
  }

  /** Over every run that reports the edits of an ignore file whose rules are current or whose report is undelivered at
      the start, the rules held for it are its current patterns as soon as its reports have been delivered. */
  lemma {:induction false} RuleCurrentOverEveryRun(cfg: Config, s: Daemon, events: seq<Event>, p: Path)
    requires Inv(cfg, s) && LegalRun(cfg, s, events) && RuleReported(cfg, s, events, p)
    requires WatchedIgnoreFile(p) && RuleCurrent(cfg, s, p)
    ensures RuleCurrent(cfg, Run(cfg, s, events), p)
    decreases |events|
  {
    if events != [] {
      StepKeepsRule(cfg, s, events[0], p);
      StepKeepsInv(cfg, s, events[0]);
      RuleCurrentOverEveryRun(cfg, Step(cfg, s, events[0]), events[1..], p);
    }
  }
}
