/** The values the pending-changes engine works on: disk, baseline, ignore rules, pending entries. */
module Workspace {
  import opened Wrappers
  import opened Paths
  import opened Sequences

  type FileId = string
  type Content = string

  // ---- The disk ----

  datatype Kind = Regular | Symlink | Special

  /** `resolves` is what existsSync answers: false only for a dangling symbolic link. */
  datatype Node =
    | Dir
    | Leaf(kind: Kind, size: nat, mtime: int, content: Content, resolves: bool)

  type Disk = map<Path, Node>

  ghost predicate ValidDisk(disk: Disk) {
    && (forall p :: p in disk ==> WellFormed(p))
    && (forall p, a :: p in disk && Under(a, p) ==> a in disk && disk[a].Dir?)
  }

  predicate IsLeaf(disk: Disk, p: Path) {
    p in disk && disk[p].Leaf?
  }

  predicate IsDir(disk: Disk, p: Path) {
    p in disk && disk[p].Dir?
  }

  predicate ExistsSync(disk: Disk, p: Path) {
    p in disk && (disk[p].Leaf? ==> disk[p].resolves)
  }

  function Readdir(disk: Disk, dir: Path): set<Path> {
    set p | p in disk && IsChild(dir, p)
  }

  /** Paths longer than n: a measure for recursion into subdirectories. */
  ghost function LongerThan(disk: Disk, n: nat): set<Path> {
    set p | p in disk && n < |p|
  }

  // ---- Ignore rules ----

  datatype IgnoreEntry = IgnoreEntry(path: Path, patterns: seq<string>)

  datatype Patterns = Patterns(ignored: seq<IgnoreEntry>, hidden: seq<IgnoreEntry>)

  function Flatten(entries: seq<IgnoreEntry>): seq<string> {
    if entries == [] then [] else entries[0].patterns + Flatten(entries[1..])
  }

  /** Libraries the engine calls without looking inside: pattern matching and parsing, MD5,
      conflict-marker detection and the binary-extension test. */
  datatype World = World(
    matches: (seq<string>, Path) -> bool,
    parse: (Path, Node) -> seq<string>,
    hash: Content -> string,
    conflictMarkers: Content -> bool,
    binary: Path -> bool)

  predicate Ignores(w: World, rules: Patterns, p: Path) {
    w.matches([".checkpoint/", ".checkpoint/**"] + Flatten(rules.ignored), p)
  }

  predicate Hides(w: World, rules: Patterns, p: Path) {
    w.matches(Flatten(rules.hidden), p)
  }

  predicate Skips(w: World, rules: Patterns, p: Path) {
    Ignores(w, rules, p) || Hides(w, rules, p)
  }

  /** The ignore library's promise: what lies beneath an ignored directory is ignored. */
  ghost predicate ClosedUnderDescendants(w: World) {
    forall patterns, a, p :: Under(a, p) && w.matches(patterns, a) ==> w.matches(patterns, p)
  }

  predicate InCheckpointDir(p: Path) {
    ".checkpoint" <= p
  }

  // ---- The baseline ----

  /** mtime 0 stands for an absent or zero mtime, both falsy in the source. */
  datatype BaselineFile = BaselineFile(fileId: FileId, changelist: int, md5: string, size: nat, mtime: int)

  type Baseline = map<Path, BaselineFile>

  datatype WorkspaceState = WorkspaceState(files: Baseline, markedForAdd: set<Path>)

  /** Baseline keys are normalised paths, and file ids are non-empty and unique. */
  ghost predicate ValidBaseline(base: Baseline) {
    && (forall p :: p in base ==> WellFormed(p) && base[p].fileId != "")
    && (forall p, q :: p in base && q in base && base[p].fileId == base[q].fileId ==> p == q)
  }

  /** The two baselines differ at most in the md5 and mtime of their files. */
  ghost predicate SameFiles(base: Baseline, other: Baseline) {
    && base.Keys == other.Keys
    && forall p :: p in base ==>
      other[p].fileId == base[p].fileId && other[p].changelist == base[p].changelist && other[p].size == base[p].size
  }

  // ---- Pending changes ----

  datatype FileType = UnknownType | Directory | Text | Binary | SymlinkType

  datatype FileStatus =
    | Unknown | Local | Added | Deleted | Ignored | HiddenChanges
    | WritableControlled | ReadOnlyControlled
    | ChangedNotCheckedOut | ChangedCheckedOut | NotChangedCheckedOut | MergeConflict

  datatype File = File(path: Path, ftype: FileType, size: nat, modifiedAt: int,
                       status: FileStatus, id: Option<FileId>, changelist: Option<int>)

  type Files = map<Path, File>

  datatype Pending = Pending(numChanges: int, files: Files)

  /** What a refresh reads besides the disk and the baseline. */
  datatype Context = Context(w: World, rules: Patterns, tracked: set<Path>, marks: set<Path>, checkouts: seq<FileId>)

  predicate Skipped(c: Context, p: Path) {
    Skips(c.w, c.rules, p)
  }

  ghost predicate ValidContext(c: Context) {
    && ClosedUnderDescendants(c.w)
    && "" in c.tracked
    && (forall a, d :: d in c.tracked && Under(a, d) ==> a in c.tracked)
    && Distinct(c.checkouts)
  }

  lemma SkippedBelow(c: Context, a: Path, p: Path)
    requires ValidContext(c) && Under(a, p) && Skipped(c, a)
    ensures Skipped(c, p)
  {
  }

  // ---- Entries ----

  function DirEntry(d: Path, status: FileStatus): File {
    File(d, Directory, 0, 0, status, None, None)
  }

  function DeletedEntry(p: Path, b: BaselineFile): File {
    File(p, UnknownType, 0, 0, Deleted, Some(b.fileId), Some(b.changelist))
  }

  /** lstat's type, size and mtime for an entry that exists; a directory has none of its own here. */
  function StatType(n: Node): FileType {
    if n.Leaf? && n.kind.Symlink? then SymlinkType else Binary
  }

  function StatSize(n: Node): nat {
    if n.Leaf? then n.size else 0
  }

  function StatMtime(n: Node): int {
    if n.Leaf? then n.mtime else 0
  }

  function CheckoutEntry(p: Path, n: Node, b: BaselineFile): File {
    File(p, StatType(n), StatSize(n), StatMtime(n), NotChangedCheckedOut, Some(b.fileId), Some(b.changelist))
  }
}
