# Checkpoint version control: verified models

This project models the parts of the Checkpoint repository whose behaviour is hardest to see from the code, and
proves what they promise. `dafny verify dfyconfig.toml` checks all of it.

* **The daemon's pending-changes engine** (`src/core/daemon/src/daemon-manager.ts`, `file-status.ts`). A full refresh
  recomputes a workspace's pending map from disk, baseline, ignore rules, marks and checkouts; an incremental refresh
  patches a cached map from the dirty paths; a watcher, an operation guard and cache invalidations decide which one
  runs. `FullRefresh` and `IncrementalRefresh` hold both refreshes as imperative methods proved against pointwise
  specifications, `Agreement` relates the two, `DaemonRuns` is the daemon as a state machine with its invariant,
  `PendingEntries` writes out every entry on disk, rules, baseline, marks and checkouts, `DaemonHistory` tells what is
  held from the events alone, `DaemonProperties`, `RuleRuns` and `StatusRuns` prove more about the runs, and
  `DaemonManager` is the class whose methods take exactly the machine's steps.
* **The chained hash table** (`src/longtail/library/perf/main.cpp`): arrays written in place, refined to a
  first-write-wins log (`LookupTable`).
* **Argument parsing** (`src/clients/cli/argparse.hpp`): the edit-distance table (`Levenshtein`), the goto recogniser
  (`DecimalLiteral`), the token-consuming loop (`ArgumentParser`) and which argument stores which token
  (`ParseProvenance`).
* **State-tree access** (`src/app/src/server/state-tree.ts`): the recency cache (`PathCache`) and the cooperative
  worker pool (`FileIdWorkers`).
* **Weekly aggregation** (`src/metrics/src/lib/aggregate.ts`, `Dashboard`) and **path rewriting**
  (`src/longtail/library/cmd/main.c`, `NormalizePath`).

## How to read the daemon's theorems

A path is at *file level* when it does not lie under a `.checkpoint` prefix, is not an untracked directory, and is not a
baseline path that is ignored, hidden or now a directory. (`Agreement.FileLevel` also asks that the directories above a
baseline or marked file are tracked, which `DaemonRuns.FileLevelIff` shows always holds.) Files and missing paths inside
untracked directories are at file level: a refresh has no entry for them. `Agreement.DirtyPathAgreesIff` shows that the
last exclusion is exact. A path is *covered* by a set of reports when it
is reported itself or when the daemon knows it (baseline or cached entry) and a directory above it is reported.

What the theorems assume, each written as a predicate:

* `ValidDisk`, `ValidBaseline`: paths are normalised (no leading, trailing or doubled slash), every node's parent is a
  directory, file ids are non-empty and unique. A baseline mtime of 0 stands for an absent one.
* `ClosedUnderDescendants`: whatever lies below an ignored or hidden path is ignored or hidden. The ignore matcher, the
  hash, the binary-extension test and conflict-marker detection are otherwise arbitrary functions (`World`).
* `ValidConfig`: checkouts are distinct and fixed during a run; `Agreement.CheckoutsMovedIff` says which entries an
  incremental refresh gets wrong when they are not.
* `Legal`: a disk edit comes with reports that cover every file-level change under tracked directories or at a path with
  a cached entry; a rescan finds the ignore files on disk; operations are not nested
  (`DaemonProperties.NestedBeginLosesEdit` shows what happens otherwise); a loaded baseline is valid.
* `ReportsRule`, `RuleCurrent`: for the theorem about the rules held for one ignore file, its edits are reported,
  it is in a tracked directory whenever a rescan finds it existing, and at the start it is held correctly, as a scan
  leaves every ignore file of a tracked directory (`RuleRuns.ScanHolds`).
* Repository ids contain no colon (`PathCache`); they are generated identifiers. `PathCache.PathKeysCollideIff` says
  when two ids could share a key.

* `Sized`: an arity's minimum is at most its maximum (`ParseProvenance`).

"True" always means: what a full refresh would return now, with the ignore rules held in memory;
`PendingEntries.FullEntryLaw` says what that is. `RuleRuns` shows when
those are the rules on disk, and `ChangeDetection.DetectsContentChangeIff` which edits a full refresh itself can see.

Where the code differs from what one would expect of it, the model follows the code. Each case has its exact condition
and a concrete valid input:

* `numChanges` is not always the number of entries: `FullRefresh.CountExactIff` and `Agreement.IncrementalCountExactIff`
  for one refresh, `DaemonProperties.CountExactOverEveryRun` for runs; `Counterexamples.FullRefreshOvercounts` and
  `Counterexamples.IncrementalRefreshOvercounts`.
* The batch status lookup can differ from the single one: `FileStatuses.BatchAgreesWithSingleIff`,
  `StatusRuns.ReachableStatusesAgreeIff`; `Counterexamples.IgnoredBaselineStatusesDiffer`.
* A dirty baseline path that is ignored or became a directory is treated differently by the two refreshes:
  `Agreement.DirtyPathAgreesIff`; `Counterexamples.IgnoredBaselineRefreshesDiffer`.
* Some content edits go unnoticed (`ChangeDetection.DetectsContentChangeIff`): those that keep the size while the mtime
  is kept or absent in the baseline (`Counterexamples.SameTimeEditUnnoticed`), and those that keep the size and come
  before the hash that a pull or a submit leaves deferred is first taken (`Counterexamples.FirstEditUnnoticed`).
* An argument with choices can take more than its maximum: `ArgumentParser.ChoicesExceedMaximumIff`;
  `ArgumentParser.ChoicesMayExceedMaximum`.

## Model

| member | source | states |
|---|---|---|
| `DaemonRuns.CacheAgreesOverEveryRun` | src/core/daemon/src/daemon-manager.ts:953-1609 | From a new daemon, after every run of disk edits, watcher events, refreshes, operation begin and end, rescans of the ignore files, reloads, marks, unmarks and unlinks: if a pending map is cached, then at every file-level path outside what the dirty, buffered and undelivered reports cover it equals what a fresh full refresh would return now, unless a dirty ignore file already forces the next refresh to be full |
| `DaemonRuns.NoEditLost` | src/core/daemon/src/daemon-manager.ts:953-1015 | After any such run, once every report has been delivered and no operation is running, a refresh, whatever path it takes, returns at every file-level path what a full refresh would return |
| `DaemonRuns.RefreshTrue` | src/core/daemon/src/daemon-manager.ts:953-1015 | The dispatcher's cached, incremental and full paths all leave a result that agrees with a full refresh at every file-level path no remaining report covers |
| `DaemonRuns.QuietRefreshTrue` | src/core/daemon/src/daemon-manager.ts:953-1015 | The same from any state of the invariant when nothing is buffered or in flight: the result is true everywhere at file level |
| `PendingEntries.StoredEntryLaw` | src/core/daemon/src/daemon-manager.ts:953-1015 | And what is true is written out: after a refresh of any kind, at every file-level path no remaining report covers, each status (ChangedCheckedOut, ChangedNotCheckedOut, MergeConflict, NotChangedCheckedOut, Deleted, Added, Local) stands exactly under its condition on disk, rules, tracked directories, baseline, marks and checkouts, and type, size, mtime, id and changelist are those of the file and its baseline entry |
| `PendingEntries.FullEntryLaw` | src/core/daemon/src/daemon-manager.ts:1026-1180 | The same for a full refresh at every path, untracked directories and baseline paths of every kind included |
| `DaemonHistory.HeldIsLastLoaded` | src/core/daemon/src/daemon-manager.ts:184-192 | Over every run the held baseline has the keys, ids, changelists and sizes of the state last reloaded, or loaded by a refresh when none was held, and a path is marked exactly when it was marked since and not unmarked after, or marked in that state and never unmarked |
| `DaemonHistory.HeldSince` | src/core/daemon/src/daemon-manager.ts:184-192 | The same from any state until it is replaced |
| `DaemonHistory.NothingHeld` | src/core/daemon/src/daemon-manager.ts:154-179 | After an unlink, and before anything was loaded, no state is held |
| `DaemonHistory.ReloadThenRefresh` | src/core/daemon/src/daemon-manager.ts:735-739 | The refresh after a reload judges every path by the reloaded baseline and marks and by the directories above them, whatever was held, cached or reported before |
| `DaemonHistory.OperatingIff` | src/core/daemon/src/daemon-manager.ts:1546-1609 | An operation is running exactly when one was begun, or running at the start, with no end and no unlink since |
| `DaemonHistory.RulesHeldIff` | src/core/daemon/src/daemon-manager.ts:202-252 | Ignore rules are held exactly when they were scanned, or held at the start, with no unlink since |
| `DaemonHistory.ReportsNoted` | src/core/daemon/src/daemon-manager.ts:1400-1441 | Between refreshes and loads exactly the delivered reports outside `.checkpoint` are dirty or buffered, through operations too, and all of them are dirty when no operation is running |
| `DaemonHistory.CacheKept` | src/core/daemon/src/daemon-manager.ts:1400-1441 | Reports of ordinary files and operations leave the cached map standing |
| `DaemonHistory.UnlinkLaw` | src/core/daemon/src/daemon-manager.ts:154-179 | An unlink empties every map of the workspace and ends its operation |
| `PendingEntries.DispatchLaw` | src/core/daemon/src/daemon-manager.ts:953-1015 | With no ignore file dirty: an unforced refresh returns the cached result when nothing is dirty, patches it for one to five thousand dirty paths, and is full otherwise |
| `PendingEntries.DirtyRulesLaw` | src/core/daemon/src/daemon-manager.ts:972-989 | With an ignore file dirty it re-reads the dirty ones and is full under the new rules |
| `DaemonRuns.RescanTrue` | src/core/daemon/src/api/routers/workspace/pending.ts:38-57 | Replacing all held ignore rules by a new scan and then forcing a refresh leaves a result that is true under the new rules, although the map cached before was made under the old ones |
| `DaemonRuns.FileLevelIff` | src/core/daemon/src/daemon-manager.ts:762-789 | In every state the daemon can refresh from, a path is at file level if and only if it does not lie under `.checkpoint`, is not an untracked directory, and is not a baseline path that is ignored, hidden or now a directory: the directories above baseline and marked files are tracked |
| `DaemonRuns.NoEntryInside` | src/core/daemon/src/daemon-manager.ts:1026-1180 | A full refresh reports no single path inside an untracked directory |
| `DaemonRuns.EntriesUnderTracked` | src/core/daemon/src/daemon-manager.ts:1264-1349 | Nor does one of any kind in a reachable state with no report left: every entry outside `.checkpoint` that is not a directory's lies under tracked directories only, so no entry of a single file survives inside a directory that is or became untracked |
| `DaemonRuns.StepKeepsInv` | src/core/daemon/src/daemon-manager.ts:735-1609 | Each event of the daemon keeps the whole invariant |
| `DaemonRuns.RunKeepsInv` | src/core/daemon/src/daemon-manager.ts:735-1609 | So does every sequence of events |
| `DaemonRuns.EditKeepsInv` | src/core/daemon/src/daemon-manager.ts:1396-1441 | A disk edit whose file-level changes under tracked directories or at cached paths are reported keeps the cache truthful outside the reports |
| `DaemonRuns.WatchKeepsInv` | src/core/daemon/src/daemon-manager.ts:1400-1441 | Delivering a report to the dirty set, to the operation's buffer, or dropping it under `.checkpoint` loses no cover, and an ignore-file report drops the cache |
| `DaemonRuns.BeginKeepsInv` | src/core/daemon/src/daemon-manager.ts:1546-1552 | Beginning an operation when none is running keeps the invariant |
| `DaemonRuns.EndKeepsInv` | src/core/daemon/src/daemon-manager.ts:1566-1609 | Replaying the buffer moves every buffered report to the dirty set and re-reads the ignore files among them, so nothing the cache relied on changes unnoticed |
| `Agreement.IncrementalAgrees` | src/core/daemon/src/daemon-manager.ts:1189-1380 | At a file-level path that is covered by the dirty set or where the cached entry was true, the incremental refresh gives exactly the entry a full refresh gives |
| `Agreement.IncrementalRefinesFull` | src/core/daemon/src/daemon-manager.ts:1189-1380 | Starting from the full result of the old disk, with every change of the path's node covered by the dirty set, the incremental refresh on the new disk equals the full one on the new disk |
| `Agreement.IncrementalResultTrue` | src/core/daemon/src/daemon-manager.ts:1189-1380 | The same as a statement about all file-level paths at once, against the baseline the incremental refresh itself settled, leaving out only paths still awaited |
| `Agreement.DirtyPathAgreesIff` | src/core/daemon/src/daemon-manager.ts:1189-1380 | For a covered path that is not an untracked directory and lies outside `.checkpoint`: incremental and full agree if and only if the path is not a baseline path that is ignored, hidden or now a directory |
| `Agreement.UncoveredStaysKnown` | src/core/daemon/src/daemon-manager.ts:1233-1359 | A cached entry that no dirty path covers is never dropped by an incremental refresh |
| `Agreement.CheckoutsMovedIff` | src/core/daemon/src/daemon-manager.ts:1351-1370 | When checkouts changed since the map was cached, a path that is not rechecked becomes true under the present ones if and only if it is not a changed baseline file, out of conflict, whose own checkout came or went |
| `Agreement.UncoveredEntry` | src/core/daemon/src/daemon-manager.ts:1351-1370 | Of a cached entry that is not rechecked, one for a checkout only goes when the checkout is gone, every other one stays, and a path without one gets an entry when it is checked out |
| `PendingEntries.CoveredIff` | src/core/daemon/src/daemon-manager.ts:1211-1231 | The paths an incremental refresh re-decides are those reported, and baseline or cached paths that have a reported one and a slash as prefix |
| `PendingEntries.IncrementalDirLaw` | src/core/daemon/src/daemon-manager.ts:1264-1330 | The entry of an untracked directory after an incremental refresh: re-decided from what it holds, kept, or listed as Local because a re-decided new file lies beneath it and it is the topmost untracked directory |
| `Agreement.UnchangedOnDisk` | src/core/daemon/src/daemon-manager.ts:1026-1180 | The full refresh's entry at a file-level path depends on that path's own node only, not on the rest of the disk |
| `Agreement.FullIsOwnEntry` | src/core/daemon/src/daemon-manager.ts:1099-1172 | At file level the five passes of a full refresh reduce to one rule: the verdict on the file found under tracked directories, else the deletion, else the checkout-only entry |
| `Agreement.SettlingKeepsFull` | src/core/daemon/src/daemon-manager.ts:844-851 | Filling in deferred hashes for files as they stand on disk changes no entry of a later full refresh |
| `PendingEntries.SettledLaw` | src/core/daemon/src/daemon-manager.ts:844-851 | A refresh rewrites a baseline entry exactly when it looked at the file, the hash was missing, the size is the same and a known mtime differs; it then stores the file's hash and mtime |
| `Agreement.IncrementalSane` | src/core/daemon/src/daemon-manager.ts:1189-1380 | Incremental results keep what full results have: entry ids match the baseline and checkout-only entries belong to current checkouts |
| `Agreement.IncrementalCountExactIff` | src/core/daemon/src/daemon-manager.ts:1195-1374 | An incremental refresh counts no entry twice if and only if it lists no directory at a checked-out baseline path |
| `PendingEntries.FullCountLaw` | src/core/daemon/src/daemon-manager.ts:1026-1180 | By how much `numChanges` exceeds the entries after a full refresh: the number of baseline paths listed as untracked directories |
| `PendingEntries.IncrementalCountLaw` | src/core/daemon/src/daemon-manager.ts:1195-1374 | And after an incremental one: what it exceeded before, and the number of checked-out baseline paths at which it lists a directory |
| `Agreement.ReplacedIff` | src/core/daemon/src/daemon-manager.ts:925-945 | Path by path: the checkout pass replaces an entry exactly where the dirty loop listed a directory at a checked-out baseline path |
| `Agreement.IncrementalCarriesIds` | src/core/daemon/src/daemon-manager.ts:1195-1374 | After an incremental refresh every entry at a checked-out baseline path carries an id, which is what the next one relies on |
| `Agreement.CollapsedViewCoversFile` | src/core/daemon/src/daemon-manager.ts:411-426 | For every non-ignored file, pipes, sockets and devices included: if no untracked directory lies above it the walk reaches it and no collapsed entry stands above it; otherwise the walk does not reach it and a collapsed entry above it stands exactly at its topmost untracked directory, if that holds a file or link, which it does when the file is one |
| `Agreement.CollapsedDirHasFile` | src/core/daemon/src/daemon-manager.ts:1056-1089 | Conversely every collapsed entry has a non-ignored file beneath whose topmost untracked directory it is |
| `DaemonProperties.MarkedFileIsAdded` | src/core/daemon/src/daemon-manager.ts:1488-1505 | After marking an existing, non-baseline file at any depth inside untracked directories, the next refresh reports it as Added unless it is ignored |
| `DaemonProperties.UnmarkUndoesMark` | src/core/daemon/src/daemon-manager.ts:1510-1527 | After a full refresh, marking paths that were not marked, any number of refreshes of any kind, watcher events and operations while they are marked, and unmarking them: the next refresh, forced or not, returns the map and count of the refresh before the marking, as long as the disk and the rules held stay the same |
| `DaemonProperties.UnmarkUndoesMarkAtFileLevel` | src/core/daemon/src/daemon-manager.ts:1510-1527 | The same when the refresh before the marking was of any kind: the refresh after the unmarking returns the same entry at every file-level path that no report left over from the first one covers |
| `DaemonProperties.SettledTwice` | src/core/daemon/src/daemon-manager.ts:844-851 | Filling in deferred hashes in two rounds, over one disk, is filling them in once: what lets refreshes under different marks be compared |
| `DaemonProperties.QuietStep` | src/core/daemon/src/daemon-manager.ts:953-1015 | Each such refresh or event changes the loaded state only by filling in deferred hashes, whatever directories it walks |
| `DaemonProperties.FullTwice` | src/core/daemon/src/daemon-manager.ts:1026-1180 | Two full refreshes of an unchanged disk return the same map and count although the first one rewrites baseline hashes |
| `DaemonProperties.StepCountExactIff` | src/core/daemon/src/daemon-manager.ts:1026-1380 | After any event `numChanges` equals the number of entries if and only if: for a full refresh, it collapses no directory at a baseline path; for an incremental one, it was exact before and no directory is listed at a checked-out baseline path; otherwise it was exact before or the map is dropped |
| `DaemonProperties.CountExactOverEveryRun` | src/core/daemon/src/daemon-manager.ts:1026-1380 | Over every run the counter ends exact if and only if these per-refresh conditions hold from the last full refresh on; it never falls short of the number of entries |
| `DaemonProperties.NestedBeginBreaks` | src/core/daemon/src/daemon-manager.ts:1546-1552 | Concrete state showing the pairing hypothesis is needed: a second begin drops the buffer and breaks the invariant |
| `DaemonProperties.NestedBeginLosesEdit` | src/core/daemon/src/daemon-manager.ts:1546-1609 | And after the end an ordinary refresh returns a stale map that a full refresh would not return: an edit is lost |
| `DaemonManager.Manager.constructor` | src/core/daemon/src/daemon-manager.ts:50-109 | A new manager is an initial state of the machine |
| `DaemonManager.Manager.RefreshWorkspaceContents` | src/core/daemon/src/daemon-manager.ts:953-1015 | The method takes exactly the machine's refresh step and returns the stored result, which agrees with a full refresh wherever no report remains |
| `DaemonManager.Manager.RescanIgnoreFiles` | src/core/daemon/src/api/routers/workspace/pending.ts:38-57 | Takes the machine's rescan step and returns the stored result, true under the new rules |
| `DaemonManager.Manager.ScanIgnoreFiles` | src/core/daemon/src/daemon-manager.ts:202-252 | Replaces the held rules by one entry for each tracked directory's ignore file and each one's hidden file, and nothing else |
| `DaemonManager.Manager.ScanForFile` | src/core/daemon/src/daemon-manager.ts:207-236 | The loop lists one entry for each directory that holds a file of the name, each once |
| `DaemonManager.Manager.OnWatchEvent` | src/core/daemon/src/daemon-manager.ts:1400-1441 | The watcher callback takes exactly the machine's watch step and keeps the invariant |
| `DaemonManager.Manager.BeginVcsOperation` | src/core/daemon/src/daemon-manager.ts:1546-1552 | Takes the machine's begin step in every state; the invariant is kept when no operation was running |
| `DaemonManager.Manager.EndVcsOperation` | src/core/daemon/src/daemon-manager.ts:1566-1609 | Takes the machine's end step, re-reading the buffered ignore files in some order |
| `DaemonManager.Manager.ReloadWorkspaceState` | src/core/daemon/src/daemon-manager.ts:735-739 | Takes the machine's reload step: new baseline, no dirty paths, no caches |
| `DaemonManager.Manager.MarkForAdd` | src/core/daemon/src/daemon-manager.ts:1488-1505 | Takes the machine's mark step for the set of listed paths |
| `DaemonManager.Manager.UnmarkForAdd` | src/core/daemon/src/daemon-manager.ts:1510-1527 | Takes the machine's unmark step for the set of listed paths |
| `DaemonManager.Manager.UnlinkWorkspace` | src/core/daemon/src/daemon-manager.ts:154-179 | Takes the machine's unlink step |
| `DaemonManager.Manager.GetTrackedDirSet` | src/core/daemon/src/daemon-manager.ts:796-808 | A present tracked-directory cache is what recomputing it gives, and the cache is filled |
| `DaemonManager.Manager.HandleIgnoreFileChange` | src/core/daemon/src/daemon-manager.ts:268-313 | Drops the first recorded entry of the ignore file and appends its re-read patterns when it still exists; other files and an unscanned workspace are left alone |
| `DaemonManager.Manager.RereadEntries` | src/core/daemon/src/daemon-manager.ts:268-313 | The splice at the index found equals removing the first entry of that path |
| `ChangeDetection.DetectFileChange` | src/core/daemon/src/daemon-manager.ts:817-902 | The branching code returns the verdict and the settled baseline entry of the two-case specification |
| `ChangeDetection.SettleKeepsVerdict` | src/core/daemon/src/daemon-manager.ts:844-851 | A deferred hash filled in from a file's content never changes the verdict on that content, and filling in twice is filling in once |
| `ChangeDetection.SettledDetectsLaterEdits` | src/core/daemon/src/daemon-manager.ts:844-855 | After filling in, later content of the same size and another mtime is reported exactly when its hash differs |
| `ChangeDetection.DetectsContentChangeIff` | src/core/daemon/src/daemon-manager.ts:825-855 | With an injective hash, and the baseline's hash recorded or still deferred: unchanged content is never reported; changed content is reported if and only if its size differs, or the baseline has a hash and an mtime that the file's differs from |
| `FullRefresh.Refresh` | src/core/daemon/src/daemon-manager.ts:1026-1180 | The walk, file, deletion and checkout passes together return the pointwise specification, settle exactly the compared baseline entries, and count each entry once plus once more for every baseline path at which a collapsed directory stands |
| `FullRefresh.CountExactIff` | src/core/daemon/src/daemon-manager.ts:1030-1171 | `numChanges` equals the number of entries after a full refresh if and only if no baseline path is an untracked, non-ignored directory holding a non-ignored file |
| `FullRefresh.ProcessFoundFiles` | src/core/daemon/src/daemon-manager.ts:1106-1143 | Every listed file outside `.checkpoint` gets its verdict, its baseline entry is settled and seen, nothing else changes, and entries and counter grow together |
| `FullRefresh.ProcessMissingFiles` | src/core/daemon/src/daemon-manager.ts:1145-1164 | Exactly the unseen baseline paths become Deleted; the counter exceeds the growth by the entries overwritten |
| `FullRefresh.AddCheckoutOnlyFiles` | src/core/daemon/src/daemon-manager.ts:910-949 | Adds an entry exactly at the baseline path of each checkout whose id no entry carries and which exists on disk, computing the set of carried ids once |
| `FullRefresh.ChangedIdAt` | src/core/daemon/src/daemon-manager.ts:916-923 | The id of a baseline file is among the carried ids if and only if that file has an entry with an id |
| `FullRefresh.CheckoutOutcome` | src/core/daemon/src/daemon-manager.ts:910-949 | After the earlier passes of a full refresh the checkout pass completes the specification and overwrites no entry |
| `IncrementalRefresh.Refresh` | src/core/daemon/src/daemon-manager.ts:1189-1380 | The expansion, dirty, stale-checkout and checkout passes together return the pointwise specification and settle exactly the compared entries, and the counter moves by the change in entries plus the replaced ones |
| `IncrementalRefresh.ExpandDirty` | src/core/daemon/src/daemon-manager.ts:1216-1231 | The expanded set is the dirty paths and every baseline or cached path beneath one of them |
| `IncrementalRefresh.ProcessDirty` | src/core/daemon/src/daemon-manager.ts:1233-1349 | One turn of the loop: the path's own entry is re-decided, other entries stay unless the path makes its topmost untracked directory listed, and the counter follows the entries |
| `IncrementalRefresh.ProcessAll` | src/core/daemon/src/daemon-manager.ts:1233-1349 | The loop's outcome does not depend on the order in which dirty paths are visited |
| `IncrementalRefresh.PatchStep` | src/core/daemon/src/daemon-manager.ts:1233-1349 | The step lemma behind it: patching one more path moves the specification from the visited paths to the visited paths and that one |
| `IncrementalRefresh.RemoveStaleCheckouts` | src/core/daemon/src/daemon-manager.ts:1351-1360 | Exactly the checkout-only entries whose id is no longer checked out are removed, each counted once |
| `DirectoryWalk.HasNonIgnoredFiles` | src/core/daemon/src/daemon-manager.ts:370-404 | True exactly when some file lies beneath that is neither ignored or hidden itself nor inside an ignored directory |
| `DirectoryWalk.HoldsFileClosed` | src/core/daemon/src/daemon-manager.ts:370-404 | With ignore rules closed under descendants any one non-ignored file beneath is enough |
| `DirectoryWalk.Walk` | src/core/daemon/src/daemon-manager.ts:1047-1097 | The recursive walk lists exactly the reachable files, each once, enters exactly the collapsed directories, and counts each of them once |
| `DirectoryWalk.WalkEntry` | src/core/daemon/src/daemon-manager.ts:1056-1089 | The four cases of one directory entry |
| `DirectoryWalk.ChildContribution` | src/core/daemon/src/daemon-manager.ts:1056-1089 | What one child contributes to the whole walk, as equalities of the sets of reached files and collapsed directories |
| `TrackedDirs.ParentChainIsAbove` | src/core/daemon/src/daemon-manager.ts:770-786 | Splitting at slashes and re-joining segments yields exactly the directories above the path, shortest first |
| `TrackedDirs.AddAncestorDirs` | src/core/daemon/src/daemon-manager.ts:767-776 | The loop adds exactly the directories above one file |
| `TrackedDirs.BuildTrackedDirSet` | src/core/daemon/src/daemon-manager.ts:762-790 | The set is the root and every directory above a tracked or marked path |
| `TrackedDirs.TrackedDirSetParentClosed` | src/core/daemon/src/daemon-manager.ts:762-790 | It holds the parent of each of its members |
| `TrackedDirs.FindTopmostUntrackedDir` | src/core/daemon/src/daemon-manager.ts:411-426 | Returns nothing exactly when all directories above are tracked, else the topmost untracked one |
| `TrackedDirs.TopmostUnique` | src/core/daemon/src/daemon-manager.ts:411-426 | There is only one such directory |
| `Paths.UnderIsStartsWith` | src/core/daemon/src/daemon-manager.ts:1218-1229 | Lying under a directory is having its name and a slash as a prefix, as the expansion tests it |
| `SubmitExpansion.ExpandDirectoriesForSubmit` | src/core/daemon/src/daemon-manager.ts:607-730 | Non-directory modifications pass through once and in order; then, directory by directory in order, exactly its submitted files and its missing baseline paths follow, each once; and a modification is in the result exactly when it is given and names no directory, or adds a visible file or deletes a missing baseline path beneath a given directory |
| `SubmitExpansion.SubmittedIff` | src/core/daemon/src/daemon-manager.ts:607-730 | That last condition, written out on the disk, the links, the rules and the baseline; the empty path adds the whole workspace but deletes nothing |
| `SubmitExpansion.NormalizedByCharacter` | src/core/daemon/src/daemon-manager.ts:629-633 | One leading slash or backslash is dropped and every other backslash becomes a slash |
| `SubmitExpansion.SubmitsEveryVisibleFile` | src/core/daemon/src/daemon-manager.ts:670-693 | The submitted files of a directory are exactly the non-ignored, non-hidden files beneath it outside `.checkpoint` |
| `SubmitExpansion.WalkDir` | src/core/daemon/src/daemon-manager.ts:670-693 | The recursive walk lists exactly those files, each once |
| `SubmitExpansion.CollectMissing` | src/core/daemon/src/daemon-manager.ts:700-726 | Lists exactly the baseline paths beneath the directory that are not on disk, links followed, each once |
| `SubmitExpansion.Classify` | src/core/daemon/src/daemon-manager.ts:623-667 | Splits the modifications into the non-directories and the normalised directories, both in order |
| `FileStatuses.OrdersAgreeIff` | src/core/daemon/src/file-status.ts:158-346 | The single and batch forms give the same status if and only if the query is a directory or no pending entry stands at an ignored or hidden path |
| `FileStatuses.FullReportsSkippedIff` | src/core/daemon/src/daemon-manager.ts:1047-1172 | A full refresh has an entry at an ignored or hidden path if and only if it is a baseline path |
| `FileStatuses.BatchAgreesWithSingleIff` | src/core/daemon/src/file-status.ts:158-346 | With the pending map of a full refresh under the same rules, both forms agree on every query if and only if no baseline path is ignored or hidden |
| `FileStatuses.GetFileStatuses` | src/core/daemon/src/file-status.ts:242-346 | One result per queried path, that of its last query, computed by the batch ladder; each status is answered exactly under its condition on the ignore and hidden patterns, the pending entry, the baseline, existence and access, with the id and changelist of the entry that answers |
| `FileStatuses.BatchAnswers` | src/core/daemon/src/file-status.ts:242-346 | That condition for every query: ignore rules come before pending changes |
| `FileStatuses.SingleAnswers` | src/core/daemon/src/file-status.ts:158-237 | The same for the single form, where pending changes come first |
| `PendingEntries.FlattenAppend` | src/core/daemon/src/file-status.ts:79-92 | The pattern list handed to the matcher follows the order of the entries |
| `PendingEntries.FlattenOne` | src/core/daemon/src/file-status.ts:79-92 | One entry contributes its own lines |
| `PendingEntries.FlattenHolds` | src/core/daemon/src/file-status.ts:79-92 | A pattern reaches the matcher exactly when some held entry has it |
| `StatusRuns.ReachableStatusesAgreeIff` | src/core/daemon/src/daemon-manager.ts:337-359 | With any map that a run from a new daemon can have cached while no ignore file is dirty, both forms agree on every query if and only if no ignored or hidden baseline path has an entry |
| `StatusRuns.StepKeepsStatuses` | src/core/daemon/src/daemon-manager.ts:953-1609 | Each event keeps it: only baseline paths are ever listed although ignored or hidden, and no entry has a status that ignore rules produce |
| `RuleRuns.RuleCurrentOverEveryRun` | src/core/daemon/src/daemon-manager.ts:268-313 | Over every run that reports the edits of an ignore file outside `.checkpoint`, whose rules are current or whose report is undelivered at the start: the patterns held for it are those it has on disk as soon as its reports are delivered, if it is in a tracked directory whenever a rescan finds it existing |
| `RuleRuns.StepKeepsRule` | src/core/daemon/src/daemon-manager.ts:953-1609 | Each event keeps that: the watcher, a refresh and the end of an operation re-read every ignore file whose report they take over, and a rescan reads those of all tracked directories |
| `RuleRuns.ScanHolds` | src/core/daemon/src/daemon-manager.ts:202-252 | After a scan an ignore file of a tracked directory is held with its current patterns exactly once when it exists, and every other one is not held |
| `RuleRuns.ScanDirsAre` | src/core/daemon/src/daemon-manager.ts:202-212 | A scan looks into the workspace root and every directory above a baseline or marked path |
| `RuleRuns.InOneOfIff` | src/core/daemon/src/daemon-manager.ts:212-218 | The file looked for is the name itself in the root and the directory, a slash and the name elsewhere |
| `RuleRuns.RescanKeepsRule` | src/core/daemon/src/api/routers/workspace/pending.ts:38-57 | A rescan makes the rules held for an ignore file current whatever was held before, unless the file lies outside the tracked directories |
| `RuleRuns.HeldReread` | src/core/daemon/src/daemon-manager.ts:280-313 | Re-reading one file leaves exactly its current patterns and every other file's as they were |
| `DaemonHistory.BasenameJoin` | src/core/daemon/src/daemon-manager.ts:268-280 | The base name of a path is what follows its last slash |
| `DaemonHistory.IgnoreFileIff` | src/core/daemon/src/daemon-manager.ts:268-275 | Exactly the two names make a path an ignore file |
| `DaemonHistory.IgnoreFileHandled` | src/core/daemon/src/daemon-manager.ts:268-313 | A `.chkignore` file is re-read into the ignore list and leaves the hidden list alone |
| `DaemonHistory.HiddenFileHandled` | src/core/daemon/src/daemon-manager.ts:268-313 | A `.chkhidden` file is re-read into the hidden list and leaves the ignore list alone |
| `Counterexamples.FullRefreshOvercounts` | src/core/daemon/src/daemon-manager.ts:1056-1164 | Valid input: a tracked file that became a directory with a file is counted twice by a full refresh |
| `Counterexamples.IncrementalRefreshOvercounts` | src/core/daemon/src/daemon-manager.ts:1256-1374 | Valid input: the same change at a checked-out path makes an incremental refresh from a correct cache count twice |
| `Counterexamples.IgnoredBaselineStatusesDiffer` | src/core/daemon/src/file-status.ts:158-346 | Valid input: the two status forms differ on an unchanged, ignored baseline file, which a full refresh reports as Deleted |
| `Counterexamples.IgnoredBaselineRefreshesDiffer` | src/core/daemon/src/daemon-manager.ts:1233-1247 | Valid input: when that file is dirty an incremental refresh drops the entry that a full refresh reports |
| `Counterexamples.FirstEditUnnoticed` | src/core/daemon/src/daemon-manager.ts:840-855 | Valid input: a same-size edit before the deferred hash is first taken is not reported although the mtime differs, its hash becomes the baseline's, and restoring the pulled content is what gets reported |
| `Counterexamples.SameTimeEditUnnoticed` | src/core/daemon/src/daemon-manager.ts:830-838 | Valid input: an edit that keeps size and mtime is not reported |
| `LookupTable.Table.Put` | src/longtail/library/perf/main.cpp:45-77 | A full table refuses and changes nothing; otherwise the log of the table grows by the pair at its end, and every bucket head and next link is again right |
| `LookupTable.Table.Search` | src/longtail/library/perf/main.cpp:79-91 | The chain walk ends at the earliest entry of the key or at the sentinel exactly when there is none |
| `LookupTable.Table.Get` | src/longtail/library/perf/main.cpp:79-92 | Returns the value of the first entry with the key, and all ones exactly when that is the value or no entry has the key |
| `LookupTable.Table.constructor` | src/longtail/library/perf/main.cpp:94-123 | The fresh arrays are an empty, correctly linked table |
| `LookupTable.Table.Create` | src/longtail/library/perf/main.cpp:94-140 | Copying a source fills the new table with the source's entries bucket by bucket, cut at the capacity; with room for all of them every key is answered as the source answers it, whatever the two bucket counts |
| `LookupTable.CopyOrderKeepsAnswers` | src/longtail/library/perf/main.cpp:123-138 | Bucket order is a rearrangement of the same length in which every key keeps its earliest value |
| `LookupTable.ChainVisits` | src/longtail/library/perf/main.cpp:61-77 | Walking the links of a bucket visits strictly increasing indices and exactly the entries of that bucket, so each entry lies on one chain |
| `LookupTable.BucketWalks` | src/longtail/library/perf/main.cpp:61-92 | In a linked table the bucket head and the next links lead along exactly that chain and end in the sentinel |
| `LookupTable.ChainSelects` | src/longtail/library/perf/main.cpp:123-138 | The entries along the chain of a bucket, in order, are all entries of the bucket in put order |
| `LookupTable.LinkLast` | src/longtail/library/perf/main.cpp:61-77 | Linking a new entry behind the last one of its chain keeps every head and every other link right |
| `LookupTable.MaskIsRemainder` | src/longtail/library/perf/main.cpp:61-81 | For a power-of-two bucket count, and-ing with the count minus one is taking the remainder |
| `LookupTable.TableSize` | src/longtail/library/perf/main.cpp:96-100 | The bucket count is the least power of two that is at least half the capacity |
| `Levenshtein.GetLevenshteinDistance` | src/clients/cli/argparse.hpp:539-561 | The filled table's last cell is the distance of the recursive definition with the full minimum |
| `Levenshtein.EqualLast` | src/clients/cli/argparse.hpp:549-551 | On equal last characters the diagonal alone is the minimum |
| `Levenshtein.Neighbours` | src/clients/cli/argparse.hpp:549-554 | Neighbouring cells differ by at most one |
| `Levenshtein.DistanceIsLeastEdits` | src/clients/cli/argparse.hpp:539-561 | The distance is attained by some sequence of single-character inserts, deletes and substitutions and no shorter one turns one string into the other |
| `Levenshtein.NoShorterEdits` | src/clients/cli/argparse.hpp:539-561 | Every edit sequence is at least as long as the distance |
| `Levenshtein.ShortestEdits` | src/clients/cli/argparse.hpp:539-561 | Constructs an edit sequence of that length |
| `Levenshtein.ZeroIffEqual` | src/clients/cli/argparse.hpp:539-561 | The distance is zero exactly for equal strings |
| `Levenshtein.Symmetric` | src/clients/cli/argparse.hpp:539-561 | It is symmetric |
| `Levenshtein.Triangle` | src/clients/cli/argparse.hpp:539-561 | It obeys the triangle inequality |
| `Levenshtein.GetMostSimilarString` | src/clients/cli/argparse.hpp:563-577 | Returns the first key, in map order, of least distance, and the empty string for an empty map |
| `DecimalLiteral.IsDecimalLiteral` | src/clients/cli/argparse.hpp:1405-1542 | The machine of labels and gotos accepts exactly the strings of the grammar in the comment above it |
| `DecimalLiteral.LiteralIff` | src/clients/cli/argparse.hpp:1405-1431 | The grammar's language: digits with at most one point, a digit on some side of it, and possibly a signed exponent, a plain integer having no leading zero |
| `DecimalLiteral.Jump` | src/clients/cli/argparse.hpp:1433-1542 | Each jump goes strictly forward and keeps membership: the rest of the input is accepted at the next label exactly when it was at this one |
| `DecimalLiteral.ConsumeDigits` | src/clients/cli/argparse.hpp:1453-1457 | Drops the whole leading run of digits |
| `DecimalLiteral.IsPositional` | src/clients/cli/argparse.hpp:1296-1312 | Positional exactly for the empty token, a token without a prefix character, a lone prefix character, or a prefixed decimal literal |
| `ArgumentParser.Argument.Consume` | src/clients/cli/argparse.hpp:980-1081 | Returns the cursor, stores the values and marks the argument exactly as the case analysis of its settings says, and on an error leaves values and mark alone |
| `ArgumentParser.ConsumeTakesWithinRange` | src/clients/cli/argparse.hpp:1017-1076 | Without choices a call that does not fail falls back to the default because too few tokens remain, or takes between the minimum and maximum, none option-like unless allowed, and stops only for a reason; and it fails only for the stated reasons |
| `ParseProvenance.ConsumeTook` | src/clients/cli/argparse.hpp:990-1076 | With choices too: what a call that does not fail takes, in terms of the run of choices before it |
| `ParseProvenance.ConsumeFailed` | src/clients/cli/argparse.hpp:980-1081 | And what each error of a call says about its tokens |
| `ArgumentParser.ChoicesMayExceedMaximum` | src/clients/cli/argparse.hpp:990-1012 | Concrete input: with choices, an argument limited to one token takes three |
| `ArgumentParser.ChoicesExceedMaximumIff` | src/clients/cli/argparse.hpp:990-1042 | An argument with choices takes more than its maximum if and only if more tokens than that remain, all of them are choices, and no option-like one comes first where those are refused |
| `ArgumentParser.ConsumeStoresWhatItPasses` | src/clients/cli/argparse.hpp:1025-1067 | The tokens stored are exactly those the cursor moves past |
| `ArgumentParser.Parser.ParseArgs` | src/clients/cli/argparse.hpp:2352-2460 | The loop terminates on every token list and ends with the outcome and stored values of the recursive specification, whose meaning is `ParseProvenance.ParseExplained` and `ParseProvenance.FailureMeans` |
| `ArgumentParser.Parser.TakeTurn` | src/clients/cli/argparse.hpp:2359-2457 | One turn of the loop |
| `ArgumentParser.Parser.ParseCompound` | src/clients/cli/argparse.hpp:2440-2455 | A compound token consumes for each of its characters in turn and fails at the first unknown one |
| `ArgumentParser.Parser.ParsePositional` | src/clients/cli/argparse.hpp:2415-2432 | A reserved last positional takes the last token and moves the end before the unbounded one consumes; which argument that is and what it stores is in `ParseProvenance.ParseExplained` |
| `ParseProvenance.ParseExplained` | src/clients/cli/argparse.hpp:2352-2460 | In a parse that does not fail every argument gains exactly what it took, each time for a reason: a name mapped to it stands right before, a letter of a compound is mapped to it, it is the next positional in order, or it is the last positional, for which the last token is kept back exactly when the one before it takes any number; the takes lie one behind the other and with the names cover every token up to the end or the subparser's name |
| `ParseProvenance.FailureMeans` | src/clients/cli/argparse.hpp:2352-2460 | Every error a parse ends with holds of its tokens: an unknown option or letter, a positional too many, no positional expected, a subcommand not known and its nearest one, a missing last positional, or the failure of some argument |
| `ArgumentParser.EveryTokenPlaced` | src/clients/cli/argparse.hpp:2352-2460 | A parse that does not fail puts every token after the program name in exactly one place: a known option, a stored value, or the subparser's rest |
| `ArgumentParser.NothingLost` | src/clients/cli/argparse.hpp:2352-2460 | The conservation behind it, from every point of the loop |
| `ArgumentParser.NamesAreOptions` | src/clients/cli/argparse.hpp:2436-2457 | Only option-like tokens that are known, or compounds all of whose short options are known, are ever read as options |
| `PathCache.RunKeepsMostRecent` | src/app/src/server/state-tree.ts:58-78 | After any run of gets and sets the cache holds exactly the up-to-256 most recently touched distinct keys, oldest first |
| `PathCache.HoldsAtMost256` | src/app/src/server/state-tree.ts:58-78 | The limit in numbers: up to 256 keys all are held, beyond that the last 256 |
| `PathCache.GetFollowsLaw` | src/app/src/server/state-tree.ts:63-69 | Entry by entry: a get moves the key's entry to the end or changes nothing |
| `PathCache.SetFollowsLaw` | src/app/src/server/state-tree.ts:70-78 | Entry by entry: a set puts the entry at the end, drops an older one of its key, and of 257 entries the first |
| `PathCache.RecencyMeans` | src/app/src/server/state-tree.ts:58-78 | What that order is: each touched key once, in the order of last touches |
| `PathCache.RunHoldsLatest` | src/app/src/server/state-tree.ts:63-78 | A held value is the one last set for its key |
| `PathCache.PathKeyInjective` | src/app/src/server/state-tree.ts:60-62 | Cache keys of colon-free repository ids never collide |
| `PathCache.PathKeysCollideIff` | src/app/src/server/state-tree.ts:60-62 | Two different ids can share a key if and only if one id with its colon is a prefix of the other with its colon |
| `PathCache.Cache.PathCacheGet` | src/app/src/server/state-tree.ts:63-69 | A hit returns the cached value and moves the key to the end |
| `PathCache.Cache.PathCacheSet` | src/app/src/server/state-tree.ts:70-78 | Re-inserts the key at the end and evicts the oldest beyond the limit |
| `PathCache.Cache.GetStateTreePaths` | src/app/src/server/state-tree.ts:86-102 | Always returns what materialising the root returns, and the empty map without a root, whatever was cached or evicted before |
| `PathCache.Cache.PrimeStateTreePaths` | src/app/src/server/state-tree.ts:105-111 | Priming with the tree's own map keeps that |
| `FileIdWorkers.MakeBatches` | src/app/src/server/state-tree.ts:144-149 | Batches of 500 concatenate back to the paths |
| `FileIdWorkers.StepKeepsInv` | src/app/src/server/state-tree.ts:151-168 | Every step of any worker keeps the pool's invariant: batches claimed once and in order, no batch held twice, the map exactly the rows of stored batches |
| `FileIdWorkers.StepWorks` | src/app/src/server/state-tree.ts:151-168 | Every step uses up work |
| `FileIdWorkers.EveryInterleaving` | src/app/src/server/state-tree.ts:138-170 | Under every schedule at most 8 queries are in flight, each batch is claimed exactly once, the number of steps is bounded, and a finished run has the same map |
| `FileIdWorkers.FinishedIsComplete` | src/app/src/server/state-tree.ts:138-170 | When every worker has returned, all batches are claimed and the map is all rows whose path was asked for |
| `FileIdWorkers.FileIdsForPaths` | src/app/src/server/state-tree.ts:138-170 | The function with its workers stepping in any order returns all rows whose path was asked for |
| `Dashboard.StartOfWeekIs` | src/metrics/src/lib/aggregate.ts:19-27 | The result is the one Monday midnight at most the input and less than seven days below it |
| `Dashboard.WeeksFromKnownMonday` | src/metrics/src/lib/aggregate.ts:19-27 | In milliseconds: weeks of 604,800,000 counted from Monday 5 January 1970 |
| `Dashboard.StartOfWeekIdempotent` | src/metrics/src/lib/aggregate.ts:19-27 | Applying it twice is applying it once |
| `Dashboard.StartOfWeekMonotone` | src/metrics/src/lib/aggregate.ts:19-27 | It is monotone |
| `Dashboard.LatestMeans` | src/metrics/src/lib/aggregate.ts:48-66 | The reports kept are, per instance, its newest one, each instance once and newest first |
| `Dashboard.BucketsPartitionWindow` | src/metrics/src/lib/aggregate.ts:76-96 | The twelve weeks are distinct and a time falls in one of them exactly when it lies in the window |
| `Dashboard.WeekListsNewest` | src/metrics/src/lib/aggregate.ts:93-115 | Each week's users come from each instance's newest report of that week |
| `Dashboard.GetDashboardData` | src/metrics/src/lib/aggregate.ts:42-118 | Each total is the sum, over the instances that reported, of that number of the instance's newest report; each of the twelve weeks counts its instances and sums the users of each one's newest report in it |
| `Dashboard.TotalsMean` | src/metrics/src/lib/aggregate.ts:67-75 | Instances, organisations, repositories and users, each summed over the set of instances |
| `NormalizePath.Normalize` | src/longtail/library/cmd/main.c:243-278 | The buffer's text is the input without the device prefix and with each separator run collapsed; a missing path stays missing |
| `NormalizePath.NormalizedByCharacter` | src/longtail/library/cmd/main.c:243-278 | Character by character: the four characters of the prefix go, and each slash or backslash right after a slash or backslash |
| `NormalizePath.CopyRuns` | src/longtail/library/cmd/main.c:256-276 | The in-place copy leaves the first character of every run before the write index, which never passes the read index |
| `NormalizePath.NoRunsLeft` | src/longtail/library/cmd/main.c:256-276 | No two separators are adjacent in the output |
| `NormalizePath.OthersKept` | src/longtail/library/cmd/main.c:256-276 | All other characters remain, in order |
| `NormalizePath.NormalizeIdempotent` | src/longtail/library/cmd/main.c:243-278 | Normalising twice equals normalising once |

## Left out

Simplifications of what is modelled:

- DaemonManager.Manager: one workspace's slice of the manager's maps, each map a field holding an optional value; `init`, `shutdown`, the per-daemon workspace list and loading of other workspaces are not modelled.
- DaemonManager.Manager.RefreshWorkspaceContents: each refresh and each callback is one atomic step; interleavings at the awaits inside a refresh, and the events lost when `dirtyFiles` is cleared at its end, are not captured.
- DaemonManager.Manager.RescanIgnoreFiles: the scan and the forced refresh after it are one step; in the source another refresh can run between the two and use the new rules on a map cached under the old ones.
- DaemonManager.Manager.ScanForFile: the two scans run one after the other, and the order of the directories is arbitrary; the workspace directory exists.
- DaemonManager.Manager.OnWatchEvent: paths arrive normalised with forward slashes, and an event without a file name is not modelled.
- DaemonManager.Manager.EndVcsOperation: the grace period before the replay is left out, so reports still in flight at the end count as undelivered.
- DaemonManager.Manager.MarkForAdd: marks are a set, where the source keeps an array without duplicates; writing `state.json` is left out.
- DaemonRuns.CacheAgreesOverEveryRun: speaks about file-level paths only; entries of untracked directories may differ between an incremental and a full refresh (a nested dirty directory gets its own entry, and an entry can outlive its last file), which the code does not promise.
- DaemonProperties.UnmarkUndoesMark: the whole map is compared with a full refresh before the marking, because an incremental result may hold other entries of untracked directories; `UnmarkUndoesMarkAtFileLevel` compares with any refresh. The disk and the rules held are the same throughout, since otherwise the results differ for reasons of their own; a reload of the baseline and further marks in between are left out.
- DaemonProperties.CountExactOverEveryRun: pending and baseline entries are looked up in true maps, where the source tests members of plain objects for truth; a path named like a member of `Object.prototype`, such as `constructor` or `toString`, is found there without being an entry, so a dirty one lowers `numChanges` with nothing removed. No theorem about the daemon speaks about such names.
- DaemonProperties.MarkedFileIsAdded: for the same reason not about a file with such a name, which gets a changed status.
- DirectoryWalk.Walk: symbolic links to directories, unreadable directories and files that vanish during the walk are not modelled; the order in which entries are listed is arbitrary.
- SubmitExpansion.ExpandDirectoriesForSubmit: a path that leads through a symbolic link to a directory is followed as the source follows it, and which paths exist only beneath a link found during the walk is a parameter; a directory that cannot be read and paths with trailing or doubled slashes are not modelled; the batches of 256 are processed one after the other, and the order of files within one directory's part is arbitrary.
- FileStatuses.GetFileStatuses: access checks are a function of the path.
- LookupTable.Table.Create: allocation failure and the branch for a full table inside the chain walk of a table with room are left out; the four arrays are separate objects, where the source carves one block.
- ArgumentParser.Parser.ParseArgs: works on preprocessed tokens; splitting of `--name=value`, custom actions, help text, the choice between message texts and type-erased values are left out, and the subparser's own parse is its rest of the tokens.
- Levenshtein.GetMostSimilarString: requires that no distance reaches the largest machine word, since the search starts from it.
- PathCache.Cache.GetStateTreePaths: materialising a root is a fixed function, so roots are immutable; the cached map is a value, so a caller that changes the returned map in place is not captured.
- FileIdWorkers.FileIdsForPaths: the database is a fixed map from path to id; a query that fails is not modelled.
- Dashboard.GetDashboardData: the limit on the number of reports fetched, week labels and dates before the year 100 are left out.
- NormalizePath.Normalize: a failing allocation is not modelled.

Not modelled at all:

- Real file-system, timer, network and database calls; the disk tree, the event steps and the returned rows stand for them.
- `getDirectoryPending`, sync-status polling, state persistence, logging and the API client.
- The ignore-pattern matcher, MD5, binary detection and conflict-marker detection beyond the stated hypotheses.
- Diffing two state trees, the block store and tree format behind `materialize`.
- The rest of the argument parser (declaration API, defaults, usage formatting, number conversion) and of the Longtail tools (up and down sync, platform layers, locks).
- Web application, desktop client, tray, installer, licensing and scripts: interface code and plumbing.
