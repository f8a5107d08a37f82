# grunt-replicate, modelled in Dafny

A model of the two parts of the `replicate` Grunt task that make decisions:

- **The tree scanner `FTS`** (lib/fts.js). It walks a directory tree in pre-order from the base path `""` at depth 0. It skips every path the exclusion pattern matches, together with everything below it. It records each visited path in a list and in a path-to-`lstat` map. It counts directories, regular files and everything else, and tracks the deepest directory.
- **The replication step** (tasks/grunt-replicate.js). It scans the source and the destination. Then it runs three loops:
  - the **deletion loop** goes over the reversed destination list and deletes what the source lacks;
  - the **copy loop** goes over the source list and creates (`NEW`), replaces (`RPL`) or updates (`UPD`) entries;
  - the **touch loop** resets the timestamps of the directories that were written into.

  Each `reportOp(op, type, path)` call is recorded, and so is the `anyAction` flag it sets. A run that met an unsupported source type reports that it threw.

## How it is modelled

- **The filesystem** is an immutable tree value (`FileTree.Node`): files, directories with an ordered list of named entries, symbolic links, and other nodes. Each carries `mode`, `atime` and `mtime` as integers.
  - A path is a sequence of names, and the base is `[]`.
  - `lstat` and `readdir` read this value.
  - The exclusion regular expression is an optional predicate on paths.
- **`Fts.FTS`** is a class with the scanner's fields: `paths`, `stats`, `numDirs`, `numFiles`, `numOthers` and `depthDirs`.
  - Its recursive methods update these fields in place.
  - Each method is proved equal to `Replay(old(Results()), Visit(...))`. `Visit` is the pure pre-order walk; `Replay` is the effect of recording its records.
  - `Scanned(exclude, root)` is what a fresh scanner holds after `scan()`. The lemmas in `FtsLemmas` are about it.
- **`Replicate.Run`** does the whole step imperatively, including the in-place reversal of the destination scanner's own list.
  - Its output is a trace of events, each either `Report(op, tag, path)` or `Perform(effect)`. An effect is an abstract filesystem call on a destination path.
  - `Run` is proved equal to the pure `Plan` over the two scanned inventories.
- **`ReplicatePhases`** and **`ReplicateLemmas`** describe what `Plan` reports, with the filesystem calls removed (`Reports`).
  - `Layout` is the reference sequence: deletions (`Condemned`), then what the copy loop announces (`Announcements`), then the touches.
  - The ordering, membership, dry-run and failure properties are proved about `Layout` and carried over to `Plan`.

Behaviour reproduced as the code has it:

- The deletion that precedes a replacement is tagged `DIR`, `LNK` or `OTH`, never `FIL`. The initial `"FIL"` is always overwritten by the final `else`.
- A replacement is reported as `RPL`, after its own `DEL`.
- A directory update is never reported, though a live run still touches it.
- Touches are queued only in live runs, so a dry run reports no `TCH`. Everything else is reported identically with or without `dryRun`.
- A destination-only entry of another type gets no action, and neither does the base path.
- Classification always reads the destination as scanned before the step. A path whose ancestor was replaced is still compared with its stale entry (`PlanSkipIsSilent`).
- Skipped entries are never type-checked. An unsupported type that is not skipped stops the copy loop after the earlier actions were already reported, and no touch follows.

For a regular file whose permission bits changed, the deletion before the replacement is tagged `OTH`, never `FIL`: the step reports `DEL OTH n` then `RPL FIL n` (`ModeChangeScenario`).

## Model

| member | source | states |
|---|---|---|
| Fts.FTS.constructor | lib/fts.js:33-49 | `baseDir` defaults to ".", the exclusion pattern to none; the list and map are empty and all four counters 0 |
| Fts.FTS.Scan | lib/fts.js:53-56 | the results become those of walking the tree from `[]` at depth 0 and recording each visited path |
| Fts.FTS.ScanAt | lib/fts.js:57-91 | an excluded path is returned from before `lstat`; otherwise the path is mapped, pushed, counted by type (depth max-updated for directories) and a directory's entries follow; the whole effect equals replaying `Visit` |
| Fts.FTS.ScanEntries | lib/fts.js:82-85 | the entries are visited in listing order at `depth + 1` with path `file + [name]`, with the effect of replaying `VisitEntries` |
| Fts.FTS.PathList | lib/fts.js:92-94 | with an index it returns that element (none when out of range), without one the whole list |
| Fts.FTS.PathMap | lib/fts.js:95-97 | with a key it returns that path's stat (none when not visited), without one the whole map |
| FtsLemmas.ScanPrunes | lib/fts.js:61-63 | no recorded path has an excluded prefix (itself or an ancestor); excluding the root leaves the results empty |
| FtsLemmas.ScanRootFirst | lib/fts.js:53-71 | unless excluded, the base `[]` is the first listed path and is mapped to the root's `lstat` |
| FtsLemmas.ScanPreOrder | lib/fts.js:70-85 | ancestors first: a path is never listed after a path beneath it |
| FtsLemmas.ScanSound | lib/fts.js:66-71 | no path is listed twice, the map's keys are exactly the listed paths, and each maps to the `lstat` of the node it names |
| FtsLemmas.ScanComplete | lib/fts.js:57-85 | every node of the tree none of whose prefixes is excluded is recorded |
| FtsLemmas.ScanCounters | lib/fts.js:74-90 | `numDirs`, `numFiles` and `numOthers` count the listed directories, regular files and the rest (symbolic links included), and add up to the list's length |
| FtsLemmas.ScanDepth | lib/fts.js:43-79 | `depthDirs` bounds the length of every recorded directory path and is reached by one, or is 0 |
| Replicate.Run | tasks/grunt-replicate.js:82-247 | the trace and the throw are those of `Plan` over the two scanned inventories (destination list reversed); `anyAction` holds exactly when something was reported; "(none)" is printed exactly when the step did not throw and `anyAction` is false |
| Replicate.Actioning | tasks/grunt-replicate.js:116-247 | over given lists and maps, the events are the deletions over the destination list, then the copy loop's, then (unless the copy loop threw) the touches; the throw is the copy loop's; `anyAction` holds iff something was reported |
| Replicate.Classify | tasks/grunt-replicate.js:175-183 | `NEW` iff the destination lacks the path, `RPL` iff the modes differ, `UPD` iff equal modes and a strictly later source mtime, `SKP` otherwise |
| Replicate.DeletePhase | tasks/grunt-replicate.js:139-164 | the deletion loop's events are `Deletions` over the reversed list; `anyAction` is set iff something was reported |
| Replicate.DeleteEntry | tasks/grunt-replicate.js:141-163 | one destination path: the base and paths the source has are left alone; files, directories and links are reported `DEL` with their tag and removed unless dry-running; other types get nothing |
| Replicate.CopyPhase | tasks/grunt-replicate.js:166-239 | the copy loop's events, touch queue and throw are `Copying` over the source list, which stops at the first throw; `anyAction` is set iff something was reported |
| Replicate.CopyEntry | tasks/grunt-replicate.js:168-238 | one source path: the base and `SKP` paths do nothing; otherwise the `CopyStep` events, touch and throw; `anyAction` is set iff the path is `Announced` |
| Replicate.ApplyEntry | tasks/grunt-replicate.js:185-238 | a non-skipped operation: a replacement first removes the destination entry, then the source entry is written |
| Replicate.RemoveEntry | tasks/grunt-replicate.js:186-197 | the replace-delete is reported with `ReplaceTag` (`DIR`, `LNK`, else `OTH`), followed by a recursive delete unless dry-running |
| Replicate.WriteEntry | tasks/grunt-replicate.js:199-238 | files and links are reported with the op and copied with mode and times; directories are reported and created unless updated, and queued at the front for a touch in live runs; other types throw |
| Replicate.TouchPhase | tasks/grunt-replicate.js:240-243 | the touch loop reports `TCH DIR` and resets times for each queued directory, front to back |
| Replicate.Emit | tasks/grunt-replicate.js:119-137 | `reportOp` appends its `(op, type, path)` and sets `anyAction` |
| Replicate.CopyStepReported | tasks/grunt-replicate.js:185-212 | the copy loop reports something for a path iff it is replaced, or it is not skipped, of a supported type and not a directory update |
| Replicate.CopyingStops | tasks/grunt-replicate.js:236-237 | once the copy loop has thrown, later source paths change nothing |
| ReplicatePhases.DeletionsReports | tasks/grunt-replicate.js:139-164 | the deletion loop reports `Condemned` whether or not it is a dry run, and a dry run makes no filesystem call |
| ReplicatePhases.CondemnedMembers | tasks/grunt-replicate.js:140-164 | a deletion is reported iff the path is listed, not the base, absent from the source and of a supported type, tagged by its destination type |
| ReplicatePhases.CondemnedOrder | tasks/grunt-replicate.js:140 | deletions are reported in the order of the list they are taken from |
| ReplicatePhases.RemovalReports | tasks/grunt-replicate.js:186-197 | the replace-delete reports one `DEL` with `ReplaceTag`, and a dry run makes no call |
| ReplicatePhases.WriteReports | tasks/grunt-replicate.js:199-238 | writing reports the op with the source tag except for unsupported types and directory updates; throws exactly on an unsupported type; queues a touch exactly for a directory in a live run |
| ReplicatePhases.StepReports | tasks/grunt-replicate.js:168-238 | one source path reports `Announce`, throws exactly at `Fails`, queues a touch exactly for a `Touched` directory in a live run, and makes no call in a dry run |
| ReplicatePhases.CopyingFails | tasks/grunt-replicate.js:200-237 | the copy loop throws iff some listed path is non-skipped, not the base and of an unsupported type |
| ReplicatePhases.CopyingReports | tasks/grunt-replicate.js:166-239 | the copy loop reports `Announcements` in live and dry runs alike; a dry run makes no call |
| ReplicatePhases.CopyingTouches | tasks/grunt-replicate.js:213-222 | without a throw, the `unshift` queue holds the touched directories in reverse source order; a dry run queues nothing |
| ReplicatePhases.AnnouncementsPaths | tasks/grunt-replicate.js:168-212 | every copy-loop report is on a listed, non-base, non-skipped path and is never a touch or a directory update |
| ReplicatePhases.AnnouncementsMembers | tasks/grunt-replicate.js:175-212 | without a throw: `NEW`/`RPL`/`UPD` of a path with a tag is reported iff that is its classification and source tag, except directory updates; a `DEL` iff it is replaced, tagged `ReplaceTag` |
| ReplicatePhases.AnnouncementsReplace | tasks/grunt-replicate.js:186-212 | every `RPL` directly follows the `DEL` of the entry it replaces |
| ReplicatePhases.TouchingReports | tasks/grunt-replicate.js:240-243 | the touch loop reports `TCH DIR` for each queued path, in queue order |
| ReplicateLemmas.PlanReports | tasks/grunt-replicate.js:139-243 | a step reports deletions, then the copy loop's announcements, then (live and no throw) the touches in reverse source order; it throws iff some path fails; a dry run makes no filesystem call |
| ReplicateLemmas.PlanDryRun | tasks/grunt-replicate.js:139-243 | a dry run throws exactly when a live run does and reports the same actions minus the final touches; it reports no `TCH` and makes no call |
| ReplicateLemmas.PlanNeverReportsBaseOrDirectoryUpdate | tasks/grunt-replicate.js:141-212 | no report is on the base path, and no directory `UPD` is ever reported |
| ReplicateLemmas.PlanDeletesDestinationOnly | tasks/grunt-replicate.js:140-164 | a destination-only path is reported `DEL` with tag `t` iff it is not the base and `t` is its type's tag; it gets no other report and at most one |
| ReplicateLemmas.PlanDeletesDescendantsFirst | tasks/grunt-replicate.js:140-164 | for a scanned destination, a destination-only path's report comes before that of any destination-only ancestor |
| ReplicateLemmas.PlanPhases | tasks/grunt-replicate.js:139-243 | reports on destination-only paths precede all reports on source paths, and every `TCH` follows every other report |
| ReplicateLemmas.PlanReportsSourceOps | tasks/grunt-replicate.js:175-212 | without a throw, `NEW`/`RPL`/`UPD` with tag `t` is reported for `p` iff `p` is a non-base source path of that classification whose type has tag `t`, except directory updates |
| ReplicateLemmas.PlanReplacements | tasks/grunt-replicate.js:186-197 | every `RPL` is immediately preceded by a `DEL` of the same path tagged by the destination type, which is `DIR`, `LNK` or `OTH` and never `FIL` |
| ReplicateLemmas.PlanFailure | tasks/grunt-replicate.js:200-237 | a step throws iff some non-base source path is of an unsupported type and not skipped; a throwing step reports no `TCH` |
| ReplicateLemmas.PlanSkipIsSilent | tasks/grunt-replicate.js:174-200 | a source path classified `SKP` against the pre-scan destination gets no report |
| ReplicateLemmas.PlanIdentical | tasks/grunt-replicate.js:139-200 | the same paths, with the same modes and no later source mtime, give a step with no event, no report and no throw |
| ReplicateLemmas.TypeChangeReplaces | tasks/grunt-replicate.js:176-178 | when a path's type differs between two scanned trees, its modes differ, so it is classified `RPL` |
| ReplicateLemmas.NewDirectoryScenario | tasks/grunt-replicate.js:166-243 | a new directory holding a new file: `NEW DIR d`, `NEW FIL d/f`, then in a live run `TCH DIR d`; no throw |
| ReplicateLemmas.ModeChangeScenario | tasks/grunt-replicate.js:175-209 | a regular file whose mode changed: `DEL OTH n` then `RPL FIL n`, in live and dry runs alike |

## Left out

- The real filesystem calls are not executed. `lstatSync` and `readdirSync` read the tree value. `unlinkSync`, `grunt.file.delete`/`copy`, `chmodSync`, `utimesSync`, `mkdirSync`, `symlinkSync`/`readlinkSync`, `lchmodSync` and the `O_SYMLINK` open/`futimesSync`/close sequence become abstract `Effect` values. Because their effect on a tree is not modelled, the model does not state what the destination looks like after a step, nor that a second step does nothing.
- Errors thrown by the filesystem calls are not modelled. `failed` is only the task's own "unknown file type" throw (tasks/grunt-replicate.js:236-237). Some filesystem throws follow from the two inventories alone, and in each of them a live run can stop where `Plan` goes on:
  - a link classified `UPD` (tasks/grunt-replicate.js:224-227), unless a parent directory was replaced in the same step: `symlinkSync` is called onto the destination link that is still there, because only `RPL` deletes first (line 196), so it fails after `UPD LNK` was reported;
  - a directory classified `UPD` below a directory that the same step replaced: the replacement removed it (line 196) and `UPD` skips `mkdirSync` (line 214), so the directory can be missing. Its touch (line 242) then fails, unless a regular file copied below it recreated it (`grunt.file.copy` creates missing parents, line 205). A directory or a link written below it fails earlier, at `mkdirSync` (line 215) or `symlinkSync` (line 227);
  - `NEW` of a directory or a link whose destination path exists but was excluded from the destination scan: `mkdirSync` or `symlinkSync` fails because the path exists;
  - any live link write where the platform has no `fs.lchmodSync` (Node defines it only where `O_SYMLINK` exists), since line 228 calls it unconditionally.
  Errors that depend on the world outside the inventories (a path that vanishes between the scans, a permission error) are left out as well.
- ReplicateLemmas.PlanFailure: states when the task's own throw happens; it does not cover the filesystem throws listed above.
- ReplicateLemmas.PlanReports: the reports and the throw are those of the task's own logic; a live run that meets one of the filesystem throws above stops earlier than `Layout` says.
- The inventory maps are Dafny maps. The source keeps them in plain JavaScript objects (lib/fts.js:70, 96; tasks/grunt-replicate.js:147, 176), whose lookups also answer members inherited from `Object.prototype`. For a top-level entry named `constructor`, `toString`, `valueOf`, `hasOwnProperty` or the like, the source differs from the model. A destination-only entry with such a name is never deleted, because `typeof srcPathMap[dp]` is "function", while the model reports `DEL`. A source-only entry with such a name is classified `RPL`, and line 188 then throws a TypeError, while the model reports `NEW`. An entry named `__proto__` is not stored as a key: the assignment at lib/fts.js:70 makes its stat the map's prototype. Afterwards a lookup of a top-level name such as `mode`, `size` or `isFile` finds that stat's members, so, when the source has such an entry, a destination-only entry with one of those names is never deleted. Paths below the top level contain a "/" and are not affected.
- `constants.hasOwnProperty("O_SYMLINK")` is the parameter `hasOSymlink`.
- The JavaScript `RegExp` engine is replaced by an arbitrary predicate on paths. The source tests the regular expression against the joined path string; the constructor's compilation of a string pattern into a `RegExp` is not modelled.
- `path.join` normalisation, `baseDir` joining and string paths are left out: paths are sequences of names.
- `Date` values are integer times.
- Grunt task registration, option defaulting and the iteration over `src`/`dest` pairs (tasks/grunt-replicate.js:43-59) are framework glue, so they are left out. `Run` takes the options and one pair.
- The source and destination sanity checks and the on-the-fly `grunt.file.mkdir` (tasks/grunt-replicate.js:64-73) are external validation and I/O, so they are left out.
- The scan table, the header lines and `reportOp`'s colouring and formatting (tasks/grunt-replicate.js:75-135) are presentation. Only the `(op, type, path)` tuple and `anyAction` are kept. "(none)" is printed exactly when `failed` is false and `anyAction` is false: a step that throws (tasks/grunt-replicate.js:237) leaves before the final notice, even when it reported nothing.
- sample/Gruntfile.js is configuration and is not part of this model. Its `regexExcludeDestination` key does not match the `regexpExcludeDestination` option the task reads.
- Fts.FTS.PathStat: returns the counters and has no contract of its own. What the counters mean is stated by `ScanCounters` and `ScanDepth`.
- FtsLemmas.ScanPreOrder: states only that ancestors come first. It does not state that a subtree's paths are contiguous or that siblings follow the listing order. That exact order is stated by `Fts.FTS.ScanEntries` through `VisitEntries`: the list puts a directory's children in `readdir` order because `Visit` is defined that way. No separate lemma restates this.
- Timestamps after the step are not modelled, because effects are not applied.
