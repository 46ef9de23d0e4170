# Verification model of the test-execution platform

The platform runs test cases, stores their logs and shows large case catalogues. This project models
the parts of it whose correctness is not evident from reading one function, and proves what they are for.

| part | files |
|---|---|
| Directory snapshots: a catalogue streamed into data parts, an in-place tree of references, its paged serialisation, and a reader | `Chunking`, `Sorting`, `DirectoryPages`, `ReadModelParts`, `DirectoryTree`, `DirectorySnapshotIndex`, `DirectoryReading`, `CaseDirectoryBuilder`, `SuiteDirectoryBuilder`, `CatalogueReading`, `DirectorySnapshotReading`, `DirectoryListing`, `SnapshotParts` |
| Resumable version copy: a lease-fenced job with persisted cursors over tables, objects and logs | `VersionCopyProtocol`, `…Invariant`, `…Steps`, `…Safety`, `…Progress`, `…Logs`, `…Control` (state machine and its theorems); `…Stores`, `…Phases`, `…Service` (the worker's own loops) |
| Log I/O lane and worker lane: event handlers around one worker | `LogIoProtocol`, `LogIoInvariant`, `LogIoProperties`, `LogIoOutcomes`, `LogIoLane`; `WorkerLaneProtocol`, `WorkerLaneOutcomes`, `WorkerLane` |
| Text: Groovy lexer and masker, AI input, evidence fragments, source edits, log redaction | `GroovyText`, `GroovyLexing`, `GroovyShapes`, `GroovyScanner`, `AiInput`, `TextEdits`, `TextSplices`, `LogRedaction` |
| AI group progression, JSON differences, log frame cache, coalesced operation, DDT import, case review | `AiGroups`, `AiGroupProgress`, `AiGroupCoverage`, `JsonPointers`, `JsonDiff`, `JsonDiffProperties`, `JsonDiffOrder`, `LogFrameCache`, `CoalescedOperations`, `DdtImport`, `CaseReview` |

## How the parts are modelled

* A **directory snapshot** is the sequence of `writePart` calls. `Branch` objects are linked and updated in
  place as in the source; a ghost log of the additions says what the tree means, and the pages are a function
  of that tree. The name comparison is an arbitrary total preorder.
* The **version copy** is a step relation over one job row, the tables, objects and logs of the target, and any
  number of workers, each with a private copy of the job state. One event is one atomic call on a port. A crash
  is a worker that takes no further step; lease expiry, takeover, cancel and retry may come at any time. The
  guards are those of the SQL statements in `packages/db/src/version-copy-repository.ts`. The loops of the worker
  run over this relation while everyone else may act between any two of its calls.
* A **lane** is a state machine with one step for each handler; the class methods are the handlers and are
  proved to take exactly that step. Promises are the `settled` map, posted messages the `sent` list.
* **Text** is a sequence of characters, and of UTF-16 code units for AI input. The Groovy lexer depends on
  character classes; their laws (quotes and slashes are not identifier parts or white space) are stated in `Lawful`.
* **Externals** that decide something, such as the model's context limit, the redaction patterns, the row
  encryption of a copy or the rows stored before an import, are arbitrary functions or inputs.

## Where the code falls short of its promise

Each condition is proved for all inputs and in both directions; the lemma named last is a concrete
case in which the promise fails.

* The lexer's line number is too small behind a single-line string that escapes a line break
  (`GroovyLexing.TokenLine`, `GroovyLexing.HiddenBreak`).
* A full-log AI group can count a member it never passed to the model, exactly when that member does not fit
  beside its own last part (`AiGroupCoverage.DropsExactly`, `AiGroupCoverage.FullGroupCovers`,
  `AiGroupCoverage.FittingMembersPassed`, `AiGroupCoverage.DroppedMember`).
* Edits with equal starts pass the overlap check but are applied in an order that is wrong for some replacement
  texts (`TextEdits.AppliedMeansSpliced`, `TextEdits.TiesDiffer`, `TextEdits.TwoInsertions`).
* An import whose "succeeded" status cannot be written counts that file twice (`DdtImport.CountsEveryFileOnce`,
  `DdtImport.DoubleCount`).
* A request after the coalescing loop's last check is not served by a later pass
  (`CoalescedOperations.ServedExactly`, `CoalescedOperations.LateRequest`).

Two guards are proved never to fire: the object check and the row count before publication cannot reject a
worker that holds the lease (`VersionCopySafety.ChecksPass`), and appending a log page a second time cannot
conflict (`VersionCopyLogs.AppendAccepted`).

## Model

| member | source | states |
|---|---|---|
| `DirectoryListing.CaseListedAt` | packages/application/src/build-directory-snapshots.ts:56-85 | From the root of the written parts a directory for each non-empty piece of a kept case's `directoryPath`, in order and each with the path of the pieces so far, leads to the one that lists the case among its own entries, by name, with the very part and place where it is stored. |
| `DirectoryListing.MemberListedAt` | packages/application/src/build-directory-snapshots.ts:122-166 | The same for a suite: an ordinary member under its package or the default one, a DDT member under its SR number, with its place among the members of its kind in its part. |
| `DirectoryListing.PiecesUnique` | packages/application/src/build-directory-snapshots.ts:67 | A path has exactly one sequence of slash-free pieces that gives it back when joined with slashes. |
| `DirectoryListing.SplitPieces` | packages/application/src/build-directory-snapshots.ts:67 | Every path has such a sequence, which is the one the builder splits it into. |
| `DirectoryListing.NamedSegments` | packages/application/src/build-directory-snapshots.ts:67 | The segments the index gets are those pieces that are not empty. |
| `DirectoryListing.PartOutcomes` | packages/application/src/build-directory-snapshots.ts:48-76 | A part has the latest outcome of each of its cases that has one, and no other outcome. |
| `SnapshotParts.CasePartIs` | packages/application/src/build-directory-snapshots.ts:30-85 | Part by part: full stretches of consecutive kept cases up to `partCount`, the last with what is left, and only index pages behind them. |
| `SnapshotParts.SuitePartIs` | packages/application/src/build-directory-snapshots.ts:104-181 | The same for a suite's mixed parts, with the manifest's counts of both kinds and its revision. |
| `SnapshotParts.CasesKept` | packages/application/src/build-directory-snapshots.ts:56-66 | Exactly the cases that pass all filters are kept, in the order they were read. |
| `SnapshotParts.MembersKept` | packages/application/src/build-directory-snapshots.ts:122-158 | A member is kept exactly when the search finds something in its own three texts. |
| `CatalogueReading.CatalogueRead` | packages/application/src/build-directory-snapshots.ts:36-80 | Following the cursors to the end gives the items of all pages in order; following them to one that came before is the error. |
| `CatalogueReading.CursorsLead` | packages/application/src/build-directory-snapshots.ts:36-80 | Following the cursors always leads to one or the other. |
| `CatalogueReading.SuiteRead` | packages/application/src/build-directory-snapshots.ts:112-170 | Both cursors of a suite followed to an empty page give the members of all pages in order; a page that moves neither is the error. |
| `CatalogueReading.FiltersDivide` | packages/application/src/build-directory-snapshots.ts:56-66 | The outcome filters divide what the search keeps: by "never", or by the one status of the latest outcome. |
| `DirectorySnapshotReading.CaseSnapshotReadsBack` | packages/application/src/build-directory-snapshots.ts:17-85 | For every catalogue and query with a tree: the parts are written under 0, 1, 2, … once each; reading from the manifest's root ordinal succeeds and lists every kept case exactly once; and the reference listed for it leads to that very case; `caseCount` is their number and the root lies behind the data parts. |
| `DirectorySnapshotReading.SuiteSnapshotReadsBack` | packages/application/src/build-directory-snapshots.ts:87-181 | The same for the mixed snapshot of a suite, where ordinary and DDT members share a part but are indexed by their place among their own kind; the two kind counts add up to the members kept. |
| `DirectorySnapshotReading.LogReadsAll` | packages/application/src/directory-snapshot-index.ts:25-81 | Whatever was written before it, an index whose references are pairwise different reads back from its root with each added entry once. |
| `DirectorySnapshotReading.SuiteRefsApart` | packages/application/src/build-directory-snapshots.ts:139-165 | No two members of a suite, of either kind, get the same (ordinal, index, kind) reference. |
| `DirectorySnapshotReading.CaseRefsApart` | packages/application/src/build-directory-snapshots.ts:67-75 | No two kept cases get the same (ordinal, index) reference. |
| `DirectoryReading.WriteThenRead` | packages/application/src/directory-snapshot-index.ts:48-81 | Reading the written parts from the returned root, along the `nextOrdinal` chains and child ordinals, gives exactly the tree of the additions, in sorted order and with their counts. |
| `DirectoryReading.TreeConserves` | packages/application/src/directory-snapshot-index.ts:25-46 | The tree below any directory holds the references of the entries added under it, each as often as it was added. |
| `DirectoryReading.CountIsSize` | packages/application/src/directory-snapshot-index.ts:27-43 | A directory's `caseCount` is the number of references in its whole sub-tree. |
| `DirectoryPages.ReadWrittenTree` | packages/application/src/directory-snapshot-index.ts:50-79 | A reader of the serialised pages terminates and rebuilds any tree, whatever else is stored. |
| `DirectoryPages.ReadOwnPages` | packages/application/src/directory-snapshot-index.ts:64-77 | The chain of pages of one branch gives its directories and then its entries back in order, with nothing lost at a page border that cuts through either list. |
| `DirectoryPages.TreePagesWellShaped` | packages/application/src/directory-snapshot-index.ts:64-77 | Every page holds at most 100 elements, is full when it has a next page, names the following ordinal as that page, and refers only to children with smaller ordinals. |
| `DirectoryPages.RootInside` | packages/application/src/directory-snapshot-index.ts:64-78 | The returned root ordinal is one of the ordinals written for the tree. |
| `DirectoryTree.TreeDirs` | packages/application/src/directory-snapshot-index.ts:50-62 | A directory's sub-directories are, key by key in sorted order, those of the keys first used under it, each with its own sub-tree. |
| `DirectoryTree.DirsListed` | packages/application/src/directory-snapshot-index.ts:25-62 | They are listed in name order, one for every kind and name something was added under and no other, each with its path and the number of entries below it. |
| `DirectoryTree.ChildIffUnder` | packages/application/src/directory-snapshot-index.ts:28-41 | A sub-directory exists if and only if something was added under it. |
| `DirectoryTree.ChildKeysDistinct` | packages/application/src/directory-snapshot-index.ts:29-41 | No directory lists two sub-directories of the same kind and name. |
| `DirectoryTree.RootCount` | packages/application/src/directory-snapshot-index.ts:26-27 | The root counts every addition. |
| `DirectorySnapshots.DirectorySnapshotIndex.constructor` | packages/application/src/directory-snapshot-index.ts:15-23 | A new index has an empty log and is valid. |
| `DirectorySnapshots.DirectorySnapshotIndex.Add` | packages/application/src/directory-snapshot-index.ts:25-46 | Updating the linked branches in place keeps the whole tree in agreement with the log of additions, which grows by this one. |
| `DirectorySnapshots.DirectorySnapshotIndex.Walk` | packages/application/src/directory-snapshot-index.ts:26-45 | The walk over the path segments ends in the branch of that path, every branch on the way has counted the entry, and missing ones were created. |
| `DirectorySnapshots.DirectorySnapshotIndex.Descend` | packages/application/src/directory-snapshot-index.ts:28-44 | One step of the walk: exactly the branches up to the next one have counted the entry. |
| `DirectorySnapshots.DirectorySnapshotIndex.Write` | packages/application/src/directory-snapshot-index.ts:48-81 | The in-place sort and the recursive writer emit exactly the pages of the tree of the log, under consecutive ordinals, and return its root. |
| `DirectorySnapshots.DirectorySnapshotIndex.WriteBranch` | packages/application/src/directory-snapshot-index.ts:50-79 | The branch at a path emits its sub-tree's pages, children first, advances the shared counter by their number and returns the first page of its own. |
| `DirectorySnapshots.DirectorySnapshotIndex.SortEntries` | packages/application/src/directory-snapshot-index.ts:63 | Sorting a branch's entries in place leaves the stable name order of what was added there, also when it was sorted before. |
| `DirectorySnapshots.WriteOwnPages` | packages/application/src/directory-snapshot-index.ts:64-77 | The page loop writes the branch's pages under consecutive ordinals, an empty branch one empty page. |
| `Chunking.ChunksFlatten` | packages/application/src/build-directory-snapshots.ts:69-82 | Data parts put together are the kept items in order. |
| `Chunking.ChunksFull` | packages/application/src/build-directory-snapshots.ts:72-82 | All parts but the last are full and none is empty. |
| `Chunking.ChunkAt` | packages/application/src/build-directory-snapshots.ts:67-75 | Item `n` is found in part `n / size` at place `n % size`. |
| `Chunking.ChunksAre` | packages/application/src/build-directory-snapshots.ts:30-34 | Full flushed chunks followed by the open one are the chunks of everything kept. |
| `CaseDirectoryBuilder.BuildCaseDirectorySnapshot` | packages/application/src/build-directory-snapshots.ts:17-85 | For any catalogue: the build fails exactly when a cursor comes back a second time; otherwise the parts written are the chunks of the filtered items in order, followed by the index, and the manifest's counts are theirs. An empty catalogue without an explicit chunk size still gets one part. |
| `CaseDirectoryBuilder.EntriesResolve` | packages/application/src/build-directory-snapshots.ts:67-75 | Every index entry names the part and place of the very case it was added for. |
| `CaseDirectoryBuilder.KeptConcat` | packages/application/src/build-directory-snapshots.ts:56-75 | Filtering page by page keeps what filtering the whole catalogue keeps. |
| `CaseDirectoryBuilder.CaseBuild.Offer` | packages/application/src/build-directory-snapshots.ts:56-76 | Offering one item keeps it exactly when search, suite membership and outcome filter let it through, with its index entry pointing at the open chunk. |
| `CaseDirectoryBuilder.CaseBuild.Flush` | packages/application/src/build-directory-snapshots.ts:30-34 | A flush closes the open chunk, writes it under the next ordinal, and starts an empty one; `caseCount` covers what is closed. |
| `SuiteDirectoryBuilder.BuildSuiteDirectorySnapshot` | packages/application/src/build-directory-snapshots.ts:87-181 | A missing suite writes nothing; a page that moves neither cursor is an error; otherwise the parts are the chunks of the filtered members in the order read, followed by the index, with both kind counts. |
| `SuiteDirectoryBuilder.EntriesResolve` | packages/application/src/build-directory-snapshots.ts:131-166 | In the mixed parts every entry names the very member it was added for, by its place among its own kind. |
| `SuiteDirectoryBuilder.ChunkResolves` | packages/application/src/build-directory-snapshots.ts:139-164 | Within one part later members do not move the place of earlier ones. |
| `SuiteDirectoryBuilder.SuiteBuild.OfferItem` | packages/application/src/build-directory-snapshots.ts:131-148 | An ordinary member is kept exactly when the search text occurs in it, and is then indexed where it stands. |
| `SuiteDirectoryBuilder.SuiteBuild.OfferDdt` | packages/application/src/build-directory-snapshots.ts:149-166 | The same for a DDT member. |
| `SuiteDirectoryBuilder.SuiteBuild.Flush` | packages/application/src/build-directory-snapshots.ts:104-110 | Closing a mixed chunk counts and keeps all members of both kinds. |
| `Sorting.StableSortSorted` | packages/application/src/directory-snapshot-index.ts:52-54 | The sort result is ordered. |
| `Sorting.StableSortStable` | packages/application/src/directory-snapshot-index.ts:52-63 | Elements that the order does not tell apart stay in the order they were in. |
| `Sorting.StableSort` | packages/application/src/directory-snapshot-index.ts:52-63 | The sort result is a permutation of its input. |
| `VersionCopySafety.RunKeeps` | packages/application/src/copy-project-version.ts:139-540 | Over every interleaving of workers, crashes, lease expiries, takeovers, cancels and retries: the target tables are exactly the image of the rows up to the persisted cursor, each once; stored objects and logs cover what is persisted as copied; and every worker that still holds the lease has seen the newest progress. |
| `VersionCopySafety.StepKeeps` | packages/application/src/copy-project-version.ts:139-540 | Each single event keeps that invariant. |
| `VersionCopySafety.CompletedHolds` | packages/application/src/copy-project-version.ts:197-215 | A published copy holds the image of every snapshot row exactly once and in order, every object and, for each attempt's streams, every chunk and the acknowledged range; its counters equal the manifest's totals and its progress is 100. |
| `VersionCopySafety.ChecksPass` | packages/application/src/copy-project-version.ts:197-214 | The object check and the row counts of `finish` never reject a worker that holds the lease. |
| `VersionCopySafety.CancelledLeavesNoRows` | packages/application/src/copy-project-version.ts:495-540 | A cancelled copy has no row left in any target table. |
| `VersionCopyProgress.RunAhead` | packages/application/src/copy-project-version.ts:355-409 | However a run goes on, persisted progress never goes back: phase, table and cursor lexicographically, every counter and the percentage. |
| `VersionCopyProgress.PercentShown` | packages/application/src/copy-project-version.ts:342-486 | In every reachable state the percentage is exactly that of the copied objects, rows or attempts in the phase's span. |
| `VersionCopyControl.CancelRequested` | packages/db/src/version-copy-repository.ts:280-319 | In every reachable state a cancel request turns a job that has neither completed nor been cancelled to cancelling and clean-up, and touches nothing else. |
| `VersionCopyControl.RetryQueues` | packages/db/src/version-copy-repository.ts:280-319 | A retry queues a failed job again with all its progress, free to be claimed, and does nothing to any other. |
| `VersionCopyControl.ExpiredIsFree` | packages/db/src/version-copy-repository.ts:220-233 | When a lease has run out exactly the unfinished jobs can be claimed, and whoever claims one holds the lease with the persisted progress and cleans up exactly when that is due. |
| `VersionCopyControl.CancelReachesCleanUp` | packages/db/src/version-copy-repository.ts:220-319 | A cancelled job whose worker died is cleaned up by the next one that claims it. |
| `VersionCopyProgress.CancelIsFinal` | packages/db/src/version-copy-repository.ts:280-319 | A job once asked to cancel, or cleaning up, is never published, whatever workers still run. |
| `VersionCopyProgress.Fenced` | packages/db/src/version-copy-repository.ts:566-590 | A worker whose lease is gone or expired changes neither a target row nor any persisted progress; without its token it does not touch the job row at all. |
| `VersionCopyLogs.RunAgrees` | packages/application/src/copy-project-version.ts:433-465 | In every reachable state a stored target chunk has the content of the source chunk with its sequence number. |
| `VersionCopyLogs.AppendAccepted` | packages/db/src/attempt-log-store.ts:294-360 | Hence appending a page again after a crash is never refused for conflicting content. |
| `VersionCopyLogs.AttemptLogsGone` | packages/application/src/copy-project-version.ts:506-510 | If every attempt of the snapshot was run in one of its batches, removing the batches leaves no log of any of them. |
| `VersionCopyInvariant.SaveKeeps` | packages/db/src/version-copy-repository.ts:234-267 | A save under the lease keeps the invariant as soon as what it writes is backed by the stores. |
| `VersionCopyInvariant.Bystanders` | packages/db/src/version-copy-repository.ts:566-590 | A guarded write leaves the invariant of every other worker's private state intact. |
| `VersionCopyInvariant.ClaimKeeps` | packages/db/src/version-copy-repository.ts:220-233 | A takeover hands over the persisted state, which is all the new worker needs. |
| `VersionCopyInvariant.PercentGrows` | packages/application/src/copy-project-version.ts:355-356 | The percentage stays inside its phase's span and grows with the count. |
| `VersionCopyInvariant.PercentIs` | packages/application/src/copy-project-version.ts:355-356 | The percentage is the phase's base and the share of its span that is done, rounded down. |
| `VersionCopySteps.InsertKeeps` | packages/db/src/version-copy-repository.ts:447-494 | Inserting a page together with its cursor keeps rows and cursor in step. |
| `VersionCopySteps.AppendKeeps` | packages/application/src/copy-project-version.ts:452-460 | Appending a page of log chunks keeps what is already logged. |
| `VersionCopySteps.EndStreamKeeps` | packages/application/src/copy-project-version.ts:466-481 | A stream is closed only with everything acknowledged at the source present and acknowledged at the target. |
| `VersionCopySteps.FinishKeeps` | packages/db/src/version-copy-repository.ts:495-538 | Publication keeps the invariant, so it publishes complete copies only. |
| `VersionCopySteps.RemovePageKeeps` | packages/db/src/version-copy-repository.ts:539-554 | Removing a page of keys leaves only copies of rows not yet removed. |
| `VersionCopySteps.ForgetKeeps` | packages/application/src/copy-project-version.ts:523-527 | The snapshot is given up only when all tables are empty. |
| `VersionCopySteps.RemoveTargetKeeps` | packages/db/src/version-copy-repository.ts:555-565 | A job becomes cancelled only with empty tables and no snapshot. |
| `VersionCopySteps.CopiedConcat` | packages/application/src/copy-project-version.ts:377-393 | The image of the rows is built page by page. |
| `VersionCopyStores.Stores.Call` | packages/application/src/copy-project-version.ts:312-360 | One port call of a worker, with anything allowed to happen before it: it either acts on its own unchanged private state or throws, and the invariant holds where it acts. |
| `VersionCopyStores.Stores.Pause` | packages/application/src/copy-project-version.ts:139-158 | Whatever the others do, a worker's private state is unchanged or its next call throws. |
| `VersionCopyPhases.CopyObjects` | packages/application/src/copy-project-version.ts:306-364 | The file phase ends with all objects copied and the job in the records phase, or throws; undisturbed it does not throw. |
| `VersionCopyPhases.CopyTable` | packages/application/src/copy-project-version.ts:371-406 | One table's page loop ends at the next table with consistent counters, for every split into pages. |
| `VersionCopyPhases.CopyRecords` | packages/application/src/copy-project-version.ts:365-410 | The records phase reaches the logs phase or throws, resuming at any table and cursor. |
| `VersionCopyPhases.CopyStream` | packages/application/src/copy-project-version.ts:433-482 | One stream is copied from its beginning until the source has no more. |
| `VersionCopyPhases.CopyAttempt` | packages/application/src/copy-project-version.ts:417-489 | All three streams of an attempt are closed before its cursor is persisted. |
| `VersionCopyPhases.CopyLogs` | packages/application/src/copy-project-version.ts:411-494 | The logs phase reaches verification or throws; undisturbed and with whole source logs it does not throw. |
| `VersionCopyPhases.CheckObjects` | packages/application/src/copy-project-version.ts:197-212 | The presence check visits every object of the manifest. |
| `VersionCopyPhases.PublishCopy` | packages/db/src/version-copy-repository.ts:495-538 | Counting and publishing end with a completed job or throw. |
| `VersionCopyService.Execute` | packages/application/src/copy-project-version.ts:139-276 | One execution from waiting for the claim to settlement, under arbitrary interference: published means completed and whole, cleaned up means cancelled with empty tables, not claimed means the job has ended, interrupted that another worker still holds a live lease; after an error the job row is as `Settle` leaves it, and a shutdown never fails the job. Left alone it finishes from any state in which an earlier worker may have died: with whole source logs it publishes, and a job to be cleaned up ends without rows, objects and logs of the snapshot's batches. |
| `VersionCopyService.AwaitLease` | packages/application/src/copy-project-version.ts:141-150 | A worker whose claim fails waits exactly while another lease on an unfinished job is alive and the signal has not come; a job that is free is not waited for. |
| `VersionCopyService.CopyPhases` | packages/application/src/copy-project-version.ts:186-214 | Starting from whichever phase is persisted, the remaining phases run in order to publication. |
| `VersionCopyService.Begin` | packages/application/src/copy-project-version.ts:174-185 | The source is captured once; a later worker reuses that snapshot. |
| `VersionCopyService.CleanUp` | packages/application/src/copy-project-version.ts:495-540 | A clean-up ends with a cancelled job or throws, from any point where an earlier one stopped. Left alone it succeeds, and leaves no object and exactly the logs of attempts outside the snapshot's batches. |
| `VersionCopyService.RemoveTables` | packages/application/src/copy-project-version.ts:501-522 | Tables are emptied from the last to the first; left alone, the log stores of all batches in the snapshot, and no others, are gone afterwards. |
| `VersionCopyService.RemoveRowsOf` | packages/application/src/copy-project-version.ts:503-519 | One page: the log stores of its batches are removed first if it is the table of batches, then its copies. |
| `VersionCopyService.RemoveBatches` | packages/application/src/copy-project-version.ts:506-510 | The log store of every batch on the page is removed and nothing else. |
| `VersionCopyService.DeleteObjects` | packages/application/src/copy-project-version.ts:528-536 | The deletion loop ends with no object under the job's prefix at that moment. |
| `VersionCopyService.Settle` | packages/application/src/copy-project-version.ts:216-269 | After an error: without the lease token nothing happens to the job; with it a shutdown releases the job, status and progress unchanged and free to be claimed; a pending cancellation is cleaned up, once; and everything else, an error of that clean-up included, fails the job with its progress. Left alone the clean-up succeeds. |
| `LogIoInvariant.RunValid` | apps/web/server/log-io-pool.ts:88-255 | In every reachable state the byte count is that of the active and queued requests and within budget, their number within capacity, ids ascend, at most one worker process is alive, the accepted calls are exactly the settled and the held ones, and every queued one has its timer running. |
| `LogIoInvariant.StepValid` | apps/web/server/log-io-pool.ts:111-254 | Each handler keeps that. |
| `LogIoOutcomes.SettledExactly` | apps/web/server/log-io-pool.ts:163-252 | Over every run a call ends with an outcome if and only if some event caused it: the current worker's answer to the call it is at work on, as given; its deadline while it waits or is written and may not be cut off; the lane closing, its worker having ended, or no worker to be started for it. |
| `LogIoOutcomes.AnswerReachesCaller` | apps/web/server/log-io-pool.ts:163-182 | What the current worker answered to the active call is what its caller is told, however the run goes on. |
| `LogIoOutcomes.CallAccepted` | apps/web/server/log-io-pool.ts:111-139 | A call is accepted exactly when the lane is not recovering or closing and has a place and room for its bytes; it then has the next id, a running deadline and its bytes counted, or has ended already. A refused call changes nothing. |
| `LogIoOutcomes.FailureGivesUp` | apps/web/server/log-io-pool.ts:183-236 | A failure of the current worker leaves the lane without one and waiting for it to end; every call held before is still held, and the end of the worker settles it. |
| `LogIoProperties.NeverLost` | apps/web/server/log-io-pool.ts:111-245 | Every accepted call is settled, or held with its deadline timer running, or - on an interruptible lane only - held while its worker is being ended. |
| `LogIoProperties.OneInFlight` | apps/web/server/log-io-pool.ts:141-182 | Requests are posted in ascending id order and only when every earlier one is settled. |
| `LogIoProperties.StepSends` | apps/web/server/log-io-pool.ts:141-152 | One event posts at most one request, above everything posted before. |
| `LogIoProperties.SettledOnce` | apps/web/server/log-io-pool.ts:166-245 | The outcome of a call never changes. |
| `LogIoProperties.DeadlineActs` | apps/web/server/log-io-pool.ts:192-214 | A deadline settles its call or starts the termination of its worker. |
| `LogIoProperties.TerminationSettles` | apps/web/server/log-io-pool.ts:222-244 | The end of a termination settles every call accepted so far and leaves the lane free. |
| `LogIoProperties.ClosedForGood` | apps/web/server/log-io-pool.ts:247-254 | After close everything is settled, nothing is accepted and nothing is posted, whatever follows. |
| `LogIoProperties.SlotKept` | apps/web/server/log-io-pool.ts:197-204 | On a lane that is not interruptible a timed-out write keeps its slot and worker, and nothing else is posted, until that write answers or the worker fails. |
| `LogIoProperties.RetiredForGood` | apps/web/server/log-io-pool.ts:166-188 | A worker that was given up is never used again and nothing it says is heeded. |
| `LogIoLanes.LogIoLane.constructor` | apps/web/server/log-io-pool.ts:88-105 | A new lane is idle. |
| `LogIoLanes.LogIoLane.Call` | apps/web/server/log-io-pool.ts:111-139 | A call is refused exactly while recovering, closing, or at capacity or over budget; otherwise it is queued with its timer and the next request started. |
| `LogIoLanes.LogIoLane.StartNextRequest` | apps/web/server/log-io-pool.ts:141-152 | Moves the oldest request to the worker, starting one if needed; a start that throws fails the lane. |
| `LogIoLanes.LogIoLane.HandleMessage` | apps/web/server/log-io-pool.ts:166-182 | Only the current worker's answer to the active request settles it; everything else is ignored. |
| `LogIoLanes.LogIoLane.HandleFailure` | apps/web/server/log-io-pool.ts:183-188 | An error or exit counts only from the current worker. |
| `LogIoLanes.LogIoLane.ExpireRequest` | apps/web/server/log-io-pool.ts:192-214 | A deadline fails the worker, rejects and keeps the slot, or takes the request out of the queue, by case. |
| `LogIoLanes.LogIoLane.FailWorker` | apps/web/server/log-io-pool.ts:216-236 | The worker is detached and terminated, or the held requests rejected at once when there is none. |
| `LogIoLanes.LogIoLane.RejectHeld` | apps/web/server/log-io-pool.ts:238-245 | Active and queued requests are settled, their timers stopped, the bytes cleared. |
| `LogIoLanes.LogIoLane.HandleTerminated` | apps/web/server/log-io-pool.ts:222-234 | The end of a termination, either way, rejects what was held and lets the lane start again. |
| `LogIoLanes.LogIoLane.Close` | apps/web/server/log-io-pool.ts:247-254 | Closing rejects what is held and detaches the worker. |
| `WorkerLaneOutcomes.SettledExactly` | apps/web/server/worker-pool.ts:577-663 | Over every run a request ends with an outcome if and only if some event caused it: the answer of the current, unfailed worker while it was pending, as given; or its worker breaking or ending, a refused termination, the shutdown deadline, or a post that fails. |
| `WorkerLaneOutcomes.DispatchAccepted` | apps/web/server/worker-pool.ts:492-560 | A request is accepted exactly under the listed guards, and is then pending under the next id at the current worker or a new one. |
| `WorkerLaneOutcomes.ExpiredGivesUp` | apps/web/server/worker-pool.ts:654-663 | A diagnostic read that is pending at its deadline costs the lane its worker: nothing is heeded or accepted until that worker has ended, which fails what is pending. |
| `WorkerLaneOutcomes.WorkersReplaced` | apps/web/server/worker-pool.ts:585-603 | A worker that ended is replaced by the next request, one that broke is heeded no more, and any other worker changes nothing. |
| `WorkerLaneOutcomes.ClosesForGood` | apps/web/server/worker-pool.ts:562-572 | A closed lane accepts nothing any more; closing itself settles nothing. |
| `WorkerLaneProtocol.RunValid` | apps/web/server/worker-pool.ts:472-685 | In every reachable state the pending bytes are those of the pending map, the limits hold, each accepted request is pending or settled and never both, and each foreground token opened at dispatch is open exactly while its request is pending and was never closed twice. |
| `WorkerLaneProtocol.LateResponse` | apps/web/server/worker-pool.ts:607-624 | A response to a settled request changes nothing. |
| `WorkerLaneProtocol.WaitersReleased` | apps/web/server/worker-pool.ts:665-684 | Drain waiters exist only while something is pending; the deadline releases them and settles all that is pending. |
| `WorkerLaneProtocol.ReleasedOnlyDrained` | apps/web/server/worker-pool.ts:665-684 | Only an event that leaves nothing pending, the drain deadline among them, releases a drain waiter. |
| `WorkerLaneProtocol.DrainedIsClean` | apps/web/server/worker-pool.ts:607-652 | With nothing pending every accepted request is settled, every token returned, no byte counted and nobody waiting. |
| `WorkerLanes.WorkerLane.DispatchTo` | apps/web/server/worker-pool.ts:492-560 | Refused exactly when aborted, closing, recovering, full for its kind of task, or over the byte budget; otherwise registered and posted, and a failing post fails all pending requests. |
| `WorkerLanes.WorkerLane.HandleMessage` | apps/web/server/worker-pool.ts:583-585 | Heeded only from the current worker and not after its failure. |
| `WorkerLanes.WorkerLane.HandleError` | apps/web/server/worker-pool.ts:586-590 | Marks the worker failed and settles everything pending. |
| `WorkerLanes.WorkerLane.HandleExitOf` | apps/web/server/worker-pool.ts:591-602 | Clears worker and failure mark; an unexpected exit settles what is pending. |
| `WorkerLanes.WorkerLane.ExpireDiagnosticRead` | apps/web/server/worker-pool.ts:654-663 | Only marks the worker failed; the requests stay until it exits. |
| `WorkerLanes.WorkerLane.FailPending` | apps/web/server/worker-pool.ts:626-652 | Settles every pending request and releases the drain waiters. |
| `WorkerLanes.WorkerLane.StartClosing` | apps/web/server/worker-pool.ts:562-566 | Closing waits exactly when there is a worker with something pending. |
| `WorkerLanes.WorkerLane.DrainDeadlinePasses` | apps/web/server/worker-pool.ts:566-569 | The deadline leaves nothing pending. |
| `GroovyText.ViewsAgree` | groovy-test/AnalyzeNormalGroovyCases.java:903-2404 | Whenever the lexer gets through, the spans the separately written masker blanks are exactly the lexer's comments and strings, for every source text. |
| `GroovyText.StepAgrees` | groovy-test/AnalyzeNormalGroovyCases.java:905-924 | At each piece both see the same comment or string, and white space and words hide no opening of one. |
| `GroovyShapes.PiecesShape` | groovy-test/AnalyzeNormalGroovyCases.java:903-1003 | Character by character: a line comment ends with its line, a block comment with the first closing mark, a triple-quoted string with the next three quotes, any other with the first quote behind an even number of backslashes; white space and words are as long as they can be; and the lexer fails only at one that never closes. |
| `GroovyShapes.TokensAre` | groovy-test/AnalyzeNormalGroovyCases.java:903-925 | The tokens are the strings, words and single characters among the pieces, kind by kind. |
| `GroovyShapes.ErrorLine` | groovy-test/AnalyzeNormalGroovyCases.java:943-990 | The line of an error is that of the comment or string that never closes, less the line breaks escaped in strings before it. |
| `GroovyShapes.SpansShape` | groovy-test/AnalyzeNormalGroovyCases.java:2339-2404 | On every text, lexable or not, a masked span is such a comment or string, or an unclosed one to the end of the text. |
| `GroovyShapes.OutsidePlain` | groovy-test/AnalyzeNormalGroovyCases.java:2339-2365 | And outside the spans no comment or string opens. |
| `GroovyShapes.MissedIn` | groovy-test/AnalyzeNormalGroovyCases.java:958-990 | The line breaks the lexer's counter misses are exactly those behind an odd number of backslashes in strings that are not triple-quoted. |
| `GroovyShapes.NarrativeAt` | groovy-test/AnalyzeNormalGroovyCases.java:2368-2376 | The narrative is the text of every span in order, each behind one blank. |
| `GroovyText.PiecesTile` | groovy-test/AnalyzeNormalGroovyCases.java:903-925 | The pieces cover the text from end to end without gap or overlap. |
| `GroovyText.MaskIdempotent` | groovy-test/AnalyzeNormalGroovyCases.java:2333-2384 | Masking a masked text changes nothing, on every input including unclosed ones. |
| `GroovyText.MaskAt` | groovy-test/AnalyzeNormalGroovyCases.java:2368-2384 | Exactly the characters inside spans become blanks, line breaks excepted; all others stay. |
| `GroovyText.MaskPlain` | groovy-test/AnalyzeNormalGroovyCases.java:2339-2384 | A masked text contains no comment or string opening. |
| `GroovyText.Mask` | groovy-test/AnalyzeNormalGroovyCases.java:2333-2337 | Masking keeps the length. |
| `GroovyLexing.LexedPieces` | groovy-test/AnalyzeNormalGroovyCases.java:903-925 | The lexer fails exactly when a comment or string is unclosed, and its token spans are the pieces that are neither white space nor comment, in order. |
| `GroovyLexing.PiecesLook` | groovy-test/AnalyzeNormalGroovyCases.java:906-922 | Each piece is what its kind says: white space only, a closed comment, a string with its quotes, a maximal word, one other character. |
| `GroovyLexing.TokenLine` | groovy-test/AnalyzeNormalGroovyCases.java:958-990 | A token's text is its span, and its line is the true line less the line breaks escaped inside earlier single-line strings; so it is right exactly when there are none. |
| `GroovyLexing.HiddenBreak` | groovy-test/AnalyzeNormalGroovyCases.java:967-972 | A concrete source whose last word is reported one line too early. |
| `GroovyScanner.GroovyLexer.Tokenize` | groovy-test/AnalyzeNormalGroovyCases.java:903-925 | The scanning loop computes that token sequence, or the line of the first unclosed opening. |
| `GroovyScanner.GroovyLexer.TakePiece` | groovy-test/AnalyzeNormalGroovyCases.java:905-923 | One round consumes exactly one piece and moves the line counter as stated. |
| `GroovyScanner.GroovyLexer.ConsumeString` | groovy-test/AnalyzeNormalGroovyCases.java:958-990 | Stops at the first closing quote that is not escaped, or fails at the end of the text. |
| `GroovyScanner.GroovyLexer.ConsumeBlockComment` | groovy-test/AnalyzeNormalGroovyCases.java:943-956 | Stops behind the first closing, counting line breaks, or fails. |
| `GroovyScanner.GroovyLexer.ConsumeWhitespace` | groovy-test/AnalyzeNormalGroovyCases.java:927-934 | Takes the maximal run and counts its line breaks. |
| `GroovyScanner.GroovyLexer.ConsumeIdentifier` | groovy-test/AnalyzeNormalGroovyCases.java:992-1002 | Takes the maximal word. |
| `GroovyScanner.FindStringEnd` | groovy-test/AnalyzeNormalGroovyCases.java:2386-2404 | The masker's own string scan ends where the lexer's does, or at the end of the text when unclosed. |
| `GroovyScanner.BlankSpan` | groovy-test/AnalyzeNormalGroovyCases.java:2377-2383 | Overwriting in place blanks the span except line breaks and nothing else. |
| `GroovyScanner.ScanNarrative` | groovy-test/AnalyzeNormalGroovyCases.java:2339-2366 | The in-place scan leaves the mask of the whole source and collects its comments and strings in order. |
| `AiInput.BackwardIsForward` | apps/web/server/ai-input-text.ts:17-29 | Counting code points backward from the end and forward from the cut agree, surrogate pairs (section 2 of RFC 2781) included, malformed text too. |
| `AiInput.StepBack` | apps/web/server/ai-input-text.ts:22-29 | A step back from a character boundary undoes one step forward. |
| `AiInput.TailKeeps` | apps/web/server/ai-input-text.ts:21-34 | A shortened text starts at a line start, adds only the rest of the line the cut fell into, keeps at least 25000 code points, and starts neither inside a surrogate pair nor inside a CRLF. |
| `AiInput.ShortenAiInput` | apps/web/server/ai-input-text.ts:15-35 | Texts of up to 50000 code points are returned as they are; longer ones become that suffix; the flag says whether anything is gone. |
| `AiInput.FragmentsHold` | apps/web/server/ai-evidence.ts:241-254 | The fragments put together are the text; each is non-empty, within the bound and short of it by at most one unit unless it is the last; and their code-point counts add up, so no pair is split. |
| `AiInput.FragmentAdvances` | apps/web/server/ai-evidence.ts:243-253 | A fragment makes progress exactly when the bound is at least two or the next character is one unit long. |
| `AiInput.EvidenceTextParts` | apps/web/server/ai-evidence.ts:241-254 | The generator loop terminates for every bound of at least two and yields those fragments. |
| `AiGroupProgress.AttemptActs` | packages/application/src/ai-analysis-worker.ts:596-603 | An attempt makes a call if and only if the group is not done and the next member fits with the current part, or there is a part and it fits alone. |
| `AiGroupProgress.StackCall` | packages/application/src/ai-analysis-worker.ts:596-663 | A call of a stack group reads the current part and passes the largest page of at most 50 next members that can be added one by one. |
| `AiGroupProgress.FullCall` | packages/application/src/ai-analysis-worker.ts:596-663 | A call of a full-log group reads the current part and passes the member with its last part when both fit. |
| `AiGroupProgress.StackPace` | packages/application/src/ai-analysis-worker.ts:536-663 | While every request fits, a stack group is at part n and member 50n after n calls, and done exactly when both are at their ends. |
| `AiGroupProgress.FullPace` | packages/application/src/ai-analysis-worker.ts:536-663 | While every request fits, a full-log group is done after exactly one call for each part, or for a member without parts, and drops nobody. |
| `AiGroups.StepDecreases` | packages/application/src/ai-analysis-worker.ts:652-663 | Every successful call leaves fewer members to count, or as many and fewer parts to read. |
| `AiGroups.RunSound` | packages/application/src/ai-analysis-worker.ts:596-665 | Whatever is estimated for each call, the stored cursors stay within parts and members, the members passed are those before the cursor, the others counted were dropped, and `done` is set exactly when all parts are read and all members counted. |
| `AiGroups.StackGroupCovers` | packages/application/src/ai-analysis-worker.ts:536-665 | Whatever is estimated for each call, a stack group that is done has listed each member and read each part exactly once and in order, and is done as soon as that is so. |
| `AiGroupCoverage.DropsExactly` | packages/application/src/ai-analysis-worker.ts:596-658 | A call counts a member without passing it exactly when it reads the member's last part, that part alone fits, and with the member beside it no longer does. |
| `AiGroupCoverage.FullGroupCovers` | packages/application/src/ai-analysis-worker.ts:536-665 | A finished full-log group has passed all its members, each once and in order, if and only if none of its calls met a last part that fits alone but not beside its member; it falls short by the number of calls that did. |
| `AiGroupCoverage.FullGroupReads` | packages/application/src/ai-analysis-worker.ts:536-665 | It has read each part of each member exactly once and in order if and only if no such call came before the last member. |
| `AiGroupCoverage.FittingMembersPassed` | packages/application/src/ai-analysis-worker.ts:536-665 | While the estimate of a request does not change, a finished full-log group has passed all its members if and only if each member with parts fits beside its own last part. |
| `AiGroupCoverage.FittingMembersRead` | packages/application/src/ai-analysis-worker.ts:596-658 | And it has read every part once and in order if and only if each member but the last does. |
| `AiGroupCoverage.DroppedMember` | packages/application/src/ai-analysis-worker.ts:652-663 | A concrete group of two reported done although the second member's log was never read and no member was passed. |
| `AiGroups.SelectMembers` | packages/application/src/ai-analysis-worker.ts:596-602 | The push-and-pop loop selects the longest run of candidates whose every prefix fits. |
| `JsonDiff.EmptyIffEqual` | scripts/operations/verify_ddt_transfer.py:622-634 | The difference is empty exactly when the values are equal, type by type. |
| `JsonDiff.SortedKeysAre` | scripts/operations/verify_ddt_transfer.py:624 | The keys visited are those of either side, once each, in ascending order. |
| `JsonDiffProperties.DiffResolves` | scripts/operations/verify_ddt_transfer.py:622-634 | Each reported path leads to the reported value on each side, or to nothing where one is missing, and the two differ. |
| `JsonDiffProperties.PointersDistinct` | scripts/operations/verify_ddt_transfer.py:624-630 | No two differences carry the same pointer text. |
| `JsonDiffProperties.DiffReplays` | scripts/operations/verify_ddt_transfer.py:622-634 | Replaying the differences on the left value yields the right value. |
| `JsonDiffOrder.DiffsAreFine` | scripts/operations/verify_ddt_transfer.py:622-634 | A difference inside two objects or two arrays is reported where it is, never for the whole. |
| `JsonDiffOrder.DiffAscends` | scripts/operations/verify_ddt_transfer.py:622-634 | The differences come in the order of their paths, by key and by position, at every depth. |
| `JsonDiffProperties.GeneratorReports` | scripts/operations/verify_ddt_transfer.py:622-634 | The generator with its accumulated pointer yields that difference, each path written as a pointer. |
| `JsonPointers.EscapeRoundTrip` | scripts/operations/verify_ddt_transfer.py:625 | Decoding a reference token (section 4 of RFC 6901) undoes its escaping, for every key. |
| `JsonPointers.PointerInjective` | scripts/operations/verify_ddt_transfer.py:625-630 | Different paths have different pointers (section 3 of RFC 6901). |
| `JsonPointers.DigitsValue` | scripts/operations/verify_ddt_transfer.py:630 | The decimal text of a position determines it. |
| `JsonPointers.DigitsPlain` | scripts/operations/verify_ddt_transfer.py:629-631 | A position is written in decimal digits without leading zeros. |
| `TextEdits.AppliedMeansSpliced` | groovy-test/ApplyGroovyCaseGroups.java:1393-1414 | For edits that pass the check: applying them back to front equals one left-to-right splice for every choice of replacement texts if and only if no two start at the same offset. |
| `TextEdits.AllApart` | groovy-test/ApplyGroovyCaseGroups.java:1396-1403 | The check of neighbours implies that any two edits are disjoint and inside the source. |
| `TextEdits.DistinctSplices` | groovy-test/ApplyGroovyCaseGroups.java:1406-1414 | With distinct starts the result is the simultaneous splice, so all other text is unchanged. |
| `TextSplices.SpliceHolds` | groovy-test/ApplyGroovyCaseGroups.java:1406-1414 | The splice has every replacement in the place of its range and exactly the source's text before, between and behind them. |
| `TextEdits.TiesDiffer` | groovy-test/ApplyGroovyCaseGroups.java:1399-1408 | Wherever two starts are equal, replacement texts exist for which the result is wrong. |
| `TextEdits.TwoInsertions` | groovy-test/ApplyGroovyCaseGroups.java:1393-1414 | Two insertions at one place pass the check, but come out in the opposite order. |
| `TextEdits.BackwardsOfOrdered` | groovy-test/ApplyGroovyCaseGroups.java:1407-1408 | Sorting descending gives the same whether or not the list was sorted ascending before, ties included. |
| `TextEdits.ValidateNonOverlapping` | groovy-test/ApplyGroovyCaseGroups.java:1393-1404 | Rejects exactly when, in ascending order, some edit starts before its predecessor ends. |
| `TextEdits.ApplyEdits` | groovy-test/ApplyGroovyCaseGroups.java:1406-1414 | The in-place replacement loop applies the edits in stable descending order. |
| `LogFrameCache.FrameCache.CacheAndPublish` | apps/web/server/log-stream-relay.ts:12-33 | One run: a frame of at most 262144 bytes extends its key's list to the longest suffix that fits 262144 bytes and 32 frames, with its counter and a new expiry; lists whose time is over are gone; beyond 128 active keys one with the lowest score is evicted; every other list stays as it was; and the frame is published even when too large. Over all runs since the empty cache the lists are those of `RunKept`. |
| `LogFrameCache.RunKept` | apps/web/server/log-stream-relay.ts:12-33 | After any sequence of runs the lists are exactly those of the keys given a fitting frame since they last expired or were evicted, and each is the longest suffix that fits of the frames given to its key since then, computed from the runs alone. |
| `LogFrameCache.FrameCache.Store` | apps/web/server/log-stream-relay.ts:15-29 | The list, its counter, its expiry and the active set change together. |
| `LogFrameCache.FrameCache.Push` | apps/web/server/log-stream-relay.ts:15-21 | The loop pops from the left exactly while the list is too large. |
| `LogFrameCache.FrameCache.Evict` | apps/web/server/log-stream-relay.ts:25-28 | Lists are dropped lowest score first until 128 are active. |
| `LogFrameCache.FrameCache.Purge` | apps/web/server/log-stream-relay.ts:22-29 | What has outlived its time is gone. |
| `LogFrameCache.PushLongest` | apps/web/server/log-stream-relay.ts:17-21 | The longest fitting suffix of one more frame comes from the longest fitting suffix before; nothing popped earlier could fit again. |
| `LogFrameCache.NoneLonger` | apps/web/server/log-stream-relay.ts:17-21 | No other suffix that fits is longer. |
| `LogFrameCache.SoundSize` | apps/web/server/log-stream-relay.ts:24-28 | Every live list is in the active set, so bounding that set bounds the lists. |
| `LogRedaction.StreamIsRedacted` | packages/application/src/control-executions.ts:693-723 | For every stream the result chunks, in sequence order, put together are the redaction of the input's chunks put together. |
| `LogRedaction.ChunkBecomes` | packages/application/src/control-executions.ts:706-716 | The i-th chunk of a stream keeps its number and time and gets the stretch of the redacted text that its own text had, as far as the text reaches; the last one gets all that is left. |
| `LogRedaction.ResultOrdered` | packages/application/src/control-executions.ts:718-722 | The whole result is ordered by stream and, within a stream, by sequence number. |
| `LogRedaction.StreamInOrder` | packages/application/src/control-executions.ts:703-704 | A stream is read in sequence order, equal numbers as they came. |
| `LogRedaction.KeysKept` | packages/application/src/control-executions.ts:714-722 | Every stream and sequence number occurs as often as before. |
| `LogRedaction.StreamUnchanged` | packages/application/src/control-executions.ts:706-716 | A stream that redaction leaves alone comes back unchanged. |
| `LogRedaction.ResultStream` | packages/application/src/control-executions.ts:703-722 | The final sort keeps each stream's chunks in the order they were dealt out. |
| `LogRedaction.GroupByStream` | packages/application/src/control-executions.ts:697-702 | Grouping keeps each stream's chunks in arrival order and the streams in order of first use. |
| `LogRedaction.DealOut` | packages/application/src/control-executions.ts:706-716 | The redacted text is cut at the old lengths, the last chunk taking the rest. |
| `LogRedaction.RedactLogChunks` | packages/application/src/control-executions.ts:693-723 | The loops compute that result. |
| `CoalescedOperations.ServedExactly` | packages/application/src/coalesced-operation.ts:14-27 | In a run that ends with a result, a request is served by a pass that starts after it if and only if it was made before the loop's last check. |
| `CoalescedOperations.LateRequest` | packages/application/src/coalesced-operation.ts:14-26 | A request made just after the only pass resolved gets the result of that pass; none starts after it. |
| `CoalescedOperations.SettlesAfterRequests` | packages/application/src/coalesced-operation.ts:21-26 | The pass whose result settles began after every request made until then. |
| `CoalescedOperations.OneMorePass` | packages/application/src/coalesced-operation.ts:21-25 | Requests during one pass, however many, cost exactly one further pass; none, and the loop ends. |
| `CoalescedOperations.SettledBecause` | packages/application/src/coalesced-operation.ts:18-27 | The result is a pass's value if and only if that pass succeeded with nothing requested since it began, and a rejection if and only if a pass failed. |
| `CoalescedOperations.FailureRejects` | packages/application/src/coalesced-operation.ts:18-27 | A failing pass rejects the result whatever was requested, and no further pass starts. |
| `CoalescedOperations.RunValid` | packages/application/src/coalesced-operation.ts:6-25 | The request counter is ahead of the running pass by exactly the requests made since it began. |
| `CoalescedOperations.SettledStays` | packages/application/src/coalesced-operation.ts:26 | After the result is settled nothing changes it and no pass starts. |
| `CoalescedOperations.CoalescedOperation.RequestAnotherPass` | packages/application/src/coalesced-operation.ts:14-17 | The object follows the state machine on a request. |
| `CoalescedOperations.CoalescedOperation.PassResolved` | packages/application/src/coalesced-operation.ts:22-26 | It follows it when a pass resolves, and tells whether another starts. |
| `CoalescedOperations.CoalescedOperation.PassRejected` | packages/application/src/coalesced-operation.ts:23 | A failing pass rejects the shared result. |
| `DdtImport.PreviewFiles` | packages/application/src/import-ddt.ts:599-662 | Over one upload each file is accepted exactly when it can be imported beside the accepted ones before it, accepted files have pairwise disjoint CaseIDs, the seen set is their union, and for each inserted + updated + unchanged is its row count. |
| `DdtImport.PreviewParsedFile` | packages/application/src/import-ddt.ts:599-662 | A file is accepted exactly when its rows are valid and its CaseIDs new and distinct; a rejected one leaves the seen set alone; the counts are those of the stored rows it meets. |
| `DdtImport.PreviewPage` | packages/application/src/import-ddt.ts:615-637 | A window of rows extends the counts by exactly its own rows. |
| `DdtImport.ImportableMeans` | packages/application/src/import-ddt.ts:609-626 | A file can be imported exactly when every row is valid and no CaseID came before, in another accepted file or an earlier row. |
| `DdtImport.CountsMean` | packages/application/src/import-ddt.ts:627-637 | The known and the unchanged rows are counted by their CaseIDs. |
| `DdtImport.CountsEveryFileOnce` | packages/application/src/import-ddt.ts:416-500 | Succeeded and failed files make up all files that are not pending or cancelled if and only if every success could be written; otherwise the surplus is the number that could not; and then the tally is the one a resumed run would read from the rows. |
| `DdtImport.TallyMeans` | packages/application/src/import-ddt.ts:416-500 | The counters are the sums over the files recorded as succeeded plus the rows of the unrecorded successes, also when resumed. |
| `DdtImport.RowsAfter` | packages/application/src/import-ddt.ts:426-500 | A candidate imported and recorded has succeeded with its counts, every other candidate has failed with its old ones, and any other file keeps its row. |
| `DdtImport.TallySums` | packages/application/src/import-ddt.ts:416-480 | Each counter is the sum of its own count over the files that had succeeded before or are imported now. |
| `DdtImport.EveryFileCounted` | packages/application/src/import-ddt.ts:416-425 | At the start every file is succeeded, failed, still to do or set aside, and exactly one of these. |
| `DdtImport.DoubleCount` | packages/application/src/import-ddt.ts:473-486 | One file whose success could not be written is counted as succeeded and as failed. |
| `DdtImport.ExecuteFiles` | packages/application/src/import-ddt.ts:426-512 | The loop treats every candidate once and in order; it ends early only right behind the first conflict that stops it, and rows and tally are then those of the files up to it. |
| `CaseReview.CaseLevelReviewer.ReviewIncludedCases` | groovy-test/AnalyzeNormalGroovyCases.java:1501-1567 | Through any sequence of keys no case is lost, doubled or changed in the columns the sheets share, and the second sheet's open rows stay; the stage completes only with every included row classified. |
| `CaseReview.CaseLevelReviewer.PressIncluded` | groovy-test/AnalyzeNormalGroovyCases.java:1531-1563 | After any key all rows before the next current one are classified; going back shows the row before, and any other key the first unclassified one behind. |
| `CaseReview.CaseLevelReviewer.ReviewNarrativeOnlyExclusions` | groovy-test/AnalyzeNormalGroovyCases.java:1569-1639 | Every decision leaves one narrative-only exclusion fewer, included rows stay classified, and the stage completes exactly when none is left. |
| `CaseReview.CaseLevelReviewer.ReviewStages` | groovy-test/AnalyzeNormalGroovyCases.java:1424-1476 | Both stages are the keys pressed one after the other; they keep the cases, and completion means all classified and none open. |
| `CaseReview.CaseLevelReviewer.Decide` | groovy-test/AnalyzeNormalGroovyCases.java:1617-1636 | One decision reduces the open rows by one. |
| `CaseReview.DecisionKeeps` | groovy-test/AnalyzeNormalGroovyCases.java:1818-1885 | Confirming or moving back conserves the cases of both sheets together, with every column the sheets share. |
| `CaseReview.MovedOutKeeps` | groovy-test/AnalyzeNormalGroovyCases.java:1887-1941 | Excluding an included case conserves the cases with those columns and opens no row for the second stage. |
| `CaseReview.MovedOutGoes` | groovy-test/AnalyzeNormalGroovyCases.java:1887-1941 | An excluded case goes to the end of the other sheet with level L2 and a manual reason; both sheets keep their order. |
| `CaseReview.MovedInGoes` | groovy-test/AnalyzeNormalGroovyCases.java:1846-1885 | A case taken back goes to the end of the included sheet with the level given; both sheets keep their order. |
| `CaseReview.OneRowChanges` | groovy-test/AnalyzeNormalGroovyCases.java:1549-1563 | Giving a level and confirming an exclusion change that row only; a confirmed one has level L2 and a manual line behind its evidence. |

## Left out

Within the modelled parts:

- VersionCopyService.Execute: permission checks and cache invalidation are not modelled; heartbeat renewal is folded into the event that a lease expires at any time. The row of the target version, which publication activates and the removal of a new target deletes, is not modelled.
- VersionCopyControl.RetryQueues: there is one job; that a retry is refused while another copy is active is not modelled.
- VersionCopyService.Begin: what the capture reads from the source is an arbitrary well-formed snapshot; archive encoding, encryption and id renaming are one copy function on rows. The column `sequence_number` of `run_batches`, which the database draws on insertion, is outside that function and outside the claim.
- VersionCopyPhases.CopyTable: the page's byte limit is any choice of 1 to 32 rows that are left.
- VersionCopyService.DeleteObjects: objects and log chunks that a worker without its lease writes after they were removed are not claimed to be gone; only the target tables are.
- VersionCopyPhases.CopyStream: the source logs do not change during the copy, and every attempt's execution is in the snapshot; the store in which an attempt's logs are kept is a function of the attempt.
- LogIoLanes.LogIoLane.HandleTerminated: the settlement handlers of `terminate()` are one step, and error reporting is not modelled. A rejected `terminate()` is taken, as the source takes it, to have ended the worker; that at most one worker process is alive rests on this.
- WorkerLanes.WorkerLane.FailPending: the wording of errors, priority reports and abort listeners are not modelled.
- CaseDirectoryBuilder.BuildCaseDirectorySnapshot: schema parsing of parts is not modelled; search matching and outcome classification are arbitrary predicates.
- DirectoryReading.WriteThenRead: the reader is the chain and child traversal; the HTTP layer that fetches one branch at a time and the browser's collector are not modelled.
- AiGroups.StepDecreases: calls that fail (missing evidence, token budget, deferral) change no cursor; they are the attempts that leave the group as it is.
- AiInput.EvidenceTextParts: bounds below two are covered by `FragmentAdvances` only; the source uses at least 512.
- JsonDiff.EmptyIffEqual: numbers are reals, so NaN and the infinities are not covered.
- LogFrameCache.FrameCache.CacheAndPublish: the list and its counter are one entry that is written, expired and deleted together; the three key families do not collide; the server clock does not run backwards.
- LogRedaction.RedactLogChunks: which text counts as a secret is an arbitrary function on strings.
- DdtImport.ExecuteFiles: row validation and the repository's result are inputs; cancelling ends the run without a tally.
- CaseReview.CaseLevelReviewer.ReviewIncludedCases: untitled rows, column lookup, styles and saving the workbook are not modelled.

Parts of the repository outside this model, being wiring, input and output, or lists of words and prompts:

- Choice of a lane by attempt and method in both pools, process start-up, health and shutdown wiring.
- Extraction of stack traces from logs, ANSI cleaning, prompt texts and model replies.
- Streaming XML reading, case indexing, retries and report writing in the transfer script.
- Planning of annotation edits and keyword matching of Groovy cases.
- Permission, archive, debug-case, batch-comparison and build services, and all configuration and networking code.
