# Verified protocols of the file and model services

These Dafny modules model the transactional protocols of the self-hosted API and the text processing behind them, and prove
what they promise over every interleaving, crash and retry.

* **Spending ledger** (`Calendar`, `ModelPolicy`, `ModelLedger`, `ModelSafety`, `ModelGrounds`,
  `ModelExecution`). A call reserves its worst case under a lock, is sent at most once, and settles to an exact charge or
  stays unknown with its reservation held; every answer has its ground. The ledger is a transition system over committed
  transactions; the service is a class whose methods are proved to be its steps.
* **Files, versions and indexes** (`FileContract`, `FileChunker`, `FileChunkCoverage`, `FileChunkGreedy`, `FileChunkLoop`,
  `FileLifecycle`, `FileLifecycleSafety`, `FileCurrency`, `FileHistory`, `FileIndexing`, `FileManagement`, `FileSource`).
  Chunks cover their document and are the only ones that do so within the bounds; a derived index always equals a fresh
  rebuild; stale vectors never come back; cleanup removes nothing live. An indexing run takes the other transactions as a
  parameter, so its contract holds for every interleaving.
* **Run queue** (`RunQueue`, `RunQueueSafety`, `RunOutcomes`, `RunEndings`, `PendingInputs`, `RetryInputs`,
  `RunInterference`, `RunCleanup`, `FileRuns`). Idempotent admission, retry families, claims, stops, restarts, shutdown, and
  the store of pending inputs. Admissions and cleanups take the transactions that commit between their steps as a parameter.
* **Parser supervisor** (`ParserSupervisor`, `ParserAnswers`) and **failure throttle** (`Throttle`), as event-driven machines.
* **Text** (`Unicode`, `MarkdownSections`, `MarkdownMeaning`, `MarkdownPaths`, `Tokens`, `TokenWindows`) and **connectors**
  (`NotionTraversal`, `NotionCoverage`, `NotionPages`, `NotionPlaces`, `NotionText`, `NotionOrder`, `LocalRepoSync`).
* `Results` and `Sequences` hold shared shapes and sums.

One database transaction is one atomic step, digests are injective, and one clock that never goes back stands for the
database's and the process's. That at most one run is running is a unique index of the schema
(packages/database/prisma/migrations/20261031000000_file_runs/migration.sql:45), which the claim respects. In each protocol
the first file defines the transition system, the next its invariant, and the last the class that the source's service
corresponds to. Parameters such as `fallible`, `aborted`, `looks` and `link` stand for what may fail in between.

Results that show where the code does less than its purpose suggests, each with its exact condition: chunk bounds of four
bytes drop text (`FileChunkCoverage.FiveBytesAreNeeded`); heading paths are cut by position, so documents that skip levels
nest siblings (`MarkdownPaths.PathsNameEnclosingHeadings`); external ids join repository and path with a colon, so a colon in
a repository name can hide a file from a sync (`LocalRepoSync.SyncConverges`); a document whose embedding failed is skipped by
the next sync (`LocalRepoSync.SkippedNextTime`).

`dafny verify dfyconfig.toml` checks the project.

## Model

| member | source | states |
|---|---|---|
| ModelPolicy.ReservationIsWorstCase | apps/api/src/model-integration/model-policy.ts:74-151 | For every model and limits, usage within the limits costs no more than the reservation, and some usage reaches it: the tests of cost and of safe integers never decide, a usage is accepted exactly when no count is negative, cached and written input is within the input, reasoning within the output, and both within their limits |
| ModelPolicy.BudgetUsdDefined | apps/api/src/model-integration/model-policy.ts:48-54 | Printing a limit succeeds exactly for positive whole-cent amounts below 100000 dollars |
| ModelPolicy.BudgetRoundTrip | apps/api/src/model-integration/model-policy.ts:31-54 | A limit that was parsed prints, and the printed text parses to the same amount |
| ModelPolicy.MissingDigitsAreZeros | apps/api/src/model-integration/model-policy.ts:31-44 | Cents that are left out of a limit read as zeros: 1.5 is 1.50, and 1 is 1.00 |
| ModelPolicy.TokenPrices | apps/api/src/model-integration/model-policy.ts:75-110 | What one more token costs, for each model: fresh input, cached input, input written to either cache, output; reasoning tokens and their share of the output change nothing |
| ModelPolicy.LowerIsCanonical | apps/api/src/model-integration/model-policy.ts:157-164 | The lower-case form of a valid request id is valid and is its own lower-case form |
| Calendar.MonthCharacterised | apps/api/src/model-integration/model-execution.service.ts:170-172 | A time belongs to month k exactly when it lies between the first milliseconds of months k and k + 1 of the UTC calendar |
| Calendar.MonthsFollowTime | apps/api/src/model-integration/model-execution.service.ts:170-172 | A later time never belongs to an earlier month, nor has an earlier month start |
| ModelLedger.ApplyKeepsValid | apps/api/src/model-integration/model-execution.service.ts:452-633 | Every event of the call ledger, admission, expiry, sending, failure, settlement, crash or change of settings, keeps its invariant |
| ModelLedger.ReachableValid | apps/api/src/model-integration/model-execution.service.ts:452-633 | The ledger invariant holds after every sequence of events, crashes included |
| ModelSafety.BudgetSafety | apps/api/src/model-integration/model-execution.service.ts:149-172 | Over every interleaving, the calls created in any UTC month never count for more, by charge where known and by reservation otherwise, than the largest limit in force at an admission within that month |
| ModelSafety.LargestLimitBounds | apps/api/src/model-integration/model-execution.service.ts:149-172 | In particular no month counts for more than the largest limit ever configured |
| ModelSafety.AdmissionWithinLimit | apps/api/src/model-integration/model-execution.service.ts:509-535 | Right after an admission the exposure, and the share of the month it happens in, are within the limit in force |
| ModelSafety.ExposureGrowsOnlyAtAdmission | apps/api/src/model-integration/model-execution.service.ts:149-169 | No event but an admission raises the exposure seen at any time |
| ModelSafety.RolloverReleasesCharges | apps/api/src/model-integration/model-execution.service.ts:149-172 | When a month ends the exposure can only fall: settled charges leave it, reservations of unsettled calls stay |
| ModelSafety.AtMostOnceDispatch | apps/api/src/model-integration/model-execution.service.ts:432-448 | Over all repeats, duplicates and crashes the provider is called at most once for each spelling-independent request id, and never for a call marked as not sent |
| ModelSafety.IdsAreCanonical | apps/api/src/model-integration/model-execution.service.ts:347-352 | Every stored call has the lower-case spelling of its request id |
| ModelSafety.RepeatsAnswerTheFirstCall | apps/api/src/model-integration/model-execution.service.ts:365-380 | Over whole runs: once an id was admitted, every later valid, authorized admission of any spelling of it dispatches nothing and is answered with the first call's row exactly when owner, purpose, check, input and file names are the first ones, otherwise with a conflict |
| ModelGrounds.FirstGroundDecides | apps/api/src/model-integration/model-execution.service.ts:347-535 | In every reachable state a call with a new id is refused on the first of the grounds against it, in the source's order, and admitted exactly when there is none; its row then reserves the dearest the call can get and expires in 90 seconds |
| ModelGrounds.ReservesTheWorst | apps/api/src/model-integration/model-policy.ts:142-151 | The reservation in prices per token: embeddings at most 8192 tokens, answers all input at the longer cache's rate and all output |
| ModelSafety.SettledForever | apps/api/src/model-integration/model-execution.service.ts:601-631 | A settled call never changes again: neither status nor charge, whatever happens later |
| ModelSafety.AbandonedStaysHeld | apps/api/src/model-integration/model-execution.service.ts:611-633 | A call the process no longer owns is never sent or charged afterwards; its reservation stays held |
| ModelSafety.AnswerLimits | apps/api/src/model-integration/model-execution.service.ts:483-504 | Every closed 60000 ms interval holds at most ten created answer calls, and at most one answer call is being dispatched |
| ModelExecution.ModelExecutionService.ExpireOverdue | apps/api/src/model-integration/model-execution.service.ts:465-476 | The bulk update turns exactly the overdue dispatching rows into unknown ones |
| ModelExecution.ModelExecutionService.MeasureExposure | apps/api/src/model-integration/model-execution.service.ts:149-169 | The two aggregates add up to the exposure the safety results speak of |
| ModelExecution.ModelExecutionService.CheckLimits | apps/api/src/model-integration/model-execution.service.ts:382-426 | The preflight and row-counting checks refuse exactly when the decision of the ledger does, with the same reason |
| ModelExecution.ModelExecutionService.Admit | apps/api/src/model-integration/model-execution.service.ts:452-536 | The admission transaction is an admission event of the ledger; a refusal leaves every row as it was |
| ModelExecution.ModelExecutionService.MarkNotSent | apps/api/src/model-integration/model-execution.service.ts:553-572 | Giving up before sending is the ledger's not-sent event: charged zero, and never in the log of calls |
| ModelExecution.ModelExecutionService.CallProvider | apps/api/src/model-integration/model-execution.service.ts:573-581 | The one provider call appends to the log an id that was not in it |
| ModelExecution.ModelExecutionService.RecordFailure | apps/api/src/model-integration/model-execution.service.ts:589-610 | A failed call becomes unknown without a charge |
| ModelExecution.ModelExecutionService.RecordResult | apps/api/src/model-integration/model-execution.service.ts:581-633 | An accepted result settles the call at its exact cost; usage out of bounds is treated as a failed call |
| FileContract.WellFormedMeans | apps/api/src/files/file-contract.ts:70-131 | Well formed means one to 300000 code points, as many as the segments hold, and segments with ink, at most six headings and a place their format has; the bound on the number of segments never decides |
| FileContract.AssertExtraction | apps/api/src/files/file-contract.ts:70-131 | The running check accepts exactly the extractions whose segments, locations and code point count are well formed |
| FileChunker.ChunksAreValid | apps/api/src/files/file-chunker.ts:25-94 | Every chunk is within the byte bound, has one to 128 parts, is not blank, and is the line-by-line join of its parts' slices with whitespace runs collapsed, with at most one final newline |
| FileChunkCoverage.DocumentIsCovered | apps/api/src/files/file-chunker.ts:25-94 | From five bytes up the parts are in order and gapless from each segment's first to its last inked code point, and the slices put back together are the normalised document |
| FileChunkCoverage.InkIsPreserved | apps/api/src/files/file-chunker.ts:25-94 | For every bound the chunks together hold every code point other than whitespace, in order and once |
| FileChunkCoverage.FourBytesDropASpace | apps/api/src/files/file-chunker.ts:36-47 | At four bytes a concrete document loses a lone-space chunk and with it a part |
| FileChunkCoverage.FiveBytesAreNeeded | apps/api/src/files/file-chunker.ts:25-94 | Among the accepted bounds exactly those of at least five bytes cover every document completely |
| FileChunkGreedy.ChunksAreGreedy | apps/api/src/files/file-chunker.ts:25-94 | A chunk ends only where the next character does not fit, or where a new segment finds 128 parts or no room for the newline or for its first character |
| FileChunkGreedy.SolutionIsUnique | apps/api/src/files/file-chunker.ts:25-94 | Valid chunks that cover a document and end only there are determined by the document and the bound |
| FileChunkLoop.FileChunks | apps/api/src/files/file-chunker.ts:25-94 | The loop refuses exactly the bad bounds and malformed extractions; from five bytes up it returns the one list of valid chunks that covers the document and in which every chunk is as long as the bounds allow |
| FileChunkLoop.PackText | apps/api/src/files/file-chunker.ts:57-90 | The scan over one segment packs exactly its units, an interior whitespace run counting as one space |
| FileLifecycleSafety.ApplyKeepsValid | apps/api/src/files/file-management.service.ts:321-453 | Every event of the file store, uploads, scope changes, deletions, indexing transactions, cleanup and crashes, keeps its invariant |
| FileLifecycleSafety.ReachableValid | apps/api/src/files/file-management.service.ts:321-453 | After every sequence of events from the empty store: each stored index is the rebuild of the text its digest names, and the bytes of every version not due for deletion are stored |
| FileCurrency.PublishStoresRebuild | apps/api/src/files/file-index.service.ts:286-320 | A full publish stores exactly what chunking and embedding the read text gives |
| FileCurrency.RebindStoresRebuild | apps/api/src/files/file-index.service.ts:179-249 | Copying the vectors of another version with the same bytes and text stores exactly what a full rebuild would |
| FileCurrency.PriorsAreAlike | apps/api/src/files/file-index.service.ts:179-206 | It does not matter which of several fitting earlier indexes the query returns: each is complete, and copying any of them has the same effect |
| FileCurrency.UnchangedIsRebuild | apps/api/src/files/file-index.service.ts:142-168 | The index that lets a run finish without writing is already the full rebuild |
| FileCurrency.FinishedRunIsCurrent | apps/api/src/files/file-index.service.ts:143-320 | Whichever way a run finishes, its version then has exactly one index, the full rebuild, and it is current |
| FileCurrency.CurrentIndexIsPresent | apps/api/src/files/file-index-state.ts:9-16 | A current index holds the rebuild of its version's present text, and each vector was embedded for this original under its present scope revision, read at the admission of that call |
| FileCurrency.NoRevival | apps/api/src/files/file-index-state.ts:9-16 | An index made stale by a scope change, a newer version or a deletion is not current in any later state, even if it is never cleaned up |
| FileCurrency.ChangesBuryIndexes | apps/api/src/files/file-management.service.ts:321-405 | Changing the scope, uploading a newer version or deleting an original buries each of its indexes at once |
| FileCurrency.OvertakenRunIsHarmless | apps/api/src/files/file-index.service.ts:120-136 | A run whose original has changed scope can send no text and store nothing, now or after any other event |
| FileCurrency.StaleIsNotCurrent | apps/api/src/files/file-management.service.ts:412-428 | The deletion predicate for indexes never matches a current index |
| FileHistory.NumbersHaveNoGaps | apps/api/src/files/file-foundation.ts:123-175 | The versions of every original are numbered from 1 without a gap or a repetition, whatever is cleaned up |
| FileHistory.DropsOldAndDead | apps/api/src/files/file-management.service.ts:408-428 | In every reachable state an index is due for deletion exactly when its scope is gone, a newer version is a day old, or an extraction that does not support it is |
| FileHistory.LeftoversAreYoung | apps/api/src/files/file-management.service.ts:408-428 | Nothing else is left over: an index of the present configuration that is kept is current, or was overtaken less than a day ago |
| FileHistory.BytesAreKeptADay | apps/api/src/files/file-management.service.ts:429-444 | Raw bytes go exactly with their original or a day after a newer version came, and are stored until then |
| FileCurrency.LatestBytesAreStored | apps/api/src/files/file-management.service.ts:429-452 | The newest version of an undeleted original has its bytes in the store |
| FileCurrency.DeletionClearsText | apps/api/src/files/file-management.service.ts:377-383 | Once an original is deleted no version of it holds text and no index of it is current |
| FileIndexing.FinishedIsSearchable | apps/api/src/files/file-index.service.ts:143-320 | After any finishing transaction a search may use an index of the version that equals the rebuild of its present text under its present revision |
| FileIndexing.FileIndexService.Pause | apps/api/src/files/file-index.service.ts:39-51 | Between two transactions of a run any others may commit; the run's own record and the store invariant survive |
| FileIndexing.FileIndexService.Snapshot | apps/api/src/files/file-index.service.ts:52-101 | The first transaction succeeds exactly for a ready source and records what it read; excluded and superseded sources are refused with their own errors, and a refusal changes nothing |
| FileIndexing.FileIndexService.FinishIfUnchanged | apps/api/src/files/file-index.service.ts:142-168 | The run ends here exactly when an index of the version fits what was read, and then with a searchable index |
| FileIndexing.FileIndexService.Check | apps/api/src/files/file-index.service.ts:123-135 | A later transaction goes on exactly while the run is not cancelled and its source is still eligible, in scope and unchanged; a cancelled run is refused as cancelled, any other as superseded |
| FileIndexing.FileIndexService.WriteIndex | apps/api/src/files/file-index.service.ts:229-245 | Inserting rows 32 at a time replaces the version's index by one holding all rows in order |
| FileIndexing.FileIndexService.RebindPrior | apps/api/src/files/file-index.service.ts:179-250 | Vectors are reused exactly when another version of the same original with the same bytes and format has an index of the same text, bound and revision, and then the run ends with a searchable index |
| FileIndexing.FileIndexService.EmbedAll | apps/api/src/files/file-index.service.ts:250-285 | One call per chunk, each admitted only while the source is still eligible; on success there is a vector for every chunk |
| FileIndexing.FileIndexService.PublishIndex | apps/api/src/files/file-index.service.ts:286-320 | The last transaction replaces the version's index by a searchable one |
| FileIndexing.FileIndexService.Execute | apps/api/src/files/file-index.service.ts:102-321 | For every interleaving with other transactions: success means that the version has a searchable index equal to the rebuild of its present text; failure means that this run stored no index; undisturbed, a run over a ready, intact source succeeds |
| FileManagement.FileManagementService.DropStaleIndexes | apps/api/src/files/file-management.service.ts:412-428 | The first loop ends and deletes only indexes that match the deletion predicate, however far it gets; a completed one leaves none that do |
| FileManagement.FileManagementService.DropStaleRaw | apps/api/src/files/file-management.service.ts:429-444 | The second loop ends and touches only versions that match its predicate, also when it breaks off between a blob and its row; a completed one leaves none that do |
| FileManagement.FileManagementService.SweepKeys | apps/api/src/files/file-management.service.ts:445-452 | The third loop keeps every stored key whose version belongs to an undeleted original, and a completed one keeps no other |
| FileManagement.FileManagementService.Reconcile | apps/api/src/files/file-management.service.ts:408-453 | At whatever write a pass breaks off, it has deleted no current index and no bytes of a latest version of an undeleted original; a completed one leaves nothing that matches a deletion predicate |
| FileManagement.FileManagementService.Cleanup | apps/api/src/files/file-management.service.ts:351-357 | A cleanup that breaks off at any of its writes keeps everything current; a complete one leaves the store tidy |
| FileManagement.FileManagementService.SetScope | apps/api/src/files/file-management.service.ts:321-360 | A change gives the original a new revision, after which none of its old indexes is current wherever the cleanup breaks off, and none is left once it completes; current indexes of other originals stay |
| FileManagement.FileManagementService.Remove | apps/api/src/files/file-management.service.ts:361-405 | Text goes in the deleting transaction; wherever the cleanup breaks off nothing of the original is current, once it completes no index and no bytes of it are left, and other originals keep their current indexes |
| FileManagement.FileManagementService.Create | apps/api/src/files/file-foundation.ts:39-209 | An upload is registered exactly when it is acceptable, its original is there and the expected version is still the newest; the version has the next number of its original and its extraction, and a failure leaves no row |
| FileManagement.FileManagementService.Screen | apps/api/src/files/file-foundation.ts:69-100 | Uploads of unknown format or bad size, without an available parser, with malformed text or with text the transfer check refuses are turned away before anything is written, and no others |
| FileManagement.FileManagementService.PersistUpload | apps/api/src/files/file-management.service.ts:283-320 | Between its two cleanups, either of which may break off at any write, an upload ends as the newest version of an undeleted original with its bytes stored, or without a row and, once the cleanup completes, without bytes; without failures it succeeds exactly when it is acceptable and its target stands |
| FileSource.ReferenceAgreesWithCurrency | apps/api/src/files/file-source.ts:61-115 | For a given version and revision the reference is available exactly when the shared currency predicate holds and the revisions agree |
| FileSource.ReferenceTellsWhy | apps/api/src/files/file-source.ts:61-115 | Each state of a reference has its own condition: deleted, replaced, excluded or under another revision, without bytes or index, and available |
| FileSource.AvailableIndexIsCurrent | apps/api/src/files/file-run.service.ts:249-283 | For an index of the present text, the run view's reference is available exactly when the index is current |
| FileSource.CountMeansEachIsCurrent | apps/api/src/files/file-source.ts:15-53 | The single count equals the number of sources exactly when each of the distinct sources is individually current |
| FileSource.StatesTellTheTruth | apps/api/src/files/file-index-state.ts:17-46 | The state shown for a version is determined, searchable exactly when the version has a current index, with the chunk count of its present text |
| RunQueueSafety.ApplyKeepsValid | apps/api/src/files/file-run.service.ts:146-207 | Every event of the run queue, admission, claim, completion, stop, shutdown, crash, restart and cleanup, keeps its invariant |
| RunQueueSafety.ReachableValid | apps/api/src/files/file-run.service.ts:146-207 | The queue invariant holds after every sequence of events |
| RunOutcomes.QueueGuarantees | apps/api/src/files/file-run.service.ts:416-476 | At most one running run, at most one active run per target key and at most 20 in all; a completion time exactly in final states; an interrupted run never has a result |
| RunOutcomes.FamilySucceedsOnce | apps/api/src/files/file-run.service.ts:376-405 | An upload family has at most one succeeded run, and none while one of its runs is active |
| RunOutcomes.FinishedForever | apps/api/src/files/file-run.service.ts:936-955 | A finished run keeps status, error, times and result for ever; only its pending input may be dropped |
| RunOutcomes.RequestBoundForever | apps/api/src/files/file-run.service.ts:345-364 | A request id stays bound to one run and one payload |
| RunOutcomes.RepeatsAnswerTheFirstRun | apps/api/src/files/file-run.service.ts:365-375 | Over whole runs: once an admission has bound a request id, every later repeat changes nothing and is answered with the first run while that run is retained, or with an error for another payload |
| RunOutcomes.JoinsOnlyWhatIsAsked | apps/api/src/files/file-run.service.ts:416-440 | A request shares the active run of its key exactly when that run has its operation, target, base, revision, retry parent, file name and content hash, and is told the target is busy exactly when one of them differs |
| RunOutcomes.JoinedRunDoesWhatIsAsked | apps/api/src/files/file-run.service.ts:416-440 | In every later state the joined run still does what the request asked for |
| RunOutcomes.NewRunIsAsked | apps/api/src/files/file-run.service.ts:441-476 | A created run is queued at the present time, holds exactly what was asked, and works on the newest version of an undeleted file |
| RunOutcomes.RetryTakesUp | apps/api/src/files/file-run.service.ts:682-758 | A retry takes up a failed or interrupted run: a version it had stored is processed again without new bytes, otherwise the same operation is repeated |
| RunOutcomes.AnswersHaveGrounds | apps/api/src/files/file-run.service.ts:365-440 | Recovery names a succeeded run of the family that is kept, and not found, changed and queue full have their own conditions |
| RunOutcomes.RetryAfterSuccess | apps/api/src/files/file-run.service.ts:376-405 | Retrying an upload whose family has succeeded never starts another run |
| RunEndings.FirstComeFirstServed | apps/api/src/files/file-run.service.ts:839-856 | Over whole runs: no run is running or has succeeded while one that was queued before it, by creation time and then id, is still waiting |
| RunEndings.StartsInOrder | apps/api/src/files/file-run.service.ts:839-856 | A run starts only as the oldest queued one, in an open process, while no run is running |
| RunEndings.EndsWithItsReason | apps/api/src/files/file-run.service.ts:906-995 | A run ends at the present time with the status and error of what ended it; only a completion stores a result |
| RunEndings.OneRunMoves | apps/api/src/files/file-run.service.ts:782-955 | A claim starts its run at the present time, a stop, failure or completion ends its run with its reason, and no other row changes |
| RunEndings.SucceedsAsAdmitted | apps/api/src/files/file-run.service.ts:906-955 | A run succeeds only from running, and then its file is there, is the one it was admitted for and has the revision it was admitted under |
| RunEndings.NothingIsLeftWaiting | apps/api/src/files/file-run.service.ts:146-207 | A restart leaves no active run and a completed shutdown no queued one; finished runs stay as they are |
| PendingInputs.DiscardableForever | apps/api/src/files/file-run.service.ts:1161-1188 | Once an input may be discarded it always may, judged from the row or from any older copy of it |
| PendingInputs.ApplyKeepsStocked | apps/api/src/files/file-run.service.ts:477-563 | Every event keeps the bytes of every run that still needs them |
| PendingInputs.NeededInputsExist | apps/api/src/files/file-run.service.ts:533-562 | In every reachable state a run with an input key that meets no discard condition has its bytes in the pending store |
| RetryInputs.DiscardsWhatIsClosed | apps/api/src/files/file-run.service.ts:1160-1188 | An input is given up exactly when its run has stored a version, holds sensitive content, works on a removed file, finished 90 days ago, or belongs to a family that has succeeded |
| RetryInputs.OpenUploadsHaveBytes | apps/api/src/files/file-run.service.ts:1146-1206 | In every reachable state an upload that meets none of these conditions has its key and its bytes, so that it can be processed or retried |
| RetryInputs.RetriesFindTheirBytes | apps/api/src/files/file-run.service.ts:682-748 | A retry of a failed or interrupted upload is never refused for missing bytes unless it is not found, is answered with a recovered run, holds sensitive content or has stored a version |
| FileRuns.FileRunService.Acknowledge | apps/api/src/files/file-run.service.ts:477-563 | With other transactions in between and a connection that may be lost before or after the commit: bytes are written before the reserving transaction, a run it creates keeps them, and otherwise they go unless the last look at the rows fails |
| FileRuns.FileRunService.Reserve | apps/api/src/files/file-run.service.ts:365-476 | The reserving transaction, also one that commits after shutdown began, answers as the queue's rules prescribe, and its writes are the queue's reserve event |
| FileRuns.FileRunService.Decide | apps/api/src/files/file-run.service.ts:365-476 | The lookups of the reserving transaction return an outcome the queue allows |
| FileRuns.FileRunService.Stop | apps/api/src/files/file-run.service.ts:782-812 | Exactly active runs are interrupted; a finished run is reported and left alone |
| FileRuns.FileRunService.OldestQueued | apps/api/src/files/file-run.service.ts:842-846 | The claimed candidate is the queued run with the least creation time, then id, if there is one |
| FileRuns.FileRunService.ClaimNext | apps/api/src/files/file-run.service.ts:839-856 | A claim succeeds exactly when a run is queued and none is running, and takes the oldest |
| FileRuns.FileRunService.Complete | apps/api/src/files/file-run.service.ts:906-955 | An outcome is recorded exactly while the run is running and its source is undeleted with the revision the run was admitted under |
| FileRuns.FileRunService.Restart | apps/api/src/files/file-run.service.ts:146-163 | A new owner interrupts whatever was queued or running |
| FileRuns.FileRunService.Pause | apps/api/src/files/file-run.service.ts:138-145 | Between two steps under the staging lock any other transactions may commit; they leave bytes, keys and copies alone, and what was discardable stays so |
| FileRuns.FileRunService.Judge | apps/api/src/files/file-run.service.ts:1161-1188 | Separate reads with other commits between them recognise every row that was discardable before, and only rows that are discardable after |
| FileRuns.FileRunService.CleanRow | apps/api/src/files/file-run.service.ts:1160-1206 | A row that may be discarded loses its bytes before its key, and the key only while the row is as it was read |
| FileRuns.FileRunService.CleanRows | apps/api/src/files/file-run.service.ts:1146-1208 | The pages cover every row with an input: each keeps its key until it is read, and whatever was discardable when it was read is given up, whatever commits meanwhile; undisturbed, no discardable input is left |
| FileRuns.FileRunService.SweepKeys | apps/api/src/files/file-run.service.ts:1210-1219 | With other commits in between, exactly the stored keys that a row names stay |
| FileRuns.FileRunService.Cleanup | apps/api/src/files/file-run.service.ts:1146-1219 | Whatever other transactions commit meanwhile: inputs that were discardable at the start are given up, every key left is named by a row, and every run that still needs its input has it; undisturbed, no discardable input is left |
| RunCleanup.SeenMeansGivenUp | apps/api/src/files/file-run.service.ts:1161-1206 | An input discardable at the start of a cleanup has lost its bytes at the end, and its key too unless its run has changed status meanwhile |
| RunInterference.BesideRun | apps/api/src/files/file-run.service.ts:138-145 | However many transactions of others commit while the staging lock is held, no needed input goes, no key changes and every judgement about a row stands |
| ParserSupervisor.ApplyKeepsValid | apps/api/src/files/file-extractor.ts:95-206 | Every callback in every order keeps the supervisor's bounds |
| ParserSupervisor.ExtractionsSettleOnce | apps/api/src/files/file-extractor.ts:95-206 | Each extraction but the one under way is answered exactly once, within 31000 ms of its start and after at most three kills; the one under way is within the same bounds; at most one child is alive; kept output never exceeds 8 MiB |
| ParserSupervisor.FileExtractor.Extract | apps/api/src/files/file-extractor.ts:24-40 | An extraction is refused for the first of its grounds in order, and starts a child only when none is being parsed and none is still to be reaped |
| ParserSupervisor.FileExtractor.StopNow | apps/api/src/files/file-extractor.ts:138-148 | The first reason is kept, and only the first stop arms the termination deadline and sends a kill |
| ParserSupervisor.FileExtractor.Kill | apps/api/src/files/file-extractor.ts:127-137 | A kill is counted and another try armed while fewer than three were sent |
| ParserSupervisor.FileExtractor.OnStop | apps/api/src/files/file-extractor.ts:150-175 | Cancellation, too much memory and errors of the child or its channel stop it within the supervisor's bounds, each with its own reason unless one came first |
| ParserSupervisor.FileExtractor.OnRetry | apps/api/src/files/file-extractor.ts:127-137 | A retry that is due sends and counts one more kill, at most three in all |
| ParserSupervisor.FileExtractor.OnData | apps/api/src/files/file-extractor.ts:168-173 | Output beyond the bound is not kept and stops the child |
| ParserSupervisor.FileExtractor.OnDeadline | apps/api/src/files/file-extractor.ts:114-126 | The caller is answered although the child never closed, and the child keeps its place |
| ParserAnswers.AnswersAreDeserved | apps/api/src/files/file-extractor.ts:95-206 | Over every sequence of events, each answer in the log is what the events from the start of its child to the answer deserve: the first stop reason if there was one, otherwise by exit code and message |
| ParserAnswers.ParsedMeansResult | apps/api/src/files/file-extractor.ts:176-197 | An extraction counts as parsed only if its child closed with exit code 0 and a result, and nothing had stopped it: no cancellation, timeout, error or output beyond the bound |
| ParserAnswers.CloseAnswers | apps/api/src/files/file-extractor.ts:176-197 | A child that closes while its caller waits is answered at once, as its events deserve, from all the output it sent |
| ParserSupervisor.DeadlineAfterThreeKills | apps/api/src/files/file-extractor.ts:114-137 | The caller is given up on only after three kills |
| ParserSupervisor.RefusedOnGroundsOnly | apps/api/src/files/file-extractor.ts:24-40 | An extraction starts exactly when no ground speaks against it, and each ground has its refusal |
| ParserSupervisor.FileExtractor.OnClose | apps/api/src/files/file-extractor.ts:176-197 | A close answers the extraction under way, or frees the place of a stranded child |
| Throttle.CountersAreBounded | apps/api/src/auth/auth.service.ts:131-172 | With a clock that does not go back no failure counter of login, recovery or setup ever exceeds 29 |
| Throttle.BoundIsReached | apps/api/src/auth/auth.service.ts:131-172 | The bound is tight: an attempt at the end of each block brings a counter to 29 within one window |
| Throttle.SetupHappensOnce | apps/api/src/setup/setup.service.ts:173-255 | At most one attempt of any run creates the administrator, with a current token and outside a block, and setup stays closed |
| Throttle.FirstRightTokenCreates | apps/api/src/setup/setup.service.ts:173-255 | The first registration with the right token outside a block creates the administrator |
| Throttle.LaneCounts | apps/api/src/auth/auth.service.ts:131-182 | After any attempts a counter is the number of failures since its window opened and its last reset, and the block is the one the last of them set |
| Throttle.LoginThrottle.RejectAttempt | apps/api/src/auth/auth.service.ts:131-172 | A rejected attempt counts in its window or opens a new one and sets the doubled block, capped at a minute |
| Throttle.LoginThrottle.ResetLogin | apps/api/src/auth/auth.service.ts:173-182 | Success clears the counter, the window and the block |
| Throttle.LoginThrottle.Attempt | apps/api/src/auth/auth.service.ts:204-213 | An attempt is let in exactly when no block is running |
| Throttle.BootstrapState.Register | apps/api/src/setup/setup.service.ts:173-255 | The first registration is closed, throttled, rejected and counted, or completed, in that order |
| MarkdownSections.ParseSections | packages/rag-core/src/markdown.ts:13-89 | The loop returns no section without a heading, and otherwise one section for every body that is not blank, in order, with its lines, line numbers and heading path |
| MarkdownMeaning.LinesJoinBack | packages/rag-core/src/markdown.ts:16-16 | Splitting into lines loses nothing but the carriage returns of line breaks |
| MarkdownMeaning.OpensAsCommonMark | packages/rag-core/src/markdown.ts:55-63 | A line opens a fence exactly when it has the form of an opening code fence in section 4.5 of CommonMark 0.31 |
| MarkdownMeaning.ClosesAsCommonMark | packages/rag-core/src/markdown.ts:42-54 | A line closes a fence exactly when it has the same character, at least as many of them and then only spaces and tabs, as section 4.5 of CommonMark 0.31 requires |
| MarkdownMeaning.FenceIsOpenBlock | packages/rag-core/src/markdown.ts:42-63 | A fence is open before a line exactly when an earlier opening fence has met no closing fence since |
| MarkdownMeaning.FencedLinesAreNotHeadings | packages/rag-core/src/markdown.ts:42-75 | No line of a code block, its fences included, is a heading |
| MarkdownMeaning.HeadingsFollowPattern | packages/rag-core/src/markdown.ts:65-79 | A line is a heading of a level and title exactly when it matches the heading pattern with that text between its blanks |
| MarkdownMeaning.SectioningIsUnique | packages/rag-core/src/markdown.ts:13-89 | The sections of a document are determined by its lines |
| MarkdownMeaning.EachLineInOneSection | packages/rag-core/src/markdown.ts:24-39 | All lines of a body lie in one section exactly when one of them has ink, and no line lies in two |
| MarkdownMeaning.InkLinesAreKept | packages/rag-core/src/markdown.ts:41-89 | A line with ink is a heading or lies in exactly one section, under the titles in force at that line |
| MarkdownPaths.PathsNameEnclosingHeadings | packages/rag-core/src/markdown.ts:76-80 | Heading paths name exactly the headings that enclose a line if and only if at every heading the last entry kept by the cut has a higher rank |
| MarkdownPaths.GaplessPathsAreRight | packages/rag-core/src/markdown.ts:76-80 | Documents that never skip a level have the right paths |
| MarkdownPaths.SkippedLevelsNest | packages/rag-core/src/markdown.ts:76-80 | Two third-level headings with nothing above them: the second is filed below the first |
| Tokens.TokensAreWords | packages/rag-core/src/tokenizer.ts:3-8 | Every token is non-empty and has no whitespace |
| Tokens.TokenizeUndoesJoin | packages/rag-core/src/tokenizer.ts:3-12 | Tokenising the join of any words gives the words back |
| Tokens.JoinNormalises | packages/rag-core/src/tokenizer.ts:3-12 | Joining the tokens of a text gives the text with its whitespace normalised |
| Tokens.TokensSpellInk | packages/rag-core/src/tokenizer.ts:3-8 | The tokens of a text spell exactly its code points other than whitespace |
| TokenWindows.ResolveOptions | packages/rag-core/src/chunker.ts:17-30 | Options are refused exactly when the size is not positive or the overlap negative, and resolved ones leave a positive step |
| TokenWindows.SplitTokens | packages/rag-core/src/chunker.ts:32-56 | The loop ends and returns the windows of the tokens |
| TokenWindows.WindowsReconstruct | packages/rag-core/src/chunker.ts:32-56 | The first window and every later one without its first overlap are the tokens again |
| TokenWindows.WindowAt | packages/rag-core/src/chunker.ts:32-56 | Window k starts k steps in; all but the last are full, and the last brings a token no other has |
| TokenWindows.NeighboursOverlap | packages/rag-core/src/chunker.ts:32-56 | Neighbouring windows share exactly the overlap |
| TokenWindows.SectionChunksMean | packages/rag-core/src/chunker.ts:88-109 | The contents of a section's chunks tokenise to its windows, with the recorded token counts, and give its tokens back; there is no chunk exactly for a blank section |
| TokenWindows.ChunkMarkdownDocument | packages/rag-core/src/chunker.ts:110-134 | The loop numbers the chunks of all sections through |
| TokenWindows.ChunkDocument | packages/rag-core/src/chunker.ts:153-160 | Bad options are refused; otherwise the chunks are those of the sections, or of the whole text when there are none |
| TokenWindows.ChunksAreDetermined | packages/rag-core/src/chunker.ts:110-160 | A document and its options determine its chunks |
| TokenWindows.ChunksAreNumbered | packages/rag-core/src/chunker.ts:110-134 | Chunk indexes are 0 to n - 1 over the whole document, every token count between one and the size |
| TokenWindows.SectionsReconstruct | packages/rag-core/src/chunker.ts:88-134 | The stored contents of a section's chunks alone give back all tokens, and all ink, of its body |
| TokenWindows.OnlyBlankYieldsNothing | packages/rag-core/src/chunker.ts:136-160 | A document yields no chunk exactly when it is blank |
| NotionTraversal.CollectPageChildren | packages/connectors/src/notion/traverse.ts:102-150 | The loop ends on every finite block graph, cycles included, and returns what visiting each block in order contributes, or the first failure |
| NotionTraversal.LoadPageSnapshot | packages/connectors/src/notion/traverse.ts:215-227 | Loading a page ends with its snapshot or the first failure |
| NotionText.LoadedText | packages/connectors/src/notion/traverse.ts:102-150 | The lines of a loaded page are the lines of the blocks on all simple paths below it that pass no child page, each once and in preorder, a block before what is nested in it; so are the ids of its unsupported blocks |
| NotionText.LinesJoin | packages/connectors/src/notion/traverse.ts:215-227 | Joining lines piece by piece is joining them all at once |
| NotionCoverage.TrailsAreSimplePaths | packages/connectors/src/notion/traverse.ts:102-150 | The paths the recursion follows are exactly the block paths on which no id repeats |
| NotionPages.EntriesAreSimplePaths | packages/connectors/src/notion/live-sync.ts:132-144 | Which pages are listed: the flattened entries are exactly the ends of such paths, each below the titles of the pages on its way |
| NotionOrder.EntriesInPreorder | packages/connectors/src/notion/live-sync.ts:132-144 | In which order and with which text: the entries stand for the places of all simple paths to pages, each once, in preorder, a page before the pages below it and siblings in block order, and each entry holds the text found below its page |
| NotionPages.ReachablePagesAreRead | packages/connectors/src/notion/traverse.ts:102-150 | On any graph every page that some path leads to is read |
| NotionPages.TreePagesAreReadOnce | packages/connectors/src/notion/live-sync.ts:132-144 | On a tree no page is listed twice |
| LocalRepoSync.LocalRepoStore.UpsertDocument | packages/connectors/src/local-repo/prisma-store.ts:57-152 | A write commits its row unless the transaction fails, and reports failure also when only the embedding failed |
| LocalRepoSync.LocalRepoStore.ArchiveMissingDocuments | packages/connectors/src/local-repo/prisma-store.ts:153-172 | Exactly the active documents of the selected repositories without a file are archived and counted |
| LocalRepoSync.SyncLocalRepoFiles | packages/connectors/src/local-repo/sync.ts:45-135 | The loop over the files leaves the rows and counters of processing them one after the other, then archives the missing |
| LocalRepoSync.CountersAddUp | packages/connectors/src/local-repo/sync.ts:45-135 | Whatever fails, the five counters add up to the files and the documents newly archived as missing, and each failure is listed |
| LocalRepoSync.CountersCountFates | packages/connectors/src/local-repo/sync.ts:45-135 | With distinct ids each counter is the number of files with that fate, which depends on the file's own earlier row and outcome, and the failures are listed in order |
| LocalRepoSync.SyncedRows | packages/connectors/src/local-repo/sync.ts:56-123 | With distinct ids a file's document depends on its own earlier row and outcome alone; other documents are only archived |
| LocalRepoSync.SyncWritesWhatChanged | packages/connectors/src/local-repo/sync.ts:18-135 | A sync writes exactly the documents that are out of date, each with all its file says, and retires exactly the active documents of the selection without a file; every other document stays as it was |
| LocalRepoSync.SyncConverges | packages/connectors/src/local-repo/sync.ts:45-135 | After a sync without failures the active documents of the selection are exactly the files classified active if and only if no unchanged active document is filed under a repository outside the selection |
| LocalRepoSync.PlainNamesConverge | packages/connectors/src/local-repo/sync.ts:45-135 | Without colons in repository names, after any history of syncs from an empty store, failures and changing selections included, every sync without failures converges |
| LocalRepoSync.ColonInNameDiverges | packages/connectors/src/local-repo/sync.ts:45-135 | Whatever repository name holds a colon: after a sync of it without failures, an unchanged file of the repository named before the colon, with the rest in its path, is missed by its own sync |
| LocalRepoSync.ColonFreeNamesKeepIdsApart | packages/connectors/src/local-repo/sync.ts:57-57 | Repository names without a colon keep the external ids of different files apart |
| LocalRepoSync.PlainFilesHaveDistinctIds | packages/connectors/src/local-repo/sync.ts:57-57 | Distinct paths of colon-free repositories give distinct external ids |
| LocalRepoSync.SyncKeepsPlainRows | packages/connectors/src/local-repo/prisma-store.ts:57-152 | Every write of a sync, failed ones included, files a document under its own repository and path |
| LocalRepoSync.SkippedNextTime | packages/connectors/src/local-repo/sync.ts:18-26 | A second sync skips a file exactly unless its write was rolled back, so failed embeddings are not tried again |
| LocalRepoSync.ResyncChangesNothing | packages/connectors/src/local-repo/sync.ts:45-135 | Syncing the same files again changes no document, skips every file and archives nothing |

## Left out

- `inspectTransfer` and the sensitive-content checks, prompt and classification tables, HTTP, sessions, cookies, the vault,
  password and token hashing: string tables, plumbing and cryptography. Whether a secret matches, a session is valid or a
  transfer is allowed is an input.
- Database implementation: locks, isolation levels and row locks appear only as the atomicity of the named sections.
- One installation and one administrator: rows carry an owner where a check compares it, not an installation.
- Call rows: usage, provider id, error code and reasoning settings, which only travel; the preflight transaction before an
  admission, which the admission repeats; status and settings views and the 80 percent warning.
- Two clocks: the source mixes the database's and the process's clock; the models use one.
- Run rows: the five count columns, file size, format and configuration version of a run; the 90-day deletion of old runs, after
  which request ids may be reused; the newest recovered run is any recovered one.
- Batch order: the rows a query of the file cleanup returns first are any rows up to the batch size.
- FileManagement.FileManagementService.PersistUpload: does not interleave with other lock holders, because the file-operation
  lock excludes them. Queued indexing runs hold that lock too, so `FileIndexing` proves more interleavings than it admits.
- FileIndexing.FileIndexService.EmbedAll: does not reserve and charge each call, which the spending ledger models on its own.
- FileIndexing.FileIndexService.RebindPrior: takes any fitting prior index where the source takes the newest, which
  `FileCurrency.PriorsAreAlike` shows to have the same effect.
- LocalRepoSync.SyncLocalRepoFiles: lookups and the archiving query do not fail, chunk rows and metadata are not kept, and the
  files that a scan collects and their classification are inputs.
- NotionTraversal.CollectPageChildren: block lists come complete, without paging, and do not change during a traversal, a page id
  is answered with that page, and a block is the same record wherever it is listed;
  database roots, titles extracted from rich text and rendering of blocks are inputs.
- TokenWindows.ResolveOptions: options are integers; fractions and not-a-number are outside the model, as are chunk ids,
  hashes and the metadata that chunks copy from their document.
- ParserSupervisor.FileExtractor.Extract: spawning, sandbox arguments and reading the child's memory use are events.
- Vector search, retrieval scores, gap drafts, source references over HTTP and the file list: reading code with floating point
  or nothing to prove.
