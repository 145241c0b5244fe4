# CleverSearch indexing model

CleverSearch indexes databases and file shares into OpenSearch in the background and searches them in
Korean. This project models the parts of it that have to be right under interruption, batching and
interleaving, and the algorithms whose correctness is not visible from their code, and proves what they
promise.

* **Incremental indexing.** A queue of jobs on a database table (`JobQueue`; its runs in `QueueRuns`, `QueueLog`,
  `QueueLaws`, `QueueOrders`, `QueueAlone`, `QueueRaces`); the database job, which pages through a table by its cursor column and commits a
  cursor after every chunk (`CursorCodec`, `DbScan`, `DbJob`, `DbStall`, `DbRuns`); the file job, which filters
  files by metadata and hash and writes documents and state rows in batches (`FileScan`, `FileAgreement`,
  `FileResume`, `FileRuns`, `FileOverlaps`, `SmbJob`); the progress row both commit to (`JobProgress`) and the bulk
  indexing both call (`SearchIndex`, `IndexedText`). The index is a map from document id to document, the tables
  are maps or sequences of rows, time is an integer.
* **Korean input.** The composer that turns loose letters into syllables (`Hangul`, `HangulComposer`) and the
  initial-consonant search with its highlighting (`Chosung`).
* **Reading HWP files.** The record loop over a section (`HwpReader`), after the data-record section of
  Hancom's HWP 5.0 document format.
* **Smaller algorithms.** Text sanitising (`Sanitizer`), nDCG and MRR (`Evaluation`), token revocation (`Tokens`,
  `TokenRaces`), one-time passwords (`Otp`, `Decimal`; section 5.3 of RFC 4226 and section 5.2 of RFC 6238), the network
  monitor's event log (`NetMonitor`). `Text`, `Traces` and `Wrappers` hold what they share.

Stateful code is a class whose methods are proved to do what a specification function says to the fields;
what the system promises is then proved of those functions, over all inputs and all runs. Runs with several
workers or crashes are transition systems (`Next`, `Run`) in which every commit, and in the queue every read
that a later write rests on, is a step of its own. Failures of the outside world (a query, a bulk call, an item,
a commit, an event write) are parameters.

## What is proved

* A database job may be attempted any number of times, by workers that overlap, each killed between any two of
  its writes and commits, and each with its own chunk size. Once one attempt finishes, index and source cursor
  are those of one uninterrupted run with the same documents accepted; at every moment, the new document of a row at
  or before the stored cursor is missing from the index exactly if the engine refused it and never accepted it; and
  from every reachable state one more attempt can finish. What a job is about is said in places of the table: all
  rows for a full job, else those after its own cursor, failing that after the source's.
* Chunked reading returns the one-shot listing exactly when no cut separates equal cursor values. On any table, a
  round of the job leaves fewer rows pending exactly when its last row has a cursor value.
* In every interleaving of the queue, a source has at most one unfinished job exactly as long as no enqueue, pause
  or resume lands on an outdated read while the source has another, and a finished job comes back exactly when a
  pause or resume of it was read before its end and written after. On the SKIP LOCKED path two claims of a job are
  separated by a pause and a resume, by such a late resume, or by the end of the last lease. The two ways of
  claiming agree exactly under a condition that one active job per source implies. In every run a job's mode, cursor
  and creation time are those it was enqueued with.
* A file job leaves, for every batching and every failure, the index of the documents accepted for its first
  `flushed` files and the state rows of its first `saved <= flushed` ones. The checkpoint is committed nowhere past
  `flushed` until the last overwrite, which moves it to the last file handled, `flushed` or not. When state rows and
  index agree after that is settled exactly, for refused documents and for kills. A job that nothing disturbs is done
  exactly when the cap was not reached and every file can be recorded; which can is a condition on the file. A file
  passes for unchanged exactly if its size is that of its row and its time less than a second off; any other
  readable one in size and with text is indexed as it is now, where rows and index agreed before.
* The attempts of a file job may overlap and die between any two writes, the overwrite and the finalize included.
  A file before the checkpoint, or any once an attempt has come to the end, is lost exactly if it was not indexed
  before, an overwrite passed it while its document was pending, and no attempt has dealt with it. Where no walk
  breaks off with items pending, each such file is indexed as it is now or was refused by the engine. A resumed walk
  handles exactly the files after its checkpoint if and only if the walk cuts cleanly there, which holds at every
  checkpoint exactly for increasing walks.
* The composer inverts typing, and for every query its output retypes to the input plus the ㅇ of orphan vowels
  minus the doubled consonants in final position; letters are kept exactly when there are none of the latter. Blanks
  and bars typed in anywhere make no difference.
* The HWP reader inverts the writer, the writer inverts the reader, and a cut file loses only from its end; what
  was written as paragraphs of printable text is read as exactly these lines.
* In every run an expiring token is accepted exactly if it is genuine, live and was never revoked or spent. Of
  overlapping refreshes of one token, which mint a second pair is settled exactly; with no other refresh past its
  second decode when the first pair is minted, none does.
* The network log spells the outages of a key exactly when every event write of the key succeeded.

Promises that do not hold of the code are stated with the input that breaks them and the condition under which they
hold:

* One job per source, and finished jobs: `QueueRaces.OverlappingEnqueues`, `QueueRaces.OverlappingPause`
  (`QueueLaws.AtMostOneActiveIff`, `QueueLaws.ReopensIff`, `QueueLaws.AtMostOneActiveAtOnce`); one worker per job on the optimistic path:
  `QueueRaces.LapsedJobIsClaimedTwice` (`QueueRaces.SecondIsTurnedAwayIff`).
* File jobs end as done when nothing fails: a touched file makes every run fail (`SmbJob.TouchOneFile`), and so does a
  long path where the database enforces column widths (`SmbJob.RecordableIff`).
* State rows and index agree: refused documents are recorded as indexed (`FileAgreement.FailedDocumentsAreNotRetried`,
  `FileAgreement.RefusalsAgreeIff`).
* Chunked reading misses no row: `DbScan.TieIsDropped` (`DbScan.ScanIsOneShotIff`); it ends:
  `DbStall.NullRowsStallIff` (`DbStall.RoundAdvancesIff`).
* Resuming loses no file: `FileResume.LowerCaseOrderLosesAFile` (`FileResume.LowerCaseOrderIncreasesIff`), and, where
  a worker dies between the overwrite and the finalize, `FileOverlaps.OneNewFileIsLost` (`FileOverlaps.FileIsLostIff`,
  `FileOverlaps.NoFileLeftBehind`).
* The network log shows every outage: `NetMonitor.PrimaryLogHidesOutages`, `NetMonitor.FirstPrimaryOutage`
  (`NetMonitor.LogFollowsGrammarIff`).
* nDCG is at most 1: `Evaluation.RepeatedTitleExceedsOne` (`Evaluation.NoOrderingExceedsOneIff`).
* A refresh token mints one pair: `TokenRaces.RowThereMintsAgain`, `TokenRaces.PurgedRowMintsAgain`
  (`TokenRaces.MintsTwiceIff`, `TokenRaces.AloneMintsOnce`); a revoked token stays revoked:
  `Tokens.RevokedWithoutExpiryRevives`, for a token without `exp`, which the code accepts but never issues.
* Composing keeps every letter: `HangulComposer.DoubledFinalIsLost` (`HangulComposer.JamoKeptExactly`).

Where the code and its comments differ the model follows the code:

* The worker's comment (app/services/worker_service.py:71) rests one running job per source on the claim's NOT
  EXISTS. Two concurrent claims can pass it (`QueueRaces.NotExistsAloneIsNotEnough`); what keeps it is the check made
  before a job is inserted, as far as enqueues do not overlap.
* The design's hash filter (app/services/smb_job_processor.py:460-479) means to refresh the row of a touched file. It
  asks the loaded state for `indexed_at`, which is not loaded (lines 91-98), and so the update violates NOT NULL.
* The SMB client (app/utils/smb_client.py:107, 119) calls its walk safe to resume because each directory is sorted
  by lower-cased name. `FileResume.EveryCutCleanIff` says which order it would have to be.
* nDCG is described as a value between 0 and 1 (app/utils/evaluation.py:31). That holds for distinct predictions
  (`Evaluation.NdcgOfDistinct`).

## Model

| member | source | states |
|---|---|---|
| `DbScan.RowsToItems` | app/services/db_job_processor.py:312-318 | one item per row, in order |
| `DbScan.RowIsSearchable` | app/services/db_job_processor.py:46-62 | title (or source name and key), text with every value that is not NULL, file name, document id, label and the rest of a row's item, value by value as each kind reads |
| `DbScan.ValuesInOrder` | app/services/db_job_processor.py:46-62 | the values stand in the order of the columns with one blank between them |
| `DbScan.GetIsFirst` | app/services/db_job_processor.py:46-62 | a column's value is that of its first cell, nothing if there is none |
| `DbScan.PendingIsSuffix` | app/services/db_engine_cache.py:125-146 | whatever the stored cursor, the incremental query returns a suffix of the sorted table |
| `DbScan.CursorCutsPending` | app/services/db_engine_cache.py:149-199 | the cursor stored after m rows reads back as that row's value and leaves the later rows of higher rank |
| `DbScan.DistinctPending` | app/services/db_engine_cache.py:149-199 | with distinct cursor values it leaves exactly the rows not yet returned |
| `DbScan.PendingShrinks` | app/services/db_job_processor.py:283-374 | every non-empty chunk leaves fewer rows pending: the scan terminates |
| `DbScan.ScanIsOneShotIff` | app/services/db_engine_cache.py:125-199 | reading in chunks equals reading at once exactly when no chunk boundary separates rows with equal cursors |
| `DbScan.ScanIsOneShot` | app/services/db_engine_cache.py:125-199 | distinct cursors: every row past the start is visited once and in order, for every chunk size |
| `DbScan.ScanEndsAtMaximum` | app/services/db_engine_cache.py:194-199 | and the scan ends at the highest cursor value |
| `DbScan.TieIsDropped` | app/services/db_engine_cache.py:140-146 | two rows with one cursor value read one at a time: the second is never seen |
| `DbStall.RoundAdvancesIff` | app/services/db_engine_cache.py:194-199 | on any table, a round leaves fewer rows pending iff its last row has a cursor value, and keeps its cursor iff it has none |
| `DbStall.StalledJobRepeats` | app/services/db_job_processor.py:283-374 | a full chunk that ends without one is sent over and over, up to the row cap |
| `DbStall.NullRowsStallIff` | app/services/db_job_processor.py:220-220 | rows without cursor values are sent once each if there are fewer than the source's chunk size, 500 if it has none, and otherwise the first chunk is sent until a million rows have gone out |
| `CursorCodec.CursorRoundTrip` | app/services/db_engine_cache.py:96-122 | a stored cursor is read back as the value it was, for every int, datetime and text value but the empty string |
| `CursorCodec.MomentIsReadIff` | app/services/db_engine_cache.py:104-109 | a stored text in the layout of isoformat is read as a datetime of the Gregorian calendar exactly if it is how that datetime is written, or starts with its seconds and is not how one with a fraction is written; else it is an error |
| `CursorCodec.ReadsInt` | app/services/db_engine_cache.py:96-122 | integers of either sign survive str and int |
| `CursorCodec.ReadsIso` | app/services/db_engine_cache.py:96-122 | datetimes survive isoformat and fromisoformat, with and without microseconds |
| `JobProgress.JobRow.CommitChunkProgress` | app/services/db_job_processor.py:85-113 | one commit adds the chunk to all four counters and moves the cursor unless it is None |
| `DbJob.DbJobProcessor.PromoteCursorToSource` | app/services/db_job_processor.py:116-134 | a non-empty final cursor becomes the source's, an empty one changes nothing |
| `DbJob.DbJobProcessor.RunRounds` | app/services/db_job_processor.py:265-374 | the chunk loop under any failures and any answers of the engine: counters balance, cursor and index move together, it stops at the end of the listing or the row cap; undisturbed it sends what `RowsSent` says, NULLs or not |
| `DbJob.DbJobProcessor.SendAndCommit` | app/services/db_job_processor.py:311-358 | one chunk: its rows are all counted, the accepted ones indexed, and only a commit that succeeds moves counters and cursor |
| `DbJob.DbJobProcessor.ProcessDbJob` | app/services/db_job_processor.py:189-394 | a full job starts with the first row, any other after its own cursor or else the source's, and fails untouched if that cannot be read; from there the index holds exactly the accepted documents of the rows sent, also when the engine refuses items or the embedding fails, and the reported counts are theirs; the committed cursor never runs ahead, only a finished job promotes its cursor, a promotion that fails leaves the job done, counters balance whatever fails |
| `DbJob.StartOfJob` | app/services/db_job_processor.py:253-257 | the rows a job has to do are those of the table from that place on |
| `DbJob.FetchAdvances` | app/services/db_job_processor.py:288-313 | each query returns the next rows of the listing the job started with |
| `DbJob.MoreIndexed` | app/services/db_job_processor.py:316-342 | indexing the next chunk over the first k rows is indexing k more rows at once, whichever are refused |
| `DbRuns.TodoIs` | app/services/db_job_processor.py:253-257 | in full mode a job is about all rows of the table, otherwise about those after the cursor it was enqueued with |
| `DbRuns.NoRowLeftBehind` | app/services/db_job_processor.py:254-394 | in every run of overlapping, dying attempts, the index holds exactly the documents accepted so far over the old ones, and every row at or before the cursor the next attempt would start from is accepted, refused or blank |
| `DbRuns.MissingRowsIff` | app/services/db_job_processor.py:320-353 | so a new document of such a row is missing exactly if it was refused and never accepted: the cursor passes it and it is not sent again |
| `DbRuns.InterruptionsMakeNoDifference` | app/services/db_job_processor.py:254-394 | once an attempt finishes, index and promoted cursor are those of one uninterrupted run with the same documents accepted, all of them if none was refused, now and after anything that follows |
| `DbRuns.JobCanBeFinished` | app/services/db_job_processor.py:254-394 | from every reachable state a new attempt has a run to its end |
| `DbRuns.CountersBalance` | app/services/db_job_processor.py:345-353 | processed grows by indexed + skipped + failed in every run of attempts |
| `DbRuns.WritesAreOneBulkCall` | app/services/db_job_processor.py:316-325 | undisturbed, the single writes of a chunk leave the index that one bulk call leaves, for all its answers |
| `DbRuns.OneRound` | app/services/db_job_processor.py:283-374 | one round of an attempt left alone is one round of the job's loop: index, counters, stored cursor and row count are those of one query, one bulk call with any answers and one commit, and it goes on exactly after a full chunk |
| `DbRuns.TallyIsBulkResult` | app/services/db_job_processor.py:336-353 | what a commit adds to the counters is what the bulk call returned |
| `DbRuns.StepKeepsInv` | app/services/db_job_processor.py:283-382 | every single step of any attempt keeps: the index holds what was accepted, stored cursors and live attempts covered by it |
| `DbRuns.StepKeepsCompleted` | app/services/db_job_processor.py:377-382 | finishing establishes, and no late attempt undoes, the completed state |
| `DbRuns.WriteIndexes` | app/services/db_job_processor.py:57-61 | writing a row's document again, in any order with others, changes no other row's |
| `DbRuns.AcceptedAreIndexed` | app/services/indexing_service.py:275-381 | indexing items with ids of their own in one go indexes exactly the accepted ones over the old index |
| `DbRuns.HoldsIsUnique` | app/services/indexing_service.py:275-381 | and only one index has exactly these indexed and all else as before |
| `DbRuns.PksGiveIds` | app/services/db_job_processor.py:59-61 | distinct primary keys give distinct non-empty document ids |
| `DbRuns.NumbersAreUnique` | app/services/db_job_processor.py:59-61 | as they are where the key column, `id` if none is named, holds distinct numbers |
| `SearchIndex.EmbedBatch` | app/services/indexing_service.py:383-397 | batched embedding returns one vector per text, in order |
| `SearchIndex.IndexingService.BuildDocs` | app/services/indexing_service.py:300-313 | blank items are set aside and counted; the rest become documents in order |
| `SearchIndex.IndexingService.SendChunks` | app/services/indexing_service.py:333-366 | every action ends up indexed or failed; the index holds exactly the accepted ones |
| `SearchIndex.IndexingService.IndexBulk` | app/services/indexing_service.py:275-381 | indexed + skipped + failed = items for every mix of blank items, embedding failure, failing calls and item errors, and the index is exactly what was accepted |
| `SearchIndex.CallLost` | app/services/indexing_service.py:347-353 | a bulk call that raises loses its own chunk and nothing else |
| `SearchIndex.AcceptedIsApply` | app/services/indexing_service.py:320-366 | item by item: a bulk indexing writes exactly the items with a document that the engine accepts, and counts them |
| `SearchIndex.HealthyApply` | app/services/indexing_service.py:275-381 | without failures a bulk call is the items indexed one after the other, chunk boundaries invisible |
| `SearchIndex.PutAllConcat` | app/services/indexing_service.py:275-381 | two bulk calls do what one with all the items does |
| `IndexedText.DocumentHoldsItem` | app/services/indexing_service.py:233-273 | a stored document holds the sanitised text and name once, the initials of that very text position by position, the embedding of its first 2000 characters, the category of the name, and the item's hash or else the digest of the text |
| `IndexedText.CategoryIsFirstWord` | app/common/utils.py:52-58 | which names make a plan, a report, a rule or none of these |
| `IndexedText.DocExistsIff` | app/services/indexing_service.py:241-245 | an item has a document exactly if its text shows something |
| `IndexedText.InitialsAreClean` | app/services/indexing_service.py:257-273 | the second sanitising finds nothing to remove in the initials |
| `FileScan.MetaSameIff` | app/services/smb_job_processor.py:306-326 | a file passes for unchanged exactly if its row has its size and both times are there and less than a second apart |
| `FileScan.FinalStateOf` | app/services/smb_job_processor.py:426-512 | once the rows of a walk are written, a file's row is what the verdict on it says, and no other file's row has changed |
| `FileScan.ClassifyAgain` | app/services/smb_job_processor.py:430-479 | a file whose row was written is not indexed again, and its row does not change again |
| `FileScan.SecondWalkWritesNothing` | app/services/smb_job_processor.py:415-560 | after a walk that got all its rows written, a second one sends nothing to the index |
| `FileScan.SecondWalkResends` | app/services/smb_job_processor.py:415-560 | after one that wrote the rows of its first k files, it sends exactly what the files from k on had to send |
| `FileAgreement.WalkKeepsAgreement` | app/services/smb_job_processor.py:415-560 | a walk whose rows are all written and documents all accepted keeps the agreement of rows and index, whatever the files are |
| `FileAgreement.AgreesIff` | app/services/smb_job_processor.py:494-560 | for any rows written and documents accepted: when rows and index agree |
| `FileAgreement.StoppedJobAgreesIff` | app/services/smb_job_processor.py:516-536 | a job that stops between flush and row save agrees exactly if no pending document replaced one that an old row stands for |
| `FileAgreement.RefusalsAgreeIff` | app/services/smb_job_processor.py:517-526 | with all rows saved, rows and index agree exactly if every document was accepted or already there |
| `FileAgreement.EveryFileIsIndexed` | app/services/smb_job_processor.py:415-560 | every readable file in size with text and faithful metadata among those flushed is indexed as it is now; its row is current once saved |
| `FileAgreement.EditedFileIsIndexed` | app/services/smb_job_processor.py:430-538 | so, whatever its row says, a readable file in size with text whose size differs, whose time moved by a second or more, or whose time is missing, is indexed as it is now |
| `FileAgreement.DocumentOfFile` | app/services/smb_job_processor.py:428-506 | its document: text and extension as extracted, the name after the last separator, source, digest, and the id that names source and path |
| `FileAgreement.RowIsCurrentIff` | app/services/smb_job_processor.py:306-326 | a file's row is current after the walk exactly when unchanged metadata meant unchanged content, or, if not yet saved, when it was |
| `FileAgreement.IndexIsCurrentIff` | app/services/smb_job_processor.py:306-326 | a file whose old row was made for a content with text is indexed as it is now exactly when its metadata was faithful |
| `FileAgreement.DocHasHash` | app/services/indexing_service.py:254-268 | the document carries the file's content hash |
| `FileAgreement.FailedDocumentsAreNotRetried` | app/services/smb_job_processor.py:496-526 | one new file that can be recorded, its document refused: its row is written, no document is there, and the next run sends nothing |
| `FileAgreement.RefusedFileIsLost` | app/services/smb_job_processor.py:496-526 | so for every new file with a document |
| `FileResume.AfterCursorIsSuffix` | app/services/smb_job_processor.py:421-424 | skipping to the checkpoint drops the leading files at or before it and no others |
| `FileResume.ResumeIsExactIff` | app/services/smb_job_processor.py:421-424 | a resumed walk handles exactly the files after the first m iff the walk cuts cleanly there |
| `FileResume.EveryCutCleanIff` | app/services/smb_job_processor.py:421-424 | every checkpoint is clean exactly on walks in strictly increasing code-point order |
| `FileResume.LowerCaseOrderIncreasesIff` | app/utils/local_file_client.py:38 | a walk in the order of lower-cased paths is increasing exactly when each path with capitals is in code-point order with its neighbours |
| `FileResume.LowerCaseOrderLosesAFile` | app/utils/local_file_client.py:38 | fifty small-letter files and B.txt are a walk in that order; resumed after the batch of fifty it loses B.txt |
| `FileRuns.NextPosition` | app/services/smb_job_processor.py:421-424 | the next attempt starts after the files that were committed |
| `FileRuns.EveryFileIsHandled` | app/services/smb_job_processor.py:415-560 | however attempts were killed before their last overwrite, if the last reaches the end every file was handled by one of them |
| `FileRuns.UncommittedComesAgain` | app/services/smb_job_processor.py:516-536 | what was handled past the checkpoint is handled again |
| `FileOverlaps.FileIsLostIff` | app/services/smb_job_processor.py:415-583 | in every run of overlapping, dying attempts, a file in size is indexed as it is now or refused exactly if it was indexed before or an attempt dealt with it; before the checkpoint, or after an attempt with nothing left, it is lost exactly if an overwrite passed it while pending and none of these holds |
| `FileOverlaps.NoFileLeftBehind` | app/services/smb_job_processor.py:516-583 | in every run where no walk breaks off with items pending, every such file before the checkpoint is indexed as it is now or was refused |
| `FileOverlaps.CompleteJobIndexesEverything` | app/services/smb_job_processor.py:415-583 | and once an attempt comes to its overwrite with nothing left, every file past the first checkpoint |
| `FileOverlaps.PendingFilesAreLost` | app/services/smb_job_processor.py:562-583 | the first walk breaks off with everything pending and its worker dies after the overwrite: the second attempt finds nothing left and finalises, with nothing sent |
| `FileOverlaps.OneNewFileIsLost` | app/services/smb_job_processor.py:562-583 | such a run from an empty index with one new file, which ends up missing and was never refused |
| `FileOverlaps.StepKeepsInv` | app/services/smb_job_processor.py:415-583 | every start, load, document sent, row saved, commit, overwrite, finalize and kill keeps rows reliable and the files passed indexed, but for those an overwrite has dropped |
| `FileOverlaps.AttemptIsRun` | app/services/smb_job_processor.py:415-560 | an attempt of `FileRuns`, and so a killed `SmbJob`, is one of these runs |
| `FileOverlaps.UndisturbedIsRun` | app/services/smb_job_processor.py:399-583 | an attempt nothing disturbs ends the job with the rows and documents of all files past the checkpoint and the last of them as checkpoint, or, if none was left, the checkpoint it began with |
| `FileOverlaps.LoadedRowsAreNotSentAgain` | app/services/smb_job_processor.py:399-512 | an attempt decides by the rows it loads: after another one saved them all it sends nothing |
| `SmbJob.SmbJobProcessor.BatchUpsertStates` | app/services/smb_job_processor.py:136-207 | writes the batch in order, or, if a row lacks its stamp or is too long, nothing |
| `SmbJob.SmbJobProcessor.FlushIndexChunk` | app/services/smb_job_processor.py:618-629 | every item of the batch is counted; a call that raises counts them all as failed |
| `SmbJob.SmbJobProcessor.HandleFile` | app/services/smb_job_processor.py:415-536 | one file: counted or pending, batches flushed when full; index, table, pending lists and committed checkpoint stay what the files so far come to |
| `SmbJob.SmbJobProcessor.KilledHere` | app/services/smb_job_processor.py:415-560 | a job killed between two files is an attempt of `FileRuns`: rows never ahead of documents, checkpoint never ahead of either's flush |
| `SmbJob.SmbJobProcessor.TakeIn` | app/services/smb_job_processor.py:426-513 | each verdict goes to its own counter or to the pending lists |
| `SmbJob.SmbJobProcessor.Walk` | app/services/smb_job_processor.py:415-537 | the walk from the checkpoint to its end, the cap or an exception, each file past the checkpoint once |
| `SmbJob.SmbJobProcessor.FlushRest` | app/services/smb_job_processor.py:540-560 | what is pending after the walk is written, exactly if every file can be recorded and nothing fails |
| `SmbJob.SmbJobProcessor.OverwriteTotals` | app/services/smb_job_processor.py:571-583 | the final overwrite keeps the counters in balance and the checkpoint at the last file handled |
| `SmbJob.SmbJobProcessor.ProcessSmbJob` | app/services/smb_job_processor.py:332-610 | whatever fails: which documents and rows are there, counters balanced, checkpoint at the last file handled; a done job has sent all of them; undisturbed: done iff every file was handled and can be recorded, within the cap iff every file can |
| `SmbJob.RecordableIff` | app/core/database.py:225-238 | not recordable are touched files, and on a strict database new or changed ones whose id or digest has more than 64 characters |
| `SmbJob.TouchOneFile` | app/services/smb_job_processor.py:460-479 | one touched file, nothing fails: the job does and its row stays, so the next one does too |
| `SmbJob.UpsertEarlier` | app/services/smb_job_processor.py:165-199 | a row for another path may be written before the pending ones |
| `JobQueue.Least` | app/services/worker_service.py:208-210 | the oldest wanted job by creation time, then id |
| `JobQueue.SkipLockedChoice` | app/services/worker_service.py:192-213 | the SKIP LOCKED query returns the oldest claimable job with a free source and no lock on it, None if there is none |
| `JobQueue.OptimisticChoice` | app/services/worker_service.py:246-276 | the fallback picks the oldest claimable job if its source is free; it gives up on free jobs only behind a busy older one |
| `JobQueue.ClaimsAgreeIff` | app/services/worker_service.py:184-296 | for any table, when the two ways of claiming pick the same job |
| `JobQueue.ClaimsAgree` | app/services/worker_service.py:184-296 | with one active job per source they always do, and it is the oldest claimable one |
| `JobQueue.ClaimsCanDiffer` | app/services/worker_service.py:246-276 | without, until the lease of a younger running job of the source has ended, the fallback gives up where the query goes on to the next job; from that moment on both take the older pending one |
| `JobQueue.JobQueue.Insert` | app/services/system_service.py:1456-1490 | an existing pending, running or paused job is reported instead of inserting a second one; a new row is pending and untouched and holds the source, mode, cursor and time asked for |
| `JobQueue.JobQueue.EnqueueDbJob` | app/services/system_service.py:1426-1498 | when a database job is refused, reported as duplicate or inserted, and every field of the new row: the mode asked for, and the source's cursor unless it is full or reset |
| `JobQueue.JobQueue.EnqueueFileJob` | app/services/system_service.py:407-470 | the same for file sources, whose jobs start without a checkpoint |
| `JobQueue.JobQueue.ClaimWithSkipLocked` | app/services/worker_service.py:184-234 | nobody can claim the job or another of its source before the lease has ended; no other row changes; None only if every claimable job has a busy source |
| `JobQueue.JobQueue.ClaimWithOptimisticUpdate` | app/services/worker_service.py:236-300 | the same exclusion for the fallback's choice |
| `JobQueue.JobQueue.RenewLease` | app/services/worker_service.py:367-383 | a running job becomes claimable again exactly after the new lease; status and other rows stay |
| `JobQueue.JobQueue.FinalizeJob` | app/services/worker_service.py:342-361 | the job is over and never claimable, its source is free for the next enqueue, no other row changes |
| `JobQueue.JobQueue.PauseSyncJob` | app/api/admin/system.py:369-381 | pending and running jobs are paused: nobody can claim them and their source stays taken; others are refused |
| `JobQueue.JobQueue.ResumeSyncJob` | app/api/admin/system.py:389-400 | paused jobs can be claimed at once, others are refused; the source stays taken |
| `JobQueue.FreshJobKeepsOne` | app/services/system_service.py:1456-1490 | the check before the insert is what keeps one unfinished job per source |
| `QueueOrders.JobIsAsEnqueued` | app/services/system_service.py:1456-1490 | in every run, a row is for the source, mode and cursor of the check its insert rests on and created when inserted, whatever is claimed, renewed, paused, resumed or ended: the job that is claimed is the one that was enqueued |
| `QueueAlone.EnqueueAlone` | app/services/system_service.py:1456-1490 | a check and an insert nobody gets in between with add the one row of the method, or none if the source has an unfinished job |
| `QueueAlone.SkipClaimAlone` | app/services/worker_service.py:184-234 | a select and its update are one claim of the method, passing over rows that others have locked |
| `QueueAlone.AbortAlone` | app/services/worker_service.py:184-234 | a select whose worker dies before its update leaves rows and locks as they were |
| `QueueAlone.OptClaimAlone` | app/services/worker_service.py:236-304 | a read, a check and a conditional update, nothing locked, are one claim of the fallback |
| `QueueAlone.PauseAlone` | app/api/admin/system.py:369-384 | the read and the write of a pause are the method's pause |
| `QueueAlone.ResumeAlone` | app/api/admin/system.py:387-400 | and those of a resume its resume |
| `QueueAlone.UpdatesAlone` | app/services/worker_service.py:342-383 | a renewal and an end change the row as the methods do, and wait while it is locked |
| `QueueRuns.StepKeepsInv` | app/services/worker_service.py:184-300 | every step of every session keeps: rows as the log tells, locked rows claimable, reads as recorded, a source found free unless it was given a job since |
| `QueueLaws.AtMostOneActiveIff` | app/services/system_service.py:1456-1490 | in every run each source has at most one pending, running or paused job throughout, exactly when no write on an outdated read meets another |
| `QueueLaws.AtMostOneActiveAtOnce` | app/services/system_service.py:1456-1490 | so it has if nothing comes between the read and the write of an enqueue, pause or resume |
| `QueueLaws.ReopensIff` | app/api/admin/system.py:373-381 | a done or failed job is active again exactly when a pause or resume read before one of its ends is written after it |
| `QueueLaws.FinishedForGood` | app/services/worker_service.py:342-361 | without such a write it never is |
| `QueueLog.ReopenedIff` | app/api/admin/system.py:373-400 | the same on any log that records what the sessions read |
| `QueueLaws.ClaimsAreSeparated` | app/services/worker_service.py:192-234 | two claims of one job have a pause and a resume or a late resume between them if the later found it pending, else, under SKIP LOCKED, the end of the last lease |
| `QueueRaces.ExactlyOneWins` | app/services/worker_service.py:274-296 | of workers that all read one pending job, exactly the first to update claims it |
| `QueueRaces.SecondIsTurnedAwayIff` | app/services/worker_service.py:276-280 | a second updater is turned away exactly when the job was not read as running |
| `QueueRaces.LapsedJobIsClaimedTwice` | app/services/worker_service.py:246-296 | a run from the empty table in which two workers claim one job after its lease |
| `QueueRaces.NotExistsAloneIsNotEnough` | app/services/worker_service.py:192-211 | the claim query alone would let two pending jobs of one source run at once |
| `QueueRaces.OverlappingEnqueues` | app/services/system_service.py:1456-1490 | two enqueues that check before either inserts: two jobs of one source, and both can run |
| `QueueRaces.OverlappingPause` | app/api/admin/system.py:373-381 | a pause that overlaps a finalize and an enqueue: the done job is paused and its source has two unfinished jobs |
| `Hangul.UnpackPack` | app/services/search_service.py:217-222 | letters are read back from the syllable they were packed into |
| `Hangul.PackUnpack` | app/services/search_service.py:217-222 | and every syllable is packed from its letters |
| `Hangul.Syllable` | app/services/search_service.py:217-222 | every code built lies in U+AC00..U+D7A3 |
| `HangulComposer.ComposeHangul` | app/services/search_service.py:166-228 | the loop computes `ComposeQuery`; its index always advances, the output is no longer than the input and the fallback branch is dead |
| `HangulComposer.NoOtherJamoLost` | app/services/search_service.py:166-228 | for every query, the output retypes to the letters typed, plus the ㅇ of orphan vowels, minus lost finals |
| `HangulComposer.JamoKeptExactly` | app/services/search_service.py:198-220 | nothing is lost exactly when no ㄸ, ㅃ, ㅉ stands where only a final can |
| `HangulComposer.DoubledFinalIsLost` | app/services/search_service.py:213-220 | ㅏㄸ comes out as 아 |
| `HangulComposer.RoundTrip` | app/services/search_service.py:166-228 | composing the two-set keystrokes of any text gives the text back |
| `HangulComposer.SpacedRoundTrip` | app/services/search_service.py:166-228 | so does composing them with blanks and bars put in anywhere |
| `HangulComposer.BlanksMakeNoDifference` | app/services/search_service.py:166-170 | a blank or a bar anywhere in any query makes no difference |
| `HangulComposer.TypingIsInjective` | app/services/search_service.py:166-228 | no two texts are typed alike |
| `HangulComposer.OutputLetters` | app/services/search_service.py:175-226 | no vowel is left alone, nothing but syllables is new, and there is a syllable iff there was a vowel or a syllable |
| `HangulComposer.ComposeIdempotent` | app/services/search_service.py:166-228 | composing twice is composing once |
| `Chosung.ConvertToChosung` | app/common/utils.py:86-98 | one initial per character, others unchanged |
| `Chosung.InitialOfComposed` | app/common/utils.py:94-95 | dividing by 588 finds the initial that the composer packed |
| `Chosung.InitialsIdempotent` | app/common/utils.py:86-98 | taking initials twice is taking them once |
| `Chosung.TypedInitials` | app/services/search_service.py:166-228 | the initials of composed keystrokes are the first keys of the characters |
| `Chosung.SnippetIsContiguous` | app/services/search_service.py:58-68 | without tags and ellipses a snippet is one window of the text, 60 characters either side of the hit, clipped at the ends |
| `Chosung.HighlightIsExact` | app/services/search_service.py:71-77 | a highlight exists iff some stretch has these initials, and marks the first one |
| `Chosung.KeywordIsTrimmed` | app/services/search_service.py:71-74 | what is looked for is the keyword without the white space around it and the blanks inside |
| `Text.SpacesAre` | app/services/indexing_service.py:245-245 | what strip and isspace take for white space, character by character |
| `Sanitizer.SanitizedIsClean` | app/common/utils.py:29-43 | only allowed characters, no controls, no double blanks, no white space at the ends |
| `Sanitizer.FixedPointsAreClean` | app/common/utils.py:29-43 | exactly the clean texts are left unchanged |
| `Sanitizer.SanitizeIdempotent` | app/common/utils.py:29-43 | sanitising twice is sanitising once |
| `Sanitizer.SanitizeKeepsVisible` | app/common/utils.py:29-43 | every allowed visible character is kept, in order |
| `Sanitizer.AllowedIs` | app/common/utils.py:36-42 | which characters are kept and which count as controls, by code |
| `Sanitizer.SanitizerRules` | app/common/utils.py:29-43 | a refused character goes, a control counts as a blank, two blanks as one, anywhere in any text |
| `Sanitizer.EndsAreDropped` | app/common/utils.py:29-43 | white space at either end makes no difference; these rules bring every text to a clean one |
| `Sanitizer.SanitizedTree` | app/common/utils.py:101-134 | a sanitised tree is safe to send and has the keys and shape of the original; texts, bytes and objects become texts that show the same, numbers and truth values stay, what is not finite becomes 0 |
| `Sanitizer.FixedTreesAreSendable` | app/common/utils.py:101-134 | exactly the sendable trees are left unchanged |
| `Sanitizer.SanitizeValueIdempotent` | app/common/utils.py:101-134 | sanitising a tree twice is sanitising it once |
| `HwpReader.ReadSection` | app/core/file/hwp.py:73-113 | the loop appends the text of exactly the records `Records` reads, in order; of a written section of plain paragraphs it appends exactly these, each with its line end |
| `HwpReader.WrittenTextIsRead` | app/core/file/hwp.py:73-113 | the lines of a written section are the texts of its records of tag 67, in order and unchanged, where these consist of kept characters and show something |
| `HwpReader.CleanTextFilters` | app/utils/string.py:15-47 | cleaning goes character by character and keeps exactly the codes listed |
| `HwpReader.ReadRecord` | app/core/file/hwp.py:78-95 | a record is read only if it lies wholly inside the data, and reading moves on |
| `HwpReader.ReaderInvertsWriter` | app/core/file/hwp.py:73-113 | any list of records, in either size form, is read back as written |
| `HwpReader.WriterInvertsReader` | app/core/file/hwp.py:73-113 | on arbitrary bytes, what was read rewrites to the bytes consumed, and reading stopped where no record fits |
| `HwpReader.CutStream` | app/core/file/hwp.py:79-95 | cutting the data anywhere yields a prefix of the records |
| `HwpReader.CutWrittenStream` | app/core/file/hwp.py:79-95 | exactly the records that end before the cut |
| `HwpReader.CutTextIsPrefix` | app/core/file/hwp.py:97-111 | and a prefix of the text |
| `Evaluation.Dcg` | app/utils/evaluation.py:19-27 | the discounted sum |
| `Evaluation.OneHitScores` | app/utils/evaluation.py:19-27 | one relevance at place p, from 0, scores it divided by log2(p + 2) |
| `Evaluation.ScoresAddUp` | app/utils/evaluation.py:19-27 | and the score of a sum is the sum of the scores |
| `Evaluation.NdcgAtK` | app/utils/evaluation.py:30-44 | the quotient by the ideal order's sum |
| `Evaluation.MrrAtK` | app/utils/evaluation.py:47-58 | the reciprocal rank of the first hit among the first k, 0 iff there is none |
| `Evaluation.NdcgNormalised` | app/utils/evaluation.py:30-44 | with no more hits than relevant titles the score is in [0, 1], and 1 iff the front is all relevant |
| `Evaluation.NoOrderingExceedsOneIff` | app/utils/evaluation.py:30-44 | no ordering of the predictions scores above 1 iff the relevant ones among them, at most k, are no more than the relevant titles, at most k |
| `Evaluation.BestOrdering` | app/utils/evaluation.py:30-44 | no ordering scores above the one with the relevant predictions first |
| `Evaluation.NdcgOfDistinct` | app/utils/evaluation.py:30-44 | so it is for distinct predictions |
| `Evaluation.PromotionRaisesNdcg` | app/utils/evaluation.py:30-44 | moving a relevant title above an irrelevant one strictly raises the score |
| `Evaluation.RepeatedTitleExceedsOne` | app/utils/evaluation.py:39-44 | a relevant title predicted twice scores above 1 |
| `Tokens.TokenService.DecodeAccessToken` | app/core/security.py:197-218 | accepts iff genuine, unexpired, of the kind asked for and without row; a refusal stays one as time passes |
| `Tokens.TokenService.RevokeToken` | app/core/security.py:221-246 | when a token is revoked and the row that records it; it is refused from then on, and no token of another kind or id is told anything else |
| `Tokens.TokenService.CleanupExpired` | app/core/security.py:321-339 | throttled; exactly the rows past their expiry go, and no token that its rows outlive is told anything else |
| `Tokens.TokenService.RefreshAccessToken` | app/core/security.py:342-347 | a pair is minted exactly for a live refresh token, which is spent |
| `Tokens.RevokedStaysDead` | app/core/security.py:197-246 | in every run, a revoked token is never accepted again, cleaned up or not |
| `Tokens.MintsAtMostOnce` | app/core/security.py:342-347 | in every run of refreshes that do not overlap, a refresh token mints at most one pair |
| `Tokens.AcceptedIff` | app/core/security.py:197-246 | in every run, an expiring token with a kind and id of its own is accepted exactly if it is genuine, unexpired, of the kind asked for and never revoked or spent; a revocation takes effect exactly on such tokens with an id, and exactly refresh tokens among them mint a pair |
| `Tokens.CleanupIsInvisible` | app/core/security.py:321-339 | in every run, no clean-up changes what an expiring token with an id of its own is told |
| `Tokens.RevokedWithoutExpiryRevives` | app/core/security.py:230-233 | a signed token without expiry is accepted again after a clean-up |
| `TokenRaces.SecondPairOverlaps` | app/core/security.py:221-246 | in every run of overlapping refreshes and logouts, a second pair comes only from a session whose second decode preceded the first pair |
| `TokenRaces.MintsTwiceIff` | app/core/security.py:221-246 | in every run, a token mints twice iff a refresh accepted before the first pair looks while the row is there, or looked before and inserts after the row was purged |
| `TokenRaces.AloneMintsOnce` | app/core/security.py:342-347 | no second pair if no other refresh of the token is past its second decode when the first is minted |
| `TokenRaces.RefreshAlone` | app/core/security.py:342-347 | a refresh nobody gets in between with is a whole one: it mints exactly if its token is live and can be revoked, and leaves the tables as that revocation does |
| `TokenRaces.LogoutAlone` | app/core/security.py:221-246 | such a logout is one revocation |
| `TokenRaces.RowThereMintsAgain` | app/core/security.py:235-243 | a run from empty tables: the second refresh finds the row of the first and mints on it |
| `TokenRaces.PurgedRowMintsAgain` | app/core/security.py:321-339 | and one in which both look first and the row is purged before the second insert |
| `Otp.TruncationIsWord` | app/core/security.py:272-273 | the value is the low 31 bits of the big-endian word at the dynamic offset |
| `Otp.HotpIsRfc4226` | app/core/security.py:268-274 | exactly `digits` digits that spell it modulo 10^digits |
| `Otp.VerifyTotp` | app/core/security.py:281-292 | accepts exactly the codes of counters cur-drift..cur+drift, and none when cur < drift |
| `Otp.ShownCodeIsAccepted` | app/core/security.py:277-292 | a code is accepted for `drift` periods before and after it is shown, exactly if the clock has reached step `drift` |
| `NetMonitor.NetworkMonitor.HandleStateTransition` | app/services/system_service.py:993-1029 | the events one probe writes, those of them that are stored, and the remembered status |
| `NetMonitor.NetworkMonitor.Monitor` | app/services/system_service.py:993-1029 | the log and the statuses of any sequence of probes on any keys under any failures of event writes |
| `NetMonitor.WrittenFollowGrammar` | app/services/system_service.py:1009-1029 | the events written for a key spell finished outages and at most one open one, open exactly while its status is false |
| `NetMonitor.LogFollowsGrammarIff` | app/services/system_service.py:993-1029 | the stored ones spell the key's outages exactly when all were stored |
| `NetMonitor.LogTellsHistory` | app/services/system_service.py:1009-1029 | the outages are read back from the events |
| `NetMonitor.LogDecidesStatus` | app/services/system_service.py:1009-1029 | with all events stored, the log alone tells whether a key is up |
| `NetMonitor.PrimaryOutagesAreLost` | app/services/system_service.py:993-1072 | the log itself is on db:primary: of its outages only the recoveries are stored |
| `NetMonitor.PrimaryLogHidesOutages` | app/services/system_service.py:993-1072 | its log reads as up also during an outage and spells the outages only if there were none |
| `NetMonitor.FirstPrimaryOutage` | app/services/system_service.py:993-1072 | one failed probe of it: nothing is stored, the log reads as up, the status is false |

## Left out

- The HTTP routes other than pause and resume, the desktop tools, alembic scripts, PDF, Office and OCR extraction, HWPX, the OLE container and zlib around an HWP section.
- OpenSearch, SQL, SMB and SFTP themselves: the index is a map, tables are rows, a walk is a sequence of entries, reading and extracting are functions that may fail. The digest, the MAC, the embedding model and UTF-16 decoding are parameters.
- Time stamps kept for display (`indexed_at`, `last_seen_at`, `updated_at`, `last_synced_at`), sync history rows, `last_error` of sources, the refresh of the index, log output.
- Jobs whose row, source or target volume is missing, or whose source is not configured: they fail before any state modelled here changes.
- `DbScan.RowsToItems`: column values are NULL, text, integers, or other values with their text and truth; a row whose conversion raises is not modelled.
- `CursorCodec.CursorRoundTrip`: naive datetimes in the two layouts isoformat writes; time zones and the other spellings that fromisoformat and int accept are not modelled. Rows whose cursor column is NULL are the subject of `DbStall.RoundAdvancesIff` and excluded elsewhere.
- `DbRuns.InterruptionsMakeNoDifference`: the table does not change while the job runs, cursor values are distinct and not NULL, primary keys are present and distinct and the listing is within the row cap, as the design presupposes. An attempt whose promotion fails counts as one that died before it.
- `FileAgreement.AgreesIff`: the hash is injective and the paths of a walk are distinct; files do not change while a job runs.
- `FileOverlaps.NoFileLeftBehind`: for walks in increasing order and files that stay as they are over the attempts, and runs in which every overwrite finds nothing pending; without the last it is false (`FileOverlaps.FileIsLostIff`).
- `FileResume.LowerCaseOrderIncreasesIff`: str.lower is any function on strings.
- `FileScan.FinalStateOf`: the state table is a map by path. Times are compared in UTC; of the columns' widths those of path, hash and document id are modelled.
- `SmbJob.SmbJobProcessor.ProcessSmbJob`: the local variables of the function are fields of the class and its loop body is split into methods, `HandleFile` to `FlushRest`; the failure of the final overwrite itself is not modelled there; in `FileOverlaps` it is an attempt finalised without one.
- `SearchIndex.IndexingService.IndexBulk`: the extension is always given by the caller, a response has one entry per action, and a bulk call that raises is taken to have written nothing.
- `QueueLaws.AtMostOneActiveIff`: a renewal and a finalize are one UPDATE each and so one step; rows are never deleted; a late write of a pause or resume changes the columns whose loaded values differ, as the object mapper does.
- `QueueLaws.ClaimsAreSeparated`: says nothing about claims of running jobs on the optimistic path, where it is false (`QueueRaces.LapsedJobIsClaimedTwice`); renewals are taken from whoever makes them, so a worker whose lease lapsed can still extend it.
- The polling loop's back-off and the dispatch to handlers (app/services/worker_service.py:154-171, 306-332).
- `Tokens.MintsAtMostOnce`: no other operation comes between the statements of a refresh; `TokenRaces.MintsTwiceIff` is about those that overlap, for expiring tokens with ids of their own. A clean-up whose deletion fails is not modelled.
- `Chosung.HighlightIsExact`: the page number next to the snippet, and `manual_text_highlight`, whose lower-casing can change the length of the text.
- `Sanitizer.SanitizedTree`: keys are strings; lone surrogates and undecodable bytes are already dropped.
- `Evaluation.NdcgNormalised`: log2 is any strictly increasing function with value 1 at 2 and scores are reals; rounding is not modelled.
- `HwpReader.ReadSection`: what is decoded from the bytes of one paragraph is a parameter.
- The order in which SMB and SFTP clients walk directories.
