# go-drive-etl in Dafny

A model of the data plane of go-drive-etl, and proofs about it. The ETL lists a Google Drive
folder, registers the files in a state store (Firestore or PostgreSQL), processes the pending
ones with five concurrent workers, appends the chunks of Markdown files to an append-only
BigQuery table, and publishes them through SQL views: `chunks_current`, Silver, the Gold marts
and `retro_documents`. The marts are delivered as CSV files to a Drive folder and verified there.

`dafny verify dfyconfig.toml` checks the whole project.

## What is proved

- **The chunk log.** The two-stage window query of `chunks_current` over any bag of rows has as
  its results exactly the bag that shows, once each, the rows of every file's newest landed
  batch; ties of `ROW_NUMBER`, landing order, retries and late landings do not matter
  (`ChunkLog`, `ChunkBatches`, `LoadRetry`).
- **The worker pool** as a step relation in which every external call may fail with or without
  having taken effect: conservation of files, absence of deadlock, termination, and an exact
  account of failures; a run without cancellation in which no call fails for good can always be
  completed, and then succeeds (`WorkerPool`).
- **Whole histories** of runs, Drive edits, crashes and late loads over one store: an honest
  `done`, the exact condition under which the view shows the current documents, and progress: a
  run that passes and repairs the view can always be had (`Pipeline`, `StaleDone`, `Completion`,
  `EndToEnd`).
- **The parsers**: the Markdown chunker, the `# YYYYMM-N` label, and the sprint periods by the
  N-th Monday of a month, on the proleptic Gregorian calendar of section 5.7 and Appendix C of
  RFC 3339, with full-dates as in its section 5.6 (`Markdown`, `RoundTrip`, `RetroLabels`,
  `Decimal`, `Calendar`, `Sprints`).
- **The two state stores** keep the same records and answer alike (`FileStore`).
- **The Gold marts and their verifier**: the counts decide equality of bags, the marts are
  determined by Silver, and the refresh-and-export workflow succeeds exactly when it should
  (`GoldMarts`, `RetroDocuments`, `GoldDelivery`).

## Where a stated property fails

Convergence after *every* history is false of the code. When the upsert of a file fails, the run
still starts the pool (cmd/worker/main.go:107-123). A file that was pending before is then
downloaded with its new content and marked `done` under the old record, whose checksum is the one
of the old content. If the edit is undone in Drive, the next registration finds the record up to
date (internal/repository/firestore_repository.go:59-63), queues nothing, and the run passes,
while the view still shows the undone edit. `StaleDone.PassedButStale` builds that history for any
two documents, and `StaleDone.StaleView` shows what the view then displays.
`Pipeline.ViewConvergesExactly` gives the exact condition, after any history whose last run passed:
the view displays the current document of a discovered file if and only if the file was due before
the run (forced, unknown, pending, or not up to date in the store), or its newest batch had
downloaded the content whose checksum the record carried, or both documents are blank. The record
can be read before the run, and a worker could check the second part right after the download,
since it holds both the bytes and `file.Checksum`. Two consequences: a run with `REPROCESS_ALL`
that passes always repairs the view (`Pipeline.ForcedRunConverges`), and all is well for histories in
which no run downloads a file after failing to register it, the guard of the branch that goes wrong
(`Pipeline.ConvergenceOfRegisteredHistory`).

A Markdown document does not always survive aggregation by `retro_documents` and parsing again:
a section that is a bare `# ` is trimmed to `#`, which is no heading
(`RoundTrip.BareHeadingLost`). `RoundTrip.AggregateRoundTrip` states for every document exactly when
it does.

Where the code and its documentation disagree, the model follows the code. The status
`processing` of README.md:119 is never written. A failed forced requeue does not end the run before
the pool, as docs/retro-metadata.md:48 says; it is counted and reported after the pool
(cmd/worker/main.go:112-128).

## Assumptions

- One worker process runs at a time, and Drive changes only between runs.
- SHA-256 and MD5 are functions without collisions; `WorkerPool` and the store need neither.
- The chunker and the label parser stay the same functions over the life of the log, so that
  batches of one content have equally many rows; the sprint policy may change between runs.
- The ingestions of one file take strictly increasing times (`ingested_at`).
- A load job lands whole. A job that reported an error may have landed, may land at any later
  moment, or never; a job that reported success has landed.
- Ties of `ROW_NUMBER`, `ANY_VALUE`, `ORDER BY` and `STRING_AGG` are broken arbitrarily, and the
  results are shown not to depend on it.
- Rows without a `content_version` may be in the `chunks` table from before the column existed.
- Results about Markdown files go by the recorded MIME type: neither store queues a file again for
  a change of MIME type alone.
- The `chunks` table keeps its rows. Its dataset expires tables after 60 days
  (iac/bigquery.tf:4-6), after which the documents of `done` files would leave the view.
- The export folder holds at most one file and no folder of each CSV name, where delivery is
  claimed to succeed (Drive may refuse new content for a folder, and `ListFiles` would not list it:
  `GoldDelivery.FolderBlocksDelivery`); Silver's rows of one file share their version, which
  `GoldMarts.SilverAgrees` derives from the view.

## Model

| member | source | states |
|---|---|---|
| Markdown.HeadingForm | internal/parser/md.go:52-62 | a heading is exactly one or more `#` and then a blank, whatever follows |
| Markdown.IsHeading | internal/parser/md.go:52-62 | the loop recognises exactly the headings |
| Markdown.SplitMarkdownSections | internal/parser/md.go:31-50 | the in-place accumulation of lines yields the trimmed non-blank groups of the reference partition |
| Markdown.SplitLongChunk | internal/parser/md.go:64-79 | the cutting loop yields the pieces of PiecesSpec for any positive maximum |
| Markdown.Parse | internal/parser/md.go:17-29 | sections in order, each cut at 4000 runes, none lost or swapped |
| Markdown.ReplaceAt | internal/parser/md.go:32 | a CR LF becomes one line feed wherever it stands, and the texts around it are treated on their own |
| Markdown.ChunksOfWindowsText | internal/parser/md.go:32 | a document has the same chunks with line feeds and with CR LF line ends |
| Markdown.PiecesSpec | internal/parser/md.go:64-79 | pieces concatenate to the section; there are ceil(n/max); all but the last have exactly max runes; none is empty unless the section is |
| Markdown.ChunkLimit | internal/parser/md.go:9 | a section of up to 4000 runes is one chunk, a longer one is cut after 4000 |
| Markdown.GroupsPartition | internal/parser/md.go:31-44 | the line groups are a partition of the lines, cut exactly before every heading after line 0 |
| Markdown.ChunksConserveContent | internal/parser/md.go:17-79 | for every document, the chunks' concatenation and the document are equal after deleting white space |
| Markdown.ChunksEmpty | internal/etl/worker_pool.go:171-183 | no chunk, hence a tombstone, exactly for an all-white-space document |
| Markdown.ChunksHaveNoInnerHeading | internal/parser/md.go:31-62 | no chunk has a heading on any line but its first, also where a long section was cut |
| RoundTrip.AggregateRoundTrip | iac/silver_gold.tf:56 | for every document, parsing the joined chunks again gives the same chunks if and only if the aggregate holds no CR LF, every chunk is trimmed, and every chunk after the first opens with a heading |
| RoundTrip.ShortDocumentRoundTrip | iac/silver_gold.tf:56 | a document without carriage returns and sections over 4000 runes comes back if and only if every section after the first opens with a heading |
| RoundTrip.BareHeadingLost | internal/parser/md.go:36-48 | the document `a`, line break, `# ` is such a failure: its chunks are `a` and `#`, and they do not come back |
| RetroLabels.ExtractRetroLabel | internal/parser/retro_metadata.go:68-89 | the scan decides by the first non-blank line alone, as PrintExtracted and ExtractPrinted characterise it |
| RetroLabels.ExtractPrinted | internal/parser/retro_metadata.go:64-89 | a printed label is extracted again from any document with optional BOM, blank lines, trailing blanks and any rest, for years 1 to 9999 and sequences 1 to 2^31-1 |
| RetroLabels.ExtractWindowsTitle | internal/parser/retro_metadata.go:69-75 | a label after U+FEFF and before a blank, a tab and CR LF is extracted |
| RetroLabels.PrintExtracted | internal/parser/retro_metadata.go:64-89 | conversely an extracted label is in range and prints to the trimmed first non-blank line |
| RetroLabels.MonthOrder | internal/parser/retro_metadata.go:44 | the string comparison of months is chronological |
| Decimal.PaddedOrder | internal/parser/retro_metadata.go:44 | on zero-padded numerals string order is numeric order |
| Calendar.DayNumberOrder | internal/parser/retro_metadata.go:53-56 | the day number orders valid dates and tells them apart |
| Calendar.DaysBeforeYearClosed | internal/parser/retro_metadata.go:53-56 | days before a year are 365 per year plus the Gregorian leap days |
| Calendar.FormatReads | internal/parser/retro_metadata.go:61 | the formatted date is a full-date whose digits read as the year, month and day |
| Calendar.FormatOrder | internal/parser/retro_metadata.go:61 | full-dates up to year 9999 compare as strings as the dates do |
| Sprints.PolicyAccepts | internal/parser/retro_metadata.go:30-39 | the accepted start months are exactly the empty one and YYYY-MM of 0001 to 9999, and the policy keeps the one it was given |
| Sprints.PeriodOfLabel | internal/parser/retro_metadata.go:43-62 | a label from the start month on has a period if and only if its month has an N-th Monday and the week ends by 9999; the period starts on that Monday, counted |
| Sprints.PeriodShape | internal/parser/retro_metadata.go:43-62 | every period is of a well-formed label not before the start month; its two strings read as the N-th Monday of the month and the Sunday after |
| Sprints.NoPeriod | internal/parser/retro_metadata.go:44 | the empty start month switches periods off, and without a label there is none |
| Sprints.FifthPeriod | internal/parser/retro_metadata.go:57-60 | the fifth period is missing exactly when the month has fewer than five Mondays |
| Sprints.SprintTiling | internal/parser/retro_metadata.go:43-62 | a date is covered by some label exactly from the first Monday of the start month through 9999-12-26, and by one label only |
| Sprints.SprintOrder | internal/parser/retro_metadata.go:43-62 | labels are in (month, sequence) order if and only if one period ends before the other starts |
| ChunkLog.ViewRefinement | iac/bigquery.tf:134-162 | the possible results of the two-stage window query are exactly the bag with the rows of each file's newest landed load, tombstones dropped |
| ChunkLog.LatestIsNewest | iac/bigquery.tf:134-146 | the first window picks the version of the newest load, also after a return to an earlier version |
| ChunkLog.KeptIsNewest | iac/bigquery.tf:147-155 | whatever row a tie picks, the second window keeps a row of the newest load among those of its version |
| ChunkLog.DeduplicatedExists | iac/bigquery.tf:147-155 | the deduplicating window always has a result |
| ChunkLog.ViewExists | iac/bigquery.tf:134-162 | over every table the writers can have made the view has a result, and only one |
| ChunkLog.RetriesInvisible | iac/bigquery.tf:147-155 | the view depends only on which loads landed, not on their order or number |
| ChunkLog.LateLandingInvisible | iac/bigquery.tf:134-162 | an older load that lands after a newer one changes nothing |
| ChunkBatches.BuildRows | internal/etl/worker_pool.go:116-183 | the append loop builds one row per chunk in order, with the document's label and period, or one tombstone |
| ChunkBatches.TombstoneSpec | internal/etl/worker_pool.go:171-183 | the tombstone of a blank document is chunk 0, empty and deleted, with the file's name and URL and without label and period |
| ChunkBatches.CurrentRowsSpec | internal/etl/worker_pool.go:125-170 | visible rows are the chunks at indices 0 to n-1 under the file's name and Drive URL, none exactly for a blank document |
| ChunkBatches.BatchView | iac/bigquery.tf:134-162 | over any table the workers can have written, legacy rows included, a file shows the chunks of its newest landed batch once each and nothing else |
| ChunkBatches.OneVersionPerFile | iac/bigquery.tf:140-162 | all rows the view shows of a file share one content_version and one ingested_at |
| ChunkBatches.RepeatedLanding | iac/bigquery.tf:147-155 | one landing of a batch and any larger number give the same view |
| LoadRetry.InsertRowsWithRetry | internal/etl/worker_pool.go:254-298 | for any maximum: nil if and only if some attempt succeeds after retryable failures only; at most the maximum of calls; early stops only on a done context, a final error or an interrupted wait; the error returned; doubling waits; what was appended |
| LoadRetry.RetryableCodes | internal/etl/worker_pool.go:300-316 | exactly the server errors 500, 502, 503 and 504 are worth a retry |
| LoadRetry.InsertChunks | internal/etl/worker_pool.go:33-36 | as the workers call it: a 404 ends it after one call, a 503 and then a success after two and one second, three 503s after three calls, one and two seconds apart |
| LoadRetry.TotalWait | internal/etl/worker_pool.go:278 | the waits sum to at most (2^(N-1) - 1) initial delays |
| LoadRetry.RetryView | internal/etl/worker_pool.go:250-298 | however often the attempts landed, the view is that of one landing, or of none |
| FileStore.FirestoreFileRepository.Upsert | internal/repository/firestore_repository.go:42-67 | the transaction leaves an up-to-date record alone and otherwise writes the whole record as pending, touching no other record |
| FileStore.FirestoreFileRepository.UpdateStatus | internal/repository/firestore_repository.go:81-87 | changes the status of that record only, and reports a missing document |
| FileStore.FirestoreFileRepository.ListPending | internal/repository/firestore_repository.go:90-130 | lists every pending record once and no other |
| FileStore.SqlFileRepository.Upsert | internal/repository/file_repository.go:24-43 | the records of the table become what the Firestore upsert makes of them, and IDs stay unique |
| FileStore.SqlFileRepository.UpdateStatus | internal/repository/file_repository.go:45-51 | the same for a status update, which is silent about an unknown ID |
| FileStore.SqlFileRepository.ListPending | internal/repository/file_repository.go:53-73 | lists every pending row once and no other |
| FileStore.SqlUpsertAgrees | internal/repository/file_repository.go:27-39 | `ON CONFLICT ... WHERE` on rows and the Firestore transaction on documents give the same records |
| FileStore.BackendsAgree | internal/repository/file_repository.go:14-18 | for every sequence of calls both stores hold the same records and reply alike, except for the error on an unknown ID |
| WorkerPool.LoadStagesRetry | internal/etl/worker_pool.go:254-298 | the worker's check, insert and wait stages reach the metadata load exactly when InsertRowsWithRetry returns nil |
| WorkerPool.StepInv | internal/etl/worker_pool.go:80-247 | every step of dispatcher, workers and environment keeps the channel, worker, fate, counter and result invariants |
| WorkerPool.Conservation | internal/etl/worker_pool.go:68-114 | in every reachable state each listed file is in exactly one place, held by one worker at most, the queue holds at most 100 and none twice, no file is taken a second time, and a file is dropped only after cancellation |
| WorkerPool.NoDeadlock | internal/etl/worker_pool.go:80-92 | until Run returns some step of the program is enabled; with a full queue and no worker left the context is cancelled and the dispatcher can abort or close |
| WorkerPool.StepDecreases | internal/etl/worker_pool.go:221-247 | every step lowers the measure, those of the environment included |
| WorkerPool.RunTerminates | internal/etl/worker_pool.go:221-247 | no run is longer than the measure of its first state |
| WorkerPool.ExactAccounting | internal/etl/worker_pool.go:69-78 | failed status updates never outnumber failed files; nil exactly when uncancelled and every file has an acknowledged done; otherwise, uncancelled, the count reported is exactly the number of files without one |
| WorkerPool.RunCounts | internal/etl/worker_pool.go:69-78 | over every run the two counters are the numbers of failed files and of failed status updates that happened in it |
| WorkerPool.FailedStage | internal/etl/worker_pool.go:107-113 | a failed download, load or metadata load is counted and marked as failed, unless the context is cancelled: then the worker leaves and marks nothing |
| WorkerPool.DownloadEffect | internal/etl/worker_pool.go:116-145 | exactly the downloads of text/markdown files are ingested, with the run's policy, the current content, and the name and checksum of the record |
| WorkerPool.SmoothRunSucceeds | internal/etl/worker_pool.go:228-247 | a finished run without cancellation and without a call that fails for good returned nil with a done for every file |
| WorkerPool.SmoothRunExists | internal/etl/worker_pool.go:80-247 | from every such state, with the listed files still in Drive, a smooth run leads to the end |
| Pipeline.RegisterAll | cmd/worker/main.go:98-117 | failures are counted and skipped; none is counted exactly when every upsert, and every reset of a forced run, was acknowledged; every acknowledged file of a listing without contradictory entries then has Drive's name and checksum in its record |
| Pipeline.RegistrationLoop | cmd/worker/main.go:98-117 | the registration events of a history do to the store and the counter what that loop does |
| Pipeline.RegistrationWrites | cmd/worker/main.go:100-107 | an acknowledged upsert of a file that was absent, failed or not up to date writes the name, checksum and MIME type that Drive reports, and pending |
| Pipeline.EventKeeps | cmd/worker/main.go:93-129 | every event of a history keeps the invariant of store, log and running pool |
| Pipeline.HistoryKeeps | cmd/worker/main.go:93-129 | hence it holds after every history |
| Pipeline.HonestStore | internal/etl/worker_pool.go:71-78 | after any history a done record has its metadata load and, if Markdown, its newest batch ever built has landed under its name; any other record is pending or failed, so that the next listing or registration queues it |
| Pipeline.FailureRecorded | internal/etl/worker_pool.go:71-78 | in every reached state a file that failed is recorded as failed unless its status update did, a completed one as done, and a dropped one is still pending |
| Pipeline.PassedSettles | cmd/worker/main.go:118-129 | a run that got past the pool without error had every discovered file acknowledged and its pool succeed |
| Pipeline.SucceededDelivers | internal/etl/worker_pool.go:215-247 | when the pool has succeeded every listed record is done, and none pending |
| Pipeline.ConvergenceExactly | cmd/worker/main.go:93-129 | after a passed run a discovered Markdown file's newest batch landed under its current name, and has the current content if and only if the file was due before the run or the batch matched the recorded checksum |
| Pipeline.ViewConvergesExactly | cmd/worker/main.go:93-129 | the view displays exactly the current document if and only if one of those holds or both documents are blank |
| Pipeline.SettledViewExactly | cmd/worker/main.go:93-129 | the same for a single acknowledged file, also when other registrations failed: current if and only if the run queued it, its newest batch matched its record, or both documents are blank |
| Pipeline.ForcedRunConverges | cmd/worker/main.go:111-117 | after any history, a passed run with REPROCESS_ALL leaves every discovered Markdown file displayed as it is now |
| Pipeline.MarkdownInDriveConverges | cmd/worker/main.go:93-129 | after any history: a file that Drive lists as text/markdown, and that was absent, failed or not up to date before a run, is displayed as it is now once that run has passed |
| Pipeline.OtherTypesStayOut | internal/etl/worker_pool.go:116 | over any history, a file that Drive never lists as text/markdown never gets a batch, and the view shows nothing of it |
| Pipeline.ViewPeriod | internal/etl/worker_pool.go:117-118 | what the view shows of a file that the run processed has the label of its current content and the period under the policy the run began with |
| Completion.RunCompletes | cmd/worker/main.go:93-129 | from every state a history reaches between runs, with the pending files still in Drive, a run over any of Drive's files can pass, and then no record is pending and every discovered one done |
| Completion.RepairExists | cmd/worker/main.go:111-117 | hence from every such state some run makes the view show all given Markdown files as they are now |
| Pipeline.MatchingIngestions | internal/etl/worker_pool.go:94-145 | over a history of matching downloads every batch matches its recorded checksum |
| Pipeline.RegisteredDownloadMatches | cmd/worker/main.go:98-123 | a run downloads, of a file it has registered, the content that the store recorded |
| Pipeline.ConvergenceOfRegisteredHistory | cmd/worker/main.go:93-129 | convergence for all histories in which no run downloads a file after failing to register it |
| StaleDone.PassedButStale | cmd/worker/main.go:107-128 | for any two documents a history whose last run passes although the newest batch is the older document |
| StaleDone.StaleView | internal/repository/firestore_repository.go:59-63 | the view then displays that document, and not the current one unless both are blank |
| GoldMarts.CountsDecide | internal/goldverify/query.go:36-49 | two empty EXCEPT DISTINCT directions and equal counts hold exactly for equal bags, because one side has no duplicates |
| GoldMarts.GoldDecision | internal/goldverify/counts.go:5-12 | GoldMatches on the comparison's counts is true if and only if both tables are, as bags, Silver's aggregates, and Silver is not empty or may be |
| GoldMarts.CountsByName | internal/goldverify/query.go:40-49 | every count stands under its own column name, and a difference is 0 exactly when no row is missing on that side |
| GoldMarts.LatestDetermined | sql/refresh_gold_marts.sql:24-33 | the query of mart_file_latest has one result exactly when the rows of each file share their version |
| GoldMarts.DailyRowCounts | sql/refresh_gold_marts.sql:11-19 | each column of a daily row counts, or sums, exactly Silver's rows of that date: files, chunks, lengths, embedded and pending |
| GoldMarts.LatestRowCounts | sql/refresh_gold_marts.sql:24-33 | the same for a row of the latest mart and Silver's rows of that file |
| GoldMarts.LatestRowNewest | sql/refresh_gold_marts.sql:26-27 | its version is one of the file's, and its time the greatest |
| GoldMarts.SilverSpec | iac/silver_gold.tf:21-37 | Silver's date is the day in Tokyo, nine hours ahead of UTC; embedded means completed; the length is that of the content |
| GoldMarts.NothingEmbedded | internal/etl/worker_pool.go:133 | over any log the workers can have written, every chunk counts as pending and none as embedded in both marts |
| GoldMarts.TotalsAgree | internal/goldverify/query.go:26-35 | summed over the rows of the daily mart, and of any result of the latest query, the chunk, length, embedded and pending columns give Silver's totals, and embedded plus pending is the chunk count |
| GoldMarts.FileCountsSum | internal/goldverify/query.go:50 | the file_count column of the daily mart's rows sums to the number of files if and only if every file has one date |
| GoldMarts.MartsWellDefined | sql/refresh_gold_marts.sql:9-34 | over any log the workers can have written the latest query has one result and the daily mart's file_count sums to the number of files |
| RetroDocuments.DocumentRows | iac/silver_gold.tf:53-73 | the rows of a file in chunk order are those of its newest landed batch |
| RetroDocuments.DocumentOfBatch | iac/silver_gold.tf:53-85 | the aggregated contents are that batch's chunks in order and the metadata row is its first chunk, whatever ties do |
| GoldDelivery.OneAnswer | internal/bq/client.go:64 | ORDER BY 1 leaves a single answer when column 1 is a key |
| GoldDelivery.LatestIsKeyed | internal/bq/client.go:64 | the file ID is such a key of mart_file_latest |
| GoldDelivery.ExportsAscend | internal/bq/client.go:64 | both exports ascend, by date and by file ID |
| GoldDelivery.CheckPasses | internal/goldverify/verify.go:26-47 | two exports of refreshed marts always pass the check against each other, unless Silver is empty and must not be |
| GoldDelivery.CheckCSVErrors | internal/goldverify/verify.go:26-47 | which error is reported: unreadable, then the column count, then the mismatch |
| GoldDelivery.UpsertedSpec | internal/drive/client.go:62-78 | exactly one file of the name remains, with the ID it had, and other names are untouched |
| GoldDelivery.GoldService.Refresh | sql/refresh_gold_marts.sql:9-34 | on success both tables hold Silver's aggregates |
| GoldDelivery.GoldService.ExportTableCSV | internal/bq/client.go:59-118 | the export holds the table's rows, as a bag, in order of column 1 |
| GoldDelivery.GoldService.UpsertFile | internal/drive/client.go:62-78 | replaces the content of one same-named entry or adds a file with a new ID; on failure it did that or nothing |
| GoldDelivery.GoldService.ListFiles | internal/drive/client.go:85-124 | over any pages, the entries of the folder that are no folders, in order |
| GoldDelivery.GoldService.Export | internal/goldreport/export.go:16-31 | in a tidy folder each table ends up in exactly one file, with its contents and the ID it had |
| GoldDelivery.GoldService.CountNamed | internal/goldverify/verify.go:59-65 | the inner loop counts the files of the name and ends with the last of them |
| GoldDelivery.GoldService.CheckDrive | internal/goldverify/verify.go:50-91 | passing means each table is in exactly one listed file with its contents and the previous ID; with refreshed marts and no API error that is also enough |
| GoldDelivery.GoldService.Rounds | cmd/verify_gold/workflow.go:78-97 | two rounds in mutating mode, the second against the IDs of the first; files that existed keep their IDs |
| GoldDelivery.GoldService.Verify | cmd/verify_gold/workflow.go:62-103 | success means refreshed and delivered marts; a refreshing run on an idle system with a tidy folder always succeeds; a verify-only run changes nothing and, without API errors, succeeds exactly on that condition; the report names the failed stage |
| GoldDelivery.FinalReport | cmd/verify_gold/workflow.go:28-103 | in every report a run ends with, exactly the stages that the flags exclude are not requested, the run failed exactly if a stage did, no stage ran after a failed one, and otherwise every requested data stage passed |
| GoldDelivery.ReportsStop | cmd/verify_gold/workflow.go:47-103 | marking stages one by one gives a report with the requested earlier stages passed, one failed and the later ones not run |
| EndToEnd.DocumentOfPassedRun | iac/silver_gold.tf:53-85 | after a passed run the retro document of a discovered Markdown file has the chunks of its current content, and is missing exactly for blank content, if the file was due before the run or its newest batch matched its record; a document that is there carries the current digest if and only if so; it always carries the current name |
| EndToEnd.DocumentOfSettledFile | iac/silver_gold.tf:53-85 | the same for a single acknowledged file, by whether the run queued it |
| EndToEnd.DocumentOfForcedRun | iac/silver_gold.tf:53-85 | after any history a passed forced run leaves the current document |
| EndToEnd.MartsOfHistory | sql/refresh_gold_marts.sql:9-34 | after any history whatever, Silver determines both marts and the daily mart's file_count sums to the number of files |
| EndToEnd.VerifyAfterHistory | cmd/verify_gold/workflow.go:62-103 | over the Silver of any history whatever, a refreshing run without API failures on a tidy folder succeeds and leaves both marts delivered with stable IDs |

## Left out

- WorkerPool: the pool is a step relation on values instead of goroutines over shared objects; a step is one channel operation, external call, counter update or context check, and each `select` is an arbitrary choice among its ready branches.
- Pipeline.ConvergenceOfRegisteredHistory: one direction, in terms of whole histories; a file that failed to register may still be downloaded unchanged, so the converse does not hold.
- GoldDelivery.FolderBlocksDelivery: whether Drive accepts new content for a folder entry is not part of this model; the statement is about upserts that succeed.
- LoadRetry.InsertRowsWithRetry: errors are a flat enumeration, without Go's wrapping and joining, and delays are unbounded integers.
- ChunkBatches.BuildRows: the chunk index is not truncated to 32 bits, which needs a document of more than 2^31 chunks.
- Markdown.Parse: the error of a failed read is left out; the worker parses from memory, where reading cannot fail.
- FileStore.SqlFileRepository.Upsert: the SQL statement is a function on the rows, since the source holds no loop for it.
- GoldDelivery.GoldService.Verify: error codes, counts and per-file results of the report are left out; the counts are keyed by an enumeration instead of column names, without the two dashboard columns, which GoldMarts.FileCountsSum and GoldMarts.TotalsAgree describe.
- A status update or upsert that reports an error and takes effect only after later calls; it takes effect at once or not at all.
- Late landings of `drive_files` loads: the table is only shown to hold the row of every done file, however many times.
- Errors of `ListFiles`, `ListPending` and `NewSprintPolicy` at the start of a run: they end the run, which the history's stop event covers.
- Which export format a Workspace file is downloaded in (internal/etl/worker_pool.go:27-31): the downloaded content is what Drive holds for the file.
- Invalid UTF-8, which long sections would replace: texts are rune sequences.
- CSV quoting and JSON encoding: a rendered table is an injective constructor that the reader inverts.
- Network and cloud clients, OAuth, environment loading, Sentry, logging and signals: an external call succeeds or fails, with or without effect.
- `updated_at` stamps, the text of SQL statements and identifiers (`Validate`, `driveQueryLiteral`, back-quoting), IAM, Terraform state and migration scripts, mocks and dashboards: no state or arithmetic of interest.
