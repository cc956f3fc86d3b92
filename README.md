# resume-rag core, modelled in Dafny

resume-rag ingests folders of candidate resumes (PDF/DOCX) into PostgreSQL and a FAISS
vector store, then lets HR staff filter candidates, chat about them and send templated
e-mails. Each ingestion session is recorded in an `ingestion_progress` table. A background
worker runs the session: it processes candidates, checks for a stop request and writes a
summary and a log path back into the session's metadata.

This project models that core in Dafny:

- **Progress ledger.** `ProgressTracker` holds the ingestion progress table as a class over a
  `map` of rows. Its methods are start, update, finish, stop, archive and metadata updates,
  each proved against a function on the rows.
- **Ingestion worker.** `IngestWorker` covers the log-file name, the stop check, the metadata
  write-back and the worker's log and exception flow.
- **Candidate ingestion.** `IngestAll` splits files into metadata and normal resumes and
  collects summary lines over any completion order of the thread pool.
- **Ingestion helpers.** `IngestionHelpers` covers text chunking, month buckets, the
  normalisers for university, part/full time and salary, and the FAISS metadata store.
- **Normal-resume path.** `IngestNormal` covers the section merge, the summary paragraph,
  `safe_parse_json`, skill category scoring with its top-k and the category-score upserts.
- **Metadata path.** `IngestPg` covers the field extraction page loop and the folder loop
  that upserts `resumes_metadata` rows.
- **Backend helpers.** `BackendHelpers` covers the file-name match cascade, the comparative
  reranking merge and e-mail intent detection.
- **Model client.** `ModelClient` builds the chat payload sent to the vision-language model
  endpoint.
- **E-mail.** `EmailService` covers service construction, template rendering and the
  send-template flow. `EmailUi` is the pending-e-mail state machine of the chat page.
- **PDF server.** `PdfServer` covers the names and URLs of uploaded PDFs, and deleting a file
  through its URL.
- **Ingest page.** `IngestUi` covers the filter query builder, the two-file selection check
  and the log display.

`Strings`, `Paths`, `Json`, `StableSort` and `Wrappers` hold the Python string, path, JSON
and sorting semantics the rest relies on: `str.strip`, `split`, `replace`, `splitlines`, `int()`,
`os.path`, `pathlib` names and the stable `sorted`.

Database reads, model replies, file listings, clocks and filesystem outcomes are parameters
of the model. Where an operation mutates a table, a dict or a store, it is a class method with
`modifies`, and it is specified by a function on the old state. The lemmas prove the
properties the code promises about those functions.

## Model

| member | source | states |
|---|---|---|
| ProgressTracker.Start | resume_analyzer/backend/progress_tracker.py:33-58 | the session's row becomes RUNNING with the given total, nothing processed, no errors and the metadata or {}; other sessions are untouched; a restarted session keeps its current file because the upsert omits it |
| ProgressTracker.Update | resume_analyzer/backend/progress_tracker.py:121-136 | counters and current file are set; status, total and metadata are kept; exactly one error is appended when the error is non-empty; an unknown session changes nothing |
| ProgressTracker.Finish | resume_analyzer/backend/progress_tracker.py:141-148 | only the status and update time of that session change, whatever the previous status |
| ProgressTracker.Stop | resume_analyzer/frontend/ingest_ui.py:308-319 | the Stop button's UPDATE: ARCHIVED with "Stopping gracefully..." as current file, nothing else changes |
| ProgressTracker.Archive | resume_analyzer/frontend/ingest_ui.py:260-281 | clearing a completed session sets ARCHIVED and nothing else |
| ProgressTracker.SetMetadata | resume_analyzer/ingestion/ingest_worker.py:197-216 | `jsonb_set` replaces one metadata key of one row and nothing else |
| ProgressTracker.Progress | resume_analyzer/backend/progress_tracker.py:63-88 | the stored row or None for an unknown session |
| ProgressTracker.StartThenProgress | resume_analyzer/backend/progress_tracker.py:33-88 | after a start the session reads back RUNNING, with nothing processed, no errors and the given total, whatever was stored before |
| ProgressTracker.ErrorsAccumulate | resume_analyzer/backend/progress_tracker.py:125-130 | reported errors stay, and the error count grows by one per non-empty error |
| ProgressTracker.StopEndsRunning | resume_analyzer/frontend/ingest_ui.py:308-319 | a stopped session is seen as a stop request and is no longer RUNNING |
| ProgressTracker.Ledger.StartIngestion | resume_analyzer/backend/progress_tracker.py:33-58 | the table afterwards is `Start` of the table before |
| ProgressTracker.Ledger.UpdateProgress | resume_analyzer/backend/progress_tracker.py:121-136 | the table afterwards is `Update` of the table before |
| ProgressTracker.Ledger.FinishIngestion | resume_analyzer/backend/progress_tracker.py:141-148 | the table afterwards is `Finish` of the table before |
| ProgressTracker.Ledger.RequestStop | resume_analyzer/frontend/ingest_ui.py:308-319 | the table afterwards is `Stop` of the table before |
| ProgressTracker.Ledger.ArchiveSession | resume_analyzer/frontend/ingest_ui.py:260-281 | the table afterwards is `Archive` of the table before |
| ProgressTracker.Ledger.SetMetadataKey | resume_analyzer/ingestion/ingest_worker.py:197-216 | the table afterwards is `SetMetadata` of the table before |
| ProgressTracker.Ledger.GetProgress | resume_analyzer/backend/progress_tracker.py:63-88 | returns the stored row or None, and changes nothing |
| ProgressTracker.Ledger.GetAllActiveSessions | resume_analyzer/backend/progress_tracker.py:91-119 | exactly the RUNNING rows, each once, newest start first |
| IngestWorker.TimestampShape | resume_analyzer/ingestion/ingest_worker.py:126 | a four-digit-year stamp is 15 characters: 8 digits, '_', 6 digits |
| IngestWorker.LogFilePath | resume_analyzer/ingestion/ingest_worker.py:121-127 | the log file lies in `ingestion_logs` beside the root folder |
| IngestWorker.LogFilePathIsJoin | resume_analyzer/ingestion/ingest_worker.py:122-127 | the path joins the log directory and a name carrying at most 8 characters of the session id |
| IngestWorker.ShouldStop | resume_analyzer/ingestion/ingest_worker.py:148-159 | a stop is signalled only for a row that was found; a missing row or a failed query keep going |
| IngestWorker.StopCheckLog | resume_analyzer/ingestion/ingest_worker.py:152-159 | at most one line, and for a stop request the stop-signal line naming the status |
| IngestWorker.StopIsObserved | resume_analyzer/ingestion/ingest_worker.py:148-159 | a stop request is seen by the next check; a (re)start, a progress update or an unknown session never signal a stop |
| IngestWorker.WriteBack | resume_analyzer/ingestion/ingest_worker.py:197-216 | the two metadata updates, summary lines then log path |
| IngestWorker.WriteBackEffect | resume_analyzer/ingestion/ingest_worker.py:197-216 | afterwards the metadata holds both keys, keeps every other key, and status, counters and errors do not move |
| IngestWorker.RunIngestionWorker | resume_analyzer/ingestion/ingest_worker.py:111-230 | the log lines and the re-raised exception of the worker for each outcome of the ingestion, stop check and store |
| IngestWorker.RunLogged | resume_analyzer/ingestion/ingest_worker.py:168-230 | after the header: the ingestion's exception or the summary, then the failure line and traceback exactly when something raised |
| IngestWorker.Summarize | resume_analyzer/ingestion/ingest_worker.py:179-224 | the stop check's lines, then "stopped gracefully" exactly when a stop was seen, else "completed"; every summary line; the metadata written unless the store fails |
| IngestAll.ResumeFiles | resume_analyzer/ingestion/ingest_all.py:169-173 | exactly the folder's PDF/DOCX files, never more than listed |
| IngestAll.Side | resume_analyzer/ingestion/ingest_all.py:179-180 | the files on one side of the mikomiko split, in listing order |
| IngestAll.SplitIsPartition | resume_analyzer/ingestion/ingest_all.py:179-180 | every file lands on exactly one side and none is lost |
| IngestAll.FirstLine | resume_analyzer/ingestion/ingest_all.py:188-200 | the first summary line, or the error that indexing None or an empty list raises |
| IngestAll.ProcessCandidate | resume_analyzer/ingestion/ingest_all.py:153-204 | runs the phase of each non-empty side and keeps the first line of its summary |
| IngestAll.CandidateLinesShape | resume_analyzer/ingestion/ingest_all.py:163-204 | a missing or empty folder yields no lines; otherwise at most one line per phase, the metadata phase first |
| IngestAll.NormalNoneRaises | resume_analyzer/ingestion/ingest_all.py:199-200 | a normal phase that returns None makes the candidate raise |
| IngestAll.CompletionOrderCovers | resume_analyzer/ingestion/ingest_all.py:280-286 | a completion order names every candidate |
| IngestAll.IngestAllCandidates | resume_analyzer/ingestion/ingest_all.py:263-299 | an error for a root that is not a directory, the warning when there are no candidates, else the lines in completion order with one callback per candidate |
| IngestAll.TicksCountUp | resume_analyzer/ingestion/ingest_all.py:293-297 | the callback counter runs 1..total, once per candidate whether it succeeded or not |
| IngestAll.CollectedConcat | resume_analyzer/ingestion/ingest_all.py:286-292 | collecting two batches in turn equals collecting their concatenation |
| IngestAll.CollectedOrderIndependent | resume_analyzer/ingestion/ingest_all.py:286-292 | any two completion orders of the same candidates collect the same multiset of lines |
| IngestionHelpers.WindowEnd | resume_analyzer/ingestion/helpers.py:542-553 | a window ends at a kept '.' or a ' ' past its middle, else it is a full window; the last one runs to the end |
| IngestionHelpers.Windows | resume_analyzer/ingestion/helpers.py:541-564 | the (start, end) windows the chunking loop visits, end clamped to the text |
| IngestionHelpers.FindWindowEnd | resume_analyzer/ingestion/helpers.py:542-553 | the backward search for a break returns the window end `WindowEnd` defines |
| IngestionHelpers.ChunkText | resume_analyzer/ingestion/helpers.py:531-566 | the chunks are the stripped, non-empty cuts of the visited windows |
| IngestionHelpers.ChunkShape | resume_analyzer/ingestion/helpers.py:535-557 | every chunk of a long text is non-empty, stripped and at most `size` long; a short text comes back whole |
| IngestionHelpers.WindowsCover | resume_analyzer/ingestion/helpers.py:559-564 | with a non-negative overlap the windows start at 0, leave no gap and reach the end of the text |
| IngestionHelpers.StrippedNonEmptyFacts | resume_analyzer/ingestion/helpers.py:555-557 | every kept piece is non-empty, stripped and no longer than its window |
| IngestionHelpers.AsWrittenBucketDays | resume_analyzer/ingestion/helpers.py:328-340 | the bucket boundaries in whole days, and the span the comparisons leave uncovered |
| IngestionHelpers.AsWrittenGap | resume_analyzer/ingestion/helpers.py:335-340 | as written, a 135-day span is bucketed as "MORE THAN 7 MONTHS" |
| IngestionHelpers.DurationBucketFacts | resume_analyzer/ingestion/helpers.py:331-340 | the corrected buckets are monotone, give "MORE THAN 7 MONTHS" exactly above 210 days, and agree with the source wherever its comparisons cover the span |
| IngestionHelpers.MonthsBetween | resume_analyzer/ingestion/helpers.py:310-340 | None when either date fails to parse, else the bucket of the day difference d: "0-2 MONTHS" iff d < 60, "2-4 MONTHS" iff 60 <= d <= 120, "5-7 MONTHS" iff 150 <= d <= 210, "MORE THAN 7 MONTHS" otherwise, the 121-149 day gap included |
| IngestionHelpers.MonthsBetweenCorrected | resume_analyzer/ingestion/helpers.py:310-340 | the corrected half: fails exactly where the source fails, says "MORE THAN 7 MONTHS" only above 210 days, and agrees with the source outside 121-149 days |
| IngestionHelpers.NormalizeUniversity | resume_analyzer/ingestion/helpers.py:342-400 | the reply's first line unquoted, or the raw value when the input is blank, the call fails or the line is empty |
| IngestionHelpers.NormalizeUniversityOneLine | resume_analyzer/ingestion/helpers.py:391-397 | a result that differs from the input came from the reply and is a single line |
| IngestionHelpers.PartFullHeuristic | resume_analyzer/ingestion/helpers.py:457-463 | a label or the raw value; text mentioning "full" is FULLTIME; PARTTIME only without "full" or "ft" |
| IngestionHelpers.NormalizePartFull | resume_analyzer/ingestion/helpers.py:402-472 | blank input unchanged; the model's label when it is one of the two; the keyword fallback otherwise |
| IngestionHelpers.LabelReply | resume_analyzer/ingestion/helpers.py:444-455 | a reply whose first line reads as a label is returned as that label |
| IngestionHelpers.ModelLabelWins | resume_analyzer/ingestion/helpers.py:444-455 | a label reply, bare or quoted, wins over the keyword fallback |
| IngestionHelpers.LabelReadsBack | resume_analyzer/ingestion/helpers.py:445-452 | the two labels, bare or quoted, read back as themselves |
| IngestionHelpers.HasWordFrom | resume_analyzer/ingestion/helpers.py:480 | true exactly when the word occurs at some position from `i` on |
| IngestionHelpers.NumberMatch | resume_analyzer/ingestion/helpers.py:523 | the leftmost match of the number pattern, if any |
| IngestionHelpers.NumberMatchChars | resume_analyzer/ingestion/helpers.py:523 | a match holds only digits, commas and the decimal point |
| IngestionHelpers.RemoveCommas | resume_analyzer/ingestion/helpers.py:528 | the result has no comma and only characters of the input |
| IngestionHelpers.NormalizeSalaryAsWritten | resume_analyzer/ingestion/helpers.py:474-529 | `normalize_salary` as written, every branch |
| IngestionHelpers.SalaryFromMatch | resume_analyzer/ingestion/helpers.py:515-529 | with a number match, the salary is that match without commas |
| IngestionHelpers.CleanRawIsSalaryLine | resume_analyzer/ingestion/helpers.py:511-516 | without the model, a clean one-line raw value is the text searched |
| IngestionHelpers.CommaOnlyMatch | resume_analyzer/ingestion/helpers.py:523 | in text with a comma but no digit, the pattern matches commas only |
| IngestionHelpers.SalaryCommaOnly | resume_analyzer/ingestion/helpers.py:506-529 | without the model, a one-line salary with a comma and no digit is stored as "" |
| IngestionHelpers.NoLetterNNoNil | resume_analyzer/ingestion/helpers.py:480 | text without the letter n mentions neither "nil" nor "null" |
| IngestionHelpers.SalaryAsWrittenEmpty | resume_analyzer/ingestion/helpers.py:474-529 | as written, "TBD, flexible" with the model failing is stored as "" |
| IngestionHelpers.NormalizeSalary | resume_analyzer/ingestion/helpers.py:474-529 | "any" for a missing, empty or nil salary; never ""; anything else is digits and '.' only |
| IngestionHelpers.SalaryCorrectionIsMinimal | resume_analyzer/ingestion/helpers.py:523-529 | the corrected normaliser differs from the source only where the source answers "" |
| IngestionHelpers.NewEntries | resume_analyzer/ingestion/helpers.py:643-648 | one entry per chunk, numbered on from the current entry count |
| IngestionHelpers.NewIdsDistinct | resume_analyzer/ingestion/helpers.py:643-648 | the ids of one call are pairwise distinct |
| IngestionHelpers.KeptPositions | resume_analyzer/ingestion/helpers.py:665-672 | the positions of the entries of other files, in order |
| IngestionHelpers.KeptFacts | resume_analyzer/ingestion/helpers.py:665-676 | removal keeps exactly the other files' entries, in order, and adds none |
| IngestionHelpers.KeptIsPick | resume_analyzer/ingestion/helpers.py:672-689 | the kept entries are the picks at the kept positions, so vectors and metadata stay aligned |
| IngestionHelpers.KeptAllIff | resume_analyzer/ingestion/helpers.py:678 | nothing is removed exactly when no entry belongs to the file |
| IngestionHelpers.KeptIdempotent | resume_analyzer/ingestion/helpers.py:671-676 | removing twice removes nothing more |
| IngestionHelpers.FaissStore.AddChunks | resume_analyzer/ingestion/helpers.py:625-648 | nothing when either list is empty; otherwise the vectors and the new entries are appended |
| IngestionHelpers.FaissStore.KeepOthers | resume_analyzer/ingestion/helpers.py:659-676 | the scan returns the kept entries and their positions |
| IngestionHelpers.FaissStore.RemoveCandidateAsWritten | resume_analyzer/ingestion/helpers.py:653-705 | as written, the store is rebuilt only when some but not all entries belong to the file |
| IngestionHelpers.FaissStore.RemoveCandidate | resume_analyzer/ingestion/helpers.py:653-705 | the corrected removal keeps exactly the other files' entries, also when none remain |
| IngestionHelpers.AsWrittenLeavesStaleChunks | resume_analyzer/ingestion/helpers.py:678-705 | as written, removing the only stored file leaves all its chunks |
| IngestionHelpers.CorrectedRemovesAll | resume_analyzer/ingestion/helpers.py:653-705 | the corrected removal leaves nothing of the file in that case |
| IngestNormal.FindSection | resume_analyzer/ingestion/ingest_normal.py:311-314 | the first position holding the heading, or the length for none |
| IngestNormal.MergeSections | resume_analyzer/ingestion/ingest_normal.py:264-323 | the page-by-page merge of the sections into the aggregate |
| IngestNormal.MergePage | resume_analyzer/ingestion/ingest_normal.py:307-321 | one page's sections merged in order |
| IngestNormal.LocateSection | resume_analyzer/ingestion/ingest_normal.py:311-314 | the search loop returns the position `FindSection` names |
| IngestNormal.SkippedPageNoChange | resume_analyzer/ingestion/ingest_normal.py:285-304 | a skipped page leaves the aggregate as it was |
| IngestNormal.AddSectionDistinct | resume_analyzer/ingestion/ingest_normal.py:315-321 | merging a section keeps the headings distinct |
| IngestNormal.AddSectionNames | resume_analyzer/ingestion/ingest_normal.py:315-319 | a new heading is appended at the end and no other heading changes |
| IngestNormal.AddSectionEntries | resume_analyzer/ingestion/ingest_normal.py:320-321 | the entries go to their own heading and to no other |
| IngestNormal.MergeFacts | resume_analyzer/ingestion/ingest_normal.py:306-321 | headings distinct and in first-appearance order; each holds the entries of every section with it, in page order |
| IngestNormal.MergeNamesAre | resume_analyzer/ingestion/ingest_normal.py:306-321 | the merged headings are exactly those that occur |
| IngestNormal.EntryPart | resume_analyzer/ingestion/ingest_normal.py:422-424 | an entry's stripped summary, kept when non-empty |
| IngestNormal.EntriesParts | resume_analyzer/ingestion/ingest_normal.py:419-424 | every kept summary of a section's entries is non-empty with no surrounding whitespace |
| IngestNormal.SectionParts | resume_analyzer/ingestion/ingest_normal.py:417-424 | every piece of one section is non-empty with no surrounding whitespace |
| IngestNormal.SectionsParts | resume_analyzer/ingestion/ingest_normal.py:417-424 | every piece of all sections is non-empty with no surrounding whitespace |
| IngestNormal.Iterate | resume_analyzer/ingestion/ingest_normal.py:417-421 | a decoded list yields its items; other values yield nothing or raise |
| IngestNormal.ExtractSummaryParagraph | resume_analyzer/ingestion/ingest_normal.py:402-432 | the nested loops build the pieces the function defines and join them |
| IngestNormal.JoinCleanParts | resume_analyzer/ingestion/ingest_normal.py:427 | joining clean pieces by spaces is clean, empty exactly without pieces, and contains each piece |
| IngestNormal.ParagraphIsClean | resume_analyzer/ingestion/ingest_normal.py:402-428 | the paragraph has no surrounding whitespace and contains every non-blank summary |
| IngestNormal.Backticks | resume_analyzer/ingestion/ingest_normal.py:661 | the length of the leading backtick run |
| IngestNormal.TrailingBackticks | resume_analyzer/ingestion/ingest_normal.py:661 | the length of the trailing backtick run |
| IngestNormal.OpenFenceEnd | resume_analyzer/ingestion/ingest_normal.py:661 | where an opening ```json fence and its whitespace end, 0 without one |
| IngestNormal.CloseFenceStart | resume_analyzer/ingestion/ingest_normal.py:661 | where the whitespace before a closing fence starts, the length without one |
| IngestNormal.FenceBounds | resume_analyzer/ingestion/ingest_normal.py:661 | the slice the fence substitution keeps |
| IngestNormal.Payload | resume_analyzer/ingestion/ingest_normal.py:663-666 | the text from the first '{' to the last '}' after it |
| IngestNormal.PayloadFacts | resume_analyzer/ingestion/ingest_normal.py:663-666 | a payload exists exactly when some '{' precedes some '}', and it then spans first '{' to last '}' |
| IngestNormal.SafeParseJson | resume_analyzer/ingestion/ingest_normal.py:655-667 | the payload decoded, or an error when there is none or it does not decode |
| IngestNormal.UnfencedKeepsPayload | resume_analyzer/ingestion/ingest_normal.py:661-663 | removing the fences does not move the payload |
| IngestNormal.StripKeepsPayload | resume_analyzer/ingestion/ingest_normal.py:661 | stripping does not move the payload |
| IngestNormal.PayloadOfSlice | resume_analyzer/ingestion/ingest_normal.py:661-663 | cutting brace-free text off both ends keeps the payload |
| IngestNormal.RowForFacts | resume_analyzer/ingestion/ingest_normal.py:775-789 | the row built from a category's parsed reply carries the category's id and name; empty mentions and score 0 when the reply does not parse; otherwise the reply's score and mentions |
| IngestNormal.Scores | resume_analyzer/ingestion/ingest_normal.py:754-789 | one row per category |
| IngestNormal.ScoresAt | resume_analyzer/ingestion/ingest_normal.py:754-789 | row k is the score of category k from its reply |
| IngestNormal.ClassifySkills | resume_analyzer/ingestion/ingest_normal.py:743-792 | the rows scored per category, sorted by score and cut at top_k, or the failure of the first model call that raises |
| IngestNormal.ClassifyFacts | resume_analyzer/ingestion/ingest_normal.py:754-792 | the classification fails exactly when some model call fails, with the first such failure; otherwise it ranks one row per category |
| IngestNormal.ScoreAll | resume_analyzer/ingestion/ingest_normal.py:754-789 | the scoring loop builds exactly the rows of `Scores`, one per category in category order, or stops with the first failing model call |
| IngestNormal.TopKFacts | resume_analyzer/ingestion/ingest_normal.py:792 | min(top_k, n) rows, scores descending, a sub-multiset of the computed rows, no dropped row scoring above a kept one, ties kept in category order; all rows when top_k covers them |
| IngestNormal.UpsertedRows | resume_analyzer/ingestion/ingest_normal.py:797-815 | one row per key; a classified category holds its last score and mentions; every other key is as it was |
| IngestNormal.CategoryScoreTable.UpsertCategoryScores | resume_analyzer/ingestion/ingest_normal.py:797-815 | the table afterwards is the upsert of the rows into the table before |
| IngestNormal.PdfNames | resume_analyzer/ingestion/ingest_normal.py:825 | exactly the folder's pdf files |
| IngestNormal.IngestResumeNormal | resume_analyzer/ingestion/ingest_normal.py:818-911 | None when the folder holds no pdf, else one summary line per pdf |
| IngestPg.Set | resume_analyzer/ingestion/ingest_pg.py:61-73 | that key changes and no other |
| IngestPg.InitialFields | resume_analyzer/ingestion/ingest_pg.py:61-73 | the ten fields, all unset |
| IngestPg.FieldNamesCoverKeys | resume_analyzer/ingestion/ingest_pg.py:61-73 | every field key is listed once in the loop's order |
| IngestPg.MergeKey | resume_analyzer/ingestion/ingest_pg.py:175-177 | an unset key takes the reply's value; indexing a non-object raises |
| IngestPg.MergeKeysFacts | resume_analyzer/ingestion/ingest_pg.py:175-177 | the merge never overwrites a set value and leaves other keys alone |
| IngestPg.MergeObject | resume_analyzer/ingestion/ingest_pg.py:175-177 | from an object the merge never fails and takes exactly the reply's value for each unset key it has |
| IngestPg.MergeReply | resume_analyzer/ingestion/ingest_pg.py:175-177 | the key loop of a page, on the dict in place |
| IngestPg.KeptLines | resume_analyzer/ingestion/ingest_pg.py:163-167 | exactly the page lines that are not code-fence lines |
| IngestPg.WithBucket | resume_analyzer/ingestion/ingest_pg.py:179-181 | the duration bucket recomputed when both dates are set |
| IngestPg.Normalized | resume_analyzer/ingestion/ingest_pg.py:179-196 | the normalisations after a merge: bucket, university, part/full time and salary |
| IngestPg.NormalizedBucket | resume_analyzer/ingestion/ingest_pg.py:179-181 | the bucket after a page: recomputed by `compute_months_between` as written from two set dates, else what the merge left |
| IngestPg.AllSetFields | resume_analyzer/ingestion/ingest_pg.py:203-204 | the exit test is true exactly when every field is set |
| IngestPg.ReadPage | resume_analyzer/ingestion/ingest_pg.py:148-204 | one page of the loop body, on the dict in place |
| IngestPg.ExtractFieldsWithQwen | resume_analyzer/ingestion/ingest_pg.py:39-208 | the page loop over the ten fields |
| IngestPg.PageSkipped | resume_analyzer/ingestion/ingest_pg.py:159-173 | a failed model call or an unparsable reply changes nothing |
| IngestPg.PageKeepsRaw | resume_analyzer/ingestion/ingest_pg.py:175-196 | a page never overwrites a set raw field, and a read page leaves the salary set |
| IngestPg.ExtractKeepsRaw | resume_analyzer/ingestion/ingest_pg.py:147-204 | a raw field once set keeps its value to the end |
| IngestPg.ExtractStops | resume_analyzer/ingestion/ingest_pg.py:203-204 | pages after the first one that sets every field are never read |
| IngestPg.RowOf | resume_analyzer/ingestion/helpers.py:195-244 | the row carries the candidate key and the extracted fields unchanged |
| IngestPg.ProcessingName | resume_analyzer/ingestion/ingest_pg.py:244-262 | `<stem>.pdf` for a .docx file, the file itself otherwise |
| IngestPg.FileType | resume_analyzer/ingestion/ingest_pg.py:308-311 | "mikomiko" exactly for a mikomiko file, "resume" otherwise |
| IngestPg.Step | resume_analyzer/ingestion/ingest_pg.py:240-332 | the state after one more file |
| IngestPg.IngestLines | resume_analyzer/ingestion/ingest_pg.py:240-332 | without an exception, one summary line per file in order, each telling what happened to that file |
| IngestPg.IngestRaises | resume_analyzer/ingestion/ingest_pg.py:273-289 | the loop raises exactly when some file's extraction raises |
| IngestPg.StepWritesOnlyDated | resume_analyzer/ingestion/ingest_pg.py:291-300 | a step writes at most one row, for the candidate, with a duration bucket |
| IngestPg.IngestWritesOnlyDated | resume_analyzer/ingestion/ingest_pg.py:291-332 | every written row belongs to the candidate and has a bucket; all other rows are as they were |
| IngestPg.ResumeTable.UpsertResumeMetadata | resume_analyzer/ingestion/helpers.py:195-244 | the row keyed by the file name is inserted or replaced, no other |
| IngestPg.ResumeTable.IngestFile | resume_analyzer/ingestion/ingest_pg.py:240-332 | the table and lines afterwards are `Step` of those before |
| IngestPg.ResumeTable.IngestAllResumes | resume_analyzer/ingestion/ingest_pg.py:210-340 | the warning for a folder without resumes, else the folded steps over the files |
| IngestPg.ResumeTable.IngestFiles | resume_analyzer/ingestion/ingest_pg.py:240-339 | the per-file loop leaves the table, uploads, log lines and exception of the folded steps, stopping at the first exception |
| BackendHelpers.FirstMatch | resume_analyzer/backend/helpers.py:417-439 | the first file matching at a level, no earlier file matching; the length for none |
| BackendHelpers.Level | resume_analyzer/backend/helpers.py:412-441 | the cascade level, between 1 and 5 (5 meaning no hit) |
| BackendHelpers.BestMatchFacts | resume_analyzer/backend/helpers.py:409-441 | None exactly when nothing matches at any level; otherwise a file matching at the earliest level with a hit |
| BackendHelpers.LevelsNested | resume_analyzer/backend/helpers.py:413-426 | exact, case-insensitive and cleaned matches are nested |
| BackendHelpers.ExactWins | resume_analyzer/backend/helpers.py:413-414 | an exactly listed name comes back as itself |
| BackendHelpers.SimilarFacts | resume_analyzer/backend/helpers.py:429-438 | the Jaccard test is symmetric, and a name with a non-space character is similar to itself |
| BackendHelpers.ScanLevel | resume_analyzer/backend/helpers.py:417-439 | the scan returns the first hit at that level |
| BackendHelpers.FindBestMatch | resume_analyzer/backend/helpers.py:409-441 | the scans in order return the file `Level` and `FirstMatch` define |
| BackendHelpers.Find | resume_analyzer/backend/helpers.py:553 | the position of a name in the ordered dict, or the length |
| BackendHelpers.Put | resume_analyzer/backend/helpers.py:553 | replaced in place when present, appended otherwise |
| BackendHelpers.PutFacts | resume_analyzer/backend/helpers.py:569 | a put keeps names distinct; the names are the old ones plus the new one, and every entry is an old one or the new one |
| BackendHelpers.DropSummary | resume_analyzer/backend/helpers.py:551 | the copy has no summary text and keeps every other field |
| BackendHelpers.Ranked | resume_analyzer/backend/helpers.py:542-551 | the copy has the given rank and reason and no summary text; every other field is kept |
| BackendHelpers.SingleRanks | resume_analyzer/backend/helpers.py:448-453 | the same files in order, each with rank 1 and no summary text |
| BackendHelpers.FallbackFrom | resume_analyzer/backend/helpers.py:583-593 | entry j is initial file j with rank j+1, the fallback reason and no summary text |
| BackendHelpers.ApplyOneFacts | resume_analyzer/backend/helpers.py:529-553 | one ranking entry keeps the merged dict to distinct initial files without summary text, and loses no file already placed |
| BackendHelpers.ApplyFacts | resume_analyzer/backend/helpers.py:529-558 | the whole merge loop keeps the merged dict to distinct initial files without summary text, and loses no file already placed |
| BackendHelpers.AddMissingAppends | resume_analyzer/backend/helpers.py:561-569 | adding the missing files only appends defaulted initial entries |
| BackendHelpers.AddMissingNames | resume_analyzer/backend/helpers.py:561-569 | afterwards every initial name is present exactly once |
| BackendHelpers.AllNamesPresent | resume_analyzer/backend/helpers.py:561-569 | when each initial file is in the result, so is every initial name |
| BackendHelpers.RerankSingle | resume_analyzer/backend/helpers.py:448-453 | one or no candidate: rank 1 and no summary text |
| BackendHelpers.RerankMerged | resume_analyzer/backend/helpers.py:509-574 | every initial file once and nothing else, no summary text, unplaced files last with rank len(rankings)+1 |
| BackendHelpers.RerankFallback | resume_analyzer/backend/helpers.py:576-593 | an undecodable reply, or a `ValueError` from the model call, gives ranks 1..n in the dict's order |
| BackendHelpers.ApplyStep | resume_analyzer/backend/helpers.py:530-553 | one pass of the merge loop's body, on the dict in place |
| BackendHelpers.ApplyRankings | resume_analyzer/backend/helpers.py:524-558 | the merge loop produces the dict the merge function defines |
| BackendHelpers.AddMissing | resume_analyzer/backend/helpers.py:561-572 | the loop produces what the missing-files function defines |
| BackendHelpers.Fallback | resume_analyzer/backend/helpers.py:583-593 | the loop produces the 1..n ranking |
| BackendHelpers.AllPromptReady | resume_analyzer/backend/helpers.py:464-469 | true exactly when every judgment has the fields the prompt reads |
| BackendHelpers.ComparativeReranking | resume_analyzer/backend/helpers.py:444-593 | the single, merged and fallback branches as the function defines them, a `ValueError` from the model call falling back |
| BackendHelpers.AllInObject | resume_analyzer/backend/helpers.py:1141 | true exactly when every required key is in the object |
| BackendHelpers.FirstFuzzy | resume_analyzer/backend/helpers.py:1149-1153 | the first key that fuzzily matches, or the length |
| BackendHelpers.IntentFallback | resume_analyzer/backend/helpers.py:1124-1170 | an undecodable reply or a `ValueError` from the model call gives `{'is_email_request': False}`; any other failure of the call propagates |
| BackendHelpers.IntentMissingKey | resume_analyzer/backend/helpers.py:1140-1143 | an object missing a required key is not an e-mail request |
| BackendHelpers.ResolveFacts | resume_analyzer/backend/helpers.py:1146-1158 | an unknown candidate becomes the first fuzzy match, or None with an explanation; nothing else changes |
| BackendHelpers.IntentShape | resume_analyzer/backend/helpers.py:1137-1164 | the request flag is always there; a request carries the other keys and a text candidate key |
| BackendHelpers.DetectEmailIntent | resume_analyzer/backend/helpers.py:1124-1169 | the intent decoded from the model reply, with the `for ... else` candidate search |
| BackendHelpers.ResolveCandidate | resume_analyzer/backend/helpers.py:1144-1158 | the candidate check yields exactly `Resolve`'s intent: unchanged when known, else the first fuzzy match or None |
| BackendHelpers.FindFuzzy | resume_analyzer/backend/helpers.py:1149-1153 | the search stops at the first fuzzily matching key, or runs off the end |
| BackendHelpers.ResolveShape | resume_analyzer/backend/helpers.py:1144-1158 | the check keeps every key and the request flag; a truthy candidate key it leaves is text |
| BackendHelpers.TopByRankFacts | resume_analyzer/backend/helpers.py:640-643 | succeeds iff there is at most one result or the ranks are all numbers or all strings; then ordered by rank (numbers as numbers with a missing rank counting as 999, strings as text), min(limit, n) of them, a sub-multiset of the results, no dropped result ranking before a kept one, equal ranks kept in the dict's order, all kept when the limit covers them |
| ModelClient.PayloadShape | resume_analyzer/backend/model.py:64-124 | exactly two messages, system first; model and temperature are the client's |
| ModelClient.PlainIffTextOnly | resume_analyzer/backend/model.py:99-102 | the content is the plain question exactly for a question without image or extras |
| ModelClient.PartsLayout | resume_analyzer/backend/model.py:79-109 | otherwise a list: the `file://` image entry, then the question, then the extras in order |
| ModelClient.NoInputs | resume_analyzer/backend/model.py:104-109 | with no inputs the content is the empty list |
| ModelClient.ExtraParts | resume_analyzer/backend/model.py:95-97 | one entry per extra item, in order |
| EmailService.NewServiceFacts | resume_analyzer/backend/email_service.py:12-20 | construction succeeds exactly when the port parses and both credentials are set; the defaults apply otherwise |
| EmailService.DefaultPort | resume_analyzer/backend/email_service.py:14 | the default port text reads as 587 |
| EmailService.NewServicePort | resume_analyzer/backend/email_service.py:12-20 | without SMTP_PORT the port is 587 |
| EmailService.Placeholder | resume_analyzer/backend/email_service.py:95 | `{key}` is two characters longer than the key |
| EmailService.RenderTemplate | resume_analyzer/backend/email_service.py:91-97 | the loop gives the template with each variable substituted in order |
| EmailService.RenderUntouched | resume_analyzer/backend/email_service.py:91-97 | a template with none of the placeholders comes back unchanged |
| EmailService.RenderOne | resume_analyzer/backend/email_service.py:94-96 | one variable: the pieces between `{key}` joined with its text, empty for None |
| EmailService.RenderConcat | resume_analyzer/backend/email_service.py:91-97 | rendering two dicts in turn is rendering their concatenation |
| EmailService.CandidateVariablesFacts | resume_analyzer/backend/email_service.py:69-84 | the address is the row's, and position and applied position are both the applied position |
| EmailService.DerivedVariablesFacts | resume_analyzer/backend/email_service.py:69-84 | duration "<from> to <to>" or "TBD", start date or "TBD", "Full-time" exactly for FULLTIME, else "Part-time" |
| EmailService.LookupAt | resume_analyzer/backend/email_service.py:70-84 | a key's first entry is what a lookup finds |
| EmailService.TemplateCheckedFirst | resume_analyzer/backend/email_service.py:129-132 | a missing template is reported whatever the candidate table and mailer do |
| EmailService.CandidateCheckedSecond | resume_analyzer/backend/email_service.py:134-137 | then a missing candidate is reported whatever the mailer does |
| EmailService.SendOutcome | resume_analyzer/backend/email_service.py:139-154 | the mail goes to the candidate's address with rendered subject and body; success exactly when the send succeeds |
| EmailUi.Confirmation | resume_analyzer/frontend/email_ui_helpers.py:6-31 | with a pending e-mail there is always a reply |
| EmailUi.ConfirmationFacts | resume_analyzer/frontend/email_ui_helpers.py:13-31 | cleared exactly for a confirm or cancel word; confirm sends, cancel cancels, anything else reminds |
| EmailUi.PendingBlocks | resume_analyzer/frontend/email_ui_helpers.py:162-167 | while pending, the reply is the confirmation's whatever intent, preview and chat would be |
| EmailUi.StoredOnlyByPreview | resume_analyzer/frontend/email_ui_helpers.py:122-132 | a pending e-mail is stored only by a successful preview-mode reply, with the intent's candidate and the returned recipient |
| EmailUi.NotEmailGoesToChat | resume_analyzer/frontend/email_ui_helpers.py:96-97 | a non-e-mail intent goes to the chat reply and stores nothing |
| EmailUi.MissingCandidateFirst | resume_analyzer/frontend/email_ui_helpers.py:104-105 | a request without a candidate lists the known candidates before the template is looked at |
| EmailUi.EmailSession.constructor | resume_analyzer/frontend/email_ui_helpers.py:13 | a session starts with no pending e-mail |
| EmailUi.EmailSession.HandleEmailConfirmation | resume_analyzer/frontend/email_ui_helpers.py:6-59 | returns the confirmation's reply and clear flag and changes nothing |
| EmailUi.EmailSession.ShowEmailPreview | resume_analyzer/frontend/email_ui_helpers.py:111-139 | the preview's reply; the pending e-mail is replaced only when the preview stores one |
| EmailUi.EmailSession.HandleEmailRequest | resume_analyzer/frontend/email_ui_helpers.py:75-109 | the request's reply or exception, with the pending e-mail as the preview leaves it |
| EmailUi.EmailSession.ProcessUserInput | resume_analyzer/frontend/email_ui_helpers.py:154-176 | the reply and pending e-mail `Process` defines for the old pending state |
| PdfServer.BaseUrl | resume_analyzer/frontend/pdf_server.py:17 | the address starts with "http://192.168.1.172:" followed by the port |
| PdfServer.SafeFacts | resume_analyzer/frontend/pdf_server.py:147 | the cleaned text has no space or parenthesis and gains no character besides '_' |
| PdfServer.SafeIdentity | resume_analyzer/frontend/pdf_server.py:155 | text without spaces and parentheses is left as it is |
| PdfServer.SafeTail | resume_analyzer/frontend/pdf_server.py:155 | a clean tail survives the cleaning unchanged |
| PdfServer.TailPdf | resume_analyzer/frontend/pdf_server.py:156-165 | the stored tail ends in ".pdf" up to case |
| PdfServer.TailChars | resume_analyzer/frontend/pdf_server.py:156-165 | the tail has no space or parenthesis and no new character besides those of "_.pdf" |
| PdfServer.StoredNamePdf | resume_analyzer/frontend/pdf_server.py:156-165 | the stored name is `<type>_…` ending in ".pdf" up to case |
| PdfServer.StoredNameChars | resume_analyzer/frontend/pdf_server.py:156-165 | after the prefix: no space or parenthesis, and no character absent from type and path besides "_.pdf" |
| PdfServer.UploadPdf | resume_analyzer/frontend/pdf_server.py:141-186 | None exactly when the copy fails, else the upload URL |
| PdfServer.UploadUrlPdf | resume_analyzer/frontend/pdf_server.py:168 | the URL ends in ".pdf" up to case when the type holds no '/' |
| PdfServer.Unquote | resume_analyzer/frontend/pdf_server.py:195 | decoding never lengthens the text |
| PdfServer.UnquotePlain | resume_analyzer/frontend/pdf_server.py:195 | text without '%' decodes to itself, in front of anything |
| PdfServer.UnquoteNoPercent | resume_analyzer/frontend/pdf_server.py:195 | text without '%' decodes to itself |
| PdfServer.UnquoteShrinks | resume_analyzer/frontend/pdf_server.py:195 | decoding strictly shortens text holding an escape |
| PdfServer.UrlPathOfUpload | resume_analyzer/frontend/pdf_server.py:168-194 | the URL path of an upload, before decoding, is the stored copy's path |
| PdfServer.StoredPathChars | resume_analyzer/frontend/pdf_server.py:150-165 | a character in none of the inputs (nor "_.pdf/") is not in the stored path |
| PdfServer.AsWrittenRoundTrip | resume_analyzer/frontend/pdf_server.py:168-196 | as written, a URL without '%' in its names leads delete to the stored copy |
| PdfServer.AsWrittenDelete | resume_analyzer/frontend/pdf_server.py:188-208 | as written, such a delete succeeds exactly when the copy exists and unlinking works |
| PdfServer.AsWrittenEscapeLost | resume_analyzer/frontend/pdf_server.py:168-196 | as written, a stored path holding an escape is decoded on delete and never reaches its own copy |
| PdfServer.EscapeLostExample | resume_analyzer/frontend/pdf_server.py:168-208 | "cv%20final.pdf" of "Alice" is stored but deleting through its URL fails |
| PdfServer.QuoteChar | resume_analyzer/frontend/pdf_server.py:168 | the quoted form of one character is non-empty and holds neither ':' nor '/' |
| PdfServer.Quote | resume_analyzer/frontend/pdf_server.py:168 | quoted text holds neither ':' nor '/', and a non-empty text does not quote to one starting with '/' |
| PdfServer.UnquoteQuote | resume_analyzer/frontend/pdf_server.py:195 | decoding undoes quoting, in front of anything |
| PdfServer.UnquoteQuoteAll | resume_analyzer/frontend/pdf_server.py:195 | decoding undoes quoting |
| PdfServer.UnquoteJoin | resume_analyzer/frontend/pdf_server.py:194-196 | decoding `<quoted key>/<quoted name>` gives `<key>/<name>` |
| PdfServer.QuotedDelete | resume_analyzer/frontend/pdf_server.py:188-208 | with quoting, delete succeeds exactly when the copy exists and unlinking works |
| PdfServer.QuotedRoundTrip | resume_analyzer/frontend/pdf_server.py:168-196 | with quoting, delete through the returned URL always reaches the stored copy |
| IngestUi.Repeat | resume_analyzer/frontend/ingest_ui.py:1120-1122 | n copies of the text |
| IngestUi.Words | resume_analyzer/frontend/ingest_ui.py:1121-1123 | one parameter per skill, in order |
| IngestUi.BuildFilter | resume_analyzer/frontend/ingest_ui.py:1095-1141 | the WHERE text and parameters the filter defines, or the salary parse error |
| IngestUi.ListClauseCount | resume_analyzer/frontend/ingest_ui.py:1101 | a list clause holds one placeholder |
| IngestUi.SkillConditionCount | resume_analyzer/frontend/ingest_ui.py:1122 | a skill condition holds one placeholder |
| IngestUi.SalaryClauseCount | resume_analyzer/frontend/ingest_ui.py:1133 | the salary clause holds two placeholders |
| IngestUi.SkillsClauseCount | resume_analyzer/frontend/ingest_ui.py:1126 | the OR clause of n skills holds n placeholders |
| IngestUi.CountJoin | resume_analyzer/frontend/ingest_ui.py:1126 | joining closed parts keeps their placeholders |
| IngestUi.AddListBalanced | resume_analyzer/frontend/ingest_ui.py:1100-1117 | a list step keeps placeholders and parameters in step |
| IngestUi.AddSkillsBalanced | resume_analyzer/frontend/ingest_ui.py:1118-1126 | the skills step keeps them in step |
| IngestUi.AddSalaryBalanced | resume_analyzer/frontend/ingest_ui.py:1129-1135 | the salary step keeps them in step |
| IngestUi.ListFiltersBalanced | resume_analyzer/frontend/ingest_ui.py:1100-1117 | the list filters keep them in step |
| IngestUi.FilterPlaceholders | resume_analyzer/frontend/ingest_ui.py:1095-1141 | the WHERE text holds exactly as many "%s" as there are parameters |
| IngestUi.AddListsAppends | resume_analyzer/frontend/ingest_ui.py:1100-1117 | the list steps append the listed clauses and parameters |
| IngestUi.ListFiltersInOrder | resume_analyzer/frontend/ingest_ui.py:1100-1117 | the list filters are the listed clauses and parameters of the six columns in order |
| IngestUi.FilterShape | resume_analyzer/frontend/ingest_ui.py:1095-1135 | list clauses in page order, then the skills clause, then the salary clause with its bounds; only a bad salary fails |
| IngestUi.ListedClausesEmpty | resume_analyzer/frontend/ingest_ui.py:1100-1117 | no selection means no listed clause |
| IngestUi.EmptyWhere | resume_analyzer/frontend/ingest_ui.py:1137-1141 | the WHERE text is empty exactly when nothing is selected and the salary is "ANY" |
| IngestUi.SalaryRangeRoundTrip | resume_analyzer/frontend/ingest_ui.py:1130-1131 | every "<low>-<high>" entry parses back to its bounds |
| IngestUi.ResumeFilesFacts | resume_analyzer/frontend/ingest_ui.py:692-693 | the files kept are exactly the listing's PDF/DOCX files |
| IngestUi.ChoosePair | resume_analyzer/frontend/ingest_ui.py:692-711 | the checks give the choice `SelectPair` defines |
| IngestUi.ChooseFacts | resume_analyzer/frontend/ingest_ui.py:695-711 | of the listed PDF/DOCX files, the pair is accepted exactly for two files of which exactly one is mikomiko; two mikomiko files and none are refused |
| IngestUi.ShowLogFacts | resume_analyzer/frontend/ingest_ui.py:218-226 | the first matching prefix decides; success lines drop their check mark behind a tick; others are shown as they are |
| IngestUi.ShowLogs | resume_analyzer/frontend/ingest_ui.py:217-226 | one shown item per log line, in order |
| StableSort.SortByFacts | resume_analyzer/ingestion/ingest_normal.py:792 | `sorted` by key: ordered, stable among equal keys, a permutation of the input |

## Left out

- Database access, SMTP, HTTP, the PDF server's subprocess and Streamlit rendering are not modelled. Query results, mailer replies and page inputs are parameters.
- Model replies, `json.loads` and `dateutil.parser.parse` are inputs: a decoded `Json` value or an error, and a day number or a failure.
- FAISS vectors are `seq<real>` kept aligned with the metadata. Embedding, normalisation and search are not modelled.
- The thread pool of `ingest_all_candidates` is an arbitrary completion order of the candidates. Interleavings inside a candidate are not modelled.
- `os.listdir` order is a parameter, and paths are strings. Normalisation by `pathlib` and `os.path.abspath` (a parameter) is not modelled.
- Log lines carry no timestamp prefix, and the clock is a parameter.
- Strings.Lower: ASCII letters only; Python's Unicode case mapping is not modelled. The same holds for Strings.Upper.
- Strings.ParseInt: underscores and non-ASCII digits, which Python's `int()` accepts, are not modelled.
- PdfServer.Unquote: decodes ASCII escapes only; multi-byte UTF-8 escapes are out of scope.
- PdfServer.Quote: keeps non-ASCII characters instead of escaping their UTF-8 bytes.
- PdfServer.UploadPdf: the copy, the directory creation and the existence check are one `copied` outcome. Deletion takes the set of existing files and the unlink outcome.
- IngestionHelpers.MonthsBetween: the month count divides the day difference by 30 exactly, in rationals. Floating point is not modelled.
- IngestionHelpers.NumberMatch: `\d` is matched by ASCII digits only, where Python's str regex also matches other Unicode decimal digits (a full-width "１５００" is not matched).
- IngestionHelpers.HasWordFrom: the `\b` word boundary is decided by ASCII letters, digits and `_`, where Python's str regex uses Unicode word characters.
- IngestPg.MergeKey: a reply value that is not text (a number, boolean, list or object) is stored as None, where the source stores the value itself; the TypeError or AttributeError that the normalisers then raise on it, and its counting as set for the exit test, are not modelled.
- IngestPg.MergeObject: the same restriction as MergeKey, so a non-text reply value reads back as None.
- IngestPg.MergeReply: the same restriction as MergeKey.
- IngestPg.ReadPage: the same restriction as MergeKey.
- IngestPg.ExtractFieldsWithQwen: the same restriction as MergeKey.
- IngestNormal.MergeSections: a page's sections arrive already as (name, entries) records, so the KeyError of a section without "section_name", the TypeError of a section that is not an object and section names that are not text are not modelled.
- BackendHelpers.TopByRankFacts: a `rank_position` that is a list is treated as incomparable, where Python compares two lists element by element.
- Decoded JSON numbers are integers only. Two effects of floating point are lost: `int()` truncating a fractional category score (ingest_normal.py:778), and fractional `rank_position` values in the skill-matching sort.
- IngestionHelpers.FaissStore.AddChunks: requires as many embeddings as chunks, which the source does not check; with unequal lists the source's index and metadata fall out of step. Every caller embeds exactly the chunks it adds.
- PdfServer.DeletePdf: the files are a set of paths relative to the base directory, so an unquoted URL path that is absolute (such as `%2Fetc/x.pdf`), which `Path` joining makes replace the base directory, is not modelled.
- IngestAll.IngestAllCandidates: an exception raised by the progress callback inside `finally` would end the loop and propagate; the callback is modelled as a tick that cannot fail.
- IngestNormal.IngestResumeNormal: only the return shape is modelled; the per-pdf conversion, extraction, classification and upserts, and the exceptions they raise, are not.
- BackendHelpers.SimilarFacts: the Jaccard ratio is compared in integers, which is exact where the source uses floating point.
- The SQL text around the WHERE clause in the ingest page is not modelled, only the clauses and parameters.
- Mailer values that are not text, and NULL template subjects or bodies, are not modelled.
- `send_template_email_with_fields` is not part of this model: it is not in the repository. Its reply is a `MailerReply` parameter.
- `ingest_all_candidates_with_progress_stoppable` is not part of this model: it is not in the repository. The worker receives its outcome as a parameter.
- EmailUi.EmailSession.HandleEmailRequest: the source also refuses a truthy candidate key that is not text. The detected intent never carries one (`BackendHelpers.IntentShape`), so the model reports it as an exception without the exact message.
- IngestPg.RowOf: `pdf_url` is placed in the metadata dict but `upsert_resume_metadata` writes no such column, so the row does not carry it.
- ProgressTracker.Ledger: `processed <= total` is not enforced, because the code does not enforce it either.
- ProgressTracker.Progress: the `or {}` and `or []` defaults of `get_progress` never apply, because every row is written with a metadata object and an errors array.
- The worker never calls `finish_ingestion`, so no session status is finalised by it.
- ProgressTracker.Finish: `finish_ingestion` overwrites any status, a stopped or archived one included, because the code does not check it.

## Findings

| source | as written | input that shows it | evidently intended | confidence | as-written member | corrected member |
|---|---|---|---|---|---|---|
| resume_analyzer/ingestion/helpers.py:335-340 | the bucket comparisons leave a gap of more than 4 and less than 5 months (121 to 149 days) that falls through to "MORE THAN 7 MONTHS" | a span of 135 days | only spans over 7 months are "MORE THAN 7 MONTHS"; a span of 4 to 5 months stays in "2-4 MONTHS" | not executed | IngestionHelpers.AsWrittenGap | IngestionHelpers.MonthsBetweenCorrected |
| resume_analyzer/ingestion/helpers.py:523-529 | `[\d,]+` matches a run of commas alone, so a salary is stored as "" | "TBD, flexible" with the model call failing | a match without a digit means no figure ("any") | not executed | IngestionHelpers.SalaryAsWrittenEmpty | IngestionHelpers.SalaryCorrectionIsMinimal |
| resume_analyzer/ingestion/helpers.py:678-705 | `if indices_to_keep:` skips the rebuild when every entry belongs to the file, so its chunks stay | a store whose only entries are the removed file's | the store is emptied | not executed | IngestionHelpers.AsWrittenLeavesStaleChunks | IngestionHelpers.CorrectedRemovesAll |
| resume_analyzer/frontend/pdf_server.py:168 | the URL is built without percent-quoting, yet delete unquotes it, so a name holding an escape never round-trips | candidate "Alice", file "cv%20final.pdf" | quote the key and name in the URL | not executed | PdfServer.EscapeLostExample | PdfServer.QuotedRoundTrip |
