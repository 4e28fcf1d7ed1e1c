# Verified model of the BI platform's data movement and administration

This project models, in Dafny, the parts of the platform in which state changes over time and
several pieces of code have to agree with each other, and proves what they promise. Tables are
maps from keys to rows, a SQL statement is an atomic operation on them together with its row
count, and one service call is one transaction. Where the code falls short of what it or its
comments promise, the model follows the code: a lemma gives a failing case, and another one
proves exactly when the promise holds.

| file | what it covers |
|---|---|
| `Wrappers.dfy` | results that may be missing or raise; sequence slices; taking an element of a set |
| `Tables.dfy`, `BatchUpsert.dfy` | the four SQL statements of the loaders and the two-phase batched upsert |
| `DbBatch.dfy` | the watermark-driven incremental batch, as a protocol against a changing source |
| `DiffSync.dfy` | the sync by comparison of primary key sets |
| `CopyText.dfy` | the COPY text printer, and a reader of PostgreSQL's format (COPY command, "File Formats", "Text Format") |
| `SqlFingerprint.dfy`, `FingerprintContent.dfy`, `FingerprintWords.dfy` | the SQL normaliser behind the audit fingerprint, what it lets through of the content of literals, and which statements it keeps apart |
| `Sessions.dfy` | login sessions and the token pairs accepted for them |
| `Calendar.dfy`, `Dashboard.dfy` | periods, trend windows, snapshot reference dates, and the sums over them |
| `OrgTree.dfy`, `Departments.dfy`, `DepartmentEffects.dfy` | the department forest, the recursive walks over it, its changes, and what each call asks and leaves |
| `EtlRegistry.dfy` | who registered which ETL item, and what goes along with a table |
| `TransferTargets.dfy` | handing a table over: the list offered and the checks of the transfer |
| `FileBatch.dfy`, `FileBatchReport.dfy` | the file batch with its watermark, and what its runs report |
| `ChangeLog.dfy` | the change log inside the business transaction |
| `Accounts.dfy`, `AccountEffects.dfy` | suspending, activating and deleting accounts behind the ownership guard, and what each call asks and leaves |
| `MappingSync.dfy` | the table mappings of a project |
| `ColumnNames.dfy` | column names made from file headers |

Check the whole project with `dafny verify dfyconfig.toml`.

## Assumptions

- Primary keys are not NULL. Distinct keys within a frame are a premise where the results need
  it; the upsert's key set and `inserted` are proved for any frame.
- Transform rules, time-zone conversion and casts are the identity on rows.
- In the incremental batch a source change carries no stamp below one already read, except in
  `LateStampExactly`, which says what happens otherwise.
- There is one clock, shared by the application and the database. A signed token is its claims,
  and the stored hash determines the token.
- Department ids come from a sequence; statements fail only where a parameter says so.

## Findings

Places where the code differs from what it, its comments or its documentation say:

- A key repeated inside one upsert batch may keep the earlier row, against the comment at
  `load_service_file.py:340` (`RepeatsExactly`, `RepeatsMayKeepTheEarlierRow`).
- A database batch cancelled while rows arrive out of stamp order can lose rows for good
  (`EarlyEndExactly`, `UnorderedCancelLosesARow`). The watermark is read before the run is
  claimed, so a run that another one overtook can take it back (`TakesBackExactly`,
  `FinishTakesBackExactly`, `StaleRunTakesItBack`); rows are then read again and none is missed
  (`NothingIsMissed`).
- Diff sync drops microseconds from datetime keys and then looks the shortened key up, so such
  rows never arrive, and a key without microseconds stays away while the target holds one of the
  same second (`ConfusedExactly`, `SyncCompletesExactly`, `MicrosecondKeyNeverArrives`,
  `SameSecondHides`).
- Logout and invalidation set the expiry to the current instant while the checks refuse only an
  earlier expiry, so at that instant a session can come back (`EndedExactly`,
  `SameInstantExactly`, `SameInstantExists`); renewing within one second reissues the same access
  token (`OldAccessSurvivesExactly`).
- The SQL normaliser drops comments before it reads literals, so a comment between two literals
  changes the fingerprint (`ContentIsInvisible`, `ContentShowsExactly`, `MarksShow`).
- In a timestamp column the trend counts deliveries in the course of the last day of a period, be
  it a day, a week or a month, and the summary of that period does not (`BucketIsSummary`,
  `TrendAgreesWithSummary`); the daily trend then has several rows with one label.
- The branch walk of the transfer list and the branch predicate differ for department 0
  (`BranchAgreesExactly`); the offered list is right all the same (`OfferedAreAccepted`).
- A file batch cut between two files of one stamp never attempts the second one
  (`CutRunExactly`, `TieIsLost`). The watermark and the list are read before the run is claimed,
  so two runs that start together can both attempt every file, against the comment at
  `batch_executor_file.py:159` (`StaleClaimExactly`, `StaleClaimRepeats`).
- The change tracker says it never interrupts the business transaction, but its snapshot SELECTs
  run outside any savepoint (`UndisturbedExactly`, `SnapshotFailureExists`).
- The ownership guard swallows errors of its ETL scan; one such error lets an account be
  suspended with ETL items and a later run register tables in its name (`RunKeepsExactly`,
  `ScanFailureExists`, `DeleteCleansExactly`).
- Handing a table over takes the giver's ETL items for it along without asking for the receiver's
  ETL right (`ReceiverFitsExactly`, `CascadeExists`).
- One of the two ways to change a role has no ownership guard (`SetRoleFitsExactly`,
  `SetRoleIsUnguarded`).
- The two mapping forms treat a blank table type differently (`FormsAgreeExactly`).

## Model

| member | source | states |
|---|---|---|
| `BatchUpsert.CalcBatchSize` | Backend/etl_server/load_service_file.py:46-50 | the result is the largest row count whose parameters fit the limit (one more row would not), at least one row, and exactly one for rows wider than the limit |
| `BatchUpsert.ParamsWithinLimit` | Backend/etl_server/load_service_file.py:41-50 | every statement a load can send stays within MAX_PARAMS if and only if the column count itself does |
| `Tables.AssignMeaning` | Backend/etl_server/load_service_file.py:540-557 | for a stored and an incoming row of one key, the SET clause yields the incoming row and the IS DISTINCT FROM test holds exactly if the rows differ |
| `BatchUpsert.TwoPhases` | Backend/etl_server/load_service_file.py:508-557 | INSERT .. DO NOTHING then UPDATE .. FROM VALUES, on a batch without repeated keys, leaves the old table overridden by the batch whichever matching row the UPDATE picks |
| `BatchUpsert.TwoPhasesCount` | Backend/etl_server/load_service_file.py:536-557 | the UPDATE hits exactly the keys that were stored before and whose row really changes |
| `BatchUpsert.OnlyKeys` | Backend/etl_server/load_service_file.py:516-523 | with key columns only, the UPDATE would hit nothing, so the branch that skips it loses nothing |
| `BatchUpsert.NothingToUpdate` | Backend/etl_server/load_service_file.py:533-534 | when the insert rowcount equals the batch size the UPDATE would hit nothing: the early continue is sound, for any batch |
| `BatchUpsert.UpdateFromValues` | Backend/etl_server/load_service_file.py:553-557 | the statement turns the table into one a VALUES list may produce and reports the number of rows hit |
| `BatchUpsert.Target.LoadBatch` | Backend/etl_server/load_service_file.py:508-557 | one batch, shortcuts included, has the effect and both rowcounts of insert-then-update |
| `BatchUpsert.Target.Upsert` | Backend/etl_server/load_service_file.py:471-560 | for any frame and any batch size the key set becomes old keys plus frame keys and `inserted` is the growth; without repeated keys the table is the old one overridden by the frame and `updated` counts exactly the really changed rows |
| `BatchUpsert.RetryConverges` | Backend/etl_server/batch_executor_db.py:518-542 | loading any prefix and then the whole frame gives the table of one uninterrupted pass, repeated keys included |
| `BatchUpsert.SecondPassIsQuiet` | Backend/etl_server/batch_executor_db.py:518-542 | loading the same frame again finds nothing to insert and nothing to change |
| `BatchUpsert.StagingAgrees` | Backend/etl_server/db_load_service.py:1016-1038 | the staging ON CONFLICT DO UPDATE succeeds exactly on batches without repeated keys and then computes the same table as the two-phase upsert |
| `BatchUpsert.RepeatsExactly` | Backend/etl_server/load_service_file.py:340 | a repeated key is sure to end with its later row, as the comment promises, if and only if every repeat equals the stored row or the last row of its key |
| `BatchUpsert.RepeatsMayKeepTheEarlierRow` | Backend/etl_server/load_service_file.py:536-557 | a concrete batch for which the comment's promise fails |
| `DbBatch.StepKeeps` | Backend/etl_server/batch_executor_db.py:465-576 | source changes, starting from any watermark the job has had, loading a chunk, finishing, cancelling in stamp order and failing each keep: a stamped source row agrees with the target or a SELECT from any of these watermarks returns it |
| `DbBatch.NothingIsMissed` | Backend/etl_server/batch_executor_db.py:210-356 | the invariant holds over every interleaving of source changes with runs that finish, raise part-way or are cancelled in stamp order, each of which may have read its watermark before other runs ended |
| `DbBatch.FreshJobIsFine` | Backend/etl_server/batch_executor_db.py:332-338 | a job without a watermark starts inside the invariant whatever the target holds |
| `DbBatch.AlwaysPossible` | Backend/etl_server/batch_executor_db.py:332-343 | the interleavings allowed: the source may delete any row and write any row stamped no lower than what was read, and a run may be cancelled or fail at any time |
| `DbBatch.EarlyEndExactly` | Backend/etl_server/batch_executor_db.py:466-468 | ending a run early keeps every row reachable if and only if each row it leaves behind is stamped at or above the largest stamp loaded |
| `DbBatch.CancelKeeps` | Backend/etl_server/batch_executor_db.py:562-576 | when the rows arrive in stamp order, ties included, a cancelled run misses nothing |
| `DbBatch.FailKeeps` | Backend/etl_server/batch_executor_db.py:595-623 | a run that raises after committing some chunks misses nothing, since it writes no watermark |
| `DbBatch.UnorderedCancelLosesARow` | Backend/etl_server/batch_executor_db.py:356 | without stamp order a cancel can lose a row for good: a concrete run |
| `DbBatch.LateStampExactly` | Backend/etl_server/batch_executor_db.py:336-343 | a change stamped below the watermark is missed if and only if the target does not already hold that row |
| `DbBatch.WatermarkNeverDecreases` | Backend/etl_server/batch_executor_db.py:571-576 | over every play in which each run reads the watermark it finds at its claim, unordered cancels included, the watermark never goes back |
| `DbBatch.TakesBackExactly` | Backend/etl_server/batch_executor_db.py:210-243 | a run that ends, finished or cancelled, stores the largest stamp among the rows its chunks loaded, if one is stamped; it takes the watermark back if and only if that stamp is below the watermark at the claim |
| `DbBatch.FinishTakesBackExactly` | Backend/etl_server/batch_executor_db.py:571-576 | a finished run does so if and only if its SELECT sees some stamped row and every stamped row it sees is below the watermark at the claim |
| `DbBatch.StaleRunTakesItBack` | Backend/etl_server/batch_executor_db.py:210-243 | a concrete run that had read its watermark before another one ended takes it back from 5 to 3, and misses nothing by it |
| `DbBatch.ChunksAreOneLoad` | Backend/etl_server/batch_executor_db.py:465-551 | loading a snapshot in chunks of any sizes, with any source changes in between, has the target and the largest stamp of loading its rows at once |
| `DbBatch.FinishedRunMatchesSnapshot` | Backend/etl_server/batch_executor_db.py:465-576 | after a finished run, whatever the source did during it, the target equals the snapshot read on its keys and is untouched elsewhere |
| `DbBatch.FinishedRunSynchronises` | Backend/etl_server/batch_executor_db.py:332-576 | a finished run leaves every row that was stamped at its SELECT in the target as it then was, from a stale watermark too |
| `DbBatch.UnstampedArrivesExactly` | Backend/etl_server/batch_executor_db.py:332-343 | a row with a NULL stamp that the target lacks arrives with a finished run if and only if the run has read no watermark |
| `DbBatch.EffectiveBatchSize` | Backend/etl_server/batch_executor_db.py:271-276 | the configured size when positive, otherwise 10000, and never more than 10000 for MySQL |
| `DbBatch.DbBatchJob.LoadAndCommit` | Backend/etl_server/batch_executor_db.py:518-542 | one committed chunk overrides the target by the chunk's rows |
| `DbBatch.ChunksFit` | Backend/etl_server/batch_executor_db.py:465-471 | the fetches a run needs are just enough for all its rows, and one fewer would not do |
| `DbBatch.DbBatchJob.LoadNext` | Backend/etl_server/batch_executor_db.py:469-551 | one fetch that delivers rows: loaded, committed, and the largest stamp so far kept |
| `DbBatch.DbBatchJob.FetchLoop` | Backend/etl_server/batch_executor_db.py:465-551 | the fetch loop is left at the first poll that finds a cancel, the first fetch or load that raises, or the fetch that delivers nothing, with the full chunks before that point loaded |
| `DbBatch.DbBatchJob.RunJob` | Backend/etl_server/batch_executor_db.py:462-623 | with n the fetches the order needs, the run raises if and only if the failing fetch or load is at most the n-th and comes before any cancel, is cancelled if and only if a cancel is found at one of the first n + 1 polls and no failure comes before it, and completes otherwise; exactly the chunks before that point are loaded; a run that raises leaves the watermark as it was, any other stores the largest stamp loaded, if one is stamped; and it is a play of the protocol with the matching end |
| `DbBatch.RunLeaves` | Backend/etl_server/batch_executor_db.py:546-576 | the same of every play of a run with full chunks: which rows are loaded and where the watermark is, by its end |
| `DbBatch.RunIsAPlay` | Backend/etl_server/batch_executor_db.py:462-576 | hence every result about plays applies to a run of the job |
| `DbBatch.RunIgnoresSourceChanges` | Backend/etl_server/batch_executor_db.py:462-576 | source changes during a run do not alter what it does: with them taken out, the run of the job leads to the same target and watermark |
| `DiffSync.ConfusedExactly` | Backend/etl_server/db_load_service.py:560-582 | two keys are normalised alike if and only if they have the same length and each pair of components is equal or is two datetimes of the same second |
| `DiffSync.NormalizedExactly` | Backend/etl_server/db_load_service.py:578-581 | the normalised key is the one key without microseconds that is alike to the stored one |
| `DiffSync.Normalize` | Backend/etl_server/db_load_service.py:560-582 | normalising a key keeps its length and leaves alone exactly the components that carry no microseconds |
| `DiffSync.FetchPkValues` | Backend/etl_server/db_load_service.py:601-658 | whatever the fetch size, the collected set is the set of normalised keys |
| `DiffSync.ArrivalsMeaning` | Backend/etl_server/db_load_service.py:1158-1174 | the rows a sync copies are the source rows whose stored key has no microseconds and is alike to no stored target key; the rows it deletes likewise the other way round |
| `DiffSync.ExistingRowsKept` | Backend/etl_server/db_load_service.py:1206-1314 | existing rows keep their values, added rows carry the source's, and nothing the source has is deleted |
| `DiffSync.SyncedHas` | Backend/etl_server/db_load_service.py:1157-1314 | which keys the target has afterwards, key by key, from the stored keys of both sides: by whether they carry microseconds and whether the other side has one of the same second |
| `DiffSync.SyncCompletesExactly` | Backend/etl_server/db_load_service.py:1157-1314 | with orphan deletion the key sets end equal if and only if every difference was visible to the normalised comparison |
| `DiffSync.GrowthCompletesExactly` | Backend/etl_server/db_load_service.py:1157-1295 | without deletion the target covers the source's keys if and only if the missing ones were visible |
| `DiffSync.ExactKeysSync` | Backend/etl_server/db_load_service.py:1157-1314 | for keys without microseconds the sync is the plain set difference on both sides |
| `DiffSync.SecondRunIsQuiet` | Backend/etl_server/db_load_service.py:1157-1174 | an immediate second run inserts and deletes nothing, for every input |
| `DiffSync.MicrosecondKeyNeverArrives` | Backend/etl_server/db_load_service.py:578-581 | a new source row whose key has microseconds is never copied |
| `DiffSync.SameSecondHides` | Backend/etl_server/db_load_service.py:1157-1174 | a new row is not copied while the target holds another key of the same second, and that one is not deleted either |
| `DiffSync.MicrosecondKeyExists` | Backend/etl_server/db_load_service.py:578-581 | a concrete source for which the sync leaves the key sets different |
| `DiffSync.DiffTarget.InsertSlices` | Backend/etl_server/db_load_service.py:1206-1295 | the 1000-key slices insert each arriving row once and count them; a cancelled run has inserted whole slices only |
| `DiffSync.DiffTarget.DeleteSlices` | Backend/etl_server/db_load_service.py:1296-1314 | the delete slices remove exactly the orphan keys and report how many rows went |
| `DiffSync.DiffTarget.RunDiffSync` | Backend/etl_server/db_load_service.py:1125-1331 | an uncancelled run within the size limit turns the target into the synced table and counts exactly the stored keys of each side that have no microseconds and no key of the same second on the other side; a cancelled one has copied and counted some of the new ones and deleted nothing; over the limit it raises and changes nothing |
| `CopyText.CopyBuf` | Backend/etl_server/db_load_service.py:983-991 | the loop builds the buffer of the padded and truncated rows, one line each |
| `CopyText.FourPassesAreOne` | Backend/etl_server/db_load_service.py:976-980 | the four whole-string replacements equal one pass that escapes each character |
| `CopyText.SerializeFaithful` | Backend/etl_server/db_load_service.py:956-980 | two cells print alike if and only if they mean the same database value, so NULL, the empty string and the text \N stay distinct |
| `CopyText.ReadEscaped` | Backend/etl_server/db_load_service.py:976-980 | reading an escaped text adds exactly it to the current field: no content ends a cell or a row or looks like the end marker |
| `CopyText.EndMarkerEnds` | Backend/etl_server/db_load_service.py:976-980 | why the backslash is escaped: a line that starts with an unescaped end marker ends the data, whatever follows |
| `CopyText.BufferReads` | Backend/etl_server/db_load_service.py:983-991 | with at least one column and row, the lines of the buffer read as the rows' meanings |
| `CopyText.CopyRoundTripExactly` | Backend/etl_server/db_load_service.py:983-1003 | reading the buffer into the same columns by the COPY text format returns exactly the padded and truncated matrix if and only if there is a row |
| `SqlFingerprint.ReplaceQuotedLiterals` | Backend/core/sql_fingerprint.py:49-81 | the two-index scanner computes the recursive literal replacement |
| `SqlFingerprint.ScanTokensExactly` | Backend/core/sql_fingerprint.py:49-81 | scanning a printed token list gives the plain text with a placeholder for each literal if and only if no two literals of one quote touch |
| `FingerprintContent.ContentIsInvisible` | Backend/core/sql_fingerprint.py:33-81 | two statements that differ in literals only are normalised to the same text when no literal touches one of its own quote and each block comment lies in one literal or begins and ends outside literals |
| `FingerprintContent.UnmarkedIsContained` | Backend/core/sql_fingerprint.py:33-81 | literals without comment marks meet that condition |
| `FingerprintContent.ContentShowsExactly` | Backend/core/sql_fingerprint.py:33-81 | with one kind of quote and no comment mark outside literals, a statement is normalised like one that meets the condition if and only if it meets it itself: a comment between literals merges them and loses placeholders |
| `FingerprintContent.MarksShow` | Backend/core/sql_fingerprint.py:33-46 | two statements that differ in literals only and are normalised apart, because comments are dropped before literals are read |
| `FingerprintContent.MixedQuotesHide` | Backend/core/sql_fingerprint.py:33-46 | with two kinds of quote a comment between literals can leave as many placeholders as there were: two such statements that are normalised alike |
| `SqlFingerprint.ReplacesAllQuotes` | Backend/core/sql_fingerprint.py:49-81 | no quote character survives the scan |
| `FingerprintWords.PlainFingerprintExactly` | Backend/core/sql_fingerprint.py:33-46 | two statements without quotes and comments are normalised alike if and only if their white-space-separated words agree up to the case of ASCII letters |
| `FingerprintWords.SameFingerprintExactly` | Backend/core/sql_fingerprint.py:33-46 | any two statements are normalised alike if and only if this holds of the words left of them when comments and literals are out |
| `FingerprintWords.NormalizedText` | Backend/core/sql_fingerprint.py:44-46 | the normalised text is those words, lower-cased and joined by single blanks |
| `FingerprintWords.CommentIsBlank` | Backend/core/sql_fingerprint.py:38 | a block comment reads as one blank, wherever it stands outside another one |
| `FingerprintWords.LineCommentIsBlank` | Backend/core/sql_fingerprint.py:40-44 | a line comment reads as the blank at the end of its line |
| `FingerprintWords.SpacesByCode` | Backend/core/sql_fingerprint.py:40-45 | code by code, what strip and the regular expression take for white space and what splitlines takes for a line end |
| `SqlFingerprint.NormalizeIsNormal` | Backend/core/sql_fingerprint.py:33-46 | the normalised text has no quote, no comment, no upper-case ASCII letter, single blanks only and none at its ends |
| `SqlFingerprint.NormalIsFixed` | Backend/core/sql_fingerprint.py:33-46 | a text of this kind is left as it is |
| `SqlFingerprint.NormalizeIdempotent` | Backend/core/sql_fingerprint.py:33-46 | normalising twice is normalising once |
| `Sessions.OnlyTheLastPair` | Backend/auth_server/deps.py:104-137 | over every run and at any later time only the last pair handed out for a session is accepted for it |
| `Sessions.EmptySystemIsLogged` | Backend/auth_server/service.py:408-448 | a system without sessions satisfies the premise of the previous row |
| `Sessions.EndedExactly` | Backend/auth_server/service.py:487-722 | after a logout, an invalidation, a suspension or a removal, no token of the session is accepted after any call of a run if and only if no call names the session while its guard is met |
| `Sessions.EndedForEver` | Backend/auth_server/service.py:687-722 | with calls at distinct instants, no token of a session that was ended so is accepted after the run, reactivation of the account included |
| `Sessions.SameInstantExactly` | Backend/auth_server/service.py:496-498 | a call at the very instant of the ending brings the session back if and only if it was a logout or an invalidation and the call would be accepted of the row as it was, expiring at this instant: the expiry test is strict |
| `Sessions.SameInstantExists` | Backend/auth_server/service.py:687-702 | a concrete row that had expired long before and accepts a token again at the instant of its logout |
| `Sessions.AllIssuedAlways` | Backend/auth_server/service.py:408-683 | in every reachable state each stored pair is one issued at some instant, which the next row builds on |
| `Sessions.AcceptedCarriesChoice` | Backend/auth_server/service.py:473-683 | over every run and at any later time each token that is accepted carries the project chosen for its session: by a rotation its project, by a refresh the previous one while it is valid, by a login, a clear or a refresh with an invalid project none |
| `Sessions.ChoiceSticks` | Backend/auth_server/service.py:480-620 | after a call that hands out a pair, as long as only refreshes with a still valid project name the session, every token accepted for it carries what that call chose: after a rotation to a project that project, after a login, a clear or a refresh whose project is gone none |
| `Sessions.PairCarriesChoice` | Backend/auth_server/service.py:408-683 | claim by claim, what a handed pair carries: user, current department, session, the chosen project in both tokens, and the seconds at which the two expire; its row is open for the configured days |
| `Sessions.EmptySystemHolds` | Backend/auth_server/service.py:408-448 | a system without sessions satisfies the premise of these rows |
| `Sessions.AcceptedUntilExactly` | Backend/auth_server/deps.py:77-161 | a pair that is left alone is accepted to the second: the access token for the configured minutes while the row is open, the refresh token for the configured days |
| `Sessions.OtherRowsStay` | Backend/auth_server/service.py:473-722 | only an ending or an accepted renewal of a session changes its row |
| `Sessions.OldAccessSurvivesExactly` | Backend/auth_server/service.py:556-605 | after a renewal the access token it replaces is still accepted, while it decodes, if and only if the owner is in the department it was issued for, the same project is asked for, and both were issued within one second |
| `Sessions.SameExpExactly` | Backend/auth_server/security.py:97-163 | two access tokens carry the same expiry claim if and only if they were issued in the same second |
| `Sessions.AuthService.FetchDptmtIdOrRaise` | Backend/auth_server/service.py:305-328 | succeeds exactly for an active, unlocked account and returns its department |
| `Sessions.AuthService.VerifyLoginComplete` | Backend/auth_server/service.py:408-448 | the whole new state of a login, and claim by claim its pair, without a project; a refused login changes nothing |
| `Sessions.AuthService.RefreshSessionTokens` | Backend/auth_server/service.py:473-544 | the whole new state of a refresh, and claim by claim the pair: both tokens carry the project of the given token if it is still valid, otherwise none; a refused one changes nothing |
| `Sessions.AuthService.RotateSessionTokensWithProject` | Backend/auth_server/service.py:548-620 | the whole new state of a rotation to a project, and claim by claim the pair, both of whose tokens carry the project; a refused one changes nothing |
| `Sessions.AuthService.RotateSessionTokensClearProject` | Backend/auth_server/service.py:624-683 | the whole new state of a rotation that clears the project, and claim by claim the pair, neither of whose tokens carries one; a refused one changes nothing |
| `Sessions.AuthService.LogoutOneSession` | Backend/auth_server/service.py:687-702 | exactly the named session of that user is closed at the current instant |
| `Sessions.AuthService.InvalidateAllSessions` | Backend/auth_server/service.py:706-722 | exactly the sessions of that user are closed at the current instant |
| `Sessions.AuthService.RequireActiveAccess` | Backend/auth_server/deps.py:77-161 | accepts a token exactly if it decodes, the account is usable, and the session row is open and stores this token |
| `Calendar.CivilRoundTrip` | Backend/campaign_dash_server/campaign_period.py:25-37 | day numbers and year-month-day dates of the Gregorian calendar correspond one to one in both directions |
| `Calendar.RangeParts` | Backend/campaign_dash_server/campaign_period.py:25-37 | the summary range runs from the bucket to the last day of the period and exists except in the unfinished last week of the year 9999 |
| `Calendar.RangeMeaning` | Backend/campaign_dash_server/campaign_period.py:25-37 | the range is the day itself, a Monday-to-Sunday week, or every date of that year and month |
| `Calendar.RangeIsBucket` | Backend/campaign_dash_server/campaign_period.py:75-95 | a date lies in the summary range of another exactly if SQL's date_trunc puts both in one bucket, and then both have the same range |
| `Calendar.PreviousIsDayBefore` | Backend/campaign_dash_server/campaign_period.py:41-53 | the previous range equals the summary range of the day before the period, and is missing exactly for the period that opens the calendar |
| `Calendar.SameDayPrevMonthMeaning` | Backend/campaign_dash_server/router.py:171-180 | the result is the latest date of the previous month whose day is not after the given day |
| `Calendar.ReferenceNeedsNoClamp` | Backend/campaign_dash_server/router.py:184-198 | the previous-snapshot reference date lies in the previous range, leap years and January included, so clamping is the identity; it is missing exactly when that range is |
| `Calendar.AnchorNeedsNoClamp` | Backend/campaign_dash_server/router.py:163-167 | clamping the anchor to its own range is the identity |
| `Calendar.TrendWindowStart` | Backend/campaign_dash_server/campaign_period.py:75-95 | each of the three forms, the month loop included, returns the first day of the period `count - 1` (or `days - 1`) before, or raises when the calendar ends first |
| `Calendar.WindowIsRanges` | Backend/campaign_dash_server/campaign_period.py:75-95 | the period k before is the k-th repetition of the previous-range function and opens the window |
| `Calendar.WindowSize` | Backend/campaign_dash_server/campaign_period.py:75-95 | the window is exactly k + 1 days, weeks or months long |
| `Calendar.WindowHoldsWholePeriods` | Backend/campaign_dash_server/campaign_period.py:65-95 | with any of its dates the window holds that date's entire summary range |
| `Dashboard.GroupingKeepsTotals` | Backend/core/dashboard_service.py:205-253 | however a query groups its rows, the group sums add up to the ungrouped sum |
| `Dashboard.GroupsExactly` | Backend/core/dashboard_service.py:205-253 | a grouped query has a row for a key exactly if some kept fact has that key |
| `Dashboard.RowsMatchKpi` | Backend/core/dashboard_service.py:256-349 | aggregated rows under any grouping flags, and the per-channel distribution, add up to the KPI total of the same request |
| `Dashboard.OneFactMore` | Backend/core/dashboard_service.py:162-182 | one more row adds its own column to each measure if and only if its date lies in the range and every list of the request that is not empty names its campaign, workflow and channel |
| `Dashboard.FilterIsGroup` | Backend/core/dashboard_service.py:162-182 | asking for one campaign, workflow or channel counts what falls to it in the request that does not ask |
| `Dashboard.OneGroupExactly` | Backend/core/dashboard_service.py:136-159 | two rows fall into one group if and only if they agree in every column asked for, campaigns and workflows with their labels |
| `Dashboard.BucketIsSummary` | Backend/campaign_dash_server/router.py:658-714 | a fact in the window is counted under the label of a date, be it a day, a week or a month, exactly if the summary query of that date keeps it or it was delivered, in a timestamp column, in the course of the last day of a period before the last one |
| `Dashboard.TrendAgreesWithSummary` | Backend/campaign_dash_server/router.py:676-714 | the trend rows with one label add up to the summary total of any date of that period plus the sum of those late facts, so they agree exactly when that sum is 0 |
| `Dashboard.OneRowPerLabel` | Backend/campaign_dash_server/campaign_period.py:82-95 | weekly and monthly trends, and daily ones of a date column: what they count under a label is the one row keyed by its midnight |
| `Dashboard.ChannelRowsAgree` | Backend/campaign_dash_server/router.py:676-714 | split by channel, the rows with one label add up to that period's per-channel summary value plus the late facts of the channel |
| `Dashboard.DatesAreNeverLate` | Backend/core/dashboard_service.py:47 | a column of type date has no late facts, so there the trend equals the summary |
| `Dashboard.WindowTotal` | Backend/campaign_dash_server/router.py:85-110 | the summary totals of a period and the k periods before it, with the facts delivered in the course of the last days in between, add up to the total over their common range |
| `Dashboard.TrendAddsUp` | Backend/campaign_dash_server/router.py:676-714 | the trend rows add up to the window total, and this is the sum of the summary totals of the window's periods and of those facts |
| `Dashboard.DatesAddUp` | Backend/core/dashboard_service.py:47 | for a column of type date there are none, so the trend rows add up to the summary totals |
| `OrgTree.WalkDown` | Backend/admin_server/service_users.py:1836-1853 | the recursive query terminates on a forest and finds exactly the departments below the root, with or without department 0 |
| `OrgTree.WalkUp` | Backend/admin_server/service_users.py:2793-2801 | the upward recursive query terminates and finds exactly the start and its ancestors other than 0 |
| `OrgTree.DptmtIdInManagedSubtree` | Backend/admin_server/service_users.py:1829-1853 | true exactly if neither department is 0 and the node is the root or below it |
| `OrgTree.DptmtSameVerticalBranch` | Backend/admin_server/service_users.py:1856-1869 | true exactly if neither is 0 and they are equal or one is above the other |
| `OrgTree.BranchOf` | Backend/admin_server/service_users.py:2783-2806 | the branch rows are exactly the walk down joined with the walk up |
| `OrgTree.UpIsDown` | Backend/admin_server/service_users.py:1829-1869 | away from department 0, being found by the walk up from b is having b found by the walk down |
| `OrgTree.BranchIsVertical` | Backend/admin_server/service_users.py:2783-2806 | away from department 0 the down-and-up walk agrees with the same-vertical-branch predicate |
| `OrgTree.BranchAgreesExactly` | Backend/admin_server/service_users.py:2783-2806 | walk and predicate agree for every department if and only if the walk does not start at an existing department 0 |
| `OrgTree.SubtreeOrder` | Backend/admin_server/service_users.py:1829-1853 | in a forest subtrees are reflexive, nest, and never contain each other |
| `OrgTree.AssertInviteDptmtAllowed` | Backend/admin_server/service_users.py:1208-1250 | decides exactly the invitation rule on departments, by the walk that includes 0 |
| `Departments.StepKeeps` | Backend/admin_server/service_users.py:2240-2360 | every call keeps the parents a forest and every department reference of users, projects, roles, invites and children alive |
| `Departments.RunKeeps` | Backend/admin_server/service_users.py:1989-2360 | the same in every reachable state, so the recursive walks terminate and nothing dangles |
| `Departments.ParentsAreFixed` | Backend/admin_server/service_users.py:2294-2360 | over any run a department's parent never changes and a deleted department never comes back |
| `Departments.DeleteIsClean` | Backend/admin_server/service_users.py:2240-2276 | a successful delete removes exactly that row, no row names it, and it is absent after every continuation |
| `Departments.DeleteChangesNoWalk` | Backend/admin_server/service_users.py:2240-2276 | deleting a department changes no walk between the others |
| `Departments.UsedExactly` | Backend/auth_server/service.py:88-160 | an invitation that is not withdrawn stays as it was sent and is marked used if and only if some signup of the run went through with its code |
| `Departments.InviteLeadsToDept` | Backend/auth_server/service.py:88-160 | whatever happens meanwhile, a signup with the code goes through if and only if none did before, the code has not expired, the address is the invited one and new, and the user id and password are good; it opens the account in the department of the invitation, which still exists |
| `Departments.SwitchOffThenDelete` | Backend/admin_server/service_users.py:2066-2276 | a department that was switched off can be deleted at once by the same actor, and its users, and only they, are then in the target, which is still in use |
| `DepartmentEffects.InvitedBy` | Backend/admin_server/service_users.py:1012-1020 | by the invited role, who may invite to it |
| `DepartmentEffects.DepartmentCallsGoThrough` | Backend/admin_server/service_users.py:1957-2360 | creating, deleting and switching a department go through if and only if the actor administers it (or the parent) and, where it is to go, no row of the five tables names it |
| `DepartmentEffects.MovingOutGoesThrough` | Backend/admin_server/service_users.py:2109-2237 | with a target for its accounts a department is switched off if and only if nothing but accounts names it and the target exists, is in use, is another one and is within the actor's reach |
| `DepartmentEffects.AccountCallsGoThrough` | Backend/admin_server/service_users.py:1073-1250 | invitations, new organisations, moves, projects and roles go through if and only if the listed conditions on the rows hold |
| `DepartmentEffects.DepartmentAfter` | Backend/admin_server/service_users.py:2109-2376 | one department through any call: existence, parent and use |
| `DepartmentEffects.UserAfter` | Backend/auth_server/service.py:88-231 | one account through any call: existence, role, department and address |
| `DepartmentEffects.InvitationAfter` | Backend/admin_server/service_users.py:1073-1205 | one invitation through any call; a new one is valid for seven days |
| `DepartmentEffects.ReferencesLive` | Backend/admin_server/service_users.py:2240-2360 | in every reachable state, table by table, each row names a department that exists |
| `Departments.OrgService.AssertActorCanManage` | Backend/admin_server/service_users.py:1957-1985 | decides exactly who may manage a department |
| `Departments.OrgService.CreateDepartment` | Backend/admin_server/service_users.py:2294-2376 | the whole new state of a creation, with a new id; a refusal changes nothing |
| `Departments.OrgService.DeleteDepartment` | Backend/admin_server/service_users.py:2240-2291 | the whole new state of a deletion, or the refusal and no change |
| `Departments.OrgService.UpdateDepartmentUse` | Backend/admin_server/service_users.py:2109-2237 | the whole new state of switching a department on or off, the user move undone when rows still refer to it |
| `TransferTargets.EligibleIsCandidate` | Backend/admin_server/service_users.py:2770-2852 | every active user the filter would pass is in the candidate union of branch, linked projects and sa_dev |
| `TransferTargets.OfferedAreAccepted` | Backend/admin_server/service_users.py:2726-2879 | the offered users are exactly the users the transfer accepts, and where the list raises every transfer raises |
| `TransferTargets.UnionNeedsAllParts` | Backend/admin_server/service_users.py:2807-2852 | a concrete organisation in which accepted users come only from the participants and only from sa_dev |
| `TransferTargets.AcceptsExactly` | Backend/admin_server/service_users.py:2686-2722 | apart from the other checks, a transfer to a user who is neither sa_dev nor sa or a of the owner's branch goes through if and only if some linked project is active, has the query feature on and lists the user as a participant with query.execute |
| `TransferTargets.WithoutTheRightNobody` | Backend/admin_server/service_users.py:2711-2722 | taking the grant away in every linked project, closing these projects, or switching their query feature off removes such a user from the list and makes the transfer refuse |
| `TransferTargets.OneProjectSuffices` | Backend/admin_server/service_users.py:2711-2722 | one linked project with all three makes the transfer go through if and only if the other checks pass, and the user is then offered |
| `TransferTargets.ParticipantNeedsTheGrant` | Backend/admin_server/service_users.py:2711-2722 | a concrete participant without the grant who is a candidate, is neither offered nor accepted, and with the grant is |
| `TransferTargets.TransferService.TableMasterRecipientEligible` | Backend/admin_server/service_users.py:2686-2722 | the loop over the linked projects decides the eligibility rule that `AcceptsExactly` reads off the state |
| `TransferTargets.TransferService.CandidatesFor` | Backend/admin_server/service_users.py:2777-2852 | collects exactly the candidate union |
| `TransferTargets.TransferService.ListTargets` | Backend/admin_server/service_users.py:2726-2879 | the returned list holds, without repeats, exactly the users to whom the transfer would succeed; it raises only when no transfer would |
| `TransferTargets.TransferService.TransferTableMaster` | Backend/admin_server/service_users.py:3121-3257 | succeeds exactly if every check passes; then the creator of that table and the owner of the giver's ETL items for it change and nothing else; a refusal changes nothing |
| `TransferTargets.TransferredItems` | Backend/admin_server/service_users.py:706-790 | afterwards the receiver has its own ETL items and the giver's for the table, and everybody else keeps theirs |
| `EtlRegistry.RegistryDb.CascadeTransfer` | Backend/admin_server/service_users.py:706-790 | the SELECT and the two UPDATEs hand over exactly the giver's definitions of the table and the giver's jobs for them |
| `EtlRegistry.HandOverExactly` | Backend/admin_server/service_users.py:706-790 | then nothing of the giver's is linked to the table, what is linked to other tables still is, and third users keep theirs |
| `FileBatch.SortExactly` | Backend/etl_server/parser_file.py:84-87 | the sort is ascending by stamp and keeps listing order within a stamp |
| `FileBatch.PendingExactly` | Backend/etl_server/parser_file.py:57-90 | pending files are exactly the matching names after the watermark and not in the future, oldest first, none twice |
| `FileBatch.GetPendingFiles` | Backend/etl_server/parser_file.py:57-90 | the collecting loop computes the pending list |
| `FileBatch.FileBatchJob.AttemptFiles` | Backend/etl_server/batch_executor_file.py:195-411 | the per-file loop attempts the files up to the first cancellation or stopping failure, records each, sums its rows and stores the last attempted stamp |
| `FileBatch.FileBatchJob.ProcessFiles` | Backend/etl_server/batch_executor_file.py:195-430 | the claimed run's new job state and report |
| `FileBatch.FileBatchJob.RunBatchJob` | Backend/etl_server/batch_executor_file.py:117-430 | an uninterleaved run: nothing recorded when there is nothing to do, otherwise the state and report of its to-do list |
| `FileBatch.ClaimKeeps` | Backend/etl_server/batch_executor_file.py:195-411 | a run whose list lies beyond the watermark at the claim keeps: no file twice, stamps in order, watermark at the last attempt, never back |
| `FileBatch.SequentialIsFresh` | Backend/etl_server/batch_executor_file.py:117-151 | a run nothing interleaves with has such a list |
| `FileBatch.RunsKeep` | Backend/etl_server/batch_executor_file.py:117-411 | the same over any sequence of such runs, cancelled, stopped or complete; the log only grows |
| `FileBatch.BehindIsNeverAttempted` | Backend/etl_server/parser_file.py:86-90 | a file at or below the watermark that was not attempted never is |
| `FileBatch.CompleteRun` | Backend/etl_server/batch_executor_file.py:195-430 | an uncancelled run that continues past failures attempts every file it set out for once, in order; totals are the sums over the results and the status tells whether any failed |
| `FileBatchReport.AttemptsExactly` | Backend/etl_server/batch_executor_file.py:195-411 | the loop ends before the first file at which it finds a cancellation, behind the first failed file when told to stop, or at the end, whatever comes first |
| `FileBatchReport.RowsExactly` | Backend/etl_server/batch_executor_file.py:212-400 | each reported row by the outcome of its file: done, skipped or error, and rows counted only for loaded files |
| `FileBatchReport.TotalsExactly` | Backend/etl_server/batch_executor_file.py:195-430 | the totals are the rows of the loaded files among those attempted |
| `FileBatchReport.StatusExactly` | Backend/etl_server/batch_executor_file.py:402-430 | the status of a run from the outcomes alone: error, cancelled, skipped, partial error or success |
| `FileBatchReport.TakenUpExactly` | Backend/etl_server/batch_executor_file.py:117-151 | a matching file is taken up if and only if its stamp is after the watermark and not in the future and none of the last 200 runs skipped it or failed at it |
| `FileBatchReport.AttemptsInOrder` | Backend/etl_server/batch_executor_file.py:117-411 | over any sequence of fresh runs, any two attempts: different files, in stamp order, the watermark at the last one |
| `FileBatch.CutRunExactly` | Backend/etl_server/batch_executor_file.py:117-210 | after a cut run that nothing interleaved with, the next run sets out to attempt a file left over if and only if nothing had been attempted or its stamp is greater than the last attempted one; all of them if and only if this holds of the first |
| `FileBatch.TieIsLost` | Backend/etl_server/batch_executor_file.py:195-210 | when they tie, no later run attempts the next file |
| `FileBatch.StaleClaimExactly` | Backend/etl_server/batch_executor_file.py:126-160 | a run that read its list before another one ended takes the watermark back at some attempt if and only if its first stamp is below the watermark found at the claim |
| `FileBatch.StaleClaimRepeats` | Backend/etl_server/batch_executor_file.py:126-241 | two runs that read the same list before either claims attempt every file twice, however the second attempts turn out; with the checksum test the second adds no row from a file the first one loaded, and such a file is then listed as skipped |
| `ChangeLog.DiffIsExact` | Backend/core/change_tracker.py:216-230 | applying a difference to the old row gives the new one, undoing it gives the old one, and it is empty exactly between rows that read the same |
| `ChangeLog.ComputeDiff` | Backend/core/change_tracker.py:216-230 | the key loop computes the difference |
| `ChangeLog.Connection.CaptureBefore` | Backend/core/change_tracker.py:164-213 | the snapshot without personal columns, and the transaction state a failing SELECT leaves |
| `ChangeLog.Connection.RecordChange` | Backend/core/change_tracker.py:233-305 | one entry is appended, or nothing at all changes |
| `ChangeLog.Connection.TrackUpdate` | Backend/core/change_tracker.py:308-357 | the whole transaction state after a tracked update, for every combination of failing statements |
| `ChangeLog.Connection.TrackDelete` | Backend/core/change_tracker.py:360-393 | the state before the delete is executed, with its entry logged when a snapshot was seen |
| `ChangeLog.Connection.TrackInsert` | Backend/core/change_tracker.py:396-427 | the state after the insert with its entry logged when the row was seen |
| `ChangeLog.Connection.TrackedStatement` | Backend/core/change_tracker.py:308-427 | any tracked statement as the services write it |
| `ChangeLog.LogFailureIsHarmless` | Backend/core/change_tracker.py:248-301 | a failing log INSERT leaves the business rows and the ability to commit as without tracking |
| `ChangeLog.UndisturbedExactly` | Backend/core/change_tracker.py:164-213 | tracking leaves rows and ability to commit as without it if and only if no snapshot SELECT that is really sent fails |
| `ChangeLog.SnapshotFailureExists` | Backend/core/change_tracker.py:6-7 | a concrete update that tracking loses, against the promise never to interrupt the business transaction |
| `ChangeLog.LogIsHistory` | Backend/core/change_tracker.py:308-427 | with no failure, and for every sequence of tracked statements, each entry is the exact step between the visible table before and after it, in both directions, snapshots included |
| `ChangeLog.ReplayGivesCurrent` | Backend/core/change_tracker.py:308-427 | so replaying the log over the initial visible table gives the current one, and undoing it from the current one, deleted rows from their snapshots, gives the initial one |
| `ChangeLog.HistoryExists` | Backend/core/change_tracker.py:308-427 | a concrete run that inserts, changes and deletes a row, with its three entries |
| `ChangeLog.RowsAreWritten` | Backend/core/change_tracker.py:308-427 | key by key, the rows after a tracked statement that does not fail |
| `ChangeLog.LoggedExactly` | Backend/core/change_tracker.py:330-340 | an update is logged exactly if the row exists and a non-personal column changes |
| `Accounts.Section` | Backend/admin_server/ownership_guards.py:116-142 | a section blocks all its items or none |
| `Accounts.BuildPayload` | Backend/admin_server/ownership_guards.py:95-331 | changeable exactly if nothing blocks; every owned kind is listed as blocking or counted as kept, never both |
| `Accounts.GuardAgrees` | Backend/admin_server/service_users.py:502-532 | the lists the guard collects decide the same as the ownership predicate on the tables |
| `Accounts.StepKeeps` | Backend/admin_server/service_users.py:1368-1594 | every call keeps: the creator of a project, custom role, widget board or department other than 0 is an active account; of tables and ETL items too unless it suspends a user registered for an ETL item |
| `Accounts.RunKeeps` | Backend/admin_server/service_users.py:1368-1594 | the first part in every reachable state, whatever scans fail |
| `Accounts.StepKeepsExactly` | Backend/admin_server/service_users.py:485-499 | for tables and ETL items a call keeps it if and only if it does not suspend a user registered for an ETL item |
| `Accounts.RunKeepsExactly` | Backend/admin_server/service_users.py:485-499 | along a run no inactive account ever owns a guarded resource, tables and ETL items included, if and only if no call of the run is such a suspension |
| `Accounts.OnlyFailedScansHarm` | Backend/admin_server/service_users.py:485-499 | such a suspension goes through only when the ETL scan fails |
| `Accounts.ScanFailureExists` | Backend/admin_server/service_users.py:485-499 | a concrete run in which one swallowed scan error leads to a table registered in the name of a suspended account |
| `Accounts.DeleteCleansExactly` | Backend/admin_server/service_users.py:1491-1594 | deleting an inactive account leaves no row naming it if and only if it registered no system role, no department 0 and no ETL item hidden by a failed scan |
| `Accounts.OffboardingExactly` | Backend/admin_server/service_users.py:1368-1610 | some series of accepted transfers, a suspension and the deletion leave no row that mentions a user if and only if everything that blocks the user has an eligible receiver (ETL items may go along with a table) and the user registered no system role and no department 0 |
| `Accounts.TransferMovesExactly` | Backend/admin_server/service_users.py:3104-3540 | an accepted transfer changes the owner of the resource and, with a table, of the giver's ETL items for it, and of no other modelled resource |
| `Accounts.ReceiverFitsExactly` | Backend/admin_server/service_users.py:3121-3257 | the receiver may own all it gets if and only if it is no table, or the receiver's role is valid and it is sa_dev, has ETL rights, or no ETL items come along |
| `Accounts.CascadeExists` | Backend/admin_server/service_users.py:3243 | a concrete transfer after which a user without ETL rights owns ETL items |
| `Accounts.ManageFitsExactly` | Backend/admin_server/service_users.py:3931-3950 | after a guarded role change the user owns only what the new role may own if and only if the scan worked, the user may own ETL items afterwards, or has none |
| `Accounts.SetRoleFitsExactly` | Backend/admin_server/service_users.py:1614-1681 | after an unguarded role change this holds if and only if the guard would have let the change through |
| `Accounts.SetRoleIsUnguarded` | Backend/admin_server/service_users.py:1614-1681 | a concrete role change that leaves an operator as creator of a project |
| `AccountEffects.HandledBy` | Backend/admin_server/service_users.py:1346-1365 | by the role of the account, who may suspend, activate or delete it |
| `AccountEffects.RightsByRole` | Backend/admin_server/ownership_guards.py:30-52 | by role and ETL right, which kinds of resource a user may own after a change, and which he may be handed |
| `AccountEffects.LifecycleGoesThrough` | Backend/admin_server/service_users.py:1346-1594 | a suspension, activation or deletion goes through if and only if the actor handles the account and, but for an activation, nothing the guard sees is registered for the user and nobody else was invited by him |
| `AccountEffects.RoleCallsGoThrough` | Backend/admin_server/service_users.py:3931-3950 | a guarded role change goes through if and only if everything the guard sees of the user fits the new role and right; the unguarded one asks for the roles alone |
| `AccountEffects.JoiningGoesThrough` | Backend/auth_server/service.py:88-231 | when a signup, a new organisation, an invite code, a participation and a login go through |
| `AccountEffects.HandingOverGoesThrough` | Backend/admin_server/service_users.py:3104-3540 | when a transfer goes through, by the owner, the receiver's activity, role and right, and the kind |
| `AccountEffects.AccountAfter` | Backend/admin_server/service_users.py:1368-1681 | one account through any call: which calls bring it, take it and set each of its fields |
| `AccountEffects.CodeAfter` | Backend/auth_server/service.py:88-160 | one invite code through any call: a signup uses it up, only its creator's deletion removes it, and it carries the ETL right only when sa or sa_dev issued it so |
| `AccountEffects.ParticipationAfter` | Backend/admin_server/service_users.py:1491-1594 | one participation through any call |
| `AccountEffects.OwnerAfter` | Backend/admin_server/service_users.py:3104-3540 | the owner of one resource through any call but a transfer |
| `AccountEffects.TableIsRegisteredFor` | Backend/etl_server/table_master_hook.py:38-155 | a run registers its table for the owner of the definition the job serves, else for the owner of the job |
| `AccountEffects.RowsOfOthersStay` | Backend/admin_server/service_users.py:1491-1594 | a deletion touches no session, login or notification of anybody else |
| `AccountEffects.EtlRightHasASource` | Backend/admin_server/service_users.py:3931-4020 | over every run: a user who has the ETL right had it before, was given it by a role change, or signed up with a code that carries it |
| `AccountEffects.EtlCodeHasAnIssuer` | Backend/auth_server/service.py:88-160 | over every run: such a code was there before or was issued so by an account that was sa or sa_dev then |
| `AccountEffects.OpensOnce` | Backend/auth_server/service.py:88-160 | over every run: a code opens at most one account unless it is issued anew |
| `AccountEffects.CreatorsAreActive` | Backend/admin_server/service_users.py:1368-1594 | in every reachable state, kind by kind, whoever is registered for a project, custom role, widget board or department other than 0 has an active account |
| `AccountEffects.OwnersAreActive` | Backend/admin_server/service_users.py:485-499 | the same with tables and ETL items, as long as no account registered for an ETL item is suspended |
| `Accounts.AccountService.Evaluate` | Backend/admin_server/service_users.py:502-532 | the guard's lists and payload decide exactly the ownership rule |
| `Accounts.AccountService.SuspendUser` | Backend/admin_server/service_users.py:1368-1430 | the whole new state of a suspension, or the refusal and no change |
| `Accounts.AccountService.ActivateUser` | Backend/admin_server/service_users.py:1433-1488 | the whole new state of an activation, or the refusal and no change |
| `Accounts.AccountService.DeleteInactiveUser` | Backend/admin_server/service_users.py:1491-1610 | the whole new state of a deletion, statement by statement, or the refusal and no change |
| `MappingSync.MappingTable.Normalize` | Backend/admin_server/service_projects.py:165-189 | raises exactly if some entry names a missing or non-main table; otherwise returns the first entry of each table whose flags are not both off, one per table |
| `MappingSync.MappingTable.SyncWithUsage` | Backend/admin_server/service_projects.py:150-287 | the project's rows become exactly the wanted ones with their flags, other projects are unchanged, and a raise changes nothing |
| `MappingSync.MappingTable.SyncIds` | Backend/admin_server/service_projects.py:290-317 | raises exactly for a missing table; otherwise syncs the listed tables of type main with both flags on |
| `MappingSync.SyncedOnce` | Backend/admin_server/service_projects.py:150-287 | the specification determines the rows |
| `MappingSync.SyncedAgain` | Backend/admin_server/service_projects.py:150-287 | syncing the same entries again changes nothing |
| `MappingSync.WantedExactly` | Backend/admin_server/service_projects.py:165-189 | a table gets a row if and only if its first entry sets one of the flags, with the flags of that entry |
| `MappingSync.FormsAgreeExactly` | Backend/admin_server/service_projects.py:290-317 | the older form has the effect of the flagged form with both flags on if and only if every listed table is of type main or one does not exist |
| `ColumnNames.NormalizedIsIdentifier` | Backend/etl_server/load_service_file.py:96-99 | the cleaned name is a non-empty word of [A-Za-z0-9_] without underscores at its ends |
| `ColumnNames.NormalizeIdempotent` | Backend/etl_server/load_service_file.py:96-99 | cleaning a cleaned name changes nothing |
| `ColumnNames.WhiteSpaceIsIrrelevant` | Backend/etl_server/load_service_file.py:96-99 | what counts as white space does not affect the result |
| `ColumnNames.NormalizedIsCore` | Backend/etl_server/load_service_file.py:96-99 | the clean name is the header from its first to its last letter or digit, every other character in between an underscore |
| `ColumnNames.BlankIsCol` | Backend/etl_server/load_service_file.py:96-99 | a header without a letter or digit becomes col |
| `ColumnNames.DecimalReads` | Backend/etl_server/load_service_file.py:109-110 | the suffix reads as its number and has no leading zero |
| `ColumnNames.FirstFreeIs` | Backend/etl_server/load_service_file.py:103-112 | a free header keeps its name; a taken one gets an underscore and the least number from 1 on that makes it free |
| `ColumnNames.DecimalInjective` | Backend/etl_server/load_service_file.py:109-110 | different numbers have different decimal suffixes |
| `ColumnNames.FindFree` | Backend/etl_server/load_service_file.py:106-110 | the numbering loop ends for every set of used names and finds the free candidate with the least suffix |
| `ColumnNames.NormalizeForSequence` | Backend/etl_server/load_service_file.py:103-112 | the name returned is that candidate, is new, and is added to the used names |
| `ColumnNames.RenameColumns` | Backend/etl_server/load_service.py:161-171 | the names of a file are, in order, first free candidates of their headers, identifiers, pairwise different and not used before |
| `ColumnNames.RenamedOnce` | Backend/etl_server/load_service.py:421-427 | the headers determine the names |

## Left out

- Drivers and I/O: database cursors, SFTP and S3, pandas reading, mail, HTTP routing, connection pools, the JWT and bcrypt libraries.
- Transform rules, time-zone conversion, type inference and casts, and the log, notification and audit texts.
- Full-mode loads, tables without a primary key, and the row-by-row fallback of the loaders.
- The strict `>` variant of the incremental load (`run_db_load`), which does not re-read ties.
- Mapped loads in which a mapped column is missing from the target, and composite keys whose mapping order differs from the key order.
- BatchUpsert.Target.Upsert: does not fix the final row and the `updated` count of a frame with repeated keys, because PostgreSQL does not fix which VALUES row wins; `RepeatsExactly` says when it does not matter.
- BatchUpsert.Target.LoadBatch: does not model the text casts in the UPDATE, because values are compared as stored.
- DiffSync.Normalize: does not model decimals and floats with a fractional part, because the interesting loss is in datetimes.
- DiffSync.DiffTarget.RunDiffSync: does not model the second size check, on the new keys, because it cannot fire once the first one has passed.
- SqlFingerprint.NormalizeIdempotent: lower-cases ASCII letters only, because other case mappings are outside the model of characters.
- CopyText.SerializeFaithful: takes the printed form of dates, decimals and JSON as given text, because only its escaping is at stake.
- Sessions.AuthService.VerifyLoginComplete: does not model the one-time code and its expiry, because they are decided before a session exists.
- Departments.InviteLeadsToDept: takes the checks on the user id and the password as one parameter, because they do not depend on the state, and does not model the project a code may join, because `Accounts.Step` does.
- Accounts.OffboardingExactly: takes the scope checks of the transfers as fixed for each resource and receiver, because they look at roles, departments and project membership, which transfers leave alone.
- EtlRegistry.RegistryDb.CascadeTransfer: does not model that the ETL registry is committed before the system database, because statements fail only where a parameter says so, and numbers the items of all kinds together.
- CopyText.CopyRoundTripExactly: says what the text format makes of an empty column list, although the grammar of the COPY command has none.
- FingerprintContent.ContentIsInvisible: goes one way for statements with two kinds of quote, because there the converse fails (`MixedQuotesHide`), and with comment marks outside literals, because a line comment can cut off the difference; `ContentShowsExactly` is the case where it goes both ways.
- Accounts.TransferMovesExactly: does not model the items of a widget board, whose creator column follows the board, because no guard reads it.
- The call that sets or clears the ETL right of a user alone (`set_user_etl_flag`).
- Calendar.TrendWindowStart: does not model the SQL text it returns beside the date; `Calendar.Bucket` is its meaning.
- Rates, percentages and distinct counts of the dashboard, and the order of its rows.
- TransferTargets.TransferService.ListTargets: does not model the order by e-mail address, because it only affects display.
- Dashboard.BucketIsSummary: takes a timestamp as day and time in the session's time zone, because the conversion of zoned timestamps is the database's.
- The transfer of other resource types, beyond what `Accounts.Step` asks of their recipients; scope checks there are one boolean parameter.
- Accounts.DeleteCleansExactly: does not model foreign keys, which may make the database refuse such a delete, nor tables outside the modelled ones.
- Departments.StepKeeps: does not model the checks on names, codes and the target's role in a department move, because they only refuse more calls.
- FileBatch.PendingExactly: does not model the regular expression for file names, because a name's stamp is a parameter.
- FileBatch.RunsKeep: does not model a manual reset of the watermark, after which files may be attempted again.
- FileBatch.FileBatchJob.ProcessFiles: does not model errors of the bookkeeping database itself, because they end the process's run from outside the loop.
- ChangeLog.ReplayGivesCurrent: does not model nested JSON values, because rows of the tracked tables are compared column by column.
- ChangeLog.Connection.RecordChange: does not model a failing ROLLBACK TO SAVEPOINT, which means the connection is gone.
- MappingSync.MappingTable.SyncIds: does not remove repeated ids before looking them up, because the flagged form drops them with the same effect.
- Interleavings inside one service call: each call is one atomic step, except for the runs of the two batches.
