# BigQuery Table Export Utility — a verified model of the service core

This project models, in Dafny, the backend service that exports BigQuery
tables to CSV objects in Cloud Storage, merges the exported shards into one
(optionally gzip-compressed) CSV object, hands out download URLs, and guards
its web API with Google access tokens.

The model is split along the program's own structure:

- `wrappers.dfy` (`Wrappers`): `Option` and `Result`.
- `text.dfy` (`Text`): the Python string operations the service relies on —
  `str.splitlines(keepends=True)`, UTF-8 byte lengths, Python's string
  order and `sorted`, `str.find`/`str.split`/`str.join`, ASCII `lower()`,
  `str(int)`.
- `errors.dfy` (`Errors`): the `APIError` hierarchy and the four Flask error
  handlers with the JSON bodies they render.
- `settings.dfy` (`Settings`): `AppConfig.__post_init__`, `is_development`
  and `is_production`.
- `storage.dfy` (`Storage`): the Cloud Storage bucket as a gateway. A
  `Store` value is the bucket's state (listing order, contents, and whether
  listing raises and which downloads or deletions raise); the `Bucket` class is the object the
  service holds, whose state changes in place and whose ghost `trace`
  records, in order, the effects the outside world sees. `BlobWriter` is
  the upload stream opened by `blob.open('wb')`, optionally wrapped in a
  `GzipFile`.
- `job_waiter.dfy` (`JobWaiter`): `_wait_for_job`, a polling loop over the
  job's successive reload outcomes and clock readings.
- `merge.dfy` (`Merge`): `merge_csv_files`. `MergeSpec` is the reference
  definition (result, final bucket state, effects); the imperative
  `MergeCsvFiles` runs the source's loops against the `Bucket` and is proved
  to produce exactly what `MergeSpec` says. The lemmas state what the merge
  promises about it.
- `export.dfy` (`Export`): `export_table` and `get_signed_url`.
- `auth.dfy` (`Auth`): `verify_auth_token` and the `before_request` hook.
- `routes.dfy` (`Routes`): the routes of `main.py` — request defaults, the
  dataset and table listings (loops proved against reference functions),
  the download reply, and a proof that every route sits behind the
  authentication hook.

Things the model makes explicit:

- Every client call that can raise is a gateway input that either answers or
  fails with an error text. This covers BigQuery `get_dataset`, `get_table`,
  `extract_table`, `list_datasets` and `list_tables`; the job's `reload`;
  Cloud Storage `list_blobs`, `download_as_bytes` and `delete`; and the
  tokeninfo request. The generated export id and timestamp are inputs too.
- The bucket lists objects in an order of its own. Merging reads the shards
  in ascending name order but deletes them in listing order, and the model
  keeps both orders.
- When compressing, the gzip wrapper is closed first. Leaving the `with`
  block then closes the upload stream. The model assumes, as a property of
  the storage client rather than of the service (see "Left out"), that this
  close commits the destination object also when the block is left by an
  exception. Under that assumption a merge that fails while reading still
  leaves behind an object holding the shards read so far
  (`Merge.MergeReadFailure`).
- The shards deleted are those of the listing taken before the merged object
  is written, so a destination under the source prefix whose name was not
  listed survives the deletion of the sources
  (`Merge.MergeDeletesAllShards`). The model deletes by name. The storage
  client deletes a listed blob by the generation that was listed, so when
  the destination's name was itself listed the model's outcome for that
  name is not the program's (see "Left out").
- A listing that raises (in `export_table` or in `merge_csv_files`) fails
  the call before anything is written, wrapped as "Export failed: ..." or
  "Merge failed: ..." (`Merge.MergeListFailure`).
- A `ValidationError` raised by `merge_csv_files` for an empty listing is
  re-wrapped by its own outer handler as an `ExportError`
  ("Merge failed: No files found with prefix: ..."). `export_table`, by
  contrast, lets `ValidationError` through. An `ExportError` raised by the
  job waiter is re-wrapped by `export_table` and loses its `job_id` details.
- The timeout check is strict (`elapsed > timeout`). Under the clock
  assumption `JobWaiter.SleepAdvances` (the clock never runs backwards, and
  each `sleep(5)` lets at least five seconds pass), the loop makes at most
  `timeout / 5 + 2` reloads.
- The unit tests expect some things the code does not do, and the model
  follows the code:
  - an export with `compression` reported as true by default;
  - a `ValidationError` escaping `merge_csv_files`;
  - a signed URL produced by `generate_signed_url`.

## Model

| member | source | states |
|---|---|---|
| `Errors.ConstructorsAgreeWithTable` | backend/app/utils/error_handlers.py:14-88 | every error class keeps the message, stores `details or {}`, and carries its fixed status (401, 400, 404, 500; the base class the status passed, 400 by default) |
| `Errors.Render` | backend/app/utils/error_handlers.py:28-72 | reference definition: the handler registered for the exception's nearest class renders it; characterised by `Errors.RaisedErrorResponse`, `Errors.RenderStatus` and `Errors.GenericErrorRedacted` |
| `Errors.RaisedErrorResponse` | backend/app/utils/error_handlers.py:14-43 | an `APIError` of any class, built by its constructor and raised, reaches the client with its class's status (the given one for the base class), its message and its details or `{}`, in debug mode or not |
| `Errors.RenderStatus` | backend/app/utils/error_handlers.py:36-72 | the status of every rendered error: the error's own for `APIError` and HTTP errors, 500 otherwise |
| `Errors.GenericErrorRedacted` | backend/app/utils/error_handlers.py:64-72 | outside debug mode two unhandled errors render identically, with the fixed message |
| `Settings.NewAppConfig` | backend/app/config/settings.py:60-76 | reference definition of construction with `__post_init__`; characterised by `Settings.NewAppConfigFailsIff` and `Settings.MissingMessage` |
| `Settings.MissingAmong` | backend/app/config/settings.py:71 | a variable is reported exactly when it is among the required ones and unset or empty |
| `Settings.MissingOrder` | backend/app/config/settings.py:70-71 | the missing variables are reported in the order PROJECT_ID, EXPORT_BUCKET |
| `Settings.MissingMessage` | backend/app/config/settings.py:73-76 | the `ValueError` message for each combination of missing variables, joined by ", " |
| `Settings.NewAppConfigFailsIff` | backend/app/config/settings.py:60-76 | construction fails exactly when a required variable is unset or empty; otherwise both values are kept, non-empty |
| `Settings.IsDevelopment` | backend/app/config/settings.py:78-89 | reference definition of `is_development`; characterised by `Settings.EnvironmentPredicates` |
| `Settings.IsProduction` | backend/app/config/settings.py:91-102 | reference definition of `is_production`; characterised by `Settings.EnvironmentPredicates` |
| `Settings.EnvironmentPredicates` | backend/app/config/settings.py:78-102 | development means "development" or "dev", production "production" or "prod", after lower-casing; never both |
| `Settings.EnvironmentCaseInsensitive` | backend/app/config/settings.py:89-102 | "PROD" and "Dev" are recognised, "staging" is neither |
| `Text.Lower` | backend/app/config/settings.py:89 | lower-casing keeps the length and lowers each character |
| `Text.SplitLines` | backend/app/services/export_service.py:220 | reference definition of `splitlines(keepends=True)`; characterised by `Text.SplitLinesConcat`, `Text.SplitLinesPieces` and `Text.SplitLinesHead` |
| `Text.SplitLinesConcat` | backend/app/services/export_service.py:220 | the pieces of `splitlines(keepends=True)` concatenate back to the text |
| `Text.SplitLinesPieces` | backend/app/services/export_service.py:220 | every piece is non-empty and all but the last end in a line boundary |
| `Text.SplitLinesHead` | backend/app/services/export_service.py:220-224 | the first piece is the first line, and dropping it leaves the rest of the text |
| `Text.Utf8Size` | backend/app/services/export_service.py:227-229 | reference definition of `len(s.encode('utf-8'))` as a sum over code points; characterised by `Text.Utf8SizeAppend` and `Text.Utf8SizeBounds` |
| `Text.Utf8SizeAppend` | backend/app/services/export_service.py:228-230 | byte counts of encoded pieces add up |
| `Text.Utf8SizeBounds` | backend/app/services/export_service.py:228-230 | the UTF-8 byte count lies between one and four bytes per character, one for ASCII text |
| `Text.SortByName` | backend/app/services/export_service.py:214 | `sorted` by name yields a sorted permutation of the listing |
| `Text.SortByNameFirstIsLeast` | backend/app/services/export_service.py:214 | the first shard read is the least name |
| `Text.SortedPermutationUnique` | backend/app/services/export_service.py:214 | for distinct names only one order is sorted, so the read order is determined by the listing's contents |
| `Text.NatToStringRoundTrip` | backend/app/services/export_service.py:164 | the decimal text of the timeout reads back as the timeout |
| `Text.Split` | backend/app/main.py:35 | `str.split(sep)`: the pieces between the occurrences of the separator, scanning left to right; characterised by `Text.SplitJoin`, `Text.SplitPiecesFree` and `Text.SplitOfJoin` |
| `Text.SplitJoin` | backend/app/main.py:63 | splitting the scope string at spaces and joining again gives it back |
| `Text.SplitPiecesFree` | backend/app/main.py:63 | no piece of a split contains the separator |
| `Text.SplitOfJoin` | backend/app/main.py:63 | splitting a space-join of space-free words gives the words back |
| `Storage.Store.ListBlobs` | backend/app/services/export_service.py:196 | the listing holds exactly the bucket's names under the prefix, without repeats |
| `Storage.Store.Download` | backend/app/services/export_service.py:216 | a download succeeds exactly for an existing object without a read fault, returning its content |
| `Storage.Store.Put` | backend/app/services/export_service.py:209 | committing an upload creates or replaces that one object and keeps the bucket well-formed |
| `Storage.Store.Delete` | backend/app/services/export_service.py:247 | a deletion succeeds exactly for an existing object without a delete fault, removing only it |
| `Storage.Bucket.ListBlobs` | backend/app/services/export_service.py:196 | the gateway raises exactly when the bucket's listing faults, with that error, and otherwise gives the state's listing |
| `Storage.Bucket.Download` | backend/app/services/export_service.py:216 | the gateway's download is the state's download |
| `Storage.Bucket.Commit` | backend/app/services/export_service.py:209 | the bucket's new state is the old one with the object put, and the commit is recorded |
| `Storage.Bucket.Delete` | backend/app/services/export_service.py:247 | the bucket changes as the state's deletion says, and is untouched when that fails |
| `Storage.BlobWriter.Write` | backend/app/services/export_service.py:229 | writing appends the text to what the stream holds |
| `Storage.BlobWriter.CloseGzip` | backend/app/services/export_service.py:234-236 | closing the gzip wrapper finalises it and leaves the upload stream open |
| `Storage.BlobWriter.Close` | backend/app/services/export_service.py:209 | leaving the `with` block commits everything written, gzip-encoded when compressing |
| `JobWaiter.StepAt` | backend/app/services/export_service.py:151-166 | one pass returns exactly when the reload reports done without error, goes round exactly when unfinished within the timeout, and otherwise raises an `ExportError` (500) |
| `JobWaiter.ElapsedLowerBound` | backend/app/services/export_service.py:162-168 | at the time check of pass k at least 5k seconds have passed |
| `JobWaiter.LastPassStops` | backend/app/services/export_service.py:162-168 | no pass after `timeout / 5 + 1` goes round again, so the loop ends |
| `JobWaiter.Wait` | backend/app/services/export_service.py:135-173 | reference definition of the polling loop, pass by pass; characterised by `JobWaiter.WaitPasses`, `JobWaiter.WaitOutcome` and `JobWaiter.LastPassStops` |
| `JobWaiter.WaitForJob` | backend/app/services/export_service.py:135-173 | the loop's outcome and reload count are those of the reference `Wait`, with one sleep fewer than reloads |
| `JobWaiter.WaitPasses` | backend/app/services/export_service.py:150-168 | every pass before the last goes round, the last one stops with the outcome, within the bound |
| `JobWaiter.WaitOutcome` | backend/app/services/export_service.py:135-173 | the wait returns normally exactly when the last reload reports done, after unfinished in-time reloads; any raise is an `ExportError` with status 500 |
| `JobWaiter.ErrorBeatsDone` | backend/app/services/export_service.py:153-160 | a reload reporting an error and completion raises "Export job failed" with the job id |
| `JobWaiter.TimeoutIsStrict` | backend/app/services/export_service.py:162-166 | at exactly the timeout the job is polled again; past it the timeout error with its message is raised |
| `JobWaiter.ReloadFailureWrapped` | backend/app/services/export_service.py:170-173 | a failing reload raises "Job monitoring failed: ..." without details |
| `JobWaiter.DoneAtFirstReload` | backend/app/services/export_service.py:150-160 | a job already done returns after one reload, whatever the clock readings, under the clock assumption |
| `Merge.MergeSpec` | backend/app/services/export_service.py:175-264 | reference definition of the whole merge (result, bucket afterwards, effects); characterised by the `Merge.Merge...` lemmas below and implemented by `Merge.MergeCsvFiles` |
| `Merge.Finish` | backend/app/services/export_service.py:238-255 | reference definition of what follows the `with` block; characterised by `Merge.FinishEvents`, `Merge.MergeDeletion` and `Merge.MergeReadFailure` |
| `Merge.ReadShard` | backend/app/services/export_service.py:216-219 | a shard reads exactly when its download works and is UTF-8, giving its text |
| `Merge.ReadShards` | backend/app/services/export_service.py:214-219 | at most one text per shard is read, one for every shard exactly when no read fails |
| `Merge.ReadShardsTexts` | backend/app/services/export_service.py:214-219 | the texts read are those of the leading shards of the order, in order; a failure is that of the next shard |
| `Merge.ReadShardsStuck` | backend/app/services/export_service.py:214-219 | after the first failed read nothing more is read |
| `Merge.ReadShardsFirstFailure` | backend/app/services/export_service.py:214-219 | the failure reported is the first unreadable shard's, after all earlier ones were read |
| `Merge.ShardContribution` | backend/app/services/export_service.py:220-229 | the first shard contributes its whole text, a later one everything after its first line |
| `Merge.MergedShape` | backend/app/services/export_service.py:214-232 | the merged text is the first shard followed by every later shard without its header line |
| `Merge.MergedPair` | backend/app/services/export_service.py:214-232 | two shards merge as the first whole and the second after its first line |
| `Merge.MergedSameHeader` | backend/app/services/export_service.py:222-224 | shards sharing a header give that header once followed by both shards' rows |
| `Merge.HeaderOnlyShards` | backend/app/services/export_service.py:220-224 | an unterminated header-only shard adds nothing after the first |
| `Merge.EmptyFirstShard` | backend/app/services/export_service.py:223-232 | an empty first shard still makes the next one lose its first line |
| `Merge.DeleteAll` | backend/app/services/export_service.py:244-247 | deletions happen in listing order and stop at the first failure, which names the shard |
| `Merge.DeleteAllStuck` | backend/app/services/export_service.py:246-247 | after a failed deletion no later one is tried |
| `Merge.DeleteAllRemoves` | backend/app/services/export_service.py:244-247 | deleting existing shards without faults removes exactly them and leaves every other object unchanged |
| `Merge.DeleteAllEffect` | backend/app/services/export_service.py:244-247 | the deletions done are a prefix of the listing, whose objects are exactly the ones gone |
| `Merge.DeleteAllFailure` | backend/app/services/export_service.py:246-247 | a failed deletion's error is the gateway's error for that shard |
| `Merge.FinishEvents` | backend/app/services/export_service.py:244-247 | after the `with` block the only effects are deletions of listed shards in listing order |
| `Merge.MergeEmptyListing` | backend/app/services/export_service.py:196-198 | an empty listing changes nothing and fails with "Merge failed: No files found with prefix: ..." as an `ExportError` |
| `Merge.MergeListFailure` | backend/app/services/export_service.py:194-264 | a listing that raises leaves the bucket untouched and fails as an `ExportError` (500) "Merge failed: " and the error; any effect at all implies the listing worked and was non-empty |
| `Merge.MergeManifestFields` | backend/app/services/export_service.py:249-255 | the success manifest: "completed", the final name, both flags, the UTF-8 size of the uncompressed text |
| `Merge.MergeFailuresWrapped` | backend/app/services/export_service.py:257-264 | every failure is an `ExportError` (500) starting "Merge failed: " |
| `Merge.MergeEventOrder` | backend/app/services/export_service.py:209-236 | gzip closed first (when compressing), then the commit of the merged text |
| `Merge.MergeDeletionOrder` | backend/app/services/export_service.py:209-247 | after the commit, the only effects are deletions of the listed shards, in listing order |
| `Merge.MergeContent` | backend/app/services/export_service.py:214-232 | shards are read in sorted order, a permutation of the listing; the text is the first shard whole followed by the others without their header lines |
| `Merge.MergeDeletion` | backend/app/services/export_service.py:244-247 | no deletion after a read failure or when not asked; otherwise a prefix of the listing is removed, the merge succeeding exactly when all are |
| `Merge.MergeDeletesAllShards` | backend/app/services/export_service.py:196-247 | with no delete faults every listed shard is gone, and the merged object survives exactly when its name was not in the listing (deletion by name; see "Left out" for a listed destination name) |
| `Merge.MergeReadFailure` | backend/app/services/export_service.py:238-242 | an unreadable shard fails the merge with its error, after committing the text of the shards before it |
| `Merge.CompressionKeepsText` | backend/app/services/export_service.py:201-236 | with and without compression the same merged text is committed: gzip-encoded under the ".gz" name, or as UTF-8 under the name given |
| `Merge.OutputDecodes` | backend/app/services/export_service.py:209-219 | the uncompressed merged object decodes back to the merged text; the compressed one does not decode as UTF-8 |
| `Merge.MergedObjectReadsBack` | backend/app/services/export_service.py:209-219 | the uncompressed merged object, downloaded and decoded as a shard is, gives back the merged text |
| `Merge.MergedSizeIs` | backend/app/services/export_service.py:228-232 | the byte count summed shard by shard is the UTF-8 size of the merged text |
| `Merge.WriteLines` | backend/app/services/export_service.py:227-230 | the line loop appends the lines in order and counts their UTF-8 bytes |
| `Merge.CopyShard` | backend/app/services/export_service.py:216-230 | one shard: the read as `ReadShard` says; when it works, the merged text and its byte count grow by that shard's contribution; otherwise nothing is written |
| `Merge.CopyShards` | backend/app/services/export_service.py:214-232 | the shard loop reads as `ReadShards` says and writes the merged text of what it read |
| `Merge.WriteMerged` | backend/app/services/export_service.py:209-242 | the `with` block leaves the merged text committed under the final name and records the closing effects, on both paths |
| `Merge.DeleteShards` | backend/app/services/export_service.py:245-247 | the deletion loop has the effect and failure `DeleteAll` gives |
| `Merge.FinishMerge` | backend/app/services/export_service.py:244-255 | after the `with` block: the wrapped read error, or the deletions and then the manifest |
| `Merge.MergeCsvFiles` | backend/app/services/export_service.py:175-264 | the merge's result, the bucket afterwards and its effects are exactly those of `MergeSpec` |
| `Export.ExportTable` | backend/app/services/export_service.py:42-133 | reference definition of `export_table` (result and job submitted); characterised by the `Export.Export...` lemmas below |
| `Export.BasePathRule` | backend/app/services/export_service.py:81 | the base path is "prefix/timestamp" for a non-empty prefix and the timestamp otherwise, always ending in the timestamp |
| `Export.ExistenceChecks` | backend/app/services/export_service.py:62-74 | nothing is submitted exactly when the dataset or table is missing; the `ValidationError` names the first missing one |
| `Export.SubmittedJob` | backend/app/services/export_service.py:81-98 | the job exports the requested table to one wildcard URI under the base path, ".gz" exactly when compressing, as CSV with header and comma |
| `Export.ExportManifestFields` | backend/app/services/export_service.py:111-122 | the manifest lists exactly the objects under "{base}/export-" with their count, the id, the base path and the flag |
| `Export.ExportSucceedsIff` | backend/app/services/export_service.py:61-133 | the export succeeds exactly when both exist, the job is submitted, the wait returns and the listing works |
| `Export.ExportFailuresWrapped` | backend/app/services/export_service.py:124-133 | past the checks every failure is an `ExportError` "Export failed: ..." without details, the waiter's message included |
| `Export.GetSignedUrl` | backend/app/services/export_service.py:266-281 | the URL is the console host and bucket followed by the object name |
| `Export.SignedUrlRoundTrip` | backend/app/services/export_service.py:266-278 | the object name reads back from the URL, distinct objects get distinct URLs, and the expiration is ignored |
| `Auth.ScopeCheck` | backend/app/main.py:62-69 | the scope check passes exactly for a string scope that lists the required scope |
| `Auth.VerifyAuthToken` | backend/app/main.py:22-82 | verification succeeds exactly for a "Bearer " header whose token the endpoint accepts with status 200 and the required scope; every failure is a 401 `AuthenticationError` |
| `Auth.Authenticate` | backend/app/main.py:115-129 | paths outside "/api/" pass unchecked; "/api/" paths pass exactly when the token verifies, failing with its 401 error |
| `Auth.VerifyErrorCases` | backend/app/main.py:24-82 | the message for each failure, in the order the checks run |
| `Auth.LowerCaseSchemeRejected` | backend/app/main.py:31-33 | a lower-case "bearer" is a format error |
| `Auth.ExtractToken` | backend/app/main.py:35 | reference definition of `auth_header.split('Bearer ')[1]`; characterised by `Auth.TokenExtraction` |
| `Auth.TokenExtraction` | backend/app/main.py:35 | the token is the text after "Bearer " up to a second "Bearer "; a bare "Bearer " gives the empty token |
| `Auth.ScopeListedWords` | backend/app/main.py:63 | a scope string passes exactly when the required scope is one of its space-separated words |
| `Auth.ScopeCheckOtherValues` | backend/app/main.py:63 | an absent scope is refused, a non-string scope fails with "Authentication failed" |
| `Auth.ScopeWordsExist` | backend/app/main.py:63 | every scope string is the space-join of its space-free words |
| `Auth.OnlyTokenUrlConsulted` | backend/app/main.py:45-57 | only the endpoint's reply for this token's URL matters for the verdict |
| `Auth.AuthenticateGate` | backend/app/main.py:118-129 | "/health" and "/api" are let through; an API path passes exactly when verification succeeds |
| `Routes.DatasetRecordOf` | backend/app/main.py:139-145 | reference definition of one dataset record; characterised by `Routes.FriendlyNameFallback` |
| `Routes.ListDatasetsSpec` | backend/app/main.py:132-149 | reference definition of the dataset listing; implemented by `Routes.ListDatasets` |
| `Routes.DatasetRecords` | backend/app/main.py:136-145 | a listing that succeeds has one record per dataset |
| `Routes.DatasetRecordsMeaning` | backend/app/main.py:136-145 | the listing succeeds exactly when every dataset fetch does, with each dataset's record in order; otherwise it fails with the first failing fetch's error |
| `Routes.DatasetRecordsStuck` | backend/app/main.py:136-149 | after a failed fetch the listing's outcome is fixed |
| `Routes.ListDatasets` | backend/app/main.py:132-149 | the dataset loop returns what the reference listing gives |
| `Routes.FriendlyNameFallback` | backend/app/main.py:141-145 | the friendly name is the dataset's own when non-empty, the id otherwise |
| `Routes.TableRecordOf` | backend/app/main.py:163-188 | reference definition of one table record, full or basic; characterised by `Routes.TableRecordFields` |
| `Routes.ListTablesSpec` | backend/app/main.py:151-196 | reference definition of the table listing; implemented by `Routes.ListTables`, characterised by `Routes.ListTablesOutcome` |
| `Routes.TableRecords` | backend/app/main.py:163-188 | one record per listed table, in order, each built from that table's fetch |
| `Routes.ListTables` | backend/app/main.py:151-196 | the table loop returns what the reference listing gives |
| `Routes.ListTablesOutcome` | backend/app/main.py:154-196 | any dataset fetch failure becomes "Dataset not found: <id>" (400); past it only the listing can fail; one record per table |
| `Routes.TableRecordFields` | backend/app/main.py:165-188 | the full record carries the table's metadata and both timestamps; otherwise type "UNKNOWN", no counts, no timestamps |
| `Routes.ExportRequestOf` | backend/app/main.py:202-208 | export arguments: both ids required (`KeyError` for the first missing), `compression` false by default |
| `Routes.MergeRequestOf` | backend/app/main.py:218-224 | merge arguments: both names required, both flags true by default |
| `Routes.ExportRoute` | backend/app/main.py:198-212 | reference definition of the export route; characterised by `Routes.ExportRouteOutcome` |
| `Routes.ExportRouteOutcome` | backend/app/main.py:198-212 | a missing id renders as a redacted 500; otherwise the export's result or error, rendered with its own status |
| `Routes.MergeRoute` | backend/app/main.py:214-228 | a bad body leaves the bucket untouched; otherwise the merge runs exactly as `MergeSpec` says |
| `Routes.DownloadRoute` | backend/app/main.py:230-241 | the reply holds the object's URL and `expires_in` 3600 |
| `Routes.EveryEndpointAuthenticated` | backend/app/main.py:115-241 | every route lies under "/api/", so a request reaches one exactly when its token verifies, and is refused with 401 otherwise |

## Left out

- I/O is not modelled. That covers the BigQuery and Cloud Storage clients, the tokeninfo HTTP call, the clock and `sleep`. Each is a gateway input, as described above.
- The export id (`uuid4`) and the timestamp (`utcnow().strftime`) are inputs; their formats are not modelled.
- JobWaiter.WaitForJob, Export.ExportTable, Routes.ExportRoute and the `Export` and `Routes` lemmas about them require the clock assumption `SleepAdvances`. Under it the loop ends. The assumption leaves out two kinds of clock: one that stalls, on which the real loop could run forever, and a wall clock (`time.time()`) stepped backwards, on which the real loop still ends but later than the model's bound. Python's float clock readings and their differences are modelled as exact `real` numbers, without rounding.
- Gzip compression is not computed. A compressed object is recorded as the gzip of its text, and only the fact that it does not decode as UTF-8 is used.
- `Storage.Decode`: UTF-8 decoding works on text, not bytes. The text of a `UnicodeDecodeError` is a fixed constant.
- Uploads are modelled as never failing: `open('wb')`, `write` and the close that commits never raise.
- Merge.MergeDeletesAllShards, Storage.Store.Delete: deletion is modelled by name, not by the generation listed. The storage client's `Blob.delete()` on a listed blob targets the generation that was listed. When the destination's name was already in the listing, the merge writes a new generation, and the later delete of the listed one does not remove the merged object. In a bucket without versioning, that delete raises 404 and the merge fails with "Merge failed: 404 ...". The shards listed after it are then not deleted, whereas the model reports success with the merged object gone. When the destination's name is not listed, the two agree.
- Storage.BlobWriter.Close: that leaving the `with merged_blob.open('wb')` block commits the object also when it is left by an exception is an assumption about the storage client's `BlobWriter.__exit__`, not something the service's text settles. A client release that cancels the upload on an exception would leave no object behind, unlike `Merge.MergeReadFailure` and `Merge.MergeDeletion` state.
- Listing iterators are not modelled page by page: each listing either succeeds as a whole or fails.
- Concurrency between requests, and other writers to the bucket, are not modelled.
- Logging (structlog) is not modelled. This includes the token preview in `verify_auth_token`: it cannot fail and has no effect.
- Flask plumbing is not modelled: `create_app`, `create_export_service`, `register_error_handlers`, CORS, `jsonify`, and routing errors such as unknown paths.
- Request bodies: the model assumes a JSON object whose members, when present, are strings (the ids and prefixes) or booleans (the flags). A body that is not a JSON object, a `null` member, and members of other types are not modelled.
- Settings: reading the process environment is not modelled. The optional variables (`BIGQUERY_LOCATION`, `BIGQUERY_JOB_PROJECT`) and the parsing of `DEBUG` are left out as well.
- Text.Lower: `str.lower()` is modelled for ASCII letters only. This is enough for the comparisons with "development", "dev", "production" and "prod" on ASCII environment names.
- Routes.ListTables: `hasattr` on a BigQuery table is always true for these properties, so only their values (possibly unset) are modelled. The `isoformat` text of a timestamp is taken as given.
- The job's `error_result` is modelled as its text only. Its dictionary structure is not modelled.
- The `except` branch of `get_signed_url` cannot be reached on string arguments, so it is not modelled.
- The `bq_export` command-line package, the setup scripts and the test suite are not part of this model.
