# FixMyHyd complaint intake, modelled in Dafny

FixMyHyd is a Flask service through which citizens of Hyderabad report civic
problems. A report carries an image, an optional voice note, optional text and
a location. The service resolves the location, asks a generative-AI service
four times (image analysis, transcription, text analysis, formal report), merges
the classification and stores one complaint row. Administrators can change a
complaint's status or delete it; both actions append to a `status_history`
audit trail. A second module, `database.py`, picks PostgreSQL or SQLite from
`DATABASE_URL`, creates the schema in the matching dialect and seeds a default
administrator. As written it does so only on SQLite. On PostgreSQL, reading the
admin count raises `KeyError` before anything is committed (see "## Findings").

This project models that core and proves properties of the model:

- `common.dfy`: `Option` and `Result`.
- `json.dfy` (`JsonValue`): decoded JSON values, Python truthiness, `dict.get`,
  and the values `sqlite3` can bind.
- `text.dfy` (`Text`): the Python string operations the code relies on: `in`,
  `startswith`, `lower`, `strip`, `replace(x, "")` and `str(int)`.
- `ai_client.dfy` (`AiClient`): the quota-aware retry loop, written once as a
  method with loop invariants and proved against a recursive definition, plus
  the response cleaning and the four stages built on the loop.
- `location.dfy` (`Location`): `reverse_geocode_coordinates` and the
  GPS-first location choice of the intake endpoint.
- `http.dfy` (`Http`): the JSON responses and status codes.
- `store.dfy` (`Store`): the complaint table, the audit trail and the admin
  table as a `ComplaintStore` class. Its methods (`Insert`, `UpdateStatus`,
  `Delete`, `InitDatabase`) are proved against functions on a `Db` value.
- `schema.dfy` (`Schema`): backend choice, dialect, placeholders and the
  seed-once rule of `database.py`, with a `Deployment` class that holds both
  stores.
- `intake.dfy` (`Intake`): `report_issue_endpoint` as a chain of
  specification functions, and the endpoint itself as methods over a
  `ComplaintStore`.
- `intake_properties.dfy` (`IntakeProperties`): the pipeline's guarantees.

Outside code is passed in as parameters: the AI replies for each attempt,
`json.loads`, `float()`, the geocoder, the `:.4f` formatter, the clock and the
password hash. Each `time.sleep` is recorded in a list of waits.

Where the behaviour described for the system differs from the code, the model
follows the code:

- A JSON parse error raised inside the retry loop is checked for
  "429"/"quota" like any other exception, so it is retried if its message has
  a marker. It is not automatically terminal.
- Category and status are stored exactly as received. Neither is checked
  against the fixed lists.
- A committed complaint can have no location string: a zero coordinate skips
  geocoding (`IntakeProperties.CommittedCoordinates`).
- There is no in-memory storage tier. `database.py` chooses between two
  backends by URL, and `app.py` always uses its own SQLite connection.
- The audio stage falls back to its sentinel text when the API key is
  missing, too. It returns `None` only when `max_retries <= 0`.

## Model

| member | source | states |
|---|---|---|
| AiClient.QuotaMarkersAreRetried | app.py:176 | a failure whose message contains "429", or "quota" in any letter case, is classed as retryable |
| AiClient.OtherMessagesAreNotRetried | app.py:176 | a message in which "429" occurs nowhere and "quota" occurs nowhere once lower-cased is not retryable |
| AiClient.QuotaErrorIffMarker | app.py:176 | a message is retryable exactly when "429" occurs in it or "quota" occurs in its lower-cased form |
| AiClient.IsQuotaError | app.py:176 | the retry test; proved by `QuotaMarkersAreRetried`, `OtherMessagesAreNotRetried` and `QuotaErrorIffMarker` |
| AiClient.RetryFrom | app.py:164-182 | the loop from attempt `attempt` on, one iteration per call; proved by `RetryFromShape` |
| AiClient.Retry | app.py:164-182 | the whole loop; `RunWithRetry` equals it, and `RetryShape`, `OtherFailureIsNotRetried`, `QuotaFailuresThenSuccess`, `QuotaOnLastAttemptIsNotRetried` and `LastAttemptDecides` describe it |
| AiClient.Clean | app.py:168 | `strip()` then removal of "```json" and "```"; proved by `CleanRemovesFences`, `CleanUnwrapsFencedBody` and `CleanKeepsPlainText` |
| AiClient.JsonStage | app.py:141-326 | the image, text and report stages; `CallJsonStage` equals it, and `MissingKeyMakesNoAttempt`, `JsonStageResult` and `FencedReplyDecodedAtOnce` describe it |
| AiClient.AudioStage | app.py:191-230 | the transcription stage; `CallAudioStage` equals it, and `MissingKeyMakesNoAttempt`, `AudioStageResult` and `AudioStageDegrades` describe it |
| AiClient.BackoffSchedule | app.py:177-180 | the waits before attempt k are exactly k sleeps of (2**i)*2+7 seconds, i = 0..k-1 |
| AiClient.RunWithRetry | app.py:164-182 | the loop's exit (value returned, exception re-raised, or fell through), attempt count and recorded sleeps are those of the recursive definition `Retry` |
| AiClient.RetryFromShape | app.py:164-182 | from attempt a on: between 1 and max-a attempts; every attempt but the last was a quota failure followed by its backoff; the last attempt's success is returned, or its failure re-raised, and a quota failure is re-raised only on the final allowed attempt |
| AiClient.RetryShape | app.py:164-182 | the same for the whole loop: 1..max_retries attempts, waits = schedule, and no attempt when max_retries <= 0 |
| AiClient.OtherFailureIsNotRetried | app.py:173-182 | a non-quota failure on the first attempt ends the loop after exactly one attempt with no wait |
| AiClient.QuotaFailuresThenSuccess | app.py:164-182 | quota failures on attempts 0..k-1 and success on attempt k < max_retries: k+1 attempts, the success value, waits 9, 11, 15, ... |
| AiClient.QuotaOnLastAttemptIsNotRetried | app.py:176-182 | quota failures on every allowed attempt: max_retries attempts, max_retries-1 waits, the last exception escapes |
| AiClient.DefaultWaits | app.py:164-182 | with the default max_retries = 3 the waits are [], [9] or [9, 11] |
| AiClient.CleanRemovesFences | app.py:168 | the cleaned response text never contains a ``` fence |
| AiClient.CleanUnwrapsFencedBody | app.py:168 | a backtick-free body wrapped as ```json...``` is recovered exactly |
| AiClient.CleanKeepsPlainText | app.py:168 | a trimmed response without backticks reaches the parser unchanged |
| AiClient.CallJsonStage | app.py:141-188 | the image stage (and identically the text stage, app.py:233-277, and the report stage, app.py:280-326) returns the decoded reply, or `None` when the key is missing, an exception escapes the loop, or the loop falls through |
| AiClient.CallAudioStage | app.py:191-230 | the transcription stage returns the reply text, the fallback transcription when anything is raised, or `None` only if the loop falls through |
| AiClient.MissingKeyMakesNoAttempt | app.py:143-146 | without an API key no attempt is made: `None` for JSON stages, the fallback text for audio |
| AiClient.LastAttemptDecides | app.py:164-182 | the loop returns a value exactly when its last attempt succeeded, and returns that attempt's value |
| AiClient.JsonStageResult | app.py:164-188 | a JSON stage yields exactly what its last reply decodes to: a value when the service answered with text that, once cleaned, parses, else `None`; the waits are the backoff schedule |
| AiClient.FencedReplyDecodedAtOnce | app.py:167-172 | a first reply of fenced JSON is decoded after one attempt, with no wait |
| AiClient.AudioStageResult | app.py:191-230 | with a key and at least one attempt: the text of an answered last reply, or the fallback text when that attempt raised; the waits are the backoff schedule |
| AiClient.AudioStageDegrades | app.py:226-230 | the audio stage yields `None` iff a key is set and max_retries <= 0; a missing key or a failing last attempt yields the fallback text |
| Text.StripEmptyIffBlank | app.py:752-753 | `strip()` gives "" exactly for all-whitespace text, and otherwise text that neither starts nor ends with whitespace |
| Text.NoFenceAfterRemoval | app.py:168 | removing every ``` leaves no ``` (pieces cannot join into a new fence) |
| Text.DecimalRoundTrip | app.py:788 | the decimal digits of the epoch second read back as that second |
| Location.ReverseGeocode | app.py:338-366 | the geocoder's address, or the coordinate fallback text; proved by `DegradedGeocodingKeepsCoordinates` |
| Location.ResolveLocation | app.py:700-720 | the GPS-first location choice; proved by `DeviceGpsTakesPriority`, `ZeroCoordinateLeavesNoLocation`, `ManualAddressFallback` and `CoordinatesComeInPairs` |
| Location.DegradedGeocodingKeepsCoordinates | app.py:360-366 | when the geocoder is down or fails, the returned string still contains both formatted coordinates |
| Location.DeviceGpsTakesPriority | app.py:705-708 | with both device fields sent, the typed address plays no part; both coordinates are kept; non-zero ones are geocoded |
| Location.ZeroCoordinateLeavesNoLocation | app.py:718-720 | a zero coordinate is falsy, so nothing is geocoded and the location string stays `None` |
| Location.ManualAddressFallback | app.py:709-715 | without both device fields the typed address is used with no coordinates; with neither the request is refused |
| Location.CoordinatesComeInPairs | app.py:700-722 | a resolved location has both coordinates or neither; it has a location string when it has no coordinates or was geocoded; it was geocoded exactly when both coordinates are non-zero |
| Store.InitSpec | app.py:70-136 | the tables created and the seed; proved by `SeedingIsOnce` and `InitIsIdempotent` |
| Store.InsertSpec | app.py:785-823 | the complaint INSERT with commit or rollback, including the rollback when the `complaints` table was never created; proved by `InsertOutcome` |
| Store.UpdateStatusSpec | app.py:874-901 | the status update and its audit entry, a 404, or the unhandled error of a missing table or an unbindable value; proved by `StatusUpdateIsLogged`, `UnknownIdChangesNothing` and `MissingTableChangesNothing` |
| Store.DeleteSpec | app.py:933-965 | the audit entry then the delete, a 404, or the caught 500 of a missing table; proved by `DeletionIsLogged`, `UnknownIdChangesNothing` and `MissingTableChangesNothing` |
| Store.SeedingIsOnce | app.py:126-133 | the default admin is added only to an empty table; existing admins are kept; seeding twice adds nothing |
| Store.InitIsIdempotent | app.py:70-136 | initialising creates the four tables, leaves at least one admin, keeps complaints and history, and a second run changes nothing |
| Store.InsertOutcome | app.py:785-823 | an INSERT succeeds iff the `complaints` table exists and no engine constraint fails; without the table it rolls back and changes nothing; on success the row gets an id never used before and nothing else changes; on failure nothing changes; a duplicate `ghmc_id` always fails; `ghmc_id` stays unique |
| Store.UnknownIdChangesNothing | app.py:883-887 | with the `complaints` table present, status update and delete of an unknown id both answer 404 and change nothing |
| Store.MissingTableChangesNothing | app.py:874-965 | without the `complaints` or `status_history` table neither operation answers 200 or changes anything; a missing `complaints` table gives the status update an unhandled 500 and the delete a caught 500 "no such table: complaints"; for a stored complaint a missing `status_history` table gives 500 on both |
| Store.StatusUpdateIsLogged | app.py:874-901 | with both tables present, a status update appends exactly one entry whose old status is the prior status, changes only that complaint's status and update time, and answers 200 |
| Store.DeletionIsLogged | app.py:933-965 | with both tables present, a delete appends exactly one `Deleted` entry carrying the last status, then removes that row and no other |
| Store.ApplyKeepsHistory | app.py:874-965 | one operation keeps the store consistent and appends at most one audit entry, keeping the earlier ones |
| Store.HistoryIsAppendOnly | app.py:874-965 | over any sequence of inits, inserts, updates and deletes, the audit trail only grows at its end (at most one entry per operation) and the store stays consistent |
| Store.ComplaintStore.CreateTable | app.py:70-124 | `CREATE TABLE IF NOT EXISTS`: adds the table to the existing ones and changes nothing else |
| Store.ComplaintStore.AddAdmin | app.py:128-133 | appends one admin row and changes nothing else |
| Store.ComplaintStore.InitDatabase | app.py:70-136 | the four `CREATE TABLE IF NOT EXISTS` statements and the conditional seed; the new state is `InitSpec` of the old |
| Store.ComplaintStore.Insert | app.py:785-823 | the INSERT with its commit or rollback (a missing `complaints` table included); the new state and id are `InsertSpec`'s |
| Store.ComplaintStore.UpdateStatus | app.py:874-901 | the update and its audit entry, a 404, or the unhandled error of a missing table or an unbindable value; the new state and response are `UpdateStatusSpec`'s |
| Store.ComplaintStore.Delete | app.py:933-965 | the audit entry then the delete, a 404, or the caught 500 of a missing table; the new state and response are `DeleteSpec`'s |
| Schema.PostgresExactlyForPostgresqlUrls | database.py:11-24 | PostgreSQL is chosen iff `DATABASE_URL` is set and is "postgresql" followed by anything; otherwise the SQLite file is used |
| Schema.PostgresSchemeSelectsSqlite | database.py:15 | a `postgres://` URL does not match the prefix and selects SQLite |
| Schema.Deployment.Connect | database.py:11-24 | the connection goes to the store of the chosen backend |
| Schema.DialectAgreesWithConnection | database.py:31-35 | every DDL statement is in the dialect of the connected backend; the admin insert contains `%s` iff PostgreSQL and `?` iff SQLite |
| Schema.PlaceholderMatchesBackend | database.py:155-161 | the admin insert contains `%s` exactly for PostgreSQL and `?` exactly for SQLite |
| Schema.SameTablesOnBothBackends | database.py:35-145 | both branches create exactly the four tables, each once |
| Schema.SeedOnlyIntoEmptyAdmins | database.py:147-161 | an admin insert is issued iff the admin count is zero |
| Schema.Deployment.InitDatabase | database.py:26-165 | only the connected store changes; its new state is `InitSpec` of the old, which is `InitCorrected`'s; the statements issued are `InitStatements` for the URL and the prior admin count |
| Schema.InitAsWritten | database.py:147-163 | the set-up as written, reading `result[0]` on both backends; proved by `PostgresInitAsWrittenRaises` |
| Schema.InitCorrected | database.py:147-163 | the set-up with the count read by column name on PostgreSQL; proved by `CorrectedInitSeedsOnBothBackends` |
| Schema.PostgresInitAsWrittenRaises | database.py:147-163 | as written, `result[0]` raises exactly for a "postgresql" URL, leaving the database as it was (no table, no seed, even when empty); on SQLite the set-up seeds as `InitSpec` |
| Schema.CorrectedInitSeedsOnBothBackends | database.py:147-163 | reading the count by column name on PostgreSQL gives the admin count on both backends, and the set-up then seeds an empty admin table with the default admin |
| Schema.SelectBackend | database.py:11-24 | the backend test; proved by `PostgresExactlyForPostgresqlUrls` and `PostgresSchemeSelectsSqlite` |
| Schema.AdminInsertSql | database.py:155-161 | the admin insert in each dialect; proved by `PlaceholderMatchesBackend` |
| Schema.InitStatements | database.py:26-163 | the statements `init_database` sends; proved by `InitStatementsInOrder`, `DialectAgreesWithConnection`, `SameTablesOnBothBackends` and `SeedOnlyIntoEmptyAdmins` |
| Schema.SecondInitInsertsNothing | database.py:147-161 | after one initialisation there is an admin, and a second one issues no insert and changes nothing |
| Intake.ReportIssue | app.py:677-722 | the endpoint's response, the store's new state and the services called are those of `IntakeAsWritten` followed by the INSERT (`Respond`); the store stays consistent |
| Intake.ProcessSubmission | app.py:694-802 | everything after line 690 up to the row to insert, shared by the code as written and the intended endpoint; proved by `ValidationPrecedesServices`, `CommitNeedsEveryStage`, `CommitCallTrace` and `EveryStageSucceedingCommits` |
| Intake.IntakeAsWritten | app.py:677-802 | the endpoint as written, with the line-690 crash, up to the row to insert; `ReportIssue` follows it, and `VoiceOnlyReportCrashes` describes the crash |
| Intake.IntakeIntended | app.py:694-696 | the endpoint as its validation message describes it, text or voice being enough; proved by `VoiceOnlyReportAccepted` |
| Intake.FromImage | app.py:726-731 | the image stage, then the rest; proved by `StagesAfterLocation`, `ImageStageCalls` and `ImageStageCommit` |
| Intake.FromDescription | app.py:733-755 | the voice note and the empty-description check, then the text stages; proved by `DescriptionOutcome` |
| Intake.FromText | app.py:757-802 | the text and report stages, then the merge; proved by `TextStagesCalls`, `TextStagesOutcome` and `TextStagesCommit` |
| Intake.Respond | app.py:785-828 | the INSERT answered 201 with the acknowledgement, or rolled back and answered 500; proved by `SubmissionStoresAtMostOne` and `SameSecondSubmissionIsRefused` |
| Intake.GhmcId | app.py:788 | `f"GHMC/HYD/{int(datetime.now().timestamp())}"`; proved by `GhmcIdFormat` and `GhmcIdsOfDifferentSecondsDiffer` |
| Intake.Assemble | app.py:778-802 | the merge and the row; proved by `ClassificationMerge` and `StoredDefaults` |
| Intake.AnalyseImage | app.py:726-731 | the image stage: 500 on a falsy result; otherwise the rest of the pipeline |
| Intake.Describe | app.py:733-755 | the voice note and the empty-description check (500) |
| Intake.ComposeDescription | app.py:733-752 | the transcription kept and the description built are `Transcript` and `Narrative`; the audio service is called iff the audio part has a filename |
| Intake.AnalyseText | app.py:757-828 | the text and report stages, the merge and the INSERT, answered 201 with the acknowledgement or 500 |
| IntakeProperties.TextStagesCalls | app.py:757-776 | the text and report stages call the text service and then, only if it gave a truthy result, the report service, and nothing else |
| IntakeProperties.TextStagesOutcome | app.py:757-776 | the text and report stages end early only with a 500 |
| IntakeProperties.DescriptionOutcome | app.py:733-755 | after the image stage, no image or geocoding call happens again and every early end is a 500 |
| IntakeProperties.StagesAfterLocation | app.py:726-776 | once the location is resolved, the image stage is the first call and every early end is a 500 |
| IntakeProperties.ValidationPrecedesServices | app.py:677-722 | every rejection is 400 or 500; a 400 comes with no service call; a service is called only for a request with an image, text or voice, and a resolved location |
| IntakeProperties.TextStagesCommit | app.py:757-802 | a committed outcome had a truthy text dict and a truthy report dict |
| IntakeProperties.ImageStageCommit | app.py:726-755 | a committed outcome had a truthy image result and a non-empty description, and its decision is that of the text stages |
| IntakeProperties.ImageStageCalls | app.py:726-772 | a committed outcome called the image service, then the audio service if a voice note was sent, then the text stages |
| IntakeProperties.CommitNeedsEveryStage | app.py:677-785 | nothing is inserted unless validation, location, image, description, text and report all succeeded |
| IntakeProperties.CommitCallTrace | app.py:718-772 | a committed report called geocoding (if used), image, audio (if sent), text and report, in that order, each once |
| IntakeProperties.EveryStageSucceedingCommits | app.py:677-802 | conversely, when every stage succeeds with a dict, a row is committed |
| IntakeProperties.ClassificationMerge | app.py:778-779 | category = the text result's, else the image result's, else "Other"; priority = the text result's, else "Medium" |
| IntakeProperties.StoredDefaults | app.py:788-817 | subject, description and zone default to "Untitled Complaint", the narrative and "Unknown"; the acknowledgement's subject defaults to null; location, coordinates, user and `ghmc_id` are the resolved ones |
| IntakeProperties.CommittedCoordinates | app.py:700-722 | a stored complaint has both coordinates or neither; it has them iff both device fields were sent; geocoding happened iff both are non-zero; a missing location string means a zero coordinate |
| IntakeProperties.GhmcIdFormat | app.py:788 | `ghmc_id` is "GHMC/HYD/" followed by digits that read back as the epoch second |
| IntakeProperties.GhmcIdsOfDifferentSecondsDiffer | app.py:788 | different seconds give different identifiers |
| IntakeProperties.SubmissionStoresAtMostOne | app.py:785-823 | the store changes only on a 201, then by exactly one complaint under a fresh id that the acknowledgement reports; the audit trail is untouched |
| IntakeProperties.SameSecondSubmissionIsRefused | app.py:788-823 | a second report in the same second collides on `ghmc_id`, is rolled back, and is not answered 201 |
| IntakeProperties.VoiceOnlyReportCrashes | app.py:683-696 | as written: an image and a voice note with no `description` field ends in an unhandled error before validation and before any service |
| IntakeProperties.VoiceOnlyReportAccepted | app.py:694-696 | as intended (`Intake.IntakeIntended`): the description error is given iff neither text nor voice was sent; a voice-only report with a location reaches the image stage |

## Left out

- Flask routing, sessions, `flash`, the login decorators, templates, the
  dashboard statistics and the user routes: web plumbing outside the core.
- The generative-AI SDK, its prompts and the upload and deletion of the audio
  file: each service is a function from the attempt number to a reply (the
  text stage's replies depend on the description, the report stage's on the
  payload).
- `time.sleep`: recorded as a list of waits. No time passes in the model.
- The Nominatim client, `float()` and the `:.4f` formatting: parameters.
  Coordinates are reals.
- `hash_password`: the salted hash is a parameter string.
- `datetime`: the clock is a natural number of epoch seconds, used for
  `ghmc_id`, `created_at` and `updated_at`. The `created_at` of audit rows is
  not modelled.
- Saving the audio part under `/tmp` and removing it (app.py:740-743): file
  I/O. Failures there are not modelled.
- The SQL engines: tables are maps and sequences. Only these engine failures
  are modelled: a `complaints` or `status_history` table that was never
  created, UNIQUE and NOT NULL violations, and parameters of unsupported
  types (lists and dicts). Not modelled: column types, SQLite type affinity,
  I/O errors, JSON numbers too large for SQLite, and foreign keys. The
  modelled mutations run only on app.py's own SQLite connection, which never
  enables `PRAGMA foreign_keys`. PostgreSQL would enforce
  `REFERENCES complaints(id)` (database.py:81).
- Schema.Deployment.InitDatabase: models database.py with the admin count read
  corrected (`Schema.InitCorrected`), so its PostgreSQL branch creates and seeds
  as if `result[0]` could be read. As written, that branch raises at
  database.py:150 (`Schema.InitAsWritten`, see "## Findings").
- Schema.SecondInitInsertsNothing: describes the corrected set-up. As written,
  a PostgreSQL deployment never completes a first initialisation.
- Store.ComplaintStore.CountAdmins: only returns the number of admin rows.
  `SELECT COUNT(*)` is the engine's work, and the row shape it comes back in is
  `Schema.FetchCountRow`.
- Schema.Deployment.InitDatabase: records which table each statement creates
  and in which dialect, not the DDL text.
- The print and logging lines, except the slice at app.py:690, which raises.
- Store.ComplaintStore.UpdateStatus: the request body is taken to be a JSON
  object. A missing or non-object body, which makes `data.get` raise, is not
  modelled.
- Store.ComplaintStore.Delete: the `except sqlite3.Error` branch is taken only
  for a missing table. No other engine failure is modelled for DELETE.
- Text.Lower: folds ASCII letters only. Full Unicode case mapping is not
  modelled.
- Reading a complaint, listing complaints, and the MongoDB and demo-data
  modules: not part of this model.

## Findings

| source | as written | input that shows it | evidently intended | confidence | as-written member | corrected member |
|---|---|---|---|---|---|---|
| database.py:150 | `result[0]` indexes the row of a `RealDictCursor` (database.py:17), a dict keyed by column name, so on PostgreSQL it raises `KeyError` before `conn.commit()` at database.py:163, and no table is created and no admin seeded | `DATABASE_URL` = "postgresql://host/fixmyhyd", with an empty or a populated database | the count read on both backends, by column name on the dict row (`result['count']`), as the `if is_postgres` on the same line suggests was meant | high, not executed | Schema.PostgresInitAsWrittenRaises | Schema.CorrectedInitSeedsOnBothBackends |
| app.py:690 | the log line slices `text_description[:50]` before the check at line 694, so a form without a `description` field raises `TypeError` | a POST with an `image` part, an `audio` part named `note.webm`, `location_text` = "Ameerpet" and no `description` field | a voice note alone satisfies "Either a text or voice description is mandatory" (`Intake.IntakeIntended` skips the crash) | high, not executed | IntakeProperties.VoiceOnlyReportCrashes | IntakeProperties.VoiceOnlyReportAccepted |

`Intake.ReportIssue` follows the source as written. Everything after the
line-690 crash is the shared function `Intake.ProcessSubmission`, which both
`Intake.IntakeAsWritten` and `Intake.IntakeIntended` use. The two differ only
for a form with no `description` field.
