# Voice-memo app core in Dafny

This project models the logic of a Next.js voice-memo web application and proves properties of it.
One Dafny module stands for each source file of the core:

- `PersistenceGateway` (`db.dfy`): the database gateway. A module-level pool and an error flag are
  rebuilt lazily. A query is retried up to three times with linearly growing waits.
- `UserIdSetup`, `UserIdGenerate`, `UserUtils`, `UserIdDisplay`: user identities.
  - The sequence table holds 9999 zero-padded slots, and setup seeds it in batches inside a transaction.
  - Allocation hands out the smallest free slot as a zodiac id `animal-NNNN`.
  - The client caches the id in a key-value store.
  - The UUID and zodiac id formats are checked by anchored patterns.
  - A policy decides how an id is displayed.
- `SttLong`, `SttMock`, `UploadGcs`: the transcription helpers.
  - `SttLong` chooses the encoding for a MIME type, joins the transcripts and extracts errors from a recogniser failure.
  - `SttMock` is the deterministic demo recogniser.
  - `UploadGcs` names the audio object and composes its `gs://` URI.
- `MemoRoute`, `AnalyzeMemo`: the memo API and the analysis route.
  - The memo API lists, inserts and deletes rows of the memo table, per owner.
  - The analysis route returns a placeholder when no key is configured and fills in defaults.
- `VoiceMemoPage`, `DownloadExport`, `TimeDisplay`, `MemoItem`: client-side logic.
  - `VoiceMemoPage` is the recorder page's state.
  - `DownloadExport` is the CSV and JSON export, quoting fields as section 2 of RFC 4180 describes.
  - `TimeDisplay` is the friendly time label.
  - `MemoItem` is the preview truncation.
- `Emotions`, `AutomaticThoughts` and the generic `Lookup`: the two constant tables and their lookups.
- `Middleware`, `TerminalRoute`, `TerminalPage`: guards and small state machines.
  - `Middleware` is the maintenance redirect.
  - `TerminalRoute` guards commands, caps the output streams and answers at most once.
  - `TerminalPage` is the web terminal's line editor, history cursor, command parsing and `cd` resolution.

`Wrappers` holds `Option` and `Result`. `Js` gives the JavaScript string operations the code uses
(`trim`, `includes`, `split`, `join`, `padStart`, string order, truthiness) and JSON values.

Anything the code receives from outside is an input of the model:

- the database driver's statement outcomes;
- the speech recogniser, the storage bucket and the language-model endpoint;
- `fetch` replies;
- the clock and `Math.random`;
- `JSON.parse`, which is a partial function returning an `Option`;
- `JSON.stringify`;
- environment variables.

Objects whose fields the code updates in place are classes: the gateway, the slot table, the
seeder, the id store, the memo table, the recorder page, the export page, the time label, the
terminal run and the line editor. Each of their methods is proved to produce the state of a pure
step function, and the lemmas about those functions carry the properties.

## Model

| member | source | states |
|---|---|---|
| PersistenceGateway.CreatePoolSpec | src/lib/db.ts:26-37 | succeeds exactly when the driver does; a success installs a healthy pool under a handle no earlier creation gave out; a failure is rethrown with the flag set and the old pool and the counter kept; a pool in use always has an issued handle |
| PersistenceGateway.GetPoolSpec | src/lib/db.ts:40-46 | the current pool is reused unless there is none or the error flag is set; a pool handed out is the current one and the flag is down |
| PersistenceGateway.AttemptSpec | src/lib/db.ts:68-103 | a failed attempt leaves no pool and the error flag set; a successful one returns exactly what `execute` produced, with a live pool and no teardown |
| PersistenceGateway.RunAttempts | src/lib/db.ts:64-109 | from any attempt on, the loop makes at most the remaining attempts, a success returns that attempt's result, and a failure means all three were used |
| PersistenceGateway.ExecuteQueryAttempts | src/lib/db.ts:64-109 | `executeQuery` makes one to three attempts and returns the first success, or throws after the third failure |
| PersistenceGateway.RunStopsAtFirstSuccess | src/lib/db.ts:72-78 | a successful attempt ends the loop with no further waits; going on to the next attempt happens only after a failure |
| PersistenceGateway.AllFailed | src/lib/db.ts:81-108 | when all attempts fail, no pool remains, the flag is set and the error thrown is the third attempt's |
| PersistenceGateway.FailedAttemptRebuilds | src/lib/db.ts:83-94 | after a failed attempt the next `getPool` must build a fresh pool |
| PersistenceGateway.RunWaits | src/lib/db.ts:96-102 | the loop waits 1000·k ms after failed attempt k whenever another attempt follows, one wait per extra attempt |
| PersistenceGateway.ExecuteQueryWaits | src/lib/db.ts:96-102 | the waits are 1000 ms then 2000 ms, none after the last attempt, 3000 ms at most in total |
| PersistenceGateway.RunTeardowns | src/lib/db.ts:86-94 | at most one pool is ended per failed attempt, and exactly one when every failure comes from `execute` |
| PersistenceGateway.ExecuteQueryTeardowns | src/lib/db.ts:86-94 | a success on attempt k after k−1 `execute` failures has ended exactly k−1 pools |
| PersistenceGateway.Gateway.constructor | src/lib/db.ts:22-23 | the module starts with no pool and the error flag down |
| PersistenceGateway.Gateway.CreatePool | src/lib/db.ts:26-37 | succeeds exactly when the driver does; success clears the flag, failure sets it; the current pool is untouched |
| PersistenceGateway.Gateway.GetPool | src/lib/db.ts:40-46 | the new state and result are those of the `getPool` specification |
| PersistenceGateway.Gateway.ConnectDB | src/lib/db.ts:49-61 | gets the pool and checks a connection out and back in; any failure sets the error flag and is rethrown |
| PersistenceGateway.Gateway.Attempt | src/lib/db.ts:69-103 | one loop iteration: its state, result and teardown are those of the attempt specification |
| PersistenceGateway.Gateway.ExecuteQuery | src/lib/db.ts:64-109 | the retry loop ends in the state, result, waits and teardowns of the run specification |
| PersistenceGateway.Gateway.CloseDB | src/lib/db.ts:112-123 | with no pool nothing happens; otherwise the pool is ended and dropped, or the end error is rethrown and the pool kept |
| UserIdSetup.Pad4Shape | scripts/setup-user-id-sequence.js:69-71 | each seeded number is exactly four digits and denotes the loop counter |
| UserIdSetup.Pad4Order | scripts/setup-user-id-sequence.js:69-71 | padding is one-to-one on 1..9999 and the string order of padded numbers is their numeric order |
| UserIdSetup.SeedRows | scripts/setup-user-id-sequence.js:65-76 | a range of numbers gives one row per number |
| UserIdSetup.SeedContents | scripts/setup-user-id-sequence.js:56-85 | the seed holds 9999 rows, row k the number k+1 padded, unused and unassigned, strictly increasing and without repeats |
| UserIdSetup.BatchesCover | scripts/setup-user-id-sequence.js:64-82 | the first n batches together insert 1 up to 100·n, capped at 9999, in order |
| UserIdSetup.BatchPlan | scripts/setup-user-id-sequence.js:64-82 | every batch holds 1 to 100 numbers and the hundred batches cover 1..9999 with no gap and no repeat |
| UserIdSetup.BatchValues | scripts/setup-user-id-sequence.js:66-73 | the inner loop yields one `(number, false)` pair per number from the batch start up to 100 numbers or 9999, in order, each padded to four digits |
| UserIdSetup.SequenceSeeder.constructor | scripts/setup-user-id-sequence.js:31-42 | the table starts as the given rows with no batch inserted |
| UserIdSetup.SequenceSeeder.Setup | scripts/setup-user-id-sequence.js:11-115 | a connection error is rethrown with nothing changed; a non-empty table is kept; an empty one ends seeded with the full 9999-row seed when every batch and the commit succeed, batch by batch, and rolled back on any batch or commit failure; a failing statistics query after the commit is rethrown while the seed stays |
| UserIdGenerate.AnimalIndex | src/app/api/user-id/generate/route.ts:5-18 | a `Math.random()` value in [0, 1) always picks an animal inside the twelve-animal table |
| UserIdGenerate.SmallestUnused | src/app/api/user-id/generate/route.ts:36-48 | no row exactly when every slot is used; otherwise an unused slot whose number no unused slot's number sorts before |
| UserIdGenerate.MarkUsed | src/app/api/user-id/generate/route.ts:57-60 | the slots with the given number become used with the id recorded; every other row stays as it was |
| UserIdGenerate.PostSpec | src/app/api/user-id/generate/route.ts:33-80 | a generated id is `<animal>-<number>` with a zodiac animal; any other response leaves the table unchanged; the 500 reply comes exactly from a failed select or a failed update |
| UserIdGenerate.PostPicksSmallest | src/app/api/user-id/generate/route.ts:36-54 | a successful call hands out an unused slot's number that no unused number sorts before; 503 exactly when no slot is free |
| UserIdGenerate.PostPicksNumericallySmallest | src/app/api/user-id/generate/route.ts:36-48 | on four-digit numbers the string order of the select is the numeric order, so the number handed out is the numerically smallest free one |
| UserIdGenerate.PostChangesOnlyChosen | src/app/api/user-id/generate/route.ts:57-60 | with unique numbers, a success changes exactly the chosen slot, which becomes used with the id recorded |
| UserIdGenerate.PostKeepsUsed | src/app/api/user-id/generate/route.ts:33-80 | no call frees a used slot, drops a row or renumbers a slot |
| UserIdGenerate.CountUsed | src/app/api/user-id/generate/route.ts:85-104 | the number of used slots is at most the number of rows |
| UserIdGenerate.CountUsedOneMore | src/app/api/user-id/generate/route.ts:57-60 | marking one unused slot used raises the used count by exactly one |
| UserIdGenerate.PostUsesOneSlot | src/app/api/user-id/generate/route.ts:33-69 | each successful call uses up exactly one more slot |
| UserIdGenerate.GeneratedIdIsZodiac | src/app/api/user-id/generate/route.ts:51-54 | for a four-digit slot number the generated id is a valid zodiac id of `userUtils` |
| UserIdGenerate.GetSpec | src/app/api/user-id/generate/route.ts:85-115 | stats are returned exactly when both counts succeed, and `used` is `total − available` |
| UserIdGenerate.StatsCountUsed | src/app/api/user-id/generate/route.ts:97-104 | `used` is the number of used rows, `available` the number of free ones, and none is negative |
| UserIdGenerate.SequenceTable.constructor | src/app/api/user-id/generate/route.ts:36-37 | the table starts as the given rows |
| UserIdGenerate.SequenceTable.Post | src/app/api/user-id/generate/route.ts:33-80 | the new table and the response are those of the POST specification |
| UserUtils.MatchesClasses | src/utils/userUtils.ts:103-106 | a case-insensitive anchored pattern of character classes matches exactly the strings of its width whose lowered characters fall in the class at their position |
| UserUtils.UuidWidth | src/utils/userUtils.ts:104 | the UUID pattern is 36 characters wide and made of classes only |
| UserUtils.UuidClassAt | src/utils/userUtils.ts:104 | position by position, the UUID pattern allows hex digits, dashes at 8, 13, 18 and 23, the version `4` at 14 and a variant `8`, `9`, `a` or `b` at 19 |
| UserUtils.IsValidUuidIff | src/utils/userUtils.ts:103-106 | `isValidUUID` holds exactly for 36-character strings of that layout, in either case |
| UserUtils.IsValidUuid | src/utils/userUtils.ts:103-106 | `isValidUUID` is the anchored case-insensitive pattern as written; IsValidUuidIff states what it accepts |
| UserUtils.LowerDigit | src/utils/userUtils.ts:112 | lowering a character makes it a digit exactly when it was one |
| UserUtils.ZodiacTailIff | src/utils/userUtils.ts:112 | the tail `-\d{4}` matches exactly a dash followed by four digits |
| UserUtils.IsValidZodiacIdIff | src/utils/userUtils.ts:111-114 | `isValidZodiacId` holds exactly for one of the twelve animal names in any case, a dash and four digits |
| UserUtils.IsValidZodiacId | src/utils/userUtils.ts:111-114 | `isValidZodiacId` is the anchored case-insensitive pattern as written; IsValidZodiacIdIff states what it accepts |
| UserUtils.FormatsDisjoint | src/utils/userUtils.ts:103-121 | no string is both a UUID and a zodiac id |
| UserUtils.IsValidUserId | src/utils/userUtils.ts:119-121 | `isValidUserId` is the disjunction of the two checks; IsValidUserIdIff states what it accepts |
| UserUtils.IsValidUserIdIff | src/utils/userUtils.ts:103-121 | a valid user id is exactly a string of the UUID layout or of the zodiac layout, and never of both |
| UserUtils.ShortUserId | src/utils/userUtils.ts:92-98 | a non-empty id gives its first eight characters (all of a shorter one); a missing or empty id gives `unknown` |
| UserUtils.TempId | src/utils/userUtils.ts:47 | a fallback id always starts with `temp_` |
| UserUtils.ReplyUserId | src/utils/userUtils.ts:31-32 | an id is taken exactly when the reply is an object with a truthy `success` and an object `data` holding a truthy `userId`, and it is that value as it is, of whatever JSON type |
| UserUtils.GetUserIdSpec | src/utils/userUtils.ts:7-49 | without a window the id is `temp_user_id`; a cached non-empty id is returned as it is; otherwise a truthy server id is returned as the server sent it and its text `String(id)` is cached, and every failure gives a temporary id and caches nothing |
| UserUtils.GetUserIdOutcomes | src/utils/userUtils.ts:7-49 | the answer is always a cached id, a temporary id, or the server's truthy id, whose text is then cached; nothing else is ever stored |
| UserUtils.FailedReplyStoresNothing | src/utils/userUtils.ts:31-38 | a reply without a truthy `success` or without a truthy `data.userId` leads to a temporary id and an untouched store |
| UserUtils.NumericIdCachedAsText | src/utils/userUtils.ts:31-36 | a numeric server id `42` is returned as the number and cached as the text `42` |
| UserUtils.CachedServerIdReadsBack | src/utils/userUtils.ts:15-43 | after a server id with non-empty text is cached, the next call returns that text without asking the server, and a string id comes back unchanged |
| UserUtils.UserIdStore.constructor | src/utils/userUtils.ts:1 | the store starts with the given contents |
| UserUtils.UserIdStore.GetUserId | src/utils/userUtils.ts:7-49 | the id returned and the text cached afterwards are those of the `getUserId` specification; no other key changes |
| UserUtils.UserIdStore.RegenerateUserId | src/utils/userUtils.ts:54-71 | without a window nothing changes and the id is `temp_user_id`; otherwise the cached id is dropped and the outcome is that of `getUserId` on an empty cache |
| UserUtils.UserIdStore.ClearUserId | src/utils/userUtils.ts:76-87 | removes exactly the id key, and nothing without a window |
| UserUtils.RegenerateIgnoresCache | src/utils/userUtils.ts:54-71 | a regenerated id never comes from the old cache: it is the server's id or a temporary one |
| UserIdDisplay.DisplayUserId | src/policies/userIdDisplayPolicy.ts:26-43 | an empty id shows as `unknown`, a UUID as exactly its first eight characters, a zodiac id in full, anything else cut to eight characters |
| UserIdDisplay.UserIdTypeAgrees | src/policies/userIdDisplayPolicy.ts:51-81 | the type is `legacy` exactly for legacy ids, `zodiac` exactly for new-format ids, `unknown` exactly for the rest |
| UserIdDisplay.GetUserIdType | src/policies/userIdDisplayPolicy.ts:71-81 | `getUserIdType` tests the UUID pattern first and the zodiac pattern second, as written; UserIdTypeAgrees states the partition it gives |
| UserIdDisplay.DisplayFollowsType | src/policies/userIdDisplayPolicy.ts:26-81 | a non-empty id is shown in full exactly when its type is `zodiac`, and cut to eight characters otherwise |
| UserIdDisplay.ShortIdDisplaysAsItself | src/policies/userIdDisplayPolicy.ts:26-43 | a non-empty id of at most eight characters is shown unchanged |
| UserIdDisplay.DisplayIdempotent | src/policies/userIdDisplayPolicy.ts:26-43 | displaying a displayed id changes nothing |
| UserIdDisplay.DisplayLength | src/policies/userIdDisplayPolicy.ts:26-43 | a displayed id is at most twelve characters long (`rooster-NNNN` being the longest) |
| SttLong.SelectEncoding | src/app/api/stt-long/route.ts:95-103 | for a string or an array type: LINEAR16 exactly when it includes `wav` but neither `webm` nor `mp4`; WEBM_OPUS exactly when it includes `webm` or `mp4` or does not include `wav` |
| SttLong.BuildRequest | src/app/api/stt-long/route.ts:108-120 | the request points at the given URI; apart from the encoding its configuration is always 48 kHz, `ko-KR` with `en-US` as alternative, punctuation and `latest_long`; the encoding is LINEAR16 exactly for a `wav` type without `webm` or `mp4` |
| SttLong.ArrayMimeTypeMatchesElements | src/app/api/stt-long/route.ts:95-103 | an array type is searched for whole elements: `["wav"]` gets LINEAR16 and `["audio/wav"]` gets WEBM_OPUS |
| SttLong.Process | src/app/api/stt-long/route.ts:90-148 | `processWithLongRunningRecognize` as written; PostSendsRequest and MimeTypeWithoutIncludes state which types reach the recogniser and which fail first |
| SttLong.MimeTypeWithoutIncludes | src/app/api/stt-long/route.ts:95-97 | a missing or `null` type fails reading `includes` with the TypeError that names it; a number, boolean or object fails with `mimeType.includes is not a function`; none of them is sent |
| SttLong.FirstTranscripts | src/app/api/stt-long/route.ts:135-136 | one entry per result, in order, each the first alternative's transcript |
| SttLong.Transcript | src/app/api/stt-long/route.ts:135-138 | a response without results gives the empty transcript |
| SttLong.TranscriptPieces | src/app/api/stt-long/route.ts:135-138 | the transcript is the non-empty first transcripts in result order, one space apart: with no spaces inside them, splitting at spaces gives them back, and none gives the empty text |
| SttLong.ExtractError | src/app/api/stt-long/route.ts:56-85 | a non-Error thrown value gives `Unknown error` with status 500 and no details; for an Error the original message is always reported |
| SttLong.ExtractErrorDefaults | src/app/api/stt-long/route.ts:64-78 | a message that is not JSON, or JSON without a truthy `error`, gives that message, status 500 and no details |
| SttLong.ExtractErrorFromGoogleBody | src/app/api/stt-long/route.ts:68-85 | a Google error body with a message and a non-zero code sets the reply's message and code and becomes its details; the reply is sent with that status exactly when the code is from 200 to 599 and not one of the null-body statuses 204, 205 and 304; every other code modulo 2^16, such as the gRPC code 3 or 204, is refused |
| SttLong.StatusOf | src/app/api/stt-long/route.ts:80-85 | the `unsigned short` conversion of the status is always below 2^16; RespondStatus states its values |
| SttLong.Respond | src/app/api/stt-long/route.ts:80-85 | `NextResponse.json` with the extracted status as written; RespondStatus states when it answers and when it throws |
| SttLong.RespondStatus | src/app/api/stt-long/route.ts:72-85 | the reply is sent exactly when the converted status is from 200 to 599 and not a null-body status (204, 205, 304), and then an HTTP status given as a number or a digit string is the status sent |
| SttLong.RespondRefuses | src/app/api/stt-long/route.ts:72-85 | `null`, booleans, the gRPC code 3, a code name such as `NOT_FOUND`, and the null-body statuses `204`, `"205"`, `304` and `204 + 65536` make the handler throw, whatever the rest of the reply |
| SttLong.Post | src/app/api/stt-long/route.ts:30-87 | a body that is not JSON fails through the error extraction and the status check, answered with the reply or, for a status that is out of range or bodiless, a bare 500; an object body without a truthy `gcsUri` is answered 400 `GCS URI missing` |
| SttLong.PostSendsRequest | src/app/api/stt-long/route.ts:30-54 | a body with a URI and a string or array MIME type sends exactly the built request and answers its transcript, or the extracted error through the status check of Respond |
| SttLong.PostWithUri | src/app/api/stt-long/route.ts:32-54 | a body with a truthy URI is answered by processing its `mimeType`, missing or not: the transcript, or the extracted error through the status check of Respond |
| SttLong.NullBodyFails | src/app/api/stt-long/route.ts:32-33 | a `null` body fails destructuring with `Cannot destructure property 'gcsUri' of 'body' as it is null.` before anything is sent |
| SttLong.MissingUriSendsNothing | src/app/api/stt-long/route.ts:35-39 | without a URI the answer is the same whatever the recogniser would do: nothing is sent |
| SttMock.MockIndexIsBlocks | src/app/api/stt/route.ts:49-60 | the sentence index is the number of whole 10 KiB blocks modulo five, always a valid index |
| SttMock.MockText | src/app/api/stt/route.ts:47-66 | the text is always one of the five demo sentences |
| SttMock.Post | src/app/api/stt/route.ts:5-44 | a missing `audio` field or an empty text field gives exactly the 400 reply; a failing form read gives the 500 reply with the error's message or `Unknown error`, and a non-empty text field the 500 reply `file.arrayBuffer is not a function`; a file gives exactly a partial demo transcript |
| SttMock.TextDependsOnlyOnLength | src/app/api/stt/route.ts:47-66 | the answer ignores the MIME type and repeats every 50 KiB |
| SttMock.EverySentenceReachable | src/app/api/stt/route.ts:51-65 | a file of i times 10 KiB gets sentence i, so every sentence can be answered |
| UploadGcs.BucketName | src/config/recordingPolicy.ts:48 | the bucket name is never empty; it is the default `voicememo-storage` or the configured name, and always the configured name when that is non-empty |
| UploadGcs.Extension | src/app/api/upload-gcs/route.ts:41 | the extension is one of `webm` and `mp4`, and `webm` exactly when the MIME type includes `webm` |
| UploadGcs.FileName | src/app/api/upload-gcs/route.ts:39-42 | `audio/<timestamp>-<random>.<ext>` as written; FileNameRoundTrip states that it reads back |
| UploadGcs.GcsUri | src/app/api/upload-gcs/route.ts:63 | `gs://<bucket>/<file>` as written; GcsUriRoundTrip states that it reads back |
| UploadGcs.GcsUriRoundTrip | src/app/api/upload-gcs/route.ts:63 | a `gs://<bucket>/<file>` URI reads back as that bucket and file for any bucket without `/` |
| UploadGcs.FileNameRoundTrip | src/app/api/upload-gcs/route.ts:39-42 | an object name `audio/<timestamp>-<random>.<ext>` reads back as its timestamp, random part and extension |
| UploadGcs.MissingAudioSavesNothing | src/app/api/upload-gcs/route.ts:24-28 | without an audio field the answer is 400 and nothing is saved |
| UploadGcs.TextAudioSavesNothing | src/app/api/upload-gcs/route.ts:22-36 | a text `audio` field is never saved: an empty one is missing audio, any other a 500 with `file.arrayBuffer is not a function` |
| UploadGcs.UploadReportsWhatWasSaved | src/app/api/upload-gcs/route.ts:36-80 | an audio file is saved once under the configured bucket and the generated name with its own type; the answer is a success exactly when the save did not throw, and then names exactly that bucket, object and URI; a failed save is a 500 carrying its error |
| UploadGcs.Post | src/app/api/upload-gcs/route.ts:19-81 | the upload POST as written; MissingAudioSavesNothing, UploadReportsWhatWasSaved and UploadedUriLocatesObject state its outcomes |
| UploadGcs.UploadedUriLocatesObject | src/app/api/upload-gcs/route.ts:39-70 | the reported URI reads back as the default bucket and the saved object, whose name gives back the clock reading, the random part and the extension |
| MemoRoute.OwnRows | src/app/api/memo/route.ts:17-20 | the rows kept are exactly the ones whose `user_id` text is that user's, each no more often than in the table |
| MemoRoute.InsertByDate | src/app/api/memo/route.ts:18 | inserting into a newest-first list keeps it newest-first and adds exactly that memo |
| MemoRoute.HeadDominates | src/app/api/memo/route.ts:18 | after inserting an older memo into the tail of a newest-first list, the head is still the newest |
| MemoRoute.SortNewestFirst | src/app/api/memo/route.ts:18 | `ORDER BY created_at DESC` gives a newest-first permutation of the rows |
| MemoRoute.ListSpec | src/app/api/memo/route.ts:5-36 | 400 exactly when the user id is missing or empty; 500 exactly when the select fails, with its message; otherwise exactly that user's memos, newest first, as a permutation of their rows |
| MemoRoute.SaveSpec | src/app/api/memo/route.ts:39-83 | the POST handler as written, on the table, the counter and the body; the row holds the `user_id` column text of the sent value; SaveOutcome, SaveRejectsBlank, SaveStoresTrimmed, SaveNullBody and NumericUserIdFound state its outcomes |
| MemoRoute.NumericUserIdFound | src/app/api/memo/route.ts:5-103 | a memo posted with a numeric `userId` is echoed with the number, stored under its decimal text, listed by a GET naming that text, and removed by a DELETE naming its id and that text |
| MemoRoute.UserIdColumn | src/app/api/memo/route.ts:58-61 | the `user_id` text of the bound value, as written; NumericUserIdFound states it for numbers |
| MemoRoute.OwnMemoListed | src/app/api/memo/route.ts:17-28 | a GET naming a row's user lists that row |
| MemoRoute.OwnMemoDeleted | src/app/api/memo/route.ts:100-117 | a DELETE naming a row's id and user answers success and removes the row |
| MemoRoute.SaveRejectsBlank | src/app/api/memo/route.ts:44-56 | a missing user id or blank content is a 400 and inserts nothing |
| MemoRoute.SaveNullBody | src/app/api/memo/route.ts:41-42 | a `null` body answers 500 with `Cannot destructure property 'userId' of 'body' as it is null.` and inserts nothing |
| MemoRoute.SaveStoresTrimmed | src/app/api/memo/route.ts:51-81 | non-blank content is stored trimmed under the next id and the user id's column text at the end of the table, and echoed with the value sent; a failed insert changes nothing and answers 500 |
| MemoRoute.SaveAppendsAtMostOne | src/app/api/memo/route.ts:39-83 | the table changes exactly when the memo is saved, and then by one appended row; POST never answers 404 |
| MemoRoute.SaveOutcome | src/app/api/memo/route.ts:39-83 | every POST either appends one row holding the answer's user id and content under the next id and advances the counter by one, or leaves the table and the counter unchanged |
| MemoRoute.RemoveMatching | src/app/api/memo/route.ts:100-103 | the rows kept are exactly those not matching both the id and the user; the table is unchanged exactly when none matched |
| MemoRoute.DeleteSpec | src/app/api/memo/route.ts:86-126 | the DELETE handler as written; DeleteRemovesOnlyOwned and DeleteRemovesAtMostOne state its outcomes |
| MemoRoute.DeleteRemovesOnlyOwned | src/app/api/memo/route.ts:86-126 | a missing parameter is a 400 and a failed statement a 500, both changing nothing; otherwise exactly the rows with that id owned by that user go, and 404 with nothing changed exactly when there were none |
| MemoRoute.DeleteRemovesAtMostOne | src/app/api/memo/route.ts:100-110 | with unique ids a delete removes at most one memo and never another user's |
| MemoRoute.CountMatching | src/app/api/memo/route.ts:100-103 | with unique ids at most one row matches an id |
| MemoRoute.SaveKeepsIdsValid | src/app/api/memo/route.ts:58-61 | inserting under the next auto-increment id keeps ids unique and below the counter |
| MemoRoute.DeleteKeepsIdsValid | src/app/api/memo/route.ts:100-103 | deleting keeps ids unique and below the counter |
| MemoRoute.MemoTable.constructor | src/app/api/memo/route.ts:58-61 | the table starts empty with the counter at 1 |
| MemoRoute.MemoTable.List | src/app/api/memo/route.ts:5-36 | a listing holds exactly the user's memos newest first; 400 exactly when the user id is missing |
| MemoRoute.MemoTable.Save | src/app/api/memo/route.ts:39-83 | the new table, counter and response are those of the POST specification, and ids stay unique |
| MemoRoute.MemoTable.Delete | src/app/api/memo/route.ts:86-126 | the new table and response are those of the DELETE specification; the counter is untouched and ids stay unique |
| AnalyzeMemo.Normalise | src/app/api/analyze-memo/route.ts:98-105 | only a `null` parse result throws; otherwise each field is the reply's value when truthy and `''` or `[]` when not |
| AnalyzeMemo.NormaliseFillsDefaults | src/app/api/analyze-memo/route.ts:100-105 | each normalised field is a truthy value or its default, never a falsy value from the reply |
| AnalyzeMemo.NormaliseKeepsGoodReply | src/app/api/analyze-memo/route.ts:100-105 | a reply with all four fields non-empty passes through unchanged, and an empty object gets the four defaults |
| AnalyzeMemo.UpstreamErrorMessage | src/app/api/analyze-memo/route.ts:93-94 | a `null` error body throws reading `error`; any other body gives a message starting `OpenAI API error: ` |
| AnalyzeMemo.Index0 | src/app/api/analyze-memo/route.ts:98 | `v[0]` throws exactly on `undefined` and `null`, and on an array gives its first element, `undefined` when empty |
| AnalyzeMemo.ReplyContent | src/app/api/analyze-memo/route.ts:98 | `data.choices[0].message.content` as written; ReplyContentReadsFirstChoice and ReplyContentTypeErrors state what it reads and how it fails |
| AnalyzeMemo.ReplyContentReadsFirstChoice | src/app/api/analyze-memo/route.ts:98 | a reply whose first choice has a message gives that message's content, `undefined` when it has none, whatever follows |
| AnalyzeMemo.ReplyContentTypeErrors | src/app/api/analyze-memo/route.ts:98 | a missing or `null` `choices`, an empty list, a choice without message and a `null` message each throw the TypeError naming the property read and whether it was read from `undefined` or `null` |
| AnalyzeMemo.Analyze | src/app/api/analyze-memo/route.ts:56-106 | `analyzeWithOpenAI` as written; NotOkThrowsApiError and OkReplyParsesContent state its outcomes |
| AnalyzeMemo.OkReplyParsesContent | src/app/api/analyze-memo/route.ts:97-105 | an OK reply with text content hands exactly that text to `JSON.parse` and returns the normalised result; without content the text `undefined` is parsed |
| AnalyzeMemo.NotOkThrowsApiError | src/app/api/analyze-memo/route.ts:92-95 | a non-OK reply always throws `OpenAI API error: ` followed by `String()` of the reply's error message when truthy (a string message as it is), or the status text when the body has no `error` |
| AnalyzeMemo.Post | src/app/api/analyze-memo/route.ts:5-54 | a body that is not JSON is a 500 with its message; test mode always returns the fixed placeholder |
| AnalyzeMemo.NullBodyFails | src/app/api/analyze-memo/route.ts:7-8 | a `null` body answers 500 with `Cannot destructure property 'content' of 'body' as it is null.` |
| AnalyzeMemo.MissingContentFirst | src/app/api/analyze-memo/route.ts:10-14 | missing or falsy content is refused with 400 whatever the key or the upstream |
| AnalyzeMemo.KeyDecidesMode | src/app/api/analyze-memo/route.ts:18-53 | with content and no key the placeholder comes back in test mode; with a key the answer is the analysis or a 500 carrying the thrown message |
| VoiceMemoPage.FilterIndex | src/app/voicememo/page.tsx:70-72 | filtering by index never lengthens the list |
| VoiceMemoPage.FilterIndexRemovesOne | src/app/voicememo/page.tsx:70-72 | deleting a valid index removes exactly that memo and keeps the others in order; any other index changes nothing |
| VoiceMemoPage.TopTranscriptsFront | src/app/voicememo/page.tsx:30-36 | the live transcript is the top alternative of the first result from `resultIndex`, followed by the rest |
| VoiceMemoPage.TopTranscriptsOfSingles | src/app/voicememo/page.tsx:30-36 | with one alternative per result, the live transcript is exactly those words from `resultIndex` on, concatenated |
| VoiceMemoPage.StartSpec | src/app/voicememo/page.tsx:15-50 | `startRecording` as written; StartOutcome and SilentRecordingAddsNothing state its outcomes |
| VoiceMemoPage.StopSpec | src/app/voicememo/page.tsx:52-68 | `stopRecording` as written; StopAppendsAtMostOne and SilentRecordingAddsNothing state its outcomes |
| VoiceMemoPage.StopAppendsAtMostOne | src/app/voicememo/page.tsx:52-68 | a stop appends the trimmed transcript when it is not blank and nothing otherwise, always ends with recording off and the transcript cleared, and stops the recorder exactly when it was recording |
| VoiceMemoPage.StartOutcome | src/app/voicememo/page.tsx:15-50 | the alert shows exactly when the microphone is refused, and then nothing changes; otherwise recording is on with an empty transcript and the memos kept |
| VoiceMemoPage.SilentRecordingAddsNothing | src/app/voicememo/page.tsx:15-68 | starting and stopping with nothing recognised keeps the memo list |
| VoiceMemoPage.Page.constructor | src/app/voicememo/page.tsx:9-13 | the page starts not recording, with no memos and an empty transcript |
| VoiceMemoPage.Page.Start | src/app/voicememo/page.tsx:15-50 | the new state and effects are those of the start specification |
| VoiceMemoPage.Page.Stop | src/app/voicememo/page.tsx:52-68 | the new state and effects are those of the stop specification |
| VoiceMemoPage.Page.DeleteMemo | src/app/voicememo/page.tsx:70-72 | the new state is that of the delete specification |
| VoiceMemoPage.Page.OnResult | src/app/voicememo/page.tsx:30-36 | only the live transcript changes, to the concatenated top alternatives from `resultIndex` on |
| DownloadExport.FetchMemos | src/app/settings/download/page.tsx:31-48 | an empty user id or a failed fetch gives the empty list |
| DownloadExport.FetchMemosFallbacks | src/app/settings/download/page.tsx:31-48 | anything but the empty list comes from a non-empty user id and a reply with a truthy `success`, and such a reply gives its `data` as it is |
| DownloadExport.EscapeQuotes | src/app/settings/download/page.tsx:65 | doubling quotes never shortens the content |
| DownloadExport.EscapeQuotesRoundTrip | src/app/settings/download/page.tsx:65 | the escaped content has every quote doubled, and undoubling gives the content back (section 2 of RFC 4180) |
| DownloadExport.CsvRow | src/app/settings/download/page.tsx:65 | one memo's CSV line as written; CsvRowShape states how it reads back |
| DownloadExport.Csv | src/app/settings/download/page.tsx:62-67 | the header and the rows joined by line breaks, as written; CsvRows and CsvLines state how it splits back |
| DownloadExport.CsvRows | src/app/settings/download/page.tsx:64-66 | one line per memo, in list order |
| DownloadExport.CsvLines | src/app/settings/download/page.tsx:62-67 | without line breaks in fields, the CSV splits back into the header and exactly one line per memo, in order |
| DownloadExport.CsvRowShape | src/app/settings/download/page.tsx:65 | a memo's line starts with its id and a comma, then its quoted content, which reads back as the content |
| DownloadExport.RowsOf | src/app/settings/download/page.tsx:64-66 | rows come out one per element in order when every element renders, each with the element's content and `String()` of its id (`undefined` when it has none); the render fails exactly when some element is not a memo with string content |
| DownloadExport.IdText | src/app/settings/download/page.tsx:65 | `${memo.id}` as written: `String()` of the id, or `undefined`; RowsOf and NumericIdsOneLineEach state its use |
| DownloadExport.NumericIdsOneLineEach | src/app/settings/download/page.tsx:62-67 | memos with integer ids and contents without line breaks give a CSV of the header and exactly one line per memo, in order, each starting with the memo's decimal id, a comma and the opening quote |
| DownloadExport.ExcelOutcome | src/app/settings/download/page.tsx:51-87 | a downloaded CSV always starts with the byte-order mark and has type `text/csv;charset=utf-8` |
| DownloadExport.JsonOutcome | src/app/settings/download/page.tsx:90-118 | a downloaded JSON file always has type `application/json` |
| DownloadExport.ExportFileName | src/app/settings/download/page.tsx:75 | `voice_memos_<date>.<ext>` from the ISO time, as written; ExportFileNameOfIso states which date it takes |
| DownloadExport.ExportFileNameOfIso | src/app/settings/download/page.tsx:75 | for an ISO time `<date>T<time>` the file is named by the date alone |
| DownloadExport.EmptyListNoFile | src/app/settings/download/page.tsx:54-59 | an empty list, and so every fetch failure, shows the no-memos alert and downloads nothing, in both formats |
| DownloadExport.ExcelOfMemos | src/app/settings/download/page.tsx:54-79 | a non-empty list of well-formed memos downloads the byte-order mark and the CSV of their rows, in order, named by today's date |
| DownloadExport.DownloadPage.constructor | src/app/settings/download/page.tsx:20 | the page starts not loading |
| DownloadExport.DownloadPage.DownloadExcel | src/app/settings/download/page.tsx:51-87 | the outcome is that of the CSV export of the fetched memos, and the loading flag is down at the end |
| DownloadExport.DownloadPage.DownloadJson | src/app/settings/download/page.tsx:90-118 | the outcome is that of the JSON export of the fetched memos, and the loading flag is down at the end |
| TimeDisplay.PrevDayInverse | src/components/TimeDisplay.tsx:33-35 | the day before a valid day is valid, its next day is that day, and it is the only valid day whose next day is that day |
| TimeDisplay.TimeOfDayPartition | src/components/TimeDisplay.tsx:14-19 | morning is exactly hours 5-11, afternoon 12-17, evening 18-21 and night every other hour |
| TimeDisplay.RecentIsJustNow | src/components/TimeDisplay.tsx:21-24 | less than an hour ago, or in the future, always reads `방금 전` |
| TimeDisplay.TodayAndYesterday | src/components/TimeDisplay.tsx:26-38 | `오늘` exactly for an hour or more ago on the same calendar day, `어제` exactly for an hour or more ago on the previous calendar day, both with the time of day of the memo's hour |
| TimeDisplay.OlderLabels | src/components/TimeDisplay.tsx:40-71 | past today and yesterday: under four days `며칠 전`, under four weeks the month and its part, later the month alone this year, `작년` and the month last year, and the year and month before that |
| TimeDisplay.PeriodPartition | src/components/TimeDisplay.tsx:49-56 | `초순` exactly for days up to 10, `중순` for 11-20 and `말` after |
| TimeDisplay.FormatFriendlyTime | src/components/TimeDisplay.tsx:6-72 | `formatFriendlyTime` as written; RecentIsJustNow, TodayAndYesterday and OlderLabels state which label each age gets |
| TimeDisplay.TimeLabel.constructor | src/components/TimeDisplay.tsx:91 | the label starts in the friendly form |
| TimeDisplay.TimeLabel.Click | src/components/TimeDisplay.tsx:93-96 | a click flips between the friendly and the exact form |
| TimeDisplay.TwoClicksRestore | src/components/TimeDisplay.tsx:93-103 | two clicks bring back what the label showed |
| MemoItem.PreviewText | src/components/MemoItem.tsx:20-22 | a preview is never longer than the limit plus three; content within the limit is shown unchanged; longer content keeps exactly its first `maxLength` characters, followed by `...` |
| MemoItem.DefaultPreview | src/components/MemoItem.tsx:20-22 | with the default limit, up to 150 characters are shown unchanged and longer content becomes its first 150 characters and `...` |
| MemoItem.PreviewIdempotent | src/components/MemoItem.tsx:20-22 | previewing a preview changes nothing, cut or not |
| Lookup.Find | src/constants/emotions.ts:112-114 | `find` gives nothing exactly when no element passes, and otherwise the first element that passes |
| Lookup.Filter | src/constants/emotions.ts:119-121 | `filter` keeps only elements that pass, keeps every element that passes, and never lengthens the list |
| Lookup.FilterAppend | src/constants/emotions.ts:99-104 | filtering a list with one more element at the end adds it at the end exactly when it passes |
| Lookup.FilterIsSubsequence | src/constants/emotions.ts:119-121 | a filter keeps the table order |
| Lookup.FilterNoDuplicates | src/constants/emotions.ts:119-121 | a filter of a table without repeats has no repeats |
| Lookup.FilterCountsOnce | src/constants/emotions.ts:119-121 | in a table without repeats, a filter holds each passing element exactly once |
| Emotions.TableIndexed | src/constants/emotions.ts:24-91 | every row of the table is told apart by its code: the row at position i has the code of index i |
| Emotions.CodesDistinct | src/constants/emotions.ts:24-91 | no two emotion tags share a code |
| Emotions.TableHasNoDuplicates | src/constants/emotions.ts:24-91 | no tag appears twice in the table |
| Emotions.GetEmotionByCode | src/constants/emotions.ts:112-114 | a tag found has the code asked for and comes from the table; nothing is found exactly when no tag has that code |
| Emotions.EmotionByCodeFindsRow | src/constants/emotions.ts:112-114 | the lookup finds the table's row for every code it holds, and nothing for any other code |
| Emotions.EmotionsByCategoryExact | src/constants/emotions.ts:119-121 | a category's list holds exactly the table's tags of that category, in table order, without repeats, and is non-empty exactly for the eight categories |
| Emotions.GetEmotionsByCategory | src/constants/emotions.ts:119-121 | `getEmotionsByCategory` filters the table, as written; EmotionsByCategoryExact states what it holds |
| Emotions.FilterCategoryExact | src/constants/emotions.ts:119-121 | filtering a list without repeats by a category keeps exactly that category's entries, once each, in order, and is non-empty exactly when the category occurs |
| Emotions.EachTagInOneCategory | src/constants/emotions.ts:119-121 | every tag appears exactly once in its own category's list and in no other |
| Emotions.CategoryOrderHasTag | src/constants/emotions.ts:99-104 | every tag's category is among the grouping's keys |
| Emotions.CategoryOrderOnlyTags | src/constants/emotions.ts:99-104 | every key of the grouping is the category of some tag |
| Emotions.CategoryOrderBlock | src/constants/emotions.ts:99-104 | a run of tags of one category adds that category as a new key only if it was not already a key |
| Emotions.CategoriesDistinct | src/constants/emotions.ts:13-22 | the eight category names are all different |
| Emotions.CategoryOrderNextBlock | src/constants/emotions.ts:24-91 | a block of the next category in declaration order extends the keys by that category |
| Emotions.CategoryOrderFirstHalf | src/constants/emotions.ts:24-60 | the first four blocks of the table give the first four categories as keys, in order |
| Emotions.CategoryOrderOfTable | src/constants/emotions.ts:13-91 | the grouping's keys come out in the declaration order of the categories |
| Emotions.FilterPresentCategory | src/constants/emotions.ts:99-104 | a category with any tag is among the grouping's keys |
| Emotions.GroupStep | src/constants/emotions.ts:99-104 | one `forEach` step creates the category's group on its first tag and then pushes the tag, keeping every group equal to the filter of the tags seen so far |
| Emotions.GetEmotionsGroupedByCategory | src/constants/emotions.ts:96-107 | the grouping has one key per category, in declaration order, and each group is exactly that category's list in table order |
| AutomaticThoughts.TableIndexed | src/constants/automaticThoughts.ts:14-239 | every row of the table is told apart by its code: the row at position i has the code of index i |
| AutomaticThoughts.CodesDistinct | src/constants/automaticThoughts.ts:14-239 | no two automatic thoughts share a code |
| AutomaticThoughts.TableHasNoDuplicates | src/constants/automaticThoughts.ts:14-239 | no entry appears twice in the table |
| AutomaticThoughts.GetAutomaticThoughtByCode | src/constants/automaticThoughts.ts:244-246 | an entry found has the code asked for and comes from the table; nothing is found exactly when no entry has that code |
| AutomaticThoughts.ThoughtByCodeFindsRow | src/constants/automaticThoughts.ts:244-246 | the lookup finds the table's row for every code it holds, and nothing for any other code |
| AutomaticThoughts.ThoughtsByEmotionExact | src/constants/automaticThoughts.ts:251-255 | the list holds exactly the entries whose emotions include the one asked for, in table order, without repeats |
| AutomaticThoughts.ThoughtsByNeedExact | src/constants/automaticThoughts.ts:260-264 | the list holds exactly the entries whose core needs include the one asked for, in table order, without repeats |
| AutomaticThoughts.GetAutomaticThoughtsByEmotion | src/constants/automaticThoughts.ts:251-255 | the table filter as written; ThoughtsByEmotionExact states what it holds |
| AutomaticThoughts.GetAutomaticThoughtsByNeed | src/constants/automaticThoughts.ts:260-264 | the table filter as written; ThoughtsByNeedExact states what it holds |
| Middleware.Gate | src/middleware.ts:4-20 | unless `MAINTENANCE_MODE` is exactly `true` every request passes; in maintenance mode a request passes exactly when it is for `/maintenance`, and every redirect goes there |
| Middleware.NoRedirectLoop | src/middleware.ts:4-20 | following a redirect always lands on a page that passes, so there is never a redirect loop |
| Middleware.Route | src/middleware.ts:4-35 | a request is redirected only when the matcher selects its path, maintenance mode is on and the path is not the maintenance page |
| Middleware.ApiAndAssetsPass | src/middleware.ts:22-35 | API routes and static assets always pass, even in maintenance mode, and the maintenance page is matched and passes |
| Middleware.MaintenanceRedirectsPages | src/middleware.ts:14-19 | in maintenance mode every matched path other than the maintenance page is redirected to it |
| TerminalRoute.SomeIncluded | src/app/api/terminal/route.ts:25 | true exactly when the command contains one of the fragments |
| TerminalRoute.Validate | src/app/api/terminal/route.ts:17-37 | the validation as written; ValidateStringCommand, ValidateNonString and SpawnedCommandIsChecked state its outcomes |
| TerminalRoute.ValidateStringCommand | src/app/api/terminal/route.ts:17-37 | an empty command is invalid; a trimmed command with a blocked fragment is refused with 403, a clean one over 1000 characters with 400; exactly a clean command within the limit is run, trimmed |
| TerminalRoute.ValidateNonString | src/app/api/terminal/route.ts:17-21 | a missing or non-string command is invalid, and an unreadable body answers 500 |
| TerminalRoute.SpawnedCommandIsChecked | src/app/api/terminal/route.ts:23-40 | what reaches the shell is trimmed, holds no blocked fragment and fits the length limit |
| TerminalRoute.Step | src/app/api/terminal/route.ts:52-108 | one child-process callback as written; StepKeepsResponse, StreamsAccumulate, OverflowAnswer and ResolvingEvents state what it does |
| TerminalRoute.StepKeepsResponse | src/app/api/terminal/route.ts:52-108 | once answered, no later event changes the answer; only close, error, the timer or an overflowing output chunk answers |
| TerminalRoute.FirstResponseStands | src/app/api/terminal/route.ts:52-108 | over any run of events, the first answer given is the one that stands |
| TerminalRoute.ResolvingEventAnswers | src/app/api/terminal/route.ts:78-108 | a close, an error or the timer anywhere in a run means the run has been answered |
| TerminalRoute.Post | src/app/api/terminal/route.ts:15-116 | the route as written: the validation's answer, or the first resolving event's; PostAnswers states when it answers |
| TerminalRoute.PostAnswers | src/app/api/terminal/route.ts:15-116 | a refused request is answered without running anything; a request is left unanswered only when its command was spawned and the child never closed, failed or timed out |
| TerminalRoute.CapStderr | src/app/api/terminal/route.ts:71-76 | the kept error output is at most 5000 characters plus the note, and starts with the first 5000 characters of what was written |
| TerminalRoute.StreamsAccumulate | src/app/api/terminal/route.ts:56-76 | the standard output kept is everything written to it, and the error output everything written to it capped once at 5000 characters plus the note |
| TerminalRoute.CapStderrAppend | src/app/api/terminal/route.ts:70-75 | appending a chunk to capped error output and capping again gives the cap of the whole text |
| TerminalRoute.OverflowAnswer | src/app/api/terminal/route.ts:56-69 | an overflow answer carries the first 10000 characters of output and the note, and the child was sent SIGTERM |
| TerminalRoute.ResolvingEvents | src/app/api/terminal/route.ts:78-108 | close reports both streams and `code \|\| 0`, an error answers 500 with its message, the timer sends SIGKILL and answers 408 with exit code 124; once answered, none of them changes anything |
| TerminalRoute.CommandRun.constructor | src/app/api/terminal/route.ts:52-54 | a run starts with empty streams, unanswered, with no signal sent |
| TerminalRoute.CommandRun.OnStdoutData | src/app/api/terminal/route.ts:56-69 | the new state is one step of the run specification on an output chunk |
| TerminalRoute.CommandRun.OnStderrData | src/app/api/terminal/route.ts:71-76 | the new state is one step of the run specification on an error chunk |
| TerminalRoute.CommandRun.OnClose | src/app/api/terminal/route.ts:78-87 | the new state is one step of the run specification on `close` |
| TerminalRoute.CommandRun.OnError | src/app/api/terminal/route.ts:89-97 | the new state is one step of the run specification on `error` |
| TerminalRoute.CommandRun.OnTimeout | src/app/api/terminal/route.ts:99-108 | the new state is one step of the run specification when the timer fires |
| TerminalPage.KeyKeepsValid | src/app/terminal/page.tsx:241-291 | every key keeps the history index within −1 to the history's length and the history free of blank entries; the history only ever grows, by at most one entry |
| TerminalPage.KeySpec | src/app/terminal/page.tsx:241-291 | `onKey` as written; KeyKeepsValid, EnterRecords, BackspaceDropsLast, ArrowsBrowse, CtrlCClears and TypingAppends state what each key does |
| TerminalPage.EnterRecords | src/app/terminal/page.tsx:244-250 | Enter always executes the line and clears it; it records the line exactly when it is not blank, and then points the index past the end; otherwise history and index stay |
| TerminalPage.BackspaceDropsLast | src/app/terminal/page.tsx:251-255 | Backspace drops the last character of a non-empty line, does nothing to an empty one, and never touches the history |
| TerminalPage.ArrowsBrowse | src/app/terminal/page.tsx:256-282 | Up steps back to the previous entry when there is one and does nothing otherwise; Down steps forward to the next entry, from the last entry past the end with an empty line, and does nothing past the end |
| TerminalPage.UpThenDown | src/app/terminal/page.tsx:256-282 | Up then Down returns to the same history position and shows its entry |
| TerminalPage.CtrlCClears | src/app/terminal/page.tsx:283-286 | Ctrl+C clears the line, keeps the history and executes nothing |
| TerminalPage.TypingAppends | src/app/terminal/page.tsx:287-290 | any other key without a modifier is appended to the line |
| TerminalPage.LineEditor.constructor | src/app/terminal/page.tsx:84-86 | the editor starts with an empty line, no history and the index at −1 |
| TerminalPage.LineEditor.OnKey | src/app/terminal/page.tsx:241-291 | the new line state and the command executed are those of the key specification |
| TerminalPage.Args | src/app/terminal/page.tsx:89 | a command always has at least one word, possibly empty |
| TerminalPage.HistoryLines | src/app/terminal/page.tsx:134-137 | one line per history entry, in order, numbered from 1 |
| TerminalPage.CommandWordIsFirstWord | src/app/terminal/page.tsx:89-90 | the command word is the lowered first word of the trimmed line, and the arguments are that word followed by the rest split at spaces |
| TerminalPage.ExecuteCommand | src/app/terminal/page.tsx:88-238 | `executeCommand` as written; EchoPrintsRest, HistoryNumbered, RemoteRequests and the `cd` lemmas state what each command does |
| TerminalPage.EchoPrintsRest | src/app/terminal/page.tsx:121-124 | `echo` prints exactly the rest of the trimmed line |
| TerminalPage.HistoryNumbered | src/app/terminal/page.tsx:94-98 | `history` prints every entry numbered from 1 in order, and nothing runs while another command is executing |
| TerminalPage.RemoteRequests | src/app/terminal/page.tsx:155-234 | the file commands send the trimmed line and every other unknown word the line as typed, both after a `cd` into the current path |
| TerminalPage.ResolveCd | src/app/terminal/page.tsx:139-151 | the `cd` case as written; CdCases, CdKeepsAbsolute, CdParent and CdIntoAndBack state where it leads |
| TerminalPage.CdCases | src/app/terminal/page.tsx:139-151 | `cd` alone goes home, an absolute path replaces the current one, and a relative name is appended after one `/`, none added after the root |
| TerminalPage.CdKeepsAbsolute | src/app/terminal/page.tsx:139-151 | from an absolute path, `cd` always leads to an absolute path |
| TerminalPage.PathSegments | src/app/terminal/page.tsx:144 | splitting a path built from segments at `/` and dropping empty parts gives the segments back |
| TerminalPage.CdParent | src/app/terminal/page.tsx:143-146 | `cd ..` drops the last segment of the path, and stays at the root |
| TerminalPage.CdIntoAndBack | src/app/terminal/page.tsx:143-150 | `cd name` then `cd ..` returns to the starting path |
| TerminalPage.RedLines | src/app/terminal/page.tsx:181-187 | one red line per error line, in order |
| TerminalPage.NonBlankLinesExact | src/app/terminal/page.tsx:173-179 | the lines shown from a stream are exactly its non-blank lines, in order |
| TerminalPage.StreamOfString | src/app/terminal/page.tsx:173-179 | a string stream, empty or not, shows its non-blank lines |
| TerminalPage.CompletedReplyShown | src/app/terminal/page.tsx:171-191 | a reply without an error shows its output's non-blank lines and then its error output's, in red |
| TerminalPage.RenderReply | src/app/terminal/page.tsx:171-194 | the lines written for a reply, as written; CompletedReplyShown and ErrorReplyShown state them |
| TerminalPage.ErrorReplyShown | src/app/terminal/page.tsx:188-194 | a reply carrying only an error shows one red `Error:` line with its text; a failed fetch shows one red `Failed to execute command:` line |
| Js.Trim | src/app/api/memo/route.ts:51 | `trim` removes only whitespace, from both ends, and leaves no whitespace at either end |
| Js.TrimEmptyIff | src/app/api/memo/route.ts:51 | `content.trim().length === 0` holds exactly for all-whitespace content |
| Js.TrimIdempotent | src/app/api/terminal/route.ts:23 | trimming twice is trimming once |
| Js.Includes | src/app/api/terminal/route.ts:25 | `includes` holds exactly when the fragment occurs at some position |
| Js.Split | src/app/terminal/page.tsx:89 | `split` gives at least one part and no part holds the separator |
| Js.JoinSplit | src/app/terminal/page.tsx:162 | joining the parts of a split with the same separator gives the string back |
| Js.SplitJoin | src/app/api/stt-long/route.ts:138 | splitting a join of parts without the separator gives the parts back |
| Js.SplitAtFirst | src/app/api/upload-gcs/route.ts:42 | a string made of a separator-free part, the separator and a rest splits into that part followed by the split of the rest |
| Js.NatToString | src/app/api/user-id/generate/route.ts:54 | the decimal text of a number is non-empty, all digits, denotes the number and has no leading zero |
| Js.PadStart | scripts/setup-user-id-sequence.js:70 | `padStart` leaves a long enough string alone and otherwise prefixes it with the fill character up to the width |
| Js.DigitStringOrder | src/app/api/user-id/generate/route.ts:37 | on digit strings of equal length, string order is numeric order |
| Js.StrLessTotal | src/app/api/user-id/generate/route.ts:37 | string order is total: of two different strings one sorts first |
| Js.StrLessTransitive | src/app/api/user-id/generate/route.ts:37 | string order is transitive |
| Js.OrElse | src/app/api/analyze-memo/route.ts:101-104 | `v \|\| fallback` is one of its two operands, truthy exactly when one of them is, and the value itself whenever that is truthy |
| Js.GetOpt | src/app/api/stt-long/route.ts:97 | reading a property throws exactly on `undefined` and `null`, and otherwise reads it as on a defined value |
| Js.Destructure | src/app/api/stt-long/route.ts:33 | destructuring throws exactly on `null`, and otherwise reads the property |
| Js.IntToString | src/utils/userUtils.ts:33 | the decimal text of an integer is non-empty: the digits of the number, preceded by `-` when it is negative |
| Js.JsString | src/utils/userUtils.ts:33 | `String(v)` gives a string as it is, a number its decimal text, `[]` the empty text and a one-element array of a non-null value that value's text |

## Left out

- Vendor internals are not modelled: the mysql2 pool and its timeouts, the Google Speech and Storage clients, and the OpenAI `fetch`. Each is an input that succeeds, fails or returns a value.
- UploadGcs.SaveCall: records the bucket, object name, content type, size and retention days of the save; the `uploadedAt` metadata, the clock's ISO text, is not recorded.
- MemoRoute.UserIdColumn: a string or integer `userId` is stored as its text, as the driver binds it. For a `true`, array or object `userId` the model stores `String()` of it; the driver's own conversion of those values is not modelled.
- SttLong.StatusOf: a string status is read as a number only when it is a plain digit string. `ToNumber`'s other syntaxes (surrounding whitespace, a sign, a fraction, an exponent, hexadecimal) are read as not a number, so such a code is refused where the source could accept it.
- Real sleeps and the mock recogniser's delay are not modelled. The retry waits are recorded as a ghost log of durations.
- Concurrency is not modelled: neither concurrent id allocation (the `SELECT … FOR UPDATE` and the `UPDATE` run as separate statements) nor overlapping requests. Calls are sequential, and no race-freedom is claimed.
- Module-level client construction in the stt-long and upload routes is not modelled. The bucket name is modelled.
- Locale formatting is not modelled: `toLocaleString('ko-KR')` for export dates, `formatExactTime` and `formatDate`. These texts are inputs.
- The time zone is not modelled. An instant carries its epoch milliseconds together with its local calendar day and hour.
- IEEE rounding is not modelled. The mock recogniser's `byteLength / 1024 / 10` and the animal choice `Math.random() * 12` are computed on exact reals.
- Strings are sequences of Unicode characters, not UTF-16 code units. Lengths and `substring` on characters outside the basic plane are not modelled.
- `toLowerCase` is modelled only on ASCII letters. That is all the id patterns need. For the terminal command word (`TerminalPage.CommandWord`) it means that a non-ASCII letter lowering to an ASCII one is kept: `MKDIR` written with U+212A KELVIN SIGN is dispatched as `mkdir` by the source and not by the model.
- Browser APIs are left out: `MediaRecorder`, `SpeechRecognition` (its results are assumed to carry at least one alternative), `alert`/`confirm`, and the Blob and link download. `localStorage` is a map, and its exceptions are not modelled.
- Console logging (`console.log`, `console.warn`, `console.error`) is not modelled anywhere.
- Runtime TypeError texts follow V8's wording: reading a property of `undefined` or `null`, destructuring `null`, and calling a missing method. Other engines word them differently. The text of `${error}` for a thrown value on the terminal page is an input, because it depends on the error's class.
- Process spawning in the terminal API is not modelled: environment, working directory, shell, and spawn's own `timeout: 30000` option, whose SIGTERM is not recorded among the signals sent. Output chunks, close, error and the timer are a sequence of events, so the answers that option leads to are covered. A command holding a NUL character passes validation and makes `spawn` throw inside the promise executor; that rejection escapes the handler's `try` and gives a bare 500, which no event sequence of the model produces.
- The terminal page's effect closure, which captures the first `currentPath` and `isExecuting`, is not modelled. The current path and the executing flag are explicit inputs of command execution.
- The `'\b \b'` erase loops, the xterm rendering, the prompt and the help and welcome texts of the terminal page are not modelled. The lines written and the requests sent are modelled, including the red `\x1b[31m…\x1b[0m` codes around error lines.
- The WebSocket terminal page and its hook, the static, legal and settings pages, the navigation components, the notes and memos list pages, the version, service, test-db and sample-insertion routes, and the migration script are not part of this model: they are rendering, fetching or file and database I/O.
- `getEmotionStyle` is not part of this model. It is imported by a component, but no table it could read is defined.
- UserIdGenerate.SmallestUnused: orders numbers by code point, where `ORDER BY number` uses the table's `utf8mb4_unicode_ci` collation. The two orders agree on the four-digit numbers the setup script seeds, which is what PostPicksNumericallySmallest covers; they differ only on rows the program never creates.
- UserIdSetup.SequenceSeeder.Setup: a failing `ROLLBACK`, whose error replaces the batch's, and a failing `connection.end()` in `finally`, which turns even a successful setup into a failure, are not represented.
- UserIdSetup.BatchValues: the source pushes number and flag as two flat entries of one `values` array next to a `placeholders` list. The model pairs them, and it does not model the SQL text.
- The countdown and auto-stop recording controller is not part of this model. The recorder page has no timers, and the recording-duration constants have no consumer in the code.
- MemoRoute.IdMatches: MySQL compares `id = ?` with a string parameter by converting the string to a number, so `5.0`, `+5`, ` 5` and `5abc` also match id 5. The model matches only a plain digit string of that value.
- MemoRoute.IdMatches: `user_id = ?` is compared under the column's collation, which is typically case- and trailing-space-insensitive. The model compares the user id exactly, and so do MemoRoute.OwnRows, MemoRoute.ListSpec and MemoRoute.MemoTable.List for the GET's `WHERE user_id = ?`.
- MemoRoute.RemoveMatching: follows from the exact comparison of `MemoRoute.IdMatches`, so it can keep a row that MySQL would delete for a non-canonical id or a differently-cased user id.
- MemoRoute.DeleteRemovesOnlyOwned: same limitation as `MemoRoute.RemoveMatching`; it describes the delete under exact comparison.
- TimeDisplay.Instant: always a valid instant. The source's `new Date(dateString)` can be invalid, and then every comparison with `NaN` fails and the label is `NaN년 NaN월`. The model has no invalid date.
- Js.Json: numbers are integers. Fractions, exponents, `NaN` and the infinities are not modelled, and `String()` of a number is its integer decimal text.
