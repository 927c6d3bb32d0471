# Photo gallery uploads, downloads and accounts — a Dafny model

This project models the rule logic of a photo-gallery application:

- **The browser upload manager** (`UploadDropzone.tsx`). It selects a strategy by file size:
  - a single signed PUT for files under 10 MiB;
  - a resumable upload in 3 MiB chunks for larger files. Each chunk carries a hand-built `Content-Range` header, gets up to three attempts with 500 ms / 1000 ms back-off, and resynchronises on a `308` with `Range: bytes=0-N`.
- **Falling back.** A failed session, a failed preflight or an exhausted chunk hands the whole file to the single PUT, once. As written, a rejected preflight whose fallback throws runs the single PUT a second time; see "## Findings".
- **Progress and the item list.** The manager keeps a queue-wide byte counter whose percent, like each item's, is capped at 100 (the percent set when files are dropped is not capped), and an item list updated by id. Done items get auto-remove timers and failed items can be retried.
- **The worker pool.** `max(1, K)` workers drain the queue.
- **Gallery back end.** Four rules:
  - the per-gallery download quota, with its reset window;
  - the per-selector favorites limit;
  - naming and filtering of the entries of a whole-gallery zip, and the access check in front of it;
  - login lockout, password change and password reset; registration conflicts, the failed-attempt counter and the super-admin seed.

The modelling conventions are:

- **Pure logic** is datatypes, functions and lemmas: chunk arithmetic, header spelling and parsing, the progress counter, item patches, zip names, quota and favorites rules.
- **Stateful code** is imperative Dafny:
  - the upload manager is a class `UploadDropzone.Dropzone` whose fields are the component's state and refs;
  - the database tables are classes `GalleryDb.Db` and `UsersDb.Users`.
- **Proving each method.** Each method is proved to end in the state given by a closed-form function in `DropzoneState`, `AuthService`, `UserService`, `Favorites` or `DownloadQuota`. The properties are proved about those functions.
- **Network calls** are inputs that say how each awaited call settled. This covers the signed-URL, session and notify endpoints, the OPTIONS preflight and every PUT. A chunk loop that runs out of replies is an upload still awaiting its PUT.
- **Other parameters:**
  - the clock is a `now` parameter in whole seconds;
  - bcrypt, the password hasher, the access-token verifier, the random reset token and the storage cache are function or value parameters;
  - the file system is the set of paths that exist.

Module by module:

| module | models |
|---|---|
| `Common`, `Decimal` | result and option types, ASCII lower-casing, decimal spelling of numbers |
| `UploadChunks` | strategy threshold, chunk ranges, `Content-Range`, the `bytes=0-(\d+)` offset, back-off |
| `UploadProgress` | rounded percentages and the delta-additive byte counter |
| `UploadItems` | item records, id-keyed patches, find and filter by id |
| `UploadFlows` | the two strategies as functions of the network's answers: requests sent, progress seen, final patch, outcome |
| `DropzoneState` | the component state as a value and each handler's effect on it; timers, pool, retry, drop |
| `UploadDropzone` | the component as a class whose methods change the state step by step |
| `GalleryDb` | gallery, photo and favorite rows and the session that holds them |
| `DownloadQuota` | `check_and_reserve_download` and the internal-actor test |
| `Favorites` | effective limit, count, add, remove, set limit |
| `GalleryDownload` | access check, `splitext`, zip entry names, file list, zip filter, empty-list guard |
| `UsersDb` | user and login-audit rows, first-match lookups |
| `AuthService` | login with counter, lockout and audit; change, forgot and reset password |
| `UserService` | registration conflicts, failed-attempt counter and lock flag, super-admin seed |

## Model

| member | source | states |
|---|---|---|
| UploadChunks.StrategyThreshold | frontend/src/components/UploadDropzone.tsx:366-374 | the resumable flow is chosen exactly for sizes ≥ 10·1024·1024, the single PUT exactly below |
| UploadChunks.ChunkEnd | frontend/src/components/UploadDropzone.tsx:291 | a chunk's last byte lies in [start, total), the chunk holds at most 3 MiB, and exactly 3 MiB unless it ends the file |
| UploadChunks.ChunksFrom | frontend/src/components/UploadDropzone.tsx:287-315 | from any chunk boundary the loop walks the closed-form chunks k, k+1, … and takes ceil(remaining / 3 MiB) steps |
| UploadChunks.ChunksOfFile | frontend/src/components/UploadDropzone.tsx:287-315 | a whole file has ceil(total / 3 MiB) chunks; chunk i is [i·3 MiB, min(total−1, i·3 MiB + 3 MiB − 1)]; the first starts at 0, each starts after its predecessor, the last ends at total−1 |
| UploadChunks.ChunksContiguous | frontend/src/components/UploadDropzone.tsx:290-315 | each chunk starts one byte after the previous one ends |
| UploadChunks.ChunksEnds | frontend/src/components/UploadDropzone.tsx:287-315 | a non-empty file has at least one chunk, starting at 0, and the last ends at total−1 |
| UploadChunks.ChunksCover | frontend/src/components/UploadDropzone.tsx:287-315 | every byte of the file lies in exactly one chunk, number byte / 3 MiB: the chunks are disjoint and cover the file |
| UploadChunks.FiftyMebibytesTakeSeventeenChunks | frontend/src/components/UploadDropzone.tsx:39 | a 50 MiB file is sent in 17 chunks |
| UploadChunks.ContentRangeRoundTrip | frontend/src/components/UploadDropzone.tsx:303 | the `bytes A-B/C` header reads back as exactly (A, B, C) |
| UploadChunks.ResumeOffsetRoundTrip | frontend/src/components/UploadDropzone.tsx:320-325 | a `Range` header `bytes=0-N` matches the pattern and yields N |
| UploadChunks.NoDigitNoOffset | frontend/src/components/UploadDropzone.tsx:322-323 | a header without digits never matches `bytes=0-(\d+)` |
| UploadChunks.BackoffSchedule | frontend/src/components/UploadDropzone.tsx:339-340 | the back-offs after the first and second failure are 500 and 1000 ms |
| UploadProgress.QueuePercentBounds | frontend/src/components/UploadDropzone.tsx:95-102 | the queue percent is in [0, 100], 0 before any byte, monotone in the counter, and 100 once the counter reaches the total |
| UploadProgress.RoundRatioMonotone | frontend/src/components/UploadDropzone.tsx:99 | `Math.round` of the ratio never decreases as the numerator grows |
| UploadProgress.ItemPercent | frontend/src/components/UploadDropzone.tsx:125-127 | an item's percent never exceeds 100 |
| UploadProgress.ContributionAppend | frontend/src/components/UploadDropzone.tsx:110-122 | a stream of reports adds the same bytes whether it is split or not: the second part counts from the last count of the first |
| UploadProgress.ContributionOfGrowingStream | frontend/src/components/UploadDropzone.tsx:113-122 | a non-decreasing stream adds exactly its rise over the last recorded count, so nothing is counted twice |
| UploadProgress.ContributionAtLeastRise | frontend/src/components/UploadDropzone.tsx:113-122 | any stream adds at least its overall rise |
| UploadProgress.FallingStreamRecounts | frontend/src/components/UploadDropzone.tsx:113-122 | reports 5, 3, 5 add 7: a count that falls back is counted again as it climbs |
| UploadProgress.AccumulateConcat | frontend/src/components/UploadDropzone.tsx:95-97 | the counter over two runs of deltas is the sum of the two, non-positive deltas being ignored |
| UploadProgress.AccumulateCommutes | frontend/src/components/UploadDropzone.tsx:95-97 | the counter depends only on the multiset of deltas, not their order |
| UploadItems.UpdateItemFrame | frontend/src/components/UploadDropzone.tsx:80-81 | a patch keeps length, order, ids, names and sizes, patches every item with the id and no other |
| UploadItems.UpdateItemAbsent | frontend/src/components/UploadDropzone.tsx:80-81 | patching an absent id changes nothing |
| UploadItems.UpdateItemEmpty | frontend/src/components/UploadDropzone.tsx:80-81 | the empty patch changes nothing |
| UploadItems.UpdateItemTwice | frontend/src/components/UploadDropzone.tsx:80-81 | two patches of one id equal one merged patch |
| UploadItems.UpdateItemCommutes | frontend/src/components/UploadDropzone.tsx:80-81 | patches of different ids commute |
| UploadItems.FindByIdSpec | frontend/src/components/UploadDropzone.tsx:400-401 | `find` fails iff no item has the id, and otherwise returns the first item with it |
| UploadItems.RemoveByIdSpec | frontend/src/components/UploadDropzone.tsx:166-169 | the filter keeps exactly the items with another id and leaves none with the id |
| UploadItems.RemoveByIdAbsent | frontend/src/components/UploadDropzone.tsx:167 | filtering an absent id keeps the list |
| UploadFlows.SinglePutSettles | frontend/src/components/UploadDropzone.tsx:184-225 | the single PUT always completes or throws |
| UploadFlows.SinglePutMissingTarget | frontend/src/components/UploadDropzone.tsx:189-193 | without all of `signed_url`, `object_name`, `gs_path` the upload fails with "signed url missing" (or the signing call's error) after sending only the signing request |
| UploadFlows.SinglePutFinalItem | frontend/src/components/UploadDropzone.tsx:209-223 | success leaves the item done at 100 % with bytesLoaded = size, no error and the issued names; failure leaves it in error with the thrown message |
| UploadFlows.SinglePutSignsOnce | frontend/src/components/UploadDropzone.tsx:184-193 | a single PUT requests exactly one signed URL |
| UploadFlows.ChunkReports | frontend/src/components/UploadDropzone.tsx:305-311 | one report per progress event, each at most the file size |
| UploadFlows.ChunkRunAllAccepted | frontend/src/components/UploadDropzone.tsx:290-315 | with every chunk accepted the loop sends one PUT per range, in order, with header `bytes first-last/total`, and finishes |
| UploadFlows.ChunkRunWholeFile | frontend/src/components/UploadDropzone.tsx:287-315 | a failure-free whole file takes ceil(total / 3 MiB) PUTs, the last one declaring `…-(total−1)/total` |
| UploadFlows.ChunkRunResync | frontend/src/components/UploadDropzone.tsx:316-331 | a 308 with `bytes=0-N` continues from N + 1 at attempt 0 without back-off |
| UploadFlows.ChunkRunBare308 | frontend/src/components/UploadDropzone.tsx:318-340 | a 308 without a usable Range header is an ordinary failed attempt |
| UploadFlows.ChunkRunGivesUp | frontend/src/components/UploadDropzone.tsx:298-341 | three plain failures give three PUTs of one range with sleeps of 500 and 1000 ms between them, and the loop gives up |
| UploadFlows.ChunkRunSleeps | frontend/src/components/UploadDropzone.tsx:333-340 | every sleep the loop takes is 500 or 1000 ms |
| UploadFlows.ChunkRunHeaders | frontend/src/components/UploadDropzone.tsx:298-312 | every chunk PUT goes to the session URL with a range that starts inside the file and ends at ChunkEnd |
| UploadFlows.ChunkRunReportsBounded | frontend/src/components/UploadDropzone.tsx:305-311 | no progress count exceeds the file size |
| UploadFlows.ChunkRunOnlyChunks | frontend/src/components/UploadDropzone.tsx:290-343 | the loop sends only chunk PUTs and sleeps |
| UploadFlows.ResumableFallback | frontend/src/components/UploadDropzone.tsx:238-343 | every fallback (thrown session, no `upload_url`, thrown, non-ok or header-less preflight, exhausted chunk) runs exactly one single PUT of the whole item and no resumable notify; the outcome is the single PUT's; without a fallback no signed URL is requested |
| UploadFlows.PrefixOnlyChunks | frontend/src/components/UploadDropzone.tsx:238-312 | before any fallback only the session request, the preflight, chunk PUTs and sleeps are sent |
| UploadFlows.SessionFailureFallsBack | frontend/src/components/UploadDropzone.tsx:240-247 | a thrown session request sends no chunk: the requests are the session request then a single PUT |
| UploadFlows.FallbackLoadsWholeFile | frontend/src/components/UploadDropzone.tsx:333-337 | after an exhausted chunk and a successful fallback the item is done, 100 %, with every byte loaded |
| UploadFlows.ResumableFinalItem | frontend/src/components/UploadDropzone.tsx:345-362 | a completed resumable upload leaves the item done with every byte loaded; a failed one leaves it in error with the message |
| UploadFlows.PreflightFallbackRunsTwiceAsWritten | frontend/src/components/UploadDropzone.tsx:266-284 | as written, a rejected preflight whose fallback throws requests two signed URLs; the intended flow requests one |
| UploadFlows.PreflightSecondPutDecidesAsWritten | frontend/src/components/UploadDropzone.tsx:266-284 | as written, after a rejected preflight whose fallback throws, the second single PUT decides the outcome: if it succeeds the item ends done with every byte loaded, where one fallback leaves it in error; two signed URLs are requested |
| UploadFlows.UploadFileStrategy | frontend/src/components/UploadDropzone.tsx:366-374 | the first request is a session request iff size ≥ 10 MiB and a signed-URL request iff below |
| DropzoneState.ProgressedConcat | frontend/src/components/UploadDropzone.tsx:110-128 | reporting two streams one after the other is reporting their concatenation |
| DropzoneState.ProgressedBounds | frontend/src/components/UploadDropzone.tsx:95-128 | progress never lowers the byte counter, never touches the total, and sets a percent of at most 100 |
| DropzoneState.ProgressedGrowing | frontend/src/components/UploadDropzone.tsx:110-122 | a growing stream adds exactly the bytes past the file's last recorded count |
| DropzoneState.AtMostOneRemoval | frontend/src/components/UploadDropzone.tsx:160-171 | at most one auto-remove timer is pending per item |
| DropzoneState.CancelSpec | frontend/src/components/UploadDropzone.tsx:174-179 | cancelling leaves no removal pending for the item, others untouched, bookkeeping valid |
| DropzoneState.ScheduleSpec | frontend/src/components/UploadDropzone.tsx:160-171 | a delay ≤ 0 changes nothing; otherwise exactly one removal is pending for the item, the new one, with that delay |
| DropzoneState.StartSpec | frontend/src/components/UploadDropzone.tsx:454-457 | starting the end-of-batch timer keeps the bookkeeping valid |
| DropzoneState.FiredSpec | frontend/src/components/UploadDropzone.tsx:166-169 | a firing removal takes exactly its id out of the list and the map; the batch timer clears the uploading flag; a cancelled timer does nothing |
| DropzoneState.ClearRemovalsSpec | frontend/src/components/UploadDropzone.tsx:89-91 | clearing every removal leaves none pending and keeps other timers |
| DropzoneState.TimersAfterSpec | frontend/src/components/UploadDropzone.tsx:186-219 | after an upload the item's removal is pending iff it completed and the delay is positive; other items unchanged |
| DropzoneState.SinglePutEffectSummary | frontend/src/components/UploadDropzone.tsx:184-225 | the single PUT's effect: item as the flow's patch makes it, requests as the flow sends them, counter grown by the PUT's contribution from zero, `onComplete` called iff completed, totals untouched |
| DropzoneState.SinglePutTimers | frontend/src/components/UploadDropzone.tsx:186-219 | the single PUT leaves the timers as its outcome dictates |
| DropzoneState.SinglePutKeepsValid | frontend/src/components/UploadDropzone.tsx:184-225 | the single PUT keeps the timer bookkeeping valid |
| DropzoneState.ResumableEffectSummary | frontend/src/components/UploadDropzone.tsx:233-363 | the resumable flow's effect: item as the flow's patch makes it, requests as sent, counter grown by the loop's and the fallback's contributions, `onComplete` iff completed |
| DropzoneState.ResumableItemsAfter | frontend/src/components/UploadDropzone.tsx:233-363 | the item list after the resumable flow is the flow's net patch applied |
| DropzoneState.ResumableLogAfter | frontend/src/components/UploadDropzone.tsx:233-363 | the requests the resumable flow appends are the flow's requests |
| DropzoneState.ResumableBytesAfter | frontend/src/components/UploadDropzone.tsx:286-343 | the counter after the resumable flow adds the loop's and the fallback's contributions |
| DropzoneState.ResumableCompletionsAfter | frontend/src/components/UploadDropzone.tsx:345-357 | the resumable flow hands the record to `onComplete` iff it completed |
| DropzoneState.UploadFileSummary | frontend/src/components/UploadDropzone.tsx:366-374 | `uploadFile` is the selected flow after the uploading mark, and keeps the bookkeeping valid |
| DropzoneState.Workers | frontend/src/components/UploadDropzone.tsx:379 | there are max(1, K) workers, at least one |
| DropzoneState.PoolSpec | frontend/src/components/UploadDropzone.tsx:377-396 | at most as many uploads stall as there are workers; unless all stall, every queued item not done in the snapshot is uploaded exactly once, in queue order, failures notwithstanding |
| DropzoneState.RetrySpec | frontend/src/components/UploadDropzone.tsx:399-416 | retrying an unknown id is a no-op; otherwise before re-dispatch no removal is pending, the last count is 0, and the item is idle with no error, progress or bytes |
| DropzoneState.FreshPlaceholdersEligible | frontend/src/components/UploadDropzone.tsx:383-385 | placeholders with new ids are never skipped as done |
| DropzoneState.DropSpec | frontend/src/components/UploadDropzone.tsx:419-458 | a drop adds the files' total size, appends them idle, and when nothing is left pending uploads each exactly once in drop order, ends at 100 % with the 600 ms timer pending |
| DropzoneState.DropKeepsValid | frontend/src/components/UploadDropzone.tsx:419-458 | any drop keeps the timer bookkeeping valid |
| DropzoneState.DropNothing | frontend/src/components/UploadDropzone.tsx:421 | dropping no files changes nothing |
| UploadDropzone.RecordedFromZero | frontend/src/components/UploadDropzone.tsx:195-206 | `fileLoadedMap` ends at the PUT's last loaded count, or 0 |
| UploadDropzone.Dropzone.constructor | frontend/src/components/UploadDropzone.tsx:46-76 | an empty list, no percent, zero counters, no timers; absent props default to 3 workers and 1000 ms |
| UploadDropzone.Dropzone.AddUploadedDelta | frontend/src/components/UploadDropzone.tsx:95-102 | positive deltas are added and the percent recomputed when the total is known; others change nothing |
| UploadDropzone.Dropzone.UpdateProgressForFile | frontend/src/components/UploadDropzone.tsx:110-128 | adds max(0, current − last), records current, patches the item's bytes and percent |
| UploadDropzone.Dropzone.ReportProgress | frontend/src/components/UploadDropzone.tsx:305-311 | a stream of reports ends in the `Progressed` state |
| UploadDropzone.Dropzone.ScheduleAutoRemove | frontend/src/components/UploadDropzone.tsx:160-171 | the timers become `Schedule(timers, id, delay)`, bookkeeping kept valid |
| UploadDropzone.Dropzone.CancelAutoRemove | frontend/src/components/UploadDropzone.tsx:174-179 | the timers become `Cancel(timers, id)` |
| UploadDropzone.Dropzone.FireTimer | frontend/src/components/UploadDropzone.tsx:166-169 | the state becomes `Fired(state, tid)` |
| UploadDropzone.Dropzone.ResetProgress | frontend/src/components/UploadDropzone.tsx:83-93 | the state becomes `Reset(state)`: counters and maps empty, percent null, removals cleared, list empty |
| UploadDropzone.Dropzone.OnUploadProgress | frontend/src/components/UploadDropzone.tsx:200-206 | one progress report, and `fileLoadedMap` records the loaded count |
| UploadDropzone.Dropzone.PutProgress | frontend/src/components/UploadDropzone.tsx:198-207 | the PUT's callbacks end in the `Progressed` state with `fileLoadedMap` at the last count |
| UploadDropzone.Dropzone.Mark | frontend/src/components/UploadDropzone.tsx:80-81 | the list becomes `UpdateItem(items, id, patch)` |
| UploadDropzone.Dropzone.Send | frontend/src/components/UploadDropzone.tsx:198 | the request is appended to the log |
| UploadDropzone.Dropzone.BeginUpload | frontend/src/components/UploadDropzone.tsx:185-187 | the removal is cancelled and the item starts uploading at 0 |
| UploadDropzone.Dropzone.Deliver | frontend/src/components/UploadDropzone.tsx:213-219 | the record goes to `onComplete` and the removal is scheduled |
| UploadDropzone.Dropzone.NotifyBackend | frontend/src/components/UploadDropzone.tsx:346-362 | ends in the `Notified` state |
| UploadDropzone.Dropzone.UploadSinglePut | frontend/src/components/UploadDropzone.tsx:184-225 | ends in `SinglePutEffect(state, item, answers)` and returns the flow's outcome |
| UploadDropzone.Dropzone.PutSigned | frontend/src/components/UploadDropzone.tsx:195-219 | ends in the `Transferred` state |
| UploadDropzone.Dropzone.SendFile | frontend/src/components/UploadDropzone.tsx:195-207 | ends in the `Armed` state: the file's counters reset and the PUT sent with its progress |
| UploadDropzone.Dropzone.SendChunks | frontend/src/components/UploadDropzone.tsx:287-343 | the loop ends in the state of `ChunkRun` from offset 0 and reports how it ended |
| UploadDropzone.Dropzone.SendChunk | frontend/src/components/UploadDropzone.tsx:295-342 | the attempts at one chunk follow `ChunkRun` step for step |
| UploadDropzone.Dropzone.ChunkAttempt | frontend/src/components/UploadDropzone.tsx:299-341 | one attempt follows one step of `ChunkRun` |
| UploadDropzone.Dropzone.ChunkFailed | frontend/src/components/UploadDropzone.tsx:316-341 | a failed attempt resyncs, gives up or sleeps the back-off as `ChunkRun` does |
| UploadDropzone.Dropzone.PutChunkAttempt | frontend/src/components/UploadDropzone.tsx:300-312 | the chunk PUT is logged and its reports progressed |
| UploadDropzone.Dropzone.SleepFor | frontend/src/components/UploadDropzone.tsx:104-106 | the pause is logged |
| UploadDropzone.Dropzone.OpenSession | frontend/src/components/UploadDropzone.tsx:233-284 | ends in the `Gated` prefix and returns the URL only when the loop may run |
| UploadDropzone.Dropzone.UploadResumable | frontend/src/components/UploadDropzone.tsx:233-363 | ends in `ResumableEffect(state, item, answers)` and returns the flow's outcome |
| UploadDropzone.Dropzone.FallbackToSignedPut | frontend/src/components/UploadDropzone.tsx:228-230 | is the single PUT |
| UploadDropzone.Dropzone.UploadFile | frontend/src/components/UploadDropzone.tsx:366-374 | ends in `UploadFileEffect` |
| UploadDropzone.Dropzone.RunWithConcurrency | frontend/src/components/UploadDropzone.tsx:377-396 | ends in the `Pool` state with max(1, K) workers |
| UploadDropzone.Dropzone.TakeNext | frontend/src/components/UploadDropzone.tsx:380-391 | one worker step as `Dispatch` gives it |
| UploadDropzone.Dropzone.RetryItem | frontend/src/components/UploadDropzone.tsx:399-416 | ends in `RetryEffect(state, id, answers)` |
| UploadDropzone.Dropzone.OnDrop | frontend/src/components/UploadDropzone.tsx:419-458 | ends in `DropEffect(state, files, ids, answers, K, delay)` |
| UploadDropzone.Dropzone.PushPlaceholders | frontend/src/components/UploadDropzone.tsx:421-441 | ends in the `Dropped` state and returns the placeholders |
| UploadDropzone.Dropzone.UploadsFinished | frontend/src/components/UploadDropzone.tsx:443-458 | percent 100 and the 600 ms timer started |
| DownloadQuota.InternalActors | backend/app/gallery/utils/download_quota.py:19-43 | an anonymous caller is not internal; a caller is internal iff its id is the owner's or its role lower-cases to admin, staff or photographer |
| DownloadQuota.ReserveSpec | backend/app/gallery/utils/download_quota.py:57-99 | internal callers change nothing; unlimited galleries pass uncounted; a limited one answers 429 iff count + reserve > limit, count unchanged, else adds reserve so the count stays ≤ limit; only count and window change |
| DownloadQuota.NullCountIsZero | backend/app/gallery/utils/download_quota.py:60 | a null count reads as 0 |
| DownloadQuota.ReserveStartsWindow | backend/app/gallery/utils/download_quota.py:94-96 | a counted reservation with no window and a non-zero length opens one ending at now + window |
| DownloadQuota.ReservationsAddUpWithinWindow | backend/app/gallery/utils/download_quota.py:64-99 | with the intended reset, a later reservation inside the window sees the count the first one left |
| DownloadQuota.StaleWindowPersistsAsWritten | backend/app/gallery/utils/download_quota.py:66-77 | as written, an expired `resets_at` stays expired after a call, so every later call resets the count again |
| DownloadQuota.ExpiredWindowNeverClosesAsWritten | backend/app/gallery/utils/download_quota.py:70-77 | as written, a gallery limited to 1 download with a window ended at t = 100 accepts downloads at t = 200 and t = 300 |
| DownloadQuota.ExpiredWindowRestartsWhenCleared | backend/app/gallery/utils/download_quota.py:70-93 | with the intended reset, the second of those downloads is refused with 429 |
| DownloadQuota.CheckAndReserveDownload | backend/app/gallery/utils/download_quota.py:45-100 | a missing gallery is 404 with nothing changed; otherwise result and committed row are `Reserve`'s, the reservation with the expired window cleared as intended (see Findings) |
| Favorites.EffectiveLimit | backend/app/gallery/services/favorite_service.py:9-10 | the stored limit when set and positive, else 50; always ≥ 1 |
| Favorites.ListFavorites | backend/app/gallery/services/favorite_service.py:12-13 | exactly the rows of that gallery and selector, in table order |
| Favorites.CountIsListLength | backend/app/gallery/services/favorite_service.py:12-16 | the count is the length of the list |
| Favorites.CountAppend | backend/app/gallery/services/favorite_service.py:15-16 | a new row raises only its own (gallery, selector) count, by one |
| Favorites.Without | backend/app/gallery/services/favorite_service.py:36-43 | the delete removes exactly the rows equal to the given one and keeps every other row |
| Favorites.CountWithout | backend/app/gallery/services/favorite_service.py:36-43 | deleting rows lowers only their own selector's count |
| Favorites.WithoutKeepsUnique | backend/app/gallery/services/favorite_service.py:36-43 | deleting keeps the unique constraint |
| Favorites.AddFavoriteSpecProperties | backend/app/gallery/services/favorite_service.py:18-33 | the photo check comes before the limit; refusals change nothing; an addition adds exactly its row and never takes a selector past its limit; other counts are unchanged |
| Favorites.AddStatus | backend/app/gallery/controllers/favorites_controller.py:44-47 | 201 for an addition, 409 for the limit, 400 for other refusals |
| Favorites.RemoveFavoriteSpecProperties | backend/app/gallery/services/favorite_service.py:35-45 | true iff the row existed; then it is gone and the count drops by one; otherwise nothing changes |
| Favorites.WithoutOneCopy | backend/app/gallery/services/favorite_service.py:41-43 | without duplicates, deleting a present row lowers its count by exactly one |
| Favorites.NotInWithout | backend/app/gallery/services/favorite_service.py:41-45 | deleting an absent row keeps the table |
| Favorites.StoredLimit | backend/app/gallery/services/favorite_service.py:47-48 | a negative limit is stored as none, any other value as given |
| Favorites.SetLimitEffect | backend/app/gallery/services/favorite_service.py:47-52 | after setting, the effective limit is the stored positive value or 50 |
| Favorites.AddFavorite | backend/app/gallery/services/favorite_service.py:18-33 | outcome and table are `AddFavoriteSpec`'s |
| Favorites.RemoveFavorite | backend/app/gallery/services/favorite_service.py:35-45 | result and table are `RemoveFavoriteSpec`'s |
| Favorites.SetGalleryFavoritesLimit | backend/app/gallery/services/favorite_service.py:47-52 | only the gallery's limit column changes, to `StoredLimit(limit)` |
| GalleryDownload.CheckGalleryAccess | backend/app/gallery/utils/download.py:41-60 | 404 iff the gallery is missing; the gallery iff the caller owns it, it is public, or its access cookie verifies; 401 otherwise |
| GalleryDownload.SplitExtSpec | backend/app/gallery/utils/download.py:71 | `splitext`'s parts concatenate to the path; the extension is empty or a dot followed by neither dots nor slashes |
| GalleryDownload.SplitExtExamples | backend/app/gallery/utils/download.py:71-75 | `IMG_1.JPG`, `a.tar.gz`, `.hidden` and `v1.d/raw` split as Python's `splitext` splits them |
| GalleryDownload.ArcnameProperties | backend/app/gallery/utils/download.py:63-79 | names start with the display name's stem; sized copies are `{stem}-{size}.jpg`; originals keep the cached file's lower-cased extension, or fall back to `ext`, the name's extension, `.jpg` |
| GalleryDownload.FileListAppend | backend/app/gallery/utils/download.py:138-153 | the list over two runs of photos is the two lists in order |
| GalleryDownload.FileListEntries | backend/app/gallery/utils/download.py:138-153 | every entry comes from a listed photo whose cached file exists, named after it; there is exactly one entry per photo whose cached file is available, so none iff no file is available |
| GalleryDownload.PrepareGalleryFileListBySize | backend/app/gallery/utils/download.py:130-153 | the loop returns `FileListBySize` |
| GalleryDownload.ZipEntries | backend/app/gallery/utils/download.py:35-38 | the entries written are exactly those with a non-empty existing path, in order |
| GalleryDownload.ZipOfPreparedList | backend/app/gallery/utils/download.py:29-38 | a prepared list is zipped whole |
| GalleryDownload.BuildZipFileOnDisk | backend/app/gallery/utils/download.py:29-38 | the loop writes `ZipEntries`, front to back |
| GalleryDownload.DownloadGalleryDisk | backend/app/gallery/utils/download.py:86-108 | the access errors first, then 404 for an empty list, else the zip of the listed files |
| UsersDb.GetUserByEmail | backend/app/auth/services/user_service.py:52-54 | the first user whose email equals the argument exactly, or none iff there is no such user |
| UsersDb.GetUserByUsername | backend/app/auth/services/user_service.py:56-58 | the first user whose username equals the argument exactly, or none iff there is no such user |
| UsersDb.GetUserByResetToken | backend/app/services/auth_service.py:156 | the first user holding the token, or none iff nobody holds it |
| AuthService.LockedOut | backend/app/services/auth_service.py:70 | locked out iff `is_locked` and `lockout_until` > now; the comparison raises iff locked with no `lockout_until` |
| AuthService.LoginAuditsOnce | backend/app/services/auth_service.py:62-115 | every attempt that does not raise appends exactly one audit row, naming the user if known, successful iff tokens are issued |
| AuthService.LoginRefusedChangesNoUser | backend/app/services/auth_service.py:70-82 | an unknown or locked-out user gets 401, a failed audit row, and no user row changes |
| AuthService.LoginWrongPassword | backend/app/services/auth_service.py:85-102 | a wrong password gets 401, adds one failed attempt, sets `lockout_until` = now + 900 s once attempts ≥ 5, never touches `is_locked`, leaves other users alone |
| AuthService.LoginSucceedsIff | backend/app/services/auth_service.py:104-122 | tokens for the username iff the user exists, is not locked out and the password checks; then attempts 0, `lockout_until` cleared |
| AuthService.LoginKeepsAccounts | backend/app/services/auth_service.py:62-122 | a login never changes lock flags, names, emails, hashes or the set of users |
| AuthService.LockoutNeverEnforced | backend/app/services/auth_service.py:70-102 | starting with no locked account, after any sequence of attempts the right password still gets tokens |
| AuthService.PasswordChangeSpec | backend/app/services/auth_service.py:126-139 | 404 iff no user, 401 iff wrong current password, 400 iff new password < 8; only success changes a row, that user's hash, to the new password's |
| AuthService.ForgotPassword | backend/app/services/auth_service.py:141-150 | an unknown email changes nothing; otherwise only that email's first user changes, gaining the token with expiry now + 3600 s, and when no earlier row holds the token it then looks up exactly that user |
| AuthService.PasswordResetSpec | backend/app/services/auth_service.py:155-165 | invalid-token 400 iff no holder or expiry missing or past; too-short 400 iff valid and < 8; success sets the hash and clears token and expiry |
| AuthService.ForgotThenReset | backend/app/services/auth_service.py:141-165 | a fresh token issued to an email resets that user's password up to one hour later, changes no one else, and cannot be used twice |
| AuthService.ExpiredTokenRefused | backend/app/services/auth_service.py:149-158 | a token used more than an hour after issue is refused and changes nothing |
| AuthService.HandleUserLogin | backend/app/services/auth_service.py:62-122 | outcome, users and audits are `Login`'s |
| AuthService.ChangeUserPassword | backend/app/services/auth_service.py:126-139 | result and users are `PasswordChange`'s |
| AuthService.HandleForgotPassword | backend/app/services/auth_service.py:141-150 | users become `ForgotPassword`'s |
| AuthService.HandleResetPassword | backend/app/services/auth_service.py:155-165 | result and users are `PasswordReset`'s |
| UserService.RegisterSpec | backend/app/auth/services/user_service.py:22-50 | a taken email is a 409 before a taken username; conflicts insert nothing; otherwise exactly one active, unlocked user is appended and both lookups find it |
| UserService.AttemptsUpdatedSpec | backend/app/auth/services/user_service.py:84-93 | increment adds 1, reset sets 0; ≥ 5 attempts implies locked; the lock flag is never cleared |
| UserService.FifthIncrementLocks | backend/app/auth/services/user_service.py:84-93 | a fresh account is locked by exactly its fifth consecutive increment |
| UserService.SuperAdminSpec | backend/app/auth/services/user_service.py:60-77 | an existing email is a no-op; otherwise exactly one active user is appended; seeding again is a no-op |
| UserService.CreateNewUser | backend/app/auth/services/user_service.py:11-50 | result and users are `Register`'s |
| UserService.UpdateUserFailedAttempts | backend/app/auth/services/user_service.py:84-96 | the user becomes `AttemptsUpdated(user, increment)` |
| UserService.CreateSuperAdmin | backend/app/auth/services/user_service.py:60-77 | users become `SuperAdmin`'s |

## Left out

- Transfer speed (`speedKbps`, `fileProgressMeta.lastTs`, `Date.now`). These are floating-point and clock-based; items carry no speed field, so "speed 0" on success is not stated.
- React rendering, `antd` messages, `console` logging, `humanSize` and the dropzone's MIME filter. These are presentation only.
- Network I/O. Each call is an input outcome. Upload ids from `Date.now()` and `Math.random()` are a parameter `ids`.
- UploadDropzone.Dropzone.RunWithConcurrency: workers run their uploads one after another. The interleaving of concurrent workers' awaits and progress callbacks is not modelled.
- An `onComplete` callback that throws. Its exception is swallowed by the source; the model just records the delivered record.
- UploadItems.FindByIdSpec: the worker pool and `retryItem` read the `items` of the render that created the handler. The model takes that list to be the state's item list when the handler starts (`st.items` in `RetryEffect` and `DropEffect`). React's batching of `setItems` is not modelled.
- JWT encoding and decoding (`create_access_token`, `create_refresh_token`, `decode_token`). These are cryptographic; a successful login yields the token subject.
- bcrypt, the password hasher, the access-token verifier and `secrets.token_urlsafe`. These are parameters.
- The reset e-mail is simulated by a `print`, so it is not modelled.
- Time zones: every timestamp is whole seconds in UTC. A naive/aware `datetime` comparison error is not modelled. A locked user with no `lockout_until` is modelled as the comparison raising (`AuthService.ComparisonRaised`).
- Database concurrency. Each call runs alone and each commit is atomic, so the read-then-increment race in the quota is not modelled.
- `get_all_users` and `get_all_roles` are plain reads. `prepare_gallery_file_list` is a legacy copy of the by-size list for originals. `cleanup_file_later`, the temporary directory and the `FileResponse` are file-system plumbing.
- The inside of `ensure_cached_download_for_photo`. It is a parameter returning a path or raising.
- `create_super_admin` assigns the text "Owner" to the `role` relationship. The model stores it as a role name; what the ORM makes of it is not modelled.
- `DownloadQuota.IsActorOwnerOrInternal` lower-cases ASCII letters only.
- GalleryDownload.ArcnameProperties: the extension of the cached file is lower-cased for ASCII letters only, where Python's `str.lower` also folds other letters.
- UploadProgress.QueuePercentBounds: `QueuePercent` rounds the exact ratio 100·uploaded / total, half up. The source rounds the double `(uploaded / total) * 100`, whose floating-point error can land it just below a half. So the source's percent can be 1 lower at exact halves: 29 of 200 bytes shows 14 in the source and 15 here. The bounds, monotonicity and the 100 at completion hold for both.
- UploadProgress.ItemPercent: the same exact rounding replaces `Math.round((currentBytes / totalBytes) * 100)`, and may be 1 higher at exact halves. `RoundRatio` and `DropzoneState.DropPercent` round the same way.
- DownloadQuota.CheckAndReserveDownload: commits the corrected window reset (`Reserve`), not the misspelled assignment that leaves `resets_at` in the past. The code as written is `ReserveAsWritten`, and its consequence is shown by `ExpiredWindowNeverClosesAsWritten`.
- DropzoneState.ResumableEffectSummary: describes the resumable flow with one fallback single PUT. After a rejected preflight whose fallback throws, the code as written runs a second single PUT, and that PUT's patch, requests, bytes, `onComplete` call and removal timer follow. Only `UploadFlows.ResumableOutcomeAsWritten`, `ResumablePatchAsWritten` and `ResumableRequestsAsWritten` describe that path.
- DropzoneState.ResumableItemsAfter: the item list omits the second single PUT's patch on that path.
- DropzoneState.ResumableLogAfter: the request log omits the second single PUT's requests on that path.
- DropzoneState.ResumableBytesAfter: the byte counter omits the second single PUT's progress on that path.
- DropzoneState.ResumableCompletionsAfter: a second single PUT that completes calls `onComplete` in the code as written, but not in the model.
- UploadDropzone.Dropzone.OpenSession: on a rejected preflight it runs one fallback single PUT, not a second one after the first throws.
- UploadDropzone.Dropzone.UploadResumable: ends in the one-fallback `ResumableEffect`, not in the second single PUT's state on that path.
- DropzoneState.UploadFileSummary: a large file's upload is the one-fallback resumable effect, so the second single PUT after a rejected preflight is missing here too.
- DropzoneState.PoolSpec: a large file's upload is the one-fallback resumable effect, so the second single PUT after a rejected preflight is missing here too.
- DropzoneState.DropSpec: a large file's upload is the one-fallback resumable effect, so the second single PUT after a rejected preflight is missing here too.
- DropzoneState.RetrySpec: a large file's upload is the one-fallback resumable effect, so the second single PUT after a rejected preflight is missing here too.
- UploadDropzone.Dropzone.UploadFile: a large file's upload is the one-fallback resumable effect, so the second single PUT after a rejected preflight is missing here too.
- UploadDropzone.Dropzone.RunWithConcurrency: a large file's upload is the one-fallback resumable effect, so the second single PUT after a rejected preflight is missing here too.
- UploadDropzone.Dropzone.RetryItem: a large file's upload is the one-fallback resumable effect, so the second single PUT after a rejected preflight is missing here too.
- UploadDropzone.Dropzone.OnDrop: a large file's upload is the one-fallback resumable effect, so the second single PUT after a rejected preflight is missing here too.
- Ids are natural numbers and the actor's role is text.

## Findings

| source | as written | input that shows it | evidently intended | confidence | as-written member | corrected member |
|---|---|---|---|---|---|---|
| backend/app/gallery/utils/download_quota.py:72 | an expired window assigns `None` to the misspelled `dresets_at`, so `resets_at` stays in the past and every later call resets the count to 0 | gallery limited to 1 download, window ended at t = 100; downloads at t = 200 and t = 300 both succeed | clear `resets_at` so the next reservation opens a new window and counts against the limit | high, not executed | DownloadQuota.ExpiredWindowNeverClosesAsWritten | DownloadQuota.ExpiredWindowRestartsWhenCleared |
| frontend/src/components/UploadDropzone.tsx:269-283 | the fallback for a non-ok or header-less preflight runs inside the `try`, so when that single PUT throws, the `catch` runs a second single PUT, whose result decides the item | preflight answered non-ok, the first signed-URL request throws, the second succeeds: the item ends done instead of in error | one fallback single PUT per item, as on every other fallback path | high, not executed | UploadFlows.PreflightSecondPutDecidesAsWritten | UploadFlows.ResumableFallback |
