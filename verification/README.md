# RepoMentor: verified models of admission, review processing, event streams and sessions

This project models the parts of RepoMentor in which state, interleaving or exact arithmetic decide
correctness, and proves what they promise. `dafny verify dfyconfig.toml` checks all of it.

- **Quota admission.** `RedisAdmission` runs the reservation and compensation scripts over one
  counter and one marker per admission id, with the marker text and the TypeScript result checks.
  `QuotaAdmission` is the protocol of `admit`: any number of concurrent calls that interleave, fail
  before or after an effect, or crash; `QuotaInvariant`, `QuotaSafety` and `QuotaTheorems` hold its
  inductive invariant and the theorems, and `QuotaAnswers` says what an undisturbed call answers
  from any reachable state. `AdmissionStore` shows that the in-memory adapters refine
  the durable store.
- **Review processing.** `ReviewLog` is the review repository with its event log; `ReviewProcessing`
  runs workers, in-flight finalizers, lease fences and user actions over the conditional updates of
  one review, and `ReviewOutcomes` says what an undisturbed worker answers; `LockKeepalive` is the Redis lock with its renewal and watchdog timers in real time.
- **Event delivery.** `ReviewEvents` maps log records to wire events and back; `ReviewStream` is the
  server's replay and poll loop; `SseWire` is the printer and the client's incremental reader over
  the JSON text of `Json`. They compose: what a connection wrote is what the client delivers.
- **Encodings.** `ReviewPrompt` (escaped JSON between framing markers), `Fingerprint`
  (length-prefixed message), `LikeSearch` (LIKE escaping).
- **Arithmetic.** `UtcDate` and `UtcDay` (proleptic Gregorian dates, day windows, time to live),
  `UsageCost` (floor-rounded estimates and their aggregation).
- **Authentication.** `AuthRateLimiter` (fixed windows over a bounded insertion-ordered map),
  `RefreshRotation` (stepwise token rotation against the atomic one).

Protocols are state machines whose steps are single durable effects, and their theorems quantify
over every sequence of moves. Objects that the source updates in place are classes whose methods are
tied to specification functions; the lemmas are about those functions. Text is a sequence of UTF-16
code units.

What the proofs found out about the code:

- A claim recorded with the last event sequence number (2 147 483 646) is never resolved, and
  `process` then returns STALE_CLAIM with its own generation. This is the only exception
  (`ReturnResolvesClaim`, `StaleClaimIsNewer`), and it is reachable
  (`ExhaustedClaimReturnsUnresolved`).
- `Date.UTC` reads the years 0 to 99 as 1900 to 1999, so in those years a day window is not the day
  of its instant and the time to live is rejected; at the last representable instant the time to
  live is NaN and passes the range check (`WindowIsTheDayIff`, `TtlIsSecondsToMidnight`).
- Creating a review under the id of a completed one leaves a PENDING review with a result, which
  breaks the rule that exactly completed reviews have one; histories stay faithful exactly when no
  creation does that (`HistoriesAreFaithfulIff`, `RecreationBreaksHistory`). This is a fact about the
  repository interface: the review service never chooses an id
  (apps/api/src/modules/review/review.service.ts:136).
- An empty title filter hides untitled reviews in memory but not in the database (`FiltersAgree`).
  Again only the repositories differ: the list query trims its title and rejects an empty one
  (apps/api/src/modules/review/review.dto.ts:103-108).
- The usage search escapes underscores only, which is right exactly for texts without percent signs
  and backslashes (`UnderscoresSufficeIff`); the request validation admits only such texts.
- Two concurrent replays of an old refresh token can both be reported as REUSE_DETECTED, which no
  run of atomic rotations does (`ReuseCanBeReportedTwice`, `AtomicReuseIsReportedOnce`). It happens
  exactly when both have found the session active before either revokes it
  (`ReuseReportedTwiceIff`): the last update's count is ignored (`RevokingStepIsAtomicIff`).
- The in-memory admission store does not guard review ids, so it agrees with the durable one exactly
  while no new intent takes the review id of another (`StoresAgreeIff`).
- A reservation script that runs after its day's keys have expired starts a second count
  (`LateScriptGrantsTwice`). The counter is the net count of grants exactly while no live counter
  expires (`CounterIsNetIff`), and an id is granted again exactly when its marker has expired and
  the counter is below the limit (`SecondGrantIff`); the protocol therefore runs the script on the
  call's UTC day.

## Model

| member | source | states |
|---|---|---|
| RedisAdmission.AdmissionKeys.RunReserve | apps/api/src/modules/redis/redis.admission.ts:12-55 | the reservation script, command by command, leaves exactly the keys and the reply of the specification `Reserve` |
| RedisAdmission.AdmissionKeys.RunCompensate | apps/api/src/modules/redis/redis.admission.ts:57-105 | the compensation script, command by command, leaves exactly the keys and the reply of the specification `Compensate` |
| RedisAdmission.LuaIsFaithful | apps/api/src/modules/redis/redis.admission.ts:19-33 | every marker text the scripts write is read back by their own pattern as the same marker |
| RedisAdmission.ReserveKeepsCoherent | apps/api/src/modules/redis/redis.admission.ts:12-55 | a reservation keeps the counter equal to the number of live markers with outcome 1, sharing one expiry, within the limit |
| RedisAdmission.CompensateKeepsCoherent | apps/api/src/modules/redis/redis.admission.ts:57-105 | so does a compensation |
| RedisAdmission.EveryRunIsCoherent | apps/api/src/modules/redis/redis.admission.ts:12-105 | in every reachable Redis state, with keys expiring, the counter equals the number of live granted markers, they share its expiry, and it is at most the limit |
| RedisAdmission.ReservationRepliesAccepted | apps/api/src/modules/redis/redis.admission.ts:232-266 | every reservation reply of a run passes the result checks and reports whether the id is granted and replayed |
| RedisAdmission.CompensateReplyAccepted | apps/api/src/modules/redis/redis.admission.ts:268-295 | every compensation reply passes its checks, and exactly a granted id is given back |
| RedisAdmission.CheckedReplies | apps/api/src/modules/redis/redis.admission.ts:232-295 | a reply that passes the checks is consistent: what remains is what is not used, and only a use within the limit is allowed |
| RedisAdmission.ReservationTiming | apps/api/src/modules/redis/redis.admission.ts:35-55 | a fresh marker expires with the live counter, or after the given time, and the reply announces that expiry rounded up to whole seconds |
| RedisAdmission.ReplayRepeats | apps/api/src/modules/redis/redis.admission.ts:12-33 | a reservation that finds a live marker answers with its figures and changes nothing |
| RedisAdmission.CompensationTiming | apps/api/src/modules/redis/redis.admission.ts:80-105 | a tombstone keeps its marker's expiry, and the reply announces it in whole seconds |
| RedisAdmission.OneIncrementPerId | apps/api/src/modules/redis/redis.admission.ts:12-55 | an admission id increments the counter a second time only after the marker of the first time has expired |
| RedisAdmission.SecondGrantIff | apps/api/src/modules/redis/redis.admission.ts:12-55 | the next reservation of a granted id increments again exactly when its marker has expired and the counter is below the limit |
| RedisAdmission.CompensatedIdNeverReserves | apps/api/src/modules/redis/redis.admission.ts:57-105 | while the tombstone of a compensated id lives, every later reservation of the id replays it |
| RedisAdmission.CounterIsNetIff | apps/api/src/modules/redis/redis.admission.ts:12-105 | conservation: increments minus compensations are the counter plus what it forgot by expiring; they equal the counter exactly when no live counter ever expired |
| RedisAdmission.GrantsStayWithinLimit | apps/api/src/modules/redis/redis.admission.ts:12-105 | while no live counter expires, at most the limit more ids are granted than given back |
| RedisAdmission.DayIsCounted | apps/api/src/modules/redis/redis.admission.ts:12-105 | scripts of one UTC day increment at most once per id and the counter is the net count |
| RedisAdmission.LateScriptGrantsTwice | apps/api/src/modules/redis/redis.admission.ts:12-55 | a run in which a counter expires between two scripts and a limit of one grants two ids |
| QuotaSafety.StepKeepsInv | apps/api/src/modules/usage/quota-admission-http.service.ts:161-434 | every step of every call, with any fault, keeps the protocol invariant |
| QuotaSafety.EveryRunSatisfiesInv | apps/api/src/modules/usage/quota-admission-http.service.ts:161-434 | the invariant holds after every sequence of moves |
| QuotaTheorems.ReviewsNeverExceedLimit | apps/api/src/modules/usage/quota-admission-http.service.ts:161-349 | under any interleaving, faults and crashes, the reviews ever created for one user, mode and UTC day never exceed the limit |
| QuotaTheorems.AdmittedIffReviewed | apps/api/src/modules/usage/prisma-review-finalizer.ts:198-292 | an admission is ADMITTED exactly when its preallocated review row exists, and then the script once returned RESERVED for it |
| QuotaTheorems.SuccessIsIdempotent | apps/api/src/modules/usage/quota-admission-http.service.ts:351-411 | all successful admits of one user and key return one review id and fingerprint, and at most one reports CREATED |
| QuotaTheorems.ForeignFingerprintIsInert | apps/api/src/modules/usage/prisma-quota-admission.repository.ts:65-132 | a call whose key belongs to a different fingerprint changes nothing at any step, never succeeds, and conflicts at its first read |
| QuotaTheorems.DecisionsAreFinal | apps/api/src/modules/usage/quota-admission.types.ts:15-22 | ADMITTED and DENIED are absorbing in every run, markSafeStatus fallbacks included, and a row never changes identity |
| QuotaAnswers.EveryRunHasProvenance | apps/api/src/modules/usage/quota-admission-http.service.ts:161-349 | in every run markers belong to admission rows and record a decision, and candidate review ids are used by their own row only |
| QuotaAnswers.UndisturbedAdmitIsAnswered | apps/api/src/modules/usage/quota-admission-http.service.ts:161-411 | from any reachable state a call left alone on its UTC day answers in five steps: a first request creates its review below the limit of its mode and is denied at it, and a repeat is answered from its row (conflict, rate limited, unavailable, its review again, or the pending decision) |
| QuotaAnswers.NewRequestIsAnswered | apps/api/src/modules/usage/quota-admission-http.service.ts:165-203 | the same from the request on, for a new idempotency key |
| QuotaAnswers.LostInsertFindsRow | apps/api/src/modules/usage/prisma-quota-admission.repository.ts:65-132 | losing the insert to a racing request is answered as if the row had been found at once |
| QuotaAnswers.LostDecisionIsTaken | apps/api/src/modules/usage/quota-admission-http.service.ts:303-349 | a decision that a racing request has persisted is taken over |
| QuotaAnswers.LostAdmissionIsTaken | apps/api/src/modules/usage/quota-admission-http.service.ts:330-349 | so is a row that a racing request has admitted |
| QuotaAnswers.FaultyFindIsMarked | apps/api/src/modules/usage/quota-admission-http.service.ts:182-206 | a failed lookup of the intent is marked RECONCILE_REQUIRED |
| QuotaAnswers.FaultyCreateIsMarked | apps/api/src/modules/usage/quota-admission-http.service.ts:182-206 | so is a failed insert, whether it happened or not |
| QuotaAnswers.FaultyRereadIsMarked | apps/api/src/modules/usage/quota-admission-http.service.ts:209-228 | so is a failed reread |
| QuotaAnswers.FaultyScriptIsMarked | apps/api/src/modules/usage/quota-admission-http.service.ts:258-282 | a failed reservation is marked INDETERMINATE, whether the script ran or not |
| QuotaAnswers.FaultyFinalizeIsMarked | apps/api/src/modules/usage/quota-admission-http.service.ts:382-402 | a failed transaction is marked RECONCILE_REQUIRED |
| QuotaAnswers.FaultyPersistIsReread | apps/api/src/modules/usage/quota-admission-http.service.ts:303-328 | a failed decision write is followed by the reread |
| QuotaAnswers.MarkingEnds | apps/api/src/modules/usage/quota-admission-http.service.ts:413-434 | marking ends with Unavailable after two tries at most, whatever fails |
| QuotaAnswers.PreferredIsStored | apps/api/src/modules/usage/quota-admission-http.service.ts:413-423 | the preferred status is stored when the row allows it |
| AdmissionStore.InMemoryQuotaAdmissionRepository.CreateOrGetIntent | apps/api/src/modules/usage/in-memory-quota-admission.repository.ts:36-85 | looks up by owner and key, else inserts into both indexes; conflicts leave both unchanged |
| AdmissionStore.InMemoryQuotaAdmissionRepository.TransitionRecord | apps/api/src/modules/usage/in-memory-quota-admission.repository.ts:92-122 | allowed transitions refresh the index by id and only that one |
| AdmissionStore.EveryStoreIsAligned | apps/api/src/modules/usage/in-memory-quota-admission.repository.ts:33-122 | in every run both indexes name the same records and the one by key keeps the status of creation |
| AdmissionStore.TransitionRefines | apps/api/src/modules/usage/prisma-quota-admission.repository.ts:147-194 | in-memory and durable transitions have the same replies and effects |
| AdmissionStore.CreateRefines | apps/api/src/modules/usage/prisma-quota-admission.repository.ts:65-132 | in-memory creation agrees with the durable insert whenever the review id is unused |
| AdmissionStore.RereadCompensatesStaleness | apps/api/src/modules/usage/quota-admission-http.service.ts:209-228 | the record found by key has the current status exactly while that is PENDING; the reread by id always yields the durable row |
| AdmissionStore.StoresAgreeIff | apps/api/src/modules/usage/in-memory-quota-admission.repository.ts:36-122 | over any run the in-memory store answers as the durable one, stale statuses aside, exactly when no new intent takes the review id of another, and then its maps stand for the durable rows |
| AdmissionStore.InMemoryReviewFinalizer.FinalizeReview | apps/api/src/modules/usage/in-memory-review-finalizer.ts:100-166 | creates the review and admits, or takes both writes back when the second fails |
| AdmissionStore.FinalizerRefines | apps/api/src/modules/usage/prisma-review-finalizer.ts:198-292 | without an injected failure it replies and writes as the durable transaction; with one it writes nothing |
| ReviewLog.InMemoryReviewRepository.Create | apps/api/src/modules/review/in-memory-review.repository.ts:64-98 | sets the row, sequence 1 and the first event, leaving any result under the id |
| ReviewLog.InMemoryReviewRepository.AppendEvent | apps/api/src/modules/review/in-memory-review.repository.ts:325-345 | appends the event of the row under the next sequence number, or throws and changes nothing |
| ReviewLog.InMemoryReviewRepository.TransitionForUser | apps/api/src/modules/review/in-memory-review.repository.ts:175-208 | changes exactly one review as the specification `Transition` says, or nothing |
| ReviewLog.InMemoryReviewRepository.FinalizeForUser | apps/api/src/modules/review/in-memory-review.repository.ts:210-240 | completes the claimed generation with its result, or changes nothing |
| ReviewLog.InMemoryReviewRepository.FenceProcessingForUser | apps/api/src/modules/review/in-memory-review.repository.ts:242-268 | cancels the claimed generation, or changes nothing |
| ReviewLog.InMemoryReviewRepository.ListEventsForUser | apps/api/src/modules/review/in-memory-review.repository.ts:270-286 | lists the events above a cursor, oldest first, up to the limit |
| ReviewLog.CreatedIsFaithful | apps/api/src/modules/review/in-memory-review.repository.ts:64-98 | a created review has a faithful history exactly when no result is stored under its id |
| ReviewLog.TransitionFaithfulIff | apps/api/src/modules/review/review.policy.ts:3-9 | a successful status change keeps the history faithful exactly when the policy allows it |
| ReviewLog.CallersAreLawful | apps/api/src/modules/review/processing/review-processing.policy.ts:10-35 | every request the services build respects the policy |
| ReviewLog.EveryRunIsFaithful | apps/api/src/modules/review/in-memory-review.repository.ts:175-345 | sequences are 1..n, statuses follow the policy, generations count PROCESSING events, the last event matches the row, and a result exists exactly for COMPLETED |
| ReviewLog.NextIsMethods | apps/api/src/modules/review/in-memory-review.repository.ts:175-268 | the moves of a repository run are what the methods do |
| ReviewLog.HistoriesAreFaithfulIff | apps/api/src/modules/review/in-memory-review.repository.ts:64-345 | over any lawful run all histories of the repository stay faithful exactly when no creation reuses the id of a review with a result |
| ReviewLog.RecreationBreaksHistory | apps/api/src/modules/review/in-memory-review.repository.ts:64-98 | a run in which a creation does |
| ReviewLog.RefusalChangesNothing | apps/api/src/modules/review/in-memory-review.repository.ts:325-345 | a throwing or null operation changes nothing, and exactly when an operation throws |
| ReviewLog.OthersSeeNothing | apps/api/src/modules/review/in-memory-review.repository.ts:138-286 | another user, or anyone after a deletion, reads nothing and changes nothing |
| ReviewLog.DeletionHides | apps/api/src/modules/review/in-memory-review.repository.ts:135-148 | the owner's deletion keeps everything but hides it from everyone |
| ReviewLog.OwnersAreAnswered | apps/api/src/modules/review/in-memory-review.repository.ts:175-208 | exactly when a status change succeeds, and the row and event it leaves |
| ReviewLog.ClaimHoldersAreAnswered | apps/api/src/modules/review/in-memory-review.repository.ts:210-268 | exactly when completing and fencing succeed, and the row and result they leave |
| ReviewLog.PolicyTable | apps/api/src/modules/review/review.policy.ts:3-9 | the allowed sources of every status |
| ReviewLog.ApplyFences | apps/api/src/modules/review/in-memory-review.repository.ts:175-268 | generations grow only on a claim and by one; a left claim is not re-entered; COMPLETED is final |
| ReviewLog.PastIsForever | apps/api/src/modules/review/in-memory-review.repository.ts:175-268 | over any run a generation that was left is never PROCESSING again |
| ReviewLog.CompletedIsForever | apps/api/src/modules/review/in-memory-review.repository.ts:210-240 | a completed review keeps status, generation, log and result through any later operations |
| ReviewLog.ClaimEndsOnce | apps/api/src/modules/review/in-memory-review.repository.ts:210-268 | of all operations in a run at most one ends the claim of a generation |
| ReviewLog.FencedSuccessEnds | apps/api/src/modules/review/in-memory-review.repository.ts:210-268 | a successful finalize, fence, fail or cancel at a generation is such an end |
| ReviewLog.NewerIsSuffix | apps/api/src/modules/review/in-memory-review.repository.ts:270-286 | in a faithful log a cursor read is the suffix after the cursor |
| ReviewProcessing.RepositoriesAgree | apps/api/src/modules/review/prisma-review.repository.ts:226-439 | the conditional updates and the in-memory repository make the same changes; only an exhausted sequence is null here and an exception there |
| ReviewProcessing.ReviewProcessingLeaseFence.MarkLost | apps/api/src/modules/review/processing/review-processing.service.ts:94-112 | starts the one durable fence exactly when the lease is lost and a generation is claimed |
| ReviewProcessing.StepWorkerKeeps | apps/api/src/modules/review/processing/review-processing.service.ts:454-881 | every step of a worker, its finalizer or its fence evolves the row lawfully and keeps what the worker knows |
| ReviewProcessing.ReturnResolvesClaim | apps/api/src/modules/review/processing/review-processing.service.ts:454-881 | after `process` returned normally with claim g the review is not PROCESSING at g, now or ever, exactly when the claim did not take the last event sequence number |
| ReviewProcessing.StaleClaimIsNewer | apps/api/src/modules/review/processing/review-processing.service.ts:829-881 | a STALE_CLAIM outcome carries a generation above the claim, under the same condition |
| ReviewProcessing.CompletionIsReportedOnce | apps/api/src/modules/review/processing/review-processing.service.ts:719-768 | two workers never claim the same generation, and at most one reports its own completion, which is then durable |
| ReviewProcessing.ExhaustedClaimReturnsUnresolved | apps/api/src/modules/review/processing/review-processing.service.ts:829-881 | a run in which the exception occurs |
| ReviewOutcomes.UndisturbedProcessIsAnswered | apps/api/src/modules/review/processing/review-processing.service.ts:397-577 | a worker left alone with a pending review claims it and ends it as its execution settled: answered is COMPLETED, failed is FAILED, cancelled is CANCELLED, each reported as such |
| ReviewOutcomes.ReportsTellExecution | apps/api/src/modules/review/processing/review-processing.service.ts:494-616 | in every run a worker that reports COMPLETED had its execution answered, and one that reports FAILED had it fail |
| ReviewOutcomes.SkipsUnclaimable | apps/api/src/modules/review/processing/review-processing.service.ts:376-395 | a review that cannot be claimed is left alone and reported by its status |
| ReviewOutcomes.SkipsLocked | apps/api/src/modules/review/processing/review-processing.service.ts:397-408 | without the lock only a completed or processing review is reported |
| ReviewOutcomes.GoneIsRefused | apps/api/src/modules/review/processing/review-processing.service.ts:397-472 | a deleted review, a lost lease and a failed effect before the claim are refused |
| ReviewOutcomes.AbortCancels | apps/api/src/modules/review/processing/review-processing.service.ts:510-522 | the caller's signal cancels the claimed review |
| ReviewOutcomes.LostLeaseCancels | apps/api/src/modules/review/processing/review-processing.service.ts:655-689 | a lost lease is fenced durably, and the fenced row is the outcome |
| ReviewOutcomes.FailedFenceCancels | apps/api/src/modules/review/processing/review-processing.service.ts:655-689 | when the fence fails the fallback still cancels the review, and the caller gets the fence's error |
| ReviewOutcomes.LateLandingIsAbandoned | apps/api/src/modules/review/processing/review-processing.service.ts:579-653 | a finalization that lands after a loss or an abort does not decide the answer |
| ReviewOutcomes.LostWriteIsAnswered | apps/api/src/modules/review/processing/review-processing.service.ts:719-827 | a finalization that lost its row reports what it finds |
| ReviewOutcomes.LostCancelIsAnswered | apps/api/src/modules/review/processing/review-processing.service.ts:829-881 | so does a cancellation |
| ReviewOutcomes.UserMovesAreAnswered | apps/api/src/modules/review/prisma-review.repository.ts:226-439 | the user's cancel and retry succeed exactly from the statuses the policy allows |
| LockKeepalive.LockKey.Acquire | apps/api/src/modules/redis/redis.lock.ts:75-132 | takes the key exactly when no live key is there |
| LockKeepalive.LockKey.Renew | apps/api/src/modules/redis/redis.lock.ts:15-20 | succeeds exactly when the key is live and holds the token, and then moves its expiry on |
| LockKeepalive.LockKey.Release | apps/api/src/modules/redis/redis.lock.ts:8-13 | deletes the key exactly when it is live and holds the token |
| LockKeepalive.ReviewLockKeepalive.OnRenewalTimer | apps/api/src/modules/review/processing/review-processing.service.ts:162-181 | issues at most one request, or loses the lease when the watchdog deadline has passed |
| LockKeepalive.ReviewLockKeepalive.OnRenewalReply | apps/api/src/modules/review/processing/review-processing.service.ts:182-209 | starts the next cycle only on a timely renewal of the current cycle, and otherwise loses the lease |
| LockKeepalive.ReviewLockKeepalive.OnWatchdogTimer | apps/api/src/modules/review/processing/review-processing.service.ts:212-223 | loses the lease if its cycle is still current |
| LockKeepalive.WatchdogWithinLease | apps/api/src/modules/review/processing/review-processing.service.ts:156-255 | after any number of renewal cycles an un-lost keepalive's watchdog deadline is at or before the lock's expiry |
| LockKeepalive.BeliefsExclude | apps/api/src/modules/review/processing/review-processing.service.ts:115-255 | two workers never both hold an un-lost, un-expired belief |
| LockKeepalive.LossIsNotifiedOnce | apps/api/src/modules/review/processing/review-processing.service.ts:246-254 | the loss callback runs exactly once for a lost keepalive and never otherwise |
| LockKeepalive.PunctualLeaseIsKept | apps/api/src/modules/review/processing/review-processing.service.ts:156-255 | a started keepalive whose renewals are answered before each watchdog deadline and never rejected is not lost and its key never lapses, for any number of cycles |
| LockKeepalive.AcquiredLeaseStarts | apps/api/src/modules/review/processing/review-processing.service.ts:138-160 | a worker that finds no live key takes it and starts its first cycle |
| LockKeepalive.CycleRenews | apps/api/src/modules/review/processing/review-processing.service.ts:162-209 | one whole renewal moves the key and both timers on |
| LockKeepalive.LateCycleIsLost | apps/api/src/modules/review/processing/review-processing.service.ts:169-223 | a passed deadline, a rejected request and a refused one each lose the lease |
| LockKeepalive.StoppedIsQuiet | apps/api/src/modules/review/processing/review-processing.service.ts:142-146 | a stopped keepalive issues no request and is never lost |
| LockKeepalive.ScriptsAnswer | apps/api/src/modules/redis/redis.lock.ts:8-20 | what acquisition, renewal and release answer for any key |
| LockKeepalive.StartWithinThird | apps/api/src/modules/review/processing/review-processing.service.ts:138-140 | the first cycle is covered by the acquisition exactly when it starts within a third of the lease |
| ReviewEvents.RecordsAreDelivered | apps/api/src/modules/review/review-events.service.ts:104-138 | every record of a faithful log has an ordinary event that both schema and client accept and that repeats its sequence, status, generation, result flag, kind and retryable flag |
| ReviewEvents.ResetsAndHeartbeatsAreDelivered | apps/api/src/modules/review/review-events.service.ts:140-153 | so has its reset snapshot, and its heartbeat exactly while the status is not terminal |
| ReviewEvents.EventRoundTrip | apps/web/features/review/api/reviewApi.ts:294-353 | the client reads an event's own properties back as that event exactly when it accepts it |
| Json.StringRoundTrip | apps/api/src/modules/ai/review-prompt.builder.ts:78-80 | a string literal as JSON.stringify writes it, lone surrogates included, is read back as the string |
| Json.EscapesAreShortest | apps/api/src/modules/ai/review-prompt.builder.ts:78-80 | each unit is written as itself or by the shortest escape JSON has for it |
| Json.ObjectRoundTrip | apps/web/features/review/api/reviewApi.ts:526-531 | parsing a printed flat object gives its members back |
| SseWire.ParseSseFrame | apps/web/features/review/api/reviewApi.ts:482-540 | the line loop computes the frame specification |
| SseWire.FrameRoundTrip | apps/web/features/review/api/reviewApi.ts:482-540 | a printed frame is read as the event it was printed from |
| SseWire.ConsumeReviewEventStream | apps/web/features/review/api/reviewApi.ts:596-640 | the reading loop delivers and ends as the chunk-by-chunk specification |
| SseWire.TooLargeIff | apps/web/features/review/api/reviewApi.ts:596-640 | the reader gives up for size exactly when, with nothing ended before, an unfinished frame and the next chunk together exceed the bound |
| SseWire.CutsDoNotMatter | apps/web/features/review/api/reviewApi.ts:596-640 | for any text, while no chunk overflows the buffer, chunk boundaries change neither the events nor the end; otherwise a prefix was delivered |
| SseWire.AcceptedEventsAreWritable | apps/api/src/modules/review/review-events.service.ts:509-517 | writeEvent never throws for an event the client accepts, and its frame is short |
| SseWire.PrintedEventsArrive | apps/api/src/modules/review/review-events.service.ts:509-517 | printed events, cut anywhere without overflowing the buffer, are delivered up to the first terminal one; chunks of up to 14 083 units never overflow it |
| SseWire.FrameIsChecked | apps/web/features/review/api/reviewApi.ts:482-540 | a frame's event passes the validator and carries the id and type of its own lines |
| SseWire.UnknownLineIsInvalid | apps/web/features/review/api/reviewApi.ts:482-540 | a frame with a line of any other kind is invalid |
| SseWire.DeliveredIsAccepted | apps/web/features/review/api/reviewApi.ts:596-640 | whatever arrives, every delivered event passes the validator |
| ReviewStream.EventStream.PollOnce | apps/api/src/modules/review/review-events.service.ts:262-331 | one poll changes the connection as the specification `Poll` says |
| ReviewStream.PollResets | apps/api/src/modules/review/review-events.service.ts:280-297 | with more than 64 events pending the poll jumps to the newest one as a reset snapshot |
| ReviewStream.PollDelivers | apps/api/src/modules/review/review-events.service.ts:298-308 | with 1 to 64 pending it delivers exactly the successors, one by one, up to the first terminal one |
| ReviewStream.PollIdles | apps/api/src/modules/review/review-events.service.ts:309-325 | with none pending a heartbeat is written exactly when it is due and the review is live and not terminal, and the connection ends exactly on a terminal or deleted review |
| ReviewStream.PollEnds | apps/api/src/modules/review/review-events.service.ts:262-271 | a finished connection stays as it is, and an inactive session ends it |
| ReviewStream.ConnectionIsExplained | apps/api/src/modules/review/review-events.service.ts:262-331 | over a whole connection the delivered sequence never decreases, ordinary events are exact successors, jumps are forward reset snapshots, and everything written repeats the log |
| ReviewStream.ConnectionReachesClient | apps/web/features/review/api/reviewApi.ts:596-640 | what a connection wrote is what the client delivers, up to the first terminal event, while no chunk overflows its buffer |
| ReviewStream.OpensAtCursor | apps/api/src/modules/review/review-events.service.ts:472-506 | a cursor inside the log replays everything after it while at most 64 are pending, else one reset snapshot |
| ReviewStream.OpensWithoutCursor | apps/api/src/modules/review/review-events.service.ts:437-470 | an absent cursor replays the log, an unusable one gets a reset snapshot |
| ReviewStream.OpeningIsExplained | apps/api/src/modules/review/review-events.service.ts:431-507 | whatever the cursor, the first deliveries continue from where it resumes |
| ReviewStream.CursorIsNumeralIff | apps/api/src/modules/review/review-events.service.ts:82-98 | a cursor names a sequence number exactly when it is that number's numeral, blanks around it aside |
| ReviewStream.ReconnectContinues | apps/api/src/modules/review/review-events.service.ts:82-98 | reconnecting at the last id continues with no gap and no duplicate while the backlog is at most 64 |
| ReviewStream.EveryConnectionIsExplained | apps/api/src/modules/review/review-events.service.ts:262-507 | for any lawful operations interleaved with an opening at any cursor and its polls, the deliveries are explained by the log from where the cursor resumes and reach the client as written |
| ReviewPrompt.SourceRoundTrip | apps/api/src/modules/ai/review-prompt.builder.ts:78-80 | for every source the serialization is one line without angle brackets and decodes to the source |
| ReviewPrompt.MetadataRoundTrip | apps/api/src/modules/ai/review-prompt.builder.ts:82-94 | likewise for every learner level, title and context |
| ReviewPrompt.EachMarkerOccursOnce | apps/api/src/modules/ai/review-prompt.builder.ts:57-71 | each of the four framing markers occurs in the user prompt at exactly one position |
| ReviewPrompt.PromptRecoversInput | apps/api/src/modules/ai/review-prompt.builder.ts:41-75 | however the prompt is split at a block's two markers, the middle decodes to the input |
| Fingerprint.EncodeLengthPrefixed | apps/api/src/modules/usage/quota-admission.fingerprint.ts:85-94 | fills a buffer with the big-endian length and the bytes, or refuses a value that is too long |
| Fingerprint.MessageRoundTrip | apps/api/src/modules/usage/quota-admission.fingerprint.ts:235-254 | the message has a left inverse that recovers version, source, language, mode, level, title and context |
| Fingerprint.MessagesAreDistinct | apps/api/src/modules/usage/quota-admission.fingerprint.ts:235-254 | distinct requests give distinct messages, none a prefix of another |
| LikeSearch.ThreeReplacementsEscapeOnce | apps/api/src/modules/review/prisma-review.repository.ts:84-86 | the three ordered replacements escape every unit exactly once |
| LikeSearch.LikeIsContains | apps/api/src/modules/review/prisma-review.repository.ts:88-104 | the escaped pattern matches a title exactly when the title contains the text |
| LikeSearch.FiltersAgree | apps/api/src/modules/review/in-memory-review.repository.ts:105-116 | database and in-memory filters agree after case folding, except for an empty search of an untitled review |
| LikeSearch.UnderscoresSufficeIff | apps/api/src/modules/usage/prisma-usage.repository.ts:56-58 | escaping underscores alone is right exactly for texts without percent signs and backslashes |
| UtcDate.ParseStrictUtcDateTime | apps/api/src/modules/usage/usage.date.ts:15-52 | two setters and a field-by-field comparison compute the parser specification |
| UtcDate.AcceptsExactlyDateTimes | apps/api/src/modules/usage/usage.date.ts:35-49 | overflow-and-compare accepts exactly the proleptic Gregorian date-times |
| UtcDate.TimeRoundTrip | apps/api/src/modules/usage/usage.date.ts:35-49 | every time value has valid calendar fields that denote it |
| UtcDate.PrintThenParse | apps/api/src/modules/usage/usage.date.ts:15-52 | parsing undoes ISO printing |
| UtcDate.ParseThenPrint | apps/api/src/modules/usage/usage.date.ts:7-8 | printing an accepted text's time gives the text, milliseconds written out |
| UtcDate.WindowIsTheDayIff | apps/api/src/modules/usage/usage.date.ts:54-69 | the window starts the UTC day of its instant exactly outside the years 0 to 99 |
| UtcDate.WindowsTile | apps/api/src/modules/usage/usage.date.ts:54-69 | outside those years windows contain their instants, are equal or disjoint, and touch |
| UtcDate.DayKeysSeparateDays | apps/api/src/modules/usage/usage.date.ts:64-68 | quota days are equal exactly for instants of the same UTC day |
| UtcDate.TtlIsSecondsToMidnight | apps/api/src/modules/redis/redis.quota.ts:88-106 | the time to live is in 1..86 400 and reaches midnight by less than a second, with its two exceptions |
| UsageCost.EstimateIsFloor | apps/api/src/modules/ai/ai-pricing.ts:146-163 | for validated usage the estimate never throws, is at most 10^10 micros, and rounds new input, cached input and output at their own rates down by less than one |
| UsageCost.EstimateReachesBound | apps/api/src/modules/ai/ai-pricing.ts:146-163 | a validated usage and pricing reach that bound |
| UsageCost.PersistedCarriesPrice | apps/api/src/modules/review/review-result.persistence.ts:86-134 | the stored cost is that price rounded down, with the pricing version, and neither is stored without pricing |
| UsageCost.StoreThenLoad | apps/api/src/modules/review/review-result.persistence.ts:86-171 | storing then loading returns the same record |
| UsageCost.LoadThenStore | apps/api/src/modules/review/review-result.persistence.ts:136-171 | loading accepts exactly the rows of valid records |
| UsageCost.MapCostAggregate | apps/api/src/modules/usage/prisma-usage.repository.ts:165-207 | AVAILABLE exactly when rows exist, are all known, of one version and within the safe range, and then the exact sum; MIXED exactly when some are known and they disagree |
| UsageCost.TotalIsInvariant | apps/api/src/modules/usage/prisma-usage.repository.ts:165-207 | the aggregate does not depend on row order |
| UsageCost.AggregateIsClose | apps/api/src/modules/usage/prisma-usage.repository.ts:165-207 | the sum of n estimates is less than n micros below the unrounded total and never above it |
| AuthRateLimiter.Limiter.ConsumeOnce | apps/api/src/modules/auth/auth-rate-limiter.ts:84-118 | one call changes the map and decides as the specification `Consume` says |
| AuthRateLimiter.Limiter.Trim | apps/api/src/modules/auth/auth-rate-limiter.ts:144-160 | drops expired buckets, then the oldest insertions above the maximum |
| AuthRateLimiter.EffectiveKeysAre | apps/api/src/modules/auth/auth-rate-limiter.ts:90-93 | a call counts every non-empty identifier it is given, and the anonymous one exactly when it is given none |
| AuthRateLimiter.TrimIsExact | apps/api/src/modules/auth/auth-rate-limiter.ts:144-153 | while the unexpired buckets fit, trimming drops exactly those of at least 15 minutes |
| AuthRateLimiter.OverflowDropsOldest | apps/api/src/modules/auth/auth-rate-limiter.ts:154-160 | above the maximum the oldest insertions go |
| AuthRateLimiter.ConsumeAnswers | apps/api/src/modules/auth/auth-rate-limiter.ts:94-118 | a call is allowed exactly while each of its keys is below the limit, with what its fullest bucket leaves; a denial announces the end of the first full bucket's window |
| AuthRateLimiter.EveryRunIsBounded | apps/api/src/modules/auth/auth-rate-limiter.ts:84-160 | the map holds at most MAX + 1 buckets in every run and at most MAX after an allowed call |
| AuthRateLimiter.DeniedChangesNoLiveCount | apps/api/src/modules/auth/auth-rate-limiter.ts:97-106 | a denied call changes the count of no running bucket, when the unexpired buckets and its own keys fit the map |
| AuthRateLimiter.AllowedCallsAreBounded | apps/api/src/modules/auth/auth-rate-limiter.ts:84-142 | while at every call the unexpired buckets and its own keys fit the map, an identifier gets at most limit allowed calls per bucket window and twice that in any interval of window length |
| AuthRateLimiter.IdentifierCallsAreBounded | apps/api/src/modules/auth/auth-rate-limiter.ts:84-142 | the same bound for one address or email over the allowed calls that were given it, whatever else they were given |
| AuthRateLimiter.RetryAfterIsExact | apps/api/src/modules/auth/auth-rate-limiter.ts:162-168 | waiting the announced seconds ends the blocking window; one second less does not |
| RefreshRotation.InMemoryAuthRepository.RotateRefreshToken | apps/api/src/modules/auth/in-memory-auth.repository.ts:126-148 | the atomic rotation: rotated, reuse detected and revoked, or not active |
| RefreshRotation.RotationIsAnswered | apps/api/src/modules/auth/in-memory-auth.repository.ts:126-148 | exactly an active session with the presented hash gets the new hash, issue, expiry and use times; one with another hash is revoked for reuse; anything else is left alone |
| RefreshRotation.InMemoryAuthRepository.RevokeAllUserSessions | apps/api/src/modules/auth/in-memory-auth.repository.ts:158-173 | revokes exactly the user's active sessions and counts them, in whatever order they are walked |
| RefreshRotation.InMemoryAuthRepository.ChangePassword | apps/api/src/modules/auth/in-memory-auth.repository.ts:74-94 | changes the hash and revokes the user's sessions together, or changes nothing |
| RefreshRotation.EveryRunSatisfiesInv | apps/api/src/modules/auth/prisma-auth.repository.ts:136-242 | the invariant of all interleavings of rotation steps, logins, logouts and password changes |
| RefreshRotation.RevokedIsForever | apps/api/src/modules/auth/prisma-auth.repository.ts:180-242 | REVOKED is absorbing |
| RefreshRotation.HashWinsOnce | apps/api/src/modules/auth/prisma-auth.repository.ts:180-201 | each refresh hash wins a rotation at most once, and the winning calls are exactly those that report ROTATED |
| RefreshRotation.NothingRotatesAfterReuse | apps/api/src/modules/auth/prisma-auth.repository.ts:203-221 | after REUSE_DETECTED was reported the session never changes again |
| RefreshRotation.PasswordChangeEndsSessions | apps/api/src/modules/auth/prisma-auth.repository.ts:136-165 | a password change ends every session the user had, for good |
| RefreshRotation.PasswordChangeIsAnswered | apps/api/src/modules/auth/prisma-auth.repository.ts:136-165 | a password changes exactly when the current one is presented for an active user |
| RefreshRotation.SessionsAreAnswered | apps/api/src/modules/auth/prisma-auth.repository.ts:167-242 | what login, logout and logout everywhere leave of every session |
| RefreshRotation.AloneIsAtomic | apps/api/src/modules/auth/prisma-auth.repository.ts:180-222 | undisturbed, the steps have the atomic version's effect and outcome |
| RefreshRotation.OutcomesAreJustified | apps/api/src/modules/auth/prisma-auth.repository.ts:180-222 | every reported outcome is one the atomic version would have given at some moment while the call was running |
| RefreshRotation.RevokingStepIsAtomicIff | apps/api/src/modules/auth/prisma-auth.repository.ts:203-221 | the last step of a detected reuse has the atomic effect, and the atomic outcome exactly when its conditional update still finds the session ACTIVE |
| RefreshRotation.ReuseReportedTwiceIff | apps/api/src/modules/auth/prisma-auth.repository.ts:203-221 | of the finished calls on one session two report REUSE_DETECTED exactly when at some moment both had found it active with another hash and neither had revoked it |
| RefreshRotation.ReuseCanBeReportedTwice | apps/api/src/modules/auth/prisma-auth.repository.ts:203-221 | a run in which two concurrent replays do |
| RefreshRotation.AtomicReuseIsReportedOnce | apps/api/src/modules/auth/in-memory-auth.repository.ts:126-148 | in any run of atomic rotations at most one reports it for a session |

## Left out

- QuotaTheorems.ReviewsNeverExceedLimit: takes one shared clock, a fixed limit and a script that runs on the UTC day the call captured; clock skew and limit changes are not modelled.
- ReviewProcessing.ReturnResolvesClaim: is about normal returns only; a call that throws can leave a review PROCESSING.
- AdmissionStore.FinalizerRefines: leaves out the finalizer's comparison of the created row with its input; there an absent title or context is null in the row and undefined in the input, and the model takes the two as the one absent value they are meant to be.
- LockKeepalive.WatchdogWithinLease: takes timers that are never early and a keepalive started within a third of the lease after acquisition, which `StartWithinThird` shows to be needed.
- QuotaAnswers.UndisturbedAdmitIsAnswered: takes a call that runs on the UTC day it captured, with a time to live within the configured maximum.
- AuthRateLimiter.IdentifierCallsAreBounded: for the literal identifier "anonymous" it takes runs in which every call is given an identifier, because calls without one share its key.
- ReviewStream.ConnectionIsExplained: does not claim that a terminal event is delivered, nor that a heartbeat repeats the delivered id, when the log grows between the two reads of one poll.
- ReviewStream.EventStream.PollOnce: session checks, timers and the stream lease are inputs; the lifetime and socket events are `Close`.
- SseWire.CutsDoNotMatter: is about decoded text; UTF-8 decoding of split multi-byte sequences belongs to TextDecoder.
- Json.ObjectRoundTrip: the reader covers flat objects of strings, natural numbers and booleans; other JSON values, which the client rejects in every field, and other spellings of a number (`1.0`, `1e0`) are not read.
- SseWire.ConsumeReviewEventStream: aborts, network errors and response headers are not modelled.
- ReviewPrompt.EachMarkerOccursOnce: the fixed sentences are any plain lines; only the markers and the inserted values are exact.
- Fingerprint.MessageRoundTrip: starts from UTF-8 bytes; encoding text, normalization and the keyed hash are not modelled.
- LikeSearch.FiltersAgree: folds case one unit at a time; lower-casing that changes a text's length is not modelled.
- UtcDate.DayKeysSeparateDays: is about four-digit years; longer years are cut inside the month.
- AuthRateLimiter.AllowedCallsAreBounded: takes runs in which no bucket is evicted for space (at every call the unexpired buckets and its keys fit the map), non-decreasing times and windows of at most 15 minutes.
- AuthRateLimiter.Limiter.ConsumeOnce: buckets are values in the map; a bucket evicted during its own call is counted nowhere, as in the source, but the detached object is not modelled.
- RefreshRotation.OutcomesAreJustified: takes drawn hashes as new and as unknown to callers until stored.
- UsageCost.MapCostAggregate: a stored cost is an integer; a non-integer number column is not modelled.
- ReviewLog.InMemoryReviewRepository.Create: ids are given by the caller; the generated ids, and the request fields that never change, are not modelled.
- ReviewLog.InMemoryReviewRepository.ListEventsForUser: the copies the repository hands out are values here.
- Bulk deletion, list paging and sorting, and result lookup of the review repository: easy members.
- Guest quota script: the same counter without markers or compensation.
- Controllers, guards, DTO validation, health, audit logging, configuration parsing, the AI provider and the user interface: plumbing around the modelled parts.
- Hashes, random ids and tokens, JWT and password hashing: taken as injective or fresh.
