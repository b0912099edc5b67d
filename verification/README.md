# Freight back office: stateful cores, modelled and proved

These Dafny files model the parts of the freight back office that keep state
between requests, and prove what they promise over every run.

- **Request limits.** The fixed-window limiter (`FixedWindow.dfy`, `RateLimiter.dfy`) and the
  per-bucket permits (`ConcurrencyLimiter.dfy`) of the API middleware: bounds over every
  interval, conservation of permits, and independence of keys under any interleaving.
- **The operational cache** (`ExpiringDictionary.dfy`, `TtlCache.dfy`): a bounded dictionary with
  expiry and eviction that answers exactly what the history of its calls says it should.
- **The browser's API client** (`RequestSlots.dfy`, `RequestDedupe.dfy`): a slot counter with a
  queue of waiters, de-duplication of GETs in flight, and one retry.
- **Documents and their files** (`DocumentStore.dfy`, `DocumentEndpoints.dfy`, `DocumentFiles.dfy`):
  rows, files and deferred deletes under uploads, replaces and deletes that may fail at any point.
- **The driver's offline upload queue** (`UploadQueue.dfy`, `UploadQueueRuns.dfy`,
  `UploadDeliveries.dfy`): progress of its passes, what concurrent writers can and cannot lose,
  and how often the server accepts a document.
- **Demo requests** (`DemoRequests.dfy`): duplicate suppression, the limit per client address,
  and the numbers of the listing.
- **Organization slugs** (`OrgSlugs.dfy`, `OrgSignup.dfy`): what a slug is, and the search for a
  free one.
- **The browser's session store** (`AuthSession.dfy`): what is stored beside a token never says
  more than the token.
- **Dashboard queues and the driver's checklist** (`DashboardQueues.dfy`, `DriverChecklist.dfy`).

`Text.dfy` holds what several of them need: membership and prefixes of strings, whitespace as
Python and JavaScript see it, case, and counting with finite sets.

Each object whose methods change state is a class whose methods are proved against a function
on values (`Next`, `Uploaded`, `Pass`, ...). The facts about whole runs are lemmas about that
function. Where the source awaits, the model has separate steps, so that anything may happen
in between. Time is a parameter of each call; runs assume only that the clock never goes back.

## What the proofs found

The code is modelled as it is. Where a natural expectation fails, a lemma gives the exact
condition under which it holds and another a concrete run that breaks it.

- `Retry-After` is rounded down, so a client that obeys it can be rejected again
  (`RateLimiter.RetryAfterSufficesIff`, `ObedientClientRejected`).
- A credential with a colon near its end can put two client addresses into one bucket of the
  fixed-window limiter (`RateLimiter.SameBucketIff`, `ColonMergesBuckets`).
- More requests than the limit can run in the browser's client when a newcomer takes the slot
  of a woken waiter that has not resumed (`RequestSlots.StaysWithinLimitIff`,
  `LimitCanBeExceeded`).
- The failure handlers of an upload delete the new file even when the commit has already
  happened, and the driver path deletes the replaced file before it commits; either can leave a
  row without its file (`DocumentEndpoints.UploadKeepsFilesIff`, `PostCommitFaultLosesFile`,
  `DriverFaultLosesFile`).
- An upload that fails between saving its file and noting the key leaves the file behind, on
  either path (`DocumentEndpoints.LeavesNoTraceIff`, `UnnotedKeyLeaksFile`).
- A delete that overlaps a replace leaves the new file behind without any failure
  (`DocumentFiles.NoOrphansIff`, `DeleteRaceLeaksFile`).
- Nothing but the order of requests keeps two uploads from filling one singleton slot
  (`DocumentStore.SlotsKeptIff`, `DocumentEndpoints.RacingUploadsDuplicate`).
- An enqueue overwrites what other writers stored while it read its file,
  and can bring a removed document back (`UploadQueueRuns.LosesNothingIff`,
  `BringsNothingBackIff`, `StaleEnqueueLoses`, `StaleEnqueueBringsBack`).
- The offline queue uploads a document again, up to five times, when the server accepts it but
  its answer is lost or a callback throws, and also when two passes overlap
  (`UploadDeliveries.AcceptancesBounded`, `NoCopiesIff`, `LostAnswersUploadAgain`,
  `OverlappingPassesUploadTwice`).
- Namesakes are numbered upwards but not consecutively when another organization has taken a
  number (`OrgSignup.NamesakesCountUp`, `TakenNumberIsSkipped`).
- An empty list of required documents makes a load count as complete
  (`DriverChecklist.NothingRequiredIff`).

## Model

| member | source | states |
|---|---|---|
| RateLimiter.RateLimitMiddleware.Dispatch | backend/app/core/middleware.py:444-498 | one call counts once in its own bucket, in a fresh window if the old one is over, and is answered by the count it then has: bypass, forward with what remains, or 429 with Retry-After |
| RateLimiter.KeyDeterminesPolicy | backend/app/core/middleware.py:388-438 | calls that share a bucket key are under one policy, so one limit and one window, whatever text their addresses and credentials contain |
| RateLimiter.SameBucketIff | backend/app/core/middleware.py:451-458 | two limited calls are counted together if and only if they are under one policy, from one address (an absent or empty one being "unknown"), and agree in the last sixteen characters of the credential or have none; for credentials without a colon in those characters |
| RateLimiter.ColonMergesBuckets | backend/app/core/middleware.py:451-458 | a colon in those characters can give calls from two addresses one bucket |
| RateLimiter.LimitedIff | backend/app/core/middleware.py:388-448 | a call is limited if and only if the limiter is on, it is no preflight, its path holds no /webhook, and it is of one of the listed kinds |
| RateLimiter.PolicyByPath | backend/app/core/middleware.py:394-438 | which limit and window each kind of path gets; no path is of two of the kinds told by their endings |
| RateLimiter.KeyIndependence | backend/app/core/middleware.py:451-464 | in any interleaving a call is answered as if only the earlier calls of its own bucket had been made |
| RateLimiter.OtherAddressesDoNotCount | backend/app/core/middleware.py:451-467 | in any run a call is answered as if only the earlier calls from its own address had been made, as long as no credential has a colon in its last sixteen characters |
| RateLimiter.IntervalBound | backend/app/core/middleware.py:457-467 | with a clock that never goes back, a half-open interval of at most n window lengths lets at most (n + 1) times the limit through on one bucket, for every n, every interval and every interleaving |
| RateLimiter.RejectedOnlyWhenFull | backend/app/core/middleware.py:465-467 | a 429 is given only when the bucket has let its whole limit through less than one window length ago |
| RateLimiter.RejectedIffWindowFull | backend/app/core/middleware.py:459-467 | a limited call is rejected if and only if the window it is counted in has already forwarded the whole limit |
| RateLimiter.RemainingIsExact | backend/app/core/middleware.py:494-497 | a call that passes is told its limit less the calls already let through in its window, less one |
| RateLimiter.RetryAfterSufficesIff | backend/app/core/middleware.py:465-472 | with no other call on its bucket in between, a client that waits exactly the Retry-After it was given is let through if and only if what was left of the window was whole seconds or at most one second |
| RateLimiter.RetryAfterCanFallShort | backend/app/core/middleware.py:465-472 | helper: with 1.5 seconds left Retry-After is 1, and the retry it asks for is rejected again |
| RateLimiter.ObedientClientRejected | backend/app/core/middleware.py:451-472 | under every policy with a window of two seconds or longer some run of one client's calls rejects it, tells it to wait one second, and rejects it again when it has waited exactly that |
| FixedWindow.ProjectionKeepsBucket | backend/app/core/middleware.py:458-464 | a bucket's stored count and window end are those of the run of its own calls alone |
| FixedWindow.WindowCap | backend/app/core/middleware.py:459-467 | one window of one bucket forwards no more calls than the limit |
| FixedWindow.WindowsApart | backend/app/core/middleware.py:459-464 | each call lies in the window it is counted in, and two windows of one bucket coincide or end a whole window length apart |
| FixedWindow.IntervalBound | backend/app/core/middleware.py:457-467 | helper: the (n + 1) times limit bound for the counting rule on calls already sorted into buckets |
| FixedWindow.RejectedOnlyWhenFull | backend/app/core/middleware.py:465-467 | helper: the same lower bound on recent forwards for the counting rule |
| FixedWindow.RejectedIffWindowFull | backend/app/core/middleware.py:459-467 | helper: the same equivalence for the counting rule; a window never forwards more |
| ConcurrencyLimiter.KeyDeterminesBucket | backend/app/core/middleware.py:191-225 | requests with one semaphore key are in one bucket, so its capacity is well defined |
| ConcurrencyLimiter.SameSemaphoreIff | backend/app/core/middleware.py:222-225 | limited requests wait on one semaphore if and only if they are in one bucket and agree in organization and address, absent ones included; for organization headers without a colon |
| ConcurrencyLimiter.Classified | backend/app/core/middleware.py:191-220 | only API paths outside sign-in are limited and no preflight is, every document upload is a document write, reads are GETs, workflow changes are writes |
| ConcurrencyLimiter.WritesAvoidReadBuckets | backend/app/core/middleware.py:191-220 | no POST, PATCH, PUT or DELETE is ever classified as a read |
| ConcurrencyLimiter.RequestConcurrencyLimitMiddleware.Enter | backend/app/core/middleware.py:231-243 | a limited request finds or makes its key's semaphore and waits on it; every other semaphore stays |
| ConcurrencyLimiter.RequestConcurrencyLimitMiddleware.EndWait | backend/app/core/middleware.py:245-284 | the wait ends with a permit taken, or by time-out with nothing taken and the request turned away |
| ConcurrencyLimiter.RequestConcurrencyLimitMiddleware.Release | backend/app/core/middleware.py:285-298 | an answer and an exception alike give back the one permit of the request that ends |
| ConcurrencyLimiter.PermitsConserved | backend/app/core/middleware.py:182-188 | in every reachable state free permits and requests in progress add up to the bucket's capacity |
| ConcurrencyLimiter.AcquiresIff | backend/app/core/middleware.py:182-188 | in every run at most 6, 2, 6, 4 and 6 requests are in progress at a semaphore of the five buckets, and a waiting one can take a permit if and only if fewer are |
| ConcurrencyLimiter.FreePermits | backend/app/core/middleware.py:245-298 | free permits are the capacity less the requests that acquired and have not finished, read off the run alone; a timed-out request gives nothing back |
| ConcurrencyLimiter.WaiterIsServed | backend/app/core/middleware.py:245-247 | a waiting request whose semaphore serves nobody can take a permit |
| ConcurrencyLimiter.TimeOutFoundBucketFull | backend/app/core/middleware.py:245-261 | in every run a request that is turned away had arrived when as many requests as its bucket has permits were in progress or waiting before it, so the answer's reason, exhausted capacity, is true |
| ConcurrencyLimiter.KeyIndependence | backend/app/core/middleware.py:239-243 | a semaphore after any run is what the steps on its own key make of it |
| ConcurrencyLimiter.BackgroundReadsNeverBlockWrites | backend/app/core/middleware.py:138-149 | the semaphore that a write meets is the same with all background panel reads taken out of the run |
| ExpiringDictionary.OldestIsFirstLeast | backend/app/core/cache.py:77-79 | the evicted entry is the first of those with the least expiry |
| ExpiringDictionary.LookupNext | backend/app/core/cache.py:59-103 | what each operation does to the binding of every key: store, evict, expire, invalidate, clear or keep |
| ExpiringDictionary.RunIsBounded | backend/app/core/cache.py:71-81 | no run holds a key twice or more entries than max_entries |
| ExpiringDictionary.HitIff | backend/app/core/cache.py:59-103 | get answers v if and only if the run's last word on the key stored v, has not expired, and was not evicted since |
| ExpiringDictionary.HitUntilExpiry | backend/app/core/cache.py:59-81 | while every later set finds fewer unexpired entries than max_entries, a stored value is answered until it expires |
| ExpiringDictionary.VictimExpiresFirst | backend/app/core/cache.py:76-79 | whatever an evicting set leaves expires no earlier than what it evicts |
| ExpiringDictionary.EvictsEarliestStored | backend/app/core/cache.py:76-80 | with one time to live for all, every entry present after an eviction was stored no earlier than the evicted one |
| TtlCache.TTLCache.New | backend/app/core/cache.py:52-57 | a capacity below one is an error, otherwise the cache starts empty |
| TtlCache.TTLCache.GetValue | backend/app/core/cache.py:59-69 | answers the unexpired value and drops the entry it finds expired, nothing else |
| TtlCache.TTLCache.SetValue | backend/app/core/cache.py:71-81 | rejects a time to live below one; otherwise prunes, evicts from a full dictionary and stores |
| TtlCache.TTLCache.MakeRoom | backend/app/core/cache.py:76-79 | pruning and one eviction leave a free place |
| TtlCache.TTLCache.PruneExpired | backend/app/core/cache.py:100-103 | popping while visiting a copy removes exactly the expired entries and keeps the order of the rest |
| TtlCache.TTLCache.InvalidateNamespace | backend/app/core/cache.py:83-94 | removes exactly the stripped namespace and organization and returns how many entries that was |
| TtlCache.TTLCache.ClearAll | backend/app/core/cache.py:96-98 | empties the cache |
| TtlCache.SameKeyIff | backend/app/core/cache.py:20-34 | a key is an error exactly when its namespace, or an organization it names, is blank; two keys are one exactly when both agree up to outer whitespace and so do the parts |
| TtlCache.AnswersOwnScope | backend/app/core/cache.py:12-69 | in every run an answer was stored, and has not expired, under the asked namespace, organization and parts: no other organization's value is ever answered |
| TtlCache.InvalidationIsScoped | backend/app/core/cache.py:12-34 | after any run an invalidation makes its own scope answer None and changes no answer of any other namespace or organization |
| RequestSlots.ApiRequestSlots.Arrive | frontend/src/lib/api-client.ts:107-113 | the entry to a slot in place, as the step of `Next` that `NewcomerRunsIff` characterises |
| RequestSlots.ApiRequestSlots.ContinueAfterWake | frontend/src/lib/api-client.ts:109-111 | a woken waiter takes its slot without looking at the counter again |
| RequestSlots.ApiRequestSlots.Leave | frontend/src/lib/api-client.ts:114-120 | a finishing request frees its slot and wakes the first waiter |
| RequestSlots.NewcomerRunsIff | frontend/src/lib/api-client.ts:107-112 | after every run a newcomer runs at once if and only if fewer than the limit are running, whoever is queued or woken; otherwise it is last in the queue |
| RequestSlots.EndsAndWakes | frontend/src/lib/api-client.ts:109-121 | after every run a request that ends frees its slot and wakes the one queued longest, if any; a woken one runs as soon as it resumes, however many others do |
| RequestSlots.NoLostWakeup | frontend/src/lib/api-client.ts:107-121 | in every reachable state the counter counts the running requests, and while a request is queued running and woken ones fill the limit |
| RequestSlots.WokenFirstComeFirstServed | frontend/src/lib/api-client.ts:109-119 | the requests queued so far are, in order, those woken so far followed by those still queued |
| RequestSlots.SlotsBoundedByRecentOvertakes | frontend/src/lib/api-client.ts:107-121 | running plus woken never exceed the limit by more than the newcomers that overtook a woken waiter since they were last within it, which are no more than all that ever did |
| RequestSlots.SlotsBoundedByOvertakes | frontend/src/lib/api-client.ts:107-121 | in particular, running plus woken never exceed the limit by more than the newcomers let in while a woken waiter had yet to resume |
| RequestSlots.StaysWithinLimitIff | frontend/src/lib/api-client.ts:108-111 | a step keeps running plus woken within the limit if and only if it does not admit a newcomer when they already fill it |
| RequestSlots.LimitCanBeExceeded | frontend/src/lib/api-client.ts:107-121 | a run in which three requests run under a limit of two |
| RequestSlots.DrainsCompletely | frontend/src/lib/api-client.ts:107-121 | without newcomers every step uses up work and some step can happen while any is left |
| RequestDedupe.RunAttempts | frontend/src/lib/api-client.ts:513-530 | the retry loop makes one or two attempts, two exactly for a GET that may retry, whose first attempt fails with 429, 502, 503, 504 or no connection and whose pause is not aborted, and its outcome is the last attempt's or the aborted pause's |
| RequestDedupe.ApiClient.StartOrJoin | frontend/src/lib/api-client.ts:505-537 | a GET whose key is in flight joins that promise; any other call starts its own, and registers it if it has a key |
| RequestDedupe.ApiClient.Forget | frontend/src/lib/api-client.ts:533-536 | the clean-up removes its own key's entry |
| RequestDedupe.AttemptsBounded | frontend/src/lib/api-client.ts:513-524 | in every run a request is performed at most once, a GET that may retry at most twice |
| RequestDedupe.AttemptEnds | frontend/src/lib/api-client.ts:513-530 | an attempt that ends leads to a pause exactly for the first attempt of a GET that may retry and failed temporarily, to its outcome otherwise; a pause leads to one more attempt unless aborted |
| RequestDedupe.SharesKeyIff | frontend/src/lib/api-client.ts:123-132 | two requests share a key if and only if both are GETs that do not opt out and agree in path, organization, authMode and responseType |
| RequestDedupe.JoinedRunnerAgrees | frontend/src/lib/api-client.ts:505-511 | in every run a caller that joins a runner asked for what that runner's request asks for in these, and the runner is not cleaned up |
| RequestDedupe.JoinsIff | frontend/src/lib/api-client.ts:505-537 | in every run a call joins if and only if such a runner exists |
| RequestDedupe.OneRunnerPerKey | frontend/src/lib/api-client.ts:509-536 | the map holds a key exactly while its one runner has not cleaned up, so a clean-up never removes a newer runner's entry |
| RequestDedupe.OutcomeIsFinal | frontend/src/lib/api-client.ts:509-511 | a caller keeps its runner and a settled runner its outcome, through every later step |
| RequestDedupe.JoinersShareRunner | frontend/src/lib/api-client.ts:505-537 | a call joins if and only if an equal key is in flight; otherwise it gets a runner of its own |
| DocumentStore.StepKeepsInv | backend/app/api/v1/documents.py:851-1078 | every step of every upload, replace, delete and deferred delete keeps keys distinct and pending deletes away from live rows |
| DocumentStore.FilesKeptIff | backend/app/api/v1/documents.py:1172-1199 | a step leaves every row with its file if and only if it is neither a successful clean-up after the commit nor the driver path's early delete, of a file whose key some row still holds |
| DocumentStore.SlotsKeptIff | backend/app/api/v1/documents.py:856-883 | a step keeps one document per singleton type if and only if it does not insert into a slot filled since the endpoint looked |
| DocumentStore.RowsKeepIdentity | backend/app/api/v1/documents.py:947-989 | helper: what each step does to the rows: a replace keeps every row's id, organization, load and type; only a delete removes a row, and never an invoice |
| DocumentStore.StorageIntegrity | backend/app/api/v1/documents.py:904-1199 | for all interleavings of staff uploads, replaces and deletes that fail anywhere before their commit, with deferred deletes at any time: every row's file exists, keys are distinct, and no pending delete names a live key |
| DocumentStore.KeysNeverShared | backend/app/api/v1/documents.py:904-1078 | distinct keys and harmless pending deletes hold in every run, late faults and driver uploads included |
| DocumentEndpoints.Documents.FindRequired | backend/app/repositories/document_repo.py:140-168 | the loop finds the latest received document of the slot, and of those the latest created, and is only asked for the singleton types of a load |
| DocumentEndpoints.Documents.UploadDocument | backend/app/api/v1/documents.py:756-1219 | the staff upload, with a fault at any of its points: conflict, create or replace, roll-back, clean-up, and the deferred delete of the replaced file |
| DocumentEndpoints.Documents.UploadDriverDocument | backend/app/api/v1/documents.py:1308-1564 | the driver upload, which deletes the replaced file before it commits |
| DocumentEndpoints.Documents.DeleteDocument | backend/app/api/v1/documents.py:2004-2183 | the delete in place at each of its outcomes, which `DeleteAnswers` characterises |
| DocumentEndpoints.Documents.RunDeferredStorageDelete | backend/app/api/v1/documents.py:1891-1913 | a scheduled delete removes its file or gives up, once |
| DocumentEndpoints.UploadIsARun | backend/app/api/v1/documents.py:851-1078 | an upload on its own is the run of its steps, so every fact about runs holds of it |
| DocumentEndpoints.RemovalIsARun | backend/app/api/v1/documents.py:2065-2135 | a delete likewise |
| DocumentEndpoints.DeleteAnswers | backend/app/api/v1/documents.py:2004-2135 | a delete answers not found exactly when its organization has no such row, conflict exactly for its invoice, deleted exactly when the row goes; only then does anything change, and the file's delete is scheduled |
| DocumentEndpoints.ForeignDeleteIsNotFound | backend/app/api/v1/documents.py:2010-2012 | helper: another organization's delete is answered not found and leaves the store as it was |
| DocumentEndpoints.RemovedIff | backend/app/api/v1/documents.py:2004-2060 | an operation of any kind takes a row away if and only if it is a delete of that row by the row's own organization, without a fault, and the row is no invoice |
| DocumentEndpoints.OthersUntouched | backend/app/api/v1/documents.py:2010-2012 | no upload or delete for one organization, and no deferred delete, changes another organization's row, deletes its file or schedules that |
| DocumentEndpoints.OrganizationsAreApart | backend/app/api/v1/documents.py:756-2183 | over any sequence of operations none of which runs for it, an organization's rows and their files stay as they are |
| DocumentEndpoints.UploadKeepsFilesIff | backend/app/api/v1/documents.py:1172-1199 | an upload leaves every row with its file if and only if no fault with a successful clean-up follows its commit and, on the driver path, no fault at all follows the early delete |
| DocumentEndpoints.LeavesNoTraceIff | backend/app/api/v1/documents.py:904-1199 | an upload leaves rows, files and pending deletes as they were if and only if it is a conflict, fails before its file is saved, or fails between the noting of its key and any other effect with its clean-up succeeding |
| DocumentEndpoints.UnnotedKeyLeaksFile | backend/app/api/v1/documents.py:906-926 | on either path a fault after the file is saved and before its key is noted leaves the file behind, with no row and no scheduled delete |
| DocumentEndpoints.AnswerIsUnique | backend/app/repositories/document_repo.py:158-167 | where slots are unique the row that the lookup answers is determined |
| DocumentEndpoints.UploadAnswers | backend/app/api/v1/documents.py:856-883 | an upload is a conflict if and only if a row of its organization, load and singleton type exists and is not to be replaced; it replaces the latest such row and adds one only where there is none |
| DocumentEndpoints.UploadKeepsSlots | backend/app/api/v1/documents.py:856-883 | one at a time, uploads keep at most one document per singleton type of a load |
| DocumentEndpoints.UploadChangesOneRow | backend/app/api/v1/documents.py:947-989 | helper: a completed replace changes the key of the one row it found and disposes of the old file; a completed create adds one row |
| DocumentEndpoints.SingletonsStaySingle | backend/app/api/v1/documents.py:100-105 | over any sequence of staff and driver uploads, deletes and deferred deletes with any faults, a load has at most one document of each singleton type |
| DocumentEndpoints.FilesStay | backend/app/api/v1/documents.py:1354-1446 | over any such sequence without the two losing faults, driver replaces included, every row keeps its file |
| DocumentEndpoints.InvoicesStay | backend/app/api/v1/documents.py:2031-2053 | an invoice row is never removed and never becomes anything else |
| DocumentEndpoints.PostCommitFaultLosesFile | backend/app/api/v1/documents.py:1536-1564 | on the driver path a fault just after the commit runs the clean-up and leaves a row without its file |
| DocumentEndpoints.DriverFaultLosesFile | backend/app/api/v1/documents.py:1395-1396 | a fault after the driver path's early delete rolls the row back to a file that is gone |
| DocumentEndpoints.RacingUploadsDuplicate | backend/app/api/v1/documents.py:862-868 | two uploads that both look before either commits fill one slot twice |
| DocumentFiles.FilesCoveredIff | backend/app/api/v1/documents.py:1354-1446 | with driver uploads interleaved too, a step leaves every row with a file or with a driver upload about to replace it, if and only if it is not a failure after a commit or an early delete that strands a row |
| DocumentFiles.DriverStorageIntegrity | backend/app/api/v1/documents.py:1354-1446 | for all interleavings of staff and driver uploads, replaces and deletes in which no failure strands a row, every row's file exists whenever no driver upload is between its early delete and its commit |
| DocumentFiles.NoOrphansIff | backend/app/api/v1/documents.py:904-1199 | a step leaves every file with an owner if and only if, on the store before it, there is no file of which it lets go and that stays although no other row names it, no other delete of it is or gets scheduled, and no other upload has it in hand |
| DocumentFiles.EveryFileIsOwned | backend/app/api/v1/documents.py:904-1199 | for all interleavings without such a step every file has an owner, and between requests is a row's or scheduled to be deleted |
| DocumentFiles.AccountedAtRest | backend/app/api/v1/documents.py:1065-1078 | between requests a file has an owner exactly when a row names it or a delete of it is scheduled |
| DocumentFiles.FilesAccountedIff | backend/app/api/v1/documents.py:904-1199 | one at a time, an operation keeps every file accounted for if and only if it is not an upload that fails with its file uncleaned, a staff replace that fails after its commit, or the failure of a file's last scheduled delete |
| DocumentFiles.FilesAreTheRows | backend/app/api/v1/documents.py:904-1199 | over any sequence without those and without the losing faults, once no delete is scheduled the files are exactly the rows' files |
| DocumentFiles.DeleteRaceLeaksFile | backend/app/api/v1/documents.py:2065-2135 | a delete that reads its row before a replace commits and removes it afterwards leaves the new file behind although nothing fails |
| UploadQueue.DriverUploadQueue.ProcessQueue | frontend/src/lib/driver-mobile.ts:300-344 | offline nothing happens; online, with no other writer, exhausted items are skipped, sent ones leave, the first failure is counted and ends the pass, and the reported numbers are right |
| UploadQueue.DriverUploadQueue.Remove | frontend/src/lib/driver-mobile.ts:296-298 | removes exactly the items with that id |
| UploadQueue.PassKeepsDistinct | frontend/src/lib/driver-mobile.ts:312-340 | a pass keeps ids distinct and adds none, so another pass can follow |
| UploadQueue.PassOutcome | frontend/src/lib/driver-mobile.ts:312-340 | up to the first failure a pass leaves the items that failed five times and sends the others; it counts that failure with its message, leaves what comes after it, and reports what was sent |
| UploadQueue.PassedOver | frontend/src/lib/driver-mobile.ts:312-340 | a pass that does not reach an eligible item keeps it, no further back and with fewer failures left ahead of it |
| UploadQueue.AttemptedWithin | frontend/src/lib/driver-mobile.ts:312-340 | an eligible item is attempted within one pass more than the failures left ahead of it |
| UploadQueue.NobodyStarves | frontend/src/lib/driver-mobile.ts:312-340 | with p items ahead, an eligible item is attempted within 5p + 1 passes, whatever the network answers |
| UploadQueue.PassUsesUp | frontend/src/lib/driver-mobile.ts:313-339 | every pass that meets an eligible item lowers the number of failures left; a pass that meets none changes nothing |
| UploadQueue.EventuallyNothingToTry | frontend/src/lib/driver-mobile.ts:313-339 | after as many passes as failures were left, only exhausted items remain |
| UploadQueueRuns.ListStaysSound | frontend/src/lib/driver-mobile.ts:64-68 | in every interleaving of enqueues, removals and passes the list holds at most 12 items, no id twice, and each with its own document |
| UploadQueueRuns.IdsAfter | frontend/src/lib/driver-mobile.ts:270-344 | how each step changes the set of stored ids: a write of an enqueue replaces the list by what it read, a removal and a success take one id out, a failure none |
| UploadQueueRuns.NewestComesFirst | frontend/src/lib/driver-mobile.ts:275-292 | in every sound state an enqueue is refused at twelve stored items and otherwise stores its document before all those it had read; a pass takes the items stored when it begins |
| UploadQueueRuns.PassKeepsOthers | frontend/src/lib/driver-mobile.ts:326-338 | what a pass writes after an await changes its own item alone and keeps all that other writers did meanwhile |
| UploadQueueRuns.LosesNothingIff | frontend/src/lib/driver-mobile.ts:275-292 | a step loses a stored document if and only if it is an enqueue whose list lacks one that is stored |
| UploadQueueRuns.BringsNothingBackIff | frontend/src/lib/driver-mobile.ts:275-292 | a step brings a document back if and only if it is an enqueue whose list still holds one that has left |
| UploadQueueRuns.NothingIsLost | frontend/src/lib/driver-mobile.ts:270-344 | when every enqueue writes against the list it read, whatever was queued is stored, was removed on request, or was accepted |
| UploadQueueRuns.StaleEnqueueLoses | frontend/src/lib/driver-mobile.ts:275-292 | two enqueues that both read before either writes lose the first document |
| UploadQueueRuns.PassIsARun | frontend/src/lib/driver-mobile.ts:309-343 | a pass that nobody interrupts is the run of its steps, so the facts about single passes and about runs are about one loop |
| UploadQueueRuns.StaleEnqueueBringsBack | frontend/src/lib/driver-mobile.ts:275-298 | an enqueue that read before a removal and writes after it brings the removed document back |
| UploadDeliveries.AcceptancesBounded | frontend/src/lib/driver-mobile.ts:270-344 | with one pass at a time and fresh writes, whatever the network and the callbacks do, a document is accepted at most five times, at most once more often than an acceptance was followed by a failure, and no more often than that while it is stored |
| UploadDeliveries.AcceptedAtMostOnce | frontend/src/lib/driver-mobile.ts:312-327 | in particular, if no acceptance is followed by a failure, no document is accepted twice and no accepted one is still stored |
| UploadDeliveries.NoCopiesIff | frontend/src/lib/driver-mobile.ts:312-340 | from a store without copies of accepted documents a step makes one if and only if it delivers a document that is in the list of an enqueue under way, ahead in another pass or, reported as a failure, still stored; until then no document is delivered twice |
| UploadDeliveries.WithoutCopiesOnce | frontend/src/lib/driver-mobile.ts:270-344 | however passes, enqueues and removals are interleaved, as long as no delivery leaves a copy no document is accepted twice and none that was accepted can be sent again |
| UploadDeliveries.LostAnswersUploadAgain | frontend/src/lib/driver-mobile.ts:328-340 | with one pass at a time, acceptances followed by failures make the server accept one document n times, for every n up to five |
| UploadDeliveries.OverlappingPassesUploadTwice | frontend/src/lib/driver-mobile.ts:309-327 | two passes that overlap upload one document twice |
| DemoRequests.DemoRequestTable.Create | backend/app/api/v1/demo_requests.py:151-217 | a repeat is answered first, then the limit, then the row is stored; only the last changes the table |
| DemoRequests.DemoRequestTable.SetRowStatus | backend/app/api/v1/demo_requests.py:298-320 | an accepted status is stored in its normal form; an unknown row or status changes nothing |
| DemoRequests.DuplicateIff | backend/app/api/v1/demo_requests.py:84-103 | a request is a repeat if and only if a row within the duplicate window has its name and, up to case, its e-mail and company, from its address or with either unknown |
| DemoRequests.SubmitAddsNew | backend/app/api/v1/demo_requests.py:176-189 | in every run a stored submission adds one row, as made but with its e-mail in lower case and the status new, and changes no other |
| DemoRequests.SetStatusStores | backend/app/schemas/demo_requests.py:53-60 | in every run a status change stores a known status in its plain form, closed as lost, in the named row alone, and refuses any other |
| DemoRequests.FindRepeat | backend/app/api/v1/demo_requests.py:84-103 | the answer is a matching row, the last stored, and there is one whenever any row matches |
| DemoRequests.IntervalBound | backend/app/api/v1/demo_requests.py:106-124 | in any run of submissions taken one at a time, each with one instant, every closed interval as long as the window holds at most the allowed number of stored requests from one known address |
| DemoRequests.RepeatsAreApart | backend/app/api/v1/demo_requests.py:84-103 | stored requests with one name, e-mail and company, whose addresses agree or are unknown, are more than the duplicate window apart |
| DemoRequests.RefusedIff | backend/app/api/v1/demo_requests.py:106-124 | a request is refused if and only if it is no repeat and the window that ends with it holds exactly the allowed number from its known address |
| DemoRequests.OnFileUnlessRefused | backend/app/api/v1/demo_requests.py:161-217 | unless refused, a request is on file under the answered id, from now or from no longer ago than the duplicate window and then as late as any match |
| DemoRequests.Metrics | backend/app/api/v1/demo_requests.py:268-275 | from the grouped counts the loop reports, for every status, the number of rows that count as it |
| DemoRequests.FilterAgreesWithMetric | backend/app/api/v1/demo_requests.py:238-251 | for rows with known statuses the status filter, closed being read as lost, selects exactly the rows that the metric counts |
| DemoRequests.RunKeepsStatuses | backend/app/schemas/demo_requests.py:53-79 | every run leaves only known statuses, so the two facts beside this one apply to it |
| DemoRequests.CountsAsStored | backend/app/api/v1/demo_requests.py:268-275 | after every run each of the five statuses counts exactly the rows stored with it |
| DemoRequests.MetricsAddUp | backend/app/api/v1/demo_requests.py:268-275 | for rows with known statuses the five metrics add up to the number of rows |
| OrgSlugs.SlugIsItsWords | backend/app/utils/text_utils.py:6-16 | slugify is the lower-cased name's maximal runs of letters and digits, in order, joined by single dashes |
| OrgSlugs.SlugifyGivesSlugs | backend/app/utils/text_utils.py:12-16 | its output has only a-z, 0-9 and single inner dashes |
| OrgSlugs.SlugsAreTheFixpoints | backend/app/utils/text_utils.py:12-16 | slugify leaves a text unchanged if and only if it is such a slug; it is idempotent |
| OrgSlugs.SameSlugIff | backend/app/utils/text_utils.py:12-16 | two names get one slug if and only if they have the same words |
| OrgSlugs.SeparatorSplits | backend/app/utils/text_utils.py:12-16 | every character but ASCII letters and digits and the two letters that lower-case to one ends a word |
| OrgSlugs.LettersAreOneWord | backend/app/utils/text_utils.py:12-16 | ASCII letters and digits alone are one word, in lower case |
| OrgSignup.CandidateInjective | backend/app/api/v1/auth.py:214-219 | base, base-2, base-3 and so on are all different |
| OrgSignup.CandidateIsNumbered | backend/app/api/v1/auth.py:214-219 | the k-th candidate is the base itself or, from the second on, the base, a dash and the decimal digits of k without a leading zero |
| OrgSignup.BaseIsItsWords | backend/app/api/v1/auth.py:213 | the base is the name's words joined by dashes, or org for a name without any |
| OrgSignup.CandidateIsSlug | backend/app/repositories/organization_repo.py:28-31 | every candidate is already in the form that the lookup normalises to |
| OrgSignup.OrganizationTable.BuildUniqueSlug | backend/app/api/v1/auth.py:212-221 | the search ends within one lookup more than there are organizations, with the first free candidate |
| OrgSignup.OrganizationTable.AddOrganization | backend/app/api/v1/auth.py:314-327 | a signup adds that slug and keeps all slugs distinct |
| OrgSignup.SlugsStayDistinct | backend/app/api/v1/auth.py:314-327 | over any run of signups no slug is given out twice and each is found under its own text |
| OrgSignup.NamesakesCountUp | backend/app/api/v1/auth.py:212-221 | in any run of signups, of two names with one base slug the later gets the greater number, and a number between theirs was taken before; they are consecutive if and only if the next number was free |
| OrgSignup.NamesakesAloneSkipNone | backend/app/api/v1/auth.py:212-221 | special case: when all names of a run share their base slug they get base, base-2, base-3 in their order |
| OrgSignup.TakenNumberIsSkipped | backend/app/api/v1/auth.py:212-221 | for every name, an organization named like its second slug makes its next namesake number 3 |
| AuthSession.AuthStore.SetStorageItem | frontend/src/lib/auth.ts:69-82 | stores the trimmed text, or removes the key when nothing is left |
| AuthSession.AuthStore.ClearAuth | frontend/src/lib/auth.ts:341-350 | the loop removes the fifteen listed keys and no other |
| AuthSession.AuthStore.PersistDerivedSession | frontend/src/lib/auth.ts:174-190 | writes the six session keys, or clears without a token |
| AuthSession.AuthStore.RestoreAuthSession | frontend/src/lib/auth.ts:192-207 | derives the session from the stored token and writes it back, or clears |
| AuthSession.AuthStore.SetAuthSession | frontend/src/lib/auth.ts:282-339 | writes what was passed, then restores; a null token clears |
| AuthSession.AuthStore.SetRole | frontend/src/lib/auth.ts:270-274 | a single-field setter writes and then restores |
| AuthSession.AuthStore.SetType | frontend/src/lib/auth.ts:252-256 | the token type's setter likewise |
| AuthSession.EveryOperationAgrees | frontend/src/lib/auth.ts:149-207 | on any store whatever, every setter, restore and clear leaves the session keys all absent or all as the stored token says |
| AuthSession.RunAgrees | frontend/src/lib/auth.ts:248-350 | the same after any run of operations at any times |
| AuthSession.OthersUntouched | frontend/src/lib/auth.ts:10-26 | no operation touches a key that is not an auth key |
| AuthSession.RestoreIdempotent | frontend/src/lib/auth.ts:192-207 | restoring again at the same time finds the same session and changes nothing |
| AuthSession.RestoreEndsIff | frontend/src/lib/auth.ts:138-147 | a restore ends an agreeing session if and only if its token has no more than 30 seconds left; otherwise it keeps it as it is |
| AuthSession.SignedInIff | frontend/src/lib/auth.ts:149-172 | setting a token keeps it if and only if it is readable, has more than 30 seconds left and names an organization and a role; the store then holds what the token says, the subject standing in for a missing e-mail |
| AuthSession.TypeIsAsGiven | frontend/src/lib/auth.ts:52-59 | while a session lasts each operation leaves the token type that was given last: Bearer for a blank one or that word in any case, the trimmed text otherwise |
| AuthSession.IdentityIsFixed | frontend/src/lib/auth.ts:252-332 | until a token is set, any run of setters, restores and clears keeps token, organization, e-mail, role and driver, or ends the session |
| AuthSession.ClearedStaysCleared | frontend/src/lib/auth.ts:192-207 | once the session is gone it stays gone, with no auth key left, until a token is set |
| DashboardQueues.PrioritizedIsStable | backend/app/api/v1/dashboard.py:148-152 | the order has the same loads, highest priority first and equals as they came |
| DashboardQueues.StableOrderIsUnique | backend/app/api/v1/dashboard.py:148-152 | there is only one such order |
| DashboardQueues.QueueOfPrioritized | backend/app/api/v1/dashboard.py:148-157 | a queue picked from the sorted loads is that queue sorted on its own |
| DashboardQueues.Aggregate | backend/app/api/v1/dashboard.py:154-168 | the loop's counts are exact and add up to the number of loads; each named queue shows the first five of its own stable priority order, or all it has, and no other queue shows anything |
| DashboardQueues.OperationalQueues | backend/app/api/v1/dashboard.py:143-168 | the same for evaluations, a missing or empty queue being none and a missing score 0 |
| DashboardQueues.ReplacedAddsUpIff | backend/app/api/v1/dashboard.py:200-205 | with one count replaced the counts still add up if and only if the new number is the one it replaces |
| DriverChecklist.CanonicalIsIdempotent | frontend/src/lib/document-types.ts:97-112 | a canonical type's own name is read as that type, so canonicalising twice is canonicalising once |
| DriverChecklist.CanonicalIgnoresCaseAndPadding | frontend/src/lib/document-types.ts:84-97 | texts that differ in ASCII case and outer blanks alone are read as one type |
| DriverChecklist.AbbreviationsAreRead | frontend/src/lib/document-types.ts:19-66 | the drivers' abbreviations bol, pod, rc, ratecon, fuel and w-9 are read as their types |
| DriverChecklist.ChecklistIsExact | frontend/src/lib/driver-portal.ts:128-173 | the checklist has one item for each listed type and no other, required exactly when submission asks for it or, with nothing said, by default; it carries the type's known status, and without one is under review or missing as the type is present or not |
| DriverChecklist.CompletedAndMissing | frontend/src/lib/driver-portal.ts:175-183 | completed and missing required items make up the required ones |
| DriverChecklist.MissingIff | frontend/src/lib/driver-portal.ts:175-177 | the items reported as missing are exactly the required ones that are missing, rejected or to be uploaded again |
| DriverChecklist.RoundsTo100Iff | frontend/src/lib/driver-portal.ts:182 | rounding reaches 100 if and only if 200 times what is missing is at most the total |
| DriverChecklist.RoundsToNearest | frontend/src/lib/driver-portal.ts:182 | the percent is the whole number nearest to the exact one, halves going up |
| DriverChecklist.RequiredAtMost15 | frontend/src/lib/document-types.ts:1-17 | at most the fifteen known types are ever required |
| DriverChecklist.CompleteIffNothingMissing | frontend/src/lib/driver-portal.ts:175-183 | for every readiness input the percent is 100 if and only if no required document is outstanding |
| DriverChecklist.CompletionCounts | frontend/src/lib/driver-portal.ts:179-183 | total and completed are the numbers of required types and of those provided: with a status other than missing, rejected and needs-reupload or, without one, present |
| DriverChecklist.CompleteIffAllProvided | frontend/src/lib/driver-portal.ts:128-183 | for every input the percent is 100 if and only if every required type is provided |
| DriverChecklist.NothingRequiredIff | frontend/src/lib/driver-portal.ts:137-140 | nothing is required, and the load counts as complete, if and only if submission is given and names no known type; an empty list is enough |

## Left out

- HTTP, routing, JSON bodies, headers other than Retry-After, logging, timing fields and the `reset` hooks.
- How a client address is read from the request: it is a parameter.
- The inside of semaphores, locks, promises, the database and the file store: permits, promise outcomes, commits and fresh storage keys are taken as given.
- A request cancelled while it waits for a permit, the length of that wait, and the order in which waiting requests get permits.
- A clock that goes back, and floating-point rounding of time (instants are real numbers or whole microseconds).
- Letters outside ASCII in case conversion: headers, e-mail addresses, roles and statuses are lower- or upper-cased on ASCII letters only; slugs and document types also take account of the two other letters whose lower case is ASCII.
- DemoRequests.FindRepeat: among matching rows with one and the same instant the database may answer any; the model answers the last stored.
- DemoRequests.DemoRequestTable.Create: the endpoint checks and then inserts without a lock, so two submissions at once could both pass the checks; the model takes them one at a time.
- Search, paging and the other columns of the demo request listing.
- DocumentEndpoints.Documents.FindRequired: among rows received and created at the same instants the database may answer any, and so may the model.
- DocumentEndpoints.Documents.UploadDocument: authorisation, quotas, notifications, audit records, load flags, and the branch that works without background tasks.
- DocumentEndpoints.Documents.UploadDriverDocument: the driver's authorisation, and a deferred delete in place of the early one.
- Creating, patching and linking documents through the other endpoints, which bypass the singleton check.
- RequestDedupe.OneRunnerPerKey: the explicit `token` option is not part of the source's key either, so two callers with different tokens share a runner.
- What a request does once it has its slot, the length of the pause before a retry, and reading the default organization from the session.
- UploadQueue.DriverUploadQueue.ProcessQueue: a stored list that is corrupted or was written by something else, a full browser storage, and the fields of an item that no decision depends on.
- UploadQueueRuns.ListStaysSound: ids are fresh because the source draws them at random; that is taken as given.
- TtlCache.TTLCache.SetValue: the lock, since each call is one step here.
- OrgSignup.OrganizationTable.AddOrganization: the slug column's length limit and its unique constraint, which only a concurrent signup could meet, and the checks on passwords and e-mail addresses.
- Decoding and verifying a token: a session's claims are a function of its token.
- AuthSession.AuthStore.SetRole: the setters of organization, e-mail and driver have the same form and appear as operations of the runs only.
- Events sent to other parts of the page when the session changes, and storage that is not available.
- DashboardQueues.Aggregate: the queue service's evaluation of a load is a parameter, as are the other counts of the dashboard; the loads are whatever the first page of 500 holds.
- Labels, helper texts, workflow steps and the next action of the driver's checklist.
- DriverChecklist.RoundsTo100Iff: the percentage is exact, where the source divides in floating point; with at most fifteen required types the two round alike.
- Lookups of names such as `constructor` in the source's object tables, which find inherited members.
