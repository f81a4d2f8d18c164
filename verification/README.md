# Verified model of the video-job lifecycle and the chat protocol

The repository turns a request for a video into a queue job, runs the job through an AI provider in a
worker, keeps the `videos` row and a Redis status cache up to date on the way, and captures jobs that
fail for good in a dead letter queue (DLQ) from which they can be retried. Beside it runs a chat with a
history per room. This project models both in Dafny and proves what holds over all their interleavings.

`dafny verify dfyconfig.toml` checks everything.

## How the model is built

| file | what it models |
|---|---|
| `VideoRow.dfy` | a row of `videos`, its metadata and its status snapshot |
| `JobStatus.dfy` | `JobStatusService` as a class over table and cache; the cache against the row |
| `Attempt.dfy` | one run of `handleVideoGeneration` as a program-counter machine, a step per awaited effect |
| `Processor.dfy` | `VideoGenerationProcessor` as written (poll loop, catch block), proved to be that machine run alone |
| `AttemptStory.dfy` | that machine alone on a video, told in plain values: the row, cache entry and events of every outcome |
| `Concurrent.dfy` | any number of such executions, cache writes, readers, resets and deletion, freely interleaved |
| `Duplicates.dfy` | over all those interleavings: when a COMPLETED event is true, when the cache is |
| `JobLife.dfy`, `EventGrammar.dfy` | a queue job through its attempts: termination, counts, event log |
| `Dlq.dfy`, `RetryRace.dfy` | `DlqService` as a class; concurrent retries of one record |
| `Pipeline.dfy`, `Guarantees.dfy` | one video's whole life with its jobs, captures and DLQ records, and the theorems about it |
| `Witnesses.dfy` | lives and runs that exhibit each failure the theorems allow for |
| `PollLoop.dfy`, `FakeProvider.dfy` | the machine's poll loop against any provider, and against the timed in-memory one |
| `Chat.dfy`, `ChatHistory.dfy`, `ChatGateway.dfy` | the chat protocol, the history query, the gateway's handlers |
| `Storage.dfy`, `Videos.dfy`, `Paging.dfy` | retry with backoff, object URLs and keys, creation and result, pages |

Code that changes state step by step is a class or a method with a loop; its contract equates the new
state with a function of the old one, and the same function is a step of the interleaved systems. All
nondeterminism (what an awaited call returns or throws, whether Redis takes a command, which handler
moves next) is an argument: an action, a move or a reply. A transition function is total, and an action
that is not possible leaves the state as it is, so every sequence of actions is a run.

There are two layers. `Concurrent` assumes nothing about the queue: duplicate executions of one job are
allowed. `Pipeline` assumes that the queue runs a job in one worker at a time and that a creation or a
retry, from its enqueue to its last row write, is one step. `Guarantees.LifeIsRun` proves the second an
instance of the first. The queue's own part is one rule: after a failed attempt a job runs again exactly
while `attemptsMade + 1 < attempts`, with no `attempts` meaning none.

## Where the code and its comments or documents differ

The model follows the code.

- The comment at `video-generation.processor.ts:60` and section 6 of the sixth design document say that
  only one worker wins a start. That holds for rows read as PENDING (`Concurrent.OnePendingClaim`). A row read as PROCESSING
  can be claimed again (`Concurrent.TwoOwners`).
- The sixth design document says markFailed cannot race, and that a COMPLETED row never changes. It becomes
  FAILED exactly by the catch block of an attempt the queue gives up on, when the FAILED write does not throw
  (`Guarantees.CompletedRowLeavesExactly`). Two routes lead there: the final attempt's `updateProgress(100)` throws
  after its completion (`Witnesses.CompletedOverwrittenAtOnce`), or a later final attempt cannot load the video
  (`Witnesses.CompletedOverwrittenLater`).
- The completion update's answer is ignored: the COMPLETED event is emitted in any case. A row is COMPLETED with a
  URL exactly when some update took it from PROCESSING to COMPLETED with it and nothing has spoilt it since: a
  deletion, a DLQ reset, or a final attempt's FAILED write (`Duplicates.CompletedRowExactly`). So one execution's
  event is true exactly when its update found the row PROCESSING, or already COMPLETED with that URL, and no
  step between update and event spoilt it, where the row is not PENDING at the update and not reset in between
  (`Duplicates.CompletedEventExactly`). With duplicates either half can fail (`Witnesses.FalseCompletedEvent`,
  `Witnesses.SpoiltCompletedEvent`); in the pipeline neither does (`Guarantees.CompletedEventIsTrue`).
- `updateProgress` writes the cache although its guarded update may match no row. That is the one kind of step that
  sends the cache anything but the row's own snapshot (`Duplicates.StoresTruthExactly`). With duplicates it makes
  the cache show a status the row never had (`Concurrent.InventedSnapshot`); without such a step the cache never
  does (`Duplicates.CacheInventsOnlyBlindly`), and the pipeline has none (`Guarantees.CacheNeverInvents`).
- A job can end normally without any COMPLETED event (`Witnesses.EndsUnannounced`): exactly when it ends by being
  turned away from a COMPLETED row (`Guarantees.EndsUnannouncedExactly`).
- The eleventh design document promises that the conflict answer prevents a second retry. Two calls that
  both check the record before either marks it enqueue two jobs (`RetryRace.DoubleRetry`), and so do two calls
  one after the other when the first one's last write throws (`RetryRace.SequentialDoubleRetry`). Retries of one
  record are safe exactly when they are serialised: no call may pass the check before every call that passed it
  earlier has marked the record, or failed before its enqueue (`RetryRace.OneJobExactly`).
- The DLQ is documented as losing nothing. A failure is lost exactly when `markFailed` itself throws, or the
  listener's read or save does (`Guarantees.LossExactly`; `Witnesses.FailureLost` is such a life).
- An open DLQ record does not always mean a FAILED row: a retry resets the row before it enqueues. The row is PENDING,
  without a job, exactly when a retry of that very record has failed to enqueue (`Guarantees.OpenRecordShows`;
  `Witnesses.OpenOverPending` is such a life).
- Without a storage endpoint, which is the default, the presigned key is not the key that was uploaded
  (`Videos.PresignedKeyExactly`).
- Deleting a video leaves its cache entry, which keeps answering for the missing row (`JobStatus.WhatBreaksTheCache`).
- `FakeVideoProvider` reads `ai.simulationDelayMs`, which the configuration never sets; the delay is then 5000 ms.

## Model

| member | source | states |
|---|---|---|
| `JobStatus.JobStatusService.TransitionStatus` | src/modules/queue/job-status.service.ts:46-88 | the guarded update: rejected for a transition outside the table before the database is asked; takes effect exactly when the row has the expected status; the snapshot goes to the cache; no other video changes |
| `JobStatus.JobStatusService.UpdateProgress` | src/modules/queue/job-status.service.ts:97-120 | metadata replaced only on a PROCESSING row, cache written regardless |
| `JobStatus.JobStatusService.MarkFailed` | src/modules/queue/job-status.service.ts:128-135 | unconditional FAILED with the error and percent 0; a missing row is no error |
| `JobStatus.JobStatusService.EvictCache` | src/modules/queue/job-status.service.ts:152-158 | the entry is gone unless Redis failed, and a Redis failure is swallowed |
| `JobStatus.JobStatusService.GetCachedStatus` | src/modules/queue/job-status.service.ts:142-150 | cache hit, else the table with a backfill |
| `JobStatus.JobStatusService.LoadFromDb` | src/modules/queue/job-status.service.ts:175-200 | null for a missing row, a failing read, and also for a failing backfill of an existing row |
| `JobStatus.AllowedExactly` | src/modules/queue/job-status.service.ts:21-24 | PENDING starts or fails, PROCESSING starts again, completes or fails, nothing else |
| `JobStatus.ReadBackfills` | src/modules/queue/job-status.service.ts:142-200 | a read that falls through to the table answers the row's status, percent and message and leaves that answer for the next read, which needs no database; one that cannot answer leaves nothing |
| `JobStatus.FreshExactly` | src/modules/queue/job-status.service.ts:46-137 | an operation leaves the cache absent-or-equal to the row exactly under a guard checkable before it |
| `JobStatus.WhatBreaksTheCache` | src/modules/queue/job-status.service.ts:46-137 | with Redis up and metadata passed, exactly three things break the agreement: a progress write that meets no PROCESSING row, a DLQ reset under a live entry, a deletion under one |
| `JobStatus.CacheRefinesRow` | src/modules/queue/job-status.service.ts:142-200 | after any run of guarded operations a cached read equals the plain table read |
| `JobStatus.ReadAgreesExactly` | src/modules/queue/job-status.service.ts:142-200 | on an agreeing cache a read equals the table's exactly on a hit, for a missing row, or when read and backfill both work |
| `Attempt.StepCoherent` | src/modules/queue/processors/video-generation.processor.ts:55-183 | each step of an attempt keeps any coherent row coherent, whatever has happened to the row since its last step |
| `Processor.VideoGenerationProcessor.HandleVideoGeneration` | src/modules/queue/processors/video-generation.processor.ts:46-184 | outcome, row, cache entry and events are those of the program-counter machine; other videos are untouched |
| `Processor.VideoGenerationProcessor.HandleFailure` | src/modules/queue/processors/video-generation.processor.ts:167-183 | on the final attempt, unless the write throws, the row is FAILED with the error, the cached status is evicted and the failure announced with its attempt number; otherwise nothing changes; the error is rethrown, or replaced by markFailed's own |
| `Processor.VideoGenerationProcessor.PollUntilStored` | src/modules/queue/processors/video-generation.processor.ts:112-166 | the while loop is the machine between loop head and either end |
| `Processor.VideoGenerationProcessor.Complete` | src/modules/queue/processors/video-generation.processor.ts:138-162 | the row in progress is completed, and the event emitted, with the provider's URL if the provider has stored the video and with the upload's if not |
| `AttemptStory.AttemptSucceeds` | src/modules/queue/processors/video-generation.processor.ts:46-162 | alone and without faults, when the k-th answer yields the URL: the row is COMPLETED under the stored URL and the answer's thumbnail at 100 percent, the cache shows it, and the events are one start, k progress events at 42, 44, ..., 90 percent, one completion with that URL |
| `AttemptStory.UpToPoll` | src/modules/queue/processors/video-generation.processor.ts:57-136 | what row and cache show after the submission (40 percent, provider job, estimate) and after each poll (percent, message, seconds left), with the events so far |
| `AttemptStory.Claiming` | src/modules/queue/processors/video-generation.processor.ts:61-85 | 10 percent after the claim, 20 after the prompt, one STARTED event with the attempt's number |
| `AttemptStory.EtaRoundsUp` | src/modules/queue/processors/video-generation.processor.ts:107-109 | the estimate is the duration in seconds rounded up, and none without a duration |
| `AttemptStory.AttemptGivesUp` | src/modules/queue/processors/video-generation.processor.ts:46-183 | the same when the loop gives up after k answers: the last poll's row, or on the final attempt FAILED with that count |
| `AttemptStory.AttemptFails` | src/modules/queue/processors/video-generation.processor.ts:167-183 | an awaited call that throws, wherever it is, has no effect of its own; the attempt fails with that error, and on the final attempt the row is FAILED, the entry gone and the failure announced |
| `AttemptStory.CatchBlock` | src/modules/queue/job-status.service.ts:128-137 | the final attempt's catch block is `markFailed` with its eviction, as an operation of module JobStatus; else it leaves everything alone |
| `AttemptStory.FaultIsCaught` | src/modules/queue/processors/video-generation.processor.ts:55-182 | exactly where the try block awaits a call, and that each of them leads to the catch block when it throws |
| `AttemptStory.NothingToDo` | src/modules/queue/processors/video-generation.processor.ts:57-71 | a missing video is an error, a row that cannot be started ends the attempt with nothing done |
| `AttemptStory.AloneStaysFresh` | src/modules/queue/job-status.service.ts:81-137 | with Redis up the cache agrees with the row after every step of an attempt alone, whatever its calls return or throw, but between the FAILED write and its eviction |
| `AttemptStory.ActIsSoloStep` | src/modules/queue/processors/video-generation.processor.ts:46-184 | an execution's step among others, with the landing of its cache write, is the machine's own step when nothing comes between |
| `AttemptStory.OthersArePerformed` | src/modules/queue/job-status.service.ts:142-200 | reads with their backfill, resets, deletions and expiries of the interleaved system are the operations of module JobStatus; a link sets the row's job and nothing else |
| `Concurrent.AlwaysCoherent` | src/modules/queue/job-status.service.ts:60-70 | in every state of every interleaving: COMPLETED has a non-empty URL and 100 percent, FAILED iff an error is set and then 0 percent, PENDING has empty metadata, PROCESSING shows 10, 20, 40, 42, ..., 90 |
| `Concurrent.RankNeverFalls` | src/modules/queue/job-status.service.ts:21-24 | between two resets the status never goes back and FAILED is absorbing, for any number of concurrent executions |
| `Concurrent.OnePendingClaim` | src/modules/queue/processors/video-generation.processor.ts:59-71 | between two resets at most one start takes a PENDING row |
| `Concurrent.ClaimExactly` | src/modules/queue/processors/video-generation.processor.ts:61-71 | a start takes effect iff the row still has the status read and that is PENDING or PROCESSING; else the attempt returns and changes nothing |
| `Concurrent.TwoOwners` | src/modules/queue/job-status.service.ts:23 | a run in which two executions both own the row |
| `Concurrent.InventedSnapshot` | src/modules/queue/job-status.service.ts:110-119 | a run with duplicates after which the cache holds a status the row never had |
| `Duplicates.CompletedRowExactly` | src/modules/queue/processors/video-generation.processor.ts:146-156 | over every interleaving: the row is COMPLETED with a URL iff an earlier update took it from PROCESSING to COMPLETED with that URL and no deletion, reset or final FAILED write has come since |
| `Duplicates.UpdateBefore` | src/modules/queue/processors/video-generation.processor.ts:146-157 | an execution about to report a completion has made that very update at an earlier step and not moved since |
| `Duplicates.CompletedEventExactly` | src/modules/queue/processors/video-generation.processor.ts:146-161 | COMPLETED is emitted whatever has happened since the update; unless the row was PENDING or reset, it is true iff the update found the row PROCESSING, or COMPLETED with that URL, and nothing in between spoilt it |
| `Duplicates.UrlComesFromPoll` | src/modules/queue/processors/video-generation.processor.ts:119-161 | over every interleaving: the URL and thumbnail an execution completes its row with and announces are those of an answer it polled, or its own upload's URL if the provider had not stored the video |
| `Duplicates.StoresTruthExactly` | src/modules/queue/job-status.service.ts:81-119 | a step sends the cache something other than the row's snapshot iff it is a progress write that does not throw and meets no PROCESSING row |
| `Duplicates.CacheInventsOnlyBlindly` | src/modules/queue/job-status.service.ts:81-119 | over every interleaving without such a step, cache entry, pending writes and backfills are snapshots the row had at that or an earlier step |
| `JobLife.FinalMeansGivingUp` | src/modules/queue/processors/video-generation.processor.ts:48-49 | the processor's final-attempt flag is the queue's giving up, for every N including none and 0 |
| `JobLife.StepOk` | src/modules/queue/processors/video-generation.processor.ts:113-182 | every step strictly shrinks the work left: attempts, then stage, then polls |
| `JobLife.Bounds` | src/modules/queue/processors/video-generation.processor.ts:113-117 | at most max(1,N) attempts, 30 max(1,N) polls, 105 max(1,N) steps |
| `JobLife.MarksFailedExactly` | src/modules/queue/processors/video-generation.processor.ts:167-183 | of all the steps of an attempt only the catch block of the one the queue will not retry makes a row FAILED, unless that write throws; the other catch blocks leave the row alone and hand the job back |
| `JobLife.EventFits` | src/modules/queue/processors/video-generation.processor.ts:73-162 | each event emitted continues the log within the language, and only the last steps close it |
| `EventGrammar.EventByEvent` | src/modules/queue/processors/video-generation.processor.ts:123-162 | one terminal event at most and at the end; the k-th progress of an attempt says 40 + 2k up to k = 25 and 90 from there to k = 30; COMPLETED directly follows a progress event |
| `EventGrammar.PercentsRise` | src/modules/queue/processors/video-generation.processor.ts:123-136 | percentages rise by two within an attempt until they are at 90 |
| `EventGrammar.StartsRise` | src/modules/queue/processors/video-generation.processor.ts:73-76 | attempt numbers strictly increase in a job's log |
| `Dlq.DlqService.OnVideoFailed` | src/modules/queue/dlq.service.ts:45-72 | a new open record with the row's queueJobId, or nothing when a read or write fails; never throws |
| `Dlq.DlqService.RetryFailedJob` | src/modules/queue/dlq.service.ts:98-154 | not found, conflict, or: row reset and linked to a new job, job enqueued, record marked; and for a throw at each of the five awaited calls exactly what is left behind; left to itself it does what a call of `RetryRace` does |
| `RetryRace.OneJobExactly` | src/modules/queue/dlq.service.ts:99-143 | over every run of retries of one record, failing ones included: no check passes while an earlier passed call has neither marked the record nor failed before its enqueue, iff no state of the run can be brought to two jobs by enqueues alone |
| `RetryRace.SerialisedOneJob` | src/modules/queue/dlq.service.ts:99-143 | a run whose checks are so serialised enqueues at most one job |
| `RetryRace.OverlapTwoJobs` | src/modules/queue/dlq.service.ts:103-130 | after a check that overlaps another call, enqueues alone lead to two jobs |
| `RetryRace.DoubleRetry` | src/modules/queue/dlq.service.ts:103-143 | a run of two retries that enqueues two jobs |
| `RetryRace.SequentialDoubleRetry` | src/modules/queue/dlq.service.ts:121-143 | two retries one after the other enqueue two jobs when the first one's last write throws |
| `RetryRace.FailedEnqueueIsNoJob` | src/modules/queue/dlq.service.ts:121-130 | two overlapping retries still enqueue one job when the first one's enqueue throws |
| `Pipeline.ApplyInv` | src/modules/queue/dlq.service.ts:44-143 | every move of the pipeline keeps row, jobs, captures and records in agreement |
| `Guarantees.Conservation` | src/modules/queue/dlq.service.ts:44-143 | counted over everything, a video always has exactly one of: live job, normally ended job, failure being captured, open record, lost failure |
| `Guarantees.LossExactly` | src/modules/queue/dlq.service.ts:66-71 | exactly which writes, when they throw, lose a failure |
| `Guarantees.NothingLost` | src/modules/queue/dlq.service.ts:44-72 | if those writes succeed nothing is lost or duplicated, through any number of failures and retries |
| `Guarantees.StatusAgrees` | src/modules/queue/processors/video-generation.processor.ts:147-182 | open record: FAILED with its error, or PENDING without a job; ended job: COMPLETED; live job: PENDING or PROCESSING, FAILED only right after its own last write, COMPLETED only before the next claim or on the way out |
| `Guarantees.OpenRecordShows` | src/modules/queue/dlq.service.ts:98-130 | an open record means a FAILED row with its error and job, unless an earlier retry of this record failed to enqueue, and then a PENDING row without a job |
| `Guarantees.OpenPendingExactly` | src/modules/queue/dlq.service.ts:98-130 | under an open record the row is PENDING iff some earlier retry of that record failed to enqueue |
| `Witnesses.OpenOverPending` | src/modules/queue/dlq.service.ts:109-121 | a life that ends with an open record over a PENDING row |
| `Guarantees.CompletedUnderLiveJob` | src/modules/queue/processors/video-generation.processor.ts:147-162 | a live job's row is COMPLETED only because an attempt of this job took it from PROCESSING to COMPLETED at an earlier step; between attempts that attempt has died since |
| `Guarantees.BecomesFailedExactly` | src/modules/queue/processors/video-generation.processor.ts:167-183 | in every life, of all moves only the catch block of an attempt the queue gives up on makes a row FAILED, and it always does unless its write throws |
| `Guarantees.CompletedRowLeavesExactly` | src/modules/queue/processors/video-generation.processor.ts:173-175 | a COMPLETED row is left exactly at the catch block of an attempt the queue gives up on, unless the FAILED write throws, and then for FAILED |
| `Witnesses.CompletedOverwrittenAtOnce` | src/modules/queue/processors/video-generation.processor.ts:157-175 | a life in which the only attempt completes the row and its report throws: COMPLETED becomes FAILED |
| `Witnesses.CompletedOverwrittenLater` | src/modules/queue/processors/video-generation.processor.ts:57-175 | a life in which a second, final attempt cannot load the video: COMPLETED becomes FAILED |
| `Guarantees.EndsUnannouncedExactly` | src/modules/queue/processors/video-generation.processor.ts:67-71 | a job ends normally without any COMPLETED event exactly when it is turned away from a COMPLETED row |
| `Witnesses.EndsUnannounced` | src/modules/queue/processors/video-generation.processor.ts:67-71 | a life with such an end |
| `Witnesses.FailureLost` | src/modules/queue/processors/video-generation.processor.ts:173-179 | a life whose failure the DLQ never hears of |
| `Witnesses.FalseCompletedEvent` | src/modules/queue/processors/video-generation.processor.ts:147-161 | a run with a duplicate execution that emits COMPLETED while the row is and stays FAILED |
| `Witnesses.SpoiltCompletedEvent` | src/modules/queue/processors/video-generation.processor.ts:147-175 | a run in which the completion takes effect, a duplicate's final failure overwrites it, and COMPLETED is emitted on the FAILED row |
| `Guarantees.CompletedRowEndsJob` | src/modules/queue/processors/video-generation.processor.ts:57-71 | an attempt that finds the row COMPLETED is rejected and ends the job without any effect or event |
| `Guarantees.RetryNeverOverlaps` | src/modules/queue/dlq.service.ts:98-118 | an open record means all jobs are exhausted and nothing is being captured |
| `Guarantees.UpdatesNeverMiss` | src/modules/queue/processors/video-generation.processor.ts:61-71 | in the pipeline a start misses only a COMPLETED row and the completion never misses |
| `Guarantees.CompletedEventIsTrue` | src/modules/queue/processors/video-generation.processor.ts:157-161 | COMPLETED events are emitted while the row is COMPLETED with that URL |
| `Guarantees.ChainOfCustody` | src/modules/queue/dlq.service.ts:48-62 | the first record names the job created with the video, each later one its predecessor's retry job; only the newest may be open; all name the video and the attempts its job had, max(1,N) |
| `Guarantees.RetryStartsOver` | src/modules/queue/dlq.service.ts:109-143 | a retry that goes through leaves a PENDING row without error and metadata but with its URLs, linked to a new waiting job of three attempts that the record names |
| `Guarantees.RetriedJobsTryThrice` | src/modules/queue/dlq.service.ts:121-130 | every job but the first has three attempts, so at most 90 polls |
| `Guarantees.OneJobPerRetry` | src/modules/queue/dlq.service.ts:121-143 | always one job more than retried records |
| `Guarantees.JobsBoundedAndLogged` | src/modules/queue/processors/video-generation.processor.ts:46-184 | the bounds and the event language hold for every job of every life, and an exhausted job has used all max(1,N) attempts |
| `Guarantees.LiveJobShrinks` | src/modules/queue/processors/video-generation.processor.ts:46-184 | a live job's next move always shrinks the work it has left, whatever the environment answers |
| `Guarantees.CacheNeverInvents` | src/modules/queue/job-status.service.ts:81-85 | with one execution at a time the cache, late writes and late backfills included, only holds snapshots the row has had |
| `Guarantees.LifeIsRun` | src/modules/queue/processors/video-generation.processor.ts:46-184 | every life of the pipeline is a run of the unrestricted interleaving |
| `Guarantees.StatusMovesForward` | src/modules/queue/job-status.service.ts:21-24 | between two retries the status never goes back |
| `PollLoop.OneEnd` | src/modules/queue/processors/video-generation.processor.ts:113-166 | for every submission status and answer sequence exactly one end: a URL at one poll, or giving up after one count |
| `PollLoop.PollLoopExact` | src/modules/queue/processors/video-generation.processor.ts:113-166 | in both directions: the handler stores the k-th answer iff it is the first with a URL, all before it said processing and k is within 30; it throws reporting k polls iff the loop gives up after k answers, 0 included |
| `FakeProvider.FakeVideoProvider.Submit` | src/modules/ai/providers/fake-video.provider.ts:36-54 | a processing job under the id fake-video-time |
| `FakeProvider.FakeVideoProvider.CheckStatus` | src/modules/ai/providers/fake-video.provider.ts:61-90 | failed when unknown, processing until the delay is over, then completed with its two URLs and removed |
| `FakeProvider.JobIdsDistinct` | src/modules/ai/providers/fake-video.provider.ts:37 | ids collide only for one video in one millisecond, whatever the video keys look like |
| `FakeProvider.ForeignOpsKeep` | src/modules/ai/providers/fake-video.provider.ts:36-90 | no sequence of other executions' calls touches our entry |
| `FakeProvider.PollLoopTimed` | src/modules/queue/processors/video-generation.processor.ts:117-166 | with delay D the URL arrives at poll max(1, ceil(D/10000)) iff D is at most 300000, and the entry is then gone; otherwise 30 polls and an error |
| `ChatHistory.HistoryIsNewest` | src/modules/chat/chat.service.ts:23-29 | the query's answer is sorted, holds rows of the room no more often than the table does, min(limit, count) of them, and leaves out nothing newer than what it holds |
| `ChatHistory.ReversedIsChronological` | src/modules/chat/chat.gateway.ts:108-109 | the client gets the same messages, oldest first |
| `Chat.NoGap` | src/modules/chat/chat.gateway.ts:105-163 | over every interleaving, for a client that stays joined: a message of the room is in the history, received live, saved and about to be broadcast, or was in the table when the history was taken and left out behind fifty rows no older |
| `Chat.NothingMissed` | src/modules/chat/chat.gateway.ts:105-163 | once nothing of the room is in flight the client's inbox holds every message but those that the history left out behind fifty rows no older |
| `Chat.ReceivedExactly` | src/modules/chat/chat.gateway.ts:155-163 | over every interleaving a client has received a message live iff it was a member of its room when the message was broadcast |
| `Chat.ReceivedOnce` | src/modules/chat/chat.gateway.ts:155-163 | and never twice |
| `Chat.EveryMessageWasSent` | src/modules/chat/chat.gateway.ts:135-161 | every row of the table was sent to its room by a client that was a member when checked, with that sender and content |
| `Chat.HistoryWasAskedFor` | src/modules/chat/chat.gateway.ts:101-113 | every history a client gets answers its own join of that room and is the fifty newest messages of the table at the query, oldest first |
| `ChatGateway.ChatGateway.HandleJoinRoom` | src/modules/chat/chat.gateway.ts:101-113 | join, query, history: the protocol's three steps; the client alone gets the history, of fifty at most |
| `ChatGateway.ChatGateway.HandleLeaveRoom` | src/modules/chat/chat.gateway.ts:118-124 | the membership is gone |
| `ChatGateway.ChatGateway.HandleSendMessage` | src/modules/chat/chat.gateway.ts:135-166 | refused for non-members without effect; otherwise check, insert, broadcast: exactly the members of the room get the message, whose id is new |
| `Storage.WithRetry` | src/modules/storage/storage.service.ts:138-158 | the first success among the first M calls, else the M-th error; calls made and total sleep, 200 ms doubling, in closed form; no call for M below 1 |
| `Storage.UploadFromUrl` | src/modules/storage/storage.service.ts:37-72 | the public URL of the key iff the download and one of three puts succeed, after at most 600 ms of sleep |
| `Storage.ExtractedKey` | src/modules/videos/videos.service.ts:159-165 | what key extraction makes of a public URL with an endpoint, with one the URL parser rejects, and without one |
| `Storage.VirtualHostKey` | src/modules/storage/storage.service.ts:117-118 | without an endpoint the first key segment is dropped, or a leading slash kept when there is only one |
| `Storage.RoundTripExactly` | src/modules/storage/storage.service.ts:112-119 | the key survives exactly when an endpoint is configured that the URL parser accepts |
| `Videos.VideosService.CreateAndQueue` | src/modules/videos/videos.service.ts:37-47 | a PENDING row linked to a waiting job without `attempts`: the initial state of the pipeline; and for a throw at each of the three awaited calls exactly what is left behind |
| `Videos.VideosService.Remove` | src/modules/videos/videos.service.ts:153-156 | the owner's row is gone, and the cache is not told |
| `Videos.ResultExactly` | src/modules/videos/videos.service.ts:88-127 | not found, forbidden for all but the owner, conflict with the status unless COMPLETED with a URL; else the keys of both URLs and the time to live asked for, within a minute and a day |
| `Videos.ReadyMeansAvailable` | src/modules/videos/videos.service.ts:102-109 | in every reachable state the result is available iff the status page says it is ready |
| `Videos.PresignedKeyExactly` | src/modules/videos/videos.service.ts:111-113 | the presigned key is the uploaded one iff an endpoint is configured that the URL parser accepts; otherwise it lacks `videos/`, or is the whole URL |
| `Videos.DefaultsMisplaceEveryVideo` | src/modules/storage/storage.service.ts:112-119 | with the default bucket and region and no endpoint no completed video is presigned under the key it was uploaded under |
| `Paging.MetaExactly` | src/modules/videos/videos.service.ts:73-85 | total, page and limit as asked; totalPages is the least number of pages that hold everything; a previous page from page 2 on, a next page exactly when items remain |
| `Paging.PagesPartition` | src/modules/videos/videos.service.ts:62-85 | all pages together are the list, once and in order; hasNextPage iff items remain; non-last pages are full |

## Left out

- BullMQ, TypeORM, Redis, Socket.IO and S3 themselves: a job set, atomic guarded updates, a key-value cell that may lose or refuse an entry, room membership, calls that succeed or throw.
- Crashes of a process between two effects, and the queue's stalled-job recovery: `Concurrent` covers the duplicate executions they cause, `Pipeline` excludes them.
- In `Pipeline`, faults of the row and record writes that follow a successful enqueue in a creation or a retry, and concurrent retries of one record (see `RetryRace`).
- A call that takes effect and then throws. A faulting row, record or chat-message write and a faulting enqueue are taken to have had no effect, so a committed update whose answer is lost, a job enqueued by a `queue.add` that throws, and a saved chat message that is never broadcast are not modelled.
- VideosService.update and VideosService.updateStatus (whole-row save, and a status write without a guard): they bypass the protocol.
- Deletion of a video in `Pipeline`; `Concurrent` and `JobStatus` have it.
- The CANCELLED status, which no code writes; users, authentication, throttling, health and monitoring; the video-status gateway, which forwards the events modelled here.
- Storage.ExtractedKey: endpoints are http and https origins with something behind the two slashes, whose host, if there is one, ends in a label that starts with a letter; numeric (IP) hosts, labels that start with `xn--`, and credentials are outside. Paths are those the URL parser leaves unchanged (letters, digits, `-`, `_`, `.`, slashes, no `.` or `..` segment); its escaping is not modelled.
- Progress messages are a datatype with one case for each fixed text; timestamps in snapshots and `retriedAt` are not modelled, nor is the queue's own progress value.
- Paging.PagesPartition: pages and limits below 1, which the database rejects, are not modelled, nor are lists that change between two requests.
- The order of the chat's history among equal timestamps is free; timestamps need not follow the order of commits.
- Presigning, downloads, uploads and prompt enhancement succeed or throw; their content is not modelled.
