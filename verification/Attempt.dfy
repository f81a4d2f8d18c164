/** One execution of `handleVideoGeneration` as a program-counter machine: a step per awaited
    effect, so that other executions can run in between. */
module Attempt {
  import opened Base
  import opened VideoRow
  import JobStatus

  const MAX_POLLS := 30

  datatype GenStatus = GenPending | GenProcessing | GenCompleted | GenFailed

  datatype GenResult = GenResult(jobId: string, status: GenStatus, videoUrl: Option<string>,
                                 thumbnailUrl: Option<string>, estimatedDurationMs: Option<nat>,
                                 alreadyStored: bool)

  /** `result.videoUrl` is truthy. */
  predicate HasUrl(r: GenResult) {
    r.videoUrl.Some? && r.videoUrl.value != ""
  }

  /** The URL a video is to be completed with: the provider's own if the provider has stored it, else the upload's. */
  function StoredUrl(r: GenResult, uploadUrl: Url): string
    requires HasUrl(r)
  {
    if r.alreadyStored then r.videoUrl.value else uploadUrl
  }

  /** What one awaited call comes back with: a thrown message, or a result; and whether Redis took
      the cache command issued with it. */
  datatype Reply = Reply(fault: Option<string>, result: GenResult, redisUp: bool)

  datatype Event =
    | ProcessingStarted(attempt: nat)
    | ProgressUpdated(percent: nat, poll: nat)
    | VideoCompleted(url: string, thumbnailUrl: Option<string>)
    | VideoFailed(error: Failure, attemptsMade: nat)

  datatype Pc =
    | LoadVideo
    | ClaimRow(seen: Status)
    | ReportStart
    | RecordEnhanced
    | ReportEnhanced
    | SubmitJob
    | RecordSubmitted(submitted: GenResult)
    | ReportSubmitted(submitted: GenResult)
    | AwaitPoll(jobId: string, status: GenStatus, polls: nat)
    | RecordPoll(jobId: string, result: GenResult, polls: nat)
    | ReportPoll(jobId: string, result: GenResult, polls: nat)
    | StoreVideo(result: GenResult, polls: nat)
    | CompleteRow(url: string, thumbnailUrl: Option<string>)
    | ReportDone(url: string, thumbnailUrl: Option<string>)
    | Handle(error: Failure)
    | EvictStatus(error: Failure)
    | Returned
    | Threw(error: Failure)

  predicate Finished(pc: Pc) {
    pc.Returned? || pc.Threw?
  }

  /** An execution: the final-attempt flag and attempt number it was started with, the URL its
      upload would be stored under, and where it is. */
  datatype Execution = Execution(isFinal: bool, number: nat, uploadUrl: Url, pc: Pc)

  /** `attemptsMade >= maxAttempts - 1`, with `opts.attempts ?? 1`. */
  predicate IsFinalAttempt(attemptsMade: nat, attempts: Option<nat>) {
    attemptsMade >= attempts.GetOr(1) - 1
  }

  function Begin(attemptsMade: nat, attempts: Option<nat>, uploadUrl: Url): Execution {
    Execution(IsFinalAttempt(attemptsMade, attempts), attemptsMade + 1, uploadUrl, LoadVideo)
  }

  datatype Effect = Effect(pc: Pc, row: Option<Row>, write: JobStatus.CacheWrite, event: Option<Event>)

  function Just(pc: Pc, row: Option<Row>): Effect {
    Effect(pc, row, JobStatus.NoWrite, None)
  }

  /** Fields a start, respectively a completion, writes beside the status. */
  const START_EXTRA := JobStatus.Extra(None, None, Some(Metadata(Some(10), Some(Starting), None, None)))

  function DoneExtra(url: string, thumbnailUrl: Option<string>): JobStatus.Extra {
    JobStatus.Extra(Some(url), thumbnailUrl, Some(Metadata(Some(100), Some(Delivered), None, None)))
  }

  /** `Math.ceil(ms / 1000)` for a truthy duration. */
  function EtaOf(r: GenResult): Option<nat> {
    if r.estimatedDurationMs.Some? && r.estimatedDurationMs.value != 0 then
      Some((r.estimatedDurationMs.value + 999) / 1000)
    else
      None
  }

  function EtaAfter(polls: nat): nat {
    Max(0, (MAX_POLLS - polls) * 10)
  }

  /** One awaited effect, together with the code up to the next await. */
  function Step(x: Execution, row: Option<Row>, r: Reply): (e: Effect)
    ensures e.row.Some? == row.Some?
  {
    match x.pc
    case Returned => Just(x.pc, row)
    case Threw(_) => Just(x.pc, row)
    case Handle(error) =>
      if !x.isFinal then Just(Threw(error), row)
      else if r.fault.Some? then Just(Threw(Thrown(r.fault.value)), row)
      else Just(EvictStatus(error), JobStatus.MarkedFailed(row, error).row)
    case EvictStatus(error) =>
      Effect(Threw(error), row, JobStatus.Evict, Some(VideoFailed(error, x.number)))
    case AwaitPoll(jobId, status, polls) =>
      if !(status == GenProcessing && polls < MAX_POLLS) then Just(Handle(NoVideoAfter(polls)), row)
      else if r.fault.Some? then Just(Handle(Thrown(r.fault.value)), row)
      else Just(RecordPoll(jobId, r.result, polls + 1), row)
    case ClaimRow(seen) =>
      if r.fault.Some? && JobStatus.Allowed(seen, Processing) then Just(Handle(Thrown(r.fault.value)), row)
      else
        var u := JobStatus.Transition(row, seen, Processing, START_EXTRA);
        Effect(if u.applied then ReportStart else Returned, u.row, u.write, None)
    case StoreVideo(result, polls) =>
      if result.alreadyStored then Just(CompleteRow(result.videoUrl.GetOr(""), result.thumbnailUrl), row)
      else if r.fault.Some? then Just(Handle(Thrown(r.fault.value)), row)
      else Just(CompleteRow(x.uploadUrl, result.thumbnailUrl), row)
    case _ =>
      if r.fault.Some? then Just(Handle(Thrown(r.fault.value)), row) else Advance(x, row, r)
  }

  /** The steps whose only special case is that the awaited call may throw; it has not. */
  function Advance(x: Execution, row: Option<Row>, r: Reply): (e: Effect)
    ensures e.row.Some? == row.Some?
  {
    match x.pc
    case LoadVideo =>
      if row.None? then Just(Handle(Thrown("Video not found")), row) else Just(ClaimRow(row.value.status), row)
    case ReportStart => Effect(RecordEnhanced, row, JobStatus.NoWrite, Some(ProcessingStarted(x.number)))
    case RecordEnhanced => Recorded(ReportEnhanced, JobStatus.Progress(row, 20, PromptEnhanced, None, None))
    case ReportEnhanced => Just(SubmitJob, row)
    case SubmitJob => Just(RecordSubmitted(r.result), row)
    case RecordSubmitted(g) =>
      Recorded(ReportSubmitted(g), JobStatus.Progress(row, 40, JobSubmitted, Some(g.jobId), EtaOf(g)))
    case ReportSubmitted(g) => Just(AwaitPoll(g.jobId, g.status, 0), row)
    case RecordPoll(jobId, result, polls) =>
      Recorded(ReportPoll(jobId, result, polls),
               JobStatus.Progress(row, PollPercent(polls), Rendering(polls), None, Some(EtaAfter(polls))))
    case ReportPoll(jobId, result, polls) =>
      Effect(if HasUrl(result) then StoreVideo(result, polls) else AwaitPoll(jobId, result.status, polls),
             row, JobStatus.NoWrite, Some(ProgressUpdated(PollPercent(polls), polls)))
    case CompleteRow(url, thumbnailUrl) =>
      Recorded(ReportDone(url, thumbnailUrl),
               JobStatus.Transition(row, Processing, Completed, DoneExtra(url, thumbnailUrl)))
    case ReportDone(url, thumbnailUrl) =>
      Effect(Returned, row, JobStatus.NoWrite, Some(VideoCompleted(url, thumbnailUrl)))
    case _ => Just(x.pc, row)
  }

  /** Move on after an update, whether or not it matched a row. */
  function Recorded(pc: Pc, u: JobStatus.Update): Effect {
    Effect(pc, u.row, u.write, None)
  }

  // ---- Local invariant of an execution ------------------------------------------------------

  ghost predicate PcOk(pc: Pc) {
    match pc
    case AwaitPoll(_, _, polls) => polls <= MAX_POLLS
    case RecordPoll(_, _, polls) => 1 <= polls <= MAX_POLLS
    case ReportPoll(_, _, polls) => 1 <= polls <= MAX_POLLS
    case StoreVideo(result, polls) => 1 <= polls <= MAX_POLLS && HasUrl(result)
    case CompleteRow(url, _) => url != ""
    case ReportDone(url, _) => url != ""
    case _ => true
  }

  /** Whatever row an execution meets, a step keeps it coherent. */
  lemma StepCoherent(x: Execution, row: Option<Row>, r: Reply)
    requires PcOk(x.pc) && CoherentRow(row)
    ensures var e := Step(x, row, r); PcOk(e.pc) && CoherentRow(e.row)
  {
  }
}
