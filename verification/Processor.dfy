/** `VideoGenerationProcessor`: the handler as written, with its poll loop and its catch block,
    proved to be the program-counter machine of module Attempt run without interference. */
module Processor {
  import opened Base
  import opened VideoRow
  import opened JobStatus
  import opened Attempt

  // ---- The machine alone on one video ------------------------------------------------------

  /** An execution with the row, the cache entry and the events emitted so far. */
  datatype Solo = Solo(x: Execution, cell: Cell, events: seq<Event>)

  function SoloStep(s: Solo, r: Reply): Solo {
    var e := Step(s.x, s.cell.row, r);
    Solo(s.x.(pc := e.pc), Cell(e.row, Land(s.cell.entry, e.write, r.redisUp)),
         if e.event.Some? then s.events + [e.event.value] else s.events)
  }

  function SoloAt(s: Solo, replies: nat -> Reply, n: nat): Solo {
    if n == 0 then s else SoloStep(SoloAt(s, replies, n - 1), replies(n - 1))
  }

  lemma Stepped(s: Solo, replies: nat -> Reply, n: nat)
    ensures SoloAt(s, replies, n + 1) == SoloStep(SoloAt(s, replies, n), replies(n))
  {
  }

  /** Steps at which the awaited call can throw into the catch block. */
  ghost predicate MayThrow(pc: Pc) {
    match pc
    case LoadVideo | ReportStart | ReportEnhanced | SubmitJob | ReportSubmitted(_) => true
    case ReportPoll(_, _, _) | ReportDone(_, _) => true
    case AwaitPoll(_, status, polls) => status == GenProcessing && polls < MAX_POLLS
    case StoreVideo(result, _) => !result.alreadyStored
    case _ => false
  }

  /** `pc` is the progress write with these arguments, and `next` the step after it. */
  ghost predicate RecordsProgress(pc: Pc, next: Pc, percent: nat, message: Note,
                                  aiJobId: Option<string>, etaSeconds: Option<nat>)
  {
    match pc
    case RecordEnhanced =>
      next == ReportEnhanced && (percent, message, aiJobId, etaSeconds) == (20, PromptEnhanced, None, None)
    case RecordSubmitted(g) =>
      next == ReportSubmitted(g)
      && (percent, message, aiJobId, etaSeconds) == (40, JobSubmitted, Some(g.jobId), EtaOf(g))
    case RecordPoll(jobId, result, polls) =>
      next == ReportPoll(jobId, result, polls)
      && (percent, message, aiJobId, etaSeconds) == (PollPercent(polls), Rendering(polls), None, Some(EtaAfter(polls)))
    case _ => false
  }

  // ---- The handler ---------------------------------------------------------------------------

  class VideoGenerationProcessor {
    const jobStatus: JobStatusService
    const videos: VideoTable
    const redis: StatusCache
    var events: seq<Event>

    constructor (jobStatus: JobStatusService)
      ensures this.jobStatus == jobStatus && this.videos == jobStatus.videos && this.redis == jobStatus.redis
      ensures events == []
    {
      this.jobStatus, this.videos, this.redis := jobStatus, jobStatus.videos, jobStatus.redis;
      events := [];
    }

    ghost predicate Valid()
      reads this
    {
      videos == jobStatus.videos && redis == jobStatus.redis
    }

    ghost function SoloOf(videoId: string, x: Execution): Solo
      reads this, jobStatus, jobStatus.videos, jobStatus.redis
    {
      Solo(x, jobStatus.CellOf(videoId), events)
    }

    /** `replies(k)` is what the k-th awaited call comes back with. The outcome, the row, the cache
        entry and the emitted events are those of the machine, `steps` steps on. */
    method HandleVideoGeneration(videoId: string, attemptsMade: nat, attempts: Option<nat>,
                                 uploadUrl: Url, replies: nat -> Reply)
      returns (outcome: Result<(), Failure>, steps: nat)
      requires Valid()
      modifies this, videos, redis
      ensures Valid()
      ensures SoloAt(old(SoloOf(videoId, Begin(attemptsMade, attempts, uploadUrl))), replies, steps)
        == SoloOf(videoId, Begin(attemptsMade, attempts, uploadUrl).(
             pc := if outcome.Ok? then Returned else Threw(outcome.error)))
      ensures jobStatus.OthersKept(videoId, old(videos.rows), old(redis.entries))
    {
      var maxAttempts: int := attempts.GetOr(1);
      var isFinalAttempt: bool := attemptsMade >= maxAttempts - 1;
      ghost var x := Begin(attemptsMade, attempts, uploadUrl);
      ghost var s0 := SoloOf(videoId, x);
      hide SoloStep;
      var error: Failure;
      steps := 0;
      label try: {
        var started;
        started, steps := Start(videoId, attemptsMade, replies, s0, x);
        if started.Err? { error := started.error; break try; }
        if !started.value { return Ok(()), steps; }

        var submitted;
        submitted, steps := Submit(videoId, replies, steps, s0, x);
        if submitted.Err? { error := submitted.error; break try; }

        var done;
        done, steps := PollUntilStored(videoId, submitted.value, uploadUrl, replies, steps, s0, x);
        if done.Err? { error := done.error; break try; }
        return Ok(()), steps;
      }
      // catch
      var thrown;
      thrown, steps := HandleFailure(videoId, error, isFinalAttempt, attemptsMade, replies, steps, s0, x);
      return Err(thrown), steps;
    }

    /** The catch block: on the final attempt the row is forced to FAILED before the error is rethrown. */
    method HandleFailure(videoId: string, error: Failure, isFinalAttempt: bool, attemptsMade: nat,
                         replies: nat -> Reply, from: nat, ghost s0: Solo, ghost x: Execution)
      returns (thrown: Failure, steps: nat)
      requires Valid() && At(videoId, s0, x, replies, from, Handle(error))
      requires x.isFinal == isFinalAttempt && x.number == attemptsMade + 1
      modifies this, videos, redis
      ensures Valid() && jobStatus.OthersKept(videoId, old(videos.rows), old(redis.entries))
      ensures At(videoId, s0, x, replies, steps, Threw(thrown))
      ensures var saved := isFinalAttempt && replies(from).fault.None?;
        var was, now := old(jobStatus.CellOf(videoId)), jobStatus.CellOf(videoId);
        && thrown == (if isFinalAttempt && !saved then Thrown(replies(from).fault.value) else error)
        && events == (if saved then old(events) + [VideoFailed(error, attemptsMade + 1)] else old(events))
        && (!saved ==> now == was)
        && (saved && replies(from + 1).redisUp ==> now.entry.None?)
        && (saved && was.row.Some? ==>
              now.row == Some(was.row.value.(status := Failed, errorMessage := Some(error),
                                             metadata := Metadata(Some(0), Some(GaveUp), None, None))))
    {
      hide SoloAt;
      thrown, steps := error, from + 1;
      Stepped(s0, replies, from);
      if isFinalAttempt {
        var marked := jobStatus.MarkFailed(videoId, error, replies(from).fault);
        if marked.Err? { return Thrown(marked.error), steps; }
        assert At(videoId, s0, x, replies, from + 1, EvictStatus(error));
        Stepped(s0, replies, from + 1);
        jobStatus.EvictCache(videoId, replies(from + 1).redisUp);
        events := events + [VideoFailed(error, attemptsMade + 1)];
        steps := from + 2;
      }
    }

    /** The machine, started as `s0` for execution `x`, has taken `steps` steps and stands at `pc`;
        everything it has done is in this object's state. */
    ghost predicate At(videoId: string, s0: Solo, x: Execution, replies: nat -> Reply, steps: nat, pc: Pc)
      reads this, jobStatus, jobStatus.videos, jobStatus.redis
    {
      SoloAt(s0, replies, steps) == SoloOf(videoId, x.(pc := pc))
    }

    /** `await updateProgress(...)` inside the try block: `pc` is where the machine stands, `next` where
        it goes unless the database throws. */
    method Record(videoId: string, percent: nat, message: Note, aiJobId: Option<string>, etaSeconds: Option<nat>,
                  replies: nat -> Reply, from: nat, ghost s0: Solo, ghost x: Execution, ghost pc: Pc, ghost next: Pc)
      returns (r: Result<(), Failure>)
      requires Valid() && At(videoId, s0, x, replies, from, pc)
      requires RecordsProgress(pc, next, percent, message, aiJobId, etaSeconds)
      modifies videos, redis
      ensures Valid() && jobStatus.OthersKept(videoId, old(videos.rows), old(redis.entries))
      ensures At(videoId, s0, x, replies, from + 1, match r case Err(e) => Handle(e) case Ok(_) => next)
    {
      var recorded := jobStatus.UpdateProgress(videoId, percent, message, aiJobId, etaSeconds,
                                               replies(from).fault, replies(from).redisUp);
      Stepped(s0, replies, from);
      if recorded.Err? { return Err(Thrown(recorded.error)); }
      return Ok(());
    }

    /** A call that throws inside the try block leads to the catch block. */
    lemma Caught(videoId: string, s0: Solo, x: Execution, replies: nat -> Reply, n: nat, pc: Pc)
      requires At(videoId, s0, x, replies, n, pc) && MayThrow(pc) && replies(n).fault.Some?
      ensures At(videoId, s0, x, replies, n + 1, Handle(Thrown(replies(n).fault.value)))
    {
      Stepped(s0, replies, n);
    }

    /** A call without effect on row, cache or events. */
    lemma Passed(videoId: string, s0: Solo, x: Execution, replies: nat -> Reply, n: nat, pc: Pc, next: Pc)
      requires At(videoId, s0, x, replies, n, pc)
      requires var row := jobStatus.CellOf(videoId).row; Step(x.(pc := pc), row, replies(n)) == Just(next, row)
      ensures At(videoId, s0, x, replies, n + 1, next)
    {
      Stepped(s0, replies, n);
    }

    /** From the first read to the STARTED event. Ok(false): the claim was rejected. */
    method Start(videoId: string, attemptsMade: nat, replies: nat -> Reply, ghost s0: Solo, ghost x: Execution)
      returns (r: Result<bool, Failure>, steps: nat)
      requires Valid() && s0 == SoloOf(videoId, x) && x.pc == LoadVideo && x.number == attemptsMade + 1
      modifies this, videos, redis
      ensures Valid() && jobStatus.OthersKept(videoId, old(videos.rows), old(redis.entries))
      ensures At(videoId, s0, x, replies, steps,
                 match r case Err(e) => Handle(e) case Ok(b) => if b then RecordEnhanced else Returned)
    {
      steps := 1;
      if replies(0).fault.Some? { return Err(Thrown(replies(0).fault.value)), steps; }
      if videoId !in videos.rows { return Err(Thrown("Video not found")), steps; }
      var seen := videos.rows[videoId].status;
      assert At(videoId, s0, x, replies, 1, ClaimRow(seen));

      var metadata := Metadata(Some(10), Some(Starting), None, None);
      var started := jobStatus.TransitionStatus(videoId, seen, Processing, Extra(None, None, Some(metadata)),
                                                replies(1).fault, replies(1).redisUp);
      steps := 2;
      if started.Err? { return Err(Thrown(started.error)), steps; }
      if !started.value { return Ok(false), steps; }
      assert At(videoId, s0, x, replies, 2, ReportStart);

      steps := 3;
      if replies(2).fault.Some? { return Err(Thrown(replies(2).fault.value)), steps; }
      events := events + [ProcessingStarted(attemptsMade + 1)];
      return Ok(true), steps;
    }

    /** Prompt enhancement and submission, up to the poll loop. */
    method Submit(videoId: string, replies: nat -> Reply, from: nat, ghost s0: Solo, ghost x: Execution)
      returns (r: Result<GenResult, Failure>, steps: nat)
      requires Valid() && At(videoId, s0, x, replies, from, RecordEnhanced)
      modifies this, videos, redis
      ensures Valid() && jobStatus.OthersKept(videoId, old(videos.rows), old(redis.entries))
      ensures At(videoId, s0, x, replies, steps,
                 match r case Err(e) => Handle(e) case Ok(g) => AwaitPoll(g.jobId, g.status, 0))
    {
      hide SoloAt;
      steps := from + 1;
      var recorded := Record(videoId, 20, PromptEnhanced, None, None, replies, from, s0, x,
                             RecordEnhanced, ReportEnhanced);
      if recorded.Err? { return Err(recorded.error), steps; }

      steps := from + 2;
      if replies(from + 1).fault.Some? {
        Caught(videoId, s0, x, replies, from + 1, ReportEnhanced);
        return Err(Thrown(replies(from + 1).fault.value)), steps;
      }
      Passed(videoId, s0, x, replies, from + 1, ReportEnhanced, SubmitJob);

      steps := from + 3;
      if replies(from + 2).fault.Some? {
        Caught(videoId, s0, x, replies, from + 2, SubmitJob);
        return Err(Thrown(replies(from + 2).fault.value)), steps;
      }
      var g := replies(from + 2).result;
      Passed(videoId, s0, x, replies, from + 2, SubmitJob, RecordSubmitted(g));

      var ms := g.estimatedDurationMs.GetOr(0);
      var etaSeconds := if ms != 0 then Some((ms + 999) / 1000) else None;
      steps := from + 4;
      recorded := Record(videoId, 40, JobSubmitted, Some(g.jobId), etaSeconds, replies, from + 3, s0, x,
                         RecordSubmitted(g), ReportSubmitted(g));
      if recorded.Err? { return Err(recorded.error), steps; }

      steps := from + 5;
      if replies(from + 4).fault.Some? {
        Caught(videoId, s0, x, replies, from + 4, ReportSubmitted(g));
        return Err(Thrown(replies(from + 4).fault.value)), steps;
      }
      Passed(videoId, s0, x, replies, from + 4, ReportSubmitted(g), AwaitPoll(g.jobId, g.status, 0));
      return Ok(g), steps;
    }

    /** The poll loop. It returns from inside on the first result that carries a URL. */
    method PollUntilStored(videoId: string, submitted: GenResult, uploadUrl: Url, replies: nat -> Reply,
                           from: nat, ghost s0: Solo, ghost x: Execution)
      returns (r: Result<(), Failure>, steps: nat)
      requires Valid() && At(videoId, s0, x, replies, from, AwaitPoll(submitted.jobId, submitted.status, 0))
      requires x.uploadUrl == uploadUrl
      modifies this, videos, redis
      ensures Valid() && jobStatus.OthersKept(videoId, old(videos.rows), old(redis.entries))
      ensures At(videoId, s0, x, replies, steps, match r case Err(e) => Handle(e) case Ok(_) => Returned)
    {
      hide SoloAt;
      var jobId := submitted.jobId;
      var status := submitted.status;
      var polls := 0;
      var maxPollAttempts := 30;
      steps := from;
      while status == GenProcessing && polls < maxPollAttempts
        invariant polls <= maxPollAttempts && Valid()
        invariant At(videoId, s0, x, replies, steps, AwaitPoll(jobId, status, polls))
        invariant jobStatus.OthersKept(videoId, old(videos.rows), old(redis.entries))
        decreases maxPollAttempts - polls
      {
        var polled;
        polled, steps := PollOnce(videoId, jobId, polls, replies, steps, s0, x);
        if polled.Err? { return Err(polled.error), steps; }
        var result := polled.value;
        status := result.status;
        polls := polls + 1;
        if HasUrl(result) {
          r, steps := Complete(videoId, result, polls, uploadUrl, replies, steps, s0, x);
          return;
        }
      }
      Passed(videoId, s0, x, replies, steps, AwaitPoll(jobId, status, polls), Handle(NoVideoAfter(polls)));
      return Err(NoVideoAfter(polls)), steps + 1;
    }

    /** One call to the provider and the progress it is reported with. */
    method PollOnce(videoId: string, jobId: string, polled: nat, replies: nat -> Reply, from: nat,
                    ghost s0: Solo, ghost x: Execution)
      returns (r: Result<GenResult, Failure>, steps: nat)
      requires polled < MAX_POLLS && Valid()
      requires At(videoId, s0, x, replies, from, AwaitPoll(jobId, GenProcessing, polled))
      modifies this, videos, redis
      ensures Valid() && jobStatus.OthersKept(videoId, old(videos.rows), old(redis.entries))
      ensures At(videoId, s0, x, replies, steps,
                 match r case Err(e) => Handle(e)
                         case Ok(g) => if HasUrl(g) then StoreVideo(g, polled + 1)
                                       else AwaitPoll(jobId, g.status, polled + 1))
      ensures r.Ok? ==>
        events == old(events) + [ProgressUpdated(if polled < 25 then 42 + 2 * polled else 90, polled + 1)]
    {
      hide SoloAt;
      steps := from + 1;
      if replies(from).fault.Some? {
        Caught(videoId, s0, x, replies, from, AwaitPoll(jobId, GenProcessing, polled));
        return Err(Thrown(replies(from).fault.value)), steps;
      }
      var result := replies(from).result;
      var polls := polled + 1;
      Passed(videoId, s0, x, replies, from, AwaitPoll(jobId, GenProcessing, polled), RecordPoll(jobId, result, polls));

      var progressPercent := 40 + Min(50, polls * 2);
      var estimatedSecondsRemaining := Max(0, (30 - polls) * 10);
      steps := from + 2;
      var recorded := Record(videoId, progressPercent, Rendering(polls), None, Some(estimatedSecondsRemaining),
                             replies, from + 1, s0, x,
                             RecordPoll(jobId, result, polls), ReportPoll(jobId, result, polls));
      if recorded.Err? { return Err(recorded.error), steps; }

      steps := from + 3;
      if replies(from + 2).fault.Some? {
        Caught(videoId, s0, x, replies, from + 2, ReportPoll(jobId, result, polls));
        return Err(Thrown(replies(from + 2).fault.value)), steps;
      }
      events := events + [ProgressUpdated(progressPercent, polls)];
      Stepped(s0, replies, from + 2);
      return Ok(result), steps;
    }

    /** Storing the video and completing the row; the transition's answer is not looked at. */
    method Complete(videoId: string, result: GenResult, polls: nat, uploadUrl: Url, replies: nat -> Reply,
                    from: nat, ghost s0: Solo, ghost x: Execution)
      returns (r: Result<(), Failure>, steps: nat)
      requires Valid() && HasUrl(result) && x.uploadUrl == uploadUrl
      requires At(videoId, s0, x, replies, from, StoreVideo(result, polls))
      modifies this, videos, redis
      ensures Valid() && jobStatus.OthersKept(videoId, old(videos.rows), old(redis.entries))
      ensures At(videoId, s0, x, replies, steps, match r case Err(e) => Handle(e) case Ok(_) => Returned)
      ensures r.Ok? ==>
        var url := if result.alreadyStored then result.videoUrl.value else uploadUrl;
        var row := old(jobStatus.CellOf(videoId)).row;
        && events == old(events) + [VideoCompleted(url, result.thumbnailUrl)]
        && (row.Some? && row.value.status == Processing ==>
              && videoId in videos.rows
              && videos.rows[videoId].status == Completed && videos.rows[videoId].videoUrl == Some(url))
    {
      hide SoloAt;
      steps := from + 1;
      var storedUrl := result.videoUrl.value;
      if !result.alreadyStored {
        if replies(from).fault.Some? {
          Caught(videoId, s0, x, replies, from, StoreVideo(result, polls));
          return Err(Thrown(replies(from).fault.value)), steps;
        }
        storedUrl := uploadUrl;
      }
      Passed(videoId, s0, x, replies, from, StoreVideo(result, polls), CompleteRow(storedUrl, result.thumbnailUrl));

      steps := from + 2;
      var completed := CompleteStatus(videoId, storedUrl, result.thumbnailUrl, replies, from + 1, s0, x);
      if completed.Err? { return Err(completed.error), steps; }

      steps := from + 3;
      if replies(from + 2).fault.Some? {
        Caught(videoId, s0, x, replies, from + 2, ReportDone(storedUrl, result.thumbnailUrl));
        return Err(Thrown(replies(from + 2).fault.value)), steps;
      }
      events := events + [VideoCompleted(storedUrl, result.thumbnailUrl)];
      Stepped(s0, replies, from + 2);
      return Ok(()), steps;
    }

    /** `await transitionStatus(PROCESSING, COMPLETED)`: a miss is no error. */
    method CompleteStatus(videoId: string, storedUrl: string, thumbnailUrl: Option<string>,
                          replies: nat -> Reply, from: nat, ghost s0: Solo, ghost x: Execution)
      returns (r: Result<(), Failure>)
      requires Valid() && At(videoId, s0, x, replies, from, CompleteRow(storedUrl, thumbnailUrl))
      modifies videos, redis
      ensures Valid() && jobStatus.OthersKept(videoId, old(videos.rows), old(redis.entries))
      ensures At(videoId, s0, x, replies, from + 1,
                 match r case Err(e) => Handle(e) case Ok(_) => ReportDone(storedUrl, thumbnailUrl))
      ensures r.Ok? ==>
        var row := old(jobStatus.CellOf(videoId)).row;
        row.Some? && row.value.status == Processing ==>
          && videoId in videos.rows
          && videos.rows[videoId].status == Completed && videos.rows[videoId].videoUrl == Some(storedUrl)
    {
      var metadata := Metadata(Some(100), Some(Delivered), None, None);
      var completed := jobStatus.TransitionStatus(videoId, Processing, Completed,
                                                  Extra(Some(storedUrl), thumbnailUrl, Some(metadata)),
                                                  replies(from).fault, replies(from).redisUp);
      Stepped(s0, replies, from);
      if completed.Err? { return Err(Thrown(completed.error)); }
      return Ok(());
    }
  }
}
