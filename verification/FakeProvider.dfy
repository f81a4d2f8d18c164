/** `FakeVideoProvider`: a timed map of in-flight jobs, and the poll loop against it. */
module FakeProvider {
  import opened Base
  import opened Attempt
  import opened VideoRow
  import opened Processor
  import opened PollLoop
  import opened Storage

  const POLL_INTERVAL_MS := 10_000

  datatype FakeJob = FakeJob(videoId: string, startedAt: nat, completionDelayMs: nat)

  type Jobs = map<string, FakeJob>

  // ---- Job ids --------------------------------------------------------------------------------

  function Digit(d: nat): char
    requires d < 10
  {
    ['0', '1', '2', '3', '4', '5', '6', '7', '8', '9'][d]
  }

  function Digits(n: nat): (s: string)
    ensures s != []
  {
    if n < 10 then [Digit(n)] else Digits(n / 10) + [Digit(n % 10)]
  }

  function JobIdOf(videoId: string, ms: nat): string {
    "fake-" + videoId + "-" + Digits(ms)
  }

  /** The digits read back as the number. */
  lemma {:induction false} DigitsReadBack(n: nat)
    ensures ValueOf(Digits(n)) == n
    ensures forall i :: 0 <= i < |Digits(n)| ==> '0' <= Digits(n)[i] <= '9'
  {
    var s := Digits(n);
    assert ValueOf([]) == 0;
    if n >= 10 {
      DigitsReadBack(n / 10);
    }
    assert s[..|s| - 1] == if n < 10 then [] else Digits(n / 10);
    assert s[|s| - 1] as nat - '0' as nat == n % 10;
  }

  /** The last dash of an id follows its video key. */
  lemma LastDash(v: string, ms: nat)
    ensures var id := JobIdOf(v, ms);
            |id| > 5 + |v| && id[5 + |v|] == '-' && forall i :: 5 + |v| < i < |id| ==> id[i] != '-'
  {
    DigitsReadBack(ms);
    assert JobIdOf(v, ms)[6 + |v|..] == Digits(ms);
  }

  /** Ids collide only for the same video and millisecond. */
  lemma JobIdsDistinct(v: string, ms: nat, v': string, ms': nat)
    requires JobIdOf(v, ms) == JobIdOf(v', ms')
    ensures v == v' && ms == ms'
  {
    var a, b := JobIdOf(v, ms), JobIdOf(v', ms');
    LastDash(v, ms);
    LastDash(v', ms');
    assert a[5..5 + |v|] == v && b[5..5 + |v|] == v';
    assert a[6 + |v|..] == Digits(ms) && b[6 + |v|..] == Digits(ms');
    DigitsReadBack(ms);
    DigitsReadBack(ms');
  }

  // ---- The provider ---------------------------------------------------------------------------

  function VideoUrl(videoId: string): string {
    "https://fake-cdn.example.com/videos/" + videoId + "/output.mp4"
  }

  function ThumbnailUrl(videoId: string): string {
    "https://fake-cdn.example.com/videos/" + videoId + "/thumb.jpg"
  }

  function StillProcessing(jobId: string): GenResult {
    GenResult(jobId, GenProcessing, None, None, None, false)
  }

  /** A check's answer, and whether it takes the job out of the map. */
  function Checked(job: Option<FakeJob>, jobId: string, now: int): (GenResult, bool) {
    if job.None? then (GenResult(jobId, GenFailed, None, None, None, false), false)
    else if now - job.value.startedAt < job.value.completionDelayMs then (StillProcessing(jobId), false)
    else
      var v := job.value.videoId;
      (GenResult(jobId, GenCompleted, Some(VideoUrl(v)), Some(ThumbnailUrl(v)), None, true), true)
  }

  class FakeVideoProvider {
    var jobs: Jobs
    const defaultDelayMs: nat

    constructor (delayMs: Option<nat>)
      ensures jobs == map[] && defaultDelayMs == delayMs.GetOr(5_000)
    {
      jobs, defaultDelayMs := map[], delayMs.GetOr(5_000);
    }

    /** The clock is read twice: once for the id, once for the start. */
    method Submit(videoId: string, idMs: nat, startMs: nat) returns (r: GenResult)
      modifies this
      ensures jobs == Performed(old(jobs), SubmitOp(videoId, idMs, startMs, defaultDelayMs))
      ensures jobs == old(jobs)[r.jobId := FakeJob(videoId, startMs, defaultDelayMs)]
      ensures r.jobId == "fake-" + videoId + "-" + Digits(idMs) && r.status == GenProcessing && !HasUrl(r)
      ensures r.estimatedDurationMs == Some(defaultDelayMs)
    {
      var jobId := "fake-" + videoId + "-" + Digits(idMs);
      jobs := jobs[jobId := FakeJob(videoId, startMs, defaultDelayMs)];
      r := GenResult(jobId, GenProcessing, None, None, Some(defaultDelayMs), false);
    }

    method CheckStatus(jobId: string, now: nat) returns (r: GenResult)
      modifies this
      ensures jobs == Performed(old(jobs), CheckOp(jobId, now))
      ensures r == Checked(Lookup(old(jobs), jobId), jobId, now).0
      ensures r.jobId == jobId
      ensures jobId !in old(jobs) ==> jobs == old(jobs) && r.status == GenFailed && !HasUrl(r)
      ensures jobId in old(jobs) ==>
        var job := old(jobs)[jobId];
        if now - job.startedAt < job.completionDelayMs then
          jobs == old(jobs) && r.status == GenProcessing && !HasUrl(r)
        else
          && jobs == old(jobs) - {jobId} && r.status == GenCompleted && r.alreadyStored
          && r.videoUrl == Some("https://fake-cdn.example.com/videos/" + job.videoId + "/output.mp4")
          && r.thumbnailUrl == Some("https://fake-cdn.example.com/videos/" + job.videoId + "/thumb.jpg")
    {
      if jobId !in jobs {
        return GenResult(jobId, GenFailed, None, None, None, false);
      }
      var state := jobs[jobId];
      var elapsed := now - state.startedAt;
      if elapsed < state.completionDelayMs {
        return GenResult(jobId, GenProcessing, None, None, None, false);
      }
      jobs := jobs - {jobId};
      var v := state.videoId;
      r := GenResult(jobId, GenCompleted, Some(VideoUrl(v)), Some(ThumbnailUrl(v)), None, true);
    }
  }

  // ---- Other executions' use of the shared map --------------------------------------------------

  datatype Op =
    | SubmitOp(videoId: string, idMs: nat, startMs: nat, delayMs: nat)
    | CheckOp(jobId: string, now: nat)

  function Performed(jobs: Jobs, op: Op): Jobs {
    match op
    case SubmitOp(v, idMs, startMs, delay) => jobs[JobIdOf(v, idMs) := FakeJob(v, startMs, delay)]
    case CheckOp(jobId, now) => if Checked(Lookup(jobs, jobId), jobId, now).1 then jobs - {jobId} else jobs
  }

  function PerformedAll(jobs: Jobs, ops: seq<Op>): Jobs {
    if ops == [] then jobs else Performed(PerformedAll(jobs, ops[..|ops| - 1]), ops[|ops| - 1])
  }

  /** An operation of another execution: a check of another job, or a submission of another video
      or at another millisecond. */
  ghost predicate Foreign(op: Op, videoId: string, idMs: nat) {
    match op
    case SubmitOp(v, ms, _, _) => v != videoId || ms != idMs
    case CheckOp(jobId, _) => jobId != JobIdOf(videoId, idMs)
  }

  lemma {:induction false} ForeignOpsKeep(jobs: Jobs, ops: seq<Op>, videoId: string, idMs: nat)
    requires forall op :: op in ops ==> Foreign(op, videoId, idMs)
    ensures Lookup(PerformedAll(jobs, ops), JobIdOf(videoId, idMs)) == Lookup(jobs, JobIdOf(videoId, idMs))
  {
    if ops != [] {
      var op := ops[|ops| - 1];
      ForeignOpsKeep(jobs, ops[..|ops| - 1], videoId, idMs);
      assert Foreign(op, videoId, idMs);
      if op.SubmitOp? && JobIdOf(op.videoId, op.idMs) == JobIdOf(videoId, idMs) {
        JobIdsDistinct(op.videoId, op.idMs, videoId, idMs);
      }
    }
  }

  // ---- The poll loop against the provider ---------------------------------------------------------

  /** The poll that first finds a job of this delay complete, when only the sleeps take time. */
  function ReadyAt(delayMs: nat): nat {
    Max(1, (delayMs + POLL_INTERVAL_MS - 1) / POLL_INTERVAL_MS)
  }

  /** The map our k-th poll finds: before each poll other executions have done `others(k)`. */
  function JobsAt(jobs: Jobs, jobId: string, t0: nat, others: nat -> seq<Op>, k: nat): Jobs
    requires k >= 1
  {
    PerformedAll(
      if k == 1 then jobs
      else Performed(JobsAt(jobs, jobId, t0, others, k - 1), CheckOp(jobId, t0 + POLL_INTERVAL_MS * (k - 1))),
      others(k))
  }

  ghost predicate AllForeign(others: nat -> seq<Op>, videoId: string, idMs: nat) {
    forall k, op :: op in others(k) ==> Foreign(op, videoId, idMs)
  }

  /** Up to the poll that completes it, our entry is in the map, untouched. */
  lemma {:induction false} EntryKept(jobs: Jobs, videoId: string, t0: nat, delayMs: nat, others: nat -> seq<Op>, k: nat)
    requires AllForeign(others, videoId, t0) && 1 <= k <= ReadyAt(delayMs)
    requires Lookup(jobs, JobIdOf(videoId, t0)) == Some(FakeJob(videoId, t0, delayMs))
    ensures Lookup(JobsAt(jobs, JobIdOf(videoId, t0), t0, others, k), JobIdOf(videoId, t0))
         == Some(FakeJob(videoId, t0, delayMs))
  {
    var id := JobIdOf(videoId, t0);
    if k == 1 {
      ForeignOpsKeep(jobs, others(1), videoId, t0);
    } else {
      EntryKept(jobs, videoId, t0, delayMs, others, k - 1);
      assert POLL_INTERVAL_MS * (k - 1) < delayMs;
      ForeignOpsKeep(Performed(JobsAt(jobs, id, t0, others, k - 1), CheckOp(id, t0 + POLL_INTERVAL_MS * (k - 1))),
                     others(k), videoId, t0);
    }
  }

  /** The provider's answers to our polls, one every ten seconds from the submission at `t0`. */
  ghost predicate TimedAnswers(answers: nat -> GenResult, jobs: Jobs, jobId: string, t0: nat, others: nat -> seq<Op>) {
    forall k :: k >= 1 ==>
      answers(k) == Checked(Lookup(JobsAt(jobs, jobId, t0, others, k), jobId), jobId, t0 + POLL_INTERVAL_MS * k).0
  }

  lemma AnswerAt(jobs: Jobs, videoId: string, t0: nat, delayMs: nat, others: nat -> seq<Op>,
                 answers: nat -> GenResult, k: nat)
    requires AllForeign(others, videoId, t0) && 1 <= k <= ReadyAt(delayMs)
    requires Lookup(jobs, JobIdOf(videoId, t0)) == Some(FakeJob(videoId, t0, delayMs))
    requires TimedAnswers(answers, jobs, JobIdOf(videoId, t0), t0, others)
    ensures k < ReadyAt(delayMs) ==> answers(k) == StillProcessing(JobIdOf(videoId, t0))
    ensures k == ReadyAt(delayMs) ==>
      && answers(k).videoUrl == Some(VideoUrl(videoId)) && answers(k).thumbnailUrl == Some(ThumbnailUrl(videoId))
      && answers(k).alreadyStored
    ensures k == ReadyAt(delayMs) ==>
      var found := JobsAt(jobs, JobIdOf(videoId, t0), t0, others, k);
      Performed(found, CheckOp(JobIdOf(videoId, t0), t0 + POLL_INTERVAL_MS * k)) == found - {JobIdOf(videoId, t0)}
  {
    EntryKept(jobs, videoId, t0, delayMs, others, k);
  }

  /** With delay D, whatever other executions do to the shared map: if D is at most five minutes the
      handler goes on to store the video's URL at poll max(1, ceil(D / 10 s)), and its entry is gone
      after that poll; otherwise it throws after exactly 30 polls. */
  lemma PollLoopTimed(s: Solo, replies: nat -> Reply, answers: nat -> GenResult,
                      jobs: Jobs, videoId: string, t0: nat, delayMs: nat, others: nat -> seq<Op>)
    requires AtLoopHead(s, GenProcessing) && s.x.pc.jobId == JobIdOf(videoId, t0)
    requires Answering(replies, answers) && TimedAnswers(answers, jobs, s.x.pc.jobId, t0, others)
    requires AllForeign(others, videoId, t0)
    requires Lookup(jobs, JobIdOf(videoId, t0)) == Some(FakeJob(videoId, t0, delayMs))
    ensures delayMs <= 300_000 ==>
      var k := ReadyAt(delayMs);
      && SoloAt(s, replies, 3 * k).x.pc == StoreVideo(answers(k), k)
      && answers(k).alreadyStored
      && answers(k).videoUrl == Some("https://fake-cdn.example.com/videos/" + videoId + "/output.mp4")
      && answers(k).thumbnailUrl == Some("https://fake-cdn.example.com/videos/" + videoId + "/thumb.jpg")
      && (var found := JobsAt(jobs, JobIdOf(videoId, t0), t0, others, k);
          Performed(found, CheckOp(JobIdOf(videoId, t0), t0 + POLL_INTERVAL_MS * k)) == found - {JobIdOf(videoId, t0)})
    ensures delayMs > 300_000 ==> SoloAt(s, replies, 3 * MAX_POLLS + 1).x.pc == Handle(NoVideoAfter(MAX_POLLS))
    ensures (exists k :: Yields(GenProcessing, answers, k)) <==> delayMs <= 300_000
  {
    var ready := ReadyAt(delayMs);
    forall k | 1 <= k < ready
      ensures answers(k).status == GenProcessing && !HasUrl(answers(k))
    {
      AnswerAt(jobs, videoId, t0, delayMs, others, answers, k);
    }
    AnswerAt(jobs, videoId, t0, delayMs, others, answers, ready);
    OneEnd(GenProcessing, answers);
    if delayMs <= 300_000 {
      assert Yields(GenProcessing, answers, ready);
      PollLoopExact(s, GenProcessing, replies, answers, ready);
    } else {
      assert GivesUp(GenProcessing, answers, MAX_POLLS);
      PollLoopExact(s, GenProcessing, replies, answers, MAX_POLLS);
    }
  }
}
