/** One video's whole life: its row, queue jobs, executions, DLQ records and cache, when the queue
    runs each job in at most one worker at a time and a retry or a creation is one step. */
module Pipeline {
  import opened Base
  import opened VideoRow
  import opened Attempt
  import opened JobLife
  import opened Dlq
  import opened Concurrent
  import JobStatus

  /** A FAILED event on its way into the DLQ; `seen` is the `queueJobId` once it has been read. */
  datatype Capture = Capture(error: Failure, attemptsMade: nat, seen: Option<Option<JobId>>)

  /** `lost` counts failures that left no trace in the DLQ because a write of theirs threw. */
  datatype State = State(videoId: string, row: Row, entry: Option<Snapshot>, writes: seq<Snapshot>,
                         readers: seq<Snapshot>, jobs: seq<Job>, captures: seq<Capture>,
                         records: seq<FailedJob>, lost: nat)

  datatype Move =
    | Pickup(j: nat, uploadUrl: Url)
    | Work(j: nat, reply: Reply)
    | ReadCapture(i: nat, ok: bool)
    | SaveCapture(i: nat, ok: bool)
    | Retry(i: nat, newId: JobId, enqueued: bool)
    | Cache(action: Action)

  /** The next state; a move that is not possible changes nothing. */
  function Apply(s: State, m: Move): State {
    match m
    case Pickup(j, url) =>
      if j < |s.jobs| && s.jobs[j].phase.Waiting? then s.(jobs := s.jobs[j := PickedUp(s.jobs[j], url)]) else s
    case Work(j, reply) =>
      if j < |s.jobs| && s.jobs[j].phase.Running? then
        Worked(s, j, Step(s.jobs[j].phase.x, Some(s.row), reply), reply.redisUp)
      else s
    case ReadCapture(i, ok) =>
      if i >= |s.captures| || s.captures[i].seen.Some? then s
      else if ok then s.(captures := s.captures[i := s.captures[i].(seen := Some(s.row.queueJobId))])
      else s.(captures := Without(s.captures, i), lost := s.lost + 1)
    case SaveCapture(i, ok) =>
      if i >= |s.captures| || s.captures[i].seen.None? then s
      else if ok then
        var c := s.captures[i];
        s.(captures := Without(s.captures, i),
           records := s.records + [Captured(s.videoId, c.seen.value, c.error, c.attemptsMade)])
      else s.(captures := Without(s.captures, i), lost := s.lost + 1)
    case Retry(i, newId, enqueued) =>
      if i >= |s.records| || s.records[i].retried then s
      else if !enqueued then s.(row := JobStatus.Reset(s.row, None))
      else if exists j :: 0 <= j < |s.jobs| && s.jobs[j].id == newId then s
      else
        s.(row := JobStatus.Reset(s.row, Some(newId)),
           jobs := s.jobs + [NewJob(newId, Some(RETRY_ATTEMPTS))],
           records := s.records[i := Retried(s.records[i], newId)])
    case Cache(a) =>
      if a.LandWrite? || a.LoadStatus? || a.Backfill? || a.Expire? then
        var w := Next(World(Some(s.row), s.entry, s.writes, s.readers, map[]), a);
        s.(entry := w.entry, writes := w.writes, readers := w.readers)
      else s
  }

  /** A step of job `j`'s execution: a FAILED event starts its capture; a job given up without one is
      lost. */
  function Worked(s: State, j: nat, e: Effect, redisUp: bool): State
    requires j < |s.jobs| && s.jobs[j].phase.Running? && e.row.Some?
  {
    var job := Stepped(s.jobs[j], e);
    var failed := FailedEvent(e);
    s.(row := e.row.value,
       entry := if e.write.Evict? then JobStatus.Land(s.entry, e.write, redisUp) else s.entry,
       writes := if e.write.Store? then s.writes + [e.write.snapshot] else s.writes,
       jobs := s.jobs[j := job],
       captures := if failed then s.captures + [Capture(e.event.value.error, e.event.value.attemptsMade, None)]
                   else s.captures,
       lost := if job.phase.Exhausted? && !failed then s.lost + 1 else s.lost)
  }

  /** What `createAndQueue` leaves: a PENDING row linked to a waiting job. */
  ghost predicate Created(s: State) {
    exists id: JobId, attempts: Option<nat> ::
      s == State(s.videoId, Row(Pending, None, None, None, EMPTY_METADATA, Some(id)), None, [], [],
                 [NewJob(id, attempts)], [], [], 0)
  }

  ghost predicate IsLife(ss: seq<State>, ms: seq<Move>) {
    && |ss| == |ms| + 1
    && Created(ss[0])
    && forall i :: 0 <= i < |ms| ==> ss[i + 1] == Apply(ss[i], ms[i])
  }

  // ---- The invariant ------------------------------------------------------------------------

  function Last(s: State): Job
    requires |s.jobs| > 0
  {
    s.jobs[|s.jobs| - 1]
  }

  /** A live job's place and the row agree. */
  ghost predicate RowFits(job: Job, row: Row) {
    match job.phase
    case Waiting => BeforeClaim(job, row)
    case Running(x) =>
      (match x.pc
       case LoadVideo => BeforeClaim(job, row)
       case ClaimRow(seen) => BeforeClaim(job, row) && seen == row.status
       case Handle(_) => row.status in {Pending, Processing, Completed}
       case EvictStatus(error) => row.status == Failed && row.errorMessage == Some(error)
       case ReportDone(url, _) => row.status == Completed && row.videoUrl == Some(url)
       case _ => row.status == Processing)
    case _ => false
  }

  ghost predicate BeforeClaim(job: Job, row: Row) {
    && row.status in {Pending, Processing, Completed}
    && (job.attemptsMade == 0 ==> row.status == Pending)
  }

  /** Every job but the last is exhausted, and was handed over to the next by its own record. */
  ghost predicate Custody(s: State) {
    var n := |s.jobs|;
    && n > 0
    && n - 1 <= |s.records| <= n
    && (forall j :: 0 <= j < n - 1 ==> s.jobs[j].phase.Exhausted?)
    && (forall j :: 0 <= j < n - 1 ==> Handed(s.records[j], s.jobs[j], s.jobs[j + 1]))
  }

  ghost predicate Handed(r: FailedJob, from: Job, to: Job) {
    && r.retried && r.queueJobId == Some(from.id) && r.retryJobId == Some(to.id)
    && r.attemptsMade == from.attemptsMade
  }

  /** Where the last job's work stands. */
  ghost predicate Tail(s: State)
    requires Custody(s)
  {
    var last := Last(s);
    if |s.records| == |s.jobs| then
      last.phase.Exhausted? && s.captures == [] && s.lost == 0 && OpenFor(s.records[|s.jobs| - 1], last, s.row)
    else if last.phase.Exhausted? then
      (|s.captures| == 1 && s.lost == 0 && CaptureFor(s.captures[0], last, s.row)) || (s.captures == [] && s.lost == 1)
    else
      s.captures == [] && s.lost == 0 && s.row.queueJobId == Some(last.id) &&
      if last.phase.Ended? then s.row.status == Completed else RowFits(last, s.row)
  }

  ghost predicate CaptureFor(c: Capture, job: Job, row: Row) {
    && row.status == Failed && row.errorMessage == Some(c.error) && row.queueJobId == Some(job.id)
    && c.attemptsMade == job.attemptsMade
    && (c.seen.Some? ==> c.seen.value == Some(job.id))
  }

  /** An open record of `job`; the row shows its failure, unless a retry's enqueue has thrown since. */
  ghost predicate OpenFor(r: FailedJob, job: Job, row: Row) {
    && !r.retried && r.retryJobId.None? && r.queueJobId == Some(job.id) && r.attemptsMade == job.attemptsMade
    && (|| (row.status == Failed && row.errorMessage == Some(r.errorMessage) && row.queueJobId == Some(job.id))
        || (row.status == Pending && row.queueJobId.None?))
  }

  ghost predicate Inv(s: State) {
    && Coherent(s.row)
    && (forall j :: 0 <= j < |s.jobs| ==> JobOk(s.jobs[j]) && LogFits(s.jobs[j]))
    && (forall j, k :: 0 <= j < k < |s.jobs| ==> s.jobs[j].id != s.jobs[k].id)
    && Custody(s) && Tail(s)
  }

  /** The running job is the last one, and in good order with its row. */
  lemma RunningIsLast(s: State, j: nat)
    requires Inv(s) && j < |s.jobs| && s.jobs[j].phase.Running?
    ensures j == |s.jobs| - 1 == |s.records| && s.captures == [] && s.lost == 0
    ensures JobOk(s.jobs[j]) && LogFits(s.jobs[j]) && RowFits(s.jobs[j], s.row) && Coherent(s.row)
    ensures s.row.queueJobId == Some(s.jobs[j].id)
  {
    assert j == |s.jobs| - 1;
  }

  /** One step of a job that goes on, on its own row. */
  lemma StepFits(job: Job, row: Row, r: Reply)
    requires JobOk(job) && job.phase.Running? && RowFits(job, row)
    ensures var e := Step(job.phase.x, Some(row), r);
            var job' := Stepped(job, e);
            Live(job') ==> RowFits(job', e.row.value) && !FailedEvent(e)
  {
    FinalMeansGivingUp(job);
  }

  lemma StepKeepsLink(x: Execution, row: Row, r: Reply)
    ensures Step(x, Some(row), r).row.value.queueJobId == row.queueJobId
  {
  }

  /** One step that ends a job, on its own row. */
  lemma StepEndFits(job: Job, row: Row, r: Reply)
    requires JobOk(job) && job.phase.Running? && RowFits(job, row)
    ensures var e := Step(job.phase.x, Some(row), r);
            var job' := Stepped(job, e);
            && (job'.phase.Ended? ==> e.row.value.status == Completed && !FailedEvent(e))
            && (FailedEvent(e) ==>
                  && e.row.value.status == Failed && e.row.value.errorMessage == Some(e.event.value.error)
                  && e.event.value.attemptsMade == job'.attemptsMade)
  {
    FinalMeansGivingUp(job);
  }

  predicate FailedEvent(e: Effect) {
    e.event.Some? && e.event.value.VideoFailed?
  }

  /** A step leaves the earlier jobs and their records alone, and its own job in its place. */
  lemma WorkCustody(s: State, e: Effect, redisUp: bool)
    requires Custody(s) && Last(s).phase.Running? && e.row.Some?
    ensures var s' := Worked(s, |s.jobs| - 1, e, redisUp);
            && Custody(s') && s'.records == s.records && |s'.jobs| == |s.jobs|
            && Last(s') == Stepped(Last(s), e) && Last(s').id == Last(s).id
            && forall k :: 0 <= k < |s.jobs| - 1 ==> s'.jobs[k] == s.jobs[k]
  {
    var s' := Worked(s, |s.jobs| - 1, e, redisUp);
    assert forall k :: 0 <= k < |s.jobs| - 1 ==> s'.jobs[k] == s.jobs[k];
    assert forall k :: 0 <= k < |s.jobs| - 1 ==> Handed(s.records[k], s.jobs[k], s.jobs[k + 1]);
    assert Last(s').id == Last(s).id;
  }

  lemma WorkInv(s: State, j: nat, reply: Reply)
    requires Inv(s) && j < |s.jobs| && s.jobs[j].phase.Running?
    ensures Inv(Apply(s, Work(j, reply)))
  {
    hide Step, Custody, RowFits, JobOk, LogFits;
    RunningIsLast(s, j);
    var job := s.jobs[j];
    StepFits(job, s.row, reply);
    StepEndFits(job, s.row, reply);
    StepKeepsLink(job.phase.x, s.row, reply);
    StepOk(job, Some(s.row), reply);
    StepLogFits(job, Some(s.row), reply);
    LiveXOk(job);
    StepCoherent(job.phase.x, Some(s.row), reply);
    WorkCustody(s, Step(job.phase.x, Some(s.row), reply), reply.redisUp);
  }

  lemma LiveXOk(job: Job)
    requires JobOk(job) && job.phase.Running?
    ensures PcOk(job.phase.x.pc)
  {
  }

  lemma NewJobOk(id: JobId, attempts: Option<nat>)
    ensures JobOk(NewJob(id, attempts)) && LogFits(NewJob(id, attempts))
  {
  }

  lemma RequeuedInv(s: State, newId: JobId)
    requires Inv(s) && |s.records| == |s.jobs|
    requires forall j :: 0 <= j < |s.jobs| ==> s.jobs[j].id != newId
    ensures Inv(Apply(s, Retry(|s.jobs| - 1, newId, true)))
  {
    var n := |s.jobs|;
    var s' := Apply(s, Retry(n - 1, newId, true));
    NewJobOk(newId, Some(RETRY_ATTEMPTS));
    assert forall k :: 0 <= k < n ==> s'.jobs[k] == s.jobs[k];
    assert s'.jobs[n] == NewJob(newId, Some(RETRY_ATTEMPTS));
    assert forall k :: 0 <= k < n - 1 ==> s'.records[k] == s.records[k];
    assert Handed(s'.records[n - 1], s'.jobs[n - 1], s'.jobs[n]);
    assert Custody(s') && Tail(s');
  }

  lemma RetryInv(s: State, i: nat, newId: JobId, enqueued: bool)
    requires Inv(s)
    ensures Inv(Apply(s, Retry(i, newId, enqueued)))
  {
    var s' := Apply(s, Retry(i, newId, enqueued));
    var n := |s.jobs|;
    if i < n - 1 {
      assert Handed(s.records[i], s.jobs[i], s.jobs[i + 1]);
    } else if s' != s && !enqueued {
      assert Custody(s');
    } else if s' != s {
      RequeuedInv(s, newId);
    }
  }

  lemma PickupInv(s: State, j: nat, url: Url)
    requires Inv(s)
    ensures Inv(Apply(s, Pickup(j, url)))
  {
    if j < |s.jobs| && s.jobs[j].phase.Waiting? {
      var s' := Apply(s, Pickup(j, url));
      PickupOk(s.jobs[j], url);
      assert j == |s.jobs| - 1;
      assert forall k :: 0 <= k < |s.jobs| - 1 ==> s'.jobs[k] == s.jobs[k];
      assert Custody(s');
    }
  }

  lemma CaptureInv(s: State, m: Move)
    requires Inv(s) && (m.ReadCapture? || m.SaveCapture?)
    ensures Inv(Apply(s, m))
  {
    var s' := Apply(s, m);
    assert s'.jobs == s.jobs;
    assert forall k :: 0 <= k < |s.records| ==> s'.records[k] == s.records[k];
    assert Custody(s');
  }

  lemma ApplyInv(s: State, m: Move)
    requires Inv(s)
    ensures Inv(Apply(s, m))
  {
    match m
    case Pickup(j, url) => PickupInv(s, j, url);
    case Work(j, reply) =>
      if j < |s.jobs| && s.jobs[j].phase.Running? {
        WorkInv(s, j, reply);
      }
    case Retry(i, newId, enqueued) => RetryInv(s, i, newId, enqueued);
    case ReadCapture(_, _) => CaptureInv(s, m);
    case SaveCapture(_, _) => CaptureInv(s, m);
    case Cache(_) => assert Custody(Apply(s, m));
  }

  lemma {:induction false} AlwaysInv(ss: seq<State>, ms: seq<Move>, i: nat)
    requires IsLife(ss, ms) && i < |ss|
    ensures Inv(ss[i])
  {
    if i > 0 {
      AlwaysInv(ss, ms, i - 1);
      ApplyInv(ss[i - 1], ms[i - 1]);
    }
  }
}
