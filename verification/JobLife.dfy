/** One queue job through all its attempts: what the queue adds around an execution, the bound on
    the work it does, and the events it emits. */
module JobLife {
  import opened Base
  import opened VideoRow
  import opened Attempt
  import opened EventGrammar

  datatype Phase = Waiting | Running(x: Execution) | Ended | Exhausted

  /** A job: its `opts.attempts` and `attemptsMade`, and, as history, the executions started, the
      provider polls made, the steps taken and the events emitted. */
  datatype Job = Job(id: JobId, attempts: Option<nat>, attemptsMade: nat, phase: Phase,
                     started: nat, polls: nat, steps: nat, log: seq<Event>)

  function NewJob(id: JobId, attempts: Option<nat>): Job {
    Job(id, attempts, 0, Waiting, 0, 0, 0, [])
  }

  predicate Live(job: Job) {
    job.phase.Waiting? || job.phase.Running?
  }

  /** The queue's own rule after a failed attempt: run again while attempts remain. */
  predicate QueueRetries(job: Job) {
    job.attempts.Some? && job.attemptsMade + 1 < job.attempts.value
  }

  /** max(1, N): absent or zero `attempts` still means one attempt. */
  function Limit(job: Job): nat {
    Max(1, job.attempts.GetOr(1))
  }

  function PickedUp(job: Job, uploadUrl: Url): Job {
    job.(phase := Running(Begin(job.attemptsMade, job.attempts, uploadUrl)),
         started := job.started + 1, steps := job.steps + 1)
  }

  predicate Polling(pc: Pc) {
    pc.AwaitPoll? && pc.status == GenProcessing && pc.polls < MAX_POLLS
  }

  /** The job after its execution's step `e`; ending an execution settles it with the queue. */
  function Stepped(job: Job, e: Effect): Job
    requires job.phase.Running?
  {
    var x := job.phase.x;
    var threw := e.pc.Threw?;
    job.(
      phase := if e.pc.Returned? then Ended
               else if threw then (if QueueRetries(job) then Waiting else Exhausted)
               else Running(x.(pc := e.pc)),
      attemptsMade := if threw then job.attemptsMade + 1 else job.attemptsMade,
      polls := if Polling(x.pc) then job.polls + 1 else job.polls,
      steps := job.steps + 1,
      log := if e.event.Some? then job.log + [e.event.value] else job.log)
  }

  /** The processor's idea of a final attempt is the queue's idea of giving up, for every N. */
  lemma FinalMeansGivingUp(job: Job)
    ensures IsFinalAttempt(job.attemptsMade, job.attempts) <==> !QueueRetries(job)
    ensures job.attemptsMade < Limit(job) ==> (QueueRetries(job) <==> job.attemptsMade + 1 < Limit(job))
  {
  }

  // ---- Termination ------------------------------------------------------------------------

  const STEPS_PER_ATTEMPT := 105

  /** Steps an execution can still take from `pc`. */
  ghost function Remaining(pc: Pc): int {
    match pc
    case LoadVideo => 104
    case ClaimRow(_) => 103
    case ReportStart => 102
    case RecordEnhanced => 101
    case ReportEnhanced => 100
    case SubmitJob => 99
    case RecordSubmitted(_) => 98
    case ReportSubmitted(_) => 97
    case AwaitPoll(_, _, polls) => 6 + 3 * (MAX_POLLS - polls)
    case RecordPoll(_, _, polls) => 8 + 3 * (MAX_POLLS - polls)
    case ReportPoll(_, _, polls) => 7 + 3 * (MAX_POLLS - polls)
    case StoreVideo(_, _) => 5
    case CompleteRow(_, _) => 4
    case ReportDone(_, _) => 3
    case Handle(_) => 2
    case EvictStatus(_) => 1
    case Returned | Threw(_) => 0
  }

  /** Steps the job can still take: attempts left first, then the place in the running one. */
  ghost function WorkLeft(job: Job): int {
    match job.phase
    case Waiting => STEPS_PER_ATTEMPT * (Limit(job) - job.attemptsMade)
    case Running(x) => STEPS_PER_ATTEMPT * (Limit(job) - job.attemptsMade - 1) + Remaining(x.pc)
    case Ended | Exhausted => 0
  }

  /** Polls the running execution may have made by `pc`. */
  ghost function PollsBy(pc: Pc): nat {
    match pc
    case AwaitPoll(_, _, polls) => polls
    case RecordPoll(_, _, polls) => polls
    case ReportPoll(_, _, polls) => polls
    case StoreVideo(_, polls) => polls
    case CompleteRow(_, _) | ReportDone(_, _) | Handle(_) | EvictStatus(_) | Returned | Threw(_) => MAX_POLLS
    case _ => 0
  }

  ghost predicate JobOk(job: Job) {
    && 0 <= WorkLeft(job)
    && job.steps + WorkLeft(job) <= STEPS_PER_ATTEMPT * Limit(job)
    && match job.phase
       case Waiting =>
         job.attemptsMade < Limit(job) && job.started == job.attemptsMade && job.polls <= MAX_POLLS * job.attemptsMade
       case Running(x) =>
         && job.attemptsMade < Limit(job) && job.started == job.attemptsMade + 1
         && job.polls <= MAX_POLLS * job.attemptsMade + PollsBy(x.pc)
         && x == Begin(job.attemptsMade, job.attempts, x.uploadUrl).(pc := x.pc)
         && PcOk(x.pc) && !Finished(x.pc) && (x.pc.EvictStatus? ==> x.isFinal)
       case Ended => job.started <= Limit(job) && job.polls <= MAX_POLLS * Limit(job)
       case Exhausted => job.started == job.attemptsMade == Limit(job) && job.polls <= MAX_POLLS * Limit(job)
  }

  lemma PickupOk(job: Job, uploadUrl: Url)
    requires JobOk(job) && job.phase.Waiting?
    ensures JobOk(PickedUp(job, uploadUrl)) && WorkLeft(PickedUp(job, uploadUrl)) < WorkLeft(job)
  {
  }

  /** Where a step of a sound execution can lead. */
  lemma StepRemaining(x: Execution, row: Option<Row>, r: Reply)
    requires PcOk(x.pc) && !Finished(x.pc)
    ensures 0 <= Remaining(Step(x, row, r).pc) < Remaining(x.pc) < STEPS_PER_ATTEMPT
    ensures PollsBy(Step(x, row, r).pc) >= PollsBy(x.pc) + (if Polling(x.pc) then 1 else 0)
    ensures PollsBy(Step(x, row, r).pc) <= MAX_POLLS
  {
  }

  /** A step keeps the job's bounds and strictly shrinks the work left. */
  lemma StepOk(job: Job, row: Option<Row>, r: Reply)
    requires JobOk(job) && job.phase.Running? && CoherentRow(row)
    ensures var job' := Stepped(job, Step(job.phase.x, row, r)); JobOk(job') && WorkLeft(job') < WorkLeft(job)
  {
    StepCoherent(job.phase.x, row, r);
    StepRemaining(job.phase.x, row, r);
    FinalMeansGivingUp(job);
    var e := Step(job.phase.x, row, r);
    var job' := Stepped(job, e);
    if e.pc.Threw? && job'.phase.Waiting? {
      assert job'.attemptsMade + 1 <= Limit(job');
    }
  }

  /** At most max(1,N) attempts, 30 * max(1,N) polls and 105 * max(1,N) steps. */
  lemma Bounds(job: Job)
    requires JobOk(job)
    ensures job.started <= Limit(job)
    ensures job.polls <= MAX_POLLS * Limit(job)
    ensures job.steps <= STEPS_PER_ATTEMPT * Limit(job)
  {
    if job.phase.Running? {
      assert job.polls <= MAX_POLLS * (job.attemptsMade + 1) <= MAX_POLLS * Limit(job);
    }
  }

  /** Of all the steps of an execution exactly one makes a row FAILED: the catch block of the attempt the queue
      gives up on, when that write does not throw. Else the catch block leaves the row alone. */
  lemma MarksFailedExactly(job: Job, row: Option<Row>, r: Reply)
    requires JobOk(job) && job.phase.Running?
    ensures var pc, e := job.phase.x.pc, Step(job.phase.x, row, r);
            && (row.Some? && row.value.status != Failed ==>
                  (e.row.value.status == Failed <==> pc.Handle? && !QueueRetries(job) && r.fault.None?))
            && (pc.Handle? && QueueRetries(job) ==> e.row == row && Stepped(job, e).phase.Waiting?)
            && (pc.Handle? && !QueueRetries(job) && r.fault.Some? ==>
                  e.row == row && Stepped(job, e).phase.Exhausted?)
            && (pc.Handle? && !QueueRetries(job) && r.fault.None? ==> e.pc == EvictStatus(pc.error))
  {
    FinalMeansGivingUp(job);
  }

  // ---- The event log -----------------------------------------------------------------------

  /** The log read so far fits the place the job is at. */
  ghost predicate LogFits(job: Job) {
    var s := ReadAll(job.log);
    match job.phase
    case Waiting => s.Open? && s.attempt <= job.attemptsMade
    case Running(x) => s.Open? && ShapeFits(s, x.pc, x.number)
    case Ended => s.Open? || s == Closed(false)
    case Exhausted => s.Open? || s == Closed(true)
  }

  ghost predicate ShapeFits(s: Shape, pc: Pc, number: nat)
    requires s.Open?
  {
    match pc
    case LoadVideo | ClaimRow(_) | ReportStart => s.attempt < number
    case AwaitPoll(_, _, polls) => s == Open(number, polls)
    case RecordPoll(_, _, polls) => s.attempt == number && s.polls + 1 == polls
    case ReportPoll(_, _, polls) => s.attempt == number && s.polls + 1 == polls
    case StoreVideo(_, polls) => s == Open(number, polls)
    case CompleteRow(_, _) | ReportDone(_, _) => s.attempt == number && s.polls > 0
    case Handle(_) | EvictStatus(_) | Returned | Threw(_) => s.attempt <= number
    case _ => s == Open(number, 0)
  }

  /** One step, on the shape of the log: only COMPLETED and FAILED events close it, and each does so
      on the way out. */
  lemma EventFits(s: Shape, x: Execution, row: Option<Row>, r: Reply)
    requires s.Open? && ShapeFits(s, x.pc, x.number) && PcOk(x.pc) && !Finished(x.pc) && x.number > 0
    ensures var e := Step(x, row, r);
            var s' := if e.event.Some? then Read(s, e.event.value) else s;
            && (!Finished(e.pc) ==> s'.Open? && ShapeFits(s', e.pc, x.number))
            && (e.pc.Returned? ==> s' == s || s' == Closed(false))
            && (e.pc.Threw? ==> (s' == s && s.attempt <= x.number) || (s' == Closed(true) && x.pc.EvictStatus?))
  {
  }

  lemma StepLogFits(job: Job, row: Option<Row>, r: Reply)
    requires JobOk(job) && job.phase.Running? && LogFits(job)
    ensures LogFits(Stepped(job, Step(job.phase.x, row, r)))
  {
    EventFits(ReadAll(job.log), job.phase.x, row, r);
    FinalMeansGivingUp(job);
    Logged(job.log, Step(job.phase.x, row, r).event);
  }

  lemma Logged(log: seq<Event>, event: Option<Event>)
    ensures event.Some? ==> ReadAll(log + [event.value]) == Read(ReadAll(log), event.value)
  {
    if event.Some? {
      ReadOne(log, event.value);
    }
  }
}
