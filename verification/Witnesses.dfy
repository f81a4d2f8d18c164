/** Lives and runs that exhibit what the exact conditions of modules Guarantees and Duplicates allow for: a
    COMPLETED row overwritten, a job that ends unannounced, a failure lost, an open DLQ record over a PENDING
    row, a COMPLETED event that is not true. */
module Witnesses {
  import opened Base
  import opened VideoRow
  import opened Attempt
  import opened JobLife
  import opened Pipeline
  import Concurrent
  import Duplicates
  import Guarantees

  // ---- Playing a life with one job ----------------------------------------------------------

  /** A life so far: one job, nothing captured, recorded or lost. */
  ghost predicate Shows(ss: seq<State>, ms: seq<Move>, row: Row, job: Job) {
    && IsLife(ss, ms)
    && var s := ss[|ms|];
       s.row == row && s.jobs == [job] && s.captures == [] && s.records == [] && s.lost == 0
  }

  const FIRST_ROW := Row(Pending, None, None, None, EMPTY_METADATA, Some(7))

  lemma Start(attempts: Option<nat>) returns (ss: seq<State>, ms: seq<Move>, row: Row, job: Job)
    ensures Shows(ss, ms, row, job) && row == FIRST_ROW && job == NewJob(7, attempts)
  {
    ss, ms, row, job := [State("v", FIRST_ROW, None, [], [], [NewJob(7, attempts)], [], [], 0)], [], FIRST_ROW,
      NewJob(7, attempts);
  }

  lemma Picked(ss: seq<State>, ms: seq<Move>, row: Row, job: Job)
    returns (ss': seq<State>, ms': seq<Move>, job': Job)
    requires Shows(ss, ms, row, job) && job.phase.Waiting?
    ensures Shows(ss', ms', row, job') && job' == PickedUp(job, "u") && |ms'| == |ms| + 1
  {
    job' := PickedUp(job, "u");
    ss', ms' := ss + [Apply(ss[|ms|], Pickup(0, "u"))], ms + [Pickup(0, "u")];
  }

  /** One step of the job's execution, answered by `r`; the failure it may end in is lost or captured
      only when the queue gives the job up. */
  lemma Turn(ss: seq<State>, ms: seq<Move>, row: Row, job: Job, r: Reply)
    returns (ss': seq<State>, ms': seq<Move>, row': Row, job': Job)
    requires Shows(ss, ms, row, job) && job.phase.Running? && !job.phase.x.pc.EvictStatus?
    ensures var e := Step(job.phase.x, Some(row), r); row' == e.row.value && job' == Stepped(job, e)
    ensures ms' == ms + [Work(0, r)] && |ss'| == |ss| + 1 && ss <= ss' && IsLife(ss', ms')
    ensures ss'[|ms'|].row == row' && ss'[|ms'|].jobs == [job']
    ensures ss'[|ms'|].lost == if job'.phase.Exhausted? then 1 else 0
    ensures !job'.phase.Exhausted? ==> Shows(ss', ms', row', job')
  {
    var e := Step(job.phase.x, Some(row), r);
    assert e.event.Some? ==> !e.event.value.VideoFailed?;
    row', job' := e.row.value, Stepped(job, e);
    ss', ms' := ss + [Apply(ss[|ms|], Work(0, r))], ms + [Work(0, r)];
  }

  // ---- The replies and the stages ------------------------------------------------------------

  const NOTHING := GenResult("g", GenProcessing, None, None, None, false)
  const FINE := Reply(None, NOTHING, true)
  const FAULT := Reply(Some("down"), NOTHING, true)

  /** The provider is done, and has stored the video itself. */
  const READY := GenResult("g", GenCompleted, Some("u"), None, None, true)
  const DONE := Reply(None, READY, true)

  function At(attempts: Option<nat>, made: nat, pc: Pc): Phase {
    Running(Begin(made, attempts, "u").(pc := pc))
  }

  ghost predicate Sitting(job: Job, attempts: Option<nat>, made: nat, pc: Pc, log: seq<Event>) {
    job.attempts == attempts && job.attemptsMade == made && job.phase == At(attempts, made, pc) && job.log == log
  }

  /** A first attempt up to its claim. */
  lemma UpToClaim(attempts: Option<nat>) returns (ss: seq<State>, ms: seq<Move>, row: Row, job: Job)
    ensures Shows(ss, ms, row, job) && row.status == Processing
    ensures Sitting(job, attempts, 0, ReportStart, [])
  {
    hide Shows;
    ss, ms, row, job := Start(attempts);
    ss, ms, job := Picked(ss, ms, row, job);
    ss, ms, row, job := Turn(ss, ms, row, job, FINE);
    assert Sitting(job, attempts, 0, ClaimRow(Pending), []) && row == FIRST_ROW;
    ss, ms, row, job := Turn(ss, ms, row, job, FINE);
  }

  /** ... up to its submission. */
  lemma UpToSubmission(attempts: Option<nat>) returns (ss: seq<State>, ms: seq<Move>, row: Row, job: Job)
    ensures Shows(ss, ms, row, job) && row.status == Processing
    ensures Sitting(job, attempts, 0, SubmitJob, [ProcessingStarted(1)])
  {
    hide Shows;
    ss, ms, row, job := UpToClaim(attempts);
    ss, ms, row, job := Turn(ss, ms, row, job, FINE);
    assert Sitting(job, attempts, 0, RecordEnhanced, [ProcessingStarted(1)]) && row.status == Processing;
    ss, ms, row, job := Turn(ss, ms, row, job, FINE);
    assert Sitting(job, attempts, 0, ReportEnhanced, [ProcessingStarted(1)]) && row.status == Processing;
    ss, ms, row, job := Turn(ss, ms, row, job, FINE);
  }

  /** ... up to its first poll. */
  lemma UpToPolling(attempts: Option<nat>) returns (ss: seq<State>, ms: seq<Move>, row: Row, job: Job)
    ensures Shows(ss, ms, row, job) && row.status == Processing
    ensures Sitting(job, attempts, 0, AwaitPoll("g", GenProcessing, 0), [ProcessingStarted(1)])
  {
    hide Shows;
    ss, ms, row, job := UpToSubmission(attempts);
    ss, ms, row, job := Turn(ss, ms, row, job, FINE);
    assert Sitting(job, attempts, 0, RecordSubmitted(NOTHING), [ProcessingStarted(1)]) && row.status == Processing;
    ss, ms, row, job := Turn(ss, ms, row, job, FINE);
    assert Sitting(job, attempts, 0, ReportSubmitted(NOTHING), [ProcessingStarted(1)]) && row.status == Processing;
    ss, ms, row, job := Turn(ss, ms, row, job, FINE);
  }

  const LOG := [ProcessingStarted(1), ProgressUpdated(42, 1)]

  /** ... up to the report of a poll that brought the URL. */
  lemma UpToUrl(attempts: Option<nat>) returns (ss: seq<State>, ms: seq<Move>, row: Row, job: Job)
    ensures Shows(ss, ms, row, job) && row.status == Processing
    ensures Sitting(job, attempts, 0, ReportPoll("g", READY, 1), [ProcessingStarted(1)])
  {
    hide Shows;
    ss, ms, row, job := UpToPolling(attempts);
    ss, ms, row, job := Turn(ss, ms, row, job, DONE);
    assert Sitting(job, attempts, 0, RecordPoll("g", READY, 1), [ProcessingStarted(1)]) && row.status == Processing;
    ss, ms, row, job := Turn(ss, ms, row, job, FINE);
  }

  /** ... up to its completion update. */
  lemma UpToCompletion(attempts: Option<nat>) returns (ss: seq<State>, ms: seq<Move>, row: Row, job: Job)
    ensures Shows(ss, ms, row, job) && row.status == Processing
    ensures Sitting(job, attempts, 0, CompleteRow("u", None), LOG)
  {
    hide Shows;
    ss, ms, row, job := UpToUrl(attempts);
    ss, ms, row, job := Turn(ss, ms, row, job, FINE);
    assert Sitting(job, attempts, 0, StoreVideo(READY, 1), LOG) && row.status == Processing;
    ss, ms, row, job := Turn(ss, ms, row, job, FINE);
  }

  /** ... and past it, into the catch block, because the report after it throws. */
  lemma DiesAfterCompletion(attempts: Option<nat>) returns (ss: seq<State>, ms: seq<Move>, row: Row, job: Job)
    ensures Shows(ss, ms, row, job) && row.status == Completed
    ensures Sitting(job, attempts, 0, Handle(Thrown("down")), LOG)
  {
    hide Shows;
    ss, ms, row, job := UpToCompletion(attempts);
    ss, ms, row, job := Turn(ss, ms, row, job, FINE);
    assert Sitting(job, attempts, 0, ReportDone("u", None), LOG) && row.status == Completed;
    ss, ms, row, job := Turn(ss, ms, row, job, FAULT);
  }

  /** With a second attempt to come: it loads the video next, under a COMPLETED row. */
  lemma SecondAttempt() returns (ss: seq<State>, ms: seq<Move>, row: Row, job: Job)
    ensures Shows(ss, ms, row, job) && row.status == Completed
    ensures Sitting(job, Some(2), 1, LoadVideo, LOG)
  {
    hide Shows;
    ss, ms, row, job := DiesAfterCompletion(Some(2));
    ss, ms, row, job := Turn(ss, ms, row, job, FINE);
    assert job.phase.Waiting? && job.attemptsMade == 1 && job.log == LOG && row.status == Completed;
    ss, ms, job := Picked(ss, ms, row, job);
  }

  // ---- The witnesses ---------------------------------------------------------------------------

  /** A COMPLETED row becomes FAILED: the only attempt completes it, and then its report throws. */
  lemma CompletedOverwrittenAtOnce() returns (ss: seq<State>, ms: seq<Move>)
    ensures IsLife(ss, ms) && |ms| > 0
    ensures ss[|ms| - 1].row.status == Completed && ss[|ms|].row.status == Failed
  {
    hide IsLife;
    var row, job;
    ss, ms, row, job := DiesAfterCompletion(None);
    ss, ms, row, job := Turn(ss, ms, row, job, FINE);
  }

  /** A COMPLETED row becomes FAILED by the other route: the final attempt cannot even load the video. */
  lemma CompletedOverwrittenLater() returns (ss: seq<State>, ms: seq<Move>)
    ensures IsLife(ss, ms) && |ms| > 0
    ensures ss[|ms| - 1].row.status == Completed && ss[|ms|].row.status == Failed
    ensures ss[|ms|].jobs[0].attemptsMade == 1
  {
    hide IsLife;
    var row, job;
    ss, ms, row, job := SecondAttempt();
    ss, ms, row, job := Turn(ss, ms, row, job, FAULT);
    assert Sitting(job, Some(2), 1, Handle(Thrown("down")), LOG) && row.status == Completed;
    ss, ms, row, job := Turn(ss, ms, row, job, FINE);
  }

  /** A job ends normally, its row COMPLETED, and no COMPLETED event was ever emitted. */
  lemma EndsUnannounced() returns (ss: seq<State>, ms: seq<Move>)
    ensures IsLife(ss, ms)
    ensures ss[|ms|].row.status == Completed && |ss[|ms|].jobs| == 1
    ensures ss[|ms|].jobs[0].phase.Ended? && !Guarantees.Announced(ss[|ms|].jobs[0].log)
  {
    hide IsLife;
    var row, job;
    ss, ms, row, job := SecondAttempt();
    ss, ms, row, job := Turn(ss, ms, row, job, FINE);
    assert Sitting(job, Some(2), 1, ClaimRow(Completed), LOG) && row.status == Completed;
    ss, ms, row, job := Turn(ss, ms, row, job, FINE);
    assert job.log == LOG;
  }

  /** A failure the DLQ never hears of: the FAILED write itself throws. */
  lemma FailureLost() returns (ss: seq<State>, ms: seq<Move>)
    ensures IsLife(ss, ms)
    ensures ss[|ms|].lost == 1 && ss[|ms|].row.status == Pending
    ensures |ss[|ms|].jobs| == 1 && ss[|ms|].jobs[0].phase.Exhausted?
  {
    hide IsLife;
    var row, job;
    ss, ms, row, job := Start(None);
    ss, ms, job := Picked(ss, ms, row, job);
    ss, ms, row, job := Turn(ss, ms, row, job, FAULT);
    assert Sitting(job, None, 0, Handle(Thrown("down")), []) && row == FIRST_ROW;
    ss, ms, row, job := Turn(ss, ms, row, job, FAULT);
  }

  /** One more move at the end of a life. */
  lemma Moved(ss: seq<State>, ms: seq<Move>, m: Move) returns (ss': seq<State>, ms': seq<Move>, s: State)
    requires IsLife(ss, ms)
    ensures IsLife(ss', ms') && ms' == ms + [m] && ss' == ss + [s] && s == Apply(ss[|ms|], m)
  {
    s := Apply(ss[|ms|], m);
    ss', ms' := ss + [s], ms + [m];
  }

  /** The only attempt has failed, and its failure is about to be announced. */
  lemma UpToAnnouncement() returns (ss: seq<State>, ms: seq<Move>, row: Row, job: Job)
    ensures Shows(ss, ms, row, job) && row.status == Failed
    ensures job.phase == At(None, 0, EvictStatus(Thrown("down"))) && job.attempts.None?
  {
    hide Shows;
    ss, ms, row, job := Start(None);
    ss, ms, job := Picked(ss, ms, row, job);
    ss, ms, row, job := Turn(ss, ms, row, job, FAULT);
    assert Sitting(job, None, 0, Handle(Thrown("down")), []) && row == FIRST_ROW;
    ss, ms, row, job := Turn(ss, ms, row, job, FINE);
  }

  /** ... and is in the DLQ, in an open record under a FAILED row. */
  lemma UpToRecord() returns (ss: seq<State>, ms: seq<Move>, s: State)
    ensures IsLife(ss, ms) && s == ss[|ms|]
    ensures s.row.status == Failed && |s.records| == 1 && !s.records[0].retried
  {
    var row, job;
    ss, ms, row, job := UpToAnnouncement();
    ss, ms, s := Moved(ss, ms, Work(0, FINE));
    assert |s.captures| == 1 && s.captures[0].seen.None? && s.records == [] && s.row.status == Failed;
    ss, ms, s := Moved(ss, ms, ReadCapture(0, true));
    ss, ms, s := Moved(ss, ms, SaveCapture(0, true));
  }

  /** An open record over a row that is not FAILED: its retry has reset the row, and then its enqueue threw. */
  lemma OpenOverPending() returns (ss: seq<State>, ms: seq<Move>)
    ensures IsLife(ss, ms)
    ensures var s := ss[|ms|];
            && |s.records| == 1 && !s.records[0].retried
            && s.row.status == Pending && s.row.queueJobId.None?
  {
    var s;
    ss, ms, s := UpToRecord();
    ss, ms, s := Moved(ss, ms, Retry(0, 8, false));
  }

  // ---- With a duplicate execution --------------------------------------------------------------

  lemma Then(ws: seq<Concurrent.World>, acts: seq<Concurrent.Action>, a: Concurrent.Action)
    returns (ws': seq<Concurrent.World>, acts': seq<Concurrent.Action>, w: Concurrent.World)
    requires Concurrent.IsRun(ws, acts)
    ensures Concurrent.IsRun(ws', acts') && acts' == acts + [a] && ws' == ws + [w]
    ensures w == Concurrent.Next(ws[|acts|], a)
  {
    w := Concurrent.Next(ws[|acts|], a);
    ws', acts' := ws + [w], acts + [a];
  }

  /** Execution 0 is about to complete a row in progress, and a duplicate, a final attempt, about to fail it. */
  lemma Poised() returns (ws: seq<Concurrent.World>, acts: seq<Concurrent.Action>, w: Concurrent.World)
    ensures Concurrent.IsRun(ws, acts) && w == ws[|acts|]
    ensures w.row.Some? && w.row.value.status == Processing && {0, 1} <= w.executions.Keys
    ensures w.executions[0].pc == CompleteRow("u", None)
    ensures w.executions[1] == Execution(true, 3, "u", Handle(Thrown("down")))
  {
    var ss, ms, row, job := UpToCompletion(None);
    ws, acts := Guarantees.LifeIsRun(ss, ms);
    w := ws[|acts|];
    assert w.executions[0] == job.phase.x;
    ws, acts, w := Then(ws, acts, Concurrent.Spawn(1, 2, Some(3), "u"));
    assert w.executions[1] == Execution(true, 3, "u", LoadVideo) && w.executions[0] == job.phase.x;
    ws, acts, w := Then(ws, acts, Concurrent.Act(1, FAULT));
    assert w.row == Some(row);
  }

  /** The duplicate's failure comes first. */
  lemma Overtaken() returns (ws: seq<Concurrent.World>, acts: seq<Concurrent.Action>, w: Concurrent.World)
    ensures Concurrent.IsRun(ws, acts) && w == ws[|acts|]
    ensures w.row.Some? && w.row.value.status == Failed
    ensures 0 in w.executions && w.executions[0].pc == CompleteRow("u", None)
  {
    ws, acts, w := Poised();
    ws, acts, w := Then(ws, acts, Concurrent.Act(1, FINE));
  }

  /** It emits COMPLETED all the same, while the row is and stays FAILED. */
  lemma FalseCompletedEvent() returns (ws: seq<Concurrent.World>, acts: seq<Concurrent.Action>, n: nat)
    ensures Concurrent.IsRun(ws, acts) && n == |acts| - 1 && acts[n] == Concurrent.Act(0, FINE)
    ensures ws[n].row.Some? && ws[n].row.value.status == Failed && ws[n + 1].row == ws[n].row
    ensures 0 in ws[n].executions
            && Step(ws[n].executions[0], ws[n].row, FINE).event == Some(VideoCompleted("u", None))
  {
    var w;
    ws, acts, w := Overtaken();
    var row := w.row;
    ws, acts, w := Then(ws, acts, Concurrent.Act(0, FINE));
    assert w.row == row && w.executions[0].pc == ReportDone("u", None);
    n := |acts|;
    ws, acts, w := Then(ws, acts, Concurrent.Act(0, FINE));
  }

  /** The completion comes first, and takes effect. */
  lemma CompletedFirst() returns (ws: seq<Concurrent.World>, acts: seq<Concurrent.Action>, w: Concurrent.World)
    ensures Concurrent.IsRun(ws, acts) && w == ws[|acts|] && |acts| > 0
    ensures ws[|acts| - 1].row.Some? && ws[|acts| - 1].row.value.status == Processing
    ensures acts[|acts| - 1].Act? && Duplicates.Updates(ws[|acts| - 1], acts[|acts| - 1], 0)
    ensures Duplicates.CompletedWith(w.row, "u")
    ensures {0, 1} <= w.executions.Keys && w.executions[0].pc == ReportDone("u", None)
    ensures w.executions[1] == Execution(true, 3, "u", Handle(Thrown("down")))
  {
    ws, acts, w := Poised();
    ws, acts, w := Then(ws, acts, Concurrent.Act(0, FINE));
  }

  /** But the failure still gets in between it and its event. */
  lemma SpoiltCompletedEvent() returns (ws: seq<Concurrent.World>, acts: seq<Concurrent.Action>, n: nat)
    ensures Concurrent.IsRun(ws, acts) && n == |acts| - 1 >= 2
    ensures ws[n - 2].row.Some? && ws[n - 2].row.value.status == Processing
    ensures Duplicates.UpdateOf(ws, acts, n - 2, n, 0)
    ensures Duplicates.CompletedWith(ws[n - 1].row, "u")
    ensures ws[n].row.Some? && ws[n].row.value.status == Failed && ws[n + 1].row == ws[n].row
    ensures 0 in ws[n].executions
            && Step(ws[n].executions[0], ws[n].row, FINE).event == Some(VideoCompleted("u", None))
  {
    var w;
    ws, acts, w := CompletedFirst();
    ws, acts, w := Then(ws, acts, Concurrent.Act(1, FINE));
    assert w.executions[0].pc == ReportDone("u", None);
    n := |acts|;
    ws, acts, w := Then(ws, acts, Concurrent.Act(0, FINE));
  }
}
