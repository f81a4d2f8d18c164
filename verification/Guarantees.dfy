/** What holds in every state of every life of a video (see module Pipeline). */
module Guarantees {
  import opened Base
  import opened VideoRow
  import opened Attempt
  import opened JobLife
  import opened Dlq
  import opened Pipeline
  import Concurrent
  import Duplicates
  import EventGrammar

  // ---- Conservation of work -----------------------------------------------------------------

  function CountLive(jobs: seq<Job>): nat {
    if jobs == [] then 0
    else CountLive(jobs[..|jobs| - 1]) + (if Live(jobs[|jobs| - 1]) then 1 else 0)
  }

  function CountEnded(jobs: seq<Job>): nat {
    if jobs == [] then 0
    else CountEnded(jobs[..|jobs| - 1]) + (if jobs[|jobs| - 1].phase.Ended? then 1 else 0)
  }

  function CountOpen(records: seq<FailedJob>): nat {
    if records == [] then 0
    else CountOpen(records[..|records| - 1]) + (if records[|records| - 1].retried then 0 else 1)
  }

  lemma {:induction false} NoneLive(jobs: seq<Job>)
    requires forall j :: 0 <= j < |jobs| ==> jobs[j].phase.Exhausted?
    ensures CountLive(jobs) == CountEnded(jobs) == 0
  {
    if jobs != [] {
      NoneLive(jobs[..|jobs| - 1]);
    }
  }

  lemma {:induction false} NoneOpen(records: seq<FailedJob>)
    requires forall j :: 0 <= j < |records| ==> records[j].retried
    ensures CountOpen(records) == 0
  {
    if records != [] {
      NoneOpen(records[..|records| - 1]);
    }
  }

  lemma OldRecordsRetried(s: State)
    requires Inv(s)
    ensures forall j :: 0 <= j < |s.jobs| - 1 ==> s.records[j].retried
  {
    forall j | 0 <= j < |s.jobs| - 1
      ensures s.records[j].retried
    {
      assert Handed(s.records[j], s.jobs[j], s.jobs[j + 1]);
    }
  }

  /** Counted over all jobs, captures and records, a video has exactly one of: a live job, a job that
      ended normally, a failure on its way into the DLQ, an open DLQ record, a lost failure. */
  lemma Conservation(ss: seq<State>, ms: seq<Move>, i: nat)
    requires IsLife(ss, ms) && i < |ss|
    ensures var s := ss[i];
            CountLive(s.jobs) + CountEnded(s.jobs) + |s.captures| + CountOpen(s.records) + s.lost == 1
  {
    AlwaysInv(ss, ms, i);
    var s := ss[i];
    var n := |s.jobs|;
    NoneLive(s.jobs[..n - 1]);
    OldRecordsRetried(s);
    NoneOpen(s.records[..n - 1]);
    if |s.records| == n - 1 {
      assert s.records[..n - 1] == s.records;
    }
  }

  /** A move at which the database throws on the way of a failure into the DLQ. */
  predicate LosesFailure(s: State, m: Move) {
    match m
    case Work(j, reply) =>
      && j < |s.jobs| && s.jobs[j].phase.Running? && s.jobs[j].phase.x.pc.Handle?
      && !QueueRetries(s.jobs[j]) && reply.fault.Some?
    case ReadCapture(i, ok) => i < |s.captures| && s.captures[i].seen.None? && !ok
    case SaveCapture(i, ok) => i < |s.captures| && s.captures[i].seen.Some? && !ok
    case _ => false
  }

  lemma StepLoses(job: Job, row: Row, r: Reply)
    requires JobOk(job) && job.phase.Running?
    ensures var e := Step(job.phase.x, Some(row), r);
            Stepped(job, e).phase.Exhausted? && !(e.event.Some? && e.event.value.VideoFailed?) <==>
              job.phase.x.pc.Handle? && !QueueRetries(job) && r.fault.Some?
  {
    FinalMeansGivingUp(job);
  }

  /** Exactly those moves lose a failure. */
  lemma LossExactly(ss: seq<State>, ms: seq<Move>, i: nat)
    requires IsLife(ss, ms) && i < |ms|
    ensures ss[i + 1].lost == ss[i].lost + (if LosesFailure(ss[i], ms[i]) then 1 else 0)
  {
    hide Step;
    AlwaysInv(ss, ms, i);
    var s, m := ss[i], ms[i];
    if m.Work? && m.j < |s.jobs| && s.jobs[m.j].phase.Running? {
      assert JobOk(s.jobs[m.j]);
      StepLoses(s.jobs[m.j], s.row, m.reply);
    }
  }

  /** If the DLQ's writes succeed, no work is lost or duplicated. */
  lemma {:induction false} NothingLost(ss: seq<State>, ms: seq<Move>, i: nat)
    requires IsLife(ss, ms) && i < |ss|
    requires forall k :: 0 <= k < i ==> !LosesFailure(ss[k], ms[k])
    ensures ss[i].lost == 0
    ensures var s := ss[i];
            CountLive(s.jobs) + CountEnded(s.jobs) + |s.captures| + CountOpen(s.records) == 1
  {
    if i > 0 {
      NothingLost(ss, ms, i - 1);
      LossExactly(ss, ms, i - 1);
    }
    Conservation(ss, ms, i);
  }

  // ---- Status, queue and DLQ agree ----------------------------------------------------------

  /** The record is open, and what the row shows for it. */
  ghost predicate ShowsFailure(row: Row, r: FailedJob) {
    || (row.status == Failed && row.errorMessage == Some(r.errorMessage) && row.queueJobId == r.queueJobId)
    || (row.status == Pending && row.queueJobId.None?)
  }

  /** Where a running job's execution can stand while its row is COMPLETED. */
  predicate AmidCompleted(pc: Pc) {
    pc.LoadVideo? || pc.ClaimRow? || pc.Handle? || pc.ReportDone?
  }

  /** An open record shows as FAILED with its own error or as PENDING without a job, and `OpenRecordShows` says
      when as which; a job that ended normally means COMPLETED; a live job means PENDING or
      PROCESSING, except that the row is FAILED right after the job's last write to it, and except for
      COMPLETED, whose cause `CompletedUnderLiveJob` gives. */
  lemma StatusAgrees(ss: seq<State>, ms: seq<Move>, i: nat)
    requires IsLife(ss, ms) && i < |ss|
    ensures var s := ss[i];
            && (forall k :: 0 <= k < |s.records| && !s.records[k].retried ==> ShowsFailure(s.row, s.records[k]))
            && (forall j :: 0 <= j < |s.jobs| && s.jobs[j].phase.Ended? ==> s.row.status == Completed)
            && (forall j :: 0 <= j < |s.jobs| && s.jobs[j].phase.Waiting? ==>
                  s.row.status in {Pending, Processing, Completed})
            && (forall j :: 0 <= j < |s.jobs| && s.jobs[j].phase.Running? ==>
                  || s.row.status in {Pending, Processing}
                  || (s.row.status == Failed && s.jobs[j].phase.x.pc.EvictStatus?)
                  || (s.row.status == Completed && AmidCompleted(s.jobs[j].phase.x.pc)))
  {
    AlwaysInv(ss, ms, i);
    OldRecordsRetried(ss[i]);
  }

  /** At step k the execution of job j completes the row. */
  ghost predicate CompletesAt(ss: seq<State>, ms: seq<Move>, k: nat, j: nat)
    requires |ss| == |ms| + 1
  {
    && k < |ms| && ms[k].Work? && ms[k].j == j
    && j < |ss[k].jobs| && ss[k].jobs[j].phase.Running? && ss[k].jobs[j].phase.x.pc.CompleteRow?
    && ss[k].row.status == Processing && ss[k + 1].row.status == Completed
  }

  /** The job is between two attempts, or its attempt has yet to claim the row. */
  predicate BetweenAttempts(job: Job) {
    job.phase.Waiting? || (job.phase.Running? && (job.phase.x.pc.LoadVideo? || job.phase.x.pc.ClaimRow?))
  }

  /** Step k made the row COMPLETED under job j of state i; in an earlier attempt, if the job is between
      attempts. */
  ghost predicate CompletedAt(ss: seq<State>, ms: seq<Move>, i: nat, j: nat, k: nat)
    requires |ss| == |ms| + 1 && i < |ss| && j < |ss[i].jobs|
  {
    && k < i && CompletesAt(ss, ms, k, j)
    && ss[k].jobs[j].attemptsMade <= ss[i].jobs[j].attemptsMade
    && (BetweenAttempts(ss[i].jobs[j]) ==> ss[k].jobs[j].attemptsMade < ss[i].jobs[j].attemptsMade)
  }

  lemma LiveIsLast(s: State, j: nat)
    requires Inv(s) && j < |s.jobs| && Live(s.jobs[j])
    ensures j == |s.jobs| - 1
  {
  }

  /** One step of a job that goes on, under a row it leaves COMPLETED. */
  lemma StepCompletes(job: Job, row: Row, r: Reply)
    requires job.phase.Running? && RowFits(job, row)
    ensures var e := Step(job.phase.x, Some(row), r);
            var job' := Stepped(job, e);
            Live(job') && e.row.value.status == Completed ==>
              && job.attemptsMade <= job'.attemptsMade
              && (row.status == Completed ==>
                    BetweenAttempts(job') ==> BetweenAttempts(job) || job.attemptsMade < job'.attemptsMade)
              && (row.status != Completed ==>
                    && job.phase.x.pc.CompleteRow? && row.status == Processing
                    && !BetweenAttempts(job') && job.attemptsMade == job'.attemptsMade)
  {
  }

  /** One move that leaves a live job under a COMPLETED row: either the job was there before and no newer
      than now, or the move is its own completion update. */
  lemma CompletedStep(s: State, m: Move, j: nat)
    requires Inv(s) && Inv(Apply(s, m))
    requires var s' := Apply(s, m); j < |s'.jobs| && Live(s'.jobs[j]) && s'.row.status == Completed
    ensures j < |s.jobs| && Live(s.jobs[j])
    ensures if s.row.status == Completed then
              && s.jobs[j].attemptsMade <= Apply(s, m).jobs[j].attemptsMade
              && (BetweenAttempts(Apply(s, m).jobs[j]) ==>
                    BetweenAttempts(s.jobs[j]) || s.jobs[j].attemptsMade < Apply(s, m).jobs[j].attemptsMade)
            else
              && m.Work? && m.j == j && s.jobs[j].phase.Running? && s.jobs[j].phase.x.pc.CompleteRow?
              && s.row.status == Processing && !BetweenAttempts(Apply(s, m).jobs[j])
              && s.jobs[j].attemptsMade == Apply(s, m).jobs[j].attemptsMade
  {
    hide Step, Inv;
    LiveIsLast(Apply(s, m), j);
    if m.Work? && m.j < |s.jobs| && s.jobs[m.j].phase.Running? {
      RunningIsLast(s, m.j);
      StepCompletes(s.jobs[j], s.row, m.reply);
    }
  }

  /** A live job's row is COMPLETED only because an attempt of this very job has completed it: there is an
      earlier step at which that attempt's completion update took the row from PROCESSING to
      COMPLETED, and unless that attempt is still on its way out, it has died since. */
  lemma {:induction false} CompletedUnderLiveJob(ss: seq<State>, ms: seq<Move>, i: nat, j: nat) returns (k: nat)
    requires IsLife(ss, ms) && i < |ss| && j < |ss[i].jobs|
    requires Live(ss[i].jobs[j]) && ss[i].row.status == Completed
    ensures CompletedAt(ss, ms, i, j, k)
  {
    hide Inv, Apply;
    AlwaysInv(ss, ms, i);
    if i == 0 {
      assert false;
    } else {
      AlwaysInv(ss, ms, i - 1);
      CompletedStep(ss[i - 1], ms[i - 1], j);
      if ss[i - 1].row.status == Completed {
        k := CompletedUnderLiveJob(ss, ms, i - 1, j);
      } else {
        k := i - 1;
      }
    }
  }

  /** The catch block of an attempt the queue gives up on, when its FAILED write does not throw. */
  predicate Overwrites(s: State, m: Move) {
    && m.Work? && m.j < |s.jobs| && s.jobs[m.j].phase.Running? && s.jobs[m.j].phase.x.pc.Handle?
    && !QueueRetries(s.jobs[m.j]) && m.reply.fault.None?
  }

  /** The only move of a life that makes a row FAILED, whatever its status was. */
  lemma BecomesFailedExactly(ss: seq<State>, ms: seq<Move>, i: nat)
    requires IsLife(ss, ms) && i < |ms| && ss[i].row.status != Failed
    ensures ss[i + 1].row.status == Failed <==> Overwrites(ss[i], ms[i])
  {
    hide Step;
    AlwaysInv(ss, ms, i);
    var s, m := ss[i], ms[i];
    if m.Work? && m.j < |s.jobs| && s.jobs[m.j].phase.Running? {
      RunningIsLast(s, m.j);
      MarksFailedExactly(s.jobs[m.j], Some(s.row), m.reply);
    }
  }

  lemma StepLeavesCompleted(x: Execution, row: Row, r: Reply)
    requires row.status == Completed
    ensures Step(x, Some(row), r).row.value.status in {Completed, Failed}
  {
  }

  /** When a COMPLETED row survives a move, and when it does not: it can only become FAILED. */
  lemma CompletedRowLeavesExactly(ss: seq<State>, ms: seq<Move>, i: nat)
    requires IsLife(ss, ms) && i < |ms| && ss[i].row.status == Completed
    ensures ss[i + 1].row.status != Completed <==> Overwrites(ss[i], ms[i])
    ensures Overwrites(ss[i], ms[i]) ==> ss[i + 1].row.status == Failed
  {
    hide Step;
    BecomesFailedExactly(ss, ms, i);
    AlwaysInv(ss, ms, i);
    OldRecordsRetried(ss[i]);
    var s, m := ss[i], ms[i];
    if m.Work? && m.j < |s.jobs| && s.jobs[m.j].phase.Running? {
      StepLeavesCompleted(s.jobs[m.j].phase.x, s.row, m.reply);
    }
  }

  predicate Announced(log: seq<Event>) {
    exists e :: e in log && e.VideoCompleted?
  }

  /** A log that has not been closed announces nothing, one closed by a completion does. */
  lemma AnnouncedExactly(log: seq<Event>)
    requires EventGrammar.WellFormed(log)
    ensures Announced(log) <==> EventGrammar.ReadAll(log) == EventGrammar.Closed(false)
  {
    forall i | 0 <= i < |log| && log[i].VideoCompleted?
      ensures EventGrammar.ReadAll(log) == EventGrammar.Closed(false)
    {
      EventGrammar.EventByEvent(log, i);
    }
    if EventGrammar.ReadAll(log) == EventGrammar.Closed(false) {
      assert log[|log| - 1] in log;
    }
  }

  lemma EndedWellFormed(s: State, j: nat)
    requires Inv(s) && j < |s.jobs|
    ensures EventGrammar.WellFormed(s.jobs[j].log)
  {
    assert LogFits(s.jobs[j]);
  }

  lemma StepEnds(job: Job, row: Row, r: Reply)
    requires JobOk(job) && LogFits(job) && job.phase.Running? && RowFits(job, row)
    ensures var job' := Stepped(job, Step(job.phase.x, Some(row), r));
            job'.phase.Ended? ==>
              (EventGrammar.ReadAll(job'.log) != EventGrammar.Closed(false) <==>
               job.phase.x.pc.ClaimRow? && row.status == Completed)
  {
    EventFits(EventGrammar.ReadAll(job.log), job.phase.x, Some(row), r);
    Logged(job.log, Step(job.phase.x, Some(row), r).event);
  }

  lemma MoveEnds(s: State, m: Move, j: nat)
    requires Inv(s) && j < |s.jobs| && s.jobs[j].phase.Running? && Apply(s, m).jobs[j].phase.Ended?
    ensures EventGrammar.ReadAll(Apply(s, m).jobs[j].log) != EventGrammar.Closed(false) <==>
            s.jobs[j].phase.x.pc.ClaimRow? && s.row.status == Completed
  {
    hide Step, Inv;
    RunningIsLast(s, j);
    if m.Work? && m.j == j {
      StepEnds(s.jobs[j], s.row, m.reply);
    }
  }

  /** A job that ends normally has announced no completion exactly when it ended by being turned away
      from a COMPLETED row. */
  lemma EndsUnannouncedExactly(ss: seq<State>, ms: seq<Move>, i: nat, j: nat)
    requires IsLife(ss, ms) && i < |ms| && j < |ss[i].jobs|
    requires ss[i].jobs[j].phase.Running? && ss[i + 1].jobs[j].phase.Ended?
    ensures !Announced(ss[i + 1].jobs[j].log) <==>
      ss[i].jobs[j].phase.x.pc.ClaimRow? && ss[i].row.status == Completed
  {
    assert j < |ss[i + 1].jobs|;
    hide Apply, Inv, Announced;
    AlwaysInv(ss, ms, i);
    AlwaysInv(ss, ms, i + 1);
    MoveEnds(ss[i], ms[i], j);
    EndedWellFormed(ss[i + 1], j);
    AnnouncedExactly(ss[i + 1].jobs[j].log);
  }

  /** The attempt that finds its row COMPLETED is turned away and ends the job, changing nothing and
      telling nobody. */
  lemma CompletedRowEndsJob(ss: seq<State>, ms: seq<Move>, i: nat, j: nat, reply: Reply)
    requires IsLife(ss, ms) && i < |ss| && j < |ss[i].jobs|
    requires ss[i].jobs[j].phase.Running? && ss[i].jobs[j].phase.x.pc.ClaimRow? && ss[i].row.status == Completed
    ensures var s' := Apply(ss[i], Work(j, reply));
            && s'.jobs[j].phase.Ended? && s'.jobs[j].log == ss[i].jobs[j].log
            && s'.row == ss[i].row && s'.writes == ss[i].writes && s'.captures == ss[i].captures
  {
    AlwaysInv(ss, ms, i);
    assert j == |ss[i].jobs| - 1;
  }

  /** A record can be retried only while nothing of the video is running, waiting or being captured. */
  lemma RetryNeverOverlaps(ss: seq<State>, ms: seq<Move>, i: nat, k: nat)
    requires IsLife(ss, ms) && i < |ss| && k < |ss[i].records| && !ss[i].records[k].retried
    ensures forall j :: 0 <= j < |ss[i].jobs| ==> ss[i].jobs[j].phase.Exhausted?
    ensures ss[i].captures == [] && k == |ss[i].records| - 1
  {
    AlwaysInv(ss, ms, i);
    OldRecordsRetried(ss[i]);
  }

  /** A retry of open record `r` resets the row, and then its enqueue throws. */
  predicate FailedRetry(s: State, m: Move, r: nat) {
    m.Retry? && m.i == r && r < |s.records| && !s.records[r].retried && !m.enqueued
  }

  /** One move that leaves record `r` open: either it was open before, and its row is PENDING if it was or by a
      failed retry, or the record is new, and its row FAILED. */
  lemma OpenStep(s: State, m: Move, r: nat)
    requires Inv(s) && Inv(Apply(s, m)) && r < |Apply(s, m).records| && !Apply(s, m).records[r].retried
    ensures r < |s.records| ==>
      && !s.records[r].retried
      && (Apply(s, m).row.status == Pending <==> s.row.status == Pending || FailedRetry(s, m, r))
    ensures r >= |s.records| ==> Apply(s, m).row.status == Failed
  {
    hide Step;
    OldRecordsRetried(s);
    OldRecordsRetried(Apply(s, m));
  }

  lemma {:induction false} RecordsGrow(ss: seq<State>, ms: seq<Move>, k: nat, i: nat)
    requires IsLife(ss, ms) && k <= i < |ss|
    ensures |ss[k].records| <= |ss[i].records|
    decreases i
  {
    if k < i {
      RecordsGrow(ss, ms, k, i - 1);
    }
  }

  lemma {:induction false} OpenPendingExactly(ss: seq<State>, ms: seq<Move>, i: nat, r: nat)
    requires IsLife(ss, ms) && i < |ss| && r < |ss[i].records| && !ss[i].records[r].retried
    ensures ss[i].row.status == Pending <==> exists k: nat :: k < i && FailedRetry(ss[k], ms[k], r)
  {
    hide Inv, Apply;
    if i > 0 {
      AlwaysInv(ss, ms, i - 1);
      AlwaysInv(ss, ms, i);
      OpenStep(ss[i - 1], ms[i - 1], r);
      if r < |ss[i - 1].records| {
        OpenPendingExactly(ss, ms, i - 1, r);
      } else {
        forall k: nat | k < i
          ensures !FailedRetry(ss[k], ms[k], r)
        {
          RecordsGrow(ss, ms, k, i - 1);
        }
      }
    }
  }

  /** An open record means a FAILED row with that record's error and job, unless a retry of this very record has
      reset the row and failed to enqueue: then, and only then, the row is PENDING, without a job. */
  lemma OpenRecordShows(ss: seq<State>, ms: seq<Move>, i: nat, r: nat)
    requires IsLife(ss, ms) && i < |ss| && r < |ss[i].records| && !ss[i].records[r].retried
    ensures var row, record := ss[i].row, ss[i].records[r];
            if exists k: nat :: k < i && FailedRetry(ss[k], ms[k], r) then
              row.status == Pending && row.queueJobId.None?
            else
              && row.status == Failed && row.errorMessage == Some(record.errorMessage)
              && row.queueJobId == record.queueJobId
  {
    hide Inv, Apply;
    OpenPendingExactly(ss, ms, i, r);
    StatusAgrees(ss, ms, i);
  }

  /** A start or completion that does not throw is never refused on a row in progress: the claim misses
      only a COMPLETED row, and the completion never misses. */
  lemma UpdatesNeverMiss(ss: seq<State>, ms: seq<Move>, i: nat, j: nat, reply: Reply)
    requires IsLife(ss, ms) && i < |ss| && j < |ss[i].jobs| && ss[i].jobs[j].phase.Running? && reply.fault.None?
    ensures var s, s', x := ss[i], Apply(ss[i], Work(j, reply)), ss[i].jobs[j].phase.x;
            && (x.pc.ClaimRow? && s.row.status != Completed ==>
                  s'.row.status == Processing && s'.jobs[j].phase == Running(x.(pc := ReportStart)))
            && (x.pc.CompleteRow? ==> s'.row.status == Completed && s'.row.videoUrl == Some(x.pc.url))
  {
    AlwaysInv(ss, ms, i);
    assert j == |ss[i].jobs| - 1;
  }

  /** Every COMPLETED event is emitted while the row is COMPLETED with exactly that event's URL. */
  lemma CompletedEventIsTrue(ss: seq<State>, ms: seq<Move>, i: nat, j: nat, reply: Reply)
    requires IsLife(ss, ms) && i < |ss| && j < |ss[i].jobs| && ss[i].jobs[j].phase.Running?
    ensures var s, s' := ss[i], Apply(ss[i], Work(j, reply));
            |s'.jobs[j].log| > |s.jobs[j].log| && s'.jobs[j].log[|s.jobs[j].log|].VideoCompleted? ==>
              && s.row.status == Completed && s'.row == s.row
              && s.row.videoUrl == Some(s'.jobs[j].log[|s.jobs[j].log|].url)
  {
    AlwaysInv(ss, ms, i);
    assert j == |ss[i].jobs| - 1;
  }

  // ---- Chain of custody -----------------------------------------------------------------------

  lemma {:induction false} FirstJobKept(ss: seq<State>, ms: seq<Move>, i: nat)
    requires IsLife(ss, ms) && i < |ss|
    ensures |ss[i].jobs| > 0 && ss[i].jobs[0].id == ss[0].jobs[0].id
    ensures ss[0].row.queueJobId == Some(ss[0].jobs[0].id)
  {
    if i > 0 {
      FirstJobKept(ss, ms, i - 1);
    }
  }

  lemma {:induction false} RecordsNameVideo(ss: seq<State>, ms: seq<Move>, i: nat, k: nat)
    requires IsLife(ss, ms) && i < |ss| && k < |ss[i].records|
    ensures ss[i].videoId == ss[0].videoId == ss[i].records[k].videoId
  {
    hide Step;
    if i > 0 {
      SameVideo(ss, ms, i - 1);
      if k < |ss[i - 1].records| {
        RecordsNameVideo(ss, ms, i - 1, k);
      }
    }
  }

  lemma {:induction false} SameVideo(ss: seq<State>, ms: seq<Move>, i: nat)
    requires IsLife(ss, ms) && i < |ss|
    ensures ss[i].videoId == ss[0].videoId
  {
    hide Step;
    if i > 0 {
      SameVideo(ss, ms, i - 1);
    }
  }

  /** The DLQ records alone tell the story: the first names the job the video was created with, each
      later one the job its predecessor's retry enqueued, and only the newest may be open. */
  lemma ChainOfCustody(ss: seq<State>, ms: seq<Move>, i: nat, k: nat)
    requires IsLife(ss, ms) && i < |ss| && k < |ss[i].records|
    ensures var rs := ss[i].records;
            && (k == 0 ==> rs[k].queueJobId == ss[0].row.queueJobId)
            && (k > 0 ==> rs[k].queueJobId == rs[k - 1].retryJobId)
            && rs[k].queueJobId.Some?
            && (k < |rs| - 1 ==> rs[k].retried)
            && (rs[k].retried <==> rs[k].retryJobId.Some?)
            && (forall l :: 0 <= l < k ==> rs[l].queueJobId != rs[k].queueJobId)
            && rs[k].videoId == ss[0].videoId
            && k < |ss[i].jobs| && rs[k].attemptsMade == Max(1, ss[i].jobs[k].attempts.GetOr(1))
  {
    AlwaysInv(ss, ms, i);
    FirstJobKept(ss, ms, i);
    RecordsNameVideo(ss, ms, i, k);
    var s := ss[i];
    assert JobOk(s.jobs[k]);
    forall l | 0 <= l <= k
      ensures s.records[l].queueJobId == Some(s.jobs[l].id)
    {
      if l < |s.jobs| - 1 {
        assert Handed(s.records[l], s.jobs[l], s.jobs[l + 1]);
      }
    }
    if k > 0 {
      assert Handed(s.records[k - 1], s.jobs[k - 1], s.jobs[k]);
    }
    if k < |s.jobs| - 1 {
      assert Handed(s.records[k], s.jobs[k], s.jobs[k + 1]);
    }
  }

  /** A retry that goes through starts over: the row is as good as new but for its URLs, and a new job waits for it that
      has three attempts, and that the record names. */
  lemma RetryStartsOver(ss: seq<State>, ms: seq<Move>, i: nat, r: nat, newId: JobId)
    requires IsLife(ss, ms) && i < |ms| && ms[i] == Retry(r, newId, true)
    requires r < |ss[i].records| && !ss[i].records[r].retried
    requires forall j :: 0 <= j < |ss[i].jobs| ==> ss[i].jobs[j].id != newId
    ensures var s, s' := ss[i], ss[i + 1];
            && s'.row == Row(Pending, s.row.videoUrl, s.row.thumbnailUrl, None, EMPTY_METADATA, Some(newId))
            && s'.jobs == s.jobs + [Job(newId, Some(3), 0, Waiting, 0, 0, 0, [])]
            && s'.records == s.records[r := s.records[r].(retried := true, retryJobId := Some(newId))]
            && r == |s.records| - 1 && (forall j :: 0 <= j < |s.jobs| ==> s.jobs[j].phase.Exhausted?)
            && (s'.entry, s'.writes, s'.captures, s'.lost) == (s.entry, s.writes, s.captures, s.lost)
  {
    hide Inv;
    RetryNeverOverlaps(ss, ms, i, r);
  }

  /** So every job but the first has three attempts. */
  lemma {:induction false} RetriedJobsTryThrice(ss: seq<State>, ms: seq<Move>, i: nat, j: nat)
    requires IsLife(ss, ms) && i < |ss| && 0 < j < |ss[i].jobs|
    ensures var job := ss[i].jobs[j];
            job.attempts == Some(3) && job.started <= 3 && job.polls <= 90 && job.steps <= 315
  {
    TriesThrice(ss, ms, i, j);
    JobsBoundedAndLogged(ss, ms, i, j);
  }

  lemma {:induction false} TriesThrice(ss: seq<State>, ms: seq<Move>, i: nat, j: nat)
    requires IsLife(ss, ms) && i < |ss| && 0 < j < |ss[i].jobs|
    ensures ss[i].jobs[j].attempts == Some(3)
  {
    hide Step;
    if i > 0 && j < |ss[i - 1].jobs| {
      TriesThrice(ss, ms, i - 1, j);
    }
  }

  /** Each retry adds one job: at any time there is one job more than there are retried records. */
  lemma OneJobPerRetry(ss: seq<State>, ms: seq<Move>, i: nat)
    requires IsLife(ss, ms) && i < |ss|
    ensures var s := ss[i]; |s.jobs| + CountOpen(s.records) == 1 + |s.records|
  {
    AlwaysInv(ss, ms, i);
    var s := ss[i];
    var n := |s.jobs|;
    OldRecordsRetried(s);
    NoneOpen(s.records[..n - 1]);
    if |s.records| == n - 1 {
      assert s.records[..n - 1] == s.records;
    }
  }

  // ---- Work, events -------------------------------------------------------------------------

  /** The bounds of every job, and the language of its events. */
  lemma JobsBoundedAndLogged(ss: seq<State>, ms: seq<Move>, i: nat, j: nat)
    requires IsLife(ss, ms) && i < |ss| && j < |ss[i].jobs|
    ensures var job := ss[i].jobs[j];
            && job.started <= Limit(job)
            && job.polls <= MAX_POLLS * Limit(job)
            && job.steps <= STEPS_PER_ATTEMPT * Limit(job)
            && EventGrammar.WellFormed(job.log)
            && (job.phase.Exhausted? ==> job.started == job.attemptsMade == Max(1, job.attempts.GetOr(1)))
  {
    AlwaysInv(ss, ms, i);
    assert JobOk(ss[i].jobs[j]) && LogFits(ss[i].jobs[j]);
    Bounds(ss[i].jobs[j]);
  }

  /** A live job never stands still: whatever its environment answers, its next move shrinks the work
      it has left. */
  lemma LiveJobShrinks(ss: seq<State>, ms: seq<Move>, i: nat, j: nat, uploadUrl: Url, reply: Reply)
    requires IsLife(ss, ms) && i < |ss| && j < |ss[i].jobs| && Live(ss[i].jobs[j])
    ensures var m := if ss[i].jobs[j].phase.Waiting? then Pickup(j, uploadUrl) else Work(j, reply);
            0 <= WorkLeft(Apply(ss[i], m).jobs[j]) < WorkLeft(ss[i].jobs[j])
  {
    AlwaysInv(ss, ms, i);
    var job := ss[i].jobs[j];
    assert JobOk(job);
    if job.phase.Waiting? {
      PickupOk(job, uploadUrl);
    } else {
      StepOk(job, Some(ss[i].row), reply);
    }
  }

  // ---- The pipeline is an instance of the free interleaving ---------------------------------

  /** The pipeline's state as the unrestricted system of module Concurrent sees it: the running jobs
      are executions, numbered by job. */
  ghost function Project(s: State): Concurrent.World {
    Concurrent.World(Some(s.row), s.entry, s.writes, s.readers,
                     map j: nat | 0 <= j < |s.jobs| && s.jobs[j].phase.Running? :: s.jobs[j].phase.x)
  }

  /** The action a move amounts to there; `LandWrite` past the end of the queue changes nothing. */
  ghost function ProjectMove(s: State, m: Move): Concurrent.Action {
    var idle := Concurrent.LandWrite(|s.writes|, false);
    match m
    case Pickup(j, url) =>
      if j < |s.jobs| && s.jobs[j].phase.Waiting?
      then Concurrent.Spawn(j, s.jobs[j].attemptsMade, s.jobs[j].attempts, url) else idle
    case Work(j, reply) => Concurrent.Act(j, reply)
    case Retry(i, newId, enqueued) =>
      if Apply(s, m) == s then idle else Concurrent.ResetRow(if enqueued then Some(newId) else None)
    case Cache(a) => if a.LandWrite? || a.LoadStatus? || a.Backfill? || a.Expire? then a else idle
    case _ => idle
  }

  lemma MoveIsAction(s: State, m: Move)
    ensures Project(Apply(s, m)) == Concurrent.Next(Project(s), ProjectMove(s, m))
  {
    hide Step;
    match m
    case Work(j, reply) => WorkIsAct(s, j, reply);
    case Retry(_, _, _) =>
      assert Project(Apply(s, m)).executions == Project(s).executions;
    case _ =>
      assert Project(Apply(s, m)).executions == Concurrent.Next(Project(s), ProjectMove(s, m)).executions;
  }

  lemma WorkIsAct(s: State, j: nat, reply: Reply)
    ensures Project(Apply(s, Work(j, reply))) == Concurrent.Next(Project(s), Concurrent.Act(j, reply))
  {
    hide Step;
    if j < |s.jobs| && s.jobs[j].phase.Running? {
      var e := Step(s.jobs[j].phase.x, Some(s.row), reply);
      assert Project(Worked(s, j, e, reply.redisUp)).executions
          == Concurrent.Acted(Project(s), j, e, reply.redisUp).executions;
    }
  }

  /** Every life is a run of the unrestricted system, so all that is proved there holds here: row
      coherence, ranks that never fall, at most one claim of a PENDING row between resets. */
  lemma LifeIsRun(ss: seq<State>, ms: seq<Move>) returns (ws: seq<Concurrent.World>, acts: seq<Concurrent.Action>)
    requires IsLife(ss, ms)
    ensures Concurrent.IsRun(ws, acts)
    ensures |ws| == |ss| && forall i :: 0 <= i < |ss| ==> ws[i] == Project(ss[i])
    ensures |acts| == |ms| && forall i :: 0 <= i < |ms| ==> acts[i] == ProjectMove(ss[i], ms[i])
  {
    ws := seq(|ss|, i requires 0 <= i < |ss| => Project(ss[i]));
    acts := seq(|ms|, i requires 0 <= i < |ms| => ProjectMove(ss[i], ms[i]));
    forall i | 0 <= i < |acts|
      ensures ws[i + 1] == Concurrent.Next(ws[i], acts[i])
    {
      MoveIsAction(ss[i], ms[i]);
    }
    assert ws[0].executions == map[];
  }

  /** For instance: between two retries a row that has left PENDING does not return to it, and a FAILED
      row stays FAILED. */
  lemma StatusMovesForward(ss: seq<State>, ms: seq<Move>, i: nat, j: nat)
    requires IsLife(ss, ms) && i <= j < |ss|
    requires forall k :: i <= k < j ==> !ms[k].Retry?
    ensures Concurrent.Rank(Some(ss[i].row)) <= Concurrent.Rank(Some(ss[j].row))
    ensures ss[i].row.status == Failed ==> ss[j].row.status == Failed
  {
    var ws, acts := LifeIsRun(ss, ms);
    Concurrent.RankNeverFalls(ws, acts, i, j);
  }

  // ---- The cache's history ----------------------------------------------------------------------

  /** The row showed `snap` at some step up to `i`. */
  ghost predicate Held(ss: seq<State>, i: nat, snap: Snapshot)
    requires i < |ss|
  {
    exists k :: 0 <= k <= i && SnapshotOf(ss[k].row) == snap
  }

  ghost predicate CacheHeld(ss: seq<State>, i: nat)
    requires i < |ss|
  {
    && (ss[i].entry.Some? ==> Held(ss, i, ss[i].entry.value))
    && (forall w :: w in ss[i].writes ==> Held(ss, i, w))
    && (forall w :: w in ss[i].readers ==> Held(ss, i, w))
  }

  /** With one execution at a time no progress write is blind. */
  lemma NeverBlind(s: State, m: Move)
    requires Inv(s)
    ensures !Duplicates.WritesBlindly(Project(s), ProjectMove(s, m))
  {
    if m.Work? && m.j < |s.jobs| && s.jobs[m.j].phase.Running? {
      RunningIsLast(s, m.j);
    }
  }

  /** What the cache holds, and whatever is still on its way there, is a snapshot the row had at that
      or an earlier step: the cache can be late, it never invents. */
  lemma CacheNeverInvents(ss: seq<State>, ms: seq<Move>, i: nat)
    requires IsLife(ss, ms) && i < |ss|
    ensures CacheHeld(ss, i)
  {
    hide Inv, Apply, ProjectMove, Duplicates.WritesBlindly;
    var ws, acts := LifeIsRun(ss, ms);
    forall k | 0 <= k < i
      ensures !Duplicates.WritesBlindly(ws[k], acts[k])
    {
      AlwaysInv(ss, ms, k);
      NeverBlind(ss[k], ms[k]);
    }
    forall snap | Duplicates.Travels(ws[i], snap)
      ensures Held(ss, i, snap)
    {
      Duplicates.CacheInventsOnlyBlindly(ws, acts, i, snap);
      var k :| 0 <= k <= i && ws[k].row.Some? && SnapshotOf(ws[k].row.value) == snap;
      assert SnapshotOf(ss[k].row) == snap;
    }
    assert ss[i].entry.Some? ==> Duplicates.Travels(ws[i], ss[i].entry.value);
    assert forall w :: w in ss[i].writes ==> Duplicates.Travels(ws[i], w);
    assert forall w :: w in ss[i].readers ==> Duplicates.Travels(ws[i], w);
  }
}
