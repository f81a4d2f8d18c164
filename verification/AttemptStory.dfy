/** One attempt alone on its video, from its first read to its end, told in plain values: which row, which cache
    entry and which events it leaves, whether it succeeds, gives up or meets a call that throws. */
module AttemptStory {
  import opened Base
  import opened VideoRow
  import opened JobStatus
  import opened Attempt
  import opened Processor
  import opened PollLoop
  import Concurrent

  // ---- Plain values -----------------------------------------------------------------------------

  function PercentAt(poll: nat): nat {
    if poll <= 25 then 40 + 2 * poll else 90
  }

  /** The row with new metadata, and its snapshot in the cache. */
  function Shown(row: Row, status: Status, percent: nat, message: Note,
                 aiJobId: Option<string>, eta: Option<nat>): Cell
  {
    Cell(Some(row.(status := status, metadata := Metadata(Some(percent), Some(message), aiJobId, eta))),
         Some(Snapshot(status, percent, message)))
  }

  /** The events of the first n polls. */
  function PollEvents(n: nat): (es: seq<Event>)
    ensures |es| == n && forall i :: 0 <= i < n ==> es[i] == ProgressUpdated(PercentAt(i + 1), i + 1)
  {
    if n == 0 then [] else PollEvents(n - 1) + [ProgressUpdated(PercentAt(n), n)]
  }

  /** No call throws and Redis takes every command. */
  ghost predicate AllWell(replies: nat -> Reply) {
    forall n :: replies(n).fault.None? && replies(n).redisUp
  }

  /** What `replies` looks like from step a on. */
  function From(replies: nat -> Reply, a: nat): nat -> Reply {
    (n: nat) => replies(a + n)
  }

  lemma {:induction false} Onwards(s: Solo, replies: nat -> Reply, a: nat, b: nat)
    ensures SoloAt(SoloAt(s, replies, a), From(replies, a), b) == SoloAt(s, replies, a + b)
  {
    hide SoloStep;
    if b > 0 {
      Onwards(s, replies, a, b - 1);
      assert From(replies, a)(b - 1) == replies(a + b - 1);
    }
  }

  /** Seconds are milliseconds over 1000, rounded up; no estimate without a duration. */
  lemma EtaRoundsUp(g: GenResult)
    ensures EtaOf(g).None? <==> g.estimatedDurationMs.GetOr(0) == 0
    ensures EtaOf(g).Some? ==> 1000 * (EtaOf(g).value - 1) < g.estimatedDurationMs.value <= 1000 * EtaOf(g).value
  {
  }

  // ---- Up to the poll loop ------------------------------------------------------------------------

  lemma LoadsVideo(s: Solo, r: Reply, row: Row)
    requires s.x.pc == LoadVideo && s.cell.row == Some(row) && r.fault.None?
    ensures SoloStep(s, r) == Solo(s.x.(pc := ClaimRow(row.status)), s.cell, s.events)
  {
  }

  lemma ClaimsRow(s: Solo, r: Reply, row: Row)
    requires s.x.pc == ClaimRow(row.status) && s.cell.row == Some(row) && row.status in {Pending, Processing}
    requires r.fault.None? && r.redisUp
    ensures SoloStep(s, r) ==
      Solo(s.x.(pc := ReportStart), Shown(row, Processing, 10, Starting, None, None), s.events)
  {
  }

  lemma ReportsStart(s: Solo, r: Reply)
    requires s.x.pc == ReportStart && r.fault.None?
    ensures SoloStep(s, r) == Solo(s.x.(pc := RecordEnhanced), s.cell, s.events + [ProcessingStarted(s.x.number)])
  {
  }

  lemma RecordsEnhancement(s: Solo, r: Reply, row: Row)
    requires s.x.pc == RecordEnhanced && r.fault.None? && r.redisUp && row.status == Processing
    requires s.cell.row.Some? && s.cell.row.value.(metadata := row.metadata) == row
    ensures SoloStep(s, r) ==
      Solo(s.x.(pc := ReportEnhanced), Shown(row, Processing, 20, PromptEnhanced, None, None), s.events)
  {
  }

  /** The attempt claims the row and has its prompt enhanced: at 10, then at 20 percent. */
  lemma Claiming(s: Solo, replies: nat -> Reply, row: Row)
    requires s.x.pc == LoadVideo && s.cell.row == Some(row) && row.status in {Pending, Processing} && AllWell(replies)
    ensures SoloAt(s, replies, 2) ==
      Solo(s.x.(pc := ReportStart), Shown(row, Processing, 10, Starting, None, None), s.events)
    ensures SoloAt(s, replies, 4) ==
      Solo(s.x.(pc := ReportEnhanced), Shown(row, Processing, 20, PromptEnhanced, None, None),
           s.events + [ProcessingStarted(s.x.number)])
  {
    hide SoloAt, SoloStep;
    NotYet(s, replies);
    Stepped(s, replies, 0);
    LoadsVideo(s, replies(0), row);
    Stepped(s, replies, 1);
    ClaimsRow(SoloAt(s, replies, 1), replies(1), row);
    Stepped(s, replies, 2);
    ReportsStart(SoloAt(s, replies, 2), replies(2));
    Stepped(s, replies, 3);
    RecordsEnhancement(SoloAt(s, replies, 3), replies(3), row.(status := Processing));
  }

  lemma ReportsEnhancement(s: Solo, r: Reply)
    requires s.x.pc == ReportEnhanced && r.fault.None?
    ensures SoloStep(s, r) == Solo(s.x.(pc := SubmitJob), s.cell, s.events)
  {
  }

  lemma SubmitsJob(s: Solo, r: Reply)
    requires s.x.pc == SubmitJob && r.fault.None?
    ensures SoloStep(s, r) == Solo(s.x.(pc := RecordSubmitted(r.result)), s.cell, s.events)
  {
  }

  lemma RecordsSubmission(s: Solo, r: Reply, row: Row)
    requires s.x.pc.RecordSubmitted? && s.cell.row == Some(row) && row.status == Processing
    requires r.fault.None? && r.redisUp
    ensures var g := s.x.pc.submitted;
            SoloStep(s, r) == Solo(s.x.(pc := ReportSubmitted(g)),
                                   Shown(row, Processing, 40, JobSubmitted, Some(g.jobId), EtaOf(g)), s.events)
  {
  }

  lemma ReportsSubmission(s: Solo, r: Reply)
    requires s.x.pc.ReportSubmitted? && r.fault.None?
    ensures SoloStep(s, r) == Solo(s.x.(pc := AwaitPoll(s.x.pc.submitted.jobId, s.x.pc.submitted.status, 0)),
                                   s.cell, s.events)
  {
  }

  /** It submits the job, and stands before the poll loop at 40 percent. */
  lemma Submitting(s: Solo, replies: nat -> Reply, row: Row)
    requires s.x.pc == ReportEnhanced && s.cell.row == Some(row) && row.status == Processing && AllWell(replies)
    ensures var g := replies(1).result;
            SoloAt(s, replies, 4) ==
              Solo(s.x.(pc := AwaitPoll(g.jobId, g.status, 0)),
                   Shown(row, Processing, 40, JobSubmitted, Some(g.jobId), EtaOf(g)), s.events)
  {
    hide SoloAt, SoloStep;
    var g := replies(1).result;
    NotYet(s, replies);
    Stepped(s, replies, 0);
    ReportsEnhancement(s, replies(0));
    Stepped(s, replies, 1);
    SubmitsJob(SoloAt(s, replies, 1), replies(1));
    Stepped(s, replies, 2);
    RecordsSubmission(SoloAt(s, replies, 2), replies(2), row);
    Stepped(s, replies, 3);
    ReportsSubmission(SoloAt(s, replies, 3), replies(3));
  }

  lemma Opening(s: Solo, replies: nat -> Reply, row: Row)
    requires s.x.pc == LoadVideo && s.cell.row == Some(row) && row.status in {Pending, Processing} && AllWell(replies)
    ensures var g := replies(5).result;
            SoloAt(s, replies, 8) ==
              Solo(s.x.(pc := AwaitPoll(g.jobId, g.status, 0)),
                   Shown(row, Processing, 40, JobSubmitted, Some(g.jobId), EtaOf(g)),
                   s.events + [ProcessingStarted(s.x.number)])
  {
    hide SoloAt, EtaOf;
    Claiming(s, replies, row);
    var claimed := SoloAt(s, replies, 4);
    Submitting(claimed, From(replies, 4), claimed.cell.row.value);
    Onwards(s, replies, 4, 4);
  }

  // ---- The poll loop --------------------------------------------------------------------------------

  lemma AsksProvider(s: Solo, r: Reply)
    requires s.x.pc.AwaitPoll? && s.x.pc.status == GenProcessing && s.x.pc.polls < MAX_POLLS && r.fault.None?
    ensures SoloStep(s, r) == Solo(s.x.(pc := RecordPoll(s.x.pc.jobId, r.result, s.x.pc.polls + 1)), s.cell, s.events)
  {
  }

  lemma RecordsPoll(s: Solo, r: Reply, row: Row)
    requires s.x.pc.RecordPoll? && s.x.pc.polls <= MAX_POLLS && r.fault.None? && r.redisUp
    requires s.cell.row == Some(row) && row.status == Processing
    ensures var k := s.x.pc.polls;
            SoloStep(s, r) ==
              Solo(s.x.(pc := ReportPoll(s.x.pc.jobId, s.x.pc.result, k)),
                   Shown(row, Processing, PercentAt(k), Rendering(k), None, Some(10 * (30 - k))), s.events)
  {
  }

  lemma ReportsPoll(s: Solo, r: Reply)
    requires s.x.pc.ReportPoll? && r.fault.None?
    ensures var k, g := s.x.pc.polls, s.x.pc.result;
            SoloStep(s, r) ==
              Solo(s.x.(pc := if HasUrl(g) then StoreVideo(g, k) else AwaitPoll(s.x.pc.jobId, g.status, k)),
                   s.cell, s.events + [ProgressUpdated(PercentAt(k), k)])
  {
  }

  lemma PollShows(s: Solo, replies: nat -> Reply, row: Row)
    requires s.x.pc.AwaitPoll? && s.x.pc.status == GenProcessing && s.x.pc.polls < MAX_POLLS
    requires s.cell.row == Some(row) && row.status == Processing && AllWell(replies)
    ensures var k, g := s.x.pc.polls + 1, replies(0).result;
            SoloAt(s, replies, 3) ==
              Solo(s.x.(pc := if HasUrl(g) then StoreVideo(g, k) else AwaitPoll(s.x.pc.jobId, g.status, k)),
                   Shown(row, Processing, PercentAt(k), Rendering(k), None, Some(10 * (30 - k))),
                   s.events + [ProgressUpdated(PercentAt(k), k)])
  {
    hide SoloAt, SoloStep, PercentAt;
    var k := s.x.pc.polls + 1;
    NotYet(s, replies);
    Stepped(s, replies, 0);
    AsksProvider(s, replies(0));
    Stepped(s, replies, 1);
    RecordsPoll(SoloAt(s, replies, 1), replies(1), row);
    Stepped(s, replies, 2);
    ReportsPoll(SoloAt(s, replies, 2), replies(2));
  }

  /** After the k-th poll the row and the cache show it, and its event is out. */
  lemma {:induction false} Polling(s: Solo, submitted: GenStatus, replies: nat -> Reply, answers: nat -> GenResult,
                                   row: Row, k: nat)
    requires AtLoopHead(s, submitted) && s.cell.row == Some(row) && row.status == Processing
    requires AllWell(replies) && Answering(replies, answers)
    requires 1 <= k <= MAX_POLLS && Asked(submitted, answers, k)
    ensures SoloAt(s, replies, 3 * k) ==
      Solo(s.x.(pc := if HasUrl(answers(k)) then StoreVideo(answers(k), k)
                      else AwaitPoll(s.x.pc.jobId, answers(k).status, k)),
           Shown(row, Processing, PercentAt(k), Rendering(k), None, Some(10 * (30 - k))),
           s.events + PollEvents(k))
  {
    hide SoloAt, PercentAt;
    NotYet(s, replies);
    var before := SoloAt(s, replies, 3 * (k - 1));
    if k > 1 {
      Polling(s, submitted, replies, answers, row, k - 1);
    }
    assert before.events == s.events + PollEvents(k - 1);
    PollShows(before, From(replies, 3 * (k - 1)), before.cell.row.value);
    Onwards(s, replies, 3 * (k - 1), 3);
  }

  // ---- Success ----------------------------------------------------------------------------------------

  function CompletedCell(row: Row, url: string, thumbnailUrl: Option<string>): Cell {
    Cell(Some(row.(status := Completed, videoUrl := Some(url),
                   thumbnailUrl := if thumbnailUrl.Some? then thumbnailUrl else row.thumbnailUrl,
                   metadata := Metadata(Some(100), Some(Delivered), None, None))),
         Some(Snapshot(Completed, 100, Delivered)))
  }

  lemma Ending(s: Solo, replies: nat -> Reply, row: Row)
    requires s.x.pc.StoreVideo? && HasUrl(s.x.pc.result)
    requires s.cell.row == Some(row) && row.status == Processing && AllWell(replies)
    ensures var g := s.x.pc.result;
            var url := StoredUrl(g, s.x.uploadUrl);
            SoloAt(s, replies, 3) ==
              Solo(s.x.(pc := Returned), CompletedCell(row, url, g.thumbnailUrl),
                   s.events + [VideoCompleted(url, g.thumbnailUrl)])
  {
    hide SoloAt;
    var g := s.x.pc.result;
    var url := StoredUrl(g, s.x.uploadUrl);
    NotYet(s, replies);
    Stepped(s, replies, 0);
    assert SoloAt(s, replies, 1) == Solo(s.x.(pc := CompleteRow(url, g.thumbnailUrl)), s.cell, s.events);
    Stepped(s, replies, 1);
    assert SoloAt(s, replies, 2) ==
      Solo(s.x.(pc := ReportDone(url, g.thumbnailUrl)), CompletedCell(row, url, g.thumbnailUrl), s.events);
    Stepped(s, replies, 2);
  }

  /** The attempt's first poll is answered by reply 8. */
  ghost predicate Answered(replies: nat -> Reply, submitted: GenStatus, answers: nat -> GenResult) {
    AllWell(replies) && replies(5).result.status == submitted && Answering(From(replies, 8), answers)
  }

  /** The attempt after the submission and k polls, with its events so far. */
  ghost predicate Polled(s: Solo, replies: nat -> Reply, row: Row, k: nat, pc: Pc)
    requires k <= 30
  {
    var g := replies(5).result;
    SoloAt(s, replies, 8 + 3 * k) ==
      Solo(s.x.(pc := pc),
           if k == 0 then Shown(row, Processing, 40, JobSubmitted, Some(g.jobId), EtaOf(g))
           else Shown(row, Processing, PercentAt(k), Rendering(k), None, Some(10 * (30 - k))),
           s.events + [ProcessingStarted(s.x.number)] + PollEvents(k))
  }

  lemma UpToPoll(s: Solo, replies: nat -> Reply, submitted: GenStatus, answers: nat -> GenResult, row: Row, k: nat)
    requires s.x.pc == LoadVideo && s.cell.row == Some(row) && row.status in {Pending, Processing}
    requires Answered(replies, submitted, answers) && k <= MAX_POLLS && (k > 0 ==> Asked(submitted, answers, k))
    ensures Polled(s, replies, row, k,
                   if k == 0 then AwaitPoll(replies(5).result.jobId, submitted, 0)
                   else if HasUrl(answers(k)) then StoreVideo(answers(k), k)
                   else AwaitPoll(replies(5).result.jobId, answers(k).status, k))
  {
    hide SoloAt, PercentAt, Answering;
    Opening(s, replies, row);
    var atLoop := SoloAt(s, replies, 8);
    if k > 0 {
      hide PollEvents;
      Polling(atLoop, submitted, From(replies, 8), answers, atLoop.cell.row.value, k);
      Onwards(s, replies, 8, 3 * k);
    }
  }

  /** If the k-th answer is the one that yields the URL, the attempt ends normally with the video COMPLETED under the
      stored URL, in row, cache and event alike, after exactly k progress events. */
  lemma AttemptSucceeds(s: Solo, replies: nat -> Reply, submitted: GenStatus, answers: nat -> GenResult,
                        row: Row, k: nat)
    requires s.x.pc == LoadVideo && s.cell.row == Some(row) && row.status in {Pending, Processing}
    requires Answered(replies, submitted, answers) && Yields(submitted, answers, k)
    ensures var url := StoredUrl(answers(k), s.x.uploadUrl);
            SoloAt(s, replies, 11 + 3 * k) ==
              Solo(s.x.(pc := Returned), CompletedCell(row, url, answers(k).thumbnailUrl),
                   s.events + [ProcessingStarted(s.x.number)] + PollEvents(k)
                   + [VideoCompleted(url, answers(k).thumbnailUrl)])
  {
    hide SoloAt, PercentAt, PollEvents, Answering;
    UpToPoll(s, replies, submitted, answers, row, k);
    var stored := SoloAt(s, replies, 8 + 3 * k);
    Ending(stored, From(replies, 8 + 3 * k), stored.cell.row.value);
    Onwards(s, replies, 8 + 3 * k, 3);
  }

  // ---- Failure ------------------------------------------------------------------------------------------

  function FailedCell(row: Option<Row>, error: Failure): Cell {
    Cell(if row.None? then None
         else Some(row.value.(status := Failed, errorMessage := Some(error),
                              metadata := Metadata(Some(0), Some(GaveUp), None, None))),
         None)
  }

  /** How an attempt that ends in failure leaves things: as they were, unless it is final; then the row is FAILED, the
      cached status is gone and the failure is announced. */
  function FailedSolo(s: Solo, error: Failure): Solo {
    if s.x.isFinal then
      Solo(s.x.(pc := Threw(error)), FailedCell(s.cell.row, error), s.events + [VideoFailed(error, s.x.number)])
    else
      Solo(s.x.(pc := Threw(error)), s.cell, s.events)
  }

  /** The catch block. On the final attempt its two steps are `markFailed`, eviction included. */
  lemma CatchBlock(s: Solo, replies: nat -> Reply)
    requires s.x.pc.Handle?
    ensures !s.x.isFinal ==> SoloAt(s, replies, 1) == FailedSolo(s, s.x.pc.error)
    ensures s.x.isFinal && replies(0).fault.Some? ==>
      SoloAt(s, replies, 1) == Solo(s.x.(pc := Threw(Thrown(replies(0).fault.value))), s.cell, s.events)
    ensures s.x.isFinal && replies(0).fault.None? ==>
      SoloAt(s, replies, 2).cell == Perform(s.cell, DoMarkFailed(s.x.pc.error, replies(1).redisUp))
    ensures s.x.isFinal && replies(0).fault.None? && replies(1).redisUp ==>
      SoloAt(s, replies, 2) == FailedSolo(s, s.x.pc.error)
  {
    hide SoloAt;
    NotYet(s, replies);
    Stepped(s, replies, 0);
    Stepped(s, replies, 1);
  }

  /** If the loop gives up after k answers, the attempt fails with that count, after exactly k progress events. */
  lemma AttemptGivesUp(s: Solo, replies: nat -> Reply, submitted: GenStatus, answers: nat -> GenResult,
                       row: Row, k: nat)
    requires s.x.pc == LoadVideo && s.cell.row == Some(row) && row.status in {Pending, Processing}
    requires Answered(replies, submitted, answers) && GivesUp(submitted, answers, k)
    ensures Polled(s, replies, row, k, SoloAt(s, replies, 8 + 3 * k).x.pc)
    ensures SoloAt(s, replies, if s.x.isFinal then 11 + 3 * k else 10 + 3 * k)
         == FailedSolo(SoloAt(s, replies, 8 + 3 * k), NoVideoAfter(k))
  {
    hide SoloAt, PercentAt, PollEvents, Answering, FailedSolo;
    UpToPoll(s, replies, submitted, answers, row, k);
    var spent := SoloAt(s, replies, 8 + 3 * k);
    LoopOver(spent, From(replies, 8 + 3 * k));
    Onwards(s, replies, 8 + 3 * k, 2);
    Onwards(s, replies, 8 + 3 * k, 3);
  }

  /** At the loop head with the loop over: the throw and the catch block. */
  lemma LoopOver(s: Solo, replies: nat -> Reply)
    requires s.x.pc.AwaitPoll? && (s.x.pc.status != GenProcessing || s.x.pc.polls >= 30) && AllWell(replies)
    ensures SoloAt(s, replies, if s.x.isFinal then 3 else 2) == FailedSolo(s, NoVideoAfter(s.x.pc.polls))
  {
    hide SoloAt;
    NotYet(s, replies);
    Stepped(s, replies, 0);
    CatchBlock(SoloAt(s, replies, 1), From(replies, 1));
    Onwards(s, replies, 1, 1);
    Onwards(s, replies, 1, 2);
  }

  /** Where the try block awaits a call: everywhere but for a claim that is refused without asking the database, for
      the loop head when the loop is over, and for a video already stored. */
  predicate Awaits(pc: Pc) {
    match pc
    case Handle(_) | EvictStatus(_) | Returned | Threw(_) => false
    case ClaimRow(seen) => seen in {Pending, Processing}
    case AwaitPoll(_, status, polls) => status == GenProcessing && polls < 30
    case StoreVideo(result, _) => !result.alreadyStored
    case _ => true
  }

  /** A call that throws has no effect and leads to the catch block; where there is no call, nothing is thrown. */
  lemma FaultIsCaught(x: Execution, row: Option<Row>, r: Reply)
    ensures Awaits(x.pc) && r.fault.Some? ==> Step(x, row, r) == Just(Handle(Thrown(r.fault.value)), row)
    ensures !Awaits(x.pc) && !x.pc.Handle? ==> Step(x, row, r) == Step(x, row, r.(fault := None))
  {
  }

  /** Whatever has gone before: an attempt whose call throws fails with that error, and nothing but that. */
  lemma AttemptFails(s: Solo, replies: nat -> Reply, n: nat)
    requires Awaits(SoloAt(s, replies, n).x.pc) && replies(n).fault.Some?
    requires replies(n + 1).fault.None? && replies(n + 2).redisUp
    ensures SoloAt(s, replies, if SoloAt(s, replies, n).x.isFinal then n + 3 else n + 2)
         == FailedSolo(SoloAt(s, replies, n), Thrown(replies(n).fault.value))
  {
    hide SoloAt, Step;
    var before := SoloAt(s, replies, n);
    FaultIsCaught(before.x, before.cell.row, replies(n));
    Stepped(s, replies, n);
    CatchBlock(SoloAt(s, replies, n + 1), From(replies, n + 1));
    Onwards(s, replies, n + 1, 1);
    Onwards(s, replies, n + 1, 2);
  }

  /** A video that is not there, and a row that cannot be started. */
  lemma NothingToDo(s: Solo, replies: nat -> Reply)
    requires s.x.pc == LoadVideo && AllWell(replies)
    requires s.cell.row.None? || s.cell.row.value.status !in {Pending, Processing}
    ensures s.cell.row.Some? ==> SoloAt(s, replies, 2) == Solo(s.x.(pc := Returned), s.cell, s.events)
    ensures s.cell.row.None? ==>
      SoloAt(s, replies, 1) == Solo(s.x.(pc := Handle(Thrown("Video not found"))), s.cell, s.events)
  {
    hide SoloAt;
    NotYet(s, replies);
    Stepped(s, replies, 0);
    Stepped(s, replies, 1);
  }

  // ---- The cache along the way --------------------------------------------------------------------------

  /** The steps between the claim and the completion find the row in progress. */
  predicate InHand(pc: Pc, row: Option<Row>) {
    match pc
    case LoadVideo | ClaimRow(_) | ReportDone(_, _) | Handle(_) | EvictStatus(_) | Returned | Threw(_) => true
    case _ => row.Some? && row.value.status == Processing
  }

  lemma StepFresh(s: Solo, r: Reply)
    requires InHand(s.x.pc, s.cell.row) && (s.x.pc.EvictStatus? || Fresh(s.cell)) && r.redisUp
    ensures var s' := SoloStep(s, r); InHand(s'.x.pc, s'.cell.row) && (s'.x.pc.EvictStatus? || Fresh(s'.cell))
  {
  }

  /** Whatever the calls of an attempt alone on its video return or throw: with Redis up the cache agrees with the row
      after every step, but for the moment between the FAILED write and the eviction that follows it. */
  lemma {:induction false} AloneStaysFresh(s: Solo, replies: nat -> Reply, n: nat)
    requires s.x.pc == LoadVideo && Fresh(s.cell) && forall k :: replies(k).redisUp
    ensures InHand(SoloAt(s, replies, n).x.pc, SoloAt(s, replies, n).cell.row)
    ensures SoloAt(s, replies, n).x.pc.EvictStatus? || Fresh(SoloAt(s, replies, n).cell)
  {
    hide SoloStep;
    if n > 0 {
      AloneStaysFresh(s, replies, n - 1);
      StepFresh(SoloAt(s, replies, n - 1), replies(n - 1));
    }
  }

  // ---- In the company of others ---------------------------------------------------------------------

  function CellOf(w: Concurrent.World): Cell {
    Cell(w.row, w.entry)
  }

  /** Taken without interference, a step of an execution of module Concurrent, and the landing of the cache write it may
      issue, are one step of the machine alone; so all that is told here is told of executions there. */
  lemma ActIsSoloStep(w: Concurrent.World, id: nat, r: Reply)
    requires id in w.executions
    ensures var s := SoloStep(Solo(w.executions[id], CellOf(w), []), r);
            var acted := Concurrent.Next(w, Concurrent.Act(id, r));
            var landed := if acted.writes == w.writes then acted
                          else Concurrent.Next(acted, Concurrent.LandWrite(|w.writes|, r.redisUp));
            && CellOf(landed) == s.cell && landed.writes == w.writes && landed.readers == w.readers
            && landed.executions == if Finished(s.x.pc) then w.executions - {id} else w.executions[id := s.x]
  {
    hide Step;
    var e := Step(w.executions[id], w.row, r);
    if e.write.Store? {
      var acted := Concurrent.Next(w, Concurrent.Act(id, r));
      assert acted.writes == w.writes + [e.write.snapshot];
      assert Concurrent.Without(acted.writes, |w.writes|) == w.writes;
    }
  }

  /** So do a read with its backfill, a reset, a deletion and an expiry what they do in module JobStatus; and a link
      sets the row's job and nothing else. */
  lemma OthersArePerformed(w: Concurrent.World, newId: JobId, queueJobId: Option<JobId>)
    ensures var loaded := Concurrent.Next(w, Concurrent.LoadStatus);
            w.row.Some? ==>
              CellOf(Concurrent.Next(loaded, Concurrent.Backfill(|w.readers|, true)))
                == Perform(CellOf(w), DoRead(false, true, true))
    ensures CellOf(Concurrent.Next(w, Concurrent.ResetRow(queueJobId))) == Perform(CellOf(w), DoReset(queueJobId))
    ensures CellOf(Concurrent.Next(w, Concurrent.DeleteRow)) == Perform(CellOf(w), DoDelete)
    ensures CellOf(Concurrent.Next(w, Concurrent.Expire)) == Perform(CellOf(w), DoExpire)
    ensures w.row.Some? ==>
      var row := w.row.value;
      Concurrent.Next(w, Concurrent.LinkJob(newId)).row ==
        Some(Row(row.status, row.videoUrl, row.thumbnailUrl, row.errorMessage, row.metadata, Some(newId)))
  {
  }
}
