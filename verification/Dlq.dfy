/** `DlqService`: capturing permanently failed jobs and retrying them. */
module Dlq {
  import opened Base
  import opened VideoRow
  import opened JobStatus
  import RetryRace

  /** A row of `failed_jobs`. */
  datatype FailedJob = FailedJob(videoId: string, queueJobId: Option<JobId>, errorMessage: Failure,
                                 attemptsMade: nat, retried: bool, retryJobId: Option<JobId>)

  /** The record for a FAILED event, given the `queueJobId` read from the video's row. */
  function Captured(videoId: string, queueJobId: Option<JobId>, error: Failure, attemptsMade: nat): FailedJob {
    FailedJob(videoId, queueJobId, error, attemptsMade, false, None)
  }

  function Retried(record: FailedJob, retryJobId: JobId): FailedJob {
    record.(retried := true, retryJobId := Some(retryJobId))
  }

  /** `attempts` of a job enqueued by a retry. */
  const RETRY_ATTEMPTS: nat := 3

  datatype QueuedJob = QueuedJob(videoId: string, attempts: Option<nat>)

  /** The job queue: `add` hands out job ids never used before. */
  class VideoQueue {
    var jobs: map<JobId, QueuedJob>
    var nextId: JobId

    ghost predicate Valid()
      reads this
    {
      forall id :: id in jobs ==> id < nextId
    }

    constructor ()
      ensures Valid() && jobs == map[]
    {
      jobs, nextId := map[], 0;
    }

    method Add(videoId: string, attempts: Option<nat>) returns (id: JobId)
      requires Valid()
      modifies this
      ensures Valid() && id !in old(jobs) && jobs == old(jobs)[id := QueuedJob(videoId, attempts)]
    {
      id := nextId;
      jobs := jobs[id := QueuedJob(videoId, attempts)];
      nextId := nextId + 1;
    }
  }

  class FailedJobTable {
    var records: map<nat, FailedJob>
    var nextId: nat

    ghost predicate Valid()
      reads this
    {
      forall id :: id in records ==> id < nextId
    }

    constructor ()
      ensures Valid() && records == map[]
    {
      records, nextId := map[], 0;
    }
  }

  datatype RetryError = NotFound | AlreadyRetried | Unavailable(message: string)

  /** What each awaited call of a retry throws, if anything. */
  datatype RetryFaults = RetryFaults(read: Option<string>, reset: Option<string>, enqueue: Option<string>,
                                     link: Option<string>, mark: Option<string>)

  /** Where a call that found its record stands in module RetryRace once it has answered. */
  function CallOf(r: Result<JobId, RetryError>, queued: Option<JobId>): RetryRace.Call {
    if r.Ok? then RetryRace.Marked
    else if r.error.AlreadyRetried? then RetryRace.Refused
    else if queued.Some? then RetryRace.Unmarked
    else RetryRace.Failed
  }

  /** A call that found its record with flag `retried` has done what it does in module RetryRace, left to
      itself: to the flag, to the number of jobs, and as far as it got. */
  ghost predicate IsCallAlone(faults: RetryFaults, retried: bool, retried': bool, added: int, call: RetryRace.Call) {
    forall race: RetryRace.Race, c: nat :: race.retried == retried && c !in race.calls ==>
      var last := RetryRace.CallAlone(race, c, faults.reset.Some? || faults.enqueue.Some?,
                                      faults.link.Some? || faults.mark.Some?);
      last.retried == retried' && last.jobs == race.jobs + added && last.calls == race.calls[c := call]
  }

  lemma CallAloneExactly(faults: RetryFaults, retried: bool)
    ensures var early, late := faults.reset.Some? || faults.enqueue.Some?, faults.link.Some? || faults.mark.Some?;
            IsCallAlone(faults, retried, retried || !(early || late), if retried || early then 0 else 1,
                        if retried then RetryRace.Refused
                        else if early then RetryRace.Failed
                        else if late then RetryRace.Unmarked
                        else RetryRace.Marked)
  {
    hide RetryRace.CallAlone;
    forall race: RetryRace.Race, c: nat | race.retried == retried && c !in race.calls {
      RetryRace.CallAloneEnds(race, c, faults.reset.Some? || faults.enqueue.Some?,
                              faults.link.Some? || faults.mark.Some?);
    }
  }

  class DlqService {
    const failedJobs: FailedJobTable
    const videos: VideoTable
    const queue: VideoQueue

    constructor (failedJobs: FailedJobTable, videos: VideoTable, queue: VideoQueue)
      ensures this.failedJobs == failedJobs && this.videos == videos && this.queue == queue
    {
      this.failedJobs, this.videos, this.queue := failedJobs, videos, queue;
    }

    ghost predicate Valid()
      reads this, failedJobs, queue
    {
      failedJobs.Valid() && queue.Valid()
    }

    /** The listener never throws: a failing read or save is logged, and the record is not there. */
    method OnVideoFailed(videoId: string, error: Failure, attemptsMade: nat, readOk: bool, saveOk: bool)
      returns (recordId: Option<nat>)
      requires Valid()
      modifies failedJobs
      ensures Valid()
      ensures recordId.Some? <==> readOk && saveOk
      ensures recordId.None? ==> failedJobs.records == old(failedJobs.records)
      ensures recordId.Some? ==>
        && recordId.value !in old(failedJobs.records)
        && failedJobs.records == old(failedJobs.records)[recordId.value :=
             FailedJob(videoId, if videoId in videos.rows then videos.rows[videoId].queueJobId else None,
                       error, attemptsMade, false, None)]
    {
      if !readOk {
        return None;
      }
      var queueJobId := if videoId in videos.rows then videos.rows[videoId].queueJobId else None;
      var failedJob := FailedJob(videoId, queueJobId, error, attemptsMade, false, None);
      if !saveOk {
        return None;
      }
      var id := failedJobs.nextId;
      failedJobs.records := failedJobs.records[id := failedJob];
      failedJobs.nextId := id + 1;
      return Some(id);
    }

    /** Reset, enqueue, link, mark, each of which may throw: `queued` is the job put into the queue, if any.
        Only a call that reaches the last write marks the record; one that throws later than the reset
        leaves a PENDING row, and one that throws later than the enqueue leaves its job as well. */
    method RetryFailedJob(id: nat, faults: RetryFaults) returns (r: Result<JobId, RetryError>, queued: Option<JobId>)
      requires Valid()
      modifies failedJobs, videos, queue
      ensures Valid()
      ensures faults.read.Some? ==> r == Err(Unavailable(faults.read.value))
      ensures faults.read.None? && id !in old(failedJobs.records) ==> r == Err(NotFound)
      ensures faults.read.None? && id in old(failedJobs.records) && old(failedJobs.records)[id].retried
        ==> r == Err(AlreadyRetried)
      ensures var open := faults.read.None? && id in old(failedJobs.records) && !old(failedJobs.records)[id].retried;
        && (r.Ok? <==> open && faults.reset.None? && faults.enqueue.None? && faults.link.None? && faults.mark.None?)
        && (queued.Some? <==> open && faults.reset.None? && faults.enqueue.None?)
        && (if open && faults.reset.None? then
              ResetOnly(old(videos.rows), videos.rows, old(failedJobs.records)[id].videoId,
                        if faults.link.None? then queued else None)
            else videos.rows == old(videos.rows))
      ensures queued.None? ==> queue.jobs == old(queue.jobs)
      ensures queued.Some? ==>
        && queued.value !in old(queue.jobs)
        && queue.jobs == old(queue.jobs)[queued.value :=
             QueuedJob(old(failedJobs.records)[id].videoId, Some(3))]
      ensures r.Err? ==> failedJobs.records == old(failedJobs.records)
      ensures r.Ok? ==>
        && queued == Some(r.value)
        && failedJobs.records == old(failedJobs.records)[id :=
             old(failedJobs.records)[id].(retried := true, retryJobId := Some(r.value))]
      ensures faults.read.None? && id in old(failedJobs.records) ==>
        IsCallAlone(faults, old(failedJobs.records)[id].retried, failedJobs.records[id].retried,
                    |queue.jobs| - |old(queue.jobs)|, CallOf(r, queued))
    {
      hide IsCallAlone;
      if faults.read.Some? {
        return Err(Unavailable(faults.read.value)), None;
      }
      if id !in failedJobs.records {
        return Err(NotFound), None;
      }
      var record := failedJobs.records[id];
      CallAloneExactly(faults, record.retried);
      if record.retried {
        return Err(AlreadyRetried), None;
      }
      var v := record.videoId;
      if faults.reset.Some? {
        return Err(Unavailable(faults.reset.value)), None;
      }
      if v in videos.rows {
        videos.rows := videos.rows[v := videos.rows[v].(
          status := Pending, errorMessage := None, metadata := EMPTY_METADATA, queueJobId := None)];
      }
      if faults.enqueue.Some? {
        return Err(Unavailable(faults.enqueue.value)), None;
      }
      var retryJobId := queue.Add(v, Some(3));
      if faults.link.Some? {
        return Err(Unavailable(faults.link.value)), Some(retryJobId);
      }
      if v in videos.rows {
        videos.rows := videos.rows[v := videos.rows[v].(queueJobId := Some(retryJobId))];
      }
      if faults.mark.Some? {
        return Err(Unavailable(faults.mark.value)), Some(retryJobId);
      }
      failedJobs.records := failedJobs.records[id := record.(retried := true, retryJobId := Some(retryJobId))];
      return Ok(retryJobId), Some(retryJobId);
    }
  }

  /** The only change between the two tables is in video `v`, if there is one: it is PENDING again, without error and
      metadata, and linked to the given job; its URLs stay. */
  ghost predicate ResetOnly(rows: map<string, Row>, rows': map<string, Row>, v: string, queueJobId: Option<JobId>) {
    rows' ==
      if v in rows then
        rows[v := Row(Pending, rows[v].videoUrl, rows[v].thumbnailUrl, None, EMPTY_METADATA, queueJobId)]
      else rows
  }
}
