/** One row of the `videos` table (the columns the job lifecycle touches) and the status
    snapshot that the Redis cache holds for it. */
module VideoRow {
  import opened Base

  type JobId = nat

  datatype Status = Pending | Processing | Completed | Failed | Cancelled

  /** `error.message` as the processor stores it: a thrown error's text, or the poll loop's
      own "did not return a video after N polling attempts". */
  datatype Failure = Thrown(message: string) | NoVideoAfter(polls: nat)

  /** The fixed progress messages; Blank is the empty string. */
  datatype Note =
    | Blank
    | Starting
    | PromptEnhanced
    | JobSubmitted
    | Rendering(poll: nat)
    | Delivered
    | GaveUp

  /** The jsonb `metadata` column; an absent key is None. */
  datatype Metadata = Metadata(percent: Option<nat>, message: Option<Note>,
                               aiJobId: Option<string>, etaSeconds: Option<nat>)

  const EMPTY_METADATA := Metadata(None, None, None, None)

  datatype Row = Row(status: Status, videoUrl: Option<string>, thumbnailUrl: Option<string>,
                     errorMessage: Option<Failure>, metadata: Metadata, queueJobId: Option<JobId>)

  /** A status snapshot, without its `updatedAt` stamp. */
  datatype Snapshot = Snapshot(status: Status, progress: nat, message: Note)

  function SnapshotOf(row: Row): Snapshot {
    Snapshot(row.status, row.metadata.percent.GetOr(0), row.metadata.message.GetOr(Blank))
  }

  /** Progress reported after `polls` calls to the provider. */
  function PollPercent(polls: nat): nat {
    40 + Min(50, 2 * polls)
  }

  /** The percentages a row can show while it is being processed. */
  ghost predicate WorkingPercent(p: nat) {
    p in {10, 20, 40} || (40 < p <= 90 && p % 2 == 0)
  }

  /** What every reachable row satisfies, however executions and retries interleave. */
  ghost predicate Coherent(row: Row) {
    && (row.status == Completed ==>
          row.videoUrl.Some? && row.videoUrl.value != "" && row.metadata.percent == Some(100))
    && (row.status == Failed <==> row.errorMessage.Some?)
    && (row.status == Failed ==> row.metadata.percent == Some(0))
    && (row.status == Pending ==> row.metadata == EMPTY_METADATA)
    && (row.status == Processing ==>
          row.metadata.percent.Some? && WorkingPercent(row.metadata.percent.value))
    && row.status != Cancelled
  }

  ghost predicate CoherentRow(row: Option<Row>) {
    row.Some? ==> Coherent(row.value)
  }
}
