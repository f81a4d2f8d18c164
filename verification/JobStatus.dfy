/** `JobStatusService`: the guarded row updates, the status cache beside them, and exactly when
    that cache agrees with the row. */
module JobStatus {
  import opened Base
  import opened VideoRow

  // ---- The state machine and the three SQL updates, on one row ----------------------------

  const VALID_TRANSITIONS: map<Status, set<Status>> := map[
    Pending := {Processing, Failed},
    Processing := {Processing, Completed, Failed}
  ]

  predicate Allowed(from: Status, to: Status) {
    from in VALID_TRANSITIONS && to in VALID_TRANSITIONS[from]
  }

  /** PENDING starts or fails, PROCESSING starts again, completes or fails, and nothing leads on from there. */
  lemma AllowedExactly(from: Status, to: Status)
    ensures Allowed(from, to) <==>
      || (from == Pending && to in {Processing, Failed})
      || (from == Processing && to in {Processing, Completed, Failed})
  {
  }

  /** The optional columns of a transition. */
  datatype Extra = Extra(videoUrl: Option<string>, thumbnailUrl: Option<string>, metadata: Option<Metadata>)

  /** What an operation asks of the cache once its row update is done. */
  datatype CacheWrite = NoWrite | Store(snapshot: Snapshot) | Evict

  /** An update's new row, whether it took effect, and the cache write it issues. */
  datatype Update = Update(row: Option<Row>, applied: bool, write: CacheWrite)

  /** `UPDATE ... WHERE id AND status = expected`, refused up front for a transition not in the table. */
  function Transition(row: Option<Row>, expected: Status, next: Status, extra: Extra): Update {
    if Allowed(expected, next) && row.Some? && row.value.status == expected then
      var meta := extra.metadata.GetOr(EMPTY_METADATA);
      Update(
        Some(row.value.(
             status := next,
             videoUrl := if extra.videoUrl.Some? then extra.videoUrl else row.value.videoUrl,
             thumbnailUrl := if extra.thumbnailUrl.Some? then extra.thumbnailUrl else row.value.thumbnailUrl,
             metadata := extra.metadata.GetOr(row.value.metadata))),
        true,
        Store(Snapshot(next, meta.percent.GetOr(0), meta.message.GetOr(Blank))))
    else
      Update(row, false, NoWrite)
  }

  /** `UPDATE ... SET metadata WHERE id AND status = 'processing'`; the cache is written whether or
      not a row matched. */
  function Progress(row: Option<Row>, percent: nat, message: Note,
                    aiJobId: Option<string>, etaSeconds: Option<nat>): Update
  {
    var hit := row.Some? && row.value.status == Processing;
    Update(
      if hit then Some(row.value.(metadata := Metadata(Some(percent), Some(message), aiJobId, etaSeconds))) else row,
      hit,
      Store(Snapshot(Processing, percent, message)))
  }

  /** The unconditional FAILED write, followed by a cache eviction. */
  function MarkedFailed(row: Option<Row>, error: Failure): Update {
    Update(
      if row.Some? then
        Some(row.value.(status := Failed, errorMessage := Some(error),
                        metadata := Metadata(Some(0), Some(GaveUp), None, None)))
      else None,
      row.Some?,
      Evict)
  }

  /** The DLQ's reset of the row; it says nothing to the cache. */
  function Reset(row: Row, queueJobId: Option<JobId>): Row {
    row.(status := Pending, errorMessage := None, metadata := EMPTY_METADATA, queueJobId := queueJobId)
  }

  /** The cache entry after a write reaches Redis, or fails to. */
  function Land(entry: Option<Snapshot>, write: CacheWrite, redisUp: bool): Option<Snapshot> {
    if !redisUp then entry
    else match write
      case NoWrite => entry
      case Store(s) => Some(s)
      case Evict => None
  }

  // ---- The service --------------------------------------------------------------------------

  /** The `videos` table. */
  class VideoTable {
    var rows: map<string, Row>

    constructor ()
      ensures rows == map[]
    {
      rows := map[];
    }
  }

  /** The Redis client, as far as status keys go. */
  class StatusCache {
    var entries: map<string, Snapshot>

    constructor ()
      ensures entries == map[]
    {
      entries := map[];
    }
  }

  /** Row and cache entry of one video. */
  datatype Cell = Cell(row: Option<Row>, entry: Option<Snapshot>)

  class JobStatusService {
    const videos: VideoTable
    const redis: StatusCache

    constructor (videos: VideoTable, redis: StatusCache)
      ensures this.videos == videos && this.redis == redis
    {
      this.videos, this.redis := videos, redis;
    }

    ghost function CellOf(videoId: string): Cell
      reads this, videos, redis
    {
      Cell(Lookup(videos.rows, videoId), Lookup(redis.entries, videoId))
    }

    /** Only `videoId`'s row and entry may differ from `rows` and `entries`. */
    ghost predicate OthersKept(videoId: string, rows: map<string, Row>, entries: map<string, Snapshot>)
      reads this, videos, redis
    {
      && (forall v :: v != videoId ==> Lookup(videos.rows, v) == Lookup(rows, v))
      && (forall v :: v != videoId ==> Lookup(redis.entries, v) == Lookup(entries, v))
    }

    method TransitionStatus(videoId: string, expected: Status, next: Status, extra: Extra,
                            dbFault: Option<string>, redisUp: bool) returns (r: Result<bool, string>)
      modifies videos, redis
      ensures dbFault.Some? && Allowed(expected, next) ==>
        r == Err(dbFault.value) && CellOf(videoId) == old(CellOf(videoId))
      ensures dbFault.None? || !Allowed(expected, next) ==>
        var u := Transition(old(CellOf(videoId)).row, expected, next, extra);
        r == Ok(u.applied) && CellOf(videoId) == Cell(u.row, Land(old(CellOf(videoId)).entry, u.write, redisUp))
      ensures OthersKept(videoId, old(videos.rows), old(redis.entries))
    {
      if !Allowed(expected, next) {
        return Ok(false);
      }
      if dbFault.Some? {
        return Err(dbFault.value);
      }
      if videoId !in videos.rows || videos.rows[videoId].status != expected {
        return Ok(false);
      }
      var row := videos.rows[videoId].(status := next);
      if extra.videoUrl.Some? { row := row.(videoUrl := extra.videoUrl); }
      if extra.thumbnailUrl.Some? { row := row.(thumbnailUrl := extra.thumbnailUrl); }
      if extra.metadata.Some? { row := row.(metadata := extra.metadata.value); }
      videos.rows := videos.rows[videoId := row];
      var percent := if extra.metadata.Some? then extra.metadata.value.percent.GetOr(0) else 0;
      var message := if extra.metadata.Some? then extra.metadata.value.message.GetOr(Blank) else Blank;
      WriteCache(videoId, Snapshot(next, percent, message), redisUp);
      return Ok(true);
    }

    method UpdateProgress(videoId: string, percent: nat, message: Note, aiJobId: Option<string>,
                          etaSeconds: Option<nat>, dbFault: Option<string>, redisUp: bool)
      returns (r: Result<(), string>)
      modifies videos, redis
      ensures dbFault.Some? ==> r == Err(dbFault.value) && CellOf(videoId) == old(CellOf(videoId))
      ensures dbFault.None? ==>
        var u := Progress(old(CellOf(videoId)).row, percent, message, aiJobId, etaSeconds);
        r == Ok(()) && CellOf(videoId) == Cell(u.row, Land(old(CellOf(videoId)).entry, u.write, redisUp))
      ensures OthersKept(videoId, old(videos.rows), old(redis.entries))
    {
      if dbFault.Some? {
        return Err(dbFault.value);
      }
      if videoId in videos.rows && videos.rows[videoId].status == Processing {
        var metadata := Metadata(Some(percent), Some(message), aiJobId, etaSeconds);
        videos.rows := videos.rows[videoId := videos.rows[videoId].(metadata := metadata)];
      }
      WriteCache(videoId, Snapshot(Processing, percent, message), redisUp);
      return Ok(());
    }

    /** The row write only; `EvictCache` follows it. */
    method MarkFailed(videoId: string, error: Failure, dbFault: Option<string>) returns (r: Result<(), string>)
      modifies videos
      ensures dbFault.Some? ==> r == Err(dbFault.value) && videos.rows == old(videos.rows)
      ensures dbFault.None? ==>
        r == Ok(()) && CellOf(videoId).row == MarkedFailed(old(CellOf(videoId)).row, error).row
      ensures OthersKept(videoId, old(videos.rows), redis.entries)
    {
      if dbFault.Some? {
        return Err(dbFault.value);
      }
      if videoId in videos.rows {
        videos.rows := videos.rows[videoId := videos.rows[videoId].(
          status := Failed, errorMessage := Some(error),
          metadata := Metadata(Some(0), Some(GaveUp), None, None))];
      }
      return Ok(());
    }

    /** A Redis error is logged and swallowed. */
    method EvictCache(videoId: string, redisUp: bool)
      modifies redis
      ensures CellOf(videoId).entry == Land(old(CellOf(videoId)).entry, Evict, redisUp)
      ensures OthersKept(videoId, videos.rows, old(redis.entries))
    {
      if redisUp {
        redis.entries := redis.entries - {videoId};
      }
    }

    method WriteCache(videoId: string, snapshot: Snapshot, redisUp: bool)
      modifies redis
      ensures CellOf(videoId).entry == Land(old(CellOf(videoId)).entry, Store(snapshot), redisUp)
      ensures OthersKept(videoId, videos.rows, old(redis.entries))
    {
      if redisUp {
        redis.entries := redis.entries[videoId := snapshot];
      }
    }

    method GetCachedStatus(videoId: string, getOk: bool, dbOk: bool, setOk: bool) returns (r: Option<Snapshot>)
      modifies redis
      ensures (r, CellOf(videoId)) == CachedRead(old(CellOf(videoId)), getOk, dbOk, setOk)
      ensures OthersKept(videoId, videos.rows, old(redis.entries))
    {
      if getOk && videoId in redis.entries {
        return Some(redis.entries[videoId]);
      }
      r := LoadFromDb(videoId, dbOk, setOk);
    }

    /** The database read and the backfill share one try block: a failing backfill answers null. */
    method LoadFromDb(videoId: string, dbOk: bool, setOk: bool) returns (r: Option<Snapshot>)
      modifies redis
      ensures (r, CellOf(videoId)) == DbRead(old(CellOf(videoId)), dbOk, setOk)
      ensures OthersKept(videoId, videos.rows, old(redis.entries))
    {
      if !dbOk || videoId !in videos.rows {
        return None;
      }
      var snapshot := SnapshotOf(videos.rows[videoId]);
      if !setOk {
        return None;
      }
      redis.entries := redis.entries[videoId := snapshot];
      return Some(snapshot);
    }
  }

  /** `getCachedStatus` on one cell: the answer and the cell it leaves. */
  function CachedRead(c: Cell, getOk: bool, dbOk: bool, setOk: bool): (Option<Snapshot>, Cell) {
    if getOk && c.entry.Some? then (c.entry, c) else DbRead(c, dbOk, setOk)
  }

  function DbRead(c: Cell, dbOk: bool, setOk: bool): (Option<Snapshot>, Cell) {
    if dbOk && c.row.Some? && setOk then
      (Some(SnapshotOf(c.row.value)), c.(entry := Some(SnapshotOf(c.row.value))))
    else
      (None, c)
  }

  // ---- The cache against the row, operations running one after another --------------------

  /** What a reader of the plain table would see. */
  function Truth(c: Cell): Option<Snapshot> {
    if c.row.Some? then Some(SnapshotOf(c.row.value)) else None
  }

  /** The cache refines the row: its entry is absent or is the row's own snapshot. */
  predicate Fresh(c: Cell) {
    c.entry.Some? ==> c.entry == Truth(c)
  }

  datatype Operation =
    | DoTransition(expected: Status, next: Status, extra: Extra, redisUp: bool)
    | DoProgress(percent: nat, message: Note, aiJobId: Option<string>, etaSeconds: Option<nat>, redisUp: bool)
    | DoMarkFailed(error: Failure, redisUp: bool)
    | DoRead(getOk: bool, dbOk: bool, setOk: bool)
    | DoReset(queueJobId: Option<JobId>)
    | DoDelete
    | DoExpire

  function Perform(c: Cell, op: Operation): Cell {
    match op
    case DoTransition(expected, next, extra, up) =>
      var u := Transition(c.row, expected, next, extra);
      Cell(u.row, Land(c.entry, u.write, up))
    case DoProgress(percent, message, ai, eta, up) =>
      var u := Progress(c.row, percent, message, ai, eta);
      Cell(u.row, Land(c.entry, u.write, up))
    case DoMarkFailed(error, up) =>
      var u := MarkedFailed(c.row, error);
      Cell(u.row, Land(c.entry, u.write, up))
    case DoRead(getOk, dbOk, setOk) => CachedRead(c, getOk, dbOk, setOk).1
    case DoReset(id) => if c.row.Some? then c.(row := Some(Reset(c.row.value, id))) else c
    case DoDelete => c.(row := None)
    case DoExpire => c.(entry := None)
  }

  /** The guard a caller can evaluate before the operation. `quiet` says that no entry is there to go
      stale; each operation otherwise needs its cache write to arrive and to describe the row. */
  predicate KeepsFresh(c: Cell, op: Operation) {
    var quiet := c.entry.None?;
    match op
    case DoTransition(expected, next, extra, up) =>
      if !(Allowed(expected, next) && c.row.Some? && c.row.value.status == expected) then true
      else if up then
        extra.metadata.Some?
        || (c.row.value.metadata.percent.GetOr(0) == 0 && c.row.value.metadata.message.GetOr(Blank) == Blank)
      else
        quiet
        || (next == expected && (extra.metadata.None? || SameProgress(extra.metadata.value, c.row.value.metadata)))
    case DoProgress(percent, message, ai, eta, up) =>
      var hit := c.row.Some? && c.row.value.status == Processing;
      if up then hit
      else quiet || !hit || SameProgress(Metadata(Some(percent), Some(message), ai, eta), c.row.value.metadata)
    case DoMarkFailed(error, up) =>
      up || quiet || c.row.None?
      || (c.row.value.status == Failed
          && SameProgress(Metadata(Some(0), Some(GaveUp), None, None), c.row.value.metadata))
    case DoRead(_, _, _) => true
    case DoReset(_) =>
      quiet || c.row.None? || (c.row.value.status == Pending && SameProgress(EMPTY_METADATA, c.row.value.metadata))
    case DoDelete => quiet || c.row.None?
    case DoExpire => true
  }

  predicate SameProgress(a: Metadata, b: Metadata) {
    a.percent.GetOr(0) == b.percent.GetOr(0) && a.message.GetOr(Blank) == b.message.GetOr(Blank)
  }

  /** Exactly which operations break the refinement: a progress write that meets no PROCESSING row,
      a reset or a deletion under a live entry, a transition without metadata, a lost cache write. */
  lemma FreshExactly(c: Cell, op: Operation)
    requires Fresh(c)
    ensures Fresh(Perform(c, op)) <==> KeepsFresh(c, op)
  {
  }

  function PerformAll(c: Cell, ops: seq<Operation>): Cell
    decreases |ops|
  {
    if ops == [] then c else PerformAll(Perform(c, ops[0]), ops[1..])
  }

  ghost predicate AllKeepFresh(c: Cell, ops: seq<Operation>)
    decreases |ops|
  {
    ops == [] || (KeepsFresh(c, ops[0]) && AllKeepFresh(Perform(c, ops[0]), ops[1..]))
  }

  /** After any run of guarded operations a read with working stores answers what the table says. */
  lemma {:induction false} CacheRefinesRow(c: Cell, ops: seq<Operation>, getOk: bool)
    requires Fresh(c) && AllKeepFresh(c, ops)
    ensures Fresh(PerformAll(c, ops))
    ensures CachedRead(PerformAll(c, ops), getOk, true, true).0 == Truth(PerformAll(c, ops))
    decreases |ops|
  {
    if ops != [] {
      FreshExactly(c, ops[0]);
      CacheRefinesRow(Perform(c, ops[0]), ops[1..], getOk);
    }
  }

  /** When a fresh cell's read agrees with the table: a hit, a missing row, or a working fallback. */
  lemma ReadAgreesExactly(c: Cell, getOk: bool, dbOk: bool, setOk: bool)
    requires Fresh(c)
    ensures CachedRead(c, getOk, dbOk, setOk).0 == Truth(c)
      <==> (getOk && c.entry.Some?) || c.row.None? || (dbOk && setOk)
  {
  }

  /** A read that had to ask the database and could answer leaves that very answer for the next one, which then needs
      no database; a read that could not answer leaves nothing. */
  lemma ReadBackfills(c: Cell, getOk: bool, dbOk: bool, setOk: bool, dbOk': bool, setOk': bool)
    ensures var (answer, left) := CachedRead(c, getOk, dbOk, setOk);
            && left.row == c.row
            && (answer.Some? ==> CachedRead(left, true, dbOk', setOk') == (answer, left))
            && (answer.None? ==> left == c)
            && (answer.Some? && !(getOk && c.entry.Some?) ==> c.row.Some? && answer == Some(Snapshot(
                  c.row.value.status,
                  if c.row.value.metadata.percent.Some? then c.row.value.metadata.percent.value else 0,
                  if c.row.value.metadata.message.Some? then c.row.value.metadata.message.value else Blank)))
  {
  }

  /** The operations the code issues on its own, with Redis up: every transition carries metadata.
      Then a wrong entry is left by exactly three things: a progress write that meets no PROCESSING row, a
      DLQ reset under a live entry (unless the row was as good as reset), and a deletion under one. */
  lemma WhatBreaksTheCache(c: Cell, op: Operation)
    requires Fresh(c)
    requires op.DoTransition? ==> op.redisUp && op.extra.metadata.Some?
    requires op.DoProgress? || op.DoMarkFailed? ==> op.redisUp
    ensures !Fresh(Perform(c, op)) <==>
      || (op.DoProgress? && (c.row.None? || c.row.value.status != Processing))
      || (op.DoReset? && c.entry.Some? && c.entry != Some(Snapshot(Pending, 0, Blank)))
      || (op.DoDelete? && c.entry.Some?)
  {
    FreshExactly(c, op);
  }
}
