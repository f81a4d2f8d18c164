/** One video under arbitrary interleaving: any number of executions, duplicates included, cache
    writes in flight, readers backfilling, DLQ resets and deletion, a single effect at a time. */
module Concurrent {
  import opened Base
  import opened VideoRow
  import opened Attempt
  import JobStatus

  /** `writes` are cache writes issued and not yet landed, `readers` are snapshots read from the
      table and not yet backfilled; either may land late, in any order, or never. */
  datatype World = World(row: Option<Row>, entry: Option<Snapshot>, writes: seq<Snapshot>,
                         readers: seq<Snapshot>, executions: map<nat, Execution>)

  datatype Action =
    | Spawn(id: nat, attemptsMade: nat, attempts: Option<nat>, uploadUrl: Url)
    | Act(id: nat, reply: Reply)
    | LandWrite(i: nat, arrives: bool)
    | LoadStatus
    | Backfill(i: nat, arrives: bool)
    | Expire
    | ResetRow(queueJobId: Option<JobId>)
    | LinkJob(newJobId: JobId)
    | DeleteRow

  function Without<T>(s: seq<T>, i: nat): seq<T>
    requires i < |s|
  {
    s[..i] + s[i + 1..]
  }

  /** The next state; an action that is not possible changes nothing. */
  function Next(w: World, a: Action): World {
    match a
    case Spawn(id, made, attempts, url) =>
      if id in w.executions then w else w.(executions := w.executions[id := Begin(made, attempts, url)])
    case Act(id, reply) =>
      if id !in w.executions then w else Acted(w, id, Step(w.executions[id], w.row, reply), reply.redisUp)
    case LandWrite(i, arrives) =>
      if i >= |w.writes| then w
      else w.(entry := if arrives then Some(w.writes[i]) else w.entry, writes := Without(w.writes, i))
    case LoadStatus =>
      if w.row.None? then w else w.(readers := w.readers + [SnapshotOf(w.row.value)])
    case Backfill(i, arrives) =>
      if i >= |w.readers| then w
      else w.(entry := if arrives then Some(w.readers[i]) else w.entry, readers := Without(w.readers, i))
    case Expire => w.(entry := None)
    case ResetRow(id) => if w.row.None? then w else w.(row := Some(JobStatus.Reset(w.row.value, id)))
    case LinkJob(id) => if w.row.None? then w else w.(row := Some(w.row.value.(queueJobId := Some(id))))
    case DeleteRow => w.(row := None)
  }

  /** The effect of one step: a stored snapshot is only issued here, an eviction is awaited. */
  function Acted(w: World, id: nat, e: Effect, redisUp: bool): World
    requires id in w.executions
  {
    World(
      e.row,
      if e.write.Evict? then JobStatus.Land(w.entry, e.write, redisUp) else w.entry,
      if e.write.Store? then w.writes + [e.write.snapshot] else w.writes,
      w.readers,
      if Finished(e.pc) then w.executions - {id} else w.executions[id := w.executions[id].(pc := e.pc)])
  }

  /** The row as `createAndQueue` leaves it, with nothing running. */
  predicate JustCreated(w: World) {
    && w.row.Some? && w.row.value.status == Pending && w.row.value.metadata == EMPTY_METADATA
    && w.row.value.errorMessage.None? && w.row.value.videoUrl.None?
    && w.entry.None? && w.writes == [] && w.readers == [] && w.executions == map[]
  }

  ghost predicate IsRun(ws: seq<World>, acts: seq<Action>) {
    && |ws| == |acts| + 1
    && JustCreated(ws[0])
    && forall i :: 0 <= i < |acts| ==> ws[i + 1] == Next(ws[i], acts[i])
  }

  // ---- Row coherence ----------------------------------------------------------------------

  ghost predicate Sound(w: World) {
    CoherentRow(w.row) && forall id :: id in w.executions ==> PcOk(w.executions[id].pc)
  }

  lemma NextSound(w: World, a: Action)
    requires Sound(w)
    ensures Sound(Next(w, a))
  {
    if a.Act? && a.id in w.executions {
      StepCoherent(w.executions[a.id], w.row, a.reply);
    }
  }

  /** In every state of every run the row is coherent. */
  lemma {:induction false} AlwaysCoherent(ws: seq<World>, acts: seq<Action>, i: nat)
    requires IsRun(ws, acts) && i < |ws|
    ensures Sound(ws[i])
    ensures CoherentRow(ws[i].row)
  {
    if i > 0 {
      AlwaysCoherent(ws, acts, i - 1);
      NextSound(ws[i - 1], acts[i - 1]);
    }
  }

  // ---- Progress between two resets -----------------------------------------------------------

  /** PENDING < PROCESSING < COMPLETED < FAILED; a deleted row comes last. */
  function Rank(row: Option<Row>): nat {
    if row.None? then 4
    else match row.value.status
      case Pending => 0
      case Processing => 1
      case Completed => 2
      case Failed => 3
      case Cancelled => 3
  }

  lemma StepRank(x: Execution, row: Option<Row>, r: Reply)
    ensures Rank(Step(x, row, r).row) >= Rank(row)
  {
  }

  ghost predicate NoReset(acts: seq<Action>, i: nat, j: nat) {
    forall k :: i <= k < j && k < |acts| ==> !acts[k].ResetRow?
  }

  /** Without a reset in between the status never goes back, and FAILED stays FAILED until deletion. */
  lemma {:induction false} RankNeverFalls(ws: seq<World>, acts: seq<Action>, i: nat, j: nat)
    requires IsRun(ws, acts) && i <= j < |ws| && NoReset(acts, i, j)
    ensures Rank(ws[i].row) <= Rank(ws[j].row)
    ensures ws[i].row.Some? && ws[i].row.value.status == Failed
      ==> ws[j].row.None? || ws[j].row.value.status == Failed
    decreases j - i
  {
    AlwaysCoherent(ws, acts, j);
    if i < j {
      RankNeverFalls(ws, acts, i, j - 1);
      var w, a := ws[j - 1], acts[j - 1];
      if a.Act? && a.id in w.executions {
        StepRank(w.executions[a.id], w.row, a.reply);
      }
    }
  }

  /** Action `a` is an execution's claim, and it takes effect on a row it found in `seen`. */
  predicate Claims(w: World, a: Action, seen: Status) {
    && a.Act? && a.id in w.executions
    && w.executions[a.id].pc == ClaimRow(seen)
    && Step(w.executions[a.id], w.row, a.reply).pc == ReportStart
  }

  /** Between two resets at most one claim takes a PENDING row, whoever competes for it. */
  lemma OnePendingClaim(ws: seq<World>, acts: seq<Action>, i: nat, j: nat)
    requires IsRun(ws, acts) && i < j < |acts| && NoReset(acts, i, j)
    ensures !(Claims(ws[i], acts[i], Pending) && Claims(ws[j], acts[j], Pending))
  {
    if Claims(ws[i], acts[i], Pending) {
      assert Rank(ws[i + 1].row) == 1;
      RankNeverFalls(ws, acts, i + 1, j);
    }
  }

  /** When a claim takes effect: the row still has the status that was read, and that status is
      PENDING or PROCESSING. A row read as PROCESSING can be claimed any number of times. */
  lemma ClaimExactly(x: Execution, row: Option<Row>, r: Reply)
    requires x.pc.ClaimRow? && r.fault.None?
    ensures Step(x, row, r).pc == ReportStart <==>
      row.Some? && row.value.status == x.pc.seen && x.pc.seen in {Pending, Processing}
    ensures Step(x, row, r).pc != ReportStart ==> Step(x, row, r).pc == Returned && Step(x, row, r).row == row
  {
  }

  // ---- Where the comments promise more than the code ------------------------------------

  function Fine(): Reply {
    Reply(None, GenResult("", GenProcessing, None, None, None, false), true)
  }

  function Fault(): Reply {
    Reply(Some("down"), GenResult("", GenProcessing, None, None, None, false), true)
  }

  function FreshWorld(): World {
    World(Some(Row(Pending, None, None, None, EMPTY_METADATA, None)), None, [], [], map[])
  }

  /** Two executions own the row at once: the second reads PROCESSING and claims it again. */
  lemma TwoOwners() returns (ws: seq<World>, acts: seq<Action>)
    ensures IsRun(ws, acts)
    ensures var w := ws[|acts|];
            && 1 in w.executions && w.executions[1].pc == ReportStart
            && 2 in w.executions && w.executions[2].pc == ReportStart
  {
    var w0 := FreshWorld();
    acts := [Spawn(1, 0, Some(3), "u"), Act(1, Fine()), Act(1, Fine()),
             Spawn(2, 0, Some(3), "u"), Act(2, Fine()), Act(2, Fine())];
    var w1 := Next(w0, acts[0]);
    var w2 := Next(w1, acts[1]);
    assert w2.executions[1].pc == ClaimRow(Pending);
    var w3 := Next(w2, acts[2]);
    assert w3.executions[1].pc == ReportStart && w3.row.value.status == Processing;
    var w4 := Next(w3, acts[3]);
    var w5 := Next(w4, acts[4]);
    assert w5.executions[2].pc == ClaimRow(Processing);
    var w6 := Next(w5, acts[5]);
    ws := [w0, w1, w2, w3, w4, w5, w6];
  }

  ghost predicate NeverHeld(ws: seq<World>, s: Snapshot) {
    forall k :: 0 <= k < |ws| ==> ws[k].row.Some? && SnapshotOf(ws[k].row.value) != s
  }

  /** One more action at the end of a run. */
  lemma Extend(ws: seq<World>, acts: seq<Action>, a: Action, s: Snapshot)
    returns (ws': seq<World>, acts': seq<Action>, last: World)
    requires IsRun(ws, acts) && NeverHeld(ws, s)
    requires var w := Next(ws[|acts|], a); w.row.Some? && SnapshotOf(w.row.value) != s
    ensures IsRun(ws', acts') && NeverHeld(ws', s)
    ensures last == ws'[|acts'|] == Next(ws[|acts|], a)
  {
    last := Next(ws[|acts|], a);
    ws', acts' := ws + [last], acts + [a];
  }

  /** The row after a first claim, and after a final failure on top of it. */
  const CLAIMED := Row(Processing, None, None, None, Metadata(Some(10), Some(Starting), None, None), None)
  const LOST := Row(Failed, None, None, Some(Thrown("down")), Metadata(Some(0), Some(GaveUp), None, None), None)

  const LATE := Snapshot(Processing, 20, PromptEnhanced)

  /** With duplicates the cache can hold a status the row never had: a late progress write finds the
      row FAILED, misses it, and still reaches the cache. */
  lemma InventedSnapshot() returns (ws: seq<World>, acts: seq<Action>)
    ensures IsRun(ws, acts)
    ensures ws[|acts|].entry == Some(LATE) && LATE == Snapshot(Processing, 20, PromptEnhanced)
    ensures NeverHeld(ws, LATE)
  {
    hide IsRun, NeverHeld;
    var w;
    ws, acts, w := FailedMeanwhile();
    ws, acts, w := Extend(ws, acts, Act(1, Fine()), LATE);
    assert w.row == Some(LOST) && |w.writes| == 2 && w.writes[1] == LATE;
    ws, acts, w := Extend(ws, acts, LandWrite(1, true), LATE);
  }

  /** A second, final execution has failed while the first is about to write its progress. */
  lemma FailedMeanwhile() returns (ws: seq<World>, acts: seq<Action>, w: World)
    ensures IsRun(ws, acts) && NeverHeld(ws, LATE) && w == ws[|acts|]
    ensures w.row == Some(LOST) && |w.writes| == 1 && w.entry.None?
    ensures 1 in w.executions && w.executions[1] == Execution(false, 1, "u", RecordEnhanced)
  {
    hide IsRun, NeverHeld;
    ws, acts, w := ClaimedAndReported(LATE);
    ws, acts, w := Extend(ws, acts, Spawn(2, 2, Some(3), "u"), LATE);
    var one := w.executions[1];
    assert w == World(Some(CLAIMED), None, w.writes, [], map[1 := one, 2 := Execution(true, 3, "u", LoadVideo)]);
    ws, acts, w := Extend(ws, acts, Act(2, Fault()), LATE);
    assert w == World(Some(CLAIMED), None, w.writes, [],
                      map[1 := one, 2 := Execution(true, 3, "u", Handle(Thrown("down")))]);
    ws, acts, w := Extend(ws, acts, Act(2, Fine()), LATE);
  }

  lemma Claimed(s: Snapshot) returns (ws: seq<World>, acts: seq<Action>, w: World)
    requires s.progress == 20
    ensures IsRun(ws, acts) && NeverHeld(ws, s) && w == ws[|acts|]
    ensures w == FreshWorld().(executions := map[1 := Execution(false, 1, "u", ClaimRow(Pending))])
  {
    ws, acts := [FreshWorld()], [];
    ws, acts, w := Extend(ws, acts, Spawn(1, 0, Some(3), "u"), s);
    assert w == FreshWorld().(executions := map[1 := Execution(false, 1, "u", LoadVideo)]);
    ws, acts, w := Extend(ws, acts, Act(1, Fine()), s);
  }

  lemma ClaimedAndReported(s: Snapshot) returns (ws: seq<World>, acts: seq<Action>, w: World)
    requires s.progress == 20
    ensures IsRun(ws, acts) && NeverHeld(ws, s) && w == ws[|acts|]
    ensures w == World(Some(CLAIMED), None, [SnapshotOf(CLAIMED)], [],
                       map[1 := Execution(false, 1, "u", RecordEnhanced)])
  {
    ws, acts, w := Claimed(s);
    ws, acts, w := Extend(ws, acts, Act(1, Fine()), s);
    assert w == World(Some(CLAIMED), None, [SnapshotOf(CLAIMED)], [], map[1 := Execution(false, 1, "u", ReportStart)]);
    ws, acts, w := Extend(ws, acts, Act(1, Fine()), s);
  }
}
