/** What duplicate executions can and cannot break, over every run of module Concurrent: when a COMPLETED
    event is true, and when the cache shows a status the row never had. */
module Duplicates {
  import opened Base
  import opened VideoRow
  import opened Attempt
  import opened Concurrent

  // ---- A COMPLETED row and its URL ------------------------------------------------------------

  ghost predicate CompletedWith(row: Option<Row>, url: string) {
    row.Some? && row.value.status == Completed && row.value.videoUrl == Some(url)
  }

  /** Action `a` is the completion update of execution `id`, and it does not throw. */
  predicate Updates(w: World, a: Action, id: nat) {
    a.Act? && a.id == id && id in w.executions && w.executions[id].pc.CompleteRow? && a.reply.fault.None?
  }

  /** It finds the row in progress, and stores `url`. */
  ghost predicate Completes(w: World, a: Action, url: string) {
    && a.Act? && Updates(w, a, a.id) && w.executions[a.id].pc.url == url
    && w.row.Some? && w.row.value.status == Processing
  }

  /** What takes a row out of COMPLETED: a deletion, a DLQ reset, or the FAILED write of a final attempt. */
  predicate Spoils(w: World, a: Action) {
    || a.DeleteRow?
    || a.ResetRow?
    || (a.Act? && a.id in w.executions && w.executions[a.id].pc.Handle? && w.executions[a.id].isFinal
        && a.reply.fault.None?)
  }

  ghost predicate NoneSpoils(ws: seq<World>, acts: seq<Action>, i: nat, j: nat)
    requires |ws| == |acts| + 1
  {
    forall l :: i <= l < j && l < |acts| ==> !Spoils(ws[l], acts[l])
  }

  /** Step k completes the row with `url`, and nothing before state i spoils it. */
  ghost predicate LastingCompletion(ws: seq<World>, acts: seq<Action>, k: nat, i: nat, url: string)
    requires |ws| == |acts| + 1 && i < |ws|
  {
    k < i && Completes(ws[k], acts[k], url) && NoneSpoils(ws, acts, k + 1, i)
  }

  lemma StepCompletedWith(x: Execution, row: Option<Row>, r: Reply, url: string)
    ensures CompletedWith(Step(x, row, r).row, url) <==>
      || (x.pc.CompleteRow? && x.pc.url == url && r.fault.None? && row.Some? && row.value.status == Processing)
      || (CompletedWith(row, url) && !(x.pc.Handle? && x.isFinal && r.fault.None?))
  {
  }

  lemma NextCompletedWith(w: World, a: Action, url: string)
    ensures CompletedWith(Next(w, a).row, url) <==>
      Completes(w, a, url) || (CompletedWith(w.row, url) && !Spoils(w, a))
  {
    hide Step;
    if a.Act? && a.id in w.executions {
      StepCompletedWith(w.executions[a.id], w.row, a.reply, url);
    }
  }

  /** The row is COMPLETED with a URL exactly when some update completed it so and nothing has spoilt it since. */
  lemma {:induction false} CompletedRowExactly(ws: seq<World>, acts: seq<Action>, i: nat, url: string)
    requires IsRun(ws, acts) && i < |ws|
    ensures CompletedWith(ws[i].row, url) <==> exists k: nat :: LastingCompletion(ws, acts, k, i, url)
  {
    hide Next, Completes, Spoils;
    if i > 0 {
      var p := i - 1;
      CompletedRowExactly(ws, acts, p, url);
      NextCompletedWith(ws[p], acts[p], url);
      if Completes(ws[p], acts[p], url) {
        assert LastingCompletion(ws, acts, p, i, url);
      } else if CompletedWith(ws[p].row, url) && !Spoils(ws[p], acts[p]) {
        var k: nat :| LastingCompletion(ws, acts, k, p, url);
        assert LastingCompletion(ws, acts, k, i, url);
      }
      forall k: nat | LastingCompletion(ws, acts, k, i, url) && k < p
        ensures LastingCompletion(ws, acts, k, p, url)
      {
      }
    }
  }

  // ---- The update behind a COMPLETED event ---------------------------------------------------

  /** No step of execution `id` from i up to j. */
  ghost predicate Idle(acts: seq<Action>, i: nat, j: nat, id: nat) {
    forall l :: i <= l < j && l < |acts| ==> !(acts[l].Act? && acts[l].id == id)
  }

  /** The update at step m is the one that the report at step n follows. */
  ghost predicate UpdateOf(ws: seq<World>, acts: seq<Action>, m: nat, n: nat, id: nat)
    requires |ws| == |acts| + 1
  {
    && m < n < |acts| && Updates(ws[m], acts[m], id) && Idle(acts, m + 1, n, id)
    && acts[n].Act? && acts[n].id == id && acts[n].reply.fault.None?
  }

  lemma StepToReport(x: Execution, row: Option<Row>, r: Reply)
    requires Step(x, row, r).pc.ReportDone?
    ensures x.pc.CompleteRow? && r.fault.None?
    ensures x.pc == CompleteRow(Step(x, row, r).pc.url, Step(x, row, r).pc.thumbnailUrl)
  {
  }

  /** An execution past its completion update has made that update at an earlier step, and rested since. */
  lemma {:induction false} UpdateBefore(ws: seq<World>, acts: seq<Action>, i: nat, id: nat) returns (m: nat)
    requires IsRun(ws, acts) && i < |ws| && id in ws[i].executions && ws[i].executions[id].pc.ReportDone?
    ensures m < i && Updates(ws[m], acts[m], id) && Idle(acts, m + 1, i, id)
    ensures ws[m].executions[id].pc == CompleteRow(ws[i].executions[id].pc.url, ws[i].executions[id].pc.thumbnailUrl)
  {
    hide Step;
    var w, a := ws[i - 1], acts[i - 1];
    if a.Act? && a.id == id {
      m := i - 1;
      StepToReport(w.executions[id], w.row, a.reply);
    } else {
      m := UpdateBefore(ws, acts, i - 1, id);
    }
  }

  lemma {:induction false} StaysAtReport(ws: seq<World>, acts: seq<Action>, m: nat, i: nat, id: nat)
    requires IsRun(ws, acts) && m < i < |ws| && Updates(ws[m], acts[m], id) && Idle(acts, m + 1, i, id)
    ensures id in ws[i].executions
    ensures ws[i].executions[id].pc == ReportDone(ws[m].executions[id].pc.url, ws[m].executions[id].pc.thumbnailUrl)
    decreases i
  {
    if i > m + 1 {
      StaysAtReport(ws, acts, m, i - 1, id);
    }
  }

  /** The COMPLETED event of one execution, its update at step m and its report at step n, whatever any others
      do in between. It is emitted in any case. Unless the row was reset in between or was PENDING at the
      update, the event is true exactly when the update found the row in progress, or already
      completed with that very URL, and no step in between spoilt it. */
  lemma CompletedEventExactly(ws: seq<World>, acts: seq<Action>, m: nat, n: nat, id: nat)
    requires IsRun(ws, acts) && UpdateOf(ws, acts, m, n, id) && NoReset(acts, m, n)
    requires ws[m].row.Some? ==> ws[m].row.value.status != Pending
    ensures id in ws[n].executions
    ensures var pc, e := ws[m].executions[id].pc, Step(ws[n].executions[id], ws[n].row, acts[n].reply);
            && e.event == Some(VideoCompleted(pc.url, pc.thumbnailUrl)) && e.row == ws[n].row
            && (CompletedWith(ws[n].row, pc.url) <==>
                  && ((ws[m].row.Some? && ws[m].row.value.status == Processing) || CompletedWith(ws[m].row, pc.url))
                  && NoneSpoils(ws, acts, m + 1, n))
  {
    hide Next, Spoils;
    StaysAtReport(ws, acts, m, n, id);
    var url := ws[m].executions[id].pc.url;
    UpdateLeaves(ws[m], acts[m], id);
    if CompletedWith(ws[n].row, url) {
      LastingFrom(ws, acts, m, n, url);
    } else if CompletedWith(ws[m + 1].row, url) && NoneSpoils(ws, acts, m + 1, n) {
      Unspoilt(ws, acts, m + 1, n, url);
    }
  }

  lemma UpdateLeaves(w: World, a: Action, id: nat)
    requires Updates(w, a, id)
    ensures !Spoils(w, a)
    ensures w.row.Some? && w.row.value.status == Processing ==> CompletedWith(Next(w, a).row, w.executions[id].pc.url)
    ensures w.row.None? || w.row.value.status != Processing ==> Next(w, a).row == w.row
  {
  }

  /** A row that is COMPLETED at n was so right after the update at m, and no step since has spoilt it. */
  lemma LastingFrom(ws: seq<World>, acts: seq<Action>, m: nat, n: nat, url: string)
    requires IsRun(ws, acts) && m < n < |ws| && NoReset(acts, m, n) && CompletedWith(ws[n].row, url)
    requires acts[m].Act? && Updates(ws[m], acts[m], acts[m].id) && ws[m].executions[acts[m].id].pc.url == url
    requires ws[m].row.Some? ==> ws[m].row.value.status != Pending
    ensures (ws[m].row.Some? && ws[m].row.value.status == Processing) || CompletedWith(ws[m].row, url)
    ensures NoneSpoils(ws, acts, m + 1, n)
  {
    hide Next, Spoils;
    CompletedRowExactly(ws, acts, n, url);
    var k: nat :| LastingCompletion(ws, acts, k, n, url);
    if k < m {
      assert LastingCompletion(ws, acts, k, m, url);
      CompletedRowExactly(ws, acts, m, url);
    } else if k > m {
      RankNeverFalls(ws, acts, m, k);
      UpdateLeaves(ws[m], acts[m], acts[m].id);
      RankNeverFalls(ws, acts, m + 1, k);
      assert false;
    }
  }

  lemma {:induction false} Unspoilt(ws: seq<World>, acts: seq<Action>, i: nat, j: nat, url: string)
    requires IsRun(ws, acts) && i <= j < |ws| && CompletedWith(ws[i].row, url) && NoneSpoils(ws, acts, i, j)
    ensures CompletedWith(ws[j].row, url)
    decreases j
  {
    hide Next, Completes, Spoils, CompletedWith;
    if i < j {
      Unspoilt(ws, acts, i, j - 1, url);
      NextCompletedWith(ws[j - 1], acts[j - 1], url);
    }
  }

  // ---- Where its URL comes from ----------------------------------------------------------------

  /** At `pc` an execution carries the poll answer `g`, or the URL it has stored the video under because of it. */
  predicate Carries(pc: Pc, uploadUrl: Url, g: GenResult) {
    match pc
    case RecordPoll(_, result, _) => result == g
    case ReportPoll(_, result, _) => result == g
    case StoreVideo(result, _) => result == g && HasUrl(g)
    case CompleteRow(url, thumbnailUrl) =>
      HasUrl(g) && url == StoredUrl(g, uploadUrl) && thumbnailUrl == g.thumbnailUrl
    case ReportDone(url, thumbnailUrl) =>
      HasUrl(g) && url == StoredUrl(g, uploadUrl) && thumbnailUrl == g.thumbnailUrl
    case _ => false
  }

  predicate PastPoll(pc: Pc) {
    pc.RecordPoll? || pc.ReportPoll? || pc.StoreVideo? || pc.CompleteRow? || pc.ReportDone?
  }

  /** Action `a` is a poll of execution `id`, answered by `g`. */
  predicate Polls(w: World, a: Action, id: nat, g: GenResult) {
    && a.Act? && a.id == id && id in w.executions && w.executions[id].pc.AwaitPoll?
    && a.reply.fault.None? && a.reply.result == g
  }

  lemma StepCarries(x: Execution, row: Option<Row>, r: Reply)
    requires PastPoll(Step(x, row, r).pc)
    ensures PastPoll(x.pc) || (x.pc.AwaitPoll? && r.fault.None? && Carries(Step(x, row, r).pc, x.uploadUrl, r.result))
    ensures forall g :: PastPoll(x.pc) && Carries(x.pc, x.uploadUrl, g) ==> Carries(Step(x, row, r).pc, x.uploadUrl, g)
  {
  }

  /** Over every interleaving: what an execution completes its row with, and announces, is the URL of an answer it got
      from the provider, if the provider had stored the video, and else its own upload's; and that answer's
      thumbnail. Nothing that others do can change it on the way. */
  lemma {:induction false} UrlComesFromPoll(ws: seq<World>, acts: seq<Action>, i: nat, id: nat)
    returns (p: nat, g: GenResult)
    requires IsRun(ws, acts) && i < |ws| && id in ws[i].executions && PastPoll(ws[i].executions[id].pc)
    ensures p < i && Polls(ws[p], acts[p], id, g)
    ensures Carries(ws[i].executions[id].pc, ws[i].executions[id].uploadUrl, g)
  {
    hide Step, Carries;
    var w, a := ws[i - 1], acts[i - 1];
    if a.Act? && a.id == id {
      StepCarries(w.executions[id], w.row, a.reply);
      if PastPoll(w.executions[id].pc) {
        p, g := UrlComesFromPoll(ws, acts, i - 1, id);
      } else {
        p, g := i - 1, a.reply.result;
      }
    } else {
      p, g := UrlComesFromPoll(ws, acts, i - 1, id);
    }
  }

  // ---- The cache ------------------------------------------------------------------------------

  predicate AtProgress(pc: Pc) {
    pc.RecordEnhanced? || pc.RecordSubmitted? || pc.RecordPoll?
  }

  /** A progress write that does not throw and meets no row in progress. */
  predicate WritesBlindly(w: World, a: Action) {
    && a.Act? && a.id in w.executions && AtProgress(w.executions[a.id].pc) && a.reply.fault.None?
    && (w.row.None? || w.row.value.status != Processing)
  }

  /** The snapshot a step sends to the cache, if any, is that of the row it leaves. */
  ghost predicate StoresTruth(e: Effect) {
    e.write.Store? ==> e.row.Some? && e.write.snapshot == SnapshotOf(e.row.value)
  }

  /** The one kind of step that sends a false snapshot to the cache. */
  lemma StoresTruthExactly(w: World, a: Action)
    requires a.Act? && a.id in w.executions
    ensures StoresTruth(Step(w.executions[a.id], w.row, a.reply)) <==> !WritesBlindly(w, a)
  {
  }

  /** The row showed `snap` in some state up to `i`. */
  ghost predicate Held(ws: seq<World>, i: nat, snap: Snapshot)
    requires i < |ws|
  {
    exists k :: 0 <= k <= i && ws[k].row.Some? && SnapshotOf(ws[k].row.value) == snap
  }

  /** Snapshots in the cache, or on their way there. */
  ghost predicate Travels(w: World, snap: Snapshot) {
    w.entry == Some(snap) || snap in w.writes || snap in w.readers
  }

  lemma NextTravels(w: World, a: Action, snap: Snapshot)
    requires !WritesBlindly(w, a) && Travels(Next(w, a), snap)
    ensures Travels(w, snap) || (Next(w, a).row.Some? && snap == SnapshotOf(Next(w, a).row.value))
  {
    hide Step;
    if a.Act? && a.id in w.executions {
      StoresTruthExactly(w, a);
    }
  }

  /** However many executions, late writes, readers, resets and deletions interleave: without a blind progress
      write, whatever the cache holds or will be sent is a snapshot the row had at that or an earlier step. */
  lemma {:induction false} CacheInventsOnlyBlindly(ws: seq<World>, acts: seq<Action>, i: nat, snap: Snapshot)
    requires IsRun(ws, acts) && i < |ws| && Travels(ws[i], snap)
    requires forall k :: 0 <= k < i ==> !WritesBlindly(ws[k], acts[k])
    ensures Held(ws, i, snap)
  {
    hide Next, WritesBlindly;
    if i > 0 {
      NextTravels(ws[i - 1], acts[i - 1], snap);
      if Travels(ws[i - 1], snap) {
        CacheInventsOnlyBlindly(ws, acts, i - 1, snap);
        var k :| 0 <= k <= i - 1 && ws[k].row.Some? && SnapshotOf(ws[k].row.value) == snap;
        assert 0 <= k <= i;
      }
    }
  }
}
