/** Concurrent retries of one DLQ record: the `retried` flag is checked first and set last, with the
    enqueue in between. */
module RetryRace {
  /** A call of `retryFailedJob`: past the check, past the enqueue, done, answered with a conflict, or
      failed before, respectively after, its job was in the queue. */
  datatype Call = Passed | Enqueued | Marked | Refused | Failed | Unmarked

  /** `retried` is the record's flag, `jobs` counts the jobs put into the queue. */
  datatype Race = Race(retried: bool, calls: map<nat, Call>, jobs: nat)

  /** `Fails` is a throw of any write the call has yet to make. */
  datatype Action = Check(c: nat) | Enqueue(c: nat) | Mark(c: nat) | Fails(c: nat)

  function Next(r: Race, a: Action): Race {
    match a
    case Check(c) => if c in r.calls then r else r.(calls := r.calls[c := if r.retried then Refused else Passed])
    case Enqueue(c) =>
      if c in r.calls && r.calls[c].Passed? then r.(calls := r.calls[c := Enqueued], jobs := r.jobs + 1) else r
    case Mark(c) =>
      if c in r.calls && r.calls[c].Enqueued? then r.(calls := r.calls[c := Marked], retried := true) else r
    case Fails(c) =>
      if c in r.calls && r.calls[c].Passed? then r.(calls := r.calls[c := Failed])
      else if c in r.calls && r.calls[c].Enqueued? then r.(calls := r.calls[c := Unmarked])
      else r
  }

  /** A call left to itself, which throws before its enqueue, after it, or not at all. */
  function CallAlone(r: Race, c: nat, early: bool, late: bool): Race {
    var checked := Next(r, Check(c));
    if early then Next(checked, Fails(c))
    else
      var enqueued := Next(checked, Enqueue(c));
      Next(enqueued, if late then Fails(c) else Mark(c))
  }

  lemma CallAloneEnds(r: Race, c: nat, early: bool, late: bool)
    requires c !in r.calls
    ensures var last := CallAlone(r, c, early, late);
            && last.retried == (r.retried || !(early || late))
            && last.jobs == r.jobs + (if r.retried || early then 0 else 1)
            && last.calls == r.calls[c := if r.retried then Refused
                                          else if early then Failed
                                          else if late then Unmarked
                                          else Marked]
  {
  }

  ghost predicate IsRun(rs: seq<Race>, acts: seq<Action>) {
    && |rs| == |acts| + 1
    && rs[0] == Race(false, map[], 0)
    && forall i :: 0 <= i < |acts| ==> rs[i + 1] == Next(rs[i], acts[i])
  }

  ghost function With(r: Race, states: set<Call>): set<nat> {
    set c | c in r.calls && r.calls[c] in states
  }

  const QUEUED: set<Call> := {Enqueued, Marked, Unmarked}

  /** Each call past its enqueue has put exactly one job into the queue. */
  ghost predicate Counted(r: Race) {
    r.jobs == |With(r, QUEUED)|
  }

  lemma NextCounted(r: Race, a: Action)
    requires Counted(r)
    ensures Counted(Next(r, a))
  {
    var r' := Next(r, a);
    var before, after := With(r, QUEUED), With(r', QUEUED);
    if a.Enqueue? && a.c in r.calls && r.calls[a.c].Passed? {
      assert after == before + {a.c};
    } else {
      assert after == before;
    }
  }

  lemma {:induction false} AlwaysCounted(rs: seq<Race>, acts: seq<Action>, i: nat)
    requires IsRun(rs, acts) && i < |rs|
    ensures Counted(rs[i])
  {
    if i > 0 {
      AlwaysCounted(rs, acts, i - 1);
      NextCounted(rs[i - 1], acts[i - 1]);
    }
  }

  // ---- Serialised checks ------------------------------------------------------------------------

  const UNMARKED: set<Call> := {Passed, Enqueued, Unmarked}
  const PAST: set<Call> := {Passed, Enqueued, Unmarked, Marked}

  /** A call passes the check while another one that has passed it has neither marked the record nor failed
      before its enqueue. */
  ghost predicate Overlaps(r: Race, a: Action) {
    a.Check? && a.c !in r.calls && !r.retried && With(r, UNMARKED) != {}
  }

  /** At most one call has passed the check without failing before its enqueue, and it alone can have
      marked the record. */
  ghost predicate Alone(r: Race) {
    && (forall c, d :: c in With(r, PAST) && d in With(r, PAST) ==> c == d)
    && (r.retried <==> With(r, {Marked}) != {})
  }

  lemma NextAlone(r: Race, a: Action)
    requires Alone(r) && !Overlaps(r, a)
    ensures Alone(Next(r, a))
  {
    var r' := Next(r, a);
    forall c | c in With(r', PAST)
      ensures c in With(r, PAST) || (a == Check(c) && With(r, PAST) == {})
    {
      if c !in With(r, PAST) {
        assert With(r, PAST) == With(r, UNMARKED) + With(r, {Marked});
      }
    }
    if a.Mark? && r' != r {
      assert a.c in With(r', {Marked});
    } else {
      assert With(r', {Marked}) == With(r, {Marked});
    }
  }

  lemma {:induction false} AlwaysAlone(rs: seq<Race>, acts: seq<Action>, i: nat)
    requires IsRun(rs, acts) && i < |rs|
    requires forall k :: 0 <= k < i ==> !Overlaps(rs[k], acts[k])
    ensures Alone(rs[i])
  {
    if i > 0 {
      AlwaysAlone(rs, acts, i - 1);
      NextAlone(rs[i - 1], acts[i - 1]);
    }
  }

  lemma AtMostOne(s: set<nat>)
    ensures |s| <= 1 <==> forall c, d :: c in s && d in s ==> c == d
  {
    forall c, d | c in s && d in s && c != d
      ensures |s| > 1
    {
      assert |s - {c}| == |s| - 1 && d in s - {c};
    }
    if |s| > 1 {
      var c :| c in s;
      assert |s - {c}| == |s| - 1;
      var d :| d in s - {c};
    }
  }

  lemma AloneOneJob(r: Race)
    requires Counted(r) && Alone(r)
    ensures r.jobs <= 1
  {
    assert With(r, QUEUED) <= With(r, PAST);
    AtMostOne(With(r, QUEUED));
  }

  /** A run goes on with enqueues alone. */
  function EnqueueAll(r: Race, cs: seq<nat>): Race
    decreases |cs|
  {
    if cs == [] then r else EnqueueAll(Next(r, Enqueue(cs[0])), cs[1..])
  }

  lemma {:induction false} EnqueueAllSafe(r: Race, cs: seq<nat>)
    requires Counted(r) && Alone(r)
    ensures EnqueueAll(r, cs).jobs <= 1
    decreases |cs|
  {
    if cs == [] {
      AloneOneJob(r);
    } else {
      NextCounted(r, Enqueue(cs[0]));
      NextAlone(r, Enqueue(cs[0]));
      EnqueueAllSafe(Next(r, Enqueue(cs[0])), cs[1..]);
    }
  }

  /** After an overlap, enqueues alone put a second job into the queue. */
  lemma OverlapTwoJobs(r: Race, a: Action) returns (cs: seq<nat>)
    requires Counted(r) && Overlaps(r, a)
    ensures EnqueueAll(Next(r, a), cs).jobs >= 2
  {
    var d :| d in With(r, UNMARKED);
    var r' := Next(r, a);
    assert r'.calls[d] == r.calls[d] && r'.calls[a.c] == Passed;
    var last := if r.calls[d].Passed? then Next(r', Enqueue(d)) else r';
    NextCounted(r, a);
    NextCounted(r', Enqueue(d));
    assert last.jobs >= 1 by {
      assert d in With(last, QUEUED);
    }
    assert EnqueueAll(last, [a.c]) == EnqueueAll(Next(last, Enqueue(a.c)), []);
    cs := if r.calls[d].Passed? then [d, a.c] else [a.c];
    assert [d, a.c][1..] == [a.c];
  }

  /** Retries that are serialised, each check waiting until the call before has marked the record or failed
      before its enqueue, enqueue one job at most; and only these are safe: once two overlap, the queue has
      merely to accept what they send to hold two jobs. */
  lemma OneJobExactly(rs: seq<Race>, acts: seq<Action>)
    requires IsRun(rs, acts)
    ensures (forall k :: 0 <= k < |acts| ==> !Overlaps(rs[k], acts[k])) <==>
      forall i, cs :: 0 <= i < |rs| ==> EnqueueAll(rs[i], cs).jobs <= 1
  {
    if forall k :: 0 <= k < |acts| ==> !Overlaps(rs[k], acts[k]) {
      forall i, cs | 0 <= i < |rs|
        ensures EnqueueAll(rs[i], cs).jobs <= 1
      {
        AlwaysCounted(rs, acts, i);
        AlwaysAlone(rs, acts, i);
        EnqueueAllSafe(rs[i], cs);
      }
    } else {
      var k :| 0 <= k < |acts| && Overlaps(rs[k], acts[k]);
      AlwaysCounted(rs, acts, k);
      var cs := OverlapTwoJobs(rs[k], acts[k]);
      assert EnqueueAll(rs[k + 1], cs).jobs >= 2;
    }
  }

  /** In particular the jobs of a serialised run itself. */
  lemma SerialisedOneJob(rs: seq<Race>, acts: seq<Action>)
    requires IsRun(rs, acts) && forall k :: 0 <= k < |acts| ==> !Overlaps(rs[k], acts[k])
    ensures rs[|acts|].jobs <= 1
  {
    OneJobExactly(rs, acts);
    assert EnqueueAll(rs[|acts|], []) == rs[|acts|];
  }

  // ---- Runs -----------------------------------------------------------------------------------

  /** One more action at the end of a run. */
  lemma Then(rs: seq<Race>, acts: seq<Action>, a: Action) returns (rs': seq<Race>, acts': seq<Action>)
    requires IsRun(rs, acts)
    ensures IsRun(rs', acts') && acts' == acts + [a] && rs' == rs + [Next(rs[|acts|], a)]
  {
    rs', acts' := rs + [Next(rs[|acts|], a)], acts + [a];
  }

  /** Two calls that both check first enqueue two jobs. */
  lemma DoubleRetry() returns (rs: seq<Race>, acts: seq<Action>)
    ensures IsRun(rs, acts) && rs[|acts|] == Race(true, map[1 := Marked, 2 := Marked], 2)
  {
    rs, acts := [Race(false, map[], 0)], [];
    rs, acts := Then(rs, acts, Check(1));
    rs, acts := Then(rs, acts, Check(2));
    assert rs[2] == Race(false, map[1 := Passed, 2 := Passed], 0);
    rs, acts := Then(rs, acts, Enqueue(1));
    rs, acts := Then(rs, acts, Mark(1));
    assert rs[4] == Race(true, map[1 := Marked, 2 := Passed], 1);
    rs, acts := Then(rs, acts, Enqueue(2));
    rs, acts := Then(rs, acts, Mark(2));
  }

  /** Strictly one after the other is no help when the first call's last write throws: its job is in the
      queue, the record is still open, and the second call enqueues another. */
  lemma SequentialDoubleRetry() returns (rs: seq<Race>, acts: seq<Action>)
    ensures IsRun(rs, acts)
    ensures acts == [Check(1), Enqueue(1), Fails(1), Check(2), Enqueue(2), Mark(2)]
    ensures rs[|acts|] == Race(true, map[1 := Unmarked, 2 := Marked], 2)
  {
    rs, acts := [Race(false, map[], 0)], [];
    rs, acts := Then(rs, acts, Check(1));
    rs, acts := Then(rs, acts, Enqueue(1));
    rs, acts := Then(rs, acts, Fails(1));
    assert rs[3] == Race(false, map[1 := Unmarked], 1);
    rs, acts := Then(rs, acts, Check(2));
    rs, acts := Then(rs, acts, Enqueue(2));
    rs, acts := Then(rs, acts, Mark(2));
  }

  /** Two calls may overlap and still enqueue one job, if the first one's enqueue throws. */
  lemma FailedEnqueueIsNoJob() returns (rs: seq<Race>, acts: seq<Action>)
    ensures IsRun(rs, acts) && |acts| > 1 && Overlaps(rs[1], acts[1])
    ensures rs[|acts|] == Race(true, map[1 := Failed, 2 := Marked], 1)
  {
    rs, acts := [Race(false, map[], 0)], [];
    rs, acts := Then(rs, acts, Check(1));
    assert 1 in With(rs[1], UNMARKED);
    rs, acts := Then(rs, acts, Check(2));
    rs, acts := Then(rs, acts, Fails(1));
    assert rs[3] == Race(false, map[1 := Failed, 2 := Passed], 0);
    rs, acts := Then(rs, acts, Enqueue(2));
    rs, acts := Then(rs, acts, Mark(2));
  }
}
