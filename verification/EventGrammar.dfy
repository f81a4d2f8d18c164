/** The language of event logs a job can produce, defined on logs alone. */
module EventGrammar {
  import opened VideoRow
  import opened Attempt

  /** What has been read: inside attempt `attempt` after `polls` progress events (attempt 0: before
      the first start), after a terminal event, or not a log of the language. */
  datatype Shape = Open(attempt: nat, polls: nat) | Closed(failed: bool) | Bad

  function Read(s: Shape, e: Event): Shape {
    if !s.Open? then Bad
    else match e
      case ProcessingStarted(n) => if n > s.attempt then Open(n, 0) else Bad
      case ProgressUpdated(percent, poll) =>
        if s.attempt > 0 && poll == s.polls + 1 && poll <= MAX_POLLS && percent == PollPercent(poll)
        then Open(s.attempt, poll) else Bad
      case VideoCompleted(_, _) => if s.attempt > 0 && s.polls > 0 then Closed(false) else Bad
      case VideoFailed(_, n) => if n > 0 && n >= s.attempt then Closed(true) else Bad
  }

  function ReadAll(log: seq<Event>): Shape {
    if log == [] then Open(0, 0) else Read(ReadAll(log[..|log| - 1]), log[|log| - 1])
  }

  ghost predicate WellFormed(log: seq<Event>) {
    !ReadAll(log).Bad?
  }

  predicate Terminal(e: Event) {
    e.VideoCompleted? || e.VideoFailed?
  }

  lemma ReadOne(log: seq<Event>, e: Event)
    ensures ReadAll(log + [e]) == Read(ReadAll(log), e)
  {
    assert (log + [e])[..|log|] == log;
  }

  /** Every prefix of a log of the language is one, and is still open unless it is the whole log. */
  lemma {:induction false} Prefixes(log: seq<Event>, i: nat)
    requires WellFormed(log) && i <= |log|
    ensures WellFormed(log[..i])
    ensures i < |log| ==> ReadAll(log[..i]).Open? && Read(ReadAll(log[..i]), log[i]) == ReadAll(log[..i + 1])
  {
    if i == |log| {
      assert log[..i] == log;
    } else {
      var front := log[..|log| - 1];
      if i == |log| - 1 {
        assert log[..i + 1] == log;
      } else {
        Prefixes(front, i);
        Prefixes(front, i + 1);
        assert front[..i] == log[..i] && front[..i + 1] == log[..i + 1];
      }
    }
  }

  /** What the language says event by event: one terminal event at most, at the very end; progress
      counts 1, 2, 3, ... from the start of its attempt up to 30, at 40 + min(50, 2k) percent;
      a completion directly follows a progress event. */
  lemma {:induction false} EventByEvent(log: seq<Event>, i: nat)
    requires WellFormed(log) && i < |log|
    ensures Terminal(log[i]) ==> i == |log| - 1
    ensures log[i].ProgressUpdated? ==>
      && 1 <= log[i].poll <= 30
      && log[i].percent == (if log[i].poll <= 25 then 40 + 2 * log[i].poll else 90)
      && i > 0
      && (if log[i].poll == 1 then log[i - 1].ProcessingStarted?
          else log[i - 1].ProgressUpdated? && log[i - 1].poll == log[i].poll - 1)
    ensures log[i].VideoCompleted? ==> i > 0 && log[i - 1].ProgressUpdated?
  {
    Prefixes(log, i);
    if i + 1 < |log| {
      Prefixes(log, i + 1);
    }
    if i > 0 {
      Prefixes(log, i - 1);
    }
  }

  /** Percentages rise by two within an attempt, up to 90, where they stay. */
  lemma PercentsRise(log: seq<Event>, i: nat)
    requires WellFormed(log) && i + 1 < |log| && log[i].ProgressUpdated? && log[i + 1].ProgressUpdated?
    ensures log[i + 1].poll == log[i].poll + 1
    ensures log[i + 1].percent == if log[i].percent < 90 then log[i].percent + 2 else 90
  {
    EventByEvent(log, i);
    EventByEvent(log, i + 1);
  }

  /** The attempt number reached is an upper bound on every start read so far. */
  lemma {:induction false} AttemptsBounded(log: seq<Event>, i: nat)
    requires ReadAll(log).Open? && i < |log|
    ensures log[i].ProcessingStarted? ==> log[i].attempt <= ReadAll(log).attempt
  {
    var front := log[..|log| - 1];
    if i < |front| {
      AttemptsBounded(front, i);
    }
  }

  /** Attempt numbers strictly increase from one start to the next. */
  lemma StartsRise(log: seq<Event>, i: nat, j: nat)
    requires WellFormed(log) && i < j < |log| && log[i].ProcessingStarted? && log[j].ProcessingStarted?
    ensures log[i].attempt < log[j].attempt
  {
    Prefixes(log, j);
    Prefixes(log, j + 1);
    AttemptsBounded(log[..j], i);
  }
}
