/** What the handler's poll loop makes of any sequence of provider answers. */
module PollLoop {
  import opened Base
  import opened VideoRow
  import opened Attempt
  import opened Processor

  /** `answers(k)` is the provider's k-th answer, k from 1. The URL comes from the k-th exactly when the
      submission and all earlier answers said `processing`, none of them carried a URL, and k is in range. */
  ghost predicate Yields(submitted: GenStatus, answers: nat -> GenResult, k: nat) {
    && 1 <= k <= MAX_POLLS && HasUrl(answers(k)) && Asked(submitted, answers, k)
  }

  /** The loop gets to ask for the k-th answer. */
  ghost predicate Asked(submitted: GenStatus, answers: nat -> GenResult, k: nat) {
    && submitted == GenProcessing
    && forall j :: 1 <= j < k ==> answers(j).status == GenProcessing && !HasUrl(answers(j))
  }

  /** The loop stops empty-handed after exactly k answers: the last status was not `processing`, or
      the budget is spent. */
  ghost predicate GivesUp(submitted: GenStatus, answers: nat -> GenResult, k: nat) {
    && k <= MAX_POLLS
    && (k > 0 ==> Asked(submitted, answers, k) && !HasUrl(answers(k)))
    && (StatusAfter(submitted, answers, k) != GenProcessing || k == MAX_POLLS)
  }

  ghost function StatusAfter(submitted: GenStatus, answers: nat -> GenResult, k: nat): GenStatus {
    if k == 0 then submitted else answers(k).status
  }

  /** Every sequence of answers leads to exactly one end. */
  lemma OneEnd(submitted: GenStatus, answers: nat -> GenResult)
    ensures (exists k :: Yields(submitted, answers, k)) <==> !(exists k :: GivesUp(submitted, answers, k))
    ensures forall k, l :: Yields(submitted, answers, k) && Yields(submitted, answers, l) ==> k == l
    ensures forall k, l :: GivesUp(submitted, answers, k) && GivesUp(submitted, answers, l) ==> k == l
  {
    EndFrom(submitted, answers, 0);
  }

  /** Somewhere from the k-th question on the loop ends. */
  lemma {:induction false} EndFrom(submitted: GenStatus, answers: nat -> GenResult, k: nat)
    requires k <= MAX_POLLS && (k > 0 ==> Asked(submitted, answers, k) && !HasUrl(answers(k)))
    ensures (exists l :: Yields(submitted, answers, l)) || (exists l :: GivesUp(submitted, answers, l))
    decreases MAX_POLLS - k
  {
    if StatusAfter(submitted, answers, k) != GenProcessing || k == MAX_POLLS {
      assert GivesUp(submitted, answers, k);
    } else {
      assert Asked(submitted, answers, k + 1);
      if HasUrl(answers(k + 1)) {
        assert Yields(submitted, answers, k + 1);
      } else {
        EndFrom(submitted, answers, k + 1);
      }
    }
  }

  // ---- The handler's machine does just that -----------------------------------------------------

  /** Nothing throws, and the provider's k-th answer arrives with reply 3(k-1): a poll, the progress
      write and the progress report make three steps. */
  ghost predicate Answering(replies: nat -> Reply, answers: nat -> GenResult) {
    && (forall n :: replies(n).fault.None?)
    && (forall k :: k >= 1 ==> replies(3 * (k - 1)).result == answers(k))
  }

  /** The machine stands at the head of the loop. */
  ghost predicate AtLoopHead(s: Solo, submitted: GenStatus) {
    s.x.pc.AwaitPoll? && s.x.pc.status == submitted && s.x.pc.polls == 0
  }

  lemma NotYet(s: Solo, replies: nat -> Reply)
    ensures SoloAt(s, replies, 0) == s
  {
  }

  lemma OnePoll(s: Solo, replies: nat -> Reply, n: nat)
    requires SoloAt(s, replies, n).x.pc.AwaitPoll?
    requires SoloAt(s, replies, n).x.pc.status == GenProcessing && SoloAt(s, replies, n).x.pc.polls < MAX_POLLS
    requires replies(n).fault.None? && replies(n + 1).fault.None? && replies(n + 2).fault.None?
    ensures var pc, g := SoloAt(s, replies, n).x.pc, replies(n).result;
            SoloAt(s, replies, n + 3).x.pc ==
              if HasUrl(g) then StoreVideo(g, pc.polls + 1) else AwaitPoll(pc.jobId, g.status, pc.polls + 1)
  {
    hide SoloAt;
    Stepped(s, replies, n);
    Stepped(s, replies, n + 1);
    Stepped(s, replies, n + 2);
  }

  /** After k answers without an end the machine is back at the loop head, with k polls counted. */
  lemma {:induction false} BackAtHead(s: Solo, submitted: GenStatus, replies: nat -> Reply,
                                      answers: nat -> GenResult, k: nat)
    requires AtLoopHead(s, submitted) && Answering(replies, answers)
    requires k <= MAX_POLLS && (k > 0 ==> Asked(submitted, answers, k) && !HasUrl(answers(k)))
    ensures SoloAt(s, replies, 3 * k).x.pc == AwaitPoll(s.x.pc.jobId, StatusAfter(submitted, answers, k), k)
  {
    hide SoloAt, SoloStep;
    NotYet(s, replies);
    if k > 0 {
      BackAtHead(s, submitted, replies, answers, k - 1);
      OnePoll(s, replies, 3 * (k - 1));
    }
  }

  /** What being at `pc` after n steps says about the answers. */
  ghost predicate Explains(submitted: GenStatus, answers: nat -> GenResult, n: nat, pc: Pc) {
    match pc
    case AwaitPoll(_, status, k) =>
      n == 3 * k && k <= MAX_POLLS && status == StatusAfter(submitted, answers, k)
      && (k > 0 ==> Asked(submitted, answers, k) && !HasUrl(answers(k)))
    case RecordPoll(_, g, k) => n + 2 == 3 * k && 1 <= k <= MAX_POLLS && g == answers(k) && Asked(submitted, answers, k)
    case ReportPoll(_, g, k) => n + 1 == 3 * k && 1 <= k <= MAX_POLLS && g == answers(k) && Asked(submitted, answers, k)
    case StoreVideo(g, k) => g == answers(k) && Yields(submitted, answers, k)
    case CompleteRow(_, _) | ReportDone(_, _) | Returned => true
    case Handle(e) => e.NoVideoAfter? && GivesUp(submitted, answers, e.polls)
    case EvictStatus(_) | Threw(_) => true
    case _ => false
  }

  lemma StepExplains(submitted: GenStatus, answers: nat -> GenResult, n: nat, x: Execution, row: Option<Row>, r: Reply)
    requires Explains(submitted, answers, n, x.pc) && r.fault.None?
    requires x.pc.AwaitPoll? ==> r.result == answers(x.pc.polls + 1)
    ensures Explains(submitted, answers, n + 1, Step(x, row, r).pc)
  {
    if x.pc.AwaitPoll? && x.pc.polls > 0 && x.pc.status == GenProcessing {
      assert Asked(submitted, answers, x.pc.polls + 1);
    }
  }

  lemma {:induction false} AlwaysExplained(s: Solo, submitted: GenStatus, replies: nat -> Reply,
                                           answers: nat -> GenResult, n: nat)
    requires AtLoopHead(s, submitted) && Answering(replies, answers)
    ensures Explains(submitted, answers, n, SoloAt(s, replies, n).x.pc)
  {
    hide SoloAt;
    if n == 0 {
      NotYet(s, replies);
    } else {
      AlwaysExplained(s, submitted, replies, answers, n - 1);
      var before := SoloAt(s, replies, n - 1);
      Stepped(s, replies, n - 1);
      if before.x.pc.AwaitPoll? {
        assert n - 1 == 3 * (before.x.pc.polls + 1 - 1);
      }
      StepExplains(submitted, answers, n - 1, before.x, before.cell.row, replies(n - 1));
    }
  }

  lemma LoopEnds(s: Solo, submitted: GenStatus, replies: nat -> Reply, answers: nat -> GenResult, k: nat)
    requires AtLoopHead(s, submitted) && Answering(replies, answers)
    ensures Yields(submitted, answers, k) ==> SoloAt(s, replies, 3 * k).x.pc == StoreVideo(answers(k), k)
    ensures GivesUp(submitted, answers, k) ==> SoloAt(s, replies, 3 * k + 1).x.pc == Handle(NoVideoAfter(k))
  {
    hide SoloAt;
    if Yields(submitted, answers, k) {
      BackAtHead(s, submitted, replies, answers, k - 1);
      OnePoll(s, replies, 3 * (k - 1));
    }
    if GivesUp(submitted, answers, k) {
      BackAtHead(s, submitted, replies, answers, k);
      Stepped(s, replies, 3 * k);
    }
  }

  /** For every sequence of answers, and in both directions: the handler goes on to store the k-th answer
      exactly if that is the answer that yields the URL, and it throws for want of a video, reporting k
      polls, exactly if the loop gives up after k answers. */
  lemma PollLoopExact(s: Solo, submitted: GenStatus, replies: nat -> Reply, answers: nat -> GenResult, k: nat)
    requires AtLoopHead(s, submitted) && Answering(replies, answers)
    ensures Yields(submitted, answers, k) ==> SoloAt(s, replies, 3 * k).x.pc == StoreVideo(answers(k), k)
    ensures GivesUp(submitted, answers, k) ==> SoloAt(s, replies, 3 * k + 1).x.pc == Handle(NoVideoAfter(k))
    ensures Yields(submitted, answers, k) <==> exists n: nat :: SoloAt(s, replies, n).x.pc == StoreVideo(answers(k), k)
    ensures GivesUp(submitted, answers, k) <==> exists n: nat :: SoloAt(s, replies, n).x.pc == Handle(NoVideoAfter(k))
  {
    hide SoloAt, SoloStep;
    LoopEnds(s, submitted, replies, answers, k);
    forall n: nat
      ensures Explains(submitted, answers, n, SoloAt(s, replies, n).x.pc)
    {
      AlwaysExplained(s, submitted, replies, answers, n);
    }
  }
}
