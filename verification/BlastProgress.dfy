/**
  Progress of the blast worker: left alone it reaches the end of its job within a bound on the
  attempts left, and which recipients can still go out.
*/
module BlastProgress {
  import opened Timestamps
  import opened BlastTables
  import opened Dispatch
  import opened BlastDrain
  import opened BlastWorker

  // ---------------------------------------------------------------- the bound

  function LimitOf(s: State, job: string): nat { if job in s.jobs then Limit(s.jobs[job]) else 0 }

  /** Attempts left to the worker's job, counting the row in hand as if it came back for another. */
  function Load(s: State): nat
    requires !s.pc.Idle?
  {
    var limit := LimitOf(s, s.pc.job);
    if s.pc.ToClaim? || s.pc.ToReset? then Remaining(ResetSending(s.recs, s.pc.job), s.pc.job, limit)
    else if HeadInHand(s.pc) && BatchOf(s.pc) != [] && BatchOf(s.pc)[0].attempts < limit then
      Remaining(s.recs, s.pc.job, limit) + (limit - BatchOf(s.pc)[0].attempts - 1)
    else Remaining(s.recs, s.pc.job, limit)
  }

  /** Statements the worker can make at most before it is idle. */
  function Bound(s: State): nat {
    match s.pc
    case Idle => 0
    case ToFinish(_, _) => 1
    case ToClose(_) => 2
    case InBatch(_, batch) => 8 * Load(s) + if batch == [] then 6 else 3
    case ToFetch(_) => 8 * Load(s) + 4
    case ToCheck(_) => 8 * Load(s) + 5
    case ToParse(_) => 8 * Load(s) + 6
    case ToReset(_) => 8 * Load(s) + 7
    case ToClaim(_) => 8 * Load(s) + 8
    case ToCountSent(_, _) => 8 * Load(s) + 7
    case ToCountDlq(_, _) => 8 * Load(s) + 7
    case ToPark(_, _, _) => 8 * Load(s) + 8
    case Answered(_, _, _) => 8 * Load(s) + 9
    case Marked(_, _) => 8 * Load(s) + 10
  }

  lemma HeadLoad(s: State, outcome: Outcome)
    requires Inv(s) && BatchOf(s.pc) != []
    ensures var job := s.pc.job;
            var row := BatchOf(s.pc)[0].row;
            var limit := LimitOf(s, job);
            && row < |s.recs| && s.recs[row].attempts == BatchOf(s.pc)[0].attempts < limit
            && Remaining(WorkerStep(s, outcome).recs, job, limit) + Weight(s.recs[row], job, limit)
               == Remaining(s.recs, job, limit) + Weight(HeadAfter(s, outcome), job, limit)
            && Weight(s.recs[row], job, limit) == (if HeadInHand(s.pc) then 0 else limit - s.recs[row].attempts)
  {
    HeadItem(s);
    HeadUpdate(s, outcome);
    var row := BatchOf(s.pc)[0].row;
    assert RecInv(s, s.recs[row]);
    RemainingPoint(s.recs, row, HeadAfter(s, outcome), s.pc.job, LimitOf(s, s.pc.job));
  }

  lemma LimitKept(s: State, outcome: Outcome, job: string)
    requires job in s.jobs
    ensures LimitOf(WorkerStep(s, outcome), job) == LimitOf(s, job)
  {
    WorkKeepsJobs(s, outcome);
  }

  lemma MarkedBound(s: State, outcome: Outcome)
    requires Inv(s) && BatchOf(s.pc) != [] && s.pc.Marked?
    ensures Bound(WorkerStep(s, outcome)) < Bound(s)
  {
    HeadLoad(s, outcome);
    LimitKept(s, outcome, s.pc.job);
  }

  lemma AcceptedBound(s: State, outcome: Outcome)
    requires Inv(s) && BatchOf(s.pc) != [] && s.pc.Answered? && s.pc.outcome.Accepted?
    ensures Bound(WorkerStep(s, outcome)) < Bound(s)
  {
    HeadLoad(s, outcome);
    LimitKept(s, outcome, s.pc.job);
  }

  lemma RejectedBound(s: State, outcome: Outcome)
    requires Inv(s) && BatchOf(s.pc) != [] && s.pc.Answered? && s.pc.outcome.Rejected?
    ensures Bound(WorkerStep(s, outcome)) < Bound(s)
  {
    HeadLoad(s, outcome);
    LimitKept(s, outcome, s.pc.job);
  }

  lemma ParkBound(s: State, outcome: Outcome)
    requires Inv(s) && BatchOf(s.pc) != [] && s.pc.ToPark?
    ensures Bound(WorkerStep(s, outcome)) < Bound(s)
  {
    HeadLoad(s, outcome);
    LimitKept(s, outcome, s.pc.job);
  }

  lemma AheadBound(s: State, outcome: Outcome)
    requires Inv(s) && BatchOf(s.pc) != [] && !HeadInHand(s.pc)
    ensures Bound(WorkerStep(s, outcome)) < Bound(s)
  {
    HeadLoad(s, outcome);
    LimitKept(s, outcome, s.pc.job);
  }

  /** Every statement of the worker brings it closer to being idle. */
  lemma WorkShrinksBound(s: State, outcome: Outcome)
    requires Inv(s) && !s.pc.Idle?
    ensures Bound(WorkerStep(s, outcome)) < Bound(s)
  {
    if s.pc.ToPark? {
      ParkBound(s, outcome);
    } else if s.pc.Marked? {
      MarkedBound(s, outcome);
    } else if s.pc.Answered? {
      if s.pc.outcome.Accepted? {
        AcceptedBound(s, outcome);
      } else {
        RejectedBound(s, outcome);
      }
    } else if BatchOf(s.pc) != [] {
      AheadBound(s, outcome);
    } else {
      LimitKept(s, outcome, s.pc.job);
      ResetKeepsRows(s, outcome);
    }
  }

  /** The worker alone, one statement for each outcome. */
  function Drain(s: State, outcomes: seq<Outcome>): State
    decreases |outcomes|
  {
    if outcomes == [] then s else Drain(WorkerStep(s, outcomes[0]), outcomes[1..])
  }

  function Works(outcomes: seq<Outcome>): seq<Action> {
    seq(|outcomes|, k requires 0 <= k < |outcomes| => Work(outcomes[k]))
  }

  lemma {:induction false} DrainIsRun(s: State, outcomes: seq<Outcome>)
    ensures Drain(s, outcomes) == Continue(s, Works(outcomes))
    decreases |outcomes|
  {
    if outcomes == [] {
      assert Works([]) == [];
    } else {
      var o, rest := outcomes[0], outcomes[1..];
      DrainIsRun(WorkerStep(s, o), rest);
      OneStep(s, Work(o));
      Chain(s, [Work(o)], Works(rest));
      assert Works(outcomes) == [Work(o)] + Works(rest);
    }
  }

  lemma IdleStays(s: State, outcomes: seq<Outcome>)
    requires s.pc.Idle?
    ensures Drain(s, outcomes) == s
    decreases |outcomes|
  {
    if outcomes != [] {
      IdleStays(s, outcomes[1..]);
    }
  }

  lemma BoundIsLinear(s: State)
    requires !s.pc.Idle?
    ensures 0 < Bound(s) <= 8 * Load(s) + 10
  {
  }

  lemma DrainStep(s: State, outcomes: seq<Outcome>, s': State)
    requires outcomes != [] && s' == WorkerStep(s, outcomes[0])
    ensures Drain(s, outcomes) == Drain(s', outcomes[1..])
  {
  }

  /** The first statement of a drain. */
  lemma FirstStep(s: State, outcomes: seq<Outcome>) returns (s': State)
    requires Inv(s) && !s.pc.Idle? && outcomes != []
    ensures s' == WorkerStep(s, outcomes[0]) && Drain(s, outcomes) == Drain(s', outcomes[1..])
    ensures Inv(s') && Bound(s') < Bound(s)
  {
    WorkShrinksBound(s, outcomes[0]);
    WorkKeepsInv(s, outcomes[0]);
    s' := WorkerStep(s, outcomes[0]);
    DrainStep(s, outcomes, s');
  }

  lemma Unrolled(s: State, outcomes: seq<Outcome>) returns (s': State)
    requires Inv(s) && !s.pc.Idle? && |outcomes| >= Bound(s)
    ensures |outcomes| > 0 && Drain(s, outcomes) == Drain(s', outcomes[1..])
    ensures Inv(s') && |outcomes[1..]| >= Bound(s')
  {
    BoundIsLinear(s);
    s' := FirstStep(s, outcomes);
  }

  /** Uninterrupted, the worker is idle after at most `Bound` statements, whatever the dispatches
      answer. `BoundIsLinear` puts that at eight for each attempt left, and ten. */
  lemma {:induction false} DrainEnds(s: State, outcomes: seq<Outcome>)
    requires Inv(s) && |outcomes| >= Bound(s)
    ensures Drain(s, outcomes).pc.Idle? && Inv(Drain(s, outcomes))
    decreases |outcomes|
  {
    if s.pc.Idle? {
      IdleStays(s, outcomes);
    } else {
      var s' := Unrolled(s, outcomes);
      DrainEnds(s', outcomes[1..]);
    }
  }

  // ---------------------------------------------------------------- one recipient of a batch

  /** How many statements the recipient at the head takes. */
  function StatementsFor(s: State, outcome: Outcome): nat
    requires BatchOf(s.pc) != []
  {
    if outcome.Accepted? || BatchOf(s.pc)[0].attempts + 1 < LimitOf(s, s.pc.job) then 4 else 5
  }

  function Alike(outcome: Outcome, n: nat): seq<Outcome> { seq(n, _ => outcome) }

  lemma DrainOne(s: State, outcome: Outcome, n: nat)
    ensures Drain(s, Alike(outcome, 0)) == s
    ensures Drain(s, Alike(outcome, n + 1)) == Drain(WorkerStep(s, outcome), Alike(outcome, n))
  {
    assert Alike(outcome, n + 1)[1..] == Alike(outcome, n);
  }

  lemma DrainTwo(s: State, outcome: Outcome, n: nat)
    ensures Drain(s, Alike(outcome, n + 2)) == Drain(WorkerStep(WorkerStep(s, outcome), outcome), Alike(outcome, n))
  {
    DrainOne(s, outcome, n + 1);
    DrainOne(WorkerStep(s, outcome), outcome, n);
  }

  lemma HeadAsked(s: State, outcome: Outcome, n: nat) returns (t: State)
    requires Inv(s) && s.pc.InBatch? && s.pc.batch != []
    ensures Drain(s, Alike(outcome, n + 2)) == Drain(t, Alike(outcome, n)) && Inv(t)
    ensures var row := s.pc.batch[0].row;
            && row < |s.recs|
            && t == s.(recs := s.recs[row := Changed(s.recs[row], ToSending)], log := s.log + [row],
                       pc := Answered(s.pc.job, s.pc.batch, outcome))
  {
    DrainTwo(s, outcome, n);
    HeadUpdate(s, outcome);
    WorkKeepsInv(s, outcome);
    WorkKeepsInv(WorkerStep(s, outcome), outcome);
    t := WorkerStep(WorkerStep(s, outcome), outcome);
  }

  lemma HeadAccepted(s: State, outcome: Outcome) returns (t: State)
    requires Inv(s) && s.pc.Answered? && s.pc.batch != [] && s.pc.outcome.Accepted?
    ensures Drain(s, Alike(outcome, 2)) == t
    ensures var row := s.pc.batch[0].row;
            && row < |s.recs| && s.pc.job in s.jobs
            && t == s.(recs := s.recs[row := Changed(s.recs[row], ToSent(s.pc.outcome.messageId))],
                       jobs := s.jobs[s.pc.job := Bumped(s.jobs[s.pc.job], SentCounter)],
                       pc := InBatch(s.pc.job, s.pc.batch[1..]))
  {
    DrainTwo(s, outcome, 0);
    DrainOne(WorkerStep(WorkerStep(s, outcome), outcome), outcome, 0);
    HeadUpdate(s, outcome);
    t := WorkerStep(WorkerStep(s, outcome), outcome);
  }

  lemma FailureBumped(s: State, outcome: Outcome) returns (t: State)
    requires Inv(s) && s.pc.Answered? && s.pc.batch != [] && s.pc.outcome.Rejected?
    ensures t == WorkerStep(s, outcome) && Inv(t) && s.pc.job in s.jobs
    ensures t == s.(jobs := s.jobs[s.pc.job := Bumped(s.jobs[s.pc.job], FailedCounter)],
                    pc := ToPark(s.pc.job, s.pc.batch, s.pc.outcome.error))
  {
    WorkKeepsInv(s, outcome);
    t := WorkerStep(s, outcome);
  }

  lemma HeadParked(s: State, outcome: Outcome) returns (t: State)
    requires Inv(s) && s.pc.ToPark? && s.pc.batch != []
    ensures t == WorkerStep(s, outcome)
    ensures var row := s.pc.batch[0].row;
            && row < |s.recs|
            && t == if s.pc.batch[0].attempts + 1 < LimitOf(s, s.pc.job) then
                 s.(recs := s.recs[row := Changed(s.recs[row], ToRetry(s.pc.error))], pc := InBatch(s.pc.job, s.pc.batch[1..]))
               else
                 s.(recs := s.recs[row := Changed(s.recs[row], ToDlq(s.pc.error))], pc := ToCountDlq(s.pc.job, s.pc.batch[1..]))
  {
    HeadUpdate(s, outcome);
    t := WorkerStep(s, outcome);
  }

  lemma HeadRejected(s: State, outcome: Outcome, n: nat) returns (t: State)
    requires Inv(s) && s.pc.Answered? && s.pc.batch != [] && s.pc.outcome.Rejected?
    ensures Drain(s, Alike(outcome, n + 2)) == Drain(t, Alike(outcome, n))
    ensures var row, error := s.pc.batch[0].row, s.pc.outcome.error;
            var jobs := s.jobs[s.pc.job := Bumped(s.jobs[s.pc.job], FailedCounter)];
            && row < |s.recs| && s.pc.job in s.jobs
            && t == if s.pc.batch[0].attempts + 1 < LimitOf(s, s.pc.job) then
                 s.(jobs := jobs, recs := s.recs[row := Changed(s.recs[row], ToRetry(error))], pc := InBatch(s.pc.job, s.pc.batch[1..]))
               else
                 s.(jobs := jobs, recs := s.recs[row := Changed(s.recs[row], ToDlq(error))], pc := ToCountDlq(s.pc.job, s.pc.batch[1..]))
  {
    DrainTwo(s, outcome, n);
    var parking := FailureBumped(s, outcome);
    t := HeadParked(parking, outcome);
  }

  lemma DlqBumped(s: State, outcome: Outcome) returns (t: State)
    requires s.pc.ToCountDlq? && s.pc.job in s.jobs
    ensures Drain(s, Alike(outcome, 1)) == t
    ensures t == s.(jobs := s.jobs[s.pc.job := Bumped(s.jobs[s.pc.job], DlqCounter)], pc := InBatch(s.pc.job, s.pc.batch))
  {
    t := WorkerStep(s, outcome);
    DrainOne(s, outcome, 0);
    DrainOne(t, outcome, 0);
  }

  /** What `BlastStore.ProcessRecipient` makes of the tables, and the worker's place after it. */
  function AfterRecipient(s: State, outcome: Outcome): State
    requires s.pc.InBatch? && s.pc.batch != [] && s.pc.batch[0].row < |s.recs| && s.pc.job in s.jobs
  {
    var job, head := s.pc.job, s.pc.batch[0];
    var limit := LimitOf(s, job);
    s.(recs := s.recs[head.row := AfterDispatch(s.recs[head.row], outcome, limit)],
       jobs := s.jobs[job := Counted(s.jobs[job], outcome, head.attempts + 1 >= limit)],
       log := s.log + [head.row], pc := InBatch(job, s.pc.batch[1..]))
  }

  lemma AcceptedAgrees(s: State, outcome: Outcome)
    requires Inv(s) && s.pc.InBatch? && s.pc.batch != [] && outcome.Accepted?
    ensures s.pc.batch[0].row < |s.recs| && s.pc.job in s.jobs
    ensures Drain(s, Alike(outcome, 4)) == AfterRecipient(s, outcome)
  {
    var t := HeadAsked(s, outcome, 2);
    var u := HeadAccepted(t, outcome);
  }

  /** The row and the job after a rejected dispatch, put together from the single updates. */
  lemma RejectedRow(r: Rec, error: string, limit: nat)
    ensures var sending := Changed(r, ToSending);
            AfterDispatch(r, Rejected(error), limit)
            == if r.attempts + 1 < limit then Changed(sending, ToRetry(error)) else Changed(sending, ToDlq(error))
  {
  }

  lemma RejectedJob(job: Job, error: string)
    ensures Counted(job, Rejected(error), false) == Bumped(job, FailedCounter)
    ensures Counted(job, Rejected(error), true) == Bumped(Bumped(job, FailedCounter), DlqCounter)
  {
  }

  lemma UpdatedTwice(recs: Recs, row: nat, a: Rec, b: Rec)
    requires row < |recs|
    ensures recs[row := a][row := b] == recs[row := b] && recs[row := a][row] == a
  {
  }

  /** Up to the update of the row: only the count of the dead letter can be left. */
  lemma RejectedSoFar(s: State, outcome: Outcome, n: nat) returns (u: State)
    requires Inv(s) && s.pc.InBatch? && s.pc.batch != [] && outcome.Rejected?
    ensures Drain(s, Alike(outcome, n + 4)) == Drain(u, Alike(outcome, n))
    ensures var job, head := s.pc.job, s.pc.batch[0];
            var limit := LimitOf(s, job);
            && head.row < |s.recs| && job in s.jobs
            && u == s.(recs := s.recs[head.row := AfterDispatch(s.recs[head.row], outcome, limit)],
                       jobs := s.jobs[job := Bumped(s.jobs[job], FailedCounter)], log := s.log + [head.row],
                       pc := if head.attempts + 1 < limit then InBatch(job, s.pc.batch[1..]) else ToCountDlq(job, s.pc.batch[1..]))
  {
    HeadItem(s);
    var row := s.pc.batch[0].row;
    var t := HeadAsked(s, outcome, n + 2);
    u := HeadRejected(t, outcome, n);
    RejectedRow(s.recs[row], outcome.error, LimitOf(s, s.pc.job));
    UpdatedTwice(s.recs, row, t.recs[row], u.recs[row]);
  }

  lemma RejectedAgrees(s: State, outcome: Outcome)
    requires Inv(s) && s.pc.InBatch? && s.pc.batch != [] && outcome.Rejected?
    ensures s.pc.batch[0].row < |s.recs| && s.pc.job in s.jobs
    ensures Drain(s, Alike(outcome, StatementsFor(s, outcome))) == AfterRecipient(s, outcome)
  {
    var n := StatementsFor(s, outcome) - 4;
    var u := RejectedSoFar(s, outcome, n);
    RejectedJob(s.jobs[s.pc.job], outcome.error);
    if n == 0 {
      DrainOne(u, outcome, 0);
    } else {
      var v := DlqBumped(u, outcome);
    }
  }

  /** From one recipient of a batch to the next the worker does what `BlastStore.ProcessRecipient` does:
      the row after its dispatch, the counters, and nothing else. */
  lemma RecipientAgrees(s: State, outcome: Outcome)
    requires Inv(s) && s.pc.InBatch? && s.pc.batch != []
    ensures s.pc.batch[0].row < |s.recs| && s.pc.job in s.jobs
    ensures Drain(s, Alike(outcome, StatementsFor(s, outcome))) == AfterRecipient(s, outcome)
  {
    if outcome.Accepted? {
      AcceptedAgrees(s, outcome);
    } else {
      RejectedAgrees(s, outcome);
    }
  }

  // ---------------------------------------------------------------- what a drain leaves behind

  /** A row of the job is `sending` and not in the worker's hands. */
  ghost predicate HasStray(s: State, job: string) {
    exists i :: 0 <= i < |s.recs| && s.recs[i].jobId == job && s.recs[i].status == Sending && !InHand(s.pc, i)
  }

  /** The worker is on this running job, and has not closed it while rows were pending. */
  ghost predicate OnJob(s: State, job: string) {
    && !s.pc.Idle? && s.pc.job == job && job in s.jobs && s.jobs[job].status == Running && s.jobs[job].bodyIsJson
    && !s.pc.ToClaim? && (s.pc.ToClose? || s.pc.ToFinish? ==> NothingPending(s.recs, job))
  }

  lemma StrayStays(s: State, outcome: Outcome, job: string)
    requires Inv(s) && OnJob(s, job) && !s.pc.ToReset? && HasStray(s, job)
    ensures HasStray(WorkerStep(s, outcome), job)
  {
    var i :| 0 <= i < |s.recs| && s.recs[i].jobId == job && s.recs[i].status == Sending && !InHand(s.pc, i);
    WorkSparesStranded(s, outcome, i);
    assert WorkerStep(s, outcome).recs[i] == s.recs[i];
  }

  lemma NoStrayAppears(s: State, outcome: Outcome, job: string)
    requires Inv(s) && OnJob(s, job) && (s.pc.ToReset? || !HasStray(s, job))
    ensures !HasStray(WorkerStep(s, outcome), job)
  {
    var s' := WorkerStep(s, outcome);
    if BatchOf(s.pc) != [] {
      HeadItem(s);
      HeadUpdate(s, outcome);
    } else {
      ResetKeepsRows(s, outcome);
    }
    forall i | 0 <= i < |s'.recs| && s'.recs[i].jobId == job && s'.recs[i].status == Sending
      ensures InHand(s'.pc, i)
    {
      assert s.recs[i].jobId == job;
    }
  }

  /** A fetch that comes back empty has seen that nothing is pending. */
  lemma FetchSeesPending(s: State, outcome: Outcome)
    requires s.pc.ToFetch?
    ensures WorkerStep(s, outcome).recs == s.recs && WorkerStep(s, outcome).jobs == s.jobs
    ensures var pc := WorkerStep(s, outcome).pc;
            if NothingPending(s.recs, s.pc.job) then pc == ToClose(s.pc.job)
            else pc == InBatch(s.pc.job, ReadBatch(s.recs, s.pc.job)) && ReadBatch(s.recs, s.pc.job) != []
  {
    if NothingPending(s.recs, s.pc.job) {
      NoPendingRows(s.recs, s.pc.job, BATCH_SIZE, |s.recs|);
      assert ReadBatch(s.recs, s.pc.job) == [];
    }
  }

  lemma StaysOnJob(s: State, outcome: Outcome, job: string)
    requires Inv(s) && OnJob(s, job)
    ensures var s' := WorkerStep(s, outcome);
            || OnJob(s', job)
            || (s'.pc.Idle? && NothingPending(s'.recs, job)
                && (s'.jobs[job].status == Completed || s'.jobs[job].status == CompletedWithFailures))
  {
    if s.pc.ToFetch? {
      FetchSeesPending(s, outcome);
    }
  }

  lemma IdleAndNothingPending(s: State, job: string)
    requires Inv(s) && s.pc.Idle? && NothingPending(s.recs, job)
    ensures AllSettled(s.recs, job) <==> !HasStray(s, job)
  {
    if AllSettled(s.recs, job) {
      assert forall i :: 0 <= i < |s.recs| && s.recs[i].jobId == job ==> IsSettled(s.recs[i]);
    }
    forall i | 0 <= i < |s.recs| && s.recs[i].jobId == job
      ensures IsSettled(s.recs[i]) || s.recs[i].status == Sending
    {
      assert !IsPending(s.recs[i], job);
    }
  }

  lemma UnrolledOnJob(s: State, outcomes: seq<Outcome>, job: string) returns (s': State)
    requires Inv(s) && OnJob(s, job) && |outcomes| >= Bound(s)
    ensures |outcomes| > 0 && Drain(s, outcomes) == Drain(s', outcomes[1..])
    ensures Inv(s') && |outcomes[1..]| >= Bound(s')
    ensures s'.pc.Idle? ==> NothingPending(s'.recs, job) && HasFinished(s', job)
    ensures !s'.pc.Idle? ==> OnJob(s', job) && !s'.pc.ToReset?
    ensures HasStray(s', job) <==> HasStray(s, job) && !s.pc.ToReset?
  {
    BoundIsLinear(s);
    s' := FirstStep(s, outcomes);
    StaysOnJob(s, outcomes[0], job);
    if s.pc.ToReset? || !HasStray(s, job) {
      NoStrayAppears(s, outcomes[0], job);
    } else {
      StrayStays(s, outcomes[0], job);
    }
  }

  predicate HasFinished(s: State, job: string) {
    job in s.jobs && (s.jobs[job].status == Completed || s.jobs[job].status == CompletedWithFailures)
  }

  /** The worker on a running job, left alone: it closes the job, and then every row is settled exactly
      when none was `sending` outside its hands; a job it is about to reset is always settled. */
  lemma {:induction false} DrainSettles(s: State, outcomes: seq<Outcome>, job: string)
    requires Inv(s) && OnJob(s, job) && |outcomes| >= Bound(s)
    ensures Drain(s, outcomes).pc.Idle? && HasFinished(Drain(s, outcomes), job)
    ensures AllSettled(Drain(s, outcomes).recs, job) <==> s.pc.ToReset? || !HasStray(s, job)
    decreases |outcomes|
  {
    var s' := UnrolledOnJob(s, outcomes, job);
    if s'.pc.Idle? {
      IdleStays(s', outcomes[1..]);
      IdleAndNothingPending(s', job);
    } else {
      DrainSettles(s', outcomes[1..], job);
    }
  }

  /** A job found `running` by an idle worker: at most 8 * attempts left + 6 statements after the tick it
      is closed, and all its rows are settled exactly when none was `sending`. */
  lemma ResumedJobSettles(s: State, job: string, now: Civil, outcomes: seq<Outcome>)
    requires Inv(s) && s.pc.Idle? && job in s.jobs && s.jobs[job].status == Running && s.jobs[job].bodyIsJson
    requires |outcomes| >= 8 * Remaining(s.recs, job, Limit(s.jobs[job])) + 6
    ensures var t := Drain(Next(s, Tick(job, now)), outcomes);
            t.pc.Idle? && HasFinished(t, job) && (AllSettled(t.recs, job) <==> NoneSending(s.recs, job))
  {
    var s1 := Next(s, Tick(job, now));
    assert s1 == s.(pc := ToParse(job));
    NextKeepsInv(s, Tick(job, now));
    DrainSettles(s1, outcomes, job);
    assert HasStray(s1, job) <==> !NoneSending(s.recs, job);
  }

  lemma ClaimedNext(s: State, outcomes: seq<Outcome>, job: string)
    requires Inv(s) && s.pc == ToClaim(job) && job in s.jobs && s.jobs[job].status == JobPending && s.jobs[job].bodyIsJson
    requires |outcomes| >= Bound(s)
    ensures var t := Drain(s, outcomes);
            t.pc.Idle? && HasFinished(t, job) && AllSettled(t.recs, job)
  {
    var s' := FirstStep(s, outcomes);
    assert s'.pc == ToReset(job) && OnJob(s', job);
    DrainSettles(s', outcomes[1..], job);
  }

  lemma TickClaims(s: State, job: string, now: Civil) returns (t: State)
    requires Inv(s) && s.pc.Idle? && TickPc(s, job, now) == ToClaim(job)
    ensures t == Next(s, Tick(job, now)) == s.(pc := ToClaim(job)) && Inv(t)
    ensures job in s.jobs && s.jobs[job].status == JobPending
    ensures Bound(t) == 8 * Remaining(ResetSending(s.recs, job), job, Limit(s.jobs[job])) + 8
  {
    NextKeepsInv(s, Tick(job, now));
    t := Next(s, Tick(job, now));
  }

  /** A job claimed by an idle worker is settled whatever its rows were. */
  lemma ClaimedJobSettles(s: State, job: string, now: Civil, outcomes: seq<Outcome>)
    requires Inv(s) && s.pc.Idle? && TickPc(s, job, now) == ToClaim(job) && s.jobs[job].bodyIsJson
    requires |outcomes| >= 8 * Remaining(ResetSending(s.recs, job), job, Limit(s.jobs[job])) + 8
    ensures var t := Drain(Next(s, Tick(job, now)), outcomes);
            t.pc.Idle? && HasFinished(t, job) && AllSettled(t.recs, job)
  {
    var t := TickClaims(s, job, now);
    ClaimedNext(t, outcomes, job);
  }
}
