/**
  How blast jobs end: which cancels stick, what the closing status says about the rows, and the runs in
  which the outcome is not the one documented.
*/
module BlastOutcome {
  import opened Wrappers
  import opened BlastTables
  import opened Dispatch
  import opened BlastDrain
  import opened BlastWorker
  import opened BlastProgress

  // ---------------------------------------------------------------- a cancel that does not stick

  /** The worker is on its way to `finish_job` without another look at the status: it has read
      `running` for the last time, or it will not be able to parse the body. */
  predicate IsClosing(s: State, job: string) {
    || s.pc == ToClose(job)
    || (s.pc.ToFinish? && s.pc.job == job)
    || (s.pc == ToFetch(job) && NothingPending(s.recs, job))
    || ((s.pc == ToParse(job) || s.pc == ToReset(job)) && job in s.jobs && !s.jobs[job].bodyIsJson)
  }

  predicate IsCancelled(s: State, job: string) { job in s.jobs && s.jobs[job].status == JobCancelled }

  lemma PendingStays(s: State, a: Action, job: string)
    requires s.pc == ToFetch(job) && !a.Work? && !NothingPending(s.recs, job)
    ensures !NothingPending(Next(s, a).recs, job)
  {
    var i :| 0 <= i < |s.recs| && IsPending(s.recs[i], job);
    assert IsPending(Next(s, a).recs[i], job);
  }

  lemma WorkStaysCancelled(s: State, outcome: Outcome, job: string)
    requires IsCancelled(s, job) && !IsClosing(s, job)
    ensures IsCancelled(WorkerStep(s, outcome), job) && !IsClosing(WorkerStep(s, outcome), job)
  {
    if s.pc == ToFetch(job) {
      FetchSeesPending(s, outcome);
    }
  }

  lemma CallStaysCancelled(s: State, a: Action, job: string)
    requires IsCancelled(s, job) && !IsClosing(s, job) && a != Reopen(job) && !a.Work?
    ensures IsCancelled(Next(s, a), job) && !IsClosing(Next(s, a), job)
  {
    NextKeepsJobs(s, a);
    if s.pc == ToFetch(job) {
      PendingStays(s, a, job);
    }
    assert a.Tick? || a.Die? || Next(s, a).pc == s.pc;
  }

  lemma {:induction false} CancelSticks(s: State, more: seq<Action>, job: string)
    requires IsCancelled(s, job) && !IsClosing(s, job) && Reopen(job) !in more
    ensures IsCancelled(Continue(s, more), job) && !IsClosing(Continue(s, more), job)
  {
    if more != [] {
      var init, a := more[..|more| - 1], more[|more| - 1];
      CancelSticks(s, init, job);
      if a.Work? {
        WorkStaysCancelled(Continue(s, init), a.outcome, job);
      } else {
        CallStaysCancelled(Continue(s, init), a, job);
      }
    }
  }

  lemma FinishOverwrites(s: State, job: string)
    requires PcInv(s) && job in s.jobs && s.pc.ToFinish? && s.pc.job == job
    ensures !IsCancelled(Next(s, STEP), job)
  {
  }

  /** A step of a closing worker that is not yet finishing. */
  lemma ClosingStep(s: State, job: string)
    requires Inv(s) && job in s.jobs && IsClosing(s, job) && !s.pc.ToFinish?
    ensures var s' := Next(s, STEP);
            Inv(s') && job in s'.jobs && IsClosing(s', job) && Bound(s') < Bound(s)
  {
    WorkKeepsInv(s, STEP.outcome);
    WorkShrinksBound(s, STEP.outcome);
    WorkKeepsJobs(s, STEP.outcome);
    if s.pc == ToFetch(job) {
      FetchSeesPending(s, STEP.outcome);
    }
  }

  lemma {:induction false} CancelIsOverwritten(s: State, job: string) returns (more: seq<Action>)
    requires Inv(s) && job in s.jobs && IsClosing(s, job)
    ensures Reopen(job) !in more && !IsCancelled(Continue(s, more), job)
    decreases Bound(s)
  {
    OneStep(s, STEP);
    more := [STEP];
    if s.pc.ToFinish? {
      FinishOverwrites(s, job);
    } else {
      ClosingStep(s, job);
      var rest := CancelIsOverwritten(Next(s, STEP), job);
      Chain(s, [STEP], rest);
      more := [STEP] + rest;
    }
  }

  /** `finish_job` has no status guard, so a cancelled job stays cancelled exactly when the worker is
      not already closing it (and nobody reopens it). */
  lemma CancelSticksExactlyWhen(s: State, job: string)
    requires Inv(s) && IsCancelled(s, job)
    ensures (forall more: seq<Action> :: Reopen(job) !in more ==> IsCancelled(Continue(s, more), job)) <==> !IsClosing(s, job)
  {
    if IsClosing(s, job) {
      var more := CancelIsOverwritten(s, job);
    } else {
      forall more: seq<Action> | Reopen(job) !in more
        ensures IsCancelled(Continue(s, more), job)
      {
        CancelSticks(s, more, job);
      }
    }
  }

  // ---------------------------------------------------------------- the dead-letter ledger

  function DlqWeight(r: Rec, job: string): nat { if r.jobId == job && r.status == Dlq then 1 else 0 }

  function DlqRows(recs: Recs, job: string): nat {
    if recs == [] then 0 else DlqRows(recs[..|recs| - 1], job) + DlqWeight(recs[|recs| - 1], job)
  }

  lemma {:induction false} DlqPoint(recs: Recs, i: nat, r: Rec, job: string)
    requires i < |recs|
    ensures DlqRows(recs[i := r], job) + DlqWeight(recs[i], job) == DlqRows(recs, job) + DlqWeight(r, job)
  {
    var last := |recs| - 1;
    if i == last {
      assert recs[i := r][..last] == recs[..last];
    } else {
      DlqPoint(recs[..last], i, r, job);
      assert recs[i := r][..last] == recs[..last][i := r];
    }
  }

  lemma {:induction false} DlqSame(before: Recs, after: Recs, job: string)
    requires |before| == |after|
    requires forall i :: 0 <= i < |before| ==> DlqWeight(before[i], job) == DlqWeight(after[i], job)
    ensures DlqRows(before, job) == DlqRows(after, job)
  {
    if before != [] {
      DlqSame(before[..|before| - 1], after[..|after| - 1], job);
    }
  }

  lemma {:induction false} NoDlqRows(recs: Recs, job: string)
    ensures DlqRows(recs, job) == 0 <==> forall i :: 0 <= i < |recs| ==> !(recs[i].jobId == job && recs[i].status == Dlq)
  {
    if recs != [] {
      var last := |recs| - 1;
      NoDlqRows(recs[..last], job);
      assert forall i :: 0 <= i < last ==> recs[..last][i] == recs[i];
    }
  }

  predicate MarksDlq(s: State, a: Action, job: string) {
    && a.Work? && s.pc.ToPark? && s.pc.job == job && s.pc.batch != []
    && job in s.jobs && s.pc.batch[0].attempts + 1 >= Limit(s.jobs[job])
  }

  predicate LosesUpdate(s: State, a: Action, job: string) { a.Die? && s.pc.ToCountDlq? && s.pc.job == job }

  /** Recipients of the job dead-lettered in the run. */
  function Marks(run: seq<Action>, job: string): nat {
    if run == [] then 0
    else
      var init, a := run[..|run| - 1], run[|run| - 1];
      Marks(init, job) + if MarksDlq(Continue(EMPTY, init), a, job) then 1 else 0
  }

  /** Times the worker died after the row was marked and before the counter was. */
  function Lost(run: seq<Action>, job: string): nat {
    if run == [] then 0
    else
      var init, a := run[..|run| - 1], run[|run| - 1];
      Lost(init, job) + if LosesUpdate(Continue(EMPTY, init), a, job) then 1 else 0
  }

  /** Dead-lettered recipients put back in line by retry calls. */
  function Requeued(run: seq<Action>, job: string): nat {
    if run == [] then 0
    else
      var init, a := run[..|run| - 1], run[|run| - 1];
      Requeued(init, job) + if a == Requeue(job) then DlqRows(Continue(EMPTY, init).recs, job) else 0
  }

  function DlqCount(s: State, job: string): nat { if job in s.jobs then s.jobs[job].dlqCount else 0 }

  function Uncounted(s: State, job: string): nat { if s.pc.ToCountDlq? && s.pc.job == job then 1 else 0 }

  lemma HeadWeight(s: State, outcome: Outcome, job: string)
    requires Inv(s) && BatchOf(s.pc) != [] && BatchOf(s.pc)[0].row < |s.recs|
    ensures DlqWeight(s.recs[BatchOf(s.pc)[0].row], job) == 0
    ensures DlqWeight(HeadAfter(s, outcome), job) == if MarksDlq(s, Work(outcome), job) then 1 else 0
  {
    HeadItem(s);
  }

  lemma WorkDlqRows(s: State, outcome: Outcome, job: string)
    requires Inv(s)
    ensures DlqRows(WorkerStep(s, outcome).recs, job)
         == DlqRows(s.recs, job) + if MarksDlq(s, Work(outcome), job) then 1 else 0
  {
    if BatchOf(s.pc) != [] {
      HeadUpdate(s, outcome);
      HeadWeight(s, outcome, job);
      DlqPoint(s.recs, BatchOf(s.pc)[0].row, HeadAfter(s, outcome), job);
    } else {
      ResetKeepsRows(s, outcome);
      DlqSame(s.recs, WorkerStep(s, outcome).recs, job);
    }
  }

  lemma RequeueDlqRows(recs: Recs, id: string, job: string)
    ensures DlqRows(RequeueFailed(recs, id), job) == if id == job then 0 else DlqRows(recs, job)
  {
    if id == job {
      NoDlqRows(RequeueFailed(recs, id), job);
    } else {
      DlqSame(recs, RequeueFailed(recs, id), job);
    }
  }

  lemma InsertDlqRows(recs: Recs, id: string, sessionId: string, recipient: string, status: RecStatus, job: string)
    requires status != Dlq
    ensures DlqRows(InsertRec(recs, id, sessionId, recipient, status), job) == DlqRows(recs, job)
  {
    var after := InsertRec(recs, id, sessionId, recipient, status);
    if |after| > |recs| {
      assert after[..|recs|] == recs;
    }
  }

  lemma CallDlqRows(s: State, a: Action, job: string)
    requires Inv(s) && !a.Work?
    ensures DlqRows(Next(s, a).recs, job) == if a == Requeue(job) then 0 else DlqRows(s.recs, job)
  {
    match a
    case AddRecipient(id, recipient, duplicate) =>
      if id in s.jobs {
        InsertDlqRows(s.recs, id, s.jobs[id].sessionId, recipient, if duplicate then SkippedDup else Pending, job);
      }
    case Requeue(id) => RequeueDlqRows(s.recs, id, job);
    case _ =>
  }

  lemma WorkDlqCount(s: State, outcome: Outcome, job: string)
    requires Inv(s)
    ensures var s' := WorkerStep(s, outcome);
            DlqCount(s', job) + Uncounted(s', job)
            == DlqCount(s, job) + Uncounted(s, job) + if MarksDlq(s, Work(outcome), job) then 1 else 0
  {
  }

  lemma CallDlqCount(s: State, a: Action, job: string)
    requires Inv(s) && !a.Work?
    ensures DlqCount(Next(s, a), job) == DlqCount(s, job)
    ensures Uncounted(Next(s, a), job) + (if LosesUpdate(s, a, job) then 1 else 0) == Uncounted(s, job)
  {
  }

  lemma NextDlq(s: State, a: Action, job: string) returns (s': State)
    requires Inv(s)
    ensures s' == Next(s, a)
    ensures var mark := if MarksDlq(s, a, job) then 1 else 0;
            && DlqRows(s'.recs, job) + (if a == Requeue(job) then DlqRows(s.recs, job) else 0) == DlqRows(s.recs, job) + mark
            && DlqCount(s', job) + Uncounted(s', job) + (if LosesUpdate(s, a, job) then 1 else 0)
               == DlqCount(s, job) + Uncounted(s, job) + mark
  {
    s' := Next(s, a);
    if a.Work? {
      WorkDlqRows(s, a.outcome, job);
      WorkDlqCount(s, a.outcome, job);
    } else {
      CallDlqRows(s, a, job);
      CallDlqCount(s, a, job);
    }
  }

  /** Over every run: the rows in the queue are those marked and not requeued, and the counter is the
      marks whose update was not lost. */
  lemma {:induction false} DlqLedger(run: seq<Action>, job: string)
    ensures var s := Continue(EMPTY, run);
            && DlqRows(s.recs, job) + Requeued(run, job) == Marks(run, job)
            && DlqCount(s, job) + Uncounted(s, job) + Lost(run, job) == Marks(run, job)
  {
    if run != [] {
      var init, a := run[..|run| - 1], run[|run| - 1];
      DlqLedger(init, job);
      RunsKeepInv(EMPTY, init);
      var t := NextDlq(Continue(EMPTY, init), a, job);
    }
  }

  // ---------------------------------------------------------------- what the closing status tells

  /** A worker about to close a job has read its counter, and the counter is still the same. */
  ghost predicate StatusFromCounter(s: State) {
    s.pc.ToFinish? && s.pc.status != JobFailed && s.pc.job in s.jobs ==>
      (s.pc.status == CompletedWithFailures <==> s.jobs[s.pc.job].dlqCount > 0)
  }

  lemma NextKeepsStatus(s: State, a: Action)
    requires Inv(s) && StatusFromCounter(s)
    ensures StatusFromCounter(Next(s, a))
  {
    if !a.Work? && s.pc.ToFinish? {
      CallDlqCount(s, a, s.pc.job);
    }
  }

  lemma {:induction false} RunsKeepStatus(run: seq<Action>)
    ensures StatusFromCounter(Continue(EMPTY, run))
  {
    if run != [] {
      RunsKeepInv(EMPTY, run[..|run| - 1]);
      RunsKeepStatus(run[..|run| - 1]);
      NextKeepsStatus(Continue(EMPTY, run[..|run| - 1]), run[|run| - 1]);
    }
  }

  ghost predicate AnyDlq(recs: Recs, job: string) {
    exists i :: 0 <= i < |recs| && recs[i].jobId == job && recs[i].status == Dlq
  }

  lemma FinishWrites(s: State)
    requires s.pc.ToFinish? && s.pc.job in s.jobs
    ensures var t := Next(s, STEP);
            s.pc.job in t.jobs && t.jobs[s.pc.job].status == s.pc.status && t.recs == s.recs
  {
  }

  /** `completed_with_failures` is meant to say that a recipient is in the dead-letter queue. A closing job
      says so truthfully exactly when losing all counter updates and requeueing all dead letters go
      together: neither happened, or both did. */
  lemma ClosingStatusAgreesExactlyWhen(run: seq<Action>, job: string)
    requires var pc := Continue(EMPTY, run).pc; pc.ToFinish? && pc.job == job && pc.status != JobFailed
    ensures var t := Next(Continue(EMPTY, run), STEP);
            && job in t.jobs
            && ((t.jobs[job].status == CompletedWithFailures <==> AnyDlq(t.recs, job))
                <==> (Marks(run, job) > Lost(run, job) <==> Marks(run, job) > Requeued(run, job)))
  {
    var s := Continue(EMPTY, run);
    RunsKeepInv(EMPTY, run);
    RunsKeepStatus(run);
    FinishWrites(s);
    DlqLedger(run, job);
    NoDlqRows(s.recs, job);
    assert AnyDlq(s.recs, job) <==> DlqRows(s.recs, job) > 0;
  }

  /** The counter is never taken back: once it is positive, every later close says
      `completed_with_failures`. */
  lemma {:induction false} CounterIsForGood(s: State, more: seq<Action>, job: string)
    requires job in s.jobs
    ensures job in Continue(s, more).jobs && Continue(s, more).jobs[job].dlqCount >= s.jobs[job].dlqCount
    ensures s.jobs[job].dlqCount > 0 ==> FinalStatus(Continue(s, more).jobs, job) == CompletedWithFailures
  {
    if more != [] {
      CounterIsForGood(s, more[..|more| - 1], job);
      NextKeepsJobs(Continue(s, more[..|more| - 1]), more[|more| - 1]);
    }
  }

  // ---------------------------------------------------------------- runs of one job with one recipient

  const JOB := "job"

  function JobOf(status: JobStatus, sent: nat, failed: nat, dlq: nat): Job {
    Job("session", true, 1, status, sent, failed, dlq, None)
  }

  function RecOf(status: RecStatus, attempts: nat, error: Option<string>, messageId: Option<string>): Rec {
    Rec(JOB, "session", "someone", status, attempts, error, messageId)
  }

  function Solo(job: Job, recs: Recs, pc: Pc, log: seq<nat>): State { State(map[JOB := job], recs, pc, log, multiset{}) }

  const NEW_JOB := CreateJob(JOB, "session", true, 1, None)
  const NEW_REC := AddRecipient(JOB, "someone", false)
  const TICK := Tick(JOB, NOW)

  lemma TwoSteps(s: State, a: Action, b: Action)
    ensures Continue(s, [a, b]) == Next(Next(s, a), b)
  {
    OneStep(s, a);
    Extend(s, [a], b);
    assert [a, b] == [a] + [b];
  }

  lemma ThreeSteps(s: State, a: Action, b: Action, c: Action)
    ensures Continue(s, [a, b, c]) == Next(Next(Next(s, a), b), c)
  {
    TwoSteps(s, a, b);
    Extend(s, [a, b], c);
    assert [a, b, c] == [a, b] + [c];
  }

  lemma Stored()
    ensures Continue(EMPTY, [NEW_JOB]) == Solo(JobOf(JobPending, 0, 0, 0), [], Idle, [])
    ensures Continue(EMPTY, [NEW_JOB, NEW_REC])
         == Solo(JobOf(JobPending, 0, 0, 0), [RecOf(Pending, 0, None, None)], Idle, [])
  {
    OneStep(EMPTY, NEW_JOB);
    TwoSteps(EMPTY, NEW_JOB, NEW_REC);
  }

  const CLAIM := [TICK, STEP, STEP]

  lemma Claimed(job: Job, recs: Recs, log: seq<nat>)
    requires job.status == JobPending && job.sendAt.None? && forall r :: r in recs ==> r.status != Sending
    ensures Continue(Solo(job, recs, Idle, log), CLAIM) == Solo(job.(status := Running), recs, ToParse(JOB), log)
  {
    var s := Solo(job, recs, Idle, log);
    ThreeSteps(s, TICK, STEP, STEP);
    assert Next(s, TICK) == s.(pc := ToClaim(JOB));
    assert ResetSending(recs, JOB) == recs;
  }

  const READ := [STEP, STEP, STEP]

  function ItemOfRec(r: Rec): seq<Item> { [Item(0, r.recipient, r.attempts)] }

  lemma Read(job: Job, r: Rec, log: seq<nat>)
    requires job.status == Running && job.bodyIsJson && IsPending(r, JOB)
    ensures Continue(Solo(job, [r], ToParse(JOB), log), READ) == Solo(job, [r], InBatch(JOB, ItemOfRec(r)), log)
  {
    ThreeSteps(Solo(job, [r], ToParse(JOB), log), STEP, STEP, STEP);
    assert PendingRows([r], JOB, BATCH_SIZE, 0) == [];
    assert PendingRows([r], JOB, BATCH_SIZE, 1) == [0];
    assert ReadBatch([r], JOB) == ItemOfRec(r);
  }

  function Ask(outcome: Outcome): seq<Action> { [STEP, Work(outcome)] }

  lemma MarkedAsSending(job: Job, r: Rec, log: seq<nat>)
    requires r.jobId == JOB
    ensures Next(Solo(job, [r], InBatch(JOB, ItemOfRec(r)), log), STEP)
         == Solo(job, [Changed(r, ToSending)], Marked(JOB, ItemOfRec(r)), log)
  {
  }

  lemma Asked(job: Job, r: Rec, log: seq<nat>, outcome: Outcome)
    requires r.jobId == JOB
    ensures Continue(Solo(job, [r], InBatch(JOB, ItemOfRec(r)), log), Ask(outcome))
         == Solo(job, [Changed(r, ToSending)], Answered(JOB, ItemOfRec(r), outcome), log + [0])
  {
    MarkedAsSending(job, r, log);
    TwoSteps(Solo(job, [r], InBatch(JOB, ItemOfRec(r)), log), STEP, Work(outcome));
  }

  const PARK := [STEP, STEP]

  lemma FailureCounted(job: Job, r: Rec, log: seq<nat>, error: string)
    ensures Next(Solo(job, [r], Answered(JOB, ItemOfRec(r), Rejected(error)), log), STEP)
         == Solo(job.(failedCount := job.failedCount + 1), [r], ToPark(JOB, ItemOfRec(r), error), log)
  {
  }

  lemma MarkedAsDlq(job: Job, r: Rec, log: seq<nat>, error: string)
    requires r.jobId == JOB && r.attempts + 1 == Limit(job)
    ensures Next(Solo(job, [r], ToPark(JOB, ItemOfRec(r), error), log), STEP)
         == Solo(job, [Changed(r, ToDlq(error))], ToCountDlq(JOB, []), log)
  {
    assert ItemOfRec(r)[1..] == [];
  }

  lemma Parked(job: Job, r: Rec, log: seq<nat>, error: string)
    requires r.jobId == JOB && r.attempts + 1 == Limit(job)
    ensures Continue(Solo(job, [r], Answered(JOB, ItemOfRec(r), Rejected(error)), log), PARK)
         == Solo(job.(failedCount := job.failedCount + 1), [Changed(r, ToDlq(error))], ToCountDlq(JOB, []), log)
  {
    FailureCounted(job, r, log, error);
    MarkedAsDlq(job.(failedCount := job.failedCount + 1), r, log, error);
    TwoSteps(Solo(job, [r], Answered(JOB, ItemOfRec(r), Rejected(error)), log), STEP, STEP);
  }

  const COUNT := [STEP, STEP]

  lemma BatchDone(job: Job, recs: Recs, log: seq<nat>)
    ensures Next(Solo(job, recs, InBatch(JOB, []), log), STEP) == Solo(job, recs, ToCheck(JOB), log)
  {
  }

  lemma Bumps(job: Job, recs: Recs, log: seq<nat>)
    ensures Next(Solo(job, recs, ToCountDlq(JOB, []), log), STEP)
         == Solo(job.(dlqCount := job.dlqCount + 1), recs, InBatch(JOB, []), log)
    ensures Next(Solo(job, recs, ToCountSent(JOB, []), log), STEP)
         == Solo(job.(sentCount := job.sentCount + 1), recs, InBatch(JOB, []), log)
  {
  }

  lemma DlqCounted(job: Job, recs: Recs, log: seq<nat>)
    ensures Continue(Solo(job, recs, ToCountDlq(JOB, []), log), COUNT)
         == Solo(job.(dlqCount := job.dlqCount + 1), recs, ToCheck(JOB), log)
  {
    TwoSteps(Solo(job, recs, ToCountDlq(JOB, []), log), STEP, STEP);
    Bumps(job, recs, log);
    BatchDone(job.(dlqCount := job.dlqCount + 1), recs, log);
  }

  const ACCEPT := [STEP, STEP, STEP]

  lemma MarkedAsSent(job: Job, r: Rec, log: seq<nat>, messageId: string)
    requires r.jobId == JOB
    ensures Next(Solo(job, [r], Answered(JOB, ItemOfRec(r), Accepted(messageId)), log), STEP)
         == Solo(job, [Changed(r, ToSent(messageId))], ToCountSent(JOB, []), log)
  {
    assert ItemOfRec(r)[1..] == [];
  }

  lemma SentAndCounted(job: Job, r: Rec, log: seq<nat>, messageId: string)
    requires r.jobId == JOB
    ensures Continue(Solo(job, [r], Answered(JOB, ItemOfRec(r), Accepted(messageId)), log), ACCEPT)
         == Solo(job.(sentCount := job.sentCount + 1), [Changed(r, ToSent(messageId))], ToCheck(JOB), log)
  {
    var sent := [Changed(r, ToSent(messageId))];
    ThreeSteps(Solo(job, [r], Answered(JOB, ItemOfRec(r), Accepted(messageId)), log), STEP, STEP, STEP);
    MarkedAsSent(job, r, log, messageId);
    Bumps(job, sent, log);
    BatchDone(job.(sentCount := job.sentCount + 1), sent, log);
  }

  const CLOSE := [STEP, STEP] + [STEP, STEP]

  lemma FoundEmpty(job: Job, recs: Recs, log: seq<nat>)
    requires job.status == Running && NothingPending(recs, JOB)
    ensures Continue(Solo(job, recs, ToCheck(JOB), log), [STEP, STEP]) == Solo(job, recs, ToClose(JOB), log)
  {
    TwoSteps(Solo(job, recs, ToCheck(JOB), log), STEP, STEP);
    assert Next(Solo(job, recs, ToCheck(JOB), log), STEP) == Solo(job, recs, ToFetch(JOB), log);
    FetchSeesPending(Solo(job, recs, ToFetch(JOB), log), STEP.outcome);
  }

  /** With nothing pending a checked job is closed by its counter. */
  lemma Closed(job: Job, recs: Recs, log: seq<nat>)
    requires job.status == Running && NothingPending(recs, JOB)
    ensures Continue(Solo(job, recs, ToCheck(JOB), log), CLOSE)
         == Solo(job.(status := if job.dlqCount > 0 then CompletedWithFailures else Completed), recs, Idle, log)
  {
    var t := Solo(job, recs, ToClose(JOB), log);
    FoundEmpty(job, recs, log);
    TwoSteps(t, STEP, STEP);
    assert Next(t, STEP) == t.(pc := ToFinish(JOB, if job.dlqCount > 0 then CompletedWithFailures else Completed));
    Chain(Solo(job, recs, ToCheck(JOB), log), [STEP, STEP], [STEP, STEP]);
  }

  const RESUME := [TICK, STEP]

  lemma Resumed(job: Job, recs: Recs, log: seq<nat>)
    requires job.status == Running && job.bodyIsJson
    ensures Continue(Solo(job, recs, Idle, log), RESUME) == Solo(job, recs, ToCheck(JOB), log)
  {
    TwoSteps(Solo(job, recs, Idle, log), TICK, STEP);
  }

  lemma Died(job: Job, recs: Recs, pc: Pc, log: seq<nat>)
    ensures Continue(Solo(job, recs, pc, log), [Die]) == Solo(job, recs, Idle, log)
  {
    OneStep(Solo(job, recs, pc, log), Die);
  }

  // ---------------------------------------------------------------- a crash while a row is in flight

  const CUT_SHORT := [NEW_JOB, NEW_REC] + CLAIM + READ + [STEP] + [Die]

  /** The crash that the reset was meant for: the resumed job is closed as completed without having sent
      anything, and its recipient is still `sending`. */
  lemma CrashStrandsRecipient()
    ensures var t := Continue(EMPTY, CUT_SHORT + RESUME + CLOSE);
            && t == Solo(JobOf(Completed, 0, 0, 0), [RecOf(Sending, 0, None, None)], Idle, [])
            && Stranded(t, 0)
  {
    var r := RecOf(Pending, 0, None, None);
    var job := JobOf(Running, 0, 0, 0);
    var sending := [RecOf(Sending, 0, None, None)];
    Stored();
    Claimed(JobOf(JobPending, 0, 0, 0), [r], []);
    Chain(EMPTY, [NEW_JOB, NEW_REC], CLAIM);
    Read(job, r, []);
    Chain(EMPTY, [NEW_JOB, NEW_REC] + CLAIM, READ);
    MarkedAsSending(job, r, []);
    Extend(EMPTY, [NEW_JOB, NEW_REC] + CLAIM + READ, STEP);
    Died(job, sending, Marked(JOB, ItemOfRec(r)), []);
    Chain(EMPTY, [NEW_JOB, NEW_REC] + CLAIM + READ + [STEP], [Die]);
    Resumed(job, sending, []);
    Chain(EMPTY, CUT_SHORT, RESUME);
    Closed(job, sending, []);
    Chain(EMPTY, CUT_SHORT + RESUME, CLOSE);
  }

  // ---------------------------------------------------------------- closing statuses that disagree with the rows

  const ASKED_ONCE := [NEW_JOB, NEW_REC] + CLAIM + READ + Ask(Rejected("down"))
  const DEAD_LETTERED := ASKED_ONCE + PARK

  const DEAD_ROW := RecOf(Dlq, 1, Some("down"), None)

  lemma AskedOnce()
    ensures Continue(EMPTY, ASKED_ONCE)
         == Solo(JobOf(Running, 0, 0, 0), [RecOf(Sending, 0, None, None)],
                 Answered(JOB, [Item(0, "someone", 0)], Rejected("down")), [0])
  {
    var r := RecOf(Pending, 0, None, None);
    var job := JobOf(Running, 0, 0, 0);
    Stored();
    Claimed(JobOf(JobPending, 0, 0, 0), [r], []);
    Chain(EMPTY, [NEW_JOB, NEW_REC], CLAIM);
    Read(job, r, []);
    Chain(EMPTY, [NEW_JOB, NEW_REC] + CLAIM, READ);
    Asked(job, r, [], Rejected("down"));
    Chain(EMPTY, [NEW_JOB, NEW_REC] + CLAIM + READ, Ask(Rejected("down")));
  }

  lemma DeadLettered()
    ensures Continue(EMPTY, DEAD_LETTERED) == Solo(JobOf(Running, 0, 1, 0), [DEAD_ROW], ToCountDlq(JOB, []), [0])
  {
    AskedOnce();
    Parked(JobOf(Running, 0, 0, 0), RecOf(Sending, 0, None, None), [0], "down");
    Chain(EMPTY, ASKED_ONCE, PARK);
  }

  /** The worker dies between marking the row and counting it: the job is closed as `completed` with its
      recipient in the dead-letter queue. */
  lemma LostUpdateHidesFailure()
    ensures Continue(EMPTY, DEAD_LETTERED + [Die] + RESUME + CLOSE)
         == Solo(JobOf(Completed, 0, 1, 0), [DEAD_ROW], Idle, [0])
  {
    var job := JobOf(Running, 0, 1, 0);
    DeadLettered();
    Died(job, [DEAD_ROW], ToCountDlq(JOB, []), [0]);
    Chain(EMPTY, DEAD_LETTERED, [Die]);
    Resumed(job, [DEAD_ROW], [0]);
    Chain(EMPTY, DEAD_LETTERED + [Die], RESUME);
    Closed(job, [DEAD_ROW], [0]);
    Chain(EMPTY, DEAD_LETTERED + [Die] + RESUME, CLOSE);
  }

  const RETRY := [Requeue(JOB), Reopen(JOB)]

  lemma Retried(job: Job, log: seq<nat>)
    requires job.status != Running
    ensures Continue(Solo(job, [DEAD_ROW], Idle, log), RETRY)
         == Solo(job.(status := JobPending), [RecOf(Pending, 0, None, None)], Idle, log)
  {
    var s := Solo(job, [DEAD_ROW], Idle, log);
    TwoSteps(s, Requeue(JOB), Reopen(JOB));
    assert IsRetryable(s.recs[0], JOB);
  }

  const FAILED_ONCE := DEAD_LETTERED + COUNT + CLOSE

  lemma FailedOnce()
    ensures Continue(EMPTY, FAILED_ONCE) == Solo(JobOf(CompletedWithFailures, 0, 1, 1), [DEAD_ROW], Idle, [0])
  {
    DeadLettered();
    DlqCounted(JobOf(Running, 0, 1, 0), [DEAD_ROW], [0]);
    Chain(EMPTY, DEAD_LETTERED, COUNT);
    Closed(JobOf(Running, 0, 1, 1), [DEAD_ROW], [0]);
    Chain(EMPTY, DEAD_LETTERED + COUNT, CLOSE);
  }

  const SECOND_TRY := RETRY + CLAIM + READ + Ask(Accepted("m")) + ACCEPT + CLOSE

  /** A retry delivers everything: the job is closed as `completed_with_failures` with its only recipient
      sent. */
  lemma RetriedSuccessStillFails()
    ensures Continue(EMPTY, FAILED_ONCE + SECOND_TRY)
         == Solo(JobOf(CompletedWithFailures, 1, 1, 1), [RecOf(Sent, 0, None, Some("m"))], Idle, [0, 0])
  {
    FailedOnce();
    Chain(EMPTY, FAILED_ONCE, SECOND_TRY);
    var r := RecOf(Pending, 0, None, None);
    var job := JobOf(Running, 0, 1, 1);
    var s := Solo(JobOf(CompletedWithFailures, 0, 1, 1), [DEAD_ROW], Idle, [0]);
    Retried(s.jobs[JOB], [0]);
    Claimed(JobOf(JobPending, 0, 1, 1), [r], [0]);
    Chain(s, RETRY, CLAIM);
    Read(job, r, [0]);
    Chain(s, RETRY + CLAIM, READ);
    Asked(job, r, [0], Accepted("m"));
    Chain(s, RETRY + CLAIM + READ, Ask(Accepted("m")));
    var sending := Changed(r, ToSending);
    assert ItemOfRec(sending) == ItemOfRec(r) && [0] + [0] == [0, 0];
    SentAndCounted(job, sending, [0, 0], "m");
    Chain(s, RETRY + CLAIM + READ + Ask(Accepted("m")), ACCEPT);
    Closed(JobOf(Running, 1, 1, 1), [Changed(sending, ToSent("m"))], [0, 0]);
    Chain(s, RETRY + CLAIM + READ + Ask(Accepted("m")) + ACCEPT, CLOSE);
  }

  // ---------------------------------------------------------------- a job claimed before its rows exist

  /** Jobs and recipients are stored by separate statements: a worker that ticks in between closes
      the empty job, and the recipient is added to a completed one. */
  const CLAIMED_TOO_EARLY := [NEW_JOB] + CLAIM + [STEP] + CLOSE + [NEW_REC]

  lemma EarlyClaimCompletes()
    ensures Continue(EMPTY, CLAIMED_TOO_EARLY)
         == Solo(JobOf(Completed, 0, 0, 0), [RecOf(Pending, 0, None, None)], Idle, [])
  {
    var job := JobOf(Running, 0, 0, 0);
    Stored();
    Claimed(JobOf(JobPending, 0, 0, 0), [], []);
    Chain(EMPTY, [NEW_JOB], CLAIM);
    Extend(EMPTY, [NEW_JOB] + CLAIM, STEP);
    assert Next(Solo(job, [], ToParse(JOB), []), STEP) == Solo(job, [], ToCheck(JOB), []);
    Closed(job, [], []);
    Chain(EMPTY, [NEW_JOB] + CLAIM + [STEP], CLOSE);
    Extend(EMPTY, [NEW_JOB] + CLAIM + [STEP] + CLOSE, NEW_REC);
  }

  // ---------------------------------------------------------------- a cancel that comes too late

  /** The worker has found nothing pending when the cancel arrives. */
  const CANCELLED_LATE := [NEW_JOB] + CLAIM + [STEP] + [STEP, STEP] + [Cancel("session", JOB)]

  lemma CancelledWhileClosing()
    ensures Continue(EMPTY, CANCELLED_LATE) == Solo(JobOf(JobCancelled, 0, 0, 0), [], ToClose(JOB), [])
  {
    var job := JobOf(Running, 0, 0, 0);
    Stored();
    Claimed(JobOf(JobPending, 0, 0, 0), [], []);
    Chain(EMPTY, [NEW_JOB], CLAIM);
    Extend(EMPTY, [NEW_JOB] + CLAIM, STEP);
    assert Next(Solo(job, [], ToParse(JOB), []), STEP) == Solo(job, [], ToCheck(JOB), []);
    FoundEmpty(job, [], []);
    Chain(EMPTY, [NEW_JOB] + CLAIM + [STEP], [STEP, STEP]);
    Extend(EMPTY, [NEW_JOB] + CLAIM + [STEP] + [STEP, STEP], Cancel("session", JOB));
  }

  /** The cancel is answered with success, and two statements later the job is `completed`. */
  lemma CancelIsLost()
    ensures IsCancelled(Continue(EMPTY, CANCELLED_LATE), JOB) && IsClosing(Continue(EMPTY, CANCELLED_LATE), JOB)
    ensures Continue(EMPTY, CANCELLED_LATE + [STEP, STEP]) == Solo(JobOf(Completed, 0, 0, 0), [], Idle, [])
  {
    var s := Solo(JobOf(JobCancelled, 0, 0, 0), [], ToClose(JOB), []);
    CancelledWhileClosing();
    Chain(EMPTY, CANCELLED_LATE, [STEP, STEP]);
    TwoSteps(s, STEP, STEP);
    assert Next(s, STEP) == s.(pc := ToFinish(JOB, Completed));
  }
}
