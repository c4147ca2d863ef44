/**
  The blast tables changed in place, and the worker's tick (`src/api/shared/blast/handlers.rs`) when
  nothing else runs: the drain of a job terminates, and this says in what state it leaves the rows.
*/
module BlastDrain {
  import opened Wrappers
  import opened BlastTables
  import opened Dispatch

  const BATCH_SIZE: nat := 50
  const CHUNK: nat := 500

  predicate IsSettled(r: Rec) { r.status == Sent || r.status == Dlq || r.status == Failed || r.status == SkippedDup }

  /** Every row of the job has its final status. */
  ghost predicate AllSettled(recs: Recs, jobId: string) {
    forall i :: 0 <= i < |recs| && recs[i].jobId == jobId ==> IsSettled(recs[i])
  }

  ghost predicate NoneSending(recs: Recs, jobId: string) {
    forall i :: 0 <= i < |recs| && recs[i].jobId == jobId ==> recs[i].status != Sending
  }

  /** The job's pending rows went out or ran out of attempts; every other row is as it was. */
  ghost predicate Drained(before: Recs, after: Recs, jobId: string, limit: nat) {
    && |after| == |before|
    && forall i :: 0 <= i < |before| ==>
         if IsPending(before[i], jobId) then
           && SameKey(before[i], after[i])
           && (after[i].status == Sent || (after[i].status == Dlq && after[i].attempts >= limit))
         else after[i] == before[i]
  }

  /** The same part of the way: rows not finished yet are pending, with no attempt forgotten. */
  ghost predicate Draining(before: Recs, after: Recs, jobId: string, limit: nat) {
    && |after| == |before|
    && forall i :: 0 <= i < |before| ==>
         if IsPending(before[i], jobId) then
           && SameKey(before[i], after[i]) && before[i].attempts <= after[i].attempts
           && (after[i].status == Sent || after[i].status == Pending
               || (after[i].status == Dlq && after[i].attempts >= limit))
         else after[i] == before[i]
  }

  ghost predicate AttemptsLeft(recs: Recs, jobId: string, limit: nat) {
    forall i :: 0 <= i < |recs| && IsPending(recs[i], jobId) ==> recs[i].attempts < limit
  }

  lemma DrainingComposes(a: Recs, b: Recs, c: Recs, jobId: string, limit: nat)
    requires Draining(a, b, jobId, limit) && Draining(b, c, jobId, limit)
    ensures Draining(a, c, jobId, limit)
  {
  }

  /** A drained job is settled exactly when none of its rows was caught in `sending` before. */
  lemma DrainedIsSettled(before: Recs, after: Recs, jobId: string, limit: nat)
    requires Drained(before, after, jobId, limit)
    ensures AllSettled(after, jobId) <==> NoneSending(before, jobId)
  {
  }

  /** A row after its dispatch: sent, or one attempt further and back in line or dead-lettered. */
  function AfterDispatch(r: Rec, outcome: Outcome, limit: nat): Rec {
    match outcome
    case Accepted(messageId) => r.(status := Sent, messageId := Some(messageId), lastError := None)
    case Rejected(error) =>
      r.(status := if r.attempts + 1 < limit then Pending else Dlq, attempts := r.attempts + 1, lastError := Some(error))
  }

  function Counted(job: Job, outcome: Outcome, exhausted: bool): Job {
    match outcome
    case Accepted(_) => job.(sentCount := job.sentCount + 1)
    case Rejected(_) =>
      job.(failedCount := job.failedCount + 1, dlqCount := if exhausted then job.dlqCount + 1 else job.dlqCount)
  }

  lemma DispatchUsesAttempt(recs: Recs, row: nat, outcome: Outcome, jobId: string, limit: nat)
    requires row < |recs| && IsPending(recs[row], jobId) && recs[row].attempts < limit
    ensures Remaining(recs[row := AfterDispatch(recs[row], outcome, limit)], jobId, limit) < Remaining(recs, jobId, limit)
  {
    RemainingPoint(recs, row, AfterDispatch(recs[row], outcome, limit), jobId, limit);
  }

  lemma DispatchDrains(before: Recs, recs: Recs, row: nat, outcome: Outcome, jobId: string, limit: nat)
    requires Draining(before, recs, jobId, limit) && AttemptsLeft(recs, jobId, limit)
    requires row < |recs| && IsPending(recs[row], jobId)
    ensures Draining(before, recs[row := AfterDispatch(recs[row], outcome, limit)], jobId, limit)
    ensures AttemptsLeft(recs[row := AfterDispatch(recs[row], outcome, limit)], jobId, limit)
  {
  }

  /** Bulk insert, one statement per row; a key that is taken is skipped, so the first one wins. */
  function InsertAll(recs: Recs, jobId: string, sessionId: string, rows: seq<(string, RecStatus)>): Recs {
    if rows == [] then recs
    else
      var last := rows[|rows| - 1];
      InsertRec(InsertAll(recs, jobId, sessionId, rows[..|rows| - 1]), jobId, sessionId, last.0, last.1)
  }

  lemma InsertGrows(recs: Recs, jobId: string, sessionId: string, recipient: string, status: RecStatus)
    requires UniqueKeys(recs)
    ensures var r := InsertRec(recs, jobId, sessionId, recipient, status);
            && UniqueKeys(r) && |recs| <= |r| && r[..|recs|] == recs && HasKey(r, jobId, recipient)
  {
    var r := InsertRec(recs, jobId, sessionId, recipient, status);
    if !HasKey(recs, jobId, recipient) {
      assert r[|recs|].jobId == jobId && r[|recs|].recipient == recipient;
    }
  }

  lemma KeyStays(before: Recs, after: Recs, jobId: string, recipient: string)
    requires |before| <= |after| && after[..|before|] == before
    ensures HasKey(before, jobId, recipient) ==> HasKey(after, jobId, recipient)
  {
  }

  /** After a bulk insert every recipient listed has exactly one row in the job, and the rows that
      were there before are untouched. */
  lemma {:induction false} InsertAllCoversOnce(recs: Recs, jobId: string, sessionId: string, rows: seq<(string, RecStatus)>)
    requires UniqueKeys(recs)
    ensures var r := InsertAll(recs, jobId, sessionId, rows);
            && UniqueKeys(r) && |recs| <= |r| && r[..|recs|] == recs
            && forall k :: 0 <= k < |rows| ==> HasKey(r, jobId, rows[k].0)
  {
    if rows != [] {
      var init, last := rows[..|rows| - 1], rows[|rows| - 1];
      InsertAllCoversOnce(recs, jobId, sessionId, init);
      var before := InsertAll(recs, jobId, sessionId, init);
      InsertGrows(before, jobId, sessionId, last.0, last.1);
      var after := InsertRec(before, jobId, sessionId, last.0, last.1);
      assert after[..|recs|] == after[..|before|][..|recs|];
      forall k | 0 <= k < |rows|
        ensures HasKey(after, jobId, rows[k].0)
      {
        if k < |init| {
          assert HasKey(before, jobId, init[k].0);
          KeyStays(before, after, jobId, rows[k].0);
        }
      }
    }
  }

  class BlastStore {
    var jobs: Jobs
    var recs: Recs

    ghost predicate Valid()
      reads this
    {
      UniqueKeys(recs)
    }

    method InsertRecipients(jobId: string, sessionId: string, rows: seq<(string, RecStatus)>)
      requires Valid()
      modifies this`recs
      ensures Valid() && recs == InsertAll(old(recs), jobId, sessionId, rows)
    {
      var k := 0;
      while k < |rows|
        invariant k <= |rows|
        invariant Valid() && recs == InsertAll(old(recs), jobId, sessionId, rows[..k])
      {
        assert rows[..k + 1][..k] == rows[..k];
        InsertGrows(recs, jobId, sessionId, rows[k].0, rows[k].1);
        recs := InsertRec(recs, jobId, sessionId, rows[k].0, rows[k].1);
        k := k + 1;
      }
      assert rows[..k] == rows;
    }

    /** The candidates this session already delivered to in any job, looked up in chunks. */
    method AlreadySent(sessionId: string, candidates: seq<string>) returns (out: set<string>)
      ensures forall r :: r in out <==>
        r in candidates && exists i :: 0 <= i < |recs| && recs[i].sessionId == sessionId && recs[i].status == Sent && recs[i].recipient == r
    {
      out := {};
      var from := 0;
      while from < |candidates|
        invariant from <= |candidates|
        invariant forall r :: r in out <==>
          r in candidates[..from] && exists i :: 0 <= i < |recs| && recs[i].sessionId == sessionId && recs[i].status == Sent && recs[i].recipient == r
      {
        var to := if |candidates| - from <= CHUNK then |candidates| else from + CHUNK;
        var chunk := candidates[from..to];
        var found := set i | 0 <= i < |recs| && recs[i].sessionId == sessionId && recs[i].status == Sent && recs[i].recipient in chunk
                         :: recs[i].recipient;
        assert candidates[..to] == candidates[..from] + chunk;
        out := out + found;
        from := to;
      }
      assert candidates[..from] == candidates;
    }

    /** One update of the `mark_recipient_*` family; it finds the row by its key. */
    method MarkRecipient(jobId: string, recipient: string, c: Change, ghost row: nat)
      requires Valid()
      requires row < |recs| && recs[row].jobId == jobId && recs[row].recipient == recipient
      modifies this`recs
      ensures Valid() && recs == old(recs)[row := Changed(old(recs)[row], c)]
    {
      UpdateIsPoint(recs, row, c);
      recs := UpdateRecipient(recs, jobId, recipient, c);
    }

    /** One recipient of a batch: mark, dispatch, settle. `outcome` is what the dispatch answers. */
    method ProcessRecipient(jobId: string, limit: nat, row: nat, attempts: nat, outcome: Outcome)
      requires Valid() && row < |recs| && IsPending(recs[row], jobId)
      requires recs[row].attempts == attempts < limit
      requires jobId in jobs
      modifies this
      ensures Valid() && recs == old(recs)[row := AfterDispatch(old(recs)[row], outcome, limit)]
      ensures jobs == old(jobs)[jobId := Counted(old(jobs)[jobId], outcome, attempts + 1 >= limit)]
    {
      var recipient := recs[row].recipient;
      MarkRecipient(jobId, recipient, ToSending, row);
      match outcome {
        case Accepted(messageId) =>
          MarkRecipient(jobId, recipient, ToSent(messageId), row);
          jobs := BumpCounter(jobs, jobId, SentCounter);
        case Rejected(error) =>
          jobs := BumpCounter(jobs, jobId, FailedCounter);
          if attempts + 1 < limit {
            MarkRecipient(jobId, recipient, ToRetry(error), row);
          } else {
            MarkRecipient(jobId, recipient, ToDlq(error), row);
            jobs := BumpCounter(jobs, jobId, DlqCounter);
          }
      }
    }

    /** One batch, in order. The snapshot it was read from may be out of date, but not for these rows. */
    method ProcessBatch(jobId: string, limit: nat, batch: seq<nat>, answers: nat -> Outcome, asked: nat)
      requires Valid() && jobId in jobs && jobs[jobId].status == Running
      requires AttemptsLeft(recs, jobId, limit)
      requires forall k :: 0 <= k < |batch| ==> batch[k] < |recs| && IsPending(recs[batch[k]], jobId)
      requires forall k, l :: 0 <= k < l < |batch| ==> batch[k] < batch[l]
      modifies this
      ensures Valid() && jobId in jobs && jobs[jobId].status == Running
      ensures jobs[jobId].dlqCount >= old(jobs)[jobId].dlqCount
      ensures AttemptsLeft(recs, jobId, limit) && Draining(old(recs), recs, jobId, limit)
      ensures Remaining(recs, jobId, limit) + |batch| <= Remaining(old(recs), jobId, limit)
    {
      var snapshot := recs;
      var k := 0;
      while k < |batch|
        invariant k <= |batch|
        invariant Valid() && jobId in jobs && jobs[jobId].status == Running
        invariant jobs[jobId].dlqCount >= old(jobs)[jobId].dlqCount
        invariant AttemptsLeft(recs, jobId, limit) && Draining(old(recs), recs, jobId, limit)
        invariant forall l :: k <= l < |batch| ==> recs[batch[l]] == snapshot[batch[l]]
        invariant Remaining(recs, jobId, limit) + k <= Remaining(old(recs), jobId, limit)
      {
        DispatchUsesAttempt(recs, batch[k], answers(asked + k), jobId, limit);
        DispatchDrains(old(recs), recs, batch[k], answers(asked + k), jobId, limit);
        ProcessRecipient(jobId, limit, batch[k], snapshot[batch[k]].attempts, answers(asked + k));
        k := k + 1;
      }
    }

    /** Drains a running job until nothing is pending, for any answers the dispatches may give, and
        closes it. It terminates because every dispatch uses up an attempt. */
    method ProcessJob(jobId: string, answers: nat -> Outcome)
      requires Valid()
      requires jobId in jobs && jobs[jobId].status == Running
      requires AttemptsLeft(recs, jobId, Limit(jobs[jobId]))
      modifies this
      ensures Valid() && jobId in jobs
      ensures old(jobs)[jobId].bodyIsJson ==>
        && Drained(old(recs), recs, jobId, Limit(old(jobs)[jobId]))
        && jobs[jobId].status == (if jobs[jobId].dlqCount > 0 then CompletedWithFailures else Completed)
        && jobs[jobId].dlqCount >= old(jobs)[jobId].dlqCount
      ensures !old(jobs)[jobId].bodyIsJson ==> recs == old(recs) && jobs[jobId].status == JobFailed
    {
      var limit := Limit(jobs[jobId]);
      if !jobs[jobId].bodyIsJson {
        jobs := FinishJob(jobs, jobId, JobFailed);
        return;
      }
      var asked: nat := 0;
      var batch := PendingRows(recs, jobId, BATCH_SIZE, |recs|);
      while batch != []
        invariant Valid() && jobId in jobs && jobs[jobId].status == Running
        invariant jobs[jobId].dlqCount >= old(jobs)[jobId].dlqCount
        invariant AttemptsLeft(recs, jobId, limit) && Draining(old(recs), recs, jobId, limit)
        invariant batch == PendingRows(recs, jobId, BATCH_SIZE, |recs|)
        decreases Remaining(recs, jobId, limit)
      {
        ghost var was := recs;
        ProcessBatch(jobId, limit, batch, answers, asked);
        DrainingComposes(old(recs), was, recs, jobId, limit);
        asked := asked + |batch|;
        batch := PendingRows(recs, jobId, BATCH_SIZE, |recs|);
      }
      jobs := FinishJob(jobs, jobId, FinalStatus(jobs, jobId));
    }

    /** The resume path of a tick: a running job is continued without resetting its rows. Everything
        ends up settled exactly when no row was in flight when the previous run was cut short. */
    method ResumeRunning(jobId: string, answers: nat -> Outcome)
      requires Valid()
      requires jobId in jobs && jobs[jobId].status == Running
      requires AttemptsLeft(recs, jobId, Limit(jobs[jobId]))
      modifies this
      ensures Valid() && |recs| == |old(recs)|
      ensures old(jobs)[jobId].bodyIsJson ==> (AllSettled(recs, jobId) <==> NoneSending(old(recs), jobId))
      ensures !old(jobs)[jobId].bodyIsJson ==> recs == old(recs) && jobId in jobs && jobs[jobId].status == JobFailed
      ensures forall i :: 0 <= i < |old(recs)| && old(recs)[i].jobId == jobId && old(recs)[i].status == Sending ==> recs[i] == old(recs)[i]
    {
      ghost var before, limit := recs, Limit(jobs[jobId]);
      ProcessJob(jobId, answers);
      if old(jobs)[jobId].bodyIsJson {
        DrainedIsSettled(before, recs, jobId, limit);
      }
    }

    /** The claim path of a tick: compare-and-set the job, put rows in flight back, drain. */
    method ClaimAndProcess(jobId: string, answers: nat -> Outcome) returns (won: bool)
      requires Valid()
      requires jobId in jobs
      requires forall i :: 0 <= i < |recs| && recs[i].jobId == jobId && (recs[i].status == Pending || recs[i].status == Sending)
                 ==> recs[i].attempts < Limit(jobs[jobId])
      modifies this
      ensures Valid()
      ensures won == (old(jobs)[jobId].status == JobPending)
      ensures !won ==> jobs == old(jobs) && recs == old(recs)
      ensures won && old(jobs)[jobId].bodyIsJson ==> AllSettled(recs, jobId)
      ensures won && !old(jobs)[jobId].bodyIsJson ==>
        recs == ResetSending(old(recs), jobId) && jobId in jobs && jobs[jobId].status == JobFailed
    {
      var (claimed, ok) := ClaimJob(jobs, jobId);
      jobs := claimed;
      won := ok;
      if !won {
        return;
      }
      recs := ResetSending(recs, jobId);
      ghost var before, limit := recs, Limit(jobs[jobId]);
      ProcessJob(jobId, answers);
      if old(jobs)[jobId].bodyIsJson {
        DrainedIsSettled(before, recs, jobId, limit);
      }
    }
  }
}
