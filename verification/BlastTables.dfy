/**
  The two blast tables of `src/db/blast.rs`: rows, and what each SQL statement does to them.
*/
module BlastTables {
  import opened Wrappers
  import opened Timestamps

  datatype JobStatus = JobPending | Running | Completed | CompletedWithFailures | JobCancelled | JobFailed

  datatype RecStatus = Pending | Sending | Sent | Failed | Dlq | SkippedDup

  /** A `blast_jobs` row; `bodyIsJson` stands for the stored body, which the worker only parses. */
  datatype Job = Job(
    sessionId: string, bodyIsJson: bool, maxAttempts: nat, status: JobStatus,
    sentCount: nat, failedCount: nat, dlqCount: nat, sendAt: Option<Civil>)

  /** A `blast_recipients` row; its id is its position in the table. */
  datatype Rec = Rec(
    jobId: string, sessionId: string, recipient: string, status: RecStatus, attempts: nat,
    lastError: Option<string>, messageId: Option<string>)

  type Jobs = map<string, Job>
  type Recs = seq<Rec>

  /** `UNIQUE (job_id, recipient)` */
  ghost predicate UniqueKeys(recs: Recs) {
    forall i, j :: 0 <= i < j < |recs| ==> recs[i].jobId != recs[j].jobId || recs[i].recipient != recs[j].recipient
  }

  predicate HasKey(recs: Recs, jobId: string, recipient: string) {
    exists i :: 0 <= i < |recs| && recs[i].jobId == jobId && recs[i].recipient == recipient
  }

  /** `options.max_attempts.max(1)` */
  function Limit(job: Job): nat { if job.maxAttempts == 0 then 1 else job.maxAttempts }

  // ---------------------------------------------------------------- statements on recipients

  /** Insert unless the key is taken. */
  function InsertRec(recs: Recs, jobId: string, sessionId: string, recipient: string, status: RecStatus): Recs {
    if HasKey(recs, jobId, recipient) then recs
    else recs + [Rec(jobId, sessionId, recipient, status, 0, None, None)]
  }

  /** The SET fragments of the `mark_recipient_*` family. */
  datatype Change = ToSending | ToSent(messageId: string) | ToRetry(error: string) | ToDlq(error: string)

  /** One updated row: a new message id only if there is one, and always the error given. */
  function Changed(r: Rec, c: Change): Rec {
    match c
    case ToSending => r.(status := Sending, lastError := None)
    case ToSent(messageId) => r.(status := Sent, messageId := Some(messageId), lastError := None)
    case ToRetry(error) => r.(status := Pending, attempts := r.attempts + 1, lastError := Some(error))
    case ToDlq(error) => r.(status := Dlq, attempts := r.attempts + 1, lastError := Some(error))
  }

  function UpdateRecipient(recs: Recs, jobId: string, recipient: string, c: Change): (r: Recs)
    ensures |r| == |recs|
  {
    seq(|recs|, i requires 0 <= i < |recs| =>
      if recs[i].jobId == jobId && recs[i].recipient == recipient then Changed(recs[i], c) else recs[i])
  }

  function ResetSending(recs: Recs, jobId: string): (r: Recs)
    ensures |r| == |recs|
  {
    seq(|recs|, i requires 0 <= i < |recs| =>
      if recs[i].jobId == jobId && recs[i].status == Sending then recs[i].(status := Pending) else recs[i])
  }

  predicate IsRetryable(r: Rec, jobId: string) { r.jobId == jobId && (r.status == Dlq || r.status == Failed) }

  function RequeueFailed(recs: Recs, jobId: string): (r: Recs)
    ensures |r| == |recs|
  {
    seq(|recs|, i requires 0 <= i < |recs| =>
      if IsRetryable(recs[i], jobId) then recs[i].(status := Pending, attempts := 0, lastError := None) else recs[i])
  }

  predicate AnyRetryable(recs: Recs, jobId: string) { exists i :: 0 <= i < |recs| && IsRetryable(recs[i], jobId) }

  predicate IsPending(r: Rec, jobId: string) { r.jobId == jobId && r.status == Pending }

  /** Ids of the first `limit` pending rows of the job among the first `n` rows, in insertion order. */
  function PendingRows(recs: Recs, jobId: string, limit: nat, n: nat): (ids: seq<nat>)
    requires n <= |recs|
    ensures |ids| <= limit
    ensures forall k :: 0 <= k < |ids| ==> ids[k] < n && IsPending(recs[ids[k]], jobId)
    ensures forall k, l :: 0 <= k < l < |ids| ==> ids[k] < ids[l]
    ensures limit > 0 && (exists i :: 0 <= i < n && IsPending(recs[i], jobId)) ==> ids != []
    decreases n
  {
    if n == 0 then []
    else
      var before := PendingRows(recs, jobId, limit, n - 1);
      if IsPending(recs[n - 1], jobId) && |before| < limit then before + [n - 1] else before
  }

  predicate NothingPending(recs: Recs, jobId: string) { forall i :: 0 <= i < |recs| ==> !IsPending(recs[i], jobId) }

  lemma {:induction false} NoPendingRows(recs: Recs, jobId: string, limit: nat, n: nat)
    requires n <= |recs| && NothingPending(recs, jobId)
    ensures PendingRows(recs, jobId, limit, n) == []
    decreases n
  {
    if n > 0 {
      NoPendingRows(recs, jobId, limit, n - 1);
    }
  }

  // ---------------------------------------------------------------- statements on jobs

  predicate JobIsDue(job: Job, now: Civil) {
    job.status == JobPending && (job.sendAt.None? || TextAtMost(FmtUtc(job.sendAt.value), FmtUtc(now)))
  }

  function InsertJob(jobs: Jobs, id: string, sessionId: string, bodyIsJson: bool, maxAttempts: nat, sendAt: Option<Civil>): Jobs {
    if id in jobs then jobs else jobs[id := Job(sessionId, bodyIsJson, maxAttempts, JobPending, 0, 0, 0, sendAt)]
  }

  function ClaimJob(jobs: Jobs, id: string): (Jobs, bool) {
    if id in jobs && jobs[id].status == JobPending then (jobs[id := jobs[id].(status := Running)], true)
    else (jobs, false)
  }

  /** `finish_job` has no status guard. */
  function FinishJob(jobs: Jobs, id: string, status: JobStatus): Jobs {
    if id in jobs then jobs[id := jobs[id].(status := status)] else jobs
  }

  function CancelJob(jobs: Jobs, sessionId: string, id: string): (Jobs, bool) {
    if id in jobs && jobs[id].sessionId == sessionId && (jobs[id].status == JobPending || jobs[id].status == Running) then
      (jobs[id := jobs[id].(status := JobCancelled)], true)
    else (jobs, false)
  }

  function ReopenJob(jobs: Jobs, id: string): Jobs {
    if id in jobs && jobs[id].status != Running then jobs[id := jobs[id].(status := JobPending)] else jobs
  }

  datatype Counter = SentCounter | FailedCounter | DlqCounter

  function Bumped(job: Job, c: Counter): Job {
    match c
    case SentCounter => job.(sentCount := job.sentCount + 1)
    case FailedCounter => job.(failedCount := job.failedCount + 1)
    case DlqCounter => job.(dlqCount := job.dlqCount + 1)
  }

  function BumpCounter(jobs: Jobs, id: string, c: Counter): Jobs {
    if id in jobs then jobs[id := Bumped(jobs[id], c)] else jobs
  }

  /** What `finalize_job` settles on: the counter decides, not the rows. */
  function FinalStatus(jobs: Jobs, id: string): JobStatus {
    if id in jobs && jobs[id].dlqCount > 0 then CompletedWithFailures else Completed
  }

  // ---------------------------------------------------------------- facts used by both models

  /** With unique keys an update by (job, recipient) changes the one row that has the key. */
  lemma UpdateIsPoint(recs: Recs, i: nat, c: Change)
    requires UniqueKeys(recs) && i < |recs|
    ensures UpdateRecipient(recs, recs[i].jobId, recs[i].recipient, c) == recs[i := Changed(recs[i], c)]
  {
  }

  predicate SameKey(a: Rec, b: Rec) {
    a.jobId == b.jobId && a.recipient == b.recipient && a.sessionId == b.sessionId
  }

  /** Rows are only ever added at the end, and their keys never change. */
  ghost predicate KeepsRows(before: Recs, after: Recs) {
    |before| <= |after| && forall i :: 0 <= i < |before| ==> SameKey(before[i], after[i])
  }

  // ---------------------------------------------------------------- remaining attempts

  function Weight(r: Rec, jobId: string, limit: nat): nat {
    if IsPending(r, jobId) && r.attempts < limit then limit - r.attempts else 0
  }

  /** Attempts left to the job's pending rows: what every dispatch uses up. */
  function Remaining(recs: Recs, jobId: string, limit: nat): nat {
    if recs == [] then 0
    else Remaining(recs[..|recs| - 1], jobId, limit) + Weight(recs[|recs| - 1], jobId, limit)
  }

  lemma {:induction false} RemainingPoint(recs: Recs, i: nat, r: Rec, jobId: string, limit: nat)
    requires i < |recs|
    ensures Remaining(recs[i := r], jobId, limit) + Weight(recs[i], jobId, limit)
         == Remaining(recs, jobId, limit) + Weight(r, jobId, limit)
  {
    var last := |recs| - 1;
    if i == last {
      assert recs[i := r][..last] == recs[..last];
    } else {
      RemainingPoint(recs[..last], i, r, jobId, limit);
      assert recs[i := r][..last] == recs[..last][i := r];
    }
  }
}
