/**
  The blast worker as a protocol: one worker that can die between any two of its statements, and
  API calls (create, cancel, retry) that interleave with it freely.
*/
module BlastWorker {
  import opened Wrappers
  import opened Timestamps
  import opened BlastTables
  import opened Dispatch
  import opened BlastDrain

  /** A recipient as the worker read it. */
  datatype Item = Item(row: nat, recipient: string, attempts: nat)

  /** Where the worker stands; `batch` is what is left of the one it read, its head in progress. */
  datatype Pc =
    | Idle
    | ToClaim(job: string)
    | ToReset(job: string)
    | ToParse(job: string)
    | ToCheck(job: string)
    | ToFetch(job: string)
    | InBatch(job: string, batch: seq<Item>)
    | Marked(job: string, batch: seq<Item>)
    | Answered(job: string, batch: seq<Item>, outcome: Outcome)
    | ToCountSent(job: string, batch: seq<Item>)
    | ToPark(job: string, batch: seq<Item>, error: string)
    | ToCountDlq(job: string, batch: seq<Item>)
    | ToClose(job: string)
    | ToFinish(job: string, status: JobStatus)

  /** `log` has the row of every dispatch; `retried` one entry for each retry call that has yet to reopen its job. */
  datatype State = State(jobs: Jobs, recs: Recs, pc: Pc, log: seq<nat>, retried: multiset<string>)

  datatype Action =
    | CreateJob(id: string, sessionId: string, bodyIsJson: bool, maxAttempts: nat, sendAt: Option<Civil>)
    | AddRecipient(id: string, recipient: string, duplicate: bool)
    | Cancel(sessionId: string, id: string)
    | Requeue(id: string)
    | Reopen(id: string)
    | Tick(id: string, now: Civil)
    | Work(outcome: Outcome)
    | Die

  function ItemOf(recs: Recs, row: nat): Item
    requires row < |recs|
  {
    Item(row, recs[row].recipient, recs[row].attempts)
  }

  function ReadBatch(recs: Recs, jobId: string): (items: seq<Item>)
    ensures |items| <= BATCH_SIZE
  {
    var ids := PendingRows(recs, jobId, BATCH_SIZE, |recs|);
    seq(|ids|, k requires 0 <= k < |ids| => ItemOf(recs, ids[k]))
  }

  /** A tick picks a running job if there is one, and otherwise a due pending job to claim. */
  function TickPc(s: State, id: string, now: Civil): Pc {
    if id !in s.jobs then Idle
    else if s.jobs[id].status == Running then ToParse(id)
    else if JobIsDue(s.jobs[id], now) && forall j :: j in s.jobs ==> s.jobs[j].status != Running then ToClaim(id)
    else Idle
  }

  /** The worker's next statement. */
  function WorkerStep(s: State, outcome: Outcome): State {
    match s.pc
    case Idle => s
    case ToClaim(job) =>
      var (jobs, won) := ClaimJob(s.jobs, job);
      s.(jobs := jobs, pc := if won then ToReset(job) else Idle)
    case ToReset(job) => s.(recs := ResetSending(s.recs, job), pc := ToParse(job))
    // the body is parsed before the status is ever read
    case ToParse(job) =>
      s.(pc := if job in s.jobs && s.jobs[job].bodyIsJson then ToCheck(job) else ToFinish(job, JobFailed))
    case ToCheck(job) => s.(pc := if job in s.jobs && s.jobs[job].status == Running then ToFetch(job) else Idle)
    case ToFetch(job) =>
      var batch := ReadBatch(s.recs, job);
      s.(pc := if batch == [] then ToClose(job) else InBatch(job, batch))
    case InBatch(job, batch) =>
      if batch == [] then s.(pc := ToCheck(job))
      else s.(recs := UpdateRecipient(s.recs, job, batch[0].recipient, ToSending), pc := Marked(job, batch))
    case Marked(job, batch) =>
      if batch == [] then s
      else s.(log := s.log + [batch[0].row], pc := Answered(job, batch, outcome))
    case Answered(job, batch, answer) =>
      if batch == [] then s else
      (match answer
       case Accepted(messageId) =>
         s.(recs := UpdateRecipient(s.recs, job, batch[0].recipient, ToSent(messageId)), pc := ToCountSent(job, batch[1..]))
       case Rejected(error) =>
         s.(jobs := BumpCounter(s.jobs, job, FailedCounter), pc := ToPark(job, batch, error)))
    case ToCountSent(job, batch) => s.(jobs := BumpCounter(s.jobs, job, SentCounter), pc := InBatch(job, batch))
    case ToPark(job, batch, error) =>
      if batch == [] || job !in s.jobs then s
      else if batch[0].attempts + 1 < Limit(s.jobs[job]) then
        s.(recs := UpdateRecipient(s.recs, job, batch[0].recipient, ToRetry(error)), pc := InBatch(job, batch[1..]))
      else
        s.(recs := UpdateRecipient(s.recs, job, batch[0].recipient, ToDlq(error)), pc := ToCountDlq(job, batch[1..]))
    case ToCountDlq(job, batch) => s.(jobs := BumpCounter(s.jobs, job, DlqCounter), pc := InBatch(job, batch))
    case ToClose(job) => s.(pc := ToFinish(job, FinalStatus(s.jobs, job)))
    case ToFinish(job, status) => s.(jobs := FinishJob(s.jobs, job, status), pc := Idle)
  }

  function Next(s: State, a: Action): State {
    match a
    case CreateJob(id, sessionId, bodyIsJson, maxAttempts, sendAt) =>
      s.(jobs := InsertJob(s.jobs, id, sessionId, bodyIsJson, maxAttempts, sendAt))
    case AddRecipient(id, recipient, duplicate) =>
      if id !in s.jobs then s
      else s.(recs := InsertRec(s.recs, id, s.jobs[id].sessionId, recipient, if duplicate then SkippedDup else Pending))
    case Cancel(sessionId, id) => s.(jobs := CancelJob(s.jobs, sessionId, id).0)
    // the caller saw a job that was not running; by now it may be
    case Requeue(id) =>
      s.(recs := RequeueFailed(s.recs, id),
         retried := if AnyRetryable(s.recs, id) then s.retried + multiset{id} else s.retried)
    case Reopen(id) =>
      if id in s.retried then s.(jobs := ReopenJob(s.jobs, id), retried := s.retried - multiset{id}) else s
    case Tick(id, now) => if s.pc == Idle then s.(pc := TickPc(s, id, now)) else s
    case Work(outcome) => WorkerStep(s, outcome)
    case Die => s.(pc := Idle)
  }

  const EMPTY := State(map[], [], Idle, [], multiset{})

  function Continue(s: State, more: seq<Action>): State {
    if more == [] then s else Next(Continue(s, more[..|more| - 1]), more[|more| - 1])
  }

  const NOW := Civil(2026, 1, 1, 0, 0, 0, 0)

  /** The worker's next statement, when the answer of a dispatch does not matter. */
  const STEP := Work(Rejected(""))

  lemma OneStep(s: State, a: Action)
    ensures Continue(s, [a]) == Next(s, a)
  {
    assert [a][..0] == [];
    assert Continue(s, []) == s;
  }

  lemma Extend(s: State, more: seq<Action>, a: Action)
    ensures Continue(s, more + [a]) == Next(Continue(s, more), a)
  {
    assert (more + [a])[..|more|] == more;
  }

  lemma {:induction false} Chain(s: State, first: seq<Action>, more: seq<Action>)
    ensures Continue(s, first + more) == Continue(Continue(s, first), more)
  {
    if more == [] {
      assert first + more == first;
    } else {
      var init := more[..|more| - 1];
      Chain(s, first, init);
      Extend(s, first + init, more[|more| - 1]);
      assert first + more == first + init + [more[|more| - 1]];
    }
  }

  // ---------------------------------------------------------------- the invariant

  function BatchOf(pc: Pc): seq<Item> {
    match pc
    case InBatch(_, batch) => batch
    case Marked(_, batch) => batch
    case Answered(_, batch, _) => batch
    case ToCountSent(_, batch) => batch
    case ToPark(_, batch, _) => batch
    case ToCountDlq(_, batch) => batch
    case _ => []
  }

  predicate HeadInHand(pc: Pc) { pc.Marked? || pc.Answered? || pc.ToPark? }

  ghost predicate ItemInv(recs: Recs, job: string, item: Item, status: RecStatus) {
    && item.row < |recs| && recs[item.row].jobId == job && recs[item.row].recipient == item.recipient
    && recs[item.row].status == status && recs[item.row].attempts == item.attempts
  }

  /** The rows still ahead of the worker are pending as it read them; the one in its hands is `sending`. */
  ghost predicate BatchInv(s: State) {
    var batch := BatchOf(s.pc);
    && (HeadInHand(s.pc) ==> batch != [])
    && (batch != [] ==>
          && s.pc.job in s.jobs
          && (forall k :: 0 <= k < |batch| ==>
                ItemInv(s.recs, s.pc.job, batch[k], if k == 0 && HeadInHand(s.pc) then Sending else Pending))
          && (forall k, l :: 0 <= k < l < |batch| ==> batch[k].row != batch[l].row))
  }

  /** Attempts never pass the job's limit, a row that may still be sent has one left, and nothing
      ever writes `failed`. */
  ghost predicate RecInv(s: State, r: Rec) {
    && r.jobId in s.jobs
    && r.attempts <= Limit(s.jobs[r.jobId])
    && (r.status == Pending || r.status == Sending ==> r.attempts < Limit(s.jobs[r.jobId]))
    && (r.status == Dlq ==> r.attempts == Limit(s.jobs[r.jobId]))
    && r.status != Failed
  }

  ghost predicate RowsInv(s: State) {
    UniqueKeys(s.recs) && forall i :: 0 <= i < |s.recs| ==> RecInv(s, s.recs[i])
  }

  /** Past the parse, and before it fails the job. */
  predicate IsParsed(pc: Pc) {
    !pc.Idle? && !pc.ToClaim? && !pc.ToReset? && !pc.ToParse? && !(pc.ToFinish? && pc.status == JobFailed)
  }

  ghost predicate PcInv(s: State) {
    && |BatchOf(s.pc)| <= BATCH_SIZE
    && (!s.pc.Idle? ==> s.pc.job in s.jobs)
    && (IsParsed(s.pc) ==> s.jobs[s.pc.job].bodyIsJson)
    && (s.pc.ToFinish? ==>
          || s.pc.status == Completed || s.pc.status == CompletedWithFailures
          || (s.pc.status == JobFailed && !s.jobs[s.pc.job].bodyIsJson))
  }

  ghost predicate Inv(s: State) {
    RowsInv(s) && BatchInv(s) && PcInv(s)
  }

  /** What no step ever changes of a job, and the counter that only grows. */
  predicate KeepsJob(before: Job, after: Job) {
    && after.sessionId == before.sessionId && after.bodyIsJson == before.bodyIsJson
    && after.maxAttempts == before.maxAttempts && after.sendAt == before.sendAt
    && after.dlqCount >= before.dlqCount
  }

  ghost predicate KeepsJobs(before: Jobs, after: Jobs) {
    forall j :: j in before ==> j in after && KeepsJob(before[j], after[j])
  }

  /** Each statement on the jobs updates at most the worker's own. */
  lemma WorkKeepsJobs(s: State, outcome: Outcome)
    ensures KeepsJobs(s.jobs, WorkerStep(s, outcome).jobs)
  {
    if !s.pc.Idle? && s.pc.job in s.jobs {
      var id, after := s.pc.job, WorkerStep(s, outcome).jobs;
      assert id in after && KeepsJob(s.jobs[id], after[id]);
      assert after == s.jobs || after == s.jobs[id := after[id]];
    }
  }

  lemma StatusKeepsJobs(jobs: Jobs, sessionId: string, id: string)
    ensures KeepsJobs(jobs, CancelJob(jobs, sessionId, id).0) && KeepsJobs(jobs, ReopenJob(jobs, id))
  {
  }

  lemma NextKeepsJobs(s: State, a: Action)
    ensures KeepsJobs(s.jobs, Next(s, a).jobs)
  {
    match a
    case Work(outcome) => WorkKeepsJobs(s, outcome);
    case Cancel(sessionId, id) => StatusKeepsJobs(s.jobs, sessionId, id);
    case Reopen(id) => StatusKeepsJobs(s.jobs, "", id);
    case _ =>
  }

  lemma FetchKeepsBatch(s: State, outcome: Outcome)
    requires RowsInv(s) && s.pc.ToFetch?
    ensures BatchInv(WorkerStep(s, outcome))
  {
    var ids := PendingRows(s.recs, s.pc.job, BATCH_SIZE, |s.recs|);
    if ids != [] {
      assert RecInv(s, s.recs[ids[0]]);
    }
  }

  /** Changing the row in hand leaves the rest of the batch as it was read. */
  lemma TailKept(s: State, r: Rec)
    requires BatchInv(s) && BatchOf(s.pc) != []
    ensures var batch := BatchOf(s.pc);
            && batch[0].row < |s.recs|
            && forall k :: 1 <= k < |batch| ==> ItemInv(s.recs[batch[0].row := r], s.pc.job, batch[k], Pending)
  {
  }

  /** The row at the head of the batch. */
  lemma HeadItem(s: State)
    requires BatchInv(s) && BatchOf(s.pc) != []
    ensures ItemInv(s.recs, s.pc.job, BatchOf(s.pc)[0], if HeadInHand(s.pc) then Sending else Pending)
  {
  }

  /** The row at the head after the worker's next statement. */
  function HeadAfter(s: State, outcome: Outcome): (r: Rec)
    requires BatchOf(s.pc) != [] && BatchOf(s.pc)[0].row < |s.recs|
  {
    var r := s.recs[BatchOf(s.pc)[0].row];
    match s.pc
    case InBatch(_, _) => Changed(r, ToSending)
    case Answered(_, _, Accepted(m)) => Changed(r, ToSent(m))
    case ToPark(job, batch, e) =>
      if job !in s.jobs then r
      else if batch[0].attempts + 1 < Limit(s.jobs[job]) then Changed(r, ToRetry(e)) else Changed(r, ToDlq(e))
    case _ => r
  }

  /** Every statement on a row in hand changes that row and no other. */
  lemma HeadUpdate(s: State, outcome: Outcome)
    requires Inv(s) && BatchOf(s.pc) != []
    ensures var row := BatchOf(s.pc)[0].row;
            row < |s.recs| && WorkerStep(s, outcome).recs == s.recs[row := HeadAfter(s, outcome)]
  {
    HeadItem(s);
    var row := BatchOf(s.pc)[0].row;
    assert s.recs == s.recs[row := s.recs[row]];
    match s.pc
    case InBatch(_, _) => UpdateIsPoint(s.recs, row, ToSending);
    case Answered(_, _, Accepted(m)) => UpdateIsPoint(s.recs, row, ToSent(m));
    case ToPark(_, _, e) =>
      UpdateIsPoint(s.recs, row, ToRetry(e));
      UpdateIsPoint(s.recs, row, ToDlq(e));
    case _ =>
  }

  lemma PointKeepsKeys(recs: Recs, row: nat, r: Rec)
    requires UniqueKeys(recs) && row < |recs| && SameKey(r, recs[row])
    ensures UniqueKeys(recs[row := r]) && KeepsRows(recs, recs[row := r])
  {
  }

  lemma HeadKeepsInv(s: State, outcome: Outcome)
    requires Inv(s) && BatchOf(s.pc) != []
    ensures var row := BatchOf(s.pc)[0].row;
            row < |s.recs| && SameKey(HeadAfter(s, outcome), s.recs[row]) && RecInv(s, HeadAfter(s, outcome))
  {
    HeadItem(s);
    assert RecInv(s, s.recs[BatchOf(s.pc)[0].row]);
  }

  /** A step that keeps the jobs' limits and whose rows are all in order keeps the row invariant. */
  lemma RowsStay(s: State, s': State)
    requires KeepsJobs(s.jobs, s'.jobs) && UniqueKeys(s'.recs)
    requires forall i :: 0 <= i < |s'.recs| ==> RecInv(s, s'.recs[i])
    ensures RowsInv(s')
  {
  }

  lemma HeadKeepsRows(s: State, outcome: Outcome)
    requires Inv(s) && BatchOf(s.pc) != []
    ensures RowsInv(WorkerStep(s, outcome))
  {
    var row := BatchOf(s.pc)[0].row;
    HeadUpdate(s, outcome);
    HeadKeepsInv(s, outcome);
    PointKeepsKeys(s.recs, row, HeadAfter(s, outcome));
    var after := s.recs[row := HeadAfter(s, outcome)];
    assert forall i :: 0 <= i < |after| ==> after[i] == if i == row then HeadAfter(s, outcome) else s.recs[i];
    WorkKeepsJobs(s, outcome);
    RowsStay(s, WorkerStep(s, outcome));
  }

  lemma WorkKeepsRows(s: State, outcome: Outcome)
    requires Inv(s)
    ensures RowsInv(WorkerStep(s, outcome))
  {
    if BatchOf(s.pc) != [] {
      HeadKeepsRows(s, outcome);
    } else {
      ResetKeepsRows(s, outcome);
      WorkKeepsJobs(s, outcome);
      RowsStay(s, WorkerStep(s, outcome));
    }
  }

  lemma ResetKeepsRows(s: State, outcome: Outcome)
    requires Inv(s) && BatchOf(s.pc) == []
    ensures var after := WorkerStep(s, outcome).recs;
            after == (if s.pc.ToReset? then ResetSending(s.recs, s.pc.job) else s.recs)
            && UniqueKeys(after) && forall i :: 0 <= i < |after| ==> RecInv(s, after[i])
  {
    var after := WorkerStep(s, outcome).recs;
    assert forall i :: 0 <= i < |after| ==> RecInv(s, s.recs[i]);
  }

  lemma WorkKeepsBatch(s: State, outcome: Outcome)
    requires Inv(s)
    ensures BatchInv(WorkerStep(s, outcome))
  {
    if BatchOf(s.pc) != [] {
      HeadUpdate(s, outcome);
      TailKept(s, HeadAfter(s, outcome));
      HeadItem(s);
    } else if s.pc.ToFetch? {
      FetchKeepsBatch(s, outcome);
    }
  }

  lemma WorkKeepsPc(s: State, outcome: Outcome)
    requires PcInv(s)
    ensures PcInv(WorkerStep(s, outcome))
  {
  }

  lemma WorkKeepsInv(s: State, outcome: Outcome)
    requires Inv(s)
    ensures Inv(WorkerStep(s, outcome))
  {
    WorkKeepsRows(s, outcome);
    WorkKeepsBatch(s, outcome);
    WorkKeepsPc(s, outcome);
  }

  /** More rows at the end are nothing to the worker's batch. */
  lemma BatchStays(s: State, s': State)
    requires BatchInv(s) && s'.pc == s.pc && s'.jobs == s.jobs && s.recs <= s'.recs
    ensures BatchInv(s')
  {
    var batch := BatchOf(s.pc);
    forall k | 0 <= k < |batch|
      ensures ItemInv(s'.recs, s.pc.job, batch[k], if k == 0 && HeadInHand(s.pc) then Sending else Pending)
    {
      assert ItemInv(s.recs, s.pc.job, batch[k], if k == 0 && HeadInHand(s.pc) then Sending else Pending);
    }
  }

  lemma AddKeepsInv(s: State, id: string, recipient: string, duplicate: bool)
    requires Inv(s)
    ensures Inv(Next(s, AddRecipient(id, recipient, duplicate)))
  {
    if id in s.jobs {
      var s' := Next(s, AddRecipient(id, recipient, duplicate));
      InsertGrows(s.recs, id, s.jobs[id].sessionId, recipient, if duplicate then SkippedDup else Pending);
      assert s'.recs[..|s.recs|] == s.recs;
      BatchStays(s, s');
    }
  }

  /** A retry call touches only dead-lettered and failed rows, never one the worker has before it. */
  lemma RequeueKeepsInv(s: State, id: string)
    requires Inv(s)
    ensures Inv(Next(s, Requeue(id)))
  {
    var s' := Next(s, Requeue(id));
    forall i | 0 <= i < |s.recs|
      ensures RecInv(s, s'.recs[i])
    {
      assert RecInv(s, s.recs[i]);
    }
    RowsStay(s, s');
    var batch := BatchOf(s.pc);
    forall k | 0 <= k < |batch|
      ensures ItemInv(s'.recs, s.pc.job, batch[k], if k == 0 && HeadInHand(s.pc) then Sending else Pending)
    {
      assert ItemInv(s.recs, s.pc.job, batch[k], if k == 0 && HeadInHand(s.pc) then Sending else Pending);
    }
  }

  /** Calls that only change a job's status. */
  lemma JobCallKeepsInv(s: State, a: Action)
    requires Inv(s) && (a.CreateJob? || a.Cancel? || a.Reopen?)
    ensures Inv(Next(s, a))
  {
    NextKeepsJobs(s, a);
    RowsStay(s, Next(s, a));
  }

  lemma NextKeepsInv(s: State, a: Action)
    requires Inv(s)
    ensures Inv(Next(s, a))
  {
    match a
    case AddRecipient(id, recipient, duplicate) => AddKeepsInv(s, id, recipient, duplicate);
    case Requeue(id) => RequeueKeepsInv(s, id);
    case Work(outcome) => WorkKeepsInv(s, outcome);
    case Tick(_, _) =>
    case Die =>
    case _ => JobCallKeepsInv(s, a);
  }

  lemma {:induction false} RunsKeepInv(s: State, more: seq<Action>)
    requires Inv(s)
    ensures Inv(Continue(s, more))
  {
    if more != [] {
      RunsKeepInv(s, more[..|more| - 1]);
      NextKeepsInv(Continue(s, more[..|more| - 1]), more[|more| - 1]);
    }
  }

  /** Whatever dies and whoever calls: no row has more recorded attempts than its job allows, a row
      that may still be sent has one left, and a dead-lettered row has used them all. */
  lemma AttemptsAreBounded(more: seq<Action>, i: nat)
    requires i < |Continue(EMPTY, more).recs|
    ensures RecInv(Continue(EMPTY, more), Continue(EMPTY, more).recs[i])
  {
    RunsKeepInv(EMPTY, more);
  }

  // ---------------------------------------------------------------- no row is lost or duplicated

  lemma WorkKeepsKeys(s: State, outcome: Outcome)
    ensures KeepsRows(s.recs, WorkerStep(s, outcome).recs)
  {
  }

  lemma NextKeepsKeys(s: State, a: Action)
    ensures KeepsRows(s.recs, Next(s, a).recs)
  {
    if a.Work? {
      WorkKeepsKeys(s, a.outcome);
    }
  }

  /** In every run rows are only added, never under a key that exists, and never moved or renamed. */
  lemma {:induction false} NoRowLostOrDuplicated(s: State, more: seq<Action>)
    requires Inv(s)
    ensures KeepsRows(s.recs, Continue(s, more).recs) && UniqueKeys(Continue(s, more).recs)
  {
    RunsKeepInv(s, more);
    if more != [] {
      NoRowLostOrDuplicated(s, more[..|more| - 1]);
      NextKeepsKeys(Continue(s, more[..|more| - 1]), more[|more| - 1]);
    }
  }

  // ---------------------------------------------------------------- sent is sent

  function Dispatches(log: seq<nat>, row: nat): nat {
    if log == [] then 0
    else Dispatches(log[..|log| - 1], row) + if log[|log| - 1] == row then 1 else 0
  }

  lemma LogGrows(log: seq<nat>, head: nat, row: nat)
    ensures Dispatches(log + [head], row) == Dispatches(log, row) + if head == row then 1 else 0
  {
    assert (log + [head])[..|log|] == log;
  }

  /** A row the log does not reach. */
  lemma {:induction false} NoneOfNewRow(log: seq<nat>, row: nat)
    requires forall k :: 0 <= k < |log| ==> log[k] < row
    ensures Dispatches(log, row) == 0
  {
    if log != [] {
      NoneOfNewRow(log[..|log| - 1], row);
    }
  }

  /** A dispatch is of the row in hand. */
  lemma WorkLogs(s: State, outcome: Outcome, row: nat)
    ensures WorkerStep(s, outcome).log
         == s.log + if s.pc.Marked? && s.pc.batch != [] then [s.pc.batch[0].row] else []
    ensures Dispatches(WorkerStep(s, outcome).log, row)
         == Dispatches(s.log, row) + if s.pc.Marked? && s.pc.batch != [] && s.pc.batch[0].row == row then 1 else 0
  {
    if s.pc.Marked? && s.pc.batch != [] {
      LogGrows(s.log, s.pc.batch[0].row, row);
    } else {
      assert s.log + [] == s.log;
    }
  }

  /** A worker's statement leaves every row alone that is not at the head of its batch, except that a
      reset puts rows in `sending` back. */
  lemma WorkSpares(s: State, outcome: Outcome, row: nat)
    requires Inv(s) && row < |s.recs|
    requires BatchOf(s.pc) == [] || BatchOf(s.pc)[0].row != row
    requires s.recs[row].status == Sending ==> s.pc != ToReset(s.recs[row].jobId)
    ensures row < |WorkerStep(s, outcome).recs| && WorkerStep(s, outcome).recs[row] == s.recs[row]
  {
    if BatchOf(s.pc) != [] {
      HeadUpdate(s, outcome);
    } else {
      ResetKeepsRows(s, outcome);
    }
  }

  lemma NextKeepsSent(s: State, a: Action, row: nat)
    requires Inv(s) && row < |s.recs| && s.recs[row].status == Sent
    ensures row < |Next(s, a).recs| && Next(s, a).recs[row] == s.recs[row]
    ensures Dispatches(Next(s, a).log, row) == Dispatches(s.log, row)
  {
    if a.Work? {
      if BatchOf(s.pc) != [] {
        HeadItem(s);
      }
      WorkSpares(s, a.outcome, row);
      WorkLogs(s, a.outcome, row);
    }
  }

  /** Once a recipient is recorded `sent` it is never dispatched again and its row never changes,
      through crashes, cancels, retries and stale batches. */
  lemma {:induction false} SentIsNeverSentAgain(s: State, more: seq<Action>, row: nat)
    requires Inv(s) && row < |s.recs| && s.recs[row].status == Sent
    ensures var t := Continue(s, more);
            row < |t.recs| && t.recs[row] == s.recs[row] && Dispatches(t.log, row) == Dispatches(s.log, row)
  {
    if more != [] {
      SentIsNeverSentAgain(s, more[..|more| - 1], row);
      RunsKeepInv(s, more[..|more| - 1]);
      NextKeepsSent(Continue(s, more[..|more| - 1]), more[|more| - 1], row);
    }
  }

  // ---------------------------------------------------------------- cancelling is cooperative

  /** How many dispatches the worker may still make for `job` before it looks at the status again. */
  function StillToCome(pc: Pc, job: string): nat {
    if pc.Idle? || pc.job != job then 0
    else
      match pc
      case ToReset(_) => 0
      case ToFetch(_) => BATCH_SIZE
      case InBatch(_, batch) => |batch|
      case Marked(_, batch) => |batch|
      case Answered(_, batch, _) => if batch == [] then 0 else |batch| - 1
      case ToCountSent(_, batch) => |batch|
      case ToPark(_, batch, _) => if batch == [] then 0 else |batch| - 1
      case ToCountDlq(_, batch) => |batch|
      case _ => 0
  }

  /** Dispatches in the log that went to rows of this job. */
  function JobDispatches(recs: Recs, log: seq<nat>, job: string): nat {
    if log == [] then 0
    else
      var row := log[|log| - 1];
      JobDispatches(recs, log[..|log| - 1], job) + if row < |recs| && recs[row].jobId == job then 1 else 0
  }

  predicate IsStopped(s: State, job: string) {
    job in s.jobs && s.jobs[job].status != JobPending && s.jobs[job].status != Running
  }

  lemma {:induction false} CountSurvives(before: Recs, after: Recs, log: seq<nat>, job: string)
    requires KeepsRows(before, after)
    requires forall k :: 0 <= k < |log| ==> log[k] < |before|
    ensures JobDispatches(after, log, job) == JobDispatches(before, log, job)
  {
    if log != [] {
      CountSurvives(before, after, log[..|log| - 1], job);
    }
  }

  ghost predicate LogInv(s: State) { forall k :: 0 <= k < |s.log| ==> s.log[k] < |s.recs| }

  lemma LogStays(s: State, s': State)
    requires LogInv(s) && |s.recs| <= |s'.recs| && |s.log| <= |s'.log| <= |s.log| + 1
    requires s'.log[..|s.log|] == s.log && (|s'.log| > |s.log| ==> s'.log[|s.log|] < |s.recs|)
    ensures LogInv(s')
  {
    assert forall k :: 0 <= k < |s.log| ==> s'.log[k] == s.log[k];
  }

  lemma NextKeepsLog(s: State, a: Action)
    requires Inv(s) && LogInv(s)
    ensures LogInv(Next(s, a))
  {
    var s' := Next(s, a);
    NextKeepsKeys(s, a);
    if a.Work? {
      WorkLogs(s, a.outcome, 0);
      if BatchOf(s.pc) != [] {
        HeadItem(s);
      }
    } else {
      assert s'.log == s.log;
    }
    LogStays(s, s');
  }

  lemma WorkStaysStopped(s: State, outcome: Outcome, job: string)
    requires PcInv(s) && IsStopped(s, job)
    ensures IsStopped(WorkerStep(s, outcome), job)
  {
  }

  lemma NextStaysStopped(s: State, a: Action, job: string)
    requires PcInv(s) && IsStopped(s, job) && a != Reopen(job)
    ensures IsStopped(Next(s, a), job)
  {
    if a.Work? {
      WorkStaysStopped(s, a.outcome, job);
    }
  }

  /** The worker's claim on `job` only shrinks while the job is stopped, by one for each dispatch. */
  lemma NextUsesUp(s: State, a: Action, job: string)
    requires Inv(s) && IsStopped(s, job)
    ensures var used := if a.Work? && s.pc.Marked? && s.pc.job == job then 1 else 0;
            used + StillToCome(Next(s, a).pc, job) <= StillToCome(s.pc, job)
  {
  }

  lemma WorkCounts(s: State, outcome: Outcome, recs: Recs, job: string)
    requires Inv(s) && |s.recs| <= |recs| && KeepsRows(s.recs, recs)
    ensures JobDispatches(recs, WorkerStep(s, outcome).log, job)
         == JobDispatches(recs, s.log, job) + if s.pc.Marked? && s.pc.job == job then 1 else 0
  {
    WorkLogs(s, outcome, 0);
    if s.pc.Marked? {
      HeadItem(s);
      assert (s.log + [s.pc.batch[0].row])[..|s.log|] == s.log;
    } else {
      assert s.log + [] == s.log;
    }
  }

  /** The rows and the log after an action: rows are kept, and only the worker logs. */
  lemma Stepped(s: State, a: Action) returns (t: State)
    ensures t == Next(s, a) && KeepsRows(s.recs, t.recs)
    ensures if a.Work? then t == WorkerStep(s, a.outcome) else t.log == s.log
  {
    NextKeepsKeys(s, a);
    t := Next(s, a);
  }

  lemma NextCounts(s: State, a: Action, job: string)
    requires Inv(s) && LogInv(s)
    ensures JobDispatches(Next(s, a).recs, Next(s, a).log, job)
         == JobDispatches(s.recs, s.log, job) + if a.Work? && s.pc.Marked? && s.pc.job == job then 1 else 0
  {
    var t := Stepped(s, a);
    CountSurvives(s.recs, t.recs, s.log, job);
    if a.Work? {
      WorkCounts(s, a.outcome, t.recs, job);
    }
  }

  /** A cancelled (or otherwise stopped) job that nobody reopens goes out to at most one more batch. */
  lemma {:induction false} CancelLatency(s: State, more: seq<Action>, job: string)
    requires Inv(s) && LogInv(s) && IsStopped(s, job)
    requires Reopen(job) !in more
    ensures var t := Continue(s, more);
            && IsStopped(t, job) && Inv(t) && LogInv(t)
            && JobDispatches(t.recs, t.log, job) + StillToCome(t.pc, job)
               <= JobDispatches(s.recs, s.log, job) + StillToCome(s.pc, job)
            && JobDispatches(t.recs, t.log, job) <= JobDispatches(s.recs, s.log, job) + BATCH_SIZE
  {
    if more != [] {
      var init := more[..|more| - 1];
      CancelLatency(s, init, job);
      NextKeepsInv(Continue(s, init), more[|more| - 1]);
      NextKeepsLog(Continue(s, init), more[|more| - 1]);
      NextStaysStopped(Continue(s, init), more[|more| - 1], job);
      NextUsesUp(Continue(s, init), more[|more| - 1], job);
      NextCounts(Continue(s, init), more[|more| - 1], job);
    }
  }

  // ---------------------------------------------------------------- rows caught in `sending`

  /** The row is in the worker's hands. */
  predicate InHand(pc: Pc, row: nat) { HeadInHand(pc) && BatchOf(pc) != [] && BatchOf(pc)[0].row == row }

  /** A row left in `sending` by a worker that died, in a job that is not waiting to be claimed. */
  ghost predicate Stranded(s: State, row: nat) {
    && row < |s.recs| && s.recs[row].status == Sending && !InHand(s.pc, row)
    && s.recs[row].jobId in s.jobs && s.jobs[s.recs[row].jobId].status != JobPending
    && s.pc != ToReset(s.recs[row].jobId)
  }

  lemma WorkSparesStranded(s: State, outcome: Outcome, row: nat)
    requires Inv(s) && row < |s.recs| && s.recs[row].status == Sending && !InHand(s.pc, row)
    requires s.pc != ToReset(s.recs[row].jobId)
    ensures row < |WorkerStep(s, outcome).recs| && WorkerStep(s, outcome).recs[row] == s.recs[row]
    ensures !InHand(WorkerStep(s, outcome).pc, row)
    ensures Dispatches(WorkerStep(s, outcome).log, row) == Dispatches(s.log, row)
  {
    if BatchOf(s.pc) != [] {
      HeadItem(s);
    }
    WorkSpares(s, outcome, row);
    WorkLogs(s, outcome, row);
  }

  lemma WorkStaysStranded(s: State, outcome: Outcome, row: nat)
    requires Inv(s) && Stranded(s, row)
    ensures Stranded(WorkerStep(s, outcome), row) && WorkerStep(s, outcome).recs[row] == s.recs[row]
  {
    WorkSparesStranded(s, outcome, row);
    var id := s.recs[row].jobId;
    var s' := WorkerStep(s, outcome);
    NextKeepsJobs(s, Work(outcome));
    assert s'.jobs[id].status != JobPending;
    assert s'.pc == ToReset(id) ==> s.pc == ToClaim(id);
  }

  lemma NextStaysStranded(s: State, a: Action, row: nat)
    requires Inv(s) && Stranded(s, row) && a != Reopen(s.recs[row].jobId)
    ensures Stranded(Next(s, a), row) && Next(s, a).recs[row] == s.recs[row]
    ensures Dispatches(Next(s, a).log, row) == Dispatches(s.log, row)
  {
    if a.Work? {
      WorkSparesStranded(s, a.outcome, row);
      WorkStaysStranded(s, a.outcome, row);
    } else {
      assert Next(s, a).recs[row] == s.recs[row];
    }
  }

  /** A restart resumes the job without resetting its rows: until someone reopens the job, a
      stranded recipient stays `sending` and is never dispatched, whatever else happens. */
  lemma {:induction false} StrandedForGood(s: State, more: seq<Action>, row: nat)
    requires Inv(s) && Stranded(s, row) && Reopen(s.recs[row].jobId) !in more
    ensures var t := Continue(s, more);
            Stranded(t, row) && t.recs[row] == s.recs[row] && Dispatches(t.log, row) == Dispatches(s.log, row)
  {
    if more != [] {
      var init := more[..|more| - 1];
      StrandedForGood(s, init, row);
      RunsKeepInv(s, init);
      NextStaysStranded(Continue(s, init), more[|more| - 1], row);
    }
  }
}
