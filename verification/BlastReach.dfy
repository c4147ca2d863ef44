/**
  Which pending recipients can still go out, when nobody reopens their job.
*/
module BlastReach {
  import opened Wrappers
  import opened Timestamps
  import opened BlastTables
  import opened Dispatch
  import opened BlastDrain
  import opened BlastWorker
  import opened BlastProgress

  // ---------------------------------------------------------------- who is in the next batch

  /** Pending rows of the job among the first `n` rows. */
  function PendingCount(recs: Recs, jobId: string, n: nat): nat
    requires n <= |recs|
  {
    if n == 0 then 0 else PendingCount(recs, jobId, n - 1) + if IsPending(recs[n - 1], jobId) then 1 else 0
  }

  lemma {:induction false} BatchLength(recs: Recs, jobId: string, limit: nat, n: nat)
    requires n <= |recs|
    ensures |PendingRows(recs, jobId, limit, n)| == Min(limit, PendingCount(recs, jobId, n))
    decreases n
  {
    if n > 0 {
      BatchLength(recs, jobId, limit, n - 1);
    }
  }

  /** A pending row is read exactly when fewer than `limit` pending rows of its job come before it. */
  lemma {:induction false} ReadExactlyWhen(recs: Recs, jobId: string, limit: nat, n: nat, row: nat)
    requires row < n <= |recs| && IsPending(recs[row], jobId)
    ensures row in PendingRows(recs, jobId, limit, n) <==> PendingCount(recs, jobId, row) < limit
    decreases n
  {
    if row == n - 1 {
      BatchLength(recs, jobId, limit, row);
    } else {
      ReadExactlyWhen(recs, jobId, limit, n - 1, row);
    }
  }

  lemma {:induction false} CountOfMore(before: Recs, after: Recs, jobId: string, n: nat)
    requires n <= |before| && n <= |after|
    requires forall i :: 0 <= i < n && IsPending(before[i], jobId) ==> IsPending(after[i], jobId)
    ensures PendingCount(before, jobId, n) <= PendingCount(after, jobId, n)
    decreases n
  {
    if n > 0 {
      CountOfMore(before, after, jobId, n - 1);
    }
  }

  /** The row is in what is left of the worker's batch. */
  predicate InBatchOf(pc: Pc, row: nat) { exists k :: 0 <= k < |BatchOf(pc)| && BatchOf(pc)[k].row == row }

  /** A pending row that the worker has not read. */
  ghost predicate Unread(s: State, row: nat) {
    row < |s.recs| && s.recs[row].status == Pending && s.recs[row].jobId in s.jobs && !InBatchOf(s.pc, row)
  }

  predicate IsActive(s: State, job: string) {
    job in s.jobs && (s.jobs[job].status == JobPending || s.jobs[job].status == Running)
  }

  predicate ClosesJob(pc: Pc, job: string) { (pc.ToClose? || pc.ToFinish?) && pc.job == job }

  /** What decides whether an unread row can still go out: its job can be parsed, and is to be claimed or
      resumed by a worker that is not closing it (unless that one dies), or the worker is about to read
      the next batch and the row is among its first 50. */
  predicate CanGoOut(s: State, row: nat, deaths: bool)
    requires row < |s.recs| && s.recs[row].jobId in s.jobs
  {
    var job := s.recs[row].jobId;
    && s.jobs[job].bodyIsJson
    && (|| (IsActive(s, job) && (deaths || !ClosesJob(s.pc, job)))
        || (s.pc == ToFetch(job) && PendingCount(s.recs, job, row) < BATCH_SIZE))
  }

  // ---------------------------------------------------------------- it cannot

  lemma BatchRows(recs: Recs, jobId: string, row: nat)
    ensures (exists k :: 0 <= k < |ReadBatch(recs, jobId)| && ReadBatch(recs, jobId)[k].row == row)
       <==> row in PendingRows(recs, jobId, BATCH_SIZE, |recs|)
  {
    var ids := PendingRows(recs, jobId, BATCH_SIZE, |recs|);
    var batch := ReadBatch(recs, jobId);
    assert |batch| == |ids| && forall k :: 0 <= k < |ids| ==> batch[k].row == ids[k];
    if row in ids {
      var k :| 0 <= k < |ids| && ids[k] == row;
      assert batch[k].row == row;
    }
  }

  lemma FetchReads(s: State, outcome: Outcome, row: nat)
    requires Unread(s, row) && s.pc == ToFetch(s.recs[row].jobId)
    ensures WorkerStep(s, outcome).pc == InBatch(s.pc.job, ReadBatch(s.recs, s.pc.job))
    ensures InBatchOf(WorkerStep(s, outcome).pc, row) <==> PendingCount(s.recs, s.pc.job, row) < BATCH_SIZE
  {
    var job := s.pc.job;
    assert IsPending(s.recs[row], job);
    FetchSeesPending(s, outcome);
    ReadExactlyWhen(s.recs, job, BATCH_SIZE, |s.recs|, row);
    BatchRows(s.recs, job, row);
    assert BatchOf(InBatch(job, ReadBatch(s.recs, job))) == ReadBatch(s.recs, job);
  }

  /** Only a fetch of its own job brings a row into the worker's batch. */
  lemma WorkKeepsUnread(s: State, outcome: Outcome, row: nat)
    requires Inv(s) && Unread(s, row)
    requires s.pc == ToFetch(s.recs[row].jobId) ==> PendingCount(s.recs, s.pc.job, row) >= BATCH_SIZE
    ensures Unread(WorkerStep(s, outcome), row) && WorkerStep(s, outcome).recs[row] == s.recs[row]
    ensures Dispatches(WorkerStep(s, outcome).log, row) == Dispatches(s.log, row)
  {
    WorkKeepsJobs(s, outcome);
    WorkSpares(s, outcome, row);
    WorkLogs(s, outcome, row);
    if s.pc == ToFetch(s.recs[row].jobId) {
      FetchReads(s, outcome, row);
    } else if s.pc.ToFetch? {
      OtherFetch(s, outcome, row);
    } else {
      TailOnly(s, outcome, row);
    }
  }

  lemma OtherFetch(s: State, outcome: Outcome, row: nat)
    requires Inv(s) && Unread(s, row) && s.pc.ToFetch? && s.pc.job != s.recs[row].jobId
    ensures !InBatchOf(WorkerStep(s, outcome).pc, row)
  {
    WorkKeepsInv(s, outcome);
    var s' := WorkerStep(s, outcome);
    assert s'.recs == s.recs;
    if s'.pc.InBatch? {
      assert forall k :: 0 <= k < |s'.pc.batch| ==> ItemInv(s'.recs, s'.pc.job, s'.pc.batch[k], Pending);
    }
  }

  lemma TailOnly(s: State, outcome: Outcome, row: nat)
    requires !s.pc.ToFetch? && !InBatchOf(s.pc, row)
    ensures !InBatchOf(WorkerStep(s, outcome).pc, row)
  {
    var before, after := BatchOf(s.pc), BatchOf(WorkerStep(s, outcome).pc);
    assert after == [] || after == before || (before != [] && after == before[1..]);
    assert forall k :: 0 <= k < |before| ==> before[k].row != row;
  }

  lemma WorkCannot(s: State, outcome: Outcome, row: nat, deaths: bool)
    requires Inv(s) && Unread(s, row) && !CanGoOut(s, row, deaths)
    ensures var s' := WorkerStep(s, outcome);
            Unread(s', row) && s'.recs[row] == s.recs[row] && !CanGoOut(s', row, deaths)
            && Dispatches(s'.log, row) == Dispatches(s.log, row)
  {
    var job := s.recs[row].jobId;
    var s' := WorkerStep(s, outcome);
    if s.pc == ToFetch(job) && s.jobs[job].bodyIsJson {
      assert PendingCount(s.recs, job, row) >= BATCH_SIZE;
    }
    WorkKeepsUnread(s, outcome, row);
    WorkKeepsJobs(s, outcome);
    if s.jobs[job].bodyIsJson {
      CannotStays(s, outcome, job, deaths);
    }
  }

  /** A job that is stopped, or being closed by a worker that does not die, becomes no more than stopped. */
  lemma CannotStays(s: State, outcome: Outcome, job: string, deaths: bool)
    requires Inv(s) && job in s.jobs && (IsActive(s, job) ==> !deaths && ClosesJob(s.pc, job))
    ensures var s' := WorkerStep(s, outcome);
            s'.pc != ToFetch(job) && (IsActive(s', job) ==> !deaths && ClosesJob(s'.pc, job))
  {
  }

  lemma CallKeepsUnread(s: State, a: Action, row: nat)
    requires Unread(s, row) && !a.Work?
    ensures Unread(Next(s, a), row) && Next(s, a).recs[row] == s.recs[row] && Next(s, a).log == s.log
    ensures PendingCount(Next(s, a).recs, s.recs[row].jobId, row) >= PendingCount(s.recs, s.recs[row].jobId, row)
  {
    var s' := Next(s, a);
    assert s'.recs[row] == s.recs[row];
    CountOfMore(s.recs, s'.recs, s.recs[row].jobId, row);
    NextKeepsJobs(s, a);
  }

  lemma CallCannot(s: State, a: Action, row: nat, deaths: bool)
    requires Inv(s) && Unread(s, row) && !CanGoOut(s, row, deaths)
    requires !a.Work? && a != Reopen(s.recs[row].jobId) && (a.Die? ==> deaths)
    ensures var s' := Next(s, a);
            Unread(s', row) && s'.recs[row] == s.recs[row] && !CanGoOut(s', row, deaths)
            && Dispatches(s'.log, row) == Dispatches(s.log, row)
  {
    CallKeepsUnread(s, a, row);
    NextKeepsJobs(s, a);
  }

  ghost predicate Allowed(more: seq<Action>, job: string, deaths: bool) {
    Reopen(job) !in more && (deaths || Die !in more)
  }

  lemma NextCannot(s: State, a: Action, row: nat, deaths: bool) returns (s': State)
    requires Inv(s) && Unread(s, row) && !CanGoOut(s, row, deaths) && Allowed([a], s.recs[row].jobId, deaths)
    ensures s' == Next(s, a) && Inv(s')
    ensures Unread(s', row) && s'.recs[row] == s.recs[row] && !CanGoOut(s', row, deaths)
    ensures Dispatches(s'.log, row) == Dispatches(s.log, row)
  {
    s' := Next(s, a);
    NextKeepsInv(s, a);
    assert a == [a][0];
    if a.Work? {
      WorkCannot(s, a.outcome, row, deaths);
    } else {
      CallCannot(s, a, row, deaths);
    }
  }

  lemma {:induction false} NeverGoesOut(s: State, more: seq<Action>, row: nat, deaths: bool)
    requires Inv(s) && Unread(s, row) && !CanGoOut(s, row, deaths) && Allowed(more, s.recs[row].jobId, deaths)
    ensures Inv(Continue(s, more)) && Unread(Continue(s, more), row) && Continue(s, more).recs[row] == s.recs[row]
    ensures !CanGoOut(Continue(s, more), row, deaths)
    ensures Dispatches(Continue(s, more).log, row) == Dispatches(s.log, row)
  {
    if more != [] {
      var init, a := more[..|more| - 1], more[|more| - 1];
      NeverGoesOut(s, init, row, deaths);
      var t := NextCannot(Continue(s, init), a, row, deaths);
    }
  }

  // ---------------------------------------------------------------- it can

  /** Nothing but the worker can keep this row from going out, and the worker will not: the row is in
      its hands, in its batch, in the batch it reads next, or in a running job it is on. */
  ghost predicate OnItsWay(s: State, row: nat) {
    && row < |s.recs| && s.recs[row].jobId in s.jobs && s.jobs[s.recs[row].jobId].bodyIsJson
    && (|| (s.pc.Marked? && s.pc.batch != [] && s.pc.batch[0].row == row)
        || (s.recs[row].status == Pending && InBatchOf(s.pc, row))
        || (s.recs[row].status == Pending && NextToRead(s, row)))
  }

  ghost predicate NextToRead(s: State, row: nat)
    requires row < |s.recs| && s.recs[row].jobId in s.jobs
  {
    var job := s.recs[row].jobId;
    || (s.pc == ToFetch(job) && PendingCount(s.recs, job, row) < BATCH_SIZE)
    || (s.jobs[job].status == Running && !s.pc.Idle? && s.pc.job == job && !s.pc.ToClaim? && !ClosesJob(s.pc, job))
  }

  lemma BatchStep(s: State, outcome: Outcome, row: nat)
    requires Inv(s) && row < |s.recs| && s.recs[row].status == Pending && InBatchOf(s.pc, row)
    ensures var s' := WorkerStep(s, outcome);
            && row < |s'.recs| && s'.recs[row].jobId == s.recs[row].jobId
            && (|| (s'.pc.Marked? && s'.pc.batch != [] && s'.pc.batch[0].row == row)
                || (s'.recs[row].status == Pending && InBatchOf(s'.pc, row)))
  {
    var batch := BatchOf(s.pc);
    var k :| 0 <= k < |batch| && batch[k].row == row;
    HeadItem(s);
    HeadUpdate(s, outcome);
    assert k == 0 ==> !HeadInHand(s.pc);
    if k > 0 || !s.pc.InBatch? {
      var after := BatchOf(WorkerStep(s, outcome).pc);
      assert after == batch || (k > 0 && after == batch[1..]);
      assert after[if after == batch then k else k - 1].row == row;
    }
  }

  lemma ReadStep(s: State, outcome: Outcome, row: nat)
    requires Inv(s) && Unread(s, row) && s.jobs[s.recs[row].jobId].bodyIsJson && NextToRead(s, row)
    ensures OnItsWay(WorkerStep(s, outcome), row)
  {
    var job := s.recs[row].jobId;
    WorkKeepsJobs(s, outcome);
    WorkSpares(s, outcome, row);
    if s.pc == ToFetch(job) {
      FetchReads(s, outcome, row);
    }
  }

  lemma BatchStaysOnItsWay(s: State, outcome: Outcome, row: nat)
    requires Inv(s) && row < |s.recs| && s.recs[row].status == Pending && InBatchOf(s.pc, row)
    requires s.recs[row].jobId in s.jobs && s.jobs[s.recs[row].jobId].bodyIsJson
    ensures OnItsWay(WorkerStep(s, outcome), row)
  {
    WorkKeepsJobs(s, outcome);
    BatchStep(s, outcome, row);
  }

  lemma WorkLogsRow(s: State, outcome: Outcome, row: nat)
    ensures Dispatches(WorkerStep(s, outcome).log, row) >= Dispatches(s.log, row)
    ensures s.pc.Marked? && s.pc.batch != [] && s.pc.batch[0].row == row ==>
              Dispatches(WorkerStep(s, outcome).log, row) > Dispatches(s.log, row)
  {
    WorkLogs(s, outcome, row);
  }

  /** One statement further, or dispatched. */
  lemma WayStep(s: State, outcome: Outcome, row: nat)
    requires Inv(s) && OnItsWay(s, row)
    ensures !s.pc.Idle?
    ensures var s' := WorkerStep(s, outcome);
            Dispatches(s'.log, row) >= Dispatches(s.log, row)
            && (Dispatches(s'.log, row) > Dispatches(s.log, row) || OnItsWay(s', row))
  {
    WorkLogsRow(s, outcome, row);
    if !(s.pc.Marked? && s.pc.batch != [] && s.pc.batch[0].row == row) {
      if InBatchOf(s.pc, row) {
        BatchStaysOnItsWay(s, outcome, row);
      } else {
        ReadStep(s, outcome, row);
      }
    }
  }

  /** Calls and worker statements that neither reopen a job nor kill the worker. */
  predicate Plain(more: seq<Action>) {
    forall k :: 0 <= k < |more| ==> more[k].Work? || more[k].Tick? || more[k].Cancel?
  }

  ghost predicate Gone(s: State, t: State, row: nat) { Dispatches(t.log, row) > Dispatches(s.log, row) }

  lemma WayNext(s: State, row: nat) returns (s': State)
    requires Inv(s) && OnItsWay(s, row)
    ensures s' == Next(s, STEP) && Inv(s') && Bound(s') < Bound(s)
    ensures Dispatches(s'.log, row) >= Dispatches(s.log, row) && (Gone(s, s', row) || OnItsWay(s', row))
  {
    WayStep(s, STEP.outcome, row);
    WorkShrinksBound(s, STEP.outcome);
    WorkKeepsInv(s, STEP.outcome);
    s' := WorkerStep(s, STEP.outcome);
  }

  lemma {:induction false} WayEnds(s: State, row: nat) returns (more: seq<Action>)
    requires Inv(s) && OnItsWay(s, row)
    ensures Plain(more) && Gone(s, Continue(s, more), row)
    decreases Bound(s)
  {
    var s' := WayNext(s, row);
    OneStep(s, STEP);
    more := [STEP];
    if !Gone(s, s', row) {
      var rest := WayEnds(s', row);
      Chain(s, [STEP], rest);
      more := [STEP] + rest;
    }
  }

  /** An unread row whose job is to be claimed or resumed, and is not being closed. */
  ghost predicate Waits(s: State, row: nat) {
    && Inv(s) && Unread(s, row)
    && s.jobs[s.recs[row].jobId].bodyIsJson && IsActive(s, s.recs[row].jobId)
    && !ClosesJob(s.pc, s.recs[row].jobId)
  }

  lemma WaitStep(s: State, outcome: Outcome, row: nat)
    requires Waits(s, row) && !OnItsWay(s, row) && !s.pc.Idle?
    ensures Waits(WorkerStep(s, outcome), row) && Dispatches(WorkerStep(s, outcome).log, row) == Dispatches(s.log, row)
  {
    WorkKeepsInv(s, outcome);
    WorkKeepsUnread(s, outcome, row);
    WorkKeepsJobs(s, outcome);
    WaitKeepsStatus(s, outcome, s.recs[row].jobId, row);
  }

  lemma WaitKeepsStatus(s: State, outcome: Outcome, job: string, row: nat)
    requires Waits(s, row) && s.recs[row].jobId == job
    ensures IsActive(WorkerStep(s, outcome), job) && !ClosesJob(WorkerStep(s, outcome).pc, job)
  {
    if s.pc == ToFetch(job) {
      assert IsPending(s.recs[row], job);
      FetchSeesPending(s, outcome);
    }
  }

  lemma WaitNext(s: State, row: nat) returns (s': State)
    requires Waits(s, row) && !OnItsWay(s, row) && !s.pc.Idle?
    ensures s' == Next(s, STEP) && Bound(s') < Bound(s)
    ensures Waits(s', row) && Dispatches(s'.log, row) == Dispatches(s.log, row)
  {
    WaitStep(s, STEP.outcome, row);
    WorkShrinksBound(s, STEP.outcome);
    s' := WorkerStep(s, STEP.outcome);
  }

  /** The worker gets to the row, or is idle. */
  lemma {:induction false} WaitEnds(s: State, row: nat) returns (more: seq<Action>)
    requires Waits(s, row)
    ensures Plain(more) && Dispatches(Continue(s, more).log, row) == Dispatches(s.log, row)
    ensures var t := Continue(s, more); Waits(t, row) && (OnItsWay(t, row) || t.pc.Idle?)
    decreases Bound(s)
  {
    if OnItsWay(s, row) || s.pc.Idle? {
      more := [];
    } else {
      var s' := WaitNext(s, row);
      var rest := WaitEnds(s', row);
      OneStep(s, STEP);
      Chain(s, [STEP], rest);
      more := [STEP] + rest;
    }
  }

  // An idle worker can be brought to the job: other running jobs are cancelled first.

  ghost function RunningJobs(jobs: Jobs): set<string> { set j | j in jobs && jobs[j].status == Running }

  lemma CancelOne(s: State, k: string)
    requires k in RunningJobs(s.jobs)
    ensures var s' := Next(s, Cancel(s.jobs[k].sessionId, k));
            && s' == s.(jobs := s.jobs[k := s.jobs[k].(status := JobCancelled)])
            && RunningJobs(s'.jobs) == RunningJobs(s.jobs) - {k}
  {
  }

  lemma {:induction false} CancelRunning(s: State, job: string) returns (more: seq<Action>)
    requires Inv(s) && job in s.jobs && s.jobs[job].status != Running
    ensures Plain(more)
    ensures var t := Continue(s, more);
            && Inv(t) && RunningJobs(t.jobs) == {} && job in t.jobs && t.jobs[job] == s.jobs[job]
            && t.recs == s.recs && t.pc == s.pc && t.log == s.log
    decreases |RunningJobs(s.jobs)|
  {
    if RunningJobs(s.jobs) == {} {
      more := [];
    } else {
      var k :| k in RunningJobs(s.jobs);
      var a := Cancel(s.jobs[k].sessionId, k);
      CancelOne(s, k);
      NextKeepsInv(s, a);
      var rest := CancelRunning(Next(s, a), job);
      OneStep(s, a);
      Chain(s, [a], rest);
      more := [a] + rest;
    }
  }

  /** Some time at which a pending job is due. */
  function DueTime(job: Job): Civil { if job.sendAt.Some? then job.sendAt.value else NOW }

  lemma DueThen(job: Job)
    requires job.status == JobPending
    ensures JobIsDue(job, DueTime(job))
  {
    TextTotal(FmtUtc(DueTime(job)), FmtUtc(DueTime(job)));
  }

  lemma ResumeIdle(s: State, row: nat) returns (more: seq<Action>)
    requires Waits(s, row) && s.pc.Idle? && s.jobs[s.recs[row].jobId].status == Running
    ensures Plain(more) && Inv(Continue(s, more)) && OnItsWay(Continue(s, more), row)
    ensures Continue(s, more).log == s.log
  {
    var tick := Tick(s.recs[row].jobId, NOW);
    OneStep(s, tick);
    NextKeepsInv(s, tick);
    more := [tick];
  }

  /** An idle worker claims a due job when no job is running. */
  lemma TickThenClaim(s: State, job: string, now: Civil) returns (s': State)
    requires Inv(s) && s.pc.Idle? && RunningJobs(s.jobs) == {} && job in s.jobs && JobIsDue(s.jobs[job], now)
    ensures s' == Next(Next(s, Tick(job, now)), STEP) && Inv(s') && s'.recs == s.recs && s'.log == s.log
    ensures s'.pc == ToReset(job) && s'.jobs == s.jobs[job := s.jobs[job].(status := Running)]
  {
    assert forall j :: j in s.jobs ==> j !in RunningJobs(s.jobs);
    var t := s.(pc := ToClaim(job));
    assert Next(s, Tick(job, now)) == t;
    NextKeepsInv(s, Tick(job, now));
    WorkKeepsInv(t, STEP.outcome);
    s' := WorkerStep(t, STEP.outcome);
  }

  lemma ClaimIdle(s: State, row: nat) returns (more: seq<Action>)
    requires Waits(s, row) && s.pc.Idle? && s.jobs[s.recs[row].jobId].status == JobPending
    ensures Plain(more) && Inv(Continue(s, more)) && OnItsWay(Continue(s, more), row)
    ensures Continue(s, more).log == s.log
  {
    var job := s.recs[row].jobId;
    var cancels := CancelRunning(s, job);
    var now := DueTime(s.jobs[job]);
    DueThen(s.jobs[job]);
    var u := TickThenClaim(Continue(s, cancels), job, now);
    Extend(s, cancels, Tick(job, now));
    Extend(s, cancels + [Tick(job, now)], STEP);
    more := cancels + [Tick(job, now)] + [STEP];
  }

  lemma WaitingGoesOut(s: State, row: nat) returns (more: seq<Action>)
    requires Waits(s, row)
    ensures Plain(more) && Gone(s, Continue(s, more), row)
  {
    var first := WaitEnds(s, row);
    var t := Continue(s, first);
    var second: seq<Action> := [];
    if !OnItsWay(t, row) {
      if t.jobs[t.recs[row].jobId].status == Running {
        second := ResumeIdle(t, row);
      } else {
        second := ClaimIdle(t, row);
      }
    }
    var u := Continue(t, second);
    var third := WayEnds(u, row);
    Chain(s, first, second);
    Chain(s, first + second, third);
    more := first + second + third;
  }

  /** An unread pending row can still go out without a reopening of its job, with or without deaths of
      the worker, exactly when `CanGoOut` says so. */
  lemma GoesOutExactlyWhen(s: State, row: nat, deaths: bool)
    requires Inv(s) && Unread(s, row)
    ensures CanGoOut(s, row, deaths)
       <==> exists more: seq<Action> :: Allowed(more, s.recs[row].jobId, deaths) && Gone(s, Continue(s, more), row)
  {
    var job := s.recs[row].jobId;
    if !CanGoOut(s, row, deaths) {
      forall more: seq<Action> | Allowed(more, job, deaths)
        ensures !Gone(s, Continue(s, more), row)
      {
        NeverGoesOut(s, more, row, deaths);
      }
    } else {
      var more: seq<Action>;
      if s.pc == ToFetch(job) && PendingCount(s.recs, job, row) < BATCH_SIZE {
        more := WayEnds(s, row);
      } else if !ClosesJob(s.pc, job) {
        more := WaitingGoesOut(s, row);
      } else {
        OneStep(s, Die);
        NextKeepsInv(s, Die);
        var rest := WaitingGoesOut(Next(s, Die), row);
        Chain(s, [Die], rest);
        more := [Die] + rest;
      }
      assert Allowed(more, job, deaths);
    }
  }

  /** A recipient added to a job that is stopped, while the worker is not about to read its rows, waits
      for a reopening. */
  lemma LateRecipientsWait(s: State, more: seq<Action>, row: nat)
    requires Inv(s) && Unread(s, row) && !IsActive(s, s.recs[row].jobId) && s.pc != ToFetch(s.recs[row].jobId)
    requires Reopen(s.recs[row].jobId) !in more
    ensures var t := Continue(s, more);
            row < |t.recs| && t.recs[row] == s.recs[row] && Dispatches(t.log, row) == Dispatches(s.log, row)
  {
    NeverGoesOut(s, more, row, true);
  }
}
