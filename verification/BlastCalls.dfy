/**
  What the API calls of a run ask for, and what the blast tables and the worker make of it: send times,
  cancels, duplicates and retries.
*/
module BlastCalls {
  import opened Wrappers
  import opened Arithmetic
  import opened Timestamps
  import opened BlastTables
  import opened Dispatch
  import opened BlastWorker

  // ---------------------------------------------------------------- a job waits for its time

  /** Clock readings are calendar times of the years 0..9999, send times calendar times. */
  predicate HasTimes(a: Action) {
    match a
    case Tick(_, now) => IsCivil(now) && FourDigitYear(now)
    case CreateJob(_, _, _, _, sendAt) => sendAt.Some? ==> IsCivil(sendAt.value)
    case _ => true
  }

  ghost predicate AllHaveTimes(actions: seq<Action>) { forall i :: 0 <= i < |actions| ==> HasTimes(actions[i]) }

  /** `now` is not before the send time, if there is one. */
  predicate HasCome(sendAt: Option<Civil>, now: Civil) { sendAt.None? || !Earlier(now, sendAt.value) }

  /** The send time, if there is one, is of the year 9999 at the latest. */
  predicate IsNear(sendAt: Option<Civil>) { sendAt.Some? ==> sendAt.value.year <= 9999 }

  /** An action of the run is a tick for this job at a time that is not before its send time. */
  ghost predicate WasTicked(actions: seq<Action>, id: string, sendAt: Option<Civil>) {
    exists i :: 0 <= i < |actions| && actions[i].Tick? && actions[i].id == id && HasCome(sendAt, actions[i].now)
  }

  ghost predicate HasDispatch(s: State, id: string) {
    exists k :: 0 <= k < |s.log| && s.log[k] < |s.recs| && s.recs[s.log[k]].jobId == id
  }

  /** The job has been taken up: it is past `pending`, other than by a cancel, or the worker is on it, or one
      of its rows was dispatched. */
  ghost predicate IsTakenUp(s: State, id: string) {
    && id in s.jobs
    && (|| (s.jobs[id].status != JobPending && s.jobs[id].status != JobCancelled)
        || (!s.pc.Idle? && s.pc.job == id)
        || HasDispatch(s, id))
  }

  ghost predicate Waits(actions: seq<Action>, s: State, id: string) {
    IsTakenUp(s, id) && IsNear(s.jobs[id].sendAt) ==> WasTicked(actions, id, s.jobs[id].sendAt)
  }

  lemma TickedStays(actions: seq<Action>, a: Action, id: string, sendAt: Option<Civil>)
    requires WasTicked(actions, id, sendAt)
    ensures WasTicked(actions + [a], id, sendAt)
  {
    var i :| 0 <= i < |actions| && actions[i].Tick? && actions[i].id == id && HasCome(sendAt, actions[i].now);
    assert (actions + [a])[i] == actions[i];
  }

  /** What the text test says of a job, in times. */
  lemma JobIsDueMeans(job: Job, now: Civil)
    requires IsCivil(now) && FourDigitYear(now) && IsNear(job.sendAt) && (job.sendAt.Some? ==> IsCivil(job.sendAt.value))
    ensures JobIsDue(job, now) <==> job.status == JobPending && HasCome(job.sendAt, now)
  {
    if job.sendAt.Some? {
      DueTestIsExact(job.sendAt.value, now);
    }
  }

  ghost predicate NoneRunning(s: State) { forall j :: j in s.jobs ==> s.jobs[j].status != Running }

  /** What a tick of an idle worker does with a job: it resumes one that is running; a pending one it claims
      exactly when no job is running and its time has come. */
  lemma TickMeans(s: State, id: string, now: Civil)
    requires s.pc.Idle? && id in s.jobs
    requires IsCivil(now) && FourDigitYear(now) && IsNear(s.jobs[id].sendAt)
    requires s.jobs[id].sendAt.Some? ==> IsCivil(s.jobs[id].sendAt.value)
    ensures Next(s, Tick(id, now)).pc
         == if s.jobs[id].status == Running then ToParse(id)
            else if s.jobs[id].status == JobPending && NoneRunning(s) && HasCome(s.jobs[id].sendAt, now) then ToClaim(id)
            else Idle
  {
    JobIsDueMeans(s.jobs[id], now);
  }

  lemma WorkElsewhere(s: State, outcome: Outcome, id: string)
    requires (s.pc.Idle? || s.pc.job != id) && id in WorkerStep(s, outcome).jobs
    ensures var t := WorkerStep(s, outcome);
            id in s.jobs && t.jobs[id].status == s.jobs[id].status && (t.pc.Idle? || t.pc.job != id)
  {
  }

  /** A worker on another job dispatches no row of this one. */
  lemma DispatchedBefore(s: State, outcome: Outcome, id: string)
    requires Inv(s) && LogInv(s) && (s.pc.Idle? || s.pc.job != id) && HasDispatch(WorkerStep(s, outcome), id)
    ensures HasDispatch(s, id)
  {
    var t := WorkerStep(s, outcome);
    WorkKeepsKeys(s, outcome);
    WorkLogs(s, outcome, 0);
    if s.pc.Marked? {
      HeadItem(s);
    }
    var k :| 0 <= k < |t.log| && t.log[k] < |t.recs| && t.recs[t.log[k]].jobId == id;
    assert k < |s.log| && s.log[k] == t.log[k] && s.recs[s.log[k]].jobId == id;
  }

  lemma WorkTakesUpNothing(s: State, outcome: Outcome, id: string)
    requires Inv(s) && LogInv(s) && IsTakenUp(WorkerStep(s, outcome), id)
    ensures IsTakenUp(s, id)
  {
    var t := WorkerStep(s, outcome);
    if s.pc.Idle? || s.pc.job != id {
      WorkElsewhere(s, outcome, id);
      if HasDispatch(t, id) {
        DispatchedBefore(s, outcome, id);
      }
    } else {
      assert id in s.jobs;
    }
  }

  /** Only a tick takes a job up. */
  lemma OnlyTicksTakeUp(s: State, a: Action, id: string)
    requires Inv(s) && LogInv(s) && IsTakenUp(Next(s, a), id) && !a.Tick?
    ensures IsTakenUp(s, id)
  {
    if a.Work? {
      WorkTakesUpNothing(s, a.outcome, id);
    } else {
      var t := Stepped(s, a);
      if HasDispatch(t, id) {
        var k :| 0 <= k < |t.log| && t.log[k] < |t.recs| && t.recs[t.log[k]].jobId == id;
        assert s.recs[s.log[k]].jobId == id && RecInv(s, s.recs[s.log[k]]);
      }
    }
  }

  lemma NextWaits(actions: seq<Action>, s: State, a: Action, id: string)
    requires Inv(s) && LogInv(s) && HasTimes(a) && Waits(actions, s, id)
    requires id in s.jobs && s.jobs[id].sendAt.Some? ==> IsCivil(s.jobs[id].sendAt.value)
    ensures Waits(actions + [a], Next(s, a), id)
  {
    NextKeepsJobs(s, a);
    if IsTakenUp(Next(s, a), id) && IsNear(Next(s, a).jobs[id].sendAt) {
      if IsTakenUp(s, id) {
        TickedStays(actions, a, id, s.jobs[id].sendAt);
      } else if a.Tick? {
        JobIsDueMeans(s.jobs[id], a.now);
        assert (actions + [a])[|actions|] == a;
      } else {
        OnlyTicksTakeUp(s, a, id);
      }
    }
  }

  lemma WorkAddsNoJob(s: State, outcome: Outcome, id: string)
    ensures id in WorkerStep(s, outcome).jobs ==> id in s.jobs
  {
  }

  lemma {:induction false} JobsHaveTimes(actions: seq<Action>, id: string)
    requires AllHaveTimes(actions)
    ensures var jobs := Continue(EMPTY, actions).jobs;
            id in jobs && jobs[id].sendAt.Some? ==> IsCivil(jobs[id].sendAt.value)
  {
    if actions != [] {
      var init, a := actions[..|actions| - 1], actions[|actions| - 1];
      JobsHaveTimes(init, id);
      NextKeepsJobs(Continue(EMPTY, init), a);
      assert HasTimes(a);
      if a.Work? {
        WorkAddsNoJob(Continue(EMPTY, init), a.outcome, id);
      }
    }
  }

  /** In every run a job of which a row was dispatched, or that is past `pending` other than by a cancel, was
      ticked at a time that is not before its send time. */
  lemma {:induction false} NothingGoesOutEarly(actions: seq<Action>, id: string)
    requires AllHaveTimes(actions)
    ensures Waits(actions, Continue(EMPTY, actions), id)
    ensures LogInv(Continue(EMPTY, actions))
  {
    if actions != [] {
      var init, a := actions[..|actions| - 1], actions[|actions| - 1];
      NothingGoesOutEarly(init, id);
      RunsKeepInv(EMPTY, init);
      NextKeepsLog(Continue(EMPTY, init), a);
      JobsHaveTimes(init, id);
      assert HasTimes(a);
      NextWaits(init, Continue(EMPTY, init), a, id);
      assert init + [a] == actions;
    }
  }

  // ---------------------------------------------------------------- what moves a job's status

  lemma WorkMovesStatus(s: State, outcome: Outcome, id: string)
    requires id in s.jobs
    ensures id in WorkerStep(s, outcome).jobs
    ensures WorkerStep(s, outcome).jobs[id].status
         == if s.pc == ToClaim(id) && s.jobs[id].status == JobPending then Running
            else if s.pc.ToFinish? && s.pc.job == id then s.pc.status
            else s.jobs[id].status
  {
  }

  lemma CallMovesStatus(s: State, a: Action, id: string)
    requires id in s.jobs && !a.Work?
    ensures id in Next(s, a).jobs
    ensures var active := s.jobs[id].status == JobPending || s.jobs[id].status == Running;
            Next(s, a).jobs[id].status
            == if active && a == Cancel(s.jobs[id].sessionId, id) then JobCancelled
               else if s.jobs[id].status != Running && a == Reopen(id) && id in s.retried then JobPending
               else s.jobs[id].status
  {
  }

  /** All that moves a job's status: the worker's claim and its closing statement, a cancel by the job's own
      session while it is pending or running, and a retry unless it is running. */
  lemma StatusMoves(s: State, a: Action, id: string)
    requires PcInv(s) && id in s.jobs
    ensures id in Next(s, a).jobs
    ensures Next(s, a).jobs[id].status
         == match s.jobs[id].status
            case JobPending =>
              if a.Work? && s.pc == ToClaim(id) then Running
              else if a.Work? && s.pc.ToFinish? && s.pc.job == id then s.pc.status
              else if a == Cancel(s.jobs[id].sessionId, id) then JobCancelled else JobPending
            case Running =>
              if a.Work? && s.pc.ToFinish? && s.pc.job == id then s.pc.status
              else if a == Cancel(s.jobs[id].sessionId, id) then JobCancelled else Running
            case stopped =>
              if a.Work? && s.pc.ToFinish? && s.pc.job == id then s.pc.status
              else if a == Reopen(id) && id in s.retried then JobPending else stopped
  {
    if a.Work? {
      WorkMovesStatus(s, a.outcome, id);
    } else {
      CallMovesStatus(s, a, id);
    }
  }

  // ---------------------------------------------------------------- one job at a time

  /** At most one job is running, and none while the worker is about to claim one. */
  ghost predicate OneRuns(s: State) {
    && (s.pc.ToClaim? ==> NoneRunning(s))
    && (forall j, k :: j in s.jobs && k in s.jobs && s.jobs[j].status == Running && s.jobs[k].status == Running ==> j == k)
  }

  /** Only the worker's claim makes a job running. */
  lemma OnlyClaimsRun(s: State, a: Action, id: string)
    requires PcInv(s) && id in Next(s, a).jobs && Next(s, a).jobs[id].status == Running
    ensures (id in s.jobs && s.jobs[id].status == Running) || (a.Work? && s.pc == ToClaim(id))
  {
    if id in s.jobs {
      StatusMoves(s, a, id);
    } else if a.Work? {
      WorkAddsNoJob(s, a.outcome, id);
    }
  }

  lemma NextOneRuns(s: State, a: Action)
    requires PcInv(s) && OneRuns(s)
    ensures OneRuns(Next(s, a))
  {
    var t := Next(s, a);
    forall j | j in t.jobs && t.jobs[j].status == Running
      ensures (j in s.jobs && s.jobs[j].status == Running) || (a.Work? && s.pc == ToClaim(j))
    {
      OnlyClaimsRun(s, a, j);
    }
    assert a.Work? ==> !t.pc.ToClaim?;
  }

  /** In every run at most one job is running: a job is only claimed while none is. */
  lemma {:induction false} OneJobAtATime(actions: seq<Action>)
    ensures OneRuns(Continue(EMPTY, actions))
  {
    if actions != [] {
      var init := actions[..|actions| - 1];
      OneJobAtATime(init);
      RunsKeepInv(EMPTY, init);
      NextOneRuns(Continue(EMPTY, init), actions[|actions| - 1]);
    }
  }

  // ---------------------------------------------------------------- jobs and rows are as asked for

  /** A create call of the run stored this job, and if it is cancelled, its own session cancelled it. */
  ghost predicate JobIsAsAsked(actions: seq<Action>, id: string, job: Job) {
    && CreateJob(id, job.sessionId, job.bodyIsJson, job.maxAttempts, job.sendAt) in actions
    && (job.status == JobCancelled ==> Cancel(job.sessionId, id) in actions)
  }

  /** Only a create call stores a job. */
  lemma NewJob(s: State, a: Action, id: string)
    requires id !in s.jobs && id in Next(s, a).jobs
    ensures a.CreateJob? && a.id == id
    ensures Next(s, a).jobs[id] == Job(a.sessionId, a.bodyIsJson, a.maxAttempts, JobPending, 0, 0, 0, a.sendAt)
  {
    if a.Work? {
      WorkAddsNoJob(s, a.outcome, id);
    }
  }

  lemma NextJobIsAsAsked(before: seq<Action>, s: State, a: Action, id: string)
    requires PcInv(s) && (id in s.jobs ==> JobIsAsAsked(before, id, s.jobs[id]))
    ensures id in Next(s, a).jobs ==> JobIsAsAsked(before + [a], id, Next(s, a).jobs[id])
  {
    assert a in before + [a] && forall b :: b in before ==> b in before + [a];
    if id in s.jobs {
      NextKeepsJobs(s, a);
      StatusMoves(s, a, id);
    } else if id in Next(s, a).jobs {
      NewJob(s, a, id);
    }
  }

  /** In every run a job is what its create call asked for, and only its own session cancels it. */
  lemma {:induction false} JobsAreAsAsked(actions: seq<Action>, id: string)
    ensures var jobs := Continue(EMPTY, actions).jobs;
            id in jobs ==> JobIsAsAsked(actions, id, jobs[id])
  {
    if actions != [] {
      var init, a := actions[..|actions| - 1], actions[|actions| - 1];
      JobsAreAsAsked(init, id);
      RunsKeepInv(EMPTY, init);
      NextJobIsAsAsked(init, Continue(EMPTY, init), a, id);
      assert init + [a] == actions;
    }
  }

  lemma HeadIsNoDuplicate(s: State, outcome: Outcome)
    requires Inv(s) && BatchOf(s.pc) != []
    ensures var row := BatchOf(s.pc)[0].row;
            && row < |s.recs| && s.recs[row].status != SkippedDup
            && row < |WorkerStep(s, outcome).recs| && WorkerStep(s, outcome).recs[row].status != SkippedDup
  {
    HeadItem(s);
    HeadUpdate(s, outcome);
  }

  /** The worker neither makes a row a duplicate nor touches one. */
  lemma WorkSparesDuplicates(s: State, outcome: Outcome, row: nat)
    requires Inv(s) && row < |s.recs|
    ensures var after := WorkerStep(s, outcome).recs;
            && row < |after| && (after[row].status == SkippedDup <==> s.recs[row].status == SkippedDup)
            && (s.recs[row].status == SkippedDup ==> after[row] == s.recs[row])
  {
    if BatchOf(s.pc) == [] {
      ResetKeepsRows(s, outcome);
    } else if BatchOf(s.pc)[0].row == row {
      HeadIsNoDuplicate(s, outcome);
    } else {
      WorkSpares(s, outcome, row);
    }
  }

  lemma WorkSkipsDuplicates(s: State, outcome: Outcome, row: nat)
    requires Inv(s) && row < |s.recs| && s.recs[row].status == SkippedDup
    ensures Dispatches(WorkerStep(s, outcome).log, row) == Dispatches(s.log, row)
  {
    WorkLogs(s, outcome, row);
    if s.pc.Marked? {
      HeadItem(s);
    }
  }

  lemma NextSparesDuplicates(s: State, a: Action, row: nat)
    requires Inv(s) && row < |s.recs|
    ensures var after := Next(s, a).recs;
            && row < |after| && (after[row].status == SkippedDup <==> s.recs[row].status == SkippedDup)
            && (s.recs[row].status == SkippedDup ==> after[row] == s.recs[row])
    ensures s.recs[row].status == SkippedDup ==> Dispatches(Next(s, a).log, row) == Dispatches(s.log, row)
  {
    if a.Work? {
      WorkSparesDuplicates(s, a.outcome, row);
      if s.recs[row].status == SkippedDup {
        WorkSkipsDuplicates(s, a.outcome, row);
      }
    }
  }

  /** A row stored as a duplicate is never dispatched and never changes, through retries and all the rest. */
  lemma {:induction false} DuplicatesStay(s: State, more: seq<Action>, row: nat)
    requires Inv(s) && row < |s.recs| && s.recs[row].status == SkippedDup
    ensures var t := Continue(s, more);
            row < |t.recs| && t.recs[row] == s.recs[row] && Dispatches(t.log, row) == Dispatches(s.log, row)
  {
    if more != [] {
      DuplicatesStay(s, more[..|more| - 1], row);
      RunsKeepInv(s, more[..|more| - 1]);
      NextSparesDuplicates(Continue(s, more[..|more| - 1]), more[|more| - 1], row);
    }
  }

  /** Adding a recipient: a new one gets a row without an attempt, which is pending or, when this session has
      delivered to it before, a duplicate that never goes out; one that has a row already keeps it. */
  lemma AddingMeans(s: State, id: string, recipient: string, duplicate: bool, more: seq<Action>)
    requires Inv(s) && LogInv(s) && id in s.jobs
    ensures var after := Next(s, AddRecipient(id, recipient, duplicate));
            if HasKey(s.recs, id, recipient) then after == s
            else
              var r := Rec(id, s.jobs[id].sessionId, recipient, if duplicate then SkippedDup else Pending, 0, None, None);
              && after == s.(recs := s.recs + [r])
              && (duplicate ==>
                    var later := Continue(after, more);
                    |s.recs| < |later.recs| && later.recs[|s.recs|] == r && Dispatches(later.log, |s.recs|) == 0)
  {
    var after := Next(s, AddRecipient(id, recipient, duplicate));
    if !HasKey(s.recs, id, recipient) && duplicate {
      AddKeepsInv(s, id, recipient, duplicate);
      DuplicatesStay(after, more, |s.recs|);
      NoneOfNewRow(s.log, |s.recs|);
    }
  }

  // ---------------------------------------------------------------- what a retry gives

  /** The job's dead-lettered rows. */
  function DeadRows(recs: Recs, id: string): nat {
    if recs == [] then 0
    else DeadRows(recs[..|recs| - 1], id) + if recs[|recs| - 1].jobId == id && recs[|recs| - 1].status == Dlq then 1 else 0
  }

  /** A retry gives every dead-lettered row of the job all its attempts again, and no other row any. */
  lemma {:induction false} RetryGivesAllAttempts(recs: Recs, id: string, limit: nat)
    requires forall i :: 0 <= i < |recs| ==> recs[i].status != Failed
    ensures Remaining(RequeueFailed(recs, id), id, limit) == Remaining(recs, id, limit) + Times(DeadRows(recs, id), limit)
    ensures DeadRows(RequeueFailed(recs, id), id) == 0
  {
    if recs != [] {
      var init := recs[..|recs| - 1];
      var r, after := recs[|recs| - 1], RequeueFailed(recs, id);
      RetryGivesAllAttempts(init, id, limit);
      assert after[..|after| - 1] == RequeueFailed(init, id);
      assert Weight(after[|after| - 1], id, limit)
          == Weight(r, id, limit) + if r.jobId == id && r.status == Dlq then limit else 0;
    }
  }
}
