/**
  How many messages one recipient of a blast can cost, in any run.
*/
module BlastCost {
  import opened Arithmetic
  import opened Dispatch
  import opened BlastTables
  import opened BlastWorker

  /** Dispatches the row has on record: its attempts, and the one that succeeded. */
  function Spent(r: Rec): nat { r.attempts + if r.status == Sent then 1 else 0 }

  /** A dispatch of the row that the worker has yet to record. */
  function Unrecorded(pc: Pc, row: nat): nat {
    if (pc.Answered? || pc.ToPark?) && pc.batch != [] && pc.batch[0].row == row then 1 else 0
  }

  function Deaths(actions: seq<Action>): nat {
    if actions == [] then 0 else Deaths(actions[..|actions| - 1]) + if actions[|actions| - 1].Die? then 1 else 0
  }

  function Retries(actions: seq<Action>, job: string): nat {
    if actions == [] then 0
    else Retries(actions[..|actions| - 1], job) + if actions[|actions| - 1] == Requeue(job) then 1 else 0
  }

  /** The same for the row at the head of the batch. */
  lemma HeadSpends(s: State, outcome: Outcome)
    requires Inv(s) && BatchOf(s.pc) != []
    ensures var row, t := BatchOf(s.pc)[0].row, WorkerStep(s, outcome);
            && row < |s.recs| && row < |t.recs|
            && (if s.pc.Marked? then 1 else 0) + Spent(s.recs[row]) + Unrecorded(s.pc, row) <= Spent(t.recs[row]) + Unrecorded(t.pc, row)
  {
    HeadItem(s);
    HeadUpdate(s, outcome);
  }

  lemma OthersUnrecorded(s: State, row: nat)
    requires BatchOf(s.pc) != [] && BatchOf(s.pc)[0].row != row
    ensures Unrecorded(s.pc, row) == 0
  {
  }

  /** What a statement of the worker does to a row: a dispatch is unrecorded, and then on record. */
  lemma WorkSpends(s: State, outcome: Outcome, row: nat)
    requires Inv(s) && row < |s.recs|
    ensures var t := WorkerStep(s, outcome);
            && row < |t.recs|
            && Dispatches(t.log, row) + Spent(s.recs[row]) + Unrecorded(s.pc, row)
               <= Dispatches(s.log, row) + Spent(t.recs[row]) + Unrecorded(t.pc, row)
  {
    WorkLogs(s, outcome, row);
    if BatchOf(s.pc) == [] {
      ResetKeepsRows(s, outcome);
    } else if BatchOf(s.pc)[0].row == row {
      HeadSpends(s, outcome);
    } else {
      WorkSpares(s, outcome, row);
      OthersUnrecorded(s, row);
    }
  }

  /** The job's attempts for one recipient: at least one. */
  function Allowed(s: State, row: nat): nat
    requires row < |s.recs| && s.recs[row].jobId in s.jobs
  {
    var m := s.jobs[s.recs[row].jobId].maxAttempts;
    if m > 1 then m else 1
  }

  lemma NextSpends(s: State, a: Action, row: nat)
    requires Inv(s) && row < |s.recs| && s.recs[row].jobId in s.jobs
    ensures var t := Next(s, a);
            && row < |t.recs|
            && Dispatches(t.log, row) + Spent(s.recs[row]) + Unrecorded(s.pc, row)
               <= Dispatches(s.log, row) + Spent(t.recs[row]) + Unrecorded(t.pc, row)
                  + (if a.Die? then 1 else 0) + if a == Requeue(s.recs[row].jobId) then Allowed(s, row) else 0
  {
    if a.Work? {
      WorkSpends(s, a.outcome, row);
    } else {
      assert RecInv(s, s.recs[row]);
    }
  }

  /** A row recorded sent had an attempt left. */
  ghost predicate SentInTime(s: State, row: nat) {
    row < |s.recs| && s.recs[row].jobId in s.jobs && s.recs[row].status == Sent ==> s.recs[row].attempts < Allowed(s, row)
  }

  lemma WorkSentInTime(s: State, outcome: Outcome, row: nat)
    requires Inv(s) && row < |s.recs| && RecInv(s, s.recs[row])
    ensures var r := WorkerStep(s, outcome).recs;
            row < |r| && (r[row].status == Sent && s.recs[row].status != Sent ==> r[row].attempts < Limit(s.jobs[s.recs[row].jobId]))
            && (s.recs[row].status == Sent ==> r[row] == s.recs[row])
  {
    if BatchOf(s.pc) != [] {
      HeadItem(s);
      HeadUpdate(s, outcome);
    } else {
      ResetKeepsRows(s, outcome);
    }
  }

  lemma NextSentInTime(s: State, a: Action, row: nat)
    requires Inv(s) && SentInTime(s, row)
    ensures SentInTime(Next(s, a), row)
  {
    NextKeepsJobs(s, a);
    NextKeepsKeys(s, a);
    if row < |s.recs| {
      assert RecInv(s, s.recs[row]);
      if a.Work? {
        WorkSentInTime(s, a.outcome, row);
      }
    }
  }

  /** The budget of a row: its job's attempts, once more for each retry, and one for each death. */
  ghost predicate WithinBudget(actions: seq<Action>, s: State, row: nat) {
    row < |s.recs| && s.recs[row].jobId in s.jobs ==>
      Dispatches(s.log, row)
      <= Spent(s.recs[row]) + Unrecorded(s.pc, row) + Deaths(actions) + Times(Retries(actions, s.recs[row].jobId), Allowed(s, row))
  }

  lemma WorkAddsNoRow(s: State, outcome: Outcome)
    ensures |WorkerStep(s, outcome).recs| == |s.recs|
  {
  }

  lemma NothingOfNewRow(s: State, a: Action, row: nat)
    requires LogInv(s) && |s.recs| <= row < |Next(s, a).recs|
    ensures Dispatches(Next(s, a).log, row) == 0
  {
    assert Next(s, a).log == s.log by {
      if a.Work? {
        WorkAddsNoRow(s, a.outcome);
      }
    }
    NoneOfNewRow(s.log, row);
  }

  lemma NextWithinBudget(before: seq<Action>, s: State, a: Action, row: nat)
    requires Inv(s) && LogInv(s) && WithinBudget(before, s, row)
    ensures WithinBudget(before + [a], Next(s, a), row)
  {
    assert (before + [a])[..|before + [a]| - 1] == before;
    NextKeepsJobs(s, a);
    NextKeepsKeys(s, a);
    if row < |s.recs| {
      assert RecInv(s, s.recs[row]);
      NextSpends(s, a, row);
    } else if row < |Next(s, a).recs| {
      NothingOfNewRow(s, a, row);
    }
  }

  lemma {:induction false} RunsStayWithinBudget(actions: seq<Action>, row: nat)
    ensures var s := Continue(EMPTY, actions);
            Inv(s) && LogInv(s) && SentInTime(s, row) && WithinBudget(actions, s, row)
  {
    RunsKeepInv(EMPTY, actions);
    if actions != [] {
      var init, a := actions[..|actions| - 1], actions[|actions| - 1];
      RunsStayWithinBudget(init, row);
      NextKeepsLog(Continue(EMPTY, init), a);
      NextSentInTime(Continue(EMPTY, init), a, row);
      NextWithinBudget(init, Continue(EMPTY, init), a, row);
      assert init + [a] == actions;
    }
  }

  /** In every run a recipient is sent at most as many messages as its job allows attempts, at least one, as
      often again as its job was retried, and one more for each death of the worker. */
  lemma MessagesAreBounded(actions: seq<Action>, row: nat)
    requires row < |Continue(EMPTY, actions).recs|
    ensures var s := Continue(EMPTY, actions);
            && s.recs[row].jobId in s.jobs
            && Dispatches(s.log, row) <= (Retries(actions, s.recs[row].jobId) + 1) * Allowed(s, row) + Deaths(actions)
  {
    var s := Continue(EMPTY, actions);
    RunsStayWithinBudget(actions, row);
    assert RecInv(s, s.recs[row]);
    if Unrecorded(s.pc, row) > 0 {
      HeadItem(s);
    }
    TimesIsProduct(Retries(actions, s.recs[row].jobId) + 1, Allowed(s, row));
  }
}
