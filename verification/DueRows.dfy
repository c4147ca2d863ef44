/**
  Which scheduled rows a tick reads, told in times, and what becomes of them when the worker is left alone;
  where rows and cancels come from.
*/
module DueRows {
  import opened Wrappers
  import opened Timestamps
  import opened Dispatch
  import opened Scheduled

  // ---------------------------------------------------------------- what a tick reads

  predicate IsWaiting(rows: Rows, id: string) { id in rows && rows[id].status == Pending }

  /** The row waits, and its time, up to the year 9999, is not later than `now`. */
  predicate TimeHasCome(rows: Rows, id: string, now: Civil) {
    IsWaiting(rows, id) && rows[id].sendAt.year <= 9999 && !Earlier(now, rows[id].sendAt)
  }

  /** Neither has a year outside 0..9999, and `a` is later than `b`. */
  predicate IsLater(rows: Rows, a: string, b: string) {
    && a in rows && b in rows && FourDigitYear(rows[a].sendAt) && FourDigitYear(rows[b].sendAt)
    && Earlier(rows[b].sendAt, rows[a].sendAt)
  }

  lemma LaterIsLater(rows: Rows, a: string, b: string)
    requires IsLater(rows, a, b) && IsCivil(rows[a].sendAt) && IsCivil(rows[b].sendAt)
    ensures !NotLater(rows, a, b)
  {
    TextOrderIsTimeOrder(rows[b].sendAt, rows[a].sendAt);
  }

  /** Every row read is pending, and none has a time to come, up to the year 9999; they are read once each, no
      later one before an earlier one; and a pending row whose time has come is read, or the tick is full of
      pending rows none of which is later. */
  lemma DueBatchMeans(rows: Rows, now: Civil, limit: nat, batch: seq<string>)
    requires IsDueBatch(rows, now, limit, batch) && IsCivil(now) && FourDigitYear(now)
    requires forall id :: id in rows ==> IsCivil(rows[id].sendAt)
    ensures |batch| <= limit
    ensures forall i :: 0 <= i < |batch| ==>
              && IsWaiting(rows, batch[i])
              && (rows[batch[i]].sendAt.year <= 9999 ==> !Earlier(now, rows[batch[i]].sendAt))
    ensures forall i, j :: 0 <= i < j < |batch| ==> batch[i] != batch[j] && !IsLater(rows, batch[i], batch[j])
    ensures forall id :: TimeHasCome(rows, id, now) && id !in batch ==>
              |batch| == limit && forall i :: 0 <= i < |batch| ==> !IsLater(rows, batch[i], id)
  {
    forall i | 0 <= i < |batch|
      ensures IsWaiting(rows, batch[i]) && (rows[batch[i]].sendAt.year <= 9999 ==> !Earlier(now, rows[batch[i]].sendAt))
    {
      assert IsDue(rows, batch[i], now);
      DueTestIsExact(rows[batch[i]].sendAt, now);
    }
    forall i, j | 0 <= i < j < |batch|
      ensures !IsLater(rows, batch[i], batch[j])
    {
      if IsLater(rows, batch[i], batch[j]) {
        LaterIsLater(rows, batch[i], batch[j]);
      }
    }
    forall id, i | TimeHasCome(rows, id, now) && id !in batch && 0 <= i < |batch|
      ensures !IsLater(rows, batch[i], id)
    {
      DueTestIsExact(rows[id].sendAt, now);
      if IsLater(rows, batch[i], id) {
        LaterIsLater(rows, batch[i], id);
      }
    }
    forall id | TimeHasCome(rows, id, now) && id !in batch
      ensures |batch| == limit
    {
      DueTestIsExact(rows[id].sendAt, now);
      assert IsDue(rows, id, now);
    }
  }

  lemma {:induction false} DistinctFit(batch: seq<string>, ids: set<string>)
    requires forall i, j :: 0 <= i < j < |batch| ==> batch[i] != batch[j]
    requires forall i :: 0 <= i < |batch| ==> batch[i] in ids
    ensures |batch| <= |ids|
  {
    if batch != [] {
      DistinctFit(batch[1..], ids - {batch[0]});
    }
  }

  /** The pending rows that are not later than `id`. */
  function Ahead(rows: Rows, id: string): set<string>
    requires id in rows
  {
    set k | k in rows && k != id && rows[k].status == Pending && !Earlier(rows[id].sendAt, rows[k].sendAt)
  }

  /** With fewer than `limit` pending rows ahead of it, a pending row whose time has come is read. */
  lemma DueRowIsRead(rows: Rows, now: Civil, limit: nat, batch: seq<string>, id: string)
    requires IsDueBatch(rows, now, limit, batch) && IsCivil(now) && FourDigitYear(now)
    requires forall k :: k in rows ==> IsCivil(rows[k].sendAt) && FourDigitYear(rows[k].sendAt)
    requires TimeHasCome(rows, id, now) && |Ahead(rows, id)| < limit
    ensures id in batch
  {
    DueBatchMeans(rows, now, limit, batch);
    if id !in batch {
      forall i | 0 <= i < |batch|
        ensures batch[i] in Ahead(rows, id)
      {
        assert !IsLater(rows, batch[i], id);
      }
      DistinctFit(batch, Ahead(rows, id));
    }
  }

  // ---------------------------------------------------------------- a worker left alone

  /** The next statement of a worker that has something to do, when the statement succeeds. */
  function Turn(s: State, w: nat, answer: string -> Outcome): Action {
    match WorkerOf(s, w).holding
    case Nothing => TryClaim(w)
    case ToDispatch(id) => Dispatch(w, answer(id))
    case ToSettle(_, _) => Settle(w, true)
  }

  function TurnsLeft(me: Worker): nat {
    3 * |me.queue| + match me.holding case Nothing => 0 case ToDispatch(_) => 2 case ToSettle(_, _) => 1
  }

  /** The worker works until it has nothing left; `answer` is what the dispatches come back with. */
  ghost function WorkOff(s: State, w: nat, answer: string -> Outcome): State
    decreases TurnsLeft(WorkerOf(s, w))
  {
    if TurnsLeft(WorkerOf(s, w)) == 0 then s else WorkOff(Next(s, Turn(s, w, answer)), w, answer)
  }

  /** What a dispatch answer makes of a row. */
  function Answered(row: Row, outcome: Outcome, now: Civil): Row {
    match outcome
    case Accepted(messageId) =>
      Row(row.sessionId, row.endpoint, row.body, row.sendAt, Sent, None, Some(messageId), now)
    case Rejected(error) =>
      Row(row.sessionId, row.endpoint, row.body, row.sendAt, Failed, Some(error), row.messageId, now)
  }

  /** From `s` to `after` the pending rows among `ids` were dispatched once each and record the answer; all
      else is as it was. */
  ghost predicate WorkedOff(s: State, after: State, ids: seq<string>, answer: string -> Outcome) {
    && after.now == s.now && after.rows.Keys == s.rows.Keys
    && (forall id :: id in s.rows ==>
          after.rows[id] == if id in ids && s.rows[id].status == Pending then Answered(s.rows[id], answer(id), s.now) else s.rows[id])
    && (forall id :: Dispatches(after.log, id) == Dispatches(s.log, id) + if id in ids && IsWaiting(s.rows, id) then 1 else 0)
  }

  lemma ClaimTurn(s: State, w: nat, answer: string -> Outcome) returns (t: State)
    requires WorkerOf(s, w).holding.Nothing? && WorkerOf(s, w).queue != [] && IsWaiting(s.rows, WorkerOf(s, w).queue[0])
    ensures WorkOff(t, w, answer) == WorkOff(s, w, answer)
    ensures var id := WorkerOf(s, w).queue[0];
            t == State(s.rows[id := s.rows[id].(status := Sending, updatedAt := s.now)],
                       s.workers[w := Worker(WorkerOf(s, w).queue[1..], ToDispatch(id))], s.now, s.log + [ClaimWon(id)])
  {
    t := Next(s, TryClaim(w));
    assert Turn(s, w, answer) == TryClaim(w);
  }

  lemma DispatchTurn(s: State, w: nat, answer: string -> Outcome) returns (t: State)
    requires WorkerOf(s, w).holding.ToDispatch?
    ensures WorkOff(t, w, answer) == WorkOff(s, w, answer)
    ensures var id := WorkerOf(s, w).holding.id;
            t == s.(workers := s.workers[w := Worker(WorkerOf(s, w).queue, ToSettle(id, answer(id)))],
                    log := s.log + [Dispatched(id, s.now, answer(id))])
  {
    t := Next(s, Dispatch(w, answer(WorkerOf(s, w).holding.id)));
    assert Turn(s, w, answer) == Dispatch(w, answer(WorkerOf(s, w).holding.id));
  }

  lemma SettleTurn(s: State, w: nat, answer: string -> Outcome) returns (t: State)
    requires WorkerOf(s, w).holding.ToSettle? && WorkerOf(s, w).holding.id in s.rows
    ensures WorkOff(t, w, answer) == WorkOff(s, w, answer)
    ensures var held := WorkerOf(s, w).holding;
            t == State(s.rows[held.id := Answered(s.rows[held.id], held.outcome, s.now)],
                       s.workers[w := Worker(WorkerOf(s, w).queue, Nothing)], s.now, s.log + [Settled(held.id)])
  {
    t := Next(s, Settle(w, true));
    assert Turn(s, w, answer) == Settle(w, true);
  }

  lemma WonRowWorkedOff(s: State, w: nat, answer: string -> Outcome) returns (t: State)
    requires WorkerOf(s, w).holding.Nothing? && WorkerOf(s, w).queue != [] && IsWaiting(s.rows, WorkerOf(s, w).queue[0])
    ensures WorkOff(t, w, answer) == WorkOff(s, w, answer)
    ensures WorkerOf(t, w) == Worker(WorkerOf(s, w).queue[1..], Nothing)
    ensures WorkedOff(s, t, [WorkerOf(s, w).queue[0]], answer)
  {
    var id := WorkerOf(s, w).queue[0];
    var s1 := ClaimTurn(s, w, answer);
    var s2 := DispatchTurn(s1, w, answer);
    t := SettleTurn(s2, w, answer);
    forall k ensures Dispatches(t.log, k) == Dispatches(s.log, k) + if k == id then 1 else 0 {
      LogGrows(s.log, ClaimWon(id), k);
      LogGrows(s1.log, Dispatched(id, s.now, answer(id)), k);
      LogGrows(s2.log, Settled(id), k);
    }
  }

  /** One row of the queue: claimed, dispatched and settled, or passed over. */
  lemma OneRowWorkedOff(s: State, w: nat, answer: string -> Outcome) returns (t: State)
    requires WorkerOf(s, w).holding.Nothing? && WorkerOf(s, w).queue != []
    ensures WorkOff(t, w, answer) == WorkOff(s, w, answer)
    ensures WorkerOf(t, w) == Worker(WorkerOf(s, w).queue[1..], Nothing)
    ensures WorkedOff(s, t, [WorkerOf(s, w).queue[0]], answer)
  {
    if IsWaiting(s.rows, WorkerOf(s, w).queue[0]) {
      t := WonRowWorkedOff(s, w, answer);
    } else {
      t := Next(s, TryClaim(w));
      assert WorkOff(s, w, answer) == WorkOff(t, w, answer);
    }
  }

  lemma WorkedOffInTurn(s: State, t: State, after: State, ids: seq<string>, answer: string -> Outcome)
    requires ids != [] && ids[0] !in ids[1..]
    requires WorkedOff(s, t, [ids[0]], answer) && WorkedOff(t, after, ids[1..], answer)
    ensures WorkedOff(s, after, ids, answer)
  {
    assert forall id :: id in ids <==> id == ids[0] || id in ids[1..];
    forall id
      ensures Dispatches(after.log, id) == Dispatches(s.log, id) + if id in ids && IsWaiting(s.rows, id) then 1 else 0
    {
      assert Dispatches(t.log, id) == Dispatches(s.log, id) + if id == ids[0] && IsWaiting(s.rows, id) then 1 else 0;
      assert id != ids[0] ==> (IsWaiting(t.rows, id) <==> IsWaiting(s.rows, id));
    }
  }

  /** A worker that is left alone with its snapshot dispatches every row of it that is still pending, once,
      records the answers, touches no other row, and ends with nothing in its hands. */
  lemma {:induction false} SnapshotIsWorkedOff(s: State, w: nat, answer: string -> Outcome)
    requires WorkerOf(s, w).holding.Nothing?
    requires var q := WorkerOf(s, w).queue; forall i, j :: 0 <= i < j < |q| ==> q[i] != q[j]
    ensures WorkerOf(WorkOff(s, w, answer), w) == IDLE
    ensures WorkedOff(s, WorkOff(s, w, answer), WorkerOf(s, w).queue, answer)
    decreases |WorkerOf(s, w).queue|
  {
    if WorkerOf(s, w).queue != [] {
      var t := OneRowWorkedOff(s, w, answer);
      SnapshotIsWorkedOff(t, w, answer);
      WorkedOffInTurn(s, t, WorkOff(t, w, answer), WorkerOf(s, w).queue, answer);
    }
  }

  lemma Fetched(s: State, w: nat, read: Civil, limit: nat, batch: seq<string>) returns (t: State)
    requires Enabled(s, Fetch(w, read, limit, batch))
    ensures t == Next(s, Fetch(w, read, limit, batch))
    ensures t == s.(workers := s.workers[w := Worker(batch, Nothing)])
    ensures forall i, j :: 0 <= i < j < |batch| ==> batch[i] != batch[j]
  {
    t := Next(s, Fetch(w, read, limit, batch));
  }

  /** A tick of a worker that is left alone: a pending row whose time has come, with fewer than `limit` pending
      rows ahead of it, is dispatched once and records the answer, whatever else the query returned. */
  lemma DueRowGoesOut(s: State, w: nat, read: Civil, limit: nat, batch: seq<string>, answer: string -> Outcome, id: string)
    requires Inv(s) && Enabled(s, Fetch(w, read, limit, batch))
    requires forall k :: k in s.rows ==> FourDigitYear(s.rows[k].sendAt)
    requires TimeHasCome(s.rows, id, read) && |Ahead(s.rows, id)| < limit
    ensures var after := WorkOff(Next(s, Fetch(w, read, limit, batch)), w, answer);
            && id in after.rows && after.rows[id] == Answered(s.rows[id], answer(id), s.now)
            && Dispatches(after.log, id) == Dispatches(s.log, id) + 1
  {
    DueRowIsRead(s.rows, read, limit, batch, id);
    var t := Fetched(s, w, read, limit, batch);
    SnapshotIsWorkedOff(t, w, answer);
  }

  // ---------------------------------------------------------------- where rows and cancels come from

  /** The row is the one an insert of the run stored, and if it is cancelled, its own session cancelled it. */
  ghost predicate IsAsAsked(actions: seq<Action>, id: string, row: Row) {
    && ApiInsert(id, row.sessionId, row.endpoint, row.body, row.sendAt) in actions
    && (row.status == Cancelled ==> ApiCancel(row.sessionId, id) in actions)
  }

  lemma NextIsAsAsked(before: seq<Action>, s: State, a: Action, id: string)
    requires id in s.rows ==> IsAsAsked(before, id, s.rows[id])
    ensures id in Next(s, a).rows ==> IsAsAsked(before + [a], id, Next(s, a).rows[id])
  {
    assert a in before + [a] && forall b :: b in before ==> b in before + [a];
  }

  /** In every run a row is to this day what its insert asked for, and only its own session cancels it. */
  lemma {:induction false} RowsAreAsAsked(start: Civil, actions: seq<Action>, id: string)
    ensures var rows := Run(start, actions).rows;
            id in rows ==> IsAsAsked(actions, id, rows[id])
  {
    if actions != [] {
      var before, a := actions[..|actions| - 1], actions[|actions| - 1];
      RowsAreAsAsked(start, before, id);
      NextIsAsAsked(before, Run(start, before), a, id);
      assert before + [a] == actions;
    }
  }

  /** A cancel of a pending row by its own session holds in every continuation, and the row is never
      dispatched; one by another session, or of another row, changes nothing about it. */
  lemma {:induction false} CancelHolds(start: Civil, actions: seq<Action>, sessionId: string, id: string, more: seq<Action>)
    requires IsCivil(start) && FourDigitYear(start)
    requires IsWaiting(Run(start, actions).rows, id)
    ensures var s := Run(start, actions);
            var after := Next(s, ApiCancel(sessionId, id));
            if s.rows[id].sessionId != sessionId then after == s
            else
              var later := Run(start, actions + [ApiCancel(sessionId, id)] + more);
              id in later.rows && later.rows[id] == after.rows[id] && later.rows[id].status == Cancelled && Dispatches(later.log, id) == 0
    decreases |more|
  {
    var run := actions + [ApiCancel(sessionId, id)];
    if more == [] {
      assert run + [] == run && run[..|run| - 1] == actions;
      RunsKeepInv(start, run);
      assert RowInv(Run(start, run), id);
    } else {
      var init, last := more[..|more| - 1], more[|more| - 1];
      CancelHolds(start, actions, sessionId, id, init);
      var all := run + more;
      assert all[..|all| - 1] == run + init && all[|all| - 1] == last;
      if Run(start, actions).rows[id].sessionId == sessionId {
        TerminalRowsStay(start, run + init, last, id);
        RunsKeepInv(start, all);
        assert RowInv(Run(start, all), id);
      }
    }
  }
}
