/**
  The scheduled-send queue: the SQL statements of `src/db/scheduled.rs` as in-place updates of one
  table, and the dispatch loop of `src/api/shared/schedule/handlers.rs` as a protocol of any number
  of workers and cancellers over it.
*/
module Scheduled {
  import opened Wrappers
  import opened Timestamps
  import opened Dispatch

  datatype Status = Pending | Sending | Sent | Failed | Cancelled

  datatype Row = Row(
    sessionId: string, endpoint: string, body: string, sendAt: Civil, status: Status,
    error: Option<string>, messageId: Option<string>, updatedAt: Civil)

  type Rows = map<string, Row>

  predicate IsTerminal(s: Status) { s.Sent? || s.Failed? || s.Cancelled? }

  // ---------------------------------------------------------------- one statement each

  function Inserted(rows: Rows, id: string, sessionId: string, endpoint: string, body: string, sendAt: Civil, now: Civil): Rows {
    if id in rows then rows
    else rows[id := Row(sessionId, endpoint, body, sendAt, Pending, None, None, now)]
  }

  function Claimed(rows: Rows, id: string, now: Civil): (Rows, bool) {
    if id in rows && rows[id].status == Pending then
      (rows[id := rows[id].(status := Sending, updatedAt := now)], true)
    else (rows, false)
  }

  function CancelledRow(rows: Rows, sessionId: string, id: string, now: Civil): (Rows, bool) {
    if id in rows && rows[id].sessionId == sessionId && rows[id].status == Pending then
      (rows[id := rows[id].(status := Cancelled, updatedAt := now)], true)
    else (rows, false)
  }

  function MarkedSent(rows: Rows, id: string, messageId: string, now: Civil): Rows {
    if id !in rows then rows
    else rows[id := rows[id].(status := Sent, messageId := Some(messageId), error := None, updatedAt := now)]
  }

  function MarkedFailed(rows: Rows, id: string, error: string, now: Civil): Rows {
    if id !in rows then rows
    else rows[id := rows[id].(status := Failed, error := Some(error), updatedAt := now)]
  }

  /** Status pending, and the stored text not after the text of `now`. */
  predicate IsDue(rows: Rows, id: string, now: Civil) {
    id in rows && rows[id].status == Pending && TextAtMost(FmtUtc(rows[id].sendAt), FmtUtc(now))
  }

  predicate NotLater(rows: Rows, a: string, b: string) {
    a in rows && b in rows && TextAtMost(FmtUtc(rows[a].sendAt), FmtUtc(rows[b].sendAt))
  }

  /** An answer to `due_pending`: due rows, each once, oldest first; one left out only when the
      limit is reached, and then none of those returned is later. */
  ghost predicate IsDueBatch(rows: Rows, now: Civil, limit: nat, batch: seq<string>) {
    && |batch| <= limit
    && (forall i :: 0 <= i < |batch| ==> IsDue(rows, batch[i], now))
    && (forall i, j :: 0 <= i < j < |batch| ==> batch[i] != batch[j] && NotLater(rows, batch[i], batch[j]))
    && (forall id :: IsDue(rows, id, now) && id !in batch ==>
          |batch| == limit && forall i :: 0 <= i < |batch| ==> NotLater(rows, batch[i], id))
  }

  /** The due rows are those of `batch`, oldest first, and those of `todo`, none of which is older. */
  ghost predicate IsSplit(rows: Rows, now: Civil, todo: set<string>, batch: seq<string>) {
    && (forall id :: IsDue(rows, id, now) <==> id in todo || id in batch)
    && (forall id :: id in todo ==> id !in batch)
    && (forall i, j :: 0 <= i < j < |batch| ==> batch[i] != batch[j] && NotLater(rows, batch[i], batch[j]))
    && (forall i, id :: 0 <= i < |batch| && id in todo ==> NotLater(rows, batch[i], id))
  }

  lemma OldestNext(rows: Rows, now: Civil, todo: set<string>, batch: seq<string>, id: string)
    requires IsSplit(rows, now, todo, batch)
    requires id in todo && forall k :: k in todo ==> NotLater(rows, id, k)
    ensures IsSplit(rows, now, todo - {id}, batch + [id])
  {
  }

  class ScheduledTable {
    var rows: Rows

    method Insert(id: string, sessionId: string, endpoint: string, body: string, sendAt: Civil, now: Civil)
      returns (ok: bool)
      modifies this
      ensures ok == (id !in old(rows))
      ensures rows == Inserted(old(rows), id, sessionId, endpoint, body, sendAt, now)
    {
      ok := id !in rows;
      if ok {
        rows := rows[id := Row(sessionId, endpoint, body, sendAt, Pending, None, None, now)];
      }
    }

    method DuePending(now: Civil, limit: nat) returns (batch: seq<string>)
      ensures IsDueBatch(rows, now, limit, batch)
    {
      batch := [];
      var todo := set id | id in rows && IsDue(rows, id, now);
      while todo != {} && |batch| < limit
        invariant |batch| <= limit && todo <= rows.Keys
        invariant IsSplit(rows, now, todo, batch)
        decreases todo
      {
        var id := Oldest(todo);
        OldestNext(rows, now, todo, batch, id);
        todo := todo - {id};
        batch := batch + [id];
      }
    }

    method Oldest(ids: set<string>) returns (oldest: string)
      requires ids != {} && ids <= rows.Keys
      ensures oldest in ids && forall id :: id in ids ==> NotLater(rows, oldest, id)
    {
      oldest :| oldest in ids;
      var rest := ids - {oldest};
      TextTotal(FmtUtc(rows[oldest].sendAt), FmtUtc(rows[oldest].sendAt));
      while rest != {}
        invariant oldest in ids && rest <= ids
        invariant forall id :: id in ids - rest ==> NotLater(rows, oldest, id)
        decreases rest
      {
        var id :| id in rest;
        ghost var seen := ids - rest;
        rest := rest - {id};
        if !NotLater(rows, oldest, id) {
          TextTotal(FmtUtc(rows[oldest].sendAt), FmtUtc(rows[id].sendAt));
          TextTotal(FmtUtc(rows[id].sendAt), FmtUtc(rows[id].sendAt));
          forall k | k in ids - rest
            ensures NotLater(rows, id, k)
          {
            if k != id {
              assert k in seen;
              TextAtMostTransitive(FmtUtc(rows[id].sendAt), FmtUtc(rows[oldest].sendAt), FmtUtc(rows[k].sendAt));
            }
          }
          oldest := id;
        }
      }
    }

    /** Returns false when the row was cancelled or claimed already. */
    method Claim(id: string, now: Civil) returns (won: bool)
      modifies this
      ensures (rows, won) == Claimed(old(rows), id, now)
    {
      won := id in rows && rows[id].status == Pending;
      if won {
        rows := rows[id := rows[id].(status := Sending, updatedAt := now)];
      }
    }

    method MarkSent(id: string, messageId: string, now: Civil)
      modifies this
      ensures rows == MarkedSent(old(rows), id, messageId, now)
    {
      if id in rows {
        rows := rows[id := rows[id].(status := Sent, messageId := Some(messageId), error := None, updatedAt := now)];
      }
    }

    method MarkFailed(id: string, error: string, now: Civil)
      modifies this
      ensures rows == MarkedFailed(old(rows), id, error, now)
    {
      if id in rows {
        rows := rows[id := rows[id].(status := Failed, error := Some(error), updatedAt := now)];
      }
    }

    method CancelPending(sessionId: string, id: string, now: Civil) returns (won: bool)
      modifies this
      ensures (rows, won) == CancelledRow(old(rows), sessionId, id, now)
    {
      won := id in rows && rows[id].sessionId == sessionId && rows[id].status == Pending;
      if won {
        rows := rows[id := rows[id].(status := Cancelled, updatedAt := now)];
      }
    }
  }

  // ---------------------------------------------------------------- the protocol

  /** What one worker holds between its statements: nothing, a claimed row not yet dispatched, or a
      dispatched row not yet settled. */
  datatype Holding = Nothing | ToDispatch(id: string) | ToSettle(id: string, outcome: Outcome)

  /** A worker of `process_due`: the rest of its stale snapshot, and the row in its hands. */
  datatype Worker = Worker(queue: seq<string>, holding: Holding)

  datatype Event =
    | ClaimWon(id: string)
    | CancelWon(id: string)
    | Dispatched(id: string, at: Civil, outcome: Outcome)
    | Settled(id: string)

  datatype State = State(rows: Rows, workers: map<nat, Worker>, now: Civil, log: seq<Event>)

  datatype Action =
    | ApiInsert(id: string, sessionId: string, endpoint: string, body: string, sendAt: Civil)
    | ApiCancel(sessionId: string, id: string)
    | Tick(to: Civil)
    | Fetch(w: nat, read: Civil, limit: nat, batch: seq<string>)
    | TryClaim(w: nat)
    | ClaimError(w: nat, applied: bool)
    | Dispatch(w: nat, outcome: Outcome)
    | Settle(w: nat, applied: bool)
    | Crash(w: nat)

  const IDLE := Worker([], Nothing)

  function WorkerOf(s: State, w: nat): Worker { if w in s.workers then s.workers[w] else IDLE }

  ghost predicate Enabled(s: State, a: Action) {
    match a
    case ApiInsert(id, _, _, _, sendAt) => id !in s.rows && IsCivil(sendAt)
    case Tick(to) => IsCivil(to) && FourDigitYear(to) && !Earlier(to, s.now)
    // the clock was read before the query ran
    case Fetch(w, read, limit, batch) =>
      && WorkerOf(s, w) == IDLE
      && IsCivil(read) && FourDigitYear(read) && !Earlier(s.now, read)
      && IsDueBatch(s.rows, read, limit, batch)
    case TryClaim(w) => WorkerOf(s, w).queue != [] && WorkerOf(s, w).holding.Nothing?
    case ClaimError(w, _) => WorkerOf(s, w).queue != [] && WorkerOf(s, w).holding.Nothing?
    case Dispatch(w, _) => WorkerOf(s, w).holding.ToDispatch?
    case Settle(w, _) => WorkerOf(s, w).holding.ToSettle?
    case _ => true
  }

  function SettledRows(rows: Rows, id: string, outcome: Outcome, now: Civil): Rows {
    match outcome
    case Accepted(messageId) => MarkedSent(rows, id, messageId, now)
    case Rejected(error) => MarkedFailed(rows, id, error, now)
  }

  ghost function Next(s: State, a: Action): State {
    if !Enabled(s, a) then s else
    match a
    case ApiInsert(id, sessionId, endpoint, body, sendAt) =>
      s.(rows := Inserted(s.rows, id, sessionId, endpoint, body, sendAt, s.now))
    case ApiCancel(sessionId, id) =>
      var (rows, won) := CancelledRow(s.rows, sessionId, id, s.now);
      s.(rows := rows, log := if won then s.log + [CancelWon(id)] else s.log)
    case Tick(to) => s.(now := to)
    case Fetch(w, _, _, batch) => s.(workers := s.workers[w := Worker(batch, Nothing)])
    case TryClaim(w) =>
      var me := WorkerOf(s, w);
      var id := me.queue[0];
      var (rows, won) := Claimed(s.rows, id, s.now);
      s.(rows := rows,
         workers := s.workers[w := Worker(me.queue[1..], if won then ToDispatch(id) else Nothing)],
         log := if won then s.log + [ClaimWon(id)] else s.log)
    // a failed claim aborts the tick; the statement may have reached the database all the same
    case ClaimError(w, applied) =>
      var id := WorkerOf(s, w).queue[0];
      var (rows, won) := Claimed(s.rows, id, s.now);
      if applied && won then
        s.(rows := rows, workers := s.workers[w := IDLE], log := s.log + [ClaimWon(id)])
      else s.(workers := s.workers[w := IDLE])
    case Dispatch(w, outcome) =>
      var me := WorkerOf(s, w);
      s.(workers := s.workers[w := me.(holding := ToSettle(me.holding.id, outcome))],
         log := s.log + [Dispatched(me.holding.id, s.now, outcome)])
    // an error from mark_sent or mark_failed is logged and the loop goes on
    case Settle(w, applied) =>
      var me := WorkerOf(s, w);
      var held := me.holding;
      var s' := s.(workers := s.workers[w := me.(holding := Nothing)]);
      if applied then s'.(rows := SettledRows(s.rows, held.id, held.outcome, s.now), log := s.log + [Settled(held.id)])
      else s'
    case Crash(w) => s.(workers := s.workers[w := IDLE])
  }

  ghost function Continue(s: State, more: seq<Action>): State {
    if more == [] then s else Next(Continue(s, more[..|more| - 1]), more[|more| - 1])
  }

  /** A run of the protocol from an empty table. */
  ghost function Run(start: Civil, actions: seq<Action>): State {
    Continue(State(map[], map[], start, []), actions)
  }

  // ---------------------------------------------------------------- what the log says about a row

  predicate IsWin(e: Event, id: string) { e == ClaimWon(id) || e == CancelWon(id) }

  predicate IsDispatch(e: Event, id: string) { e.Dispatched? && e.id == id }

  function Wins(log: seq<Event>, id: string): nat {
    if log == [] then 0
    else Wins(log[..|log| - 1], id) + if IsWin(log[|log| - 1], id) then 1 else 0
  }

  function Dispatches(log: seq<Event>, id: string): nat {
    if log == [] then 0
    else Dispatches(log[..|log| - 1], id) + if IsDispatch(log[|log| - 1], id) then 1 else 0
  }

  lemma LogGrows(log: seq<Event>, e: Event, id: string)
    ensures Wins(log + [e], id) == Wins(log, id) + if IsWin(e, id) then 1 else 0
    ensures Dispatches(log + [e], id) == Dispatches(log, id) + if IsDispatch(e, id) then 1 else 0
  {
  }

  // ---------------------------------------------------------------- the invariant

  function HeldId(h: Holding): Option<string> {
    match h
    case Nothing => None
    case ToDispatch(id) => Some(id)
    case ToSettle(id, _) => Some(id)
  }

  ghost predicate Holds(s: State, w: nat, id: string) { HeldId(WorkerOf(s, w).holding) == Some(id) }

  /** A row's status tells how often it was won and dispatched. */
  ghost predicate RowInv(s: State, id: string) {
    var wins, sends := Wins(s.log, id), Dispatches(s.log, id);
    if id !in s.rows then wins == 0 && sends == 0
    else
      match s.rows[id].status
      case Pending => wins == 0 && sends == 0
      case Cancelled => wins == 1 && sends == 0
      case Sending => wins == 1 && sends <= 1
      case Sent => wins == 1 && sends == 1
      case Failed => wins == 1 && sends == 1
  }

  ghost predicate HoldingInv(s: State, w: nat) {
    match WorkerOf(s, w).holding
    case Nothing => true
    case ToDispatch(id) =>
      id in s.rows && s.rows[id].status == Sending && Dispatches(s.log, id) == 0
    case ToSettle(id, _) => id in s.rows && s.rows[id].status == Sending && Dispatches(s.log, id) == 1
  }

  /** The rows a worker may still dispatch: the rest of its snapshot, and one it has claimed. */
  function ToCome(me: Worker): seq<string> {
    if me.holding.ToDispatch? then [me.holding.id] + me.queue else me.queue
  }

  ghost predicate IsDueBy(s: State, id: string) {
    id in s.rows && TextAtMost(FmtUtc(s.rows[id].sendAt), FmtUtc(s.now))
  }

  ghost predicate QueueInv(s: State, w: nat) {
    forall id :: id in ToCome(WorkerOf(s, w)) ==> IsDueBy(s, id)
  }

  ghost predicate OnTime(s: State, e: Event) {
    e.Dispatched? ==> e.id in s.rows && IsCivil(e.at) && FourDigitYear(e.at)
                      && TextAtMost(FmtUtc(s.rows[e.id].sendAt), FmtUtc(e.at))
  }

  ghost predicate Inv(s: State) {
    && IsCivil(s.now) && FourDigitYear(s.now)
    && (forall id :: id in s.rows ==> IsCivil(s.rows[id].sendAt))
    && RowsInv(s)
    && WorkersInv(s)
    && (forall v, w, id :: Holds(s, v, id) && Holds(s, w, id) ==> v == w)
    && (forall i :: 0 <= i < |s.log| ==> OnTime(s, s.log[i]))
  }

  ghost predicate RowsInv(s: State) { forall id :: RowInv(s, id) }

  ghost predicate WorkersInv(s: State) { forall w :: HoldingInv(s, w) && QueueInv(s, w) }

  lemma InsertKeepsInv(s: State, a: Action)
    requires Inv(s) && a.ApiInsert? && Enabled(s, a)
    ensures Inv(Next(s, a))
  {
    var s' := Next(s, a);
    assert forall id :: RowInv(s, id) ==> RowInv(s', id);
    assert forall w :: HoldingInv(s, w) && QueueInv(s, w) ==> HoldingInv(s', w) && QueueInv(s', w);
    assert forall w, id :: Holds(s', w, id) ==> Holds(s, w, id);
    forall i | 0 <= i < |s'.log|
      ensures OnTime(s', s'.log[i])
    {
      assert OnTime(s, s.log[i]);
    }
  }

  /** A queue stays due as long as no row's `sendAt` changes. */
  lemma QueueKept(s: State, s': State, w: nat)
    requires QueueInv(s, w) && s'.now == s.now
    requires forall id :: id in s.rows ==> id in s'.rows && s'.rows[id].sendAt == s.rows[id].sendAt
    requires forall id :: id in ToCome(WorkerOf(s', w)) ==> id in ToCome(WorkerOf(s, w))
    ensures QueueInv(s', w)
  {
  }

  lemma CancelKeepsWorker(s: State, a: Action, w: nat)
    requires a.ApiCancel? && HoldingInv(s, w) && QueueInv(s, w)
    ensures HoldingInv(Next(s, a), w) && QueueInv(Next(s, a), w)
  {
  }

  lemma CancelKeepsInv(s: State, a: Action)
    requires Inv(s) && a.ApiCancel? && Enabled(s, a)
    ensures Inv(Next(s, a))
  {
    var s' := Next(s, a);
    forall id
      ensures RowInv(s', id)
    {
      assert RowInv(s, id);
      LogGrows(s.log, CancelWon(a.id), id);
    }
    forall w
      ensures HoldingInv(s', w) && QueueInv(s', w)
    {
      assert HoldingInv(s, w) && QueueInv(s, w);
      CancelKeepsWorker(s, a, w);
    }
    assert forall w, id :: Holds(s', w, id) ==> Holds(s, w, id);
    forall i | 0 <= i < |s'.log|
      ensures OnTime(s', s'.log[i])
    {
      if i < |s.log| {
        assert OnTime(s, s.log[i]);
      }
    }
  }

  lemma {:induction false} TextNowGrows(text: string, a: Civil, b: Civil)
    requires IsCivil(a) && FourDigitYear(a) && IsCivil(b) && FourDigitYear(b) && !Earlier(b, a)
    requires TextAtMost(text, FmtUtc(a))
    ensures TextAtMost(text, FmtUtc(b))
  {
    TextOrderIsTimeOrder(b, a);
    TextAtMostTransitive(text, FmtUtc(a), FmtUtc(b));
  }

  lemma TickKeepsInv(s: State, a: Action)
    requires Inv(s) && a.Tick? && Enabled(s, a)
    ensures Inv(Next(s, a))
  {
    var s' := Next(s, a);
    assert forall id :: RowInv(s, id) ==> RowInv(s', id);
    forall w
      ensures HoldingInv(s', w) && QueueInv(s', w)
    {
      assert HoldingInv(s, w) && QueueInv(s, w);
      forall id | id in ToCome(WorkerOf(s', w))
        ensures IsDueBy(s', id)
      {
        assert IsDueBy(s, id);
        TextNowGrows(FmtUtc(s.rows[id].sendAt), s.now, a.to);
      }
    }
    assert forall w, id :: Holds(s', w, id) ==> Holds(s, w, id);
    forall i | 0 <= i < |s'.log|
      ensures OnTime(s', s'.log[i])
    {
      assert OnTime(s, s.log[i]);
    }
  }

  lemma FetchKeepsInv(s: State, a: Action)
    requires Inv(s) && a.Fetch? && Enabled(s, a)
    ensures Inv(Next(s, a))
  {
    var s' := Next(s, a);
    assert forall id :: RowInv(s, id) ==> RowInv(s', id);
    forall w
      ensures HoldingInv(s', w) && QueueInv(s', w)
    {
      assert HoldingInv(s, w) && QueueInv(s, w);
      if w == a.w {
        forall id | id in a.batch
          ensures IsDueBy(s', id)
        {
          TextNowGrows(FmtUtc(s.rows[id].sendAt), a.read, s.now);
        }
      }
    }
    assert forall w, id :: Holds(s', w, id) ==> Holds(s, w, id);
    forall i | 0 <= i < |s'.log|
      ensures OnTime(s', s'.log[i])
    {
      assert OnTime(s, s.log[i]);
    }
  }

  lemma WonClaimKeepsRow(s: State, s': State, id: string, k: string)
    requires RowInv(s, k) && id in s.rows && s.rows[id].status == Pending
    requires s'.rows == s.rows[id := s.rows[id].(status := Sending, updatedAt := s.now)]
    requires s'.log == s.log + [ClaimWon(id)]
    ensures RowInv(s', k)
  {
    LogGrows(s.log, ClaimWon(id), k);
  }

  lemma ClaimKeepsRows(s: State, a: Action)
    requires RowsInv(s) && WorkersInv(s) && (a.TryClaim? || a.ClaimError?) && Enabled(s, a)
    ensures RowsInv(Next(s, a))
  {
    var id := WorkerOf(s, a.w).queue[0];
    var s' := Next(s, a);
    forall k
      ensures RowInv(s', k)
    {
      assert RowInv(s, k);
      if s'.log != s.log {
        WonClaimKeepsRow(s, s', id, k);
      }
    }
  }

  lemma ClaimKeepsQueue(s: State, a: Action, w: nat)
    requires (a.TryClaim? || a.ClaimError?) && Enabled(s, a) && QueueInv(s, w)
    ensures QueueInv(Next(s, a), w)
  {
    QueueKept(s, Next(s, a), w);
  }

  /** What a winning claim of `id` does to a held row: nothing, since `id` was pending. */
  lemma ClaimSparesHeld(s: State, s': State, id: string, held: Holding)
    requires id in s.rows && s.rows[id].status == Pending
    requires s'.rows == s.rows[id := s.rows[id].(status := Sending, updatedAt := s.now)]
    requires s'.log == s.log + [ClaimWon(id)]
    requires held != Nothing && held.id in s.rows && s.rows[held.id].status == Sending
    ensures held.id in s'.rows && s'.rows[held.id].status == Sending
    ensures Dispatches(s'.log, held.id) == Dispatches(s.log, held.id)
  {
  }

  lemma ClaimKeepsHolding(s: State, a: Action, w: nat)
    requires (a.TryClaim? || a.ClaimError?) && Enabled(s, a)
    requires HoldingInv(s, w) && RowInv(s, WorkerOf(s, a.w).queue[0])
    ensures HoldingInv(Next(s, a), w)
  {
    var s' := Next(s, a);
    var id := WorkerOf(s, a.w).queue[0];
    if s'.rows == s.rows && s'.log == s.log {
      assert WorkerOf(s', w).holding == Nothing || WorkerOf(s', w).holding == WorkerOf(s, w).holding;
    } else if w == a.w {
      LogGrows(s.log, ClaimWon(id), id);
    } else if WorkerOf(s, w).holding != Nothing {
      ClaimSparesHeld(s, s', id, WorkerOf(s, w).holding);
    }
  }

  lemma ClaimKeepsWorkers(s: State, a: Action)
    requires RowsInv(s) && WorkersInv(s) && (a.TryClaim? || a.ClaimError?) && Enabled(s, a)
    ensures WorkersInv(Next(s, a))
  {
    assert RowInv(s, WorkerOf(s, a.w).queue[0]) && QueueInv(s, a.w);
    forall w
      ensures HoldingInv(Next(s, a), w) && QueueInv(Next(s, a), w)
    {
      assert HoldingInv(s, w) && QueueInv(s, w);
      ClaimKeepsHolding(s, a, w);
      ClaimKeepsQueue(s, a, w);
    }
  }

  lemma ClaimKeepsInv(s: State, a: Action)
    requires Inv(s) && (a.TryClaim? || a.ClaimError?) && Enabled(s, a)
    ensures Inv(Next(s, a))
  {
    var s' := Next(s, a);
    var id := WorkerOf(s, a.w).queue[0];
    ClaimKeepsRows(s, a);
    ClaimKeepsWorkers(s, a);
    forall v, w, k | Holds(s', v, k) && Holds(s', w, k)
      ensures v == w
    {
      assert HoldingInv(s, v) && HoldingInv(s, w);
      assert v != a.w ==> Holds(s, v, k);
      assert w != a.w ==> Holds(s, w, k);
    }
    forall i | 0 <= i < |s'.log|
      ensures OnTime(s', s'.log[i])
    {
      if i < |s.log| {
        assert OnTime(s, s.log[i]);
      }
    }
  }

  lemma DispatchKeepsWorker(s: State, a: Action, w: nat)
    requires a.Dispatch? && Enabled(s, a)
    requires HoldingInv(s, w) && QueueInv(s, w) && HoldingInv(s, a.w)
    requires forall id :: Holds(s, a.w, id) && Holds(s, w, id) ==> w == a.w
    ensures HoldingInv(Next(s, a), w) && QueueInv(Next(s, a), w)
  {
    var id := WorkerOf(s, a.w).holding.id;
    assert Holds(s, a.w, id);
    QueueKept(s, Next(s, a), w);
    var held := WorkerOf(s, w).holding;
    if held != Nothing {
      assert Holds(s, w, held.id);
      LogGrows(s.log, Dispatched(id, s.now, a.outcome), held.id);
    }
  }

  lemma DispatchKeepsInv(s: State, a: Action)
    requires Inv(s) && a.Dispatch? && Enabled(s, a)
    ensures Inv(Next(s, a))
  {
    var s' := Next(s, a);
    var id := WorkerOf(s, a.w).holding.id;
    assert HoldingInv(s, a.w) && QueueInv(s, a.w);
    forall k
      ensures RowInv(s', k)
    {
      assert RowInv(s, k);
      LogGrows(s.log, Dispatched(id, s.now, a.outcome), k);
    }
    forall w
      ensures HoldingInv(s', w) && QueueInv(s', w)
    {
      assert HoldingInv(s, w) && QueueInv(s, w);
      DispatchKeepsWorker(s, a, w);
    }
    assert forall w, k :: Holds(s', w, k) ==> Holds(s, w, k);
    forall i | 0 <= i < |s'.log|
      ensures OnTime(s', s'.log[i])
    {
      if i < |s.log| {
        assert OnTime(s, s.log[i]);
      } else {
        assert id in ToCome(WorkerOf(s, a.w));
        assert IsDueBy(s, id);
      }
    }
  }

  lemma SettledKeepsRow(s: State, s': State, id: string, outcome: Outcome, k: string)
    requires RowInv(s, k) && id in s.rows && s.rows[id].status == Sending
    requires RowInv(s, id) && Dispatches(s.log, id) == 1
    requires s'.rows == SettledRows(s.rows, id, outcome, s.now) && s'.log == s.log + [Settled(id)]
    ensures RowInv(s', k)
  {
    LogGrows(s.log, Settled(id), k);
  }

  lemma SettleKeepsRows(s: State, a: Action)
    requires RowsInv(s) && WorkersInv(s) && a.Settle? && Enabled(s, a)
    ensures RowsInv(Next(s, a))
  {
    var held := WorkerOf(s, a.w).holding;
    assert HoldingInv(s, a.w) && RowInv(s, held.id);
    forall k
      ensures RowInv(Next(s, a), k)
    {
      assert RowInv(s, k);
      if a.applied {
        SettledKeepsRow(s, Next(s, a), held.id, held.outcome, k);
      }
    }
  }

  lemma SettleKeepsWorker(s: State, a: Action, w: nat)
    requires a.Settle? && Enabled(s, a)
    requires HoldingInv(s, w) && QueueInv(s, w) && HoldingInv(s, a.w)
    requires forall id :: Holds(s, a.w, id) && Holds(s, w, id) ==> w == a.w
    ensures HoldingInv(Next(s, a), w) && QueueInv(Next(s, a), w)
  {
    var s' := Next(s, a);
    var id := WorkerOf(s, a.w).holding.id;
    QueueKept(s, s', w);
    if w != a.w && WorkerOf(s, w).holding != Nothing {
      var k := WorkerOf(s, w).holding.id;
      assert Holds(s, a.w, id) && Holds(s, w, k);
      assert s'.rows[k] == s.rows[k];
      LogGrows(s.log, Settled(id), k);
    }
  }

  lemma SettleKeepsWorkers(s: State, a: Action)
    requires Inv(s) && a.Settle? && Enabled(s, a)
    ensures WorkersInv(Next(s, a))
  {
    assert HoldingInv(s, a.w);
    forall w
      ensures HoldingInv(Next(s, a), w) && QueueInv(Next(s, a), w)
    {
      assert HoldingInv(s, w) && QueueInv(s, w);
      SettleKeepsWorker(s, a, w);
    }
  }

  lemma SettleKeepsInv(s: State, a: Action)
    requires Inv(s) && a.Settle? && Enabled(s, a)
    ensures Inv(Next(s, a))
  {
    var s' := Next(s, a);
    assert HoldingInv(s, a.w);
    SettleKeepsRows(s, a);
    SettleKeepsWorkers(s, a);
    assert forall w, k :: Holds(s', w, k) ==> Holds(s, w, k);
    forall i | 0 <= i < |s'.log|
      ensures OnTime(s', s'.log[i])
    {
      if i < |s.log| {
        assert OnTime(s, s.log[i]);
      }
    }
  }

  lemma CrashKeepsInv(s: State, a: Action)
    requires Inv(s) && a.Crash?
    ensures Inv(Next(s, a))
  {
    var s' := Next(s, a);
    assert forall id :: RowInv(s, id) ==> RowInv(s', id);
    assert forall w :: HoldingInv(s, w) && QueueInv(s, w) ==> HoldingInv(s', w) && QueueInv(s', w);
    assert forall w, id :: Holds(s', w, id) ==> Holds(s, w, id);
    forall i | 0 <= i < |s'.log|
      ensures OnTime(s', s'.log[i])
    {
      assert OnTime(s, s.log[i]);
    }
  }

  lemma NextKeepsInv(s: State, a: Action)
    requires Inv(s)
    ensures Inv(Next(s, a))
  {
    if Enabled(s, a) {
      match a
      case ApiInsert(_, _, _, _, _) => InsertKeepsInv(s, a);
      case ApiCancel(_, _) => CancelKeepsInv(s, a);
      case Tick(_) => TickKeepsInv(s, a);
      case Fetch(_, _, _, _) => FetchKeepsInv(s, a);
      case TryClaim(_) => ClaimKeepsInv(s, a);
      case ClaimError(_, _) => ClaimKeepsInv(s, a);
      case Dispatch(_, _) => DispatchKeepsInv(s, a);
      case Settle(_, _) => SettleKeepsInv(s, a);
      case Crash(_) => CrashKeepsInv(s, a);
    }
  }

  lemma {:induction false} RunsKeepInv(start: Civil, actions: seq<Action>)
    requires IsCivil(start) && FourDigitYear(start)
    ensures Inv(Run(start, actions))
  {
    if actions != [] {
      RunsKeepInv(start, actions[..|actions| - 1]);
      NextKeepsInv(Run(start, actions[..|actions| - 1]), actions[|actions| - 1]);
    }
  }

  // ---------------------------------------------------------------- what every run guarantees

  /** Under any interleaving: a row is won at most once, by one claim or by one cancel; it is
      dispatched at most once, and never once cancelled or while it is still pending. */
  lemma AtMostOnce(start: Civil, actions: seq<Action>, id: string)
    requires IsCivil(start) && FourDigitYear(start)
    ensures var s := Run(start, actions);
            && Wins(s.log, id) <= 1 && Dispatches(s.log, id) <= 1
            && (id in s.rows && s.rows[id].status in {Cancelled, Pending} ==> Dispatches(s.log, id) == 0)
            && (id in s.rows && s.rows[id].status in {Sent, Failed} ==> Dispatches(s.log, id) == 1)
            && (Dispatches(s.log, id) == 1 ==> Wins(s.log, id) == 1)
  {
    RunsKeepInv(start, actions);
    assert RowInv(Run(start, actions), id);
  }

  /** No row is dispatched before its `send_at`, to the second, when that has a four-digit year. */
  lemma NeverEarly(start: Civil, actions: seq<Action>, i: nat)
    requires IsCivil(start) && FourDigitYear(start)
    requires i < |Run(start, actions).log| && Run(start, actions).log[i].Dispatched?
    ensures var s := Run(start, actions);
            var e := s.log[i];
            e.id in s.rows && (s.rows[e.id].sendAt.year <= 9999 ==> !Earlier(e.at, s.rows[e.id].sendAt))
  {
    RunsKeepInv(start, actions);
    var s := Run(start, actions);
    var e := s.log[i];
    assert OnTime(s, e);
    DueTestIsExact(s.rows[e.id].sendAt, e.at);
  }

  /** Sent, failed and cancelled rows never change again, though `mark_sent` and `mark_failed` have
      no status guard: their callers only ever hold rows that are `sending`. */
  lemma TerminalRowsStay(start: Civil, actions: seq<Action>, a: Action, id: string)
    requires IsCivil(start) && FourDigitYear(start)
    requires id in Run(start, actions).rows && IsTerminal(Run(start, actions).rows[id].status)
    ensures var s := Run(start, actions);
            id in Next(s, a).rows && Next(s, a).rows[id] == s.rows[id]
  {
    RunsKeepInv(start, actions);
    if a.Settle? {
      assert HoldingInv(Run(start, actions), a.w);
    }
  }

  /** The log has a dispatch of `id` with this outcome. */
  ghost predicate WasDispatched(s: State, id: string, outcome: Outcome) {
    exists i :: 0 <= i < |s.log| && s.log[i].Dispatched? && s.log[i].id == id && s.log[i].outcome == outcome
  }

  ghost predicate HeldOutcomeRecorded(s: State, w: nat) {
    var held := WorkerOf(s, w).holding;
    held.ToSettle? ==> WasDispatched(s, held.id, held.outcome)
  }

  ghost predicate RowOutcomeRecorded(s: State, id: string) {
    id in s.rows ==>
      var row := s.rows[id];
      && (row.status == Sent ==> row.messageId.Some? && WasDispatched(s, id, Accepted(row.messageId.value)))
      && (row.status == Failed ==> row.error.Some? && WasDispatched(s, id, Rejected(row.error.value)))
  }

  lemma DispatchStays(s: State, a: Action, id: string, o: Outcome)
    requires WasDispatched(s, id, o)
    ensures WasDispatched(Next(s, a), id, o)
  {
    var i :| 0 <= i < |s.log| && s.log[i].Dispatched? && s.log[i].id == id && s.log[i].outcome == o;
    assert s.log <= Next(s, a).log;
    assert Next(s, a).log[i] == s.log[i];
  }

  lemma {:induction false} HeldOutcomes(start: Civil, actions: seq<Action>, w: nat)
    ensures HeldOutcomeRecorded(Run(start, actions), w)
  {
    if actions != [] {
      var s, a := Run(start, actions[..|actions| - 1]), actions[|actions| - 1];
      HeldOutcomes(start, actions[..|actions| - 1], w);
      var held := WorkerOf(Next(s, a), w).holding;
      if held.ToSettle? {
        if held == WorkerOf(s, w).holding {
          DispatchStays(s, a, held.id, held.outcome);
        } else {
          assert Next(s, a).log[|s.log|] == Dispatched(held.id, s.now, held.outcome);
        }
      }
    }
  }

  /** What a settled row records is what its dispatch returned. */
  lemma {:induction false} SettledRowTellsOutcome(start: Civil, actions: seq<Action>, id: string)
    ensures RowOutcomeRecorded(Run(start, actions), id)
  {
    if actions != [] {
      var s, a := Run(start, actions[..|actions| - 1]), actions[|actions| - 1];
      SettledRowTellsOutcome(start, actions[..|actions| - 1], id);
      if id in s.rows && Next(s, a).rows[id] == s.rows[id] {
        if s.rows[id].status == Sent {
          DispatchStays(s, a, id, Accepted(s.rows[id].messageId.value));
        } else if s.rows[id].status == Failed {
          DispatchStays(s, a, id, Rejected(s.rows[id].error.value));
        }
      } else if a.Settle? && Enabled(s, a) {
        HeldOutcomes(start, actions[..|actions| - 1], a.w);
        var held := WorkerOf(s, a.w).holding;
        DispatchStays(s, a, held.id, held.outcome);
      }
    }
  }

  /** A row is `sending` and in nobody's hands: its worker crashed or could not settle it. */
  ghost predicate Orphaned(s: State, id: string) {
    id in s.rows && s.rows[id].status == Sending && forall w :: !Holds(s, w, id)
  }

  /** Nothing in the protocol ever picks an orphan up again: it stays `sending` for good. */
  lemma {:induction false} OrphansStay(s: State, more: seq<Action>, id: string)
    requires Orphaned(s, id)
    ensures Orphaned(Continue(s, more), id)
  {
    if more != [] {
      var s1 := Continue(s, more[..|more| - 1]);
      OrphansStay(s, more[..|more| - 1], id);
      var a := more[|more| - 1];
      assert forall w :: Holds(Next(s1, a), w, id) ==> Holds(s1, w, id);
      if a.Settle? && Enabled(s1, a) {
        assert !Holds(s1, a.w, id);
      }
    }
  }

  lemma OneStep(s: State, a: Action)
    ensures Continue(s, [a]) == Next(s, a)
  {
    assert [a][..0] == [];
    assert Continue(s, []) == s;
  }

  lemma Extend(s: State, more: seq<Action>, a: Action)
    ensures Continue(s, more + [a]) == Next(Continue(s, more), a)
  {
    assert (more + [a])[..|more + [a]| - 1] == more;
  }

  lemma SettleStep(s: State, w: nat)
    requires WorkerOf(s, w).holding.ToSettle? && WorkerOf(s, w).holding.id in s.rows
    ensures var id := WorkerOf(s, w).holding.id;
            id in Next(s, Settle(w, true)).rows && IsTerminal(Next(s, Settle(w, true)).rows[id].status)
  {
  }

  /** A row in a worker's hands can still be settled. */
  lemma HeldRowIsSettled(s: State, w: nat, id: string) returns (more: seq<Action>)
    requires Holds(s, w, id) && id in s.rows
    ensures id in Continue(s, more).rows && IsTerminal(Continue(s, more).rows[id].status)
  {
    var settle := Settle(w, true);
    if WorkerOf(s, w).holding.ToDispatch? {
      var dispatch := Dispatch(w, Accepted(""));
      OneStep(s, dispatch);
      Extend(s, [dispatch], settle);
      SettleStep(Next(s, dispatch), w);
      more := [dispatch] + [settle];
    } else {
      OneStep(s, settle);
      SettleStep(s, w);
      more := [settle];
    }
  }

  /** A `sending` row stays `sending` whatever happens next exactly when no worker holds it. */
  lemma StuckExactlyWhenUnheld(s: State, id: string)
    requires id in s.rows && s.rows[id].status == Sending
    ensures (forall more: seq<Action> ::
               id in Continue(s, more).rows && Continue(s, more).rows[id].status == Sending) <==> Orphaned(s, id)
  {
    if Orphaned(s, id) {
      forall more: seq<Action>
        ensures id in Continue(s, more).rows && Continue(s, more).rows[id].status == Sending
      {
        OrphansStay(s, more, id);
      }
    } else {
      var w :| Holds(s, w, id);
      var more := HeldRowIsSettled(s, w, id);
    }
  }

  /** A due row is stored, read and claimed, and its worker dies before the dispatch. */
  function Abandoned(start: Civil, id: string): seq<Action> {
    [ApiInsert(id, "session", "text", "{}", start)] + [Fetch(0, start, 1, [id])] + [TryClaim(0)] + [Crash(0)]
  }

  lemma InsertedIsDue(start: Civil, id: string)
    requires IsCivil(start)
    ensures var rows := Inserted(map[], id, "session", "text", "{}", start, start);
            IsDueBatch(rows, start, 1, [id])
  {
    TextTotal(FmtUtc(start), FmtUtc(start));
  }

  lemma ClaimThenCrashOrphans(s: State, w: nat, id: string)
    requires WorkerOf(s, w) == Worker([id], Nothing)
    requires id in s.rows && s.rows[id].status == Pending && forall v :: !Holds(s, v, id)
    ensures Orphaned(Next(Next(s, TryClaim(w)), Crash(w)), id)
  {
    var s1 := Next(s, TryClaim(w));
    assert s1.rows[id].status == Sending;
    assert forall v :: v != w ==> WorkerOf(s1, v) == WorkerOf(s, v);
    var s2 := Next(s1, Crash(w));
    assert forall v :: v != w ==> WorkerOf(s2, v) == WorkerOf(s, v);
    assert forall v :: v != w && Holds(s2, v, id) ==> Holds(s, v, id);
  }

  /** It is reached: after this run nobody holds the row, so it is never settled. */
  lemma CrashOrphansRow(start: Civil, id: string)
    requires IsCivil(start) && FourDigitYear(start)
    ensures Orphaned(Run(start, Abandoned(start, id)), id)
  {
    var s0 := State(map[], map[], start, []);
    var insert, fetch := ApiInsert(id, "session", "text", "{}", start), Fetch(0, start, 1, [id]);
    OneStep(s0, insert);
    Extend(s0, [insert], fetch);
    Extend(s0, [insert] + [fetch], TryClaim(0));
    Extend(s0, [insert] + [fetch] + [TryClaim(0)], Crash(0));
    InsertedIsDue(start, id);
    TextTotal(FmtUtc(start), FmtUtc(start));
    TextOrderIsTimeOrder(start, start);
    var s1 := Next(s0, insert);
    assert s1 == s0.(rows := Inserted(map[], id, "session", "text", "{}", start, start));
    assert Enabled(s1, fetch);
    var s2 := Next(s1, fetch);
    ClaimThenCrashOrphans(s2, 0, id);
  }
}
