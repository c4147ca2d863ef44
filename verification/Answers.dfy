/**
  What a circuit answers, told by the calls of the run and its earlier answers alone.
*/
module Answers {
  import opened Wrappers
  import opened Circuit
  import opened Ladder

  /** Call `k` is a failure report for `u` that was answered with a suspension. */
  predicate Suspends(calls: seq<Call>, u: Url, k: nat)
    requires k < |calls|
  {
    && calls[k].url == u
    && calls[k].op.Failure?
    && FailureStep(Before(calls, k, u), calls[k].op.error, calls[k].now).1.Suspended?
  }

  /** The cooldown that answer names. */
  function Announced(calls: seq<Call>, u: Url, k: nat): nat
    requires k < |calls| && Suspends(calls, u, k)
  {
    FailureStep(Before(calls, k, u), calls[k].op.error, calls[k].now).1.cooldown
  }

  /** Suspensions among the calls i..j. */
  function Suspensions(calls: seq<Call>, u: Url, i: nat, j: nat): nat
    requires i <= j <= |calls|
    decreases j
  {
    if i == j then 0 else Suspensions(calls, u, i, j - 1) + if Suspends(calls, u, j - 1) then 1 else 0
  }

  function LastSuspension(calls: seq<Call>, u: Url, j: nat): (l: Option<nat>)
    requires j <= |calls|
    ensures l.Some? ==> l.value < j && Suspends(calls, u, l.value)
    decreases j
  {
    if j == 0 then None else if Suspends(calls, u, j - 1) then Some(j - 1) else LastSuspension(calls, u, j - 1)
  }

  /** The last delivery let through among the calls i..j. */
  function LastAdmission(calls: seq<Call>, u: Url, i: nat, j: nat): (p: Option<nat>)
    requires i <= j <= |calls|
    ensures p.Some? ==> i <= p.value < j && Admitted(calls, u, p.value)
    ensures forall q :: (if p.Some? then p.value + 1 else i) <= q < j ==> !Admitted(calls, u, q)
    decreases j
  {
    if i == j then None else if Admitted(calls, u, j - 1) then Some(j - 1) else LastAdmission(calls, u, i, j - 1)
  }

  /** The cooldowns of the first, second, ... suspension in a row, in seconds. */
  const RUNGS: seq<nat> := [300, 600, 1200, 2400, 3600]

  function Rung(n: nat): nat { RUNGS[Min(n, 4)] * SECOND }

  lemma CooldownIsRung(trips: u32)
    ensures Cooldown(trips) == Rung(trips)
  {
    assert Shl(300, 0) == 300 && Shl(300, 1) == 600 && Shl(300, 2) == 1200 && Shl(300, 3) == 2400 && Shl(300, 4) == 4800;
  }

  /** What an open slot holds before call `j`: the end of the cooldown the last suspension announced, the
      time of the last delivery let through since, and the suspensions in a row, less one. */
  ghost predicate Told(calls: seq<Call>, u: Url, j: nat)
    requires j <= |calls|
  {
    IsOpen(Before(calls, j, u)) ==>
      var c := Before(calls, j, u).value;
      var l := LastSuspension(calls, u, j);
      && l.Some? && Start(calls, u, j) <= l.value
      && c.openedUntil.value == calls[l.value].now + Announced(calls, u, l.value)
      && (var p := LastAdmission(calls, u, l.value + 1, j);
          c.probeStarted == if p.Some? then Some(calls[p.value].now) else None)
      && (var n := Suspensions(calls, u, Start(calls, u, j), j);
          n > 0 && c.trips == Min(n - 1, U32_MAX) && Announced(calls, u, l.value) == Rung(n - 1))
  }

  lemma ReportAnswer(slot: Slot, error: string, now: Instant)
    requires SlotInv(slot)
    ensures var answer := FailureStep(slot, error, now).1;
            && (answer.Suspended? <==> if IsOpen(slot) then IsProbing(slot)
                                       else slot.Some? && slot.value.failures + 1 == OPEN_THRESHOLD)
            && (answer.Suspended? ==> answer.cooldown == Rung(if IsOpen(slot) then slot.value.trips + 1 else 0))
  {
    CooldownIsRung(0);
    if IsOpen(slot) {
      CooldownIsRung(SaturatingInc(slot.value.trips));
    }
  }

  /** What a report leaves in an open slot. */
  lemma ReportLeaves(slot: Slot, error: string, now: Instant)
    requires SlotInv(slot)
    ensures var (after, answer) := FailureStep(slot, error, now);
            IsOpen(after) ==>
              && after.value.probeStarted.None?
              && (answer.Suspended? ==>
                    && after.value.openedUntil.value == now + answer.cooldown
                    && after.value.trips == if IsOpen(slot) then SaturatingInc(slot.value.trips) else 0)
              && (answer.Noop? ==> IsOpen(slot) && after.value == slot.value.(lastEvent := now, lastError := after.value.lastError))
  {
  }

  /** A closed circuit has no suspension since its count started. */
  ghost predicate Fresh(calls: seq<Call>, u: Url, j: nat)
    requires j <= |calls|
  {
    !IsOpen(Before(calls, j, u)) ==> Suspensions(calls, u, Start(calls, u, j), j) == 0
  }

  lemma ReportKeepsTold(calls: seq<Call>, u: Url, k: nat)
    requires k < |calls| && Told(calls, u, k) && calls[k].url == u && calls[k].op.Failure?
    requires Fresh(calls, u, k)
    requires SlotInv(Before(calls, k, u))
    ensures Told(calls, u, k + 1)
  {
    BeforeNext(calls, k, u);
    ReportAnswer(Before(calls, k, u), calls[k].op.error, calls[k].now);
    ReportLeaves(Before(calls, k, u), calls[k].op.error, calls[k].now);
  }

  lemma StaysOpen(calls: seq<Call>, u: Url, k: nat)
    requires k < |calls| && !(calls[k].url == u && calls[k].op.Failure?) && IsOpen(Before(calls, k + 1, u))
    ensures var was, now := Before(calls, k, u), Before(calls, k + 1, u);
            && IsOpen(was) && now.value.openedUntil == was.value.openedUntil && now.value.trips == was.value.trips
            && now.value.probeStarted == if Admitted(calls, u, k) then Some(calls[k].now) else was.value.probeStarted
    ensures Start(calls, u, k + 1) == Start(calls, u, k) && !Suspends(calls, u, k)
  {
    BeforeNext(calls, k, u);
    OpensAtThreshold(calls, u, k);
  }

  /** A call that neither resets nor suspends adds at most an admission to what is told. */
  lemma TellingStays(calls: seq<Call>, u: Url, k: nat)
    requires k < |calls| && Start(calls, u, k + 1) == Start(calls, u, k) && !Suspends(calls, u, k)
    ensures LastSuspension(calls, u, k + 1) == LastSuspension(calls, u, k)
    ensures Suspensions(calls, u, Start(calls, u, k + 1), k + 1) == Suspensions(calls, u, Start(calls, u, k), k)
    ensures var l := LastSuspension(calls, u, k);
            l.Some? ==> LastAdmission(calls, u, l.value + 1, k + 1)
                        == if Admitted(calls, u, k) then Some(k) else LastAdmission(calls, u, l.value + 1, k)
  {
  }

  lemma OtherKeepsTold(calls: seq<Call>, u: Url, k: nat)
    requires k < |calls| && Told(calls, u, k) && !(calls[k].url == u && calls[k].op.Failure?)
    ensures Told(calls, u, k + 1)
  {
    if IsOpen(Before(calls, k + 1, u)) {
      StaysOpen(calls, u, k);
      TellingStays(calls, u, k);
    }
  }

  lemma {:induction false} ClosedIsFresh(calls: seq<Call>, u: Url, j: nat)
    requires j <= |calls|
    ensures Fresh(calls, u, j)
    decreases j
  {
    if j > 0 {
      ClosedIsFresh(calls, u, j - 1);
      BeforeNext(calls, j - 1, u);
      OpensAtThreshold(calls, u, j - 1);
    }
  }

  lemma NextKeepsTold(calls: seq<Call>, u: Url, k: nat)
    requires k < |calls| && Told(calls, u, k)
    ensures Told(calls, u, k + 1)
  {
    if calls[k].url == u && calls[k].op.Failure? {
      ClosedIsFresh(calls, u, k);
      ReachableSlots(calls[..k], u);
      ReportKeepsTold(calls, u, k);
    } else {
      OtherKeepsTold(calls, u, k);
    }
  }

  lemma {:induction false} OpenSlotsAreTold(calls: seq<Call>, u: Url, j: nat)
    requires j <= |calls|
    ensures Told(calls, u, j)
    decreases j
  {
    if j > 0 {
      OpenSlotsAreTold(calls, u, j - 1);
      NextKeepsTold(calls, u, j - 1);
    }
  }

  /** When a question is answered with yes: the circuit is closed, or the last suspension's cooldown is over
      and the last delivery let through since was let through a probe timeout ago. */
  lemma AdmitsExactlyWhen(calls: seq<Call>, u: Url, k: nat)
    requires k < |calls| && calls[k].url == u && calls[k].op == Allows
    ensures Streak(calls, u, k) >= 25 ==> LastSuspension(calls, u, k).Some?
    ensures Admitted(calls, u, k) <==>
              || Streak(calls, u, k) < 25
              || (var l := LastSuspension(calls, u, k).value;
                  var p := LastAdmission(calls, u, l + 1, k);
                  && calls[k].now >= calls[l].now + Announced(calls, u, l)
                  && (p.Some? ==> calls[k].now >= calls[p.value].now + 600 * SECOND))
  {
    OpensAtThreshold(calls, u, k);
    OpenSlotsAreTold(calls, u, k);
  }

  /** When a failure report is answered with a suspension, and for how long: it is the 25th failure in a row,
      or a later one that comes while a delivery has been let through since the last suspension. The n-th
      suspension in a row lasts as long as the n-th rung says. */
  lemma SuspendsExactlyWhen(calls: seq<Call>, u: Url, k: nat)
    requires k < |calls| && calls[k].url == u && calls[k].op.Failure?
    ensures Streak(calls, u, k) >= 25 ==> LastSuspension(calls, u, k).Some?
    ensures Suspends(calls, u, k) <==>
              || Streak(calls, u, k) + 1 == 25
              || (Streak(calls, u, k) >= 25
                  && LastAdmission(calls, u, LastSuspension(calls, u, k).value + 1, k).Some?)
    ensures Suspends(calls, u, k) ==> Announced(calls, u, k) == Rung(Suspensions(calls, u, Start(calls, u, k), k))
  {
    OpensAtThreshold(calls, u, k);
    OpenSlotsAreTold(calls, u, k);
    ClosedIsFresh(calls, u, k);
    ReachableSlots(calls[..k], u);
    ReportAnswer(Before(calls, k, u), calls[k].op.error, calls[k].now);
  }

  // ---------------------------------------------------------------- what the status page shows

  datatype Snapshot = Snapshot(open: bool, failures: u32, retryInSecs: Option<nat>, lastError: Option<string>, skipped: u64)

  function SnapshotOf(slot: Slot, now: Instant): Snapshot {
    if slot.None? then Snapshot(false, 0, None, None, 0)
    else
      var c := slot.value;
      var waits := c.openedUntil.Some? && c.openedUntil.value >= now;
      Snapshot(waits, c.failures, if waits then Some((c.openedUntil.value - now) / SECOND) else None, c.lastError, c.skipped)
  }

  /** The last failure report for `u` among the calls i..j. */
  function LastFailure(calls: seq<Call>, u: Url, i: nat, j: nat): (f: Option<nat>)
    requires i <= j <= |calls|
    ensures f.Some? ==> i <= f.value < j && calls[f.value].url == u && calls[f.value].op.Failure?
    decreases j
  {
    if i == j then None
    else if calls[j - 1].url == u && calls[j - 1].op.Failure? then Some(j - 1)
    else LastFailure(calls, u, i, j - 1)
  }

  /** What is kept of an error. */
  function Kept(error: string): string { error[..Min(|error|, ERROR_CHARS)] }

  /** What is kept of the error it carried. */
  function LastError(calls: seq<Call>, u: Url, j: nat): Option<string>
    requires j <= |calls|
  {
    var f := LastFailure(calls, u, Start(calls, u, j), j);
    if f.None? then None
    else Some(Kept(calls[f.value].op.error))
  }

  /** Whether a failure of `u` was reported since the run started or its entry was removed. */
  predicate IsKnown(calls: seq<Call>, u: Url, j: nat)
    requires j <= |calls|
    decreases j
  {
    j > 0 && if calls[j - 1].url != u || !(calls[j - 1].op.Failure? || calls[j - 1].op.Remove?) then IsKnown(calls, u, j - 1)
             else calls[j - 1].op.Failure?
  }

  /** Skips noted for a known `u` since its entry was removed or an operator closed its circuit. */
  function Notes(calls: seq<Call>, u: Url, j: nat): nat
    requires j <= |calls|
    decreases j
  {
    if j == 0 || (Resets(calls, u, j - 1) && !calls[j - 1].op.Success?) then 0
    else Notes(calls, u, j - 1) + if calls[j - 1] == Call(u, NoteSkipped, calls[j - 1].now) && IsKnown(calls, u, j - 1) then 1 else 0
  }

  lemma LastErrorNext(calls: seq<Call>, u: Url, k: nat)
    requires k < |calls|
    ensures LastError(calls, u, k + 1)
         == if Resets(calls, u, k) then None
            else if calls[k].url == u && calls[k].op.Failure? then Some(Kept(calls[k].op.error))
            else LastError(calls, u, k)
  {
    if !Resets(calls, u, k) {
      assert Start(calls, u, k + 1) == Start(calls, u, k);
    }
  }

  /** What one call does to the error and the skip count of a slot that is open when `open` says so. */
  lemma StepRemembers(slot: Slot, op: Op, now: Instant, open: bool)
    requires IsOpen(slot) == open
    ensures var after := StepSlot(slot, op, now);
            && (after.Some? <==> (slot.Some? && !op.Remove?) || op.Failure?)
            && (after.Some? ==>
                  && after.value.lastError == (if op.Success? || (op.Reenable? && open) then None
                                               else if op.Failure? then Some(Kept(op.error)) else slot.value.lastError)
                  && after.value.skipped == (if slot.None? || (op.Reenable? && open) then 0
                                             else if op.NoteSkipped? && slot.value.skipped < U64_MAX then slot.value.skipped + 1
                                             else slot.value.skipped))
  {
  }

  lemma {:induction false} SlotRemembers(calls: seq<Call>, u: Url, j: nat)
    requires j <= |calls|
    ensures var slot := Before(calls, j, u);
            && (slot.Some? <==> IsKnown(calls, u, j))
            && (slot.Some? ==> slot.value.lastError == LastError(calls, u, j) && slot.value.skipped == Min(Notes(calls, u, j), U64_MAX))
            && (slot.None? ==> LastError(calls, u, j) == None && Notes(calls, u, j) == 0)
    decreases j
  {
    if j > 0 {
      SlotRemembers(calls, u, j - 1);
      LastErrorNext(calls, u, j - 1);
      OpensAtThreshold(calls, u, j - 1);
      BeforeNext(calls, j - 1, u);
      if calls[j - 1].url == u {
        StepRemembers(Before(calls, j - 1, u), calls[j - 1].op, calls[j - 1].now, IsOpen(Before(calls, j - 1, u)));
      }
    }
  }

  lemma OpenSnapshot(calls: seq<Call>, u: Url, slot: Slot, now: Instant)
    requires slot == Before(calls, |calls|, u)
    ensures IsOpen(slot) ==>
              var shown := SnapshotOf(slot, now);
              var l := LastSuspension(calls, u, |calls|);
              && l.Some?
              && var end := calls[l.value].now + Announced(calls, u, l.value);
                 (shown.open <==> now <= end) && (shown.open ==> shown.retryInSecs == Some((end - now) / SECOND))
  {
    OpenSlotsAreTold(calls, u, |calls|);
  }

  /** What the status page shows of a URL after any run. */
  lemma SnapshotTells(calls: seq<Call>, u: Url, now: Instant)
    ensures var n := |calls|;
            var shown := SnapshotOf(SlotOf(After(calls), u), now);
            && shown.failures == Min(Streak(calls, u, n), 25)
            && shown.lastError == LastError(calls, u, n)
            && shown.skipped == Min(Notes(calls, u, n), U64_MAX)
            && (Streak(calls, u, n) < 25 ==> !shown.open && shown.retryInSecs == None)
            && (Streak(calls, u, n) >= 25 ==>
                  var l := LastSuspension(calls, u, n);
                  && l.Some?
                  && var end := calls[l.value].now + Announced(calls, u, l.value);
                     && (shown.open <==> now <= end)
                     && (shown.open ==> shown.retryInSecs == Some((end - now) / SECOND)))
  {
    assert calls[..|calls|] == calls;
    OpensAtThreshold(calls, u, |calls|);
    OpenSnapshot(calls, u, SlotOf(After(calls), u), now);
    SlotRemembers(calls, u, |calls|);
  }
}
