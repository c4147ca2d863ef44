/**
  When a circuit opens, and how it climbs the cooldown ladder.
*/
module Ladder {
  import opened Wrappers
  import opened Circuit

  /** Failure reports for `u` among the calls i..j. */
  function Failures(calls: seq<Call>, u: Url, i: nat, j: nat): nat
    requires i <= j <= |calls|
    decreases j
  {
    if i == j then 0
    else Failures(calls, u, i, j - 1) + if calls[j - 1].url == u && calls[j - 1].op.Failure? then 1 else 0
  }

  /** Call `k` starts the count for `u` anew: a success, a removal, or an operator's call that comes after
      at least 25 failures in a row. */
  predicate Resets(calls: seq<Call>, u: Url, k: nat)
    requires k < |calls|
    decreases k, 1
  {
    && calls[k].url == u
    && (|| calls[k].op.Success? || calls[k].op.Remove?
        || (calls[k].op.Reenable? && Failures(calls, u, Start(calls, u, k), k) >= 25))
  }

  /** Where the count for `u` before call `j` starts: after the last reset, or with the run. */
  function Start(calls: seq<Call>, u: Url, j: nat): (i: nat)
    requires j <= |calls|
    ensures i <= j
    decreases j, 0
  {
    if j == 0 then 0 else if Resets(calls, u, j - 1) then j else Start(calls, u, j - 1)
  }

  /** The failures in a row before call `j`, counted over the calls alone. */
  function Streak(calls: seq<Call>, u: Url, j: nat): nat
    requires j <= |calls|
  {
    Failures(calls, u, Start(calls, u, j), j)
  }

  lemma StreakNext(calls: seq<Call>, u: Url, k: nat)
    requires k < |calls|
    ensures Streak(calls, u, k + 1)
         == if Resets(calls, u, k) then 0
            else if calls[k].url == u && calls[k].op.Failure? then Streak(calls, u, k) + 1
            else Streak(calls, u, k)
  {
    if !Resets(calls, u, k) {
      assert Start(calls, u, k + 1) == Start(calls, u, k);
    }
  }

  lemma StepCountsFailures(slot: Slot, op: Op, now: Instant, n: nat)
    requires SlotInv(slot)
    requires if slot.None? then n == 0 else slot.value.failures == Min(n, OPEN_THRESHOLD)
    ensures var reset := op.Success? || op.Remove? || (op.Reenable? && n >= OPEN_THRESHOLD);
            var counted := if reset then 0 else if op.Failure? then n + 1 else n;
            var after := StepSlot(slot, op, now);
            if after.None? then counted == 0 else after.value.failures == Min(counted, OPEN_THRESHOLD)
  {
  }

  /** In every run a circuit is open exactly when at least 25 failures in a row were reported, and its
      counter is their number, up to 25; a URL without an entry has none. */
  lemma {:induction false} OpensAtThreshold(calls: seq<Call>, u: Url, j: nat)
    requires j <= |calls|
    ensures IsOpen(Before(calls, j, u)) <==> Streak(calls, u, j) >= 25
    ensures Before(calls, j, u).Some? ==> Before(calls, j, u).value.failures == Min(Streak(calls, u, j), 25)
    ensures Before(calls, j, u).None? ==> Streak(calls, u, j) == 0
    decreases j
  {
    ReachableSlots(calls[..j], u);
    if j > 0 {
      var k := j - 1;
      OpensAtThreshold(calls, u, k);
      StreakNext(calls, u, k);
      ReachableSlots(calls[..k], u);
      BeforeNext(calls, k, u);
      if calls[k].url == u {
        StepCountsFailures(Before(calls, k, u), calls[k].op, calls[k].now, Streak(calls, u, k));
      }
    }
  }

  /** Failure reports for `u` among the calls i..j that found a probe out, whoever made them. */
  function ReportsOnProbes(calls: seq<Call>, u: Url, i: nat, j: nat): nat
    requires i <= j <= |calls|
    decreases j
  {
    if i == j then 0
    else
      ReportsOnProbes(calls, u, i, j - 1)
      + if calls[j - 1].url == u && FindsProbeOut(Before(calls, j - 1, u), calls[j - 1].op) then 1 else 0
  }

  predicate FindsProbeOut(slot: Slot, op: Op) { op.Failure? && IsProbing(slot) }

  lemma StepClimbs(slot: Slot, op: Op, now: Instant)
    requires IsOpen(slot) && IsOpen(StepSlot(slot, op, now))
    ensures StepSlot(slot, op, now).value.trips
         == if FindsProbeOut(slot, op) then SaturatingInc(slot.value.trips) else slot.value.trips
  {
  }

  /** The position on the cooldown ladder is the number of failure reports of this suspension that found a
      probe out; whose reports those can be is settled in ProbeTiming.dfy. */
  lemma {:induction false} LadderCountsReportsOnProbes(calls: seq<Call>, u: Url, i: nat, j: nat)
    requires i <= j <= |calls|
    requires OpenThroughout(calls, u, i, j)
    requires Before(calls, i, u).value.trips == 0
    ensures IsOpen(Before(calls, j, u))
    ensures Before(calls, j, u).value.trips == Min(ReportsOnProbes(calls, u, i, j), U32_MAX)
    decreases j
  {
    assert IsOpen(Before(calls, j, u));
    if j > i {
      LadderCountsReportsOnProbes(calls, u, i, j - 1);
      BeforeNext(calls, j - 1, u);
      if calls[j - 1].url == u {
        StepClimbs(Before(calls, j - 1, u), calls[j - 1].op, calls[j - 1].now);
      }
    }
  }
}
