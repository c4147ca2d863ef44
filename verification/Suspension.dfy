/**
  While a circuit is open: how far apart the deliveries are that it lets through, and what a suspension
  costs.
*/
module Suspension {
  import opened Arithmetic
  import opened Circuit

  /** Nothing can be admitted on this open slot before `bound`. */
  ghost predicate ShutUntil(slot: Slot, bound: int) {
    IsOpen(slot) ==>
      || slot.value.openedUntil.value >= bound
      || (slot.value.probeStarted.Some? && slot.value.probeStarted.value + PROBE_TIMEOUT >= bound)
  }

  lemma StepKeepsShut(slot: Slot, op: Op, now: Instant, bound: int)
    requires ShutUntil(slot, bound) && IsOpen(slot)
    requires now + PROBE_TIMEOUT >= bound
    requires IsOpen(StepSlot(slot, op, now))
    ensures ShutUntil(StepSlot(slot, op, now), bound)
  {
    CooldownBounds(SaturatingInc(slot.value.trips));
  }

  lemma {:induction false} StaysShut(calls: seq<Call>, u: Url, i: nat, k: nat, lag: nat)
    requires i < k <= |calls|
    requires ClockLag(calls, lag)
    requires OpenThroughout(calls, u, i, k)
    requires Admitted(calls, u, i)
    ensures ShutUntil(Before(calls, k, u), calls[i].now + PROBE_TIMEOUT - lag)
  {
    BeforeNext(calls, k - 1, u);
    assert IsOpen(Before(calls, k - 1, u)) && IsOpen(Before(calls, k, u));
    if k > i + 1 {
      StaysShut(calls, u, i, k - 1, lag);
      if calls[k - 1].url == u {
        StepKeepsShut(Before(calls, k - 1, u), calls[k - 1].op, calls[k - 1].now, calls[i].now + PROBE_TIMEOUT - lag);
      }
    }
  }

  /** While a circuit stays open, any two deliveries let through are PROBE_TIMEOUT apart, whatever
      stragglers report in between and whether or not the first probe ever reports. */
  lemma ProbesAreSpaced(calls: seq<Call>, u: Url, i: nat, j: nat, lag: nat)
    requires i < j < |calls|
    requires ClockLag(calls, lag)
    requires OpenThroughout(calls, u, i, j)
    requires Admitted(calls, u, i) && Admitted(calls, u, j)
    ensures calls[j].now + lag >= calls[i].now + PROBE_TIMEOUT
  {
    StaysShut(calls, u, i, j, lag);
    assert IsOpen(Before(calls, j, u));
  }

  /** How many of the calls i..j were admitted deliveries to `u`. */
  function Admissions(calls: seq<Call>, u: Url, i: nat, j: nat): nat
    requires i <= j <= |calls|
    decreases j
  {
    if i == j then 0
    else Admissions(calls, u, i, j - 1) + if Admitted(calls, u, j - 1) then 1 else 0
  }

  lemma {:induction false} LastAdmission(calls: seq<Call>, u: Url, i: nat, j: nat) returns (l: nat)
    requires i <= j <= |calls|
    requires Admissions(calls, u, i, j) > 0
    ensures i <= l < j && Admitted(calls, u, l)
    ensures Admissions(calls, u, i, l) + 1 == Admissions(calls, u, i, j)
    decreases j
  {
    if Admitted(calls, u, j - 1) {
      l := j - 1;
    } else {
      l := LastAdmission(calls, u, i, j - 1);
    }
  }

  lemma {:induction false} AdmissionsAreSpaced(calls: seq<Call>, u: Url, i: nat, j: nat, lag: nat, gap: nat, start: nat, l: nat)
    requires i <= l < j <= |calls|
    requires gap + lag == PROBE_TIMEOUT
    requires ClockLag(calls, lag)
    requires OpenThroughout(calls, u, i, j)
    requires forall k :: i <= k < j && Admitted(calls, u, k) ==> start <= calls[k].now
    requires Admitted(calls, u, l)
    ensures start + Times(Admissions(calls, u, i, l), gap) <= calls[l].now
    decreases l
  {
    if Admissions(calls, u, i, l) > 0 {
      var p := LastAdmission(calls, u, i, l);
      AdmissionsAreSpaced(calls, u, i, j, lag, gap, start, p);
      ProbesAreSpaced(calls, u, p, l, lag);
    }
  }

  /** In `span` nanoseconds of suspension at most span/gap + 1 deliveries are admitted; without lag the gap
      is 600 s. */
  lemma SuspensionCost(calls: seq<Call>, u: Url, i: nat, j: nat, lag: nat, gap: nat, start: nat, span: nat)
    requires i <= j <= |calls|
    requires gap > 0 && gap + lag == PROBE_TIMEOUT
    requires ClockLag(calls, lag)
    requires OpenThroughout(calls, u, i, j)
    requires forall k :: i <= k < j && Admitted(calls, u, k) ==> start <= calls[k].now <= start + span
    ensures Admissions(calls, u, i, j) <= span / gap + 1
  {
    if Admissions(calls, u, i, j) > 0 {
      var l := LastAdmission(calls, u, i, j);
      AdmissionsAreSpaced(calls, u, i, j, lag, gap, start, l);
      FitsQuotient(Admissions(calls, u, i, l), span, gap);
    }
  }
}
