/**
  Whose probe is out: which admission of a run an open circuit is waiting for, and how old every other
  one is.
*/
module Probes {
  import opened Wrappers
  import opened Circuit

  /** The call that admitted the probe now out. */
  function CurrentProbe(calls: seq<Call>, u: Url): Option<nat> {
    if calls == [] then None
    else
      var k := |calls| - 1;
      var slot := SlotOf(After(calls), u);
      if slot.None? || slot.value.probeStarted.None? then None
      else if Admitted(calls, u, k) then Some(k)
      else CurrentProbe(calls[..k], u)
  }

  lemma {:induction false} CurrentProbeIsOut(calls: seq<Call>, u: Url)
    ensures var slot := SlotOf(After(calls), u);
            var probe := CurrentProbe(calls, u);
            && (probe.Some? <==> slot.Some? && slot.value.probeStarted.Some?)
            && (probe.Some? ==>
                  probe.value < |calls| && Admitted(calls, u, probe.value) && calls[probe.value].now == slot.value.probeStarted.value)
  {
    if calls != [] {
      var k := |calls| - 1;
      CurrentProbeIsOut(calls[..k], u);
      ReachableSlots(calls, u);
      BeforeNext(calls, k, u);
      assert calls[..k + 1] == calls;
      var probe := CurrentProbe(calls[..k], u);
      if probe.Some? {
        AdmittedInPrefix(calls, u, probe.value, k);
      }
    }
  }

  /** An admission at `t` was made at least a shortest cooldown before the end of the present one, or a
      probe timeout before the probe that is out. */
  predicate LongBefore(slot: Slot, t: Instant) {
    IsOpen(slot) ==>
      || t + 300 * SECOND <= slot.value.openedUntil.value
      || (slot.value.probeStarted.Some? && t + PROBE_TIMEOUT <= slot.value.probeStarted.value)
  }

  ghost predicate IsOld(calls: seq<Call>, u: Url, k: nat)
    requires k < |calls|
  {
    CurrentProbe(calls, u) == Some(k) || LongBefore(SlotOf(After(calls), u), calls[k].now)
  }

  lemma StepKeepsLongBefore(slot: Slot, op: Op, now: Instant, t: Instant)
    requires SlotInv(slot) && t <= now
    requires LongBefore(slot, t) || (IsOpen(slot) && slot.value.probeStarted == Some(t))
    ensures var after := StepSlot(slot, op, now);
            || LongBefore(after, t)
            || (after.Some? && after.value.probeStarted == Some(t) && !LongBefore(slot, t) && !(op.Allows? && AllowStep(slot, now).1))
  {
    if op.Failure? && IsOpen(StepSlot(slot, op, now)) {
      CooldownBounds(StepSlot(slot, op, now).value.trips);
    }
  }

  lemma OldStaysOld(calls: seq<Call>, u: Url, k: nat)
    requires ClockLag(calls, 0) && k + 1 < |calls| && Admitted(calls, u, k)
    requires IsOld(calls[..|calls| - 1], u, k)
    ensures IsOld(calls, u, k)
  {
    var n := |calls| - 1;
    var before := calls[..n];
    BeforeNext(calls, n, u);
    assert calls[..n + 1] == calls && before[k] == calls[k];
    CurrentProbeIsOut(before, u);
    ReachableSlots(before, u);
    assert calls[k].now <= calls[n].now;
    if calls[n].url == u {
      StepKeepsLongBefore(SlotOf(After(before), u), calls[n].op, calls[n].now, calls[k].now);
    }
  }

  lemma {:induction false} EveryAdmissionIsOld(calls: seq<Call>, u: Url, k: nat)
    requires ClockLag(calls, 0) && k < |calls| && Admitted(calls, u, k)
    ensures IsOld(calls, u, k)
  {
    var n := |calls| - 1;
    if k < n {
      AdmittedInPrefix(calls, u, k, n);
      EveryAdmissionIsOld(calls[..n], u, k);
      OldStaysOld(calls, u, k);
    } else {
      BeforeNext(calls, n, u);
      assert calls[..n + 1] == calls;
    }
  }

  /** A failure report that climbs the ladder, by a delivery admitted less than the shortest cooldown
      ago, is the report of the probe that is out. */
  lemma YoungReportIsProbes(calls: seq<Call>, u: Url, k: nat, now: Instant)
    requires ClockLag(calls, 0) && k < |calls| && Admitted(calls, u, k)
    requires forall i :: 0 <= i < |calls| ==> calls[i].now <= now
    requires IsProbing(SlotOf(After(calls), u))
    requires now < calls[k].now + 300 * SECOND
    ensures CurrentProbe(calls, u) == Some(k)
  {
    EveryAdmissionIsOld(calls, u, k);
    CurrentProbeIsOut(calls, u);
    ReachableSlots(calls, u);
  }
}
