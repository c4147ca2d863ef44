/**
  No URL is locked out for good: what an open circuit waits for is never more than an hour away.
*/
module Lockout {
  import opened Circuit

  /** The instants an open slot waits for were set by an earlier call of this run. */
  ghost predicate Accounted(calls: seq<Call>, u: Url, slot: Slot) {
    IsOpen(slot) ==>
      && (exists i :: 0 <= i < |calls| && calls[i].url == u && calls[i].op.Failure?
                   && slot.value.openedUntil.value <= calls[i].now + MAX_COOLDOWN)
      && (slot.value.probeStarted.Some? ==>
            exists i :: 0 <= i < |calls| && Admitted(calls, u, i) && slot.value.probeStarted.value == calls[i].now)
  }

  lemma StepAccounts(calls: seq<Call>, u: Url, k: nat)
    requires k < |calls| && calls[k].url == u
    requires SlotInv(Before(calls, k, u))
    ensures var was, now := Before(calls, k, u), Before(calls, k + 1, u);
            IsOpen(now) ==>
              && ((IsOpen(was) && now.value.openedUntil == was.value.openedUntil)
                  || (calls[k].op.Failure? && now.value.openedUntil.value <= calls[k].now + MAX_COOLDOWN))
              && (now.value.probeStarted.Some? ==>
                    || (IsOpen(was) && now.value.probeStarted == was.value.probeStarted)
                    || (Admitted(calls, u, k) && now.value.probeStarted.value == calls[k].now))
  {
    BeforeNext(calls, k, u);
    if IsOpen(Before(calls, k + 1, u)) {
      CooldownBounds(Before(calls, k + 1, u).value.trips);
    }
  }

  lemma AccountedLater(calls: seq<Call>, u: Url, k: nat, slot: Slot)
    requires k <= |calls|
    requires Accounted(calls[..k], u, slot)
    ensures Accounted(calls, u, slot)
  {
    var prefix := calls[..k];
    assert forall i :: 0 <= i < k ==> prefix[i] == calls[i] && prefix[..i] == calls[..i];
    if IsOpen(slot) {
      var i :| 0 <= i < |prefix| && prefix[i].url == u && prefix[i].op.Failure?
               && slot.value.openedUntil.value <= prefix[i].now + MAX_COOLDOWN;
      assert calls[i].op.Failure?;
      if slot.value.probeStarted.Some? {
        var j :| 0 <= j < |prefix| && Admitted(prefix, u, j) && slot.value.probeStarted.value == prefix[j].now;
        assert Admitted(calls, u, j);
      }
    }
  }

  lemma {:induction false} EverySlotAccounted(calls: seq<Call>, u: Url)
    ensures Accounted(calls, u, SlotOf(After(calls), u))
  {
    if calls != [] {
      var k := |calls| - 1;
      EverySlotAccounted(calls[..k], u);
      ReachableSlots(calls[..k], u);
      AccountedLater(calls, u, k, Before(calls, k, u));
      assert calls[..k + 1] == calls;
      if calls[k].url == u {
        StepAccounts(calls, u, k);
      } else {
        BeforeNext(calls, k, u);
      }
    }
  }

  /** An attempt made an hour after the last failure report, and PROBE_TIMEOUT after the last
      admitted attempt, is admitted, however many attempts were turned away in between: no URL is
      ever locked out for good. */
  lemma NeverLockedOut(calls: seq<Call>, u: Url, k: nat)
    requires k < |calls| && calls[k].url == u && calls[k].op == Allows
    requires forall i :: 0 <= i < k && calls[i].url == u && calls[i].op.Failure?
                     ==> calls[i].now + MAX_COOLDOWN <= calls[k].now
    requires forall i :: 0 <= i < k && Admitted(calls, u, i) ==> calls[i].now + PROBE_TIMEOUT <= calls[k].now
    ensures Admitted(calls, u, k)
  {
    var prefix := calls[..k];
    EverySlotAccounted(prefix, u);
    assert forall i :: 0 <= i < k ==> prefix[i] == calls[i] && prefix[..i] == calls[..i];
  }
}
