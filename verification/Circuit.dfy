/**
  The per-URL webhook circuit breaker of `src/state.rs`.

  Each DashMap-guarded method of the source is one atomic step. The pure functions below say
  what one step does to one URL's slot; the `AppState` class in Webhooks.dfy performs the steps
  in place and is proved equal to them; the lemmas here are about whole runs of steps.
*/
module Circuit {
  import opened Wrappers

  type Url = string

  /** A reading of the monotonic clock, in nanoseconds. */
  type Instant = nat

  type u32 = n: nat | n < 0x1_0000_0000
  type u64 = n: nat | n < 0x1_0000_0000_0000_0000

  const U32_MAX: u32 := 0xFFFF_FFFF
  const U64_MAX: u64 := 0xFFFF_FFFF_FFFF_FFFF
  const SECOND: nat := 1_000_000_000
  const OPEN_THRESHOLD: u32 := 25
  const PROBE_TIMEOUT: nat := 600 * SECOND
  const MAX_COOLDOWN: nat := 3600 * SECOND
  const ERROR_CHARS: nat := 200

  datatype CircuitState = CircuitState(
    failures: u32,
    openedUntil: Option<Instant>,
    lastEvent: Instant,
    trips: u32,
    lastError: Option<string>,
    skipped: u64,
    probeStarted: Option<Instant>)

  /** A URL's entry in the circuit table: absent until its first failure. */
  type Slot = Option<CircuitState>

  datatype FailureAction = Noop | Suspended(cooldown: nat)

  function Default(now: Instant): CircuitState {
    CircuitState(0, None, now, 0, None, 0, None)
  }

  function Shl(x: nat, k: nat): nat {
    if k == 0 then x else 2 * Shl(x, k - 1)
  }

  /** `webhook_cooldown`: 300 s shifted left by at most 4, capped at an hour. */
  function Cooldown(trips: u32): nat {
    Min(Shl(300, Min(trips, 4)), 3600) * SECOND
  }

  // ---------------------------------------------------------------- steps on one URL's slot

  function AllowStep(slot: Slot, now: Instant): (Slot, bool) {
    if slot.None? || slot.value.openedUntil.None? then (slot, true)
    else if now < slot.value.openedUntil.value then (slot, false)
    else if slot.value.probeStarted.Some? && now - slot.value.probeStarted.value < PROBE_TIMEOUT then (slot, false)
    else (Some(slot.value.(probeStarted := Some(now))), true)
  }

  function SuccessStep(slot: Slot, now: Instant): (Slot, bool) {
    if slot.None? then (slot, false)
    else
      (Some(slot.value.(failures := 0, openedUntil := None, trips := 0, lastError := None,
                        probeStarted := None, lastEvent := now)),
       slot.value.openedUntil.Some?)
  }

  function SaturatingInc(n: u32): u32 { if n == U32_MAX then n else n + 1 }

  function FailureStep(slot: Slot, error: string, now: Instant): (Slot, FailureAction) {
    var c := (if slot.None? then Default(now) else slot.value)
             .(lastEvent := now, lastError := Some(error[..Min(|error|, ERROR_CHARS)]));
    if c.openedUntil.Some? then
      if c.probeStarted.None? then (Some(c), Noop)
      else
        var trips := SaturatingInc(c.trips);
        (Some(c.(probeStarted := None, trips := trips, openedUntil := Some(now + Cooldown(trips)))),
         Suspended(Cooldown(trips)))
    else
      var failures := SaturatingInc(c.failures);
      if failures < OPEN_THRESHOLD then (Some(c.(failures := failures)), Noop)
      else
        (Some(c.(failures := failures, openedUntil := Some(now + Cooldown(c.trips)))),
         Suspended(Cooldown(c.trips)))
  }

  function SkipStep(slot: Slot): Slot {
    if slot.None? || slot.value.skipped == U64_MAX then slot
    else Some(slot.value.(skipped := slot.value.skipped + 1))
  }

  function ReenableStep(slot: Slot, now: Instant): Slot {
    if slot.None? || slot.value.openedUntil.None? then slot
    else Some(CircuitState(0, None, now, 0, None, 0, None))
  }

  // ---------------------------------------------------------------- runs of the whole table

  type Table = map<Url, CircuitState>

  datatype Op = Allows | Success | Failure(error: string) | NoteSkipped | Reenable | Remove

  /** One atomic step: `now` is the clock reading the caller took before it got the entry's lock. */
  datatype Call = Call(url: Url, op: Op, now: Instant)

  function SlotOf(t: Table, u: Url): Slot {
    if u in t then Some(t[u]) else None
  }

  function WithSlot(t: Table, u: Url, slot: Slot): Table {
    if slot.None? then t - {u} else t[u := slot.value]
  }

  function StepSlot(slot: Slot, op: Op, now: Instant): Slot {
    match op
    case Allows => AllowStep(slot, now).0
    case Success => SuccessStep(slot, now).0
    case Failure(error) => FailureStep(slot, error, now).0
    case NoteSkipped => SkipStep(slot)
    case Reenable => ReenableStep(slot, now)
    case Remove => None
  }

  function Apply(t: Table, c: Call): Table {
    WithSlot(t, c.url, StepSlot(SlotOf(t, c.url), c.op, c.now))
  }

  /** The table after a run that starts with an empty one. */
  function After(calls: seq<Call>): Table {
    if calls == [] then map[]
    else Apply(After(calls[..|calls| - 1]), calls[|calls| - 1])
  }

  /** The slot of `u` just before call `k` of the run. */
  function Before(calls: seq<Call>, k: nat, u: Url): Slot
    requires k <= |calls|
  {
    SlotOf(After(calls[..k]), u)
  }

  predicate IsOpen(slot: Slot) { slot.Some? && slot.value.openedUntil.Some? }

  predicate IsProbing(slot: Slot) { IsOpen(slot) && slot.value.probeStarted.Some? }

  /** Call `k` asked whether `u` may be attempted, and the answer was yes. */
  predicate Admitted(calls: seq<Call>, u: Url, k: nat)
    requires k < |calls|
  {
    && calls[k].url == u
    && calls[k].op == Allows
    && AllowStep(Before(calls, k, u), calls[k].now).1
  }

  /** The circuit of `u` is open in every state from the one before call `i` to the one before call `j`. */
  ghost predicate OpenThroughout(calls: seq<Call>, u: Url, i: nat, j: nat)
    requires i <= j <= |calls|
  {
    forall k :: i <= k <= j ==> IsOpen(Before(calls, k, u))
  }

  /** A clock reading is taken before the lock, so it may be older than an earlier step's by at most `lag`. */
  ghost predicate ClockLag(calls: seq<Call>, lag: nat) {
    forall i, j :: 0 <= i < j < |calls| ==> calls[i].now <= calls[j].now + lag
  }

  lemma BeforeNext(calls: seq<Call>, k: nat, u: Url)
    requires k < |calls|
    ensures Before(calls, k + 1, u)
         == if calls[k].url == u then StepSlot(Before(calls, k, u), calls[k].op, calls[k].now)
            else Before(calls, k, u)
  {
    var prefix := calls[..k + 1];
    assert prefix[..|prefix| - 1] == calls[..k];
  }

  lemma AdmittedInPrefix(calls: seq<Call>, u: Url, k: nat, n: nat)
    requires k < n && n <= |calls|
    ensures Admitted(calls[..n], u, k) == Admitted(calls, u, k)
  {
    assert calls[..n][..k] == calls[..k];
  }

  lemma CooldownBounds(trips: u32)
    ensures 300 * SECOND <= Cooldown(trips) <= MAX_COOLDOWN
    ensures trips >= 1 ==> Cooldown(trips) >= PROBE_TIMEOUT
  {
  }

  // ---------------------------------------------------------------- what every reachable slot satisfies

  ghost predicate SlotInv(slot: Slot) {
    slot.Some? ==>
      var c := slot.value;
      && c.failures <= OPEN_THRESHOLD
      && (c.openedUntil.Some? <==> c.failures == OPEN_THRESHOLD)
      && (c.openedUntil.None? ==> c.trips == 0 && c.probeStarted.None?)
      && (c.openedUntil.Some? && c.probeStarted.Some? ==> c.probeStarted.value >= c.openedUntil.value)
  }

  lemma StepKeepsInv(slot: Slot, op: Op, now: Instant)
    requires SlotInv(slot)
    ensures SlotInv(StepSlot(slot, op, now))
  {
  }

  /** Whatever the clock readings are: open exactly at 25 failures, closed means a reset ladder and no
      probe, and a probe never predates the end of the cooldown it follows. */
  lemma {:induction false} ReachableSlots(calls: seq<Call>, u: Url)
    ensures SlotInv(SlotOf(After(calls), u))
  {
    if calls != [] {
      var k := |calls| - 1;
      ReachableSlots(calls[..k], u);
      BeforeNext(calls, k, u);
      assert calls[..k + 1] == calls;
      if calls[k].url == u {
        StepKeepsInv(Before(calls, k, u), calls[k].op, calls[k].now);
      }
    }
  }
}
