/**
  The runs that show where the limits of ProbeTiming lie. One webhook answers every request at once with
  a 500: 25 deliveries started together open its circuit when they give up. Every target is asked for as
  soon as its broadcast has found it.
*/
module ProbeRuns {
  import opened Wrappers
  import opened Circuit
  import opened Probes
  import opened Retry
  import opened Webhooks
  import opened Deliveries
  import opened ProbeTiming

  const U: Url := "u"
  const S: string := "s"
  const HOOK := WebhookConfig(U, [EventFilter.All], true, None)
  const HOOKS := map["w" := HOOK]
  const PARCEL := Parcel(S, "event", U, None, "{}")
  const BROADCAST := Broadcast(S, "event", "{}", ["w"])
  const ERROR := "HTTP 500"
  const SHORT := 300 * SECOND

  /** How long a run takes whose attempts are all answered at once. */
  function Span(c: Config): nat { TotalSleep(MaxAttempts(c)) * SECOND }

  function Replies(c: Config): seq<Reply> { seq(MaxAttempts(c), _ => Status(500, "500", 0)) }

  function Result(c: Config): RunResult { Exhausted(MaxAttempts(c), Span(c), ERROR) }

  lemma {:induction false} ElapsedIsSleep(c: Config, n: usize)
    requires n <= MaxAttempts(c)
    ensures Elapsed(Replies(c), n) == TotalSleep(n) * SECOND
  {
    if n > 0 {
      ElapsedIsSleep(c, n - 1);
    }
  }

  lemma RunsToTheEnd(c: Config)
    ensures IsRun(c, Replies(c), Result(c)) && Result(c).Exhausted? && Result(c).elapsed == Span(c)
  {
    ElapsedIsSleep(c, MaxAttempts(c));
    assert ErrorText(Replies(c)[MaxAttempts(c) - 1]) == ERROR;
  }

  lemma SpanBounds(c: Config)
    ensures Span(c) <= LongestRun(MaxAttempts(c)) * SECOND
    ensures MaxAttempts(c) >= 6 ==> Span(c) >= 455 * SECOND
  {
    if MaxAttempts(c) >= 6 {
      ShortRuns();
      SleepGrows(6, MaxAttempts(c));
    }
  }

  // ---------------------------------------------------------------- up to the opening

  lemma OneTarget(s: State)
    requires s.webhooks == map[S := HOOKS]
    ensures Lists(["w"], HooksOf(s.webhooks, S))
    ensures Targets(Listed(["w"], HooksOf(s.webhooks, S)), "event") == [HOOK]
  {
    var listed := Listed(["w"], HooksOf(s.webhooks, S));
    assert listed == [HOOK];
    assert listed[..0] == [];
    assert Targets(listed[..0], "event") == [];
    assert HOOK.events[0] == EventFilter.All;
  }

  /** One webhook is registered, and the session has nothing waiting, in a replay's hands or dead-lettered. */
  ghost predicate Calm(s: State) {
    && s.webhooks == map[S := HOOKS]
    && DeskOf(s, S).waiting == [] && DeskOf(s, S).hands == [] && DeskOf(s, S).ring == NO_RING
  }

  lemma Registered(c: Config) returns (actions: seq<Action>, s: State)
    ensures s == Run(c, actions) && InTime(c, actions) && Calm(s) && s.calls == [] && s.flights == map[]
  {
    var register := Register(S, "w", HOOK);
    Extend(c, [], register);
    assert HooksOf(EMPTY.webhooks, S)["w" := HOOK] == HOOKS;
    actions := [] + [register];
    s := Next(c, EMPTY, register);
  }

  lemma BroadcastFindsOne(c: Config, s: State) returns (t: State)
    requires Calm(s)
    ensures t == Next(c, s, BROADCAST)
    ensures t.webhooks == s.webhooks && t.calls == s.calls && t.flights == s.flights
    ensures DeskOf(t, S).waiting == [PARCEL] && DeskOf(t, S).hands == [] && DeskOf(t, S).ring == NO_RING
  {
    OneTarget(s);
    assert ParcelsFor(S, "event", "{}", [HOOK]) == [PARCEL];
    t := Next(c, s, BROADCAST);
  }

  lemma AskStarts(c: Config, s: State, now: Instant) returns (t: State)
    requires s.webhooks == map[S := HOOKS] && IsAdmitted(s, U, now)
    requires DeskOf(s, S).waiting == [PARCEL] && DeskOf(s, S).hands == [] && DeskOf(s, S).ring == NO_RING
    ensures t == Next(c, s, Ask(S, 0, now)) && Calm(t)
    ensures t.calls == s.calls + [Call(U, Allows, now)]
    ensures t.flights == s.flights[|s.calls| := Flight(PARCEL, now, Trying)]
  {
    t := Next(c, s, Ask(S, 0, now));
    assert t == Asked(s, S, 0, now);
  }

  /** A broadcast and its question, which the circuit answers with yes. */
  lemma Round(c: Config, actions: seq<Action>, s: State, now: Instant) returns (after: seq<Action>, t: State)
    requires s == Run(c, actions) && InTime(c, actions) && Calm(s)
    requires IsAdmitted(s, U, now) && StepInTime(c, s, Ask(S, 0, now))
    ensures t == Run(c, after) && InTime(c, after) && Calm(t)
    ensures t.calls == s.calls + [Call(U, Allows, now)]
    ensures t.flights == s.flights[|s.calls| := Flight(PARCEL, now, Trying)]
  {
    Extend(c, actions, BROADCAST);
    var found := BroadcastFindsOne(c, s);
    Extend(c, actions + [BROADCAST], Ask(S, 0, now));
    t := AskStarts(c, found, now);
    after := actions + [BROADCAST] + [Ask(S, 0, now)];
  }

  // The circuit calls of the run: 25 offers at 0, the offer of a straggler just before the opening, and the
  // failure reports that open the circuit.

  function Offers(k: nat): seq<Call> { seq(k, _ => Call(U, Allows, 0)) }

  /** How many deliveries are started before the opening. */
  function Others(straggler: bool): nat { if straggler then 26 else 25 }

  function OffersAnd(straggler: bool, at: Instant): seq<Call> {
    if straggler then Offers(25) + [Call(U, Allows, at)] else Offers(25)
  }

  function Calls(straggler: bool, at: Instant, j: nat): seq<Call> {
    OffersAnd(straggler, at) + seq(j, _ => Call(U, Failure(ERROR), at))
  }

  lemma OneMoreCall(straggler: bool, at: Instant, j: nat)
    ensures Calls(straggler, at, 0) == OffersAnd(straggler, at)
    ensures Offers(j + 1) == Offers(j) + [Call(U, Allows, 0)]
    ensures Calls(straggler, at, j + 1) == Calls(straggler, at, j) + [Call(U, Failure(ERROR), at)]
  {
  }

  lemma CallGrows(calls: seq<Call>, c: Call)
    ensures After(calls + [c]) == Apply(After(calls), c)
  {
    assert (calls + [c])[..|calls|] == calls;
  }

  lemma {:induction false} OffersLeaveNoTrace(k: nat)
    ensures |Offers(k)| == k && After(Offers(k)) == map[]
    ensures forall i :: 0 <= i < k ==> Offers(k)[i].now == 0
  {
    if k > 0 {
      OffersLeaveNoTrace(k - 1);
      OneMoreCall(false, 0, k - 1);
      CallGrows(Offers(k - 1), Call(U, Allows, 0));
    }
  }

  lemma StragglerLeavesNoTrace(straggler: bool, at: Instant)
    ensures After(OffersAnd(straggler, at)) == map[]
    ensures |OffersAnd(straggler, at)| == Others(straggler)
    ensures forall i :: 0 <= i < |OffersAnd(straggler, at)| ==> OffersAnd(straggler, at)[i].now <= at
  {
    OffersLeaveNoTrace(25);
    CallGrows(Offers(25), Call(U, Allows, at));
  }

  /** After `j` of the reports: closed with `j` failures, or open at the 25th. */
  ghost predicate Failed(slot: Slot, j: nat, at: Instant) {
    if j == 0 then slot.None?
    else
      && slot.Some? && slot.value.failures == j && slot.value.trips == 0 && slot.value.probeStarted.None?
      && slot.value.openedUntil == if j < 25 then None else Some(at + SHORT)
  }

  lemma FailureCounts(slot: Slot, j: nat, at: Instant)
    requires j < 25 && Failed(slot, j, at)
    ensures Failed(StepSlot(slot, Failure(ERROR), at), j + 1, at)
  {
    assert Shl(300, 0) == 300;
  }

  lemma {:induction false} ReportsOpen(straggler: bool, at: Instant, j: nat)
    requires j <= 25
    ensures Failed(SlotOf(After(Calls(straggler, at, j)), U), j, at)
    ensures |Calls(straggler, at, j)| == j + Others(straggler)
    ensures forall i :: 0 <= i < |Calls(straggler, at, j)| ==> Calls(straggler, at, j)[i].now <= at
  {
    if j == 0 {
      StragglerLeavesNoTrace(straggler, at);
      OneMoreCall(straggler, at, 0);
    } else {
      ReportsOpen(straggler, at, j - 1);
      OneMoreCall(straggler, at, j - 1);
      CallGrows(Calls(straggler, at, j - 1), Call(U, Failure(ERROR), at));
      FailureCounts(SlotOf(After(Calls(straggler, at, j - 1)), U), j - 1, at);
    }
  }

  // The machine's run.

  /** `n` deliveries started, the first 25 at 0; the first `j` of them have reported. */
  ghost predicate Flying(s: State, n: nat, at: Instant, j: nat) {
    && Calm(s)
    && (forall id: nat :: id in s.flights <==> id < n)
    && (forall id :: id in s.flights ==>
          s.flights[id] == Flight(PARCEL, if id < 25 then 0 else at, if id < j then ToLetter(ERROR) else Trying))
  }

  lemma FirstOffersInTime(c: Config, s: State, k: nat, at: Instant)
    requires Flying(s, k, at, 0) && k <= 25 && s.calls == Offers(k)
    ensures |s.calls| == k && IsAdmitted(s, U, 0) && StepInTime(c, s, Ask(S, 0, 0))
  {
    OffersLeaveNoTrace(k);
  }

  lemma {:induction false} FirstRounds(c: Config, k: nat, at: Instant) returns (actions: seq<Action>, s: State)
    requires k <= 25
    ensures s == Run(c, actions) && InTime(c, actions) && Flying(s, k, at, 0) && s.calls == Offers(k)
  {
    if k == 0 {
      actions, s := Registered(c);
      assert Offers(k) == [];
    } else {
      var before, s0 := FirstRounds(c, k - 1, at);
      FirstOffersInTime(c, s0, k - 1, at);
      OneMoreCall(false, 0, k - 1);
      actions, s := Round(c, before, s0, 0);
    }
  }

  lemma Rounds(c: Config, straggler: bool, at: Instant) returns (actions: seq<Action>, s: State)
    requires at <= LongestRun(MaxAttempts(c)) * SECOND
    ensures s == Run(c, actions) && InTime(c, actions)
    ensures Flying(s, Others(straggler), at, 0) && s.calls == OffersAnd(straggler, at)
  {
    actions, s := FirstRounds(c, 25, at);
    OffersLeaveNoTrace(25);
    if straggler {
      actions, s := Round(c, actions, s, at);
    }
  }

  function Report(c: Config, id: nat, now: Instant): Action { Fail(id, Replies(c), Result(c), now) }

  lemma ReportLands(c: Config, s: State, n: nat, j: nat) returns (t: State)
    requires Flying(s, n, Span(c), j) && j < 25 <= n
    ensures t == Next(c, s, Report(c, j, Span(c)))
    ensures Flying(t, n, Span(c), j + 1) && t.calls == s.calls + [Call(U, Failure(ERROR), Span(c))]
  {
    RunsToTheEnd(c);
    assert CanReport(c, s, j, Replies(c), Result(c), Span(c));
    t := Next(c, s, Report(c, j, Span(c)));
  }

  lemma ReportsInTime(c: Config, s: State, straggler: bool, n: nat, j: nat)
    requires Flying(s, n, Span(c), j) && j <= 25 && s.calls == Calls(straggler, Span(c), j)
    ensures StepInTime(c, s, Report(c, j, Span(c)))
  {
    SpanBounds(c);
    ReportsOpen(straggler, Span(c), j);
  }

  /** The run in which the first `j` deliveries have reported. */
  lemma {:induction false} Reported(c: Config, straggler: bool, j: nat) returns (actions: seq<Action>, s: State)
    requires j <= 25
    ensures s == Run(c, actions) && InTime(c, actions)
    ensures Flying(s, Others(straggler), Span(c), j) && s.calls == Calls(straggler, Span(c), j)
  {
    if j == 0 {
      SpanBounds(c);
      actions, s := Rounds(c, straggler, Span(c));
      OneMoreCall(straggler, Span(c), 0);
    } else {
      var before, s0 := Reported(c, straggler, j - 1);
      var report := Report(c, j - 1, Span(c));
      ReportsInTime(c, s0, straggler, Others(straggler), j - 1);
      Extend(c, before, report);
      OneMoreCall(straggler, Span(c), j - 1);
      s := ReportLands(c, s0, Others(straggler), j - 1);
      actions := before + [report];
    }
  }

  // ---------------------------------------------------------------- after the opening

  /** The circuit has opened; a probe is let through when the cooldown ends. */
  lemma FirstProbe(calls: seq<Call>, at: Instant)
    requires Failed(SlotOf(After(calls), U), 25, at)
    ensures var c := Call(U, Allows, at + SHORT);
            && AllowStep(SlotOf(After(calls), U), at + SHORT).1
            && IsOpen(SlotOf(After(calls), U))
            && var slot := SlotOf(After(calls + [c]), U);
            && IsOpen(slot) && slot.value.openedUntil == Some(at + SHORT) && slot.value.probeStarted == Some(at + SHORT)
  {
    CallGrows(calls, Call(U, Allows, at + SHORT));
  }

  /** The flights once the first probe is out: it is named after the last call, the straggler, if there is
      one, is still trying, and the others have reported. */
  ghost predicate Probing(s: State, n: nat, at: Instant) {
    && Calm(s)
    && (forall id: nat :: id in s.flights <==> id < n || id == n + 25)
    && (forall id :: id in s.flights ==>
          s.flights[id] == Flight(PARCEL, if id < 25 then 0 else if id < n then at else at + SHORT,
                                  if id < 25 then ToLetter(ERROR) else Trying))
  }

  lemma CanProbe(c: Config, straggler: bool, s: State)
    requires MaxAttempts(c) >= 6 && Flying(s, Others(straggler), Span(c), 25) && s.calls == Calls(straggler, Span(c), 25)
    ensures |s.calls| == Others(straggler) + 25 && IsAdmitted(s, U, Span(c) + SHORT)
    ensures StepInTime(c, s, Ask(S, 0, Span(c) + SHORT))
  {
    SpanBounds(c);
    ReportsOpen(straggler, Span(c), 25);
    FirstProbe(s.calls, Span(c));
  }

  /** The run up to the first probe. */
  lemma WithProbe(c: Config, straggler: bool) returns (actions: seq<Action>, s: State)
    requires MaxAttempts(c) >= 6
    ensures s == Run(c, actions) && InTime(c, actions) && Probing(s, Others(straggler), Span(c))
    ensures s.calls == Calls(straggler, Span(c), 25) + [Call(U, Allows, Span(c) + SHORT)]
  {
    var before, s0 := Reported(c, straggler, 25);
    CanProbe(c, straggler, s0);
    actions, s := Round(c, before, s0, Span(c) + SHORT);
  }

  /** With six attempts a delivery admitted just before the opening reports while the first probe is out,
      and its report climbs the ladder. */
  lemma StragglerClimbs(c: Config)
    requires MaxAttempts(c) >= 6
    ensures !LadderIsProbesOwn(c)
  {
    var actions, s := WithProbe(c, true);
    var calls := Calls(true, Span(c), 25);
    var late := 2 * Span(c);
    var report := Report(c, 25, late);
    SpanBounds(c);
    RunsToTheEnd(c);
    ReportsOpen(true, Span(c), 25);
    FirstProbe(calls, Span(c));
    assert s.flights[25] == Flight(PARCEL, Span(c), Trying);
    assert Enabled(c, s, report) by {
      assert CanReport(c, s, 25, Replies(c), Result(c), late);
    }
    assert StepInTime(c, s, report);
    Extend(c, actions, report);
    assert WouldClimb(s, 25);
    LastCallIsProbe(calls, Span(c));
    assert CurrentProbe(s.calls, U) == Some(51);
  }

  lemma LastCallIsProbe(calls: seq<Call>, at: Instant)
    requires Failed(SlotOf(After(calls), U), 25, at)
    ensures CurrentProbe(calls + [Call(U, Allows, at + SHORT)], U) == Some(|calls|)
  {
    FirstProbe(calls, at);
    assert (calls + [Call(U, Allows, at + SHORT)])[..|calls|] == calls;
  }

  lemma SecondProbe(calls: seq<Call>, at: Instant)
    requires Failed(SlotOf(After(calls), U), 25, at)
    ensures var c := Call(U, Allows, at + SHORT);
            AllowStep(SlotOf(After(calls + [c]), U), at + SHORT + PROBE_TIMEOUT).1
  {
    FirstProbe(calls, at);
  }

  lemma SecondInTime(c: Config, s: State)
    requires MaxAttempts(c) >= 7 && Probing(s, 25, Span(c))
    requires s.calls == Calls(false, Span(c), 25) + [Call(U, Allows, Span(c) + SHORT)]
    ensures StepInTime(c, s, Ask(S, 0, Span(c) + SHORT + PROBE_TIMEOUT))
  {
    RunOutlivesProbe(MaxAttempts(c));
    ReportsOpen(false, Span(c), 25);
  }

  /** The first probe is still trying when the second one is let through. */
  lemma BothFly(calls: seq<Call>, t: State, at: Instant)
    requires Failed(SlotOf(After(calls), U), 25, at) && |calls| == 50
    requires 51 <= |t.calls| && t.calls[..51] == calls + [Call(U, Allows, at + SHORT)]
    requires 50 in t.flights && 51 in t.flights
    requires t.flights[50].parcel == PARCEL == t.flights[51].parcel && t.flights[50].stage.Trying? && t.flights[51].stage.Trying?
    ensures ProbesOverlap(t, 50, 51)
  {
    OpenForBoth(calls, t.calls, at);
  }

  lemma OpenForBoth(calls: seq<Call>, all: seq<Call>, at: Instant)
    requires Failed(SlotOf(After(calls), U), 25, at) && |calls| == 50
    requires |all| >= 51 && all[..51] == calls + [Call(U, Allows, at + SHORT)]
    ensures OpenThroughout(all, U, 50, 51)
  {
    FirstProbe(calls, at);
    assert all[..50] == all[..51][..50];
    assert all[..51][..50] == calls;
    forall k | 50 <= k <= 51 ensures IsOpen(Before(all, k, U)) {
      assert k == 50 || k == 51;
    }
  }

  lemma CanProbeAgain(c: Config, s: State)
    requires MaxAttempts(c) >= 7 && Probing(s, 25, Span(c))
    requires s.calls == Calls(false, Span(c), 25) + [Call(U, Allows, Span(c) + SHORT)]
    ensures var now := Span(c) + SHORT + PROBE_TIMEOUT;
            |s.calls| == 51 && IsAdmitted(s, U, now) && StepInTime(c, s, Ask(S, 0, now))
  {
    ReportsOpen(false, Span(c), 25);
    SecondProbe(Calls(false, Span(c), 25), Span(c));
    SecondInTime(c, s);
  }

  /** The run up to the second probe. */
  lemma WithSecond(c: Config) returns (actions: seq<Action>, t: State)
    requires MaxAttempts(c) >= 7
    ensures InTime(c, actions) && t == Run(c, actions)
    ensures 51 <= |t.calls| && t.calls[..51] == Calls(false, Span(c), 25) + [Call(U, Allows, Span(c) + SHORT)]
    ensures 50 in t.flights && t.flights[50] == Flight(PARCEL, Span(c) + SHORT, Trying)
    ensures 51 in t.flights && t.flights[51] == Flight(PARCEL, Span(c) + SHORT + PROBE_TIMEOUT, Trying)
  {
    var before, s := WithProbe(c, false);
    var now := Span(c) + SHORT + PROBE_TIMEOUT;
    CanProbeAgain(c, s);
    actions, t := Round(c, before, s, now);
    assert t.calls[..51] == s.calls;
  }

  /** With seven attempts a probe can still be trying when it is given up and the next one goes out. */
  lemma TwoProbesOut(c: Config) returns (actions: seq<Action>)
    requires MaxAttempts(c) >= 7
    ensures InTime(c, actions) && ProbesOverlap(Run(c, actions), 50, 51)
  {
    var t;
    actions, t := WithSecond(c);
    ReportsOpen(false, Span(c), 25);
    BothFly(Calls(false, Span(c), 25), t, Span(c));
  }

  // ---------------------------------------------------------------- the limits

  /** In runs that report in time, two probes of one suspension are never in flight together exactly when
      deliveries make at most six attempts. */
  lemma OverlapLimit(c: Config)
    ensures ProbesNeverOverlap(c) <==> MaxAttempts(c) <= 6
  {
    if MaxAttempts(c) <= 6 {
      forall actions: seq<Action>, a: nat, b: nat | InTime(c, actions)
        ensures !ProbesOverlap(Run(c, actions), a, b)
      {
        NoOverlap(c, actions, a, b);
      }
    } else {
      var actions := TwoProbesOut(c);
    }
  }

  /** In runs that report in time, only a probe's own failure climbs the cooldown ladder exactly when
      deliveries make at most five attempts; with six, a straggler's can. */
  lemma LadderLimit(c: Config)
    ensures LadderIsProbesOwn(c) <==> MaxAttempts(c) <= 5
  {
    if MaxAttempts(c) <= 5 {
      forall actions: seq<Action>, id: nat, replies: seq<Reply>, result: RunResult, now: Instant |
        InTime(c, actions + [Fail(id, replies, result, now)])
        && Enabled(c, Run(c, actions), Fail(id, replies, result, now)) && WouldClimb(Run(c, actions), id)
        ensures CurrentProbe(Run(c, actions).calls, Run(c, actions).flights[id].parcel.url) == Some(id)
      {
        ClimbIsOwn(c, actions, Fail(id, replies, result, now));
      }
    } else {
      StragglerClimbs(c);
    }
  }
}
