/**
  Probes and stragglers: which deliveries can be in flight together, and whose failure reports climb the
  cooldown ladder, when runs report as soon as they end.
*/
module ProbeTiming {
  import opened Wrappers
  import opened Circuit
  import opened Suspension
  import opened Probes
  import opened Retry
  import opened Webhooks
  import opened Deliveries

  // ---------------------------------------------------------------- runs that report in time

  /** The clock reading an action carries. */
  function ClockOf(a: Action): Option<Instant> {
    match a
    case SetEnabled(_, _, _, now) => Some(now)
    case Reenable(_, now) => Some(now)
    case Ask(_, _, now) => Some(now)
    case Note(_, now) => Some(now)
    case Succeed(_, _, _, now) => Some(now)
    case Fail(_, _, _, now) => Some(now)
    case AskReplay(_, _, now) => Some(now)
    case _ => None
  }

  /** No delivery still in its attempt loop has been at it for longer than a run can take. */
  ghost predicate OnTime(c: Config, s: State, now: Instant) {
    forall id :: id in s.flights && s.flights[id].stage.Trying? ==>
      now <= s.flights[id].start + LongestRun(MaxAttempts(c)) * SECOND
  }

  /** The clock does not step back, and finds every delivery on time. */
  ghost predicate StepInTime(c: Config, s: State, a: Action) {
    ClockOf(a).Some? ==>
      && (forall i :: 0 <= i < |s.calls| ==> s.calls[i].now <= ClockOf(a).value)
      && OnTime(c, s, ClockOf(a).value)
  }

  ghost predicate InTime(c: Config, actions: seq<Action>) {
    actions != [] ==>
      var init := actions[..|actions| - 1];
      InTime(c, init) && StepInTime(c, Run(c, init), actions[|actions| - 1])
  }

  lemma Extend(c: Config, actions: seq<Action>, a: Action)
    ensures Run(c, actions + [a]) == Next(c, Run(c, actions), a)
    ensures InTime(c, actions + [a]) <==> InTime(c, actions) && StepInTime(c, Run(c, actions), a)
  {
    assert (actions + [a])[..|actions|] == actions;
  }

  /** An action makes at most one circuit call, with the clock reading it carries. */
  lemma NextCalls(c: Config, s: State, a: Action)
    ensures var calls := Next(c, s, a).calls;
            || calls == s.calls
            || (ClockOf(a).Some? && |calls| == |s.calls| + 1 && calls[..|s.calls|] == s.calls
                && calls[|s.calls|].now == ClockOf(a).value)
  {
  }

  /** In time, calls are in the order of their clock readings, and none was made after a delivery still in
      its attempt loop was due. */
  ghost predicate Timely(c: Config, s: State) {
    && ClockLag(s.calls, 0)
    && forall i :: 0 <= i < |s.calls| ==> OnTime(c, s, s.calls[i].now)
  }

  lemma OrderStays(c: Config, s: State, a: Action)
    requires Timely(c, s) && StepInTime(c, s, a)
    ensures ClockLag(Next(c, s, a).calls, 0)
  {
    var calls := Next(c, s, a).calls;
    NextCalls(c, s, a);
    if |calls| > |s.calls| {
      assert forall i :: 0 <= i < |s.calls| ==> calls[i] == s.calls[i];
    }
  }

  lemma StillOnTime(c: Config, s: State, a: Action, id: nat)
    requires FlightsInv(s) && Timely(c, s) && StepInTime(c, s, a)
    requires id in Next(c, s, a).flights && Next(c, s, a).flights[id].stage.Trying?
    ensures var s' := Next(c, s, a);
            forall i :: 0 <= i < |s'.calls| ==>
              s'.calls[i].now <= s'.flights[id].start + LongestRun(MaxAttempts(c)) * SECOND
  {
    var s' := Next(c, s, a);
    NextCalls(c, s, a);
    NextExtends(c, s, a);
    if id in s.flights {
      TryingBefore(c, s, a, id);
      forall i | 0 <= i < |s.calls|
        ensures s'.calls[i] == s.calls[i] && OnTime(c, s, s.calls[i].now)
      {
        assert s'.calls[i] == s'.calls[..|s.calls|][i];
      }
    } else {
      OrderStays(c, s, a);
      assert FlightInv(s', id) && id == |s'.calls| - 1;
      assert forall i :: 0 <= i < id ==> s'.calls[i].now <= s'.calls[id].now;
    }
  }

  lemma NextStaysTimely(c: Config, s: State, a: Action)
    requires FlightsInv(s) && Timely(c, s) && StepInTime(c, s, a)
    ensures Timely(c, Next(c, s, a))
  {
    var s' := Next(c, s, a);
    OrderStays(c, s, a);
    forall i, id | 0 <= i < |s'.calls| && id in s'.flights && s'.flights[id].stage.Trying?
      ensures s'.calls[i].now <= s'.flights[id].start + LongestRun(MaxAttempts(c)) * SECOND
    {
      StillOnTime(c, s, a, id);
    }
  }

  lemma TryingBefore(c: Config, s: State, a: Action, id: nat)
    requires FlightsInv(s)
    requires id in s.flights && id in Next(c, s, a).flights && Next(c, s, a).flights[id].stage.Trying?
    ensures s.flights[id].stage.Trying?
  {
    assert FlightInv(s, id);
  }

  lemma {:induction false} RunsStayTimely(c: Config, actions: seq<Action>)
    requires InTime(c, actions)
    ensures Timely(c, Run(c, actions)) && FlightsInv(Run(c, actions))
  {
    if actions == [] {
    } else {
      var init := actions[..|actions| - 1];
      RunsStayTimely(c, init);
      NextStaysTimely(c, Run(c, init), actions[|actions| - 1]);
      NextKeepsFlights(c, Run(c, init), actions[|actions| - 1]);
    }
  }

  // ---------------------------------------------------------------- the two properties

  /** Two deliveries to one URL, both in their attempt loops, the circuit open since the first was
      admitted: two probes of one suspension. */
  ghost predicate ProbesOverlap(s: State, a: nat, b: nat) {
    && a < b && a in s.flights && b in s.flights && s.flights[a].stage.Trying? && s.flights[b].stage.Trying?
    && s.flights[a].parcel.url == s.flights[b].parcel.url
    && b <= |s.calls| && OpenThroughout(s.calls, s.flights[a].parcel.url, a, b)
  }

  ghost predicate ProbesNeverOverlap(c: Config) {
    forall actions: seq<Action>, a: nat, b: nat :: InTime(c, actions) ==> !ProbesOverlap(Run(c, actions), a, b)
  }

  /** This delivery's failure report would climb the ladder. */
  ghost predicate WouldClimb(s: State, id: nat) {
    id in s.flights && IsProbing(SlotOf(After(s.calls), s.flights[id].parcel.url))
  }

  /** Whenever a report climbs the ladder, it is the report of the probe that is out. */
  ghost predicate LadderIsProbesOwn(c: Config) {
    forall actions: seq<Action>, id: nat, replies: seq<Reply>, result: RunResult, now: Instant ::
      var s := Run(c, actions);
      InTime(c, actions + [Fail(id, replies, result, now)]) && Enabled(c, s, Fail(id, replies, result, now)) && WouldClimb(s, id)
      ==> CurrentProbe(s.calls, s.flights[id].parcel.url) == Some(id)
  }

  /** Two such probes can only be in flight together if a run can last as long as they are apart. */
  lemma OverlapTakesLong(c: Config, s: State, a: nat, b: nat)
    requires Timely(c, s) && FlightsInv(s) && ProbesOverlap(s, a, b)
    ensures LongestRun(MaxAttempts(c)) >= 600
  {
    assert FlightInv(s, a) && FlightInv(s, b);
    ProbesAreSpaced(s.calls, s.flights[a].parcel.url, a, b, 0);
    assert OnTime(c, s, s.calls[b].now);
  }

  lemma NoOverlap(c: Config, actions: seq<Action>, a: nat, b: nat)
    requires MaxAttempts(c) <= 6 && InTime(c, actions)
    ensures !ProbesOverlap(Run(c, actions), a, b)
  {
    RunsStayTimely(c, actions);
    RunOutlivesProbe(MaxAttempts(c));
    if ProbesOverlap(Run(c, actions), a, b) {
      OverlapTakesLong(c, Run(c, actions), a, b);
    }
  }

  lemma ClimbIsOwn(c: Config, actions: seq<Action>, a: Action)
    requires MaxAttempts(c) <= 5 && a.Fail? && InTime(c, actions + [a])
    requires Enabled(c, Run(c, actions), a) && WouldClimb(Run(c, actions), a.id)
    ensures var s := Run(c, actions); CurrentProbe(s.calls, s.flights[a.id].parcel.url) == Some(a.id)
  {
    var s := Run(c, actions);
    Extend(c, actions, a);
    RunsStayTimely(c, actions);
    RunOutlivesCooldown(MaxAttempts(c));
    assert FlightInv(s, a.id);
    YoungReportIsProbes(s.calls, s.flights[a.id].parcel.url, a.id, a.now);
  }
}
