/**
  The run in which a replay call puts its entry back into a ring that has filled up meanwhile, and another
  entry is lost.
*/
module ReplayRun {
  import opened Circuit
  import opened Deliveries
  import opened ProbeTiming
  import opened ProbeRuns
  import DeadLetters

  /** What the run looks at: the session's ring and replay calls, and the flights. */
  ghost predicate Has(s: State, ring: seq<DeadLetters.Entry>, hands: seq<Hand>, flights: map<nat, Flight>) {
    var d := DeskOf(s, S);
    d.ring.ring == ring && |d.ring.at| == |ring| && d.hands == hands && s.flights == flights
  }

  lemma Lettered1(c: Config, s: State, id: nat, entryId: string) returns (t: State, entry: DeadLetters.Entry)
    requires c.dlqCapacity == 1 && Has(s, [], DeskOf(s, S).hands, s.flights)
    requires id in s.flights && s.flights[id] == Flight(PARCEL, 0, ToLetter(ERROR))
    ensures t == Next(c, s, Letter(id, entryId, 0)) && t.calls == s.calls
    ensures entry.id == entryId && entry.webhookUrl == U && Has(t, [entry], DeskOf(s, S).hands, s.flights - {id})
  {
    entry := LetterOf(c, s.flights[id], entryId, 0);
    t := Next(c, s, Letter(id, entryId, 0));
    assert t == Written(c, s, id, entryId, 0);
  }

  lemma Taken1(c: Config, s: State, entry: DeadLetters.Entry) returns (t: State, number: nat)
    requires Has(s, [entry], [], s.flights)
    ensures t == Next(c, s, Take(S, entry.id)) && t.calls == s.calls && Has(t, [], [ToAsk(entry, number)], s.flights)
  {
    assert DeadLetters.Position([entry], entry.id) == 0;
    number := DeskOf(s, S).ring.at[0];
    t := Next(c, s, Take(S, entry.id));
    assert t == TakenUp(c, s, S, entry.id);
  }

  lemma TurnedAway(c: Config, s: State, ring: seq<DeadLetters.Entry>, entry: DeadLetters.Entry, number: nat, now: Instant)
    returns (t: State)
    requires Has(s, ring, [ToAsk(entry, number)], s.flights) && entry.webhookUrl == U && !IsAdmitted(s, U, now)
    ensures t == Next(c, s, AskReplay(S, 0, now)) && Has(t, ring, [ToPutBack(entry, number)], s.flights)
  {
    t := Next(c, s, AskReplay(S, 0, now));
    assert t == AskedAgain(s, S, 0, now);
    assert [ToAsk(entry, number)][0 := ToPutBack(entry, number)] == [ToPutBack(entry, number)];
  }

  /** The circuit is still in its cooldown. */
  lemma StillShut(c: Config, s: State)
    requires s.calls == Calls(false, Span(c), 25)
    ensures !IsAdmitted(s, U, Span(c))
  {
    ReportsOpen(false, Span(c), 25);
  }

  /** Two of the 25 failed deliveries write their dead letters; a replay call takes the first one before the
      second one is written. */
  lemma FullAgain(c: Config)
    returns (actions: seq<Action>, s: State, first: DeadLetters.Entry, number: nat, second: DeadLetters.Entry)
    requires c.dlqCapacity == 1
    ensures s == Run(c, actions) && s.calls == Calls(false, Span(c), 25)
    ensures first.id == "1" && second.id == "2" && first.webhookUrl == U && Has(s, [second], [ToAsk(first, number)], s.flights)
  {
    var before, s0 := Reported(c, false, 25);
    var s1, s2;
    s1, first := Lettered1(c, s0, 0, "1");
    s2, number := Taken1(c, s1, first);
    s, second := Lettered1(c, s2, 1, "2");
    Extend(c, before, Letter(0, "1", 0));
    Extend(c, before + [Letter(0, "1", 0)], Take(S, "1"));
    Extend(c, before + [Letter(0, "1", 0)] + [Take(S, "1")], Letter(1, "2", 0));
    actions := before + [Letter(0, "1", 0)] + [Take(S, "1")] + [Letter(1, "2", 0)];
  }

  /** With room for one entry: the circuit turns the replay away, and putting its entry back evicts the
      other one. */
  lemma PutBackEvictsAnother(c: Config) returns (actions: seq<Action>, lost: DeadLetters.Entry)
    requires c.dlqCapacity == 1
    ensures Enabled(c, Run(c, actions), PutBack(S, 0))
    ensures var before := DeskOf(Run(c, actions), S).ring;
            var after := DeskOf(Next(c, Run(c, actions), PutBack(S, 0)), S).ring;
            && before.ring == [lost] && lost !in after.ring
            && DeadLetters.Count(after.fate, DeadLetters.Evicted) > DeadLetters.Count(before.fate, DeadLetters.Evicted)
  {
    var earlier, s, first, number, second := FullAgain(c);
    StillShut(c, s);
    var t := TurnedAway(c, s, [second], first, number, Span(c));
    var ask := AskReplay(S, 0, Span(c));
    Extend(c, earlier, ask);
    actions := earlier + [ask];
    lost := second;
    PutBackEvictsExactlyWhen(c, actions, PutBack(S, 0));
    assert Next(c, t, PutBack(S, 0)) == PutIn(c, t, S, 0);
  }
}
