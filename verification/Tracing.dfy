/**
  Which parcel and which dead letter is where: the machine of Deliveries.dfy keeps not only the numbers but
  every single one of them.
*/
module Tracing {
  import opened Wrappers
  import opened Circuit
  import opened Webhooks
  import opened Deliveries
  import DeadLetters

  /** The parcel is what the dead letter was made of, or is made of the dead letter. */
  predicate Carries(p: Parcel, e: DeadLetters.Entry) {
    && p.sessionId == e.sessionId && p.url == e.webhookUrl && p.event == e.event
    && p.payload == e.payload && p.secret == e.secret
  }

  // ---------------------------------------------------------------- what the log says of a parcel or a letter

  function Parcels(log: seq<Event>, kind: Kind): multiset<Parcel> {
    if log == [] then multiset{}
    else
      var e := log[|log| - 1];
      Parcels(log[..|log| - 1], kind) + if e.kind == kind then multiset{e.parcel} else multiset{}
  }

  /** How often letter `n` was taken for good: delivered again, or put back. */
  function UsedUp(log: seq<Event>, n: nat): nat {
    if log == [] then 0 else UsedUp(log[..|log| - 1], n) + if log[|log| - 1].taken == Some(n) then 1 else 0
  }

  /** How often letter `n` was made. */
  function Made(log: seq<Event>, n: nat): nat {
    if log == [] then 0 else Made(log[..|log| - 1], n) + if log[|log| - 1].pushed == Some(n) then 1 else 0
  }

  /** In how many replay calls' hands letter `n` is. */
  function Held(hands: seq<Hand>, n: nat): nat {
    if hands == [] then 0 else Held(hands[..|hands| - 1], n) + if hands[|hands| - 1].number == n then 1 else 0
  }

  lemma OneMore(log: seq<Event>, e: Event)
    ensures forall kind :: Parcels(log + [e], kind) == Parcels(log, kind) + if e.kind == kind then multiset{e.parcel} else multiset{}
    ensures forall n: nat :: UsedUp(log + [e], n) == UsedUp(log, n) + if e.taken == Some(n) then 1 else 0
    ensures forall n: nat :: Made(log + [e], n) == Made(log, n) + if e.pushed == Some(n) then 1 else 0
  {
    assert (log + [e])[..|log|] == log;
  }

  lemma {:induction false} Offered(log: seq<Event>, parcels: seq<Parcel>)
    ensures var after := log + MatchedAll(parcels);
            && (forall kind :: Parcels(after, kind) == Parcels(log, kind) + if kind == Matched then multiset(parcels) else multiset{})
            && (forall n: nat :: UsedUp(after, n) == UsedUp(log, n)) && (forall n: nat :: Made(after, n) == Made(log, n))
    decreases |parcels|
  {
    if parcels == [] {
      assert log + MatchedAll(parcels) == log;
    } else {
      var init, last := parcels[..|parcels| - 1], parcels[|parcels| - 1];
      Offered(log, init);
      var e := Event(Matched, None, last, None, None);
      OneMore(log + MatchedAll(init), e);
      assert log + MatchedAll(parcels) == log + MatchedAll(init) + [e];
      assert parcels == init + [last];
    }
  }

  lemma HeldOneMore(hands: seq<Hand>, h: Hand)
    ensures forall n: nat :: Held(hands + [h], n) == Held(hands, n) + if h.number == n then 1 else 0
  {
    assert (hands + [h])[..|hands|] == hands;
  }

  lemma {:induction false} HeldOneLess(hands: seq<Hand>, k: nat)
    requires k < |hands|
    ensures forall n: nat :: Held(hands, n) == Held(DeadLetters.RemoveAt(hands, k), n) + if hands[k].number == n then 1 else 0
  {
    var last := |hands| - 1;
    if k == last {
      assert DeadLetters.RemoveAt(hands, k) == hands[..last];
    } else {
      HeldOneLess(hands[..last], k);
      assert DeadLetters.RemoveAt(hands, k) == DeadLetters.RemoveAt(hands[..last], k) + [hands[last]];
      HeldOneMore(DeadLetters.RemoveAt(hands[..last], k), hands[last]);
    }
  }

  lemma {:induction false} HeldChanged(hands: seq<Hand>, k: nat, h: Hand)
    requires k < |hands| && h.number == hands[k].number
    ensures forall n: nat :: Held(hands[k := h], n) == Held(hands, n)
  {
    var last := |hands| - 1;
    if k == last {
      assert hands[k := h][..last] == hands[..last];
    } else {
      HeldChanged(hands[..last], k, h);
      assert hands[k := h][..last] == hands[..last][k := h];
    }
  }

  // ---------------------------------------------------------------- one desk

  /** Every matching event waits, was started, or was skipped. */
  ghost predicate WaitingTraced(d: Desk) {
    multiset(d.waiting) + Parcels(d.log, Started) + Parcels(d.log, Skipped) == Parcels(d.log, Matched)
  }

  /** A replay call holds the very entry that was pushed under its number. */
  ghost predicate HandsTraced(d: Desk) {
    forall k :: 0 <= k < |d.hands| ==> d.hands[k].number < |d.ring.pushed| && d.hands[k].entry == d.ring.pushed[d.hands[k].number]
  }

  /** A letter that was taken is in one replay call's hands, or was delivered again or put back once; no other
      is. Every letter was made once. */
  ghost predicate LetterTraced(d: Desk, n: nat) {
    && Held(d.hands, n) + UsedUp(d.log, n) == (if n < |d.ring.fate| && d.ring.fate[n] == DeadLetters.Taken then 1 else 0)
    && Made(d.log, n) == (if n < |d.ring.pushed| then 1 else 0)
  }

  /** What is pushed is made of the parcel that failed, or is the entry put back; what is delivered again is
      made of the entry taken. */
  ghost predicate EventTraced(c: Config, pushed: seq<DeadLetters.Entry>, e: Event) {
    && (e.id.None? <==> e.kind == Matched || e.kind == Returned)
    && (e.taken.Some? <==> e.kind == Replayed || e.kind == Returned)
    && (e.pushed.Some? <==> e.kind == Lettered || e.kind == Returned)
    && (e.taken.Some? ==> e.taken.value < |pushed| && Carries(e.parcel, pushed[e.taken.value]))
    && (e.pushed.Some? ==> e.pushed.value < |pushed| && Carries(e.parcel, pushed[e.pushed.value]))
    && (e.kind == Lettered ==> pushed[e.pushed.value].attempts == MaxAttempts(c))
    && (e.kind == Returned ==> pushed[e.pushed.value] == pushed[e.taken.value])
  }

  ghost predicate LettersTraced(d: Desk) { forall n: nat :: LetterTraced(d, n) }

  ghost predicate EventsTraced(c: Config, d: Desk) { forall e :: e in d.log ==> EventTraced(c, d.ring.pushed, e) }

  ghost predicate DeskTraced(c: Config, d: Desk) {
    WaitingTraced(d) && HandsTraced(d) && LettersTraced(d) && EventsTraced(c, d)
  }

  /** Events stay traced while the ring only gets more pushes. */
  lemma EventsKept(c: Config, d: Desk, d': Desk, e: Event)
    requires EventsTraced(c, d) && d'.log == d.log + [e]
    requires d.ring.pushed <= d'.ring.pushed && EventTraced(c, d'.ring.pushed, e)
    ensures EventsTraced(c, d')
  {
    forall x | x in d'.log ensures EventTraced(c, d'.ring.pushed, x) {
      if x != e {
        assert x in d.log && EventTraced(c, d.ring.pushed, x);
      }
    }
  }

  /** An event that is about no letter. */
  lemma LettersKept(d: Desk, d': Desk, e: Event)
    requires LettersTraced(d) && d'.log == d.log + [e] && d'.ring == d.ring && d'.hands == d.hands
    requires e.taken == None && e.pushed == None
    ensures LettersTraced(d')
  {
    OneMore(d.log, e);
    forall n: nat ensures LetterTraced(d', n) {
      assert LetterTraced(d, n);
    }
  }

  /** An event that is not about a target of a broadcast. */
  lemma WaitingKept(d: Desk, d': Desk, e: Event)
    requires WaitingTraced(d) && d'.log == d.log + [e] && d'.waiting == d.waiting
    requires e.kind != Matched && e.kind != Started && e.kind != Skipped
    ensures WaitingTraced(d')
  {
    OneMore(d.log, e);
  }

  lemma OfferedTraced(c: Config, d: Desk, parcels: seq<Parcel>)
    requires DeskTraced(c, d)
    ensures DeskTraced(c, d.(waiting := d.waiting + parcels, log := d.log + MatchedAll(parcels)))
  {
    var d' := d.(waiting := d.waiting + parcels, log := d.log + MatchedAll(parcels));
    Offered(d.log, parcels);
    assert WaitingTraced(d');
    assert LettersTraced(d') by {
      forall n: nat ensures LetterTraced(d', n) {
        assert LetterTraced(d, n);
      }
    }
    forall e | e in d'.log ensures EventTraced(c, d.ring.pushed, e) {
      assert e in d.log || e in MatchedAll(parcels);
    }
  }

  lemma WaitsLess(d: Desk, d': Desk, k: nat, e: Event)
    requires WaitingTraced(d) && k < |d.waiting| && e.parcel == d.waiting[k] && (e.kind == Started || e.kind == Skipped)
    requires d'.log == d.log + [e] && d'.waiting == DeadLetters.RemoveAt(d.waiting, k)
    ensures WaitingTraced(d')
  {
    OneMore(d.log, e);
    assert d.waiting == d.waiting[..k] + [d.waiting[k]] + d.waiting[k + 1..];
    assert multiset(d'.waiting) + multiset{e.parcel} == multiset(d.waiting);
  }

  lemma AnsweredTraced(c: Config, d: Desk, k: nat, e: Event)
    requires DeskTraced(c, d) && k < |d.waiting| && e.parcel == d.waiting[k]
    requires (e.kind == Started || e.kind == Skipped) && e.id.Some? && e.taken == None && e.pushed == None
    ensures DeskTraced(c, Logged(d.(waiting := DeadLetters.RemoveAt(d.waiting, k)), e))
  {
    var d' := Logged(d.(waiting := DeadLetters.RemoveAt(d.waiting, k)), e);
    WaitsLess(d, d', k, e);
    LettersKept(d, d', e);
    EventsKept(c, d, d', e);
  }

  lemma ArrivedTraced(c: Config, d: Desk, e: Event)
    requires DeskTraced(c, d) && e.kind == Arrived && e.id.Some? && e.taken == None && e.pushed == None
    ensures DeskTraced(c, Logged(d, e))
  {
    WaitingKept(d, Logged(d, e), e);
    LettersKept(d, Logged(d, e), e);
    EventsKept(c, d, Logged(d, e), e);
  }

  // ---------------------------------------------------------------- one desk, when its ring changes

  /** What a step of the ring does to its pushes and to who is taken. */
  lemma RingTraced(c: Config, h: DeadLetters.History, op: DeadLetters.Op)
    requires DeadLetters.Sound(h, c.dlqCapacity)
    ensures var h' := RingStep(c, h, op);
            var p := if op.TakeOp? then DeadLetters.Position(h.ring, op.id) else |h.ring|;
            && h'.pushed == (if op.PushOp? then h.pushed + [op.entry] else h.pushed) && |h'.fate| == |h'.pushed| && |h.fate| == |h.pushed|
            && (forall n: nat :: n < |h'.fate| ==>
                  (h'.fate[n] == DeadLetters.Taken <==>
                     (n < |h.fate| && h.fate[n] == DeadLetters.Taken) || (p < |h.ring| && n == h.at[p])))
            && (p < |h.ring| ==> h.at[p] < |h.pushed| && h.fate[h.at[p]] != DeadLetters.Taken && h.ring[p] == h.pushed[h.at[p]])
  {
    RingKeeps(c, h, op);
  }

  lemma PushTraces(c: Config, d: Desk, d': Desk, entry: DeadLetters.Entry, e: Event)
    requires DeadLetters.Sound(d.ring, c.dlqCapacity) && LettersTraced(d)
    requires d'.ring == RingStep(c, d.ring, DeadLetters.PushOp(entry)) && d'.log == d.log + [e]
    requires e.pushed == Some(|d.ring.pushed|)
    requires forall n: nat :: Held(d'.hands, n) + (if e.taken == Some(n) then 1 else 0) == Held(d.hands, n)
    ensures LettersTraced(d')
  {
    RingTraced(c, d.ring, DeadLetters.PushOp(entry));
    OneMore(d.log, e);
    forall n: nat ensures LetterTraced(d', n) {
      assert LetterTraced(d, n);
    }
  }

  lemma LetteredTraced(c: Config, d: Desk, entry: DeadLetters.Entry, e: Event)
    requires DeadLetters.Sound(d.ring, c.dlqCapacity) && DeskTraced(c, d)
    requires e.kind == Lettered && e.id.Some? && e.taken == None && e.pushed == Some(|d.ring.pushed|)
    requires Carries(e.parcel, entry) && entry.attempts == MaxAttempts(c)
    ensures DeskTraced(c, Logged(d.(ring := RingStep(c, d.ring, DeadLetters.PushOp(entry))), e))
  {
    var d' := Logged(d.(ring := RingStep(c, d.ring, DeadLetters.PushOp(entry))), e);
    RingTraced(c, d.ring, DeadLetters.PushOp(entry));
    WaitingKept(d, d', e);
    PushTraces(c, d, d', entry, e);
    EventsKept(c, d, d', e);
  }

  lemma TakenTraced(c: Config, d: Desk, entryId: string)
    requires DeadLetters.Sound(d.ring, c.dlqCapacity) && DeskTraced(c, d)
    requires DeadLetters.Position(d.ring.ring, entryId) < |d.ring.ring|
    ensures var p := DeadLetters.Position(d.ring.ring, entryId);
            DeskTraced(c, d.(ring := RingStep(c, d.ring, DeadLetters.TakeOp(entryId)),
                             hands := d.hands + [ToAsk(d.ring.ring[p], d.ring.at[p])]))
  {
    var p := DeadLetters.Position(d.ring.ring, entryId);
    var hand := ToAsk(d.ring.ring[p], d.ring.at[p]);
    var d' := d.(ring := RingStep(c, d.ring, DeadLetters.TakeOp(entryId)), hands := d.hands + [hand]);
    RingTraced(c, d.ring, DeadLetters.TakeOp(entryId));
    HeldOneMore(d.hands, hand);
    forall n: nat ensures LetterTraced(d', n) {
      assert LetterTraced(d, n);
    }
  }

  lemma HandsLess(d: Desk, d': Desk, k: nat)
    requires HandsTraced(d) && k < |d.hands|
    requires d'.hands == DeadLetters.RemoveAt(d.hands, k) && d.ring.pushed <= d'.ring.pushed
    ensures HandsTraced(d')
  {
    DeadLetters.RemovedAt(d.hands, k);
  }

  /** A letter leaves a replay call's hands for good. */
  lemma HandUsedUp(d: Desk, d': Desk, k: nat, e: Event)
    requires LettersTraced(d) && k < |d.hands| && e.taken == Some(d.hands[k].number) && e.pushed == None
    requires d'.hands == DeadLetters.RemoveAt(d.hands, k) && d'.log == d.log + [e] && d'.ring == d.ring
    ensures LettersTraced(d')
  {
    HeldOneLess(d.hands, k);
    OneMore(d.log, e);
    forall n: nat ensures LetterTraced(d', n) {
      assert LetterTraced(d, n);
    }
  }

  lemma ReplayedTraced(c: Config, d: Desk, k: nat, e: Event)
    requires DeskTraced(c, d) && k < |d.hands|
    requires e.kind == Replayed && e.id.Some? && e.taken == Some(d.hands[k].number) && e.pushed == None && Carries(e.parcel, d.hands[k].entry)
    ensures DeskTraced(c, Logged(d.(hands := DeadLetters.RemoveAt(d.hands, k)), e))
  {
    var d' := Logged(d.(hands := DeadLetters.RemoveAt(d.hands, k)), e);
    WaitingKept(d, d', e);
    EventsKept(c, d, d', e);
    HandsLess(d, d', k);
    HandUsedUp(d, d', k, e);
  }

  lemma TurnedAwayTraced(c: Config, d: Desk, k: nat, h: Hand)
    requires DeskTraced(c, d) && k < |d.hands| && h.entry == d.hands[k].entry && h.number == d.hands[k].number
    ensures DeskTraced(c, d.(hands := d.hands[k := h]))
  {
    var d' := d.(hands := d.hands[k := h]);
    HeldChanged(d.hands, k, h);
    forall n: nat ensures LetterTraced(d', n) {
      assert LetterTraced(d, n);
    }
  }

  lemma ReturnedTraced(c: Config, d: Desk, k: nat, e: Event)
    requires DeadLetters.Sound(d.ring, c.dlqCapacity) && DeskTraced(c, d) && k < |d.hands|
    requires e.kind == Returned && e.id.None? && e.taken == Some(d.hands[k].number) && e.pushed == Some(|d.ring.pushed|)
    requires Carries(e.parcel, d.hands[k].entry)
    ensures DeskTraced(c, Logged(d.(hands := DeadLetters.RemoveAt(d.hands, k),
                                    ring := RingStep(c, d.ring, DeadLetters.PushOp(d.hands[k].entry))), e))
  {
    var ring := RingStep(c, d.ring, DeadLetters.PushOp(d.hands[k].entry));
    var d' := Logged(d.(hands := DeadLetters.RemoveAt(d.hands, k), ring := ring), e);
    RingTraced(c, d.ring, DeadLetters.PushOp(d.hands[k].entry));
    HandsLess(d, d', k);
    HeldOneLess(d.hands, k);
    WaitingKept(d, d', e);
    EventsKept(c, d, d', e);
    PushTraces(c, d, d', d.hands[k].entry, e);
  }

  lemma PurgedTraced(c: Config, d: Desk)
    requires DeadLetters.Sound(d.ring, c.dlqCapacity) && DeskTraced(c, d)
    ensures DeskTraced(c, d.(ring := RingStep(c, d.ring, DeadLetters.PurgeOp)))
  {
    var d' := d.(ring := RingStep(c, d.ring, DeadLetters.PurgeOp));
    RingTraced(c, d.ring, DeadLetters.PurgeOp);
    forall n: nat ensures LetterTraced(d', n) {
      assert LetterTraced(d, n);
    }
  }

  // ---------------------------------------------------------------- every desk of the machine

  ghost predicate Traced(c: Config, s: State) { forall t :: DeskTraced(c, DeskOf(s, t)) }

  lemma AskTraced(c: Config, s: State, t: string, k: nat, now: Instant)
    requires DeskTraced(c, DeskOf(s, t)) && k < |DeskOf(s, t).waiting|
    ensures DeskTraced(c, DeskOf(Asked(s, t, k, now), t))
  {
    var d := DeskOf(s, t);
    if IsAdmitted(s, d.waiting[k].url, now) {
      AnsweredTraced(c, d, k, Event(Started, Some(|s.calls|), d.waiting[k], None, None));
    } else {
      AnsweredTraced(c, d, k, Event(Skipped, Some(|s.calls|), d.waiting[k], None, None));
    }
  }

  lemma AskAgainTraced(c: Config, s: State, t: string, k: nat, now: Instant)
    requires DeskTraced(c, DeskOf(s, t)) && k < |DeskOf(s, t).hands|
    ensures DeskTraced(c, DeskOf(AskedAgain(s, t, k, now), t))
  {
    var d := DeskOf(s, t);
    var entry, number := d.hands[k].entry, d.hands[k].number;
    if IsAdmitted(s, entry.webhookUrl, now) {
      ReplayedTraced(c, d, k, Event(Replayed, Some(|s.calls|), ParcelOf(entry), Some(number), None));
    } else {
      TurnedAwayTraced(c, d, k, ToPutBack(entry, number));
    }
  }

  /** The desk an action changes. */
  lemma TouchedTraced(c: Config, s: State, a: Action, t: string)
    requires Enabled(c, s, a) && Touched(s, a) == Some(t)
    requires DeadLetters.Sound(DeskOf(s, t).ring, c.dlqCapacity) && DeskTraced(c, DeskOf(s, t))
    ensures DeskTraced(c, DeskOf(Next(c, s, a), t))
  {
    var d := DeskOf(s, t);
    match a
    case PurgeRing(_) => PurgedTraced(c, d);
    case Broadcast(_, event, payload, order) =>
      OfferedTraced(c, d, ParcelsFor(t, event, payload, Targets(Listed(order, HooksOf(s.webhooks, t)), event)));
    case Ask(_, k, now) => AskTraced(c, s, t, k, now);
    case Succeed(id, _, _, now) => ArrivedTraced(c, d, Event(Arrived, Some(id), s.flights[id].parcel, None, None));
    case Letter(id, entryId, failedAt) =>
      LetteredTraced(c, d, LetterOf(c, s.flights[id], entryId, failedAt),
                     Event(Lettered, Some(id), s.flights[id].parcel, None, Some(|d.ring.pushed|)));
    case Take(_, entryId) => TakenTraced(c, d, entryId);
    case AskReplay(_, k, now) => AskAgainTraced(c, s, t, k, now);
    case PutBack(_, k) =>
      ReturnedTraced(c, d, k, Event(Returned, None, ParcelOf(d.hands[k].entry), Some(d.hands[k].number), Some(|d.ring.pushed|)));
  }

  lemma NextTraced(c: Config, s: State, a: Action)
    requires Inv(c, s) && Traced(c, s)
    ensures Traced(c, Next(c, s, a))
  {
    if Enabled(c, s, a) {
      forall t ensures DeskTraced(c, DeskOf(Next(c, s, a), t)) {
        assert SessionInv(c, s, t) && DeskTraced(c, DeskOf(s, t));
        if Touched(s, a) == Some(t) {
          TouchedTraced(c, s, a, t);
        } else {
          assert forall u :: SessionInv(c, s, u) ==> OwnsAll(DeskOf(s, u), u);
          OthersUntouched(c, s, a, t);
        }
      }
    }
  }

  // ---------------------------------------------------------------- every delivery

  /** Whether the call that an event names answered with yes. */
  ghost predicate AnswerTraced(calls: seq<Call>, e: Event)
    requires e.id.Some? && e.id.value < |calls|
  {
    var ask := calls[e.id.value];
    && (e.kind == Started || e.kind == Replayed ==> Admitted(calls, e.parcel.url, e.id.value))
    && (e.kind == Skipped ==> ask.url == e.parcel.url && ask.op == Allows && !Admitted(calls, e.parcel.url, e.id.value))
  }

  /** The call is one of the run, it answered as the event says, and a delivery named by it carries the
      event's parcel. */
  ghost predicate IdTraced(s: State, e: Event) {
    e.id.Some? ==>
      && e.id.value < |s.calls| && AnswerTraced(s.calls, e)
      && (e.id.value in s.flights ==> s.flights[e.id.value].parcel == e.parcel)
  }

  /** The events of one delivery are about one parcel. */
  ghost predicate LogIdsTraced(s: State, log: seq<Event>) {
    && (forall e :: e in log ==> IdTraced(s, e))
    && (forall e, f :: e in log && f in log && e.id.Some? && e.id == f.id ==> e.parcel == f.parcel)
  }

  lemma IdStays(s: State, s': State, e: Event)
    requires Extends(s, s') && IdTraced(s, e)
    ensures IdTraced(s', e)
  {
    if e.id.Some? {
      AdmittedInPrefix(s'.calls, e.parcel.url, e.id.value, |s.calls|);
      assert s'.calls[e.id.value] == s'.calls[..|s.calls|][e.id.value];
    }
  }

  lemma LogStaysTraced(s: State, s': State, log: seq<Event>)
    requires Extends(s, s') && LogIdsTraced(s, log)
    ensures LogIdsTraced(s', log)
  {
    forall e | e in log ensures IdTraced(s', e) {
      IdStays(s, s', e);
    }
  }

  /** One more event, of a new call or of a delivery in flight. */
  lemma LogGrowsTraced(s: State, s': State, log: seq<Event>, e: Event)
    requires Extends(s, s') && LogIdsTraced(s, log) && IdTraced(s', e)
    requires e.id.Some? ==> e.id.value == |s.calls| || (e.id.value in s.flights && e.parcel == s.flights[e.id.value].parcel)
    ensures LogIdsTraced(s', log + [e])
  {
    LogStaysTraced(s, s', log);
    forall f | f in log && e.id.Some? && e.id == f.id ensures e.parcel == f.parcel {
      assert IdTraced(s, f);
    }
  }

  lemma AskIdTraced(s: State, t: string, k: nat, now: Instant)
    requires FlightsInv(s) && k < |DeskOf(s, t).waiting| && LogIdsTraced(s, DeskOf(s, t).log)
    ensures LogIdsTraced(Asked(s, t, k, now), DeskOf(Asked(s, t, k, now), t).log)
  {
    var p := DeskOf(s, t).waiting[k];
    var s' := Asked(s, t, k, now);
    AskExtends(s, t, k, now);
    AdmittedNow(s, p.url, now);
    assert FlightInv(s, |s.calls|);
    var e := Event(if IsAdmitted(s, p.url, now) then Started else Skipped, Some(|s.calls|), p, None, None);
    LogGrowsTraced(s, s', DeskOf(s, t).log, e);
  }

  lemma AskAgainIdTraced(s: State, t: string, k: nat, now: Instant)
    requires FlightsInv(s) && k < |DeskOf(s, t).hands| && LogIdsTraced(s, DeskOf(s, t).log)
    ensures LogIdsTraced(AskedAgain(s, t, k, now), DeskOf(AskedAgain(s, t, k, now), t).log)
  {
    var hand := DeskOf(s, t).hands[k];
    var s' := AskedAgain(s, t, k, now);
    AskAgainExtends(s, t, k, now);
    if IsAdmitted(s, hand.entry.webhookUrl, now) {
      AdmittedNow(s, hand.entry.webhookUrl, now);
      LogGrowsTraced(s, s', DeskOf(s, t).log, Event(Replayed, Some(|s.calls|), ParcelOf(hand.entry), Some(hand.number), None));
    } else {
      LogStaysTraced(s, s', DeskOf(s, t).log);
    }
  }

  lemma BroadcastIdTraced(s: State, s': State, log: seq<Event>, parcels: seq<Parcel>)
    requires Extends(s, s') && LogIdsTraced(s, log)
    ensures LogIdsTraced(s', log + MatchedAll(parcels))
  {
    LogStaysTraced(s, s', log);
    assert forall e :: e in MatchedAll(parcels) ==> e.id == None;
  }

  lemma TouchedIdsTraced(c: Config, s: State, a: Action, t: string)
    requires FlightsInv(s) && Enabled(c, s, a) && Touched(s, a) == Some(t) && LogIdsTraced(s, DeskOf(s, t).log)
    ensures LogIdsTraced(Next(c, s, a), DeskOf(Next(c, s, a), t).log)
  {
    var s', d := Next(c, s, a), DeskOf(s, t);
    NextExtends(c, s, a);
    match a
    case PurgeRing(_) => LogStaysTraced(s, s', d.log);
    case Broadcast(_, event, payload, order) =>
      BroadcastIdTraced(s, s', d.log, ParcelsFor(t, event, payload, Targets(Listed(order, HooksOf(s.webhooks, t)), event)));
    case Ask(_, k, now) => AskIdTraced(s, t, k, now);
    case Succeed(id, _, _, now) =>
      assert FlightInv(s, id);
      LogGrowsTraced(s, s', d.log, Event(Arrived, Some(id), s.flights[id].parcel, None, None));
    case Letter(id, entryId, failedAt) =>
      assert FlightInv(s, id);
      LogGrowsTraced(s, s', d.log, Event(Lettered, Some(id), s.flights[id].parcel, None, Some(|d.ring.pushed|)));
    case Take(_, entryId) => LogStaysTraced(s, s', d.log);
    case AskReplay(_, k, now) => AskAgainIdTraced(s, t, k, now);
    case PutBack(_, k) =>
      LogGrowsTraced(s, s', d.log,
                     Event(Returned, None, ParcelOf(d.hands[k].entry), Some(d.hands[k].number), Some(|d.ring.pushed|)));
  }

  ghost predicate IdsTraced(s: State) { forall t :: LogIdsTraced(s, DeskOf(s, t).log) }

  lemma NextIdsTraced(c: Config, s: State, a: Action)
    requires Inv(c, s) && IdsTraced(s)
    ensures IdsTraced(Next(c, s, a))
  {
    if Enabled(c, s, a) {
      forall t ensures LogIdsTraced(Next(c, s, a), DeskOf(Next(c, s, a), t).log) {
        assert LogIdsTraced(s, DeskOf(s, t).log);
        if Touched(s, a) == Some(t) {
          TouchedIdsTraced(c, s, a, t);
        } else {
          assert forall u :: SessionInv(c, s, u) ==> OwnsAll(DeskOf(s, u), u);
          OthersUntouched(c, s, a, t);
          NextExtends(c, s, a);
          LogStaysTraced(s, Next(c, s, a), DeskOf(s, t).log);
        }
      }
    }
  }

  // ---------------------------------------------------------------- every error

  /** A failure report of the run named this error. */
  ghost predicate Reported(calls: seq<Call>, url: Url, error: string) {
    exists i :: 0 <= i < |calls| && calls[i].url == url && calls[i].op == Failure(error)
  }

  ghost predicate LettersReported(s: State, t: string) {
    forall e :: e in DeskOf(s, t).ring.pushed ==> Reported(s.calls, e.webhookUrl, e.lastError)
  }

  ghost predicate FlightReported(s: State, id: nat) {
    id in s.flights && s.flights[id].stage.ToLetter? ==> Reported(s.calls, s.flights[id].parcel.url, s.flights[id].stage.error)
  }

  ghost predicate ErrorsReported(s: State) {
    (forall id: nat :: FlightReported(s, id)) && forall t :: LettersReported(s, t)
  }

  lemma ReportStays(s: State, s': State, url: Url, error: string)
    requires Extends(s, s') && Reported(s.calls, url, error)
    ensures Reported(s'.calls, url, error)
  {
    var i :| 0 <= i < |s.calls| && s.calls[i].url == url && s.calls[i].op == Failure(error);
    assert s'.calls[i] == s'.calls[..|s.calls|][i];
  }

  /** The dead letter an action pushes, if any. */
  ghost function NewLetter(c: Config, s: State, a: Action): Option<DeadLetters.Entry>
    requires Enabled(c, s, a)
  {
    match a
    case Letter(id, entryId, failedAt) => Some(LetterOf(c, s.flights[id], entryId, failedAt))
    case PutBack(t, k) => Some(DeskOf(s, t).hands[k].entry)
    case _ => None
  }

  lemma TouchedLetters(c: Config, s: State, a: Action, t: string)
    requires Enabled(c, s, a) && Touched(s, a) == Some(t) && DeadLetters.Sound(DeskOf(s, t).ring, c.dlqCapacity)
    ensures DeskOf(Next(c, s, a), t).ring.pushed
         == DeskOf(s, t).ring.pushed + if NewLetter(c, s, a).Some? then [NewLetter(c, s, a).value] else []
  {
    var h := DeskOf(s, t).ring;
    assert h.pushed + [] == h.pushed;
    match a
    case PurgeRing(_) => RingKeeps(c, h, DeadLetters.PurgeOp);
    case Letter(_, _, _) => RingKeeps(c, h, DeadLetters.PushOp(NewLetter(c, s, a).value));
    case Take(_, entryId) => RingKeeps(c, h, DeadLetters.TakeOp(entryId));
    case PutBack(_, _) => RingKeeps(c, h, DeadLetters.PushOp(NewLetter(c, s, a).value));
    case _ =>
  }

  /** A new dead letter is made of a delivery that failed; one put back was there before. */
  lemma NewLetters(c: Config, s: State, a: Action, t: string, e: DeadLetters.Entry)
    requires Inv(c, s) && Traced(c, s) && e in DeskOf(Next(c, s, a), t).ring.pushed
    ensures e in DeskOf(s, t).ring.pushed || (a.Letter? && Enabled(c, s, a) && Some(e) == NewLetter(c, s, a))
  {
    if Enabled(c, s, a) {
      assert SessionInv(c, s, t) && DeskTraced(c, DeskOf(s, t));
      if Touched(s, a) == Some(t) {
        TouchedLetters(c, s, a, t);
      } else {
        assert forall u :: SessionInv(c, s, u) ==> OwnsAll(DeskOf(s, u), u);
        OthersUntouched(c, s, a, t);
      }
    }
  }

  lemma NoOtherFailure(c: Config, s: State, a: Action, id: nat)
    requires FlightsInv(s) && id in s.flights && s.flights[id].stage.ToLetter? && id in Next(c, s, a).flights
    ensures Next(c, s, a).flights[id] == s.flights[id]
  {
    assert FlightInv(s, id);
  }

  lemma FailsNow(c: Config, s: State, a: Action, id: nat)
    requires FlightsInv(s) && id in Next(c, s, a).flights && Next(c, s, a).flights[id].stage.ToLetter?
    requires !(id in s.flights && s.flights[id].stage.ToLetter?)
    ensures var s' := Next(c, s, a);
            |s'.calls| == |s.calls| + 1 && s'.calls[|s.calls|].url == s'.flights[id].parcel.url
            && s'.calls[|s.calls|].op == Failure(s'.flights[id].stage.error)
  {
    assert FlightInv(s, id);
  }

  lemma NextFlightReported(c: Config, s: State, a: Action, id: nat)
    requires FlightsInv(s) && FlightReported(s, id)
    ensures FlightReported(Next(c, s, a), id)
  {
    var s' := Next(c, s, a);
    NextExtends(c, s, a);
    if id in s'.flights && s'.flights[id].stage.ToLetter? {
      assert FlightInv(s, id);
      if id in s.flights && s.flights[id].stage.ToLetter? {
        NoOtherFailure(c, s, a, id);
        ReportStays(s, s', s.flights[id].parcel.url, s.flights[id].stage.error);
      } else {
        FailsNow(c, s, a, id);
        assert s'.calls[|s.calls|].op == Failure(s'.flights[id].stage.error);
      }
    }
  }

  lemma NextReported(c: Config, s: State, a: Action)
    requires Inv(c, s) && Traced(c, s) && ErrorsReported(s)
    ensures ErrorsReported(Next(c, s, a))
  {
    var s' := Next(c, s, a);
    NextExtends(c, s, a);
    forall id: nat ensures FlightReported(s', id) {
      NextFlightReported(c, s, a, id);
    }
    forall t, e | e in DeskOf(s', t).ring.pushed ensures Reported(s'.calls, e.webhookUrl, e.lastError) {
      NewLetters(c, s, a, t, e);
      if e in DeskOf(s, t).ring.pushed {
        assert LettersReported(s, t);
      } else {
        assert FlightReported(s, a.id);
      }
      ReportStays(s, s', e.webhookUrl, e.lastError);
    }
  }

  /** A delivery that arrived was reported as a success for its URL. */
  ghost predicate ArrivalReported(calls: seq<Call>, e: Event) {
    e.kind == Arrived ==> exists i :: 0 <= i < |calls| && calls[i].url == e.parcel.url && calls[i].op == Success
  }

  ghost predicate ArrivalsReported(s: State) {
    forall t, e :: e in DeskOf(s, t).log ==> ArrivalReported(s.calls, e)
  }

  lemma ArrivalStays(s: State, s': State, e: Event)
    requires Extends(s, s') && ArrivalReported(s.calls, e)
    ensures ArrivalReported(s'.calls, e)
  {
    if e.kind == Arrived {
      var i :| 0 <= i < |s.calls| && s.calls[i].url == e.parcel.url && s.calls[i].op == Success;
      assert s'.calls[i] == s'.calls[..|s.calls|][i];
    }
  }

  /** Only a success report logs an arrival. */
  lemma NewArrival(c: Config, s: State, a: Action, t: string, e: Event)
    requires Enabled(c, s, a) && Touched(s, a) == Some(t)
    requires e in DeskOf(Next(c, s, a), t).log && e !in DeskOf(s, t).log && e.kind == Arrived
    ensures a.Succeed? && e.parcel == s.flights[a.id].parcel
  {
  }

  lemma NextArrivals(c: Config, s: State, a: Action)
    requires Inv(c, s) && ArrivalsReported(s)
    ensures ArrivalsReported(Next(c, s, a))
  {
    var s' := Next(c, s, a);
    NextExtends(c, s, a);
    forall t, e | Enabled(c, s, a) && e in DeskOf(s', t).log ensures ArrivalReported(s'.calls, e) {
      if e in DeskOf(s, t).log {
        ArrivalStays(s, s', e);
      } else if Touched(s, a) == Some(t) {
        if e.kind == Arrived {
          NewArrival(c, s, a, t, e);
          assert s'.calls[|s.calls|] == Call(e.parcel.url, Success, a.now);
        }
      } else {
        assert SessionInv(c, s, t);
        assert forall u :: SessionInv(c, s, u) ==> OwnsAll(DeskOf(s, u), u);
        OthersUntouched(c, s, a, t);
      }
    }
  }

  lemma {:induction false} RunsAreTraced(c: Config, actions: seq<Action>)
    ensures var s := Run(c, actions);
            Inv(c, s) && Traced(c, s) && IdsTraced(s) && ErrorsReported(s) && ArrivalsReported(s)
  {
    RunsKeepInv(c, actions);
    if actions == [] {
    } else {
      var s, a := Run(c, actions[..|actions| - 1]), actions[|actions| - 1];
      RunsAreTraced(c, actions[..|actions| - 1]);
      NextTraced(c, s, a);
      NextIdsTraced(c, s, a);
      NextReported(c, s, a);
      NextArrivals(c, s, a);
    }
  }

  // ---------------------------------------------------------------- what every run guarantees

  /** The targets of broadcasts, as parcels and not only in number: each waits, was started, or was skipped. */
  lemma NoTargetIsLost(c: Config, actions: seq<Action>, t: string)
    ensures var d := DeskOf(Run(c, actions), t);
            multiset(d.waiting) + Parcels(d.log, Started) + Parcels(d.log, Skipped) == Parcels(d.log, Matched)
  {
    RunsAreTraced(c, actions);
    assert DeskTraced(c, DeskOf(Run(c, actions), t));
  }

  /** Every dead letter, by its number: it was made once; it is taken exactly when one replay call holds it, or
      it was delivered again or put back, once; and a replay call holds the very entry. */
  lemma NoLetterIsMixedUp(c: Config, actions: seq<Action>, t: string, n: nat)
    requires n < |DeskOf(Run(c, actions), t).ring.pushed|
    ensures var d := DeskOf(Run(c, actions), t);
            && |d.ring.fate| == |d.ring.pushed| && Made(d.log, n) == 1
            && Held(d.hands, n) + UsedUp(d.log, n) == (if d.ring.fate[n] == DeadLetters.Taken then 1 else 0)
            && forall k :: 0 <= k < |d.hands| && d.hands[k].number == n ==> d.hands[k].entry == d.ring.pushed[n]
  {
    RunsAreTraced(c, actions);
    var d := DeskOf(Run(c, actions), t);
    assert SessionInv(c, Run(c, actions), t) && DeskTraced(c, d);
    assert LetterTraced(d, n);
  }

  /** What was delivered again is what was taken, what was put back is too, a dead letter tells the parcel that
      failed, the attempts allowed, and an error that was reported for its URL; and who arrived was reported. */
  lemma LettersTellTheTruth(c: Config, actions: seq<Action>, t: string, e: Event)
    requires e in DeskOf(Run(c, actions), t).log
    ensures var pushed := DeskOf(Run(c, actions), t).ring.pushed;
            EventTraced(c, pushed, e)
            && (e.pushed.Some? ==> Reported(Run(c, actions).calls, e.parcel.url, pushed[e.pushed.value].lastError))
            && ArrivalReported(Run(c, actions).calls, e)
  {
    RunsAreTraced(c, actions);
    assert DeskTraced(c, DeskOf(Run(c, actions), t)) && LettersReported(Run(c, actions), t);
  }

  lemma {:induction false} StartIsLogged(log: seq<Event>, id: nat) returns (e: Event)
    requires Starts(log, id) > 0
    ensures e in log && IsStart(e, id)
  {
    if IsStart(log[|log| - 1], id) {
      e := log[|log| - 1];
    } else {
      e := StartIsLogged(log[..|log| - 1], id);
    }
  }

  lemma {:induction false} EndCounts(log: seq<Event>, id: nat, e: Event)
    requires e in log && IsEnd(e, id)
    ensures Ends(log, id) > 0
  {
    if log[|log| - 1] != e {
      EndCounts(log[..|log| - 1], id, e);
    }
  }

  /** A delivery in flight, and one that ended, was started once, by a call that admitted it, with the parcel it
      carries to its end. */
  lemma DeliveriesKeepTheirParcel(c: Config, actions: seq<Action>, t: string, id: nat, p: Parcel) returns (start: Event)
    requires var s := Run(c, actions);
             || (id in s.flights && s.flights[id].parcel == p && p.sessionId == t)
             || exists e :: e in DeskOf(s, t).log && IsEnd(e, id) && e.parcel == p
    ensures var s := Run(c, actions);
            && start in DeskOf(s, t).log && IsStart(start, id) && start.parcel == p && Starts(DeskOf(s, t).log, id) == 1
            && id < |s.calls| && Admitted(s.calls, p.url, id)
  {
    RunsAreTraced(c, actions);
    var s := Run(c, actions);
    var log := DeskOf(s, t).log;
    assert SessionInv(c, s, t) && RunInv(s, t, id) && LogIdsTraced(s, log);
    if !(id in s.flights && s.flights[id].parcel == p && p.sessionId == t) {
      var e :| e in log && IsEnd(e, id) && e.parcel == p;
      EndCounts(log, id, e);
    }
    start := StartIsLogged(log, id);
    assert IdTraced(s, start);
  }

  /** A question that a broadcast asked was answered as the log says: who was started was let through by that
      call, and who was skipped was turned away by it. */
  lemma AnswersDecide(c: Config, actions: seq<Action>, t: string, e: Event)
    requires e in DeskOf(Run(c, actions), t).log && (e.kind == Started || e.kind == Skipped || e.kind == Replayed)
    ensures var calls := Run(c, actions).calls;
            e.id.Some? && e.id.value < |calls| && (Admitted(calls, e.parcel.url, e.id.value) <==> e.kind != Skipped)
  {
    RunsAreTraced(c, actions);
    assert LogIdsTraced(Run(c, actions), DeskOf(Run(c, actions), t).log);
  }

  /** The oldest entry with this id has gone from the ring to a new replay call's hands, with its number; all
      others are where they were. */
  ghost predicate TakesUp(before: Desk, after: Desk, entryId: string, hand: Hand) {
    && after.hands == before.hands + [hand] && hand.ToAsk? && hand.entry.id == entryId
    && multiset(before.ring.ring) == multiset(after.ring.ring) + multiset{hand.entry}
    && (exists i :: 0 <= i < |before.ring.ring| && |before.ring.at| == |before.ring.ring|
          && before.ring.ring[i] == hand.entry && before.ring.at[i] == hand.number
          && forall j :: 0 <= j < i ==> before.ring.ring[j].id != entryId)
    && after.waiting == before.waiting && after.log == before.log
  }

  lemma TakenUpMeans(c: Config, s: State, t: string, entryId: string) returns (hand: Hand)
    requires DeadLetters.Sound(DeskOf(s, t).ring, c.dlqCapacity)
    requires DeadLetters.Position(DeskOf(s, t).ring.ring, entryId) < |DeskOf(s, t).ring.ring|
    ensures TakesUp(DeskOf(s, t), DeskOf(TakenUp(c, s, t, entryId), t), entryId, hand)
  {
    var ring, at := DeskOf(s, t).ring.ring, DeskOf(s, t).ring.at;
    var p := DeadLetters.Position(ring, entryId);
    DeadLetters.TakenPlusRest(ring, p);
    hand := ToAsk(ring[p], at[p]);
  }

  /** A replay call that finds an entry takes the oldest one with the id it was given. */
  lemma TakeMeans(c: Config, actions: seq<Action>, t: string, entryId: string) returns (hand: Hand)
    requires Enabled(c, Run(c, actions), Take(t, entryId))
    ensures var s := Run(c, actions);
            TakesUp(DeskOf(s, t), DeskOf(Next(c, s, Take(t, entryId)), t), entryId, hand)
  {
    RunsKeepInv(c, actions);
    var s := Run(c, actions);
    assert SessionInv(c, s, t);
    hand := TakenUpMeans(c, s, t, entryId);
    assert Next(c, s, Take(t, entryId)) == TakenUp(c, s, t, entryId);
  }

  /** A registered webhook that is enabled and filters for everything or for this event. */
  predicate Wants(hooks: map<string, WebhookConfig>, id: string, event: string) {
    id in hooks && hooks[id].enabled && (All in hooks[id].events || Named(event) in hooks[id].events)
  }

  lemma TargetsWant(hooks: map<string, WebhookConfig>, order: seq<string>, event: string, w: WebhookConfig)
    requires Lists(order, hooks)
    ensures w in Targets(Listed(order, hooks), event) <==> exists id :: Wants(hooks, id, event) && hooks[id] == w
  {
    var listed := Listed(order, hooks);
    TargetsMeans(listed, event, w);
    assert w in Targets(listed, event) <==> multiset(Targets(listed, event))[w] > 0;
    assert w in listed <==> multiset(listed)[w] > 0;
    if exists id :: Wants(hooks, id, event) && hooks[id] == w {
      var id :| Wants(hooks, id, event) && hooks[id] == w;
      var k :| 0 <= k < |order| && order[k] == id;
      assert listed[k] == w;
    }
    if w in Targets(listed, event) {
      var k :| 0 <= k < |listed| && listed[k] == w;
      assert Wants(hooks, order[k], event) && hooks[order[k]] == w;
    }
  }

  /** A broadcast offers the event, with its payload, to the URL and under the secret of every webhook of the
      session that wants it, and to nothing else. */
  lemma BroadcastMeans(c: Config, s: State, t: string, event: string, payload: string, order: seq<string>)
    returns (parcels: seq<Parcel>)
    requires Enabled(c, s, Broadcast(t, event, payload, order))
    ensures var hooks := HooksOf(s.webhooks, t);
            var before, after := DeskOf(s, t), DeskOf(Next(c, s, Broadcast(t, event, payload, order)), t);
            && after.waiting == before.waiting + parcels && after.hands == before.hands && after.ring == before.ring
            && (forall id :: Wants(hooks, id, event) ==> Parcel(t, event, hooks[id].url, hooks[id].secret, payload) in parcels)
            && (forall p :: p in parcels ==>
                  exists id :: Wants(hooks, id, event) && p == Parcel(t, event, hooks[id].url, hooks[id].secret, payload))
  {
    var hooks := HooksOf(s.webhooks, t);
    var targets := Targets(Listed(order, hooks), event);
    parcels := ParcelsFor(t, event, payload, targets);
    forall id | Wants(hooks, id, event)
      ensures Parcel(t, event, hooks[id].url, hooks[id].secret, payload) in parcels
    {
      TargetsWant(hooks, order, event, hooks[id]);
      var k :| 0 <= k < |targets| && targets[k] == hooks[id];
      assert parcels[k] == Parcel(t, event, hooks[id].url, hooks[id].secret, payload);
    }
    forall p | p in parcels
      ensures exists id :: Wants(hooks, id, event) && p == Parcel(t, event, hooks[id].url, hooks[id].secret, payload)
    {
      var k :| 0 <= k < |parcels| && parcels[k] == p;
      assert targets[k] in targets;
      TargetsWant(hooks, order, event, targets[k]);
    }
  }

  // ---------------------------------------------------------------- the registry, and the notes of skips

  function Registered(s: State, t: string, id: string): Option<WebhookConfig> {
    if id in HooksOf(s.webhooks, t) then Some(HooksOf(s.webhooks, t)[id]) else None
  }

  /** All that changes what a webhook id stands for: registering it, removing it, switching it on or off, and
      purging its session; switching it also forgets the circuit of its URL. */
  lemma RegistryMeans(c: Config, s: State, a: Action, t: string, id: string)
    requires Enabled(c, s, a)
    ensures Registered(Next(c, s, a), t, id)
         == match a
            case Register(u, k, config) => if u == t && k == id then Some(config) else Registered(s, t, id)
            case Unregister(u, k) => if u == t && k == id then None else Registered(s, t, id)
            case SetEnabled(u, k, enabled, _) =>
              if u == t && k == id then
                var w := Registered(s, t, id).value;
                Some(WebhookConfig(w.url, w.events, enabled, w.secret))
              else Registered(s, t, id)
            case PurgeRegistry(u) => if u == t then None else Registered(s, t, id)
            case _ => Registered(s, t, id)
    ensures a.SetEnabled? && a.sessionId == t && a.webhookId == id ==>
              Next(c, s, a).calls == s.calls + [Call(Registered(s, t, id).value.url, Op.Remove, a.now)]
  {
  }

  /** How often the run turned a broadcast's target with this URL away. */
  ghost function Skips(c: Config, actions: seq<Action>, url: Url): nat {
    if actions == [] then 0
    else
      var init, a := actions[..|actions| - 1], actions[|actions| - 1];
      var s := Run(c, init);
      Skips(c, init, url)
      + if a.Ask? && Enabled(c, s, a) then
          var asked := DeskOf(s, a.sessionId).waiting[a.k].url;
          if asked == url && !AllowStep(SlotOf(After(s.calls), url), a.now).1 then 1 else 0
        else 0
  }

  function NotesOf(calls: seq<Call>, url: Url): nat {
    if calls == [] then 0
    else NotesOf(calls[..|calls| - 1], url) + if calls[|calls| - 1].url == url && calls[|calls| - 1].op == Op.NoteSkipped then 1 else 0
  }

  lemma NotesNext(calls: seq<Call>, call: Call, url: Url)
    ensures NotesOf(calls + [call], url) == NotesOf(calls, url) + if call.url == url && call.op == Op.NoteSkipped then 1 else 0
  {
    assert (calls + [call])[..|calls|] == calls;
  }

  lemma CallMade(c: Config, s: State, a: Action)
    requires Enabled(c, s, a)
    ensures var calls := Next(c, s, a).calls;
            || calls == s.calls
            || (|calls| == |s.calls| + 1 && calls == s.calls + [calls[|s.calls|]]
                && (calls[|s.calls|].op == Op.NoteSkipped <==> a.Note?) && (a.Note? ==> calls[|s.calls|].url == a.url))
    ensures a.Note? ==> |Next(c, s, a).calls| == |s.calls| + 1
    ensures Next(c, s, a).toNote
         == if a.Note? then s.toNote - multiset{a.url}
            else if a.Ask? && !IsAdmitted(s, DeskOf(s, a.sessionId).waiting[a.k].url, a.now) then
              s.toNote + multiset{DeskOf(s, a.sessionId).waiting[a.k].url}
            else s.toNote
  {
  }

  /** What an action does to the notes of one URL. */
  lemma StepNotes(c: Config, s: State, a: Action, url: Url)
    ensures var skipped := a.Ask? && Enabled(c, s, a) && DeskOf(s, a.sessionId).waiting[a.k].url == url
                           && !AllowStep(SlotOf(After(s.calls), url), a.now).1;
            NotesOf(Next(c, s, a).calls, url) + Next(c, s, a).toNote[url]
            == NotesOf(s.calls, url) + s.toNote[url] + if skipped then 1 else 0
  {
    if Enabled(c, s, a) {
      CallMade(c, s, a);
      if |Next(c, s, a).calls| > |s.calls| {
        NotesNext(s.calls, Next(c, s, a).calls[|s.calls|], url);
      }
    }
  }

  /** In every run each target that was turned away is counted as a skip of its URL once, or is about to be. */
  lemma {:induction false} SkipsAreNoted(c: Config, actions: seq<Action>, url: Url)
    ensures Skips(c, actions, url) == NotesOf(Run(c, actions).calls, url) + Run(c, actions).toNote[url]
  {
    if actions != [] {
      SkipsAreNoted(c, actions[..|actions| - 1], url);
      StepNotes(c, Run(c, actions[..|actions| - 1]), actions[|actions| - 1], url);
    }
  }
}
