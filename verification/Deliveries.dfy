/**
  Circuits, deliveries in flight and dead-letter rings as one machine: broadcasts, delivery runs, replays
  and operator calls interleave freely, one lock or one registry change at a time. A delivery is named by
  the circuit call that admitted it.
*/
module Deliveries {
  import opened Wrappers
  import opened Circuit
  import opened Webhooks
  import DeadLetters

  type Config = c: RetryConfig | c.dlqCapacity > 0 witness RetryConfig(3, true, 100)

  /** One event on its way to one webhook. */
  datatype Parcel = Parcel(sessionId: string, event: string, url: Url, secret: Option<string>, payload: string)

  /** A run in its attempt loop, or one that reported a failure and has yet to write its dead letter. */
  datatype Stage = Trying | ToLetter(error: string)

  datatype Flight = Flight(parcel: Parcel, start: Instant, stage: Stage)

  /** A replay call that took an entry, pushed as number `number`: about to ask the circuit, or turned away. */
  datatype Hand = ToAsk(entry: DeadLetters.Entry, number: nat) | ToPutBack(entry: DeadLetters.Entry, number: nat)

  datatype Kind = Matched | Skipped | Started | Replayed | Arrived | Lettered | Returned

  /** What happened to a parcel. Where there is one: the circuit call that answered, which names the delivery
      if the answer was yes, the number of the dead letter taken up, and the number of the one pushed. */
  datatype Event = Event(kind: Kind, id: Option<nat>, parcel: Parcel, taken: Option<nat>, pushed: Option<nat>)

  /** What belongs to one session: targets a broadcast has yet to offer, replay calls in progress, the
      dead-letter ring, and the history. */
  datatype Desk = Desk(waiting: seq<Parcel>, hands: seq<Hand>, ring: DeadLetters.History, log: seq<Event>)

  /** The circuit table is the one after `calls`. */
  datatype State = State(
    webhooks: map<string, map<string, WebhookConfig>>, calls: seq<Call>, flights: map<nat, Flight>,
    desks: map<string, Desk>, toNote: multiset<Url>)

  datatype Action =
    | Register(sessionId: string, webhookId: string, config: WebhookConfig)
    | Unregister(sessionId: string, webhookId: string)
    | SetEnabled(sessionId: string, webhookId: string, enabled: bool, now: Instant)
    | PurgeRegistry(sessionId: string)
    | PurgeRing(sessionId: string)
    | Reenable(url: Url, now: Instant)
    | Broadcast(sessionId: string, event: string, payload: string, order: seq<string>)
    | Ask(sessionId: string, k: nat, now: Instant)
    | Note(url: Url, now: Instant)
    | Succeed(id: nat, replies: seq<Reply>, result: RunResult, now: Instant)
    | Fail(id: nat, replies: seq<Reply>, result: RunResult, now: Instant)
    | Letter(id: nat, entryId: string, failedAt: int)
    | Take(sessionId: string, entryId: string)
    | AskReplay(sessionId: string, k: nat, now: Instant)
    | PutBack(sessionId: string, k: nat)

  const NO_RING := DeadLetters.History([], [], [], [])
  const EMPTY_DESK := Desk([], [], NO_RING, [])
  const EMPTY := State(map[], [], map[], map[], multiset{})

  function DeskOf(s: State, sessionId: string): Desk {
    if sessionId in s.desks then s.desks[sessionId] else EMPTY_DESK
  }

  function WithDesk(s: State, sessionId: string, d: Desk): State { s.(desks := s.desks[sessionId := d]) }

  function Logged(d: Desk, e: Event): Desk { d.(log := d.log + [e]) }

  function ParcelsFor(sessionId: string, event: string, payload: string, hooks: seq<WebhookConfig>): seq<Parcel> {
    seq(|hooks|, i requires 0 <= i < |hooks| => Parcel(sessionId, event, hooks[i].url, hooks[i].secret, payload))
  }

  function ParcelOf(e: DeadLetters.Entry): Parcel { Parcel(e.sessionId, e.event, e.webhookUrl, e.secret, e.payload) }

  function MatchedAll(parcels: seq<Parcel>): seq<Event> {
    seq(|parcels|, i requires 0 <= i < |parcels| => Event(Matched, None, parcels[i], None, None))
  }

  /** The circuit's answer to a request at `now`. */
  predicate IsAdmitted(s: State, url: Url, now: Instant) { AllowStep(SlotOf(After(s.calls), url), now).1 }

  function Called(s: State, url: Url, op: Op, now: Instant): State { s.(calls := s.calls + [Call(url, op, now)]) }

  /** Whether a run that was admitted at `start` may report this result at `now`. */
  ghost predicate CanReport(c: Config, s: State, id: nat, replies: seq<Reply>, result: RunResult, now: Instant) {
    && id in s.flights && s.flights[id].stage.Trying?
    && IsRun(c, replies, result) && now >= s.flights[id].start + result.elapsed
  }

  ghost predicate Enabled(c: Config, s: State, a: Action) {
    match a
    case SetEnabled(sessionId, webhookId, _, _) => webhookId in HooksOf(s.webhooks, sessionId)
    case Broadcast(sessionId, _, _, order) => Lists(order, HooksOf(s.webhooks, sessionId))
    case Ask(sessionId, k, _) => k < |DeskOf(s, sessionId).waiting|
    case Note(url, _) => url in s.toNote
    case Succeed(id, replies, result, now) => CanReport(c, s, id, replies, result, now) && result.Delivered?
    case Fail(id, replies, result, now) => CanReport(c, s, id, replies, result, now) && result.Exhausted?
    case Letter(id, _, _) => id in s.flights && s.flights[id].stage.ToLetter?
    case Take(sessionId, entryId) =>
      var h := DeskOf(s, sessionId).ring;
      |h.at| == |h.ring| && DeadLetters.Position(h.ring, entryId) < |h.ring|
    case AskReplay(sessionId, k, _) => k < |DeskOf(s, sessionId).hands| && DeskOf(s, sessionId).hands[k].ToAsk?
    case PutBack(sessionId, k) => k < |DeskOf(s, sessionId).hands| && DeskOf(s, sessionId).hands[k].ToPutBack?
    case _ => true
  }

  function RingStep(c: Config, h: DeadLetters.History, op: DeadLetters.Op): DeadLetters.History {
    if |h.at| == |h.ring| then DeadLetters.Step(h, op, c.dlqCapacity) else h
  }

  function Admit(s: State, p: Parcel, now: Instant): State {
    s.(calls := s.calls + [Call(p.url, Allows, now)], flights := s.flights[|s.calls| := Flight(p, now, Trying)])
  }

  function Succeeded(s: State, id: nat, now: Instant): State
    requires id in s.flights
  {
    var p := s.flights[id].parcel;
    Called(WithDesk(s.(flights := s.flights - {id}), p.sessionId,
                    Logged(DeskOf(s, p.sessionId), Event(Arrived, Some(id), p, None, None))),
           p.url, Op.Success, now)
  }

  /** A replay call takes the first entry with this id. */
  function TakenUp(c: Config, s: State, sessionId: string, entryId: string): State
    requires var h := DeskOf(s, sessionId).ring; |h.at| == |h.ring| && DeadLetters.Position(h.ring, entryId) < |h.ring|
  {
    var d := DeskOf(s, sessionId);
    var p := DeadLetters.Position(d.ring.ring, entryId);
    WithDesk(s, sessionId, d.(ring := RingStep(c, d.ring, DeadLetters.TakeOp(entryId)),
                              hands := d.hands + [ToAsk(d.ring.ring[p], d.ring.at[p])]))
  }

  /** A replay call puts the entry it took back, as the newest one. */
  function PutIn(c: Config, s: State, sessionId: string, k: nat): State
    requires k < |DeskOf(s, sessionId).hands|
  {
    var d := DeskOf(s, sessionId);
    var hand := d.hands[k];
    WithDesk(s, sessionId, Logged(d.(hands := DeadLetters.RemoveAt(d.hands, k),
                                     ring := RingStep(c, d.ring, DeadLetters.PushOp(hand.entry))),
                                  Event(Returned, None, ParcelOf(hand.entry), Some(hand.number), Some(|d.ring.pushed|))))
  }

  /** A broadcast offers one of its targets to the circuit. */
  function Asked(s: State, sessionId: string, k: nat, now: Instant): State
    requires k < |DeskOf(s, sessionId).waiting|
  {
    var d := DeskOf(s, sessionId);
    var p := d.waiting[k];
    var d' := d.(waiting := DeadLetters.RemoveAt(d.waiting, k));
    if IsAdmitted(s, p.url, now) then
      WithDesk(Admit(s, p, now), sessionId, Logged(d', Event(Started, Some(|s.calls|), p, None, None)))
    else
      WithDesk(Called(s, p.url, Allows, now), sessionId, Logged(d', Event(Skipped, Some(|s.calls|), p, None, None)))
      .(toNote := s.toNote + multiset{p.url})
  }

  /** A replay call asks for the entry it took. */
  function AskedAgain(s: State, sessionId: string, k: nat, now: Instant): State
    requires k < |DeskOf(s, sessionId).hands|
  {
    var d := DeskOf(s, sessionId);
    var entry, number := d.hands[k].entry, d.hands[k].number;
    if IsAdmitted(s, entry.webhookUrl, now) then
      WithDesk(Admit(s, ParcelOf(entry), now), sessionId,
               Logged(d.(hands := DeadLetters.RemoveAt(d.hands, k)),
                      Event(Replayed, Some(|s.calls|), ParcelOf(entry), Some(number), None)))
    else
      WithDesk(Called(s, entry.webhookUrl, Allows, now), sessionId, d.(hands := d.hands[k := ToPutBack(entry, number)]))
  }

  function LetterOf(c: Config, f: Flight, entryId: string, failedAt: int): DeadLetters.Entry
    requires f.stage.ToLetter?
  {
    var p := f.parcel;
    DeadLetters.Entry(entryId, p.sessionId, p.url, p.event, p.payload, p.secret, f.stage.error, MaxAttempts(c), failedAt)
  }

  /** A failed run writes its dead letter and is over. */
  function Written(c: Config, s: State, id: nat, entryId: string, failedAt: int): State
    requires id in s.flights && s.flights[id].stage.ToLetter?
  {
    var sessionId := s.flights[id].parcel.sessionId;
    var d := DeskOf(s, sessionId);
    var entry := LetterOf(c, s.flights[id], entryId, failedAt);
    WithDesk(s.(flights := s.flights - {id}), sessionId,
             Logged(d.(ring := RingStep(c, d.ring, DeadLetters.PushOp(entry))),
                    Event(Lettered, Some(id), s.flights[id].parcel, None, Some(|d.ring.pushed|))))
  }

  ghost function Next(c: Config, s: State, a: Action): State {
    if !Enabled(c, s, a) then s else
    match a
    case Register(sessionId, webhookId, config) =>
      s.(webhooks := s.webhooks[sessionId := HooksOf(s.webhooks, sessionId)[webhookId := config]])
    case Unregister(sessionId, webhookId) =>
      s.(webhooks := s.webhooks[sessionId := HooksOf(s.webhooks, sessionId) - {webhookId}])
    case SetEnabled(sessionId, webhookId, enabled, now) =>
      var hooks := HooksOf(s.webhooks, sessionId);
      Called(s.(webhooks := s.webhooks[sessionId := hooks[webhookId := hooks[webhookId].(enabled := enabled)]]),
             hooks[webhookId].url, Op.Remove, now)
    case PurgeRegistry(sessionId) => s.(webhooks := s.webhooks - {sessionId})
    case PurgeRing(sessionId) =>
      var d := DeskOf(s, sessionId);
      WithDesk(s, sessionId, d.(ring := RingStep(c, d.ring, DeadLetters.PurgeOp)))
    case Reenable(url, now) => Called(s, url, Op.Reenable, now)
    case Broadcast(sessionId, event, payload, order) =>
      var targets := Targets(Listed(order, HooksOf(s.webhooks, sessionId)), event);
      var d, parcels := DeskOf(s, sessionId), ParcelsFor(sessionId, event, payload, targets);
      WithDesk(s, sessionId, d.(waiting := d.waiting + parcels, log := d.log + MatchedAll(parcels)))
    case Ask(sessionId, k, now) => Asked(s, sessionId, k, now)
    case Note(url, now) => Called(s.(toNote := s.toNote - multiset{url}), url, Op.NoteSkipped, now)
    case Succeed(id, _, _, now) => Succeeded(s, id, now)
    case Fail(id, _, result, now) =>
      var f := s.flights[id];
      Called(s.(flights := s.flights[id := f.(stage := ToLetter(result.error))]), f.parcel.url, Op.Failure(result.error), now)
    case Letter(id, entryId, failedAt) => Written(c, s, id, entryId, failedAt)
    case Take(sessionId, entryId) => TakenUp(c, s, sessionId, entryId)
    case AskReplay(sessionId, k, now) => AskedAgain(s, sessionId, k, now)
    case PutBack(sessionId, k) => PutIn(c, s, sessionId, k)
  }

  ghost function Run(c: Config, actions: seq<Action>): State {
    if actions == [] then EMPTY else Next(c, Run(c, actions[..|actions| - 1]), actions[|actions| - 1])
  }

  // ---------------------------------------------------------------- conservation

  function Count(log: seq<Event>, kind: Kind): nat {
    if log == [] then 0 else Count(log[..|log| - 1], kind) + if log[|log| - 1].kind == kind then 1 else 0
  }

  predicate IsStart(e: Event, id: nat) { (e.kind == Started || e.kind == Replayed) && e.id == Some(id) }
  predicate IsEnd(e: Event, id: nat) { (e.kind == Arrived || e.kind == Lettered) && e.id == Some(id) }

  function Starts(log: seq<Event>, id: nat): nat {
    if log == [] then 0 else Starts(log[..|log| - 1], id) + if IsStart(log[|log| - 1], id) then 1 else 0
  }

  function Ends(log: seq<Event>, id: nat): nat {
    if log == [] then 0 else Ends(log[..|log| - 1], id) + if IsEnd(log[|log| - 1], id) then 1 else 0
  }

  lemma LogGrows(log: seq<Event>, e: Event, kind: Kind, id: nat)
    ensures Count(log + [e], kind) == Count(log, kind) + if e.kind == kind then 1 else 0
    ensures Starts(log + [e], id) == Starts(log, id) + if IsStart(e, id) then 1 else 0
    ensures Ends(log + [e], id) == Ends(log, id) + if IsEnd(e, id) then 1 else 0
  {
    assert (log + [e])[..|log|] == log;
  }

  lemma {:induction false} MatchesLogged(log: seq<Event>, parcels: seq<Parcel>, kind: Kind, id: nat)
    ensures var after := log + MatchedAll(parcels);
            && Count(after, kind) == Count(log, kind) + (if kind == Matched then |parcels| else 0)
            && Starts(after, id) == Starts(log, id) && Ends(after, id) == Ends(log, id)
    decreases |parcels|
  {
    if parcels == [] {
      assert log + MatchedAll(parcels) == log;
    } else {
      var init, last := parcels[..|parcels| - 1], Event(Matched, None, parcels[|parcels| - 1], None, None);
      MatchesLogged(log, init, kind, id);
      LogGrows(log + MatchedAll(init), last, kind, id);
      assert log + MatchedAll(parcels) == log + MatchedAll(init) + [last];
    }
  }

  /** The session's deliveries in flight. */
  ghost function InFlight(s: State, sessionId: string): set<nat> {
    set id | id in s.flights && s.flights[id].parcel.sessionId == sessionId
  }

  /** Every matching event is still to be offered, skipped, in flight, delivered or dead-lettered; every
      dead letter written or put back is present, taken, evicted or purged; every entry taken is in a
      replay call's hands, delivered again, or put back. */
  ghost predicate Balanced(d: Desk, inFlight: nat) {
    && Count(d.log, Matched) + Count(d.log, Replayed)
       == |d.waiting| + Count(d.log, Skipped) + inFlight + Count(d.log, Arrived) + Count(d.log, Lettered)
    && |d.ring.pushed| == Count(d.log, Lettered) + Count(d.log, Returned)
    && DeadLetters.Count(d.ring.fate, DeadLetters.Taken) == Count(d.log, Replayed) + Count(d.log, Returned) + |d.hands|
  }

  ghost predicate OwnsAll(d: Desk, sessionId: string) {
    && (forall i :: 0 <= i < |d.waiting| ==> d.waiting[i].sessionId == sessionId)
    && (forall i :: 0 <= i < |d.hands| ==> d.hands[i].entry.sessionId == sessionId)
    && (forall i :: 0 <= i < |d.ring.pushed| ==> d.ring.pushed[i].sessionId == sessionId)
  }

  ghost predicate DeskInv(c: Config, s: State, sessionId: string) {
    var d := DeskOf(s, sessionId);
    && DeadLetters.Sound(d.ring, c.dlqCapacity)
    && OwnsAll(d, sessionId)
    && Balanced(d, |InFlight(s, sessionId)|)
  }

  /** A delivery is started once, and then either in flight or ended once. */
  ghost predicate RunInv(s: State, sessionId: string, id: nat) {
    var log := DeskOf(s, sessionId).log;
    && Starts(log, id) <= 1 && (id >= |s.calls| ==> Starts(log, id) == 0)
    && Starts(log, id) == Ends(log, id) + if id in InFlight(s, sessionId) then 1 else 0
  }

  /** A delivery in flight was admitted by the call it is named after. */
  ghost predicate FlightInv(s: State, id: nat) {
    id in s.flights ==>
      && id < |s.calls| && Admitted(s.calls, s.flights[id].parcel.url, id)
      && s.flights[id].start == s.calls[id].now
  }

  ghost predicate FlightsInv(s: State) { forall id :: FlightInv(s, id) }

  lemma FlightStays(s: State, s': State, id: nat)
    requires FlightInv(s, id) && id in s.flights && id in s'.flights
    requires s'.flights[id].parcel == s.flights[id].parcel && s'.flights[id].start == s.flights[id].start
    requires |s.calls| <= |s'.calls| && s'.calls[..|s.calls|] == s.calls
    ensures FlightInv(s', id)
  {
    AdmittedInPrefix(s'.calls, s.flights[id].parcel.url, id, |s.calls|);
    assert s'.calls[id] == s'.calls[..|s.calls|][id];
  }

  lemma AdmittedNow(s: State, url: Url, now: Instant)
    ensures var calls := s.calls + [Call(url, Allows, now)];
            calls[..|s.calls|] == s.calls && (Admitted(calls, url, |s.calls|) <==> IsAdmitted(s, url, now))
  {
    assert (s.calls + [Call(url, Allows, now)])[..|s.calls|] == s.calls;
  }

  /** Calls are only appended; a flight keeps its parcel and its start; a new one is named after the call
      that has just admitted it. */
  ghost predicate Extends(s: State, s': State) {
    && |s.calls| <= |s'.calls| && s'.calls[..|s.calls|] == s.calls
    && forall id :: id in s'.flights ==>
         if id in s.flights then s'.flights[id].parcel == s.flights[id].parcel && s'.flights[id].start == s.flights[id].start
         else id == |s.calls| && FlightInv(s', id)
  }

  lemma AskExtends(s: State, sessionId: string, k: nat, now: Instant)
    requires FlightsInv(s) && k < |DeskOf(s, sessionId).waiting|
    ensures Extends(s, Asked(s, sessionId, k, now))
  {
    AdmittedNow(s, DeskOf(s, sessionId).waiting[k].url, now);
    assert FlightInv(s, |s.calls|);
  }

  lemma AskAgainExtends(s: State, sessionId: string, k: nat, now: Instant)
    requires FlightsInv(s) && k < |DeskOf(s, sessionId).hands|
    ensures Extends(s, AskedAgain(s, sessionId, k, now))
  {
    AdmittedNow(s, DeskOf(s, sessionId).hands[k].entry.webhookUrl, now);
    assert FlightInv(s, |s.calls|);
  }

  lemma NextExtends(c: Config, s: State, a: Action)
    requires FlightsInv(s)
    ensures Extends(s, Next(c, s, a))
  {
    assert s.calls[..|s.calls|] == s.calls;
    if Enabled(c, s, a) {
      match a
      case Ask(sessionId, k, now) => AskExtends(s, sessionId, k, now);
      case AskReplay(sessionId, k, now) => AskAgainExtends(s, sessionId, k, now);
      case _ =>
    }
  }

  lemma NextKeepsFlights(c: Config, s: State, a: Action)
    requires FlightsInv(s)
    ensures FlightsInv(Next(c, s, a))
  {
    NextExtends(c, s, a);
    var s' := Next(c, s, a);
    forall id
      ensures FlightInv(s', id)
    {
      assert FlightInv(s, id);
      if id in s.flights && id in s'.flights {
        FlightStays(s, s', id);
      }
    }
  }

  lemma LoggedCounts(log: seq<Event>, e: Event)
    ensures forall kind :: Count(log + [e], kind) == Count(log, kind) + if e.kind == kind then 1 else 0
    ensures forall id :: Starts(log + [e], id) == Starts(log, id) + if IsStart(e, id) then 1 else 0
    ensures forall id :: Ends(log + [e], id) == Ends(log, id) + if IsEnd(e, id) then 1 else 0
  {
    forall kind ensures Count(log + [e], kind) == Count(log, kind) + if e.kind == kind then 1 else 0 {
      LogGrows(log, e, kind, 0);
    }
    forall id ensures Starts(log + [e], id) == Starts(log, id) + if IsStart(e, id) then 1 else 0 {
      LogGrows(log, e, e.kind, id);
    }
    forall id ensures Ends(log + [e], id) == Ends(log, id) + if IsEnd(e, id) then 1 else 0 {
      LogGrows(log, e, e.kind, id);
    }
  }

  /** All that is said about one session. */
  ghost predicate SessionInv(c: Config, s: State, sessionId: string) {
    DeskInv(c, s, sessionId) && forall id :: RunInv(s, sessionId, id)
  }

  lemma UntouchedSession(c: Config, s: State, s': State, t: string)
    requires SessionInv(c, s, t) && |s.calls| <= |s'.calls|
    requires DeskOf(s', t) == DeskOf(s, t) && InFlight(s', t) == InFlight(s, t)
    ensures SessionInv(c, s', t)
  {
    forall id ensures RunInv(s', t, id) {
      assert RunInv(s, t, id);
    }
  }

  lemma AdmitGrowsFlights(s: State, p: Parcel, now: Instant, t: string)
    requires FlightsInv(s)
    ensures InFlight(Admit(s, p, now), t) == InFlight(s, t) + if p.sessionId == t then {|s.calls|} else {}
    ensures |s.calls| !in InFlight(s, t)
  {
    assert FlightInv(s, |s.calls|);
  }

  /** What one more entry in the log means for the deliveries in flight. */
  ghost predicate Moves(s: State, s': State, t: string, e: Event) {
    var before, after := InFlight(s, t), InFlight(s', t);
    if e.kind == Started || e.kind == Replayed then
      e.id == Some(|s.calls|) && |s.calls| < |s'.calls| && |s.calls| !in before && after == before + {|s.calls|}
    else if e.kind == Arrived || e.kind == Lettered then e.id.Some? && e.id.value in before && after == before - {e.id.value}
    else after == before
  }

  lemma RunsKept(s: State, s': State, t: string, e: Event)
    requires (forall id :: RunInv(s, t, id)) && |s.calls| <= |s'.calls|
    requires DeskOf(s', t).log == DeskOf(s, t).log + [e] && Moves(s, s', t, e)
    ensures forall id :: RunInv(s', t, id)
  {
    LoggedCounts(DeskOf(s, t).log, e);
    forall id ensures RunInv(s', t, id) {
      assert RunInv(s, t, id);
    }
  }

  /** The session after one action: the same deliveries, or one more entry in the log. */
  lemma SessionKept(c: Config, s: State, s': State, t: string, e: Event)
    requires SessionInv(c, s, t) && DeskInv(c, s', t) && |s.calls| <= |s'.calls|
    requires DeskOf(s', t).log == DeskOf(s, t).log + [e] && Moves(s, s', t, e)
    ensures SessionInv(c, s', t)
  {
    RunsKept(s, s', t, e);
  }

  lemma SessionKeptQuiet(c: Config, s: State, s': State, t: string)
    requires SessionInv(c, s, t) && DeskInv(c, s', t) && |s.calls| <= |s'.calls|
    requires DeskOf(s', t).log == DeskOf(s, t).log && InFlight(s', t) == InFlight(s, t)
    ensures SessionInv(c, s', t)
  {
    forall id ensures RunInv(s', t, id) {
      assert RunInv(s, t, id);
    }
  }

  // One lemma for each action that touches a desk, at the desk it touches.

  lemma BroadcastKeeps(c: Config, s: State, a: Action)
    requires a.Broadcast? && Enabled(c, s, a) && SessionInv(c, s, a.sessionId)
    ensures SessionInv(c, Next(c, s, a), a.sessionId)
  {
    var s' := Next(c, s, a);
    var parcels := ParcelsFor(a.sessionId, a.event, a.payload, Targets(Listed(a.order, HooksOf(s.webhooks, a.sessionId)), a.event));
    var log := DeskOf(s, a.sessionId).log;
    forall kind ensures Count(DeskOf(s', a.sessionId).log, kind) == Count(log, kind) + if kind == Matched then |parcels| else 0 {
      MatchesLogged(log, parcels, kind, 0);
    }
    assert InFlight(s', a.sessionId) == InFlight(s, a.sessionId);
    forall id ensures RunInv(s', a.sessionId, id) {
      MatchesLogged(log, parcels, Matched, id);
      assert RunInv(s, a.sessionId, id);
    }
  }

  lemma AdmittedKeeps(c: Config, s: State, sessionId: string, k: nat, now: Instant)
    requires FlightsInv(s) && k < |DeskOf(s, sessionId).waiting| && SessionInv(c, s, sessionId)
    requires IsAdmitted(s, DeskOf(s, sessionId).waiting[k].url, now)
    ensures SessionInv(c, Asked(s, sessionId, k, now), sessionId)
  {
    var d := DeskOf(s, sessionId);
    var s' := Asked(s, sessionId, k, now);
    DeadLetters.RemovedAt(d.waiting, k);
    AdmitGrowsFlights(s, d.waiting[k], now, sessionId);
    assert InFlight(s', sessionId) == InFlight(s, sessionId) + {|s.calls|};
    var e := Event(Started, Some(|s.calls|), d.waiting[k], None, None);
    LoggedCounts(d.log, e);
    SessionKept(c, s, s', sessionId, e);
  }

  lemma SkippedKeeps(c: Config, s: State, sessionId: string, k: nat, now: Instant)
    requires k < |DeskOf(s, sessionId).waiting| && SessionInv(c, s, sessionId)
    requires !IsAdmitted(s, DeskOf(s, sessionId).waiting[k].url, now)
    ensures SessionInv(c, Asked(s, sessionId, k, now), sessionId)
  {
    var d := DeskOf(s, sessionId);
    var s' := Asked(s, sessionId, k, now);
    DeadLetters.RemovedAt(d.waiting, k);
    assert InFlight(s', sessionId) == InFlight(s, sessionId);
    var e := Event(Skipped, Some(|s.calls|), d.waiting[k], None, None);
    LoggedCounts(d.log, e);
    SessionKept(c, s, s', sessionId, e);
  }

  lemma AskKeeps(c: Config, s: State, sessionId: string, k: nat, now: Instant)
    requires FlightsInv(s) && k < |DeskOf(s, sessionId).waiting| && SessionInv(c, s, sessionId)
    ensures SessionInv(c, Asked(s, sessionId, k, now), sessionId)
  {
    if IsAdmitted(s, DeskOf(s, sessionId).waiting[k].url, now) {
      AdmittedKeeps(c, s, sessionId, k, now);
    } else {
      SkippedKeeps(c, s, sessionId, k, now);
    }
  }

  lemma ReplayKeeps(c: Config, s: State, sessionId: string, k: nat, now: Instant)
    requires FlightsInv(s) && k < |DeskOf(s, sessionId).hands| && SessionInv(c, s, sessionId)
    requires IsAdmitted(s, DeskOf(s, sessionId).hands[k].entry.webhookUrl, now)
    ensures SessionInv(c, AskedAgain(s, sessionId, k, now), sessionId)
  {
    var d := DeskOf(s, sessionId);
    var s' := AskedAgain(s, sessionId, k, now);
    DeadLetters.RemovedAt(d.hands, k);
    AdmitGrowsFlights(s, ParcelOf(d.hands[k].entry), now, sessionId);
    assert InFlight(s', sessionId) == InFlight(s, sessionId) + {|s.calls|};
    var e := Event(Replayed, Some(|s.calls|), ParcelOf(d.hands[k].entry), Some(d.hands[k].number), None);
    LoggedCounts(d.log, e);
    SessionKept(c, s, s', sessionId, e);
  }

  lemma TurnedAwayKeeps(c: Config, s: State, sessionId: string, k: nat, now: Instant)
    requires k < |DeskOf(s, sessionId).hands| && SessionInv(c, s, sessionId)
    requires !IsAdmitted(s, DeskOf(s, sessionId).hands[k].entry.webhookUrl, now)
    ensures SessionInv(c, AskedAgain(s, sessionId, k, now), sessionId)
  {
    var s' := AskedAgain(s, sessionId, k, now);
    assert InFlight(s', sessionId) == InFlight(s, sessionId);
    SessionKeptQuiet(c, s, s', sessionId);
  }

  lemma AskAgainKeeps(c: Config, s: State, sessionId: string, k: nat, now: Instant)
    requires FlightsInv(s) && k < |DeskOf(s, sessionId).hands| && SessionInv(c, s, sessionId)
    ensures SessionInv(c, AskedAgain(s, sessionId, k, now), sessionId)
  {
    if IsAdmitted(s, DeskOf(s, sessionId).hands[k].entry.webhookUrl, now) {
      ReplayKeeps(c, s, sessionId, k, now);
    } else {
      TurnedAwayKeeps(c, s, sessionId, k, now);
    }
  }

  lemma RingKeeps(c: Config, h: DeadLetters.History, op: DeadLetters.Op)
    requires DeadLetters.Sound(h, c.dlqCapacity)
    ensures var h' := RingStep(c, h, op);
            && DeadLetters.Sound(h', c.dlqCapacity)
            && h'.pushed == (if op.PushOp? then h.pushed + [op.entry] else h.pushed)
            && DeadLetters.Count(h'.fate, DeadLetters.Taken)
               == DeadLetters.Count(h.fate, DeadLetters.Taken)
                  + if op.TakeOp? && DeadLetters.Position(h.ring, op.id) < |h.ring| then 1 else 0
  {
    DeadLetters.StepKeepsSound(h, op, c.dlqCapacity);
    DeadLetters.StepCountsTaken(h, op, c.dlqCapacity);
  }

  lemma SucceededKeeps(c: Config, s: State, id: nat, now: Instant, t: string)
    requires id in s.flights && t == s.flights[id].parcel.sessionId && SessionInv(c, s, t)
    ensures SessionInv(c, Succeeded(s, id, now), t)
  {
    var s' := Succeeded(s, id, now);
    var e := Event(Arrived, Some(id), s.flights[id].parcel, None, None);
    LoggedCounts(DeskOf(s, t).log, e);
    assert InFlight(s', t) == InFlight(s, t) - {id} && id in InFlight(s, t);
    SessionKept(c, s, s', t, e);
  }

  lemma LetterKeepsDesk(c: Config, d: Desk, entry: DeadLetters.Entry, e: Event, n: nat, t: string)
    requires DeadLetters.Sound(d.ring, c.dlqCapacity) && OwnsAll(d, t) && entry.sessionId == t && Balanced(d, n + 1)
    requires e.kind == Lettered
    ensures var d' := Logged(d.(ring := RingStep(c, d.ring, DeadLetters.PushOp(entry))), e);
            DeadLetters.Sound(d'.ring, c.dlqCapacity) && OwnsAll(d', t) && Balanced(d', n)
  {
    RingKeeps(c, d.ring, DeadLetters.PushOp(entry));
    LoggedCounts(d.log, e);
  }

  lemma WrittenKeeps(c: Config, s: State, id: nat, entryId: string, failedAt: int, t: string)
    requires id in s.flights && s.flights[id].stage.ToLetter? && t == s.flights[id].parcel.sessionId && SessionInv(c, s, t)
    ensures SessionInv(c, Written(c, s, id, entryId, failedAt), t)
  {
    var s' := Written(c, s, id, entryId, failedAt);
    var entry := LetterOf(c, s.flights[id], entryId, failedAt);
    assert InFlight(s', t) == InFlight(s, t) - {id} && id in InFlight(s, t);
    var e := Event(Lettered, Some(id), s.flights[id].parcel, None, Some(|DeskOf(s, t).ring.pushed|));
    LetterKeepsDesk(c, DeskOf(s, t), entry, e, |InFlight(s', t)|, t);
    assert DeskInv(c, s', t);
    SessionKept(c, s, s', t, e);
  }

  lemma TakenUpKeeps(c: Config, s: State, t: string, entryId: string)
    requires SessionInv(c, s, t)
    requires var h := DeskOf(s, t).ring; |h.at| == |h.ring| && DeadLetters.Position(h.ring, entryId) < |h.ring|
    ensures SessionInv(c, TakenUp(c, s, t, entryId), t)
  {
    var d := DeskOf(s, t);
    RingKeeps(c, d.ring, DeadLetters.TakeOp(entryId));
    var p := DeadLetters.Position(d.ring.ring, entryId);
    assert d.ring.ring[p] == d.ring.pushed[d.ring.at[p]];
    var s' := TakenUp(c, s, t, entryId);
    assert InFlight(s', t) == InFlight(s, t);
    SessionKeptQuiet(c, s, s', t);
  }

  lemma ReturnKeepsDesk(c: Config, d: Desk, k: nat, e: Event, n: nat, t: string)
    requires e.kind == Returned
    requires DeadLetters.Sound(d.ring, c.dlqCapacity) && OwnsAll(d, t) && k < |d.hands| && Balanced(d, n)
    ensures var ring := RingStep(c, d.ring, DeadLetters.PushOp(d.hands[k].entry));
            var after := Logged(d.(hands := DeadLetters.RemoveAt(d.hands, k), ring := ring), e);
            DeadLetters.Sound(after.ring, c.dlqCapacity) && OwnsAll(after, t) && Balanced(after, n)
  {
    RingKeeps(c, d.ring, DeadLetters.PushOp(d.hands[k].entry));
    DeadLetters.RemovedAt(d.hands, k);
    LoggedCounts(d.log, e);
  }

  lemma PutInKeeps(c: Config, s: State, t: string, k: nat)
    requires k < |DeskOf(s, t).hands| && SessionInv(c, s, t)
    ensures SessionInv(c, PutIn(c, s, t, k), t)
  {
    var s' := PutIn(c, s, t, k);
    assert InFlight(s', t) == InFlight(s, t);
    var d := DeskOf(s, t);
    var e := Event(Returned, None, ParcelOf(d.hands[k].entry), Some(d.hands[k].number), Some(|d.ring.pushed|));
    ReturnKeepsDesk(c, d, k, e, |InFlight(s, t)|, t);
    assert DeskInv(c, s', t);
    SessionKept(c, s, s', t, e);
  }

  lemma PurgeKeeps(c: Config, s: State, a: Action)
    requires a.PurgeRing? && SessionInv(c, s, a.sessionId)
    ensures SessionInv(c, Next(c, s, a), a.sessionId)
  {
    RingKeeps(c, DeskOf(s, a.sessionId).ring, DeadLetters.PurgeOp);
    assert InFlight(Next(c, s, a), a.sessionId) == InFlight(s, a.sessionId);
    SessionKeptQuiet(c, s, Next(c, s, a), a.sessionId);
  }

  /** The session whose desk or flights an action changes. */
  ghost function Touched(s: State, a: Action): Option<string> {
    match a
    case PurgeRing(sessionId) => Some(sessionId)
    case Broadcast(sessionId, _, _, _) => Some(sessionId)
    case Ask(sessionId, _, _) => Some(sessionId)
    case Succeed(id, _, _, _) => if id in s.flights then Some(s.flights[id].parcel.sessionId) else None
    case Letter(id, _, _) => if id in s.flights then Some(s.flights[id].parcel.sessionId) else None
    case Take(sessionId, _) => Some(sessionId)
    case AskReplay(sessionId, _, _) => Some(sessionId)
    case PutBack(sessionId, _) => Some(sessionId)
    case _ => None
  }

  lemma AskSparesOthers(s: State, sessionId: string, k: nat, now: Instant, t: string)
    requires FlightsInv(s) && k < |DeskOf(s, sessionId).waiting| && OwnsAll(DeskOf(s, sessionId), sessionId) && t != sessionId
    ensures var s' := Asked(s, sessionId, k, now);
            DeskOf(s', t) == DeskOf(s, t) && InFlight(s', t) == InFlight(s, t)
  {
    AdmitGrowsFlights(s, DeskOf(s, sessionId).waiting[k], now, t);
    assert InFlight(Asked(s, sessionId, k, now), t) == InFlight(s, t);
  }

  lemma AskAgainSparesOthers(s: State, sessionId: string, k: nat, now: Instant, t: string)
    requires FlightsInv(s) && k < |DeskOf(s, sessionId).hands| && OwnsAll(DeskOf(s, sessionId), sessionId) && t != sessionId
    ensures var s' := AskedAgain(s, sessionId, k, now);
            DeskOf(s', t) == DeskOf(s, t) && InFlight(s', t) == InFlight(s, t)
  {
    AdmitGrowsFlights(s, ParcelOf(DeskOf(s, sessionId).hands[k].entry), now, t);
    assert InFlight(AskedAgain(s, sessionId, k, now), t) == InFlight(s, t);
  }

  lemma EndSparesOthers(c: Config, s: State, id: nat, now: Instant, entryId: string, failedAt: int, t: string)
    requires id in s.flights && t != s.flights[id].parcel.sessionId
    ensures var s' := Succeeded(s, id, now);
            DeskOf(s', t) == DeskOf(s, t) && InFlight(s', t) == InFlight(s, t)
    ensures s.flights[id].stage.ToLetter? ==>
              var s' := Written(c, s, id, entryId, failedAt);
              DeskOf(s', t) == DeskOf(s, t) && InFlight(s', t) == InFlight(s, t)
  {
    assert InFlight(Succeeded(s, id, now), t) == InFlight(s, t);
    if s.flights[id].stage.ToLetter? {
      assert InFlight(Written(c, s, id, entryId, failedAt), t) == InFlight(s, t);
    }
  }

  lemma DeskSparesOthers(c: Config, s: State, a: Action, t: string)
    requires Enabled(c, s, a) && (a.PurgeRing? || a.Broadcast? || a.Take? || a.PutBack?) && a.sessionId != t
    ensures DeskOf(Next(c, s, a), t) == DeskOf(s, t) && InFlight(Next(c, s, a), t) == InFlight(s, t)
  {
  }

  lemma FailSparesDesks(c: Config, s: State, a: Action, t: string)
    requires Enabled(c, s, a) && a.Fail?
    ensures DeskOf(Next(c, s, a), t) == DeskOf(s, t) && InFlight(Next(c, s, a), t) == InFlight(s, t)
  {
    assert InFlight(Next(c, s, a), t) == InFlight(s, t);
  }

  lemma RestSparesDesks(c: Config, s: State, a: Action, t: string)
    requires Enabled(c, s, a) && Touched(s, a).None? && !a.Fail?
    ensures DeskOf(Next(c, s, a), t) == DeskOf(s, t) && InFlight(Next(c, s, a), t) == InFlight(s, t)
  {
    assert Next(c, s, a).desks == s.desks && Next(c, s, a).flights == s.flights;
  }

  lemma OthersUntouched(c: Config, s: State, a: Action, t: string)
    requires FlightsInv(s) && Enabled(c, s, a) && Touched(s, a) != Some(t)
    requires forall sessionId :: OwnsAll(DeskOf(s, sessionId), sessionId)
    ensures DeskOf(Next(c, s, a), t) == DeskOf(s, t) && InFlight(Next(c, s, a), t) == InFlight(s, t)
  {
    match a
    case Ask(sessionId, k, now) =>
      assert OwnsAll(DeskOf(s, sessionId), sessionId);
      AskSparesOthers(s, sessionId, k, now, t);
    case AskReplay(sessionId, k, now) =>
      assert OwnsAll(DeskOf(s, sessionId), sessionId);
      AskAgainSparesOthers(s, sessionId, k, now, t);
    case Succeed(id, _, _, now) => EndSparesOthers(c, s, id, now, "", 0, t);
    case Letter(id, entryId, failedAt) => EndSparesOthers(c, s, id, 0, entryId, failedAt, t);
    case Fail(_, _, _, _) => FailSparesDesks(c, s, a, t);
    case _ =>
      if Touched(s, a).None? {
        RestSparesDesks(c, s, a, t);
      } else {
        DeskSparesOthers(c, s, a, t);
      }
  }

  ghost predicate Inv(c: Config, s: State) {
    FlightsInv(s) && forall t :: SessionInv(c, s, t)
  }

  lemma TouchedKeeps(c: Config, s: State, a: Action, t: string)
    requires FlightsInv(s) && Enabled(c, s, a) && Touched(s, a) == Some(t) && SessionInv(c, s, t)
    ensures SessionInv(c, Next(c, s, a), t)
  {
    match a
    case PurgeRing(_) => PurgeKeeps(c, s, a);
    case Broadcast(_, _, _, _) => BroadcastKeeps(c, s, a);
    case Ask(sessionId, k, now) => AskKeeps(c, s, sessionId, k, now);
    case Succeed(id, _, _, now) => SucceededKeeps(c, s, id, now, t);
    case Letter(id, entryId, failedAt) => WrittenKeeps(c, s, id, entryId, failedAt, t);
    case Take(_, entryId) => TakenUpKeeps(c, s, t, entryId);
    case AskReplay(sessionId, k, now) => AskAgainKeeps(c, s, sessionId, k, now);
    case PutBack(_, k) => PutInKeeps(c, s, t, k);
  }

  lemma NextKeepsInv(c: Config, s: State, a: Action)
    requires Inv(c, s)
    ensures Inv(c, Next(c, s, a))
  {
    NextKeepsFlights(c, s, a);
    NextExtends(c, s, a);
    if Enabled(c, s, a) {
      forall t ensures SessionInv(c, Next(c, s, a), t) {
        assert SessionInv(c, s, t);
        if Touched(s, a) == Some(t) {
          TouchedKeeps(c, s, a, t);
        } else {
          assert forall u :: SessionInv(c, s, u) ==> OwnsAll(DeskOf(s, u), u);
          OthersUntouched(c, s, a, t);
          UntouchedSession(c, s, Next(c, s, a), t);
        }
      }
    }
  }

  lemma EmptyInv(c: Config)
    ensures Inv(c, EMPTY)
  {
    forall t ensures SessionInv(c, EMPTY, t) {
      assert InFlight(EMPTY, t) == {};
    }
  }

  lemma {:induction false} RunsKeepInv(c: Config, actions: seq<Action>)
    ensures Inv(c, Run(c, actions))
  {
    if actions == [] {
      EmptyInv(c);
    } else {
      RunsKeepInv(c, actions[..|actions| - 1]);
      NextKeepsInv(c, Run(c, actions[..|actions| - 1]), actions[|actions| - 1]);
    }
  }

  /** For every run and every session: matching events are still waiting to be offered, skipped, in flight,
      delivered, or dead-lettered, where a replay counts as one more event; dead letters, and entries put
      back, are present, taken, evicted or purged; and entries taken are replayed, put back, or held. */
  lemma NothingIsLost(c: Config, actions: seq<Action>, sessionId: string)
    ensures var s := Run(c, actions);
            var d := DeskOf(s, sessionId);
            var fate := d.ring.fate;
            var taken := DeadLetters.Count(fate, DeadLetters.Taken);
            && Count(d.log, Matched) + Count(d.log, Replayed)
               == |d.waiting| + Count(d.log, Skipped) + |InFlight(s, sessionId)| + Count(d.log, Arrived) + Count(d.log, Lettered)
            && Count(d.log, Lettered) + Count(d.log, Returned)
               == |d.ring.ring| + taken + DeadLetters.Count(fate, DeadLetters.Evicted) + DeadLetters.Count(fate, DeadLetters.Purged)
            && taken == Count(d.log, Replayed) + Count(d.log, Returned) + |d.hands|
            && |d.ring.ring| <= c.dlqCapacity
  {
    RunsKeepInv(c, actions);
    var s := Run(c, actions);
    assert SessionInv(c, s, sessionId);
    DeadLetters.SoundAddsUp(DeskOf(s, sessionId).ring, c.dlqCapacity);
  }

  /** The replays cancel out: every matching event is in exactly one place. */
  lemma EveryEventIsSomewhere(c: Config, actions: seq<Action>, sessionId: string)
    ensures var s := Run(c, actions);
            var d := DeskOf(s, sessionId);
            Count(d.log, Matched)
            == |d.waiting| + Count(d.log, Skipped) + |InFlight(s, sessionId)| + Count(d.log, Arrived)
               + |d.ring.ring| + |d.hands| + DeadLetters.Count(d.ring.fate, DeadLetters.Evicted)
               + DeadLetters.Count(d.ring.fate, DeadLetters.Purged)
  {
    NothingIsLost(c, actions, sessionId);
  }

  /** Every delivery that was started is in flight, or ended in exactly one success or one dead letter;
      nothing ends that was not started. */
  lemma EndsExactlyOnce(c: Config, actions: seq<Action>, sessionId: string, id: nat)
    ensures var s := Run(c, actions);
            var log := DeskOf(s, sessionId).log;
            && Starts(log, id) <= 1
            && Starts(log, id) == Ends(log, id) + if id in InFlight(s, sessionId) then 1 else 0
  {
    RunsKeepInv(c, actions);
    assert SessionInv(c, Run(c, actions), sessionId);
    assert RunInv(Run(c, actions), sessionId, id);
  }

  lemma PushEvicts(c: Config, h: DeadLetters.History, e: DeadLetters.Entry)
    requires DeadLetters.Sound(h, c.dlqCapacity)
    ensures DeadLetters.Count(RingStep(c, h, DeadLetters.PushOp(e)).fate, DeadLetters.Evicted)
         == DeadLetters.Count(h.fate, DeadLetters.Evicted) + if |h.ring| == c.dlqCapacity then 1 else 0
  {
    DeadLetters.StepCountsEvicted(h, e, c.dlqCapacity);
  }

  /** Putting a replayed entry back evicts another exactly when the ring has filled up since it was taken. */
  lemma PutBackEvictsExactlyWhen(c: Config, actions: seq<Action>, a: Action)
    requires a.PutBack? && Enabled(c, Run(c, actions), a)
    ensures var before := DeskOf(Run(c, actions), a.sessionId).ring;
            var after := DeskOf(Next(c, Run(c, actions), a), a.sessionId).ring;
            DeadLetters.Count(after.fate, DeadLetters.Evicted) > DeadLetters.Count(before.fate, DeadLetters.Evicted)
            <==> |before.ring| == c.dlqCapacity
  {
    var s := Run(c, actions);
    RunsKeepInv(c, actions);
    NextKeepsInv(c, s, a);
    assert SessionInv(c, s, a.sessionId) && SessionInv(c, Next(c, s, a), a.sessionId);
    var d := DeskOf(s, a.sessionId);
    RingKeeps(c, d.ring, DeadLetters.PushOp(d.hands[a.k].entry));
    PushEvicts(c, d.ring, d.hands[a.k].entry);
  }
}
