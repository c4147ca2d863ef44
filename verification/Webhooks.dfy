/**
  The shared webhook state of `src/state.rs`: the circuit table, the dead-letter rings and the
  registry, changed in place by the methods below.
*/
module Webhooks {
  import opened Wrappers
  import opened Circuit
  import opened Retry
  import DeadLetters

  datatype EventFilter = All | Named(name: string)

  datatype WebhookConfig = WebhookConfig(url: Url, events: seq<EventFilter>, enabled: bool, secret: Option<string>)

  datatype RetryConfig = RetryConfig(maxAttempts: usize, retryOn4xx: bool, dlqCapacity: nat)

  /** What one HTTP attempt came back with, and how long it took. */
  datatype Reply =
    | Status(code: nat, line: string, took: nat)
    | TransportError(text: string, took: nat)

  // ---------------------------------------------------------------- one delivery run

  predicate IsSuccess(r: Reply) { r.Status? && 200 <= r.code < 300 }

  /** A rejection that is not retried: only with `retryOn4xx` off, and never 408 or 429. */
  predicate IsPermanent(cfg: RetryConfig, r: Reply) {
    !cfg.retryOn4xx && r.Status? && 400 <= r.code < 500 && r.code != 408 && r.code != 429
  }

  function ErrorText(r: Reply): string {
    match r
    case Status(_, line, _) => "HTTP " + line
    case TransportError(text, _) => text
  }

  function MaxAttempts(cfg: RetryConfig): usize { if cfg.maxAttempts == 0 then 1 else cfg.maxAttempts }

  datatype RunResult = Delivered(tries: usize, elapsed: nat) | Exhausted(tries: usize, elapsed: nat, error: string)

  /** Nanoseconds spent on the first `n` attempts: back-off before each, then its reply. */
  function Elapsed(replies: seq<Reply>, n: usize): nat
    requires n <= |replies|
  {
    if n == 0 then 0 else Elapsed(replies, n - 1) + RetryDelay(n - 1) * SECOND + replies[n - 1].took
  }

  /** `result` is what a run does whose attempts would come back with `replies`. */
  ghost predicate IsRun(cfg: RetryConfig, replies: seq<Reply>, result: RunResult) {
    var n := result.tries;
    && 1 <= n <= MaxAttempts(cfg) && n <= |replies|
    && (forall k :: 0 <= k < n - 1 ==> !IsSuccess(replies[k]) && !IsPermanent(cfg, replies[k]))
    && (result.Delivered? <==> IsSuccess(replies[n - 1]))
    && (result.Exhausted? ==>
          && (n == MaxAttempts(cfg) || IsPermanent(cfg, replies[n - 1]))
          && result.error == ErrorText(replies[n - 1]))
    && result.elapsed == Elapsed(replies, n)
  }

  /** The attempt loop of `deliver_webhook`; it touches no shared state. */
  method AttemptLoop(cfg: RetryConfig, replies: seq<Reply>) returns (result: RunResult)
    requires |replies| >= MaxAttempts(cfg)
    ensures IsRun(cfg, replies, result)
  {
    var max := MaxAttempts(cfg);
    var lastErr: Option<string> := None;
    var attempt: usize := 0;
    var elapsed := 0;
    while attempt < max
      invariant attempt <= max
      invariant forall k :: 0 <= k < attempt ==> !IsSuccess(replies[k]) && !IsPermanent(cfg, replies[k])
      invariant attempt > 0 ==> lastErr == Some(ErrorText(replies[attempt - 1]))
      invariant elapsed == Elapsed(replies, attempt)
    {
      var r := replies[attempt];
      elapsed := elapsed + RetryDelay(attempt) * SECOND + r.took;
      if IsSuccess(r) {
        return Delivered(attempt + 1, elapsed);
      }
      lastErr := Some(ErrorText(r));
      if IsPermanent(cfg, r) {
        return Exhausted(attempt + 1, elapsed, lastErr.value);
      }
      attempt := attempt + 1;
    }
    return Exhausted(max, elapsed, lastErr.value);
  }

  /** The replies decide the run. */
  lemma RunIsUnique(cfg: RetryConfig, replies: seq<Reply>, a: RunResult, b: RunResult)
    requires IsRun(cfg, replies, a) && IsRun(cfg, replies, b)
    ensures a == b
  {
  }

  lemma {:induction false} ElapsedBound(replies: seq<Reply>, n: usize)
    requires n <= |replies|
    requires forall k :: 0 <= k < |replies| ==> replies[k].took <= CLIENT_TIMEOUT * SECOND
    ensures Elapsed(replies, n) <= LongestRun(n) * SECOND
  {
    if n > 0 {
      ElapsedBound(replies, n - 1);
      assert TotalSleep(n) == TotalSleep(n - 1) + RetryDelay(n - 1);
    }
  }

  /** With the client timeout on every attempt, a run of at most six attempts reports while its
      probe is still the current one. */
  lemma RunReportsInTime(cfg: RetryConfig, replies: seq<Reply>, result: RunResult)
    requires IsRun(cfg, replies, result)
    requires forall k :: 0 <= k < |replies| ==> replies[k].took <= CLIENT_TIMEOUT * SECOND
    requires MaxAttempts(cfg) <= 6
    ensures result.elapsed <= LongestRun(MaxAttempts(cfg)) * SECOND < PROBE_TIMEOUT
  {
    ElapsedBound(replies, result.tries);
    SleepGrows(result.tries, MaxAttempts(cfg));
    RunOutlivesProbe(MaxAttempts(cfg));
  }

  /** The dead-letter entry records the configured maximum as its number of attempts. That is the
      number made exactly when no reply before the last possible one was a permanent rejection. */
  lemma RecordedAttempts(cfg: RetryConfig, replies: seq<Reply>, result: RunResult)
    requires IsRun(cfg, replies, result) && result.Exhausted?
    ensures result.tries == MaxAttempts(cfg)
       <==> forall k :: 0 <= k < MaxAttempts(cfg) - 1 && k < |replies| ==> !IsPermanent(cfg, replies[k])
  {
  }

  /** With WEBHOOK_RETRY_ON_4XX off, one 401 is dead-lettered as three attempts. */
  lemma OneAttemptRecordedAsThree(replies: seq<Reply>)
    requires |replies| >= 3 && replies[0] == Status(401, "401 Unauthorized", 0)
    ensures var cfg := RetryConfig(3, false, 100);
            IsRun(cfg, replies, Exhausted(1, 0, "HTTP 401 Unauthorized")) && MaxAttempts(cfg) == 3
  {
    assert Elapsed(replies, 1) == Elapsed(replies, 0) + RetryDelay(0) * SECOND + replies[0].took;
  }

  /** A run delivers exactly when one of the replies it may wait for is a 2xx, and with retrying on 4xx off no
      reply before it is a 4xx other than 408 and 429; what it reports otherwise is the last reply's text. */
  lemma DeliversExactlyWhen(cfg: RetryConfig, replies: seq<Reply>, result: RunResult)
    requires IsRun(cfg, replies, result) && |replies| >= MaxAttempts(cfg)
    ensures var most := if cfg.maxAttempts > 1 then cfg.maxAttempts else 1;
            result.Delivered? <==>
              exists k :: 0 <= k < most && replies[k].Status? && 200 <= replies[k].code <= 299
                && (cfg.retryOn4xx || forall j :: 0 <= j < k && replies[j].Status? && 400 <= replies[j].code <= 499
                                                  ==> replies[j].code == 408 || replies[j].code == 429)
    ensures result.Exhausted? ==>
              result.error == match replies[result.tries - 1] case Status(_, line, _) => "HTTP " + line case TransportError(text, _) => text
  {
    var last := result.tries - 1;
    if result.Delivered? {
      assert replies[last].Status? && 200 <= replies[last].code <= 299;
    } else if last + 1 < MaxAttempts(cfg) {
      assert IsPermanent(cfg, replies[last]);
    }
  }

  /** What the replies of the first `n` attempts took together. */
  function Took(replies: seq<Reply>, n: nat): nat
    requires n <= |replies|
  {
    if n == 0 then 0 else Took(replies, n - 1) + replies[n - 1].took
  }

  /** A run lasts for its sleeps and its replies. */
  lemma {:induction false} ElapsedMeans(replies: seq<Reply>, n: usize)
    requires n <= |replies|
    ensures Elapsed(replies, n) == TotalSleep(n) * SECOND + Took(replies, n)
  {
    if n > 0 {
      ElapsedMeans(replies, n - 1);
    }
  }

  // ---------------------------------------------------------------- fan-out of one event

  predicate Matches(config: WebhookConfig, event: string) {
    exists i :: 0 <= i < |config.events| && (config.events[i].All? || config.events[i] == Named(event))
  }

  predicate Eligible(config: WebhookConfig, event: string) { config.enabled && Matches(config, event) }

  /** The enabled webhooks that want this event. */
  function Targets(webhooks: seq<WebhookConfig>, event: string): seq<WebhookConfig> {
    if webhooks == [] then []
    else
      var last := webhooks[|webhooks| - 1];
      Targets(webhooks[..|webhooks| - 1], event) + if Eligible(last, event) then [last] else []
  }

  /** A webhook is a target, as often as it is listed, exactly when it is enabled and filters for everything
      or for this very event. */
  lemma {:induction false} TargetsMeans(webhooks: seq<WebhookConfig>, event: string, w: WebhookConfig)
    ensures multiset(Targets(webhooks, event))[w]
         == if w.enabled && (All in w.events || Named(event) in w.events) then multiset(webhooks)[w] else 0
  {
    if webhooks != [] {
      var init, last := webhooks[..|webhooks| - 1], webhooks[|webhooks| - 1];
      TargetsMeans(init, event, w);
      assert webhooks == init + [last];
    }
  }

  datatype Fanout = Fanout(calls: seq<Call>, started: seq<WebhookConfig>, skipped: seq<WebhookConfig>)

  function Replay(t: Table, calls: seq<Call>): Table {
    if calls == [] then t else Apply(Replay(t, calls[..|calls| - 1]), calls[|calls| - 1])
  }

  /** What a broadcast does to a circuit table: one question per target, and a note for each no. */
  function FanoutOf(t: Table, webhooks: seq<WebhookConfig>, event: string, clock: seq<Instant>): Fanout
    requires |clock| == |webhooks|
  {
    if webhooks == [] then Fanout([], [], [])
    else
      var k := |webhooks| - 1;
      var f := FanoutOf(t, webhooks[..k], event, clock[..k]);
      var w := webhooks[k];
      var ask := Call(w.url, Allows, clock[k]);
      if !Eligible(w, event) then f
      else if AllowStep(SlotOf(Replay(t, f.calls), w.url), clock[k]).1 then
        Fanout(f.calls + [ask], f.started + [w], f.skipped)
      else
        Fanout(f.calls + [ask] + [Call(w.url, NoteSkipped, clock[k])], f.started, f.skipped + [w])
  }

  /** Every enabled, matching webhook is skipped or becomes one delivery run; nothing else does. */
  lemma {:induction false} FanoutPartitions(t: Table, webhooks: seq<WebhookConfig>, event: string, clock: seq<Instant>)
    requires |clock| == |webhooks|
    ensures var f := FanoutOf(t, webhooks, event, clock);
            multiset(Targets(webhooks, event)) == multiset(f.started) + multiset(f.skipped)
  {
    if webhooks != [] {
      var k := |webhooks| - 1;
      FanoutPartitions(t, webhooks[..k], event, clock[..k]);
    }
  }

  lemma {:induction false} ReplayExtendsRun(run: seq<Call>, calls: seq<Call>)
    ensures Replay(After(run), calls) == After(run + calls)
  {
    if calls == [] {
      assert run + calls == run;
    } else {
      var k := |calls| - 1;
      ReplayExtendsRun(run, calls[..k]);
      assert (run + calls)[..|run + calls| - 1] == run + calls[..k];
    }
  }

  function Urls(webhooks: seq<WebhookConfig>): seq<Url> {
    if webhooks == [] then [] else Urls(webhooks[..|webhooks| - 1]) + [webhooks[|webhooks| - 1].url]
  }

  /** The URLs the calls from `i` on asked for and got this answer. */
  function AnsweredUrls(calls: seq<Call>, i: nat, answer: bool): seq<Url>
    requires i <= |calls|
    decreases |calls|
  {
    if i == |calls| then []
    else
      var k := |calls| - 1;
      AnsweredUrls(calls[..k], i, answer)
      + if calls[k].op == Allows && Admitted(calls, calls[k].url, k) == answer then [calls[k].url] else []
  }

  lemma AnsweredNext(calls: seq<Call>, i: nat, c: Call, answer: bool)
    requires i <= |calls|
    ensures AnsweredUrls(calls + [c], i, answer)
         == AnsweredUrls(calls, i, answer)
            + if c.op == Allows && AllowStep(SlotOf(After(calls), c.url), c.now).1 == answer then [c.url] else []
  {
    assert (calls + [c])[..|calls|] == calls;
  }

  lemma UrlsNext(webhooks: seq<WebhookConfig>, w: WebhookConfig)
    ensures Urls(webhooks + [w]) == Urls(webhooks) + [w.url]
  {
    assert (webhooks + [w])[..|webhooks|] == webhooks;
  }

  /** One more question, and a note when the answer is no. */
  lemma OneMoreTarget(calls: seq<Call>, i: nat, f: Fanout, w: WebhookConfig, now: Instant)
    requires i <= |calls|
    requires Urls(f.started) == AnsweredUrls(calls, i, true) && Urls(f.skipped) == AnsweredUrls(calls, i, false)
    ensures var asked := calls + [Call(w.url, Allows, now)];
            if AllowStep(SlotOf(After(calls), w.url), now).1 then
              Urls(f.started + [w]) == AnsweredUrls(asked, i, true) && Urls(f.skipped) == AnsweredUrls(asked, i, false)
            else
              var noted := asked + [Call(w.url, NoteSkipped, now)];
              Urls(f.started) == AnsweredUrls(noted, i, true) && Urls(f.skipped + [w]) == AnsweredUrls(noted, i, false)
  {
    var asked := calls + [Call(w.url, Allows, now)];
    AnsweredNext(calls, i, Call(w.url, Allows, now), true);
    AnsweredNext(calls, i, Call(w.url, Allows, now), false);
    AnsweredNext(asked, i, Call(w.url, NoteSkipped, now), true);
    AnsweredNext(asked, i, Call(w.url, NoteSkipped, now), false);
    UrlsNext(f.started, w);
    UrlsNext(f.skipped, w);
  }

  ghost predicate FollowsAnswers(run: seq<Call>, f: Fanout) {
    && Urls(f.started) == AnsweredUrls(run + f.calls, |run|, true)
    && Urls(f.skipped) == AnsweredUrls(run + f.calls, |run|, false)
  }

  lemma OneMoreFollows(run: seq<Call>, f: Fanout, w: WebhookConfig, now: Instant)
    requires FollowsAnswers(run, f)
    ensures var ask, note := Call(w.url, Allows, now), Call(w.url, NoteSkipped, now);
            if AllowStep(SlotOf(After(run + f.calls), w.url), now).1 then
              FollowsAnswers(run, Fanout(f.calls + [ask], f.started + [w], f.skipped))
            else FollowsAnswers(run, Fanout(f.calls + [ask] + [note], f.started, f.skipped + [w]))
  {
    var ask, note := Call(w.url, Allows, now), Call(w.url, NoteSkipped, now);
    OneMoreTarget(run + f.calls, |run|, f, w, now);
    assert run + (f.calls + [ask]) == run + f.calls + [ask];
    assert run + (f.calls + [ask] + [note]) == run + f.calls + [ask] + [note];
  }

  /** After any run, a broadcast starts a delivery for each target that the circuit lets through, and skips each
      that it turns away, in the order in which it asks. */
  lemma {:induction false} FanoutFollowsAnswers(run: seq<Call>, webhooks: seq<WebhookConfig>, event: string, clock: seq<Instant>)
    requires |clock| == |webhooks|
    ensures var f := FanoutOf(After(run), webhooks, event, clock);
            && Urls(f.started) == AnsweredUrls(run + f.calls, |run|, true)
            && Urls(f.skipped) == AnsweredUrls(run + f.calls, |run|, false)
  {
    if webhooks == [] {
      assert run + [] == run;
    } else {
      var k := |webhooks| - 1;
      FanoutFollowsAnswers(run, webhooks[..k], event, clock[..k]);
      var f := FanoutOf(After(run), webhooks[..k], event, clock[..k]);
      ReplayExtendsRun(run, f.calls);
      OneMoreFollows(run, f, webhooks[k], clock[k]);
    }
  }

  datatype ReplayOutcome = NotFound | CircuitOpen | Replaying(entry: DeadLetters.Entry)

  /** An order in which the map of a session's webhooks may be walked. */
  predicate Lists(order: seq<string>, hooks: map<string, WebhookConfig>) {
    && (forall i, j :: 0 <= i < j < |order| ==> order[i] != order[j])
    && (forall id :: id in order ==> id in hooks) && (forall id :: id in hooks ==> id in order)
  }

  function HooksOf(webhooks: map<string, map<string, WebhookConfig>>, sessionId: string): map<string, WebhookConfig> {
    if sessionId in webhooks then webhooks[sessionId] else map[]
  }

  function Listed(order: seq<string>, hooks: map<string, WebhookConfig>): seq<WebhookConfig>
    requires Lists(order, hooks)
  {
    seq(|order|, i requires 0 <= i < |order| => hooks[order[i]])
  }

  // ---------------------------------------------------------------- the state itself

  class AppState {
    var circuits: Table
    var deadLetters: map<string, seq<DeadLetters.Entry>>
    var webhooks: map<string, map<string, WebhookConfig>>
    const retry: RetryConfig

    constructor (retry: RetryConfig)
      ensures circuits == After([]) && deadLetters == map[] && webhooks == map[] && this.retry == retry
    {
      circuits := map[];
      deadLetters := map[];
      webhooks := map[];
      this.retry := retry;
    }

    method WebhookCircuitAllows(url: Url, now: Instant) returns (ok: bool)
      modifies this`circuits
      ensures circuits == Apply(old(circuits), Call(url, Allows, now))
      ensures ok == AllowStep(SlotOf(old(circuits), url), now).1
    {
      if url !in circuits {
        return true;
      }
      var c := circuits[url];
      if c.openedUntil.None? {
        assert circuits == circuits[url := c];
        return true;
      }
      if now < c.openedUntil.value {
        assert circuits == circuits[url := c];
        return false;
      }
      if c.probeStarted.Some? && now - c.probeStarted.value < PROBE_TIMEOUT {
        assert circuits == circuits[url := c];
        return false;
      }
      circuits := circuits[url := c.(probeStarted := Some(now))];
      return true;
    }

    /** Returns whether this delivery ended a suspension. */
    method WebhookRecordSuccess(url: Url, now: Instant) returns (wasSuspended: bool)
      modifies this`circuits
      ensures circuits == Apply(old(circuits), Call(url, Success, now))
      ensures wasSuspended == IsOpen(SlotOf(old(circuits), url))
    {
      if url !in circuits {
        return false;
      }
      var c := circuits[url];
      wasSuspended := c.openedUntil.Some?;
      c := c.(failures := 0, openedUntil := None, trips := 0, lastError := None, probeStarted := None);
      c := c.(lastEvent := now);
      circuits := circuits[url := c];
    }

    method WebhookRecordFailure(url: Url, error: string, now: Instant) returns (action: FailureAction)
      modifies this`circuits
      ensures circuits == Apply(old(circuits), Call(url, Failure(error), now))
      ensures action == FailureStep(SlotOf(old(circuits), url), error, now).1
    {
      var c := if url in circuits then circuits[url] else Default(now);
      c := c.(lastEvent := now, lastError := Some(error[..Min(|error|, ERROR_CHARS)]));
      if c.openedUntil.Some? {
        if c.probeStarted.None? {
          circuits := circuits[url := c];
          return Noop;
        }
        c := c.(probeStarted := None, trips := SaturatingInc(c.trips));
        var cooldown := Cooldown(c.trips);
        circuits := circuits[url := c.(openedUntil := Some(now + cooldown))];
        return Suspended(cooldown);
      }
      c := c.(failures := SaturatingInc(c.failures));
      if c.failures < OPEN_THRESHOLD {
        circuits := circuits[url := c];
        return Noop;
      }
      var cooldown := Cooldown(c.trips);
      circuits := circuits[url := c.(openedUntil := Some(now + cooldown))];
      return Suspended(cooldown);
    }

    method WebhookNoteSkipped(url: Url, ghost now: Instant)
      modifies this`circuits
      ensures circuits == Apply(old(circuits), Call(url, NoteSkipped, now))
    {
      if url in circuits {
        var c := circuits[url];
        if c.skipped < U64_MAX {
          c := c.(skipped := c.skipped + 1);
        }
        circuits := circuits[url := c];
      }
    }

    /** Flips `enabled` on a registered webhook, which also forgets its circuit. */
    method SetWebhookEnabled(sessionId: string, webhookId: string, enabled: bool, ghost now: Instant) returns (found: bool)
      modifies this`circuits, this`webhooks
      ensures found == (sessionId in old(webhooks) && webhookId in old(webhooks)[sessionId])
      ensures !found ==> circuits == old(circuits) && webhooks == old(webhooks)
      ensures found ==>
        var w := old(webhooks)[sessionId][webhookId];
        && webhooks == old(webhooks)[sessionId := old(webhooks)[sessionId][webhookId := w.(enabled := enabled)]]
        && circuits == Apply(old(circuits), Call(w.url, Remove, now))
    {
      if sessionId !in webhooks || webhookId !in webhooks[sessionId] {
        return false;
      }
      var config := webhooks[sessionId][webhookId];
      webhooks := webhooks[sessionId := webhooks[sessionId][webhookId := config.(enabled := enabled)]];
      circuits := circuits - {config.url};
      return true;
    }

    /** Closes every open circuit; the result names each URL whose state was cleared, once. */
    method ReenableAllOpenCircuits(now: Instant) returns (reset: seq<Url>)
      modifies this`circuits
      ensures forall u :: SlotOf(circuits, u) == ReenableStep(SlotOf(old(circuits), u), now)
      ensures forall u :: u in reset <==> IsOpen(SlotOf(old(circuits), u))
      ensures forall i, j :: 0 <= i < j < |reset| ==> reset[i] != reset[j]
    {
      reset := [];
      var todo := circuits.Keys;
      while todo != {}
        invariant todo <= circuits.Keys == old(circuits).Keys
        invariant forall u :: u in todo ==> circuits[u] == old(circuits)[u] && u !in reset
        invariant forall u :: u in circuits.Keys - todo ==>
                    SlotOf(circuits, u) == ReenableStep(SlotOf(old(circuits), u), now)
        invariant forall u :: u in reset <==> u in circuits.Keys - todo && IsOpen(SlotOf(old(circuits), u))
        invariant forall i, j :: 0 <= i < j < |reset| ==> reset[i] != reset[j]
        decreases todo
      {
        var u :| u in todo;
        todo := todo - {u};
        if circuits[u].openedUntil.Some? {
          circuits := circuits[u := CircuitState(0, None, now, 0, None, 0, None)];
          reset := reset + [u];
        }
      }
    }

    // ---------------------------------------------------------------- dead letters

    ghost function Ring(sessionId: string): seq<DeadLetters.Entry>
      reads this
    {
      if sessionId in deadLetters then deadLetters[sessionId] else []
    }

    method WebhookDlqPush(entry: DeadLetters.Entry)
      requires retry.dlqCapacity > 0
      modifies this`deadLetters
      ensures deadLetters == old(deadLetters)[entry.sessionId := DeadLetters.Push(old(Ring(entry.sessionId)), entry, retry.dlqCapacity)]
    {
      var ring := if entry.sessionId in deadLetters then deadLetters[entry.sessionId] else [];
      ghost var before := ring;
      while |ring| >= retry.dlqCapacity
        invariant |ring| <= |before| && ring == before[|before| - |ring|..]
        invariant |before| >= retry.dlqCapacity ==> |ring| >= retry.dlqCapacity - 1
        invariant |before| < retry.dlqCapacity ==> ring == before
      {
        ring := ring[1..];
      }
      deadLetters := deadLetters[entry.sessionId := ring + [entry]];
    }

    /** Newest first. */
    method WebhookDlqList(sessionId: string) returns (entries: seq<DeadLetters.Entry>)
      ensures entries == DeadLetters.Reversed(Ring(sessionId))
    {
      entries := if sessionId in deadLetters then DeadLetters.Reversed(deadLetters[sessionId]) else [];
    }

    method WebhookDlqTake(sessionId: string, entryId: string) returns (entry: Option<DeadLetters.Entry>)
      modifies this`deadLetters
      ensures var ring := old(Ring(sessionId));
              var p := DeadLetters.Position(ring, entryId);
              if p == |ring| then entry == None && deadLetters == old(deadLetters)
              else entry == Some(ring[p]) && deadLetters == old(deadLetters)[sessionId := DeadLetters.RemoveAt(ring, p)]
    {
      if sessionId !in deadLetters {
        return None;
      }
      var ring := deadLetters[sessionId];
      var p := DeadLetters.Position(ring, entryId);
      if p == |ring| {
        return None;
      }
      entry := Some(ring[p]);
      deadLetters := deadLetters[sessionId := DeadLetters.RemoveAt(ring, p)];
    }

    method PurgeWebhooksForSession(sessionId: string)
      modifies this`webhooks, this`deadLetters
      ensures webhooks == old(webhooks) - {sessionId} && deadLetters == old(deadLetters) - {sessionId}
    {
      webhooks := webhooks - {sessionId};
      deadLetters := deadLetters - {sessionId};
    }

    // ---------------------------------------------------------------- deliveries

    /** Offers `event` to the session's webhooks, walked in some order; `started` are the deliveries
        that are spawned. The clock gives one reading per webhook. */
    method BroadcastToWebhooks(sessionId: string, event: string, order: seq<string>, clock: seq<Instant>)
      returns (started: seq<WebhookConfig>)
      requires Lists(order, HooksOf(webhooks, sessionId)) && |clock| == |order|
      modifies this`circuits
      ensures var f := FanoutOf(old(circuits), Listed(order, HooksOf(webhooks, sessionId)), event, clock);
              started == f.started && circuits == Replay(old(circuits), f.calls)
    {
      var hooks := Listed(order, HooksOf(webhooks, sessionId));
      started := [];
      var i := 0;
      while i < |hooks|
        invariant i <= |hooks|
        invariant started == FanoutOf(old(circuits), hooks[..i], event, clock[..i]).started
        invariant circuits == Replay(old(circuits), FanoutOf(old(circuits), hooks[..i], event, clock[..i]).calls)
      {
        var config := hooks[i];
        ghost var f := FanoutOf(old(circuits), hooks[..i], event, clock[..i]);
        assert hooks[..i + 1][..i] == hooks[..i] && clock[..i + 1][..i] == clock[..i];
        if config.enabled && Matches(config, event) {
          ghost var asked := f.calls + [Call(config.url, Allows, clock[i])];
          var ok := WebhookCircuitAllows(config.url, clock[i]);
          assert asked[..|asked| - 1] == f.calls;
          if !ok {
            WebhookNoteSkipped(config.url, clock[i]);
            ghost var noted := asked + [Call(config.url, NoteSkipped, clock[i])];
            assert noted[..|noted| - 1] == asked;
          } else {
            started := started + [config];
          }
        }
        i := i + 1;
      }
      assert hooks[..i] == hooks && clock[..i] == clock;
    }

    /** One delivery run and its report. The attempts read nothing shared, so the run's effect on
        the state is the report at its end: exactly one of a success and a dead-lettered failure. */
    method DeliverWebhook(sessionId: string, event: string, url: Url, secret: Option<string>, payload: string,
                          replies: seq<Reply>, start: Instant, entryId: string, failedAt: int)
      returns (ok: bool, ghost result: RunResult)
      requires |replies| >= MaxAttempts(retry)
      requires retry.dlqCapacity > 0
      modifies this`circuits, this`deadLetters
      ensures IsRun(retry, replies, result) && ok == result.Delivered?
      ensures ok ==>
        && circuits == Apply(old(circuits), Call(url, Success, start + result.elapsed))
        && deadLetters == old(deadLetters)
      ensures !ok ==>
        && circuits == Apply(old(circuits), Call(url, Failure(result.error), start + result.elapsed))
        && deadLetters == old(deadLetters)[sessionId := DeadLetters.Push(old(Ring(sessionId)),
             DeadLetters.Entry(entryId, sessionId, url, event, payload, secret, result.error,
                               MaxAttempts(retry), failedAt), retry.dlqCapacity)]
    {
      var r := AttemptLoop(retry, replies);
      result := r;
      ok := r.Delivered?;
      if ok {
        var _ := WebhookRecordSuccess(url, start + r.elapsed);
      } else {
        var _ := WebhookRecordFailure(url, r.error, start + r.elapsed);
        WebhookDlqPush(DeadLetters.Entry(entryId, sessionId, url, event, payload, secret, r.error,
                                         MaxAttempts(retry), failedAt));
      }
    }

    /** Dead letters that other deliveries push, one call each. */
    method PushMeanwhile(sessionId: string, entries: seq<DeadLetters.Entry>)
      requires retry.dlqCapacity > 0
      requires forall i :: 0 <= i < |entries| ==> entries[i].sessionId == sessionId
      modifies this`deadLetters
      ensures Ring(sessionId) == DeadLetters.PushAll(old(Ring(sessionId)), entries, retry.dlqCapacity)
    {
      var i := 0;
      while i < |entries|
        invariant i <= |entries|
        invariant Ring(sessionId) == DeadLetters.PushAll(old(Ring(sessionId)), entries[..i], retry.dlqCapacity)
      {
        assert entries[..i + 1][..i] == entries[..i];
        WebhookDlqPush(entries[i]);
        i := i + 1;
      }
      assert entries[..i] == entries;
    }

    /** The replay endpoint takes the entry out up front. While the circuit turns it away the entry
        goes back, as the newest one. These are three locked calls; `meanwhile` and `others` are the
        dead letters and circuit calls of other tasks after the first of them. */
    method ReplayDlqEntry(sessionId: string, entryId: string, now: Instant,
                          meanwhile: seq<DeadLetters.Entry>, others: seq<Call>) returns (outcome: ReplayOutcome)
      requires retry.dlqCapacity > 0
      requires |Ring(sessionId)| <= retry.dlqCapacity
      requires forall i :: 0 <= i < |Ring(sessionId)| ==> Ring(sessionId)[i].sessionId == sessionId
      requires forall i :: 0 <= i < |meanwhile| ==> meanwhile[i].sessionId == sessionId
      modifies this`circuits, this`deadLetters
      ensures var ring := old(Ring(sessionId));
              var p := DeadLetters.Position(ring, entryId);
              && (outcome.NotFound? <==> p == |ring|)
              && (outcome.NotFound? ==> circuits == old(circuits) && deadLetters == old(deadLetters))
              && (!outcome.NotFound? ==>
                    var left := DeadLetters.PushAll(DeadLetters.RemoveAt(ring, p), meanwhile, retry.dlqCapacity);
                    && circuits == Apply(Replay(old(circuits), others), Call(ring[p].webhookUrl, Allows, now))
                    && (outcome.Replaying? <==> AllowStep(SlotOf(Replay(old(circuits), others), ring[p].webhookUrl), now).1)
                    && (outcome.CircuitOpen? ==> Ring(sessionId) == DeadLetters.Push(left, ring[p], retry.dlqCapacity))
                    && (outcome.Replaying? ==> outcome.entry == ring[p] && Ring(sessionId) == left))
      ensures outcome.CircuitOpen? ==>
                (multiset(Ring(sessionId)) == multiset(old(Ring(sessionId))) + multiset(meanwhile)
                 <==> |old(Ring(sessionId))| + |meanwhile| <= retry.dlqCapacity)
    {
      ghost var ring := Ring(sessionId);
      ghost var p := DeadLetters.Position(ring, entryId);
      var entry := WebhookDlqTake(sessionId, entryId);
      if entry.None? {
        return NotFound;
      }
      PushMeanwhile(sessionId, meanwhile);
      circuits := Replay(circuits, others);
      var ok := WebhookCircuitAllows(entry.value.webhookUrl, now);
      if !ok {
        WebhookDlqPush(entry.value);
        DeadLetters.PutBackKeepsAllExactlyWhen(ring, p, meanwhile, retry.dlqCapacity);
        return CircuitOpen;
      }
      return Replaying(entry.value);
    }
  }
}
