/**
  The rolling logout history of `src/state.rs`, which decides when repeated logouts unlink a session.
*/
module LogoutHistory {

  const WINDOW_SECS: int := 600
  const THRESHOLD: nat := 3

  /** The logouts of `log` that are less than the window old at `now`. */
  function Recent(log: seq<int>, now: int): seq<int> {
    if log == [] then []
    else
      var last := log[|log| - 1];
      var before := Recent(log[..|log| - 1], now);
      if now - last < WINDOW_SECS then before + [last] else before
  }

  /** A logout is recent, as often as it is logged, when it is less than ten minutes old. */
  lemma {:induction false} RecentMeans(log: seq<int>, now: int, t: int)
    ensures multiset(Recent(log, now))[t] == if now - t < 600 then multiset(log)[t] else 0
  {
    if log != [] {
      RecentMeans(log[..|log| - 1], now, t);
      assert log == log[..|log| - 1] + [log[|log| - 1]];
    }
  }

  ghost predicate Ordered(log: seq<int>) {
    forall i, j :: 0 <= i < j < |log| ==> log[i] <= log[j]
  }

  lemma {:induction false} RecentAppends(log: seq<int>, t: int, now: int)
    ensures Recent(log + [t], now) == if now - t < WINDOW_SECS then Recent(log, now) + [t] else Recent(log, now)
  {
  }

  /** One run of logouts at `times` through the pruning code: what is kept in the end. */
  function Kept(times: seq<int>): seq<int> {
    if times == [] then []
    else
      var now := times[|times| - 1];
      Recent(Kept(times[..|times| - 1]), now) + [now]
  }

  /** No later reading stood a whole window past logout `i`; the last reading makes it a recent one. */
  ghost predicate NotOvertaken(times: seq<int>, i: nat)
    requires i < |times|
  {
    forall j :: i < j < |times| ==> times[j] - times[i] < WINDOW_SECS
  }

  /** Of the first `n` logouts, those never overtaken. */
  ghost function Standing(times: seq<int>, n: nat): seq<int>
    requires n <= |times|
  {
    if n == 0 then []
    else if NotOvertaken(times, n - 1) then Standing(times, n - 1) + [times[n - 1]]
    else Standing(times, n - 1)
  }

  class SessionState {
    var logoutHistory: seq<int>

    /** Every logout since the history was last cleared, none pruned. */
    ghost var log: seq<int>

    ghost predicate Valid()
      reads this
    {
      logoutHistory == Kept(log)
    }

    constructor ()
      ensures Valid() && log == []
    {
      logoutHistory := [];
      log := [];
    }

    method ClearLogoutHistory()
      modifies this
      ensures Valid() && log == []
    {
      logoutHistory := [];
      log := [];
    }

    /** The answer counts the recent logouts that no reading has overtaken. It is the answer of the
        full log exactly when there are three of those, or fewer than three recent ones at all. */
    method RecordLogoutAndShouldPurge(now: int) returns (purge: bool)
      requires Valid()
      modifies this
      ensures Valid() && log == old(log) + [now]
      ensures purge <==> |Standing(log, |log|)| >= 3
      ensures (purge <==> |Recent(log, now)| >= 3)
         <==> |Recent(log, now)| < 3 || |Standing(log, |log|)| >= 3
    {
      var kept := Retain(logoutHistory, now);
      logoutHistory := kept + [now];
      log := log + [now];
      assert log[..|log| - 1] == old(log);
      AnswerExactlyWhen(log);
      purge := |logoutHistory| >= THRESHOLD;
    }
  }

  method Retain(history: seq<int>, now: int) returns (kept: seq<int>)
    ensures kept == Recent(history, now)
  {
    kept := [];
    var i := 0;
    while i < |history|
      invariant i <= |history|
      invariant kept == Recent(history[..i], now)
    {
      RecentAppends(history[..i], history[i], now);
      assert history[..i + 1] == history[..i] + [history[i]];
      if now - history[i] < WINDOW_SECS {
        kept := kept + [history[i]];
      }
      i := i + 1;
    }
    assert history[..i] == history;
  }

  // ---------------------------------------------------------------- what pruning loses

  /** No logout that is recent at `now` was ever a whole window old at an earlier reading. */
  ghost predicate NeverOvertaken(times: seq<int>, now: int) {
    forall i, j :: 0 <= i < j < |times| && now - times[i] < WINDOW_SECS ==> times[j] - times[i] < WINDOW_SECS
  }

  ghost predicate StillRecent(log: seq<int>, now: int, later: int) {
    forall i :: 0 <= i < |log| && now - log[i] < WINDOW_SECS ==> later - log[i] < WINDOW_SECS
  }

  lemma {:induction false} LaterIsFewer(log: seq<int>, now: int, later: int)
    requires now <= later
    ensures |Recent(log, later)| <= |Recent(log, now)|
    ensures |Recent(log, later)| == |Recent(log, now)| <==> StillRecent(log, now, later)
  {
    if log != [] {
      var rest, last := log[..|log| - 1], log[|log| - 1];
      LaterIsFewer(rest, now, later);
      assert StillRecent(log, now, later) <==> StillRecent(rest, now, later) && (now - last < WINDOW_SECS ==> later - last < WINDOW_SECS);
    }
  }

  lemma {:induction false} RecentTwice(log: seq<int>, first: int, now: int)
    ensures Recent(Recent(log, first), now) == if first <= now then Recent(log, now) else Recent(log, first)
  {
    if log != [] {
      var rest, last := log[..|log| - 1], log[|log| - 1];
      RecentTwice(rest, first, now);
      if first - last < WINDOW_SECS {
        RecentAppends(Recent(rest, first), last, now);
      }
    }
  }

  lemma {:induction false} KeptThenRecent(times: seq<int>, now: int)
    ensures |Recent(Kept(times), now)| <= |Recent(times, now)|
    ensures |Recent(Kept(times), now)| == |Recent(times, now)| <==> NeverOvertaken(times, now)
  {
    if times != [] {
      var rest, last := times[..|times| - 1], times[|times| - 1];
      RecentAppends(Recent(Kept(rest), last), last, now);
      RecentTwice(Kept(rest), last, now);
      assert NeverOvertaken(times, now) <==> NeverOvertaken(rest, now) && StillRecent(rest, now, last);
      if last <= now {
        KeptThenRecent(rest, now);
      } else {
        KeptThenRecent(rest, last);
        LaterIsFewer(rest, now, last);
      }
    }
  }

  /** As many logouts are kept as the full log has recent ones exactly when no recent one was ever
      overtaken by a whole window. */
  lemma PruningExactlyWhen(times: seq<int>)
    requires times != []
    ensures var now := times[|times| - 1];
            |Kept(times)| == |Recent(times, now)| <==> NeverOvertaken(times, now)
  {
    var rest, now := times[..|times| - 1], times[|times| - 1];
    KeptThenRecent(rest, now);
    assert NeverOvertaken(times, now) <==> NeverOvertaken(rest, now);
  }

  lemma {:induction false} StandingAfter(rest: seq<int>, now: int, n: nat)
    requires n <= |rest|
    ensures Standing(rest + [now], n) == Recent(Standing(rest, n), now)
  {
    if n > 0 {
      StandingAfter(rest, now, n - 1);
      var times := rest + [now];
      assert forall j {:trigger rest[j]} {:trigger times[j]} :: 0 <= j < |rest| ==> rest[j] == times[j];
      assert times[|rest|] == now;
      assert NotOvertaken(times, n - 1) <==> NotOvertaken(rest, n - 1) && times[|rest|] - times[n - 1] < WINDOW_SECS;
      if NotOvertaken(rest, n - 1) {
        RecentAppends(Standing(rest, n - 1), rest[n - 1], now);
      }
    }
  }

  /** The pruned history is exactly the logouts never overtaken. */
  lemma {:induction false} KeptAreStanding(times: seq<int>)
    ensures Kept(times) == Standing(times, |times|)
  {
    if times != [] {
      var rest, now := times[..|times| - 1], times[|times| - 1];
      KeptAreStanding(rest);
      StandingAfter(rest, now, |rest|);
      assert rest + [now] == times;
    }
  }

  /** The answer agrees with the full log exactly when fewer than three logouts are recent or at
      least three recent ones were never overtaken. */
  lemma AnswerExactlyWhen(times: seq<int>)
    requires times != []
    ensures var now := times[|times| - 1];
            && |Kept(times)| == |Standing(times, |times|)| <= |Recent(times, now)|
            && ((|Kept(times)| >= THRESHOLD <==> |Recent(times, now)| >= THRESHOLD)
                <==> |Recent(times, now)| < THRESHOLD || |Standing(times, |times|)| >= THRESHOLD)
  {
    KeptAreStanding(times);
    KeptThenRecent(times[..|times| - 1], times[|times| - 1]);
  }

  /** A clock that does not step back never overtakes. */
  lemma OrderedPrunesNothing(times: seq<int>)
    requires Ordered(times) && times != []
    ensures |Kept(times)| == |Recent(times, times[|times| - 1])|
  {
    PruningExactlyWhen(times);
  }

  /** The order is needed: after a reading far ahead, earlier logouts are gone when the clock is
      set back, and the third logout within a second is not noticed. */
  lemma ClockStepBackLosesLogouts()
    ensures var times := [1000, 5000, 1000];
            |Recent(times, 1000)| == 3 && |Kept(times)| == 2
  {
    var times := [1000, 5000, 1000];
    assert times[..2] == [1000, 5000] && times[..1] == [1000] && times[..2][..1] == [1000];
    RecentAppends([], 1000, 1000);
    RecentAppends([1000], 5000, 1000);
    RecentAppends([1000, 5000], 1000, 1000);
    assert [] + [1000] == [1000] && [1000] + [5000] == [1000, 5000] && [1000, 5000] + [1000] == times;
    assert Kept([1000]) == [1000];
    RecentAppends([], 1000, 5000);
    assert Kept([1000, 5000]) == [5000];
    RecentAppends([], 5000, 1000);
    assert [] + [5000] == [5000];
  }
}
