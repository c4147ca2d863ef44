/**
  The bounded per-session dead-letter ring of `src/state.rs`: pure steps, and what holds over
  every run of them. The Webhooks module performs the steps in place.
*/
module DeadLetters {
  import opened Wrappers

  datatype Entry = Entry(
    id: string, sessionId: string, webhookUrl: string, event: string, payload: string,
    secret: Option<string>, lastError: string, attempts: nat, failedAt: int)

  /** What is left after popping the oldest entries until at most `n` remain. */
  function KeepNewest(ring: seq<Entry>, n: nat): seq<Entry> {
    if |ring| <= n then ring else ring[|ring| - n..]
  }

  function Push(ring: seq<Entry>, e: Entry, capacity: nat): seq<Entry>
    requires capacity > 0
  {
    KeepNewest(ring, capacity - 1) + [e]
  }

  /** Position of the first entry with this id, or the length of the ring. */
  function Position(ring: seq<Entry>, id: string): (p: nat)
    ensures p <= |ring|
    ensures p < |ring| ==> ring[p].id == id
    ensures forall i :: 0 <= i < p ==> ring[i].id != id
  {
    if ring == [] || ring[0].id == id then 0 else 1 + Position(ring[1..], id)
  }

  function RemoveAt<T>(s: seq<T>, p: nat): seq<T>
    requires p < |s|
  {
    s[..p] + s[p + 1..]
  }

  function Reversed<T>(s: seq<T>): (r: seq<T>)
    ensures |r| == |s|
    ensures forall i :: 0 <= i < |s| ==> r[i] == s[|s| - 1 - i]
  {
    if s == [] then [] else [s[|s| - 1]] + Reversed(s[..|s| - 1])
  }

  // ---------------------------------------------------------------- runs

  datatype Op = PushOp(entry: Entry) | TakeOp(id: string) | PurgeOp

  datatype Fate = Present | Taken | Evicted | Purged

  /** The ring together with its history: every push ever made, what became of each, and the push
      numbers of the entries now in the ring. */
  datatype History = History(ring: seq<Entry>, at: seq<nat>, pushed: seq<Entry>, fate: seq<Fate>)

  function Mark(fate: seq<Fate>, numbers: seq<nat>, f: Fate): (r: seq<Fate>)
    ensures |r| == |fate|
    ensures forall n :: 0 <= n < |fate| ==> r[n] == if n in numbers then f else fate[n]
  {
    seq(|fate|, n requires 0 <= n < |fate| => if n in numbers then f else fate[n])
  }

  /** How many of the oldest entries a push drops. */
  function Overflow(ring: seq<Entry>, capacity: nat): (d: nat)
    requires capacity > 0
    ensures d <= |ring|
  {
    if |ring| < capacity then 0 else |ring| - (capacity - 1)
  }

  function Step(h: History, op: Op, capacity: nat): (h': History)
    requires capacity > 0
    requires |h.at| == |h.ring|
    ensures |h'.at| == |h'.ring|
  {
    match op
    case PushOp(e) =>
      var d := Overflow(h.ring, capacity);
      History(Push(h.ring, e, capacity), h.at[d..] + [|h.pushed|], h.pushed + [e],
              Mark(h.fate, h.at[..d], Evicted) + [Present])
    case TakeOp(id) =>
      var p := Position(h.ring, id);
      if p == |h.ring| then h
      else History(RemoveAt(h.ring, p), RemoveAt(h.at, p), h.pushed, Mark(h.fate, [h.at[p]], Taken))
    case PurgeOp =>
      History([], [], h.pushed, Mark(h.fate, h.at, Purged))
  }

  function After(ops: seq<Op>, capacity: nat): (h: History)
    requires capacity > 0
    ensures |h.at| == |h.ring|
  {
    if ops == [] then History([], [], [], [])
    else Step(After(ops[..|ops| - 1], capacity), ops[|ops| - 1], capacity)
  }

  /** The ring holds the pushes numbered by `at`, oldest first, and no more than `capacity`. */
  ghost predicate InPushOrder(h: History, capacity: nat) {
    && |h.ring| == |h.at| <= capacity
    && (forall i :: 0 <= i < |h.at| ==> h.at[i] < |h.pushed| && h.ring[i] == h.pushed[h.at[i]])
    && (forall i, j :: 0 <= i < j < |h.at| ==> h.at[i] < h.at[j])
  }

  /** Every push has one fate, and those present are the ones in the ring. */
  ghost predicate Accounted(h: History) {
    && |h.fate| == |h.pushed|
    && (forall n :: 0 <= n < |h.fate| ==> (h.fate[n] == Present <==> n in h.at))
  }

  /** Only an entry with `capacity` newer pushes behind it is ever evicted. */
  ghost predicate EvictsOnlyOld(h: History, capacity: nat) {
    forall n :: 0 <= n < |h.fate| && h.fate[n] == Evicted ==> n + capacity < |h.fate|
  }

  lemma {:induction false} IncreasingGap(at: seq<nat>, i: nat, j: nat)
    requires i <= j < |at|
    requires forall a, b :: 0 <= a < b < |at| ==> at[a] < at[b]
    ensures at[i] + (j - i) <= at[j]
    decreases j
  {
    if i < j {
      IncreasingGap(at, i, j - 1);
    }
  }

  lemma PushKeepsOrder(h: History, e: Entry, capacity: nat)
    requires capacity > 0 && InPushOrder(h, capacity)
    ensures InPushOrder(Step(h, PushOp(e), capacity), capacity)
  {
  }

  lemma PushKeepsFate(h: History, e: Entry, capacity: nat, n: nat)
    requires capacity > 0 && InPushOrder(h, capacity) && Accounted(h)
    requires n <= |h.fate|
    ensures var h' := Step(h, PushOp(e), capacity);
            |h'.fate| == |h.fate| + 1 && (h'.fate[n] == Present <==> n in h'.at)
  {
  }

  lemma PushKeepsAccount(h: History, e: Entry, capacity: nat)
    requires capacity > 0 && InPushOrder(h, capacity) && Accounted(h)
    ensures Accounted(Step(h, PushOp(e), capacity))
  {
    forall n: nat | n <= |h.fate|
      ensures var h' := Step(h, PushOp(e), capacity);
              |h'.fate| == |h.fate| + 1 && (h'.fate[n] == Present <==> n in h'.at)
    {
      PushKeepsFate(h, e, capacity, n);
    }
    PushKeepsFate(h, e, capacity, 0);
  }

  lemma PushEvictsOnlyOld(h: History, e: Entry, capacity: nat)
    requires capacity > 0 && InPushOrder(h, capacity) && Accounted(h) && EvictsOnlyOld(h, capacity)
    ensures EvictsOnlyOld(Step(h, PushOp(e), capacity), capacity)
  {
    var d := Overflow(h.ring, capacity);
    if d > 0 {
      IncreasingGap(h.at, 0, |h.at| - 1);
      assert h.at[..d] == [h.at[0]];
    }
  }

  lemma TakeKeepsOrder(h: History, id: string, capacity: nat)
    requires capacity > 0 && InPushOrder(h, capacity)
    ensures InPushOrder(Step(h, TakeOp(id), capacity), capacity)
  {
    var p := Position(h.ring, id);
    if p < |h.ring| {
      RemovedAt(h.at, p);
      RemovedAt(h.ring, p);
    }
  }

  lemma RemovedAt<T>(s: seq<T>, p: nat)
    requires p < |s|
    ensures |RemoveAt(s, p)| == |s| - 1
    ensures forall i :: 0 <= i < |s| - 1 ==> RemoveAt(s, p)[i] == s[if i < p then i else i + 1]
  {
  }

  lemma TakeKeepsAccount(h: History, id: string, capacity: nat)
    requires capacity > 0 && InPushOrder(h, capacity) && Accounted(h)
    ensures Accounted(Step(h, TakeOp(id), capacity))
  {
  }

  /** The ring is in push order and never over capacity, each push is present, taken, evicted or purged,
      and none of the newest `capacity` pushes was evicted. */
  ghost predicate Sound(h: History, capacity: nat) {
    InPushOrder(h, capacity) && Accounted(h) && EvictsOnlyOld(h, capacity)
  }

  lemma StepKeepsSound(h: History, op: Op, capacity: nat)
    requires capacity > 0 && Sound(h, capacity)
    ensures Sound(Step(h, op, capacity), capacity)
  {
    match op
    case PushOp(e) =>
      PushKeepsOrder(h, e, capacity);
      PushKeepsAccount(h, e, capacity);
      PushEvictsOnlyOld(h, e, capacity);
    case TakeOp(id) =>
      TakeKeepsOrder(h, id, capacity);
      TakeKeepsAccount(h, id, capacity);
    case PurgeOp =>
  }

  lemma {:induction false} NothingIsLost(ops: seq<Op>, capacity: nat)
    requires capacity > 0
    ensures Sound(After(ops, capacity), capacity)
  {
    if ops != [] {
      NothingIsLost(ops[..|ops| - 1], capacity);
      StepKeepsSound(After(ops[..|ops| - 1], capacity), ops[|ops| - 1], capacity);
    }
  }

  function Count(fate: seq<Fate>, f: Fate): nat {
    if fate == [] then 0
    else Count(fate[..|fate| - 1], f) + if fate[|fate| - 1] == f then 1 else 0
  }

  lemma {:induction false} CountAll(fate: seq<Fate>)
    ensures Count(fate, Present) + Count(fate, Taken) + Count(fate, Evicted) + Count(fate, Purged) == |fate|
  {
    if fate != [] {
      CountAll(fate[..|fate| - 1]);
    }
  }

  lemma {:induction false} CountPresent(fate: seq<Fate>, at: seq<nat>)
    requires forall i, j :: 0 <= i < j < |at| ==> at[i] < at[j]
    requires forall i :: 0 <= i < |at| ==> at[i] < |fate|
    requires forall n :: 0 <= n < |fate| ==> (fate[n] == Present <==> n in at)
    ensures Count(fate, Present) == |at|
    decreases |fate|
  {
    if fate != [] {
      var last := |fate| - 1;
      if fate[last] == Present {
        assert at[|at| - 1] == last;
        CountPresent(fate[..last], at[..|at| - 1]);
      } else {
        CountPresent(fate[..last], at);
      }
    }
  }

  /** The same in numbers: pushes = present + taken + evicted + purged. */
  lemma SoundAddsUp(h: History, capacity: nat)
    requires Sound(h, capacity)
    ensures |h.pushed| == |h.ring| + Count(h.fate, Taken) + Count(h.fate, Evicted) + Count(h.fate, Purged)
  {
    CountPresent(h.fate, h.at);
    CountAll(h.fate);
  }

  lemma PushesAddUp(ops: seq<Op>, capacity: nat)
    requires capacity > 0
    ensures var h := After(ops, capacity);
            |h.pushed| == |h.ring| + Count(h.fate, Taken) + Count(h.fate, Evicted) + Count(h.fate, Purged)
  {
    NothingIsLost(ops, capacity);
    SoundAddsUp(After(ops, capacity), capacity);
  }

  // ---------------------------------------------------------------- what one step does to the numbers

  lemma {:induction false} CountSame(before: seq<Fate>, after: seq<Fate>, f: Fate)
    requires |before| == |after| && forall n :: 0 <= n < |before| ==> (before[n] == f <==> after[n] == f)
    ensures Count(before, f) == Count(after, f)
  {
    if before != [] {
      CountSame(before[..|before| - 1], after[..|after| - 1], f);
    }
  }

  lemma {:induction false} CountPoint(fate: seq<Fate>, n: nat, f: Fate)
    requires n < |fate| && fate[n] != f
    ensures Count(fate[n := f], f) == Count(fate, f) + 1
  {
    var last := |fate| - 1;
    if n == last {
      assert fate[n := f][..last] == fate[..last];
    } else {
      CountPoint(fate[..last], n, f);
      assert fate[n := f][..last] == fate[..last][n := f];
    }
  }

  /** Only a take that finds its entry changes the number of entries taken. */
  lemma StepCountsTaken(h: History, op: Op, capacity: nat)
    requires capacity > 0 && Sound(h, capacity)
    ensures Count(Step(h, op, capacity).fate, Taken)
         == Count(h.fate, Taken) + if op.TakeOp? && Position(h.ring, op.id) < |h.ring| then 1 else 0
  {
    match op
    case PushOp(e) =>
      var marked := Mark(h.fate, h.at[..Overflow(h.ring, capacity)], Evicted);
      CountSame(h.fate, marked, Taken);
      assert (marked + [Present])[..|marked|] == marked;
    case TakeOp(id) =>
      var p := Position(h.ring, id);
      if p < |h.ring| {
        CountPoint(h.fate, h.at[p], Taken);
        assert Mark(h.fate, [h.at[p]], Taken) == h.fate[h.at[p] := Taken];
      }
    case PurgeOp => CountSame(h.fate, Mark(h.fate, h.at, Purged), Taken);
  }

  /** A push evicts one entry exactly when the ring is full. */
  lemma StepCountsEvicted(h: History, e: Entry, capacity: nat)
    requires capacity > 0 && Sound(h, capacity)
    ensures Count(Step(h, PushOp(e), capacity).fate, Evicted)
         == Count(h.fate, Evicted) + if |h.ring| == capacity then 1 else 0
  {
    var d := Overflow(h.ring, capacity);
    var marked := Mark(h.fate, h.at[..d], Evicted);
    assert (marked + [Present])[..|marked|] == marked;
    if d == 0 {
      CountSame(h.fate, marked, Evicted);
    } else {
      assert h.at[..d] == [h.at[0]] && h.at[0] in h.at;
      CountPoint(h.fate, h.at[0], Evicted);
      assert marked == h.fate[h.at[0] := Evicted];
    }
  }

  // ---------------------------------------------------------------- an entry put back after others were pushed

  function PushAll(ring: seq<Entry>, entries: seq<Entry>, capacity: nat): seq<Entry>
    requires capacity > 0
  {
    if entries == [] then ring
    else Push(PushAll(ring, entries[..|entries| - 1], capacity), entries[|entries| - 1], capacity)
  }

  lemma {:induction false} PushAllFits(ring: seq<Entry>, entries: seq<Entry>, capacity: nat)
    requires capacity > 0 && |ring| <= capacity
    ensures |PushAll(ring, entries, capacity)| <= capacity
    ensures |ring| + |entries| <= capacity ==> PushAll(ring, entries, capacity) == ring + entries
    decreases |entries|
  {
    if entries != [] {
      var init, last := entries[..|entries| - 1], entries[|entries| - 1];
      PushAllFits(ring, init, capacity);
      assert entries == init + [last];
    } else {
      assert ring + [] == ring;
    }
  }

  lemma TakenPlusRest(ring: seq<Entry>, p: nat)
    requires p < |ring|
    ensures multiset(RemoveAt(ring, p)) + multiset{ring[p]} == multiset(ring)
  {
    assert ring == ring[..p] + [ring[p]] + ring[p + 1..];
  }

  /** Between taking entry `p` and putting it back, `meanwhile` was pushed: nothing is lost exactly when
      all of it fits; otherwise the put-back, or a push before it, evicts an entry. */
  lemma PutBackKeepsAllExactlyWhen(ring: seq<Entry>, p: nat, meanwhile: seq<Entry>, capacity: nat)
    requires p < |ring| <= capacity
    ensures var after := Push(PushAll(RemoveAt(ring, p), meanwhile, capacity), ring[p], capacity);
            multiset(after) == multiset(ring) + multiset(meanwhile) <==> |ring| + |meanwhile| <= capacity
  {
    var rest := RemoveAt(ring, p);
    var after := Push(PushAll(rest, meanwhile, capacity), ring[p], capacity);
    PushAllFits(rest, meanwhile, capacity);
    TakenPlusRest(ring, p);
    assert |after| <= capacity;
    if multiset(after) == multiset(ring) + multiset(meanwhile) {
      assert |multiset(after)| == |after|;
    }
  }
}
