/**
  `RecentMessageIds` of `src/state.rs`: a bounded window of message keys, oldest evicted first.
*/
module RecentIds {

  function Max(a: nat, b: nat): nat { if a >= b then a else b }

  function Last<T>(s: seq<T>, n: nat): seq<T> {
    if |s| <= n then s else s[|s| - n..]
  }

  /** The specification: a key is accepted when it is not among the last `capacity` accepted ones. */
  predicate IsFresh(accepted: seq<string>, key: string, capacity: nat) { key !in Last(accepted, capacity) }

  /** The keys accepted from a stream of sightings, in order. */
  function Accepted(keys: seq<string>, capacity: nat): seq<string> {
    if keys == [] then []
    else
      var before := Accepted(keys[..|keys| - 1], capacity);
      var key := keys[|keys| - 1];
      if IsFresh(before, key, capacity) then before + [key] else before
  }

  /** `seen` holds the keys of `order`, each of which stands there once. */
  ghost predicate Mirrors(order: seq<string>, seen: set<string>) {
    && (forall k :: k in seen <==> k in order)
    && (forall i, j :: 0 <= i < j < |order| ==> order[i] != order[j])
  }

  lemma PopMirrors(order: seq<string>, seen: set<string>)
    requires Mirrors(order, seen) && order != []
    ensures Mirrors(order[1..], seen - {order[0]})
  {
  }

  lemma PushMirrors(order: seq<string>, seen: set<string>, key: string)
    requires Mirrors(order, seen) && key !in seen
    ensures Mirrors(order + [key], seen + {key})
  {
  }

  class RecentMessageIds {
    var order: seq<string>
    var seen: set<string>
    const capacity: nat

    /** Every key this object was shown. */
    ghost var shown: seq<string>

    /** The queue is the window of the specification, and the set mirrors it without duplicates. */
    ghost predicate Valid()
      reads this
    {
      && capacity >= 1
      && order == Last(Accepted(shown, capacity), capacity)
      && Mirrors(order, seen)
    }

    constructor (capacity: nat)
      ensures Valid() && shown == [] && this.capacity == Max(capacity, 1)
    {
      order := [];
      seen := {};
      this.capacity := Max(capacity, 1);
      shown := [];
    }

    method FirstSighting(key: string) returns (first: bool)
      requires Valid()
      modifies this
      ensures Valid() && shown == old(shown) + [key]
      ensures first == IsFresh(Accepted(old(shown), capacity), key, capacity)
      ensures |order| <= capacity && |seen| == |order|
    {
      ghost var accepted := Accepted(shown, capacity);
      shown := shown + [key];
      assert shown[..|shown| - 1] == old(shown);
      Cardinality(order, seen);
      if key in seen {
        return false;
      }
      WindowSlides(accepted, key, capacity);
      if |order| >= capacity {
        PopMirrors(order, seen);
        var oldest := order[0];
        order := order[1..];
        seen := seen - {oldest};
      }
      PushMirrors(order, seen, key);
      order := order + [key];
      seen := seen + {key};
      Cardinality(order, seen);
      return true;
    }
  }

  lemma WindowSlides(accepted: seq<string>, key: string, capacity: nat)
    requires capacity >= 1
    ensures var window := Last(accepted, capacity);
            Last(accepted + [key], capacity) == if |window| >= capacity then window[1..] + [key] else window + [key]
  {
  }

  lemma {:induction false} Cardinality(order: seq<string>, seen: set<string>)
    requires Mirrors(order, seen)
    ensures |seen| == |order|
  {
    if order != [] {
      var last := order[|order| - 1];
      assert order == order[..|order| - 1] + [last];
      Cardinality(order[..|order| - 1], seen - {last});
    } else {
      assert seen == {};
    }
  }

  /** Two accepts of one key have at least `capacity` other accepts between them. */
  lemma {:induction false} RepeatsAreFarApart(keys: seq<string>, capacity: nat, i: nat, j: nat)
    requires i < j < |Accepted(keys, capacity)|
    requires Accepted(keys, capacity)[i] == Accepted(keys, capacity)[j]
    ensures j - i > capacity
  {
    var before := Accepted(keys[..|keys| - 1], capacity);
    if j < |before| {
      RepeatsAreFarApart(keys[..|keys| - 1], capacity, i, j);
    } else {
      InWindow(before, capacity, i);
    }
  }

  lemma InWindow(accepted: seq<string>, capacity: nat, i: nat)
    requires i < |accepted|
    ensures |accepted| - i <= capacity ==> accepted[i] in Last(accepted, capacity)
  {
  }

  /** A key is turned away exactly when fewer than `capacity` keys were accepted after it was. */
  lemma TurnedAway(keys: seq<string>, key: string, capacity: nat)
    ensures !IsFresh(Accepted(keys, capacity), key, capacity)
       <==> exists i :: 0 <= i < |Accepted(keys, capacity)| && Accepted(keys, capacity)[i] == key
                     && |Accepted(keys, capacity)| - 1 - i < capacity
  {
  }

  /** One more sighting: the key is accepted, again or for the first time, unless it is one of the last
      `capacity` keys accepted. */
  lemma AcceptsExactlyWhen(keys: seq<string>, key: string, capacity: nat)
    ensures var before := Accepted(keys, capacity);
            Accepted(keys + [key], capacity)
            == if exists i :: 0 <= i < |before| && |before| - capacity <= i && before[i] == key then before else before + [key]
  {
    assert (keys + [key])[..|keys|] == keys;
    TurnedAway(keys, key, capacity);
  }
}
