/**
  What several of the modelled files use of Rust's `str` and byte slices.
*/
module Text {
  import opened Wrappers

  type byte = n: nat | n < 256

  /** Rust's `char::is_whitespace`, Unicode's White_Space. */
  predicate IsWhitespace(c: char) {
    var n := c as int;
    || 9 <= n <= 13 || n == 0x20 || n == 0x85 || n == 0xA0 || n == 0x1680 || 0x2000 <= n <= 0x200A
    || n == 0x2028 || n == 0x2029 || n == 0x202F || n == 0x205F || n == 0x3000
  }

  predicate OccursAt(s: string, needle: string, k: nat) {
    k + |needle| <= |s| && s[k..k + |needle|] == needle
  }

  /** The first occurrence of `needle` at `from` or later. */
  function Find(s: string, needle: string, from: nat): (r: Option<nat>)
    ensures r.Some? ==> from <= r.value && OccursAt(s, needle, r.value)
    ensures r.Some? ==> forall k :: from <= k < r.value ==> !OccursAt(s, needle, k)
    ensures r.None? ==> forall k :: from <= k ==> !OccursAt(s, needle, k)
    decreases |s| - from
  {
    if from + |needle| > |s| then None
    else if OccursAt(s, needle, from) then Some(from)
    else Find(s, needle, from + 1)
  }

  lemma OccursStartsWith(s: string, needle: string, k: nat)
    requires needle != []
    ensures OccursAt(s, needle, k) ==> k < |s| && s[k] == needle[0]
  {
    if OccursAt(s, needle, k) {
      assert s[k] == s[k..k + |needle|][0];
    }
  }
}
