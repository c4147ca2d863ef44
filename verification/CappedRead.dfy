/**
  `read_capped` of `src/link_preview.rs`: a body that arrives in pieces, read up to a cap, stopping
  early once a marker has been seen. Each new piece is scanned only from an overlap point.
*/
module CappedRead {
  import opened Wrappers
  import opened Text

  /** What `resp.chunk().await` yields: bytes, or an error. */
  datatype Piece = Chunk(bytes: seq<byte>) | Broken

  function Lower(b: byte): byte { if 65 <= b <= 90 then b + 32 else b }

  predicate SameLetters(a: seq<byte>, b: seq<byte>) {
    |a| == |b| && forall i :: 0 <= i < |a| ==> Lower(a[i]) == Lower(b[i])
  }

  /** `large` is one of the 26 letters and `small` its small form. */
  predicate IsPair(large: byte, small: byte) {
    exists k :: 0 <= k < 26 && "ABCDEFGHIJKLMNOPQRSTUVWXYZ"[k] as int == large && "abcdefghijklmnopqrstuvwxyz"[k] as int == small
  }

  lemma PairMeans(large: byte, small: byte)
    ensures IsPair(large, small) <==> 65 <= large <= 90 && small == large + 32
  {
    var upper, lower := "ABCDEFGHIJKLMNOPQRSTUVWXYZ", "abcdefghijklmnopqrstuvwxyz";
    assert forall k :: 0 <= k < 26 ==> upper[k] as int == 65 + k;
    assert forall k :: 0 <= k < 26 ==> lower[k] as int == 97 + k;
    if 65 <= large <= 90 && small == large + 32 {
      assert upper[large - 65] as int == large && lower[large - 65] as int == small;
    }
  }

  /** Bytes count as the same letter when they are equal, or the large and the small form of one. */
  lemma SameLetterMeans(a: byte, b: byte)
    ensures Lower(a) == Lower(b) <==> a == b || IsPair(a, b) || IsPair(b, a)
  {
    PairMeans(a, b);
    PairMeans(b, a);
  }

  predicate MarkerAt(s: seq<byte>, marker: seq<byte>, k: nat) {
    k + |marker| <= |s| && SameLetters(s[k..k + |marker|], marker)
  }

  predicate Holds(s: seq<byte>, marker: seq<byte>) {
    exists k :: 0 <= k <= |s| && MarkerAt(s, marker, k)
  }

  predicate Found(s: seq<byte>, stopAt: Option<seq<byte>>) {
    stopAt.Some? && Holds(s, stopAt.value)
  }

  function First(cap: nat, s: seq<byte>): seq<byte> { s[..Min(cap, |s|)] }

  /** `windows` refuses a width of zero. */
  predicate Usable(stopAt: Option<seq<byte>>) { stopAt.Some? ==> stopAt.value != [] }

  /** The read with the whole buffer scanned after each piece. */
  function Read(pieces: seq<Piece>, cap: nat, stopAt: Option<seq<byte>>, out: seq<byte>): Option<seq<byte>> {
    if pieces == [] then Some(out)
    else if pieces[0].Broken? then None
    else if |out| >= cap then Some(out)
    else
      var more := out + First(cap - |out|, pieces[0].bytes);
      if Found(more, stopAt) then Some(more) else Read(pieces[1..], cap, stopAt, more)
  }

  method ReadCapped(pieces: seq<Piece>, cap: nat, stopAt: Option<seq<byte>>) returns (r: Option<seq<byte>>)
    requires Usable(stopAt)
    ensures r == Read(pieces, cap, stopAt, [])
  {
    var out: seq<byte> := [];
    var i := 0;
    assert pieces[0..] == pieces;
    while i < |pieces|
      invariant 0 <= i <= |pieces|
      invariant !Found(out, stopAt)
      invariant Read(pieces, cap, stopAt, []) == Read(pieces[i..], cap, stopAt, out)
    {
      var piece := pieces[i];
      assert pieces[i..][1..] == pieces[i + 1..];
      i := i + 1;
      if piece.Broken? {
        return None;
      }
      var room := if |out| <= cap then cap - |out| else 0;
      if room == 0 {
        break;
      }
      var width := if stopAt.Some? then |stopAt.value| else 0;
      var scanFrom := if width <= |out| then |out| - width else 0;
      ghost var before := out;
      out := out + piece.bytes[..Min(|piece.bytes|, room)];
      if stopAt.Some? {
        OverlapIsEnough(before, out, stopAt.value);
        if Holds(out[scanFrom..], stopAt.value) {
          break;
        }
      }
    }
    r := Some(out);
  }

  lemma MarkerInTail(s: seq<byte>, from: nat, marker: seq<byte>, k: nat)
    requires from <= |s|
    ensures MarkerAt(s[from..], marker, k) <==> MarkerAt(s, marker, from + k)
  {
  }

  lemma MarkerInPrefix(a: seq<byte>, s: seq<byte>, marker: seq<byte>, k: nat)
    requires a <= s && k + |marker| <= |a|
    ensures MarkerAt(a, marker, k) <==> MarkerAt(s, marker, k)
  {
  }

  /** Scanning from one marker's width before the new bytes finds the marker exactly when scanning
      everything would, if the earlier bytes do not hold it. */
  lemma OverlapIsEnough(earlier: seq<byte>, all: seq<byte>, marker: seq<byte>)
    requires marker != [] && earlier <= all && !Holds(earlier, marker)
    ensures var scanFrom := if |marker| <= |earlier| then |earlier| - |marker| else 0;
            Holds(all[scanFrom..], marker) <==> Holds(all, marker)
  {
    var scanFrom := if |marker| <= |earlier| then |earlier| - |marker| else 0;
    var tail := all[scanFrom..];
    if Holds(tail, marker) {
      var k :| 0 <= k <= |tail| && MarkerAt(tail, marker, k);
      MarkerInTail(all, scanFrom, marker, k);
    }
    if Holds(all, marker) {
      var k :| 0 <= k <= |all| && MarkerAt(all, marker, k);
      if k < scanFrom {
        MarkerInPrefix(earlier, all, marker, k);
        assert false;
      }
      MarkerInTail(all, scanFrom, marker, k - scanFrom);
    }
  }

  // ---------------------------------------------------------------- the body

  /** The bytes that arrive before the first error, and how many pieces that is. */
  function Body(pieces: seq<Piece>): seq<byte> {
    if pieces == [] || pieces[0].Broken? then [] else pieces[0].bytes + Body(pieces[1..])
  }

  function Whole(pieces: seq<Piece>): (n: nat)
    ensures n <= |pieces|
    ensures n < |pieces| ==> pieces[n].Broken?
    ensures forall i :: 0 <= i < n ==> pieces[i].Chunk?
  {
    if pieces == [] || pieces[0].Broken? then 0 else 1 + Whole(pieces[1..])
  }

  lemma HoldsGrows(a: seq<byte>, b: seq<byte>, marker: seq<byte>)
    requires a <= b && Holds(a, marker)
    ensures Holds(b, marker)
  {
    var k :| 0 <= k <= |a| && MarkerAt(a, marker, k);
    MarkerInPrefix(a, b, marker, k);
  }

  lemma FirstAddsUp(cap: nat, out: seq<byte>, chunk: seq<byte>, rest: seq<byte>)
    requires |out| <= cap
    ensures var more := out + First(cap - |out|, chunk);
            && more <= First(cap, out + (chunk + rest))
            && First(cap, out + (chunk + rest)) == First(cap, more + (if |more| < cap then rest else []))
            && (|more| < cap ==> more == out + chunk)
  {
  }

  /** What the read returns, from a state in which `out` has been read and does not hold the marker. */
  lemma {:induction false} ReadOutcome(pieces: seq<Piece>, cap: nat, stopAt: Option<seq<byte>>, out: seq<byte>)
    requires |out| <= cap && !Found(out, stopAt)
    ensures var r := Read(pieces, cap, stopAt, out);
            var want := First(cap, out + Body(pieces));
            r.Some? ==> out <= r.value <= want && (if Found(want, stopAt) then Found(r.value, stopAt) else r.value == want)
  {
    if pieces == [] || pieces[0].Broken? || |out| == cap {
      assert out + Body(pieces) == out || |out| == cap;
    } else {
      var more := out + First(cap - |out|, pieces[0].bytes);
      FirstAddsUp(cap, out, pieces[0].bytes, Body(pieces[1..]));
      if Found(more, stopAt) {
        HoldsGrows(more, First(cap, out + Body(pieces)), stopAt.value);
      } else {
        ReadOutcome(pieces[1..], cap, stopAt, more);
        if |more| == cap {
          assert First(cap, more + Body(pieces[1..])) == more;
        }
      }
    }
  }

  /** However a body is split into pieces, what is read is a prefix of at most `cap` bytes; it holds
      the marker exactly when the first `cap` bytes do, and is all of those when they do not. */
  lemma ReadIsPrefix(pieces: seq<Piece>, cap: nat, stopAt: Option<seq<byte>>)
    requires Usable(stopAt) && Read(pieces, cap, stopAt, []).Some?
    ensures var r := Read(pieces, cap, stopAt, []).value;
            var want := First(cap, Body(pieces));
            && r <= want && |r| <= cap
            && (Found(r, stopAt) <==> Found(want, stopAt))
            && (!Found(want, stopAt) ==> r == want)
  {
    NothingYet(stopAt);
    ReadOutcome(pieces, cap, stopAt, []);
    var r := Read(pieces, cap, stopAt, []).value;
    var want := First(cap, Body(pieces));
    assert [] + Body(pieces) == Body(pieces);
    if Found(r, stopAt) {
      HoldsGrows(r, want, stopAt.value);
    }
  }

  lemma NothingYet(stopAt: Option<seq<byte>>)
    requires Usable(stopAt)
    ensures !Found([], stopAt)
  {
  }

  /** No marker: two ways of splitting one body read the same. */
  lemma SplitDoesNotMatter(a: seq<Piece>, b: seq<Piece>, cap: nat)
    requires Whole(a) == |a| && Whole(b) == |b| && Body(a) == Body(b)
    ensures Read(a, cap, None, []) == Read(b, cap, None, []) == Some(First(cap, Body(a)))
  {
    WholeReads(a, cap, None, []);
    WholeReads(b, cap, None, []);
    ReadIsPrefix(a, cap, None);
    ReadIsPrefix(b, cap, None);
  }

  lemma {:induction false} WholeReads(pieces: seq<Piece>, cap: nat, stopAt: Option<seq<byte>>, out: seq<byte>)
    requires Whole(pieces) == |pieces|
    ensures Read(pieces, cap, stopAt, out).Some?
  {
    if pieces != [] && |out| < cap {
      WholeReads(pieces[1..], cap, stopAt, out + First(cap - |out|, pieces[0].bytes));
    }
  }

  /** Reading one byte more than the limit tells exactly whether the image is over it. */
  lemma OversizeIsSeen(pieces: seq<Piece>, limit: nat)
    requires Read(pieces, limit + 1, None, []).Some?
    ensures |Read(pieces, limit + 1, None, []).value| > limit <==> |Body(pieces)| > limit
  {
    ReadIsPrefix(pieces, limit + 1, None);
  }

  // ---------------------------------------------------------------- errors

  lemma {:induction false} BodyOfAll(pieces: seq<Piece>, k: nat)
    requires k < Whole(pieces)
    ensures Body(pieces[..k + 1]) == pieces[0].bytes + Body(pieces[1..][..k])
  {
    assert pieces[..k + 1][0] == pieces[0] && pieces[..k + 1][1..] == pieces[1..][..k];
  }

  /** The pieces whose arrival decides whether an error at the end of them is still met: all but the
      last one before it. */
  ghost function BeforeLast(pieces: seq<Piece>): seq<byte> {
    if Whole(pieces) == 0 then [] else Body(pieces[..Whole(pieces) - 1])
  }

  lemma {:induction false} FailsFrom(pieces: seq<Piece>, cap: nat, stopAt: Option<seq<byte>>, out: seq<byte>)
    requires |out| <= cap && !Found(out, stopAt)
    ensures Read(pieces, cap, stopAt, out).None? <==>
            && Whole(pieces) < |pieces|
            && !Found(First(cap, out + Body(pieces)), stopAt)
            && (Whole(pieces) > 0 ==> |out + BeforeLast(pieces)| < cap)
  {
    if pieces == [] {
    } else if pieces[0].Broken? {
      assert First(cap, out + Body(pieces)) == out;
    } else if |out| < cap {
      var more := out + First(cap - |out|, pieces[0].bytes);
      var rest := pieces[1..];
      FirstAddsUp(cap, out, pieces[0].bytes, Body(rest));
      if Found(more, stopAt) {
        HoldsGrows(more, First(cap, out + Body(pieces)), stopAt.value);
      } else {
        FailsFrom(rest, cap, stopAt, more);
        if Whole(rest) > 0 {
          BodyOfAll(pieces, Whole(rest) - 1);
        } else {
          assert pieces[..0] == [];
        }
        assert |more| == cap ==> First(cap, more + Body(rest)) == more;
      }
    }
  }

  /** The read fails exactly when an error arrives, the marker is not among the first `cap` bytes
      before it, and the pieces before the last good one did not already fill the cap: an error right
      after the piece that fills it still loses what was read. */
  lemma FailsExactlyWhen(pieces: seq<Piece>, cap: nat, stopAt: Option<seq<byte>>)
    requires Usable(stopAt)
    ensures Read(pieces, cap, stopAt, []).None? <==>
            && Whole(pieces) < |pieces|
            && !Found(First(cap, Body(pieces)), stopAt)
            && (Whole(pieces) > 0 ==> |BeforeLast(pieces)| < cap)
  {
    NothingYet(stopAt);
    FailsFrom(pieces, cap, stopAt, []);
    assert [] + Body(pieces) == Body(pieces) && [] + BeforeLast(pieces) == BeforeLast(pieces);
  }

  /** One chunk that fills the cap exactly, and then an error: nothing is returned. */
  lemma FullThenBrokenFails(bytes: seq<byte>)
    requires bytes != []
    ensures Read([Chunk(bytes), Broken], |bytes|, None, []).None?
    ensures First(|bytes|, Body([Chunk(bytes), Broken])) == bytes
  {
    var pieces := [Chunk(bytes), Broken];
    assert pieces[1..] == [Broken];
    assert Body([Broken]) == [] && bytes + [] == bytes;
    FailsExactlyWhen(pieces, |bytes|, None);
    assert Whole([Broken]) == 0 && Whole(pieces) == 1;
    assert pieces[..0] == [];
  }
}
