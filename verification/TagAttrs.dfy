/**
  `parse_attrs` of `src/link_preview.rs`: the index-driven reader of one tag's attributes.
*/
module TagAttrs {
  import opened Wrappers
  import opened Text

  function LowerChar(c: char): char { if 'A' <= c <= 'Z' then (c as nat + 32) as char else c }

  function Lower(s: string): string {
    if s == [] then [] else [LowerChar(s[0])] + Lower(s[1..])
  }

  lemma {:induction false} LowerKeepsLength(s: string)
    ensures |Lower(s)| == |s|
  {
    if s != [] {
      LowerKeepsLength(s[1..]);
    }
  }

  lemma LetterLowers(c: char)
    ensures forall k :: 0 <= k < 26 && c == "ABCDEFGHIJKLMNOPQRSTUVWXYZ"[k] ==> LowerChar(c) == "abcdefghijklmnopqrstuvwxyz"[k]
    ensures c !in "ABCDEFGHIJKLMNOPQRSTUVWXYZ" ==> LowerChar(c) == c
  {
    var upper := "ABCDEFGHIJKLMNOPQRSTUVWXYZ";
    assert forall k :: 0 <= k < 26 ==> upper[k] as int == 'A' as int + k;
    if 'A' <= c <= 'Z' {
      assert upper[c as int - 'A' as int] == c;
    }
  }

  /** Only the 26 letters change, each to its own small form. */
  lemma {:induction false} LowerMeans(s: string, i: nat)
    requires i < |s|
    ensures |Lower(s)| == |s|
    ensures forall k :: 0 <= k < 26 && s[i] == "ABCDEFGHIJKLMNOPQRSTUVWXYZ"[k] ==> Lower(s)[i] == "abcdefghijklmnopqrstuvwxyz"[k]
    ensures s[i] !in "ABCDEFGHIJKLMNOPQRSTUVWXYZ" ==> Lower(s)[i] == s[i]
    decreases |s|
  {
    if i > 0 {
      LowerMeans(s[1..], i - 1);
    } else {
      LowerKeepsLength(s);
      LetterLowers(s[0]);
    }
  }

  predicate IsGap(c: char) { IsWhitespace(c) || c == '/' }
  predicate IsKeyChar(c: char) { !IsWhitespace(c) && c != '=' && c != '/' }
  predicate IsQuote(c: char) { c == '"' || c == '\'' }
  predicate NotSpace(c: char) { !IsWhitespace(c) }
  function Not(q: char): char -> bool { c => c != q }

  /** Where the characters from `i` on stop satisfying `p`. */
  function Span(s: string, i: nat, p: char -> bool): (j: nat)
    requires i <= |s|
    ensures i <= j <= |s|
    decreases |s| - i
  {
    if i == |s| || !p(s[i]) then i else Span(s, i + 1, p)
  }

  /** One turn of the outer loop: a key, its value if an `=` follows, and where the next turn starts,
      which is one past the end when the last thing consumed was imaginary. */
  datatype Item = Item(key: string, value: Option<string>, next: nat)

  /** The value starting at `i`, and where reading goes on. */
  function Value(s: string, i: nat): (r: (string, nat))
    requires i <= |s|
    ensures i <= r.1 <= |s| + 1
  {
    if i < |s| && IsQuote(s[i]) then
      var stop := Span(s, i + 1, Not(s[i]));
      (s[i + 1..stop], stop + 1)
    else
      var stop := Span(s, i, NotSpace);
      (s[i..stop], stop)
  }

  function NextItem(s: string, i: nat): (r: Item)
    requires i < |s|
    ensures i < r.next <= |s| + 1
  {
    var start := Span(s, i, IsGap);
    var stop := Span(s, start, IsKeyChar);
    var key := s[start..stop];
    var at := Span(s, stop, IsWhitespace);
    if at < |s| && s[at] == '=' then
      var value := Value(s, Span(s, at + 1, IsWhitespace));
      Item(key, Some(value.0), value.1)
    else Item(key, None, if key == [] then at + 1 else at)
  }

  /** `entry(key).or_insert(value)`, and nothing for the empty key or without a value. */
  function Put(found: map<string, string>, item: Item): map<string, string> {
    if item.value.None? || item.key == [] || Lower(item.key) in found then found
    else found[Lower(item.key) := item.value.value]
  }

  function Attrs(s: string, i: nat, found: map<string, string>): map<string, string>
    decreases |s| + 1 - i
  {
    if i >= |s| then found
    else
      var item := NextItem(s, i);
      Attrs(s, item.next, Put(found, item))
  }

  function Parsed(tag: string): map<string, string> { Attrs(tag, Span(tag, 0, NotSpace), map[]) }

  // ---------------------------------------------------------------- the loops

  method Advance(chars: string, from: nat, p: char -> bool) returns (i: nat)
    requires from <= |chars|
    ensures i == Span(chars, from, p)
  {
    i := from;
    while i < |chars| && p(chars[i])
      invariant from <= i <= |chars|
      invariant Span(chars, i, p) == Span(chars, from, p)
    {
      i := i + 1;
    }
  }

  method ReadValue(tag: string, from: nat) returns (value: string, i: nat)
    requires from <= |tag|
    ensures (value, i) == Value(tag, from)
  {
    if from < |tag| && IsQuote(tag[from]) {
      var quote := tag[from];
      i := Advance(tag, from + 1, Not(quote));
      value := tag[from + 1..i];
      i := i + 1;
    } else {
      i := Advance(tag, from, NotSpace);
      value := tag[from..i];
    }
  }

  method ReadItem(tag: string, from: nat) returns (key: string, value: Option<string>, i: nat)
    requires from < |tag|
    ensures Item(key, value, i) == NextItem(tag, from)
  {
    var start := Advance(tag, from, IsGap);
    i := Advance(tag, start, IsKeyChar);
    key := tag[start..i];
    i := Advance(tag, i, IsWhitespace);
    value := None;
    if i < |tag| && tag[i] == '=' {
      i := Advance(tag, i + 1, IsWhitespace);
      var text;
      text, i := ReadValue(tag, i);
      value := Some(text);
    } else if key == [] {
      i := i + 1;
    }
  }

  method ParseAttrs(tag: string) returns (out: map<string, string>)
    ensures out == Parsed(tag)
  {
    out := map[];
    var i := Advance(tag, 0, NotSpace);
    while i < |tag|
      invariant 0 <= i <= |tag| + 1
      invariant Parsed(tag) == Attrs(tag, i, out)
      decreases |tag| + 1 - i
    {
      var key, value, next := ReadItem(tag, i);
      i := next;
      if value.Some? && key != [] && Lower(key) !in out {
        out := out[Lower(key) := value.value];
      }
    }
  }

  // ---------------------------------------------------------------- printing

  /** What stands after a key: nothing, or `pre = post text`, the text quoted or bare. */
  datatype Written = NoValue | Valued(pre: string, post: string, quote: Option<char>, text: string)

  /** An attribute as a page may write it. */
  datatype Attr = Attr(gap: string, key: string, written: Written)

  predicate All(s: string, p: char -> bool) { forall i :: 0 <= i < |s| ==> p(s[i]) }

  predicate WrittenFits(w: Written) {
    w.Valued? ==>
      && All(w.pre, IsWhitespace) && All(w.post, IsWhitespace)
      && (if w.quote.Some? then IsQuote(w.quote.value) && w.quote.value !in w.text
          else w.text != [] && All(w.text, NotSpace) && !IsQuote(w.text[0]))
  }

  predicate Fits(a: Attr) { All(a.gap, IsGap) && a.key != [] && All(a.key, IsKeyChar) && WrittenFits(a.written) }

  /** The value as written, and then `more`. */
  function ValueThen(w: Written, more: string): string
    requires w.Valued?
  {
    if w.quote.Some? then [w.quote.value] + (w.text + ([w.quote.value] + more)) else w.text + more
  }

  function WrittenThen(w: Written, more: string): string {
    if w.NoValue? then more else w.pre + ("=" + (w.post + ValueThen(w, more)))
  }

  function PrintThen(a: Attr, more: string): string { a.gap + (a.key + WrittenThen(a.written, more)) }

  function PrintAll(attrs: seq<Attr>, tail: string): string {
    if attrs == [] then tail else PrintThen(attrs[0], PrintAll(attrs[1..], tail))
  }

  /** What must come next: anything after a closing quote, white space or `/` after a key without a value,
      white space after the tag's name and after a bare value. */
  datatype Follow = Anything | Gap | Space

  predicate Follows(need: Follow, s: string) {
    need.Anything? || s == [] || IsWhitespace(s[0]) || (need.Gap? && s[0] == '/')
  }

  function NeededAfter(w: Written): Follow {
    match w
    case NoValue => Gap
    case Valued(_, _, quote, _) => if quote.Some? then Anything else Space
  }

  predicate Printable(attrs: seq<Attr>, tail: string, need: Follow) {
    if attrs == [] then All(tail, IsGap) && Follows(need, tail)
    else
      && Fits(attrs[0]) && (need.Anything? || (attrs[0].gap != [] && Follows(need, attrs[0].gap)))
      && Printable(attrs[1..], tail, NeededAfter(attrs[0].written))
  }

  /** The reference: keys in lower case, the first of several with a value wins. */
  function FirstWins(attrs: seq<Attr>): map<string, string> {
    if attrs == [] then map[]
    else if attrs[0].written.NoValue? then FirstWins(attrs[1..])
    else FirstWins(attrs[1..])[Lower(attrs[0].key) := attrs[0].written.text]
  }

  /** Attribute `i` gives `key` a value. */
  predicate Gives(attrs: seq<Attr>, i: int, key: string) {
    0 <= i < |attrs| && attrs[i].written.Valued? && Lower(attrs[i].key) == key
  }

  lemma {:induction false} FirstWinsMeans(attrs: seq<Attr>, key: string)
    ensures key in FirstWins(attrs) <==> exists i :: Gives(attrs, i, key)
    ensures forall i :: Gives(attrs, i, key) && (forall j :: 0 <= j < i ==> !Gives(attrs, j, key))
              ==> key in FirstWins(attrs) && FirstWins(attrs)[key] == attrs[i].written.text
  {
    if attrs != [] {
      var rest := attrs[1..];
      FirstWinsMeans(rest, key);
      assert forall i :: 0 <= i < |rest| ==> (Gives(rest, i, key) <==> Gives(attrs, i + 1, key));
      if key in FirstWins(attrs) && !Gives(attrs, 0, key) {
        var i :| Gives(rest, i, key);
        assert Gives(attrs, i + 1, key);
      }
      forall i | Gives(attrs, i, key) && i > 0 && forall j :: 0 <= j < i ==> !Gives(attrs, j, key)
        ensures key in FirstWins(attrs) && FirstWins(attrs)[key] == attrs[i].written.text
      {
        assert !Gives(attrs, 0, key) && Gives(rest, i - 1, key);
        assert forall j :: 0 <= j < i - 1 ==> !Gives(rest, j, key);
      }
      if exists i :: Gives(attrs, i, key) {
        var i :| Gives(attrs, i, key);
        assert i > 0 ==> Gives(rest, i - 1, key);
      }
    }
  }

  // ---------------------------------------------------------------- reading what was printed

  /** From `i` on, `t` is what is left of `s`. */
  ghost predicate Left(s: string, i: nat, t: string) { i <= |s| && s[i..] == t }

  lemma Past(s: string, i: nat, a: string, b: string)
    requires Left(s, i, a + b)
    ensures i + |a| <= |s| && Left(s, i + |a|, b) && s[i..i + |a|] == a
  {
  }

  lemma {:induction false} SpanStops(s: string, i: nat, j: nat, p: char -> bool)
    requires i <= j <= |s| && (forall k :: i <= k < j ==> p(s[k])) && (j < |s| ==> !p(s[j]))
    ensures Span(s, i, p) == j
    decreases j - i
  {
    if i < j {
      SpanStops(s, i + 1, j, p);
    }
  }

  lemma SpanOver(s: string, i: nat, part: string, after: string, p: char -> bool)
    requires Left(s, i, part + after) && All(part, p)
    requires after != [] ==> !p(after[0])
    ensures i + |part| <= |s| && Left(s, i + |part|, after)
    ensures Span(s, i, p) == i + |part| && s[i..i + |part|] == part
  {
    Past(s, i, part, after);
    var j := i + |part|;
    assert forall k :: i <= k < j ==> s[k] == s[i..j][k - i];
    assert j < |s| ==> s[j] == s[j..][0];
    SpanStops(s, i, j, p);
  }

  lemma QuotedReads(s: string, i: nat, q: char, value: string, more: string)
    requires IsQuote(q) && q !in value && Left(s, i, [q] + (value + ([q] + more)))
    ensures i < |s| && Left(s, |s| - |more|, more) && Value(s, i) == (value, |s| - |more|)
  {
    Past(s, i, [q], value + ([q] + more));
    assert s[i] == s[i..i + 1][0];
    SpanOver(s, i + 1, value, [q] + more, Not(q));
    Past(s, i + 1 + |value|, [q], more);
  }

  lemma BareReads(s: string, i: nat, value: string, more: string)
    requires value != [] && All(value, NotSpace) && !IsQuote(value[0]) && Follows(Space, more) && Left(s, i, value + more)
    ensures i < |s| && Left(s, |s| - |more|, more) && Value(s, i) == (value, |s| - |more|)
  {
    SpanOver(s, i, value, more, NotSpace);
    assert s[i] == s[i..][0];
  }

  lemma ValueReads(s: string, i: nat, w: Written, more: string)
    requires w.Valued? && WrittenFits(w) && Follows(NeededAfter(w), more) && Left(s, i, ValueThen(w, more))
    ensures i < |s| && Left(s, |s| - |more|, more) && Value(s, i) == (w.text, |s| - |more|)
  {
    if w.quote.Some? {
      QuotedReads(s, i, w.quote.value, w.text, more);
    } else {
      BareReads(s, i, w.text, more);
    }
  }

  /** The value part begins with a character that is not white space. */
  lemma ValueStarts(w: Written, more: string)
    requires w.Valued? && WrittenFits(w)
    ensures ValueThen(w, more) != [] && !IsWhitespace(ValueThen(w, more)[0])
  {
  }

  lemma KeyReads(s: string, i: nat, gap: string, key: string, after: string)
    requires Left(s, i, gap + (key + after)) && All(gap, IsGap) && key != [] && All(key, IsKeyChar)
    requires after != [] ==> !IsKeyChar(after[0])
    ensures var start := Span(s, i, IsGap);
            var stop := Span(s, start, IsKeyChar);
            Left(s, stop, after) && s[start..stop] == key
  {
    assert (key + after)[0] == key[0];
    SpanOver(s, i, gap, key + after, IsGap);
    SpanOver(s, i + |gap|, key, after, IsKeyChar);
  }

  lemma EqualsReads(s: string, i: nat, pre: string, after: string)
    requires Left(s, i, pre + ("=" + after)) && All(pre, IsWhitespace)
    ensures var at := Span(s, i, IsWhitespace);
            at < |s| && s[at] == '=' && Left(s, at + 1, after)
  {
    SpanOver(s, i, pre, "=" + after, IsWhitespace);
    var at := i + |pre|;
    Past(s, at, "=", after);
    assert s[at] == s[at..at + 1][0];
  }

  lemma EqualsStarts(pre: string, after: string)
    requires All(pre, IsWhitespace)
    ensures var t := pre + ("=" + after);
            t != [] && !IsKeyChar(t[0])
  {
  }

  /** The value read from `i` on, after white space, and where reading goes on. */
  ghost predicate HasValue(s: string, i: nat, text: string, next: nat)
    requires i <= |s|
  {
    Value(s, Span(s, i, IsWhitespace)) == (text, next)
  }

  lemma SpacedValueReads(s: string, i: nat, w: Written, more: string) returns (next: nat)
    requires w.Valued? && WrittenFits(w) && Follows(NeededAfter(w), more) && Left(s, i, w.post + ValueThen(w, more))
    ensures HasValue(s, i, w.text, next) && Left(s, next, more) && next == |s| - |more|
  {
    ValueStarts(w, more);
    SpanOver(s, i, w.post, ValueThen(w, more), IsWhitespace);
    ValueReads(s, i + |w.post|, w, more);
    next := |s| - |more|;
  }

  /** The key read from `i` on is `key`, and what is read after it starts at `at`. */
  ghost predicate Named(s: string, i: nat, key: string, at: nat)
    requires i <= |s|
  {
    var start := Span(s, i, IsGap);
    var stop := Span(s, start, IsKeyChar);
    s[start..stop] == key && at == Span(s, stop, IsWhitespace)
  }

  /** Up to and with the `=`. */
  lemma NameReads(s: string, i: nat, gap: string, key: string, pre: string, after: string) returns (at: nat)
    requires Left(s, i, gap + (key + (pre + ("=" + after))))
    requires All(gap, IsGap) && key != [] && All(key, IsKeyChar) && All(pre, IsWhitespace)
    ensures i < |s| && Named(s, i, key, at) && at < |s| && s[at] == '=' && Left(s, at + 1, after)
  {
    EqualsStarts(pre, after);
    KeyReads(s, i, gap, key, pre + ("=" + after));
    at := Span(s, Span(s, Span(s, i, IsGap), IsKeyChar), IsWhitespace);
    EqualsReads(s, Span(s, Span(s, i, IsGap), IsKeyChar), pre, after);
  }

  lemma ItemOf(s: string, i: nat, key: string, at: nat, text: string, next: nat)
    requires i < |s| && Named(s, i, key, at) && at < |s| && s[at] == '='
    requires HasValue(s, at + 1, text, next)
    ensures NextItem(s, i) == Item(key, Some(text), next)
  {
  }

  lemma ValueAt(s: string, i: nat, key: string, at: nat, w: Written, more: string)
    requires i < |s| && Named(s, i, key, at) && at < |s| && s[at] == '='
    requires w.Valued? && WrittenFits(w) && Follows(NeededAfter(w), more) && Left(s, at + 1, w.post + ValueThen(w, more))
    ensures Left(s, |s| - |more|, more) && NextItem(s, i) == Item(key, Some(w.text), |s| - |more|)
  {
    var next := SpacedValueReads(s, at + 1, w, more);
    ItemOf(s, i, key, at, w.text, next);
  }

  lemma ItemReads(s: string, i: nat, a: Attr, more: string)
    requires Fits(a) && a.written.Valued? && Follows(NeededAfter(a.written), more) && Left(s, i, PrintThen(a, more))
    ensures i < |s| && Left(s, |s| - |more|, more)
    ensures NextItem(s, i) == Item(a.key, Some(a.written.text), |s| - |more|)
  {
    var w := a.written;
    var at := NameReads(s, i, a.gap, a.key, w.pre, w.post + ValueThen(w, more));
    ValueAt(s, i, a.key, at, w, more);
  }

  lemma {:induction false} SpanJoins(s: string, i: nat, j: nat, p: char -> bool)
    requires i <= j <= |s| && forall k :: i <= k < j ==> p(s[k])
    ensures Span(s, i, p) == Span(s, j, p)
    decreases j - i
  {
    if i < j {
      SpanJoins(s, i + 1, j, p);
    }
  }

  /** It makes no difference from where in a gap reading goes on. */
  lemma GapAddsNothing(s: string, i: nat, j: nat, found: map<string, string>)
    requires i <= j <= |s| && forall k :: i <= k < j ==> IsGap(s[k])
    ensures Attrs(s, i, found) == Attrs(s, j, found)
  {
    SpanJoins(s, i, j, IsGap);
    if i < j == |s| {
      assert NextItem(s, i) == Item([], None, |s| + 1);
    } else if i < j {
      assert NextItem(s, i) == NextItem(s, j);
    }
  }

  lemma {:induction false} SpanHolds(s: string, i: nat, p: char -> bool)
    requires i <= |s|
    ensures forall k :: i <= k < Span(s, i, p) ==> p(s[k])
    ensures Span(s, i, p) < |s| ==> !p(s[Span(s, i, p)])
    decreases |s| - i
  {
    if i < |s| && p(s[i]) {
      SpanHolds(s, i + 1, p);
    }
  }

  /** White space, then no `=`. */
  lemma NoEqualsReads(s: string, i: nat, gap: string, body: string)
    requires Left(s, i, gap + body) && All(gap, IsGap) && (body != [] ==> IsKeyChar(body[0]))
    ensures var at := Span(s, i, IsWhitespace);
            (at < |s| ==> s[at] != '=') && forall k :: i <= k < at ==> IsGap(s[k])
  {
    SpanHolds(s, i, IsWhitespace);
    Past(s, i, gap, body);
    assert forall k :: i <= k < i + |gap| ==> s[k] == gap[k - i];
    assert body != [] ==> s[i + |gap|] == body[0];
  }

  /** A key without a value: what is read next starts in the gap after it, or right behind that. */
  lemma KeyAloneReads(s: string, i: nat, a: Attr, gap: string, body: string)
    requires Fits(a) && Left(s, i, a.gap + (a.key + (gap + body)))
    requires All(gap, IsGap) && (body != [] ==> gap != [] && IsKeyChar(body[0]))
    ensures var stop := |s| - |gap + body|;
            && i < |s| && Left(s, stop, gap + body)
            && NextItem(s, i).key == a.key && NextItem(s, i).value.None?
            && stop <= NextItem(s, i).next <= |s| && forall k :: stop <= k < NextItem(s, i).next ==> IsGap(s[k])
  {
    KeyReads(s, i, a.gap, a.key, gap + body);
    NoEqualsReads(s, Span(s, Span(s, i, IsGap), IsKeyChar), gap, body);
  }

  lemma TailAddsNothing(s: string, i: nat, tail: string, found: map<string, string>)
    requires Left(s, i, tail) && All(tail, IsGap)
    ensures Attrs(s, i, found) == found
  {
    assert forall k :: i <= k < |s| ==> s[k] == tail[k - i];
    GapAddsNothing(s, i, |s|, found);
  }

  lemma PutOne(key: string, text: string, found: map<string, string>, rest: map<string, string>, next: nat)
    requires key != []
    ensures rest + Put(found, Item(key, Some(text), next)) == rest[Lower(key) := text] + found
  {
  }

  lemma StartsAsNeeded(attrs: seq<Attr>, tail: string, need: Follow)
    requires Printable(attrs, tail, need)
    ensures Follows(need, PrintAll(attrs, tail))
  {
  }

  /** What is left to print is a gap and then a key, or only a gap. */
  lemma GapThenKey(attrs: seq<Attr>, tail: string, need: Follow) returns (gap: string, body: string)
    requires Printable(attrs, tail, need)
    ensures PrintAll(attrs, tail) == gap + body && All(gap, IsGap) && (body != [] ==> IsKeyChar(body[0]))
    ensures body != [] && need.Gap? ==> gap != []
  {
    if attrs == [] {
      gap, body := tail, [];
    } else {
      gap, body := attrs[0].gap, attrs[0].key + WrittenThen(attrs[0].written, PrintAll(attrs[1..], tail));
      assert body[0] == attrs[0].key[0];
    }
  }

  /** One attribute with a value read, and the rest as it should be. */
  lemma ValuedStep(s: string, i: nat, attrs: seq<Attr>, next: nat, found: map<string, string>)
    requires attrs != [] && attrs[0].key != [] && attrs[0].written.Valued? && i < |s|
    requires NextItem(s, i) == Item(attrs[0].key, Some(attrs[0].written.text), next)
    requires var more := Put(found, NextItem(s, i));
             Attrs(s, next, more) == FirstWins(attrs[1..]) + more
    ensures Attrs(s, i, found) == FirstWins(attrs) + found
  {
    PutOne(attrs[0].key, attrs[0].written.text, found, FirstWins(attrs[1..]), next);
  }

  lemma ValuedReads(s: string, i: nat, attrs: seq<Attr>, tail: string, need: Follow) returns (next: nat)
    requires attrs != [] && Printable(attrs, tail, need) && Left(s, i, PrintAll(attrs, tail)) && attrs[0].written.Valued?
    ensures attrs[0].key != [] && i < |s| && NextItem(s, i) == Item(attrs[0].key, Some(attrs[0].written.text), next)
    ensures Left(s, next, PrintAll(attrs[1..], tail))
  {
    var a, more := attrs[0], PrintAll(attrs[1..], tail);
    StartsAsNeeded(attrs[1..], tail, NeededAfter(a.written));
    ItemReads(s, i, a, more);
    next := |s| - |more|;
  }

  lemma AloneSkipped(s: string, i: nat, a: Attr, gap: string, body: string, found: map<string, string>) returns (next: nat)
    requires Fits(a) && Left(s, i, a.gap + (a.key + (gap + body)))
    requires All(gap, IsGap) && (body != [] ==> gap != [] && IsKeyChar(body[0]))
    ensures Left(s, next, gap + body) && Attrs(s, i, found) == Attrs(s, next, found)
  {
    KeyAloneReads(s, i, a, gap, body);
    next := |s| - |gap + body|;
    GapAddsNothing(s, next, NextItem(s, i).next, found);
  }

  lemma AloneReads(s: string, i: nat, attrs: seq<Attr>, tail: string, need: Follow, found: map<string, string>) returns (next: nat)
    requires attrs != [] && Printable(attrs, tail, need) && Left(s, i, PrintAll(attrs, tail)) && attrs[0].written.NoValue?
    ensures Left(s, next, PrintAll(attrs[1..], tail)) && Attrs(s, i, found) == Attrs(s, next, found)
  {
    var gap, body := GapThenKey(attrs[1..], tail, Gap);
    assert PrintAll(attrs, tail) == attrs[0].gap + (attrs[0].key + (gap + body));
    next := AloneSkipped(s, i, attrs[0], gap, body, found);
  }

  lemma {:induction false} AttrsRead(s: string, i: nat, attrs: seq<Attr>, tail: string, need: Follow, found: map<string, string>)
    requires Printable(attrs, tail, need) && Left(s, i, PrintAll(attrs, tail))
    ensures Attrs(s, i, found) == FirstWins(attrs) + found
    decreases |attrs|
  {
    if attrs == [] {
      TailAddsNothing(s, i, tail, found);
    } else if attrs[0].written.Valued? {
      var next := ValuedReads(s, i, attrs, tail, need);
      AttrsRead(s, next, attrs[1..], tail, NeededAfter(attrs[0].written), Put(found, NextItem(s, i)));
      ValuedStep(s, i, attrs, next, found);
    } else {
      var next := AloneReads(s, i, attrs, tail, need, found);
      AttrsRead(s, next, attrs[1..], tail, Gap, found);
    }
  }

  /** A printed tag parses to its attributes that have a value, whatever keys stand alone between them: keys
      in lower case, the first of several wins, in whatever quoting and spacing they were written. */
  lemma PrintedTagParses(name: string, attrs: seq<Attr>, tail: string)
    requires All(name, NotSpace) && Printable(attrs, tail, Space)
    ensures Parsed(name + PrintAll(attrs, tail)) == FirstWins(attrs)
  {
    var s := name + PrintAll(attrs, tail);
    assert s[0..] == s;
    StartsAsNeeded(attrs, tail, Space);
    SpanOver(s, 0, name, PrintAll(attrs, tail), NotSpace);
    AttrsRead(s, |name|, attrs, tail, Space, map[]);
  }
}
