/**
  PEM armour of `src/cloud/flows_crypto.rs` (RFC 7468): the writer with its 64-character lines, the
  reader, and the choice between the two private-key forms.
*/
module Pem {
  import opened Wrappers
  import opened Text
  import opened Base64
  import opened Der

  const LINE_WIDTH: nat := 64

  function BeginMark(tag: string): string { "-----BEGIN " + tag + "-----" }
  function EndMark(tag: string): string { "-----END " + tag + "-----" }

  function WithoutSpace(s: string): string {
    if s == [] then []
    else if IsWhitespace(s[0]) then WithoutSpace(s[1..])
    else [s[0]] + WithoutSpace(s[1..])
  }

  /** What stands between the first `begin` and the first `end` after it. */
  function Between(s: string, begin: string, end: string): Option<string> {
    var b := Find(s, begin, 0);
    if b.None? then None
    else
      var start := b.value + |begin|;
      var stop := Find(s, end, start);
      if stop.None? then None else Some(s[start..stop.value])
  }

  function PemBody(pem: string, tag: string): Option<seq<byte>> {
    var body := Between(pem, BeginMark(tag), EndMark(tag));
    if body.None? then None else Decode(WithoutSpace(body.value))
  }

  /** The base64 text cut into lines of at most 64 characters. */
  function Rows(s: string): (r: seq<string>)
    ensures forall row :: row in r ==> 1 <= |row| <= LINE_WIDTH
    ensures '\n' !in s ==> forall row :: row in r ==> '\n' !in row
  {
    if s == [] then []
    else if |s| <= LINE_WIDTH then [s]
    else [s[..LINE_WIDTH]] + Rows(s[LINE_WIDTH..])
  }

  function Terminated(rows: seq<string>): string {
    if rows == [] then [] else rows[0] + "\n" + Terminated(rows[1..])
  }

  function PemText(tag: string, der: seq<byte>): string {
    BeginMark(tag) + ("\n" + Terminated(Rows(Encode(der)))) + EndMark(tag) + "\n"
  }

  method PemEncode(tag: string, der: seq<byte>) returns (out: string)
    ensures out == PemText(tag, der)
  {
    var b64 := Encode(der);
    out := BeginMark(tag) + "\n";
    ghost var head, body := out, [];
    var i := 0;
    while i < |b64|
      invariant 0 <= i <= |b64|
      invariant out == head + body
      invariant body + Terminated(Rows(b64[i..])) == Terminated(Rows(b64))
    {
      var stop := if i + LINE_WIDTH < |b64| then i + LINE_WIDTH else |b64|;
      RowsStep(b64, i, stop);
      ghost var row := b64[i..stop] + "\n";
      Joined(head, body, row);
      Joined(body, row, Terminated(Rows(b64[stop..])));
      out := out + (b64[i..stop] + "\n");
      body := body + row;
      i := stop;
    }
    assert Terminated(Rows(b64[i..])) == [] && body + [] == body;
    Joined(BeginMark(tag), "\n", body);
    Joined(out, EndMark(tag), "\n");
    out := out + (EndMark(tag) + "\n");
  }

  lemma Joined<T>(a: seq<T>, b: seq<T>, c: seq<T>)
    ensures (a + b) + c == a + (b + c)
  {
  }

  lemma RowsStep(s: string, i: nat, stop: nat)
    requires i < |s| && stop == if i + LINE_WIDTH < |s| then i + LINE_WIDTH else |s|
    ensures Terminated(Rows(s[i..])) == s[i..stop] + "\n" + Terminated(Rows(s[stop..]))
  {
    var t := s[i..];
    if i + LINE_WIDTH < |s| {
      assert t[..LINE_WIDTH] == s[i..stop] && t[LINE_WIDTH..] == s[stop..];
      assert Rows(t)[1..] == Rows(s[stop..]);
    } else {
      assert t == s[i..stop] && s[stop..] == [];
      assert Rows(t) == [t] && Rows(t)[1..] == [];
      assert Terminated(Rows(s[stop..])) == [];
    }
  }

  // ---------------------------------------------------------------- the body of a block

  predicate Solid(s: string) { forall c :: c in s ==> !IsWhitespace(c) && c != '-' }

  lemma EncodingIsSolid(der: seq<byte>)
    ensures Solid(Encode(der))
  {
    EncodingChars(der);
  }

  lemma {:induction false} SpaceIsSkipped(a: string, b: string)
    ensures WithoutSpace(a + b) == WithoutSpace(a) + WithoutSpace(b)
  {
    if a == [] {
      assert a + b == b;
    } else {
      SpaceIsSkipped(a[1..], b);
      assert (a + b)[0] == a[0] && (a + b)[1..] == a[1..] + b;
      Joined([a[0]], WithoutSpace(a[1..]), WithoutSpace(b));
    }
  }

  lemma {:induction false} SolidHasNoSpace(s: string)
    requires Solid(s)
    ensures WithoutSpace(s) == s
  {
    if s != [] {
      SolidHasNoSpace(s[1..]);
    }
  }

  lemma LeadingNewline(more: string)
    ensures WithoutSpace("\n" + more) == WithoutSpace(more)
  {
  }

  lemma RowThenMore(row: string, more: string)
    requires Solid(row)
    ensures WithoutSpace(row + "\n" + more) == row + WithoutSpace(more)
  {
    Joined(row, "\n", more);
    SpaceIsSkipped(row, "\n" + more);
    SolidHasNoSpace(row);
    LeadingNewline(more);
  }

  lemma {:induction false} RowsHoldTheText(s: string)
    requires Solid(s)
    ensures WithoutSpace(Terminated(Rows(s))) == s
    ensures '-' !in Terminated(Rows(s))
  {
    if s != [] {
      var stop := if LINE_WIDTH < |s| then LINE_WIDTH else |s|;
      var row, more := s[..stop], s[stop..];
      RowsStep(s, 0, stop);
      assert s[0..] == s && s[0..stop] == row && s == row + more;
      RowsHoldTheText(more);
      RowThenMore(row, Terminated(Rows(more)));
    }
  }

  // ---------------------------------------------------------------- round trip

  /** A mark is found where it stands when no dash comes between `from` and it. */
  lemma FindsFirst(before: string, mark: string, after: string, from: nat)
    requires from <= |before| && '-' !in before[from..]
    requires mark != [] && mark[0] == '-'
    ensures Find(before + mark + after, mark, from) == Some(|before|)
  {
    var s := before + mark + after;
    assert OccursAt(s, mark, |before|);
    forall k | from <= k < |before| ensures !OccursAt(s, mark, k) {
      assert s[k] == before[from..][k - from];
      OccursStartsWith(s, mark, k);
    }
  }

  lemma Regroup(a: string, b: string, c: string, d: string, e: string, f: string)
    ensures a + (b + c + d + e) + f == a + b + c + d + (e + f)
    ensures a + b + c + d + e == a + b + (c + d + e)
  {
  }

  lemma MiddleOf(a: string, b: string, c: string, d: string)
    ensures (a + b + c + d)[|a|..|a| + |b|] == b && (a + b)[|a|..] == b
  {
  }

  lemma BetweenMarks(before: string, begin: string, middle: string, end: string, after: string)
    requires '-' !in before && '-' !in middle
    requires begin != [] && begin[0] == '-' && end != [] && end[0] == '-'
    ensures Between(before + begin + middle + end + after, begin, end) == Some(middle)
  {
    var head := before + begin;
    Regroup(before, begin, middle, end, after, []);
    FindsFirst(before, begin, middle + end + after, 0);
    MiddleOf(head, middle, end, after);
    FindsFirst(head + middle, end, after, |head|);
  }

  lemma RowsDecode(der: seq<byte>)
    ensures var body := "\n" + Terminated(Rows(Encode(der)));
            '-' !in body && Decode(WithoutSpace(body)) == Some(der)
  {
    EncodingIsSolid(der);
    RowsHoldTheText(Encode(der));
    LeadingNewline(Terminated(Rows(Encode(der))));
    DecodeOfEncode(der);
  }

  lemma MarksStartWithDash(tag: string)
    ensures BeginMark(tag) != [] && BeginMark(tag)[0] == '-' && EndMark(tag) != [] && EndMark(tag)[0] == '-'
  {
  }

  /** A block is read back under its own label, whatever dash-free text comes before it and whatever
      text comes after. */
  lemma PemRoundTrip(before: string, tag: string, der: seq<byte>, after: string)
    requires '-' !in before
    ensures PemBody(before + PemText(tag, der) + after, tag) == Some(der)
  {
    var begin, end := BeginMark(tag), EndMark(tag);
    var body := "\n" + Terminated(Rows(Encode(der)));
    MarksStartWithDash(tag);
    RowsDecode(der);
    BetweenMarks(before, begin, body, end, "\n" + after);
    Regroup(before, begin, body, end, "\n", after);
  }

  // ---------------------------------------------------------------- labels

  lemma MarkStartsWith(s: string, tag: string, k: nat)
    requires OccursAt(s, BeginMark(tag), k)
    ensures k + 11 <= |s| && s[k + 5] == 'B' && forall i :: k <= i < k + 5 ==> s[i] == '-'
  {
  }

  /** A text whose dashes are four runs of five, of which only the first is followed by a `B`. */
  ghost predicate FourRuns(s: string, e: nat, f: nat, g: nat) {
    && 5 < e && e + 5 < f && f + 5 < g && |s| == g + 6
    && (forall i :: 5 <= i < e || e + 5 <= i < f || f + 5 <= i < g || i == g + 5 ==> s[i] != '-')
    && s[e + 5] != 'B' && s[f + 5] != 'B' && s[g + 5] != 'B'
  }

  lemma OnlyFirstRun(s: string, e: nat, f: nat, g: nat, tag: string, k: nat)
    requires FourRuns(s, e, f, g)
    ensures OccursAt(s, BeginMark(tag), k) ==> k == 0
  {
    assert s[5] != '-' && s[e + 5] != '-' && s[f + 5] != '-' && s[g + 5] != '-';
    if OccursAt(s, BeginMark(tag), k) {
      MarkStartsWith(s, tag, k);
      assert s[k] == '-';
    }
  }

  lemma BlockHasFourRuns(tag: string, rows: string)
    requires '-' !in tag && '-' !in rows
    ensures var s := BeginMark(tag) + ("\n" + rows) + EndMark(tag) + "\n";
            FourRuns(s, 11 + |tag|, 17 + |tag| + |rows|, 26 + 2 * |tag| + |rows|)
  {
  }

  lemma ForeignLabel(own: string, rows: string, other: string)
    requires '-' !in own && '-' !in other && own != other && '-' !in rows
    ensures Between(BeginMark(own) + ("\n" + rows) + EndMark(own) + "\n", BeginMark(other), EndMark(other)).None?
  {
    var s := BeginMark(own) + ("\n" + rows) + EndMark(own) + "\n";
    BlockHasFourRuns(own, rows);
    SameMark(own, other, s[|BeginMark(own)|..]);
    assert s == BeginMark(own) + s[|BeginMark(own)|..];
    forall k: nat ensures !OccursAt(s, BeginMark(other), k) {
      OnlyFirstRun(s, 11 + |own|, 17 + |own| + |rows|, 26 + 2 * |own| + |rows|, other, k);
    }
  }

  /** Of two labels without dashes, a block written under one is read under the other exactly when
      they are the same label. */
  lemma OnlyItsOwnLabel(own: string, der: seq<byte>, other: string)
    requires '-' !in own && '-' !in other
    ensures PemBody(PemText(own, der), other) == if other == own then Some(der) else None
  {
    if own == other {
      PemRoundTrip([], own, der, []);
      assert [] + PemText(own, der) + [] == PemText(own, der);
    } else {
      EncodingIsSolid(der);
      RowsHoldTheText(Encode(der));
      ForeignLabel(own, Terminated(Rows(Encode(der))), other);
    }
  }

  lemma SameMark(own: string, other: string, rest: string)
    requires '-' !in own && '-' !in other
    ensures OccursAt(BeginMark(own) + rest, BeginMark(other), 0) ==> own == other
  {
    var s := BeginMark(own) + rest;
    var m := BeginMark(other);
    assert forall i :: 11 <= i < 11 + |own| ==> s[i] == own[i - 11];
    assert forall i :: 11 <= i < 11 + |other| ==> m[i] == other[i - 11];
    assert s[11 + |own|] == '-' && m[11 + |other|] == '-';
    if OccursAt(s, m, 0) {
      assert forall i :: 0 <= i < |m| ==> s[i] == s[0..|m|][i] == m[i];
      assert |own| == |other|;
      assert forall i :: 0 <= i < |own| ==> own[i] == s[11 + i] == m[11 + i] == other[i];
    }
  }

  // ---------------------------------------------------------------- line lengths

  /** The text as its lines; the newline after the last one ends it. */
  function LinesOf(s: string): (r: seq<string>)
    ensures s != [] ==> r != []
  {
    if s == [] then []
    else if s[0] == '\n' then [[]] + LinesOf(s[1..])
    else if |s| == 1 then [s]
    else
      var rest := LinesOf(s[1..]);
      [[s[0]] + rest[0]] + rest[1..]
  }

  lemma {:induction false} OneLine(line: string, rest: string)
    requires '\n' !in line
    ensures LinesOf(line + "\n" + rest) == [line] + LinesOf(rest)
  {
    var s := line + "\n" + rest;
    if line == [] {
      assert s[1..] == rest;
    } else {
      OneLine(line[1..], rest);
      assert s[1..] == line[1..] + "\n" + rest;
      assert line == [line[0]] + line[1..];
    }
  }

  lemma {:induction false} LinesOfRows(rows: seq<string>, rest: string)
    requires forall row :: row in rows ==> '\n' !in row
    ensures LinesOf(Terminated(rows) + rest) == rows + LinesOf(rest)
  {
    if rows == [] {
      assert Terminated(rows) + rest == rest;
    } else {
      LinesOfRows(rows[1..], rest);
      OneLine(rows[0], Terminated(rows[1..]) + rest);
      Joined(rows[0] + "\n", Terminated(rows[1..]), rest);
      Joined([rows[0]], rows[1..], LinesOf(rest));
      assert rows == [rows[0]] + rows[1..];
    }
  }

  lemma LinesOfBlock(begin: string, rows: seq<string>, end: string)
    requires '\n' !in begin && '\n' !in end && forall row :: row in rows ==> '\n' !in row
    ensures LinesOf(begin + ("\n" + Terminated(rows)) + end + "\n") == [begin] + rows + [end]
  {
    var tail := end + "\n";
    var body := Terminated(rows);
    OneLine(end, []);
    assert tail == end + "\n" + [] && LinesOf(tail) == [end];
    LinesOfRows(rows, tail);
    OneLine(begin, body + tail);
    Joined(begin, "\n", body);
    Joined(begin + "\n" + body, end, "\n");
    Joined(begin + "\n", body, tail);
    Joined([begin], rows, [end]);
  }

  lemma RowsAreNarrow(der: seq<byte>)
    ensures forall row :: row in Rows(Encode(der)) ==> 1 <= |row| <= LINE_WIDTH && '\n' !in row
  {
    EncodingIsSolid(der);
    assert IsWhitespace('\n');
    assert '\n' !in Encode(der);
  }

  /** A block is its begin mark, the base64 in rows, and its end mark, one a line; every line keeps
      within 64 characters exactly when the label has at most 48. */
  lemma BlockLines(tag: string, der: seq<byte>)
    requires '\n' !in tag
    ensures LinesOf(PemText(tag, der)) == [BeginMark(tag)] + Rows(Encode(der)) + [EndMark(tag)]
    ensures (forall line :: line in LinesOf(PemText(tag, der)) ==> |line| <= LINE_WIDTH) <==> |tag| <= 48
  {
    var begin, rows, end := BeginMark(tag), Rows(Encode(der)), EndMark(tag);
    RowsAreNarrow(der);
    LinesOfBlock(begin, rows, end);
    var lines := [begin] + rows + [end];
    assert |begin| == 16 + |tag| && |end| == 14 + |tag|;
    assert lines[0] == begin;
  }

  // ---------------------------------------------------------------- either key form

  /** What a Rust string can hold. */
  predicate FitsString(s: string) { |s| < 0x8000_0000_0000_0000 }

  lemma {:induction false} DecodedIsShorter(s: string)
    requires Decode(s).Some?
    ensures 4 * |Decode(s).value| <= 3 * |s|
  {
    if |s| > 4 {
      DecodedIsShorter(s[4..]);
    }
  }

  lemma {:induction false} SkippingShortens(s: string)
    ensures |WithoutSpace(s)| <= |s|
  {
    if s != [] {
      SkippingShortens(s[1..]);
    }
  }

  lemma BodyFits(pem: string, tag: string)
    requires FitsString(pem) && PemBody(pem, tag).Some?
    ensures FitsMemory(PemBody(pem, tag).value)
  {
    var body := Between(pem, BeginMark(tag), EndMark(tag)).value;
    assert |body| <= |pem|;
    SkippingShortens(body);
    DecodedIsShorter(WithoutSpace(body));
  }

  /** The PKCS#8 bytes `parse_private_key` hands on; `None` is its `InvalidPrivateKey`. */
  function ParsePrivateKey(pem: string): Option<seq<byte>>
    requires FitsString(pem)
  {
    var pkcs8 := PemBody(pem, "PRIVATE KEY");
    if pkcs8.Some? then pkcs8
    else
      var pkcs1 := PemBody(pem, "RSA PRIVATE KEY");
      if pkcs1.None? then None
      else
        BodyFits(pem, "RSA PRIVATE KEY");
        Some(Wrapped(pkcs1.value))
  }

  /** A key written in the traditional form loads as the very bytes its PKCS#8 form loads as. */
  lemma EitherFormIsTheSameKey(key: seq<byte>)
    ensures FitsMemory(key) && FitsString(PemText("RSA PRIVATE KEY", key)) && FitsString(PemText("PRIVATE KEY", Wrapped(key))) ==>
              && ParsePrivateKey(PemText("RSA PRIVATE KEY", key)) == Some(Wrapped(key))
              && ParsePrivateKey(PemText("PRIVATE KEY", Wrapped(key))) == Some(Wrapped(key))
  {
    if FitsMemory(key) {
      OnlyItsOwnLabel("RSA PRIVATE KEY", key, "PRIVATE KEY");
      OnlyItsOwnLabel("RSA PRIVATE KEY", key, "RSA PRIVATE KEY");
      OnlyItsOwnLabel("PRIVATE KEY", Wrapped(key), "PRIVATE KEY");
    }
  }
}
