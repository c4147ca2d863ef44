/**
  `fmt_utc` and the text comparison that SQLite and MySQL do on its results.
*/
module Timestamps {

  /** A UTC instant as calendar fields; what is below a second never reaches the text. */
  datatype Civil = Civil(year: int, month: nat, day: nat, hour: nat, minute: nat, second: nat, nanos: nat)

  predicate IsCivil(c: Civil) {
    1 <= c.month <= 12 && 1 <= c.day <= 31 && c.hour < 24 && c.minute < 60 && c.second <= 60
  }

  predicate FourDigitYear(c: Civil) { 0 <= c.year <= 9999 }

  /** Calendar order, to the second. */
  predicate Earlier(a: Civil, b: Civil) {
    || a.year < b.year
    || (a.year == b.year &&
        ValuesLess([a.month, a.day, a.hour, a.minute, a.second], [b.month, b.day, b.hour, b.minute, b.second]))
  }

  predicate ValuesLess(a: seq<nat>, b: seq<nat>)
    requires |a| == |b|
  {
    a != [] && (a[0] < b[0] || (a[0] == b[0] && ValuesLess(a[1..], b[1..])))
  }

  /** Byte-wise comparison, a prefix first. */
  predicate TextLess(a: string, b: string) {
    b != [] && (a == [] || a[0] < b[0] || (a[0] == b[0] && TextLess(a[1..], b[1..])))
  }

  predicate TextAtMost(a: string, b: string) { !TextLess(b, a) }

  function Digit(d: nat): char
    requires d < 10
  {
    '0' + d as char
  }

  function Pow10(w: nat): nat { if w == 0 then 1 else 10 * Pow10(w - 1) }

  /** The last `w` decimal digits of `n`. */
  function Pad(n: nat, w: nat): (s: string)
    ensures |s| == w
  {
    if w == 0 then [] else Pad(n / 10, w - 1) + [Digit(n % 10)]
  }

  function Width(n: nat): nat { if n < 10 then 1 else 1 + Width(n / 10) }

  /** chrono's `%Y`: four digits, and an explicit sign outside 0..9999. */
  function YearText(y: int): string {
    if 0 <= y <= 9999 then Pad(y, 4)
    else if y > 9999 then "+" + Pad(y, Width(y))
    else "-" + (if -y <= 9999 then Pad(-y, 4) else Pad(-y, Width(-y)))
  }

  datatype Field = Field(separator: char, value: nat)

  /** Two-digit fields, each after its separator. */
  function FieldsText(fields: seq<Field>): string {
    if fields == [] then "" else [fields[0].separator] + Pad(fields[0].value, 2) + FieldsText(fields[1..])
  }

  function ClockFields(c: Civil): seq<Field> {
    [Field('-', c.month), Field('-', c.day), Field(' ', c.hour), Field(':', c.minute), Field(':', c.second)]
  }

  /** `%Y-%m-%d %H:%M:%S` */
  function FmtUtc(c: Civil): string { YearText(c.year) + FieldsText(ClockFields(c)) }

  // ---------------------------------------------------------------- order of padded numbers

  lemma {:induction false} LessOfConcat(a1: string, a2: string, b1: string, b2: string)
    requires |a1| == |b1|
    ensures TextLess(a1 + a2, b1 + b2) <==> TextLess(a1, b1) || (a1 == b1 && TextLess(a2, b2))
  {
    if a1 == [] {
      assert a1 + a2 == a2 && b1 + b2 == b2;
    } else {
      LessOfConcat(a1[1..], a2, b1[1..], b2);
      assert (a1 + a2)[1..] == a1[1..] + a2 && (b1 + b2)[1..] == b1[1..] + b2;
      assert a1 == b1 <==> a1[0] == b1[0] && a1[1..] == b1[1..];
    }
  }

  lemma {:induction false} PadOrder(n: nat, m: nat, w: nat)
    requires n < Pow10(w) && m < Pow10(w)
    ensures TextLess(Pad(n, w), Pad(m, w)) <==> n < m
    ensures Pad(n, w) == Pad(m, w) <==> n == m
  {
    if w > 0 {
      PadOrder(n / 10, m / 10, w - 1);
      var a, b := [Digit(n % 10)], [Digit(m % 10)];
      LessOfConcat(Pad(n / 10, w - 1), a, Pad(m / 10, w - 1), b);
      assert TextLess(a, b) <==> n % 10 < m % 10;
      assert Pad(n, w)[..w - 1] == Pad(n / 10, w - 1) && Pad(m, w)[..w - 1] == Pad(m / 10, w - 1);
      assert Pad(n, w)[w - 1] == a[0] && Pad(m, w)[w - 1] == b[0];
    }
  }

  lemma {:induction false} FieldsOrder(f: seq<Field>, g: seq<Field>)
    requires |f| == |g|
    requires forall i :: 0 <= i < |f| ==> f[i].separator == g[i].separator && f[i].value < 100 && g[i].value < 100
    ensures TextLess(FieldsText(f), FieldsText(g)) <==> ValuesLess(Values(f), Values(g))
  {
    if f != [] {
      FieldsOrder(f[1..], g[1..]);
      assert Pow10(2) == 100;
      PadOrder(f[0].value, g[0].value, 2);
      var a, b := Pad(f[0].value, 2), Pad(g[0].value, 2);
      LessOfConcat([f[0].separator], a, [g[0].separator], b);
      LessOfConcat([f[0].separator] + a, FieldsText(f[1..]), [g[0].separator] + b, FieldsText(g[1..]));
      assert ([f[0].separator] + a)[1..] == a && ([g[0].separator] + b)[1..] == b;
    }
  }

  function Values(f: seq<Field>): (v: seq<nat>)
    ensures |v| == |f|
  {
    if f == [] then [] else [f[0].value] + Values(f[1..])
  }

  lemma ClockValues(c: Civil)
    ensures Values(ClockFields(c)) == [c.month, c.day, c.hour, c.minute, c.second]
  {
    var f := ClockFields(c);
    assert f[1..][1..][1..][1..] == [f[4]] && f[1..][1..][1..] == [f[3], f[4]] && f[1..][1..] == [f[2], f[3], f[4]];
    assert Values([f[4]]) == [c.second];
    assert Values([f[3], f[4]]) == [c.minute, c.second];
    assert Values([f[2], f[3], f[4]]) == [c.hour, c.minute, c.second];
    assert Values(f[1..]) == [c.day, c.hour, c.minute, c.second];
  }

  /** For four-digit years the text sorts exactly as the times do. */
  lemma TextOrderIsTimeOrder(a: Civil, b: Civil)
    requires IsCivil(a) && IsCivil(b) && FourDigitYear(a) && FourDigitYear(b)
    ensures TextLess(FmtUtc(a), FmtUtc(b)) <==> Earlier(a, b)
  {
    assert Pow10(4) == 10000;
    PadOrder(a.year, b.year, 4);
    LessOfConcat(Pad(a.year, 4), FieldsText(ClockFields(a)), Pad(b.year, 4), FieldsText(ClockFields(b)));
    FieldsOrder(ClockFields(a), ClockFields(b));
    ClockValues(a);
    ClockValues(b);
  }

  lemma {:induction false} PadIsDigits(n: nat, w: nat)
    ensures forall i :: 0 <= i < w ==> '0' <= Pad(n, w)[i] <= '9'
  {
    if w > 0 {
      PadIsDigits(n / 10, w - 1);
    }
  }

  /** The number that decimal digits spell. */
  function Number(s: string): nat
    requires forall i :: 0 <= i < |s| ==> '0' <= s[i] <= '9'
  {
    if s == [] then 0 else Number(s[..|s| - 1]) * 10 + (s[|s| - 1] as int - '0' as int)
  }

  lemma {:induction false} PadReadsBack(n: nat, w: nat)
    requires n < Pow10(w)
    ensures forall i :: 0 <= i < w ==> '0' <= Pad(n, w)[i] <= '9'
    ensures Number(Pad(n, w)) == n
  {
    PadIsDigits(n, w);
    if w > 0 {
      PadReadsBack(n / 10, w - 1);
      assert Pad(n, w)[..w - 1] == Pad(n / 10, w - 1);
    }
  }

  lemma {:induction false} FieldAt(fields: seq<Field>, k: nat)
    requires k < |fields|
    ensures |FieldsText(fields)| == 3 * |fields|
    ensures FieldsText(fields)[3 * k] == fields[k].separator && FieldsText(fields)[3 * k + 1..3 * k + 3] == Pad(fields[k].value, 2)
  {
    var rest := FieldsText(fields[1..]);
    var head := [fields[0].separator] + Pad(fields[0].value, 2);
    if |fields| > 1 {
      FieldAt(fields[1..], if k > 0 then k - 1 else 0);
    }
    assert FieldsText(fields) == head + rest;
    if k > 0 {
      assert FieldsText(fields)[3 * k + 1..3 * k + 3] == rest[3 * (k - 1) + 1..3 * (k - 1) + 3];
    }
  }

  /** Field `k` of a text, which stands behind its separator. */
  lemma FieldReadsBack(c: Civil, k: nat)
    requires FourDigitYear(c) && k < 5 && ClockFields(c)[k].value < 100
    ensures |FmtUtc(c)| == 19 && FmtUtc(c)[3 * k + 4] == "-- ::"[k]
    ensures '0' <= FmtUtc(c)[3 * k + 5] <= '9' && '0' <= FmtUtc(c)[3 * k + 6] <= '9'
    ensures var part := FmtUtc(c)[3 * k + 5..3 * k + 7];
            (forall i :: 0 <= i < 2 ==> '0' <= part[i] <= '9') && Number(part) == ClockFields(c)[k].value
  {
    FieldAt(ClockFields(c), k);
    assert FmtUtc(c)[3 * k + 5..3 * k + 7] == FieldsText(ClockFields(c))[3 * k + 1..3 * k + 3];
    assert Pow10(2) == 100;
    PadReadsBack(ClockFields(c)[k].value, 2);
    var part := FmtUtc(c)[3 * k + 5..3 * k + 7];
    assert part[0] == FmtUtc(c)[3 * k + 5] && part[1] == FmtUtc(c)[3 * k + 6];
  }

  /** The text of a four-digit year has 19 characters, `-` and `:` and a blank in their places, and the fields
      read back from the digits between them. */
  lemma TextReadsBack(c: Civil)
    requires IsCivil(c) && FourDigitYear(c)
    ensures var t := FmtUtc(c);
            && |t| == 19 && t[4] == '-' && t[7] == '-' && t[10] == ' ' && t[13] == ':' && t[16] == ':'
            && (forall i :: 0 <= i < 19 && i !in {4, 7, 10, 13, 16} ==> '0' <= t[i] <= '9')
            && Number(t[0..4]) == c.year && Number(t[5..7]) == c.month && Number(t[8..10]) == c.day
            && Number(t[11..13]) == c.hour && Number(t[14..16]) == c.minute && Number(t[17..19]) == c.second
  {
    var t := FmtUtc(c);
    assert Pow10(4) == 10000;
    PadReadsBack(c.year, 4);
    assert t[0..4] == Pad(c.year, 4);
    FieldReadsBack(c, 0);
    FieldReadsBack(c, 1);
    FieldReadsBack(c, 2);
    FieldReadsBack(c, 3);
    FieldReadsBack(c, 4);
    assert forall i :: 0 <= i < 4 ==> t[i] == t[0..4][i];
  }

  /** The SQL test `send_at <= now` agrees with the clock, for a present-day `now`, exactly when the
      requested year has at most four digits. */
  lemma DueTestIsExact(sendAt: Civil, now: Civil)
    requires IsCivil(sendAt) && IsCivil(now) && FourDigitYear(now)
    ensures (TextAtMost(FmtUtc(sendAt), FmtUtc(now)) <==> !Earlier(now, sendAt)) <==> sendAt.year <= 9999
  {
    if FourDigitYear(sendAt) {
      TextOrderIsTimeOrder(now, sendAt);
    } else {
      SignSortsFirst(sendAt, now);
    }
  }

  lemma SignSortsFirst(signed: Civil, now: Civil)
    requires FourDigitYear(now) && !FourDigitYear(signed)
    ensures TextAtMost(FmtUtc(signed), FmtUtc(now))
  {
    var n := Pad(now.year, 4);
    assert forall i :: 0 <= i < |n| ==> n[i] >= '0' by {
      PadIsDigits(now.year, 4);
    }
    assert FmtUtc(now)[0] == n[0];
  }

  /** A message parked until the year 10000 is due at once. */
  lemma Year10000IsDueNow()
    ensures var sendAt := Civil(10000, 1, 1, 0, 0, 0, 0);
            var now := Civil(2026, 1, 1, 0, 0, 0, 0);
            TextAtMost(FmtUtc(sendAt), FmtUtc(now)) && Earlier(now, sendAt)
  {
  }

  // ---------------------------------------------------------------- text order is a total order

  lemma {:induction false} TextAtMostTransitive(a: string, b: string, c: string)
    requires TextAtMost(a, b) && TextAtMost(b, c)
    ensures TextAtMost(a, c)
  {
    if a != [] && b != [] && c != [] && a[0] == b[0] == c[0] {
      TextAtMostTransitive(a[1..], b[1..], c[1..]);
    }
  }

  lemma {:induction false} TextTotal(a: string, b: string)
    ensures TextAtMost(a, b) || TextAtMost(b, a)
  {
    if a != [] && b != [] && a[0] == b[0] {
      TextTotal(a[1..], b[1..]);
    }
  }
}
