/**
  Base64 as section 4 of RFC 4648 defines it, with the strict decoder the PEM reader relies on:
  padding required, no foreign characters, no stray bits in the last digit.
*/
module Base64 {
  import opened Wrappers
  import opened Text

  type digit = n: nat | n < 64

  function ToChar(d: digit): (c: char)
    ensures IsBase64Char(c)
  {
    if d < 26 then 'A' + d as char
    else if d < 52 then 'a' + (d - 26) as char
    else if d < 62 then '0' + (d - 52) as char
    else if d == 62 then '+'
    else '/'
  }

  predicate IsBase64Char(c: char) {
    'A' <= c <= 'Z' || 'a' <= c <= 'z' || '0' <= c <= '9' || c == '+' || c == '/'
  }

  function FromChar(c: char): digit
    requires IsBase64Char(c)
  {
    if 'A' <= c <= 'Z' then c as nat - 65
    else if 'a' <= c <= 'z' then c as nat - 97 + 26
    else if '0' <= c <= '9' then c as nat - 48 + 52
    else if c == '+' then 62
    else 63
  }

  lemma CharRoundTrip(d: digit)
    ensures IsBase64Char(ToChar(d)) && FromChar(ToChar(d)) == d && ToChar(d) != '='
  {
  }

  lemma DigitRoundTrip(c: char)
    requires IsBase64Char(c)
    ensures ToChar(FromChar(c)) == c
  {
  }

  // Three bytes are four digits: the digits of a group, and the bytes they hold.

  function D0(a: byte): digit { a / 4 }
  function D1(a: byte, b: byte): digit { a % 4 * 16 + b / 16 }
  function D2(b: byte, c: byte): digit { b % 16 * 4 + c / 64 }
  function D3(c: byte): digit { c % 64 }

  function B0(p: digit, q: digit): byte { p * 4 + q / 16 }
  function B1(q: digit, r: digit): byte { q % 16 * 16 + r / 4 }
  function B2(r: digit, t: digit): byte { r % 4 * 64 + t }

  lemma BytesOfFour(a: byte, b: byte, c: byte)
    ensures B0(D0(a), D1(a, b)) == a && B1(D1(a, b), D2(b, c)) == b && B2(D2(b, c), D3(c)) == c
  {
  }

  lemma BytesOfThree(a: byte, b: byte)
    ensures B0(D0(a), D1(a, b)) == a && B1(D1(a, b), D2(b, 0)) == b && D2(b, 0) % 4 == 0
  {
  }

  lemma FourOfBytes(p: digit, q: digit, r: digit, t: digit)
    ensures D0(B0(p, q)) == p && D1(B0(p, q), B1(q, r)) == q && D2(B1(q, r), B2(r, t)) == r && D3(B2(r, t)) == t
  {
  }

  lemma ThreeOfBytes(p: digit, q: digit, r: digit)
    requires r % 4 == 0
    ensures D0(B0(p, q)) == p && D1(B0(p, q), B1(q, r)) == q && D2(B1(q, r), 0) == r
  {
  }

  lemma TwoOfBytes(p: digit, q: digit)
    requires q % 16 == 0
    ensures D0(B0(p, q)) == p && D1(B0(p, q), 0) == q
  {
  }

  function EncodeThree(a: byte, b: byte, c: byte): string {
    [ToChar(D0(a)), ToChar(D1(a, b)), ToChar(D2(b, c)), ToChar(D3(c))]
  }

  function EncodeTwo(a: byte, b: byte): string {
    [ToChar(D0(a)), ToChar(D1(a, b)), ToChar(D2(b, 0)), '=']
  }

  function EncodeOne(a: byte): string {
    [ToChar(D0(a)), ToChar(D1(a, 0)), '=', '=']
  }

  const UPPER: string := "ABCDEFGHIJKLMNOPQRSTUVWXYZ"
  const LOWER: string := "abcdefghijklmnopqrstuvwxyz"
  const NUMERALS: string := "0123456789"

  /** The alphabet of section 4 of RFC 4648. */
  const ALPHABET: string := UPPER + LOWER + NUMERALS + "+/"

  lemma LettersInOrder(k: nat)
    requires k < 26
    ensures UPPER[k] as int == k + 65 && LOWER[k] as int == k + 97
  {
  }

  lemma NumeralsInOrder(k: nat)
    requires k < 10
    ensures NUMERALS[k] as int == k + 48
  {
  }

  lemma InParts(i: nat, a: string, b: string, c: string, d: string)
    requires |a| == |b| == 26 && |c| == 10 && |d| == 2 && i < 64
    ensures var all := a + b + c + d;
            |all| == 64 && all[i] == if i < 26 then a[i] else if i < 52 then b[i - 26] else if i < 62 then c[i - 52] else d[i - 62]
  {
  }

  lemma UsesAlphabet(d: digit)
    ensures |ALPHABET| == 64 && ToChar(d) == ALPHABET[d]
  {
    if d < 52 {
      LettersInOrder(if d < 26 then d else d - 26);
    } else if d < 62 {
      NumeralsInOrder(d - 52);
    }
    InParts(d, UPPER, LOWER, NUMERALS, "+/");
  }

  lemma BitsOfThree(a: byte, b: byte, c: byte)
    ensures D0(a) * 262144 + D1(a, b) * 4096 + D2(b, c) * 64 + D3(c) == a * 65536 + b * 256 + c
  {
  }

  function Spelled(d: digit): char {
    UsesAlphabet(d);
    ALPHABET[d]
  }

  lemma SpelledAs(p: digit, q: digit, r: digit)
    ensures ToChar(p) == Spelled(p) && ToChar(q) == Spelled(q) && ToChar(r) == Spelled(r)
  {
    UsesAlphabet(p);
    UsesAlphabet(q);
    UsesAlphabet(r);
  }

  /** Four characters spell the 24 bits of three bytes, six at a time; with fewer bytes the bits that miss to
      a whole digit are zero, and whole missing digits are written `=`. */
  lemma GroupSpellsBits(a: byte, b: byte, c: byte) returns (p: digit, q: digit, r: digit, t: digit, last: digit, only: digit)
    ensures EncodeThree(a, b, c) == [Spelled(p), Spelled(q), Spelled(r), Spelled(t)]
    ensures p * 262144 + q * 4096 + r * 64 + t == a * 65536 + b * 256 + c
    ensures EncodeTwo(a, b) == [Spelled(p), Spelled(q), Spelled(last), '=']
    ensures p * 4096 + q * 64 + last == (a * 256 + b) * 4
    ensures EncodeOne(a) == [Spelled(p), Spelled(only), '=', '=']
    ensures p * 64 + only == a * 16
  {
    p, q, r, t, last, only := D0(a), D1(a, b), D2(b, c), D3(c), D2(b, 0), D1(a, 0);
    BitsOfThree(a, b, c);
    BitsOfThree(a, b, 0);
    BitsOfThree(a, 0, 0);
    SpelledAs(p, q, r);
    SpelledAs(t, last, only);
  }

  /** One to three bytes as four characters. */
  function Group(data: seq<byte>): (s: string)
    requires 1 <= |data| <= 3
    ensures |s| == 4
  {
    if |data| == 1 then EncodeOne(data[0])
    else if |data| == 2 then EncodeTwo(data[0], data[1])
    else EncodeThree(data[0], data[1], data[2])
  }

  function Encode(data: seq<byte>): string {
    if data == [] then []
    else if |data| <= 3 then Group(data)
    else Group(data[..3]) + Encode(data[3..])
  }

  /** The last four characters: whole, or with one or two padding characters. */
  function DecodeLast(s: string): Option<seq<byte>>
    requires |s| == 4
  {
    if !IsBase64Char(s[0]) || !IsBase64Char(s[1]) then None
    else
      var p, q := FromChar(s[0]), FromChar(s[1]);
      if s[2] == '=' && s[3] == '=' then
        if q % 16 == 0 then Some([B0(p, q)]) else None
      else if !IsBase64Char(s[2]) then None
      else
        var r := FromChar(s[2]);
        if s[3] == '=' then
          if r % 4 == 0 then Some([B0(p, q), B1(q, r)]) else None
        else if !IsBase64Char(s[3]) then None
        else Some([B0(p, q), B1(q, r), B2(r, FromChar(s[3]))])
  }

  function Decode(s: string): Option<seq<byte>> {
    if s == [] then Some([])
    else if |s| < 4 then None
    else if |s| == 4 then DecodeLast(s)
    else
      var head := DecodeLast(s[..4]);
      if head.None? || |head.value| != 3 then None
      else
        var rest := Decode(s[4..]);
        if rest.None? then None else Some(head.value + rest.value)
  }

  // A group whose digits hold the given bytes reads as those bytes.

  lemma FourDigitsDecode(p: digit, q: digit, r: digit, t: digit, data: seq<byte>)
    requires data == [B0(p, q), B1(q, r), B2(r, t)]
    ensures DecodeLast([ToChar(p), ToChar(q), ToChar(r), ToChar(t)]) == Some(data)
  {
    CharRoundTrip(p);
    CharRoundTrip(q);
    CharRoundTrip(r);
    CharRoundTrip(t);
  }

  lemma ThreeDigitsDecode(p: digit, q: digit, r: digit, data: seq<byte>)
    requires r % 4 == 0 && data == [B0(p, q), B1(q, r)]
    ensures DecodeLast([ToChar(p), ToChar(q), ToChar(r), '=']) == Some(data)
  {
    CharRoundTrip(p);
    CharRoundTrip(q);
    CharRoundTrip(r);
  }

  lemma ThreeRoundTrip(a: byte, b: byte, c: byte)
    ensures DecodeLast(EncodeThree(a, b, c)) == Some([a, b, c])
  {
    BytesOfFour(a, b, c);
    FourDigitsDecode(D0(a), D1(a, b), D2(b, c), D3(c), [a, b, c]);
  }

  lemma TwoRoundTrip(a: byte, b: byte)
    ensures DecodeLast(EncodeTwo(a, b)) == Some([a, b])
  {
    BytesOfThree(a, b);
    ThreeDigitsDecode(D0(a), D1(a, b), D2(b, 0), [a, b]);
  }

  lemma OneRoundTrip(a: byte)
    ensures DecodeLast(EncodeOne(a)) == Some([a])
  {
  }

  lemma GroupRoundTrip(data: seq<byte>)
    requires 1 <= |data| <= 3
    ensures DecodeLast(Group(data)) == Some(data)
  {
    if |data| == 1 {
      OneRoundTrip(data[0]);
      assert data == [data[0]];
    } else if |data| == 2 {
      TwoRoundTrip(data[0], data[1]);
      assert data == [data[0], data[1]];
    } else {
      ThreeRoundTrip(data[0], data[1], data[2]);
      assert data == [data[0], data[1], data[2]];
    }
  }

  lemma DecodeByGroup(head: string, rest: string)
    requires |head| == 4 && DecodeLast(head).Some? && (rest != [] ==> |DecodeLast(head).value| == 3)
    requires Decode(rest).Some?
    ensures Decode(head + rest) == Some(DecodeLast(head).value + Decode(rest).value)
  {
    var s := head + rest;
    if rest == [] {
      assert s == head && DecodeLast(head).value + [] == DecodeLast(head).value;
    } else {
      assert s[..4] == head && s[4..] == rest;
    }
  }

  /** Decoding what was encoded gives the bytes back. */
  lemma {:induction false} DecodeOfEncode(data: seq<byte>)
    ensures Decode(Encode(data)) == Some(data)
  {
    if data != [] {
      var k := if |data| <= 3 then |data| else 3;
      GroupRoundTrip(data[..k]);
      DecodeOfEncode(data[k..]);
      DecodeByGroup(Group(data[..k]), Encode(data[k..]));
      assert data == data[..k] + data[k..];
      if |data| <= 3 {
        assert data[..k] == data && data[k..] == [];
        assert Encode(data) == Group(data[..k]) + Encode(data[k..]);
      }
    }
  }

  // The converse, group by group.

  lemma FourDigitsEncode(p: digit, q: digit, r: digit, t: digit)
    ensures Group([B0(p, q), B1(q, r), B2(r, t)]) == [ToChar(p), ToChar(q), ToChar(r), ToChar(t)]
  {
    FourOfBytes(p, q, r, t);
  }

  lemma ThreeDigitsEncode(p: digit, q: digit, r: digit)
    requires r % 4 == 0
    ensures Group([B0(p, q), B1(q, r)]) == [ToChar(p), ToChar(q), ToChar(r), '=']
  {
    ThreeOfBytes(p, q, r);
  }

  lemma TwoDigitsEncode(p: digit, q: digit)
    requires q % 16 == 0
    ensures Group([B0(p, q)]) == [ToChar(p), ToChar(q), '=', '=']
  {
    TwoOfBytes(p, q);
  }

  lemma GroupOfLast(s: string)
    requires |s| == 4 && DecodeLast(s).Some?
    ensures 1 <= |DecodeLast(s).value| <= 3 && s == Group(DecodeLast(s).value)
  {
    var p, q := FromChar(s[0]), FromChar(s[1]);
    DigitRoundTrip(s[0]);
    DigitRoundTrip(s[1]);
    if s[2] == '=' {
      TwoDigitsEncode(p, q);
      assert s == [ToChar(p), ToChar(q), '=', '='];
    } else {
      var r := FromChar(s[2]);
      DigitRoundTrip(s[2]);
      if s[3] == '=' {
        ThreeDigitsEncode(p, q, r);
        assert s == [ToChar(p), ToChar(q), ToChar(r), '='];
      } else {
        var t := FromChar(s[3]);
        DigitRoundTrip(s[3]);
        FourDigitsEncode(p, q, r, t);
        assert s == [ToChar(p), ToChar(q), ToChar(r), ToChar(t)];
      }
    }
  }

  /** Only the encoder's own output is accepted: every text that decodes is the encoding of its bytes. */
  lemma {:induction false} EncodeOfDecode(s: string)
    requires Decode(s).Some?
    ensures Encode(Decode(s).value) == s
  {
    if |s| == 4 {
      GroupOfLast(s);
    } else if |s| > 4 {
      var head := DecodeLast(s[..4]).value;
      var rest := Decode(s[4..]).value;
      GroupOfLast(s[..4]);
      EncodeOfDecode(s[4..]);
      var data := head + rest;
      assert rest != [];
      assert data[..3] == head && data[3..] == rest;
      assert s == s[..4] + s[4..];
    }
  }

  /** The alphabet of an encoding. */
  lemma {:induction false} EncodingChars(data: seq<byte>)
    ensures forall i :: 0 <= i < |Encode(data)| ==> IsBase64Char(Encode(data)[i]) || Encode(data)[i] == '='
  {
    if |data| > 3 {
      EncodingChars(data[3..]);
    }
  }
}
