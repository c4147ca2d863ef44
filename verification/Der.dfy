/**
  The hand-written DER of `src/cloud/flows_crypto.rs`: length octets (sections 8.1.3 and 10.1 of
  ITU-T X.690), tag-length-value, the PKCS#8 wrapper (section 5 of RFC 5208), and the reader its
  tests use.
*/
module Der {
  import opened Wrappers
  import opened Text

  const USIZE: nat := 0x1_0000_0000_0000_0000

  /** The AlgorithmIdentifier of `rsaEncryption` with NULL parameters. */
  const RSA_ALGORITHM_ID: seq<byte> := [0x30, 0x0d, 0x06, 0x09, 0x2a, 0x86, 0x48, 0x86, 0xf7, 0x0d, 0x01, 0x01, 0x01, 0x05, 0x00]

  function Pow256(k: nat): nat { if k == 0 then 1 else 256 * Pow256(k - 1) }

  /** The last `k` octets of `n`, most significant first. */
  function BeBytes(n: nat, k: nat): (s: seq<byte>)
    ensures |s| == k
  {
    if k == 0 then [] else BeBytes(n / 256, k - 1) + [n % 256]
  }

  function SkipZeros(s: seq<byte>): (r: seq<byte>)
    ensures |r| <= |s|
    ensures r != [] ==> r[0] != 0
  {
    if s != [] && s[0] == 0 then SkipZeros(s[1..]) else s
  }

  /** `der_len`; `0x80 | n` is `0x80 + n` for the at most eight octets of a `usize`. */
  function DerLen(len: nat): seq<byte>
    requires len < USIZE
  {
    if len < 0x80 then [len]
    else
      var bytes := SkipZeros(BeBytes(len, 8));
      [0x80 + |bytes|] + bytes
  }

  function Tlv(tag: byte, content: seq<byte>): seq<byte>
    requires |content| < USIZE
  {
    [tag] + DerLen(|content|) + content
  }

  /** A `Vec` never holds more than `isize::MAX` bytes; this leaves room for the wrapper's headers. */
  predicate FitsMemory(key: seq<byte>) { |key| < 0x7FFF_FFFF_FFFF_FF00 }

  lemma LenOctets(len: nat)
    requires len < USIZE
    ensures 1 <= |DerLen(len)| <= 9
  {
  }

  function Inner(key: seq<byte>): seq<byte>
    requires FitsMemory(key)
  {
    LenOctets(|key|);
    [0x02, 0x01, 0x00] + RSA_ALGORITHM_ID + Tlv(0x04, key)
  }

  function Wrapped(pkcs1: seq<byte>): seq<byte>
    requires FitsMemory(pkcs1)
  {
    LenOctets(|pkcs1|);
    Tlv(0x30, Inner(pkcs1))
  }

  method DerTlv(tag: byte, content: seq<byte>) returns (out: seq<byte>)
    requires |content| < USIZE
    ensures out == Tlv(tag, content)
  {
    out := [tag];
    out := out + DerLen(|content|);
    out := out + content;
  }

  method Pkcs1ToPkcs8(pkcs1: seq<byte>) returns (out: seq<byte>)
    requires FitsMemory(pkcs1)
    ensures out == Wrapped(pkcs1)
  {
    LenOctets(|pkcs1|);
    var body: seq<byte> := [0x02, 0x01, 0x00];
    body := body + RSA_ALGORITHM_ID;
    var key := DerTlv(0x04, pkcs1);
    body := body + key;
    out := DerTlv(0x30, body);
  }

  // ---------------------------------------------------------------- the reader

  /** Folding octets into a `usize`; higher bits fall off. */
  function FoldBe(s: seq<byte>): nat {
    if s == [] then 0 else (FoldBe(s[..|s| - 1]) * 256 + s[|s| - 1]) % USIZE
  }

  /** The length field at `at`: the length, and how many octets it took. */
  function ReadLen(der: seq<byte>, at: nat): Option<(nat, nat)> {
    if at >= |der| then None
    else if der[at] < 0x80 then Some((der[at], 1))
    else
      var n := der[at] - 0x80;
      if at + 1 + n > |der| then None else Some((FoldBe(der[at + 1..at + 1 + n]), 1 + n))
  }

  /** Tag, start of the content and end of one element, as the test-side `tlv` reads it; `None` where
      it would index past the end. */
  function ReadTlv(der: seq<byte>, at: nat): Option<(byte, nat, nat)> {
    if at >= |der| then None
    else
      var len := ReadLen(der, at + 1);
      if len.None? then None
      else Some((der[at], at + 1 + len.value.1, at + 1 + len.value.1 + len.value.0))
  }

  // ---------------------------------------------------------------- octets of a number

  function FromBe(s: seq<byte>): nat {
    if s == [] then 0 else FromBe(s[..|s| - 1]) * 256 + s[|s| - 1]
  }

  lemma {:induction false} BeRoundTrip(n: nat, k: nat)
    requires n < Pow256(k)
    ensures FromBe(BeBytes(n, k)) == n
  {
    if k > 0 {
      BeRoundTrip(n / 256, k - 1);
      assert BeBytes(n, k)[..k - 1] == BeBytes(n / 256, k - 1);
    }
  }

  lemma {:induction false} LeadingZero(s: seq<byte>)
    ensures FromBe([0] + s) == FromBe(s)
  {
    if s == [] {
      assert [0] + s == [0] && [0][..0] == [];
      assert FromBe([0]) == FromBe([]) * 256 + 0;
    } else {
      LeadingZero(s[..|s| - 1]);
      assert ([0] + s)[..|s|] == [0] + s[..|s| - 1];
    }
  }

  lemma {:induction false} SkippingKeepsValue(s: seq<byte>)
    ensures FromBe(SkipZeros(s)) == FromBe(s)
  {
    if s != [] && s[0] == 0 {
      SkippingKeepsValue(s[1..]);
      LeadingZero(s[1..]);
      assert s == [0] + s[1..];
    }
  }

  lemma {:induction false} ValueBelow(s: seq<byte>)
    ensures FromBe(s) < Pow256(|s|)
  {
    if s != [] {
      ValueBelow(s[..|s| - 1]);
    }
  }

  lemma {:induction false} ValueAtLeast(s: seq<byte>)
    requires s != [] && s[0] != 0
    ensures FromBe(s) >= Pow256(|s| - 1)
  {
    if |s| == 1 {
      assert s[..0] == [];
      assert FromBe(s) == FromBe([]) * 256 + s[0];
    } else {
      ValueAtLeast(s[..|s| - 1]);
    }
  }

  lemma {:induction false} PowGrows(j: nat, k: nat)
    requires j <= k
    ensures Pow256(j) <= Pow256(k)
    decreases k
  {
    if j < k {
      PowGrows(j, k - 1);
    }
  }

  lemma Pow256Eight()
    ensures Pow256(8) == USIZE
  {
  }

  lemma {:induction false} FoldIsValue(s: seq<byte>)
    requires |s| <= 8
    ensures FoldBe(s) == FromBe(s) < USIZE
  {
    ValueBelow(s);
    PowGrows(|s|, 8);
    Pow256Eight();
    if s != [] {
      FoldIsValue(s[..|s| - 1]);
    }
  }

  // ---------------------------------------------------------------- round trips

  lemma LongForm(len: nat)
    requires 0x80 <= len < USIZE
    ensures var bytes := SkipZeros(BeBytes(len, 8));
            1 <= |bytes| <= 8 && FoldBe(bytes) == len && len >= Pow256(|bytes| - 1)
  {
    var bytes := SkipZeros(BeBytes(len, 8));
    Pow256Eight();
    BeRoundTrip(len, 8);
    SkippingKeepsValue(BeBytes(len, 8));
    FoldIsValue(bytes);
    assert bytes != [] by {
      assert FromBe([]) == 0;
    }
    ValueAtLeast(bytes);
  }

  lemma LenRoundTrip(before: seq<byte>, len: nat, after: seq<byte>)
    requires len < USIZE
    ensures ReadLen(before + DerLen(len) + after, |before|) == Some((len, |DerLen(len)|))
  {
    var der := before + DerLen(len) + after;
    assert der[|before|] == DerLen(len)[0];
    if len >= 0x80 {
      LongForm(len);
      var bytes := SkipZeros(BeBytes(len, 8));
      assert der[|before| + 1..|before| + 1 + |bytes|] == bytes;
    }
  }

  /** Reading an element written anywhere in a text gives back its tag, its content and its end. */
  lemma TlvRoundTrip(before: seq<byte>, tag: byte, content: seq<byte>, after: seq<byte>)
    requires |content| < USIZE
    ensures var der := before + Tlv(tag, content) + after;
            var r := ReadTlv(der, |before|);
            && r.Some? && r.value.0 == tag
            && r.value.2 == |before| + |Tlv(tag, content)|
            && r.value.1 <= r.value.2 <= |der| && der[r.value.1..r.value.2] == content
  {
    var der := before + Tlv(tag, content) + after;
    assert der == (before + [tag]) + DerLen(|content|) + (content + after);
    LenRoundTrip(before + [tag], |content|, content + after);
  }

  lemma TooFewOctets(octets: seq<byte>, m: nat)
    requires |octets| < m <= 8
    ensures FoldBe(octets) < Pow256(m - 1)
  {
    FoldIsValue(octets);
    ValueBelow(octets);
    PowGrows(|octets|, m - 1);
  }

  /** No length field that the reader takes for `len` has fewer octets than the one written. */
  lemma LengthIsMinimal(len: nat, der: seq<byte>, at: nat)
    requires len < USIZE
    requires ReadLen(der, at).Some? && ReadLen(der, at).value.0 == len
    ensures |DerLen(len)| <= ReadLen(der, at).value.1
  {
    if len >= 0x80 {
      LongForm(len);
      var m := |SkipZeros(BeBytes(len, 8))|;
      var k := ReadLen(der, at).value.1 - 1;
      if k < m {
        TooFewOctets(der[at + 1..at + 1 + k], m);
      }
    }
  }

  function Zeros(k: nat): (s: seq<byte>)
    ensures |s| == k
  {
    if k == 0 then [] else [0] + Zeros(k - 1)
  }

  lemma {:induction false} ZerosEnd(k: nat)
    ensures Zeros(k) + [0] == Zeros(k + 1)
  {
    if k > 0 {
      ZerosEnd(k - 1);
      assert [0] + Zeros(k - 1) + [0] == [0] + (Zeros(k - 1) + [0]);
    }
  }

  lemma {:induction false} BeOfZero(k: nat)
    ensures BeBytes(0, k) == Zeros(k)
  {
    if k > 0 {
      BeOfZero(k - 1);
      ZerosEnd(k - 1);
    }
  }

  lemma BeOfSmall(n: nat, k: nat)
    requires n < 256 && k > 0
    ensures BeBytes(n, k) == Zeros(k - 1) + [n]
  {
    BeOfZero(k - 1);
  }

  lemma {:induction false} ZerosThenTwo(k: nat, high: byte, low: byte)
    requires high != 0 || low != 0
    ensures SkipZeros(Zeros(k) + [high, low]) == if high == 0 then [low] else [high, low]
  {
    if k > 0 {
      ZerosThenTwo(k - 1, high, low);
      assert (Zeros(k) + [high, low])[1..] == Zeros(k - 1) + [high, low];
    } else {
      assert Zeros(0) + [high, low] == [high, low];
      if high == 0 {
        assert [high, low][1..] == [low];
      }
    }
  }

  /** The length octets of everything up to 65535: one octet below 128, else the number of octets and then the
      octets, most significant first. */
  lemma LengthForms(len: nat)
    requires len < 0x1_0000
    ensures DerLen(len) == if len < 128 then [len] else if len < 256 then [0x81, len] else [0x82, len / 256, len % 256]
  {
    if len >= 128 {
      var high := len / 256;
      BeOfSmall(high, 7);
      assert BeBytes(len, 8) == BeBytes(high, 7) + [len % 256];
      ZerosThenTwo(6, high, len % 256);
      assert BeBytes(len, 8) == Zeros(6) + [high, len % 256];
    }
  }

  /** The arcs after the first two of an object identifier, seven bits to an octet (section 8.19 of X.690). */
  function Arcs(octets: seq<byte>, arc: nat): seq<nat> {
    if octets == [] then []
    else if octets[0] < 128 then [arc * 128 + octets[0]] + Arcs(octets[1..], 0)
    else Arcs(octets[1..], arc * 128 + octets[0] - 128)
  }

  /** The identifier in the wrapper is a SEQUENCE of the object identifier 1.2.840.113549.1.1.1 and NULL. */
  lemma AlgorithmIsRsa()
    ensures ReadTlv(RSA_ALGORITHM_ID, 0) == Some((0x30, 2, 15)) && |RSA_ALGORITHM_ID| == 15
    ensures ReadTlv(RSA_ALGORITHM_ID, 2) == Some((0x06, 4, 13)) && ReadTlv(RSA_ALGORITHM_ID, 13) == Some((0x05, 15, 15))
    ensures RSA_ALGORITHM_ID[4] == 40 * 1 + 2 && Arcs(RSA_ALGORITHM_ID[5..13], 0) == [840, 113549, 1, 1, 1]
  {
    var octets := RSA_ALGORITHM_ID[5..13];
    assert octets == [0x86, 0x48, 0x86, 0xf7, 0x0d, 0x01, 0x01, 0x01];
    assert Arcs(octets[8..], 0) == [];
    assert octets[7..] == [0x01] && octets[7..][1..] == octets[8..] && Arcs(octets[7..], 0) == [1];
    assert octets[6..][1..] == octets[7..] && Arcs(octets[6..], 0) == [1, 1];
    assert octets[5..][1..] == octets[6..] && Arcs(octets[5..], 0) == [1, 1, 1];
    assert octets[4..][1..] == octets[5..] && octets[3..][1..] == octets[4..] && octets[2..][1..] == octets[3..];
    assert Arcs(octets[4..], 6 * 128 + 0x77) == [113549, 1, 1, 1];
    assert Arcs(octets[3..], 6) == [113549, 1, 1, 1];
    assert Arcs(octets[2..], 0) == [113549, 1, 1, 1];
    assert octets[1..][1..] == octets[2..] && Arcs(octets[1..], 6) == [840, 113549, 1, 1, 1];
  }

  /** The wrapper reads as one SEQUENCE over everything: version 0, the RSA identifier, and an OCTET
      STRING with the key that ends where the whole ends. */
  lemma UnwrapGivesKey(key: seq<byte>)
    requires FitsMemory(key)
    ensures var der := Wrapped(key);
            var outer := ReadTlv(der, 0);
            && outer.Some? && outer.value.0 == 0x30 && outer.value.2 == |der|
            && var body := outer.value.1;
            && ReadTlv(der, body) == Some((0x02, body + 2, body + 3)) && body + 18 <= |der|
            && der[body + 2] == 0
            && der[body + 3..body + 18] == RSA_ALGORITHM_ID
            && ReadTlv(der, body + 3) == Some((0x30, body + 5, body + 18))
            && var octets := ReadTlv(der, body + 18);
            && octets.Some? && octets.value.0 == 0x04 && octets.value.2 == |der|
            && octets.value.1 <= |der| && der[octets.value.1..] == key
  {
    LenOctets(|key|);
    var der := Wrapped(key);
    assert [] + Tlv(0x30, Inner(key)) + [] == der;
    TlvRoundTrip([], 0x30, Inner(key), []);
    var body := ReadTlv(der, 0).value.1;
    assert der[body..] == Inner(key);
    InnerReads(der[..body], key);
    assert der == der[..body] + Inner(key);
  }

  lemma InnerHead(before: seq<byte>, key: seq<byte>)
    requires FitsMemory(key)
    ensures var der := before + Inner(key);
            var body := |before|;
            && body + 18 <= |der|
            && ReadTlv(der, body) == Some((0x02, body + 2, body + 3)) && der[body + 2] == 0
            && der[body + 3..body + 18] == RSA_ALGORITHM_ID
            && ReadTlv(der, body + 3) == Some((0x30, body + 5, body + 18))
  {
  }

  lemma InnerReads(before: seq<byte>, key: seq<byte>)
    requires FitsMemory(key)
    ensures var der := before + Inner(key);
            var body := |before|;
            && body + 18 <= |der|
            && ReadTlv(der, body) == Some((0x02, body + 2, body + 3)) && der[body + 2] == 0
            && der[body + 3..body + 18] == RSA_ALGORITHM_ID
            && ReadTlv(der, body + 3) == Some((0x30, body + 5, body + 18))
            && var octets := ReadTlv(der, body + 18);
            && octets.Some? && octets.value.0 == 0x04 && octets.value.2 == |der|
            && octets.value.1 <= |der| && der[octets.value.1..] == key
  {
    InnerHead(before, key);
    LenOctets(|key|);
    var head := before + ([0x02, 0x01, 0x00] + RSA_ALGORITHM_ID);
    assert before + Inner(key) == head + Tlv(0x04, key) + [];
    TlvRoundTrip(head, 0x04, key, []);
  }
}
