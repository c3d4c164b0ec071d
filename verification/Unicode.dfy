/**
 Text fields against section 3 of RFC 3629: the byte strings that the decoder accepts as text
 are exactly the encodings of sequences of Unicode scalar values.
 */
module Unicode {
  import opened Bytes
  import opened Codec

  type Scalar = c: int | 0 <= c <= 0x10FFFF && !(0xD800 <= c <= 0xDFFF)

  /** The octets of one scalar value: a lead octet and six bits in each further one. */
  function Octets(c: Scalar): (s: seq<Byte>)
    ensures 1 <= |s| <= 4
  {
    if c < 0x80 then [c]
    else if c < 0x800 then [0xC0 + c / 64, 0x80 + c % 64]
    else if c < 0x10000 then [0xE0 + c / 4096, 0x80 + c / 64 % 64, 0x80 + c % 64]
    else [0xF0 + c / 262144, 0x80 + c / 4096 % 64, 0x80 + c / 64 % 64, 0x80 + c % 64]
  }

  function Encode(cs: seq<Scalar>): seq<Byte>
  {
    if cs == [] then [] else Octets(cs[0]) + Encode(cs[1..])
  }

  /** The digits of a number to base 64. */
  lemma Base64(high: nat, low: nat)
    requires low < 64
    ensures (high * 64 + low) / 64 == high && (high * 64 + low) % 64 == low
  {
  }

  lemma TwoOctets(a: int, b: int) returns (c: Scalar)
    requires 0xC2 <= a <= 0xDF && 0x80 <= b <= 0xBF
    ensures Octets(c) == [a, b]
  {
    c := (a - 0xC0) * 64 + (b - 0x80);
    Base64(a - 0xC0, b - 0x80);
  }

  lemma ThreeOctets(a: int, b: int, d: int) returns (c: Scalar)
    requires 0xE0 <= a <= 0xEF && 0x80 <= b <= 0xBF && 0x80 <= d <= 0xBF
    requires (a == 0xE0 ==> b >= 0xA0) && (a == 0xED ==> b <= 0x9F)
    ensures Octets(c) == [a, b, d]
  {
    var high := (a - 0xE0) * 64 + (b - 0x80);
    c := high * 64 + (d - 0x80);
    Base64(a - 0xE0, b - 0x80);
    Base64(high, d - 0x80);
    DivTwice(c);
  }

  lemma FourOctets(a: int, b: int, d: int, e: int) returns (c: Scalar)
    requires 0xF0 <= a <= 0xF4 && 0x80 <= b <= 0xBF && 0x80 <= d <= 0xBF && 0x80 <= e <= 0xBF
    requires (a == 0xF0 ==> b >= 0x90) && (a == 0xF4 ==> b <= 0x8F)
    ensures Octets(c) == [a, b, d, e]
  {
    var top := (a - 0xF0) * 64 + (b - 0x80);
    var high := top * 64 + (d - 0x80);
    c := high * 64 + (e - 0x80);
    Base64(a - 0xF0, b - 0x80);
    Base64(top, d - 0x80);
    Base64(high, e - 0x80);
    DivTwice(c);
  }

  lemma DivTwice(c: nat)
    ensures c / 4096 == c / 64 / 64 && c / 262144 == c / 64 / 64 / 64
  {
  }

  /** A sequence that the table admits spells a scalar value, in its only encoding. */
  lemma FrontIsScalar(s: seq<Byte>) returns (c: Scalar)
    requires Utf8Length(s) > 0
    ensures Octets(c) == s[..Utf8Length(s)]
  {
    hide Octets;
    var n := Utf8Length(s);
    if n == 1 {
      c := OneOctet(s[0]);
      assert s[..1] == [s[0]];
    } else if n == 2 {
      c := TwoOctets(s[0], s[1]);
      assert s[..2] == [s[0], s[1]];
    } else if n == 3 {
      c := ThreeOctets(s[0], s[1], s[2]);
      assert s[..3] == [s[0], s[1], s[2]];
    } else {
      c := FourOctets(s[0], s[1], s[2], s[3]);
      assert s[..4] == [s[0], s[1], s[2], s[3]];
    }
  }

  lemma OneOctet(a: int) returns (c: Scalar)
    requires 0 <= a <= 0x7F
    ensures Octets(c) == [a]
  {
    c := a;
  }

  /** The octets of a scalar value are in the ranges of the table. */
  lemma OctetRanges(c: Scalar)
    ensures var s := Octets(c);
            (|s| == 1 ==> s[0] <= 0x7F) &&
            (|s| == 2 ==> 0xC2 <= s[0] <= 0xDF && Tail(s[1])) &&
            (|s| == 3 ==> 0xE0 <= s[0] <= 0xEF && Tail(s[1]) && Tail(s[2]) &&
                          (s[0] == 0xE0 ==> s[1] >= 0xA0) && (s[0] == 0xED ==> s[1] <= 0x9F)) &&
            (|s| == 4 ==> 0xF0 <= s[0] <= 0xF4 && Tail(s[1]) && Tail(s[2]) && Tail(s[3]) &&
                          (s[0] == 0xF0 ==> s[1] >= 0x90) && (s[0] == 0xF4 ==> s[1] <= 0x8F))
  {
  }

  lemma ScalarIsFront(c: Scalar, rest: seq<Byte>)
    ensures Utf8Length(Octets(c) + rest) == |Octets(c)|
  {
    OctetRanges(c);
    hide Octets;
    var s, t := Octets(c), Octets(c) + rest;
    assert forall i | 0 <= i < |s| :: t[i] == s[i];
  }

  lemma {:induction false} TextHasScalars(s: seq<Byte>) returns (cs: seq<Scalar>)
    requires ValidUtf8(s)
    ensures Encode(cs) == s
  {
    hide Octets, Utf8Length;
    if s == [] {
      cs := [];
    } else {
      var n := Utf8Length(s);
      var c := FrontIsScalar(s);
      var more := TextHasScalars(s[n..]);
      cs := [c] + more;
      assert cs[1..] == more && s == s[..n] + s[n..];
    }
  }

  lemma {:induction false} ScalarsAreText(cs: seq<Scalar>)
    ensures ValidUtf8(Encode(cs))
  {
    hide Octets, Utf8Length;
    if cs != [] {
      var more := Encode(cs[1..]);
      ScalarsAreText(cs[1..]);
      ScalarIsFront(cs[0], more);
      assert Encode(cs)[|Octets(cs[0])|..] == more;
    }
  }

  /** Text is what encodes a sequence of scalar values. */
  lemma TextIff(s: seq<Byte>)
    ensures ValidUtf8(s) <==> exists cs :: Encode(cs) == s
  {
    if ValidUtf8(s) {
      var cs := TextHasScalars(s);
    }
    if cs :| Encode(cs) == s {
      ScalarsAreText(cs);
    }
  }
}
