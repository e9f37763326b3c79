/** UTF-8 as Rust's standard library checks it (RFC 3629). */
module Utf8 {
  import opened Ints

  predicate IsTail(b: u8) { 0x80 <= b <= 0xBF }

  /** Length of the character at the front, or 0 when there is no well-formed one: the
      grammar of section 4 of RFC 3629. */
  function LeadLength(s: seq<u8>): (n: nat)
    requires s != []
    ensures n <= |s|
  {
    var lead, size := s[0], |s|;
    if lead <= 0x7F then 1
    else if 0xC2 <= lead <= 0xDF && size >= 2 && IsTail(s[1]) then 2
    else if 0xE0 <= lead <= 0xEF && size >= 3 && IsTail(s[1]) && IsTail(s[2])
            && (lead == 0xE0 ==> s[1] >= 0xA0) && (lead == 0xED ==> s[1] <= 0x9F) then 3
    else if 0xF0 <= lead <= 0xF4 && size >= 4 && IsTail(s[1]) && IsTail(s[2]) && IsTail(s[3])
            && (lead == 0xF0 ==> s[1] >= 0x90) && (lead == 0xF4 ==> s[1] <= 0x8F) then 4
    else 0
  }

  predicate IsUtf8(s: seq<u8>)
  {
    s == [] || (LeadLength(s) > 0 && IsUtf8(s[LeadLength(s)..]))
  }

  lemma {:induction false} AsciiIsUtf8(s: seq<u8>)
    requires forall i :: 0 <= i < |s| ==> s[i] <= 0x7F
    ensures IsUtf8(s)
  {
    if s != [] {
      AsciiIsUtf8(s[1..]);
    }
  }

  // ----- What it accepts -----

  /** A Unicode scalar value. */
  type Scalar = c: int | 0 <= c <= 0x10_FFFF && !(0xD800 <= c <= 0xDFFF) witness 0

  /** Its encoding: one byte, or a leading byte that tells how many follow, with six bits in each of
      those (section 3 of RFC 3629). */
  function Encode(c: Scalar): (s: seq<u8>)
    ensures 1 <= |s| <= 4
  {
    if c < 0x80 then [c]
    else if c < 0x800 then [0xC0 + c / 0x40, 0x80 + c % 0x40]
    else if c < 0x1_0000 then [0xE0 + c / 0x1000, 0x80 + c / 0x40 % 0x40, 0x80 + c % 0x40]
    else [0xF0 + c / 0x4_0000, 0x80 + c / 0x1000 % 0x40, 0x80 + c / 0x40 % 0x40, 0x80 + c % 0x40]
  }

  function EncodeAll(text: seq<Scalar>): seq<u8>
  {
    if text == [] then [] else Encode(text[0]) + EncodeAll(text[1..])
  }

  lemma EncodedIsRead(c: Scalar, rest: seq<u8>)
    ensures LeadLength(Encode(c) + rest) == |Encode(c)|
  {
    LeadingPart(Encode(c), rest);
  }

  lemma LeadingPart(s: seq<u8>, rest: seq<u8>)
    requires s != [] && LeadLength(s) == |s|
    ensures LeadLength(s + rest) == |s|
  {
  }

  /** The scalar value at the front of some bytes. */
  function Decode(s: seq<u8>): int
    requires s != [] && LeadLength(s) > 0
  {
    var n, lead := LeadLength(s), s[0];
    if n == 1 then lead
    else if n == 2 then 0x40 * (lead - 0xC0) + Tail(s[1])
    else if n == 3 then 0x1000 * (lead - 0xE0) + 0x40 * Tail(s[1]) + Tail(s[2])
    else 0x4_0000 * (lead - 0xF0) + 0x1000 * Tail(s[1]) + 0x40 * Tail(s[2]) + Tail(s[3])
  }

  function Tail(b: u8): int { b - 0x80 }

  lemma ReadIsEncoded(s: seq<u8>)
    requires s != [] && LeadLength(s) > 0
    ensures var c := Decode(s);
            0 <= c <= 0x10_FFFF && !(0xD800 <= c <= 0xDFFF) && s[..LeadLength(s)] == Encode(c)
  {
    var n := LeadLength(s);
    if n == 2 {
      ReadTwo(s[0], s[1]);
      assert s[..n] == [s[0], s[1]];
    } else if n == 3 {
      ReadThree(s[0], s[1], s[2]);
      assert s[..n] == [s[0], s[1], s[2]];
    } else if n == 4 {
      ReadFour(s[0], s[1], s[2], s[3]);
      assert s[..n] == [s[0], s[1], s[2], s[3]];
    }
  }

  lemma ReadTwo(a: u8, b: u8)
    requires 0xC2 <= a <= 0xDF && IsTail(b)
    ensures Encode(0x40 * (a - 0xC0) + Tail(b)) == [a, b]
  {
    Parts(0, 0, a - 0xC0, Tail(b));
  }

  lemma ReadThree(a: u8, b: u8, c: u8)
    requires 0xE0 <= a <= 0xEF && IsTail(b) && IsTail(c) && (a == 0xE0 ==> b >= 0xA0) && (a == 0xED ==> b <= 0x9F)
    ensures var x := 0x1000 * (a - 0xE0) + 0x40 * Tail(b) + Tail(c);
            0x800 <= x < 0x1_0000 && !(0xD800 <= x <= 0xDFFF) && Encode(x) == [a, b, c]
  {
    Parts(0, a - 0xE0, Tail(b), Tail(c));
  }

  lemma ReadFour(a: u8, b: u8, c: u8, d: u8)
    requires 0xF0 <= a <= 0xF4 && IsTail(b) && IsTail(c) && IsTail(d) && (a == 0xF0 ==> b >= 0x90) && (a == 0xF4 ==> b <= 0x8F)
    ensures var x := 0x4_0000 * (a - 0xF0) + 0x1000 * Tail(b) + 0x40 * Tail(c) + Tail(d);
            0x1_0000 <= x <= 0x10_FFFF && Encode(x) == [a, b, c, d]
  {
    Parts(a - 0xF0, Tail(b), Tail(c), Tail(d));
  }

  /** The digits of a number to the base 64. */
  lemma Parts(a: nat, b: nat, c: nat, d: nat)
    requires b < 0x40 && c < 0x40 && d < 0x40
    ensures var x := 0x4_0000 * a + 0x1000 * b + 0x40 * c + d;
            x % 0x40 == d && x / 0x40 % 0x40 == c && x / 0x1000 % 0x40 == b && x / 0x4_0000 == a
            && x / 0x1000 == 0x40 * a + b && x / 0x40 == 0x1000 * a + 0x40 * b + c
  {
  }

  lemma {:induction false} EncodedIsUtf8(text: seq<Scalar>)
    ensures IsUtf8(EncodeAll(text))
  {
    if text != [] {
      EncodedIsUtf8(text[1..]);
      EncodedIsRead(text[0], EncodeAll(text[1..]));
      assert EncodeAll(text)[|Encode(text[0])|..] == EncodeAll(text[1..]);
    }
  }

  lemma EncodedFirst(c: Scalar, rest: seq<Scalar>)
    ensures EncodeAll([c] + rest) == Encode(c) + EncodeAll(rest)
  {
    assert ([c] + rest)[1..] == rest;
  }

  lemma {:induction false} Utf8IsEncoded(s: seq<u8>) returns (text: seq<Scalar>)
    requires IsUtf8(s)
    ensures EncodeAll(text) == s
  {
    text := [];
    if s != [] {
      var n := LeadLength(s);
      var rest := Utf8IsEncoded(s[n..]);
      ReadIsEncoded(s);
      text := [Decode(s)] + rest;
      EncodedFirst(Decode(s), rest);
      assert s == s[..n] + s[n..];
    }
  }

  /** Bytes are accepted exactly when they are the encoding of some text. */
  lemma Utf8Iff(s: seq<u8>)
    ensures IsUtf8(s) <==> exists text: seq<Scalar> :: EncodeAll(text) == s
  {
    if IsUtf8(s) {
      var text := Utf8IsEncoded(s);
    }
    forall text: seq<Scalar> | EncodeAll(text) == s
      ensures IsUtf8(s)
    {
      EncodedIsUtf8(text);
    }
  }
}
