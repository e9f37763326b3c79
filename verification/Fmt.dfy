/** The truncating text buffer and signed volts (crates/oc-core/src/fmt.rs). */
module Fmt {
  import opened Ints
  import opened Platform
  import opened Text
  import Utf8

  // ----- Truncation -----

  /** The length of a UTF-8 sequence, from its first byte. */
  function LengthOf(lead: u8): nat
  {
    if lead < 0x80 then 1 else if lead < 0xE0 then 2 else if lead < 0xF0 then 3 else 4
  }

  /** One character, as encoded. */
  type Encoded = c: seq<u8> | c != [] && |c| == LengthOf(c[0]) witness [0]

  /** Every character is one as it is encoded. */
  lemma CharactersAreEncoded(c: Utf8.Scalar)
    ensures var s := Utf8.Encode(c); |s| == LengthOf(s[0])
  {
  }

  function Flat(text: seq<Encoded>): seq<u8>
  {
    if text == [] then [] else Flat(text[..|text| - 1]) + text[|text| - 1]
  }

  /** One write of a string: characters are appended until the first that does not fit. */
  function Written(content: seq<u8>, capacity: nat, text: seq<Encoded>): (r: seq<u8>)
    requires |content| <= capacity
    ensures |r| <= capacity
    decreases |text|
  {
    if text == [] || |content| + |text[0]| > capacity then content
    else Written(content + text[0], capacity, text[1..])
  }

  /** Every write since the buffer was last empty. */
  function AllWritten(capacity: nat, writes: seq<seq<Encoded>>): (r: seq<u8>)
    ensures |r| <= capacity
  {
    if writes == [] then []
    else Written(AllWritten(capacity, writes[..|writes| - 1]), capacity, writes[|writes| - 1])
  }

  /** The characters of all of them. */
  function Concat(writes: seq<seq<Encoded>>): seq<Encoded>
  {
    if writes == [] then [] else Concat(writes[..|writes| - 1]) + writes[|writes| - 1]
  }

  class TextBuf {
    const bytes: array<u8>
    var len: nat

    ghost predicate Valid()
      reads this
    {
      len <= bytes.Length
    }

    ghost function Content(): seq<u8>
      requires Valid()
      reads this, bytes
    {
      bytes[..len]
    }

    constructor (capacity: nat)
      ensures Valid() && fresh(bytes) && bytes.Length == capacity && Content() == AllWritten(capacity, [])
    {
      bytes, len := new u8[capacity](_ => 0), 0;
    }

    method Clear()
      modifies this
      ensures Valid() && Content() == AllWritten(bytes.Length, [])
    {
      len := 0;
    }

    predicate IsFull()
      reads this
    {
      len == bytes.Length
    }

    method WriteStr(text: seq<Encoded>)
      requires Valid()
      modifies this, bytes
      ensures Valid() && Content() == Written(old(Content()), bytes.Length, text)
    {
      for i := 0 to |text|
        invariant Valid()
        invariant Written(Content(), bytes.Length, text[i..]) == Written(old(Content()), bytes.Length, text)
      {
        if len + |text[i]| > bytes.Length {
          return;
        }
        Append(text[i]);
        assert text[i..][1..] == text[i + 1..];
      }
    }

    /** `copy_from_slice` at the end of the text. */
    method Append(encoded: Encoded)
      requires Valid() && len + |encoded| <= bytes.Length
      modifies this, bytes
      ensures Valid() && Content() == old(Content()) + encoded
    {
      for j := 0 to |encoded|
        invariant len == old(len)
        invariant bytes[..len + j] == old(Content()) + encoded[..j]
      {
        bytes[len + j] := encoded[j];
      }
      len := len + |encoded|;
    }
  }

  // ----- What the buffer holds -----

  lemma {:induction false} FlatConcat(a: seq<Encoded>, b: seq<Encoded>)
    ensures Flat(a + b) == Flat(a) + Flat(b)
  {
    if b == [] {
      assert a + b == a;
    } else {
      FlatConcat(a, b[..|b| - 1]);
      assert (a + b)[..|a + b| - 1] == a + b[..|b| - 1];
    }
  }

  /** A character ends exactly at this byte. */
  ghost predicate Boundary(text: seq<Encoded>, at: nat)
  {
    exists k :: 0 <= k <= |text| && |Flat(text[..k])| == at
  }

  /** The first character that did not fit was number `k`; what was appended after it, if
      anything, shows a different byte in its place. */
  ghost predicate CutAt(content: seq<u8>, capacity: nat, text: seq<Encoded>, k: nat)
  {
    && k < |text| && |content| <= capacity
    && var kept := Flat(text[..k]);
    && |kept| + |text[k]| > capacity && kept <= content
    && (|content| > |kept| ==> content[|kept|] != text[k][0])
  }

  ghost predicate Cut(content: seq<u8>, capacity: nat, text: seq<Encoded>)
  {
    exists k :: 0 <= k < |text| && CutAt(content, capacity, text, k)
  }

  /** Nothing dropped yet, or cut. */
  ghost predicate Holds(content: seq<u8>, capacity: nat, text: seq<Encoded>)
  {
    (content == Flat(text) && |content| <= capacity) || Cut(content, capacity, text)
  }

  lemma CutStays(content: seq<u8>, capacity: nat, text: seq<Encoded>, c: Encoded)
    requires Cut(content, capacity, text)
    ensures Cut(content, capacity, text + [c])
    ensures |content| + |c| <= capacity ==> Cut(content + c, capacity, text + [c])
  {
    var k :| 0 <= k < |text| && CutAt(content, capacity, text, k);
    assert (text + [c])[..k] == text[..k];
    assert CutAt(content, capacity, text + [c], k);
    if |content| + |c| <= capacity {
      assert CutAt(content + c, capacity, text + [c], k);
    }
  }

  lemma CutExtends(content: seq<u8>, capacity: nat, text: seq<Encoded>, rest: seq<Encoded>)
    requires Cut(content, capacity, text)
    ensures Cut(content, capacity, text + rest)
  {
    var k :| 0 <= k < |text| && CutAt(content, capacity, text, k);
    assert (text + rest)[..k] == text[..k];
    assert CutAt(content, capacity, text + rest, k);
  }

  lemma {:induction false} WriteHolds(content: seq<u8>, capacity: nat, past: seq<Encoded>, text: seq<Encoded>)
    requires |content| <= capacity && Holds(content, capacity, past)
    ensures Holds(Written(content, capacity, text), capacity, past + text)
    decreases |text|
  {
    if text == [] {
      assert past + text == past;
    } else if |content| + |text[0]| > capacity {
      if content == Flat(past) {
        assert (past + text)[..|past|] == past;
        assert CutAt(content, capacity, past + text, |past|);
      } else {
        CutExtends(content, capacity, past, text);
      }
    } else {
      FlatConcat(past, [text[0]]);
      assert [text[0]][..0] == [];
      if content != Flat(past) {
        CutStays(content, capacity, past, text[0]);
      }
      WriteHolds(content + text[0], capacity, past + [text[0]], text[1..]);
      assert past + [text[0]] + text[1..] == past + text;
    }
  }

  lemma {:induction false} WritesHold(capacity: nat, writes: seq<seq<Encoded>>)
    ensures Holds(AllWritten(capacity, writes), capacity, Concat(writes))
  {
    if writes != [] {
      var before := writes[..|writes| - 1];
      WritesHold(capacity, before);
      WriteHolds(AllWritten(capacity, before), capacity, Concat(before), writes[|writes| - 1]);
    }
  }

  lemma FlatGrows(text: seq<Encoded>, i: nat, j: nat)
    requires i <= j <= |text|
    ensures |Flat(text[..i])| <= |Flat(text[..j])|
    ensures Flat(text[..j]) == Flat(text[..i]) + Flat(text[i..j])
  {
    assert text[..j] == text[..i] + text[i..j];
    FlatConcat(text[..i], text[i..j]);
  }

  /** A cut buffer is what fits of the text exactly when the last character that fitted ended
      at the capacity. */
  lemma CutIsPrefixIff(content: seq<u8>, capacity: nat, text: seq<Encoded>, k: nat)
    requires CutAt(content, capacity, text, k)
    ensures |Flat(text)| > capacity
    ensures content == Flat(text)[..capacity] <==> Boundary(text, capacity)
  {
    var kept := Flat(text[..k]);
    var next := text[..k + 1];
    assert next[..k] == text[..k] && Flat(next) == kept + text[k];
    FlatGrows(text, k + 1, |text|);
    assert text[..|text|] == text;
    if |kept| == capacity {
      assert content == kept;
    } else {
      assert Flat(text)[|kept|] == text[k][0];
      forall j | 0 <= j <= |text|
        ensures |Flat(text[..j])| != capacity
      {
        if j <= k { FlatGrows(text, j, k); } else { FlatGrows(text, k + 1, j); }
      }
    }
  }

  /** The buffer holds the first bytes of everything written since it was last empty, as many as
      fit, exactly when it all fits or a character ends at the capacity.  Otherwise a character
      is dropped with room left over, which shorter ones written later may fill. */
  lemma BufferHoldsWhatFitsIff(capacity: nat, writes: seq<seq<Encoded>>)
    ensures var bytes := Flat(Concat(writes));
            AllWritten(capacity, writes) == bytes[..Min(capacity, |bytes|)]
            <==> (|bytes| <= capacity || Boundary(Concat(writes), capacity))
  {
    var text, content := Concat(writes), AllWritten(capacity, writes);
    WritesHold(capacity, writes);
    if Cut(content, capacity, text) {
      var k :| 0 <= k < |text| && CutAt(content, capacity, text, k);
      CutIsPrefixIff(content, capacity, text, k);
    } else {
      assert content == Flat(text)[..|content|];
    }
  }

  ghost predicate IsAscii(text: seq<Encoded>)
  {
    forall i :: 0 <= i < |text| ==> |text[i]| == 1
  }

  lemma {:induction false} AsciiLength(text: seq<Encoded>)
    requires IsAscii(text)
    ensures |Flat(text)| == |text|
  {
    if text != [] {
      AsciiLength(text[..|text| - 1]);
    }
  }

  /** ASCII writes always leave the first bytes of everything written, as many as fit. */
  lemma AsciiIsNeverMisplaced(capacity: nat, writes: seq<seq<Encoded>>)
    requires IsAscii(Concat(writes))
    ensures var bytes := Flat(Concat(writes));
            AllWritten(capacity, writes) == bytes[..Min(capacity, |bytes|)]
  {
    var text := Concat(writes);
    AsciiLength(text);
    if |text| > capacity {
      AsciiLength(text[..capacity]);
    }
    BufferHoldsWhatFitsIff(capacity, writes);
  }

  /** With two bytes of room, `a`, then a two-byte character, then `b` leave `ab`. */
  lemma DroppedCharacterIsSkipped(wide: Encoded)
    requires |wide| == 2
    ensures AllWritten(2, [[[97]], [wide], [[98]]]) == [97, 98]
  {
    var a: Encoded, b: Encoded := [97], [98];
    var first: seq<seq<Encoded>>, second, third := [[a]], [[a], [wide]], [[a], [wide], [b]];
    assert first[..0] == [] && second[..1] == first && third[..2] == second;
    assert Written([], 2, [a]) == Written(a, 2, [a][1..]) == a;
    assert AllWritten(2, first) == a;
    assert AllWritten(2, second) == a;
    assert Written(a, 2, [b]) == Written(a + b, 2, [b][1..]);
  }

  /** Several ASCII writes are one. */
  lemma {:induction false} AsciiWritesJoin(content: seq<u8>, capacity: nat, a: seq<Encoded>, b: seq<Encoded>)
    requires |content| <= capacity && IsAscii(a + b)
    ensures Written(Written(content, capacity, a), capacity, b) == Written(content, capacity, a + b)
    decreases |a|
  {
    if a == [] {
      assert a + b == b;
    } else {
      assert (a + b)[0] == a[0] && (a + b)[1..] == a[1..] + b;
      if |content| + |a[0]| <= capacity {
        AsciiWritesJoin(content + a[0], capacity, a[1..], b);
      } else if b != [] {
        assert (a + b)[|a|] == b[0];
      }
    }
  }

  // ----- Signed volts -----

  function TenTo(n: nat): (r: nat)
    ensures r > 0
  {
    if n == 0 then 1 else 10 * TenTo(n - 1)
  }

  function Decimals(requested: u32): nat { Clamp(requested, 1, 3) }

  /** The level's magnitude in displayed units, rounded; no step leaves 32 bits. */
  function Scaled(millivolts: MilliVolts, decimals: nat): (r: u32)
    requires 1 <= decimals <= 3
    ensures 2 * Abs(r * TenTo(3 - decimals) - Abs(millivolts)) <= TenTo(3 - decimals)
  {
    var divisor := if decimals == 1 then 100 else if decimals == 2 then 10 else 1;
    var rounded: u32 := Abs(millivolts) + divisor / 2;
    rounded / divisor
  }

  function Zeros(n: nat): (s: string)
    ensures |s| == n && AllDigits(s)
  {
    if n == 0 then "" else Zeros(n - 1) + "0"
  }

  /** `{:0width$}` */
  function Padded(n: nat, width: nat): (s: string)
    ensures AllDigits(s)
  {
    var digits := Decimal(n);
    if |digits| < width then Zeros(width - |digits|) + digits else digits
  }

  function FixedText(sign: char, whole: string, fraction: string): string
  {
    [sign] + (whole + "." + fraction)
  }

  /** A level in volts with its sign, positive ones included. */
  function VoltsText(millivolts: MilliVolts, requested: u32): string
  {
    var decimals := Decimals(requested);
    var scaled, unit := Scaled(millivolts, decimals), TenTo(decimals);
    FixedText(if millivolts < 0 then '-' else '+', Decimal(scaled / unit), Padded(scaled % unit, decimals))
  }

  /** A number of units, and how many decimals a unit has. */
  datatype Fixed = Fixed(units: int, decimals: nat)

  function PointAt(s: string): (p: nat)
    ensures p <= |s| && (p < |s| ==> s[p] == '.') && forall i :: 0 <= i < p ==> s[i] != '.'
  {
    if s == "" || s[0] == '.' then 0 else 1 + PointAt(s[1..])
  }

  /** Reads a sign, digits, a point and digits. */
  function ReadFixed(s: string): Option<Fixed>
  {
    if s == "" || (s[0] != '+' && s[0] != '-') then None else ReadMagnitude(s[0] == '-', s[1..])
  }

  function ReadMagnitude(negative: bool, s: string): Option<Fixed>
  {
    var p := PointAt(s);
    if p == |s| || !AllDigits(s[..p]) || !AllDigits(s[p + 1..]) then None
    else Some(Fixed(WithSign(negative, DecimalValue(s[..p] + s[p + 1..])), |s[p + 1..]|))
  }

  function WithSign(negative: bool, magnitude: int): int { if negative then -magnitude else magnitude }

  lemma {:induction false} DigitsConcat(a: string, b: string)
    requires AllDigits(a) && AllDigits(b)
    ensures DecimalValue(a + b) == DecimalValue(a) * TenTo(|b|) + DecimalValue(b)
  {
    if b == "" {
      assert a + b == a;
    } else {
      DigitsConcat(a, b[..|b| - 1]);
      assert (a + b)[..|a + b| - 1] == a + b[..|b| - 1];
      Shifted(DecimalValue(a), TenTo(|b| - 1), DecimalValue(b[..|b| - 1]));
    }
  }

  lemma Shifted(x: nat, y: nat, z: nat)
    ensures 10 * (x * y + z) == x * (10 * y) + 10 * z
  {
  }

  lemma {:induction false} ZerosAreWorthless(n: nat, digits: string)
    requires AllDigits(digits)
    ensures DecimalValue(Zeros(n) + digits) == DecimalValue(digits)
  {
    ZerosAreZero(n);
    DigitsConcat(Zeros(n), digits);
    NothingTimes(TenTo(|digits|));
  }

  lemma NothingTimes(x: nat)
    ensures 0 * x == 0
  {
  }

  lemma {:induction false} ZerosAreZero(n: nat)
    ensures DecimalValue(Zeros(n)) == 0
  {
    if n > 0 {
      ZerosAreZero(n - 1);
      assert Zeros(n)[..n - 1] == Zeros(n - 1);
    }
  }

  lemma {:induction false} DecimalLength(n: nat, width: nat)
    requires width > 0 && n < TenTo(width)
    ensures |Decimal(n)| <= width
  {
    if n >= 10 {
      assert width > 1 && n / 10 < TenTo(width - 1);
      DecimalLength(n / 10, width - 1);
    }
  }

  lemma PaddedReads(n: nat, width: nat)
    requires width > 0 && n < TenTo(width)
    ensures |Padded(n, width)| == width && DecimalValue(Padded(n, width)) == n
  {
    DecimalLength(n, width);
    DecimalRoundTrip(n);
    ZerosAreWorthless(Max(width - |Decimal(n)|, 0), Decimal(n));
  }

  lemma {:induction false} PointFollowsDigits(whole: string, fraction: string)
    requires AllDigits(whole)
    ensures PointAt(whole + "." + fraction) == |whole|
  {
    var s := whole + "." + fraction;
    if whole == "" {
      assert s[0] == '.';
    } else {
      assert s[0] == whole[0] && s[1..] == whole[1..] + "." + fraction;
      PointFollowsDigits(whole[1..], fraction);
    }
  }

  lemma MagnitudeReads(negative: bool, whole: string, fraction: string)
    requires AllDigits(whole) && AllDigits(fraction)
    ensures ReadMagnitude(negative, whole + "." + fraction)
         == Some(Fixed(WithSign(negative, DecimalValue(whole + fraction)), |fraction|))
  {
    var s := whole + "." + fraction;
    PointFollowsDigits(whole, fraction);
    assert s[..|whole|] == whole && s[|whole| + 1..] == fraction;
  }

  lemma FixedReads(sign: char, whole: string, fraction: string, units: nat)
    requires (sign == '+' || sign == '-') && AllDigits(whole) && AllDigits(fraction)
    requires units == DecimalValue(whole + fraction)
    ensures ReadFixed(FixedText(sign, whole, fraction)) == Some(Fixed(WithSign(sign == '-', units), |fraction|))
  {
    TextShape(sign, whole, fraction);
    MagnitudeReads(sign == '-', whole, fraction);
  }

  lemma TextShape(sign: char, whole: string, fraction: string)
    ensures var s := FixedText(sign, whole, fraction); s[0] == sign && s[1..] == whole + "." + fraction
  {
  }

  /** The digits on either side of the point spell the whole magnitude. */
  lemma DigitsSpell(whole: nat, fraction: nat, decimals: nat)
    requires decimals > 0 && fraction < TenTo(decimals)
    ensures |Padded(fraction, decimals)| == decimals
    ensures DecimalValue(Decimal(whole) + Padded(fraction, decimals)) == whole * TenTo(decimals) + fraction
  {
    PaddedReads(fraction, decimals);
    DecimalRoundTrip(whole);
    DigitsConcat(Decimal(whole), Padded(fraction, decimals));
  }

  lemma Recombined(n: nat, unit: nat)
    requires unit > 0
    ensures (n / unit) * unit + n % unit == n && n % unit < unit
  {
  }

  lemma VoltsRead(millivolts: MilliVolts, requested: u32)
    ensures var decimals := Decimals(requested);
            ReadFixed(VoltsText(millivolts, requested)) == Some(Fixed(WithSign(millivolts < 0, Scaled(millivolts, decimals)), decimals))
  {
    var decimals := Decimals(requested);
    var scaled: nat, unit := Scaled(millivolts, decimals), TenTo(decimals);
    var whole, fraction := scaled / unit, scaled % unit;
    Recombined(scaled, unit);
    DigitsSpell(whole, fraction, decimals);
    var sign := if millivolts < 0 then '-' else '+';
    FixedReads(sign, Decimal(whole), Padded(fraction, decimals), scaled);
  }

  /** Reading the text back gives the level to within half a displayed unit, on as many
      decimals as were asked for; three decimals are exact. */
  lemma VoltsReadBack(millivolts: MilliVolts, requested: u32)
    ensures var r := ReadFixed(VoltsText(millivolts, requested));
            && r.Some? && r.value.decimals == (if requested <= 1 then 1 else if requested == 2 then 2 else 3)
            && 2 * Abs(r.value.units * TenTo(3 - r.value.decimals) - millivolts) <= TenTo(3 - r.value.decimals)
            && (requested >= 3 ==> r.value == Fixed(millivolts, 3))
    ensures VoltsText(millivolts, requested)[0] == if millivolts < 0 then '-' else '+'
  {
    VoltsRead(millivolts, requested);
    var decimals := Decimals(requested);
    SignedIsClose(millivolts, Scaled(millivolts, decimals), TenTo(3 - decimals));
    if requested >= 3 {
      assert TenTo(3 - decimals) == 1;
    }
  }

  /** Putting the sign back does not change the error. */
  lemma SignedIsClose(millivolts: int, scaled: int, step: nat)
    requires 2 * Abs(scaled * step - Abs(millivolts)) <= step
    ensures 2 * Abs(WithSign(millivolts < 0, scaled) * step - millivolts) <= step
  {
    assert (-scaled) * step == -(scaled * step);
  }

  // ----- Writing it -----

  predicate AllAscii(s: string) { forall i :: 0 <= i < |s| ==> s[i] < '\U{0080}' }

  function Ascii(s: string): (r: seq<Encoded>)
    requires AllAscii(s)
    ensures |r| == |s| && IsAscii(r)
  {
    seq(|s|, i requires 0 <= i < |s| => [s[i] as int])
  }

  lemma TextParts(sign: char, whole: string, fraction: string)
    ensures FixedText(sign, whole, fraction) == [sign] + whole + "." + fraction
  {
  }

  /** The formatted pieces go out one by one. */
  method WriteVolts(out: TextBuf, millivolts: MilliVolts, requested: u32)
    requires out.Valid()
    modifies out, out.bytes
    ensures out.Valid() && AllAscii(VoltsText(millivolts, requested))
    ensures out.Content() == Written(old(out.Content()), out.bytes.Length, Ascii(VoltsText(millivolts, requested)))
  {
    var decimals := Clamp(requested, 1, 3);
    var sign := [if millivolts < 0 then '-' else '+'];
    var scaled, unit := Scaled(millivolts, decimals), TenTo(decimals);
    var whole, fraction := Decimal(scaled / unit), Padded(scaled % unit, decimals);
    out.WriteStr(Ascii(sign));
    WriteNext(out, old(out.Content()), sign, whole);
    WriteNext(out, old(out.Content()), sign + whole, ".");
    WriteNext(out, old(out.Content()), sign + whole + ".", fraction);
    TextParts(sign[0], whole, fraction);
  }

  method WriteNext(out: TextBuf, ghost start: seq<u8>, ghost before: string, piece: string)
    requires out.Valid() && |start| <= out.bytes.Length && AllAscii(before) && AllAscii(piece)
    requires out.Content() == Written(start, out.bytes.Length, Ascii(before))
    modifies out, out.bytes
    ensures out.Valid() && AllAscii(before + piece)
    ensures out.Content() == Written(start, out.bytes.Length, Ascii(before + piece))
  {
    assert Ascii(before + piece) == Ascii(before) + Ascii(piece);
    AsciiWritesJoin(start, out.bytes.Length, Ascii(before), Ascii(piece));
    out.WriteStr(Ascii(piece));
  }
}
