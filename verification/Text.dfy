/** The text handling the scenario format relies on: decimal integers, whitespace-separated
    tokens, trimming, comments and lines, as Rust's standard library defines them. */
module Text {
  import opened Ints

  // ----- Decimal integers -----

  predicate IsDigit(c: char) { '0' <= c <= '9' }

  function DigitOf(d: nat): (c: char)
    requires d < 10
    ensures IsDigit(c)
  {
    ['0', '1', '2', '3', '4', '5', '6', '7', '8', '9'][d]
  }

  function DigitValue(c: char): (d: nat)
    requires IsDigit(c)
    ensures d < 10
  {
    (c - '0') as nat
  }

  predicate AllDigits(s: string)
  {
    forall i :: 0 <= i < |s| ==> IsDigit(s[i])
  }

  /** How a number is printed. */
  function Decimal(n: nat): (s: string)
    ensures s != "" && AllDigits(s)
  {
    if n < 10 then [DigitOf(n)] else Decimal(n / 10) + [DigitOf(n % 10)]
  }

  function DecimalValue(s: string): nat
    requires AllDigits(s)
  {
    if s == "" then 0 else 10 * DecimalValue(s[..|s| - 1]) + DigitValue(s[|s| - 1])
  }

  lemma DigitRoundTrip(d: nat)
    requires d < 10
    ensures DigitValue(DigitOf(d)) == d
  {
  }

  lemma {:induction false} DecimalRoundTrip(n: nat)
    ensures DecimalValue(Decimal(n)) == n
  {
    DigitRoundTrip(n % 10);
    if n < 10 {
      assert Decimal(n)[..0] == "";
    } else {
      DecimalRoundTrip(n / 10);
      assert Decimal(n)[..|Decimal(n)| - 1] == Decimal(n / 10);
    }
  }

  /** Integer parsing: an optional sign that is not alone, then digits, within the type.
      Only signed types accept a minus. */
  function ParseInteger(s: string, low: int, high: nat): Option<int>
    requires low <= 0
  {
    if s == "" || s == "+" || s == "-" then None
    else
      var negative := s[0] == '-' && low < 0;
      var digits := if s[0] == '+' || negative then s[1..] else s;
      if !AllDigits(digits) then None
      else
        var magnitude: int := DecimalValue(digits);
        var value := if negative then -magnitude else magnitude;
        if low <= value <= high then Some(value) else None
  }

  /** `{}` */
  function Signed(i: int): string { if i < 0 then "-" + Decimal(-i) else Decimal(i) }

  /** `{:+}` */
  function ExplicitlySigned(i: int): string { if i < 0 then "-" + Decimal(-i) else "+" + Decimal(i) }

  lemma PlainRoundTrip(n: nat, low: int, high: nat)
    requires low <= 0 && n <= high
    ensures ParseInteger(Decimal(n), low, high) == Some(n)
  {
    DecimalRoundTrip(n);
    assert IsDigit(Decimal(n)[0]);
  }

  lemma PlusRoundTrip(n: nat, low: int, high: nat)
    requires low <= 0 && n <= high
    ensures ParseInteger("+" + Decimal(n), low, high) == Some(n)
  {
    DecimalRoundTrip(n);
    assert ("+" + Decimal(n))[1..] == Decimal(n);
  }

  lemma MinusRoundTrip(n: nat, low: int, high: nat)
    requires low < 0 && n <= -low
    ensures ParseInteger("-" + Decimal(n), low, high) == Some(-(n as int))
  {
    DecimalRoundTrip(n);
    assert ("-" + Decimal(n))[1..] == Decimal(n);
  }

  lemma SignedRoundTrip(i: int, low: int, high: nat)
    requires low < 0 && low <= i <= high
    ensures ParseInteger(Signed(i), low, high) == Some(i)
    ensures ParseInteger(ExplicitlySigned(i), low, high) == Some(i)
  {
    if i < 0 {
      MinusRoundTrip(-i, low, high);
    } else {
      PlainRoundTrip(i, low, high);
      PlusRoundTrip(i, low, high);
    }
  }

  /** Which texts are numbers: digits, with a sign before them or not, whose value the type holds;
      a minus only where the type has negative numbers. */
  lemma IntegerSpellings(digits: string, low: int, high: nat)
    requires low <= 0 && digits != "" && AllDigits(digits)
    ensures var value: int := DecimalValue(digits);
            && ParseInteger(digits, low, high) == (if value <= high then Some(value) else None)
            && ParseInteger("+" + digits, low, high) == (if value <= high then Some(value) else None)
            && ParseInteger("-" + digits, low, high) == if low < 0 && low <= -value then Some(-value) else None
  {
    assert IsDigit(digits[0]);
    assert ("+" + digits)[1..] == digits && ("-" + digits)[1..] == digits;
    assert !IsDigit(("-" + digits)[0]);
  }

  /** Nothing else is. */
  lemma NotANumber(s: string, low: int, high: nat)
    requires low <= 0 && !(s != "" && AllDigits(s))
    requires !(|s| > 1 && (s[0] == '+' || s[0] == '-') && AllDigits(s[1..]))
    ensures ParseInteger(s, low, high) == None
  {
  }

  // ----- Whitespace and tokens -----

  /** The characters with the Unicode property White_Space. */
  predicate IsWhitespace(c: char)
  {
    || '\U{0009}' <= c <= '\U{000D}' || c == ' ' || c == '\U{0085}' || c == '\U{00A0}' || c == '\U{1680}'
    || '\U{2000}' <= c <= '\U{200A}' || c == '\U{2028}' || c == '\U{2029}' || c == '\U{202F}'
    || c == '\U{205F}' || c == '\U{3000}'
  }

  /** As code points. */
  lemma WhitespaceCodes(c: char)
    ensures var code := c as int;
            IsWhitespace(c) <==>
              || 9 <= code <= 13 || 0x2000 <= code <= 0x200A
              || code in {0x20, 0x85, 0xA0, 0x1680, 0x2028, 0x2029, 0x202F, 0x205F, 0x3000}
  {
  }

  predicate IsWord(s: string)
  {
    s != "" && forall i :: 0 <= i < |s| ==> !IsWhitespace(s[i])
  }

  function WordLength(s: string): (n: nat)
    ensures n <= |s| && (n < |s| ==> IsWhitespace(s[n]))
    ensures forall i :: 0 <= i < n ==> !IsWhitespace(s[i])
  {
    if s == "" || IsWhitespace(s[0]) then 0 else 1 + WordLength(s[1..])
  }

  /** `split_whitespace` */
  function Tokens(s: string): (tokens: seq<string>)
    ensures forall t :: t in tokens ==> IsWord(t)
    decreases |s|
  {
    if s == "" then []
    else if IsWhitespace(s[0]) then Tokens(s[1..])
    else
      var n := WordLength(s);
      [s[..n]] + Tokens(s[n..])
  }

  lemma {:induction false} WordLengthIs(s: string, n: nat)
    requires n <= |s| && (n < |s| ==> IsWhitespace(s[n]))
    requires forall i :: 0 <= i < n ==> !IsWhitespace(s[i])
    ensures WordLength(s) == n
  {
    if n > 0 {
      WordLengthIs(s[1..], n - 1);
    }
  }

  lemma OneToken(w: string)
    requires IsWord(w)
    ensures Tokens(w) == [w]
  {
    WordLengthIs(w, |w|);
    assert w[..|w|] == w && w[|w|..] == "";
  }

  lemma FirstToken(w: string, rest: string)
    requires IsWord(w)
    ensures Tokens(w + " " + rest) == [w] + Tokens(rest)
  {
    var s := w + " " + rest;
    WordLengthIs(s, |w|);
    assert s[..|w|] == w && s[|w|..] == " " + rest;
    assert (" " + rest)[1..] == rest;
  }

  function TrimStart(s: string): string
  {
    if s != "" && IsWhitespace(s[0]) then TrimStart(s[1..]) else s
  }

  function TrimEnd(s: string): string
  {
    if s != "" && IsWhitespace(s[|s| - 1]) then TrimEnd(s[..|s| - 1]) else s
  }

  function Trim(s: string): string { TrimEnd(TrimStart(s)) }

  lemma NothingToTrim(s: string)
    requires s != "" && !IsWhitespace(s[0]) && !IsWhitespace(s[|s| - 1])
    ensures Trim(s) == s
  {
  }

  /** Trimming takes whitespace off either end, all of it and nothing else. */
  lemma TrimmedIs(s: string) returns (before: string, after: string)
    ensures IsBlank(before) && IsBlank(after) && s == before + Trim(s) + after
    ensures Trim(s) != "" ==> !IsWhitespace(Trim(s)[0]) && !IsWhitespace(Trim(s)[|Trim(s)| - 1])
  {
    before := StartIs(s);
    TrimStartLeads(s);
    TrimEndKeepsFirst(TrimStart(s));
    after := EndIs(TrimStart(s));
  }

  lemma {:induction false} StartIs(s: string) returns (before: string)
    ensures IsBlank(before) && s == before + TrimStart(s)
  {
    before := "";
    if s != "" && IsWhitespace(s[0]) {
      var rest := StartIs(s[1..]);
      before := [s[0]] + rest;
      assert s == [s[0]] + s[1..];
    }
  }

  lemma {:induction false} EndIs(s: string) returns (after: string)
    ensures IsBlank(after) && s == TrimEnd(s) + after
    ensures TrimEnd(s) != "" ==> !IsWhitespace(TrimEnd(s)[|TrimEnd(s)| - 1])
  {
    after := "";
    if s != "" && IsWhitespace(s[|s| - 1]) {
      var rest := EndIs(s[..|s| - 1]);
      after := rest + [s[|s| - 1]];
      assert s == s[..|s| - 1] + [s[|s| - 1]];
    }
  }

  /** A trimmed line that is not empty has a first token, so looking at it cannot fail. */
  lemma TrimmedHasToken(s: string)
    ensures Trim(s) != "" ==> Tokens(Trim(s)) != []
  {
    TrimStartLeads(s);
    TrimEndKeepsFirst(TrimStart(s));
  }

  lemma {:induction false} TrimStartLeads(s: string)
    ensures var t := TrimStart(s); t != "" ==> !IsWhitespace(t[0])
  {
    if s != "" && IsWhitespace(s[0]) {
      TrimStartLeads(s[1..]);
    }
  }

  lemma {:induction false} TrimEndKeepsFirst(s: string)
    ensures var t := TrimEnd(s); t <= s
  {
    if s != "" && IsWhitespace(s[|s| - 1]) {
      TrimEndKeepsFirst(s[..|s| - 1]);
    }
  }

  predicate IsBlank(s: string) { forall i :: 0 <= i < |s| ==> IsWhitespace(s[i]) }

  lemma {:induction false} BlanksLead(blank: string, s: string)
    requires IsBlank(blank)
    ensures Tokens(blank + s) == Tokens(s)
  {
    if blank == "" {
      assert blank + s == s;
    } else {
      BlanksLead(blank[1..], s);
      assert (blank + s)[1..] == blank[1..] + s;
    }
  }

  /** A word ends at a whitespace character or with the text. */
  lemma WordLeads(w: string, s: string)
    requires IsWord(w) && (s != "" ==> IsWhitespace(s[0]))
    ensures Tokens(w + s) == [w] + Tokens(s)
  {
    WordLengthIs(w + s, |w|);
    assert (w + s)[..|w|] == w && (w + s)[|w|..] == s;
  }

  lemma {:induction false} BlanksTrail(s: string, c: char)
    requires IsWhitespace(c)
    ensures Tokens(s + [c]) == Tokens(s)
    decreases |s|
  {
    if s == "" {
      assert Tokens([c]) == Tokens([c][1..]);
    } else if IsWhitespace(s[0]) {
      BlanksTrail(s[1..], c);
      assert (s + [c])[1..] == s[1..] + [c];
    } else {
      var n := WordLength(s);
      BlanksTrail(s[n..], c);
      assert s + [c] == s[..n] + (s[n..] + [c]);
      WordLeads(s[..n], s[n..] + [c]);
    }
  }

  lemma {:induction false} TrimStartKeepsTokens(s: string)
    ensures Tokens(TrimStart(s)) == Tokens(s)
  {
    if s != "" && IsWhitespace(s[0]) {
      TrimStartKeepsTokens(s[1..]);
    }
  }

  lemma {:induction false} TrimEndKeepsTokens(s: string)
    ensures Tokens(TrimEnd(s)) == Tokens(s)
  {
    if s != "" && IsWhitespace(s[|s| - 1]) {
      TrimEndKeepsTokens(s[..|s| - 1]);
      BlanksTrail(s[..|s| - 1], s[|s| - 1]);
      assert s[..|s| - 1] + [s[|s| - 1]] == s;
    }
  }

  lemma TrimKeepsTokens(s: string)
    ensures Tokens(Trim(s)) == Tokens(s)
  {
    TrimStartKeepsTokens(s);
    TrimEndKeepsTokens(TrimStart(s));
  }

  /** Words with whitespace between them and around them: a gap before each word, and one after
      the last. */
  function Spread(gaps: seq<string>, words: seq<string>): string
    requires |gaps| == |words| + 1
  {
    if words == [] then gaps[0] else gaps[0] + (words[0] + Spread(gaps[1..], words[1..]))
  }

  ghost predicate AllWords(words: seq<string>) { forall i :: 0 <= i < |words| ==> IsWord(words[i]) }

  /** All whitespace, and some of it between any two words. */
  ghost predicate AreGaps(gaps: seq<string>)
  {
    && (forall i :: 0 <= i < |gaps| ==> IsBlank(gaps[i]))
    && (forall i :: 0 < i < |gaps| - 1 ==> gaps[i] != "")
  }

  /** However they are spread out, the tokens are the words. */
  lemma {:induction false} SpreadIsRead(gaps: seq<string>, words: seq<string>)
    requires |gaps| == |words| + 1 && AllWords(words) && AreGaps(gaps)
    ensures Tokens(Spread(gaps, words)) == words
    decreases |words|
  {
    if words == [] {
      BlanksLead(gaps[0], "");
      assert gaps[0] + "" == gaps[0];
    } else {
      var rest := Spread(gaps[1..], words[1..]);
      SpreadIsRead(gaps[1..], words[1..]);
      assert rest != "" ==> gaps[1] != "" && rest[0] == gaps[1][0];
      WordLeads(words[0], rest);
      BlanksLead(gaps[0], words[0] + rest);
    }
  }

  // ----- Comments and lines -----

  /** `split('#').next()` */
  function BeforeHash(s: string): string
  {
    if s == "" || s[0] == '#' then "" else [s[0]] + BeforeHash(s[1..])
  }

  lemma {:induction false} NoHash(s: string)
    requires '#' !in s
    ensures BeforeHash(s) == s
  {
    if s != "" {
      NoHash(s[1..]);
    }
  }

  /** A comment is everything from the first `#` on. */
  lemma {:induction false} CommentIsCut(a: string, comment: string)
    requires '#' !in a && (comment == "" || comment[0] == '#')
    ensures BeforeHash(a + comment) == a
  {
    if a == "" {
      assert a + comment == comment;
    } else {
      CommentIsCut(a[1..], comment);
      assert (a + comment)[1..] == a[1..] + comment;
    }
  }

  function LineLength(s: string): (n: nat)
    ensures n <= |s| && (n < |s| ==> s[n] == '\n') && forall i :: 0 <= i < n ==> s[i] != '\n'
  {
    if s == "" || s[0] == '\n' then 0 else 1 + LineLength(s[1..])
  }

  lemma {:induction false} LineLengthIs(s: string, n: nat)
    requires n < |s| && s[n] == '\n' && forall i :: 0 <= i < n ==> s[i] != '\n'
    ensures LineLength(s) == n
  {
    if n > 0 {
      LineLengthIs(s[1..], n - 1);
    }
  }

  function WithoutReturn(s: string): string
  {
    if s != "" && s[|s| - 1] == '\r' then s[..|s| - 1] else s
  }

  /** `lines()`: a line ends at a newline, taking a carriage return before it along; the last
      line need not end. */
  function Lines(s: string): seq<string>
    decreases |s|
  {
    if s == "" then []
    else
      var n := LineLength(s);
      if n == |s| then [s] else [WithoutReturn(s[..n])] + Lines(s[n + 1..])
  }

  lemma FirstLine(line: string, rest: string)
    requires '\n' !in line && '\r' !in line
    ensures Lines(line + "\n" + rest) == [line] + Lines(rest)
  {
    var s := line + "\n" + rest;
    LineLengthIs(s, |line|);
    assert s[..|line|] == line && s[|line| + 1..] == rest;
  }

  /** A carriage return before the newline belongs to neither line. */
  lemma ReturnIsDropped(line: string, rest: string)
    requires '\n' !in line
    ensures Lines(line + "\r\n" + rest) == [line] + Lines(rest)
  {
    var s := line + "\r\n" + rest;
    LineLengthIs(s, |line| + 1);
    assert s[..|line| + 1] == line + "\r" && (line + "\r")[..|line|] == line && s[|line| + 2..] == rest;
  }

  /** The last line may do without one. */
  lemma LastLine(line: string)
    requires '\n' !in line && line != ""
    ensures Lines(line) == [line]
  {
    NoNewline(line);
  }

  lemma {:induction false} NoNewline(s: string)
    requires '\n' !in s
    ensures LineLength(s) == |s|
  {
    if s != "" {
      NoNewline(s[1..]);
    }
  }
}
