/** Which texts read as a scenario, and as which: what the layout of a line, comments and the
    spelling of its words matter (crates/oc-sim/src/scenario.rs). */
module ScenarioForms {
  import opened Ints
  import opened Platform
  import opened Text
  import opened Scenario
  import opened ScenarioText

  // ----- One line -----

  /** A line as it may be laid out: words, the whitespace around each, and a comment or none. */
  datatype Line = Line(gaps: seq<string>, words: seq<string>, comment: string) {
    ghost predicate Valid()
    {
      && |gaps| == |words| + 1 && AllWords(words) && AreGaps(gaps)
      && (forall i :: 0 <= i < |words| ==> '#' !in words[i])
      && (comment == "" || comment[0] == '#')
      && (forall i :: 0 <= i < |gaps| ==> '\n' !in gaps[i]) && '\n' !in comment
    }

    function Laid(): string
      requires |gaps| == |words| + 1
    {
      Spread(gaps, words) + comment
    }
  }

  lemma {:induction false} SpreadHasNo(gaps: seq<string>, words: seq<string>, c: char)
    requires |gaps| == |words| + 1
    requires forall i :: 0 <= i < |words| ==> c !in words[i]
    requires forall i :: 0 <= i < |gaps| ==> c !in gaps[i]
    ensures c !in Spread(gaps, words)
    decreases |words|
  {
    if words != [] {
      SpreadHasNo(gaps[1..], words[1..], c);
    }
  }

  lemma GapsHaveNoHash(gaps: seq<string>)
    requires AreGaps(gaps)
    ensures forall i :: 0 <= i < |gaps| ==> '#' !in gaps[i]
  {
    forall i | 0 <= i < |gaps|
      ensures '#' !in gaps[i]
    {
      assert IsBlank(gaps[i]);
    }
  }

  lemma WordsHaveNoNewline(words: seq<string>)
    requires AllWords(words)
    ensures forall i :: 0 <= i < |words| ==> '\n' !in words[i]
  {
    forall i | 0 <= i < |words|
      ensures '\n' !in words[i]
    {
      assert IsWord(words[i]);
    }
  }

  /** Its words are all that is seen of it. */
  lemma LineIsItsWords(l: Line)
    requires l.Valid()
    ensures LineTokens(l.Laid()) == l.words && '\n' !in l.Laid()
  {
    GapsHaveNoHash(l.gaps);
    WordsHaveNoNewline(l.words);
    SpreadHasNo(l.gaps, l.words, '#');
    SpreadHasNo(l.gaps, l.words, '\n');
    CommentIsCut(Spread(l.gaps, l.words), l.comment);
    TrimKeepsTokens(Spread(l.gaps, l.words));
    SpreadIsRead(l.gaps, l.words);
  }

  // ----- Whole texts -----

  /** The lines of a text, each of which ends with a newline. */
  function TextOf(lines: seq<Line>): string
    requires forall i :: 0 <= i < |lines| ==> |lines[i].gaps| == |lines[i].words| + 1
  {
    if lines == [] then "" else lines[0].Laid() + "\n" + TextOf(lines[1..])
  }

  ghost predicate AllValid(lines: seq<Line>) { forall i :: 0 <= i < |lines| ==> lines[i].Valid() }

  function WordsOf(lines: seq<Line>): seq<seq<string>>
  {
    if lines == [] then [] else [lines[0].words] + WordsOf(lines[1..])
  }

  lemma NoHashNoCarriageReturn(s: string)
    ensures LineTokens(WithoutReturn(s)) == LineTokens(s)
  {
    if s != "" && s[|s| - 1] == '\r' {
      var t := s[..|s| - 1];
      assert s == t + "\r";
      if '#' in t {
        HashEndsIt(t, "\r");
      } else {
        NoHash(t);
        NoHash(t + "\r");
        TrimKeepsTokens(t);
        TrimKeepsTokens(t + "\r");
        BlanksTrail(t, '\r');
      }
    }
  }

  lemma {:induction false} HashEndsIt(t: string, more: string)
    requires '#' in t
    ensures BeforeHash(t + more) == BeforeHash(t)
  {
    if t[0] != '#' {
      HashEndsIt(t[1..], more);
      assert (t + more)[1..] == t[1..] + more;
    }
  }

  lemma LineEnds(line: string, rest: string)
    requires '\n' !in line
    ensures TokenLines(line + "\n" + rest) == [LineTokens(line)] + TokenLines(rest)
  {
    var s := line + "\n" + rest;
    LineLengthIs(s, |line|);
    assert s[..|line|] == line && s[|line| + 1..] == rest;
    NoHashNoCarriageReturn(line);
    var lines := [WithoutReturn(line)] + Lines(rest);
    assert Lines(s) == lines && lines[0] == WithoutReturn(line) && lines[1..] == Lines(rest);
  }

  lemma {:induction false} TextIsItsWords(lines: seq<Line>)
    requires AllValid(lines)
    ensures TokenLines(TextOf(lines)) == WordsOf(lines)
  {
    if lines != [] {
      TextIsItsWords(lines[1..]);
      LineIsItsWords(lines[0]);
      LineEnds(lines[0].Laid(), TextOf(lines[1..]));
    }
  }

  /** A text reads as its words do, line for line: neither the whitespace around them nor the
      comments behind them matter, and a comment takes nothing away from its line. */
  lemma LayoutDoesNotMatter(lines: seq<Line>)
    requires AllValid(lines)
    ensures Parse(TextOf(lines)) == ReadLines(Log([], 0), WordsOf(lines), 0)
  {
    TextIsItsWords(lines);
  }

  // ----- Blank lines, and the numbers of the others -----

  /** The lines with something on them. */
  function Kept(lines: seq<seq<string>>): seq<seq<string>>
  {
    if lines == [] then []
    else (if lines[0] == [] then [] else [lines[0]]) + Kept(lines[1..])
  }

  /** The same reading, but for the number of the line that is wrong. */
  predicate SameButLine(a: Reading, b: Reading)
  {
    if a.Failed? then b.Failed? && a.error == b.error else a == b
  }

  lemma {:induction false} BlankLinesDoNothing(log: Log, lines: seq<seq<string>>, n: nat, m: nat)
    ensures SameButLine(ReadLines(log, lines, n), ReadLines(log, Kept(lines), m))
    decreases |lines|
  {
    if lines != [] {
      if lines[0] == [] {
        BlankLinesDoNothing(log, lines[1..], n + 1, m);
        assert Kept(lines) == Kept(lines[1..]);
      } else {
        ReadFirst(log, lines[0], Kept(lines[1..]), m);
        match ApplyTokens(log, lines[0])
        case Applied(next) => BlankLinesDoNothing(next, lines[1..], n + 1, m + 1);
        case Wrong(_) =>
        case Panics =>
      }
    }
  }

  lemma SameTwice(a: Reading, b: Reading, c: Reading)
    requires SameButLine(a, c) && SameButLine(b, c)
    ensures SameButLine(a, b)
  {
  }

  /** Two texts with the same words on the same lines, blank lines and lines of comment left out,
      read as the same scenario, or fail the same way. */
  lemma OnlyWordsMatter(a: seq<Line>, b: seq<Line>)
    requires AllValid(a) && AllValid(b) && Kept(WordsOf(a)) == Kept(WordsOf(b))
    ensures SameButLine(Parse(TextOf(a)), Parse(TextOf(b)))
  {
    LayoutDoesNotMatter(a);
    LayoutDoesNotMatter(b);
    BlankLinesDoNothing(Log([], 0), WordsOf(a), 0, 0);
    BlankLinesDoNothing(Log([], 0), WordsOf(b), 0, 0);
    SameTwice(Parse(TextOf(a)), Parse(TextOf(b)), ReadLines(Log([], 0), Kept(WordsOf(a)), 0));
  }

  predicate Becomes(log: Log, tokens: seq<string>, after: Log)
  {
    if tokens == [] then after == log else ApplyTokens(log, tokens) == Applied(after)
  }

  lemma FirstIsRead(log: Log, lines: seq<seq<string>>, n: nat, next: Log) returns (after: Log)
    requires lines != [] && ReadLines(log, lines, n) == Read(next)
    ensures Becomes(log, lines[0], after) && ReadLines(after, lines[1..], n + 1) == Read(next)
  {
    after := if lines[0] == [] then log else ApplyTokens(log, lines[0]).log;
  }

  lemma FirstLeadsOn(log: Log, good: seq<seq<string>>, rest: seq<seq<string>>, n: nat, after: Log, r: Reading)
    requires good != [] && Becomes(log, good[0], after) && ReadLines(after, good[1..] + rest, n + 1) == r
    ensures ReadLines(log, good + rest, n) == r
  {
    assert (good + rest)[1..] == good[1..] + rest;
  }

  lemma {:induction false} ReadsOn(
      log: Log, good: seq<seq<string>>, rest: seq<seq<string>>, n: nat, next: Log, end: nat, r: Reading)
    requires ReadLines(log, good, n) == Read(next) && end == n + |good| && r == ReadLines(next, rest, end)
    ensures ReadLines(log, good + rest, n) == r
    decreases |good|
  {
    if good == [] {
      assert good + rest == rest;
    } else {
      var after := FirstIsRead(log, good, n, next);
      ReadsOn(after, good[1..], rest, n + 1, next, end, r);
      FirstLeadsOn(log, good, rest, n, after, r);
    }
  }

  lemma {:induction false} WordsOfMore(a: seq<Line>, b: seq<Line>)
    ensures WordsOf(a + b) == WordsOf(a) + WordsOf(b) && |WordsOf(a)| == |a|
  {
    if a == [] {
      assert a + b == b;
    } else {
      WordsOfMore(a[1..], b);
      assert (a + b)[1..] == a[1..] + b;
    }
  }

  lemma WrongLine(good: seq<seq<string>>, bad: seq<string>, rest: seq<seq<string>>, before: Log)
    requires bad != [] && ReadLines(Log([], 0), good, 0) == Read(before)
    ensures ReadLines(Log([], 0), good + ([bad] + rest), 0) ==
              match ApplyTokens(before, bad)
              case Wrong(error) => Failed(|good| + 1, error)
              case Panics => Panicked
              case Applied(next) => ReadLines(next, rest, |good| + 1)
  {
    ReadsOn(Log([], 0), good, [bad] + rest, 0, before, |good|, ReadLines(before, [bad] + rest, |good|));
    ReadFirst(before, bad, rest, |good|);
  }

  lemma WordsAround(good: seq<Line>, bad: Line, rest: seq<Line>)
    requires AllValid(good) && bad.Valid() && AllValid(rest)
    ensures AllValid(good + ([bad] + rest))
    ensures WordsOf(good + ([bad] + rest)) == WordsOf(good) + ([bad.words] + WordsOf(rest)) && |WordsOf(good)| == |good|
  {
    WordsOfMore(good, [bad] + rest);
    assert ([bad] + rest)[1..] == rest;
  }

  /** The first line that is wrong is the one reported, by its number counted from one, blank lines
      and comments included; what follows it is not looked at. */
  lemma ErrorNamesItsLine(good: seq<Line>, bad: Line, rest: seq<Line>, before: Log)
    requires AllValid(good) && bad.Valid() && AllValid(rest) && bad.words != []
    requires Parse(TextOf(good)) == Read(before)
    ensures AllValid(good + ([bad] + rest))
    ensures Parse(TextOf(good + ([bad] + rest))) ==
              match ApplyTokens(before, bad.words)
              case Wrong(error) => Failed(|good| + 1, error)
              case Panics => Panicked
              case Applied(next) => ReadLines(next, WordsOf(rest), |good| + 1)
  {
    WordsAround(good, bad, rest);
    LayoutDoesNotMatter(good);
    LayoutDoesNotMatter(good + ([bad] + rest));
    WrongLine(WordsOf(good), bad.words, WordsOf(rest), before);
  }

  // ----- How things are spelt -----

  /** A state is one of ten words, and nothing else. */
  lemma StatesAreSpelt(token: string)
    ensures ParseState(token) == Ok(true) <==> token in {"on", "high", "down", "true", "1"}
    ensures ParseState(token) == Ok(false) <==> token in {"off", "low", "up", "false", "0"}
    ensures ParseState(token) == Err(NotAState) <==>
            token !in {"on", "high", "down", "true", "1", "off", "low", "up", "false", "0"}
  {
    FirstLetters();
  }

  lemma FirstLetters()
    ensures "on"[0] == 'o' && "high"[0] == 'h' && "down"[0] == 'd' && "true"[0] == 't' && "1"[0] == '1'
    ensures "off"[1] == 'f' && "on"[1] == 'n' && "low"[0] == 'l' && "up"[0] == 'u' && "false"[0] == 'f' && "0"[0] == '0'
  {
  }

  /** Any spelling of a state will do wherever there is one, not only those that are printed. */
  lemma StatesAreInterchangeable(kind: string, which: string, a: string, b: string)
    requires kind in {"patch", "trigger", "button"} && ParseState(a) == ParseState(b)
    ensures ParseEvent([kind, which, a]) == ParseEvent([kind, which, b])
  {
    Dispatch(which, a);
    Dispatch(which, b);
  }

  lemma ButtonsAreSpelt(name: string)
    ensures ParseButton(name) == Ok(LeftEncoder) <==> name == "left"
    ensures ParseButton(name) == Ok(RightEncoder) <==> name == "right"
    ensures ParseButton(name) == Ok(Up) <==> name == "up"
    ensures ParseButton(name) == Ok(Down) <==> name == "down"
  {
    assert "left"[0] == 'l' && "right"[0] == 'r' && "up"[0] == 'u' && "down"[0] == 'd';
  }

  /** The words each kind of event is printed with, one space apart. */
  lemma NumbersAreSpelt(tick: u64, channel: usize, level: MilliVolts, detents: i8)
    requires channel < U64_MAX
    ensures EventLine((tick, Cv(channel, level))) == Join([Decimal(tick), "cv", Decimal(channel + 1), Signed(level)])
    ensures EventLine((tick, Encoder(channel, detents)))
         == Join([Decimal(tick), "encoder", Decimal(channel + 1), ExplicitlySigned(detents)])
  {
    Joined(Decimal(tick), ["cv", Decimal(channel + 1), Signed(level)]);
    Joined(Decimal(tick), ["encoder", Decimal(channel + 1), ExplicitlySigned(detents)]);
  }

  lemma SwitchesAreSpelt(tick: u64, channel: usize)
    requires channel < U64_MAX
    ensures EventLine((tick, Patch(channel, true))) == Join([Decimal(tick), "patch", Decimal(channel + 1), "on"])
    ensures EventLine((tick, Patch(channel, false))) == Join([Decimal(tick), "patch", Decimal(channel + 1), "off"])
    ensures EventLine((tick, Trigger(channel, true))) == Join([Decimal(tick), "trigger", Decimal(channel + 1), "high"])
    ensures EventLine((tick, Trigger(channel, false))) == Join([Decimal(tick), "trigger", Decimal(channel + 1), "low"])
  {
    Joined(Decimal(tick), ["patch", Decimal(channel + 1), "on"]);
    Joined(Decimal(tick), ["patch", Decimal(channel + 1), "off"]);
    Joined(Decimal(tick), ["trigger", Decimal(channel + 1), "high"]);
    Joined(Decimal(tick), ["trigger", Decimal(channel + 1), "low"]);
  }

  lemma Joined(first: string, rest: seq<string>)
    requires rest != []
    ensures Join([first] + rest) == first + " " + Join(rest)
  {
    assert ([first] + rest)[1..] == rest;
  }

  /** A scenario begins with a heading and its length. */
  lemma HeadingIsSpelt(ticks: u64)
    ensures Print(Log([], ticks)) == "# oc-sim scenario v1" + "\n" + (Join(["ticks", Decimal(ticks)]) + "\n" + "")
  {
  }

  lemma PressesAreSpelt(tick: u64)
    ensures var at := Decimal(tick);
            && EventLine((tick, Press(LeftEncoder, true))) == Join([at, "button", "left", "down"])
            && EventLine((tick, Press(RightEncoder, true))) == Join([at, "button", "right", "down"])
            && EventLine((tick, Press(Up, true))) == Join([at, "button", "up", "down"])
            && EventLine((tick, Press(Down, false))) == Join([at, "button", "down", "up"])
            && EventLine((tick, Reset)) == Join([at, "reset"])
  {
    var at := Decimal(tick);
    Joined(at, ["button", "left", "down"]);
    Joined(at, ["button", "right", "down"]);
    Joined(at, ["button", "up", "down"]);
    Joined(at, ["button", "down", "up"]);
    Joined(at, ["reset"]);
  }

  // ----- What a line of an event is read as, and why it is refused -----

  /** A channel counted from one, of so many; what is wrong with it is said before what is wrong
      with the rest. */
  predicate ChannelReads(token: string, count: nat, r: Result<Event>)
  {
    match ParseInteger(token, 0, 0xFFFF_FFFF_FFFF_FFFF)
    case None => r == Err(NotAChannel)
    case Some(n) => if 1 <= n <= count then r.Ok? || r.error.NotALevel? || r.error.NotADetentCount? || r.error.NotAState?
                    else r == Err(ChannelOutOfRange)
  }

  /** Levels are whole millivolts of either sign, detents whole numbers of a byte, states one of the
      words above. */
  lemma EventsAreRead(which: string, what: string)
    ensures var cv, encoder := ParseEvent(["cv", which, what]), ParseEvent(["encoder", which, what]);
            && ChannelReads(which, 4, cv) && ChannelReads(which, 2, encoder)
            && (cv.Ok? ==> ParseInteger(which, 0, U64_MAX) == Some(cv.value.channel + 1)
                           && ParseInteger(what, -0x8000_0000, 0x7FFF_FFFF) == Some(cv.value.millivolts))
            && (cv == Err(NotALevel) ==> ParseInteger(what, -0x8000_0000, 0x7FFF_FFFF) == None)
            && (encoder.Ok? ==> ParseInteger(which, 0, U64_MAX) == Some(encoder.value.index + 1)
                                && ParseInteger(what, -128, 127) == Some(encoder.value.detents))
            && (encoder == Err(NotADetentCount) ==> ParseInteger(what, -128, 127) == None)
  {
    Dispatch(which, what);
  }

  lemma SwitchesAreRead(which: string, what: string)
    ensures var patch, trigger := ParseEvent(["patch", which, what]), ParseEvent(["trigger", which, what]);
            && ChannelReads(which, 4, patch) && ChannelReads(which, 4, trigger)
            && (patch.Ok? ==> ParseInteger(which, 0, U64_MAX) == Some(patch.value.channel + 1)
                              && ParseState(what) == Ok(patch.value.patched))
            && (trigger.Ok? ==> ParseInteger(which, 0, U64_MAX) == Some(trigger.value.channel + 1)
                                && ParseState(what) == Ok(trigger.value.high))
  {
    Dispatch(which, what);
  }

  /** A line is an event at a tick, or sets the length of the run; what is wrong with the number in
      front, or with the one behind `ticks`, is said. */
  lemma LinesAreRead(log: Log, tokens: seq<string>)
    requires tokens != []
    ensures tokens[0] == "ticks" && |tokens| != 2 ==> ApplyTokens(log, tokens) == Wrong(TicksArity)
    ensures tokens[0] == "ticks" && |tokens| == 2 ==>
              match ParseInteger(tokens[1], 0, 0xFFFF_FFFF_FFFF_FFFF)
              case None => ApplyTokens(log, tokens) == Wrong(NotATickCount)
              case Some(n) => ApplyTokens(log, tokens) == Applied(Log(log.events, n))
    ensures tokens[0] != "ticks" && ParseInteger(tokens[0], 0, U64_MAX) == None ==>
              ApplyTokens(log, tokens) == Wrong(NotATickNumber)
  {
  }

  /** Anything else is no event. */
  lemma NothingElseIsRead(tokens: seq<string>)
    requires |tokens| == 3 ==> tokens[0] !in {"cv", "patch", "trigger", "encoder", "button"}
    requires tokens != ["reset"]
    ensures ParseEvent(tokens) == Err(if tokens == [] then EmptyEvent else UnknownEvent)
  {
    if |tokens| == 1 {
      assert tokens == [tokens[0]];
    }
  }

  lemma CommentedLine(words: seq<string>, comment: string)
    requires AllClean(words) && '\n' !in comment
    ensures LineTokens(Join(words) + " #" + comment) == words && '\n' !in Join(words) + " #" + comment
  {
    var line := Join(words);
    JoinedLine(words);
    assert line + " #" + comment == (line + " ") + ("#" + comment);
    CommentIsCut(line + " ", "#" + comment);
    TrimKeepsTokens(line + " ");
    BlanksTrail(line, ' ');
  }

  lemma OneLineText(raw: string)
    requires '\n' !in raw
    ensures TokenLines(raw + "\n") == [LineTokens(raw)]
  {
    LineEnds(raw, "");
    assert raw + "\n" + "" == raw + "\n" && TokenLines("") == [];
  }

  /** A comment behind an event leaves the event. */
  lemma TrailingCommentKeepsTheEvent(e: Stamped, comment: string)
    requires InRange(e.1) && e.0 < U64_MAX && '\n' !in comment
    ensures Parse(EventLine(e) + " #" + comment + "\n") == Read(Log([e], e.0 + 1))
  {
    var words := EventTokens(e);
    NumbersAreClean(e.0, 0);
    WordsAreClean(e.1);
    Joined(Decimal(e.0), Words(e.1));
    CommentedLine(words, comment);
    OneLineText(EventLine(e) + " #" + comment);
    ReadFirst(Log([], 0), words, [], 0);
    EventTokensApply(Log([], 0), e);
    assert Insert([], e.0, e.1) == [e];
  }
}
