/** The text form of a scenario: printing, parsing, and the round trip
    (crates/oc-sim/src/scenario.rs). */
module ScenarioText {
  import opened Ints
  import opened Platform
  import opened Text
  import opened Scenario

  const HEADER := "# oc-sim scenario v1"

  datatype ParseError =
    | EmptyEvent | UnknownEvent | NotAChannel | ChannelOutOfRange | NotALevel | NotAState
    | NotADetentCount | UnknownButton | TicksArity | NotATickCount | NotATickNumber

  datatype Result<+T> = Ok(value: T) | Err(error: ParseError)

  // ----- Printing -----

  function ButtonName(b: Button): string
  {
    match b
    case LeftEncoder => "left"
    case RightEncoder => "right"
    case Up => "up"
    case Down => "down"
  }

  /** Channels are printed one-based; the addition must not overflow. */
  predicate Printable(e: Event)
  {
    match e
    case Cv(channel, _) => channel < U64_MAX
    case Patch(channel, _) => channel < U64_MAX
    case Trigger(channel, _) => channel < U64_MAX
    case Encoder(index, _) => index < U64_MAX
    case Press(_, _) => true
    case Reset => true
  }

  /** The words an event is printed as, separated by single spaces. */
  function Words(e: Event): (words: seq<string>)
    requires Printable(e)
    ensures words != []
  {
    match e
    case Cv(channel, millivolts) => ["cv", Decimal(channel + 1), Signed(millivolts)]
    case Patch(channel, patched) => ["patch", Decimal(channel + 1), if patched then "on" else "off"]
    case Trigger(channel, high) => ["trigger", Decimal(channel + 1), if high then "high" else "low"]
    case Encoder(index, detents) => ["encoder", Decimal(index + 1), ExplicitlySigned(detents)]
    case Press(button, down) => ["button", ButtonName(button), if down then "down" else "up"]
    case Reset => ["reset"]
  }

  function Join(words: seq<string>): string
    requires words != []
  {
    if |words| == 1 then words[0] else words[0] + " " + Join(words[1..])
  }

  function EventLine(e: Stamped): string
    requires Printable(e.1)
  {
    Decimal(e.0) + " " + Join(Words(e.1))
  }

  function TicksLine(ticks: u64): string { Join(["ticks", Decimal(ticks)]) }

  function EventLines(events: seq<Stamped>): string
    requires forall i :: 0 <= i < |events| ==> Printable(events[i].1)
  {
    if events == [] then "" else EventLine(events[0]) + "\n" + EventLines(events[1..])
  }

  function Print(log: Log): string
    requires forall i :: 0 <= i < |log.events| ==> Printable(log.events[i].1)
  {
    HEADER + "\n" + (TicksLine(log.ticks) + "\n" + EventLines(log.events))
  }

  // ----- Parsing -----

  function ParseButton(name: string): Result<Button>
  {
    if name == "left" then Ok(LeftEncoder)
    else if name == "right" then Ok(RightEncoder)
    else if name == "up" then Ok(Up)
    else if name == "down" then Ok(Down)
    else Err(UnknownButton)
  }

  /** A one-based channel number, at most `count`. */
  function ParseChannel(token: string, count: nat): (r: Result<usize>)
    requires count <= 4
    ensures r.Ok? ==> r.value < count
  {
    match ParseInteger(token, 0, U64_MAX)
    case None => Err(NotAChannel)
    case Some(index) => if index == 0 || index > count then Err(ChannelOutOfRange) else Ok(index - 1)
  }

  function ParseState(token: string): Result<bool>
  {
    if token == "on" || token == "high" || token == "down" || token == "true" || token == "1" then Ok(true)
    else if token == "off" || token == "low" || token == "up" || token == "false" || token == "0" then Ok(false)
    else Err(NotAState)
  }

  function ParseLevel(token: string): Result<MilliVolts>
  {
    match ParseInteger(token, -0x8000_0000, I32_MAX)
    case None => Err(NotALevel)
    case Some(i) => Ok(i)
  }

  function ParseDetents(token: string): Result<i8>
  {
    match ParseInteger(token, -128, 127)
    case None => Err(NotADetentCount)
    case Some(i) => Ok(i)
  }

  function ParseCv(channel: string, level: string): Result<Event>
  {
    match ParseChannel(channel, CV_CHANNELS)
    case Err(e) => Err(e)
    case Ok(c) => match ParseLevel(level) case Err(e) => Err(e) case Ok(mv) => Ok(Cv(c, mv))
  }

  function ParsePatch(channel: string, state: string): Result<Event>
  {
    match ParseChannel(channel, CV_CHANNELS)
    case Err(e) => Err(e)
    case Ok(c) => match ParseState(state) case Err(e) => Err(e) case Ok(on) => Ok(Patch(c, on))
  }

  function ParseTrigger(channel: string, state: string): Result<Event>
  {
    match ParseChannel(channel, TRIGGER_CHANNELS)
    case Err(e) => Err(e)
    case Ok(c) => match ParseState(state) case Err(e) => Err(e) case Ok(high) => Ok(Trigger(c, high))
  }

  function ParseEncoder(index: string, detents: string): Result<Event>
  {
    match ParseChannel(index, ENCODERS)
    case Err(e) => Err(e)
    case Ok(i) => match ParseDetents(detents) case Err(e) => Err(e) case Ok(d) => Ok(Encoder(i, d))
  }

  function ParsePress(name: string, state: string): Result<Event>
  {
    match ParseButton(name)
    case Err(e) => Err(e)
    case Ok(b) => match ParseState(state) case Err(e) => Err(e) case Ok(down) => Ok(Press(b, down))
  }

  /** Reads the words that follow the tick number. */
  function ParseEvent(tokens: seq<string>): Result<Event>
  {
    if tokens == [] then Err(EmptyEvent)
    else if tokens[0] == "cv" && |tokens| == 3 then ParseCv(tokens[1], tokens[2])
    else if tokens[0] == "patch" && |tokens| == 3 then ParsePatch(tokens[1], tokens[2])
    else if tokens[0] == "trigger" && |tokens| == 3 then ParseTrigger(tokens[1], tokens[2])
    else if tokens[0] == "encoder" && |tokens| == 3 then ParseEncoder(tokens[1], tokens[2])
    else if tokens[0] == "button" && |tokens| == 3 then ParsePress(tokens[1], tokens[2])
    else if tokens[0] == "reset" && |tokens| == 1 then Ok(Reset)
    else Err(UnknownEvent)
  }

  /** What a line does to the scenario being read.  Pushing an event at the largest tick
      panics, because `tick + 1` overflows. */
  datatype LineResult = Applied(log: Log) | Wrong(error: ParseError) | Panics

  function ApplyTicks(log: Log, tokens: seq<string>): LineResult
  {
    if |tokens| != 2 then Wrong(TicksArity)
    else match ParseInteger(tokens[1], 0, U64_MAX) case None => Wrong(NotATickCount) case Some(n) => Applied(log.(ticks := n))
  }

  function ApplyEvent(log: Log, tokens: seq<string>): LineResult
    requires tokens != []
  {
    match ParseInteger(tokens[0], 0, U64_MAX)
    case None => Wrong(NotATickNumber)
    case Some(tick) =>
      match ParseEvent(tokens[1..])
      case Err(e) => Wrong(e)
      case Ok(event) => if tick == U64_MAX then Panics else Applied(Pushed(log, tick, event))
  }

  /** What a line with something on it does to the scenario. */
  function ApplyTokens(log: Log, tokens: seq<string>): LineResult
    requires tokens != []
  {
    if tokens[0] == "ticks" then ApplyTicks(log, tokens) else ApplyEvent(log, tokens)
  }

  /** The tokens of a raw line once its comment is gone; a blank line has none. */
  function LineTokens(raw: string): seq<string>
  {
    Tokens(Trim(BeforeHash(raw)))
  }

  /** The tokens of every line of a text. */
  function TokenLines(text: string): seq<seq<string>>
  {
    EachLine(Lines(text))
  }

  function EachLine(lines: seq<string>): seq<seq<string>>
  {
    if lines == [] then [] else [LineTokens(lines[0])] + EachLine(lines[1..])
  }

  /** The outcome of reading a text; errors carry the one-based line number. */
  datatype Reading = Read(log: Log) | Failed(line: nat, error: ParseError) | Panicked

  function ReadLines(log: Log, lines: seq<seq<string>>, number: nat): Reading
    decreases |lines|
  {
    if lines == [] then Read(log)
    else match (if lines[0] == [] then Applied(log) else ApplyTokens(log, lines[0]))
      case Applied(next) => ReadLines(next, lines[1..], number + 1)
      case Wrong(error) => Failed(number + 1, error)
      case Panics => Panicked
  }

  function Parse(text: string): Reading
  {
    ReadLines(Log([], 0), TokenLines(text), 0)
  }

  /** `FromStr`: builds the scenario line by line, in place. */
  method FromStr(text: string) returns (r: Reading)
    ensures r == Parse(text)
  {
    var scenario := new Scenario(0);
    var lines := Lines(text);
    for number := 0 to |lines|
      invariant Sorted(scenario.events)
      invariant ReadLines(scenario.Value(), EachLine(lines[number..]), number) == Parse(text)
    {
      var line := Trim(BeforeHash(lines[number]));
      TrimmedHasToken(BeforeHash(lines[number]));
      assert EachLine(lines[number..])[1..] == EachLine(lines[number + 1..]);
      if line == "" {
        continue;
      }
      var outcome := ParseLine(scenario, Tokens(line));
      match outcome
      case Applied(_) =>
      case Wrong(error) => return Failed(number + 1, error);
      case Panics => return Panicked;
    }
    r := Read(Log(scenario.events, scenario.ticks));
  }

  method ParseLine(scenario: Scenario, tokens: seq<string>) returns (r: LineResult)
    requires tokens != [] && Sorted(scenario.events)
    modifies scenario
    ensures r == ApplyTokens(old(scenario.Value()), tokens)
    ensures Sorted(scenario.events)
    ensures r.Applied? ==> scenario.Value() == r.log
  {
    if tokens[0] == "ticks" {
      if |tokens| != 2 { return Wrong(TicksArity); }
      match ParseInteger(tokens[1], 0, U64_MAX)
      case None => return Wrong(NotATickCount);
      case Some(n) => scenario.ticks := n;
    } else {
      match ParseInteger(tokens[0], 0, U64_MAX)
      case None => return Wrong(NotATickNumber);
      case Some(tick) =>
        match ParseEvent(tokens[1..]) {
          case Err(e) => return Wrong(e);
          case Ok(event) =>
            if tick == U64_MAX { return Panics; }
            scenario.Push(tick, event);
        }
    }
    r := Applied(Log(scenario.events, scenario.ticks));
  }

  // ----- What parsing guarantees -----

  /** The event addresses something the module has. */
  predicate InRange(e: Event)
  {
    match e
    case Cv(channel, _) => channel < CV_CHANNELS
    case Patch(channel, _) => channel < CV_CHANNELS
    case Trigger(channel, _) => channel < TRIGGER_CHANNELS
    case Encoder(index, _) => index < ENCODERS
    case Press(_, _) => true
    case Reset => true
  }

  predicate Addressable(events: seq<Stamped>)
  {
    forall i :: 0 <= i < |events| ==> InRange(events[i].1)
  }

  predicate CoversEvents(log: Log)
  {
    forall i :: 0 <= i < |log.events| ==> log.events[i].0 < log.ticks
  }

  /** What a scenario must be to survive its text form. */
  predicate WellFormed(log: Log)
  {
    Sorted(log.events) && Addressable(log.events) && CoversEvents(log)
  }

  lemma ParsedEventInRange(tokens: seq<string>)
    ensures var r := ParseEvent(tokens); r.Ok? ==> InRange(r.value)
  {
  }

  lemma ApplyKeepsOrder(log: Log, tokens: seq<string>)
    requires tokens != [] && Sorted(log.events) && Addressable(log.events)
    ensures var r := ApplyTokens(log, tokens);
            r.Applied? ==> Sorted(r.log.events) && Addressable(r.log.events)
                           && (tokens[0] != "ticks" && CoversEvents(log) ==> CoversEvents(r.log))
  {
    ParsedEventInRange(tokens[1..]);
    match ParseEvent(tokens[1..])
    case Err(_) =>
    case Ok(event) =>
      match ParseInteger(tokens[0], 0, U64_MAX)
      case None =>
      case Some(tick) => InsertSorts(log.events, tick, event);
  }

  /** Whatever text is read, the events that come out are in tick order and in range. */
  lemma {:induction false} ReadingIsOrdered(log: Log, lines: seq<seq<string>>, number: nat)
    requires Sorted(log.events) && Addressable(log.events)
    ensures var r := ReadLines(log, lines, number); r.Read? ==> Sorted(r.log.events) && Addressable(r.log.events)
    decreases |lines|
  {
    if lines != [] {
      if lines[0] == [] {
        ReadingIsOrdered(log, lines[1..], number + 1);
      } else {
        ApplyKeepsOrder(log, lines[0]);
        var r := ApplyTokens(log, lines[0]);
        if r.Applied? {
          ReadingIsOrdered(r.log, lines[1..], number + 1);
        }
      }
    }
  }

  // ----- When what is read covers its events -----

  /** How far an event line reaches: past the tick it is for. */
  function TickEnd(tokens: seq<string>): nat
    requires tokens != []
  {
    match ParseInteger(tokens[0], 0, U64_MAX) case None => 0 case Some(tick) => tick + 1
  }

  /** A `ticks` line sets the length; an event line stretches it. */
  function LineLength(length: nat, tokens: seq<string>): nat
    requires tokens != []
  {
    if tokens[0] != "ticks" then Max(length, TickEnd(tokens))
    else if |tokens| == 2 && ParseInteger(tokens[1], 0, U64_MAX).Some? then ParseInteger(tokens[1], 0, U64_MAX).value
    else length
  }

  function LengthOf(length: nat, lines: seq<seq<string>>): nat
    decreases |lines|
  {
    if lines == [] then length
    else LengthOf(if lines[0] == [] then length else LineLength(length, lines[0]), lines[1..])
  }

  /** The events reach as far as the farthest event line, whatever the `ticks` lines say. */
  function LineEventEnd(end: nat, tokens: seq<string>): nat
    requires tokens != []
  {
    if tokens[0] == "ticks" then end else Max(end, TickEnd(tokens))
  }

  function EventEnd(end: nat, lines: seq<seq<string>>): nat
    decreases |lines|
  {
    if lines == [] then end
    else EventEnd(if lines[0] == [] then end else LineEventEnd(end, lines[0]), lines[1..])
  }

  /** The events reach exactly so far. */
  ghost predicate EndsAt(events: seq<Stamped>, end: nat)
  {
    && (forall i :: 0 <= i < |events| ==> events[i].0 < end)
    && (end == 0 || exists i :: 0 <= i < |events| && events[i].0 == end - 1)
  }

  lemma InsertEnds(events: seq<Stamped>, tick: u64, event: Event, end: nat)
    requires EndsAt(events, end)
    ensures EndsAt(Insert(events, tick, event), Max(end, tick + 1))
  {
    var p, more := Position(events, tick), Insert(events, tick, event);
    assert more[p] == (tick, event);
    forall j | 0 <= j < |more| ensures more[j].0 < Max(end, tick + 1) {
      if j != p {
        assert more[j] == events[if j < p then j else j - 1];
      }
    }
    if end > tick + 1 {
      var i :| 0 <= i < |events| && events[i].0 == end - 1;
      assert more[if i < p then i else i + 1] == events[i];
    }
  }

  lemma LineReaches(log: Log, tokens: seq<string>, end: nat)
    requires tokens != [] && EndsAt(log.events, end)
    ensures var r := ApplyTokens(log, tokens);
            r.Applied? ==>
              r.log.ticks == LineLength(log.ticks, tokens) && EndsAt(r.log.events, LineEventEnd(end, tokens))
  {
    if tokens[0] != "ticks" {
      match ApplyTokens(log, tokens)
      case Applied(_) =>
        var tick := ParseInteger(tokens[0], 0, U64_MAX).value;
        InsertEnds(log.events, tick, ParseEvent(tokens[1..]).value, end);
      case _ =>
    }
  }

  lemma {:induction false} ReadingReaches(log: Log, lines: seq<seq<string>>, number: nat, end: nat)
    requires EndsAt(log.events, end)
    ensures var r := ReadLines(log, lines, number);
            r.Read? ==> r.log.ticks == LengthOf(log.ticks, lines) && EndsAt(r.log.events, EventEnd(end, lines))
    decreases |lines|
  {
    if lines != [] {
      if lines[0] == [] {
        ReadingReaches(log, lines[1..], number + 1, end);
      } else {
        LineReaches(log, lines[0], end);
        var r := ApplyTokens(log, lines[0]);
        if r.Applied? {
          ReadingReaches(r.log, lines[1..], number + 1, LineEventEnd(end, lines[0]));
        }
      }
    }
  }

  /** Every text that parses gives its events in order and in range.  It gives a scenario that
      survives being printed exactly when the length its lines come to is no less than how far
      its event lines reach. */
  lemma ParsedIsWellFormedIff(text: string)
    ensures var r := Parse(text);
            r.Read? ==>
              && Sorted(r.log.events) && Addressable(r.log.events)
              && (WellFormed(r.log) <==> EventEnd(0, TokenLines(text)) <= LengthOf(0, TokenLines(text)))
  {
    ReadingIsOrdered(Log([], 0), TokenLines(text), 0);
    ReadingReaches(Log([], 0), TokenLines(text), 0, 0);
  }

  // ----- The round trip -----

  /** Words made of digits, lower-case letters and signs. */
  predicate CleanChar(c: char) { IsDigit(c) || 'a' <= c <= 'z' || c == '+' || c == '-' }

  predicate Clean(w: string)
  {
    w != "" && forall i :: 0 <= i < |w| ==> CleanChar(w[i])
  }

  lemma CleanIsWord(w: string)
    requires Clean(w)
    ensures IsWord(w) && '#' !in w && '\n' !in w && '\r' !in w
  {
  }

  ghost predicate AllClean(words: seq<string>)
  {
    words != [] && forall i :: 0 <= i < |words| ==> Clean(words[i])
  }

  lemma NumbersAreClean(n: nat, i: int)
    ensures Clean(Decimal(n)) && Clean(Signed(i)) && Clean(ExplicitlySigned(i))
  {
  }

  lemma NamesAreClean()
    ensures Clean("cv") && Clean("patch") && Clean("trigger") && Clean("encoder") && Clean("button") && Clean("reset")
    ensures Clean("left") && Clean("right") && Clean("up") && Clean("down")
    ensures Clean("on") && Clean("off") && Clean("high") && Clean("low") && Clean("ticks")
  {
  }

  lemma WordsAreClean(e: Event)
    requires Printable(e)
    ensures AllClean(Words(e))
  {
    NamesAreClean();
    match e
    case Cv(channel, millivolts) => NumbersAreClean(channel + 1, millivolts);
    case Patch(channel, _) => NumbersAreClean(channel + 1, 0);
    case Trigger(channel, _) => NumbersAreClean(channel + 1, 0);
    case Encoder(index, detents) => NumbersAreClean(index + 1, detents);
    case Press(_, _) =>
    case Reset =>
  }

  /** A joined line is free of comments and line breaks and has nothing to trim, and its
      tokens are the words it was joined from. */
  lemma {:induction false} JoinedLine(words: seq<string>)
    requires AllClean(words)
    ensures var line := Join(words);
            && line != "" && CleanChar(line[0]) && CleanChar(line[|line| - 1])
            && '#' !in line && '\n' !in line && '\r' !in line
            && Tokens(line) == words
  {
    CleanIsWord(words[0]);
    if |words| == 1 {
      OneToken(words[0]);
    } else {
      JoinedLine(words[1..]);
      FirstToken(words[0], Join(words[1..]));
    }
  }

  lemma JoinedLineTokens(words: seq<string>)
    requires AllClean(words)
    ensures LineTokens(Join(words)) == words
  {
    var line := Join(words);
    JoinedLine(words);
    NoHash(line);
    NothingToTrim(line);
  }

  lemma ChannelRoundTrip(channel: usize, count: nat)
    requires channel < U64_MAX && count <= 4
    ensures ParseChannel(Decimal(channel + 1), count) == if channel < count then Ok(channel) else Err(ChannelOutOfRange)
  {
    PlainRoundTrip(channel + 1, 0, U64_MAX);
  }

  /** Each kind of event is parsed by its own rule. */
  lemma Dispatch(x: string, y: string)
    ensures ParseEvent(["cv", x, y]) == ParseCv(x, y)
    ensures ParseEvent(["patch", x, y]) == ParsePatch(x, y)
    ensures ParseEvent(["trigger", x, y]) == ParseTrigger(x, y)
    ensures ParseEvent(["encoder", x, y]) == ParseEncoder(x, y)
    ensures ParseEvent(["button", x, y]) == ParsePress(x, y)
    ensures ParseEvent(["reset"]) == Ok(Reset)
  {
    assert "cv"[0] == 'c' && "patch"[0] == 'p' && "trigger"[0] == 't' && "encoder"[0] == 'e' && "button"[0] == 'b';
    assert "reset"[0] == 'r';
  }

  lemma StatesRoundTrip(b: bool)
    ensures ParseState(if b then "on" else "off") == Ok(b)
    ensures ParseState(if b then "high" else "low") == Ok(b)
    ensures ParseState(if b then "down" else "up") == Ok(b)
  {
    assert "off"[0] == 'o' && "off"[1] == 'f' && "on"[1] == 'n' && "low"[0] == 'l' && "up"[0] == 'u';
    assert "high"[0] == 'h' && "down"[0] == 'd' && "true"[0] == 't' && "1"[0] == '1';
  }

  lemma ButtonsRoundTrip(b: Button)
    ensures ParseButton(ButtonName(b)) == Ok(b)
  {
    assert "left"[0] == 'l' && "right"[0] == 'r' && "up"[0] == 'u' && "down"[0] == 'd';
  }

  /** What reading an event's words back should give. */
  function Addressed(e: Event): Result<Event> { if InRange(e) then Ok(e) else Err(ChannelOutOfRange) }

  lemma CvRoundTrip(channel: usize, millivolts: MilliVolts)
    requires channel < U64_MAX
    ensures ParseCv(Decimal(channel + 1), Signed(millivolts)) == Addressed(Cv(channel, millivolts))
  {
    ChannelRoundTrip(channel, CV_CHANNELS);
    SignedRoundTrip(millivolts, -0x8000_0000, I32_MAX);
  }

  lemma EncoderRoundTrip(index: usize, detents: i8)
    requires index < U64_MAX
    ensures ParseEncoder(Decimal(index + 1), ExplicitlySigned(detents)) == Addressed(Encoder(index, detents))
  {
    ChannelRoundTrip(index, ENCODERS);
    SignedRoundTrip(detents, -128, 127);
  }

  lemma SwitchRoundTrip(channel: usize, on: bool)
    requires channel < U64_MAX
    ensures ParsePatch(Decimal(channel + 1), if on then "on" else "off") == Addressed(Patch(channel, on))
    ensures ParseTrigger(Decimal(channel + 1), if on then "high" else "low") == Addressed(Trigger(channel, on))
  {
    ChannelRoundTrip(channel, CV_CHANNELS);
    StatesRoundTrip(on);
  }

  lemma PressRoundTrip(button: Button, down: bool)
    ensures ParsePress(ButtonName(button), if down then "down" else "up") == Ok(Press(button, down))
  {
    ButtonsRoundTrip(button);
    StatesRoundTrip(down);
  }

  /** An event's words parse back to it, or are refused when its channel does not exist. */
  lemma EventRoundTrip(e: Event)
    requires Printable(e)
    ensures ParseEvent(Words(e)) == Addressed(e)
  {
    match e
    case Cv(channel, millivolts) =>
      Dispatch(Words(e)[1], Words(e)[2]);
      CvRoundTrip(channel, millivolts);
    case Patch(channel, patched) =>
      Dispatch(Words(e)[1], Words(e)[2]);
      SwitchRoundTrip(channel, patched);
    case Trigger(channel, high) =>
      Dispatch(Words(e)[1], Words(e)[2]);
      SwitchRoundTrip(channel, high);
    case Encoder(index, detents) =>
      Dispatch(Words(e)[1], Words(e)[2]);
      EncoderRoundTrip(index, detents);
    case Press(button, down) =>
      Dispatch(Words(e)[1], Words(e)[2]);
      PressRoundTrip(button, down);
    case Reset =>
      Dispatch("", "");
  }

  // What the printed lines are made of.

  lemma FirstLineTokens(line: string, rest: string)
    requires '\n' !in line && '\r' !in line
    ensures TokenLines(line + "\n" + rest) == [LineTokens(line)] + TokenLines(rest)
  {
    FirstLine(line, rest);
    var lines := [line] + Lines(rest);
    assert lines[0] == line && lines[1..] == Lines(rest);
  }

  lemma JoinedFirst(words: seq<string>, rest: string)
    requires AllClean(words)
    ensures TokenLines(Join(words) + "\n" + rest) == [words] + TokenLines(rest)
  {
    JoinedLine(words);
    JoinedLineTokens(words);
    FirstLineTokens(Join(words), rest);
  }

  function EventTokens(e: Stamped): seq<string>
    requires Printable(e.1)
  {
    [Decimal(e.0)] + Words(e.1)
  }

  lemma EventLineTokens(e: Stamped, rest: string)
    requires Printable(e.1)
    ensures TokenLines(EventLine(e) + "\n" + rest) == [EventTokens(e)] + TokenLines(rest)
  {
    var words := EventTokens(e);
    NumbersAreClean(e.0, 0);
    WordsAreClean(e.1);
    assert words[1..] == Words(e.1);
    JoinedFirst(words, rest);
    assert EventLine(e) == Join(words);
  }

  lemma TicksLineTokens(ticks: u64, rest: string)
    ensures TokenLines(TicksLine(ticks) + "\n" + rest) == [["ticks", Decimal(ticks)]] + TokenLines(rest)
  {
    var words := ["ticks", Decimal(ticks)];
    NumbersAreClean(ticks, 0);
    NamesAreClean();
    JoinedFirst(words, rest);
  }

  lemma HeaderLineTokens(rest: string)
    ensures TokenLines(HEADER + "\n" + rest) == [[]] + TokenLines(rest)
  {
    assert LineTokens(HEADER) == [];
    FirstLineTokens(HEADER, rest);
  }

  function AllEventTokens(events: seq<Stamped>): seq<seq<string>>
    requires forall i :: 0 <= i < |events| ==> Printable(events[i].1)
  {
    if events == [] then [] else [EventTokens(events[0])] + AllEventTokens(events[1..])
  }

  lemma {:induction false} EventLinesTokens(events: seq<Stamped>)
    requires forall i :: 0 <= i < |events| ==> Printable(events[i].1)
    ensures TokenLines(EventLines(events)) == AllEventTokens(events)
  {
    if events != [] {
      EventLinesTokens(events[1..]);
      EventLineTokens(events[0], EventLines(events[1..]));
    }
  }

  lemma PrintedTokens(log: Log)
    requires forall i :: 0 <= i < |log.events| ==> Printable(log.events[i].1)
    ensures TokenLines(Print(log)) == [[]] + ([["ticks", Decimal(log.ticks)]] + AllEventTokens(log.events))
  {
    var events := EventLines(log.events);
    HeaderLineTokens(TicksLine(log.ticks) + "\n" + events);
    TicksLineTokens(log.ticks, events);
    EventLinesTokens(log.events);
  }

  // What those tokens do.

  /** Reading one printed event pushes it. */
  function Reapplied(log: Log, e: Stamped): LineResult
  {
    if !InRange(e.1) then Wrong(ChannelOutOfRange)
    else if e.0 == U64_MAX then Panics
    else Applied(Pushed(log, e.0, e.1))
  }

  lemma EventTokensApply(log: Log, e: Stamped)
    requires Printable(e.1)
    ensures ApplyTokens(log, EventTokens(e)) == Reapplied(log, e)
  {
    PlainRoundTrip(e.0, 0, U64_MAX);
    EventRoundTrip(e.1);
    assert EventTokens(e)[1..] == Words(e.1);
    assert IsDigit(Decimal(e.0)[0]);
  }

  lemma TicksTokensApply(log: Log, ticks: u64)
    ensures ApplyTokens(log, ["ticks", Decimal(ticks)]) == Applied(log.(ticks := ticks))
  {
    PlainRoundTrip(ticks, 0, U64_MAX);
  }

  /** What reading a list of printed events comes to. */
  function Reread(log: Log, events: seq<Stamped>, number: nat): Reading
    decreases |events|
  {
    if events == [] then Read(log)
    else match Reapplied(log, events[0])
      case Applied(next) => Reread(next, events[1..], number + 1)
      case Wrong(error) => Failed(number + 1, error)
      case Panics => Panicked
  }

  lemma ReadFirst(log: Log, tokens: seq<string>, rest: seq<seq<string>>, number: nat)
    ensures ReadLines(log, [tokens] + rest, number) ==
              match (if tokens == [] then Applied(log) else ApplyTokens(log, tokens))
              case Applied(next) => ReadLines(next, rest, number + 1)
              case Wrong(error) => Failed(number + 1, error)
              case Panics => Panicked
  {
    assert ([tokens] + rest)[1..] == rest;
  }

  lemma {:induction false} EventTokensReread(log: Log, events: seq<Stamped>, number: nat)
    requires forall i :: 0 <= i < |events| ==> Printable(events[i].1)
    ensures ReadLines(log, AllEventTokens(events), number) == Reread(log, events, number)
    decreases |events|
  {
    if events != [] {
      EventTokensApply(log, events[0]);
      ReadFirst(log, EventTokens(events[0]), AllEventTokens(events[1..]), number);
      if Reapplied(log, events[0]).Applied? {
        EventTokensReread(Reapplied(log, events[0]).log, events[1..], number + 1);
      }
    }
  }

  lemma PrintedTextRereads(log: Log)
    requires forall i :: 0 <= i < |log.events| ==> Printable(log.events[i].1)
    ensures Parse(Print(log)) == Reread(Log([], log.ticks), log.events, 2)
  {
    PrintedTokens(log);
    var ticks, events := ["ticks", Decimal(log.ticks)], AllEventTokens(log.events);
    ReadFirst(Log([], 0), [], [ticks] + events, 0);
    ReadFirst(Log([], 0), ticks, events, 1);
    TicksTokensApply(Log([], 0), log.ticks);
    EventTokensReread(Log([], log.ticks), log.events, 2);
  }

  /** Appending in order, to a scenario that already covers everything, changes nothing but
      the list. */
  lemma {:induction false} RereadInOrder(log: Log, events: seq<Stamped>, number: nat)
    requires WellFormed(Log(log.events + events, log.ticks))
    ensures Reread(log, events, number) == Read(Log(log.events + events, log.ticks))
    decreases |events|
  {
    var whole := log.events + events;
    if events == [] {
      assert whole == log.events;
    } else {
      var (tick, event) := events[0];
      assert whole[|log.events|] == events[0];
      assert forall i :: 0 <= i < |log.events| ==> whole[i] == log.events[i];
      PositionIsUnique(log.events, tick, |log.events|);
      assert Insert(log.events, tick, event) == log.events + [events[0]];
      assert log.events + [events[0]] + events[1..] == whole;
      RereadInOrder(Log(log.events + [events[0]], log.ticks), events[1..], number + 1);
    }
  }

  /** Whatever was printed, what is read back is well formed. */
  lemma {:induction false} RereadIsWellFormed(log: Log, events: seq<Stamped>, number: nat)
    requires WellFormed(log)
    ensures var r := Reread(log, events, number); r.Read? ==> WellFormed(r.log)
    decreases |events|
  {
    if events != [] && Reapplied(log, events[0]).Applied? {
      InsertSorts(log.events, events[0].0, events[0].1);
      RereadIsWellFormed(Reapplied(log, events[0]).log, events[1..], number + 1);
    }
  }

  /** Printing and parsing gives a scenario back exactly when its events are in tick order
      and address something that exists, and its length covers them all. */
  lemma RoundTrip(log: Log)
    requires forall i :: 0 <= i < |log.events| ==> Printable(log.events[i].1)
    ensures Parse(Print(log)) == Read(log) <==> WellFormed(log)
  {
    PrintedTextRereads(log);
    if WellFormed(log) {
      assert [] + log.events == log.events;
      RereadInOrder(Log([], log.ticks), log.events, 2);
    }
    RereadIsWellFormed(Log([], log.ticks), log.events, 2);
  }

  /** A `ticks` line after an event can lower the count below it, so not everything that can
      be read is well formed. */
  lemma TicksLineCanLower(e: Stamped, ticks: u64)
    requires InRange(e.1) && ticks <= e.0 < U64_MAX
    ensures var low := Log([e], ticks);
            Parse(EventLine(e) + "\n" + (TicksLine(ticks) + "\n" + "")) == Read(low) && !WellFormed(low)
  {
    var start, after := Log([], 0), Log([e], e.0 + 1);
    var tokens := ["ticks", Decimal(ticks)];
    EventLineTokens(e, TicksLine(ticks) + "\n" + "");
    TicksLineTokens(ticks, "");
    ReadFirst(start, EventTokens(e), [tokens] + [], 0);
    EventTokensApply(start, e);
    assert Insert([], e.0, e.1) == [e];
    ReadFirst(after, tokens, [], 1);
    TicksTokensApply(after, ticks);
    assert Log([e], ticks).events[0].0 >= ticks;
  }
}
