/** The CV output driver (crates/oc-drivers/src/dac8565.rs) against a model of the chip,
    on a bus that may fail at any moment and in the middle of a word. */
module Dac8565 {
  import opened Ints
  import opened Platform
  import opened Calibration

  datatype UpdateMode = PerChannel | Simultaneous

  datatype DacError = BusError | ChipSelectError

  // Command bits of a word: what happens to the registers, and the channel's bit position.
  const BUFFER: u8 := 0x00
  const WRITE_AND_UPDATE_ONE: u8 := 0x10
  const WRITE_AND_UPDATE_ALL: u8 := 0x20
  const WORD_BITS := 24

  type Codes = s: seq<u16> | |s| == CV_CHANNELS witness [0, 0, 0, 0]
  type Calibrations = s: seq<OutputCalibration> | |s| == CV_CHANNELS witness
    [OutputCalibration(0, 0), OutputCalibration(0, 0), OutputCalibration(0, 0), OutputCalibration(0, 0)]

  // ----- The chip -----

  /** The chip's input registers and the output registers they are loaded into. */
  datatype Chip = Chip(inputs: Codes, outputs: Codes)

  /** Acting on a word: `[0 0 LD1 LD0 0 A1 A0 PD]`, and the code in two bytes. */
  function Latch(chip: Chip, word: nat): Chip
  {
    var command, code := word / 0x1_0000, word % 0x1_0000;
    var channel, load := command / 2 % 4, command / 16 % 4;
    var inputs := chip.inputs[channel := code];
    if load == 1 then Chip(inputs, chip.outputs[channel := code])
    else if load == 2 then Chip(inputs, inputs)
    else Chip(inputs, chip.outputs)
  }

  function ShiftLeft(x: nat, n: nat): nat { if n == 0 then x else 2 * ShiftLeft(x, n - 1) }

  function ShiftRight(x: nat, n: nat): nat { if n == 0 then x else ShiftRight(x, n - 1) / 2 }

  type Word = w: seq<u8> | |w| == 3 witness [0, 0, 0]

  function Number(w: Word): nat
  {
    var high: int, middle: int, low: int := w[0], w[1], w[2];
    0x1_0000 * high + 0x100 * middle + low
  }

  /** The first bits of a word, the most significant first, as a number. */
  function FirstBits(w: Word, n: nat): nat
    requires n <= WORD_BITS
  {
    ShiftRight(Number(w), WORD_BITS - n)
  }

  /** Bits clocked in since the chip was selected. */
  datatype Shift = Shift(count: nat, bits: nat)

  const EMPTY := Shift(0, 0)

  function Shifted(s: Shift, w: Word, n: nat): Shift
    requires n <= WORD_BITS
  {
    Shift(s.count + n, ShiftLeft(s.bits, n) + FirstBits(w, n))
  }

  /** The first `n` bits of a word, clocked in behind others.  The chip acts on the
      twenty-fourth bit and ignores what follows until it is selected afresh. */
  function Clocked(chip: Chip, s: Shift, w: Word, n: nat): Chip
    requires n <= WORD_BITS
  {
    if s.count < WORD_BITS <= s.count + n then
      Latch(chip, ShiftLeft(s.bits, WORD_BITS - s.count) + FirstBits(w, WORD_BITS - s.count))
    else chip
  }

  /** The word the driver sends for a channel. */
  function WordFor(mode: u8, channel: nat, code: u16): Word
    requires channel < CV_CHANNELS && mode <= WRITE_AND_UPDATE_ALL
  {
    [mode + 2 * channel, code / 256, code % 256]
  }

  lemma {:induction false} NothingStale(n: nat)
    ensures ShiftLeft(0, n) == 0
  {
    if n > 0 {
      NothingStale(n - 1);
    }
  }

  /** A word clocked into a fresh chip is acted on when it is whole, and not before. */
  lemma WordArrives(chip: Chip, w: Word)
    ensures forall n: nat :: n <= WORD_BITS ==>
              Clocked(chip, EMPTY, w, n) == if n == WORD_BITS then Latch(chip, Number(w)) else chip
  {
    NothingStale(WORD_BITS);
  }

  /** The chip decodes from it exactly what the driver packed into it. */
  lemma WordDecodes(chip: Chip, mode: u8, channel: nat, code: u16)
    requires channel < CV_CHANNELS && mode in {BUFFER, WRITE_AND_UPDATE_ONE, WRITE_AND_UPDATE_ALL}
    ensures var inputs := chip.inputs[channel := code];
            Latch(chip, Number(WordFor(mode, channel, code))) ==
              if mode == WRITE_AND_UPDATE_ONE then Chip(inputs, chip.outputs[channel := code])
              else Chip(inputs, if mode == WRITE_AND_UPDATE_ALL then inputs else chip.outputs)
  {
    assert Number(WordFor(mode, channel, code)) == 0x1_0000 * (mode + 2 * channel) + code;
  }

  // ----- The bus with the chip on it -----

  /** Operation `n` on the bus or the chip select fails when `faults(n)`; a pin may then have
      moved all the same, and a word may have gone out up to any bit, as `reach(n)` says. */
  datatype Wiring = Wiring(faults: nat -> bool, reach: nat -> nat)

  /** The chip, the level of the chip select, what was clocked in since it fell, whether it was
      pulled low and not yet asked to rise, and whether it rose when it was last asked to. */
  datatype Line = Line(clock: nat, chip: Chip, selected: bool, shift: Shift, asserted: bool, released: bool) {
    /** What the chip already holds of the word that comes next. */
    function Stale(): Shift { if selected then shift else EMPTY }

    /** Only a release that failed leaves anything there. */
    predicate Fair() { Stale() != EMPTY ==> !released }
  }

  function SelectNext(w: Wiring, l: Line): (Line, bool)
  {
    var ok := !w.faults(l.clock);
    var falls := (ok || w.reach(l.clock) > 0) && !l.selected;
    (l.(clock := l.clock + 1, asserted := l.asserted || ok, selected := l.selected || falls,
        shift := if falls then EMPTY else l.shift), ok)
  }

  function ReleaseNext(w: Wiring, l: Line): (Line, bool)
  {
    var ok := !w.faults(l.clock);
    (l.(clock := l.clock + 1, asserted := false, selected := l.selected && !ok && w.reach(l.clock) == 0, released := ok), ok)
  }

  /** One word, and the wait until it has left the bus. */
  function TransferNext(w: Wiring, l: Line, word: Word): (Line, bool)
  {
    var ok := !w.faults(l.clock) && !w.faults(l.clock + 1);
    var n := if ok then WORD_BITS else Min(w.reach(l.clock), WORD_BITS);
    (if l.selected then l.(clock := l.clock + 2, chip := Clocked(l.chip, l.shift, word, n), shift := Shifted(l.shift, word, n))
     else l.(clock := l.clock + 2), ok)
  }

  class Bus {
    const wiring: Wiring
    var clock: nat
    var chip: Chip
    var selected: bool
    var shift: Shift
    ghost var asserted: bool
    ghost var released: bool

    ghost function State(): Line
      reads this
    {
      Line(clock, chip, selected, shift, asserted, released)
    }

    constructor (wiring: Wiring, chip: Chip)
      ensures this.wiring == wiring && State() == Line(0, chip, false, EMPTY, false, true)
    {
      this.wiring, this.chip := wiring, chip;
      clock, selected, shift, asserted, released := 0, false, EMPTY, false, true;
    }

    method Select() returns (ok: bool)
      modifies this
      ensures (State(), ok) == SelectNext(wiring, old(State()))
    {
      ok := !wiring.faults(clock);
      if (ok || wiring.reach(clock) > 0) && !selected {
        selected, shift := true, EMPTY;
      }
      clock, asserted := clock + 1, asserted || ok;
    }

    method Release() returns (ok: bool)
      modifies this
      ensures (State(), ok) == ReleaseNext(wiring, old(State()))
    {
      ok := !wiring.faults(clock);
      if ok || wiring.reach(clock) > 0 {
        selected := false;
      }
      clock, asserted, released := clock + 1, false, ok;
    }

    method Write(word: Word) returns (ok: bool)
      modifies this
      ensures (State(), ok) == TransferNext(wiring, old(State()), word)
    {
      ok := !wiring.faults(clock) && !wiring.faults(clock + 1);
      var n := if ok then WORD_BITS else Min(wiring.reach(clock), WORD_BITS);
      if selected {
        chip := Clocked(chip, shift, word, n);
        shift := Shifted(shift, word, n);
      }
      clock := clock + 2;
    }
  }

  // ----- One word -----

  function WordNext(w: Wiring, l: Line, word: Word): (Line, Option<DacError>)
  {
    var (low, selected) := SelectNext(w, l);
    if !selected then (low, Some(ChipSelectError))
    else
      var (sent, transferred) := TransferNext(w, low, word);
      var (high, released) := ReleaseNext(w, sent);
      (high, if !transferred then Some(BusError) else if !released then Some(ChipSelectError) else None)
  }

  /** Whatever fails, the chip select has been asked to rise, and only a failed release leaves a
      stale word.  Success has clocked the whole word in behind the stale one, and left none;
      into a fresh chip a word arrives whole or, on an error, perhaps not at all. */
  lemma WordOutcome(w: Wiring, l: Line, word: Word)
    requires !l.asserted && l.Fair()
    ensures var (r, error) := WordNext(w, l, word);
            && !r.asserted && r.Fair()
            && (error == None ==> r.Stale() == EMPTY && r.chip == Clocked(l.chip, l.Stale(), word, WORD_BITS))
            && (l.Stale() == EMPTY ==> r.chip == Latch(l.chip, Number(word)) || (error.Some? && r.chip == l.chip))
  {
    WordArrives(l.chip, word);
  }

  /** Which failure is reported: the first, a transfer's before the release's. */
  lemma FailuresAreNamed(w: Wiring, l: Line, word: Word)
    ensures WordNext(w, l, word).1
         == if w.faults(l.clock) then Some(ChipSelectError)
            else if w.faults(l.clock + 1) || w.faults(l.clock + 2) then Some(BusError)
            else if w.faults(l.clock + 3) then Some(ChipSelectError)
            else None
  {
  }

  // ----- A commit -----

  /** Where a commit got to: the line, what stopped it, and how many words went through. */
  datatype Sent = Sent(line: Line, error: Option<DacError>, words: nat)

  /** A commit from word `index` on. */
  function CommitFrom(w: Wiring, l: Line, mode: UpdateMode, target: Codes, index: nat): Sent
    requires index <= CV_CHANNELS
    decreases CV_CHANNELS - index, 0
  {
    if index == CV_CHANNELS then Sent(l, None, index)
    else
      var (next, error) := WordNext(w, l, WordFor(ModeOf(mode, index), index, target[index]));
      CommitAfter(w, next, error, mode, target, index)
  }

  /** What becomes of it after word `index`. */
  function CommitAfter(w: Wiring, l: Line, error: Option<DacError>, mode: UpdateMode, target: Codes, index: nat): Sent
    requires index < CV_CHANNELS
    decreases CV_CHANNELS - 1 - index, 1
  {
    if error.Some? then Sent(l, error, index) else CommitFrom(w, l, mode, target, index + 1)
  }

  /** The command bits of a commit's words. */
  function ModeOf(mode: UpdateMode, index: nat): (m: u8)
    ensures m in {BUFFER, WRITE_AND_UPDATE_ONE, WRITE_AND_UPDATE_ALL}
  {
    match mode
    case PerChannel => WRITE_AND_UPDATE_ONE
    case Simultaneous => if index + 1 == CV_CHANNELS then WRITE_AND_UPDATE_ALL else BUFFER
  }

  /** The chip when word `index` of a commit has reached it whole. */
  function SentNext(mode: UpdateMode, chip: Chip, target: Codes, index: nat): Chip
    requires index < CV_CHANNELS
  {
    var inputs := chip.inputs[index := target[index]];
    if mode == PerChannel then Chip(inputs, chip.outputs[index := target[index]])
    else Chip(inputs, if index + 1 == CV_CHANNELS then inputs else chip.outputs)
  }

  /** ... and all the words from one index to before another. */
  function SentAll(mode: UpdateMode, chip: Chip, target: Codes, from: nat, to: nat): Chip
    requires from <= to <= CV_CHANNELS
    decreases CV_CHANNELS - from
  {
    if from == to then chip else SentAll(mode, SentNext(mode, chip, target, from), target, from + 1, to)
  }

  /** Word by word, the inputs take the new codes; the outputs follow at once in one mode,
      and only with the last word in the other. */
  lemma {:induction false} SentShape(mode: UpdateMode, start: Chip, target: Codes, from: nat, to: nat)
    requires from <= to <= CV_CHANNELS
    ensures var chip := SentAll(mode, start, target, from, to);
            && (forall i :: 0 <= i < CV_CHANNELS ==> chip.inputs[i] == (if from <= i < to then target[i] else start.inputs[i]))
            && (mode == PerChannel ==>
                  forall i :: 0 <= i < CV_CHANNELS ==> chip.outputs[i] == (if from <= i < to then target[i] else start.outputs[i]))
            && (mode == Simultaneous ==> chip.outputs == (if from < to == CV_CHANNELS then chip.inputs else start.outputs))
    decreases CV_CHANNELS - from
  {
    if from < to {
      SentShape(mode, SentNext(mode, start, target, from), target, from + 1, to);
    }
  }

  lemma WordSent(w: Wiring, l: Line, mode: UpdateMode, target: Codes, index: nat)
    requires !l.asserted && l.Fair() && l.Stale() == EMPTY && index < CV_CHANNELS
    ensures var (r, error) := WordNext(w, l, WordFor(ModeOf(mode, index), index, target[index]));
            && !r.asserted && r.Fair()
            && (error == None ==> r.Stale() == EMPTY && r.chip == SentNext(mode, l.chip, target, index))
            && (r.chip == SentNext(mode, l.chip, target, index) || (error.Some? && r.chip == l.chip))
  {
    var word := WordFor(ModeOf(mode, index), index, target[index]);
    WordOutcome(w, l, word);
    WordArrives(l.chip, word);
    WordDecodes(l.chip, ModeOf(mode, index), index, target[index]);
  }

  /** From a fresh chip on, exactly the words counted have been acted on, or one more when that
      one ended in an error. */
  ghost predicate WentFresh(mode: UpdateMode, start: Chip, target: Codes, index: nat, r: Sent)
  {
    && !r.line.asserted && r.line.Fair() && index <= r.words <= CV_CHANNELS
    && (r.error == None <==> r.words == CV_CHANNELS)
    && (r.error == None ==> r.line.Stale() == EMPTY)
    && (|| r.line.chip == SentAll(mode, start, target, index, r.words)
        || (r.error.Some? && r.line.chip == SentAll(mode, start, target, index, r.words + 1)))
  }

  lemma OneMoreFresh(mode: UpdateMode, start: Chip, target: Codes, index: nat, r: Sent)
    requires index < CV_CHANNELS && WentFresh(mode, SentNext(mode, start, target, index), target, index + 1, r)
    ensures WentFresh(mode, start, target, index, r)
  {
  }

  lemma {:induction false} FreshCommit(w: Wiring, l: Line, mode: UpdateMode, target: Codes, index: nat)
    requires !l.asserted && l.Fair() && l.Stale() == EMPTY && index <= CV_CHANNELS
    ensures WentFresh(mode, l.chip, target, index, CommitFrom(w, l, mode, target, index))
    decreases CV_CHANNELS - index
  {
    if index < CV_CHANNELS {
      WordSent(w, l, mode, target, index);
      var (next, error) := WordNext(w, l, WordFor(ModeOf(mode, index), index, target[index]));
      if error == None {
        FreshCommit(w, next, mode, target, index + 1);
        OneMoreFresh(mode, l.chip, target, index, CommitFrom(w, next, mode, target, index + 1));
      } else {
        OneSent(mode, l.chip, target, index);
      }
    }
  }

  lemma OneSent(mode: UpdateMode, chip: Chip, target: Codes, index: nat)
    requires index < CV_CHANNELS
    ensures SentAll(mode, chip, target, index, index) == chip
    ensures SentAll(mode, chip, target, index, index + 1) == SentNext(mode, chip, target, index)
  {
  }

  /** The chip after the first word of a commit, which may have run into a stale one. */
  function AfterFirst(mode: UpdateMode, l: Line, target: Codes): Chip
  {
    Clocked(l.chip, l.Stale(), WordFor(ModeOf(mode, 0), 0, target[0]), WORD_BITS)
  }

  /** The first word left its channel right: in the register that decides the first output once
      the whole commit is through. */
  predicate FirstTook(mode: UpdateMode, l: Line, target: Codes)
  {
    FirstRegister(mode, AfterFirst(mode, l, target)) == target[0]
  }

  /** A chip that a commit into a fresh one has got to, when `words` words went through.  In
      one mode those outputs are new, the next may be, and the others are old; in the other
      mode nothing moves before the last word, and then everything. */
  ghost predicate OnTheWay(mode: UpdateMode, start: Chip, target: Codes, chip: Chip, words: nat)
  {
    match mode
    case PerChannel =>
      forall i :: 0 <= i < CV_CHANNELS ==>
        && (i < words ==> chip.outputs[i] == target[i])
        && (i == words ==> chip.outputs[i] == start.outputs[i] || chip.outputs[i] == target[i])
        && (i > words ==> chip.outputs[i] == start.outputs[i])
    case Simultaneous =>
      chip.outputs == start.outputs || (words + 1 >= CV_CHANNELS && chip.outputs == target)
  }

  lemma PartIsOnTheWay(mode: UpdateMode, start: Chip, target: Codes, words: nat)
    requires words <= CV_CHANNELS
    ensures OnTheWay(mode, start, target, SentAll(mode, start, target, 0, words), words)
    ensures words < CV_CHANNELS ==> OnTheWay(mode, start, target, SentAll(mode, start, target, 0, words + 1), words)
  {
    SentShape(mode, start, target, 0, words);
    if words < CV_CHANNELS {
      SentShape(mode, start, target, 0, words + 1);
    }
  }

  /** A commit into a fresh chip, wherever it stopped. */
  lemma FreshCommitOutcome(w: Wiring, l: Line, mode: UpdateMode, target: Codes)
    requires !l.asserted && l.Fair() && l.Stale() == EMPTY
    ensures var r := CommitFrom(w, l, mode, target, 0);
            && OnTheWay(mode, l.chip, target, r.line.chip, r.words)
            && (r.error == None ==> r.line.chip.outputs == target)
            && (l.chip.outputs == target ==> r.line.chip.outputs == target)
  {
    var r := CommitFrom(w, l, mode, target, 0);
    FreshCommit(w, l, mode, target, 0);
    PartIsOnTheWay(mode, l.chip, target, r.words);
    if r.error == None {
      SentShape(mode, l.chip, target, 0, CV_CHANNELS);
    }
  }

  /** The register that decides the first output once the whole commit is through. */
  function FirstRegister(mode: UpdateMode, chip: Chip): u16
  {
    if mode == PerChannel then chip.outputs[0] else chip.inputs[0]
  }

  lemma RestOutcome(w: Wiring, l: Line, mode: UpdateMode, target: Codes)
    requires !l.asserted && l.Fair() && l.Stale() == EMPTY
    ensures var r := CommitFrom(w, l, mode, target, 1);
            && !r.line.asserted && r.line.Fair()
            && (r.error == None ==>
                  r.line.Stale() == EMPTY && (r.line.chip.outputs == target <==> FirstRegister(mode, l.chip) == target[0]))
  {
    FreshCommit(w, l, mode, target, 1);
    SentShape(mode, l.chip, target, 1, CV_CHANNELS);
  }

  /** A commit that went through, whatever was in the chip before: only the first word can have
      run into anything, so the outputs are right exactly when that one left its channel right,
      and nothing stale is left. */
  lemma CommitOutcome(w: Wiring, l: Line, mode: UpdateMode, target: Codes)
    requires !l.asserted && l.Fair()
    ensures var r := CommitFrom(w, l, mode, target, 0);
            && !r.line.asserted && r.line.Fair()
            && (r.error == None ==>
                  r.line.Stale() == EMPTY && (r.line.chip.outputs == target <==> FirstTook(mode, l, target)))
  {
    var word := WordFor(ModeOf(mode, 0), 0, target[0]);
    WordOutcome(w, l, word);
    var (next, error) := WordNext(w, l, word);
    if error == None {
      RestOutcome(w, next, mode, target);
    }
  }

  /** Both update modes leave the outputs at the same codes. */
  lemma ModesAgree(start: Chip, target: Codes)
    ensures SentAll(PerChannel, start, target, 0, CV_CHANNELS).outputs == target
    ensures SentAll(Simultaneous, start, target, 0, CV_CHANNELS).outputs == target
  {
    SentShape(PerChannel, start, target, 0, CV_CHANNELS);
    SentShape(Simultaneous, start, target, 0, CV_CHANNELS);
  }

  // ----- The driver -----

  function Targets(calibration: Calibrations, staged: Levels): Codes
  {
    seq(CV_CHANNELS, i requires 0 <= i < CV_CHANNELS => calibration[i].ToCode(staged[i]))
  }

  /** The driver, its line, and two facts of its past: the line as the commit that last went
      through found it, and whether a commit has failed since on a clear flag, which only a
      caller that commits without need can bring about. */
  datatype Driver = Driver(
    line: Line, calibration: Calibrations, mode: UpdateMode, staged: Levels, dirty: bool, lastError: Option<DacError>,
    found: Line, disturbed: bool)
  {
    /** The codes the staged levels stand for. */
    function Target(): Codes { Targets(calibration, staged) }

    predicate Shows() { line.chip.outputs == Target() }

    /** What a clear flag means, whatever has failed before: the outputs are at their levels
        exactly when the first word of the commit that cleared it left its channel right. */
    predicate Accounted()
    {
      && !line.asserted && line.Fair()
      && (!dirty && !disturbed ==> (Shows() <==> FirstTook(mode, found, Target())))
    }
  }

  function NewDriver(line: Line, calibration: Calibrations): Driver
  {
    Driver(line, calibration, PerChannel, NO_LEVELS, true, None, line, false)
  }

  function StagedNext(d: Driver, channel: nat, value: MilliVolts): Driver
    requires channel < CV_CHANNELS
  {
    if d.staged[channel] == value then d else d.(staged := d.staged[channel := value], dirty := true)
  }

  /** What a commit that got this far makes of the driver. */
  function Concluded(d: Driver, sent: Sent): Driver
  {
    if sent.error == None then d.(line := sent.line, dirty := false, found := d.line, disturbed := false)
    else d.(line := sent.line, disturbed := d.disturbed || !d.dirty)
  }

  function CommitNext(w: Wiring, d: Driver): (Driver, Option<DacError>)
  {
    var sent := CommitFrom(w, d.line, d.mode, d.Target(), 0);
    (Concluded(d, sent), sent.error)
  }

  function FlushNext(w: Wiring, d: Driver): Driver
  {
    if !d.dirty then d
    else
      var (next, error) := CommitNext(w, d);
      next.(lastError := error)
  }

  /** A commit keeps the account, and from a fresh chip it never spoils outputs that are right. */
  lemma CommitKeepsAccount(w: Wiring, d: Driver)
    requires d.Accounted()
    ensures var (next, error) := CommitNext(w, d);
            && next.Accounted()
            && (error == None ==> !next.dirty && next.line.Stale() == EMPTY)
            && (d.line.Stale() == EMPTY ==>
                  && (error == None || d.Shows() ==> next.Shows())
                  && OnTheWay(d.mode, d.line.chip, d.Target(), next.line.chip,
                              CommitFrom(w, d.line, d.mode, d.Target(), 0).words))
  {
    CommitOutcome(w, d.line, d.mode, d.Target());
    if d.line.Stale() == EMPTY {
      FreshCommitOutcome(w, d.line, d.mode, d.Target());
    }
  }

  // ----- Whole runs -----

  datatype Op =
    | Stage(channel: nat, value: MilliVolts) | Recalibrate(channel: nat, replacement: OutputCalibration)
    | Switch(mode: UpdateMode) | Commit | Flush

  /** A channel that does not exist cannot be named in the source. */
  function Operate(w: Wiring, d: Driver, op: Op): Driver
  {
    match op
    case Stage(channel, value) => if channel < CV_CHANNELS then StagedNext(d, channel, value) else d
    case Recalibrate(channel, replacement) =>
      if channel < CV_CHANNELS then d.(calibration := d.calibration[channel := replacement], dirty := true) else d
    case Switch(mode) => d.(mode := mode, dirty := true)
    case Commit => CommitNext(w, d).0
    case Flush => FlushNext(w, d)
  }

  function Run(w: Wiring, d: Driver, ops: seq<Op>): Driver
  {
    if ops == [] then d else Operate(w, Run(w, d, ops[..|ops| - 1]), ops[|ops| - 1])
  }

  lemma OperateKeepsAccount(w: Wiring, d: Driver, op: Op)
    requires d.Accounted()
    ensures Operate(w, d, op).Accounted()
  {
    CommitKeepsAccount(w, d);
  }

  /** The account is kept over any run of the driver and any pattern of failures. */
  lemma {:induction false} RunIsAccounted(w: Wiring, d: Driver, ops: seq<Op>)
    requires d.Accounted()
    ensures Run(w, d, ops).Accounted()
  {
    if ops != [] {
      RunIsAccounted(w, d, ops[..|ops| - 1]);
      OperateKeepsAccount(w, Run(w, d, ops[..|ops| - 1]), ops[|ops| - 1]);
    }
  }

  /** Nobody commits on a clear flag; a flush never does. */
  predicate CommitsWhenDirty(w: Wiring, d: Driver, ops: seq<Op>)
  {
    ops == []
    || (CommitsWhenDirty(w, d, ops[..|ops| - 1]) && (ops[|ops| - 1] == Commit ==> Run(w, d, ops[..|ops| - 1]).dirty))
  }

  lemma {:induction false} NothingDisturbed(w: Wiring, d: Driver, ops: seq<Op>)
    requires !d.disturbed && CommitsWhenDirty(w, d, ops)
    ensures !Run(w, d, ops).disturbed
  {
    if ops != [] {
      NothingDisturbed(w, d, ops[..|ops| - 1]);
    }
  }

  /** So whatever is staged, recalibrated, switched, committed and flushed, and whatever fails, a
      clear flag means the outputs are at their levels exactly when the commit that cleared it
      did not lose its first word. */
  lemma ClearFlagShowsIff(w: Wiring, d: Driver, ops: seq<Op>)
    requires d.Accounted() && !d.disturbed && CommitsWhenDirty(w, d, ops)
    ensures var r := Run(w, d, ops);
            !r.dirty ==> (r.Shows() <==> FirstTook(r.mode, r.found, r.Target()))
  {
    RunIsAccounted(w, d, ops);
    NothingDisturbed(w, d, ops);
  }

  /** Every release has worked at the end of each operation so far. */
  predicate AlwaysReleased(w: Wiring, d: Driver, ops: seq<Op>)
  {
    d.line.released
    && (ops == [] || (AlwaysReleased(w, d, ops[..|ops| - 1]) && Run(w, d, ops).line.released))
  }

  predicate FlagIsTrue(d: Driver) { !d.dirty ==> d.Shows() }

  lemma OperateKeepsFlag(w: Wiring, d: Driver, op: Op)
    requires d.Accounted() && d.line.released && FlagIsTrue(d)
    ensures FlagIsTrue(Operate(w, d, op))
  {
    match op
    case Commit => CommitKeepsAccount(w, d);
    case Flush => CommitKeepsAccount(w, d);
    case _ =>
  }

  /** As long as releases work, transfers and selects may fail as they like and a clear flag
      always means that every output is at its level. */
  lemma {:induction false} ReleasedRunShows(w: Wiring, d: Driver, ops: seq<Op>)
    requires d.Accounted() && FlagIsTrue(d) && AlwaysReleased(w, d, ops)
    ensures FlagIsTrue(Run(w, d, ops))
  {
    if ops != [] {
      var front := ops[..|ops| - 1];
      ReleasedRunShows(w, d, front);
      RunIsAccounted(w, d, front);
      OperateKeepsFlag(w, Run(w, d, front), ops[|ops| - 1]);
    }
  }

  // ----- Which level goes where -----

  /** The last level written to a channel. */
  function LastLevel(start: MilliVolts, ops: seq<Op>, channel: nat): MilliVolts
  {
    if ops == [] then start
    else
      match ops[|ops| - 1]
      case Stage(c, value) => if c == channel then value else LastLevel(start, ops[..|ops| - 1], channel)
      case _ => LastLevel(start, ops[..|ops| - 1], channel)
  }

  /** The last calibration a channel was given. */
  function LastCalibration(start: OutputCalibration, ops: seq<Op>, channel: nat): OutputCalibration
  {
    if ops == [] then start
    else
      match ops[|ops| - 1]
      case Recalibrate(c, replacement) =>
        if c == channel then replacement else LastCalibration(start, ops[..|ops| - 1], channel)
      case _ => LastCalibration(start, ops[..|ops| - 1], channel)
  }

  /** The code for that level under that calibration. */
  function LastCode(d: Driver, ops: seq<Op>, channel: nat): u16
    requires channel < CV_CHANNELS
  {
    LastCalibration(d.calibration[channel], ops, channel).ToCode(LastLevel(d.staged[channel], ops, channel))
  }

  lemma OperateStages(w: Wiring, d: Driver, op: Op, channel: nat)
    requires channel < CV_CHANNELS
    ensures Operate(w, d, op).staged[channel] == if op.Stage? && op.channel == channel then op.value else d.staged[channel]
    ensures Operate(w, d, op).calibration[channel]
         == if op.Recalibrate? && op.channel == channel then op.replacement else d.calibration[channel]
  {
  }

  lemma {:induction false} LastIsStaged(w: Wiring, d: Driver, ops: seq<Op>, channel: nat)
    requires channel < CV_CHANNELS
    ensures Run(w, d, ops).staged[channel] == LastLevel(d.staged[channel], ops, channel)
    ensures Run(w, d, ops).calibration[channel] == LastCalibration(d.calibration[channel], ops, channel)
  {
    if ops != [] {
      var front := ops[..|ops| - 1];
      LastIsStaged(w, d, front, channel);
      OperateStages(w, Run(w, d, front), ops[|ops| - 1], channel);
    }
  }

  /** The chip's outputs are each channel's own: the level last written to it, under the calibration
      it was last given. */
  ghost predicate DrivesLast(d: Driver, ops: seq<Op>, r: Driver)
  {
    forall channel :: 0 <= channel < CV_CHANNELS ==> r.line.chip.outputs[channel] == LastCode(d, ops, channel)
  }

  lemma ShownIsLast(w: Wiring, d: Driver, ops: seq<Op>)
    ensures var r := Run(w, d, ops); r.Shows() <==> DrivesLast(d, ops, r)
    ensures Run(w, d, ops).Target()[0] == LastCode(d, ops, 0)
  {
    var r := Run(w, d, ops);
    forall channel: nat | channel < CV_CHANNELS
      ensures r.Target()[channel] == LastCode(d, ops, channel)
    {
      LastIsStaged(w, d, ops, channel);
    }
  }

  /** So as long as releases work, and over any other failures, a clear flag means that every output
      is at the code of its own last level under its own last calibration. */
  lemma ReleasedRunDrivesLast(w: Wiring, d: Driver, ops: seq<Op>)
    requires d.Accounted() && FlagIsTrue(d) && AlwaysReleased(w, d, ops)
    ensures var r := Run(w, d, ops); !r.dirty ==> DrivesLast(d, ops, r)
  {
    ReleasedRunShows(w, d, ops);
    ShownIsLast(w, d, ops);
  }

  /** And when releases may fail, exactly if the commit that cleared the flag left the first channel's
      code in the register that decides it. */
  lemma ClearFlagDrivesLastIff(w: Wiring, d: Driver, ops: seq<Op>)
    requires d.Accounted() && !d.disturbed && CommitsWhenDirty(w, d, ops)
    ensures var r := Run(w, d, ops);
            !r.dirty ==> (DrivesLast(d, ops, r) <==>
                          FirstRegister(r.mode, AfterFirst(r.mode, r.found, r.Target())) == LastCode(d, ops, 0))
  {
    ClearFlagShowsIff(w, d, ops);
    ShownIsLast(w, d, ops);
  }

  // ----- Why the condition is needed -----

  /** The release after the very first word fails and the chip select stays low. */
  const STUCK := Wiring(n => n == 3, n => 0)

  lemma GoodWord(l: Line, word: Word)
    requires l.clock > 3
    ensures var (r, error) := WordNext(STUCK, l, word);
            error == None && r.clock == l.clock + 4 && r.chip == Clocked(l.chip, l.Stale(), word, WORD_BITS)
  {
  }

  lemma {:induction false} GoodCommit(l: Line, mode: UpdateMode, target: Codes, index: nat)
    requires l.clock > 3 && index <= CV_CHANNELS
    ensures CommitFrom(STUCK, l, mode, target, index).error == None
    decreases CV_CHANNELS - index
  {
    if index < CV_CHANNELS {
      var word := WordFor(ModeOf(mode, index), index, target[index]);
      GoodWord(l, word);
      GoodCommit(WordNext(STUCK, l, word).0, mode, target, index + 1);
    }
  }

  lemma StuckWord(l: Line, word: Word)
    requires l.clock == 0 && !l.selected
    ensures var (r, error) := WordNext(STUCK, l, word);
            && error == Some(ChipSelectError) && r.clock == 4 && r.Stale().count == WORD_BITS
            && r.chip == Clocked(l.chip, EMPTY, word, WORD_BITS)
  {
  }

  /** Behind a whole stale word the chip is deaf to the first word of a commit. */
  lemma StaleWordLosesTheFirst(mode: UpdateMode, l: Line, target: Codes)
    requires l.Stale().count >= WORD_BITS
    ensures AfterFirst(mode, l, target) == l.chip
    ensures FirstTook(mode, l, target) <==> FirstRegister(mode, l.chip) == target[0]
  {
  }

  /** The first flush stops at the release: its word has arrived, and stays in the chip. */
  lemma StuckFlush(d: Driver)
    requires d.dirty && d.mode == PerChannel && d.line.clock == 0 && !d.line.selected && !d.line.asserted
    ensures var r := FlushNext(STUCK, d);
            && r == d.(line := r.line, lastError := Some(ChipSelectError))
            && r.line.clock == 4 && r.line.Stale().count == WORD_BITS && r.line.chip.outputs[0] == d.Target()[0]
  {
    var code := d.Target()[0];
    var word := WordFor(WRITE_AND_UPDATE_ONE, 0, code);
    StuckWord(d.line, word);
    WordArrives(d.line.chip, word);
    WordDecodes(d.line.chip, WRITE_AND_UPDATE_ONE, 0, code);
  }

  /** The next one goes through and clears the flag, and leaves the first output where it was. */
  lemma DeafFlush(d: Driver)
    requires d.Accounted() && d.dirty && d.mode == PerChannel && d.line.clock > 3 && d.line.Stale().count >= WORD_BITS
    requires d.line.chip.outputs[0] != d.Target()[0]
    ensures var r := FlushNext(STUCK, d); !r.dirty && r.lastError == None && !r.Shows()
  {
    GoodCommit(d.line, d.mode, d.Target(), 0);
    CommitKeepsAccount(STUCK, d);
    StaleWordLosesTheFirst(d.mode, d.line, d.Target());
  }

  lemma NominalCodesDiffer(a: MilliVolts, b: MilliVolts)
    requires CV_OUT_MIN_MV <= a < b <= CV_OUT_MAX_MV
    ensures NOMINAL_OUTPUT.ToCode(a) != NOMINAL_OUTPUT.ToCode(b)
  {
    NominalOutputExact(a, false);
    NominalOutputExact(b, false);
  }

  /** A level changes in between. */
  lemma DeafAfter(start: Driver, one: Driver, value: MilliVolts)
    requires one == start.(line := one.line, lastError := one.lastError) && start.dirty && start.mode == PerChannel
    requires one.Accounted() && one.line.clock > 3 && one.line.Stale().count >= WORD_BITS
    requires one.line.chip.outputs[0] == start.Target()[0] != StagedNext(start, 0, value).Target()[0]
    ensures var end := FlushNext(STUCK, StagedNext(one, 0, value));
            !end.dirty && end.lastError == None && !end.Shows()
  {
    SameTarget(start, one, 0, value);
    DeafFlush(StagedNext(one, 0, value));
  }

  /** A run that ends with a clear flag, no error, and an output left where it was: one release
      fails, a level changes, and the commit that clears the flag loses its first word. */
  lemma StuckRunLosesALevel(start: Driver, value: MilliVolts)
    requires start.Accounted() && start.dirty && start.mode == PerChannel && start.line.clock == 0 && !start.line.selected
    requires start.Target()[0] != StagedNext(start, 0, value).Target()[0]
    ensures var end := Run(STUCK, start, [Flush, Stage(0, value), Flush]);
            !end.dirty && end.lastError == None && !end.Shows()
  {
    StuckFlush(start);
    CommitKeepsAccount(STUCK, start);
    DeafAfter(start, FlushNext(STUCK, start), value);
    FlushStageFlush(STUCK, start, 0, value);
  }

  const NOMINAL: Calibrations := [NOMINAL_OUTPUT, NOMINAL_OUTPUT, NOMINAL_OUTPUT, NOMINAL_OUTPUT]

  lemma NominalTarget(d: Driver)
    requires d.calibration == NOMINAL
    ensures d.Target()[0] == NOMINAL_OUTPUT.ToCode(d.staged[0])
  {
  }

  /** Such a run: a new driver on the nominal calibration, and any other level than 0 V. */
  lemma StuckNominalRun(chip: Chip, value: MilliVolts)
    requires CV_OUT_MIN_MV <= value <= CV_OUT_MAX_MV && value != 0
    ensures var start := NewDriver(Line(0, chip, false, EMPTY, false, true), NOMINAL);
            var end := Run(STUCK, start, [Flush, Stage(0, value), Flush]);
            start.Accounted() && !end.dirty && end.lastError == None && !end.Shows()
  {
    var start := NewDriver(Line(0, chip, false, EMPTY, false, true), NOMINAL);
    NominalTarget(start);
    NominalTarget(StagedNext(start, 0, value));
    NominalCodesDiffer(Min(0, value), Max(0, value));
    StuckRunLosesALevel(start, value);
  }

  lemma SameTarget(a: Driver, b: Driver, channel: nat, value: MilliVolts)
    requires channel < CV_CHANNELS && a.calibration == b.calibration && a.staged == b.staged
    ensures StagedNext(a, channel, value).Target() == StagedNext(b, channel, value).Target()
  {
  }

  lemma FlushStageFlush(w: Wiring, d: Driver, channel: nat, value: MilliVolts)
    requires channel < CV_CHANNELS
    ensures Run(w, d, [Flush, Stage(channel, value), Flush]) == FlushNext(w, StagedNext(FlushNext(w, d), channel, value))
  {
    var a, b := Flush, Stage(channel, value);
    assert [a, b, a][..2] == [a, b] && [a, b][..1] == [a] && [a][..0] == [];
    assert Run(w, d, []) == d;
    assert Run(w, d, [a]) == FlushNext(w, d);
    assert Run(w, d, [a, b]) == StagedNext(FlushNext(w, d), channel, value);
  }

  class Dac8565 {
    const bus: Bus
    var calibration: Calibrations
    var updateMode: UpdateMode
    var staged: Levels
    var dirty: bool
    var lastError: Option<DacError>
    ghost var found: Line
    ghost var disturbed: bool

    ghost function State(): Driver
      reads this, bus
    {
      Driver(bus.State(), calibration, updateMode, staged, dirty, lastError, found, disturbed)
    }

    constructor (bus: Bus, calibration: Calibrations)
      ensures this.bus == bus && State() == NewDriver(bus.State(), calibration)
    {
      this.bus, this.calibration := bus, calibration;
      updateMode, staged, dirty, lastError := PerChannel, NO_LEVELS, true, None;
      found, disturbed := bus.State(), false;
    }

    method SetUpdateMode(mode: UpdateMode)
      modifies this
      ensures State() == old(State()).(mode := mode, dirty := true)
      ensures old(State().Accounted()) ==> State().Accounted()
    {
      updateMode := mode;
      dirty := true;
    }

    method SetCalibration(channel: nat, replacement: OutputCalibration)
      requires channel < CV_CHANNELS
      modifies this
      ensures State() == old(State()).(calibration := old(calibration)[channel := replacement], dirty := true)
      ensures old(State().Accounted()) ==> State().Accounted()
    {
      calibration := calibration[channel := replacement];
      dirty := true;
    }

    /** Stages a level; an unchanged one does not make the driver dirty. */
    method WriteCv(channel: nat, value: MilliVolts)
      requires channel < CV_CHANNELS
      modifies this
      ensures State() == StagedNext(old(State()), channel, value) && staged == old(staged)[channel := value]
      ensures dirty == (old(dirty) || old(staged[channel]) != value)
      ensures old(State().Accounted()) ==> State().Accounted()
    {
      if staged[channel] != value {
        staged := staged[channel := value];
        dirty := true;
      }
    }

    /** Sends one 24-bit word; a chip select that was asserted is always asked to rise. */
    method WriteWord(mode: u8, channel: nat, code: u16) returns (r: Option<DacError>)
      requires channel < CV_CHANNELS && mode <= WRITE_AND_UPDATE_ALL
      modifies bus
      ensures (bus.State(), r) == WordNext(bus.wiring, old(bus.State()), WordFor(mode, channel, code))
      ensures old(!bus.asserted && bus.State().Fair()) ==>
                && !bus.asserted && (bus.State().Stale() != EMPTY ==> r.Some? && !bus.released)
                && (r == None ==>
                      bus.chip == Clocked(old(bus.chip), old(bus.State().Stale()), WordFor(mode, channel, code), WORD_BITS))
    {
      if !bus.asserted && bus.State().Fair() {
        WordOutcome(bus.wiring, bus.State(), WordFor(mode, channel, code));
      }
      var selected := bus.Select();
      if !selected {
        return Some(ChipSelectError);
      }
      var transferred := bus.Write(WordFor(mode, channel, code));
      var released := bus.Release();
      r := if !transferred then Some(BusError) else if !released then Some(ChipSelectError) else None;
    }

    /** Pushes the staged levels to the converter, stopping at the first failure; `sent` counts
        the words that went through. */
    method Commit() returns (r: Option<DacError>, ghost sent: nat)
      requires State().Accounted()
      modifies this`dirty, this`found, this`disturbed, bus
      ensures (State(), r) == CommitNext(bus.wiring, old(State())) && State().Accounted()
      ensures r == None ==> !dirty && bus.State().Stale() == EMPTY
      ensures old(bus.State().Stale()) == EMPTY ==>
                && (r == None ==> State().Shows())
                && OnTheWay(updateMode, old(bus.chip), State().Target(), bus.chip, sent)
    {
      ghost var before := State();
      CommitKeepsAccount(bus.wiring, before);
      r, sent := SendWords();
      Conclude(r, before, sent);
    }

    method Conclude(r: Option<DacError>, ghost before: Driver, ghost sent: nat)
      requires State() == before.(line := bus.State())
      modifies this`dirty, this`found, this`disturbed
      ensures State() == Concluded(before, Sent(bus.State(), r, sent))
    {
      if r == None {
        dirty := false;
        found, disturbed := before.line, false;
      } else {
        disturbed := disturbed || !dirty;
      }
    }

    method SendWords() returns (r: Option<DacError>, ghost sent: nat)
      modifies bus
      ensures Sent(bus.State(), r, sent) == CommitFrom(bus.wiring, old(bus.State()), updateMode, State().Target(), 0)
    {
      ghost var target := State().Target();
      for index := 0 to CV_CHANNELS
        invariant CommitFrom(bus.wiring, bus.State(), updateMode, target, index)
               == CommitFrom(bus.wiring, old(bus.State()), updateMode, target, 0)
      {
        var code := calibration[index].ToCode(staged[index]);
        r := WriteWord(ModeOf(updateMode, index), index, code);
        if r.Some? {
          sent := index;
          return;
        }
      }
      r, sent := None, CV_CHANNELS;
    }

    /** Commits if anything changed, and remembers the outcome. */
    method Flush()
      requires State().Accounted()
      modifies this`dirty, this`lastError, this`found, this`disturbed, bus
      ensures State() == FlushNext(bus.wiring, old(State())) && State().Accounted()
      ensures old(!dirty) ==> unchanged(this) && unchanged(bus)
      ensures old(dirty) && lastError == None ==>
                !dirty && bus.State().Stale() == EMPTY && (old(bus.State().Stale()) == EMPTY ==> State().Shows())
    {
      if !dirty {
        return;
      }
      var error, _ := Commit();
      lastError := error;
    }
  }
}
