/** The panel driver (crates/oc-drivers/src/ssd130x.rs), on a bus and pins that may fail at any
    moment and part of the way through. */
module Ssd130x {
  import opened Ints
  import opened FrameBuffer
  import opened Oled

  const MAX_SPI_CHUNK := 512

  datatype PanelError = BusError | PinError

  /** One thing that happened on the wires. */
  datatype Signal = DataCommand(high: bool) | ChipSelect(high: bool) | Sent(bytes: seq<u8>)

  /** The level of the data/command pin. */
  function DataLevel(trace: seq<Signal>): bool
  {
    trace != []
    && match trace[|trace| - 1]
       case DataCommand(high) => high
       case _ => DataLevel(trace[..|trace| - 1])
  }

  function Selected(trace: seq<Signal>): bool
  {
    trace != []
    && match trace[|trace| - 1]
       case ChipSelect(high) => !high
       case _ => Selected(trace[..|trace| - 1])
  }

  /** What the controller hears: the bytes sent while it is selected. */
  function HeardIn(trace: seq<Signal>): seq<Heard>
  {
    if trace == [] then []
    else
      var before := trace[..|trace| - 1];
      match trace[|trace| - 1]
      case Sent(bytes) => HeardIn(before) + if Selected(before) then Tagged(DataLevel(before), bytes) else []
      case _ => HeardIn(before)
  }

  /** From `before` to `after` a part of `full` was heard, or the whole of it. */
  ghost predicate Got(before: seq<Heard>, after: seq<Heard>, full: seq<Heard>, whole: bool)
  {
    before <= after && after[|before|..] <= full && (whole ==> after == before + full)
  }

  lemma GotPart(a: seq<Heard>, b: seq<Heard>, first: seq<Heard>, second: seq<Heard>)
    requires Got(a, b, first, false)
    ensures Got(a, b, first + second, false)
  {
  }

  lemma GotMore(a: seq<Heard>, b: seq<Heard>, c: seq<Heard>, first: seq<Heard>, second: seq<Heard>, whole: bool)
    requires Got(a, b, first, true) && Got(b, c, second, whole)
    ensures Got(a, c, first + second, whole)
  {
    assert c[|a|..] == first + c[|b|..];
  }

  /** The SPI bus and the two control pins.  Operation `n` fails when `faults(n)`, and may then
      have taken effect up to any point; the trace holds what did. */
  class Wires {
    const faults: nat -> bool
    const reach: nat -> nat
    var clock: nat
    ghost var trace: seq<Signal>
    ghost var asserted: bool  // the chip select was pulled low and not yet asked to rise
    ghost var busFailures: nat
    ghost var pinFailures: nat

    constructor (faults: nat -> bool, reach: nat -> nat)
      ensures this.faults == faults && trace == [] && !asserted
    {
      this.faults, this.reach, clock, trace, asserted := faults, reach, 0, [], false;
      busFailures, pinFailures := 0, 0;
    }

    /** Whose failure is reported: the bus's if it failed at all, else a pin's if one did. */
    ghost predicate Blames(r: Option<PanelError>, bus: nat, pins: nat)
      reads this
    {
      && busFailures >= bus && pinFailures >= pins
      && r == if busFailures > bus then Some(BusError) else if pinFailures > pins then Some(PinError) else None
    }

    ghost function Heard(): seq<Heard> reads this { HeardIn(trace) }

    method SetDataCommand(high: bool) returns (ok: bool)
      modifies this
      ensures asserted == old(asserted) && Heard() == old(Heard())
      ensures busFailures == old(busFailures) && pinFailures == old(pinFailures) + (if ok then 0 else 1)
      ensures trace == old(trace) || trace == old(trace) + [DataCommand(high)]
      ensures ok ==> trace == old(trace) + [DataCommand(high)] && DataLevel(trace) == high
    {
      ok := !faults(clock);
      trace := if ok || reach(clock) > 0 then trace + [DataCommand(high)] else trace;
      clock, pinFailures := clock + 1, pinFailures + if ok then 0 else 1;
    }

    method SetChipSelect(high: bool) returns (ok: bool)
      modifies this
      ensures asserted == (!high && (old(asserted) || ok))
      ensures busFailures == old(busFailures) && pinFailures == old(pinFailures) + (if ok then 0 else 1)
      ensures Heard() == old(Heard()) && DataLevel(trace) == old(DataLevel(trace))
      ensures trace == old(trace) || trace == old(trace) + [ChipSelect(high)]
      ensures ok ==> trace == old(trace) + [ChipSelect(high)] && Selected(trace) == !high
    {
      ok := !faults(clock);
      trace := if ok || reach(clock) > 0 then trace + [ChipSelect(high)] else trace;
      clock, pinFailures := clock + 1, pinFailures + if ok then 0 else 1;
      asserted := !high && (asserted || ok);
    }

    /** A transaction and the wait until its last bit is out.  The
        bus accepts no more than 512 bytes at once; when either step fails, the bytes may have
        gone out in part. */
    method Write(bytes: seq<u8>) returns (ok: bool)
      requires 0 < |bytes| <= MAX_SPI_CHUNK && Selected(trace)
      modifies this
      ensures asserted == old(asserted) && Selected(trace) && DataLevel(trace) == old(DataLevel(trace))
      ensures busFailures == old(busFailures) + (if ok then 0 else 1) && pinFailures == old(pinFailures)
      ensures ok ==> trace == old(trace) + [Sent(bytes)]
      ensures Got(old(Heard()), Heard(), Tagged(old(DataLevel(trace)), bytes), ok)
    {
      ok := !faults(clock) && !faults(clock + 1);
      var sent := if ok then bytes else bytes[..Min(reach(clock), |bytes|)];
      trace := trace + [Sent(sent)];
      clock, busFailures := clock + 2, busFailures + if ok then 0 else 1;
    }
  }

  // ----- What a refresh puts on the wires -----

  function Chunks(bytes: seq<u8>): seq<Signal>
  {
    if bytes == [] then []
    else if |bytes| <= MAX_SPI_CHUNK then [Sent(bytes)]
    else [Sent(bytes[..MAX_SPI_CHUNK])] + Chunks(bytes[MAX_SPI_CHUNK..])
  }

  function Transfer(bytes: seq<u8>): seq<Signal>
  {
    [ChipSelect(false)] + Chunks(bytes) + [ChipSelect(true)]
  }

  function Commands(bytes: seq<u8>): seq<Signal> { [DataCommand(false)] + Transfer(bytes) }

  function Data(bytes: seq<u8>): seq<Signal> { [DataCommand(true)] + Transfer(bytes) }

  function PageSignals(c: Controller, bytes: seq<u8>, page: nat): seq<Signal>
    requires |bytes| == LEN && page < PAGES
  {
    Commands(PageCommands(c, page)) + Data(PageBytes(bytes, page))
  }

  function Pages(c: Controller, bytes: seq<u8>, n: nat): seq<Signal>
    requires |bytes| == LEN && n <= PAGES
  {
    if n == 0 then [] else Pages(c, bytes, n - 1) + PageSignals(c, bytes, n - 1)
  }

  function Refresh(c: Controller, frame: Frame): seq<Signal>
  {
    if c.PageAddressed() then Pages(c, AsBytes(frame), PAGES)
    else Commands(WindowCommands()) + Data(AsBytes(frame))
  }

  class Ssd130x {
    const wires: Wires
    const controller: Controller
    var frame: Frame
    var lastError: Option<PanelError>

    ghost const start: Screen  // the controller when the driver takes it over
    ghost var attempts: seq<Attempt>  // every refresh so far, and how much of it was heard

    ghost predicate Valid()
      reads this, wires
    {
      && !wires.asserted && wires.Heard() == HeardOver(controller, attempts)
      && WellFormed(controller, start) && Aligned(controller, start)
    }

    /** The controller as it is now. */
    ghost function Now(): (s: Screen)
      requires Valid()
      reads this, wires
      ensures WellFormed(controller, s)
    {
      HearKeepsForm(controller, start, wires.Heard());
      Hear(controller, start, wires.Heard())
    }

    constructor (wires: Wires, controller: Controller, ghost start: Screen)
      requires !wires.asserted && wires.trace == [] && WellFormed(controller, start) && Aligned(controller, start)
      ensures this.wires == wires && this.controller == controller && frame == BLANK && lastError == None
      ensures Valid() && attempts == []
    {
      this.wires, this.controller, frame, lastError := wires, controller, BLANK, None;
      this.start, attempts := start, [];
    }

    /** `Display::present`: refreshes the panel and remembers the outcome.  When there is no
        error the panel shows the framebuffer, whatever refreshes failed before and however:
        always on SH1106, and on the others as long as the cuts left them in step. */
    method Present()
      requires Valid()
      modifies this, wires
      ensures Valid() && frame == old(frame)
      ensures wires.Blames(lastError, old(wires.busFailures), old(wires.pinFailures))
      ensures |attempts| == |old(attempts)| + 1 && attempts[..|attempts| - 1] == old(attempts)
      ensures var last := attempts[|attempts| - 1];
              last.frame == frame && (lastError == None ==> last.got == |Stream(controller, frame)|)
      ensures lastError == None ==> wires.trace == old(wires.trace) + Refresh(controller, frame)
      ensures lastError == None && (controller.PageAddressed() || Intact(old(attempts))) ==>
                Visible(controller, Now()) == LitOf(BitsOf(frame))
    {
      ghost var heard, before := wires.Heard(), attempts;
      lastError := FlushFrame();
      ghost var got := Since(heard, wires.Heard(), Stream(controller, frame), lastError == None);
      PartOf(controller, frame, got);
      OneMoreAttempt(controller, before, Attempt(frame, |got|));
      if lastError == None && (controller.PageAddressed() || Intact(before)) {
        WholeRefreshShows(controller, start, before, frame);
      }
      attempts := before + [Attempt(frame, |got|)];
    }

    /** A whole refresh.  The frame survives whatever fails, a chip select
        that was asserted has been asked to rise, and what the controller heard is a part of
        the refresh from its beginning: the whole of it when nothing failed. */
    method FlushFrame() returns (r: Option<PanelError>)
      requires !wires.asserted
      modifies this`frame, wires
      ensures wires.Blames(r, old(wires.busFailures), old(wires.pinFailures))
      ensures frame == old(frame) && !wires.asserted
      ensures r == None ==> wires.trace == old(wires.trace) + Refresh(controller, frame)
      ensures Got(old(wires.Heard()), wires.Heard(), Stream(controller, frame), r == None)
    {
      if controller.PageAddressed() {
        r := FlushFramePaged();
      } else {
        r := FlushFrameHorizontal();
      }
    }

    method FlushFrameHorizontal() returns (r: Option<PanelError>)
      requires !wires.asserted && !controller.PageAddressed()
      modifies this`frame, wires
      ensures wires.Blames(r, old(wires.busFailures), old(wires.pinFailures))
      ensures frame == old(frame) && !wires.asserted
      ensures r == None ==> wires.trace == old(wires.trace) + Refresh(controller, frame)
      ensures Got(old(wires.Heard()), wires.Heard(), Stream(controller, frame), r == None)
    {
      ghost var setup, data := Tagged(false, WindowCommands()), Tagged(true, AsBytes(frame));
      r := SendCommands(WindowCommands());
      if r.Some? {
        GotPart(old(wires.Heard()), wires.Heard(), setup, data);
        return;
      }
      ghost var between := wires.Heard();
      // The frame is moved out while the bus is borrowed, and put back.
      var taken := frame;
      frame := BLANK;
      r := SendData(AsBytes(taken));
      frame := taken;
      GotMore(old(wires.Heard()), between, wires.Heard(), setup, data, r == None);
    }

    method FlushFramePaged() returns (r: Option<PanelError>)
      requires !wires.asserted && controller.PageAddressed()
      modifies this`frame, wires
      ensures wires.Blames(r, old(wires.busFailures), old(wires.pinFailures))
      ensures frame == old(frame) && !wires.asserted
      ensures r == None ==> wires.trace == old(wires.trace) + Refresh(controller, frame)
      ensures Got(old(wires.Heard()), wires.Heard(), Stream(controller, frame), r == None)
    {
      var taken := frame;
      frame := BLANK;
      r := SendPages(AsBytes(taken));
      frame := taken;
    }

    method SendPages(bytes: seq<u8>) returns (r: Option<PanelError>)
      requires !wires.asserted && |bytes| == LEN
      modifies wires
      ensures wires.Blames(r, old(wires.busFailures), old(wires.pinFailures))
      ensures !wires.asserted
      ensures r == None ==> wires.trace == old(wires.trace) + Pages(controller, bytes, PAGES)
      ensures Got(old(wires.Heard()), wires.Heard(), PageStream(controller, bytes, PAGES), r == None)
    {
      for page := 0 to PAGES
        invariant !wires.asserted
        invariant wires.pinFailures == old(wires.pinFailures) && wires.busFailures == old(wires.busFailures)
        invariant wires.trace == old(wires.trace) + Pages(controller, bytes, page)
        invariant Got(old(wires.Heard()), wires.Heard(), PageStream(controller, bytes, page), true)
      {
        ghost var between := wires.Heard();
        PagesMore(controller, bytes, page, old(wires.trace));
        r := SendPage(bytes, page);
        OnePageMore(controller, bytes, page, old(wires.Heard()), between, wires.Heard(), r == None);
        if r.Some? {
          return;
        }
      }
      r := None;
    }

    method SendPage(bytes: seq<u8>, page: nat) returns (r: Option<PanelError>)
      requires !wires.asserted && |bytes| == LEN && page < PAGES
      modifies wires
      ensures wires.Blames(r, old(wires.busFailures), old(wires.pinFailures))
      ensures !wires.asserted
      ensures r == None ==> wires.trace == old(wires.trace) + PageSignals(controller, bytes, page)
      ensures Got(old(wires.Heard()), wires.Heard(), OnePage(controller, bytes, page), r == None)
    {
      ghost var setup, data := Tagged(false, PageCommands(controller, page)), Tagged(true, PageBytes(bytes, page));
      r := SendCommands(PageCommands(controller, page));
      if r.Some? {
        GotPart(old(wires.Heard()), wires.Heard(), setup, data);
        return;
      }
      ghost var between := wires.Heard();
      r := SendData(PageBytes(bytes, page));
      GotMore(old(wires.Heard()), between, wires.Heard(), setup, data, r == None);
    }

    method SendCommands(bytes: seq<u8>) returns (r: Option<PanelError>)
      requires !wires.asserted
      modifies wires
      ensures wires.Blames(r, old(wires.busFailures), old(wires.pinFailures))
      ensures !wires.asserted
      ensures r == None ==> wires.trace == old(wires.trace) + Commands(bytes)
      ensures Got(old(wires.Heard()), wires.Heard(), Tagged(false, bytes), r == None)
    {
      var ok := wires.SetDataCommand(false);
      if !ok {
        return Some(PinError);
      }
      r := SendBytes(bytes);
    }

    /** The two places that raise the data/command pin and then transfer. */
    method SendData(bytes: seq<u8>) returns (r: Option<PanelError>)
      requires !wires.asserted
      modifies wires
      ensures wires.Blames(r, old(wires.busFailures), old(wires.pinFailures))
      ensures !wires.asserted
      ensures r == None ==> wires.trace == old(wires.trace) + Data(bytes)
      ensures Got(old(wires.Heard()), wires.Heard(), Tagged(true, bytes), r == None)
    {
      var ok := wires.SetDataCommand(true);
      if !ok {
        return Some(PinError);
      }
      r := SendBytes(bytes);
    }

    /** `transfer`: chunks between a select and a release, which is attempted whatever fails. */
    method SendBytes(bytes: seq<u8>) returns (r: Option<PanelError>)
      requires !wires.asserted
      modifies wires
      ensures wires.Blames(r, old(wires.busFailures), old(wires.pinFailures))
      ensures !wires.asserted
      ensures r == None ==> wires.trace == old(wires.trace) + Transfer(bytes)
      ensures Got(old(wires.Heard()), wires.Heard(), Tagged(old(DataLevel(wires.trace)), bytes), r == None)
    {
      var selected := wires.SetChipSelect(false);
      if !selected {
        return Some(PinError);
      }
      var written := WriteChunks(bytes);
      var released := wires.SetChipSelect(true);
      r := if !written then Some(BusError) else if !released then Some(PinError) else None;
    }

    /** The next chunk; `start` is what had been heard before the first. */
    method WriteChunk(bytes: seq<u8>, done: nat, size: nat, ghost start: seq<Heard>) returns (ok: bool)
      requires Selected(wires.trace) && 0 < size <= MAX_SPI_CHUNK && done + size <= |bytes|
      requires Got(start, wires.Heard(), Tagged(DataLevel(wires.trace), bytes[..done]), true)
      modifies wires
      ensures wires.asserted == old(wires.asserted) && Selected(wires.trace)
      ensures DataLevel(wires.trace) == old(DataLevel(wires.trace))
      ensures wires.pinFailures == old(wires.pinFailures) && wires.busFailures == old(wires.busFailures) + (if ok then 0 else 1)
      ensures ok ==> wires.trace == old(wires.trace) + [Sent(bytes[done..][..size])]
      ensures Got(start, wires.Heard(), Tagged(DataLevel(wires.trace), bytes[..done + size]), ok)
      ensures Got(start, wires.Heard(), Tagged(DataLevel(wires.trace), bytes), false)
    {
      ghost var level, between, next := DataLevel(wires.trace), wires.Heard(), bytes[done..][..size];
      ok := wires.Write(bytes[done..][..size]);
      assert bytes[..done + size] == bytes[..done] + next && bytes == bytes[..done + size] + bytes[done + size..];
      TaggedConcat(level, bytes[..done], next);
      TaggedConcat(level, bytes[..done + size], bytes[done + size..]);
      GotMore(start, between, wires.Heard(), Tagged(level, bytes[..done]), Tagged(level, next), ok);
      GotPart(start, wires.Heard(), Tagged(level, bytes[..done + size]), Tagged(level, bytes[done + size..]));
    }

    /** To the controller the chunks are one stream. */
    method WriteChunks(bytes: seq<u8>) returns (ok: bool)
      requires Selected(wires.trace)
      modifies wires
      ensures wires.asserted == old(wires.asserted)
      ensures wires.pinFailures == old(wires.pinFailures) && wires.busFailures == old(wires.busFailures) + (if ok then 0 else 1)
      ensures ok ==> wires.trace == old(wires.trace) + Chunks(bytes)
      ensures Got(old(wires.Heard()), wires.Heard(), Tagged(old(DataLevel(wires.trace)), bytes), ok)
    {
      var done := 0;
      ghost var level := DataLevel(wires.trace);
      while done < |bytes|
        invariant done <= |bytes| && wires.asserted == old(wires.asserted)
        invariant wires.pinFailures == old(wires.pinFailures) && wires.busFailures == old(wires.busFailures)
        invariant Selected(wires.trace) && DataLevel(wires.trace) == level
        invariant wires.trace + Chunks(bytes[done..]) == old(wires.trace) + Chunks(bytes)
        invariant Got(old(wires.Heard()), wires.Heard(), Tagged(level, bytes[..done]), true)
      {
        var size := Min(|bytes| - done, MAX_SPI_CHUNK);
        ChunkOff(wires.trace, bytes[done..], size);
        ok := WriteChunk(bytes, done, size, old(wires.Heard()));
        if !ok {
          return;
        }
        assert bytes[done..][size..] == bytes[done + size..];
        done := done + size;
      }
      assert bytes[..done] == bytes;
      ok := true;
    }
  }

  lemma ChunkOff(trace: seq<Signal>, rest: seq<u8>, size: nat)
    requires rest != [] && size == Min(|rest|, MAX_SPI_CHUNK)
    ensures trace + Chunks(rest) == trace + [Sent(rest[..size])] + Chunks(rest[size..])
  {
    FirstChunk(rest, size);
    InTurn(trace, [Sent(rest[..size])], Chunks(rest[size..]));
  }

  lemma FirstChunk(rest: seq<u8>, size: nat)
    requires rest != [] && size == Min(|rest|, MAX_SPI_CHUNK)
    ensures Chunks(rest) == [Sent(rest[..size])] + Chunks(rest[size..])
  {
    if size == |rest| {
      assert rest[..size] == rest && rest[size..] == [];
    }
  }

  /** A frame goes out in two writes of 512 bytes, and commands and pages each in one. */
  lemma FramesAreTwoWrites(bytes: seq<u8>)
    ensures |bytes| == 1024 ==> Chunks(bytes) == [Sent(bytes[..512]), Sent(bytes[512..])]
    ensures 0 < |bytes| <= 512 ==> Chunks(bytes) == [Sent(bytes)]
  {
    if |bytes| == 1024 {
      FirstChunk(bytes, 512);
      FirstChunk(bytes[512..], 512);
      assert bytes[512..][..512] == bytes[512..];
    }
  }

  lemma InTurn<T>(a: seq<T>, b: seq<T>, c: seq<T>)
    ensures a + (b + c) == a + b + c
  {
  }

  /** What was heard in between. */
  lemma Since(before: seq<Heard>, after: seq<Heard>, full: seq<Heard>, whole: bool) returns (got: seq<Heard>)
    requires Got(before, after, full, whole)
    ensures after == before + got && got <= full && (whole ==> got == full)
  {
    got := after[|before|..];
  }

  lemma OneMoreAttempt(c: Controller, attempts: seq<Attempt>, a: Attempt)
    ensures var more := attempts + [a];
            more[..|more| - 1] == attempts && HeardOver(c, more) == HeardOver(c, attempts) + Part(c, a)
  {
    assert (attempts + [a])[..|attempts|] == attempts;
  }

  lemma {:induction false} StreamGoesOn(c: Controller, bytes: seq<u8>, n: nat)
    requires |bytes| == LEN && n <= PAGES
    ensures PageStream(c, bytes, n) <= PageStream(c, bytes, PAGES)
    decreases PAGES - n
  {
    if n < PAGES {
      StreamGoesOn(c, bytes, n + 1);
    }
  }

  lemma PagesMore(c: Controller, bytes: seq<u8>, n: nat, trace: seq<Signal>)
    requires |bytes| == LEN && n < PAGES
    ensures trace + Pages(c, bytes, n) + PageSignals(c, bytes, n) == trace + Pages(c, bytes, n + 1)
  {
  }

  lemma OnePageMore(c: Controller, bytes: seq<u8>, n: nat, a: seq<Heard>, b: seq<Heard>, d: seq<Heard>, whole: bool)
    requires |bytes| == LEN && n < PAGES && Got(a, b, PageStream(c, bytes, n), true) && Got(b, d, OnePage(c, bytes, n), whole)
    ensures Got(a, d, PageStream(c, bytes, n + 1), whole) && Got(a, d, PageStream(c, bytes, PAGES), false)
  {
    GotMore(a, b, d, PageStream(c, bytes, n), OnePage(c, bytes, n), whole);
    StreamGoesOn(c, bytes, n + 1);
  }

  lemma PartOf(c: Controller, frame: Frame, got: seq<Heard>)
    requires got <= Stream(c, frame)
    ensures Part(c, Attempt(frame, |got|)) == got
  {
  }

  lemma WholeRefreshShows(c: Controller, start: Screen, attempts: seq<Attempt>, frame: Frame)
    requires WellFormed(c, start) && Aligned(c, start) && (c.PageAddressed() || Intact(attempts))
    ensures var s := Hear(c, start, HeardOver(c, attempts) + Stream(c, frame));
            WellFormed(c, s) && Visible(c, s) == LitOf(BitsOf(frame))
  {
    var heard := HeardOver(c, attempts);
    RunStaysAlignedIff(c, start, attempts);
    HearConcat(c, start, heard, Stream(c, frame));
    HearKeepsForm(c, start, heard + Stream(c, frame));
    RefreshShowsFrame(c, Hear(c, start, heard), frame);
  }
}
