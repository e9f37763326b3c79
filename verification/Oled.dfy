/** The controllers on the far side of crates/oc-drivers/src/ssd130x.rs: what they make of the
    bytes they hear, and what a refresh shows whatever went wrong before it. */
module Oled {
  import opened Ints
  import opened FrameBuffer

  const SET_COLUMN_ADDRESS: u8 := 0x21
  const SET_PAGE_ADDRESS: u8 := 0x22
  const SET_PAGE_START: u8 := 0xB0
  const SET_HIGH_COLUMN: u8 := 0x10
  const SET_LOW_COLUMN: u8 := 0x00

  /** The bytes of a framebuffer. */
  type Frame = s: seq<bv8> | |s| == LEN witness seq(LEN, _ => 0)

  const BLANK: Frame := seq(LEN, _ => 0)

  datatype Controller = Sh1106 | Ssd1306 | Ssd1309 {
    predicate PageAddressed() { Sh1106? }
    function ColumnOffset(): nat { if Sh1106? then 2 else 0 }
    function RamWidth(): nat { if Sh1106? then 132 else WIDTH }
  }

  // ----- What a refresh says -----

  /** One byte that reached the controller, as data or as part of a command. */
  datatype Heard = Heard(data: bool, byte: u8)

  function Tagged(data: bool, bytes: seq<u8>): (r: seq<Heard>)
    ensures |r| == |bytes|
  {
    seq(|bytes|, i requires 0 <= i < |bytes| => Heard(data, bytes[i]))
  }

  function AsBytes(frame: Frame): (r: seq<u8>)
    ensures |r| == LEN
  {
    seq(LEN, i requires 0 <= i < LEN => frame[i] as int)
  }

  function WindowCommands(): seq<u8>
  {
    [SET_COLUMN_ADDRESS, 0, 127, SET_PAGE_ADDRESS, 0, 7]
  }

  function PageCommands(controller: Controller, page: nat): seq<u8>
    requires page < PAGES
  {
    var offset := controller.ColumnOffset();
    [SET_HIGH_COLUMN + offset / 16, SET_LOW_COLUMN + offset % 16, SET_PAGE_START + page]
  }

  function PageBytes(bytes: seq<u8>, page: nat): seq<u8>
    requires |bytes| == LEN && page < PAGES
  {
    bytes[page * WIDTH..page * WIDTH + WIDTH]
  }

  function OnePage(c: Controller, bytes: seq<u8>, page: nat): seq<Heard>
    requires |bytes| == LEN && page < PAGES
  {
    Tagged(false, PageCommands(c, page)) + Tagged(true, PageBytes(bytes, page))
  }

  function PageStream(c: Controller, bytes: seq<u8>, n: nat): seq<Heard>
    requires |bytes| == LEN && n <= PAGES
  {
    if n == 0 then [] else PageStream(c, bytes, n - 1) + OnePage(c, bytes, n - 1)
  }

  function WindowStream(bytes: seq<u8>): seq<Heard>
  {
    Tagged(false, WindowCommands()) + Tagged(true, bytes)
  }

  /** Everything the controller hears of a refresh that goes through. */
  function Stream(c: Controller, frame: Frame): seq<Heard>
  {
    if c.PageAddressed() then PageStream(c, AsBytes(frame), PAGES) else WindowStream(AsBytes(frame))
  }

  // ----- What the controller makes of it -----

  /** Display RAM, the address pointer and window, the RAM row shown at the top, and the bytes
      of a command still waiting for its arguments. */
  datatype Screen = Screen(
    ram: seq<u8>, page: nat, column: nat,
    firstColumn: nat, lastColumn: nat, firstPage: nat, lastPage: nat,
    startLine: nat, pending: seq<u8>)

  predicate TakesArguments(command: u8) { command == 0x21 || command == 0x22 }

  ghost predicate WellFormed(c: Controller, s: Screen)
  {
    && |s.ram| == PAGES * c.RamWidth() && s.startLine < HEIGHT
    && |s.pending| < 3 && (s.pending != [] ==> TakesArguments(s.pending[0]))
    && (!c.PageAddressed() ==> s.page < PAGES && s.column < WIDTH)
  }

  /** SSD1306 and SSD1309 take a window of columns or pages and restart the pointer there
      (SSD1306 data sheet, sections 10.1.4 and 10.1.5). */
  function Complete(s: Screen, command: u8, first: u8, last: u8): Screen
  {
    if command == 0x21 then
      s.(pending := [], firstColumn := first % 128, lastColumn := last % 128, column := first % 128)
    else
      s.(pending := [], firstPage := first % 8, lastPage := last % 8, page := first % 8)
  }

  /** A command byte.  All three scroll the panel on 0x40 to 0x7F; SH1106 takes page and column
      a nibble at a time.  Other commands do not change what is shown of RAM. */
  function Command(c: Controller, s: Screen, b: u8): Screen
  {
    if c.PageAddressed() then
      if b < 0x10 then s.(column := s.column - s.column % 16 + b)
      else if b < 0x20 then s.(column := (b - 0x10) * 16 + s.column % 16)
      else if 0x40 <= b < 0x80 then s.(startLine := b - 0x40)
      else if 0xB0 <= b < 0xB8 then s.(page := b - 0xB0)
      else s
    else if s.pending == [] then
      if TakesArguments(b) then s.(pending := [b])
      else if 0x40 <= b < 0x80 then s.(startLine := b - 0x40)
      else s
    else if |s.pending| == 1 then s.(pending := s.pending + [b])
    else Complete(s, s.pending[0], s.pending[1], b)
  }

  /** A data byte lands at the pointer, which then moves on: along the page on SH1106, and
      through the window on the others. */
  function Datum(c: Controller, s: Screen, b: u8): Screen
  {
    var at, width := s.page * c.RamWidth() + s.column, c.RamWidth();
    var ram := if s.page < PAGES && s.column < width && at < |s.ram| then s.ram[at := b] else s.ram;
    if c.PageAddressed() then s.(ram := ram, column := s.column + 1)
    else if s.column != s.lastColumn then s.(ram := ram, column := (s.column + 1) % WIDTH)
    else
      s.(ram := ram, column := s.firstColumn % WIDTH,
         page := (if s.page == s.lastPage then s.firstPage else s.page + 1) % PAGES)
  }

  function HearOne(c: Controller, s: Screen, h: Heard): Screen
  {
    if h.data then Datum(c, s, h.byte) else Command(c, s, h.byte)
  }

  function Hear(c: Controller, s: Screen, heard: seq<Heard>): Screen
  {
    if heard == [] then s else HearOne(c, Hear(c, s, heard[..|heard| - 1]), heard[|heard| - 1])
  }

  /** The byte in RAM behind eight rows of a visible column. */
  function Stored(c: Controller, s: Screen, page: nat, x: nat): u8
    requires |s.ram| == PAGES * c.RamWidth() && page < PAGES && x < WIDTH
  {
    s.ram[page * c.RamWidth() + c.ColumnOffset() + x]
  }

  predicate BitOn(b: u8, k: Bit) { IsSet(b as bv8, k) }

  predicate PixelOn(c: Controller, s: Screen, x: int, y: int)
    requires |s.ram| == PAGES * c.RamWidth()
  {
    var row := (y + s.startLine) % HEIGHT;
    OnScreen(x, y) && BitOn(Stored(c, s, row / 8, x), row % 8)
  }

  /** The points that light up on the panel. */
  ghost function Visible(c: Controller, s: Screen): set<Point>
    requires |s.ram| == PAGES * c.RamWidth()
  {
    set x: int, y: int | 0 <= x < WIDTH && 0 <= y < HEIGHT && PixelOn(c, s, x, y) :: (x, y)
  }

  // ----- Hearing -----

  lemma {:induction false} HearConcat(c: Controller, s: Screen, a: seq<Heard>, b: seq<Heard>)
    ensures Hear(c, s, a + b) == Hear(c, Hear(c, s, a), b)
  {
    if b == [] {
      assert a + b == a;
    } else {
      HearConcat(c, s, a, b[..|b| - 1]);
      assert (a + b)[..|a + b| - 1] == a + b[..|b| - 1];
    }
  }

  lemma HearLast(c: Controller, s: Screen, data: bool, bytes: seq<u8>)
    requires bytes != []
    ensures var n := |bytes| - 1;
            Hear(c, s, Tagged(data, bytes)) == HearOne(c, Hear(c, s, Tagged(data, bytes[..n])), Heard(data, bytes[n]))
  {
    assert Tagged(data, bytes)[..|bytes| - 1] == Tagged(data, bytes[..|bytes| - 1]);
  }

  lemma {:induction false} HearKeepsForm(c: Controller, s: Screen, heard: seq<Heard>)
    requires WellFormed(c, s)
    ensures WellFormed(c, Hear(c, s, heard))
  {
    if heard != [] {
      HearKeepsForm(c, s, heard[..|heard| - 1]);
    }
  }

  lemma {:induction false} DataKeepsCommands(c: Controller, s: Screen, bytes: seq<u8>)
    ensures var t := Hear(c, s, Tagged(true, bytes)); t.pending == s.pending && t.startLine == s.startLine
  {
    if bytes != [] {
      HearLast(c, s, true, bytes);
      DataKeepsCommands(c, s, bytes[..|bytes| - 1]);
    }
  }

  lemma HearThree(c: Controller, s: Screen, x: u8, y: u8, z: u8)
    ensures Hear(c, s, Tagged(false, [x, y, z])) == Command(c, Command(c, Command(c, s, x), y), z)
  {
    HearLast(c, s, false, [x, y, z]);
    HearLast(c, s, false, [x, y]);
    HearLast(c, s, false, [x]);
    assert [x, y, z][..2] == [x, y] && [x, y][..1] == [x] && [x][..0] == [];
    assert Hear(c, s, Tagged(false, [])) == s;
  }

  // ----- Horizontal addressing -----

  lemma TaggedConcat(data: bool, a: seq<u8>, b: seq<u8>)
    ensures Tagged(data, a + b) == Tagged(data, a) + Tagged(data, b)
  {
  }

  lemma WindowIsSet(c: Controller, s: Screen)
    requires !c.PageAddressed() && s.pending == []
    ensures Hear(c, s, Tagged(false, WindowCommands()))
         == s.(page := 0, column := 0, firstColumn := 0, lastColumn := 127, firstPage := 0, lastPage := 7)
  {
    var columns, pages := [SET_COLUMN_ADDRESS, 0, 127], [SET_PAGE_ADDRESS, 0, 7];
    assert WindowCommands() == columns + pages;
    TaggedConcat(false, columns, pages);
    HearConcat(c, s, Tagged(false, columns), Tagged(false, pages));
    HearThree(c, s, SET_COLUMN_ADDRESS, 0, 127);
    HearThree(c, Hear(c, s, Tagged(false, columns)), SET_PAGE_ADDRESS, 0, 7);
  }

  ghost predicate FullWindow(s: Screen)
  {
    s.firstColumn == 0 && s.lastColumn == WIDTH - 1 && s.firstPage == 0 && s.lastPage == PAGES - 1
  }

  /** In the full window a byte goes to the next place, and after the last to the first. */
  lemma ByteInWindow(c: Controller, s: Screen, b: u8, n: nat)
    requires !c.PageAddressed() && |s.ram| == LEN && FullWindow(s)
    requires s.page < PAGES && s.column < WIDTH && s.page * WIDTH + s.column == n
    ensures var t := Datum(c, s, b);
            && t.ram == s.ram[n := b] && FullWindow(t) && t.column < WIDTH && t.page < PAGES
            && t.page * WIDTH + t.column == if n == LEN - 1 then 0 else n + 1
  {
  }

  /** Streaming bytes through the full window fills the RAM in order. */
  lemma {:induction false} StreamFillsRam(c: Controller, s: Screen, bytes: seq<u8>)
    requires !c.PageAddressed() && |s.ram| == LEN && |bytes| <= LEN
    requires FullWindow(s) && s.page == 0 && s.column == 0
    ensures var t := Hear(c, s, Tagged(true, bytes));
            && |t.ram| == LEN && FullWindow(t)
            && t.column < WIDTH && t.page < PAGES
            && t.page * WIDTH + t.column == (if |bytes| == LEN then 0 else |bytes|)
            && (forall i :: 0 <= i < |bytes| ==> t.ram[i] == bytes[i])
  {
    if bytes != [] {
      var n := |bytes| - 1;
      HearLast(c, s, true, bytes);
      StreamFillsRam(c, s, bytes[..n]);
      ByteInWindow(c, Hear(c, s, Tagged(true, bytes[..n])), bytes[n], n);
    }
  }

  lemma WindowHoldsFrame(c: Controller, s: Screen, bytes: seq<u8>)
    requires !c.PageAddressed() && WellFormed(c, s) && s.pending == [] && |bytes| == LEN
    ensures var t := Hear(c, s, WindowStream(bytes)); HoldsPages(c, t, bytes, PAGES) && t.startLine == s.startLine
  {
    HearConcat(c, s, Tagged(false, WindowCommands()), Tagged(true, bytes));
    WindowIsSet(c, s);
    var windowed := Hear(c, s, Tagged(false, WindowCommands()));
    StreamFillsRam(c, windowed, bytes);
    DataKeepsCommands(c, windowed, bytes);
    StoredInOrder(c, Hear(c, windowed, Tagged(true, bytes)), bytes);
  }

  lemma StoredInOrder(c: Controller, s: Screen, bytes: seq<u8>)
    requires !c.PageAddressed() && WellFormed(c, s) && s.ram == bytes && |bytes| == LEN
    ensures HoldsPages(c, s, bytes, PAGES)
  {
  }

  // ----- Page addressing -----

  lemma PageIsAddressed(c: Controller, s: Screen, page: nat)
    requires c.PageAddressed() && page < PAGES
    ensures Hear(c, s, Tagged(false, PageCommands(c, page))) == s.(page := page, column := 2)
  {
    assert PageCommands(c, page) == [0x10, 0x02, 0xB0 + page];
    HearThree(c, s, 0x10, 0x02, 0xB0 + page);
  }

  /** Streaming bytes along a page fills it from the pointer on, and touches nothing else. */
  lemma {:induction false} StreamFillsPage(c: Controller, s: Screen, bytes: seq<u8>)
    requires c.PageAddressed() && WellFormed(c, s) && s.page < PAGES && s.column + |bytes| <= c.RamWidth()
    ensures var t := Hear(c, s, Tagged(true, bytes));
            && |t.ram| == |s.ram| && t.page == s.page && t.column == s.column + |bytes|
            && (forall i :: 0 <= i < |t.ram| ==> var k := i - (s.page * c.RamWidth() + s.column);
                  t.ram[i] == if 0 <= k < |bytes| then bytes[k] else s.ram[i])
  {
    if bytes != [] {
      HearLast(c, s, true, bytes);
      StreamFillsPage(c, s, bytes[..|bytes| - 1]);
    }
  }

  /** The first `n` pages of RAM hold the frame's bytes. */
  ghost predicate HoldsPages(c: Controller, s: Screen, bytes: seq<u8>, n: nat)
  {
    && WellFormed(c, s) && |bytes| == LEN
    && forall page: nat, x: nat :: page < n <= PAGES && x < WIDTH ==> Stored(c, s, page, x) == bytes[page * WIDTH + x]
  }

  lemma OnePageHeld(c: Controller, s: Screen, bytes: seq<u8>, n: nat)
    requires c.PageAddressed() && n < PAGES && HoldsPages(c, s, bytes, n)
    ensures HoldsPages(c, Hear(c, s, OnePage(c, bytes, n)), bytes, n + 1)
  {
    var stripe := PageBytes(bytes, n);
    HearConcat(c, s, Tagged(false, PageCommands(c, n)), Tagged(true, stripe));
    PageIsAddressed(c, s, n);
    StreamFillsPage(c, s.(page := n, column := 2), stripe);
    HearKeepsForm(c, s, OnePage(c, bytes, n));
    var t := Hear(c, s, OnePage(c, bytes, n));
    forall page: nat, x: nat | page < n + 1 && x < WIDTH
      ensures Stored(c, t, page, x) == bytes[page * WIDTH + x]
    {
      var i := page * c.RamWidth() + c.ColumnOffset() + x;
      assert t.ram[i] == if page == n then stripe[x] else s.ram[i];
      assert page < n ==> Stored(c, s, page, x) == s.ram[i];
    }
  }

  lemma AnotherPageHeld(c: Controller, s: Screen, bytes: seq<u8>, n: nat)
    requires c.PageAddressed() && |bytes| == LEN && n < PAGES
    requires HoldsPages(c, Hear(c, s, PageStream(c, bytes, n)), bytes, n)
    ensures HoldsPages(c, Hear(c, s, PageStream(c, bytes, n + 1)), bytes, n + 1)
  {
    HearConcat(c, s, PageStream(c, bytes, n), OnePage(c, bytes, n));
    OnePageHeld(c, Hear(c, s, PageStream(c, bytes, n)), bytes, n);
  }

  lemma NoPageHeld(c: Controller, s: Screen, bytes: seq<u8>)
    requires WellFormed(c, s) && |bytes| == LEN
    ensures HoldsPages(c, Hear(c, s, PageStream(c, bytes, 0)), bytes, 0)
  {
  }

  lemma {:induction false} PagesHold(c: Controller, s: Screen, bytes: seq<u8>, n: nat)
    requires c.PageAddressed() && WellFormed(c, s) && |bytes| == LEN && n <= PAGES
    ensures HoldsPages(c, Hear(c, s, PageStream(c, bytes, n)), bytes, n)
  {
    if n == 0 {
      NoPageHeld(c, s, bytes);
    } else {
      PagesHold(c, s, bytes, n - 1);
      AnotherPageHeld(c, s, bytes, n - 1);
    }
  }

  // ----- From bytes to points -----

  lemma ByteBits(b: bv8, k: Bit)
    ensures BitOn(b as int, k) <==> IsSet(b, k)
  {
    assert (b as int) as bv8 == b;
  }

  /** With the frame in RAM, the panel shows it scrolled by the start line. */
  lemma HeldIsVisible(c: Controller, s: Screen, frame: Frame, x: int, y: int)
    requires HoldsPages(c, s, AsBytes(frame), PAGES) && OnScreen(x, y)
    ensures PixelOn(c, s, x, y) <==> LitAt(BitsOf(frame), x, (y + s.startLine) % HEIGHT)
  {
    var row: nat := (y + s.startLine) % HEIGHT;
    ByteHeld(c, s, frame, row / 8, x);
    ByteBits(frame[row / 8 * WIDTH + x], row % 8);
  }

  lemma ByteHeld(c: Controller, s: Screen, frame: Frame, page: nat, x: nat)
    requires HoldsPages(c, s, AsBytes(frame), PAGES) && page < PAGES && x < WIDTH
    ensures Stored(c, s, page, x) == frame[page * WIDTH + x] as int
  {
  }

  lemma VisibleAt(c: Controller, s: Screen, p: Point)
    requires WellFormed(c, s)
    ensures p in Visible(c, s) <==> PixelOn(c, s, p.0, p.1)
  {
  }

  lemma LitPoint(bits: Bits, p: Point)
    ensures p in LitOf(bits) <==> LitAt(bits, p.0, p.1)
  {
  }

  lemma SamePoints(c: Controller, s: Screen, bits: Bits)
    requires WellFormed(c, s) && forall x, y :: PixelOn(c, s, x, y) <==> LitAt(bits, x, y)
    ensures Visible(c, s) == LitOf(bits)
  {
    forall p: Point
      ensures p in Visible(c, s) <==> p in LitOf(bits)
    {
      VisibleAt(c, s, p);
      LitPoint(bits, p);
    }
  }

  /** The panel shows exactly the framebuffer's lit points after this refresh. */
  ghost predicate RefreshShows(c: Controller, s: Screen, frame: Frame)
    requires WellFormed(c, s)
  {
    HearKeepsForm(c, s, Stream(c, frame));
    Visible(c, Hear(c, s, Stream(c, frame))) == LitOf(BitsOf(frame))
  }

  /** Between commands, and not scrolled. */
  predicate Aligned(c: Controller, s: Screen)
  {
    s.startLine == 0 && (c.PageAddressed() || s.pending == [])
  }

  /** Bytes that cannot scroll the panel where commands need no arguments. */
  ghost predicate Harmless(heard: seq<Heard>)
  {
    forall i :: 0 <= i < |heard| ==> heard[i].data || !(0x40 <= heard[i].byte < 0x80)
  }

  lemma {:induction false} HarmlessKeepsStartLine(c: Controller, s: Screen, heard: seq<Heard>)
    requires c.PageAddressed() && Harmless(heard)
    ensures Hear(c, s, heard).startLine == s.startLine
  {
    if heard != [] {
      HarmlessKeepsStartLine(c, s, heard[..|heard| - 1]);
    }
  }

  lemma {:induction false} PagesAreHarmless(c: Controller, bytes: seq<u8>, n: nat)
    requires c.PageAddressed() && |bytes| == LEN && n <= PAGES
    ensures Harmless(PageStream(c, bytes, n))
  {
    if n > 0 {
      PagesAreHarmless(c, bytes, n - 1);
      assert PageCommands(c, n - 1) == [0x10, 0x02, 0xB0 + (n - 1)];
    }
  }

  /** Between commands a whole refresh puts the frame in RAM and does not scroll. */
  lemma RefreshHolds(c: Controller, s: Screen, frame: Frame)
    requires WellFormed(c, s) && (c.PageAddressed() || s.pending == [])
    ensures var t := Hear(c, s, Stream(c, frame)); HoldsPages(c, t, AsBytes(frame), PAGES) && t.startLine == s.startLine
  {
    if c.PageAddressed() {
      PagesHold(c, s, AsBytes(frame), PAGES);
      PagesAreHarmless(c, AsBytes(frame), PAGES);
      HarmlessKeepsStartLine(c, s, Stream(c, frame));
    } else {
      WindowHoldsFrame(c, s, AsBytes(frame));
    }
  }

  lemma HeldUnscrolledAt(c: Controller, s: Screen, frame: Frame, x: int, y: int)
    requires HoldsPages(c, s, AsBytes(frame), PAGES) && s.startLine == 0
    ensures PixelOn(c, s, x, y) <==> LitAt(BitsOf(frame), x, y)
  {
    if OnScreen(x, y) {
      HeldIsVisible(c, s, frame, x, y);
      assert (y + s.startLine) % HEIGHT == y;
    }
  }

  lemma HeldUnscrolled(c: Controller, s: Screen, frame: Frame)
    requires HoldsPages(c, s, AsBytes(frame), PAGES) && s.startLine == 0
    ensures Visible(c, s) == LitOf(BitsOf(frame))
  {
    forall x, y
      ensures PixelOn(c, s, x, y) <==> LitAt(BitsOf(frame), x, y)
    {
      HeldUnscrolledAt(c, s, frame, x, y);
    }
    SamePoints(c, s, BitsOf(frame));
  }

  /** Whatever an aligned controller showed before, and wherever its pointer and window stood,
      a refresh that goes through makes the visible panel the framebuffer. */
  lemma RefreshShowsFrame(c: Controller, s: Screen, frame: Frame)
    requires WellFormed(c, s) && Aligned(c, s)
    ensures RefreshShows(c, s, frame)
  {
    RefreshHolds(c, s, frame);
    HeldUnscrolled(c, Hear(c, s, Stream(c, frame)), frame);
  }

  // ----- Only then -----

  /** One point lit, in the top left corner. */
  const DOT: Frame := BLANK[0 := BLANK[0] | Mask(0)]

  lemma DotIsLit()
    ensures LitOf(BitsOf(BLANK)) == {} && LitOf(BitsOf(DOT)) == {(0, 0)}
  {
    BlankIsDark(BLANK);
    PixelWritten(BLANK, DOT, 0, 0, true);
  }

  lemma HeldScrolled(c: Controller, s: Screen)
    requires HoldsPages(c, s, AsBytes(DOT), PAGES) && s.startLine != 0
    ensures (0, 0) !in Visible(c, s)
  {
    DotIsLit();
    VisibleAt(c, s, (0, 0));
    HeldIsVisible(c, s, DOT, 0, 0);
    LitPoint(BitsOf(DOT), (0, s.startLine));
  }

  lemma ScrolledHidesDot(c: Controller, s: Screen)
    requires WellFormed(c, s) && (c.PageAddressed() || s.pending == []) && s.startLine != 0
    ensures !RefreshShows(c, s, DOT)
  {
    DotIsLit();
    RefreshHolds(c, s, DOT);
    HeldScrolled(c, Hear(c, s, Stream(c, DOT)));
  }

  /** How a command byte moves a controller that takes arguments on. */
  lemma CommandCounts(c: Controller, s: Screen, b: u8)
    requires !c.PageAddressed() && WellFormed(c, s)
    ensures var t := Command(c, s, b);
            && |t.pending| == (if s.pending != [] then (|s.pending| + 1) % 3 else if TakesArguments(b) then 1 else 0)
            && t.startLine == if s.pending == [] && 0x40 <= b < 0x80 then b - 0x40 else s.startLine
  {
  }

  /** Bytes of a command begun after `got` bytes of a refresh, when `owed` bytes of one had
      been begun before it. */
  function Begun(owed: nat, got: nat): nat
  {
    if got >= 6 then 0
    else if got >= 3 then got - 3
    else if owed == 0 then got
    else if owed + got < 3 then owed + got else 0
  }

  lemma BegunStep(owed: nat, n: nat)
    requires owed < 3 && n < 6
    ensures var k, b := Begun(owed, n), WindowCommands()[n];
            && k < 3 && (k == 0 && 0x40 <= b < 0x80 <==> owed != 0 && n == 2)
            && Begun(owed, n + 1) == if k != 0 then (k + 1) % 3 else if TakesArguments(b) then 1 else 0
  {
  }

  /** `n` bytes of a refresh have been heard out of some state. */
  predicate CutAt(s: Screen, owed: nat, line: nat, n: nat)
  {
    |s.pending| == Begun(owed, n) && s.startLine == if owed != 0 && n >= 3 then 63 else line
  }

  lemma CutStep(c: Controller, s: Screen, owed: nat, line: nat, n: nat)
    requires !c.PageAddressed() && WellFormed(c, s) && owed < 3 && n < 6 && CutAt(s, owed, line, n)
    ensures CutAt(Command(c, s, WindowCommands()[n]), owed, line, n + 1)
  {
    CommandCounts(c, s, WindowCommands()[n]);
    BegunStep(owed, n);
  }

  /** Out of step, the window's last column is taken for the command that scrolls to row 63. */
  lemma {:induction false} WindowCut(c: Controller, s: Screen, got: nat)
    requires !c.PageAddressed() && WellFormed(c, s) && got <= 6
    ensures var t := Hear(c, s, Tagged(false, WindowCommands()[..got]));
            WellFormed(c, t) && CutAt(t, |s.pending|, s.startLine, got)
  {
    HearKeepsForm(c, s, Tagged(false, WindowCommands()[..got]));
    if got > 0 {
      var n := got - 1;
      WindowCut(c, s, n);
      var bytes := WindowCommands()[..got];
      HearLast(c, s, false, bytes);
      assert bytes[..n] == WindowCommands()[..n] && bytes[n] == WindowCommands()[n];
      CutStep(c, Hear(c, s, Tagged(false, bytes[..n])), |s.pending|, s.startLine, n);
    }
  }

  /** Where a byte lands does not depend on the byte. */
  lemma SamePlace(c: Controller, t: Screen, u: Screen, x: u8, y: u8, i: nat)
    requires u == t.(ram := u.ram) && |t.ram| == |u.ram| && i < |t.ram|
    ensures var t', u' := Datum(c, t, x), Datum(c, u, y);
            && u' == t'.(ram := u'.ram) && |t'.ram| == |u'.ram| == |t.ram|
            && ((t'.ram[i] == t.ram[i] && u'.ram[i] == u.ram[i]) || (t'.ram[i] == x && u'.ram[i] == y))
  {
  }

  /** Two streams of one length reach the same places, or leave them. */
  lemma {:induction false} SamePlaces(c: Controller, s: Screen, a: seq<u8>, b: seq<u8>, i: nat)
    requires |a| == |b| && i < |s.ram|
    ensures var t, u := Hear(c, s, Tagged(true, a)), Hear(c, s, Tagged(true, b));
            && u == t.(ram := u.ram) && |t.ram| == |u.ram| == |s.ram|
            && (t.ram[i] == u.ram[i] || exists k :: 0 <= k < |a| && t.ram[i] == a[k] && u.ram[i] == b[k])
  {
    if a != [] {
      var n := |a| - 1;
      HearLast(c, s, true, a);
      HearLast(c, s, true, b);
      SamePlaces(c, s, a[..n], b[..n], i);
      SamePlace(c, Hear(c, s, Tagged(true, a[..n])), Hear(c, s, Tagged(true, b[..n])), a[n], b[n], i);
      assert forall k :: 0 <= k < n ==> a[..n][k] == a[k] && b[..n][k] == b[k];
    }
  }

  lemma CornerOf(c: Controller, s: Screen)
    requires WellFormed(c, s) && !c.PageAddressed() && s.startLine == 63
    ensures (0, 0) in Visible(c, s) <==> BitOn(s.ram[7 * WIDTH], 7)
  {
    VisibleAt(c, s, (0, 0));
    assert Stored(c, s, 7, 0) == s.ram[7 * WIDTH];
  }

  /** Scrolled to row 63, the corner shows a bit that the dot's bytes never set. */
  lemma CornerIsOld(c: Controller, w: Screen)
    requires WellFormed(c, w) && !c.PageAddressed() && w.startLine == 63
    ensures var t, u := Hear(c, w, Tagged(true, AsBytes(BLANK))), Hear(c, w, Tagged(true, AsBytes(DOT)));
            && WellFormed(c, t) && WellFormed(c, u) && ((0, 0) in Visible(c, u) ==> (0, 0) in Visible(c, t))
  {
    var blank, dot := AsBytes(BLANK), AsBytes(DOT);
    HearKeepsForm(c, w, Tagged(true, blank));
    HearKeepsForm(c, w, Tagged(true, dot));
    DataKeepsCommands(c, w, blank);
    DataKeepsCommands(c, w, dot);
    SamePlaces(c, w, blank, dot, 7 * WIDTH);
    NoHighBit();
    var t, u := Hear(c, w, Tagged(true, blank)), Hear(c, w, Tagged(true, dot));
    CornerOf(c, t);
    CornerOf(c, u);
  }

  /** Out of step, a blank frame and a dot cannot both come out right. */
  lemma OutOfStepShowsWrong(c: Controller, s: Screen)
    requires WellFormed(c, s) && !c.PageAddressed() && s.pending != []
    ensures !RefreshShows(c, s, BLANK) || !RefreshShows(c, s, DOT)
  {
    DotIsLit();
    assert WindowCommands()[..6] == WindowCommands();
    WindowCut(c, s, 6);
    HearConcat(c, s, Tagged(false, WindowCommands()), Tagged(true, AsBytes(BLANK)));
    HearConcat(c, s, Tagged(false, WindowCommands()), Tagged(true, AsBytes(DOT)));
    CornerIsOld(c, Hear(c, s, Tagged(false, WindowCommands())));
  }

  lemma NoHighBit()
    ensures forall k :: 0 <= k < LEN ==> !BitOn(AsBytes(DOT)[k], 7)
  {
    forall k | 0 <= k < LEN
      ensures !BitOn(AsBytes(DOT)[k], 7)
    {
      ByteBits(DOT[k], 7);
      BlankBytes(7);
      SettingOneBit(0, 0, 7);
    }
  }

  /** The exact condition for refreshes to show what they are given. */
  lemma RefreshShowsIff(c: Controller, s: Screen)
    requires WellFormed(c, s)
    ensures (forall frame: Frame :: RefreshShows(c, s, frame)) <==> Aligned(c, s)
  {
    if Aligned(c, s) {
      forall frame: Frame ensures RefreshShows(c, s, frame) {
        RefreshShowsFrame(c, s, frame);
      }
    } else if c.PageAddressed() || s.pending == [] {
      ScrolledHidesDot(c, s);
    } else {
      OutOfStepShowsWrong(c, s);
    }
  }

  // ----- Runs of refreshes, any of which may be cut short -----

  /** A refresh of which this many bytes were heard. */
  datatype Attempt = Attempt(frame: Frame, got: nat)

  function Part(c: Controller, a: Attempt): (p: seq<Heard>)
    ensures p <= Stream(c, a.frame)
  {
    Stream(c, a.frame)[..Min(a.got, |Stream(c, a.frame)|)]
  }

  function HeardOver(c: Controller, attempts: seq<Attempt>): seq<Heard>
  {
    if attempts == [] then []
    else HeardOver(c, attempts[..|attempts| - 1]) + Part(c, attempts[|attempts| - 1])
  }

  function BegunOver(attempts: seq<Attempt>): (n: nat)
    ensures n < 3
  {
    if attempts == [] then 0 else Begun(BegunOver(attempts[..|attempts| - 1]), attempts[|attempts| - 1].got)
  }

  /** Some refresh got as far as the window's last column while out of step. */
  predicate Scrolled(attempts: seq<Attempt>)
  {
    attempts != []
    && var front, last := attempts[..|attempts| - 1], attempts[|attempts| - 1];
       Scrolled(front) || (BegunOver(front) != 0 && last.got >= 3)
  }

  predicate Intact(attempts: seq<Attempt>) { BegunOver(attempts) == 0 && !Scrolled(attempts) }

  lemma PartOfWindow(c: Controller, a: Attempt)
    requires !c.PageAddressed()
    ensures a.got <= 6 ==> Part(c, a) == Tagged(false, WindowCommands()[..a.got])
    ensures a.got > 6 ==> Part(c, a) == Tagged(false, WindowCommands()) + Tagged(true, AsBytes(a.frame)[..Min(a.got - 6, LEN)])
  {
    assert |WindowCommands()| == 6;
  }

  lemma PartHeard(c: Controller, s: Screen, a: Attempt)
    requires !c.PageAddressed() && WellFormed(c, s)
    ensures var t := Hear(c, s, Part(c, a));
            && |t.pending| == Begun(|s.pending|, a.got)
            && t.startLine == if |s.pending| != 0 && a.got >= 3 then 63 else s.startLine
  {
    PartOfWindow(c, a);
    if a.got <= 6 {
      WindowCut(c, s, a.got);
    } else {
      var data := AsBytes(a.frame)[..Min(a.got - 6, LEN)];
      assert WindowCommands()[..6] == WindowCommands();
      WindowCut(c, s, 6);
      HearConcat(c, s, Tagged(false, WindowCommands()), Tagged(true, data));
      DataKeepsCommands(c, Hear(c, s, Tagged(false, WindowCommands())), data);
    }
  }

  lemma HeardOneMore(c: Controller, s: Screen, attempts: seq<Attempt>)
    requires attempts != []
    ensures var n := |attempts| - 1;
            Hear(c, s, HeardOver(c, attempts)) == Hear(c, Hear(c, s, HeardOver(c, attempts[..n])), Part(c, attempts[n]))
  {
    HearConcat(c, s, HeardOver(c, attempts[..|attempts| - 1]), Part(c, attempts[|attempts| - 1]));
  }

  lemma {:induction false} WindowRun(c: Controller, s: Screen, attempts: seq<Attempt>)
    requires !c.PageAddressed() && WellFormed(c, s) && Aligned(c, s)
    ensures var t := Hear(c, s, HeardOver(c, attempts));
            WellFormed(c, t) && |t.pending| == BegunOver(attempts) && t.startLine == if Scrolled(attempts) then 63 else 0
  {
    HearKeepsForm(c, s, HeardOver(c, attempts));
    if attempts != [] {
      var n := |attempts| - 1;
      WindowRun(c, s, attempts[..n]);
      HeardOneMore(c, s, attempts);
      PartHeard(c, Hear(c, s, HeardOver(c, attempts[..n])), attempts[n]);
    }
  }

  lemma {:induction false} PageRun(c: Controller, s: Screen, attempts: seq<Attempt>)
    requires c.PageAddressed() && Aligned(c, s)
    ensures Aligned(c, Hear(c, s, HeardOver(c, attempts)))
  {
    if attempts != [] {
      var n := |attempts| - 1;
      PageRun(c, s, attempts[..n]);
      HeardOneMore(c, s, attempts);
      PagesAreHarmless(c, AsBytes(attempts[n].frame), PAGES);
      HarmlessKeepsStartLine(c, Hear(c, s, HeardOver(c, attempts[..n])), Part(c, attempts[n]));
    }
  }

  /** What any run of refreshes, wherever each was cut short, leaves of an aligned controller:
      SH1106 always stays aligned, the others exactly under the condition on the cuts. */
  lemma RunStaysAlignedIff(c: Controller, s: Screen, attempts: seq<Attempt>)
    requires WellFormed(c, s) && Aligned(c, s)
    ensures var t := Hear(c, s, HeardOver(c, attempts));
            WellFormed(c, t) && (Aligned(c, t) <==> c.PageAddressed() || Intact(attempts))
  {
    HearKeepsForm(c, s, HeardOver(c, attempts));
    if c.PageAddressed() {
      PageRun(c, s, attempts);
    } else {
      WindowRun(c, s, attempts);
    }
  }

  /** The panel recovers from such a run, so that the next refresh to go through shows what it
      is given, exactly under that condition. */
  lemma PanelRecoversIff(c: Controller, s: Screen, attempts: seq<Attempt>)
    requires WellFormed(c, s) && Aligned(c, s)
    ensures var t := Hear(c, s, HeardOver(c, attempts));
            && WellFormed(c, t)
            && ((forall frame: Frame :: RefreshShows(c, t, frame)) <==> c.PageAddressed() || Intact(attempts))
  {
    RunStaysAlignedIff(c, s, attempts);
    RefreshShowsIff(c, Hear(c, s, HeardOver(c, attempts)));
  }

  /** A refresh cut between two commands, or in its data, does no lasting harm. */
  lemma {:induction false} CleanCutsAreIntact(attempts: seq<Attempt>)
    requires forall i :: 0 <= i < |attempts| ==> attempts[i].got % 3 == 0 || attempts[i].got > 6
    ensures Intact(attempts)
  {
    if attempts != [] {
      CleanCutsAreIntact(attempts[..|attempts| - 1]);
    }
  }

  lemma {:induction false} ScrolledForGood(attempts: seq<Attempt>, more: seq<Attempt>)
    requires Scrolled(attempts)
    ensures Scrolled(attempts + more)
  {
    if more == [] {
      assert attempts + more == attempts;
    } else {
      ScrolledForGood(attempts, more[..|more| - 1]);
      assert (attempts + more)[..|attempts + more| - 1] == attempts + more[..|more| - 1];
    }
  }

  /** SSD1306 and SSD1309: one refresh cut inside a command and one that then goes through
      leave the panel scrolled, whatever refreshes follow. */
  lemma CutCommandLosesThePanel(c: Controller, s: Screen, cut: Attempt, whole: Attempt, more: seq<Attempt>)
    requires !c.PageAddressed() && WellFormed(c, s) && Aligned(c, s)
    requires cut.got < 6 && cut.got % 3 != 0 && whole.got >= 6
    ensures var t := Hear(c, s, HeardOver(c, [cut, whole] + more));
            WellFormed(c, t) && t.startLine == 63 && exists frame: Frame :: !RefreshShows(c, t, frame)
  {
    var first := [cut, whole];
    assert first[..1] == [cut] && [cut][..0] == [];
    assert BegunOver([cut]) == Begun(0, cut.got) by {
      assert BegunOver([]) == 0;
    }
    assert Scrolled(first);
    ScrolledForGood(first, more);
    WindowRun(c, s, first + more);
    PanelRecoversIff(c, s, first + more);
  }
}
