/** What becomes of the simulator's momentary presses and pulses
    (crates/oc-sim/src/simulator.rs), down to the action they cause. */
module Presses {
  import opened Ints
  import opened Platform
  import opened Debounce
  import opened Buttons
  import opened Scenario
  import opened Testing
  import opened Simulation
  import EngineRuns

  /** Something that can be held down for a moment. */
  datatype Contact = OnButton(button: Button) | OnTrigger(channel: TriggerIndex)

  function HoldOf<M>(s: Sim<M>, c: Contact): u32
  {
    match c case OnButton(b) => s.buttons.At(b.Index()) case OnTrigger(i) => s.triggers.At(i)
  }

  function Engaged<M>(d: Device<M>, s: Sim<M>, c: Contact): (r: Sim<M>)
    requires CanApply(s)
    ensures r.recording.Some? <==> s.recording.Some?
  {
    match c case OnButton(b) => Pressed(d, s, b) case OnTrigger(i) => Pulsed(d, s, i)
  }

  /** The level a contact is at after an event. */
  function SetBy(e: Event, c: Contact, level: bool): bool
  {
    match c
    case OnButton(b) => if e.Press? && e.button == b then e.down else level
    case OnTrigger(i) => if e.Trigger? && e.channel == i then e.high else level
  }

  /** `level` reads levels that a tick keeps and that only the contact's own events set. */
  ghost predicate HasContacts<M(!new)>(d: Device<M>, level: (M, Contact) -> bool)
  {
    && (forall m, c :: level(d.tick(m).0, c) == level(m, c))
    && (forall m, c, e :: level(d.change(m, e), c) == SetBy(e, c, level(m, c)))
  }

  /** The raw level of a contact of the module. */
  predicate LevelOf(m: Module, c: Contact)
  {
    match c case OnButton(b) => m.bench.pending.down[b.Index()] case OnTrigger(i) => m.bench.triggers.At(i)
  }

  lemma ModuleHasContacts()
    ensures HasContacts(MODULE, LevelOf)
  {
    forall m: Module, c: Contact
      ensures LevelOf(Tock(m).0, c) == LevelOf(m, c)
    {
    }
    forall m: Module, c: Contact, e: Event
      ensures LevelOf(Input(m, e), c) == SetBy(e, c, LevelOf(m, c))
    {
      if e.Press? && c.OnButton? && e.button != c.button {
        assert ButtonOf(e.button.Index()) != ButtonOf(c.button.Index());
      }
    }
  }

  // ----- Expiry, for any module with contacts -----

  /** From `s` to `r` the contact's hold was counted down, if it was that contact's turn, and
      nothing else happened to it. */
  ghost predicate CountsDown<M(!new)>(level: (M, Contact) -> bool, s: Sim<M>, c: Contact, turn: bool, r: Sim<M>)
  {
    var hold := HoldOf(s, c);
    && HoldOf(r, c) == (if turn && hold > 0 then hold - 1 else hold)
    && level(r.m, c) == (if turn && hold == 1 then false else level(s.m, c))
  }

  lemma CountsDownInTurn<M(!new)>(
      level: (M, Contact) -> bool, s: Sim<M>, c: Contact, first: bool, t: Sim<M>, second: bool, r: Sim<M>)
    requires CountsDown(level, s, c, first, t) && CountsDown(level, t, c, second, r) && !(first && second)
    ensures CountsDown(level, s, c, first || second, r)
  {
  }

  predicate IsButton(c: Contact, from: nat, to: nat) { c.OnButton? && from <= c.button.Index() < to }

  predicate IsTrigger(c: Contact, from: nat, to: nat) { c.OnTrigger? && from <= c.channel < to }

  lemma ButtonExpires<M(!new)>(d: Device<M>, level: (M, Contact) -> bool, s: Sim<M>, c: Contact, i: nat)
    requires HasContacts(d, level) && i < BUTTONS && (CanApply(s) || s.buttons.At(i) != 1)
    ensures CountsDown(level, s, c, IsButton(c, i, i + 1), ExpireButton(d, s, i))
  {
    assert c.OnButton? ==> ButtonOf(c.button.Index()) == c.button;
  }

  lemma TriggerExpires<M(!new)>(d: Device<M>, level: (M, Contact) -> bool, s: Sim<M>, c: Contact, i: nat)
    requires HasContacts(d, level) && i < TRIGGER_CHANNELS && (CanApply(s) || s.triggers.At(i) != 1)
    ensures CountsDown(level, s, c, IsTrigger(c, i, i + 1), ExpireTrigger(d, s, i))
  {
  }

  lemma ButtonExpiresNext<M(!new)>(
      d: Device<M>, level: (M, Contact) -> bool, s: Sim<M>, c: Contact, n: nat, t: Sim<M>, r: Sim<M>)
    requires HasContacts(d, level) && n < BUTTONS && (CanApply(t) || t.buttons.At(n) != 1) && r == ExpireButton(d, t, n)
    requires CountsDown(level, s, c, IsButton(c, 0, n), t)
    ensures CountsDown(level, s, c, IsButton(c, 0, n + 1), r)
  {
    ButtonExpires(d, level, t, c, n);
    CountsDownInTurn(level, s, c, IsButton(c, 0, n), t, IsButton(c, n, n + 1), r);
  }

  lemma TriggerExpiresNext<M(!new)>(
      d: Device<M>, level: (M, Contact) -> bool, s: Sim<M>, c: Contact, n: nat, t: Sim<M>, r: Sim<M>)
    requires HasContacts(d, level) && n < TRIGGER_CHANNELS && (CanApply(t) || t.triggers.At(n) != 1) && r == ExpireTrigger(d, t, n)
    requires CountsDown(level, s, c, IsTrigger(c, 0, n), t)
    ensures CountsDown(level, s, c, IsTrigger(c, 0, n + 1), r)
  {
    TriggerExpires(d, level, t, c, n);
    CountsDownInTurn(level, s, c, IsTrigger(c, 0, n), t, IsTrigger(c, n, n + 1), r);
  }

  lemma {:induction false} ButtonsExpire<M(!new)>(d: Device<M>, level: (M, Contact) -> bool, s: Sim<M>, c: Contact, n: nat)
    requires HasContacts(d, level) && n <= BUTTONS && (CanApply(s) || !RunsOut(s.buttons))
    ensures CountsDown(level, s, c, IsButton(c, 0, n), ExpireButtons(d, s, n))
  {
    if n > 0 {
      ButtonsExpire(d, level, s, c, n - 1);
      ButtonExpiresNext(d, level, s, c, n - 1, ExpireButtons(d, s, n - 1), ExpireButtons(d, s, n));
    }
  }

  lemma {:induction false} TriggersExpire<M(!new)>(d: Device<M>, level: (M, Contact) -> bool, s: Sim<M>, c: Contact, n: nat)
    requires HasContacts(d, level) && n <= TRIGGER_CHANNELS && (CanApply(s) || !RunsOut(s.triggers))
    ensures CountsDown(level, s, c, IsTrigger(c, 0, n), ExpireTriggers(d, s, n))
  {
    if n > 0 {
      TriggersExpire(d, level, s, c, n - 1);
      TriggerExpiresNext(d, level, s, c, n - 1, ExpireTriggers(d, s, n - 1), ExpireTriggers(d, s, n));
    }
  }

  /** A step counts a contact's hold down, and lets the contact go when it runs out. */
  lemma StepCountsDown<M(!new)>(d: Device<M>, level: (M, Contact) -> bool, s: Sim<M>, c: Contact)
    requires HasContacts(d, level) && CanStep(s)
    ensures var r, hold := Stepped(d, s), HoldOf(s, c);
            && HoldOf(r, c) == (if hold > 0 then hold - 1 else 0)
            && level(r.m, c) == if hold == 1 then false else level(s.m, c)
  {
    var t := Ticked(d, s);
    ButtonsExpire(d, level, t, c, BUTTONS);
    TriggersExpire(d, level, ExpireButtons(d, t, BUTTONS), c, TRIGGER_CHANNELS);
  }

  /** So many steps and nothing else do not panic. */
  predicate CanStepOn<M>(d: Device<M>, s: Sim<M>, n: nat)
    decreases n, 0
  {
    n == 0 || (CanStepOn(d, s, n - 1) && CanStep(Steps(d, s, n - 1)))
  }

  function Steps<M>(d: Device<M>, s: Sim<M>, n: nat): (r: Sim<M>)
    requires CanStepOn(d, s, n)
    decreases n, 1
  {
    if n == 0 then s else Stepped(d, Steps(d, s, n - 1))
  }

  lemma {:induction false} HoldRunsOut<M(!new)>(d: Device<M>, level: (M, Contact) -> bool, s: Sim<M>, c: Contact, n: nat)
    requires HasContacts(d, level) && CanStepOn(d, s, n)
    ensures var hold, r := HoldOf(s, c), Steps(d, s, n);
            && HoldOf(r, c) == (if n < hold then hold - n else 0)
            && level(r.m, c) == if 0 < hold <= n then false else level(s.m, c)
  {
    if n > 0 {
      HoldRunsOut(d, level, s, c, n - 1);
      StepCountsDown(d, level, Steps(d, s, n - 1), c);
    }
  }

  lemma EngagedLevel<M(!new)>(d: Device<M>, level: (M, Contact) -> bool, s: Sim<M>, c: Contact)
    requires HasContacts(d, level) && CanApply(s)
    ensures HoldOf(Engaged(d, s, c), c) == PRESS_TICKS && level(Engaged(d, s, c).m, c)
  {
  }

  lemma PressLasts<M(!new)>(d: Device<M>, level: (M, Contact) -> bool, s: Sim<M>, c: Contact, n: nat)
    requires HasContacts(d, level) && CanApply(s) && CanStepOn(d, Engaged(d, s, c), n)
    ensures level(Steps(d, Engaged(d, s, c), n).m, c) <==> n < PRESS_TICKS
  {
    EngagedLevel(d, level, s, c);
    HoldRunsOut(d, level, Engaged(d, s, c), c, n);
  }

  lemma ResetKeeps<M(!new)>(d: Device<M>, level: (M, Contact) -> bool, s: Sim<M>, c: Contact, n: nat)
    requires HasContacts(d, level) && CanApply(s) && CanStepOn(d, Apply(d, s, Reset), n)
    ensures level(Steps(d, Apply(d, s, Reset), n).m, c) == level(s.m, c)
  {
    HoldRunsOut(d, level, Apply(d, s, Reset), c, n);
  }

  // ----- For the module itself -----

  /** A momentary press keeps its button down, and a pulse its trigger high, for exactly six
      ticks, recorded or not and whatever else is held. */
  lemma PressLastsItsTicks(s: Sim<Module>, c: Contact, n: nat)
    requires CanApply(s) && CanStepOn(MODULE, Engaged(MODULE, s, c), n)
    ensures LevelOf(Steps(MODULE, Engaged(MODULE, s, c), n).m, c) <==> n < PRESS_TICKS
  {
    ModuleHasContacts();
    PressLasts(MODULE, LevelOf, s, c, n);
  }

  /** After a reset every button and trigger stays where the reset found it: nothing is left
      that would let go of one that was being held. */
  lemma ResetKeepsLevels(s: Sim<Module>, c: Contact, n: nat)
    requires CanApply(s) && CanStepOn(MODULE, Apply(MODULE, s, Reset), n)
    ensures LevelOf(Steps(MODULE, Apply(MODULE, s, Reset), n).m, c) <==> LevelOf(s.m, c)
  {
    ModuleHasContacts();
    ResetKeeps(MODULE, LevelOf, s, c, n);
  }

  /** So a reset leaves a press or pulse half-completed, for good, exactly when it comes before
      the hold has run out. */
  lemma ResetStrandsIff(s: Sim<Module>, c: Contact, k: nat, n: nat)
    requires CanApply(s) && CanStepOn(MODULE, Engaged(MODULE, s, c), k)
    requires CanApply(Steps(MODULE, Engaged(MODULE, s, c), k))
    requires CanStepOn(MODULE, Apply(MODULE, Steps(MODULE, Engaged(MODULE, s, c), k), Reset), n)
    ensures LevelOf(Steps(MODULE, Apply(MODULE, Steps(MODULE, Engaged(MODULE, s, c), k), Reset), n).m, c) <==> k < PRESS_TICKS
  {
    PressLastsItsTicks(s, c, k);
    ResetKeepsLevels(Steps(MODULE, Engaged(MODULE, s, c), k), c, n);
  }

  // ----- The action a press causes -----

  const SETTLE_TICKS := PRESS_TICKS + DEFAULT_STABLE_SAMPLES + 1

  function RawOf<M>(level: (M, Contact) -> bool, m: M): PerButton
  {
    PerButton(level(m, OnButton(LeftEncoder)), level(m, OnButton(RightEncoder)), level(m, OnButton(Up)), level(m, OnButton(Down)))
  }

  /** `reader` is a button reader that every tick feeds and that only a reset replaces. */
  ghost predicate HasReader<M(!new)>(d: Device<M>, level: (M, Contact) -> bool, reader: M -> ReaderState)
  {
    && (forall m :: reader(d.tick(m).0) == ReaderNext(reader(m), RawOf(level, m)).0)
    && (forall m, e: Event :: !e.Reset? ==> reader(d.change(m, e)) == reader(m))
  }

  function ReaderOf(m: Module): ReaderState { m.core.buttons }

  lemma ModuleHasReader()
    ensures HasReader(MODULE, LevelOf, ReaderOf)
  {
    forall m: Module
      ensures ReaderOf(Tock(m).0) == ReaderNext(ReaderOf(m), RawOf(LevelOf, m)).0
    {
      assert RawOf(LevelOf, m) == ByButton(m.bench.pending.down);
    }
  }

  lemma StepReads<M(!new)>(d: Device<M>, level: (M, Contact) -> bool, reader: M -> ReaderState, s: Sim<M>)
    requires HasReader(d, level, reader) && CanStep(s)
    ensures reader(Stepped(d, s).m) == ReaderNext(reader(s.m), RawOf(level, s.m)).0
  {
    StepShows(d, reader, s);
  }

  /** One button down, or none. */
  function Only(b: Button, down: bool): PerButton
  {
    PerButton(down && b == LeftEncoder, down && b == RightEncoder, down && b == Up, down && b == Down)
  }

  /** The contact of a pressed button `k` ticks into its press: three samples to settle down,
      and three more once it has been let go. */
  function ContactAt(k: nat): DebouncerState
  {
    if k < 3 then DebouncerState(false, k > 0, k, 3)
    else if k <= 6 then DebouncerState(true, true, 0, 3)
    else if k <= 8 then DebouncerState(true, false, k - 6, 3)
    else DebouncerState(false, false, 0, 3)
  }

  /** What can be done to the buttons for a moment: one pressed, or the two of the chord. */
  datatype Gesture = Pressing(button: Button) | Chording

  function Begun<M>(d: Device<M>, s: Sim<M>, g: Gesture): Sim<M>
    requires CanApply(s)
  {
    match g case Pressing(b) => Pressed(d, s, b) case Chording => Chorded(d, s)
  }

  /** Which buttons are down `k` ticks later. */
  function RawAt(g: Gesture, k: nat): PerButton
  {
    match g
    case Pressing(b) => Only(b, k < PRESS_TICKS)
    case Chording => PerButton(false, false, k < PRESS_TICKS, k < PRESS_TICKS)
  }

  predicate Takes(g: Gesture, b: Button) { match g case Pressing(p) => p == b case Chording => b == Up || b == Down }

  /** What the button reader has made of it by then. */
  function ReaderInto(g: Gesture, k: nat): ReaderState
  {
    ReaderState(
      Contacts(ContactInto(g, LeftEncoder, k), ContactInto(g, RightEncoder, k), ContactInto(g, Up, k), ContactInto(g, Down, k)),
      Arbiter(g == Pressing(Up) && 3 <= k <= 8, g == Pressing(Down) && 3 <= k <= 8, g.Chording? && 3 <= k <= 8))
  }

  function ContactInto(g: Gesture, b: Button, k: nat): DebouncerState
  {
    if Takes(g, b) then ContactAt(k) else Initial(DEFAULT_STABLE_SAMPLES)
  }

  /** When a press acts: an encoder switch as soon as it has settled, `up` and `down` once their
      release has. */
  function ActsOn(b: Button): nat { if b == Up || b == Down then 8 else 2 }

  /** The chord does as soon as both its buttons have settled. */
  const CHORDS_ON: nat := 2

  function PressedAt(g: Gesture, k: nat): PerButton
  {
    match g case Pressing(b) => Only(b, k == ActsOn(b)) case Chording => NONE
  }

  predicate ChordsAt(g: Gesture, k: nat) { g.Chording? && k == CHORDS_ON }

  lemma ContactNext(k: nat)
    ensures Next(ContactAt(k), k < PRESS_TICKS) == ContactAt(k + 1)
    ensures Next(Initial(DEFAULT_STABLE_SAMPLES), false) == Initial(DEFAULT_STABLE_SAMPLES)
  {
  }

  lemma ReaderIntoNext(g: Gesture, k: nat)
    ensures var (next, events) := ReaderNext(ReaderInto(g, k), RawAt(g, k));
            next == ReaderInto(g, k + 1) && events.pressed == PressedAt(g, k) && events.menuChord == ChordsAt(g, k)
  {
    ContactNext(k);
  }

  /** Nothing held, nothing down and nothing remembered. */
  ghost predicate AtRest<M>(s: Sim<M>, level: (M, Contact) -> bool, reader: M -> ReaderState)
  {
    s.buttons == NO_HOLDS && RawOf(level, s.m) == NONE && reader(s.m) == ReaderInitial()
  }

  lemma GestureReadOn<M(!new)>(
      d: Device<M>, level: (M, Contact) -> bool, reader: M -> ReaderState, s: Sim<M>, g: Gesture, k: nat)
    requires HasReader(d, level, reader) && CanStep(s)
    requires reader(s.m) == ReaderInto(g, k) && RawOf(level, s.m) == RawAt(g, k)
    ensures reader(Stepped(d, s).m) == ReaderInto(g, k + 1)
  {
    StepReads(d, level, reader, s);
    ReaderIntoNext(g, k);
  }

  lemma GestureReadFirst<M(!new)>(
      d: Device<M>, level: (M, Contact) -> bool, reader: M -> ReaderState, s: Sim<M>, g: Gesture)
    requires HasReader(d, level, reader) && AtRest(s, level, reader) && CanApply(s)
    ensures reader(Begun(d, s, g).m) == ReaderInto(g, 0)
  {
  }

  lemma {:induction false} GestureIsRead<M(!new)>(
      d: Device<M>, level: (M, Contact) -> bool, reader: M -> ReaderState, t: Sim<M>, g: Gesture, k: nat)
    requires HasReader(d, level, reader) && CanStepOn(d, t, k) && reader(t.m) == ReaderInto(g, 0)
    requires forall i: nat :: i < k ==> IsRawAt(d, level, t, g, i)
    ensures reader(Steps(d, t, k).m) == ReaderInto(g, k)
  {
    if k > 0 {
      GestureIsRead(d, level, reader, t, g, k - 1);
      assert IsRawAt(d, level, t, g, k - 1);
      GestureReadOn(d, level, reader, Steps(d, t, k - 1), g, k - 1);
    }
  }

  ghost predicate IsRawAt<M>(d: Device<M>, level: (M, Contact) -> bool, t: Sim<M>, g: Gesture, k: nat)
  {
    CanStepOn(d, t, k) && RawOf(level, Steps(d, t, k).m) == RawAt(g, k)
  }

  lemma {:induction false} CanStepLess<M>(d: Device<M>, t: Sim<M>, k: nat, i: nat)
    requires CanStepOn(d, t, k) && i <= k
    ensures CanStepOn(d, t, i)
  {
    if i < k {
      CanStepLess(d, t, k - 1, i);
    }
  }

  /** What a gesture begins with. */
  lemma GestureHolds<M(!new)>(d: Device<M>, level: (M, Contact) -> bool, s: Sim<M>, g: Gesture, b: Button)
    requires HasContacts(d, level) && CanApply(s) && s.buttons == NO_HOLDS && RawOf(level, s.m) == NONE
    ensures var t := Begun(d, s, g);
            && HoldOf(t, OnButton(b)) == (if Takes(g, b) then PRESS_TICKS else 0)
            && level(t.m, OnButton(b)) == Takes(g, b)
  {
    assert !level(s.m, OnButton(b));
  }

  lemma GestureRaw<M(!new)>(d: Device<M>, level: (M, Contact) -> bool, s: Sim<M>, t: Sim<M>, g: Gesture, k: nat)
    requires HasContacts(d, level) && CanApply(s) && t == Begun(d, s, g) && CanStepOn(d, t, k)
    requires s.buttons == NO_HOLDS && RawOf(level, s.m) == NONE
    ensures IsRawAt(d, level, t, g, k)
  {
    GestureRawOf(d, level, s, t, g, k, LeftEncoder);
    GestureRawOf(d, level, s, t, g, k, RightEncoder);
    GestureRawOf(d, level, s, t, g, k, Up);
    GestureRawOf(d, level, s, t, g, k, Down);
  }

  lemma GestureRawOf<M(!new)>(d: Device<M>, level: (M, Contact) -> bool, s: Sim<M>, t: Sim<M>, g: Gesture, k: nat, b: Button)
    requires HasContacts(d, level) && CanApply(s) && t == Begun(d, s, g) && CanStepOn(d, t, k)
    requires s.buttons == NO_HOLDS && RawOf(level, s.m) == NONE
    ensures level(Steps(d, t, k).m, OnButton(b)) == (Takes(g, b) && k < PRESS_TICKS)
  {
    GestureHolds(d, level, s, g, b);
    HoldRunsOut(d, level, t, OnButton(b), k);
  }

  /** What the module's next tick reports of its buttons. */
  function Reported(m: Module): ButtonEvents { EngineRuns.Events(m.core, Sense(m.bench)) }

  predicate Reports(m: Module, g: Gesture, k: nat)
  {
    Reported(m).pressed == PressedAt(g, k) && Reported(m).menuChord == ChordsAt(g, k)
  }

  lemma IntoGestureReports(m: Module, g: Gesture, k: nat)
    requires ReaderOf(m) == ReaderInto(g, k) && RawOf(LevelOf, m) == RawAt(g, k)
    ensures Reports(m, g, k)
  {
    ReaderIntoNext(g, k);
    assert RawOf(LevelOf, m) == ByButton(m.bench.pending.down);
  }

  lemma GestureReportsOnce(s: Sim<Module>, g: Gesture, k: nat)
    requires AtRest(s, LevelOf, ReaderOf) && CanApply(s) && CanStepOn(MODULE, Begun(MODULE, s, g), k)
    ensures Reports(Steps(MODULE, Begun(MODULE, s, g), k).m, g, k)
  {
    ModuleHasContacts();
    ModuleHasReader();
    var t := Begun(MODULE, s, g);
    forall i: nat | i <= k
      ensures IsRawAt(MODULE, LevelOf, t, g, i)
    {
      CanStepLess(MODULE, t, k, i);
      GestureRaw(MODULE, LevelOf, s, t, g, i);
    }
    GestureReadFirst(MODULE, LevelOf, ReaderOf, s, g);
    GestureIsRead(MODULE, LevelOf, ReaderOf, t, g, k);
    assert IsRawAt(MODULE, LevelOf, t, g, k);
    IntoGestureReports(Steps(MODULE, t, k).m, g, k);
  }

  /** From rest, a momentary press is reported as its button's action on exactly one tick, always
      within the ticks a caller is told to wait, and no other action and no chord on any. */
  lemma PressReportsOnce(s: Sim<Module>, b: Button, k: nat)
    requires AtRest(s, LevelOf, ReaderOf) && CanApply(s) && CanStepOn(MODULE, Pressed(MODULE, s, b), k)
    ensures var events := Reported(Steps(MODULE, Pressed(MODULE, s, b), k).m);
            events.pressed == Only(b, k == ActsOn(b)) && !events.menuChord
    ensures ActsOn(b) < SETTLE_TICKS
  {
    GestureReportsOnce(s, Pressing(b), k);
  }

  /** And the chord as a chord on exactly one, and never as a press of either of its buttons. */
  lemma ChordReportsOnce(s: Sim<Module>, k: nat)
    requires AtRest(s, LevelOf, ReaderOf) && CanApply(s) && CanStepOn(MODULE, Chorded(MODULE, s), k)
    ensures var events := Reported(Steps(MODULE, Chorded(MODULE, s), k).m);
            events.pressed == NONE && (events.menuChord <==> k == 2)
  {
    GestureReportsOnce(s, Chording, k);
  }
}
