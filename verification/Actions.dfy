/** What a momentary press on the simulated module does in the end: to the running applet, to
    the menu, or during the boot animation (crates/oc-sim/src/simulator.rs,
    crates/oc-core/src/engine.rs). */
module Actions {
  import opened Ints
  import opened Platform
  import opened Buttons
  import opened Applets
  import opened Ticks
  import opened Testing
  import opened Simulation
  import opened Presses
  import AppletRuns
  import EngineRuns
  import Menu
  import Splash

  // ----- Waiting after a press -----

  /** The engine, the movement waiting to be polled, and the clock. */
  datatype Inner = Inner(core: Core, delta: Detents, now: u64, cost: u64)

  function InnerOf(m: Module): Inner { Inner(m.core, m.bench.pending.delta, m.bench.now, m.bench.cost) }

  lemma ModuleKeeps()
    ensures KeptByContacts(MODULE, InnerOf)
  {
  }

  predicate CanWait(s: Sim<Module>, g: Gesture, n: nat)
  {
    CanApply(s) && CanStepOn(MODULE, Begun(MODULE, s, g), n)
  }

  /** The module `n` ticks after a press or a chord. */
  function After(s: Sim<Module>, g: Gesture, n: nat): Module
    requires CanWait(s, g, n)
  {
    Steps(MODULE, Begun(MODULE, s, g), n).m
  }

  lemma BeginningKeeps<M(!new), V>(d: Device<M>, view: M -> V, s: Sim<M>, g: Gesture)
    requires KeptByContacts(d, view) && CanApply(s)
    ensures view(Begun(d, s, g).m) == view(s.m)
  {
  }

  lemma AtFirst(s: Sim<Module>, g: Gesture)
    requires CanWait(s, g, 0)
    ensures InnerOf(After(s, g, 0)) == InnerOf(s.m)
  {
    ModuleKeeps();
    BeginningKeeps(MODULE, InnerOf, s, g);
  }

  lemma OneTickOn(s: Sim<Module>, g: Gesture, k: nat)
    requires CanWait(s, g, k + 1)
    ensures CanWait(s, g, k) && InnerOf(After(s, g, k + 1)) == InnerOf(Tock(After(s, g, k)).0)
  {
    ModuleKeeps();
    StepShows(MODULE, InnerOf, Steps(MODULE, Begun(MODULE, s, g), k));
  }

  lemma CanWaitLess(s: Sim<Module>, g: Gesture, n: nat, k: nat)
    requires CanWait(s, g, n) && k <= n
    ensures CanWait(s, g, k)
  {
    CanStepLess(MODULE, Begun(MODULE, s, g), n, k);
  }

  // ----- One tick -----

  /** What the diagnostic applet's controls have been set to: every action changes it. */
  function DialsOf(c: Core): Dials { c.host.diagnostic.dials }

  /** Between these two cores the diagnostic applet ran and was shown the panel. */
  predicate SeesPanel(c: Core, next: Core)
  {
    c.screen != SplashUp && next.screen != MenuUp && next.host.current == Diagnostic
  }

  /** What one tick makes of some movement, some actions and perhaps a chord.  Under the splash they
      are lost; an applet is run by them; the menu moves its highlight and launches, unless the
      chord closes it. */
  predicate Acted(c: Core, delta: Detents, pressed: PerButton, chord: bool, next: Core)
  {
    && (c.screen == SplashUp ==>
          next.screen != MenuUp && next.host.current == c.host.current && next.selected == c.selected)
    && (c.screen == AppUp ==>
          && next.host.current == c.host.current
          && (if chord then next.screen == MenuUp && next.selected == c.host.current.Index()
              else next.screen == AppUp && next.selected == c.selected))
    && (c.screen == MenuUp && chord ==>
          next.screen == AppUp && next.host.current == c.host.current && next.selected == c.selected)
    && (c.screen == MenuUp && !chord ==>
          && next.selected == Menu.Moved(c.selected, Menu.Steps(pressed, delta[0]))
          && (if Menu.Launches(pressed) then next.screen == AppUp && next.host.current == AppOf(next.selected)
              else next.screen == MenuUp && next.host.current == c.host.current))
    && DialsOf(next) == if SeesPanel(c, next) then Act(Turn(DialsOf(c), delta), pressed) else DialsOf(c)
  }

  lemma FedDials(h: HostState, screen: Screen, snapshot: Snapshot)
    ensures HostNext(h, FedTo(screen, snapshot)).0.diagnostic.dials
         == if screen != MenuUp && h.current == Diagnostic
            then Act(Turn(h.diagnostic.dials, snapshot.controls.delta), snapshot.buttons.pressed)
            else h.diagnostic.dials
  {
    AppletRuns.SilenceKeepsDials(h.diagnostic, snapshot);
  }

  lemma TickActs(c: Core, s: Sensed)
    requires Ready(c)
    ensures var events := EngineRuns.Events(c, s);
            Acted(c, s.controls.delta, events.pressed, events.menuChord, Tick(c, s).core)
  {
    if c.screen == SplashUp {
      EngineRuns.SplashTickParts(c, s);
    } else {
      EngineRuns.AppTickParts(c, s);
      var next := Tick(c, s).core;
      FedDials(c.host.(current := next.host.current), next.screen,
               SnapshotOf(s, EngineRuns.Events(c, s), EngineRuns.Elapsed(c, s)));
    }
  }

  // ----- A gesture and the ticks after it -----

  /** The next tick, number `k` after the gesture, acts on it if that is due and on nothing else. */
  predicate ActsAt(m: Module, g: Gesture, k: nat, next: Module)
  {
    && Acted(m.core, m.bench.pending.delta, PressedAt(g, k), ChordsAt(g, k), next.core)
    && next.bench.pending.delta == NO_DETENTS
  }

  lemma TockActs(m: Module, g: Gesture, k: nat, next: Module)
    requires Reports(m, g, k) && InnerOf(next) == InnerOf(Tock(m).0)
    ensures ActsAt(m, g, k, next)
  {
    TickActs(m.core, Sense(Advanced(m.bench, TICK_MICROS)));
  }

  lemma GestureActs(s: Sim<Module>, g: Gesture, k: nat)
    requires AtRest(s, LevelOf, ReaderOf) && CanWait(s, g, k) && CanWait(s, g, k + 1)
    ensures ActsAt(After(s, g, k), g, k, After(s, g, k + 1))
  {
    OneTickOn(s, g, k);
    GestureReportsOnce(s, g, k);
    TockActs(After(s, g, k), g, k, After(s, g, k + 1));
  }

  // ----- How long the splash stays up -----

  /** What tick number `k` from now, counting from zero, is told has passed: the clock's distance
      to the first, and from then on the same distance from each to the next. */
  function ElapsedOn(m: Module, k: nat): u32
  {
    if k == 0 then ElapsedSince(m.core.previous, WrappingAdd64(m.bench.now, TICK_MICROS)) else TickTime(m.bench.cost)
  }

  /** The time the splash has been told of `k` ticks from now. */
  function SplashTime(m: Module, k: nat): nat
  {
    if k == 0 then m.core.splash else SplashTime(m, k - 1) + ElapsedOn(m, k - 1)
  }

  /** The time from one tick to the next: two clock readings and the simulator's advance. */
  function TickTime(cost: u64): u32 { ClampDuration(WrappingAdd64(WrappingAdd64(cost, cost), TICK_MICROS)) }

  /** The splash is still up `k` ticks from now. */
  predicate SplashHolds(m: Module, k: nat)
  {
    m.core.screen == SplashUp && SplashTime(m, k) < Splash.DURATION_MICROS
  }

  /** The module `k` ticks after `start`, as far as the splash goes. */
  ghost predicate Timed(start: Module, k: nat, m: Module)
  {
    && m.bench.cost == start.bench.cost
    && (if k == 0 then InnerOf(m) == InnerOf(start)
        else m.core.previous.Some? && m.bench.now == Later(m.core.previous.value, m.bench.cost))
    && (m.core.screen == SplashUp <==> if k == 0 then start.core.screen == SplashUp else SplashHolds(start, k))
    && (m.core.screen == SplashUp ==> m.core.splash == SplashTime(start, k))
  }

  /** Where the clock stands after a tick that began at `started`. */
  function Later(started: u64, cost: u64): u64 { WrappingAdd64(WrappingAdd64(started, cost), cost) }

  lemma WrapsOnce(x: nat)
    requires x <= 2 * U64_MAX
    ensures x % 0x1_0000_0000_0000_0000 == if x <= U64_MAX then x else x - U64_MAX - 1
  {
  }

  lemma AddsUp(x: u64, a: u64, b: u64)
    ensures WrappingAdd64(WrappingAdd64(x, a), b) == WrappingAdd64(x, WrappingAdd64(a, b))
  {
    WrapsOnce(x + a);
    WrapsOnce(a + b);
    WrapsOnce(WrappingAdd64(x, a) + b);
    WrapsOnce(x + WrappingAdd64(a, b));
  }

  lemma IsAhead(x: u64, d: u64)
    ensures WrappingSub64(WrappingAdd64(x, d), x) == d
  {
    WrapsOnce(x + d);
  }

  lemma TicksAreEven(started: u64, cost: u64)
    ensures ElapsedSince(Some(started), WrappingAdd64(Later(started, cost), TICK_MICROS)) == TickTime(cost)
  {
    AddsUp(started, cost, cost);
    AddsUp(started, WrappingAdd64(cost, cost), TICK_MICROS);
    IsAhead(started, WrappingAdd64(WrappingAdd64(cost, cost), TICK_MICROS));
  }

  lemma TockClock(m: Module)
    ensures var next, started := Tock(m).0, WrappingAdd64(m.bench.now, TICK_MICROS);
            && next.core.previous == Some(started)
            && next.bench.now == Later(started, m.bench.cost) && next.bench.cost == m.bench.cost
            && (next.core.screen == SplashUp <==> m.core.screen == SplashUp && !Splash.Done(next.core.splash))
            && (m.core.screen == SplashUp ==>
                  next.core.splash == SatAdd32(m.core.splash, ElapsedSince(m.core.previous, started)))
  {
    var s := Sense(Advanced(m.bench, TICK_MICROS));
    if m.core.screen == SplashUp { EngineRuns.SplashTickParts(m.core, s); } else { EngineRuns.AppTickParts(m.core, s); }
  }

  lemma TimedStep(start: Module, k: nat, m: Module, next: Module)
    requires Timed(start, k, m) && InnerOf(next) == InnerOf(Tock(m).0)
    ensures Timed(start, k + 1, next)
  {
    TockClock(m);
    if k > 0 { TicksAreEven(m.core.previous.value, m.bench.cost); }
    assert next.core == Tock(m).0.core && next.bench.now == Tock(m).0.bench.now && next.bench.cost == Tock(m).0.bench.cost;
  }

  lemma TimedOn(s: Sim<Module>, g: Gesture, k: nat)
    requires CanWait(s, g, k) && CanWait(s, g, k + 1) && Timed(s.m, k, After(s, g, k))
    ensures Timed(s.m, k + 1, After(s, g, k + 1))
  {
    OneTickOn(s, g, k);
    TimedStep(s.m, k, After(s, g, k), After(s, g, k + 1));
  }

  lemma {:induction false} SplashIsTimed(s: Sim<Module>, g: Gesture, n: nat)
    requires CanWait(s, g, n)
    ensures Timed(s.m, n, After(s, g, n))
  {
    if n == 0 {
      AtFirst(s, g);
    } else {
      SplashIsTimed(s, g, n - 1);
      TimedOn(s, g, n - 1);
    }
  }

  // ----- What becomes of a press -----

  lemma NothingToDo(d: Dials, selected: AppIndex)
    ensures Turn(d, NO_DETENTS) == d && Act(d, NONE) == d && Menu.Moved(selected, 0) == selected
  {
  }

  /** The diagnostic applet's controls `n` ticks after a press: the first tick takes the movement
      that was waiting, and the press acts when it is due, unless the boot animation is still up. */
  function DialsAfter(m: Module, b: Button, n: nat): Dials
  {
    if n == 0 || m.core.host.current != Diagnostic then DialsOf(m.core)
    else
      var turned := if m.core.screen == SplashUp then DialsOf(m.core) else Turn(DialsOf(m.core), m.bench.pending.delta);
      if ActsOn(b) < n && !SplashHolds(m, ActsOn(b)) then Act(turned, Only(b, true)) else turned
  }

  /** The module `n` ticks after a press that found the menu down. */
  predicate Fired(start: Module, b: Button, n: nat, m: Module)
  {
    && m.core.screen != MenuUp && m.core.host.current == start.core.host.current && m.core.selected == start.core.selected
    && m.bench.pending.delta == (if n == 0 then start.bench.pending.delta else NO_DETENTS)
    && DialsOf(m.core) == DialsAfter(start, b, n)
  }

  lemma FiredStep(start: Module, b: Button, k: nat, m: Module, next: Module)
    requires start.core.screen != MenuUp && Fired(start, b, k, m) && ActsAt(m, Pressing(b), k, next) && Timed(start, k, m)
    ensures Fired(start, b, k + 1, next)
  {
    NothingToDo(DialsOf(m.core), m.core.selected);
  }

  /** A momentary press with the menu down acts once on the diagnostic applet, if that is running,
      on the tick its button is due, and does nothing at all if the boot animation is still up by
      then.  It never opens the menu or changes the running app. */
  lemma {:induction false} PressFiresUnlessBooting(s: Sim<Module>, b: Button, n: nat)
    requires AtRest(s, LevelOf, ReaderOf) && CanWait(s, Pressing(b), n) && s.m.core.screen != MenuUp
    ensures Fired(s.m, b, n, After(s, Pressing(b), n))
  {
    if n == 0 {
      AtFirst(s, Pressing(b));
      var inner := InnerOf(After(s, Pressing(b), 0));
      assert inner.core == s.m.core && inner.delta == s.m.bench.pending.delta;
    } else {
      var k := n - 1;
      CanWaitLess(s, Pressing(b), n, k);
      PressFiresUnlessBooting(s, b, k);
      GestureActs(s, Pressing(b), k);
      SplashIsTimed(s, Pressing(b), k);
      FiredStep(s.m, b, k, After(s, Pressing(b), k), After(s, Pressing(b), n));
    }
  }

  /** How often the diagnostic applet has seen a button's action. */
  function Count(c: Core, a: Button): u32 { DialsOf(c).presses.At(a.Index()) }

  lemma ActCounts(d: Dials, b: Button, a: Button)
    ensures Act(d, Only(b, true)).presses.At(a.Index()) == CountPress(a == b, d.presses.At(a.Index()))
  {
  }

  /** With the diagnostic applet running, the press has been counted exactly when its tick has
      passed and found the boot animation over, and no other button's ever is. */
  lemma PressCountsUnlessBooting(s: Sim<Module>, b: Button, n: nat, a: Button)
    requires AtRest(s, LevelOf, ReaderOf) && CanWait(s, Pressing(b), n)
    requires s.m.core.screen != MenuUp && s.m.core.host.current == Diagnostic
    ensures Count(After(s, Pressing(b), n).core, a)
         == CountPress(a == b && ActsOn(b) < n && !SplashHolds(s.m, ActsOn(b)), Count(s.m.core, a))
  {
    PressFiresUnlessBooting(s, b, n);
    var dials := DialsOf(s.m.core);
    var turned := if s.m.core.screen == SplashUp then dials else Turn(dials, s.m.bench.pending.delta);
    ActCounts(turned, b, a);
  }

  lemma {:induction false} FreshSplashTime(k: nat)
    ensures SplashTime(SimInitial().m, k) == if k == 0 then 0 else 1_240 * (k - 1)
  {
    if k > 0 {
      FreshSplashTime(k - 1);
      WrapsOnce(TICK_MICROS + 2 * TICK_COST_MICROS);
    }
  }

  /** A simulator that has just been started is through its boot animation after 1211 ticks: of a
      millisecond and two readings of the clock each, but for the first, which has no one before it
      to be measured from. */
  lemma BootingTakes(k: nat)
    ensures SplashHolds(SimInitial().m, k) <==> k < 1_211
  {
    FreshSplashTime(k);
  }

  /** A press on a simulator that has just been started is lost, however long one waits: the
      animation is still up on the tick it would act on. */
  lemma FreshPressIsLost(b: Button, n: nat)
    requires CanWait(SimInitial(), Pressing(b), n)
    ensures DialsOf(After(SimInitial(), Pressing(b), n).core) == DialsOf(CoreInitial())
    ensures After(SimInitial(), Pressing(b), n).core.screen != MenuUp
    ensures After(SimInitial(), Pressing(b), n).core.host.current == Diagnostic
  {
    PressFiresUnlessBooting(SimInitial(), b, n);
    BootingTakes(ActsOn(b));
  }

  // ----- In the menu -----

  /** The highlight `n` ticks after a press: the first tick takes the detents that were waiting,
      and `up` and `down` move it when they are due. */
  function HighlightAfter(selected: AppIndex, delta: i8, b: Button, n: nat): AppIndex
  {
    if n == 0 then selected
    else if n <= ActsOn(b) then Menu.Moved(selected, delta)
    else Menu.Moved(Menu.Moved(selected, delta), if b == Down then 1 else if b == Up then -1 else 0)
  }

  predicate IsSwitch(b: Button) { b == LeftEncoder || b == RightEncoder }

  /** The module `n` ticks after a press that found the menu up. */
  predicate Picked(start: Module, b: Button, n: nat, m: Module)
  {
    var launched := IsSwitch(b) && ActsOn(b) < n;
    && m.core.selected == HighlightAfter(start.core.selected, start.bench.pending.delta[0], b, n)
    && m.core.screen == (if launched then AppUp else MenuUp)
    && m.core.host.current == (if launched then AppOf(m.core.selected) else start.core.host.current)
    && m.bench.pending.delta == (if n == 0 then start.bench.pending.delta else NO_DETENTS)
    && DialsOf(m.core)
       == if launched && m.core.host.current == Diagnostic then Act(DialsOf(start.core), Only(b, true)) else DialsOf(start.core)
  }

  lemma PickedStep(start: Module, b: Button, k: nat, m: Module, next: Module)
    requires Picked(start, b, k, m) && ActsAt(m, Pressing(b), k, next)
    ensures Picked(start, b, k + 1, next)
  {
    NothingToDo(DialsOf(m.core), m.core.selected);
  }

  /** A momentary press in the menu moves the highlight by one, or launches the highlighted app
      and closes the menu; of the applets only a diagnostic it launches is acted on. */
  lemma {:induction false} PressPicks(s: Sim<Module>, b: Button, n: nat)
    requires AtRest(s, LevelOf, ReaderOf) && CanWait(s, Pressing(b), n) && s.m.core.screen == MenuUp
    ensures Picked(s.m, b, n, After(s, Pressing(b), n))
  {
    if n == 0 {
      AtFirst(s, Pressing(b));
      var inner := InnerOf(After(s, Pressing(b), 0));
      assert inner.core == s.m.core && inner.delta == s.m.bench.pending.delta;
    } else {
      var k := n - 1;
      CanWaitLess(s, Pressing(b), n, k);
      PressPicks(s, b, k);
      GestureActs(s, Pressing(b), k);
      PickedStep(s.m, b, k, After(s, Pressing(b), k), After(s, Pressing(b), n));
    }
  }

  // ----- The chord -----

  /** The module `n` ticks after a chord: the menu toggled when that is due, its highlight on the
      running app when it opens and moved by what was waiting when it closes, and nothing at all
      under the boot animation. */
  predicate Toggled(start: Module, n: nat, m: Module)
  {
    var due := CHORDS_ON < n && !SplashHolds(start, CHORDS_ON);
    var seen := n > 0 && start.core.screen == AppUp && start.core.host.current == Diagnostic;
    && m.core.host.current == start.core.host.current
    && m.bench.pending.delta == (if n == 0 then start.bench.pending.delta else NO_DETENTS)
    && (if start.core.screen == MenuUp then
          && m.core.screen == (if due then AppUp else MenuUp)
          && m.core.selected
             == if n == 0 then start.core.selected else Menu.Moved(start.core.selected, start.bench.pending.delta[0])
        else
          && (m.core.screen == MenuUp <==> due)
          && m.core.selected == if due then start.core.host.current.Index() else start.core.selected)
    && DialsOf(m.core) == if seen then Turn(DialsOf(start.core), start.bench.pending.delta) else DialsOf(start.core)
  }

  lemma ToggledStep(start: Module, k: nat, m: Module, next: Module)
    requires Toggled(start, k, m) && ActsAt(m, Chording, k, next) && Timed(start, k, m)
    ensures Toggled(start, k + 1, next)
  {
    NothingToDo(DialsOf(m.core), m.core.selected);
  }

  /** From rest, the chord opens the menu over the running app, or closes it again, on its third tick
      and once, and is no press of either of its buttons; under the boot animation it is lost. */
  lemma {:induction false} ChordTogglesTheMenu(s: Sim<Module>, n: nat)
    requires AtRest(s, LevelOf, ReaderOf) && CanWait(s, Chording, n)
    ensures Toggled(s.m, n, After(s, Chording, n))
  {
    if n == 0 {
      AtFirst(s, Chording);
      var inner := InnerOf(After(s, Chording, 0));
      assert inner.core == s.m.core && inner.delta == s.m.bench.pending.delta;
    } else {
      var k := n - 1;
      CanWaitLess(s, Chording, n, k);
      ChordTogglesTheMenu(s, k);
      GestureActs(s, Chording, k);
      SplashIsTimed(s, Chording, k);
      ToggledStep(s.m, k, After(s, Chording, k), After(s, Chording, n));
    }
  }
}
