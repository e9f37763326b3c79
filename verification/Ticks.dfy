/** One tick of the engine as a function of its state and of what it senses
    (crates/oc-core/src/engine.rs). */
module Ticks {
  import opened Ints
  import opened Platform
  import opened Buttons
  import opened Applets
  import Menu
  import Splash

  const MAX_REPORTED_DURATION_MICROS: u32 := 1_000_000

  datatype Screen = SplashUp | AppUp | MenuUp

  /** A frame, as the values its drawing code reads. */
  datatype Picture =
    | Dark
    | SplashPicture(elapsed: u32)
    | MenuPicture(selected: AppIndex)
    | AppPicture(host: HostState, tickCount: u64, duration: u32)

  datatype TickReport = TickReport(
    timestamp: u64, elapsed: u32, duration: u32, tickCount: u64, cvOut: Voltages, rendered: bool)

  /** What a tick finds on the platform: two clock readings and every input. */
  datatype Sensed = Sensed(
    started: u64, finished: u64, cv: Voltages, patched: Four<bool>, triggers: Four<bool>, controls: ControlEvents)

  type Interval = x: u32 | x >= 1 witness 1

  /** The engine's own state. */
  datatype Core = Core(
    host: HostState, splash: u32, selected: AppIndex, buttons: ReaderState, screen: Screen,
    tickCount: u64, previous: Option<u64>, lastDuration: u32, interval: Interval, sinceRender: u32)

  /** The render counter never passes the interval, so counting cannot overflow. */
  predicate Ready(c: Core) { c.sinceRender < c.interval }

  function CoreInitial(): Core
  {
    Core(HostInitial(), 0, 0, ReaderInitial(), SplashUp, 0, None, 0, 1, 0)
  }

  /** What a reset leaves: everything but the render interval is as at power-on. */
  function CoreReset(c: Core): Core { CoreInitial().(interval := c.interval) }

  /** What skipping the boot animation leaves. */
  function Skipped(c: Core): Core { c.(splash := Splash.DURATION_MICROS, screen := AppUp) }

  function ClampDuration(raw: u64): u32 { Min(raw, MAX_REPORTED_DURATION_MICROS) }

  function ElapsedSince(previous: Option<u64>, now: u64): u32
  {
    match previous case None => 0 case Some(p) => ClampDuration(WrappingSub64(now, p))
  }

  /** The screen, highlight and app that a tick's events lead to.  A chord is all that its tick
      does; navigation has to wait for the next. */
  function Route(screen: Screen, selected: AppIndex, current: AppId, events: ButtonEvents, delta: i8)
    : (Screen, AppIndex, AppId)
  {
    if events.menuChord then
      if screen == MenuUp then (AppUp, selected, current) else (MenuUp, current.Index(), current)
    else if screen != MenuUp then (screen, selected, current)
    else
      var moved := Menu.Moved(selected, Menu.Steps(events.pressed, delta));
      if Menu.Launches(events.pressed) then (AppUp, moved, AppOf(moved)) else (MenuUp, moved, current)
  }

  function SnapshotOf(s: Sensed, events: ButtonEvents, elapsed: u32): Snapshot
  {
    Snapshot(s.cv, s.patched, s.triggers, s.controls, events, elapsed)
  }

  datatype Ticked = Ticked(core: Core, report: TickReport, picture: Option<Picture>)

  /** The bookkeeping every tick begins with. */
  function Begin(c: Core, s: Sensed): Core
  {
    c.(previous := Some(s.started), tickCount := WrappingAdd64(c.tickCount, 1))
  }

  /** A tick under the splash, on a core that has begun it. */
  function SplashTick(c: Core, s: Sensed, elapsed: u32): Ticked
  {
    var splash := SatAdd32(c.splash, elapsed);
    var duration := ClampDuration(WrappingSub64(s.finished, s.started));
    var core := c.(buttons := ReaderNext(c.buttons, ByButton(s.controls.down)).0, splash := splash,
                   lastDuration := duration, screen := if Splash.Done(splash) then AppUp else c.screen);
    Ticked(core, TickReport(s.started, elapsed, duration, c.tickCount, Four(0, 0, 0, 0), true), Some(SplashPicture(splash)))
  }

  /** What the running applet is fed: the whole snapshot, or a silenced one while the menu
      is up once the panel has been routed. */
  function FedTo(screen: Screen, snapshot: Snapshot): Snapshot
  {
    if screen == MenuUp then snapshot.Silenced() else snapshot
  }

  /** Acquisition, routing and the applets: the core after them, and the output levels. */
  function Compute(c: Core, s: Sensed, elapsed: u32): (Core, Voltages)
  {
    var (buttons, events) := ReaderNext(c.buttons, ByButton(s.controls.down));
    var (screen, selected, current) := Route(c.screen, c.selected, c.host.current, events, s.controls.delta[0]);
    var (host, outputs) := HostNext(c.host.(current := current), FedTo(screen, SnapshotOf(s, events, elapsed)));
    (c.(host := host, selected := selected, buttons := buttons, screen := screen), outputs)
  }

  function PictureOf(c: Core): Picture
  {
    if c.screen == MenuUp then MenuPicture(c.selected) else AppPicture(c.host, c.tickCount, c.lastDuration)
  }

  /** Rendering and the end of a tick. */
  function Conclude(c: Core, s: Sensed, elapsed: u32, outputs: Voltages): Ticked
    requires Ready(c)
  {
    var rendered := c.sinceRender + 1 >= c.interval;
    var duration := ClampDuration(WrappingSub64(s.finished, s.started));
    Ticked(c.(sinceRender := if rendered then 0 else c.sinceRender + 1, lastDuration := duration),
           TickReport(s.started, elapsed, duration, c.tickCount, outputs, rendered),
           if rendered then Some(PictureOf(c)) else None)
  }

  function AppTick(c: Core, s: Sensed, elapsed: u32): Ticked
    requires Ready(c)
  {
    var (core, outputs) := Compute(c, s, elapsed);
    Conclude(core, s, elapsed, outputs)
  }

  /** One complete tick. */
  function Tick(c: Core, s: Sensed): (t: Ticked)
    requires Ready(c)
    ensures Ready(t.core)
  {
    var elapsed := ElapsedSince(c.previous, s.started);
    if c.screen == SplashUp then SplashTick(Begin(c, s), s, elapsed) else AppTick(Begin(c, s), s, elapsed)
  }
}
