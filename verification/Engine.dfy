/** The tick loop (crates/oc-core/src/engine.rs) over the in-memory platform. */
module Engine {
  import opened Ints
  import opened Platform
  import opened Buttons
  import opened Applets
  import opened Menu
  import opened Splash
  import opened Ticks
  import opened Testing

  class Engine {
    const platform: MockPlatform
    const apps: AppHost
    const splash: SplashScreen
    const menu: Menu
    const buttons: ButtonReader
    ghost const parts: set<object>  // everything but the platform and the engine itself
    var screen: Screen
    var tickCount: u64
    var previous: Option<u64>
    var lastDuration: u32
    var interval: Interval
    var sinceRender: u32

    /** The wiring: no component shares state with another. */
    ghost predicate Wired()
    {
      && apps.Valid() && buttons.Valid() && apps.repr !! buttons.repr
      && splash !in apps.repr + buttons.repr && menu !in apps.repr + buttons.repr
      && parts == apps.repr + buttons.repr + {splash, menu} && platform !in parts && this !in parts
    }

    ghost predicate Valid()
      reads this
    {
      Wired() && sinceRender < interval
    }

    ghost function State(): Core
      requires Valid()
      reads this, parts
    {
      Core(apps.State(), splash.elapsed, menu.selected, buttons.State(), screen,
           tickCount, previous, lastDuration, interval, sinceRender)
    }

    ghost function Whole(): Machine
      requires Valid()
      reads this, platform, parts
    {
      Machine(State(), platform.State())
    }

    static method NewParts() returns (a: AppHost, b: ButtonReader, s: SplashScreen, m: Menu)
      ensures fresh(a.repr) && fresh(b.repr) && fresh(s) && fresh(m)
      ensures a.Valid() && b.Valid() && a.repr !! b.repr && s !in a.repr + b.repr && m !in a.repr + b.repr
      ensures a.State() == HostInitial() && b.State() == ReaderInitial() && s.elapsed == 0 && m.selected == 0
    {
      a := new AppHost();
      b := new ButtonReader();
      s := new SplashScreen();
      m := new Menu();
    }

    /** An engine over a platform, at the start of its boot animation. */
    constructor (platform: MockPlatform)
      ensures Valid() && this.platform == platform && State() == CoreInitial()
      ensures fresh(parts)
    {
      var a, b, s, m := NewParts();
      this.platform, apps, splash, menu, buttons := platform, a, s, m, b;
      parts := a.repr + b.repr + {s, m};
      screen, tickCount, previous, lastDuration, interval, sinceRender := SplashUp, 0, None, 0, 1, 0;
    }

    /** Redraws once every `ticks` ticks; below one means one. */
    method SetRenderInterval(ticks: u32)
      requires Valid()
      modifies this
      ensures Valid() && Whole() == old(Whole()).(core := old(State()).(interval := Max(ticks, 1), sinceRender := 0))
    {
      interval := if ticks == 0 then 1 else ticks;
      sinceRender := 0;
    }

    /** Restarts the engine; the platform and the render interval are kept. */
    method Reset()
      requires Valid()
      modifies this, parts
      ensures Valid() && Whole() == Machine(CoreReset(old(State())), old(platform.State()))
    {
      ResetParts();
      screen, tickCount, previous, lastDuration, sinceRender := SplashUp, 0, None, 0, 0;
    }

    method ResetParts()
      requires Valid()
      modifies apps.repr, buttons.repr, splash, menu
      ensures apps.State() == HostInitial() && buttons.State() == ReaderInitial()
      ensures splash.elapsed == 0 && menu.selected == 0
    {
      apps.Reset();
      splash.Reset();
      menu.Reset();
      buttons.Reset();
    }

    /** Skips past the boot animation. */
    method SkipSplash()
      requires Valid()
      modifies this, splash
      ensures Valid()
      ensures Whole() == Machine(Skipped(old(State())), old(platform.State()))
    {
      splash.Finish();
      screen := AppUp;
    }

    /** What a tick that began at `started` senses, up to its next clock reading. */
    ghost function Sensing(started: u64): Sensed
      reads platform
    {
      Sensed(started, platform.now, platform.levels, platform.patched, platform.triggers, platform.pending)
    }

    /** Samples every input. */
    method Acquire(elapsed: u32) returns (snapshot: Snapshot)
      requires Valid()
      modifies platform, buttons.repr
      ensures platform.State() == Polled(old(platform.State()))
      ensures var (reader, events) := ReaderNext(old(buttons.State()), ByButton(old(platform.pending.down)));
              State() == old(State()).(buttons := reader) && snapshot == SnapshotOf(old(Sensing(0)), events, elapsed)
    {
      var polled := platform.Poll();
      var events := buttons.Update(polled);
      snapshot := Snapshot(platform.levels, platform.patched, platform.triggers, polled, events, elapsed);
    }

    /** What the panel means to the menu: the chord toggles it, and while it is up it gets the rest. */
    method RoutePanel(snapshot: Snapshot)
      requires Valid()
      modifies `screen, menu, apps`current
      ensures apps.State() == old(apps.State()).(current := apps.current)
      ensures buttons.State() == old(buttons.State())
      ensures (screen, menu.selected, apps.current)
           == Route(old(screen), old(menu.selected), old(apps.current), snapshot.buttons, snapshot.controls.delta[0])
    {
      if snapshot.buttons.menuChord {
        if screen == MenuUp {
          screen := AppUp;
        } else {
          menu.Open(apps.current);
          screen := MenuUp;
        }
        return;
      }
      if screen != MenuUp {
        return;
      }
      var launch := menu.Update(snapshot.buttons.pressed, snapshot.controls.delta[0]);
      if launch.Some? {
        apps.Select(launch.value);
        screen := AppUp;
      }
    }

    /** Steps the running applet, which sees no panel under the menu. */
    method Feed(snapshot: Snapshot) returns (outputs: Voltages)
      requires Valid()
      modifies apps.repr
      ensures (apps.State(), outputs) == HostNext(old(apps.State()), FedTo(screen, snapshot))
      ensures State() == old(State()).(host := apps.State())
    {
      outputs := apps.Update(if screen == MenuUp then snapshot.Silenced() else snapshot);
    }

    /** Acquisition, routing and the applets. */
    method RunApplets(started: u64, elapsed: u32) returns (outputs: Voltages)
      requires Valid()
      modifies this`screen, platform, buttons.repr, menu, apps.repr
      ensures (State(), outputs) == Compute(old(State()), old(Sensing(started)), elapsed)
      ensures platform.State() == Polled(old(platform.State()))
    {
      var snapshot := Acquire(elapsed);
      RoutePanel(snapshot);
      outputs := Feed(snapshot);
    }

    /** Reads the clock and counts the tick. */
    method BeginTick() returns (started: u64, elapsed: u32)
      requires Valid()
      modifies platform, `previous, `tickCount
      ensures State() == Begin(old(State()), Sensing(started)) && platform.State() == ClockRead(old(platform.State()))
      ensures started == old(platform.now) && elapsed == ElapsedSince(old(previous), started)
    {
      started := platform.NowMicros();
      elapsed := ElapsedSince(previous, started);
      previous := Some(started);
      tickCount := WrappingAdd64(tickCount, 1);
    }

    /** A whole tick, in the splash or with an applet running. */
    method Tick() returns (report: TickReport)
      requires Valid()
      modifies this, platform, parts
      ensures Valid() && (Whole(), report) == MachineTick(old(Whole()))
    {
      var started, elapsed := BeginTick();
      if screen == SplashUp {
        report := TickSplash(started, elapsed);
      } else {
        report := TickApp(started, elapsed);
      }
    }

    /** Keeps the contacts debounced while nothing acts on the panel. */
    method DiscardPanel()
      requires Valid()
      modifies platform, buttons.repr
      ensures platform.State() == Polled(old(platform.State()))
      ensures State() == old(State()).(buttons := ReaderNext(old(buttons.State()), ByButton(old(platform.pending.down))).0)
    {
      var polled := platform.Poll();
      var _ := buttons.Update(polled);
    }

    /** The outputs, which are no part of the engine's own state. */
    method Drive(outputs: Voltages)
      requires Valid()
      modifies platform
      ensures State() == old(State()) && platform.State() == Driven(old(platform.State()), outputs)
    {
      platform.DriveOutputs(outputs);
    }

    method TickSplash(started: u64, elapsed: u32) returns (report: TickReport)
      requires Valid()
      modifies this, platform, parts
      ensures Valid()
      ensures var t := SplashTick(old(State()), old(Sensing(started)), elapsed);
              State() == t.core && report == t.report && platform.State() == Served(old(platform.State()), t)
    {
      DiscardPanel();
      splash.Advance(elapsed);
      Drive(Four(0, 0, 0, 0));
      report := FinishSplash(started, elapsed);
    }

    /** Rendering and the end of a splash tick, which may be the last. */
    method FinishSplash(started: u64, elapsed: u32) returns (report: TickReport)
      requires Valid()
      modifies platform, `screen, `lastDuration
      ensures State() == old(State()).(screen := if Done(splash.elapsed) then AppUp else old(screen), lastDuration := lastDuration)
      ensures lastDuration == ClampDuration(WrappingSub64(old(platform.now), started))
      ensures report == TickReport(started, elapsed, lastDuration, tickCount, Four(0, 0, 0, 0), true)
      ensures platform.State() == ClockRead(Shown(old(platform.State()), Some(SplashPicture(splash.elapsed))))
    {
      platform.Present(SplashPicture(splash.elapsed));
      var finished := platform.NowMicros();
      lastDuration := ClampDuration(WrappingSub64(finished, started));
      report := TickReport(started, elapsed, lastDuration, tickCount, Four(0, 0, 0, 0), true);
      if Done(splash.elapsed) {
        screen := AppUp;
      }
    }

    method TickApp(started: u64, elapsed: u32) returns (report: TickReport)
      requires Valid()
      modifies this, platform, parts
      ensures Valid()
      ensures var t := AppTick(old(State()), old(Sensing(started)), elapsed);
              State() == t.core && report == t.report && platform.State() == Served(old(platform.State()), t)
    {
      var outputs := RunApplets(started, elapsed);
      Drive(outputs);
      report := FinishTick(started, elapsed, outputs);
    }

    /** Rendering, when it is due, and the end of a tick. */
    method FinishTick(started: u64, elapsed: u32, outputs: Voltages) returns (report: TickReport)
      requires Valid()
      modifies platform, `sinceRender, `lastDuration
      ensures Valid()
      ensures var t := Conclude(old(State()), old(Sensing(started)), elapsed, outputs);
              State() == t.core && report == t.report && platform.State() == ClockRead(Shown(old(platform.State()), t.picture))
    {
      var rendered := sinceRender + 1 >= interval;
      sinceRender := if rendered then 0 else sinceRender + 1;
      if rendered {
        platform.Present(PictureOf(State()));
      }
      var finished := platform.NowMicros();
      lastDuration := ClampDuration(WrappingSub64(finished, started));
      report := TickReport(started, elapsed, lastDuration, tickCount, outputs, rendered);
    }
  }
}
