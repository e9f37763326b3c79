/** What the engine keeps over whole runs, whatever it senses. */
module EngineRuns {
  import opened Ints
  import opened Platform
  import opened Buttons
  import opened Applets
  import opened Ticks
  import Menu
  import Splash
  import Testing
  import AppletRuns

  /** What the buttons report on a tick that finds the core `c`. */
  function Events(c: Core, s: Sensed): ButtonEvents
  {
    ReaderNext(c.buttons, ByButton(s.controls.down)).1
  }

  function Elapsed(c: Core, s: Sensed): u32 { ElapsedSince(c.previous, s.started) }

  /** The core after the first `n` ticks of a run. */
  function CoreAt(c: Core, inputs: seq<Sensed>, n: nat): (r: Core)
    requires Ready(c) && n <= |inputs|
    ensures Ready(r)
    decreases n, 0
  {
    if n == 0 then c else TickAt(c, inputs, n - 1).core
  }

  /** Tick number `k` of a run, counting from zero. */
  function TickAt(c: Core, inputs: seq<Sensed>, k: nat): (t: Ticked)
    requires Ready(c) && k < |inputs|
    ensures Ready(t.core)
    decreases k, 1
  {
    Tick(CoreAt(c, inputs, k), inputs[k])
  }

  /** The time the first `n` ticks were told had passed. */
  function ElapsedTo(c: Core, inputs: seq<Sensed>, n: nat): nat
    requires Ready(c) && n <= |inputs|
  {
    if n == 0 then 0 else ElapsedTo(c, inputs, n - 1) + TickAt(c, inputs, n - 1).report.elapsed
  }

  // ----- One tick, in parts -----

  lemma AppTickParts(c: Core, s: Sensed)
    requires Ready(c) && c.screen != SplashUp
    ensures var t := Tick(c, s);
            && (t.core.screen, t.core.selected, t.core.host.current)
            == Route(c.screen, c.selected, c.host.current, Events(c, s), s.controls.delta[0])
            && (t.core.host, t.report.cvOut)
            == HostNext(c.host.(current := t.core.host.current), FedTo(t.core.screen, SnapshotOf(s, Events(c, s), Elapsed(c, s))))
            && t.core.previous == Some(s.started) && t.report.elapsed == Elapsed(c, s)
            && t.core.screen != SplashUp
  {
  }

  lemma SplashTickParts(c: Core, s: Sensed)
    requires Ready(c) && c.screen == SplashUp
    ensures var t := Tick(c, s);
            && t.core.host == c.host && t.report.cvOut == Four(0, 0, 0, 0) && t.report.rendered
            && t.core.splash == SatAdd32(c.splash, Elapsed(c, s)) && t.report.elapsed == Elapsed(c, s)
            && t.core.screen == (if Splash.Done(t.core.splash) then AppUp else SplashUp)
  {
  }

  // ----- Outputs -----

  /** Whatever happens on the panel, the jacks and the clock between two ticks, the outputs
      and the display are the engine's alone. */
  ghost predicate OutputsKept(a: Testing.Bench, b: Testing.Bench)
  {
    b.staged == a.staged && b.committed == a.committed && b.flushes == a.flushes
  }

  lemma TickDrives(m: Testing.Machine)
    requires Ready(m.core)
    ensures var (next, report) := Testing.MachineTick(m);
            && InOutputRange(report.cvOut)
            && next.bench.staged == next.bench.committed == report.cvOut
            && next.bench.flushes == SatAdd32(m.bench.flushes, 1)
            && report.elapsed <= MAX_REPORTED_DURATION_MICROS && report.duration <= MAX_REPORTED_DURATION_MICROS
  {
    var s := Testing.Sense(m.bench);
    if m.core.screen == SplashUp { SplashTickParts(m.core, s); } else { AppTickParts(m.core, s); }
  }

  /** A run from power-on: before each tick the world may change anything but the outputs, and
      the engine may be reset, redrawn at another rate or taken past its splash; the core it
      ticks next is any that can tick. */
  ghost predicate IsRun(cost: u64, found: seq<Testing.Machine>, left: seq<Testing.Machine>)
  {
    && |left| == |found| + 1 && left[0] == Testing.MachineInitial(cost)
    && forall k :: 0 <= k < |found| ==>
         && Ready(found[k].core) && OutputsKept(left[k].bench, found[k].bench)
         && left[k + 1] == Testing.MachineTick(found[k]).0
  }

  /** After every tick of every run the committed levels are within the hardware's range and
      the flushes number the ticks. */
  lemma {:induction false} OutputsStayInRange(cost: u64, found: seq<Testing.Machine>, left: seq<Testing.Machine>, n: nat)
    requires IsRun(cost, found, left) && n <= |found|
    ensures InOutputRange(left[n].bench.committed) && left[n].bench.staged == left[n].bench.committed
    ensures left[n].bench.flushes == Min(n, U32_MAX)
  {
    if n > 0 {
      OutputsStayInRange(cost, found, left, n - 1);
      TickDrives(found[n - 1]);
    }
  }

  // ----- The boot animation -----

  /** The splash lasts exactly until the time it has been told reaches 1.5 s, and until then
      the applets are frozen. */
  lemma {:induction false} SplashLastsItsTime(c: Core, inputs: seq<Sensed>, n: nat)
    requires Ready(c) && c.screen == SplashUp && !Splash.Done(c.splash) && n <= |inputs|
    ensures var r := CoreAt(c, inputs, n); var time := c.splash + ElapsedTo(c, inputs, n);
            && (r.screen == SplashUp <==> time < Splash.DURATION_MICROS)
            && (r.screen == SplashUp ==> r.host == c.host && r.splash == time)
  {
    if n > 0 {
      SplashLastsItsTime(c, inputs, n - 1);
      var before, s := CoreAt(c, inputs, n - 1), inputs[n - 1];
      if before.screen == SplashUp { SplashTickParts(before, s); } else { AppTickParts(before, s); }
    }
  }

  /** Every tick that finds the splash up drives zeros, the one that ends it included, and so
      the applets begin exactly as they were. */
  lemma SplashDrivesNothing(c: Core, inputs: seq<Sensed>, k: nat)
    requires Ready(c) && c.screen == SplashUp && !Splash.Done(c.splash) && k < |inputs|
    requires CoreAt(c, inputs, k).screen == SplashUp
    ensures TickAt(c, inputs, k).report.cvOut == Four(0, 0, 0, 0)
    ensures CoreAt(c, inputs, k + 1).host == c.host
  {
    SplashLastsItsTime(c, inputs, k);
    SplashTickParts(CoreAt(c, inputs, k), inputs[k]);
  }

  /** The first tick after which the splash is down leaves what skipping it would have left on the
      screen, in the applets and in the menu. */
  lemma SplashEndsAsSkipped(c: Core, inputs: seq<Sensed>, k: nat)
    requires Ready(c) && c.screen == SplashUp && !Splash.Done(c.splash) && k < |inputs|
    requires c.splash + ElapsedTo(c, inputs, k) < Splash.DURATION_MICROS <= c.splash + ElapsedTo(c, inputs, k + 1)
    ensures var r, skipped := CoreAt(c, inputs, k + 1), Skipped(c);
            r.screen == skipped.screen && r.host == skipped.host && r.selected == skipped.selected
  {
    SplashLastsItsTime(c, inputs, k);
    SplashLastsItsTime(c, inputs, k + 1);
    SplashKeepsHighlight(c, inputs, k);
    SplashTickParts(CoreAt(c, inputs, k), inputs[k]);
  }

  lemma {:induction false} SplashKeepsHighlight(c: Core, inputs: seq<Sensed>, n: nat)
    requires Ready(c) && c.screen == SplashUp && !Splash.Done(c.splash) && n <= |inputs|
    requires CoreAt(c, inputs, n).screen == SplashUp
    ensures CoreAt(c, inputs, n).selected == c.selected
  {
    if n > 0 {
      SplashLastsItsTime(c, inputs, n - 1);
      SplashLastsItsTime(c, inputs, n);
      SplashKeepsHighlight(c, inputs, n - 1);
    }
  }

  // ----- The menu does not disturb the applet underneath -----

  /** The menu is up after each of the first `n` ticks. */
  ghost predicate MenuStaysUp(c: Core, inputs: seq<Sensed>, n: nat)
    requires Ready(c) && n <= |inputs|
  {
    forall k :: 0 < k <= n ==> CoreAt(c, inputs, k).screen == MenuUp
  }

  /** What is left of a tick's inputs when no panel is attached. */
  datatype Jacks = Jacks(started: u64, cv: Voltages, patched: Four<bool>, triggers: Four<bool>)

  function JacksOf(s: Sensed): Jacks { Jacks(s.started, s.cv, s.patched, s.triggers) }

  function AllJacks(inputs: seq<Sensed>): (js: seq<Jacks>)
    ensures |js| == |inputs| && forall i :: 0 <= i < |js| ==> js[i] == JacksOf(inputs[i])
  {
    seq(|inputs|, i requires 0 <= i < |inputs| => JacksOf(inputs[i]))
  }

  function BlindTick(h: HostState, last: Option<u64>, j: Jacks): (HostState, Voltages)
  {
    HostNext(h, Snapshot(j.cv, j.patched, j.triggers, NO_CONTROLS, NO_BUTTONS, ElapsedSince(last, j.started)))
  }

  /** When the tick before number `k` of a stretch began. */
  function Before(previous: Option<u64>, jacks: seq<Jacks>, k: nat): Option<u64>
    requires k <= |jacks|
  {
    if k == 0 then previous else Some(jacks[k - 1].started)
  }

  /** A host that is shown the jacks and the clock and no panel at all. */
  function Undisturbed(h: HostState, previous: Option<u64>, jacks: seq<Jacks>, n: nat): (HostState, Voltages)
    requires n <= |jacks|
  {
    if n == 0 then (h, Four(0, 0, 0, 0))
    else BlindTick(Undisturbed(h, previous, jacks, n - 1).0, Before(previous, jacks, n - 1), jacks[n - 1])
  }

  lemma StretchClock(c: Core, inputs: seq<Sensed>, n: nat)
    requires Ready(c) && c.screen != SplashUp && n <= |inputs| && MenuStaysUp(c, inputs, n)
    ensures CoreAt(c, inputs, n).screen != SplashUp
    ensures CoreAt(c, inputs, n).previous == Before(c.previous, AllJacks(inputs), n)
  {
    if n > 0 {
      assert CoreAt(c, inputs, n).screen == MenuUp;
      StretchClock(c, inputs, n - 1);
      AppTickParts(CoreAt(c, inputs, n - 1), inputs[n - 1]);
    }
  }

  /** A tick that ends with the menu up leaves the running app alone and shows it no panel. */
  lemma MenuTick(c: Core, s: Sensed)
    requires Ready(c) && c.screen != SplashUp && Tick(c, s).core.screen == MenuUp
    ensures (Tick(c, s).core.host, Tick(c, s).report.cvOut) == BlindTick(c.host, c.previous, JacksOf(s))
  {
    AppTickParts(c, s);
    assert c.host.(current := c.host.current) == c.host;
  }

  lemma MenuTickAt(c: Core, inputs: seq<Sensed>, k: nat)
    requires Ready(c) && k < |inputs| && CoreAt(c, inputs, k).screen != SplashUp && CoreAt(c, inputs, k + 1).screen == MenuUp
    requires CoreAt(c, inputs, k).previous == Before(c.previous, AllJacks(inputs), k)
    requires CoreAt(c, inputs, k).host == Undisturbed(c.host, c.previous, AllJacks(inputs), k).0
    ensures (CoreAt(c, inputs, k + 1).host, TickAt(c, inputs, k).report.cvOut)
         == Undisturbed(c.host, c.previous, AllJacks(inputs), k + 1)
  {
    MenuTick(CoreAt(c, inputs, k), inputs[k]);
  }

  /** Over any stretch of ticks that end with the menu up, the applets and the outputs are
      those of the same host with no panel attached. */
  lemma {:induction false} MenuDisturbsNothing(c: Core, inputs: seq<Sensed>, n: nat)
    requires Ready(c) && c.screen != SplashUp && 0 < n <= |inputs| && MenuStaysUp(c, inputs, n)
    ensures (CoreAt(c, inputs, n).host, TickAt(c, inputs, n - 1).report.cvOut) == Undisturbed(c.host, c.previous, AllJacks(inputs), n)
  {
    var k := n - 1;
    StretchClock(c, inputs, k);
    if k > 0 {
      MenuDisturbsNothing(c, inputs, k);
    }
    assert CoreAt(c, inputs, n).screen == MenuUp;
    MenuTickAt(c, inputs, k);
  }

  /** Non-interference: two panels operated in any two ways that keep the menu up, over the
      same host, jacks and clock, cannot be told apart by the applets or at the outputs. */
  lemma MenuHidesThePanel(c: Core, d: Core, a: seq<Sensed>, b: seq<Sensed>, n: nat)
    requires Ready(c) && Ready(d) && c.screen != SplashUp && d.screen != SplashUp
    requires c.host == d.host && c.previous == d.previous && AllJacks(a) == AllJacks(b) && 0 < n <= |a|
    requires MenuStaysUp(c, a, n) && MenuStaysUp(d, b, n)
    ensures CoreAt(c, a, n).host == CoreAt(d, b, n).host
    ensures TickAt(c, a, n - 1).report.cvOut == TickAt(d, b, n - 1).report.cvOut
  {
    MenuDisturbsNothing(c, a, n);
    MenuDisturbsNothing(d, b, n);
  }

  // ----- The highlight and the running app -----

  /** The steps the panel asks for on one tick. */
  function StepsOf(c: Core, s: Sensed): int { Menu.Steps(Events(c, s).pressed, s.controls.delta[0]) }

  /** The net steps it asks for over the first `n` ticks. */
  function NetSteps(c: Core, inputs: seq<Sensed>, n: nat): int
    requires Ready(c) && n <= |inputs|
  {
    if n == 0 then 0 else NetSteps(c, inputs, n - 1) + StepsOf(CoreAt(c, inputs, n - 1), inputs[n - 1])
  }

  /** The highlight goes around the list of apps. */
  predicate Highlights(selected: AppIndex, start: AppIndex, net: int) { selected == (start + net) % APP_COUNT }

  lemma MenuTickMoves(c: Core, s: Sensed, start: AppIndex, net: int)
    requires Ready(c) && c.screen == MenuUp && Tick(c, s).core.screen == MenuUp && Highlights(c.selected, start, net)
    ensures Tick(c, s).core.host.current == c.host.current
    ensures Highlights(Tick(c, s).core.selected, start, net + StepsOf(c, s))
  {
    AppTickParts(c, s);
    MovedTwice(start + net, StepsOf(c, s));
  }

  lemma MovedTwice(position: int, steps: int)
    ensures (position % APP_COUNT + steps) % APP_COUNT == (position + steps) % APP_COUNT
  {
  }

  lemma HighlightStep(c: Core, inputs: seq<Sensed>, k: nat, start: AppIndex)
    requires Ready(c) && k < |inputs| && CoreAt(c, inputs, k).screen == CoreAt(c, inputs, k + 1).screen == MenuUp
    requires Highlights(CoreAt(c, inputs, k).selected, start, NetSteps(c, inputs, k))
    ensures Highlights(CoreAt(c, inputs, k + 1).selected, start, NetSteps(c, inputs, k + 1))
    ensures CoreAt(c, inputs, k + 1).host.current == CoreAt(c, inputs, k).host.current
  {
    MenuTickMoves(CoreAt(c, inputs, k), inputs[k], start, NetSteps(c, inputs, k));
  }

  /** While the menu stays up its highlight is the opening one moved by the net steps, around
      the list of apps, and the running app does not change. */
  lemma {:induction false} HighlightIsNetSteps(c: Core, inputs: seq<Sensed>, n: nat)
    requires Ready(c) && c.screen == MenuUp && n <= |inputs| && MenuStaysUp(c, inputs, n)
    ensures Highlights(CoreAt(c, inputs, n).selected, c.selected, NetSteps(c, inputs, n))
    ensures CoreAt(c, inputs, n).host.current == c.host.current
  {
    if n == 0 {
      assert CoreAt(c, inputs, 0) == c;
    } else {
      var k := n - 1;
      HighlightIsNetSteps(c, inputs, k);
      assert CoreAt(c, inputs, k).screen == MenuUp;
      HighlightStep(c, inputs, k, c.selected);
    }
  }

  /** A confirmation in the menu, on a tick with no chord. */
  predicate Launching(c: Core, s: Sensed)
  {
    c.screen == MenuUp && !Events(c, s).menuChord && Menu.Launches(Events(c, s).pressed)
  }

  /** The highlight once this tick's movement has been applied. */
  function Highlight(c: Core, s: Sensed): AppIndex
  {
    Menu.Moved(c.selected, Menu.Steps(Events(c, s).pressed, s.controls.delta[0]))
  }

  /** A launch runs the highlighted app and closes the menu; nothing else changes the running
      app, and only a chord does anything else to which screen is up. */
  lemma OnlyALaunchChangesTheApp(c: Core, s: Sensed)
    requires Ready(c)
    ensures var t := Tick(c, s).core;
            t.host.current == if Launching(c, s) then AppOf(Highlight(c, s)) else c.host.current
    ensures c.screen != SplashUp ==>
              (Tick(c, s).core.screen ==
               if Events(c, s).menuChord then (if c.screen == MenuUp then AppUp else MenuUp)
               else if Launching(c, s) then AppUp else c.screen)
    ensures c.screen == AppUp && Events(c, s).menuChord ==> (Tick(c, s).core.selected == c.host.current.Index())
  {
    if c.screen == SplashUp { SplashTickParts(c, s); } else { AppTickParts(c, s); }
  }

  predicate LaunchesAt(c: Core, inputs: seq<Sensed>, k: nat)
    requires Ready(c) && k < |inputs|
  {
    Launching(CoreAt(c, inputs, k), inputs[k])
  }

  /** Over any stretch without a launch the running app is the same throughout. */
  lemma {:induction false} NoLaunchNoChange(c: Core, inputs: seq<Sensed>, n: nat)
    requires Ready(c) && n <= |inputs|
    requires forall k :: 0 <= k < n ==> !LaunchesAt(c, inputs, k)
    ensures CoreAt(c, inputs, n).host.current == c.host.current
  {
    if n > 0 {
      NoLaunchNoChange(c, inputs, n - 1);
      assert !LaunchesAt(c, inputs, n - 1);
      NoLaunchTick(CoreAt(c, inputs, n - 1), inputs[n - 1]);
    }
  }

  lemma NoLaunchTick(c: Core, s: Sensed)
    requires Ready(c) && !Launching(c, s)
    ensures Tick(c, s).core.host.current == c.host.current
  {
    OnlyALaunchChangesTheApp(c, s);
  }

  /** The panel reaches the running applet on exactly the ticks that end with the menu down:
      a tick that closes the menu, by a launch or by the chord, is not silenced. */
  lemma AppletSeesPanelUnlessMenuEndsUp(c: Core, s: Sensed)
    requires Ready(c) && c.screen != SplashUp
    ensures var t := Tick(c, s);
            var seen := SnapshotOf(s, Events(c, s), Elapsed(c, s));
            (t.core.host, t.report.cvOut)
            == HostNext(c.host.(current := t.core.host.current),
                        if c.screen == MenuUp && !Events(c, s).menuChord && !Launching(c, s) then seen.Silenced()
                        else if c.screen == AppUp && Events(c, s).menuChord then seen.Silenced()
                        else seen)
  {
    AppTickParts(c, s);
  }

  /** So launching the diagnostic applet with the right encoder's switch always zeroes the
      offset it had been given, though the menu was up when the switch was pressed. */
  lemma LaunchingPressReachesTheApplet(c: Core, s: Sensed)
    requires Ready(c) && Launching(c, s) && Events(c, s).pressed.right && Highlight(c, s) == 0
    ensures Tick(c, s).core.host.current == Diagnostic
    ensures Tick(c, s).core.host.diagnostic.dials.offset == 0
  {
    AppTickParts(c, s);
  }

  // ----- The applet that is not running -----

  /** Over any run, an applet that is never the running one is left exactly as it was. */
  lemma {:induction false} IdleAppletIsFrozen(c: Core, inputs: seq<Sensed>, n: nat, idle: AppId)
    requires Ready(c) && n <= |inputs|
    requires forall k :: 0 < k <= n ==> CoreAt(c, inputs, k).host.current != idle
    ensures var r := CoreAt(c, inputs, n);
            if idle == Diagnostic then r.host.diagnostic == c.host.diagnostic else r.host.scope == c.host.scope
  {
    if n > 0 {
      IdleAppletIsFrozen(c, inputs, n - 1, idle);
      var before, s := CoreAt(c, inputs, n - 1), inputs[n - 1];
      assert CoreAt(c, inputs, n).host.current != idle;
      if before.screen == SplashUp { SplashTickParts(before, s); } else { AppTickParts(before, s); }
    }
  }

  // ----- Time -----

  /** The time that one tick gives to an app. */
  function RunningOn(c: Core, s: Sensed, app: AppId): nat
    requires Ready(c)
  {
    if c.screen != SplashUp && Tick(c, s).core.host.current == app then Tick(c, s).report.elapsed else 0
  }

  /** The time for which an app was the running one, over the first `n` ticks. */
  function RunningTime(c: Core, inputs: seq<Sensed>, n: nat, app: AppId): nat
    requires Ready(c) && n <= |inputs|
  {
    if n == 0 then 0 else RunningTime(c, inputs, n - 1, app) + RunningOn(CoreAt(c, inputs, n - 1), inputs[n - 1], app)
  }

  predicate IsPhase(phase: Phase, start: Phase, time: nat) { phase == (start + time) % RAMP_PERIOD_MICROS }

  lemma PhaseStep(c: Core, s: Sensed, start: Phase, time: nat)
    requires Ready(c) && IsPhase(c.host.diagnostic.phase, start, time)
    ensures IsPhase(Tick(c, s).core.host.diagnostic.phase, start, time + RunningOn(c, s, Diagnostic))
  {
    if c.screen == SplashUp {
      SplashTickParts(c, s);
    } else {
      AppTickParts(c, s);
      AppletRuns.AdvanceAdds(start + time, Elapsed(c, s));
    }
  }

  /** The ramp's phase is the time the diagnostic applet has run, modulo its period: time
      spent in the splash or in the other app does not count, time under the menu does. */
  lemma {:induction false} PhaseIsRunningTime(c: Core, inputs: seq<Sensed>, n: nat)
    requires Ready(c) && n <= |inputs|
    ensures IsPhase(CoreAt(c, inputs, n).host.diagnostic.phase, c.host.diagnostic.phase, RunningTime(c, inputs, n, Diagnostic))
  {
    if n == 0 {
      assert CoreAt(c, inputs, n) == c;
    } else {
      var k := n - 1;
      PhaseIsRunningTime(c, inputs, k);
      PhaseStep(CoreAt(c, inputs, k), inputs[k], c.host.diagnostic.phase, RunningTime(c, inputs, k, Diagnostic));
    }
  }

  /** The rows the scope records on one tick. */
  function RowsOn(c: Core, s: Sensed): nat
    requires Ready(c)
  {
    if RunningOn(c, s, Scope) == 0 then 0 else SamplesDue(SatAdd32(c.host.scope.accumulator, Elapsed(c, s)))
  }

  function RowsRecorded(c: Core, inputs: seq<Sensed>, n: nat): nat
    requires Ready(c) && n <= |inputs|
  {
    if n == 0 then 0 else RowsRecorded(c, inputs, n - 1) + RowsOn(CoreAt(c, inputs, n - 1), inputs[n - 1])
  }

  lemma ScopeStep(c: Core, s: Sensed)
    requires Ready(c) && c.host.scope.accumulator < SAMPLE_INTERVAL_MICROS
    ensures var scope, next := c.host.scope, Tick(c, s).core.host.scope;
            && next.accumulator < SAMPLE_INTERVAL_MICROS
            && SAMPLE_INTERVAL_MICROS * RowsOn(c, s) + next.accumulator == scope.accumulator + RunningOn(c, s, Scope)
            && (RowsOn(c, s) > 0 ==> next.ring == PushRows(scope.ring, RowFor(s.cv.one), RowsOn(c, s)))
            && (RowsOn(c, s) == 0 ==> next.ring == scope.ring)
  {
    if c.screen == SplashUp { SplashTickParts(c, s); } else { AppTickParts(c, s); }
  }

  /** The scope records one row for every 8 ms it has run and keeps the rest for the next: the
      engine's elapsed clamp is what keeps its screenful cap from ever losing time. */
  lemma {:induction false} ScopeTimeIsRunningTime(c: Core, inputs: seq<Sensed>, n: nat)
    requires Ready(c) && c.host.scope.accumulator == 0 && n <= |inputs|
    ensures var left := CoreAt(c, inputs, n).host.scope.accumulator;
            && left < 8_000
            && 8_000 * RowsRecorded(c, inputs, n) + left == RunningTime(c, inputs, n, Scope)
  {
    if n > 0 {
      var k := n - 1;
      ScopeTimeIsRunningTime(c, inputs, k);
      ScopeStep(CoreAt(c, inputs, k), inputs[k]);
    }
  }

  function Drew(c: Core, s: Sensed): nat
    requires Ready(c)
  {
    if Tick(c, s).report.rendered then 1 else 0
  }

  /** How many of the first `n` ticks drew a frame. */
  function Frames(c: Core, inputs: seq<Sensed>, n: nat): nat
    requires Ready(c) && n <= |inputs|
  {
    if n == 0 then 0 else Frames(c, inputs, n - 1) + Drew(CoreAt(c, inputs, n - 1), inputs[n - 1])
  }

  /** The ticks that so many frames account for. */
  function Spent(frames: nat, interval: nat): nat
  {
    if frames == 0 then 0 else Spent(frames - 1, interval) + interval
  }

  /** A tick's share of the count: a frame ends an interval, and any other tick lengthens it. */
  predicate Paced(c: Core, drew: nat, next: Core)
  {
    && next.interval == c.interval && next.screen != SplashUp
    && (if drew == 0 then next.sinceRender == c.sinceRender + 1
        else drew == 1 && next.sinceRender == 0 && c.sinceRender + 1 == c.interval)
  }

  lemma TickPaces(c: Core, s: Sensed)
    requires Ready(c) && c.screen != SplashUp
    ensures Tick(c, s).report.rendered == Tick(c, s).picture.Some? && Paced(c, Drew(c, s), Tick(c, s).core)
  {
  }

  /** So many frames in so many ticks: what is left over is what the counter shows. */
  predicate Drawn(frames: nat, c: Core, start: Core, ticks: nat)
  {
    && c.interval == start.interval && c.screen != SplashUp
    && Spent(frames, start.interval) + c.sinceRender == start.sinceRender + ticks
  }

  lemma PaceAdds(frames: nat, c: Core, start: Core, ticks: nat, drew: nat, next: Core)
    requires Drawn(frames, c, start, ticks) && Paced(c, drew, next)
    ensures Drawn(frames + drew, next, start, ticks + 1)
  {
  }

  lemma FramesStep(c: Core, inputs: seq<Sensed>, k: nat)
    requires Ready(c) && k < |inputs| && Drawn(Frames(c, inputs, k), CoreAt(c, inputs, k), c, k)
    ensures Drawn(Frames(c, inputs, k + 1), CoreAt(c, inputs, k + 1), c, k + 1)
  {
    var before := CoreAt(c, inputs, k);
    TickPaces(before, inputs[k]);
    PaceAdds(Frames(c, inputs, k), before, c, k, Drew(before, inputs[k]), Tick(before, inputs[k]).core);
  }

  lemma {:induction false} FramesGoOn(c: Core, inputs: seq<Sensed>, k: nat, n: nat)
    requires Ready(c) && k <= n <= |inputs| && Drawn(Frames(c, inputs, k), CoreAt(c, inputs, k), c, k)
    ensures Drawn(Frames(c, inputs, n), CoreAt(c, inputs, n), c, n)
    decreases n - k
  {
    if k < n {
      FramesStep(c, inputs, k);
      FramesGoOn(c, inputs, k + 1, n);
    }
  }

  lemma FramesCount(c: Core, inputs: seq<Sensed>, n: nat)
    requires Ready(c) && c.screen != SplashUp && n <= |inputs|
    ensures Drawn(Frames(c, inputs, n), CoreAt(c, inputs, n), c, n)
  {
    FramesGoOn(c, inputs, 0, n);
  }

  lemma {:induction false} SpentIs(frames: nat, interval: nat)
    ensures Spent(frames, interval) == frames * interval
  {
    if frames > 0 {
      SpentIs(frames - 1, interval);
      OneMore(frames - 1, interval);
    }
  }

  lemma OneMore(q: nat, d: nat)
    ensures (q + 1) * d == q * d + d
  {
  }

  lemma QuotientIs(q: nat, r: nat, d: nat, n: nat)
    requires q * d + r == n && r < d
    ensures q == n / d
  {
    if q < n / d { Below(q, n / d, d); }
    if n / d < q { Below(n / d, q, d); }
  }

  lemma {:induction false} Below(a: nat, b: nat, d: nat)
    requires a < b
    ensures a * d + d <= b * d
  {
    OneMore(b - 1, d);
    if a < b - 1 {
      Below(a, b - 1, d);
    }
  }

  /** From a zero counter, `n` ticks after the splash draw every interval-th one. */
  lemma RendersEveryInterval(c: Core, inputs: seq<Sensed>, n: nat)
    requires Ready(c) && c.screen != SplashUp && c.sinceRender == 0 && n <= |inputs|
    ensures Frames(c, inputs, n) == n / c.interval
  {
    FramesCount(c, inputs, n);
    SpentIs(Frames(c, inputs, n), c.interval);
    QuotientIs(Frames(c, inputs, n), CoreAt(c, inputs, n).sinceRender, c.interval, n);
  }
}
