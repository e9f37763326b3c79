/** What a session with the simulator leaves on the module's jacks and panel, and what the applets
    and the outputs make of that (crates/oc-sim/src/simulator.rs). */
module Sessions {
  import opened Ints
  import opened Platform
  import opened Debounce
  import opened Buttons
  import opened Applets
  import opened Scenario
  import opened Ticks
  import opened Testing
  import opened Simulation
  import opened Outputs
  import AppletRuns
  import EngineRuns

  // ----- What was last set -----

  /** The level last given to a jack. */
  function LastLevel(start: MilliVolts, ops: seq<Op>, jack: nat): MilliVolts
  {
    if ops == [] then start
    else
      match ops[|ops| - 1]
      case Do(Cv(c, level)) => if c == jack then level else LastLevel(start, ops[..|ops| - 1], jack)
      case _ => LastLevel(start, ops[..|ops| - 1], jack)
  }

  /** Whether anything was last plugged into it. */
  function LastPatch(start: bool, ops: seq<Op>, jack: nat): bool
  {
    if ops == [] then start
    else
      match ops[|ops| - 1]
      case Do(Patch(c, patched)) => if c == jack then patched else LastPatch(start, ops[..|ops| - 1], jack)
      case _ => LastPatch(start, ops[..|ops| - 1], jack)
  }

  /** The detents an encoder was turned by since the last tick, as many as a byte holds. */
  function Waiting(start: i8, ops: seq<Op>, encoder: nat): i8
  {
    if ops == [] then start
    else
      var before := Waiting(start, ops[..|ops| - 1], encoder);
      match ops[|ops| - 1]
      case Step => 0
      case Do(Encoder(e, detents)) => if e == encoder then Clamp(before + detents, -128, 127) else before
      case _ => before
  }

  // ----- One operation -----

  /** A jack, and an encoder. */
  datatype Inputs = Inputs(level: MilliVolts, patched: bool, waiting: i8)

  function InputsOf(m: Module, jack: nat, encoder: nat): Inputs
    requires jack < 4 && encoder < 2
  {
    Inputs(m.bench.levels.At(jack), m.bench.patched.At(jack), m.bench.pending.delta[encoder])
  }

  function InputsAfter(before: Inputs, op: Op, jack: nat, encoder: nat): Inputs
  {
    match op
    case Do(Cv(c, level)) => if c == jack then before.(level := level) else before
    case Do(Patch(c, patched)) => if c == jack then before.(patched := patched) else before
    case Do(Encoder(e, detents)) =>
      if e == encoder then before.(waiting := Clamp(before.waiting + detents, -128, 127)) else before
    case Step => before.(waiting := 0)
    case _ => before
  }

  lemma EventSets(m: Module, e: Event, jack: nat, encoder: nat)
    requires jack < 4 && encoder < 2
    ensures InputsOf(Input(m, e), jack, encoder) == InputsAfter(InputsOf(m, jack, encoder), Do(e), jack, encoder)
  {
  }

  lemma TickConsumes(m: Module, jack: nat, encoder: nat)
    requires jack < 4 && encoder < 2
    ensures InputsOf(Tock(m).0, jack, encoder) == InputsOf(m, jack, encoder).(waiting := 0)
  {
  }

  lemma OperationSets(s: Sim<Module>, op: Op, jack: nat, encoder: nat)
    requires CanOperate(s, op) && jack < 4 && encoder < 2
    ensures InputsOf(Operate(MODULE, s, op).m, jack, encoder) == InputsAfter(InputsOf(s.m, jack, encoder), op, jack, encoder)
  {
    match op
    case Do(e) => EventSets(s.m, e, jack, encoder);
    case Hold(button) => EventSets(s.m, Press(button, true), jack, encoder);
    case Chord =>
      EventSets(s.m, Press(Up, true), jack, encoder);
      EventSets(Pressed(MODULE, s, Up).m, Press(Down, true), jack, encoder);
    case Pulse(channel) => EventSets(s.m, Trigger(channel, true), jack, encoder);
    case Step =>
      var view := (m: Module) => InputsOf(m, jack, encoder);
      StepShows(MODULE, view, s);
      TickConsumes(s.m, jack, encoder);
  }

  lemma OneMore(start: Inputs, ops: seq<Op>, jack: nat, encoder: nat)
    requires ops != []
    ensures var front := ops[..|ops| - 1];
            Inputs(LastLevel(start.level, ops, jack), LastPatch(start.patched, ops, jack), Waiting(start.waiting, ops, encoder))
            == InputsAfter(Inputs(LastLevel(start.level, front, jack), LastPatch(start.patched, front, jack),
                                  Waiting(start.waiting, front, encoder)),
                           ops[|ops| - 1], jack, encoder)
  {
  }

  /** After any session, recorded or not, each jack is at the level and as patched as it was last
      told to be, and each encoder waits with the detents it was turned by since the last tick;
      nothing else touches them, a reset included. */
  lemma {:induction false} SessionSetsTheInputs(s: Sim<Module>, ops: seq<Op>, jack: nat, encoder: nat)
    requires Completes(MODULE, s, ops) && jack < 4 && encoder < 2
    ensures var start := InputsOf(s.m, jack, encoder);
            InputsOf(Run(MODULE, s, ops).m, jack, encoder)
            == Inputs(LastLevel(start.level, ops, jack), LastPatch(start.patched, ops, jack), Waiting(start.waiting, ops, encoder))
  {
    if ops != [] {
      var front := ops[..|ops| - 1];
      SessionSetsTheInputs(s, front, jack, encoder);
      OperationSets(Run(MODULE, s, front), ops[|ops| - 1], jack, encoder);
      OneMore(InputsOf(s.m, jack, encoder), ops, jack, encoder);
    }
  }

  // ----- Power-on and reset -----

  /** A new simulator: the boot animation at its first frame, every frame drawn, nothing patched,
      held, waiting or recorded, and every level zero. */
  lemma StartsFromNothing(channel: nat, encoder: nat)
    requires channel < 4 && encoder < 2
    ensures var s := SimInitial();
            && s.tick == 0 && s.buttons == NO_HOLDS && s.triggers == NO_HOLDS && s.recording == None && s.last == None
            && s.m.core.interval == 1 && s.m.core.screen == SplashUp && s.m.core.host.current == Diagnostic
            && InputsOf(s.m, channel, encoder) == Inputs(0, false, 0)
            && s.m.bench.committed.At(channel) == 0 && !s.m.bench.triggers.At(channel) && !s.m.bench.pending.down[channel]
            && s.m.bench.now == 0 && s.m.bench.picture == Dark && s.m.bench.presents == 0 && s.m.bench.flushes == 0
  {
  }

  /** A reset leaves the platform as it is, with everything that is patched, held or waiting, and the
      engine as at power-on but for its render interval. */
  lemma ResetIsPowerOn(s: Sim<Module>)
    requires CanApply(s)
    ensures var m := Apply(MODULE, s, Reset).m;
            && m.bench == s.m.bench
            && m.core == SimInitial().m.core.(interval := s.m.core.interval)
            && m.core.screen == SplashUp && m.core.splash == 0 && m.core.selected == 0 && m.core.tickCount == 0
            && m.core.previous == None && m.core.lastDuration == 0 && m.core.sinceRender == 0
            && m.core.host == HostInitial() && m.core.buttons == ReaderInitial()
  {
  }

  // ----- From the jacks to the applets and back -----

  /** What a tick of the module shows the applets: the jacks as they are. */
  lemma TickShowsTheJacks(m: Module, channel: nat)
    requires m.core.screen != SplashUp && channel < 4
    ensures var next := Tock(m).0.core.host;
            && (next.current == Diagnostic ==>
                  && next.diagnostic.patched.At(channel) == m.bench.patched.At(channel)
                  && next.diagnostic.detectors.At(channel).latest == m.bench.levels.At(channel)
                  && next.diagnostic.counters.At(channel).debouncer
                     == Next(m.core.host.diagnostic.counters.At(channel).debouncer, m.bench.triggers.At(channel)))
            && (next.current == Scope ==> next.scope.level == m.bench.levels.At(0))
  {
    EngineRuns.AppTickParts(m.core, Sense(Advanced(m.bench, TICK_MICROS)));
  }

  /** And what the outputs then are: what the tick's app makes of those levels, and nothing under the
      splash. */
  lemma TickDrivesTheOutputs(m: Module, channel: nat)
    requires channel < 4
    ensures var next := Tock(m).0; var level := next.bench.committed.At(channel); var d := next.core.host.diagnostic;
            if m.core.screen == SplashUp then level == 0
            else if next.core.host.current == Scope then level == Clamp(m.bench.levels.At(0), -3_000, 6_000)
            else Drives(level, AppletRuns.PlaceOf(d.dials.mode), d.dials.selected, d.dials.offset,
                        m.bench.levels.At(channel), d.phase, channel)
  {
    var s := Sense(Advanced(m.bench, TICK_MICROS));
    EngineRuns.TickDrives(m.(bench := Advanced(m.bench, TICK_MICROS)));
    if m.core.screen == SplashUp {
      EngineRuns.SplashTickParts(m.core, s);
    } else {
      EngineRuns.AppTickParts(m.core, s);
      var next := Tick(m.core, s).core;
      if next.host.current == Scope {
        ScopeTickDrives(m.core, s, channel);
      } else {
        HostDrives(m.core.host.(current := Diagnostic), next.screen,
                   SnapshotOf(s, EngineRuns.Events(m.core, s), EngineRuns.Elapsed(m.core, s)), channel);
      }
    }
  }

  /** The committed outputs of the module, each with what decides it besides its jack. */
  datatype Shown = Shown(committed: Voltages, host: HostState)

  function ShownBy(m: Module): Shown { Shown(m.bench.committed, m.core.host) }

  /** So at the end of any session that ends with a tick, an output that passes its jack on is at the
      level that jack was last given, held to the output range: with the diagnostic applet in its
      first mode every output but the selected one does, and with the scope all pass on the first. */
  lemma JacksReachTheOutputs(s: Sim<Module>, ops: seq<Op>, channel: nat)
    requires Completes(MODULE, s, ops) && channel < 4 && Run(MODULE, s, ops).m.core.screen != SplashUp
    requires CanStep(Run(MODULE, s, ops))
    ensures var m := Stepped(MODULE, Run(MODULE, s, ops)).m;
            var d := m.core.host.diagnostic.dials;
            && (m.core.host.current == Diagnostic && d.mode == Offset ==>
                  m.bench.committed.At(channel)
                  == if channel == d.selected then d.offset
                     else Clamp(LastLevel(s.m.bench.levels.At(channel), ops, channel), -3_000, 6_000))
            && (m.core.host.current == Scope ==>
                  m.bench.committed.At(channel) == Clamp(LastLevel(s.m.bench.levels.At(0), ops, 0), -3_000, 6_000))
  {
    var before := Run(MODULE, s, ops);
    SessionSetsTheInputs(s, ops, channel, 0);
    SessionSetsTheInputs(s, ops, 0, 0);
    StepShows(MODULE, ShownBy, before);
    TickDrivesTheOutputs(before.m, channel);
    assert ShownBy(Stepped(MODULE, before).m) == ShownBy(Tock(before.m).0);
  }

  // ----- The display -----

  /** A tick that draws puts its picture on the display, and any other leaves what was there. */
  lemma TickIsShown(m: Module)
    ensures var next, t := Tock(m).0.bench, Tick(m.core, Sense(Advanced(m.bench, TICK_MICROS)));
            && next.picture == (if t.picture.Some? then t.picture.value else m.bench.picture)
            && next.presents == if t.picture.Some? then SatAdd32(m.bench.presents, 1) else m.bench.presents
  {
  }
}
