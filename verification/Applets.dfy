/** The two applets and the host that runs one of them (crates/oc-core/src/apps). */
module Applets {
  import opened Ints
  import opened Platform
  import opened Debounce
  import opened Buttons

  /** The inputs of one tick as an applet is shown them. */
  datatype Snapshot = Snapshot(
    cv: Voltages, patched: Four<bool>, triggers: Four<bool>,
    controls: ControlEvents, buttons: ButtonEvents, elapsed: u32)
  {
    /** The same signals and time with no control activity at all. */
    function Silenced(): Snapshot { this.(controls := NO_CONTROLS, buttons := NO_BUTTONS) }
  }

  // ----- Signal detection (crates/oc-core/src/signal.rs) -----

  datatype Detector = Detector(window: u16, seen: u16, low: i32, high: i32, span: i32, latest: i32)

  const IDLE_DETECTOR := Detector(256, 0, I32_MAX, -0x8000_0000, 0, 0)

  predicate DetectorReady(d: Detector) { d.seen < d.window }

  function Detect(d: Detector, level: i32): (r: Detector)
    requires DetectorReady(d)
    ensures DetectorReady(r) && r.latest == level
  {
    var low, high, seen := Min(d.low, level), Max(d.high, level), d.seen + 1;
    if seen >= d.window then
      Detector(d.window, 0, I32_MAX, -0x8000_0000, Clamp(high - low, -0x8000_0000, I32_MAX), level)
    else Detector(d.window, seen, low, high, d.span, level)
  }

  type Detectors = d: Four<Detector> | DetectorReady(d.one) && DetectorReady(d.two) && DetectorReady(d.three) && DetectorReady(d.four)
    witness Four(IDLE_DETECTOR, IDLE_DETECTOR, IDLE_DETECTOR, IDLE_DETECTOR)

  // ----- The diagnostic applet (crates/oc-core/src/apps/diagnostic.rs) -----

  const OFFSET_STEP_MV := 100
  const RAMP_PERIOD_MICROS: u32 := 2_000_000

  datatype OutputMode = Offset | Ramp | Zero {
    function Next(): OutputMode { match this case Offset => Ramp case Ramp => Zero case Zero => Offset }
    function Previous(): OutputMode { match this case Offset => Zero case Ramp => Offset case Zero => Ramp }
  }

  type Phase = x: u32 | x < RAMP_PERIOD_MICROS witness 0
  type OutputLevel = x: i32 | CV_OUT_MIN_MV <= x <= CV_OUT_MAX_MV witness 0
  type ChannelIndex = x: int | 0 <= x < CV_CHANNELS

  /** What the panel has dialled in. */
  datatype Dials = Dials(presses: Four<u32>, selected: ChannelIndex, offset: OutputLevel, mode: OutputMode)

  type Counters = Four<CounterState>

  datatype DiagnosticState = DiagnosticState(
    detectors: Detectors, patched: Four<bool>, counters: Counters, dials: Dials, phase: Phase, outputs: Voltages)

  function NewCounter(): CounterState { CounterInitial(DEFAULT_STABLE_SAMPLES) }

  function DiagnosticInitial(): DiagnosticState
  {
    DiagnosticState(
      Four(IDLE_DETECTOR, IDLE_DETECTOR, IDLE_DETECTOR, IDLE_DETECTOR), Four(false, false, false, false),
      Four(NewCounter(), NewCounter(), NewCounter(), NewCounter()),
      Dials(Four(0, 0, 0, 0), 0, 0, Offset), 0, Four(0, 0, 0, 0))
  }

  /** Encoder movement: the left one selects a channel, the right one dials the offset. */
  function Turn(d: Dials, delta: Detents): Dials
  {
    d.(selected := (d.selected + delta[0]) % CV_CHANNELS,
       offset := if delta[1] == 0 then d.offset else ClampOut(d.offset + delta[1] * OFFSET_STEP_MV))
  }

  function CountPress(pressed: bool, count: u32): u32 { if pressed then SatAdd32(count, 1) else count }

  /** Button actions, in panel order. */
  function Act(d: Dials, p: PerButton): Dials
  {
    var presses := Four(CountPress(p.left, d.presses.one), CountPress(p.right, d.presses.two),
                        CountPress(p.up, d.presses.three), CountPress(p.down, d.presses.four));
    var up := if p.up then d.mode.Next() else d.mode;
    Dials(presses, d.selected, if p.right then 0 else d.offset, if p.down then up.Previous() else up)
  }

  function Counted(c: Counters, raw: Four<bool>): Counters
  {
    Four(CounterNext(c.one, raw.one), CounterNext(c.two, raw.two), CounterNext(c.three, raw.three), CounterNext(c.four, raw.four))
  }

  function ResetCounts(c: Counters): Counters
  {
    Four(c.one.(rising := 0), c.two.(rising := 0), c.three.(rising := 0), c.four.(rising := 0))
  }

  function Detected(d: Detectors, cv: Voltages): Detectors
  {
    Four(Detect(d.one, cv.one), Detect(d.two, cv.two), Detect(d.three, cv.three), Detect(d.four, cv.four))
  }

  /** `wrapping_add` on the 32-bit phase, then the wrap of the ramp itself. */
  function Advance(phase: Phase, elapsed: u32): Phase
  {
    (phase + elapsed as int) % 0x1_0000_0000 % RAMP_PERIOD_MICROS
  }

  function RampLevel(phase: Phase, index: nat): OutputLevel
    requires index < CV_CHANNELS
  {
    var shifted := (phase + index * (RAMP_PERIOD_MICROS / 4)) % RAMP_PERIOD_MICROS;
    CV_OUT_MIN_MV + shifted * (CV_OUT_MAX_MV - CV_OUT_MIN_MV) / RAMP_PERIOD_MICROS
  }

  function Output(d: Dials, phase: Phase, cv: Voltages, index: nat): OutputLevel
    requires index < CV_CHANNELS
  {
    match d.mode
    case Zero => 0
    case Offset => if index == d.selected then d.offset else ClampOut(cv.At(index))
    case Ramp => RampLevel(phase, index)
  }

  function Outputs(d: Dials, phase: Phase, cv: Voltages): (v: Voltages)
    ensures InOutputRange(v)
  {
    Four(Output(d, phase, cv, 0), Output(d, phase, cv, 1), Output(d, phase, cv, 2), Output(d, phase, cv, 3))
  }

  function DiagnosticNext(d: DiagnosticState, input: Snapshot): (r: DiagnosticState)
    ensures InOutputRange(r.outputs)
  {
    var counters := Counted(d.counters, input.triggers);
    var dials := Act(Turn(d.dials, input.controls.delta), input.buttons.pressed);
    var phase := Advance(d.phase, input.elapsed);
    DiagnosticState(
      Detected(d.detectors, input.cv), input.patched,
      if input.buttons.pressed.left then ResetCounts(counters) else counters,
      dials, phase, Outputs(dials, phase, input.cv))
  }

  class DiagnosticApp {
    var detectors: Detectors
    var patched: Four<bool>
    const triggers: seq<EdgeCounter>
    ghost const contacts: seq<Debouncer>  // of the triggers, in the same order
    ghost const repr: set<object>
    var presses: Four<u32>
    var selected: ChannelIndex
    var offset: OutputLevel
    var mode: OutputMode
    var phase: Phase
    var outputs: Voltages

    /** The wiring never changes, so this reads no state. */
    ghost predicate Valid()
    {
      && |triggers| == |contacts| == TRIGGER_CHANNELS
      && (forall i :: 0 <= i < TRIGGER_CHANNELS ==>
            && triggers[i].debouncer == contacts[i] && contacts[i].required == DEFAULT_STABLE_SAMPLES
            && triggers[i] in repr && contacts[i] in repr)
      && (forall i, j :: 0 <= i < j < TRIGGER_CHANNELS ==> triggers[i] != triggers[j] && contacts[i] != contacts[j])
      && this in repr
    }

    ghost function Counts(): Counters
      requires Valid()
      reads triggers, contacts
    {
      Four(triggers[0].State(), triggers[1].State(), triggers[2].State(), triggers[3].State())
    }

    ghost function Dialled(): Dials
      reads this
    {
      Dials(presses, selected, offset, mode)
    }

    ghost function State(): DiagnosticState
      requires Valid()
      reads repr
    {
      DiagnosticState(detectors, patched, Counts(), Dialled(), phase, outputs)
    }

    constructor ()
      ensures Valid() && State() == DiagnosticInitial()
      ensures fresh(repr)
    {
      detectors := Four(IDLE_DETECTOR, IDLE_DETECTOR, IDLE_DETECTOR, IDLE_DETECTOR);
      patched, presses, outputs := Four(false, false, false, false), Four(0, 0, 0, 0), Four(0, 0, 0, 0);
      selected, offset, mode, phase := 0, 0, Offset, 0;
      var t0 := new EdgeCounter(DEFAULT_STABLE_SAMPLES);
      var t1 := new EdgeCounter(DEFAULT_STABLE_SAMPLES);
      var t2 := new EdgeCounter(DEFAULT_STABLE_SAMPLES);
      var t3 := new EdgeCounter(DEFAULT_STABLE_SAMPLES);
      triggers := [t0, t1, t2, t3];
      contacts := [t0.debouncer, t1.debouncer, t2.debouncer, t3.debouncer];
      repr := {this, t0, t1, t2, t3, t0.debouncer, t1.debouncer, t2.debouncer, t3.debouncer};
    }

    /** Overwrites the applet with a new one, as `Engine::reset` does. */
    method Reset()
      requires Valid()
      modifies repr
      ensures State() == DiagnosticInitial()
    {
      detectors := Four(IDLE_DETECTOR, IDLE_DETECTOR, IDLE_DETECTOR, IDLE_DETECTOR);
      patched, presses, outputs := Four(false, false, false, false), Four(0, 0, 0, 0), Four(0, 0, 0, 0);
      selected, offset, mode, phase := 0, 0, Offset, 0;
      triggers[0].Reset();
      triggers[1].Reset();
      triggers[2].Reset();
      triggers[3].Reset();
    }

    method Update(input: Snapshot) returns (levels: Voltages)
      requires Valid()
      modifies repr
      ensures State() == DiagnosticNext(old(State()), input) && levels == outputs
    {
      patched := input.patched;
      detectors := Detected(detectors, input.cv);
      CountTriggers(input.triggers);
      ghost var counters, dials := Counts(), Dialled();
      ApplyControls(input.controls.delta, input.buttons.pressed);
      assert Dialled() == Act(Turn(dials, input.controls.delta), input.buttons.pressed);
      phase := Advance(phase, input.elapsed);
      outputs := ComputeOutputs(input.cv);
      levels := outputs;
    }

    method CountTriggers(raw: Four<bool>)
      requires Valid()
      modifies triggers, contacts
      ensures Counts() == Counted(old(Counts()), raw)
    {
      for i := 0 to TRIGGER_CHANNELS
        invariant forall j :: 0 <= j < i ==> triggers[j].State() == CounterNext(old(triggers[j].State()), raw.At(j))
        invariant forall j :: i <= j < TRIGGER_CHANNELS ==> triggers[j].State() == old(triggers[j].State())
      {
        var _ := triggers[i].Update(raw.At(i));
      }
    }

    /** Encoder movement, then button actions. */
    method ApplyControls(delta: Detents, pressed: PerButton)
      requires Valid()
      modifies `presses, `selected, `offset, `mode, triggers
      ensures Dialled() == Act(Turn(old(Dialled()), delta), pressed)
      ensures Counts() == if pressed.left then ResetCounts(old(Counts())) else old(Counts())
    {
      if delta[0] != 0 {
        selected := (selected + delta[0]) % CV_CHANNELS;
      }
      if delta[1] != 0 {
        offset := ClampOut(offset + delta[1] * OFFSET_STEP_MV);
      }
      if pressed.left {
        ResetTriggerCounts();
      }
      ApplyButtons(pressed);
    }

    method ApplyButtons(pressed: PerButton)
      modifies `presses, `offset, `mode
      ensures Dialled() == Act(old(Dialled()), pressed)
    {
      if pressed.left {
        presses := presses.(one := SatAdd32(presses.one, 1));
      }
      if pressed.right {
        presses := presses.(two := SatAdd32(presses.two, 1));
        offset := 0;
      }
      if pressed.up {
        presses := presses.(three := SatAdd32(presses.three, 1));
        mode := mode.Next();
      }
      if pressed.down {
        presses := presses.(four := SatAdd32(presses.four, 1));
        mode := mode.Previous();
      }
    }

    method ResetTriggerCounts()
      requires Valid()
      modifies triggers
      ensures Counts() == ResetCounts(old(Counts()))
    {
      for i := 0 to TRIGGER_CHANNELS
        invariant forall j :: 0 <= j < i ==> triggers[j].State() == old(triggers[j].State()).(rising := 0)
        invariant forall j :: i <= j < TRIGGER_CHANNELS ==> triggers[j].State() == old(triggers[j].State())
      {
        triggers[i].ResetCount();
      }
    }

    method ComputeOutputs(cv: Voltages) returns (levels: Voltages)
      ensures levels == Outputs(Dialled(), phase, cv)
    {
      levels := Four(0, 0, 0, 0);
      for index := 0 to CV_CHANNELS
        invariant forall j: nat :: j < index ==> levels.At(j) == Output(Dialled(), phase, cv, j)
      {
        var level := match mode
          case Zero => 0
          case Offset => if index == selected then offset else ClampOut(cv.At(index))
          case Ramp => RampLevel(phase, index);
        levels := With(levels, index, level);
      }
      assert levels.At(0) == levels.one && levels.At(1) == levels.two && levels.At(2) == levels.three && levels.At(3) == levels.four;
    }
  }

  // ----- The scope applet (crates/oc-core/src/apps/scope.rs) -----

  const TRACE_LEN := 128
  const SAMPLE_INTERVAL_MICROS: u32 := 8_000
  const PLOT_HEIGHT := 48

  type Trace = s: seq<u8> | |s| == TRACE_LEN witness Zeros(TRACE_LEN)
  type RingIndex = x: int | 0 <= x < TRACE_LEN

  /** Plot row of a level, counted from the top. */
  function RowFor(level: MilliVolts): (row: u8)
    ensures row < PLOT_HEIGHT
  {
    (CV_OUT_MAX_MV - ClampOut(level)) * (PLOT_HEIGHT - 1) / (CV_OUT_MAX_MV - CV_OUT_MIN_MV)
  }

  /** `filled` is the number of columns held: all of them once the ring has wrapped. */
  datatype Ring = Ring(trace: Trace, write: RingIndex, filled: nat)

  function Zeros(n: nat): (s: seq<u8>)
    ensures |s| == n && forall i :: 0 <= i < n ==> s[i] == 0
  {
    if n == 0 then [] else Zeros(n - 1) + [0]
  }

  function EmptyRing(): Ring { Ring(Zeros(TRACE_LEN), 0, 0) }

  /** Until it wraps, the ring is written from its start. */
  predicate RingReady(r: Ring)
  {
    r.filled <= TRACE_LEN && (r.filled < TRACE_LEN ==> r.write == r.filled)
  }

  function PushRow(r: Ring, row: u8): Ring
  {
    Ring(r.trace[r.write := row], (r.write + 1) % TRACE_LEN, Min(r.filled + 1, TRACE_LEN))
  }

  function PushRows(r: Ring, row: u8, count: nat): Ring
  {
    if count == 0 then r else PushRow(PushRows(r, row, count - 1), row)
  }

  /** The row drawn in a screen column, oldest first. */
  function Column(r: Ring, column: nat): Option<u8>
    requires RingReady(r)
  {
    if column >= r.filled then None
    else
      var oldest := if r.filled < TRACE_LEN then 0 else r.write;
      Some(r.trace[(oldest + column) % TRACE_LEN])
  }

  datatype ScopeState = ScopeState(ring: Ring, accumulator: u32, level: MilliVolts, outputs: Voltages)

  function ScopeInitial(): ScopeState { ScopeState(EmptyRing(), 0, 0, Four(0, 0, 0, 0)) }

  /** Samples due after some time, at most a screenful. */
  function SamplesDue(accumulator: u32): nat { Min(accumulator / SAMPLE_INTERVAL_MICROS, TRACE_LEN) }

  function ScopeNext(s: ScopeState, input: Snapshot): (r: ScopeState)
    ensures InOutputRange(r.outputs)
  {
    var level := input.cv.one;
    var accumulator := SatAdd32(s.accumulator, input.elapsed);
    var out := ClampOut(level);
    ScopeState(PushRows(s.ring, RowFor(level), SamplesDue(accumulator)), accumulator % SAMPLE_INTERVAL_MICROS,
               level, Four(out, out, out, out))
  }

  class ScopeApp {
    const trace: array<u8>
    ghost const repr: set<object>
    var write: RingIndex
    var filled: nat
    var accumulator: u32
    var level: MilliVolts
    var outputs: Voltages

    ghost predicate Valid() { trace.Length == TRACE_LEN && this in repr && trace in repr }

    ghost function Held(): Ring
      requires Valid()
      reads this, trace
    {
      Ring(trace[..], write, filled)
    }

    ghost function State(): ScopeState
      requires Valid()
      reads repr
    {
      ScopeState(Held(), accumulator, level, outputs)
    }

    constructor ()
      ensures Valid() && State() == ScopeInitial() && fresh(repr)
    {
      trace := new u8[TRACE_LEN](_ => 0);
      repr := {this, trace};
      write, filled, accumulator, level, outputs := 0, 0, 0, 0, Four(0, 0, 0, 0);
      new;
      assert trace[..] == Zeros(TRACE_LEN);
    }

    /** Overwrites the applet with a new one, as `Engine::reset` does. */
    method Reset()
      requires Valid()
      modifies repr
      ensures State() == ScopeInitial()
    {
      forall i | 0 <= i < TRACE_LEN {
        trace[i] := 0;
      }
      write, filled, accumulator, level, outputs := 0, 0, 0, 0, Four(0, 0, 0, 0);
      assert trace[..] == Zeros(TRACE_LEN);
    }

    method Update(input: Snapshot) returns (levels: Voltages)
      requires Valid()
      modifies repr
      ensures State() == ScopeNext(old(State()), input) && levels == outputs
    {
      level := input.cv.one;
      var out := ClampOut(level);
      outputs := Four(out, out, out, out);
      accumulator := SatAdd32(accumulator, input.elapsed);
      var samples := SamplesDue(accumulator);
      accumulator := accumulator % SAMPLE_INTERVAL_MICROS;
      Record(RowFor(level), samples);
      levels := outputs;
    }

    method Record(row: u8, count: nat)
      requires Valid()
      modifies `write, `filled, trace
      ensures Held() == PushRows(old(Held()), row, count)
    {
      for i := 0 to count
        invariant Held() == PushRows(old(Held()), row, i)
      {
        Push(row);
      }
    }

    /** The row goes to the next slot of the ring, over the oldest one once the ring is full. */
    method Push(row: u8)
      requires Valid()
      modifies `write, `filled, trace
      ensures Held() == PushRow(old(Held()), row)
    {
      trace[write] := row;
      write := (write + 1) % TRACE_LEN;
      filled := Min(filled + 1, TRACE_LEN);
    }
  }

  // ----- The host (crates/oc-core/src/apps/mod.rs) -----

  datatype AppId = Diagnostic | Scope {
    function Index(): AppIndex { if Diagnostic? then 0 else 1 }
  }

  const APP_COUNT := 2

  type AppIndex = x: int | 0 <= x < APP_COUNT

  function AppOf(index: AppIndex): (id: AppId)
    ensures id.Index() == index
  {
    if index == 0 then Diagnostic else Scope
  }

  /** Both applets, and the one that is running. */
  datatype HostState = HostState(diagnostic: DiagnosticState, scope: ScopeState, current: AppId)

  function HostInitial(): HostState { HostState(DiagnosticInitial(), ScopeInitial(), Diagnostic) }

  /** One tick of the running applet; the other one is left exactly as it was. */
  function HostNext(h: HostState, input: Snapshot): (r: (HostState, Voltages))
    ensures InOutputRange(r.1)
    ensures r.0.current == h.current
    ensures h.current.Diagnostic? ==> r.0.scope == h.scope && r.1 == r.0.diagnostic.outputs
    ensures h.current.Scope? ==> r.0.diagnostic == h.diagnostic && r.1 == r.0.scope.outputs
  {
    match h.current
    case Diagnostic => var d := DiagnosticNext(h.diagnostic, input); (h.(diagnostic := d), d.outputs)
    case Scope => var s := ScopeNext(h.scope, input); (h.(scope := s), s.outputs)
  }

  class AppHost {
    const diagnostic: DiagnosticApp
    const scope: ScopeApp
    ghost const repr: set<object>
    var current: AppId

    ghost predicate Valid()
    {
      && diagnostic.Valid() && scope.Valid()
      && this in repr && this !in diagnostic.repr && this !in scope.repr
      && diagnostic.repr <= repr && scope.repr <= repr && diagnostic.repr !! scope.repr
    }

    ghost function State(): HostState
      requires Valid()
      reads repr
    {
      HostState(diagnostic.State(), scope.State(), current)
    }

    constructor ()
      ensures Valid() && State() == HostInitial() && fresh(repr)
    {
      var d := new DiagnosticApp();
      var s := new ScopeApp();
      diagnostic, scope := d, s;
      repr := {this} + d.repr + s.repr;
      current := Diagnostic;
    }

    method Reset()
      requires Valid()
      modifies repr
      ensures State() == HostInitial()
    {
      diagnostic.Reset();
      scope.Reset();
      current := Diagnostic;
    }

    /** From now on the other applet runs; neither one's state is touched. */
    method Select(id: AppId)
      requires Valid()
      modifies `current
      ensures State() == old(State()).(current := id)
    {
      current := id;
    }

    method Update(input: Snapshot) returns (levels: Voltages)
      requires Valid()
      modifies diagnostic.repr, scope.repr
      ensures (State(), levels) == HostNext(old(State()), input)
    {
      match current
      case Diagnostic => levels := diagnostic.Update(input);
      case Scope => levels := scope.Update(input);
    }
  }
}
