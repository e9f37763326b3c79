/** The in-memory platform that stands in for the hardware
    (crates/oc-core/src/testing.rs). */
module Testing {
  import opened Ints
  import opened Platform
  import opened Ticks

  /** The platform's state.  `now` is what the next clock reading returns; every reading
      then charges `cost`. */
  datatype Bench = Bench(
    levels: Voltages, patched: Four<bool>, staged: Voltages, committed: Voltages, flushes: u32,
    triggers: Four<bool>, pending: ControlEvents, now: u64, cost: u64, picture: Picture, presents: u32)

  function BenchInitial(cost: u64): Bench
  {
    Bench(Four(0, 0, 0, 0), Four(false, false, false, false), Four(0, 0, 0, 0), Four(0, 0, 0, 0), 0,
          Four(false, false, false, false), NO_CONTROLS, 0, cost, Dark, 0)
  }

  function ClockRead(b: Bench): Bench { b.(now := WrappingAdd64(b.now, b.cost)) }

  function Advanced(b: Bench, micros: u64): Bench { b.(now := WrappingAdd64(b.now, micros)) }

  /** A poll takes the detents away and leaves the levels. */
  function Polled(b: Bench): Bench { b.(pending := ControlEvents(NO_DETENTS, b.pending.down)) }

  /** Encoder movement accumulates, saturating, until it is polled. */
  function Turned(b: Bench, encoder: nat, detents: i8): Bench
  {
    if encoder < ENCODERS then
      b.(pending := b.pending.(delta := b.pending.delta[encoder := SatAdd8(b.pending.delta[encoder], detents)]))
    else b
  }

  function Held(b: Bench, button: Button, down: bool): Bench
  {
    b.(pending := b.pending.(down := b.pending.down[button.Index() := down]))
  }

  /** All four outputs staged and flushed together. */
  function Driven(b: Bench, outputs: Voltages): Bench
  {
    b.(staged := outputs, committed := outputs, flushes := SatAdd32(b.flushes, 1))
  }

  function Shown(b: Bench, picture: Option<Picture>): Bench
  {
    if picture.Some? then b.(picture := picture.value, presents := SatAdd32(b.presents, 1)) else b
  }

  /** What the engine will sense at its next tick. */
  function Sense(b: Bench): Sensed
  {
    Sensed(b.now, WrappingAdd64(b.now, b.cost), b.levels, b.patched, b.triggers, b.pending)
  }

  /** What a tick does to the platform after its first clock reading: the panel is polled, the
      outputs driven, a rendered frame presented, and the clock read again. */
  function Served(b: Bench, t: Ticked): Bench
  {
    ClockRead(Shown(Driven(Polled(b), t.report.cvOut), t.picture))
  }

  /** An engine and its platform. */
  datatype Machine = Machine(core: Core, bench: Bench)

  function MachineInitial(cost: u64): Machine { Machine(CoreInitial(), BenchInitial(cost)) }

  function MachineTick(m: Machine): (r: (Machine, TickReport))
    requires Ready(m.core)
    ensures Ready(r.0.core)
  {
    var t := Tick(m.core, Sense(m.bench));
    (Machine(t.core, Served(ClockRead(m.bench), t)), t.report)
  }

  lemma SameFour<T>(a: Four<T>, b: Four<T>)
    requires forall j: nat :: j < 4 ==> a.At(j) == b.At(j)
    ensures a == b
  {
    assert a.At(0) == b.At(0) && a.At(1) == b.At(1) && a.At(2) == b.At(2) && a.At(3) == b.At(3);
  }

  /** The mock devices, as one object. */
  class MockPlatform {
    var levels: Voltages
    var patched: Four<bool>
    var staged: Voltages
    var committed: Voltages
    var flushes: u32
    var triggers: Four<bool>
    var pending: ControlEvents
    var now: u64
    const cost: u64
    ghost var picture: Picture
    var presents: u32

    ghost function State(): Bench
      reads this
    {
      Bench(levels, patched, staged, committed, flushes, triggers, pending, now, cost, picture, presents)
    }

    constructor (cost: u64)
      ensures State() == BenchInitial(cost)
    {
      levels, patched := Four(0, 0, 0, 0), Four(false, false, false, false);
      staged, committed, flushes := Four(0, 0, 0, 0), Four(0, 0, 0, 0), 0;
      triggers, pending := Four(false, false, false, false), NO_CONTROLS;
      now, this.cost := 0, cost;
      picture, presents := Dark, 0;
    }

    method WriteCv(channel: nat, value: MilliVolts)
      requires channel < CV_CHANNELS
      modifies `staged
      ensures staged == With(old(staged), channel, value)
    {
      staged := With(staged, channel, value);
    }

    method Flush()
      modifies `committed, `flushes
      ensures committed == staged && flushes == SatAdd32(old(flushes), 1)
    {
      committed := staged;
      flushes := SatAdd32(flushes, 1);
    }

    /** Stages one level per channel and flushes them together. */
    method DriveOutputs(outputs: Voltages)
      modifies `staged, `committed, `flushes
      ensures State() == Driven(old(State()), outputs)
    {
      for index := 0 to CV_CHANNELS
        invariant forall j: nat :: j < index ==> staged.At(j) == outputs.At(j)
        invariant committed == old(committed) && flushes == old(flushes)
      {
        WriteCv(index, outputs.At(index));
      }
      assert forall j: nat :: j < 4 ==> staged.At(j) == outputs.At(j);
      SameFour(staged, outputs);
      Flush();
    }

    method SetLevel(channel: nat, millivolts: MilliVolts)
      requires channel < CV_CHANNELS
      modifies `levels
      ensures levels == With(old(levels), channel, millivolts)
    {
      levels := With(levels, channel, millivolts);
    }

    method SetPatched(channel: nat, plugged: bool)
      requires channel < CV_CHANNELS
      modifies `patched
      ensures patched == With(old(patched), channel, plugged)
    {
      patched := With(patched, channel, plugged);
    }

    method SetTrigger(channel: nat, high: bool)
      requires channel < TRIGGER_CHANNELS
      modifies `triggers
      ensures triggers == With(old(triggers), channel, high)
    {
      triggers := With(triggers, channel, high);
    }

    method Poll() returns (events: ControlEvents)
      modifies `pending
      ensures events == old(pending) && State() == Polled(old(State()))
    {
      events := pending;
      pending := pending.(delta := NO_DETENTS);
    }

    /** Movement of an encoder that does not exist is ignored. */
    method Turn(encoder: nat, detents: i8)
      modifies `pending
      ensures State() == Turned(old(State()), encoder, detents)
    {
      if encoder < ENCODERS {
        pending := pending.(delta := pending.delta[encoder := SatAdd8(pending.delta[encoder], detents)]);
      }
    }

    method Hold(button: Button, down: bool)
      modifies `pending
      ensures State() == Held(old(State()), button, down)
    {
      pending := pending.(down := pending.down[button.Index() := down]);
    }

    method Advance(micros: u64)
      modifies `now
      ensures State() == Advanced(old(State()), micros)
    {
      now := WrappingAdd64(now, micros);
    }

    method NowMicros() returns (reading: u64)
      modifies `now
      ensures reading == old(now) && State() == ClockRead(old(State()))
    {
      reading := now;
      now := WrappingAdd64(now, cost);
    }

    method Present(ghost p: Picture)
      modifies `picture, `presents
      ensures State() == Shown(old(State()), Some(p))
    {
      picture := p;
      presents := SatAdd32(presents, 1);
    }
  }
}
