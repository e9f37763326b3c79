/** The simulated module (crates/oc-sim/src/simulator.rs): an engine on the in-memory
    platform, momentary presses, recording and replay. */
module Simulator {
  import opened Ints
  import opened Platform
  import opened Scenario
  import opened Ticks
  import opened Testing
  import opened Simulation
  import E = Engine

  class Simulator {
    const engine: E.Engine
    var tick: u64
    var buttonHold: Holds
    var triggerHold: Holds
    var recording: Scenario?
    var last: Option<TickReport>

    ghost predicate Valid()
      reads this, engine, recording
    {
      && engine.Valid() && this !in engine.parts && engine !in engine.parts
      && (recording != null ==> recording !in engine.parts && Sorted(recording.events))
    }

    /** Recording an event now would not overflow. */
    predicate MayRecord()
      reads this
    {
      recording != null ==> tick < U64_MAX
    }

    /** The scenario being recorded into, if any. */
    ghost function Recorded(): Option<Log>
      reads this, recording
    {
      if recording == null then None else Some(recording.Value())
    }

    ghost function State(): Sim<Module>
      requires Valid()
      reads this, recording, engine, engine.platform, engine.parts
    {
      Sim(engine.Whole(), tick, buttonHold, triggerHold, Recorded(), last)
    }

    constructor ()
      ensures Valid() && State() == SimInitial()
      ensures fresh(engine) && fresh(engine.platform) && fresh(engine.parts)
    {
      var platform := new MockPlatform(TICK_COST_MICROS);
      var e := new E.Engine(platform);
      engine := e;
      tick, buttonHold, triggerHold, recording, last := 0, NO_HOLDS, NO_HOLDS, null, None;
    }

    /** From here on every input change goes into a new scenario. */
    method StartRecording()
      requires Valid()
      modifies this
      ensures Valid() && fresh(recording)
      ensures State() == old(State()).(recording := Some(Log([], tick)))
    {
      recording := new Scenario(tick);
    }

    /** Ends the recording and hands it over, if there was one. */
    method StopRecording() returns (scenario: Scenario?)
      requires Valid()
      modifies this, recording
      ensures Valid() && State() == old(State()).(recording := None)
      ensures scenario == old(recording)
      ensures scenario != null ==> scenario.Value() == Stopped(old(State()))
    {
      scenario := recording;
      recording := null;
      if scenario != null {
        scenario.ticks := Max(scenario.ticks, tick);
      }
    }

    /** A single input change, which also goes into any recording. */
    method Apply(event: Event)
      requires Valid() && MayRecord()
      modifies `buttonHold, `triggerHold, recording, engine, engine.platform, engine.parts
      ensures Valid()
      ensures State() == Simulation.Apply(MODULE, old(State()), event)
    {
      RecordEvent(event);
      ChangeModule(event);
      if event.Reset? {
        DropHolds();
      }
    }

    /** A power cycle forgets the presses in flight. */
    method DropHolds()
      requires Valid()
      modifies `buttonHold, `triggerHold
      ensures Valid() && engine.Whole() == old(engine.Whole()) && Recorded() == old(Recorded())
      ensures buttonHold == triggerHold == NO_HOLDS
    {
      buttonHold, triggerHold := NO_HOLDS, NO_HOLDS;
    }

    method RecordEvent(event: Event)
      requires Valid() && MayRecord()
      modifies recording
      ensures Valid() && engine.Whole() == old(engine.Whole())
      ensures Recorded() == Record(old(Recorded()), tick, event)
    {
      if recording != null {
        recording.Push(tick, event);
      }
    }

    method ChangeModule(event: Event)
      requires Valid()
      modifies engine, engine.platform, engine.parts
      ensures Valid() && Recorded() == old(Recorded())
      ensures engine.Whole() == Input(old(engine.Whole()), event)
    {
      match event
      case Cv(channel, millivolts) =>
        if channel < CV_CHANNELS { engine.platform.SetLevel(channel, millivolts); }
      case Patch(channel, patched) =>
        if channel < CV_CHANNELS { engine.platform.SetPatched(channel, patched); }
      case Trigger(channel, high) =>
        if channel < TRIGGER_CHANNELS { engine.platform.SetTrigger(channel, high); }
      case Encoder(index, detents) => engine.platform.Turn(index, detents);
      case Press(button, down) => engine.platform.Hold(button, down);
      case Reset => engine.Reset();
    }

    method Reset()
      requires Valid() && MayRecord()
      modifies `buttonHold, `triggerHold, recording, engine, engine.platform, engine.parts
      ensures Valid()
      ensures State() == Simulation.Apply(MODULE, old(State()), Event.Reset)
    {
      Apply(Event.Reset);
    }

    /** A press that `ExpireHolds` will let go six ticks later. */
    method Press(button: Button)
      requires Valid() && MayRecord()
      modifies `buttonHold, `triggerHold, recording, engine, engine.platform, engine.parts
      ensures Valid()
      ensures State() == Pressed(MODULE, old(State()), button)
    {
      Apply(Event.Press(button, true));
      buttonHold := With(buttonHold, button.Index(), PRESS_TICKS);
    }

    /** Both chord buttons, pressed between the same two ticks. */
    method Chord()
      requires Valid() && MayRecord()
      modifies `buttonHold, `triggerHold, recording, engine, engine.platform, engine.parts
      ensures Valid()
      ensures State() == Chorded(MODULE, old(State()))
    {
      Press(Up);
      Press(Down);
    }

    /** A pulse that `ExpireHolds` will end six ticks later. */
    method Pulse(channel: TriggerIndex)
      requires Valid() && MayRecord()
      modifies `buttonHold, `triggerHold, recording, engine, engine.platform, engine.parts
      ensures Valid()
      ensures State() == Pulsed(MODULE, old(State()), channel)
    {
      Apply(Event.Trigger(channel, true));
      triggerHold := With(triggerHold, channel, PRESS_TICKS);
    }

    /** Runs one tick. */
    method Step() returns (report: TickReport)
      requires Valid() && CanStep(State())
      modifies `tick, `buttonHold, `triggerHold, `last, recording, engine, engine.platform, engine.parts
      ensures Valid()
      ensures State() == Stepped(MODULE, old(State())) && Some(report) == Simulation.Ticked(MODULE, old(State())).last
    {
      report := CountTick();
      ExpireHolds();
    }

    method RunTick() returns (report: TickReport)
      requires Valid()
      modifies engine, engine.platform, engine.parts
      ensures Valid() && Recorded() == old(Recorded())
      ensures (engine.Whole(), report) == Tock(old(engine.Whole()))
    {
      engine.platform.Advance(TICK_MICROS);
      report := engine.Tick();
    }

    method CountTick() returns (report: TickReport)
      requires Valid()
      modifies `tick, `last, engine, engine.platform, engine.parts
      ensures Valid() && State() == Simulation.Ticked(MODULE, old(State())) && last == Some(report)
    {
      report := RunTick();
      Count(report);
    }

    method Count(report: TickReport)
      requires Valid()
      modifies `tick, `last
      ensures Valid() && engine.Whole() == old(engine.Whole()) && Recorded() == old(Recorded())
      ensures tick == WrappingAdd64(old(tick), 1) && last == Some(report)
    {
      tick := WrappingAdd64(tick, 1);
      last := Some(report);
    }

    /** Every hold loses a tick; those that reach zero let go. */
    method ExpireHolds()
      requires Valid() && CanExpire(State())
      modifies `buttonHold, `triggerHold, recording, engine, engine.platform, engine.parts
      ensures Valid()
      ensures State() == Expired(MODULE, old(State()))
    {
      for index := 0 to BUTTONS
        invariant Valid()
        invariant State() == ExpireButtons(MODULE, old(State()), index)
      {
        ExpireButton(index);
      }
      ghost var between := State();
      for index := 0 to TRIGGER_CHANNELS
        invariant Valid()
        invariant State() == ExpireTriggers(MODULE, between, index)
      {
        ExpireTrigger(index);
      }
    }

    method ExpireButton(index: nat)
      requires Valid() && index < BUTTONS && (MayRecord() || buttonHold.At(index) != 1)
      modifies `buttonHold, `triggerHold, recording, engine, engine.platform, engine.parts
      ensures Valid()
      ensures State() == Simulation.ExpireButton(MODULE, old(State()), index)
    {
      var hold := buttonHold.At(index);
      if hold == 0 {
        return;
      }
      buttonHold := With(buttonHold, index, hold - 1);
      if hold - 1 == 0 {
        Apply(Event.Press(ButtonOf(index), false));
      }
    }

    method ExpireTrigger(index: nat)
      requires Valid() && index < TRIGGER_CHANNELS && (MayRecord() || triggerHold.At(index) != 1)
      modifies `buttonHold, `triggerHold, recording, engine, engine.platform, engine.parts
      ensures Valid()
      ensures State() == Simulation.ExpireTrigger(MODULE, old(State()), index)
    {
      var hold := triggerHold.At(index);
      if hold == 0 {
        return;
      }
      triggerHold := With(triggerHold, index, hold - 1);
      if hold - 1 == 0 {
        Apply(Event.Trigger(index, false));
      }
    }

    /** Plays a whole scenario, its first tick being the next one.  A debug build checks the counter
        at the end, and the check itself panics when the tick it expects has no number. */
    method Replay(scenario: Scenario, debug: bool) returns (report: Option<TickReport>)
      requires Valid() && scenario != recording && scenario !in engine.parts
      requires CanReplay(MODULE, State(), scenario.events, scenario.ticks)
      requires debug ==> tick + scenario.ticks <= U64_MAX
      modifies `tick, `buttonHold, `triggerHold, `last, recording, engine, engine.platform, engine.parts
      ensures Valid()
      ensures State() == Replayed(MODULE, old(State()), scenario.events, scenario.ticks)
      ensures Reached(tick, old(tick), scenario.ticks) && report == last
    {
      var from := tick;
      ghost var start := State();
      ReplayTicks(scenario);
      ReplayCounts(MODULE, start, scenario.events, scenario.ticks);
      if debug {
        var expected: u64 := from + scenario.ticks;
        NotWrapped(tick, from, scenario.ticks);
        assert tick == expected;
      }
      report := last;
    }

    method ReplayTicks(scenario: Scenario)
      requires Valid() && scenario != recording && scenario !in engine.parts
      requires Replaying(MODULE, State(), scenario.events, scenario.ticks, 0, State())
      modifies `tick, `buttonHold, `triggerHold, `last, recording, engine, engine.platform, engine.parts
      ensures Valid()
      ensures Replaying(MODULE, old(State()), scenario.events, scenario.ticks, scenario.ticks, State())
    {
      ghost var start := State();
      for offset := 0 to scenario.ticks
        invariant Valid()
        invariant Replaying(MODULE, start, scenario.events, scenario.ticks, offset, State())
      {
        ReplayTick(start, scenario, offset);
      }
    }

    /** The next tick of a replay that began at `start`. */
    method ReplayTick(ghost start: Sim<Module>, scenario: Scenario, offset: u64)
      requires Valid() && scenario != recording && scenario !in engine.parts && offset < scenario.ticks
      requires Replaying(MODULE, start, scenario.events, scenario.ticks, offset, State())
      modifies `tick, `buttonHold, `triggerHold, `last, recording, engine, engine.platform, engine.parts
      ensures Valid()
      ensures Replaying(MODULE, start, scenario.events, scenario.ticks, offset + 1, State())
    {
      ReplayGoesOn(MODULE, start, scenario.events, scenario.ticks, offset, State());
      PlayTick(scenario, offset);
    }

    /** One tick of a replay. */
    method PlayTick(scenario: Scenario, offset: u64)
      requires Valid() && scenario != recording && scenario !in engine.parts
      requires CanPlay(MODULE, State(), At(scenario.events, offset))
      modifies `tick, `buttonHold, `triggerHold, `last, recording, engine, engine.platform, engine.parts
      ensures Valid()
      ensures State() == Played(MODULE, old(State()), At(scenario.events, offset))
    {
      var events := scenario.EventsAt(offset);
      ApplyEach(events);
      var _ := Step();
    }

    method ApplyEach(events: seq<Event>)
      requires Valid() && (events == [] || MayRecord())
      modifies `buttonHold, `triggerHold, recording, engine, engine.platform, engine.parts
      ensures Valid()
      ensures State() == ApplyAll(MODULE, old(State()), events)
    {
      for i := 0 to |events|
        invariant Valid()
        invariant State() == ApplyAll(MODULE, old(State()), events[..i])
      {
        Apply(events[i]);
        assert events[..i + 1][..i] == events[..i];
      }
      assert events[..|events|] == events;
    }
  }
}
