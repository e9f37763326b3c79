/** The simulator as a function of its state, and record against replay
    (crates/oc-sim/src/simulator.rs). */
module Simulation {
  import opened Ints
  import opened Platform
  import opened Scenario
  import opened Ticks
  import opened Testing

  const PRESS_TICKS: u32 := 6
  const TICK_MICROS: u64 := 1_000
  const TICK_COST_MICROS: u64 := 120

  /** The simulated module: an engine ready to tick, and its platform. */
  type Module = m: Machine | Ready(m.core) witness MachineInitial(TICK_COST_MICROS)

  /** What one input change does to the module; one that addresses nothing changes nothing. */
  function Input(m: Module, e: Event): Module
  {
    var b := m.bench;
    match e
    case Cv(channel, millivolts) =>
      if channel < CV_CHANNELS then m.(bench := b.(levels := With(b.levels, channel, millivolts))) else m
    case Patch(channel, patched) =>
      if channel < CV_CHANNELS then m.(bench := b.(patched := With(b.patched, channel, patched))) else m
    case Trigger(channel, high) =>
      if channel < TRIGGER_CHANNELS then m.(bench := b.(triggers := With(b.triggers, channel, high))) else m
    case Encoder(index, detents) => m.(bench := Turned(b, index, detents))
    case Press(button, down) => m.(bench := Held(b, button, down))
    case Reset => Machine(CoreReset(m.core), b)
  }

  function Tock(m: Module): (r: (Module, TickReport))
  {
    MachineTick(m.(bench := Advanced(m.bench, TICK_MICROS)))
  }

  type Holds = Four<u32>

  const NO_HOLDS: Holds := Four(0, 0, 0, 0)

  /** A deterministic module, as the two things a simulator does to it.  Nothing below depends
      on which module it is. */
  datatype Device<!M> = Device(change: (M, Event) -> M, tick: M -> (M, TickReport))

  const MODULE: Device<Module> := Device(Input, Tock)

  datatype Sim<+M> = Sim(
    m: M, tick: u64, buttons: Holds, triggers: Holds, recording: Option<Log>, last: Option<TickReport>)

  function SimInitial(): Sim<Module>
  {
    Sim(MachineInitial(TICK_COST_MICROS), 0, NO_HOLDS, NO_HOLDS, None, None)
  }

  /** Recording an event needs the tick after it to fit the counter; the addition panics
      otherwise. */
  predicate CanApply<M>(s: Sim<M>) { s.recording.Some? ==> s.tick < U64_MAX }

  function Record(recording: Option<Log>, tick: u64, e: Event): Option<Log>
    requires recording.Some? ==> tick < U64_MAX
  {
    match recording case None => None case Some(log) => Some(Pushed(log, tick, e))
  }

  /** One input change, recorded if recording is on.  A reset also drops every momentary hold,
      though not the level it was holding. */
  function Apply<M>(d: Device<M>, s: Sim<M>, e: Event): Sim<M>
    requires CanApply(s)
  {
    Sim(d.change(s.m, e), s.tick, if e.Reset? then NO_HOLDS else s.buttons, if e.Reset? then NO_HOLDS else s.triggers,
        Record(s.recording, s.tick, e), s.last)
  }

  /** A momentary press, released once its hold runs out. */
  function Pressed<M>(d: Device<M>, s: Sim<M>, button: Button): Sim<M>
    requires CanApply(s)
  {
    var t := Apply(d, s, Press(button, true));
    t.(buttons := With(t.buttons, button.Index(), PRESS_TICKS))
  }

  function Chorded<M>(d: Device<M>, s: Sim<M>): Sim<M>
    requires CanApply(s)
  {
    Pressed(d, Pressed(d, s, Up), Down)
  }

  type TriggerIndex = x: nat | x < TRIGGER_CHANNELS

  function Pulsed<M>(d: Device<M>, s: Sim<M>, channel: TriggerIndex): Sim<M>
    requires CanApply(s)
  {
    var t := Apply(d, s, Trigger(channel, true));
    t.(triggers := With(t.triggers, channel, PRESS_TICKS))
  }

  // ----- Expiry -----

  /** One button's hold, a tick later. */
  function ExpireButton<M>(d: Device<M>, s: Sim<M>, i: nat): (r: Sim<M>)
    requires i < BUTTONS && (CanApply(s) || s.buttons.At(i) != 1)
    ensures r.tick == s.tick && (r.recording.None? <==> s.recording.None?)
  {
    var hold := s.buttons.At(i);
    if hold == 0 then s
    else
      var t := s.(buttons := With(s.buttons, i, hold - 1));
      if hold == 1 then Apply(d, t, Press(ButtonOf(i), false)) else t
  }

  function ExpireTrigger<M>(d: Device<M>, s: Sim<M>, i: nat): (r: Sim<M>)
    requires i < TRIGGER_CHANNELS && (CanApply(s) || s.triggers.At(i) != 1)
    ensures r.tick == s.tick && (r.recording.None? <==> s.recording.None?)
  {
    var hold := s.triggers.At(i);
    if hold == 0 then s
    else
      var t := s.(triggers := With(s.triggers, i, hold - 1));
      if hold == 1 then Apply(d, t, Trigger(i, false)) else t
  }

  /** Some hold has one tick left. */
  predicate RunsOut(h: Holds) { h.one == 1 || h.two == 1 || h.three == 1 || h.four == 1 }

  /** The first `n` buttons' holds, in order. */
  function ExpireButtons<M>(d: Device<M>, s: Sim<M>, n: nat): (r: Sim<M>)
    requires n <= BUTTONS && (CanApply(s) || !RunsOut(s.buttons))
    ensures r.tick == s.tick && (r.recording.None? <==> s.recording.None?) && r.triggers == s.triggers
    ensures forall i: nat :: n <= i < BUTTONS ==> r.buttons.At(i) == s.buttons.At(i)
  {
    if n == 0 then s else ExpireButton(d, ExpireButtons(d, s, n - 1), n - 1)
  }

  function ExpireTriggers<M>(d: Device<M>, s: Sim<M>, n: nat): (r: Sim<M>)
    requires n <= TRIGGER_CHANNELS && (CanApply(s) || !RunsOut(s.triggers))
    ensures r.tick == s.tick && (r.recording.None? <==> s.recording.None?) && r.buttons == s.buttons
    ensures forall i: nat :: n <= i < TRIGGER_CHANNELS ==> r.triggers.At(i) == s.triggers.At(i)
  {
    if n == 0 then s else ExpireTrigger(d, ExpireTriggers(d, s, n - 1), n - 1)
  }

  predicate CanExpire<M>(s: Sim<M>) { CanApply(s) || !(RunsOut(s.buttons) || RunsOut(s.triggers)) }

  function Expired<M>(d: Device<M>, s: Sim<M>): (r: Sim<M>)
    requires CanExpire(s)
    ensures r.tick == s.tick && (r.recording.None? <==> s.recording.None?)
  {
    ExpireTriggers(d, ExpireButtons(d, s, BUTTONS), TRIGGER_CHANNELS)
  }

  // ----- Ticks -----

  /** A tick without the expiry of holds that follows it. */
  function Ticked<M>(d: Device<M>, s: Sim<M>): (r: Sim<M>)
    ensures r.tick == WrappingAdd64(s.tick, 1) && r.recording == s.recording
    ensures r.buttons == s.buttons && r.triggers == s.triggers
  {
    var (m, report) := d.tick(s.m);
    s.(m := m, tick := WrappingAdd64(s.tick, 1), last := Some(report))
  }

  /** A step panics only by recording the release of a hold on the very last tick. */
  predicate CanStep<M>(s: Sim<M>)
  {
    CanExpire(s.(tick := WrappingAdd64(s.tick, 1)))
  }

  function Stepped<M>(d: Device<M>, s: Sim<M>): (r: Sim<M>)
    requires CanStep(s)
    ensures r.tick == WrappingAdd64(s.tick, 1) && (r.recording.None? <==> s.recording.None?)
  {
    Expired(d, Ticked(d, s))
  }

  /** What `stop_recording` returns. */
  function Stopped<M>(s: Sim<M>): Log
    requires s.recording.Some?
  {
    s.recording.value.(ticks := Max(s.recording.value.ticks, s.tick))
  }

  function ApplyAll<M>(d: Device<M>, s: Sim<M>, events: seq<Event>): (r: Sim<M>)
    requires events == [] || CanApply(s)
    ensures r.tick == s.tick && (r.recording.None? <==> s.recording.None?)
  {
    if events == [] then s else Apply(d, ApplyAll(d, s, events[..|events| - 1]), events[|events| - 1])
  }

  /** One tick of a replay: the tick's events, then the tick. */
  predicate CanPlay<M>(d: Device<M>, s: Sim<M>, events: seq<Event>)
  {
    (events == [] || CanApply(s)) && CanStep(ApplyAll(d, s, events))
  }

  function Played<M>(d: Device<M>, s: Sim<M>, events: seq<Event>): (r: Sim<M>)
    requires CanPlay(d, s, events)
    ensures r.tick == WrappingAdd64(s.tick, 1) && (r.recording.None? <==> s.recording.None?)
  {
    Stepped(d, ApplyAll(d, s, events))
  }

  /** Replaying the events of a scenario for `n` ticks does not panic. */
  predicate CanReplay<M>(d: Device<M>, s: Sim<M>, events: seq<Stamped>, n: nat)
    requires n <= U64_MAX
    decreases n, 0
  {
    n == 0 || CanPlayTick(d, s, events, n - 1)
  }

  function Replayed<M>(d: Device<M>, s: Sim<M>, events: seq<Stamped>, n: nat): (r: Sim<M>)
    requires n <= U64_MAX && CanReplay(d, s, events, n)
    ensures r.recording.None? <==> s.recording.None?
    decreases n, 1
  {
    if n == 0 then s else TickPlayed(d, s, events, n - 1)
  }

  /** Nor does tick number `k` of the replay, counting from zero, or any before it. */
  predicate CanPlayTick<M>(d: Device<M>, s: Sim<M>, events: seq<Stamped>, k: u64)
    decreases k, 2
  {
    CanReplay(d, s, events, k) && CanPlay(d, Replayed(d, s, events, k), At(events, k))
  }

  function TickPlayed<M>(d: Device<M>, s: Sim<M>, events: seq<Stamped>, k: u64): (r: Sim<M>)
    requires CanPlayTick(d, s, events, k)
    ensures r.recording.None? <==> s.recording.None?
    decreases k, 3
  {
    Played(d, Replayed(d, s, events, k), At(events, k))
  }

  // ----- Whole sessions -----

  /** Everything a session can do to a simulator; `Do(Reset)` is the module's reset. */
  datatype Op = Do(event: Event) | Hold(button: Button) | Chord | Pulse(channel: TriggerIndex) | Step

  predicate CanOperate<M>(s: Sim<M>, op: Op) { if op.Step? then CanStep(s) else CanApply(s) }

  function Operate<M>(d: Device<M>, s: Sim<M>, op: Op): (r: Sim<M>)
    requires CanOperate(s, op)
    ensures r.tick == (if op.Step? then WrappingAdd64(s.tick, 1) else s.tick) && (r.recording.None? <==> s.recording.None?)
  {
    match op
    case Do(e) => Apply(d, s, e)
    case Hold(button) => Pressed(d, s, button)
    case Chord => Chorded(d, s)
    case Pulse(channel) => Pulsed(d, s, channel)
    case Step => Stepped(d, s)
  }

  function StepCount(ops: seq<Op>): nat
  {
    if ops == [] then 0 else StepCount(ops[..|ops| - 1]) + if ops[|ops| - 1].Step? then 1 else 0
  }

  /** The session ends without a panic. */
  predicate Completes<M>(d: Device<M>, s: Sim<M>, ops: seq<Op>)
    decreases |ops|, 0
  {
    ops == [] || (Completes(d, s, ops[..|ops| - 1]) && CanOperate(Run(d, s, ops[..|ops| - 1]), ops[|ops| - 1]))
  }

  function Run<M>(d: Device<M>, s: Sim<M>, ops: seq<Op>): (r: Sim<M>)
    requires Completes(d, s, ops)
    ensures r.recording.None? <==> s.recording.None?
    decreases |ops|, 1
  {
    if ops == [] then s else Operate(d, Run(d, s, ops[..|ops| - 1]), ops[|ops| - 1])
  }

  // ----- What the expiry of holds leaves alone -----

  /** `view` reads what neither a button nor a trigger changes by itself. */
  ghost predicate KeptByContacts<M(!new), V>(d: Device<M>, view: M -> V)
  {
    forall m, e: Event :: e.Press? || e.Trigger? ==> view(d.change(m, e)) == view(m)
  }

  lemma {:induction false} ButtonsKeep<M(!new), V>(d: Device<M>, view: M -> V, s: Sim<M>, n: nat)
    requires KeptByContacts(d, view) && n <= BUTTONS && (CanApply(s) || !RunsOut(s.buttons))
    ensures view(ExpireButtons(d, s, n).m) == view(s.m)
  {
    if n > 0 {
      ButtonsKeep(d, view, s, n - 1);
    }
  }

  lemma {:induction false} TriggersKeep<M(!new), V>(d: Device<M>, view: M -> V, s: Sim<M>, n: nat)
    requires KeptByContacts(d, view) && n <= TRIGGER_CHANNELS && (CanApply(s) || !RunsOut(s.triggers))
    ensures view(ExpireTriggers(d, s, n).m) == view(s.m)
  {
    if n > 0 {
      TriggersKeep(d, view, s, n - 1);
    }
  }

  /** A step changes nothing of the kind that its tick does not. */
  lemma StepShows<M(!new), V>(d: Device<M>, view: M -> V, s: Sim<M>)
    requires KeptByContacts(d, view) && CanStep(s)
    ensures view(Stepped(d, s).m) == view(d.tick(s.m).0)
  {
    var t := Ticked(d, s);
    ButtonsKeep(d, view, t, BUTTONS);
    TriggersKeep(d, view, ExpireButtons(d, t, BUTTONS), TRIGGER_CHANNELS);
  }

  // ----- The tick counter -----

  /** The counter has advanced by `n` from `start`, wrapping around. */
  predicate Reached(tick: u64, start: u64, n: nat) { tick == (start + n) % 0x1_0000_0000_0000_0000 }

  lemma ReachedAtFirst(tick: u64)
    ensures Reached(tick, tick, 0)
  {
  }

  lemma ReachedNext(tick: u64, start: u64, n: nat)
    requires Reached(tick, start, n)
    ensures Reached(WrappingAdd64(tick, 1), start, n + 1)
  {
  }

  lemma {:induction false} CanReplayLess<M>(d: Device<M>, s: Sim<M>, events: seq<Stamped>, n: nat, i: nat)
    requires i <= n <= U64_MAX && CanReplay(d, s, events, n)
    ensures CanReplay(d, s, events, i)
  {
    if i < n {
      CanReplayLess(d, s, events, n - 1, i);
    }
  }

  /** A replay of `n` ticks has got through `i` of them, to `t`. */
  ghost predicate Replaying<M>(d: Device<M>, s: Sim<M>, events: seq<Stamped>, n: nat, i: nat, t: Sim<M>)
  {
    i <= n <= U64_MAX && CanReplay(d, s, events, n) && CanReplay(d, s, events, i) && t == Replayed(d, s, events, i)
  }

  lemma NextTickPlays<M>(d: Device<M>, s: Sim<M>, events: seq<Stamped>, i: nat)
    requires i < U64_MAX && CanReplay(d, s, events, i + 1)
    ensures CanReplay(d, s, events, i) && CanPlay(d, Replayed(d, s, events, i), At(events, i))
    ensures Replayed(d, s, events, i + 1) == Played(d, Replayed(d, s, events, i), At(events, i))
  {
  }

  lemma ReplayGoesOn<M>(d: Device<M>, s: Sim<M>, events: seq<Stamped>, n: nat, i: nat, t: Sim<M>)
    requires i < n && Replaying(d, s, events, n, i, t)
    ensures CanPlay(d, t, At(events, i)) && Replaying(d, s, events, n, i + 1, Played(d, t, At(events, i)))
  {
    CanReplayLess(d, s, events, n, i + 1);
    NextTickPlays(d, s, events, i);
  }

  lemma {:induction false} ReplayCounts<M>(d: Device<M>, s: Sim<M>, events: seq<Stamped>, n: nat)
    requires n <= U64_MAX && CanReplay(d, s, events, n)
    ensures Reached(Replayed(d, s, events, n).tick, s.tick, n)
  {
    if n == 0 {
      ReachedAtFirst(s.tick);
    } else {
      ReplayCounts(d, s, events, n - 1);
      var before := Replayed(d, s, events, n - 1);
      ReachedNext(before.tick, s.tick, n - 1);
      assert Replayed(d, s, events, n).tick == WrappingAdd64(before.tick, 1);
    }
  }

  lemma {:induction false} RunCounts<M>(d: Device<M>, s: Sim<M>, ops: seq<Op>)
    requires Completes(d, s, ops)
    ensures Reached(Run(d, s, ops).tick, s.tick, StepCount(ops))
  {
    if ops == [] {
      ReachedAtFirst(s.tick);
    } else {
      var front := ops[..|ops| - 1];
      RunCounts(d, s, front);
      ReachedNext(Run(d, s, front).tick, s.tick, StepCount(front));
    }
  }

  lemma NotWrapped(tick: u64, start: u64, n: nat)
    requires Reached(tick, start, n) && start + n <= U64_MAX
    ensures tick == start + n
  {
  }

  lemma EarlyOperates<M>(s: Sim<M>, op: Op)
    requires s.recording.Some? ==> s.tick < U64_MAX && (op.Step? ==> s.tick + 1 < U64_MAX)
    ensures CanOperate(s, op)
  {
  }

  /** Nothing panics without a recording, nor with one that stays short of the last tick. */
  lemma {:induction false} ShortSessionsComplete<M>(d: Device<M>, s: Sim<M>, ops: seq<Op>)
    requires s.recording.Some? ==> s.tick + StepCount(ops) < U64_MAX
    ensures Completes(d, s, ops)
  {
    if ops != [] {
      var front := ops[..|ops| - 1];
      ShortSessionsComplete(d, s, front);
      RunCounts(d, s, front);
      if s.recording.Some? {
        NotWrapped(Run(d, s, front).tick, s.tick, StepCount(front));
      }
      EarlyOperates(Run(d, s, front), ops[|ops| - 1]);
    }
  }
}
