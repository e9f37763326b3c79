/** Replaying a recording reproduces the run it was recorded from
    (crates/oc-sim/src/simulator.rs). */
module Replay {
  import opened Ints
  import opened Platform
  import opened Scenario
  import opened Testing
  import opened Simulation
  import Ticks
  import EngineRuns
  import ScenarioText

  // ----- Any session, as a sequence of acts on the module -----

  datatype Act = Change(event: Event) | Tick

  function Front(acts: seq<Act>): seq<Act>
    requires acts != []
  {
    acts[..|acts| - 1]
  }

  function Last(acts: seq<Act>): Act
    requires acts != []
  {
    acts[|acts| - 1]
  }

  function Do<M>(d: Device<M>, m: M, act: Act): M
  {
    match act case Change(e) => d.change(m, e) case Tick => d.tick(m).0
  }

  function Play<M>(d: Device<M>, m: M, acts: seq<Act>): M
  {
    if acts == [] then m else Do(d, Play(d, m, Front(acts)), Last(acts))
  }

  function TickCount(acts: seq<Act>): nat
  {
    if acts == [] then 0 else TickCount(Front(acts)) + if Last(acts).Tick? then 1 else 0
  }

  /** No change comes too late to be recorded. */
  predicate Recordable(acts: seq<Act>)
  {
    acts == [] || (Recordable(Front(acts)) && (Last(acts).Change? ==> TickCount(Front(acts)) < U64_MAX))
  }

  /** The changes among some acts, each with the number of ticks before it. */
  function Stamps(acts: seq<Act>): (stamps: seq<Stamped>)
    requires Recordable(acts)
    ensures forall i :: 0 <= i < |stamps| ==> stamps[i].0 < U64_MAX && stamps[i].0 <= TickCount(acts)
  {
    if acts == [] then []
    else Stamps(Front(acts)) + match Last(acts) case Change(e) => [(TickCount(Front(acts)), e)] case Tick => []
  }

  lemma OneMoreAct(acts: seq<Act>, act: Act)
    requires Recordable(acts) && (act.Change? ==> TickCount(acts) < U64_MAX)
    ensures var more := acts + [act];
            && Recordable(more)
            && TickCount(more) == TickCount(acts) + (if act.Tick? then 1 else 0)
            && Stamps(more) == Stamps(acts) + match act case Change(e) => [(TickCount(acts), e)] case Tick => []
  {
    assert Front(acts + [act]) == acts;
  }

  lemma PlaysOn<M>(d: Device<M>, m: M, acts: seq<Act>, act: Act)
    ensures Play(d, m, acts + [act]) == Do(d, Play(d, m, acts), act)
  {
    assert Front(acts + [act]) == acts;
  }

  /** The session so far consisted of those acts, and recorded exactly their changes. */
  ghost predicate Recorded<M>(s: Sim<M>, acts: seq<Act>)
  {
    && Recordable(acts) && TickCount(acts) == s.tick
    && s.recording == Some(PushAll(Log([], 0), Stamps(acts)))
  }

  /** Every change among the acts addresses something the module has. */
  predicate Addressed(acts: seq<Act>)
  {
    acts == [] || (Addressed(Front(acts)) && ActInRange(Last(acts)))
  }

  predicate ActInRange(act: Act) { act.Change? ==> ScenarioText.InRange(act.event) }

  lemma AddressedOnceMore(acts: seq<Act>, act: Act)
    ensures Addressed(acts + [act]) <==> Addressed(acts) && ActInRange(act)
  {
    assert Front(acts + [act]) == acts;
  }

  /** And took the module from `start` to where it is. */
  ghost predicate Traces<M>(d: Device<M>, start: M, s: Sim<M>, acts: seq<Act>)
  {
    Recorded(s, acts) && s.m == Play(d, start, acts)
  }

  lemma PushedOnceMore(log: Log, stamps: seq<Stamped>, tick: u64, e: Event)
    requires tick < U64_MAX && forall i :: 0 <= i < |stamps| ==> stamps[i].0 < U64_MAX
    ensures PushAll(log, stamps + [(tick, e)]) == Pushed(PushAll(log, stamps), tick, e)
  {
    assert (stamps + [(tick, e)])[..|stamps|] == stamps;
  }

  lemma ApplyTraces<M>(d: Device<M>, start: M, s: Sim<M>, acts: seq<Act>, e: Event)
    requires Traces(d, start, s, acts) && CanApply(s)
    ensures Traces(d, start, Apply(d, s, e), acts + [Change(e)])
  {
    OneMoreAct(acts, Change(e));
    PlaysOn(d, start, acts, Change(e));
    PushedOnceMore(Log([], 0), Stamps(acts), s.tick, e);
  }

  lemma TickRecords<M>(d: Device<M>, s: Sim<M>, acts: seq<Act>)
    requires Recorded(s, acts) && s.tick < U64_MAX
    ensures Recorded(Ticked(d, s), acts + [Tick])
  {
    OneMoreAct(acts, Tick);
    assert Stamps(acts + [Tick]) == Stamps(acts);
    assert Ticked(d, s).tick == s.tick + 1;
  }

  lemma TickTraces<M>(d: Device<M>, start: M, s: Sim<M>, acts: seq<Act>)
    requires Traces(d, start, s, acts) && s.tick < U64_MAX
    ensures Traces(d, start, Ticked(d, s), acts + [Tick])
  {
    TickRecords(d, s, acts);
    PlaysOn(d, start, acts, Tick);
  }

  lemma {:induction false} ButtonExpiryTraces<M>(d: Device<M>, start: M, s: Sim<M>, acts: seq<Act>, n: nat) returns (more: seq<Act>)
    requires Traces(d, start, s, acts) && n <= BUTTONS && (CanApply(s) || !RunsOut(s.buttons))
    ensures Traces(d, start, ExpireButtons(d, s, n), more) && (Addressed(more) <==> Addressed(acts))
  {
    more := acts;
    if n > 0 {
      more := ButtonExpiryTraces(d, start, s, acts, n - 1);
      var t := ExpireButtons(d, s, n - 1);
      if t.buttons.At(n - 1) == 1 {
        ApplyTraces(d, start, t.(buttons := With(t.buttons, n - 1, 0)), more, Press(ButtonOf(n - 1), false));
        AddressedOnceMore(more, Change(Press(ButtonOf(n - 1), false)));
        more := more + [Change(Press(ButtonOf(n - 1), false))];
      }
    }
  }

  lemma {:induction false} TriggerExpiryTraces<M>(d: Device<M>, start: M, s: Sim<M>, acts: seq<Act>, n: nat) returns (more: seq<Act>)
    requires Traces(d, start, s, acts) && n <= TRIGGER_CHANNELS && (CanApply(s) || !RunsOut(s.triggers))
    ensures Traces(d, start, ExpireTriggers(d, s, n), more) && (Addressed(more) <==> Addressed(acts))
  {
    more := acts;
    if n > 0 {
      more := TriggerExpiryTraces(d, start, s, acts, n - 1);
      var t := ExpireTriggers(d, s, n - 1);
      if t.triggers.At(n - 1) == 1 {
        ApplyTraces(d, start, t.(triggers := With(t.triggers, n - 1, 0)), more, Trigger(n - 1, false));
        AddressedOnceMore(more, Change(Trigger(n - 1, false)));
        more := more + [Change(Trigger(n - 1, false))];
      }
    }
  }

  lemma StepTraces<M>(d: Device<M>, start: M, s: Sim<M>, acts: seq<Act>) returns (more: seq<Act>)
    requires Traces(d, start, s, acts) && s.tick < U64_MAX && CanStep(s)
    ensures Traces(d, start, Stepped(d, s), more) && (Addressed(more) <==> Addressed(acts))
  {
    TickTraces(d, start, s, acts);
    AddressedOnceMore(acts, Tick);
    var t := Ticked(d, s);
    more := ButtonExpiryTraces(d, start, t, acts + [Tick], BUTTONS);
    more := TriggerExpiryTraces(d, start, ExpireButtons(d, t, BUTTONS), more, TRIGGER_CHANNELS);
  }

  lemma ChangeTraces<M>(d: Device<M>, start: M, s: Sim<M>, acts: seq<Act>, e: Event) returns (more: seq<Act>)
    requires Traces(d, start, s, acts) && CanApply(s)
    ensures Traces(d, start, Apply(d, s, e), more)
    ensures Addressed(more) <==> Addressed(acts) && ScenarioText.InRange(e)
  {
    ApplyTraces(d, start, s, acts, e);
    AddressedOnceMore(acts, Change(e));
    more := acts + [Change(e)];
  }

  lemma PressTraces<M>(d: Device<M>, start: M, s: Sim<M>, acts: seq<Act>, button: Button) returns (more: seq<Act>)
    requires Traces(d, start, s, acts) && CanApply(s)
    ensures Traces(d, start, Pressed(d, s, button), more) && (Addressed(more) <==> Addressed(acts))
  {
    more := ChangeTraces(d, start, s, acts, Press(button, true));
  }

  lemma ChordTraces<M>(d: Device<M>, start: M, s: Sim<M>, acts: seq<Act>) returns (more: seq<Act>)
    requires Traces(d, start, s, acts) && CanApply(s)
    ensures Traces(d, start, Chorded(d, s), more) && (Addressed(more) <==> Addressed(acts))
  {
    more := PressTraces(d, start, s, acts, Up);
    more := PressTraces(d, start, Pressed(d, s, Up), more, Down);
  }

  lemma PulseTraces<M>(d: Device<M>, start: M, s: Sim<M>, acts: seq<Act>, channel: TriggerIndex) returns (more: seq<Act>)
    requires Traces(d, start, s, acts) && CanApply(s)
    ensures Traces(d, start, Pulsed(d, s, channel), more) && (Addressed(more) <==> Addressed(acts))
  {
    more := ChangeTraces(d, start, s, acts, Trigger(channel, true));
  }

  predicate OpInRange(op: Op) { op.Do? ==> ScenarioText.InRange(op.event) }

  predicate SessionInRange(ops: seq<Op>)
  {
    ops == [] || (SessionInRange(ops[..|ops| - 1]) && OpInRange(ops[|ops| - 1]))
  }

  lemma InputTraces<M>(d: Device<M>, start: M, s: Sim<M>, acts: seq<Act>, op: Op) returns (more: seq<Act>)
    requires Traces(d, start, s, acts) && CanOperate(s, op) && !op.Step?
    ensures Traces(d, start, Operate(d, s, op), more)
    ensures Addressed(more) <==> Addressed(acts) && OpInRange(op)
  {
    match op
    case Do(e) => more := ChangeTraces(d, start, s, acts, e);
    case Hold(button) => more := PressTraces(d, start, s, acts, button);
    case Chord => more := ChordTraces(d, start, s, acts);
    case Pulse(channel) => more := PulseTraces(d, start, s, acts, channel);
  }

  lemma OpTraces<M>(d: Device<M>, start: M, s: Sim<M>, acts: seq<Act>, op: Op) returns (more: seq<Act>)
    requires Traces(d, start, s, acts) && CanOperate(s, op) && (op.Step? ==> s.tick < U64_MAX)
    ensures Traces(d, start, Operate(d, s, op), more)
    ensures Addressed(more) <==> Addressed(acts) && OpInRange(op)
  {
    if op.Step? {
      more := StepTraces(d, start, s, acts);
    } else {
      more := InputTraces(d, start, s, acts, op);
    }
  }

  /** A session recorded from its first tick, that panics nowhere and whose ticks the counter
      can number. */
  ghost predicate IsSession<M>(d: Device<M>, start: Sim<M>, ops: seq<Op>)
  {
    && start.tick == 0 && start.recording == Some(Log([], 0))
    && Completes(d, start, ops) && StepCount(ops) <= U64_MAX
  }

  lemma SessionFront<M>(d: Device<M>, start: Sim<M>, ops: seq<Op>)
    requires IsSession(d, start, ops) && ops != []
    ensures var front, last := ops[..|ops| - 1], ops[|ops| - 1];
            && IsSession(d, start, front)
            && CanOperate(Run(d, start, front), last) && (last.Step? ==> Run(d, start, front).tick < U64_MAX)
            && Run(d, start, ops) == Operate(d, Run(d, start, front), last)
  {
    RunCounts(d, start, ops[..|ops| - 1]);
  }

  lemma SessionTicks<M>(d: Device<M>, start: Sim<M>, ops: seq<Op>)
    requires IsSession(d, start, ops)
    ensures Run(d, start, ops).tick == StepCount(ops)
  {
    RunCounts(d, start, ops);
  }

  lemma {:induction false} SessionTraces<M>(d: Device<M>, start: Sim<M>, ops: seq<Op>) returns (acts: seq<Act>)
    requires IsSession(d, start, ops)
    ensures Traces(d, start.m, Run(d, start, ops), acts) && (Addressed(acts) <==> SessionInRange(ops))
  {
    acts := [];
    if ops != [] {
      var front := ops[..|ops| - 1];
      SessionFront(d, start, ops);
      acts := SessionTraces(d, start, front);
      acts := OpTraces(d, start.m, Run(d, start, front), acts, ops[|ops| - 1]);
    }
  }

  // ----- Replaying the changes of any acts -----

  function ChangeAll<M>(d: Device<M>, m: M, events: seq<Event>): M
  {
    if events == [] then m else d.change(ChangeAll(d, m, events[..|events| - 1]), events[|events| - 1])
  }

  function ChangedAndTicked<M>(d: Device<M>, m: M, events: seq<Event>): M { d.tick(ChangeAll(d, m, events)).0 }

  /** The module after `n` ticks of a replay. */
  function ModuleAfter<M>(d: Device<M>, m: M, events: seq<Stamped>, n: nat): M
    requires n <= U64_MAX
  {
    if n == 0 then m else ChangedAndTicked(d, ModuleAfter(d, m, events, n - 1), At(events, n - 1))
  }

  predicate SameAt(a: seq<Stamped>, b: seq<Stamped>, t: u64) { At(a, t) == At(b, t) }

  lemma {:induction false} OnlyEarlierEventsMatter<M>(d: Device<M>, m: M, a: seq<Stamped>, b: seq<Stamped>, n: nat)
    requires n <= U64_MAX && forall t: u64 :: t < n ==> SameAt(a, b, t)
    ensures ModuleAfter(d, m, a, n) == ModuleAfter(d, m, b, n)
  {
    if n > 0 {
      OnlyEarlierEventsMatter(d, m, a, b, n - 1);
      assert SameAt(a, b, n - 1);
    }
  }

  lemma ChangedOnceMore<M>(d: Device<M>, m: M, events: seq<Event>, e: Event)
    ensures ChangeAll(d, m, events + [e]) == d.change(ChangeAll(d, m, events), e)
  {
    assert (events + [e])[..|events|] == events;
  }

  /** A replay of `n` ticks, and then the changes left over for the next one. */
  function ReplayedTo<M>(d: Device<M>, m: M, stamps: seq<Stamped>, n: u64): M
  {
    ChangeAll(d, ModuleAfter(d, m, stamps, n), At(stamps, n))
  }

  lemma LateStampChanges<M>(d: Device<M>, m: M, stamps: seq<Stamped>, n: u64, e: Event)
    ensures ReplayedTo(d, m, stamps + [(n, e)], n) == d.change(ReplayedTo(d, m, stamps, n), e)
  {
    forall t: u64
      ensures At(stamps + [(n, e)], t) == At(stamps, t) + if t == n then [e] else []
    {
      AtConcat(stamps, [(n, e)], t);
      AtOne(n, e, t);
    }
    assert forall t: u64 :: t < n ==> SameAt(stamps, stamps + [(n, e)], t);
    OnlyEarlierEventsMatter(d, m, stamps, stamps + [(n, e)], n);
    ChangedOnceMore(d, ModuleAfter(d, m, stamps, n), At(stamps, n), e);
  }

  lemma NextTickTicks<M>(d: Device<M>, m: M, stamps: seq<Stamped>, n: u64)
    requires n < U64_MAX && forall i :: 0 <= i < |stamps| ==> stamps[i].0 <= n
    ensures ReplayedTo(d, m, stamps, n + 1) == d.tick(ReplayedTo(d, m, stamps, n)).0
  {
    AtNothing(stamps, n + 1);
  }

  /** Replaying the stamped changes of some acts for as many ticks as they had plays them. */
  ghost predicate Replays<M>(d: Device<M>, m: M, acts: seq<Act>)
  {
    && Recordable(acts) && TickCount(acts) <= U64_MAX
    && ReplayedTo(d, m, Stamps(acts), TickCount(acts)) == Play(d, m, acts)
  }

  lemma ChangeReplays<M>(d: Device<M>, m: M, acts: seq<Act>, e: Event)
    requires Replays(d, m, acts) && TickCount(acts) < U64_MAX
    ensures Replays(d, m, acts + [Change(e)])
  {
    OneMoreAct(acts, Change(e));
    PlaysOn(d, m, acts, Change(e));
    LateStampChanges(d, m, Stamps(acts), TickCount(acts), e);
  }

  lemma TickReplays<M>(d: Device<M>, m: M, acts: seq<Act>)
    requires Replays(d, m, acts) && TickCount(acts) < U64_MAX
    ensures Replays(d, m, acts + [Tick])
  {
    OneMoreAct(acts, Tick);
    PlaysOn(d, m, acts, Tick);
    NextTickTicks(d, m, Stamps(acts), TickCount(acts));
    assert Stamps(acts) + [] == Stamps(acts);
  }

  lemma NothingReplays<M>(d: Device<M>, m: M)
    ensures Replays(d, m, [])
  {
    assert At([], 0) == [];
  }

  lemma {:induction false} ReplayPlays<M>(d: Device<M>, m: M, acts: seq<Act>)
    requires Recordable(acts) && TickCount(acts) <= U64_MAX
    ensures Replays(d, m, acts)
  {
    if acts == [] {
      NothingReplays(d, m);
    } else {
      ReplayPlays(d, m, Front(acts));
      assert acts == Front(acts) + [Last(acts)];
      match Last(acts)
      case Change(e) => ChangeReplays(d, m, Front(acts), e);
      case Tick => TickReplays(d, m, Front(acts));
    }
  }

  // ----- The replaying simulator -----

  lemma {:induction false} NoButtonExpires<M>(d: Device<M>, s: Sim<M>, n: nat)
    requires s.buttons == NO_HOLDS && n <= BUTTONS
    ensures ExpireButtons(d, s, n) == s
  {
    if n > 0 {
      NoButtonExpires(d, s, n - 1);
    }
  }

  lemma {:induction false} NoTriggerExpires<M>(d: Device<M>, s: Sim<M>, n: nat)
    requires s.triggers == NO_HOLDS && n <= TRIGGER_CHANNELS
    ensures ExpireTriggers(d, s, n) == s
  {
    if n > 0 {
      NoTriggerExpires(d, s, n - 1);
    }
  }

  /** Nothing held, nothing recorded. */
  predicate Plain<M>(s: Sim<M>)
  {
    s.recording.None? && s.buttons == NO_HOLDS && s.triggers == NO_HOLDS
  }

  lemma {:induction false} ApplyAllIsChangeAll<M>(d: Device<M>, s: Sim<M>, events: seq<Event>)
    requires Plain(s)
    ensures Plain(ApplyAll(d, s, events)) && ApplyAll(d, s, events).m == ChangeAll(d, s.m, events)
  {
    if events != [] {
      ApplyAllIsChangeAll(d, s, events[..|events| - 1]);
    }
  }

  lemma StepIsTock<M>(d: Device<M>, s: Sim<M>)
    requires Plain(s)
    ensures Plain(Stepped(d, s)) && Stepped(d, s).m == d.tick(s.m).0
  {
    NoButtonExpires(d, Ticked(d, s), BUTTONS);
    NoTriggerExpires(d, Ticked(d, s), TRIGGER_CHANNELS);
  }

  /** One tick of a replay, whatever it changes first. */
  lemma ChangesThenTick<M>(d: Device<M>, s: Sim<M>, events: seq<Event>)
    requires Plain(s)
    ensures CanPlay(d, s, events) && Plain(Played(d, s, events))
    ensures Played(d, s, events).m == ChangedAndTicked(d, s.m, events)
  {
    ApplyAllIsChangeAll(d, s, events);
    StepIsTock(d, ApplyAll(d, s, events));
  }

  lemma {:induction false} ReplayedIsModuleAfter<M>(d: Device<M>, s: Sim<M>, events: seq<Stamped>, n: nat)
    requires Plain(s) && n <= U64_MAX
    ensures CanReplay(d, s, events, n)
    ensures Plain(Replayed(d, s, events, n)) && Replayed(d, s, events, n).m == ModuleAfter(d, s.m, events, n)
  {
    if n > 0 {
      ReplayedIsModuleAfter(d, s, events, n - 1);
      ChangesThenTick(d, Replayed(d, s, events, n - 1), At(events, n - 1));
    }
  }

  // ----- The length of a recording -----

  lemma OneMoreAt(front: seq<Stamped>, last: Stamped, n: u64)
    ensures At(front + [last], n) == [] <==> At(front, n) == [] && last.0 != n
  {
    AtConcat(front, [last], n);
    AtOne(last.0, last.1, n);
  }

  lemma {:induction false} EndCovers(stamps: seq<Stamped>, n: u64)
    requires forall i :: 0 <= i < |stamps| ==> stamps[i].0 <= n
    ensures EndOf(0, stamps) <= n + 1
    ensures EndOf(0, stamps) == n + 1 <==> At(stamps, n) != []
  {
    if stamps == [] {
      assert At(stamps, n) == [];
    } else {
      var front, last := stamps[..|stamps| - 1], stamps[|stamps| - 1];
      EndCovers(front, n);
      OneMoreAt(front, last, n);
      assert stamps == front + [last];
    }
  }

  // ----- Record against replay -----

  /** What a session's recording holds: its changes at each tick in order, and a length that
      reaches past its ticks only when something was left over after the last one. */
  lemma RecordingHolds<M>(s: Sim<M>, acts: seq<Act>)
    requires Recorded(s, acts)
    ensures var log := Stopped(s);
            && (forall t: u64 :: SameAt(Stamps(acts), log.events, t))
            && log.ticks == if At(log.events, s.tick) == [] then s.tick else s.tick + 1
  {
    PushesSortStably(0, Stamps(acts));
    EndCovers(Stamps(acts), s.tick);
  }

  lemma RecordingPlays<M>(d: Device<M>, start: M, s: Sim<M>, acts: seq<Act>)
    requires Traces(d, start, s, acts)
    ensures ReplayedTo(d, start, Stopped(s).events, s.tick) == s.m
  {
    RecordingHolds(s, acts);
    assert SameAt(Stamps(acts), Stopped(s).events, s.tick);
    OnlyEarlierEventsMatter(d, start, Stamps(acts), Stopped(s).events, s.tick);
    ReplayPlays(d, start, acts);
  }

  /** A simulator whose module is at `end` once it has played some events. */
  ghost predicate ArrivesAt<M>(d: Device<M>, s: Sim<M>, events: seq<Event>, end: M)
  {
    CanPlay(d, s, events) && ApplyAll(d, s, events).m == end
  }

  /** What replaying a recording made of `n` ticks comes to, when the session ended at `end`. */
  ghost predicate Reproduces<M>(d: Device<M>, s: Sim<M>, log: Log, n: u64, end: M)
  {
    var late := At(log.events, n);
    && CanReplay(d, s, log.events, n) && CanReplay(d, s, log.events, log.ticks)
    && ArrivesAt(d, Replayed(d, s, log.events, n), late, end)
    && log.ticks == (if late == [] then n else n + 1)
    && Replayed(d, s, log.events, log.ticks).m == if late == [] then end else d.tick(end).0
  }

  /** Playing on from where a replay got to. */
  lemma LateChanges<M>(d: Device<M>, s: Sim<M>, events: seq<Event>, end: M)
    requires Plain(s) && ChangeAll(d, s.m, events) == end
    ensures ArrivesAt(d, s, events, end)
    ensures Played(d, s, events).m == d.tick(end).0
    ensures events == [] ==> s.m == end
  {
    ApplyAllIsChangeAll(d, s, events);
    ChangesThenTick(d, s, events);
  }

  lemma ReplayReproduces<M>(d: Device<M>, s: Sim<M>, log: Log, n: u64, end: M)
    requires Plain(s) && log.ticks == (if At(log.events, n) == [] then n else n + 1)
    requires ReplayedTo(d, s.m, log.events, n) == end
    ensures Reproduces(d, s, log, n, end)
  {
    ReplayedIsModuleAfter(d, s, log.events, n);
    var t, late := Replayed(d, s, log.events, n), At(log.events, n);
    LateChanges(d, t, late, end);
    if late != [] {
      OneMorePlayed(d, s, log.events, n);
    }
  }

  lemma OneMorePlayed<M>(d: Device<M>, s: Sim<M>, events: seq<Stamped>, n: nat)
    requires n < U64_MAX && CanReplay(d, s, events, n) && CanPlay(d, Replayed(d, s, events, n), At(events, n))
    ensures CanReplay(d, s, events, n + 1)
    ensures Replayed(d, s, events, n + 1) == Played(d, Replayed(d, s, events, n), At(events, n))
  {
  }

  /** Recording a session from a simulator that is just starting to record at tick zero, and
      replaying the recording on any simulator of the same module that holds and records
      nothing.  After as many ticks as the session ran, and the events it stamped with that
      number, the replayed module is exactly the session's.  The replay ends there when no
      event was applied after the session's last tick, and otherwise runs exactly one tick
      more. */
  lemma RecordThenReplay<M>(d: Device<M>, start: Sim<M>, ops: seq<Op>, other: Sim<M>)
    requires IsSession(d, start, ops) && Plain(other) && other.m == start.m
    ensures Reproduces(d, other, Stopped(Run(d, start, ops)), StepCount(ops), Run(d, start, ops).m)
  {
    var end := Run(d, start, ops);
    var acts := SessionTraces(d, start, ops);
    SessionTicks(d, start, ops);
    RecordingHolds(end, acts);
    RecordingPlays(d, start.m, end, acts);
    ReplayReproduces(d, other, Stopped(end), end.tick, end.m);
  }

  /** The recording lists the session's changes in the order they were applied, and survives
      its text form exactly when every event applied addressed something the module has. */
  lemma RecordingKeepsOrder<M>(d: Device<M>, start: Sim<M>, ops: seq<Op>) returns (acts: seq<Act>)
    requires IsSession(d, start, ops)
    ensures Traces(d, start.m, Run(d, start, ops), acts)
    ensures Stopped(Run(d, start, ops)).events == Stamps(acts)
    ensures ScenarioText.WellFormed(Stopped(Run(d, start, ops))) <==> SessionInRange(ops)
  {
    acts := SessionTraces(d, start, ops);
    var log, stamps := Stopped(Run(d, start, ops)), Stamps(acts);
    PushesSortStably(0, stamps);
    StampsAreSorted(acts);
    SortedListIsDetermined(log.events, stamps);
    StampsAddressed(acts);
    EndPassesAll(0, stamps);
  }

  lemma {:induction false} StampsAreSorted(acts: seq<Act>)
    requires Recordable(acts) && TickCount(acts) <= U64_MAX
    ensures Sorted(Stamps(acts))
  {
    if acts != [] {
      StampsAreSorted(Front(acts));
    }
  }

  lemma {:induction false} StampsAddressed(acts: seq<Act>)
    requires Recordable(acts) && TickCount(acts) <= U64_MAX
    ensures ScenarioText.Addressable(Stamps(acts)) <==> Addressed(acts)
  {
    if acts != [] {
      StampsAddressed(Front(acts));
      match Last(acts)
      case Change(e) => OneMoreAddressable(Stamps(Front(acts)), (TickCount(Front(acts)), e));
      case Tick => assert Stamps(acts) == Stamps(Front(acts));
    }
  }

  lemma OneMoreAddressable(stamps: seq<Stamped>, last: Stamped)
    ensures ScenarioText.Addressable(stamps + [last]) <==> ScenarioText.Addressable(stamps) && ScenarioText.InRange(last.1)
  {
    var more := stamps + [last];
    assert more[|stamps|] == last && forall i :: 0 <= i < |stamps| ==> more[i] == stamps[i];
  }

  lemma {:induction false} EndPassesAll(start: u64, stamps: seq<Stamped>)
    ensures forall i :: 0 <= i < |stamps| ==> stamps[i].0 < EndOf(start, stamps)
  {
    if stamps != [] {
      EndPassesAll(start, stamps[..|stamps| - 1]);
    }
  }

  /** A session that only addresses what the module has can be saved as text, loaded and
      replayed: what is loaded is the recording, so its replay is the one above. */
  lemma SavedSessionReplays<M>(d: Device<M>, start: Sim<M>, ops: seq<Op>, other: Sim<M>)
    requires IsSession(d, start, ops) && Plain(other) && other.m == start.m && SessionInRange(ops)
    ensures var log := Stopped(Run(d, start, ops));
            && (forall i :: 0 <= i < |log.events| ==> ScenarioText.Printable(log.events[i].1))
            && var loaded := ScenarioText.Parse(ScenarioText.Print(log));
            && loaded.Read? && Reproduces(d, other, loaded.log, StepCount(ops), Run(d, start, ops).m)
  {
    var acts := RecordingKeepsOrder(d, start, ops);
    RecordThenReplay(d, start, ops, other);
    var log := Stopped(Run(d, start, ops));
    assert forall i :: 0 <= i < |log.events| ==> ScenarioText.InRange(log.events[i].1);
    ScenarioText.RoundTrip(log);
  }

  /** A freshly started simulator that records from the start. */
  function Recording(): Sim<Module> { SimInitial().(recording := Some(Log([], 0))) }

  /** In particular for the module itself, against another freshly started simulator. */
  lemma FreshSessionReplays(ops: seq<Op>)
    requires Completes(MODULE, Recording(), ops) && StepCount(ops) <= U64_MAX
    ensures var end := Run(MODULE, Recording(), ops);
            Reproduces(MODULE, SimInitial(), Stopped(end), StepCount(ops), end.m)
  {
    RecordThenReplay(MODULE, Recording(), ops, SimInitial());
  }

  // ----- Sessions the counter cannot number -----

  /** The module after so many ticks and nothing else. */
  function TickOn<M>(d: Device<M>, m: M, n: nat): M
  {
    if n == 0 then m else d.tick(TickOn(d, m, n - 1)).0
  }

  ghost predicate OnlySteps(ops: seq<Op>) { forall i :: 0 <= i < |ops| ==> ops[i] == Step }

  /** A session of nothing but steps records nothing. */
  lemma {:induction false} IdleSession<M>(d: Device<M>, start: Sim<M>, ops: seq<Op>)
    requires OnlySteps(ops) && start.buttons == NO_HOLDS && start.triggers == NO_HOLDS
    ensures Completes(d, start, ops) && StepCount(ops) == |ops|
    ensures var end := Run(d, start, ops);
            && end.m == TickOn(d, start.m, |ops|) && end.recording == start.recording
            && end.buttons == NO_HOLDS && end.triggers == NO_HOLDS
  {
    if ops != [] {
      var front := ops[..|ops| - 1];
      IdleSession(d, start, front);
      var t := Ticked(d, Run(d, start, front));
      assert ops[|ops| - 1] == Step;
      NoButtonExpires(d, t, BUTTONS);
      NoTriggerExpires(d, t, TRIGGER_CHANNELS);
    }
  }

  lemma {:induction false} FlushesShow(m: Module, n: nat)
    requires n > 0
    ensures TickOn(MODULE, m, n).bench.flushes > 0
  {
    EngineRuns.TickDrives(TickOn(MODULE, m, n - 1).(bench := Advanced(TickOn(MODULE, m, n - 1).bench, TICK_MICROS)));
  }

  /** The bound above is not an idle one: at 2^64 ticks the counter is back at zero, so a
      session of that many steps is recorded as one of none, and its replay leaves a fresh
      module where it was, which is not where the session ended. */
  lemma WrappedSessionIsLost(ops: seq<Op>)
    requires OnlySteps(ops) && |ops| == 0x1_0000_0000_0000_0000
    ensures Completes(MODULE, Recording(), ops)
    ensures var end := Run(MODULE, Recording(), ops);
            && Stopped(end) == Log([], 0)
            && Replayed(MODULE, SimInitial(), [], 0).m != end.m
  {
    IdleSession(MODULE, Recording(), ops);
    RunCounts(MODULE, Recording(), ops);
    FlushesShow(Recording().m, |ops|);
  }

  /** A module that only counts its ticks. */
  const TALLY: Device<nat> := Device((m, e) => m, m => (m + 1, Ticks.TickReport(0, 0, 0, 0, Four(0, 0, 0, 0), false)))

  lemma {:induction false} TallyOfSession(s: Sim<nat>, ops: seq<Op>)
    requires Completes(TALLY, s, ops)
    ensures Run(TALLY, s, ops).m == s.m + StepCount(ops)
  {
    if ops != [] {
      var front := ops[..|ops| - 1];
      TallyOfSession(s, front);
      if ops[|ops| - 1].Step? {
        StepShows(TALLY, m => m, Run(TALLY, s, front));
      }
    }
  }

  lemma {:induction false} TallyUnchanged(s: Sim<nat>, events: seq<Event>)
    requires events == [] || CanApply(s)
    ensures ApplyAll(TALLY, s, events).m == s.m
  {
    if events != [] {
      TallyUnchanged(s, events[..|events| - 1]);
    }
  }

  lemma {:induction false} TallyOfReplay(s: Sim<nat>, events: seq<Stamped>, n: nat)
    requires n <= U64_MAX && CanReplay(TALLY, s, events, n)
    ensures Replayed(TALLY, s, events, n).m == s.m + n
  {
    if n > 0 {
      TallyOfReplay(s, events, n - 1);
      var before, now := Replayed(TALLY, s, events, n - 1), At(events, n - 1);
      TallyUnchanged(before, now);
      StepShows(TALLY, m => m, ApplyAll(TALLY, before, now));
    }
  }

  /** Somewhere in the replay of a recording the module is at `end`. */
  ghost predicate Recovers<M>(d: Device<M>, s: Sim<M>, log: Log, end: M)
  {
    exists n: u64 :: n <= log.ticks && RecoversAt(d, s, log, n, end)
  }

  ghost predicate RecoversAt<M>(d: Device<M>, s: Sim<M>, log: Log, n: u64, end: M)
  {
    CanReplay(d, s, log.events, n) && ArrivesAt(d, Replayed(d, s, log.events, n), At(log.events, n), end)
  }

  /** Nor is it one that some sessions escape: for a module that counts its ticks, the replay of
      a session's recording comes by where the session ended exactly when the counter can number
      the session's ticks. */
  lemma RecoveredIffNumbered(start: Sim<nat>, ops: seq<Op>, other: Sim<nat>)
    requires start.tick == 0 && start.recording == Some(Log([], 0)) && Completes(TALLY, start, ops)
    requires Plain(other) && other.m == start.m
    ensures Recovers(TALLY, other, Stopped(Run(TALLY, start, ops)), Run(TALLY, start, ops).m) <==> StepCount(ops) <= U64_MAX
  {
    var end := Run(TALLY, start, ops);
    var log := Stopped(end);
    if StepCount(ops) <= U64_MAX {
      RecordThenReplay(TALLY, start, ops, other);
      assert RecoversAt(TALLY, other, log, StepCount(ops), end.m);
    } else {
      TallyOfSession(start, ops);
      forall n: u64 | n <= log.ticks && CanReplay(TALLY, other, log.events, n)
        ensures !RecoversAt(TALLY, other, log, n, end.m)
      {
        TallyOfReplay(other, log.events, n);
        var now := At(log.events, n);
        if now == [] || CanApply(Replayed(TALLY, other, log.events, n)) {
          TallyUnchanged(Replayed(TALLY, other, log.events, n), now);
        }
      }
    }
  }
}
