/** What the applets come to over whole runs. */
module AppletRuns {
  import opened Ints
  import opened Platform
  import opened Debounce
  import opened Buttons
  import opened Applets
  import Ticks

  /** The engine never reports more than a second between two ticks. */
  ghost predicate Clamped(inputs: seq<Snapshot>)
  {
    forall i :: 0 <= i < |inputs| ==> inputs[i].elapsed <= Ticks.MAX_REPORTED_DURATION_MICROS
  }

  function ElapsedSum(inputs: seq<Snapshot>): nat
  {
    if inputs == [] then 0 else ElapsedSum(inputs[..|inputs| - 1]) + inputs[|inputs| - 1].elapsed
  }

  // ----- The scope's ring is a sliding window -----

  function LastN(s: seq<u8>, n: nat): seq<u8> { if |s| <= n then s else s[|s| - n..] }

  /** A full ring, read from one of its places around to the same place. */
  function Unrolled(s: seq<u8>, i: nat): seq<u8>
    requires i <= |s|
  {
    s[i..] + s[..i]
  }

  /** What the ring shows, oldest first. */
  function Columns(r: Ring): (c: seq<u8>)
    requires RingReady(r)
    ensures |c| == r.filled
  {
    if r.filled < TRACE_LEN then r.trace[..r.filled] else Unrolled(r.trace, r.write)
  }

  lemma PushFills(r: Ring, row: u8)
    requires RingReady(r) && r.filled < TRACE_LEN
    ensures RingReady(PushRow(r, row)) && Columns(PushRow(r, row)) == Columns(r) + [row]
  {
    var next := PushRow(r, row);
    assert next.trace[..next.filled] == r.trace[..r.filled] + [row];
    assert next.filled == TRACE_LEN ==> next.write == 0;
  }

  /** Overwriting the oldest entry of a ring and turning past it. */
  lemma Turned(s: seq<u8>, i: nat, x: u8)
    requires i < |s|
    ensures Unrolled(s[i := x], i + 1) == Unrolled(s, i)[1..] + [x]
  {
    var older, newer := s[i + 1..], s[..i];
    assert (s[i..] + s[..i])[1..] == older + newer;
    assert s[i := x][i + 1..] == older;
    assert s[i := x][..i + 1] == newer + [x];
    assert older + newer + [x] == older + (newer + [x]);
  }

  lemma AllTheWayRound(s: seq<u8>)
    ensures Unrolled(s, |s|) == Unrolled(s, 0)
  {
  }

  lemma TurnedAround(s: seq<u8>, i: nat, x: u8)
    requires i < |s|
    ensures Unrolled(s[i := x], if i + 1 == |s| then 0 else i + 1) == Unrolled(s, i)[1..] + [x]
  {
    Turned(s, i, x);
    AllTheWayRound(s[i := x]);
  }

  lemma FullColumns(r: Ring)
    requires RingReady(r) && r.filled == TRACE_LEN
    ensures Columns(r) == Unrolled(r.trace, r.write)
  {
  }

  lemma PushReplaces(r: Ring, row: u8)
    requires RingReady(r) && r.filled == TRACE_LEN
    ensures RingReady(PushRow(r, row)) && Columns(PushRow(r, row)) == Columns(r)[1..] + [row]
  {
    FullColumns(r);
    FullColumns(PushRow(r, row));
    TurnedAround(r.trace, r.write, row);
  }

  /** The ring shows the last rows of a history. */
  ghost predicate Shows(r: Ring, history: seq<u8>)
  {
    RingReady(r) && Columns(r) == LastN(history, 128)
  }

  lemma PushSlides(r: Ring, history: seq<u8>, row: u8)
    requires Shows(r, history)
    ensures Shows(PushRow(r, row), history + [row])
  {
    if r.filled < TRACE_LEN {
      PushFills(r, row);
    } else {
      PushReplaces(r, row);
    }
    SlideOne(history, row, TRACE_LEN);
  }

  lemma SlideOne(history: seq<u8>, row: u8, n: nat)
    requires n > 0
    ensures LastN(history + [row], n)
         == if |history| < n then LastN(history, n) + [row] else LastN(history, n)[1..] + [row]
  {
  }

  function Repeat(row: u8, count: nat): (s: seq<u8>)
    ensures |s| == count
  {
    if count == 0 then [] else Repeat(row, count - 1) + [row]
  }

  lemma {:induction false} RowsSlide(r: Ring, history: seq<u8>, row: u8, count: nat)
    requires Shows(r, history)
    ensures Shows(PushRows(r, row, count), history + Repeat(row, count))
  {
    if count == 0 {
      assert history + [] == history;
    } else {
      RowsSlide(r, history, row, count - 1);
      var sofar := history + Repeat(row, count - 1);
      PushSlides(PushRows(r, row, count - 1), sofar, row);
      assert sofar + [row] == history + Repeat(row, count);
    }
  }

  function ScopeAfter(inputs: seq<Snapshot>): ScopeState
  {
    if inputs == [] then ScopeInitial() else ScopeNext(ScopeAfter(inputs[..|inputs| - 1]), inputs[|inputs| - 1])
  }

  /** Every row the scope has ever recorded. */
  function AllRows(inputs: seq<Snapshot>): seq<u8>
  {
    if inputs == [] then []
    else
      var front, last := inputs[..|inputs| - 1], inputs[|inputs| - 1];
      AllRows(front) + Repeat(RowFor(last.cv.one), SamplesDue(SatAdd32(ScopeAfter(front).accumulator, last.elapsed)))
  }

  /** The screen always shows, in order, the last 128 rows recorded. */
  lemma {:induction false} ScopeShowsLastRows(inputs: seq<Snapshot>)
    ensures Shows(ScopeAfter(inputs).ring, AllRows(inputs))
  {
    if inputs != [] {
      var front, last := inputs[..|inputs| - 1], inputs[|inputs| - 1];
      ScopeShowsLastRows(front);
      var before := ScopeAfter(front);
      RowsSlide(before.ring, AllRows(front), RowFor(last.cv.one), SamplesDue(SatAdd32(before.accumulator, last.elapsed)));
    }
  }

  /** No update ever had more than a screenful of rows to record. */
  predicate KeepsUp(inputs: seq<Snapshot>)
  {
    inputs == []
    || (KeepsUp(inputs[..|inputs| - 1])
        && ScopeAfter(inputs[..|inputs| - 1]).accumulator + inputs[|inputs| - 1].elapsed < 129 * 8_000)
  }

  /** Beyond the clamp the screenful cap can lose time, and does so exactly when an update
      has that much to record; what is lost is never made good. */
  lemma {:induction false} TimeIsKeptIff(inputs: seq<Snapshot>)
    ensures var s := ScopeAfter(inputs);
            && s.accumulator < 8_000
            && 8_000 * |AllRows(inputs)| + s.accumulator <= ElapsedSum(inputs)
            && (8_000 * |AllRows(inputs)| + s.accumulator == ElapsedSum(inputs) <==> KeepsUp(inputs))
  {
    if inputs != [] {
      TimeIsKeptIff(inputs[..|inputs| - 1]);
    }
  }

  lemma {:induction false} ClampedKeepsUp(inputs: seq<Snapshot>)
    requires Clamped(inputs)
    ensures KeepsUp(inputs)
  {
    if inputs != [] {
      var front := inputs[..|inputs| - 1];
      ClampedKeepsUp(front);
      TimeIsKeptIff(front);
    }
  }

  /** So the plot's columns are those rows, oldest first, and nothing to the right of them. */
  lemma ScopeDrawsLastRows(inputs: seq<Snapshot>, column: nat)
    ensures var ring, rows := ScopeAfter(inputs).ring, LastN(AllRows(inputs), 128);
            RingReady(ring) && Applets.Column(ring, column) == if column < |rows| then Some(rows[column]) else None
  {
    ScopeShowsLastRows(inputs);
    ColumnIsHeld(ScopeAfter(inputs).ring, column);
  }

  lemma ColumnIsHeld(r: Ring, column: nat)
    requires RingReady(r)
    ensures Applets.Column(r, column) == if column < r.filled then Some(Columns(r)[column]) else None
  {
  }

  /** One row per 8 ms of elapsed time: under the engine's elapsed clamp no time is lost. */
  lemma ScopeKeepsTime(inputs: seq<Snapshot>)
    requires Clamped(inputs)
    ensures var s := ScopeAfter(inputs);
            && s.accumulator < 8_000
            && 8_000 * |AllRows(inputs)| + s.accumulator == ElapsedSum(inputs)
  {
    ClampedKeepsUp(inputs);
    TimeIsKeptIff(inputs);
  }

  /** Higher levels are drawn higher, the range's ends at the plot's edges. */
  lemma RowsFollowLevels(a: MilliVolts, b: MilliVolts)
    requires a <= b
    ensures RowFor(a) >= RowFor(b)
    ensures (b >= CV_OUT_MAX_MV ==> RowFor(b) == 0) && (a <= CV_OUT_MIN_MV ==> RowFor(a) == PLOT_HEIGHT - 1)
  {
  }

  // ----- The diagnostic applet -----

  function DiagnosticAfter(start: DiagnosticState, inputs: seq<Snapshot>): DiagnosticState
  {
    if inputs == [] then start
    else DiagnosticNext(DiagnosticAfter(start, inputs[..|inputs| - 1]), inputs[|inputs| - 1])
  }

  /** At the engine's clamp the 32-bit addition never wraps. */
  lemma AdvanceAdds(total: nat, elapsed: u32)
    requires elapsed <= Ticks.MAX_REPORTED_DURATION_MICROS
    ensures Advance(total % RAMP_PERIOD_MICROS, elapsed) == (total + elapsed as int) % RAMP_PERIOD_MICROS
  {
    var phase: int := total % RAMP_PERIOD_MICROS;
    assert (phase + elapsed as int) % 0x1_0000_0000 == phase + elapsed as int;
  }

  function NetTurns(inputs: seq<Snapshot>): int
  {
    if inputs == [] then 0 else NetTurns(inputs[..|inputs| - 1]) + inputs[|inputs| - 1].controls.delta[0]
  }

  /** The selection goes around the channels. */
  predicate Selects(selected: ChannelIndex, start: ChannelIndex, net: int) { selected == (start + net) % CV_CHANNELS }

  lemma SelectionTurns(d: DiagnosticState, input: Snapshot, start: ChannelIndex, net: int)
    requires Selects(d.dials.selected, start, net)
    ensures Selects(DiagnosticNext(d, input).dials.selected, start, net + input.controls.delta[0])
  {
  }

  /** The selected channel is the net travel of the left encoder, modulo the channels. */
  lemma {:induction false} SelectionIsNetTurns(start: DiagnosticState, inputs: seq<Snapshot>)
    ensures Selects(DiagnosticAfter(start, inputs).dials.selected, start.dials.selected, NetTurns(inputs))
  {
    if inputs != [] {
      var front := inputs[..|inputs| - 1];
      SelectionIsNetTurns(start, front);
      SelectionTurns(DiagnosticAfter(start, front), inputs[|inputs| - 1], start.dials.selected, NetTurns(front));
    }
  }

  /** The output mode's place in the cycle that `up` walks forward and `down` back. */
  function PlaceOf(m: OutputMode): nat { match m case Offset => 0 case Ramp => 1 case Zero => 2 }

  predicate Cycles(m: OutputMode, start: OutputMode, net: int) { PlaceOf(m) == (PlaceOf(start) + net) % 3 }

  function ModeSteps(p: PerButton): int { (if p.up then 1 else 0) - (if p.down then 1 else 0) }

  function NetModeSteps(inputs: seq<Snapshot>): int
  {
    if inputs == [] then 0 else NetModeSteps(inputs[..|inputs| - 1]) + ModeSteps(inputs[|inputs| - 1].buttons.pressed)
  }

  lemma ModeStepped(m: OutputMode, p: PerButton, start: OutputMode, net: int)
    requires Cycles(m, start, net)
    ensures var up := if p.up then m.Next() else m;
            Cycles(if p.down then up.Previous() else up, start, net + ModeSteps(p))
  {
  }

  lemma ModeCycles(d: DiagnosticState, input: Snapshot, start: OutputMode, net: int)
    requires Cycles(d.dials.mode, start, net)
    ensures Cycles(DiagnosticNext(d, input).dials.mode, start, net + ModeSteps(input.buttons.pressed))
  {
    var p := input.buttons.pressed;
    ModeStepped(d.dials.mode, p, start, net);
  }

  /** The output mode is the presses of `up` less those of `down`, around the three modes. */
  lemma {:induction false} ModeIsNetPresses(start: DiagnosticState, inputs: seq<Snapshot>)
    ensures Cycles(DiagnosticAfter(start, inputs).dials.mode, start.dials.mode, NetModeSteps(inputs))
  {
    if inputs != [] {
      var front := inputs[..|inputs| - 1];
      ModeIsNetPresses(start, front);
      ModeCycles(DiagnosticAfter(start, front), inputs[|inputs| - 1], start.dials.mode, NetModeSteps(front));
    }
  }

  function PressTotal(inputs: seq<Snapshot>, b: Button): nat
  {
    if inputs == [] then 0
    else PressTotal(inputs[..|inputs| - 1], b) + if inputs[|inputs| - 1].buttons.pressed.Of(b) then 1 else 0
  }

  lemma PressCounted(d: DiagnosticState, input: Snapshot, b: Button)
    ensures DiagnosticNext(d, input).dials.presses.At(b.Index())
         == CountPress(input.buttons.pressed.Of(b), d.dials.presses.At(b.Index()))
  {
  }

  /** Each button's count is the number of its presses, saturating. */
  lemma {:induction false} PressesAreCounted(inputs: seq<Snapshot>, b: Button)
    ensures DiagnosticAfter(DiagnosticInitial(), inputs).dials.presses.At(b.Index()) == Min(PressTotal(inputs, b), U32_MAX)
  {
    if inputs != [] {
      var front := inputs[..|inputs| - 1];
      PressesAreCounted(front, b);
      PressCounted(DiagnosticAfter(DiagnosticInitial(), front), inputs[|inputs| - 1], b);
    }
  }

  /** The level the right encoder has dialled, were there no ends to the range. */
  function Dialled(start: int, inputs: seq<Snapshot>): int
  {
    if inputs == [] then start
    else if inputs[|inputs| - 1].buttons.pressed.right then 0
    else Dialled(start, inputs[..|inputs| - 1]) + inputs[|inputs| - 1].controls.delta[1] as int * 100
  }

  /** It has not left the range since the switch last zeroed it. */
  predicate StaysInRange(start: int, inputs: seq<Snapshot>)
  {
    && CV_OUT_MIN_MV <= Dialled(start, inputs) <= CV_OUT_MAX_MV
    && (inputs == [] || inputs[|inputs| - 1].buttons.pressed.right || StaysInRange(start, inputs[..|inputs| - 1]))
  }

  /** Where a level that began at `end` of the range when the switch last zeroed the offset
      would have been carried to. */
  function Carried(end: OutputLevel, inputs: seq<Snapshot>): OutputLevel
  {
    if inputs == [] || inputs[|inputs| - 1].buttons.pressed.right then end
    else Clamp(Carried(end, inputs[..|inputs| - 1]) + inputs[|inputs| - 1].controls.delta[1] as int * 100, -3_000, 6_000)
  }

  lemma OffsetTurns(d: DiagnosticState, input: Snapshot)
    ensures DiagnosticNext(d, input).dials.offset
         == if input.buttons.pressed.right then 0 else ClampOut(d.dials.offset + input.controls.delta[1] * OFFSET_STEP_MV)
  {
  }

  /** The offset over any history at all: 100 mV for each net detent of the right encoder
      since its switch last zeroed it, held between where the two ends of the range have
      been carried to. */
  lemma {:induction false} OffsetIsHeldBetweenEnds(start: DiagnosticState, inputs: seq<Snapshot>)
    ensures Carried(CV_OUT_MIN_MV, inputs) <= Carried(CV_OUT_MAX_MV, inputs)
    ensures DiagnosticAfter(start, inputs).dials.offset
         == Clamp(Dialled(start.dials.offset, inputs), Carried(CV_OUT_MIN_MV, inputs), Carried(CV_OUT_MAX_MV, inputs))
  {
    if inputs != [] {
      var front := inputs[..|inputs| - 1];
      OffsetIsHeldBetweenEnds(start, front);
      OffsetTurns(DiagnosticAfter(start, front), inputs[|inputs| - 1]);
    }
  }

  lemma {:induction false} InRangeIsBetweenEnds(start: int, inputs: seq<Snapshot>)
    requires StaysInRange(start, inputs)
    ensures Carried(CV_OUT_MIN_MV, inputs) <= Dialled(start, inputs) <= Carried(CV_OUT_MAX_MV, inputs)
  {
    if inputs != [] && !inputs[|inputs| - 1].buttons.pressed.right {
      InRangeIsBetweenEnds(start, inputs[..|inputs| - 1]);
    }
  }

  /** So as long as the dialled level stays in the range, it is the offset. */
  lemma OffsetIsDialled(start: DiagnosticState, inputs: seq<Snapshot>)
    requires StaysInRange(start.dials.offset, inputs)
    ensures DiagnosticAfter(start, inputs).dials.offset == Dialled(start.dials.offset, inputs)
  {
    OffsetIsHeldBetweenEnds(start, inputs);
    InRangeIsBetweenEnds(start.dials.offset, inputs);
  }

  /** Without control activity nothing that was dialled in changes. */
  lemma SilenceKeepsDials(d: DiagnosticState, input: Snapshot)
    ensures DiagnosticNext(d, input.Silenced()).dials == d.dials
  {
  }

  /** Each channel's ramp is the first one's, a quarter period further on per channel; it
      rises through the period over the output range and never leaves it. */
  lemma RampIsShiftedSaw(p: Phase, q: Phase, index: nat)
    requires index < CV_CHANNELS && p <= q
    ensures RampLevel(p, index) == RampLevel((p + index * (RAMP_PERIOD_MICROS / 4)) % RAMP_PERIOD_MICROS, 0)
    ensures RampLevel(p, 0) <= RampLevel(q, 0) < CV_OUT_MAX_MV && RampLevel(0, 0) == CV_OUT_MIN_MV
  {
  }

  function RawTrigger(inputs: seq<Snapshot>, i: nat): seq<bool>
    requires i < 4
  {
    seq(|inputs|, k requires 0 <= k < |inputs| => inputs[k].triggers.At(i))
  }

  /** Each trigger's debounced level is that of its own raw history, whatever the counters'
      resets in between. */
  lemma {:induction false} TriggersAreDebounced(inputs: seq<Snapshot>, i: nat)
    requires i < 4
    ensures DiagnosticAfter(DiagnosticInitial(), inputs).counters.At(i).debouncer
         == After(DEFAULT_STABLE_SAMPLES, RawTrigger(inputs, i))
  {
    if inputs != [] {
      var front := inputs[..|inputs| - 1];
      TriggersAreDebounced(front, i);
      assert RawTrigger(inputs, i)[..|front|] == RawTrigger(front, i);
    }
  }

  /** The rising edges of a trigger's debounced level since the last press of the left
      encoder's switch. */
  function RisesSinceReset(inputs: seq<Snapshot>, i: nat): nat
    requires i < 4
  {
    if inputs == [] || inputs[|inputs| - 1].buttons.pressed.left then 0
    else
      var front := inputs[..|inputs| - 1];
      RisesSinceReset(front, i) + if TriggerLevel(inputs, i) && !TriggerLevel(front, i) then 1 else 0
  }

  function TriggerLevel(inputs: seq<Snapshot>, i: nat): bool
    requires i < 4
  {
    Level(DEFAULT_STABLE_SAMPLES, RawTrigger(inputs, i))
  }

  lemma CounterSteps(d: DiagnosticState, input: Snapshot, i: nat)
    requires i < 4
    ensures var was, now := d.counters.At(i), DiagnosticNext(d, input).counters.At(i);
            now.rising == if input.buttons.pressed.left then 0
                          else if now.debouncer.stable && !was.debouncer.stable then SatAdd32(was.rising, 1)
                          else was.rising
  {
  }

  /** Each trigger's count is exactly that, saturating. */
  lemma {:induction false} TriggerCountsSinceReset(inputs: seq<Snapshot>, i: nat)
    requires i < 4
    ensures DiagnosticAfter(DiagnosticInitial(), inputs).counters.At(i).rising == Min(RisesSinceReset(inputs, i), U32_MAX)
  {
    if inputs != [] {
      var front := inputs[..|inputs| - 1];
      TriggerCountsSinceReset(front, i);
      TriggersAreDebounced(front, i);
      TriggersAreDebounced(inputs, i);
      CounterSteps(DiagnosticAfter(DiagnosticInitial(), front), inputs[|inputs| - 1], i);
    }
  }
}
