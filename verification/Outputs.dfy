/** What the applets drive and measure, over whole histories and in terms of their inputs. */
module Outputs {
  import opened Ints
  import opened Platform
  import opened Applets
  import opened AppletRuns
  import opened Ticks
  import EngineRuns

  // ----- Proportions -----

  /** A level on the ramp of a channel after so much running time: each channel a quarter of the
      two-second period ahead of the one before, from -3 V in proportion up to 6 V, rounded down. */
  predicate OnRamp(level: int, time: nat, channel: nat)
  {
    var t := (time + 500_000 * channel) % 2_000_000;
    0 <= 9_000 * t - 2_000_000 * (level + 3_000) < 2_000_000
  }

  lemma RampIsProportional(phase: Phase, channel: nat)
    requires channel < 4
    ensures OnRamp(RampLevel(phase, channel), phase, channel)
  {
    Floored((phase + channel * 500_000) % 2_000_000 * 9_000, 2_000_000);
  }

  lemma Floored(n: nat, d: nat)
    requires d > 0
    ensures 0 <= n - d * (n / d) < d
  {
  }

  lemma WholePeriods(periods: nat, rest: nat)
    ensures (2_000_000 * periods + rest) % 2_000_000 == rest % 2_000_000
  {
  }

  lemma RampRepeats(phase: Phase, time: nat, channel: nat, level: int)
    requires phase == time % 2_000_000 && OnRamp(level, phase, channel)
    ensures OnRamp(level, time, channel)
  {
    assert time == 2_000_000 * (time / 2_000_000) + phase;
    WholePeriods(time / 2_000_000, phase + 500_000 * channel);
  }

  /** The plot's 48 rows share the output range evenly: a level is drawn in proportion to its
      distance from 6 V, rounded towards the top, the range's ends holding what lies outside it. */
  lemma RowIsProportional(level: MilliVolts)
    ensures var down := 6_000 - Clamp(level, -3_000, 6_000);
            0 <= 47 * down - 9_000 * RowFor(level) < 9_000
  {
  }

  // ----- The diagnostic applet's outputs -----

  lemma {:induction false} PhaseIsElapsed(start: DiagnosticState, inputs: seq<Snapshot>)
    requires Clamped(inputs)
    ensures DiagnosticAfter(start, inputs).phase == (start.phase + ElapsedSum(inputs)) % RAMP_PERIOD_MICROS
  {
    if inputs != [] {
      var front := inputs[..|inputs| - 1];
      PhaseIsElapsed(start, front);
      AdvanceAdds(start.phase + ElapsedSum(front), inputs[|inputs| - 1].elapsed);
    }
  }

  /** What a channel puts out, from the dials, the time and the jack of its own: the selected one the
      offset and the others their jacks in the first mode, all of them a ramp in the second, and
      nothing in the third. */
  ghost predicate Drives(level: MilliVolts, place: nat, selected: int, offset: int, jack: MilliVolts, time: nat, channel: nat)
  {
    if place == 0 then level == if channel == selected then offset else Clamp(jack, -3_000, 6_000)
    else if place == 1 then OnRamp(level, time, channel)
    else level == 0
  }

  lemma OneUpdateDrives(d: DiagnosticState, input: Snapshot, channel: nat)
    requires channel < 4
    ensures var r := DiagnosticNext(d, input);
            Drives(r.outputs.At(channel), PlaceOf(r.dials.mode), r.dials.selected, r.dials.offset,
                   input.cv.At(channel), r.phase, channel)
  {
    RampIsProportional(DiagnosticNext(d, input).phase, channel);
  }

  /** Over any history, each output is what the presses of `up` and `down`, the turns of the left
      encoder and of the right one, the time and the channel's own jack make of it. */
  lemma DrivesWhatIsDialled(start: DiagnosticState, inputs: seq<Snapshot>, channel: nat)
    requires inputs != [] && Clamped(inputs) && channel < 4
    ensures Drives(DiagnosticAfter(start, inputs).outputs.At(channel),
                   (PlaceOf(start.dials.mode) + NetModeSteps(inputs)) % 3,
                   (start.dials.selected + NetTurns(inputs)) % 4,
                   Max(Carried(-3_000, inputs), Min(Carried(6_000, inputs), Dialled(start.dials.offset, inputs))),
                   inputs[|inputs| - 1].cv.At(channel), start.phase + ElapsedSum(inputs), channel)
  {
    var front, last := inputs[..|inputs| - 1], inputs[|inputs| - 1];
    var r := DiagnosticAfter(start, inputs);
    OneUpdateDrives(DiagnosticAfter(start, front), last, channel);
    ModeIsNetPresses(start, inputs);
    SelectionIsNetTurns(start, inputs);
    OffsetIsHeldBetweenEnds(start, inputs);
    PhaseIsElapsed(start, inputs);
    if PlaceOf(r.dials.mode) == 1 {
      RampRepeats(r.phase, start.phase + ElapsedSum(inputs), channel, r.outputs.At(channel));
    }
  }

  // ----- What the applets show of their inputs -----

  /** The first jack, on all four outputs and on the screen. */
  lemma ScopeFollowsTheFirstJack(s: ScopeState, input: Snapshot, channel: nat)
    requires channel < 4
    ensures var r := ScopeNext(s, input);
            r.level == input.cv.At(0) && r.outputs.At(channel) == Clamp(input.cv.At(0), -3_000, 6_000)
  {
  }

  function DetectorAfter(samples: seq<i32>): Detector
  {
    if samples == [] then IDLE_DETECTOR else Watched(DetectorAfter(samples[..|samples| - 1]), samples[|samples| - 1])
  }

  function Watched(d: Detector, level: i32): Detector { if DetectorReady(d) then Detect(d, level) else d }

  /** The least and the greatest of some samples. */
  ghost predicate Bounds(block: seq<i32>, low: int, high: int)
  {
    && (exists i :: 0 <= i < |block| && block[i] == low) && (exists i :: 0 <= i < |block| && block[i] == high)
    && forall i :: 0 <= i < |block| ==> low <= block[i] <= high
  }

  /** How far apart they are, as far as the type can say. */
  ghost predicate Spans(block: seq<i32>, span: int)
  {
    exists low, high :: Bounds(block, low, high) && span == Min(high - low, I32_MAX)
  }

  lemma OneMoreBound(block: seq<i32>, low: int, high: int, level: i32)
    requires block == [] || Bounds(block, low, high)
    ensures Bounds(block + [level], if block == [] then level else Min(low, level),
                   if block == [] then level else Max(high, level))
  {
    var more := block + [level];
    assert more[|block|] == level;
    if block != [] {
      var i :| 0 <= i < |block| && block[i] == low;
      var j :| 0 <= j < |block| && block[j] == high;
      assert more[i] == low && more[j] == high;
    }
  }

  /** A detector on the way through a block. */
  ghost predicate Watching(d: Detector, block: seq<i32>)
  {
    && d.window == 256 && d.seen == |block| < 256
    && (if block == [] then d.low == I32_MAX && d.high == -0x8000_0000 else Bounds(block, d.low, d.high))
  }

  lemma WatchOne(d: Detector, block: seq<i32>, level: i32)
    requires Watching(d, block)
    ensures DetectorReady(d) && Detect(d, level).latest == level
    ensures |block| < 255 ==> Watching(Detect(d, level), block + [level]) && Detect(d, level).span == d.span
    ensures |block| == 255 ==> Watching(Detect(d, level), []) && Spans(block + [level], Detect(d, level).span)
  {
    OneMoreBound(block, d.low, d.high, level);
    if |block| == 255 {
      var low, high := Min(d.low, level), Max(d.high, level);
      assert Bounds(block + [level], low, high);
    }
  }

  /** Samples taken 256 at a time: the last block that is full, and what there is of the next. */
  datatype Blocks = Blocks(last: Option<seq<i32>>, filling: seq<i32>)

  function BlocksOf(samples: seq<i32>): Blocks
  {
    if samples == [] then Blocks(None, [])
    else
      var before := BlocksOf(samples[..|samples| - 1]);
      var more := before.filling + [samples[|samples| - 1]];
      if |more| == 256 then Blocks(Some(more), []) else Blocks(before.last, more)
  }

  /** A detector's span is the excursion of its last whole block of 256 samples, zero until there is
      one, and its level the latest sample. */
  lemma {:induction false} SpanIsOfLastBlock(samples: seq<i32>)
    ensures var d, blocks := DetectorAfter(samples), BlocksOf(samples);
            && Watching(d, blocks.filling)
            && (if blocks.last.None? then d.span == 0 else Spans(blocks.last.value, d.span))
            && (samples != [] ==> d.latest == samples[|samples| - 1])
  {
    if samples != [] {
      var front, last := samples[..|samples| - 1], samples[|samples| - 1];
      SpanIsOfLastBlock(front);
      WatchOne(DetectorAfter(front), BlocksOf(front).filling, last);
    }
  }

  function JackHistory(inputs: seq<Snapshot>, channel: nat): seq<i32>
    requires channel < 4
  {
    seq(|inputs|, k requires 0 <= k < |inputs| => inputs[k].cv.At(channel))
  }

  /** Each of the diagnostic applet's detectors watches its own jack, and its patch indicators are
      those of the latest update. */
  lemma {:induction false} DetectorsWatchTheirJacks(inputs: seq<Snapshot>, channel: nat)
    requires channel < 4
    ensures var r := DiagnosticAfter(DiagnosticInitial(), inputs);
            && r.detectors.At(channel) == DetectorAfter(JackHistory(inputs, channel))
            && (inputs != [] ==> r.patched.At(channel) == inputs[|inputs| - 1].patched.At(channel))
  {
    if inputs != [] {
      var front := inputs[..|inputs| - 1];
      DetectorsWatchTheirJacks(front, channel);
      assert JackHistory(inputs, channel)[..|front|] == JackHistory(front, channel);
    }
  }

  // ----- In the engine -----

  /** On every tick that runs it, the diagnostic applet drives what its dials, its running time and
      the jacks sensed on that tick make of the outputs. */
  lemma DiagnosticTickDrives(c: Core, inputs: seq<Sensed>, k: nat, channel: nat)
    requires Ready(c) && k < |inputs| && channel < 4
    requires EngineRuns.CoreAt(c, inputs, k).screen != SplashUp
    requires EngineRuns.TickAt(c, inputs, k).core.host.current == Diagnostic
    ensures var t := EngineRuns.TickAt(c, inputs, k);
            var dials := t.core.host.diagnostic.dials;
            Drives(t.report.cvOut.At(channel), PlaceOf(dials.mode), dials.selected, dials.offset, inputs[k].cv.At(channel),
                   c.host.diagnostic.phase + EngineRuns.RunningTime(c, inputs, k + 1, Diagnostic), channel)
  {
    var before, s, t := EngineRuns.CoreAt(c, inputs, k), inputs[k], EngineRuns.TickAt(c, inputs, k);
    EngineRuns.AppTickParts(before, s);
    HostDrives(before.host.(current := Diagnostic), t.core.screen,
               SnapshotOf(s, EngineRuns.Events(before, s), EngineRuns.Elapsed(before, s)), channel);
    EngineRuns.PhaseIsRunningTime(c, inputs, k + 1);
    if PlaceOf(t.core.host.diagnostic.dials.mode) == 1 {
      RampRepeats(t.core.host.diagnostic.phase, c.host.diagnostic.phase + EngineRuns.RunningTime(c, inputs, k + 1, Diagnostic),
                  channel, t.report.cvOut.At(channel));
    }
  }

  lemma HostDrives(h: HostState, screen: Screen, seen: Snapshot, channel: nat)
    requires h.current == Diagnostic && channel < 4
    ensures var (next, out) := HostNext(h, FedTo(screen, seen));
            var d := next.diagnostic;
            Drives(out.At(channel), PlaceOf(d.dials.mode), d.dials.selected, d.dials.offset, seen.cv.At(channel), d.phase, channel)
  {
    OneUpdateDrives(h.diagnostic, FedTo(screen, seen), channel);
  }

  /** And on every tick that runs the scope all four outputs follow the first jack. */
  lemma ScopeTickDrives(c: Core, s: Sensed, channel: nat)
    requires Ready(c) && c.screen != SplashUp && Tick(c, s).core.host.current == Scope && channel < 4
    ensures Tick(c, s).report.cvOut.At(channel) == Clamp(s.cv.At(0), -3_000, 6_000)
  {
    EngineRuns.AppTickParts(c, s);
    var next := Tick(c, s).core;
    var seen := SnapshotOf(s, EngineRuns.Events(c, s), EngineRuns.Elapsed(c, s));
    ScopeFollowsTheFirstJack(c.host.scope, FedTo(next.screen, seen), channel);
  }

  // ----- The report and the display -----

  lemma {:induction false} TicksAreCounted(c: Core, inputs: seq<Sensed>, n: nat)
    requires Ready(c) && n <= |inputs|
    ensures var r := EngineRuns.CoreAt(c, inputs, n);
            && Counts(r.tickCount, c.tickCount, n)
            && r.previous == (if n == 0 then c.previous else Some(inputs[n - 1].started))
            && r.lastDuration == if n == 0 then c.lastDuration else EngineRuns.TickAt(c, inputs, n - 1).report.duration
  {
    if n > 0 {
      TicksAreCounted(c, inputs, n - 1);
      CountsOn(EngineRuns.CoreAt(c, inputs, n - 1).tickCount, c.tickCount, n - 1);
      TickReports(EngineRuns.CoreAt(c, inputs, n - 1), inputs[n - 1]);
    }
  }

  predicate Counts(count: u64, start: u64, n: nat) { count == (start + n) % 0x1_0000_0000_0000_0000 }

  lemma CountsOn(count: u64, start: u64, n: nat)
    requires Counts(count, start, n)
    ensures Counts(WrappingAdd64(count, 1), start, n + 1)
  {
  }

  /** The time between two readings of the clock, which wraps, up to a second. */
  function Between(earlier: u64, later: u64): nat
  {
    Min(if earlier <= later then later - earlier else later + 0x1_0000_0000_0000_0000 - earlier, 1_000_000)
  }

  lemma ClampedIsBetween(earlier: u64, later: u64)
    ensures ClampDuration(WrappingSub64(later, earlier)) == Between(earlier, later)
  {
  }

  lemma TickReports(c: Core, s: Sensed)
    requires Ready(c)
    ensures var t := Tick(c, s);
            && t.report.timestamp == s.started && t.report.tickCount == t.core.tickCount == WrappingAdd64(c.tickCount, 1)
            && t.report.duration == t.core.lastDuration == Between(s.started, s.finished)
            && t.report.elapsed == (if c.previous.None? then 0 else Between(c.previous.value, s.started))
            && t.core.previous == Some(s.started)
  {
    ClampedIsBetween(s.started, s.finished);
    if c.previous.Some? { ClampedIsBetween(c.previous.value, s.started); }
    if c.screen == SplashUp { EngineRuns.SplashTickParts(c, s); } else { EngineRuns.AppTickParts(c, s); }
  }

  /** Every tick reports when it began, how long it took and how long after the one before it began,
      both up to a second, and its number. */
  lemma ReportsTellTheTime(c: Core, inputs: seq<Sensed>, k: nat)
    requires Ready(c) && k < |inputs|
    ensures var report := EngineRuns.TickAt(c, inputs, k).report;
            && report.timestamp == inputs[k].started
            && report.duration == Between(inputs[k].started, inputs[k].finished)
            && Counts(report.tickCount, c.tickCount, k + 1)
            && (k > 0 ==> report.elapsed == Between(inputs[k - 1].started, inputs[k].started))
            && (k == 0 ==> report.elapsed == if c.previous.None? then 0 else Between(c.previous.value, inputs[0].started))
  {
    TicksAreCounted(c, inputs, k);
    CountsOn(EngineRuns.CoreAt(c, inputs, k).tickCount, c.tickCount, k);
    TickReports(EngineRuns.CoreAt(c, inputs, k), inputs[k]);
  }

  /** What a tick draws, if it draws: the animation while that was up, the menu if the tick ends with
      it up, and otherwise the running app as the tick left it, with the time the tick before took. */
  lemma PicturesAreOfTheScreen(c: Core, inputs: seq<Sensed>, k: nat)
    requires Ready(c) && k < |inputs|
    ensures var before, t := EngineRuns.CoreAt(c, inputs, k), EngineRuns.TickAt(c, inputs, k);
            && (t.picture.Some? <==> t.report.rendered)
            && (t.picture.Some? ==>
                  t.picture.value ==
                    if before.screen == SplashUp then SplashPicture(t.core.splash)
                    else if t.core.screen == MenuUp then MenuPicture(t.core.selected)
                    else AppPicture(t.core.host, t.report.tickCount,
                                    if k == 0 then c.lastDuration else EngineRuns.TickAt(c, inputs, k - 1).report.duration))
  {
    TicksAreCounted(c, inputs, k);
    TickDraws(EngineRuns.CoreAt(c, inputs, k), inputs[k]);
  }

  lemma TickDraws(c: Core, s: Sensed)
    requires Ready(c)
    ensures var t := Tick(c, s);
            && (t.picture.Some? <==> t.report.rendered)
            && (t.picture.Some? ==>
                  t.picture.value == if c.screen == SplashUp then SplashPicture(t.core.splash)
                                     else if t.core.screen == MenuUp then MenuPicture(t.core.selected)
                                     else AppPicture(t.core.host, t.report.tickCount, c.lastDuration))
  {
  }
}
