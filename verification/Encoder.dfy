/** The quadrature decoder (crates/oc-core/src/encoder.rs) and its closed form. */
module Encoder {
  import opened Ints

  const TRANSITIONS_PER_DETENT := 4

  const TRANSITION: seq<i8> :=
    [0, -1, 1, 0,
     1, 0, 0, -1,
     -1, 0, 0, 1,
     0, 1, -1, 0]

  /** The two lines packed as the decoder packs them: `A` in bit 1, `B` in bit 0. */
  type Lines = x: int | 0 <= x < 4

  function Pack(a: bool, b: bool): Lines { (if a then 2 else 0) + if b then 1 else 0 }

  /** The line state that comes next when the knob is turned clockwise. */
  function Clockwise(lines: Lines): Lines
  {
    if lines == 0 then 2 else if lines == 2 then 3 else if lines == 3 then 1 else 0
  }

  type Move = x: i8 | -1 <= x <= 1

  /** One place around the cycle counts as a movement; no change counts as none, and
      so does a jump of two places, between which nothing was sampled. */
  function Movement(previous: Lines, current: Lines): Move
  {
    if current == Clockwise(previous) then 1 else if previous == Clockwise(current) then -1 else 0
  }

  /** The decoder's table, indexed by `previous << 2 | current`, says exactly that. */
  lemma TableFollowsGrayCycle(previous: Lines, current: Lines)
    ensures TRANSITION[4 * previous + current] == Movement(previous, current)
  {
    if previous == 0 {} else if previous == 1 {} else if previous == 2 {} else {}
    if current == 0 {} else if current == 1 {} else if current == 2 {} else {}
  }

  type Partial = x: int | -TRANSITIONS_PER_DETENT < x < TRANSITIONS_PER_DETENT

  /** One movement added to a partial detent: the new partial detent and the whole detents
      completed.  A movement against the accumulated ones starts afresh. */
  function Accumulate(accumulator: Partial, movement: Move): (Partial, Move)
  {
    if movement == 0 then (accumulator, 0)
    else
      var travelled := movement + if Sign(accumulator) != Sign(movement) then 0 else accumulator;
      if Abs(travelled) == TRANSITIONS_PER_DETENT then (0, movement) else (travelled, 0)
  }

  datatype DecoderState = DecoderState(previous: Lines, accumulator: Partial)

  const AT_REST := DecoderState(0, 0)

  /** One sample: the new state and the whole detents it completes. */
  function Decode(d: DecoderState, current: Lines): (DecoderState, int)
  {
    var (accumulator, detents) := Accumulate(d.accumulator, Movement(d.previous, current));
    (DecoderState(current, accumulator), detents)
  }

  class QuadratureDecoder {
    var previous: Lines
    var accumulator: Partial

    ghost function State(): DecoderState
      reads this
    {
      DecoderState(previous, accumulator)
    }

    constructor ()
      ensures State() == AT_REST
    {
      previous, accumulator := 0, 0;
    }

    method Update(lineA: bool, lineB: bool) returns (detents: i8)
      modifies this
      ensures (State(), detents) == Decode(old(State()), Pack(lineA, lineB))
      ensures -1 <= detents <= 1
    {
      var current := Pack(lineA, lineB);
      TableFollowsGrayCycle(previous, current);
      var movement := TRANSITION[4 * previous + current];
      previous := current;

      detents := Travel(movement);
    }

    /** Moves the accumulator by one transition, carrying out a whole detent. */
    method Travel(movement: i8) returns (detents: i8)
      requires -1 <= movement <= 1
      modifies `accumulator
      ensures (accumulator, detents) == Accumulate(old(accumulator), movement)
    {
      if movement == 0 {
        return 0;
      }
      var travelled := accumulator;
      if Sign(travelled) != Sign(movement) {
        travelled := 0;
      }
      travelled := travelled + movement;

      detents := TruncDiv(travelled, TRANSITIONS_PER_DETENT);
      if detents != 0 {
        travelled := travelled - detents * TRANSITIONS_PER_DETENT;
      }
      accumulator := travelled;
    }

    /** Starts the next detent from nothing. */
    method Reset()
      modifies this
      ensures State() == old(State()).(accumulator := 0)
    {
      accumulator := 0;
    }
  }

  // ----- Closed form over a history -----

  /** The movement contributed by each sample, from the `(low, low)` starting state. */
  function Movements(samples: seq<Lines>): (ms: seq<Move>)
    ensures |ms| == |samples|
  {
    seq(|samples|, i requires 0 <= i < |samples| => Movement(if i == 0 then 0 else samples[i - 1], samples[i]))
  }

  /** Signed lengths of the maximal same-direction runs of non-zero movements. */
  function Runs(ms: seq<int>): seq<int>
  {
    if ms == [] then [] else AddMovement(Runs(ms[..|ms| - 1]), ms[|ms| - 1])
  }

  /** Whole detents in one run: a quarter of its length rounded down, with its sign. */
  function WholeDetents(run: int): int { if run < 0 then -(-run / 4) else run / 4 }

  function Detents(runs: seq<int>): int
  {
    if runs == [] then 0 else Detents(runs[..|runs| - 1]) + WholeDetents(runs[|runs| - 1])
  }

  function Last(runs: seq<int>): int { if runs == [] then 0 else runs[|runs| - 1] }

  /** A partial detent, and the whole ones reported so far. */
  datatype Tally = Tally(rest: Partial, detents: int)

  function Fed(t: Tally, m: Move): Tally
  {
    var step := Accumulate(t.rest, m);
    Tally(step.0, t.detents + step.1)
  }

  /** The tally after a history of movements. */
  function Accumulated(ms: seq<Move>): Tally
  {
    if ms == [] then Tally(0, 0) else Fed(Accumulated(ms[..|ms| - 1]), ms[|ms| - 1])
  }

  /** The decoder's state and everything it has reported. */
  datatype Progress = Progress(decoder: DecoderState, total: int)

  function Advanced(p: Progress, current: Lines): Progress
  {
    var step := Decode(p.decoder, current);
    Progress(step.0, p.total + step.1)
  }

  /** After a history of samples. */
  function Decoded(samples: seq<Lines>): Progress
  {
    if samples == [] then Progress(AT_REST, 0) else Advanced(Decoded(samples[..|samples| - 1]), samples[|samples| - 1])
  }

  function DecoderAfter(samples: seq<Lines>): DecoderState { Decoded(samples).decoder }

  function Total(samples: seq<Lines>): int { Decoded(samples).total }

  lemma DecodedAppend(samples: seq<Lines>, current: Lines)
    ensures Decoded(samples + [current]) == Advanced(Decoded(samples), current)
  {
    assert (samples + [current])[..|samples|] == samples;
  }

  lemma AccumulatedAppend(ms: seq<Move>, m: Move)
    ensures Accumulated(ms + [m]) == Fed(Accumulated(ms), m)
  {
    assert (ms + [m])[..|ms|] == ms;
  }

  function LastLines(samples: seq<Lines>): Lines { if samples == [] then 0 else samples[|samples| - 1] }

  /** The decoder remembers the last sample, and tallies its movement against it. */
  predicate Tallies(p: Progress, previous: Lines, t: Tally)
  {
    p.decoder.previous == previous && p.decoder.accumulator == t.rest && p.total == t.detents
  }

  lemma SampleTallies(p: Progress, previous: Lines, t: Tally, current: Lines)
    requires Tallies(p, previous, t)
    ensures Tallies(Advanced(p, current), current, Fed(t, Movement(previous, current)))
  {
  }

  lemma MovementsAppend(samples: seq<Lines>, current: Lines)
    ensures Movements(samples + [current]) == Movements(samples) + [Movement(LastLines(samples), current)]
  {
  }

  /** The decoder is the Gray-code cycle followed by the tally. */
  lemma {:induction false} DecoderTallies(samples: seq<Lines>)
    ensures Tallies(Decoded(samples), LastLines(samples), Accumulated(Movements(samples)))
  {
    if samples != [] {
      var prefix, current := samples[..|samples| - 1], samples[|samples| - 1];
      DecoderTallies(prefix);
      SampleTallies(Decoded(prefix), LastLines(prefix), Accumulated(Movements(prefix)), current);
      MovementsAppend(prefix, current);
      AccumulatedAppend(Movements(prefix), Movement(LastLines(prefix), current));
      assert samples == prefix + [current];
    }
  }

  /** What a run leaves of its last detent. */
  function Rest(run: int): int { run - TRANSITIONS_PER_DETENT * WholeDetents(run) }

  /** The last run once one more movement is in, and the whole detents that adds. */
  function NextRun(run: int, m: int): (int, int)
  {
    if m == 0 then (run, 0)
    else if Sign(run) == Sign(m) then (run + m, WholeDetents(run + m) - WholeDetents(run))
    else (m, WholeDetents(m))
  }

  /** Feeding one movement to an accumulator that holds the rest of `run`. */
  lemma RestStep(run: int, m: int)
    requires -1 <= m <= 1
    ensures -4 < Rest(run) < 4
    ensures Accumulate(Rest(run), m) == (Rest(NextRun(run, m).0), NextRun(run, m).1)
  {
  }

  lemma DetentsAppend(front: seq<int>, run: int)
    ensures Detents(front + [run]) == Detents(front) + WholeDetents(run)
  {
    assert (front + [run])[..|front|] == front;
  }

  /** Adds one movement to a list of runs; `Runs` is its fold. */
  function AddMovement(runs: seq<int>, m: int): seq<int>
  {
    if m == 0 then runs
    else if runs != [] && Sign(Last(runs)) == Sign(m) then runs[..|runs| - 1] + [Last(runs) + m]
    else runs + [m]
  }

  lemma DetentsGrow(runs: seq<int>, m: int)
    ensures var longer := AddMovement(runs, m);
            NextRun(Last(runs), m) == (Last(longer), Detents(longer) - Detents(runs))
  {
    if m != 0 && runs != [] && Sign(Last(runs)) == Sign(m) {
      var front := runs[..|runs| - 1];
      DetentsAppend(front, Last(runs));
      DetentsAppend(front, Last(runs) + m);
      assert runs == front + [Last(runs)];
    } else {
      DetentsAppend(runs, m);
    }
  }

  lemma {:induction false} AccumulatedRuns(ms: seq<Move>)
    ensures Accumulated(ms) == Tally(Rest(Last(Runs(ms))), Detents(Runs(ms)))
  {
    if ms != [] {
      AccumulatedRuns(ms[..|ms| - 1]);
      DetentsGrow(Runs(ms[..|ms| - 1]), ms[|ms| - 1]);
      RestStep(Last(Runs(ms[..|ms| - 1])), ms[|ms| - 1]);
    }
  }

  /** The reported total is the sum over the runs of their whole detents, and what the
      decoder still holds is the rest of the last run. */
  lemma DecoderCountsRuns(samples: seq<Lines>)
    ensures var runs := Runs(Movements(samples));
            Total(samples) == Detents(runs) && DecoderAfter(samples).accumulator == Rest(Last(runs))
  {
    DecoderTallies(samples);
    AccumulatedRuns(Movements(samples));
  }

  /** What the reversals have thrown away: the rest of every run but the last. */
  function Discarded(runs: seq<int>): int
  {
    if |runs| <= 1 then 0 else Discarded(runs[..|runs| - 1]) + Rest(runs[|runs| - 2])
  }

  lemma AddMovementAccounts(runs: seq<int>, m: int)
    ensures var longer := AddMovement(runs, m);
            Discarded(longer) - Discarded(runs) == Last(runs) + m - Last(longer) - 4 * (if |longer| > |runs| then WholeDetents(Last(runs)) else 0)
  {
    if m != 0 && runs != [] {
      var longer := AddMovement(runs, m);
      if |longer| == |runs| {
        assert longer[..|runs| - 1] == runs[..|runs| - 1];
      } else {
        assert longer[..|runs|] == runs;
      }
    }
  }

  lemma {:induction false} RunsAccount(ms: seq<int>)
    ensures var runs := Runs(ms);
            Sum(ms) == TRANSITIONS_PER_DETENT * Detents(runs) + Rest(Last(runs)) + Discarded(runs)
  {
    if ms != [] {
      RunsAccount(ms[..|ms| - 1]);
      var runs, m := Runs(ms[..|ms| - 1]), ms[|ms| - 1];
      AddMovementAccounts(runs, m);
      DetentsGrow(runs, m);
    }
  }

  /** Nothing else is ever lost: net displacement is what was reported, what is held, and
      what reversals discarded. */
  lemma DisplacementIsAccountedFor(samples: seq<Lines>)
    ensures Sum(Movements(samples))
         == TRANSITIONS_PER_DETENT * Total(samples) + DecoderAfter(samples).accumulator + Discarded(Runs(Movements(samples)))
  {
    DecoderCountsRuns(samples);
    RunsAccount(Movements(samples));
  }

  /** Net quarter detents, by what was reported and what is held. */
  function Held(p: Progress): int { TRANSITIONS_PER_DETENT * p.total + p.decoder.accumulator }

  /** A sample moves that by its own movement exactly when it does not reverse a partial
      detent; a reversal drops the partial detent and starts from its own movement. */
  lemma DisplacementKeptIff(samples: seq<Lines>, current: Lines)
    ensures var p, q := Decoded(samples), Decoded(samples + [current]);
            var partial, m := p.decoder.accumulator, Movement(LastLines(samples), current);
            var reverses := m != 0 && partial != 0 && Sign(partial) != m;
            && (Held(q) == Held(p) + m <==> !reverses)
            && (reverses ==> Held(q) == TRANSITIONS_PER_DETENT * p.total + m)
  {
    DecodedAppend(samples, current);
    DecoderTallies(samples);
  }

  /** Such reversals happen: one step forward and one back end one step behind. */
  lemma ReversalForgets(there: Lines)
    requires there == Clockwise(0)
    ensures Held(Decoded([there])) == 1 && Held(Decoded([there] + [0])) == -1
  {
    DecodedAppend([], there);
    assert [] + [there] == [there];
    assert Decoded([there]) == Progress(DecoderState(there, 1), 0);
    DisplacementKeptIff([there], 0);
  }

  // ----- Turning the knob -----

  /** The lines A and B over `n` detents: A leads when the knob is turned clockwise, B when it is
      turned the other way. */
  function Turning(n: nat, clockwise: bool): seq<Lines>
  {
    if n == 0 then []
    else
      Turning(n - 1, clockwise)
      + [Pack(clockwise, !clockwise)] + [Pack(true, true)] + [Pack(!clockwise, clockwise)] + [Pack(false, false)]
  }

  lemma FourSamples(samples: seq<Lines>, a: Lines, b: Lines, c: Lines, d: Lines)
    ensures Decoded(samples + [a] + [b] + [c] + [d]) == Advanced(Advanced(Advanced(Advanced(Decoded(samples), a), b), c), d)
  {
    DecodedAppend(samples, a);
    DecodedAppend(samples + [a], b);
    DecodedAppend(samples + [a] + [b], c);
    DecodedAppend(samples + [a] + [b] + [c], d);
  }

  lemma OneTurn(total: int, clockwise: bool)
    ensures Advanced(Advanced(Advanced(Advanced(Progress(AT_REST, total),
              Pack(clockwise, !clockwise)), Pack(true, true)), Pack(!clockwise, clockwise)), Pack(false, false))
         == Progress(AT_REST, total + Toward(1, clockwise))
  {
  }

  function Toward(n: int, clockwise: bool): int { if clockwise then n else -n }

  /** Each is reported, once it is whole: so many clockwise turns are so many steps up, and the
      others so many down. */
  lemma {:induction false} TurnsAreReported(n: nat, clockwise: bool)
    ensures Decoded(Turning(n, clockwise)) == Progress(AT_REST, Toward(n, clockwise))
  {
    if n > 0 {
      TurnsAreReported(n - 1, clockwise);
      FourSamples(Turning(n - 1, clockwise),
                  Pack(clockwise, !clockwise), Pack(true, true), Pack(!clockwise, clockwise), Pack(false, false));
      OneTurn(Toward(n - 1, clockwise), clockwise);
    }
  }

  function NonZero(ms: seq<int>): seq<int>
  {
    if ms == [] then []
    else NonZero(ms[..|ms| - 1]) + if ms[|ms| - 1] == 0 then [] else [ms[|ms| - 1]]
  }

  function Copies(run: int): seq<int> { seq(Abs(run), _ => Sign(run)) }

  /** The movements a list of runs stands for. */
  function Expand(runs: seq<int>): seq<int>
  {
    if runs == [] then [] else Expand(runs[..|runs| - 1]) + Copies(runs[|runs| - 1])
  }

  ghost predicate Alternating(runs: seq<int>)
  {
    && (forall i :: 0 <= i < |runs| ==> runs[i] != 0)
    && (forall i, j :: 0 <= i && j == i + 1 && j < |runs| ==> Sign(runs[j]) == -Sign(runs[i]))
  }

  lemma AddMovementAlternates(runs: seq<int>, m: int)
    requires Alternating(runs)
    ensures Alternating(AddMovement(runs, m))
  {
    var longer := AddMovement(runs, m);
    assert forall i :: 0 <= i < |longer| - 1 ==> longer[i] == runs[i];
    assert runs != [] ==> Last(runs) != 0;
  }

  /** `Runs` is the run-length code: no run is empty and neighbouring runs have opposite
      directions, so each run is maximal ... */
  lemma {:induction false} RunsAreMaximal(ms: seq<int>)
    ensures Alternating(Runs(ms))
  {
    if ms != [] {
      RunsAreMaximal(ms[..|ms| - 1]);
      AddMovementAlternates(Runs(ms[..|ms| - 1]), ms[|ms| - 1]);
    }
  }

  lemma ExpandAppend(front: seq<int>, run: int)
    ensures Expand(front + [run]) == Expand(front) + Copies(run)
  {
    assert (front + [run])[..|front|] == front;
  }

  lemma ExpandStep(runs: seq<int>, m: int)
    requires -1 <= m <= 1
    ensures Expand(AddMovement(runs, m)) == Expand(runs) + if m == 0 then [] else [m]
  {
    if m != 0 && runs != [] && Sign(Last(runs)) == Sign(m) {
      var front, run := runs[..|runs| - 1], Last(runs);
      ExpandAppend(front, run);
      ExpandAppend(front, run + m);
      assert runs == front + [run];
      assert Copies(run + m) == Copies(run) + [m];
    } else if m != 0 {
      ExpandAppend(runs, m);
      assert Copies(m) == [m];
    }
  }

  /** ... and the runs expand back to the non-zero movements. */
  lemma {:induction false} RunsExpand(ms: seq<Move>)
    ensures Expand(Runs(ms)) == NonZero(ms)
  {
    if ms != [] {
      RunsExpand(ms[..|ms| - 1]);
      ExpandStep(Runs(ms[..|ms| - 1]), ms[|ms| - 1]);
    }
  }

  predicate Bounded(t: Tally, movements: nat)
  {
    4 * t.detents + Max(t.rest, 0) <= movements && -4 * t.detents + Max(-t.rest, 0) <= movements
  }

  lemma {:induction false} AccumulatedBounded(ms: seq<Move>)
    ensures Bounded(Accumulated(ms), |ms|)
  {
    if ms != [] {
      AccumulatedBounded(ms[..|ms| - 1]);
    }
  }

  /** A detent, in either direction, costs at least four samples. */
  lemma TotalBounded(samples: seq<Lines>)
    ensures 4 * Abs(Total(samples)) <= |samples|
  {
    DecoderTallies(samples);
    var t := Accumulated(Movements(samples));
    AccumulatedBounded(Movements(samples));
    assert Total(samples) == t.detents && Bounded(t, |samples|);
  }
}
