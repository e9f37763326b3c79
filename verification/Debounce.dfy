/** The debouncer and the edge counter (crates/oc-core/src/debounce.rs), and what they
    mean over a whole history of raw samples. */
module Debounce {
  import opened Ints

  datatype Edge = Rising | Falling

  const DEFAULT_STABLE_SAMPLES: u8 := 3

  datatype DebouncerState = DebouncerState(stable: bool, candidate: bool, agreements: u8, required: u8)

  type Depth = x: int | 1 <= x < 0x100 witness 1

  function Initial(required: u8): (d: DebouncerState)
  {
    DebouncerState(false, false, 0, if required == 0 then 1 else required)
  }

  /** What one sample does to a debouncer. */
  function Next(d: DebouncerState, raw: bool): DebouncerState
  {
    if raw == d.stable then
      d.(candidate := raw, agreements := 0)
    else
      var agreements := if raw == d.candidate then Min(d.agreements + 1, 255) else 1;
      if agreements < d.required then
        d.(candidate := raw, agreements := agreements)
      else
        d.(stable := raw, candidate := raw, agreements := 0)
  }

  /** The transition reported along with that change of state. */
  function EdgeBetween(before: bool, after: bool): Option<Edge>
  {
    if before == after then None else if after then Some(Rising) else Some(Falling)
  }

  class Debouncer {
    var stable: bool
    var candidate: bool
    var agreements: u8
    const required: Depth

    ghost function State(): DebouncerState
      reads this
    {
      DebouncerState(stable, candidate, agreements, required)
    }

    constructor (required: u8)
      ensures State() == Initial(required)
    {
      stable, candidate, agreements := false, false, 0;
      this.required := if required == 0 then 1 else required;
    }

    /** Back to the state a new debouncer of the same depth starts in. */
    method Reset()
      modifies this
      ensures State() == Initial(required)
    {
      stable, candidate, agreements := false, false, 0;
    }

    method Update(raw: bool) returns (edge: Option<Edge>)
      modifies this
      ensures State() == Next(old(State()), raw)
      ensures edge == EdgeBetween(old(stable), stable)
    {
      if raw == stable {
        candidate := raw;
        agreements := 0;
        return None;
      }
      if raw == candidate {
        agreements := Min(agreements + 1, 255);
      } else {
        candidate := raw;
        agreements := 1;
      }
      if agreements < required {
        return None;
      }
      stable := raw;
      agreements := 0;
      edge := if raw then Some(Rising) else Some(Falling);
    }
  }

  // ----- Meaning over a history -----

  /** The state after a whole history of samples. */
  function After(required: u8, samples: seq<bool>): DebouncerState
  {
    if samples == [] then Initial(required)
    else Next(After(required, samples[..|samples| - 1]), samples[|samples| - 1])
  }

  function Level(required: u8, samples: seq<bool>): bool
  {
    After(required, samples).stable
  }

  /** The `n` samples just before `end` all read `v`. */
  ghost predicate Settles(samples: seq<bool>, n: nat, end: nat, v: bool)
  {
    n <= end <= |samples| && forall i :: end - n <= i < end ==> samples[i] == v
  }

  lemma {:induction false} AfterShape(required: Depth, samples: seq<bool>)
    ensures var d := After(required, samples);
            && d.required == required
            && d.agreements < required
            && (d.agreements > 0 <==> d.candidate != d.stable)
            && Settles(samples, d.agreements, |samples|, !d.stable)
            && (d.agreements < |samples| ==> samples[|samples| - 1 - d.agreements] == d.stable)
            && (d.agreements == |samples| ==> !d.stable)
  {
    if samples != [] {
      AfterShape(required, samples[..|samples| - 1]);
    }
  }

  /** The debounced level is the value of the most recent run of at least `required`
      identical samples, and low before the first one. */
  lemma {:induction false} LevelIsLastSettledRun(required: Depth, samples: seq<bool>)
    ensures Level(required, samples) <==>
            exists e: nat :: Settles(samples, required, e, true)
                        && forall f: nat :: e < f <= |samples| ==> !Settles(samples, required, f, false)
  {
    if samples == [] {
    } else {
      var prefix := samples[..|samples| - 1];
      var n := |samples|;
      LevelIsLastSettledRun(required, prefix);
      AfterShape(required, prefix);
      AfterShape(required, samples);
      forall e: nat, v | e < n
        ensures Settles(samples, required, e, v) <==> Settles(prefix, required, e, v)
      {
        assert Settles(prefix, required, e, v) ==> forall i :: e - required <= i < e ==> samples[i] == prefix[i];
        assert Settles(samples, required, e, v) ==> forall i :: e - required <= i < e ==> samples[i] == prefix[i];
      }
      NewestWindow(required, samples);
    }
  }

  /** The newest window of `required` samples settles exactly when it reads the level
      the debouncer now reports throughout. */
  lemma NewestWindow(required: Depth, samples: seq<bool>)
    requires samples != []
    ensures var before, now := Level(required, samples[..|samples| - 1]), Level(required, samples);
            && (before != now ==> Settles(samples, required, |samples|, now))
            && !Settles(samples, required, |samples|, !now)
  {
    var n := |samples|;
    AfterShape(required, samples[..n - 1]);
    AfterShape(required, samples);
    var d := After(required, samples);
    if d.agreements < n {
      if d.agreements < required <= n {
        assert samples[n - 1 - d.agreements] == d.stable;
      }
    }
  }

  /** Number of edges of each kind reported over a history. */
  function Edges(required: u8, samples: seq<bool>, kind: Edge): nat
  {
    if samples == [] then 0
    else
      var prefix := samples[..|samples| - 1];
      var reported := EdgeBetween(Level(required, prefix), Level(required, samples));
      Edges(required, prefix, kind) + if reported == Some(kind) then 1 else 0
  }

  /** Edges alternate, starting with a rising one; each costs `required` samples. */
  lemma {:induction false} EdgesAlternateAndCost(required: Depth, samples: seq<bool>)
    ensures var up, down := Edges(required, samples, Rising), Edges(required, samples, Falling);
            && up - down == (if Level(required, samples) then 1 else 0)
            && (up + down) * required + After(required, samples).agreements <= |samples|
  {
    if samples != [] {
      var prefix := samples[..|samples| - 1];
      EdgesAlternateAndCost(required, prefix);
      AfterShape(required, prefix);
      AfterShape(required, samples);
      var up, down := Edges(required, prefix, Rising), Edges(required, prefix, Falling);
      assert (up + down + 1) * required == (up + down) * required + required;
    }
  }

  /** `k` rising edges take at least `(2k - 1) * required` samples. */
  lemma RisingEdgesBounded(required: Depth, samples: seq<bool>)
    ensures var k := Edges(required, samples, Rising);
            k > 0 ==> (2 * k - 1) * required <= |samples|
  {
    EdgesAlternateAndCost(required, samples);
    var up, down := Edges(required, samples, Rising), Edges(required, samples, Falling);
    if up > 0 {
      assert (2 * up - 1) * required <= (up + down) * required;
    }
  }

  /** A depth of zero counts as one, and with one the level is the latest sample. */
  lemma {:induction false} NoDepthIsOne(samples: seq<bool>)
    ensures After(0, samples) == After(1, samples) && After(0, samples).required == 1
    ensures Level(0, samples) == if samples == [] then false else samples[|samples| - 1]
  {
    if samples != [] {
      NoDepthIsOne(samples[..|samples| - 1]);
    }
  }

  // ----- Counting edges -----

  datatype CounterState = CounterState(debouncer: DebouncerState, rising: u32)

  function CounterInitial(required: u8): CounterState { CounterState(Initial(required), 0) }

  function CounterNext(c: CounterState, raw: bool): CounterState
  {
    var d := Next(c.debouncer, raw);
    CounterState(d, if EdgeBetween(c.debouncer.stable, d.stable) == Some(Rising) then SatAdd32(c.rising, 1) else c.rising)
  }

  class EdgeCounter {
    const debouncer: Debouncer
    var rising: u32

    ghost function State(): CounterState
      reads this, debouncer
    {
      CounterState(debouncer.State(), rising)
    }

    constructor (required: u8)
      ensures State() == CounterInitial(required)
      ensures fresh(debouncer)
    {
      debouncer := new Debouncer(required);
      rising := 0;
    }

    method Reset()
      modifies this, debouncer
      ensures State() == CounterInitial(debouncer.required)
    {
      debouncer.Reset();
      rising := 0;
    }

    method Update(raw: bool) returns (edge: Option<Edge>)
      modifies this, debouncer
      ensures State() == CounterNext(old(State()), raw)
      ensures edge == EdgeBetween(old(debouncer.stable), debouncer.stable)
    {
      edge := debouncer.Update(raw);
      if edge == Some(Rising) {
        rising := SatAdd32(rising, 1);
      }
    }

    method ResetCount()
      modifies this
      ensures State() == old(State()).(rising := 0)
    {
      rising := 0;
    }
  }

  function CounterAfter(required: u8, samples: seq<bool>): CounterState
  {
    if samples == [] then CounterInitial(required)
    else CounterNext(CounterAfter(required, samples[..|samples| - 1]), samples[|samples| - 1])
  }

  /** The counter shows the exact number of rising edges, pinned at the largest `u32`. */
  lemma {:induction false} CounterCountsEdges(required: u8, samples: seq<bool>)
    ensures CounterAfter(required, samples)
         == CounterState(After(required, samples), Min(Edges(required, samples, Rising), U32_MAX))
  {
    if samples != [] {
      CounterCountsEdges(required, samples[..|samples| - 1]);
    }
  }
}
