/** Scenarios, as lists of input changes ordered by tick
    (crates/oc-sim/src/scenario.rs). */
module Scenario {
  import opened Ints
  import opened Platform

  type usize = u64

  /** Something that can change at the module's inputs. */
  datatype Event =
    | Cv(channel: usize, millivolts: MilliVolts)
    | Patch(channel: usize, patched: bool)
    | Trigger(channel: usize, high: bool)
    | Encoder(index: usize, detents: i8)
    | Press(button: Button, down: bool)
    | Reset

  type Stamped = (u64, Event)

  /** The value of a scenario: its events and its length. */
  datatype Log = Log(events: seq<Stamped>, ticks: u64)

  predicate Sorted(events: seq<Stamped>)
  {
    forall i, j :: 0 <= i < j < |events| ==> events[i].0 <= events[j].0
  }

  /** `partition_point`: how many leading events are no later than `tick`. */
  function Position(events: seq<Stamped>, tick: u64): (p: nat)
    ensures p <= |events|
    ensures forall i :: 0 <= i < p ==> events[i].0 <= tick
    ensures p < |events| ==> events[p].0 > tick
  {
    if events == [] || events[0].0 > tick then 0 else 1 + Position(events[1..], tick)
  }

  lemma {:induction false} PositionIsUnique(events: seq<Stamped>, tick: u64, p: nat)
    requires p <= |events| && (forall i :: 0 <= i < p ==> events[i].0 <= tick)
    requires p < |events| ==> events[p].0 > tick
    ensures Position(events, tick) == p
  {
    if p > 0 {
      PositionIsUnique(events[1..], tick, p - 1);
    }
  }

  function Insert(events: seq<Stamped>, tick: u64, event: Event): seq<Stamped>
  {
    var p := Position(events, tick);
    events[..p] + [(tick, event)] + events[p..]
  }

  /** The length grows to reach past the event, which needs `tick + 1` to fit. */
  function Pushed(log: Log, tick: u64, event: Event): Log
    requires tick < U64_MAX
  {
    Log(Insert(log.events, tick, event), Max(log.ticks, tick + 1))
  }

  class Scenario {
    var events: seq<Stamped>
    var ticks: u64

    ghost function Value(): Log
      reads this
    {
      Log(events, ticks)
    }

    constructor (ticks: u64)
      ensures Value() == Log([], ticks)
    {
      events, this.ticks := [], ticks;
    }

    /** Puts an event behind all those at its tick or before. */
    method Push(tick: u64, event: Event)
      requires Sorted(events) && tick < U64_MAX
      modifies this
      ensures Value() == Pushed(old(Value()), tick, event)
      ensures Sorted(events)
    {
      InsertSorts(events, tick, event);
      var position := PartitionPoint(tick);
      events := events[..position] + [(tick, event)] + events[position..];
      ticks := Max(ticks, tick + 1);
    }

    /** The binary search behind `partition_point`. */
    method PartitionPoint(tick: u64) returns (p: nat)
      requires Sorted(events)
      ensures p == Position(events, tick)
    {
      var low, high := 0, |events|;
      while low < high
        invariant 0 <= low <= high <= |events|
        invariant forall i :: 0 <= i < low ==> events[i].0 <= tick
        invariant forall i :: high <= i < |events| ==> events[i].0 > tick
      {
        var middle := (low + high) / 2;
        if events[middle].0 <= tick { low := middle + 1; } else { high := middle; }
      }
      p := low;
      PositionIsUnique(events, tick, p);
    }

    /** What one tick has to apply, in list order. */
    method EventsAt(tick: u64) returns (r: seq<Event>)
      ensures r == At(events, tick)
    {
      r := [];
      for i := 0 to |events|
        invariant r + At(events[i..], tick) == At(events, tick)
      {
        if events[i].0 == tick {
          r := r + [events[i].1];
        }
      }
    }
  }

  /** The events stamped with one tick, in order. */
  function At(events: seq<Stamped>, tick: u64): seq<Event>
  {
    if events == [] then []
    else (if events[0].0 == tick then [events[0].1] else []) + At(events[1..], tick)
  }

  lemma Associates<T>(a: seq<T>, b: seq<T>, c: seq<T>)
    ensures a + b + c == a + (b + c)
  {
  }

  lemma {:induction false} AtConcat(a: seq<Stamped>, b: seq<Stamped>, tick: u64)
    ensures At(a + b, tick) == At(a, tick) + At(b, tick)
  {
    if a == [] {
      assert a + b == b;
    } else {
      AtConcat(a[1..], b, tick);
      assert (a + b)[0] == a[0] && (a + b)[1..] == a[1..] + b;
      Associates(if a[0].0 == tick then [a[0].1] else [], At(a[1..], tick), At(b, tick));
    }
  }

  lemma {:induction false} AtNothing(events: seq<Stamped>, tick: u64)
    requires forall i :: 0 <= i < |events| ==> events[i].0 != tick
    ensures At(events, tick) == []
  {
    if events != [] {
      AtNothing(events[1..], tick);
    }
  }

  lemma {:induction false} AtSomething(events: seq<Stamped>, i: nat)
    requires i < |events|
    ensures At(events, events[i].0) != []
  {
    if i > 0 {
      AtSomething(events[1..], i - 1);
    }
  }

  /** After the insertion point, everything is later. */
  lemma LaterFromPosition(events: seq<Stamped>, tick: u64)
    requires Sorted(events)
    ensures forall i :: Position(events, tick) <= i < |events| ==> events[i].0 > tick
  {
  }

  lemma InsertSorts(events: seq<Stamped>, tick: u64, event: Event)
    requires Sorted(events)
    ensures Sorted(Insert(events, tick, event))
  {
    LaterFromPosition(events, tick);
  }

  /** An insertion comes after everything already stamped with its tick, and leaves every
      other tick alone. */
  lemma InsertAppendsAt(events: seq<Stamped>, tick: u64, event: Event, t: u64)
    requires Sorted(events)
    ensures At(Insert(events, tick, event), t) == At(events, t) + if t == tick then [event] else []
  {
    var p := Position(events, tick);
    var before, one, after := events[..p], [(tick, event)], events[p..];
    LaterFromPosition(events, tick);
    assert events == before + after;
    AtOne(tick, event, t);
    if t == tick {
      AtNothing(after, t);
    }
    AtMiddle(before, one, after, t);
  }

  lemma AtOne(tick: u64, event: Event, t: u64)
    ensures At([(tick, event)], t) == if t == tick then [event] else []
  {
  }

  /** Slipping something in before events of other ticks appends it at its own. */
  lemma AtMiddle(a: seq<Stamped>, b: seq<Stamped>, c: seq<Stamped>, t: u64)
    requires At(b, t) == [] || At(c, t) == []
    ensures At(a + b + c, t) == At(a + c, t) + At(b, t)
  {
    AtConcat(a + b, c, t);
    AtConcat(a, b, t);
    AtConcat(a, c, t);
    assert At(a, t) + At(b, t) + At(c, t) == At(a, t) + At(c, t) + At(b, t);
  }

  /** A whole sequence of pushes. */
  function PushAll(log: Log, pushes: seq<Stamped>): Log
    requires forall i :: 0 <= i < |pushes| ==> pushes[i].0 < U64_MAX
  {
    if pushes == [] then log
    else
      var last := pushes[|pushes| - 1];
      Pushed(PushAll(log, pushes[..|pushes| - 1]), last.0, last.1)
  }

  /** Where the run must end to cover every event. */
  function EndOf(start: u64, pushes: seq<Stamped>): nat
  {
    if pushes == [] then start else Max(EndOf(start, pushes[..|pushes| - 1]), pushes[|pushes| - 1].0 as int + 1)
  }

  /** Any sequence of pushes leaves the stable sort of what was pushed: a sorted list whose
      events at each tick are the pushed ones, in push order. */
  lemma {:induction false} PushesSortStably(ticks: u64, pushes: seq<Stamped>)
    requires forall i :: 0 <= i < |pushes| ==> pushes[i].0 < U64_MAX
    ensures var log := PushAll(Log([], ticks), pushes);
            && Sorted(log.events)
            && (forall t: u64 :: At(log.events, t) == At(pushes, t))
            && log.ticks == EndOf(ticks, pushes)
  {
    if pushes != [] {
      var front, last := pushes[..|pushes| - 1], pushes[|pushes| - 1];
      PushesSortStably(ticks, front);
      var before := PushAll(Log([], ticks), front);
      InsertSorts(before.events, last.0, last.1);
      forall t: u64
        ensures At(PushAll(Log([], ticks), pushes).events, t) == At(pushes, t)
      {
        InsertAppendsAt(before.events, last.0, last.1, t);
        AtConcat(front, [last], t);
        assert pushes == front + [last];
        assert At([last], t) == if t == last.0 then [last.1] else [];
      }
    }
  }

  /** Those two facts leave only one list, so it is the stable sort and no other. */
  lemma {:induction false} SortedListIsDetermined(a: seq<Stamped>, b: seq<Stamped>)
    requires Sorted(a) && Sorted(b) && forall t: u64 :: At(a, t) == At(b, t)
    ensures a == b
  {
    if a == [] || b == [] {
      if a != [] { AtSomething(a, 0); }
      if b != [] { AtSomething(b, 0); }
    } else {
      FirstTickAppears(a, b);
      FirstTickAppears(b, a);
      var t := a[0].0;
      assert At(a, t)[0] == a[0].1 && At(b, t)[0] == b[0].1;
      forall u: u64
        ensures At(a[1..], u) == At(b[1..], u)
      {
        assert At(a, u) == (if u == t then [a[0].1] else []) + At(a[1..], u);
        assert At(b, u) == (if u == t then [a[0].1] else []) + At(b[1..], u);
        assert At(a, u) == At(b, u);
        if u == t {
          assert At(a, u)[1..] == At(a[1..], u) && At(b, u)[1..] == At(b[1..], u);
        } else {
          assert At(a, u) == At(a[1..], u) && At(b, u) == At(b[1..], u);
        }
      }
      SortedListIsDetermined(a[1..], b[1..]);
    }
  }

  lemma FirstTickAppears(a: seq<Stamped>, b: seq<Stamped>)
    requires a != [] && b != [] && Sorted(b) && forall t: u64 :: At(a, t) == At(b, t)
    ensures b[0].0 <= a[0].0
  {
    AtSomething(a, 0);
    if b[0].0 > a[0].0 {
      AtNothing(b, a[0].0);
    }
  }
}
