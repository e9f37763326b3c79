/** The panel driver (crates/oc-drivers/src/panel.rs): pin sampling, and detents held
    for the engine between its polls. */
module Panel {
  import opened Ints
  import opened Platform
  import opened Encoder

  datatype Polarity = ActiveLow | ActiveHigh {
    predicate IsActive(high: bool) { match this case ActiveLow => !high case ActiveHigh => high }
  }

  /** Both lines of one encoder, as one sampling finds them; a line that could not be read
      is `None`. */
  datatype LinePair = LinePair(a: Option<bool>, b: Option<bool>) {
    predicate Readable() { a.Some? && b.Some? }
    function Packed(): Lines requires Readable() { Pack(a.value, b.value) }
  }

  type EncoderPins = s: seq<LinePair> | |s| == ENCODERS witness [LinePair(None, None), LinePair(None, None)]
  type ButtonPins = s: seq<Option<bool>> | |s| == BUTTONS witness [None, None, None, None]

  class Panel {
    const decoders: seq<QuadratureDecoder>
    var pending: Detents
    var held: Flags
    const polarity: Polarity
    var readFailures: u32

    ghost predicate Valid()
    {
      |decoders| == ENCODERS && decoders[0] != decoders[1]
    }

    /** One encoder's decoder and the detents not yet polled. */
    ghost function Channel(i: nat): (DecoderState, i8)
      requires Valid() && i < ENCODERS
      reads this, decoders
    {
      (decoders[i].State(), pending[i])
    }

    constructor (polarity: Polarity)
      ensures Valid() && Channel(0) == Channel(1) == (AT_REST, 0)
      ensures held == NO_FLAGS && readFailures == 0 && this.polarity == polarity
    {
      var left := new QuadratureDecoder();
      var right := new QuadratureDecoder();
      decoders := [left, right];
      pending, held, readFailures := NO_DETENTS, NO_FLAGS, 0;
      this.polarity := polarity;
    }

    /** Reads every pin once.  A pin that cannot be read leaves its encoder or
        button as it was. */
    method Sample(encoders: EncoderPins, buttons: ButtonPins)
      requires Valid()
      modifies this, decoders
      ensures forall i :: 0 <= i < ENCODERS ==> Channel(i) == Sampled(old(Channel(i)), encoders[i])
      ensures forall i :: 0 <= i < BUTTONS ==>
                held[i] == if buttons[i].None? then old(held[i]) else buttons[i].value == polarity.ActiveHigh?
      ensures readFailures == SatAdd32(SatAdd32(old(readFailures), FailedPairs(encoders, ENCODERS)),
                                       FailedPins(buttons, BUTTONS))
    {
      SampleEncoders(encoders);
      SampleButtons(buttons);
    }

    method SampleEncoders(encoders: EncoderPins)
      requires Valid()
      modifies `pending, `readFailures, decoders
      ensures forall i :: 0 <= i < ENCODERS ==> Channel(i) == Sampled(old(Channel(i)), encoders[i])
      ensures readFailures == SatAdd32(old(readFailures), FailedPairs(encoders, ENCODERS))
    {
      for i := 0 to ENCODERS
        invariant readFailures == SatAdd32(old(readFailures), FailedPairs(encoders, i))
        invariant forall j :: 0 <= j < i ==> Channel(j) == Sampled(old(Channel(j)), encoders[j])
        invariant forall j :: i <= j < ENCODERS ==> Channel(j) == old(Channel(j))
      {
        if encoders[i].Readable() {
          var detents := decoders[i].Update(encoders[i].a.value, encoders[i].b.value);
          if detents != 0 {
            pending := pending[i := SatAdd8(pending[i], detents)];
          }
        } else {
          readFailures := SatAdd32(readFailures, 1);
        }
      }
    }

    method SampleButtons(buttons: ButtonPins)
      modifies `held, `readFailures
      ensures forall i :: 0 <= i < BUTTONS ==>
                held[i] == if buttons[i].None? then old(held[i]) else buttons[i].value == polarity.ActiveHigh?
      ensures readFailures == SatAdd32(old(readFailures), FailedPins(buttons, BUTTONS))
    {
      for i := 0 to BUTTONS
        invariant readFailures == SatAdd32(old(readFailures), FailedPins(buttons, i))
        invariant forall j :: 0 <= j < i ==>
                    held[j] == if buttons[j].Some? then polarity.IsActive(buttons[j].value) else old(held[j])
        invariant forall j :: i <= j < BUTTONS ==> held[j] == old(held[j])
      {
        match buttons[i]
        case Some(high) => held := held[i := polarity.IsActive(high)];
        case None => readFailures := SatAdd32(readFailures, 1);
      }
    }

    /** Hands over the detents gathered since the last poll, and the levels as they stand. */
    method Poll() returns (events: ControlEvents)
      requires Valid()
      modifies `pending
      ensures events == ControlEvents(old(pending), held)
      ensures forall i :: 0 <= i < ENCODERS ==> Channel(i) == (old(Channel(i)).0, 0)
    {
      events := ControlEvents(pending, held);
      pending := NO_DETENTS;
    }
  }

  function FailedPairs(encoders: EncoderPins, n: nat): (f: nat)
    requires n <= ENCODERS
    ensures f <= n
  {
    if n == 0 then 0 else FailedPairs(encoders, n - 1) + if encoders[n - 1].Readable() then 0 else 1
  }

  function FailedPins(buttons: ButtonPins, n: nat): (f: nat)
    requires n <= BUTTONS
    ensures f <= n
  {
    if n == 0 then 0 else FailedPins(buttons, n - 1) + if buttons[n - 1].Some? then 0 else 1
  }

  /** What one sampling does to one encoder's decoder and pending detents. */
  function Sampled(c: (DecoderState, i8), pair: LinePair): (DecoderState, i8)
  {
    if pair.Readable() then
      var (d, detents) := Decode(c.0, pair.Packed());
      (d, SatAdd8(c.1, detents))
    else c
  }

  /** A failure is one for every encoder with a line that could not be read, and one for every
      such button. */
  lemma FailuresAreCounted(encoders: EncoderPins, buttons: ButtonPins)
    ensures FailedPairs(encoders, ENCODERS)
         == Unread(encoders[0].a.None? || encoders[0].b.None?) + Unread(encoders[1].a.None? || encoders[1].b.None?)
    ensures FailedPins(buttons, BUTTONS)
         == Unread(buttons[0].None?) + Unread(buttons[1].None?) + Unread(buttons[2].None?) + Unread(buttons[3].None?)
  {
    assert FailedPairs(encoders, 1) == FailedPairs(encoders, 0) + Unread(!encoders[0].Readable());
    assert FailedPins(buttons, 1) == FailedPins(buttons, 0) + Unread(buttons[0].None?);
    assert FailedPins(buttons, 2) == FailedPins(buttons, 1) + Unread(buttons[1].None?);
    assert FailedPins(buttons, 3) == FailedPins(buttons, 2) + Unread(buttons[2].None?);
  }

  function Unread(failed: bool): nat { if failed then 1 else 0 }

  // ----- Conservation of detents over a whole run -----

  /** What happens to one encoder: a sampling, or a poll by the engine. */
  datatype PanelStep = Sampling(pair: LinePair) | Polling

  /** The longest stretch of samplings whose detents are certain to fit the pending count. */
  const SAFE_STRETCH := 508

  /** One encoder over a run: its decoder, the detents pending, the detents reported so far,
      and the samplings since the last poll. */
  datatype PanelRun = PanelRun(decoder: DecoderState, pending: i8, reported: int, unpolled: nat)

  function PanelAfter(steps: seq<PanelStep>): PanelRun
  {
    if steps == [] then PanelRun(AT_REST, 0, 0, 0)
    else
      var r := PanelAfter(steps[..|steps| - 1]);
      match steps[|steps| - 1]
      case Polling => PanelRun(r.decoder, 0, r.reported + r.pending, 0)
      case Sampling(pair) =>
        var (d, pending) := Sampled((r.decoder, r.pending), pair);
        PanelRun(d, pending, r.reported, r.unpolled + 1)
  }

  /** The line states of the samplings that could be read. */
  function ReadLines(steps: seq<PanelStep>): seq<Lines>
  {
    if steps == [] then []
    else
      var last := steps[|steps| - 1];
      ReadLines(steps[..|steps| - 1]) +
        if last.Sampling? && last.pair.Readable() then [last.pair.Packed()] else []
  }

  ghost predicate PolledOftenEnough(steps: seq<PanelStep>)
  {
    forall n :: 0 <= n <= |steps| ==> PanelAfter(steps[..n]).unpolled <= SAFE_STRETCH
  }

  /** Detents pending after `n` samplings since a poll, and why they cannot overflow: four
      samplings buy at most one detent, plus the one a poll may have found nearly done. */
  ghost predicate WithinStretch(r: PanelRun)
  {
    && 4 * r.pending + Max(r.decoder.accumulator, 0) <= r.unpolled + 3
    && -4 * r.pending + Max(-r.decoder.accumulator, 0) <= r.unpolled + 3
  }

  lemma SampleStaysWithinStretch(r: PanelRun, pair: LinePair)
    requires WithinStretch(r) && r.unpolled < SAFE_STRETCH
    ensures var (d, pending) := Sampled((r.decoder, r.pending), pair);
            && WithinStretch(PanelRun(d, pending, r.reported, r.unpolled + 1))
            && pending == r.pending + if pair.Readable() then Decode(r.decoder, pair.Packed()).1 else 0
  {
  }

  /** When no more than 508 samplings separate two polls, no detent is ever lost: what the
      polls reported plus what is pending is what the decoder saw in the readable samples. */
  lemma {:induction false} PanelLosesNoDetent(steps: seq<PanelStep>)
    requires PolledOftenEnough(steps)
    ensures var r := PanelAfter(steps);
            && r.reported + r.pending == Total(ReadLines(steps))
            && r.decoder == DecoderAfter(ReadLines(steps))
            && WithinStretch(r)
  {
    if steps == [] {
    } else {
      var prefix, last := steps[..|steps| - 1], steps[|steps| - 1];
      assert steps[..|steps|] == steps;
      forall n | 0 <= n <= |prefix|
        ensures PanelAfter(prefix[..n]).unpolled <= SAFE_STRETCH
      {
        assert prefix[..n] == steps[..n];
      }
      PanelLosesNoDetent(prefix);
      var r := PanelAfter(prefix);
      assert PanelAfter(steps).unpolled <= SAFE_STRETCH;
      if last.Sampling? {
        SampleStaysWithinStretch(r, last.pair);
        if last.pair.Readable() {
          DecodedAppend(ReadLines(prefix), last.pair.Packed());
          assert ReadLines(steps) == ReadLines(prefix) + [last.pair.Packed()];
        } else {
          assert ReadLines(steps) == ReadLines(prefix);
        }
      } else {
        assert ReadLines(steps) == ReadLines(prefix);
      }
    }
  }

  // ----- A knob that is turned -----

  function Both(a: bool, b: bool): PanelStep { Sampling(LinePair(Some(a), Some(b))) }

  /** The samplings of `n` detents of one knob, line A before line B when it turns clockwise. */
  function Turned(n: nat, clockwise: bool): seq<PanelStep>
  {
    if n == 0 then []
    else
      Turned(n - 1, clockwise)
      + [Both(clockwise, !clockwise)] + [Both(true, true)] + [Both(!clockwise, clockwise)] + [Both(false, false)]
  }

  lemma ReadOneMore(steps: seq<PanelStep>, a: bool, b: bool)
    ensures ReadLines(steps + [Both(a, b)]) == ReadLines(steps) + [Pack(a, b)]
    ensures PanelAfter(steps + [Both(a, b)]).reported == PanelAfter(steps).reported
  {
    assert (steps + [Both(a, b)])[..|steps|] == steps;
  }

  lemma ReadFourMore(steps: seq<PanelStep>, clockwise: bool)
    ensures var more :=
              steps + [Both(clockwise, !clockwise)] + [Both(true, true)] + [Both(!clockwise, clockwise)] + [Both(false, false)];
            && ReadLines(more)
               == ReadLines(steps)
                  + [Pack(clockwise, !clockwise)] + [Pack(true, true)] + [Pack(!clockwise, clockwise)] + [Pack(false, false)]
            && PanelAfter(more).reported == PanelAfter(steps).reported && |more| == |steps| + 4
  {
    var a, b, c := Both(clockwise, !clockwise), Both(true, true), Both(!clockwise, clockwise);
    ReadOneMore(steps, clockwise, !clockwise);
    ReadOneMore(steps + [a], true, true);
    ReadOneMore(steps + [a] + [b], !clockwise, clockwise);
    ReadOneMore(steps + [a] + [b] + [c], false, false);
  }

  lemma {:induction false} TurnedLines(n: nat, clockwise: bool)
    ensures ReadLines(Turned(n, clockwise)) == Turning(n, clockwise) && |Turned(n, clockwise)| == 4 * n
    ensures PanelAfter(Turned(n, clockwise)).reported == 0
  {
    if n > 0 {
      TurnedLines(n - 1, clockwise);
      ReadFourMore(Turned(n - 1, clockwise), clockwise);
    }
  }

  lemma {:induction false} UnpolledIsCounted(steps: seq<PanelStep>)
    ensures PanelAfter(steps).unpolled <= |steps|
  {
    if steps != [] {
      UnpolledIsCounted(steps[..|steps| - 1]);
    }
  }

  /** A knob turned by so many detents is pending as so many for the next poll: up when it was turned
      clockwise, and down when it was turned the other way. */
  lemma TurnsArePending(n: nat, clockwise: bool)
    requires 4 * n <= SAFE_STRETCH
    ensures PanelAfter(Turned(n, clockwise)).pending == Toward(n, clockwise)
  {
    var steps := Turned(n, clockwise);
    TurnedLines(n, clockwise);
    forall k | 0 <= k <= |steps|
      ensures PanelAfter(steps[..k]).unpolled <= SAFE_STRETCH
    {
      UnpolledIsCounted(steps[..k]);
    }
    PanelLosesNoDetent(steps);
    TurnsAreReported(n, clockwise);
  }
}
