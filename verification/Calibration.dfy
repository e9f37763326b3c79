/** Conversions between converter codes and millivolts (crates/oc-core/src/calibration.rs). */
module Calibration {
  import opened Ints
  import opened Platform

  const ADC_CODES := 4096
  const ADC_CODE_MAX := ADC_CODES - 1
  const DAC_CODE_MAX := 65535
  const CV_IN_MIN_MV := -5000
  const CV_IN_MAX_MV := 5000
  const MICRO := 1_000_000

  // ----- Rounded division -----

  /** Operands for which the rounded division stays inside `i64`. */
  predicate Fits(n: int, d: int)
  {
    d != 0 && Abs(n) <= 0x4000_0000_0000_0000 && Abs(d) <= 0x8000_0000
  }

  /** The nearest integer to a quotient, by truncating division of a numerator moved half a
      divisor away from zero. */
  function DivRoundNearest(n: int, d: int): int
    requires Fits(n, d)
  {
    var half := if d < 0 then -(-d / 2) else d / 2;
    if (n < 0) == (d < 0) then
      var shifted: i64 := n + half;
      TruncDiv(shifted, d)
    else
      var shifted: i64 := n - half;
      TruncDiv(shifted, d)
  }

  // Multiplication facts, one at a time.

  lemma MulOrder(a: int, b: int, c: int)
    requires a <= b
    ensures c >= 0 ==> a * c <= b * c
    ensures c <= 0 ==> b * c <= a * c
  {
    assert (b - a) * c == b * c - a * c;
    if c >= 0 {
      assert (b - a) * c >= 0;
    } else {
      assert (b - a) * -c >= 0;
      assert (b - a) * -c == -((b - a) * c);
    }
  }

  lemma SignedProduct(p: int, b: int)
    ensures (-p) * b == -(p * b) && p * (-b) == -(p * b) && (-p) * (-b) == p * b
  {
  }

  /** `q` is a nearest integer to `n / d`. */
  ghost predicate Nearest(n: int, d: int, q: int)
  {
    2 * Abs(n - q * d) <= Abs(d)
  }

  lemma QuotientBounds(n: nat, d: int)
    requires d > 0
    ensures n / d * d <= n < n / d * d + d
  {
    assert n == d * (n / d) + n % d;
  }

  /** Non-negative operands, the case the other three reduce to by symmetry. */
  lemma RoundsPositive(n: nat, d: int)
    requires d > 0
    ensures Nearest(n, d, (n + d / 2) / d)
    ensures 2 * (n - (n + d / 2) / d * d) < d
  {
    QuotientBounds(n + d / 2, d);
  }

  /** Rounding ignores the signs of its operands except for the sign of the result. */
  lemma RoundsMagnitudes(n: int, d: int)
    requires Fits(n, d)
    ensures var p := (Abs(n) + Abs(d) / 2) / Abs(d);
            DivRoundNearest(n, d) == if (n < 0) == (d < 0) then p else -p
  {
    var half := if d < 0 then -(-d / 2) else d / 2;
    var shifted := if (n < 0) == (d < 0) then n + half else n - half;
    assert Abs(shifted) == Abs(n) + Abs(d) / 2;
    if n == 0 {
      HalfRoundsDown(Abs(d));
    } else {
      assert (shifted < 0) == (n < 0);
    }
  }

  lemma HalfRoundsDown(d: int)
    requires d > 0
    ensures d / 2 / d == 0
  {
  }

  /** The result is a nearest integer, and a tie goes to the one farther from zero. */
  lemma RoundsToNearest(n: int, d: int)
    requires Fits(n, d)
    ensures var q := DivRoundNearest(n, d);
            Nearest(n, d, q) && (2 * Abs(n - q * d) == Abs(d) ==> Abs(q * d) > Abs(n))
  {
    var b := Abs(d);
    var p := (Abs(n) + b / 2) / b;
    RoundsMagnitudes(n, d);
    RoundsPositive(Abs(n), b);
    SignedProduct(p, b);
    var m := p * b;
    var q := DivRoundNearest(n, d);
    assert q * d == if n < 0 then -m else m;
  }

  lemma NegatedDivisor(n: int, d: int)
    requires Fits(n, d)
    ensures DivRoundNearest(n, -d) == -DivRoundNearest(n, d)
  {
    RoundsMagnitudes(n, d);
    RoundsMagnitudes(n, -d);
    if n == 0 {
      HalfRoundsDown(Abs(d));
    }
  }

  /** Nearest integers to ordered quotients are ordered, unless the quotients are equal. */
  lemma NearestOrder(m: int, n: int, d: int, p: int, q: int)
    requires d > 0 && m < n && Nearest(m, d, p) && Nearest(n, d, q)
    ensures p <= q
  {
    MulOrder(q + 1, Max(p, q + 1), d);
    assert (q + 1) * d == q * d + d;
  }

  lemma RoundingIsMonotone(m: int, n: int, d: int)
    requires Fits(m, d) && Fits(n, d) && d > 0 && m <= n
    ensures DivRoundNearest(m, d) <= DivRoundNearest(n, d)
  {
    RoundsToNearest(m, d);
    RoundsToNearest(n, d);
    if m < n {
      NearestOrder(m, n, d, DivRoundNearest(m, d), DivRoundNearest(n, d));
    }
  }

  lemma MultiplesAreApart(q: int, k: int, d: int)
    requires q != k
    ensures Abs(q * d - k * d) >= Abs(d)
  {
    assert (q - k) * d == q * d - k * d;
    if q > k {
      MulOrder(1, q - k, d);
    } else {
      MulOrder(q - k, -1, d);
    }
  }

  lemma NotBothNear(n: int, a: int, b: int, d: nat)
    requires Abs(a - b) >= d && 2 * Abs(n - a) <= d
    ensures 2 * Abs(n - b) >= d
  {
  }

  /** Two integers, one nearest and one strictly nearer than half the divisor, agree. */
  lemma NearestAgree(n: int, d: int, q: int, k: int)
    requires d != 0 && Nearest(n, d, q) && 2 * Abs(n - k * d) < Abs(d)
    ensures q == k
  {
    if q != k {
      MultiplesAreApart(q, k, d);
      NotBothNear(n, q * d, k * d, Abs(d));
    }
  }

  /** An integer strictly nearer the quotient than a half is the result. */
  lemma NearestIsUnique(n: int, d: int, k: int)
    requires Fits(n, d) && 2 * Abs(n - k * d) < Abs(d)
    ensures DivRoundNearest(n, d) == k
  {
    RoundsToNearest(n, d);
    NearestAgree(n, d, DivRoundNearest(n, d), k);
  }

  // ----- CV inputs -----

  /** `millivolts = (code - zero) * slope / 1_000_000`, the slope in nanovolts per code. */
  datatype InputCalibration = InputCalibration(zero: i32, slope: i32) {
    /** `code - zero` is computed in `i32`, and panics when it does not fit. */
    predicate Reads(code: u16) { Clamp(code, 0, ADC_CODE_MAX) - zero <= I32_MAX }

    predicate Safe() { zero >= ADC_CODE_MAX - I32_MAX }

    /** The level a code stands for, before it is clamped to the input range. */
    function Level(code: int): int
      requires 0 <= code <= ADC_CODE_MAX && code - zero <= I32_MAX
    {
      var offset: i32 := code - zero;
      ProductFits(offset, slope);
      DivRoundNearest(offset * slope, MICRO)
    }

    function ToMillivolts(code: u16): MilliVolts
      requires Reads(code)
    {
      Clamp(Level(Clamp(code, 0, ADC_CODE_MAX)), CV_IN_MIN_MV, CV_IN_MAX_MV)
    }

    /** The code for a level, before it is clamped to the converter. */
    function Code(millivolts: MilliVolts): int
      requires slope != 0
    {
      zero + DivRoundNearest(millivolts * MICRO, slope)
    }

    function ToCode(millivolts: MilliVolts): u16
    {
      if slope == 0 then 0 else Clamp(Code(millivolts), 0, ADC_CODE_MAX)
    }

    function StepMillivolts(): int
    {
      var step := DivRoundNearest(Abs(slope), MICRO);
      if step == 0 then 1 else step
    }

    function Inverted(): InputCalibration { InputCalibration(zero, if slope == -0x8000_0000 then slope else -slope) }
  }

  lemma ProductFits(a: i32, b: i32)
    ensures Abs(a * b) <= 0x4000_0000_0000_0000
  {
    MulOrder(a, 0x8000_0000, b);
    MulOrder(-0x8000_0000, a, b);
  }

  const NOMINAL_INPUT := InputCalibration(ADC_CODES / 2, 10000 * MICRO / ADC_CODES)

  /** A level is the exact proportion rounded to the nearest millivolt, and held to +-5 V; codes
      beyond twelve bits count as the last. */
  lemma InputLevelIsNearest(c: InputCalibration, code: u16)
    requires c.Reads(code)
    ensures var k := Min(code, 4095);
            && c.ToMillivolts(code) == Clamp(c.Level(k), -5000, 5000)
            && 2 * Abs(1_000_000 * c.Level(k) - (k - c.zero) * c.slope) <= 1_000_000
  {
    var k := Clamp(code, 0, ADC_CODE_MAX);
    ProductFits(k - c.zero, c.slope);
    RoundsToNearest((k - c.zero) * c.slope, MICRO);
  }

  /** And a code the proportion the other way, rounded, and held to twelve bits. */
  lemma InputCodeIsNearest(c: InputCalibration, mv: MilliVolts)
    requires c.slope != 0
    ensures c.ToCode(mv) == Clamp(c.Code(mv), 0, 4095)
    ensures 2 * Abs(mv * 1_000_000 - (c.Code(mv) - c.zero) * c.slope) <= Abs(c.slope)
  {
    RoundsToNearest(mv * MICRO, c.slope);
  }

  /** The nominal calibration puts the ends of the converter at the ends of the range: the first
      code at -5 V, and on the inverted board at +5 V. */
  lemma NominalInputEnds()
    ensures NOMINAL_INPUT == InputCalibration(2048, 2_441_406) && NOMINAL_INPUT.Inverted() == InputCalibration(2048, -2_441_406)
    ensures NOMINAL_INPUT.ToMillivolts(0) == -5000 && NOMINAL_INPUT.ToMillivolts(2048) == 0
    ensures NOMINAL_INPUT.ToMillivolts(4095) == 4998
    ensures NOMINAL_INPUT.Inverted().ToMillivolts(0) == 5000 && NOMINAL_INPUT.Inverted().ToMillivolts(4095) == -4998
  {
    RoundsMagnitudes(-2048 * 2_441_406, MICRO);
    RoundsMagnitudes(0 * 2_441_406, MICRO);
    RoundsMagnitudes(2047 * 2_441_406, MICRO);
    RoundsMagnitudes(-2048 * -2_441_406, MICRO);
    RoundsMagnitudes(2047 * -2_441_406, MICRO);
  }

  /** Level to code to level, for any slope of either sign, whenever the code is in range:
      the error is at most half a code and half a millivolt, and never more than the
      advertised step. */
  lemma InputRoundTripError(c: InputCalibration, mv: MilliVolts)
    requires c.slope != 0 && CV_IN_MIN_MV <= mv <= CV_IN_MAX_MV
    requires 0 <= c.Code(mv) <= ADC_CODE_MAX && c.Reads(c.ToCode(mv))
    ensures var error := Abs(c.ToMillivolts(c.ToCode(mv)) - mv);
            2 * MICRO * error <= Abs(c.slope) + MICRO && error <= c.StepMillivolts()
  {
    var code := c.Code(mv);
    var level, nanovolts := c.Level(code), (code - c.zero) * c.slope;
    CodeIsNearest(c, mv);
    LevelIsNearest(c, code);
    ErrorsAdd(mv, nanovolts, level, Abs(c.slope));
    StepCoversError(c, Abs(level - mv));
    assert c.ToMillivolts(c.ToCode(mv)) == Clamp(level, CV_IN_MIN_MV, CV_IN_MAX_MV);
  }

  lemma CodeIsNearest(c: InputCalibration, mv: MilliVolts)
    requires c.slope != 0
    ensures Nearest(mv * MICRO, c.slope, c.Code(mv) - c.zero)
  {
    RoundsToNearest(mv * MICRO, c.slope);
  }

  lemma LevelIsNearest(c: InputCalibration, code: int)
    requires 0 <= code <= ADC_CODE_MAX && code - c.zero <= I32_MAX
    ensures Nearest((code - c.zero) * c.slope, MICRO, c.Level(code))
  {
    ProductFits(code - c.zero, c.slope);
    RoundsToNearest((code - c.zero) * c.slope, MICRO);
  }

  lemma ErrorsAdd(mv: int, nanovolts: int, level: int, slope: nat)
    requires 2 * Abs(mv * MICRO - nanovolts) <= slope && 2 * Abs(nanovolts - level * MICRO) <= MICRO
    ensures 2 * MICRO * Abs(level - mv) <= slope + MICRO
  {
  }

  lemma StepCoversError(c: InputCalibration, error: nat)
    requires 2 * MICRO * error <= Abs(c.slope) + MICRO
    ensures error <= c.StepMillivolts()
  {
    RoundsMagnitudes(Abs(c.slope), MICRO);
  }

  /** Over the whole input range the nominal calibration and the inverted one the board
      uses stay within one step, even where the top code clamps. */
  lemma NominalInputWithinStep(mv: MilliVolts, inverted: bool)
    requires CV_IN_MIN_MV <= mv <= CV_IN_MAX_MV
    ensures var c := if inverted then NOMINAL_INPUT.Inverted() else NOMINAL_INPUT;
            c.Safe() && Abs(c.ToMillivolts(c.ToCode(mv)) - mv) <= c.StepMillivolts() == 2
  {
    var c := if inverted then NOMINAL_INPUT.Inverted() else NOMINAL_INPUT;
    RoundsMagnitudes(2441406, MICRO);
    RoundsToNearest(mv * MICRO, c.slope);
    var offset := DivRoundNearest(mv * MICRO, c.slope);
    assert -2048 <= offset <= 2048;
    if offset == 2048 {
      RoundsToNearest(2047 * c.slope, MICRO);
    } else {
      InputRoundTripError(c, mv);
    }
  }

  /** Reading codes is monotone in the direction of the slope ... */
  lemma InputLevelsMonotone(c: InputCalibration, a: u16, b: u16)
    requires a <= b && c.Reads(b)
    ensures c.slope >= 0 ==> c.ToMillivolts(a) <= c.ToMillivolts(b)
    ensures c.slope <= 0 ==> c.ToMillivolts(a) >= c.ToMillivolts(b)
  {
    var p, q := Clamp(a, 0, ADC_CODE_MAX) - c.zero, Clamp(b, 0, ADC_CODE_MAX) - c.zero;
    ProductFits(p, c.slope);
    ProductFits(q, c.slope);
    MulOrder(p, q, c.slope);
    if c.slope >= 0 {
      RoundingIsMonotone(p * c.slope, q * c.slope, MICRO);
    }
    if c.slope <= 0 {
      RoundingIsMonotone(q * c.slope, p * c.slope, MICRO);
    }
  }

  /** ... and so is choosing them. */
  lemma InputCodesMonotone(c: InputCalibration, a: MilliVolts, b: MilliVolts)
    requires a <= b
    ensures c.slope > 0 ==> c.ToCode(a) <= c.ToCode(b)
    ensures c.slope < 0 ==> c.ToCode(a) >= c.ToCode(b)
  {
    if c.slope > 0 {
      RoundingIsMonotone(a * MICRO, b * MICRO, c.slope);
    } else if c.slope < 0 {
      var d: int := c.slope;
      RoundingIsMonotone(a * MICRO, b * MICRO, -d);
      NegatedDivisor(a * MICRO, d);
      NegatedDivisor(b * MICRO, d);
    }
  }

  /** The input step is documented as rounded up but is rounded to nearest; it is the
      rounded-up step exactly for these slopes. */
  lemma InputStepIsRoundedUpIff(c: InputCalibration)
    ensures var slope := Abs(c.slope);
            (c.StepMillivolts() == Max(1, (slope + MICRO - 1) / MICRO)) <==>
            (slope < MICRO || slope % MICRO == 0 || slope % MICRO >= MICRO / 2)
  {
    RoundsMagnitudes(Abs(c.slope), MICRO);
  }

  /** Reading a code never panics exactly when the zero code is not too far below zero. */
  lemma InputNeverPanicsIff(c: InputCalibration)
    ensures (forall code: u16 :: c.Reads(code)) <==> c.Safe()
  {
    assert c.Reads(ADC_CODE_MAX) <==> c.Safe();
  }

  // ----- CV outputs -----

  /** `code = zero + millivolts * slope / 1_000_000`, the slope in thousandths of a code
      per volt. */
  datatype OutputCalibration = OutputCalibration(zero: i32, slope: i32) {
    /** `code - zero` is computed in `i32`, and panics when it does not fit. */
    predicate Reads(code: u16) { slope == 0 || code - zero <= I32_MAX }

    predicate Safe() { slope == 0 || zero >= DAC_CODE_MAX - I32_MAX }

    /** The code for a level in range, before it is clamped to the converter. */
    function Code(millivolts: int): int
      requires CV_OUT_MIN_MV <= millivolts <= CV_OUT_MAX_MV
    {
      ProductFits(millivolts, slope);
      zero + DivRoundNearest(millivolts * slope, MICRO)
    }

    function ToCode(millivolts: MilliVolts): u16
    {
      Clamp(Code(Clamp(millivolts, CV_OUT_MIN_MV, CV_OUT_MAX_MV)), 0, DAC_CODE_MAX)
    }

    function ToMillivolts(code: u16): MilliVolts
      requires Reads(code)
    {
      if slope == 0 then 0
      else
        var offset: i32 := code - zero;
        Clamp(DivRoundNearest(offset * MICRO, slope), CV_OUT_MIN_MV, CV_OUT_MAX_MV)
    }

    function StepMillivolts(): int
    {
      if slope == 0 then CV_OUT_MAX_MV else Max(1, TruncDiv(MICRO, Abs(slope)))
    }
  }

  /** A code is the exact proportion of the level, held to the output range, rounded to the nearest
      and held to sixteen bits. */
  lemma OutputCodeIsNearest(c: OutputCalibration, mv: MilliVolts)
    ensures var level := Clamp(mv, -3000, 6000);
            && c.ToCode(mv) == Clamp(c.Code(level), 0, 65535)
            && 2 * Abs(1_000_000 * (c.Code(level) - c.zero) - level * c.slope) <= 1_000_000
  {
    var level := Clamp(mv, CV_OUT_MIN_MV, CV_OUT_MAX_MV);
    ProductFits(level, c.slope);
    RoundsToNearest(level * c.slope, MICRO);
  }

  const NOMINAL_SLOPE := DAC_CODE_MAX * MICRO / 9000

  const NOMINAL_OUTPUT := OutputCalibration(DivRoundNearest(3000 * NOMINAL_SLOPE, MICRO), NOMINAL_SLOPE)

  /** The provisional calibration of the inverting board (crates/oc-firmware/src/board.rs). */
  const BOARD_OUTPUT := OutputCalibration(DAC_CODE_MAX - NOMINAL_OUTPUT.zero, -NOMINAL_SLOPE)

  lemma SmallOffset(mv: int, slope: i32)
    requires CV_OUT_MIN_MV <= mv <= CV_OUT_MAX_MV
    ensures Abs(mv * slope) <= CV_OUT_MAX_MV * 0x8000_0000
  {
    MulOrder(mv, CV_OUT_MAX_MV, slope);
    MulOrder(-CV_OUT_MAX_MV, mv, slope);
  }

  /** Level to code to level is exact as soon as a millivolt is at least a code, for either
      sign of the slope, wherever the code does not clamp. */
  lemma OutputRoundTripExact(c: OutputCalibration, mv: MilliVolts)
    requires Abs(c.slope) >= MICRO && CV_OUT_MIN_MV <= mv <= CV_OUT_MAX_MV
    requires 0 <= c.Code(mv) <= DAC_CODE_MAX
    ensures c.Reads(c.ToCode(mv)) && c.ToMillivolts(c.ToCode(mv)) == mv
  {
    ProductFits(mv, c.slope);
    RoundsToNearest(mv * c.slope, MICRO);
    var offset := c.Code(mv) - c.zero;
    var scaled := mv * c.slope;
    assert 2 * Abs(scaled - offset * MICRO) <= MICRO;
    SmallOffset(mv, c.slope);
    if Abs(c.slope) == MICRO {
      var k := if c.slope > 0 then mv else -mv;
      assert scaled == k * MICRO;
      NearestIsUnique(scaled, MICRO, k);
    }
    NearestIsUnique(offset * MICRO, c.slope, mv);
  }

  lemma NominalOutputNumbers()
    ensures NOMINAL_SLOPE == 7281666 && NOMINAL_OUTPUT.zero == 21845 && BOARD_OUTPUT.zero == 43690
  {
    NearestIsUnique(3000 * 7281666, MICRO, 21845);
  }

  /** The nominal calibration puts the ends of the range at the ends of the converter, and the
      board's the other way round. */
  lemma NominalOutputEnds()
    ensures NOMINAL_OUTPUT.ToCode(-3000) == 0 && NOMINAL_OUTPUT.ToCode(0) == 21845 && NOMINAL_OUTPUT.ToCode(6000) == 65535
    ensures BOARD_OUTPUT.ToCode(-3000) == 65535 && BOARD_OUTPUT.ToCode(1000) == 36408 && BOARD_OUTPUT.ToCode(6000) == 0
  {
    NominalOutputNumbers();
    RoundsMagnitudes(-3000 * 7_281_666, MICRO);
    RoundsMagnitudes(0 * 7_281_666, MICRO);
    RoundsMagnitudes(6000 * 7_281_666, MICRO);
    RoundsMagnitudes(-3000 * -7_281_666, MICRO);
    RoundsMagnitudes(1000 * -7_281_666, MICRO);
    RoundsMagnitudes(6000 * -7_281_666, MICRO);
  }

  /** The nominal calibration and the board's inverted one never clamp, so on them the
      round trip is exact over the whole output range. */
  lemma NominalOutputExact(mv: MilliVolts, inverted: bool)
    requires CV_OUT_MIN_MV <= mv <= CV_OUT_MAX_MV
    ensures var c := if inverted then BOARD_OUTPUT else NOMINAL_OUTPUT;
            0 <= c.Code(mv) <= DAC_CODE_MAX && c.Safe() && c.ToMillivolts(c.ToCode(mv)) == mv
  {
    NominalOutputNumbers();
    var c := if inverted then BOARD_OUTPUT else NOMINAL_OUTPUT;
    ProductFits(mv, c.slope);
    RoundsToNearest(mv * c.slope, MICRO);
    OutputRoundTripExact(c, mv);
  }

  lemma OutputCodesMonotone(c: OutputCalibration, a: MilliVolts, b: MilliVolts)
    requires a <= b
    ensures c.slope >= 0 ==> c.ToCode(a) <= c.ToCode(b)
    ensures c.slope <= 0 ==> c.ToCode(a) >= c.ToCode(b)
  {
    var p, q := Clamp(a, CV_OUT_MIN_MV, CV_OUT_MAX_MV), Clamp(b, CV_OUT_MIN_MV, CV_OUT_MAX_MV);
    ProductFits(p, c.slope);
    ProductFits(q, c.slope);
    MulOrder(p, q, c.slope);
    if c.slope >= 0 {
      RoundingIsMonotone(p * c.slope, q * c.slope, MICRO);
    }
    if c.slope <= 0 {
      RoundingIsMonotone(q * c.slope, p * c.slope, MICRO);
    }
  }

  /** The same for reading an output code back, which a flat calibration never does. */
  lemma OutputNeverPanicsIff(c: OutputCalibration)
    ensures (forall code: u16 :: c.Reads(code)) <==> c.Safe()
  {
    assert c.Reads(DAC_CODE_MAX) <==> c.Safe();
  }

  /** A calibration without a slope makes everything zero volts, and is told apart by its step on
      the output side. */
  lemma FlatCalibrations(zero: i32, mv: MilliVolts, code: u16)
    ensures InputCalibration(zero, 0).ToCode(mv) == 0 && InputCalibration(zero, 0).StepMillivolts() == 1
    ensures InputCalibration(zero, 0).Reads(code) ==> InputCalibration(zero, 0).ToMillivolts(code) == 0
    ensures OutputCalibration(zero, 0).ToCode(mv) == Clamp(zero, 0, 65535)
    ensures OutputCalibration(zero, 0).ToMillivolts(code) == 0 && OutputCalibration(zero, 0).StepMillivolts() == 6000
  {
    RoundsMagnitudes(0, MICRO);
  }

  /** The output step is documented as rounded up but is truncated; it is the rounded-up
      step exactly for these slopes. */
  lemma OutputStepIsRoundedUpIff(c: OutputCalibration)
    requires c.slope != 0
    ensures var slope := Abs(c.slope);
            (c.StepMillivolts() == (MICRO + slope - 1) / slope) <==> (slope >= MICRO || MICRO % slope == 0)
  {
    var slope := Abs(c.slope);
    var q := MICRO / slope;
    QuotientBounds(MICRO, slope);
    QuotientBounds(MICRO + slope - 1, slope);
    var up := (MICRO + slope - 1) / slope;
    assert MICRO == slope * q + MICRO % slope;
    if MICRO % slope == 0 {
      CeilingOf(slope, q, up);
    } else {
      CeilingOf(slope, q + 1, up);
    }
    assert slope >= MICRO ==> q <= 1;
    assert slope > MICRO ==> q == 0;
  }

  lemma CeilingOf(slope: int, q: int, up: int)
    requires slope > 0 && up * slope <= MICRO + slope - 1 < up * slope + slope
    requires q * slope - slope < MICRO <= q * slope
    ensures up == q
  {
    assert (q + 1) * slope == q * slope + slope && (up + 1) * slope == up * slope + slope;
    if up > q {
      MulOrder(q + 1, up, slope);
    } else if up < q {
      MulOrder(up + 1, q, slope);
    }
  }
}
