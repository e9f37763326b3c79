/** The panel, jack and clock vocabulary shared by every component
    (crates/oc-core/src/platform.rs). */
module Platform {
  import opened Ints

  const CV_CHANNELS := 4
  const TRIGGER_CHANNELS := 4
  const ENCODERS := 2
  const BUTTONS := 4

  type MilliVolts = i32

  datatype Button = LeftEncoder | RightEncoder | Up | Down {
    function Index(): (i: nat)
      ensures i < BUTTONS && ButtonOf(i) == this
    {
      match this
      case LeftEncoder => 0
      case RightEncoder => 1
      case Up => 2
      case Down => 3
    }
  }

  function ButtonOf(i: nat): Button
    requires i < BUTTONS
  {
    if i == 0 then LeftEncoder else if i == 1 then RightEncoder else if i == 2 then Up else Down
  }

  /** A fixed array of four: one entry per channel, trigger or button. */
  datatype Four<+T> = Four(one: T, two: T, three: T, four: T) {
    function At(i: nat): T
      requires i < 4
    {
      if i == 0 then one else if i == 1 then two else if i == 2 then three else four
    }
  }

  function With<T>(a: Four<T>, i: nat, value: T): (r: Four<T>)
    requires i < 4
    ensures forall j: nat :: j < 4 ==> r.At(j) == if j == i then value else a.At(j)
  {
    if i == 0 then a.(one := value) else if i == 1 then a.(two := value)
    else if i == 2 then a.(three := value) else a.(four := value)
  }

  type Levels = s: seq<MilliVolts> | |s| == CV_CHANNELS witness [0, 0, 0, 0]
  type Voltages = Four<MilliVolts>
  type Flags = s: seq<bool> | |s| == 4 witness [false, false, false, false]
  type Detents = s: seq<i8> | |s| == ENCODERS witness [0, 0]

  const NO_FLAGS: Flags := [false, false, false, false]
  const NO_LEVELS: Levels := [0, 0, 0, 0]
  const NO_DETENTS: Detents := [0, 0]

  /** What one poll of the panel yields: detents per encoder and a level per button. */
  datatype ControlEvents = ControlEvents(delta: Detents, down: Flags)

  const NO_CONTROLS := ControlEvents(NO_DETENTS, NO_FLAGS)

  const CV_OUT_MIN_MV: MilliVolts := -3000
  const CV_OUT_MAX_MV: MilliVolts := 6000

  predicate Driveable(level: MilliVolts) { CV_OUT_MIN_MV <= level <= CV_OUT_MAX_MV }

  predicate InOutputRange(v: Voltages)
  {
    Driveable(v.one) && Driveable(v.two) && Driveable(v.three) && Driveable(v.four)
  }

  function ClampOut(level: int): MilliVolts { Clamp(level, CV_OUT_MIN_MV, CV_OUT_MAX_MV) }
}
