/** Debouncing and chord arbitration of the four buttons (crates/oc-core/src/buttons.rs). */
module Buttons {
  import opened Ints
  import opened Platform
  import opened Debounce

  /** One flag per button. */
  datatype PerButton = PerButton(left: bool, right: bool, up: bool, down: bool) {
    predicate Of(b: Button)
    {
      match b
      case LeftEncoder => left
      case RightEncoder => right
      case Up => up
      case Down => down
    }
  }

  const NONE := PerButton(false, false, false, false)

  function ByButton(flags: Flags): PerButton
  {
    PerButton(flags[0], flags[1], flags[2], flags[3])
  }

  /** The report of one poll: actions, debounced levels, and whether the chord fired. */
  datatype ButtonEvents = ButtonEvents(pressed: PerButton, held: PerButton, menuChord: bool)

  const NO_BUTTONS := ButtonEvents(NONE, NONE, false)

  /** What is still owed for `up` and `down`, and whether a chord is standing. */
  datatype Arbiter = Arbiter(pendingUp: bool, pendingDown: bool, chordActive: bool)

  const IDLE := Arbiter(false, false, false)

  datatype Contacts = Contacts(left: DebouncerState, right: DebouncerState, up: DebouncerState, down: DebouncerState) {
    function Of(b: Button): DebouncerState
    {
      match b
      case LeftEncoder => left
      case RightEncoder => right
      case Up => up
      case Down => down
    }

    function Levels(): PerButton { PerButton(left.stable, right.stable, up.stable, down.stable) }

    function Sampled(raw: PerButton): Contacts
    {
      Contacts(Next(left, raw.left), Next(right, raw.right), Next(up, raw.up), Next(down, raw.down))
    }
  }

  datatype ReaderState = ReaderState(contacts: Contacts, arbiter: Arbiter)

  function ReaderInitial(): ReaderState
  {
    var d := Initial(DEFAULT_STABLE_SAMPLES);
    ReaderState(Contacts(d, d, d, d), IDLE)
  }

  /** Turns two successive sets of debounced levels into this tick's events. */
  function Arbitrate(a: Arbiter, was: PerButton, now: PerButton): (Arbiter, ButtonEvents)
  {
    var both := now.up && now.down;
    var chord := both && !a.chordActive;
    var pendingUp := (a.pendingUp || (now.up && !was.up)) && !chord;
    var pendingDown := (a.pendingDown || (now.down && !was.down)) && !chord;
    var upFell, downFell := was.up && !now.up, was.down && !now.down;
    var pressed := PerButton(now.left && !was.left, now.right && !was.right, upFell && pendingUp, downFell && pendingDown);
    (Arbiter(pendingUp && !upFell, pendingDown && !downFell, both), ButtonEvents(pressed, now, chord))
  }

  /** One poll of the raw buttons: the new state and the resulting events. */
  function ReaderNext(r: ReaderState, raw: PerButton): (ReaderState, ButtonEvents)
  {
    var contacts := r.contacts.Sampled(raw);
    var (arbiter, events) := Arbitrate(r.arbiter, r.contacts.Levels(), contacts.Levels());
    (ReaderState(contacts, arbiter), events)
  }

  /** Whether `up`, then `down`, is owed an action. */
  type Pending = s: seq<bool> | |s| == 2 witness [false, false]

  class ButtonReader {
    const debouncers: seq<Debouncer>
    ghost const repr: set<object>
    var pending: Pending
    var chordActive: bool

    /** The wiring never changes, so this reads no state. */
    ghost predicate Valid()
    {
      && |debouncers| == BUTTONS
      && (forall i, j :: 0 <= i < j < BUTTONS ==> debouncers[i] != debouncers[j])
      && (forall i :: 0 <= i < BUTTONS ==> debouncers[i] in repr && debouncers[i].required == DEFAULT_STABLE_SAMPLES)
      && this in repr
    }

    ghost function Sensed(): Contacts
      requires Valid()
      reads debouncers
    {
      Contacts(debouncers[0].State(), debouncers[1].State(), debouncers[2].State(), debouncers[3].State())
    }

    ghost function State(): ReaderState
      requires Valid()
      reads repr
    {
      ReaderState(Sensed(), Arbiter(pending[0], pending[1], chordActive))
    }

    constructor ()
      ensures Valid() && State() == ReaderInitial() && fresh(repr)
    {
      var d0 := new Debouncer(DEFAULT_STABLE_SAMPLES);
      var d1 := new Debouncer(DEFAULT_STABLE_SAMPLES);
      var d2 := new Debouncer(DEFAULT_STABLE_SAMPLES);
      var d3 := new Debouncer(DEFAULT_STABLE_SAMPLES);
      debouncers := [d0, d1, d2, d3];
      repr := {this, d0, d1, d2, d3};
      pending, chordActive := [false, false], false;
    }

    /** Overwrites the reader with a new one, as `Engine::reset` does. */
    method Reset()
      requires Valid()
      modifies repr
      ensures State() == ReaderInitial()
    {
      for i := 0 to BUTTONS
        invariant forall j :: 0 <= j < i ==> debouncers[j].State() == Initial(DEFAULT_STABLE_SAMPLES)
      {
        debouncers[i].Reset();
      }
      pending, chordActive := [false, false], false;
    }

    static ghost predicate EdgesBetween(was: PerButton, now: PerButton, edges: seq<Option<Edge>>)
    {
      && |edges| == BUTTONS
      && edges[0] == EdgeBetween(was.left, now.left) && edges[1] == EdgeBetween(was.right, now.right)
      && edges[2] == EdgeBetween(was.up, now.up) && edges[3] == EdgeBetween(was.down, now.down)
    }

    /** The sampling loop: every contact sees its raw level and reports its edge. */
    method SampleAll(down: Flags) returns (edges: seq<Option<Edge>>, held: Flags)
      requires Valid()
      modifies debouncers
      ensures Sensed() == old(Sensed()).Sampled(ByButton(down))
      ensures ByButton(held) == Sensed().Levels()
      ensures EdgesBetween(old(Sensed()).Levels(), ByButton(held), edges)
    {
      edges, held := [None, None, None, None], NO_FLAGS;
      for i := 0 to BUTTONS
        invariant |edges| == BUTTONS
        invariant forall j :: 0 <= j < i ==>
                    && debouncers[j].State() == Next(old(debouncers[j].State()), down[j])
                    && held[j] == debouncers[j].stable
                    && edges[j] == EdgeBetween(old(debouncers[j].stable), held[j])
        invariant forall j :: i <= j < BUTTONS ==> debouncers[j].State() == old(debouncers[j].State())
      {
        var edge := debouncers[i].Update(down[i]);
        edges := edges[i := edge];
        held := held[i := debouncers[i].stable];
      }
    }

    /** Marks `up` and `down` as owed an action when they go down. */
    method Arm(edges: seq<Option<Edge>>)
      requires |edges| == BUTTONS
      modifies `pending
      ensures pending[0] == (old(pending[0]) || edges[2] == Some(Rising))
      ensures pending[1] == (old(pending[1]) || edges[3] == Some(Rising))
    {
      for slot := 0 to 2
        invariant pending[0] == (old(pending[0]) || (slot > 0 && edges[2] == Some(Rising)))
        invariant pending[1] == (old(pending[1]) || (slot > 1 && edges[3] == Some(Rising)))
      {
        if edges[2 + slot] == Some(Rising) {
          pending := pending[slot := true];
        }
      }
    }

    /** Settles what `up` and `down` are owed when they are let go. */
    method Resolve(edges: seq<Option<Edge>>) returns (up: bool, down: bool)
      requires |edges| == BUTTONS
      modifies `pending
      ensures up == (edges[2] == Some(Falling) && old(pending[0]))
      ensures down == (edges[3] == Some(Falling) && old(pending[1]))
      ensures pending[0] == (edges[2] != Some(Falling) && old(pending[0]))
      ensures pending[1] == (edges[3] != Some(Falling) && old(pending[1]))
    {
      up, down := false, false;
      if edges[2] == Some(Falling) {
        if pending[0] { up := true; }
        pending := pending[0 := false];
      }
      if edges[3] == Some(Falling) {
        if pending[1] { down := true; }
        pending := pending[1 := false];
      }
    }

    /** Everything after the sampling loop; `was` are the levels before it. */
    method Judge(edges: seq<Option<Edge>>, held: Flags, ghost was: PerButton) returns (events: ButtonEvents)
      requires EdgesBetween(was, ByButton(held), edges)
      modifies `pending, `chordActive
      ensures (Arbiter(pending[0], pending[1], chordActive), events)
           == Arbitrate(old(Arbiter(pending[0], pending[1], chordActive)), was, ByButton(held))
    {
      var left := edges[LeftEncoder.Index()] == Some(Rising);
      var right := edges[RightEncoder.Index()] == Some(Rising);
      Arm(edges);

      var menuChord := false;
      if held[Up.Index()] && held[Down.Index()] {
        if !chordActive {
          menuChord := true;
          chordActive := true;
          pending := [false, false];
        }
      } else {
        chordActive := false;
      }

      var up, down := Resolve(edges);
      events := ButtonEvents(PerButton(left, right, up, down), ByButton(held), menuChord);
    }

    method Update(controls: ControlEvents) returns (events: ButtonEvents)
      requires Valid()
      modifies repr
      ensures (State(), events) == ReaderNext(old(State()), ByButton(controls.down))
    {
      ghost var before := Sensed();
      var edges, held := SampleAll(controls.down);
      ghost var after := Sensed();
      events := Judge(edges, held, before.Levels());
      assert Sensed() == after;
    }
  }

  // ----- Arbitration over any sequence of debounced levels -----

  ghost predicate FromRest(lv: seq<PerButton>)
  {
    lv != [] && lv[0] == NONE
  }

  predicate Both(lv: seq<PerButton>, n: nat)
    requires n < |lv|
  {
    lv[n].up && lv[n].down
  }

  function ArbiterAt(lv: seq<PerButton>, n: nat): Arbiter
    requires n < |lv|
  {
    if n == 0 then IDLE else Arbitrate(ArbiterAt(lv, n - 1), lv[n - 1], lv[n]).0
  }

  function ArbitratedAt(lv: seq<PerButton>, n: nat): ButtonEvents
    requires 1 <= n < |lv|
  {
    Arbitrate(ArbiterAt(lv, n - 1), lv[n - 1], lv[n]).1
  }

  /** The button has been down without a break since tick `j`. */
  ghost predicate HeldSince(lv: seq<PerButton>, b: Button, j: nat, n: nat)
    requires n < |lv|
  {
    forall k :: j <= k <= n ==> lv[k].Of(b)
  }

  /** The button is down, and at no point of this hold were both chord buttons down. */
  ghost predicate Unresolved(lv: seq<PerButton>, b: Button, n: nat)
    requires n < |lv|
  {
    lv[n].Of(b) && forall j :: 0 <= j <= n && HeldSince(lv, b, j, n) ==> !Both(lv, j)
  }

  lemma UnresolvedStep(lv: seq<PerButton>, b: Button, n: nat)
    requires 1 <= n < |lv|
    ensures Unresolved(lv, b, n) <==>
            lv[n].Of(b) && !Both(lv, n) && (lv[n - 1].Of(b) ==> Unresolved(lv, b, n - 1))
  {
    if lv[n].Of(b) {
      assert HeldSince(lv, b, n, n);
      forall j | 0 <= j < n
        ensures HeldSince(lv, b, j, n) <==> HeldSince(lv, b, j, n - 1)
      {
      }
    }
  }

  lemma {:induction false} ArbiterMeans(lv: seq<PerButton>, n: nat)
    requires FromRest(lv) && n < |lv|
    ensures ArbiterAt(lv, n) == Arbiter(Unresolved(lv, Up, n), Unresolved(lv, Down, n), Both(lv, n))
  {
    if n > 0 {
      ArbiterMeans(lv, n - 1);
      UnresolvedStep(lv, Up, n);
      UnresolvedStep(lv, Down, n);
    }
  }

  /** What every report means in terms of the debounced levels alone.  The chord fires
      when both buttons come to be down together; `up` and `down` fire when released
      after a hold during which they never were; the encoder switches fire on press. */
  lemma ReportsMean(lv: seq<PerButton>, n: nat)
    requires FromRest(lv) && 1 <= n < |lv|
    ensures var e := ArbitratedAt(lv, n);
            && e.held == lv[n]
            && (e.menuChord <==> Both(lv, n) && !Both(lv, n - 1))
            && (e.pressed.left <==> lv[n].left && !lv[n - 1].left)
            && (e.pressed.right <==> lv[n].right && !lv[n - 1].right)
            && (e.pressed.up <==> !lv[n].up && Unresolved(lv, Up, n - 1))
            && (e.pressed.down <==> !lv[n].down && Unresolved(lv, Down, n - 1))
  {
    ArbiterMeans(lv, n - 1);
  }

  lemma ReportsMeanFor(lv: seq<PerButton>, b: Button, n: nat)
    requires FromRest(lv) && 1 <= n < |lv| && (b == Up || b == Down)
    ensures ArbitratedAt(lv, n).menuChord <==> Both(lv, n) && !Both(lv, n - 1)
    ensures ArbitratedAt(lv, n).pressed.Of(b) <==> !lv[n].Of(b) && Unresolved(lv, b, n - 1)
  {
    ReportsMean(lv, n);
  }

  /** A hold of `up` or `down` lasting from tick `s + 1` to tick `e - 1` is resolved
      exactly once: by a press at its end if no chord fired during it, and otherwise
      by that chord; nothing fires for the button before its release. */
  lemma HoldResolvesOnce(lv: seq<PerButton>, b: Button, s: nat, e: nat)
    requires FromRest(lv) && (b == Up || b == Down) && s + 1 < e < |lv|
    requires !lv[s].Of(b) && !lv[e].Of(b)
    requires forall k :: s < k < e ==> lv[k].Of(b)
    ensures ArbitratedAt(lv, e).pressed.Of(b) <==> forall k :: s < k < e ==> !ArbitratedAt(lv, k).menuChord
    ensures forall k :: s < k < e ==> !ArbitratedAt(lv, k).pressed.Of(b)
  {
    forall k | s < k < e
      ensures !ArbitratedAt(lv, k).pressed.Of(b)
      ensures ArbitratedAt(lv, k).menuChord ==> Both(lv, k)
    {
      ReportsMeanFor(lv, b, k);
    }
    ReportsMeanFor(lv, b, e);
    assert HeldSince(lv, b, s + 1, e - 1);
    if forall k :: s < k < e ==> !ArbitratedAt(lv, k).menuChord {
      NoChordNoOverlap(lv, b, s, e - 1);
    } else {
      var k :| s < k < e && ArbitratedAt(lv, k).menuChord;
      assert HeldSince(lv, b, k, e - 1) && Both(lv, k);
    }
  }

  lemma {:induction false} NoChordNoOverlap(lv: seq<PerButton>, b: Button, s: nat, n: nat)
    requires FromRest(lv) && (b == Up || b == Down) && s <= n < |lv| && !lv[s].Of(b)
    requires forall k :: s < k <= n ==> !ArbitratedAt(lv, k).menuChord
    ensures forall k :: s <= k <= n ==> !Both(lv, k)
    decreases n - s
  {
    if s < n {
      NoChordNoOverlap(lv, b, s, n - 1);
      ReportsMeanFor(lv, b, n);
    }
  }

  // ----- The reader over any history of raw polls -----

  /** Everything one button's contact has read in the first `n` polls. */
  function Column(raw: seq<PerButton>, b: Button, n: nat): seq<bool>
    requires n <= |raw|
  {
    seq(n, i requires 0 <= i < n => raw[i].Of(b))
  }

  /** The four debouncers after the first `n` polls. */
  function ContactsAt(raw: seq<PerButton>, n: nat): Contacts
    requires n <= |raw|
  {
    if n == 0 then ReaderInitial().contacts else ContactsAt(raw, n - 1).Sampled(raw[n - 1])
  }

  /** Each of them is its own button's history put through one debouncer. */
  lemma {:induction false} ContactsAreDebouncers(raw: seq<PerButton>, b: Button, n: nat)
    requires n <= |raw|
    ensures ContactsAt(raw, n).Of(b) == After(DEFAULT_STABLE_SAMPLES, Column(raw, b, n))
  {
    if n > 0 {
      ContactsAreDebouncers(raw, b, n - 1);
      assert Column(raw, b, n)[..n - 1] == Column(raw, b, n - 1);
    }
  }

  /** `lv` are the debounced levels after each number of polls, beginning with none. */
  ghost predicate AreLevels(raw: seq<PerButton>, lv: seq<PerButton>)
  {
    |lv| == |raw| + 1 && forall k :: 0 <= k <= |raw| ==> lv[k] == ContactsAt(raw, k).Levels()
  }

  function Debounced(raw: seq<PerButton>): (lv: seq<PerButton>)
    ensures AreLevels(raw, lv) && FromRest(lv)
  {
    seq(|raw| + 1, n requires 0 <= n <= |raw| => ContactsAt(raw, n).Levels())
  }

  function ReaderAt(raw: seq<PerButton>, n: nat): ReaderState
    requires n <= |raw|
  {
    if n == 0 then ReaderInitial() else ReaderNext(ReaderAt(raw, n - 1), raw[n - 1]).0
  }

  /** What the reader reports on poll `n`, counting from one. */
  function EventsAt(raw: seq<PerButton>, n: nat): ButtonEvents
    requires 1 <= n <= |raw|
  {
    ReaderNext(ReaderAt(raw, n - 1), raw[n - 1]).1
  }

  /** One poll seen from outside, whatever the state it starts from is called. */
  lemma OnePoll(r: ReaderState, c: Contacts, a: Arbiter, raw: PerButton, was: PerButton, now: PerButton)
    requires r == ReaderState(c, a) && was == c.Levels() && now == c.Sampled(raw).Levels()
    ensures ReaderNext(r, raw).0 == ReaderState(c.Sampled(raw), Arbitrate(a, was, now).0)
    ensures ReaderNext(r, raw).1 == Arbitrate(a, was, now).1
  {
  }

  lemma {:induction false} ReaderStateAt(raw: seq<PerButton>, lv: seq<PerButton>, n: nat)
    requires n <= |raw| && AreLevels(raw, lv)
    ensures ReaderAt(raw, n) == ReaderState(ContactsAt(raw, n), ArbiterAt(lv, n))
  {
    if n == 0 {
      assert ReaderAt(raw, 0) == ReaderInitial();
    } else {
      ReaderStateAt(raw, lv, n - 1);
      OnePoll(ReaderAt(raw, n - 1), ContactsAt(raw, n - 1), ArbiterAt(lv, n - 1), raw[n - 1], lv[n - 1], lv[n]);
    }
  }

  lemma EventsFromLevels(raw: seq<PerButton>, lv: seq<PerButton>, n: nat)
    requires 1 <= n <= |raw| && AreLevels(raw, lv)
    ensures EventsAt(raw, n) == ArbitratedAt(lv, n)
  {
    ReaderStateAt(raw, lv, n - 1);
    OnePoll(ReaderAt(raw, n - 1), ContactsAt(raw, n - 1), ArbiterAt(lv, n - 1), raw[n - 1], lv[n - 1], lv[n]);
  }

  /** The reader debounces each button on its own and arbitrates the results, so every
      statement above about `ArbitratedAt` holds of its reports on any raw history. */
  lemma ReaderArbitratesDebounced(raw: seq<PerButton>, n: nat)
    requires 1 <= n <= |raw|
    ensures EventsAt(raw, n) == ArbitratedAt(Debounced(raw), n)
  {
    EventsFromLevels(raw, Debounced(raw), n);
  }
}
