/** The boot animation's clock and border (crates/oc-core/src/splash.rs). */
module Splash {
  import opened Ints
  import opened FrameBuffer

  const DURATION_MICROS: u32 := 1_500_000
  const PERIMETER_PIXELS := 2 * WIDTH + 2 * HEIGHT - 4

  function LitBorderPixels(elapsed: u32): (count: nat)
    ensures count <= PERIMETER_PIXELS
  {
    Min(elapsed, DURATION_MICROS) * PERIMETER_PIXELS / DURATION_MICROS
  }

  predicate Done(elapsed: u32) { elapsed >= DURATION_MICROS }

  /** The border only ever grows, and is complete exactly when the animation is done. */
  lemma BorderGrows(a: u32, b: u32)
    requires a <= b
    ensures LitBorderPixels(a) <= LitBorderPixels(b)
    ensures LitBorderPixels(a) == PERIMETER_PIXELS <==> Done(a)
  {
  }

  class SplashScreen {
    var elapsed: u32

    constructor ()
      ensures elapsed == 0
    {
      elapsed := 0;
    }

    method Reset()
      modifies this
      ensures elapsed == 0
    {
      elapsed := 0;
    }

    method Finish()
      modifies this
      ensures elapsed == DURATION_MICROS && Done(elapsed)
    {
      elapsed := DURATION_MICROS;
    }

    method Advance(micros: u32)
      modifies this
      ensures elapsed == SatAdd32(old(elapsed), micros)
    {
      elapsed := SatAdd32(elapsed, micros);
    }

    /** The frame of the animation: the banner, as the pixels its text is drawn with, and over it
        the border. */
    method Render(frame: FrameBuffer, banner: seq<Pixel>)
      requires frame.Valid()
      modifies frame.data
      ensures frame.Lit() == Drawn({}, banner) + Traced(LitBorderPixels(elapsed))
    {
      frame.Clear();
      frame.DrawIter(banner);
      DrawBorder(frame, LitBorderPixels(elapsed));
    }
  }

  /** The border as a path: rightwards along the top, then down, back and up. */
  function Perimeter(k: nat): Point
    requires k < PERIMETER_PIXELS
  {
    if k < WIDTH then (k, 0)
    else if k < WIDTH + HEIGHT - 1 then (WIDTH - 1, k - WIDTH + 1)
    else if k < 2 * WIDTH + HEIGHT - 2 then (2 * WIDTH + HEIGHT - 3 - k, HEIGHT - 1)
    else (0, PERIMETER_PIXELS - k)
  }

  /** The first `n` of them. */
  ghost function Traced(n: nat): set<Point>
    requires n <= PERIMETER_PIXELS
  {
    set k: nat | k < n :: Perimeter(k)
  }

  predicate OnEdge(x: int, y: int) { x == 0 || x == WIDTH - 1 || y == 0 || y == HEIGHT - 1 }

  ghost function ScreenEdge(): set<Point>
  {
    set x: int, y: int | 0 <= x < WIDTH && 0 <= y < HEIGHT && OnEdge(x, y) :: (x, y)
  }

  lemma NextAround(k: nat)
    requires k < PERIMETER_PIXELS
    ensures (k + 1) % PERIMETER_PIXELS == if k + 1 == PERIMETER_PIXELS then 0 else k + 1
  {
  }

  /** Each step goes to a neighbouring pixel on the edge, and the last one closes the loop. */
  lemma PerimeterIsClosedPath(k: nat)
    requires k < PERIMETER_PIXELS
    ensures var (x, y) := Perimeter(k);
            var (p, q) := Perimeter((k + 1) % PERIMETER_PIXELS);
            && OnScreen(x, y) && OnEdge(x, y)
            && Abs(p - x) + Abs(q - y) == 1
  {
    NextAround(k);
  }

  /** No pixel is visited twice. */
  lemma PerimeterIsInjective(j: nat, k: nat)
    requires j < k < PERIMETER_PIXELS
    ensures Perimeter(j) != Perimeter(k)
  {
  }

  /** It starts in the top left corner and goes clockwise, so its corners come in this order. */
  lemma PerimeterIsClockwise()
    ensures Perimeter(0) == (0, 0) && Perimeter(127) == (127, 0) && Perimeter(190) == (127, 63) && Perimeter(317) == (0, 63)
    ensures PERIMETER_PIXELS == 380
  {
  }

  /** As much of it is lit as of the second and a half has passed, in proportion and rounded down. */
  lemma LitIsProportional(elapsed: u32)
    ensures 0 <= 380 * Min(elapsed, 1_500_000) - 1_500_000 * LitBorderPixels(elapsed) < 1_500_000
  {
  }

  lemma TracedStep(n: nat)
    requires n < PERIMETER_PIXELS
    ensures Traced(n + 1) == Traced(n) + {Perimeter(n)}
  {
  }

  lemma {:induction false} TracedSize(n: nat)
    requires n <= PERIMETER_PIXELS
    ensures |Traced(n)| == n
  {
    if n > 0 {
      TracedSize(n - 1);
      TracedStep(n - 1);
      forall j: nat | j < n - 1
        ensures Perimeter(j) != Perimeter(n - 1)
      {
        PerimeterIsInjective(j, n - 1);
      }
    } else {
      assert Traced(0) == {};
    }
  }

  /** So the animation lights exactly `LitBorderPixels` pixels, and the whole edge of the
      screen, no more and no less, when it is done. */
  lemma AnimationLights(elapsed: u32)
    ensures |Traced(LitBorderPixels(elapsed))| == LitBorderPixels(elapsed)
    ensures Done(elapsed) ==> Traced(LitBorderPixels(elapsed)) == ScreenEdge()
  {
    TracedSize(LitBorderPixels(elapsed));
    BorderGrows(elapsed, elapsed);
    forall x, y | OnScreen(x, y) && OnEdge(x, y)
      ensures (x, y) in Traced(PERIMETER_PIXELS)
    {
      var k: nat := if y == 0 then x else if x == WIDTH - 1 then WIDTH - 1 + y
        else if y == HEIGHT - 1 then 2 * WIDTH + HEIGHT - 3 - x else PERIMETER_PIXELS - y;
      assert Perimeter(k) == (x, y);
    }
    forall k: nat | k < PERIMETER_PIXELS
      ensures var (x, y) := Perimeter(k); OnScreen(x, y) && OnEdge(x, y)
    {
      PerimeterIsClosedPath(k);
    }
  }

  lemma NothingTraced(start: set<Point>)
    ensures start + Traced(0) == start
  {
  }

  /** Lights the start of the path, `count` points of it. */
  method DrawBorder(frame: FrameBuffer, count: u32)
    requires frame.Valid()
    modifies frame.data
    ensures frame.Lit() == old(frame.Lit()) + Traced(Min(count, PERIMETER_PIXELS))
  {
    ghost var start := frame.Lit();
    var remaining := count;
    NothingTraced(start);

    for x := 0 to WIDTH
      invariant remaining == count - x && frame.Lit() == start + Traced(x)
    {
      if remaining == 0 {
        return;
      }
      remaining := LightNext(frame, x, 0, remaining, start, x);
    }
    for y := 1 to HEIGHT
      invariant remaining == count - (WIDTH + y - 1) && frame.Lit() == start + Traced(WIDTH + y - 1)
    {
      if remaining == 0 {
        return;
      }
      remaining := LightNext(frame, WIDTH - 1, y, remaining, start, WIDTH + y - 1);
    }
    for x := WIDTH - 1 downto 0
      invariant remaining == count - (2 * WIDTH + HEIGHT - 2 - x)
      invariant frame.Lit() == start + Traced(2 * WIDTH + HEIGHT - 2 - x)
    {
      if remaining == 0 {
        return;
      }
      remaining := LightNext(frame, x, HEIGHT - 1, remaining, start, 2 * WIDTH + HEIGHT - 3 - x);
    }
    for y := HEIGHT - 1 downto 1
      invariant remaining == count - (PERIMETER_PIXELS + 1 - y) && frame.Lit() == start + Traced(PERIMETER_PIXELS + 1 - y)
    {
      if remaining == 0 {
        return;
      }
      remaining := LightNext(frame, 0, y, remaining, start, PERIMETER_PIXELS - y);
    }
  }

  /** Lights the `n`th border pixel and counts it. */
  method LightNext(frame: FrameBuffer, x: int, y: int, remaining: u32, ghost start: set<Point>, ghost n: nat)
      returns (left: u32)
    requires frame.Valid() && remaining > 0
    requires n < PERIMETER_PIXELS && Perimeter(n) == (x, y)
    requires frame.Lit() == start + Traced(n)
    modifies frame.data
    ensures left == remaining - 1 && frame.Lit() == start + Traced(n + 1)
  {
    PerimeterIsClosedPath(n);
    TracedStep(n);
    frame.SetPixel(x, y, true);
    left := remaining - 1;
  }
}
