/** The packed one-bit framebuffer (crates/oc-core/src/framebuffer.rs) as a set of lit points. */
module FrameBuffer {

  const WIDTH := 128
  const HEIGHT := 64
  const PAGES := 8
  const LEN := WIDTH * PAGES

  /** A point as (x, y). */
  type Point = (int, int)

  predicate OnScreen(x: int, y: int) { 0 <= x < WIDTH && 0 <= y < HEIGHT }

  function IndexOf(x: int, y: int): (i: nat)
    requires OnScreen(x, y)
    ensures i < LEN
  {
    y / 8 * WIDTH + x
  }

  type Bit = k: int | 0 <= k < 8

  function Mask(k: Bit): bv8
  {
    if k == 0 then 1 else if k == 1 then 2 else if k == 2 then 4 else if k == 3 then 8
    else if k == 4 then 16 else if k == 5 then 32 else if k == 6 then 64 else 128
  }

  /** The source computes the mask with a shift. */
  lemma MaskIsShift(k: Bit)
    ensures (1 as bv8) << k == Mask(k)
  {
  }

  method MaskFor(y: nat) returns (mask: bv8)
    ensures mask == Mask(y % 8)
  {
    MaskIsShift(y % 8);
    mask := (1 as bv8) << (y % 8);
  }

  predicate IsSet(b: bv8, k: Bit) { b & Mask(k) != 0 }

  lemma SettingOneBit(b: bv8, k: Bit, j: Bit)
    ensures IsSet(b | Mask(k), j) <==> j == k || IsSet(b, j)
  {
    if k == 0 {} else if k == 1 {} else if k == 2 {} else if k == 3 {}
    else if k == 4 {} else if k == 5 {} else if k == 6 {} else {}
  }

  lemma ClearingOneBit(b: bv8, k: Bit, j: Bit)
    ensures IsSet(b & !Mask(k), j) <==> j != k && IsSet(b, j)
  {
    if k == 0 {} else if k == 1 {} else if k == 2 {} else if k == 3 {}
    else if k == 4 {} else if k == 5 {} else if k == 6 {} else {}
  }

  lemma BlankBytes(k: Bit)
    ensures !IsSet(0, k) && IsSet(0xFF, k)
  {
  }

  /** Bit `k` of byte `n`, for every byte of the buffer. */
  type Bits = (int, int) -> bool

  ghost function BitsOf(bytes: seq<bv8>): Bits
  {
    (n, k) => 0 <= n < |bytes| && 0 <= k < 8 && IsSet(bytes[n], k)
  }

  predicate LitAt(bits: Bits, x: int, y: int)
  {
    OnScreen(x, y) && bits(IndexOf(x, y), y % 8)
  }

  /** The grid the bits stand for. */
  ghost function LitOf(bits: Bits): set<Point>
  {
    set x: int, y: int | 0 <= x < WIDTH && 0 <= y < HEIGHT && LitAt(bits, x, y) :: (x, y)
  }

  /** Distinct pixels never share both a byte and a bit. */
  lemma PixelsAreIndependent(x: int, y: int, p: int, q: int)
    requires OnScreen(x, y) && OnScreen(p, q) && IndexOf(x, y) == IndexOf(p, q) && y % 8 == q % 8
    ensures (x, y) == (p, q)
  {
  }

  /** A point to be drawn, lit or dark. */
  datatype Pixel = Pixel(point: Point, on: bool)

  /** What is lit once some pixels have been drawn, in order. */
  ghost function Drawn(lit: set<Point>, pixels: seq<Pixel>): set<Point>
  {
    if pixels == [] then lit
    else
      var before, last := Drawn(lit, pixels[..|pixels| - 1]), pixels[|pixels| - 1];
      if !OnScreen(last.point.0, last.point.1) then before
      else if last.on then before + {last.point} else before - {last.point}
  }

  class FrameBuffer {
    const data: array<bv8>

    ghost predicate Valid() { data.Length == LEN }

    ghost function Lit(): set<Point>
      requires Valid()
      reads data
    {
      LitOf(BitsOf(data[..]))
    }

    constructor ()
      ensures Valid() && fresh(data) && Lit() == {}
    {
      data := new bv8[LEN](_ => 0);
      new;
      BlankIsDark(data[..]);
    }

    method Clear()
      requires Valid()
      modifies data
      ensures Lit() == {}
    {
      forall i | 0 <= i < LEN {
        data[i] := 0;
      }
      BlankIsDark(data[..]);
    }

    method SetPixel(x: int, y: int, on: bool)
      requires Valid()
      modifies data
      ensures Lit() == if !OnScreen(x, y) then old(Lit()) else if on then old(Lit()) + {(x, y)} else old(Lit()) - {(x, y)}
    {
      if !OnScreen(x, y) {
        return;
      }
      var index := IndexOf(x, y);
      var mask := MaskFor(y);
      ghost var was := data[..];
      if on {
        data[index] := data[index] | mask;
      } else {
        data[index] := data[index] & !mask;
      }
      assert data[..] == was[index := data[index]];
      PixelWritten(was, data[..], x, y, on);
    }

    /** Draws one pixel after another; the ones that are not on the screen are dropped. */
    method DrawIter(pixels: seq<Pixel>)
      requires Valid()
      modifies data
      ensures Lit() == Drawn(old(Lit()), pixels)
    {
      for i := 0 to |pixels|
        invariant Lit() == Drawn(old(Lit()), pixels[..i])
      {
        SetPixel(pixels[i].point.0, pixels[i].point.1, pixels[i].on);
        assert pixels[..i + 1][..i] == pixels[..i];
      }
      assert pixels[..|pixels|] == pixels;
    }

    function Pixel(x: int, y: int): (lit: bool)
      requires Valid()
      reads data
      ensures lit <==> (x, y) in Lit()
    {
      OnScreen(x, y) && data[IndexOf(x, y)] & Mask(y % 8) != 0
    }

    /** Number of lit pixels, by population count of the bytes. */
    method LitPixels() returns (count: nat)
      requires Valid()
      ensures count == |Lit()|
    {
      ghost var bits := BitsOf(data[..]);
      count := 0;
      assert LitBelow(bits, 0) == {};
      for i := 0 to LEN
        invariant count == |LitBelow(bits, i)|
      {
        var ones := CountOnes(data[i]);
        OnesAreBits(data[..], i, 8);
        ByteAddsItsOnes(bits, i);
        count := count + ones;
      }
      assert LitBelow(bits, LEN) == Lit();
    }
  }

  lemma BlankIsDark(bytes: seq<bv8>)
    requires |bytes| == LEN && forall i :: 0 <= i < LEN ==> bytes[i] == 0
    ensures LitOf(BitsOf(bytes)) == {}
  {
    forall n, k
      ensures !BitsOf(bytes)(n, k)
    {
      if 0 <= k < 8 {
        BlankBytes(k);
      }
    }
  }

  /** Writing one byte through a mask changes one bit. */
  lemma OneByteChanged(was: seq<bv8>, now: seq<bv8>, i: nat, k: Bit, on: bool)
    requires |was| == |now| && i < |was|
    requires now == was[i := if on then was[i] | Mask(k) else was[i] & !Mask(k)]
    ensures forall n, j :: BitsOf(now)(n, j) == if n == i && j == k then on else BitsOf(was)(n, j)
  {
    forall j: Bit
      ensures IsSet(now[i], j) == if j == k then on else IsSet(was[i], j)
    {
      if on {
        SettingOneBit(was[i], k, j);
      } else {
        ClearingOneBit(was[i], k, j);
      }
    }
  }

  /** Changing one bit changes one pixel. */
  lemma OneBitChanged(was: Bits, now: Bits, x: int, y: int, on: bool)
    requires OnScreen(x, y)
    requires forall n, j :: now(n, j) == if n == IndexOf(x, y) && j == y % 8 then on else was(n, j)
    ensures LitOf(now) == if on then LitOf(was) + {(x, y)} else LitOf(was) - {(x, y)}
  {
    forall p, q | OnScreen(p, q)
      ensures LitAt(now, p, q) == if p == x && q == y then on else LitAt(was, p, q)
    {
      if IndexOf(p, q) == IndexOf(x, y) && q % 8 == y % 8 {
        PixelsAreIndependent(x, y, p, q);
      }
    }
  }

  lemma PixelWritten(was: seq<bv8>, now: seq<bv8>, x: int, y: int, on: bool)
    requires |was| == |now| == LEN && OnScreen(x, y)
    requires var i := IndexOf(x, y);
             now == was[i := if on then was[i] | Mask(y % 8) else was[i] & !Mask(y % 8)]
    ensures LitOf(BitsOf(now)) == if on then LitOf(BitsOf(was)) + {(x, y)} else LitOf(BitsOf(was)) - {(x, y)}
  {
    OneByteChanged(was, now, IndexOf(x, y), y % 8, on);
    OneBitChanged(BitsOf(was), BitsOf(now), x, y, on);
  }

  // ----- Counting -----

  /** `u8::count_ones`. */
  method CountOnes(b: bv8) returns (ones: nat)
    ensures ones == Ones(k => 0 <= k < 8 && IsSet(b, k), 8)
  {
    ones := 0;
    for k := 0 to 8
      invariant ones == Ones(j => 0 <= j < 8 && IsSet(b, j), k)
    {
      if IsSet(b, k) {
        ones := ones + 1;
      }
    }
  }

  /** How many of the first `k` hold. */
  ghost function Ones(f: int -> bool, k: nat): nat
  {
    if k == 0 then 0 else Ones(f, k - 1) + if f(k - 1) then 1 else 0
  }

  lemma {:induction false} OnesAgree(f: int -> bool, g: int -> bool, k: nat)
    requires forall j :: 0 <= j < k ==> f(j) == g(j)
    ensures Ones(f, k) == Ones(g, k)
  {
    if k > 0 {
      OnesAgree(f, g, k - 1);
    }
  }

  ghost function Byte(bits: Bits, n: nat): int -> bool { k => bits(n, k) }

  lemma OnesAreBits(bytes: seq<bv8>, n: nat, k: nat)
    requires n < |bytes|
    ensures Ones(k => 0 <= k < 8 && IsSet(bytes[n], k), k) == Ones(Byte(BitsOf(bytes), n), k)
  {
    OnesAgree(k => 0 <= k < 8 && IsSet(bytes[n], k), Byte(BitsOf(bytes), n), k);
  }

  /** The lit points held by the first `n` bytes. */
  ghost function LitBelow(bits: Bits, n: nat): set<Point>
    requires n <= LEN
  {
    set x: int, y: int | 0 <= x < WIDTH && 0 <= y < HEIGHT && IndexOf(x, y) < n && LitAt(bits, x, y) :: (x, y)
  }

  function PointAt(n: nat, k: int): Point { (n % WIDTH, n / WIDTH * 8 + k) }

  /** The lit points held by the lowest `k` bits of byte `n`. */
  ghost function LitInByte(bits: Bits, n: nat, k: nat): set<Point>
    requires n < LEN && k <= 8
  {
    set j: int | 0 <= j < k && bits(n, j) :: PointAt(n, j)
  }

  lemma {:induction false} LitInByteCounts(bits: Bits, n: nat, k: nat)
    requires n < LEN && k <= 8
    ensures |LitInByte(bits, n, k)| == Ones(Byte(bits, n), k)
  {
    if k > 0 {
      LitInByteCounts(bits, n, k - 1);
      var fewer, point := LitInByte(bits, n, k - 1), PointAt(n, k - 1);
      assert point !in fewer;
      assert LitInByte(bits, n, k) == if bits(n, k - 1) then fewer + {point} else fewer;
    } else {
      assert LitInByte(bits, n, 0) == {};
    }
  }

  lemma PointsOfByte(n: nat, x: int, y: int)
    requires n < LEN && OnScreen(x, y)
    ensures IndexOf(x, y) == n <==> PointAt(n, y % 8) == (x, y)
  {
  }

  lemma ColumnMember(bits: Bits, n: nat, x: int, y: int)
    requires n < LEN
    ensures (x, y) in LitInByte(bits, n, 8) <==> OnScreen(x, y) && IndexOf(x, y) == n && LitAt(bits, x, y)
  {
    if (x, y) in LitInByte(bits, n, 8) {
      var j :| 0 <= j < 8 && bits(n, j) && PointAt(n, j) == (x, y);
      assert y % 8 == j && OnScreen(x, y);
    }
    if OnScreen(x, y) {
      PointsOfByte(n, x, y);
    }
  }

  lemma ByteAddsItsOnes(bits: Bits, n: nat)
    requires n < LEN
    ensures |LitBelow(bits, n + 1)| == |LitBelow(bits, n)| + Ones(Byte(bits, n), 8)
  {
    LitInByteCounts(bits, n, 8);
    forall p: Point
      ensures p in LitInByte(bits, n, 8) <==> OnScreen(p.0, p.1) && IndexOf(p.0, p.1) == n && LitAt(bits, p.0, p.1)
    {
      ColumnMember(bits, n, p.0, p.1);
    }
    DisjointSum(LitBelow(bits, n + 1), LitBelow(bits, n), LitInByte(bits, n, 8));
  }

  lemma DisjointSum(all: set<Point>, a: set<Point>, b: set<Point>)
    requires forall p :: p in all <==> p in a || p in b
    requires forall p :: p in a ==> p !in b
    ensures |all| == |a| + |b|
  {
    assert all == a + b && a !! b;
  }
}
