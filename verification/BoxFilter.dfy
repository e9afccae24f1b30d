/** Downscaling a frame by averaging source boxes, and sampling pixels for the palette, in exact arithmetic. */
module BoxFilter {

  /** Flat RGBA bytes, row by row. */
  datatype Frame = Frame(pixels: seq<int>, width: nat, height: nat)
  {
    predicate Valid()
    {
      width > 0 && height > 0 && |pixels| == width * height * 4 && forall p :: p in pixels ==> 0 <= p < 256
    }
  }

  /** Nearest integer to sum / n, halves up. */
  function RoundDiv(sum: nat, n: nat): nat
    requires n > 0
  {
    (2 * sum + n) / (2 * n)
  }

  // ----- one axis

  function Lo(i: nat, src: nat, dst: nat): nat
    requires dst > 0
  {
    i * src / dst
  }

  function Hi(i: nat, src: nat, dst: nat): nat
    requires dst > 0
  {
    var next := (i + 1) * src / dst;
    if next > Lo(i, src, dst) then next else Lo(i, src, dst) + 1
  }

  lemma MulLe(d: nat, a: nat, b: nat)
    requires a <= b
    ensures d * a <= d * b
  {
    assert d * b == d * a + d * (b - a);
  }

  lemma MulSucc(d: nat, q: nat)
    ensures d * (q + 1) == d * q + d
  {
  }

  lemma Quotient(a: nat, d: nat)
    requires d > 0
    ensures d * (a / d) <= a < d * (a / d) + d
  {
  }

  lemma AtLeast(a: nat, d: nat, q: nat)
    requires d > 0 && d * q <= a
    ensures a / d >= q
  {
    Quotient(a, d);
    Between(a, d, a / d, q);
  }

  lemma Between(a: nat, d: nat, k: nat, q: nat)
    requires d * q <= a < d * k + d
    ensures q <= k
  {
    MulSucc(d, k);
    if k < q {
      MulLe(d, k + 1, q);
    }
  }

  lemma AtMost(a: nat, d: nat, q: nat)
    requires d > 0 && a < d * q + d
    ensures a / d <= q
  {
    Quotient(a, d);
    Between(a, d, q, a / d);
  }

  lemma DivSteps(a: nat, b: nat, d: nat)
    requires 0 < d <= b
    ensures (a + b) / d >= a / d + 1
  {
    Quotient(a, d);
    OneStepMore(a, b, d, a / d);
  }

  lemma OneStepMore(a: nat, b: nat, d: nat, q: nat)
    requires 0 < d <= b && d * q <= a
    ensures (a + b) / d >= q + 1
  {
    MulSucc(d, q);
    AtLeast(a + b, d, q + 1);
  }

  lemma DivMonotone(a: nat, b: nat, d: nat)
    requires a <= b && d > 0
    ensures a / d <= b / d
  {
    Quotient(a, d);
    AtLeast(b, d, a / d);
  }

  /** Neighbouring boxes meet. */
  lemma BoxesMeet(i: nat, src: nat, dst: nat)
    requires 0 < dst <= src
    ensures Hi(i, src, dst) == Lo(i + 1, src, dst) > Lo(i, src, dst)
  {
    assert (i + 1) * src == i * src + src;
    DivSteps(i * src, src, dst);
  }

  lemma BoxesEnd(src: nat, dst: nat)
    requires dst > 0
    ensures Lo(0, src, dst) == 0 && Lo(dst, src, dst) == src
  {
    AtLeast(dst * src, dst, src);
    AtMost(dst * src, dst, src);
  }

  lemma {:induction false} BoxesClimb(i: nat, j: nat, src: nat, dst: nat)
    requires 0 < dst <= src && i <= j
    ensures Lo(i, src, dst) <= Lo(j, src, dst)
  {
    assert i * src <= j * src;
    DivMonotone(i * src, j * src, dst);
  }

  ghost predicate InBox(k: int, i: nat, src: nat, dst: nat)
    requires dst > 0
  {
    Lo(i, src, dst) <= k < Hi(i, src, dst)
  }

  /** The boxes tile the axis: every coordinate lies in exactly one, and no box leaves it. */
  lemma BoxesTile(k: nat, src: nat, dst: nat) returns (i: nat)
    requires 0 < dst <= src && k < src
    ensures i < dst && InBox(k, i, src, dst)
    ensures forall j: nat :: j < dst && InBox(k, j, src, dst) ==> j == i
  {
    BoxesEnd(src, dst);
    i := 0;
    while Lo(i + 1, src, dst) <= k
      invariant i < dst && Lo(i, src, dst) <= k < src == Lo(dst, src, dst)
      decreases dst - i
    {
      i := i + 1;
    }
    BoxesMeet(i, src, dst);
    forall j: nat | j < dst && InBox(k, j, src, dst)
      ensures j == i
    {
      BoxesMeet(j, src, dst);
      if j < i {
        BoxesClimb(j + 1, i, src, dst);
      } else if i < j {
        BoxesClimb(i + 1, j, src, dst);
      }
    }
  }

  /** No box is a whole coordinate wider or narrower than its even share of the axis. */
  lemma BoxesEven(i: nat, src: nat, dst: nat)
    requires 0 < dst <= src
    ensures var n := Hi(i, src, dst) - Lo(i, src, dst); dst * n - dst < src < dst * n + dst
  {
    BoxesMeet(i, src, dst);
    Quotient(i * src, dst);
    Quotient((i + 1) * src, dst);
    OneShare(i, src);
    Widths(dst, Lo(i, src, dst), Lo(i + 1, src, dst));
  }

  lemma OneShare(i: nat, src: nat)
    ensures (i + 1) * src == i * src + src
  {
  }

  lemma Widths(dst: nat, a: nat, b: nat)
    ensures dst * (b - a) == dst * b - dst * a
  {
  }

  lemma BoxInAxis(i: nat, src: nat, dst: nat)
    requires 0 < dst <= src && i < dst
    ensures Lo(i, src, dst) < Hi(i, src, dst) <= src
  {
    BoxesMeet(i, src, dst);
    BoxesEnd(src, dst);
    BoxesClimb(i + 1, dst, src, dst);
  }

  // ----- sums over a box

  /** Channel c of the pixel at (x, y). */
  function Channel(f: Frame, x: nat, y: nat, c: nat): nat
    requires f.Valid() && x < f.width && y < f.height && c < 4
  {
    PixelInRange(f, x, y);
    assert f.pixels[(y * f.width + x) * 4 + c] in f.pixels;
    f.pixels[(y * f.width + x) * 4 + c]
  }

  lemma PixelInRange(f: Frame, x: nat, y: nat)
    requires x < f.width && y < f.height
    ensures 0 <= (y * f.width + x) * 4 && (y * f.width + x) * 4 + 4 <= f.width * f.height * 4
  {
    assert (y + 1) * f.width <= f.height * f.width;
    assert (y + 1) * f.width == y * f.width + f.width;
  }

  function RowSum(f: Frame, y: nat, x0: nat, x1: nat, c: nat): nat
    requires f.Valid() && y < f.height && x0 <= x1 <= f.width && c < 4
  {
    if x0 == x1 then 0 else RowSum(f, y, x0, x1 - 1, c) + Channel(f, x1 - 1, y, c)
  }

  function BoxSum(f: Frame, x0: nat, x1: nat, y0: nat, y1: nat, c: nat): nat
    requires f.Valid() && x0 <= x1 <= f.width && y0 <= y1 <= f.height && c < 4
  {
    if y0 == y1 then 0 else BoxSum(f, x0, x1, y0, y1 - 1, c) + RowSum(f, y1 - 1, x0, x1, c)
  }

  lemma {:induction false} RowSumBounds(f: Frame, y: nat, x0: nat, x1: nat, c: nat, lo: nat, hi: nat)
    requires f.Valid() && y < f.height && x0 <= x1 <= f.width && c < 4
    requires forall x :: x0 <= x < x1 ==> lo <= Channel(f, x, y, c) <= hi
    ensures (x1 - x0) * lo <= RowSum(f, y, x0, x1, c) <= (x1 - x0) * hi
  {
    if x0 < x1 {
      RowSumBounds(f, y, x0, x1 - 1, c, lo, hi);
      assert (x1 - x0) * lo == (x1 - 1 - x0) * lo + lo && (x1 - x0) * hi == (x1 - 1 - x0) * hi + hi;
    }
  }

  lemma {:induction false} BoxSumBounds(f: Frame, x0: nat, x1: nat, y0: nat, y1: nat, c: nat, lo: nat, hi: nat)
    requires f.Valid() && x0 <= x1 <= f.width && y0 <= y1 <= f.height && c < 4
    requires forall x, y :: x0 <= x < x1 && y0 <= y < y1 ==> lo <= Channel(f, x, y, c) <= hi
    ensures Block(x1 - x0, y1 - y0, lo) <= BoxSum(f, x0, x1, y0, y1, c) <= Block(x1 - x0, y1 - y0, hi)
  {
    hide Channel, RowSum, Block;
    EmptyBlock(x1 - x0, lo);
    EmptyBlock(x1 - x0, hi);
    if y0 < y1 {
      BoxSumBounds(f, x0, x1, y0, y1 - 1, c, lo, hi);
      RowSumBounds(f, y1 - 1, x0, x1, c, lo, hi);
      OneMoreRow(x1 - x0, y1 - y0, lo);
      OneMoreRow(x1 - x0, y1 - y0, hi);
    }
  }

  /** The sum of a w by h block of equal values. */
  function Block(w: nat, h: nat, v: nat): nat { w * h * v }

  lemma EmptyBlock(w: nat, v: nat)
    ensures Block(w, 0, v) == 0
  {
  }

  lemma OneMoreRow(w: nat, h: nat, v: nat)
    requires h > 0
    ensures Block(w, h, v) == Block(w, h - 1, v) + w * v
  {
    assert w * h == w * (h - 1) + w;
    Distribute(w * (h - 1), w, v);
  }

  lemma Distribute(a: nat, b: nat, v: nat)
    ensures (a + b) * v == a * v + b * v
  {
  }

  lemma RoundDivBounds(sum: nat, n: nat, lo: nat, hi: nat)
    requires n > 0 && n * lo <= sum <= n * hi
    ensures lo <= RoundDiv(sum, n) <= hi
  {
    Twice(n, lo);
    Twice(n, hi);
    AtLeast(2 * sum + n, 2 * n, lo);
    AtMost(2 * sum + n, 2 * n, hi);
  }

  /** Twice n times the result misses twice the sum by at most n, and by n only when rounding a half up. */
  predicate NearestTo(r: int, sum: int, n: int)
  {
    2 * sum - n < 2 * (n * r) <= 2 * sum + n
  }

  lemma RoundDivNearest(sum: nat, n: nat)
    requires n > 0
    ensures NearestTo(RoundDiv(sum, n), sum, n)
  {
    var q := RoundDiv(sum, n);
    Quotient(2 * sum + n, 2 * n);
    Twice(n, q);
  }

  lemma Twice(n: nat, v: nat)
    ensures 2 * n * v == 2 * (n * v)
  {
  }

  // ----- the downscaled frame

  function OutHeight(f: Frame, maxWidth: nat): nat
    requires f.width > 0
  {
    var h := RoundDiv(f.height * maxWidth, f.width);
    if h > 1 then h else 1
  }

  /** Rounding never makes the frame taller. */
  lemma OutHeightFits(f: Frame, maxWidth: nat)
    requires f.Valid() && maxWidth <= f.width
    ensures 1 <= OutHeight(f, maxWidth) <= f.height
  {
    assert f.height * maxWidth <= f.height * f.width == f.width * f.height;
    RoundDivBounds(f.height * maxWidth, f.width, 0, f.height);
  }

  /** The height keeps the aspect ratio to the nearest whole pixel, and is 1 where that would be none. */
  lemma OutHeightNearest(f: Frame, maxWidth: nat)
    requires f.Valid()
    ensures if 2 * (f.height * maxWidth) < f.width then OutHeight(f, maxWidth) == 1
            else NearestTo(OutHeight(f, maxWidth), f.height * maxWidth, f.width)
  {
    var sum, n := f.height * maxWidth, f.width;
    RoundDivNearest(sum, n);
    if 2 * sum < n {
      AtMost(2 * sum + n, 2 * n, 0);
    } else {
      AtLeast(2 * sum + n, 2 * n, 1);
    }
  }

  /** Channel c of the output pixel at (x, y): the rounded mean of its box. */
  function OutChannel(f: Frame, outW: nat, outH: nat, x: nat, y: nat, c: nat): nat
    requires f.Valid() && 0 < outW <= f.width && 0 < outH <= f.height && x < outW && y < outH && c < 4
  {
    BoxInAxis(x, f.width, outW);
    BoxInAxis(y, f.height, outH);
    var x0, x1 := Lo(x, f.width, outW), Hi(x, f.width, outW);
    var y0, y1 := Lo(y, f.height, outH), Hi(y, f.height, outH);
    assert (x1 - x0) * (y1 - y0) >= 1 * 1 by { Product(x1 - x0, y1 - y0); }
    RoundDiv(BoxSum(f, x0, x1, y0, y1, c), (x1 - x0) * (y1 - y0))
  }

  lemma Product(a: nat, b: nat)
    requires a > 0 && b > 0
    ensures a * b > 0
  {
  }

  /** Every output channel is the mean of its box, to the nearest whole value. */
  lemma OutChannelNearest(f: Frame, outW: nat, outH: nat, x: nat, y: nat, c: nat)
    requires f.Valid() && 0 < outW <= f.width && 0 < outH <= f.height && x < outW && y < outH && c < 4
    ensures var x0, x1 := Lo(x, f.width, outW), Hi(x, f.width, outW);
      var y0, y1 := Lo(y, f.height, outH), Hi(y, f.height, outH);
      && x0 < x1 <= f.width && y0 < y1 <= f.height
      && NearestTo(OutChannel(f, outW, outH, x, y, c), BoxSum(f, x0, x1, y0, y1, c), (x1 - x0) * (y1 - y0))
  {
    hide NearestTo, BoxSum, Lo, Hi, RoundDiv, Frame.Valid;
    BoxInAxis(x, f.width, outW);
    BoxInAxis(y, f.height, outH);
    var x0, x1 := Lo(x, f.width, outW), Hi(x, f.width, outW);
    var y0, y1 := Lo(y, f.height, outH), Hi(y, f.height, outH);
    Product(x1 - x0, y1 - y0);
    RoundDivNearest(BoxSum(f, x0, x1, y0, y1, c), (x1 - x0) * (y1 - y0));
  }

  /** Every output channel lies between the least and the greatest value in its box. */
  lemma OutChannelBetween(f: Frame, outW: nat, outH: nat, x: nat, y: nat, c: nat, lo: nat, hi: nat)
    requires f.Valid() && 0 < outW <= f.width && 0 < outH <= f.height && x < outW && y < outH && c < 4
    requires Hi(x, f.width, outW) <= f.width && Hi(y, f.height, outH) <= f.height
    requires forall sx, sy |
      Lo(x, f.width, outW) <= sx < Hi(x, f.width, outW) && Lo(y, f.height, outH) <= sy < Hi(y, f.height, outH) ::
      lo <= Channel(f, sx, sy, c) <= hi
    ensures lo <= OutChannel(f, outW, outH, x, y, c) <= hi
  {
    BoxInAxis(x, f.width, outW);
    BoxInAxis(y, f.height, outH);
    var x0, x1 := Lo(x, f.width, outW), Hi(x, f.width, outW);
    var y0, y1 := Lo(y, f.height, outH), Hi(y, f.height, outH);
    Product(x1 - x0, y1 - y0);
    BoxSumBounds(f, x0, x1, y0, y1, c, lo, hi);
    RoundDivBounds(BoxSum(f, x0, x1, y0, y1, c), (x1 - x0) * (y1 - y0), lo, hi);
  }

  /** Every source pixel is averaged into exactly one output pixel. */
  lemma EachPixelOnce(f: Frame, outW: nat, outH: nat, sx: nat, sy: nat) returns (x: nat, y: nat)
    requires 0 < outW <= f.width && 0 < outH <= f.height && sx < f.width && sy < f.height
    ensures x < outW && y < outH && InBox(sx, x, f.width, outW) && InBox(sy, y, f.height, outH)
    ensures forall i: nat, j: nat ::
      (i < outW && j < outH && InBox(sx, i, f.width, outW) && InBox(sy, j, f.height, outH) ==> i == x && j == y)
  {
    x := BoxesTile(sx, f.width, outW);
    y := BoxesTile(sy, f.height, outH);
  }
}
