/** The loops that downscale a frame and sample pixels, over byte buffers. */
module FrameScaling {
  import opened BoxFilter

  /** Output bytes are the means of their boxes. */
  ghost predicate Scalable(f: Frame, outW: nat, outH: nat)
  {
    f.Valid() && 0 < outW <= f.width && 0 < outH <= f.height
  }

  function PixelBytes(f: Frame, outW: nat, outH: nat, x: nat, y: nat): (r: seq<int>)
    requires f.Valid() && 0 < outW <= f.width && 0 < outH <= f.height && x < outW && y < outH
    ensures |r| == 4
  {
    [OutChannel(f, outW, outH, x, y, 0), OutChannel(f, outW, outH, x, y, 1),
     OutChannel(f, outW, outH, x, y, 2), OutChannel(f, outW, outH, x, y, 3)]
  }

  /** The first x pixels of output row y. */
  function RowBytes(f: Frame, outW: nat, outH: nat, x: nat, y: nat): (r: seq<int>)
    requires f.Valid() && 0 < outW <= f.width && 0 < outH <= f.height && x <= outW && y < outH
    ensures |r| == 4 * x
  {
    if x == 0 then [] else RowBytes(f, outW, outH, x - 1, y) + PixelBytes(f, outW, outH, x - 1, y)
  }

  /** The first y output rows. */
  function ImageBytes(f: Frame, outW: nat, outH: nat, y: nat): (r: seq<int>)
    requires f.Valid() && 0 < outW <= f.width && 0 < outH <= f.height && y <= outH
    ensures |r| == 4 * (y * outW)
  {
    if y == 0 then [] else
      assert y * outW == (y - 1) * outW + outW;
      ImageBytes(f, outW, outH, y - 1) + RowBytes(f, outW, outH, outW, y - 1)
  }

  lemma {:induction false} RowByteAt(f: Frame, outW: nat, outH: nat, n: nat, x: nat, y: nat, c: nat)
    requires Scalable(f, outW, outH) && x < n <= outW && y < outH && c < 4
    ensures RowBytes(f, outW, outH, n, y)[4 * x + c] == OutChannel(f, outW, outH, x, y, c)
  {
    hide OutChannel;
    if x < n - 1 {
      RowByteAt(f, outW, outH, n - 1, x, y, c);
    }
  }

  lemma Offset(y: nat, outW: nat, x: nat, rows: nat)
    requires y < rows && x < outW
    ensures y * outW + x < rows * outW
  {
    MulLe(outW, y + 1, rows);
    MulSucc(outW, y);
  }

  /** Byte c of pixel (x, y) sits at (y * width + x) * 4 + c and is the rounded mean of its box. */
  lemma {:induction false} ImageByteAt(f: Frame, outW: nat, outH: nat, rows: nat, x: nat, y: nat, c: nat)
    requires Scalable(f, outW, outH) && x < outW && y < rows <= outH && c < 4
    ensures 4 * (y * outW + x) + c < 4 * (rows * outW)
    ensures ImageBytes(f, outW, outH, rows)[4 * (y * outW + x) + c] == OutChannel(f, outW, outH, x, y, c)
  {
    hide OutChannel, RowBytes;
    Offset(y, outW, x, rows);
    if y < rows - 1 {
      ImageByteAt(f, outW, outH, rows - 1, x, y, c);
    } else {
      RowByteAt(f, outW, outH, outW, x, y, c);
    }
  }

  /** Sums of the four channels over one box, and how many pixels were summed. */
  method SumBox(f: Frame, x0: nat, x1: nat, y0: nat, y1: nat) returns (r: nat, g: nat, b: nat, a: nat, n: nat)
    requires f.Valid() && x0 <= x1 <= f.width && y0 <= y1 <= f.height
    ensures r == BoxSum(f, x0, x1, y0, y1, 0) && g == BoxSum(f, x0, x1, y0, y1, 1)
    ensures b == BoxSum(f, x0, x1, y0, y1, 2) && a == BoxSum(f, x0, x1, y0, y1, 3)
    ensures n == (x1 - x0) * (y1 - y0)
  {
    r, g, b, a, n := 0, 0, 0, 0, 0;
    for yy := y0 to y1
      invariant r == BoxSum(f, x0, x1, y0, yy, 0) && g == BoxSum(f, x0, x1, y0, yy, 1)
      invariant b == BoxSum(f, x0, x1, y0, yy, 2) && a == BoxSum(f, x0, x1, y0, yy, 3)
      invariant n == (x1 - x0) * (yy - y0)
    {
      for xx := x0 to x1
        invariant r == BoxSum(f, x0, x1, y0, yy, 0) + RowSum(f, yy, x0, xx, 0)
        invariant g == BoxSum(f, x0, x1, y0, yy, 1) + RowSum(f, yy, x0, xx, 1)
        invariant b == BoxSum(f, x0, x1, y0, yy, 2) + RowSum(f, yy, x0, xx, 2)
        invariant a == BoxSum(f, x0, x1, y0, yy, 3) + RowSum(f, yy, x0, xx, 3)
        invariant n == (x1 - x0) * (yy - y0) + (xx - x0)
      {
        PixelInRange(f, xx, yy);
        var i := (yy * f.width + xx) * 4;
        assert f.pixels[i] == Channel(f, xx, yy, 0) && f.pixels[i + 1] == Channel(f, xx, yy, 1);
        assert f.pixels[i + 2] == Channel(f, xx, yy, 2) && f.pixels[i + 3] == Channel(f, xx, yy, 3);
        r := r + Channel(f, xx, yy, 0);
        g := g + Channel(f, xx, yy, 1);
        b := b + Channel(f, xx, yy, 2);
        a := a + Channel(f, xx, yy, 3);
        n := n + 1;
      }
      assert (x1 - x0) * (yy + 1 - y0) == (x1 - x0) * (yy - y0) + (x1 - x0) by { MulSucc(x1 - x0, yy - y0); }
    }
  }

  /** Writes output pixel (x, y) at its place in the buffer. */
  method FillPixel(f: Frame, out: array<int>, outW: nat, outH: nat, x: nat, y: nat)
    requires Scalable(f, outW, outH) && x < outW && y < outH
    requires 4 * (y * outW + x) + 4 <= out.Length
    modifies out
    ensures out[..4 * (y * outW + x) + 4] == old(out[..4 * (y * outW + x)]) + PixelBytes(f, outW, outH, x, y)
  {
    hide BoxSum, Lo, Hi;
    BoxInAxis(x, f.width, outW);
    BoxInAxis(y, f.height, outH);
    var x0, x1 := Lo(x, f.width, outW), Hi(x, f.width, outW);
    var y0, y1 := Lo(y, f.height, outH), Hi(y, f.height, outH);
    var r, g, b, a, n := SumBox(f, x0, x1, y0, y1);
    Product(x1 - x0, y1 - y0);
    var o := (y * outW + x) * 4;
    out[o] := RoundDiv(r, n);
    out[o + 1] := RoundDiv(g, n);
    out[o + 2] := RoundDiv(b, n);
    out[o + 3] := RoundDiv(a, n);
  }

  method FillRow(f: Frame, out: array<int>, outW: nat, outH: nat, y: nat)
    requires Scalable(f, outW, outH) && y < outH
    requires 4 * (y * outW) + 4 * outW <= out.Length
    modifies out
    ensures out[..4 * (y * outW) + 4 * outW] == old(out[..4 * (y * outW)]) + RowBytes(f, outW, outH, outW, y)
  {
    hide OutChannel, PixelBytes, Scalable;
    assert f.Valid() && 0 < outW <= f.width && 0 < outH <= f.height by { ScalableParts(f, outW, outH); }
    ghost var start, before := 4 * (y * outW), out[..4 * (y * outW)];
    for x := 0 to outW
      invariant out[..start + 4 * x] == before + RowBytes(f, outW, outH, x, y)
    {
      assert 4 * (y * outW + x) == start + 4 * x;
      FillPixel(f, out, outW, outH, x, y);
    }
  }

  lemma ScalableParts(f: Frame, outW: nat, outH: nat)
    requires Scalable(f, outW, outH)
    ensures f.Valid() && 0 < outW <= f.width && 0 < outH <= f.height
  {
  }

  method FitWidth(f: Frame, maxWidth: nat) returns (scaled: Frame)
    requires f.Valid() && maxWidth > 0
    ensures f.width <= maxWidth ==> scaled == f
    ensures f.width > maxWidth ==>
      && scaled.width == maxWidth && scaled.height == OutHeight(f, maxWidth)
      && 1 <= scaled.height <= f.height
      && scaled.pixels == ImageBytes(f, maxWidth, scaled.height, scaled.height)
  {
    if f.width <= maxWidth {
      return f;
    }
    hide RowBytes, OutHeight, Frame.Valid;
    var outW, outH := maxWidth, OutHeight(f, maxWidth);
    OutHeightFits(f, maxWidth);
    assert outW * outH == outH * outW;
    var out := new int[outW * outH * 4];
    for y := 0 to outH
      invariant out.Length == 4 * (outH * outW) && 4 * (y * outW) <= out.Length
      invariant out[..4 * (y * outW)] == ImageBytes(f, outW, outH, y)
    {
      MulLe(outW, y + 1, outH);
      MulSucc(outW, y);
      FillRow(f, out, outW, outH, y);
      assert 4 * ((y + 1) * outW) == 4 * (y * outW) + 4 * outW;
    }
    assert out[..4 * (outH * outW)] == out[..];
    return Frame(out[..], outW, outH);
  }

  // ----- sampling

  const STRIDE: nat := 7

  /** Every seventh pixel of one frame, from pixel px on. */
  function SampleFrom(pixels: seq<int>, px: nat): seq<int>
    requires |pixels| % 4 == 0
    decreases |pixels| - 4 * px
  {
    if 4 * px >= |pixels| then [] else pixels[4 * px..4 * px + 4] + SampleFrom(pixels, px + STRIDE)
  }

  /** Bytes set aside for one frame of this many bytes. */
  function SampledPerFrame(perFrame: nat): nat
  {
    (perFrame + 4 * STRIDE - 1) / (4 * STRIDE) * 4
  }

  lemma {:induction false} SampleLength(pixels: seq<int>, px: nat)
    requires |pixels| % 4 == 0
    ensures |SampleFrom(pixels, px)| == if 4 * px >= |pixels| then 0 else SampledPerFrame(|pixels| - 4 * px)
    decreases |pixels| - 4 * px
  {
    if 4 * px < |pixels| {
      SampleLength(pixels, px + STRIDE);
    }
  }

  /** All frames have this many bytes, four to a pixel. */
  predicate SameSize(frames: seq<Frame>, size: nat)
  {
    size % 4 == 0 && forall f :: f in frames ==> |f.pixels| == size
  }

  function SampleAll(frames: seq<Frame>, size: nat, k: nat): seq<int>
    requires SameSize(frames, size)
    decreases |frames| - k
  {
    if k >= |frames| then [] else
      assert frames[k] in frames;
      SampleFrom(frames[k].pixels, 0) + SampleAll(frames, size, k + 1)
  }

  /** Pixel i of a sample is pixel 7 * i of the frame, counted from where the sampling starts. */
  lemma {:induction false} SampleFromAt(pixels: seq<int>, px: nat, i: nat, c: nat)
    requires |pixels| % 4 == 0 && 4 * (px + 7 * i) < |pixels| && c < 4
    ensures 4 * i + c < |SampleFrom(pixels, px)|
    ensures SampleFrom(pixels, px)[4 * i + c] == pixels[4 * (px + 7 * i) + c]
    decreases i
  {
    if i > 0 {
      SampleFromAt(pixels, px + STRIDE, i - 1, c);
    }
  }

  /** The space for k frames. */
  function Space(each: nat, k: nat): nat { each * k }

  lemma MoreSpace(each: nat, k: nat, n: nat)
    requires k < n
    ensures Space(each, k + 1) == Space(each, k) + each <= Space(each, n)
  {
    MulSucc(each, k);
    MulLe(each, k + 1, n);
  }

  lemma NoSpace(each: nat)
    ensures Space(each, 0) == 0
  {
  }

  lemma FrameOnward(frames: seq<Frame>, k: nat, size: nat)
    requires SameSize(frames, size) && k < |frames|
    ensures |frames[k].pixels| == size && |frames[k].pixels| % 4 == 0
    ensures |SampleFrom(frames[k].pixels, 0)| == SampledPerFrame(size)
    ensures SampleAll(frames, size, k) == SampleFrom(frames[k].pixels, 0) + SampleAll(frames, size, k + 1)
  {
    assert SampledPerFrame(0) == 0;
    hide SampleFrom, SampledPerFrame;
    assert frames[k] in frames;
    SampleLength(frames[k].pixels, 0);
  }

  /** The whole sample holds, frame after frame, every seventh pixel of each and nothing else. */
  lemma {:induction false} SampledByte(frames: seq<Frame>, size: nat, first: nat, k: nat, i: nat, c: nat)
    requires SameSize(frames, size) && first <= k < |frames| && 28 * i < size && c < 4
    ensures var at := Space(SampledPerFrame(size), k - first) + (4 * i + c);
      && at < |SampleAll(frames, size, first)|
      && |frames[k].pixels| == size && SampleAll(frames, size, first)[at] == frames[k].pixels[28 * i + c]
    decreases k - first
  {
    FrameOnward(frames, first, size);
    FrameOnward(frames, k, size);
    hide SampleAll, SampleFrom, SampledPerFrame, Space, SameSize;
    var own, rest := SampleFrom(frames[first].pixels, 0), SampleAll(frames, size, first + 1);
    if first < k {
      SampledByte(frames, size, first + 1, k, i, c);
      MoreSpace(SampledPerFrame(size), k - first - 1, k - first);
      InLaterPart(own, rest, Space(SampledPerFrame(size), k - first - 1) + (4 * i + c));
    } else {
      NoSpace(SampledPerFrame(size));
      SampleFromAt(frames[k].pixels, 0, i, c);
      InFirstPart(own, rest, 4 * i + c);
    }
  }

  lemma InLaterPart(own: seq<int>, rest: seq<int>, at: nat)
    requires at < |rest|
    ensures |own| + at < |own + rest| && (own + rest)[|own| + at] == rest[at]
  {
  }

  lemma InFirstPart(own: seq<int>, rest: seq<int>, at: nat)
    requires at < |own|
    ensures at < |own + rest| && (own + rest)[at] == own[at]
  {
  }

  /** For equal-sized frames the preallocated buffer is filled exactly, by every seventh pixel of each. */
  method SampleUnion(frames: seq<Frame>) returns (sample: seq<int>)
    requires frames != [] && SameSize(frames, |frames[0].pixels|)
    ensures sample == SampleAll(frames, |frames[0].pixels|, 0)
    ensures |sample| == Space(SampledPerFrame(|frames[0].pixels|), |frames|)
  {
    var perFrame := |frames[0].pixels|;
    assert SampleAll(frames, perFrame, |frames|) == [];
    hide SampledPerFrame, SampleFrom, SampleAll, Space, SameSize;
    var each := SampledPerFrame(perFrame);
    var out := new int[Space(each, |frames|)];
    var w := 0;
    NoSpace(each);
    for k := 0 to |frames|
      invariant w == Space(each, k) <= out.Length
      invariant out[..w] + SampleAll(frames, perFrame, k) == SampleAll(frames, perFrame, 0)
    {
      FrameOnward(frames, k, perFrame);
      MoreSpace(each, k, |frames|);
      ghost var before, own := out[..w], SampleFrom(frames[k].pixels, 0);
      w := SampleOne(frames[k].pixels, out, w);
      MoveOver(before, own, SampleAll(frames, perFrame, k + 1));
    }
    assert out[..w] == out[..];
    return out[..w];
  }

  lemma MoveOver(before: seq<int>, own: seq<int>, rest: seq<int>)
    ensures before + (own + rest) == (before + own) + rest
  {
  }

  method SampleOne(pixels: seq<int>, out: array<int>, start: nat) returns (w: nat)
    requires |pixels| % 4 == 0 && start + |SampleFrom(pixels, 0)| <= out.Length
    modifies out
    ensures w == start + |SampleFrom(pixels, 0)|
    ensures out[..w] == old(out[..start]) + SampleFrom(pixels, 0)
  {
    w := start;
    var px := 0;
    ghost var before := out[..start];
    while px * 4 < |pixels|
      invariant start <= w && w + |SampleFrom(pixels, px)| == start + |SampleFrom(pixels, 0)|
      invariant out[..w] + SampleFrom(pixels, px) == before + SampleFrom(pixels, 0)
      decreases |pixels| - px * 4
    {
      var i := px * 4;
      ghost var was := out[..w];
      out[w], out[w + 1], out[w + 2], out[w + 3] := pixels[i], pixels[i + 1], pixels[i + 2], pixels[i + 3];
      assert out[..w + 4] == was + pixels[i..i + 4];
      w := w + 4;
      px := px + STRIDE;
    }
  }
}
