/**
 * The pixel loops of the legacy TCP streaming server
 * (server/src/streaming_server.cpp): the studio-range RGB to YUV 4:2:0
 * conversion of each rendered frame, the nearest-neighbour scaling of a
 * volume slice to the render size, and the animated test pattern drawn
 * when no volume is loaded.
 */
module ServerPictures {
  import opened Wire
  import opened Colour
  import opened Raster

  /**
   * The output layout as written: a luma plane of w*h bytes, then two chroma
   * planes of w*h/4 bytes each, chroma of pixel (x, y) at (y/2)*(w/2) + x/2.
   */
  function AsWrittenSize(w: nat, h: nat): nat
  {
    w * h + 2 * (w * h / 4)
  }

  /** Where the loop as written stores the V sample of pixel (x, y). */
  function AsWrittenCrIndex(w: nat, h: nat, x: nat, y: nat): nat
  {
    w * h + w * h / 4 + (y / 2) * (w / 2) + x / 2
  }

  /**
   * With an odd picture size the chroma planes are too small: for a 1x1
   * picture the single V sample (and the U sample too) is stored past the end.
   */
  lemma AsWrittenOverflowsOnOddSize()
    ensures AsWrittenCrIndex(1, 1, 0, 0) >= AsWrittenSize(1, 1)
    ensures AsWrittenCrIndex(3, 3, 2, 2) >= AsWrittenSize(3, 3)
  {
    assert 1 * 1 / 4 == 0 && 0 / 2 == 0 && 1 / 2 == 0;
    assert 3 * 3 / 4 == 2 && 2 / 2 == 1 && 3 / 2 == 1;
  }

  /** Chroma plane width and height: one sample per 2x2 block, a partial block included. */
  function ChromaWidth(w: nat): nat { (w + 1) / 2 }
  function ChromaHeight(h: nat): nat { (h + 1) / 2 }

  /** The corrected output size: luma, then two chroma planes of ChromaWidth * ChromaHeight. */
  function YuvSize(w: nat, h: nat): (n: nat)
    ensures n >= w * h
  {
    w * h + 2 * (ChromaHeight(h) * ChromaWidth(w))
  }


  /** For even sizes the corrected layout is the one as written, slot for slot. */
  lemma CorrectedLayoutAgreesOnEvenSize(w: nat, h: nat, x: nat, y: nat)
    requires w % 2 == 0 && h % 2 == 0
    ensures YuvSize(w, h) == AsWrittenSize(w, h)
    ensures AsWrittenCrIndex(w, h, x, y)
         == w * h + ChromaHeight(h) * ChromaWidth(w) + Idx(x / 2, y / 2, ChromaWidth(w))
  {
    var a, b := w / 2, h / 2;
    assert w * h == 4 * (a * b);
    assert w * h / 4 == a * b;
    assert ChromaWidth(w) == a && ChromaHeight(h) == b;
  }

  /** Every chroma slot of the corrected layout lies inside the output. */
  lemma ChromaSlotInside(w: nat, h: nat, x: nat, y: nat)
    requires x < w && y < h
    ensures x / 2 < ChromaWidth(w) && y / 2 < ChromaHeight(h)
    ensures w * h + ChromaHeight(h) * ChromaWidth(w) + Idx(x / 2, y / 2, ChromaWidth(w)) < YuvSize(w, h)
  {
    IdxBound(x / 2, y / 2, ChromaWidth(w), ChromaHeight(h));
  }

  /** Luma sample k of the output is the studio luma of pixel k. */
  ghost predicate LumaAt(yuv: seq<byte>, rgb: seq<byte>, w: nat, h: nat, k: nat)
    requires |rgb| == w * h * 3 && |yuv| == YuvSize(w, h) && k < w * h
  {
    yuv[k] == LumaStudio(RgbAt(rgb, k))
  }

  /** Chroma slot (cx, cy) holds the studio Cb and Cr of pixel (2cx, 2cy), the top left of its block. */
  ghost predicate ChromaAt(yuv: seq<byte>, rgb: seq<byte>, w: nat, h: nat, cx: nat, cy: nat)
    requires |rgb| == w * h * 3 && |yuv| == YuvSize(w, h)
    requires cx < ChromaWidth(w) && cy < ChromaHeight(h)
  {
    ChromaSlotInside(w, h, 2 * cx, 2 * cy);
    PixelInPicture(2 * cx, 2 * cy, w, h);
    var c := Idx(cx, cy, ChromaWidth(w));
    var p := RgbAt(rgb, Idx(2 * cx, 2 * cy, w));
    yuv[w * h + c] == CbStudio(p)
    && yuv[w * h + ChromaHeight(h) * ChromaWidth(w) + c] == CrStudio(p)
  }

  /** The number of chroma slots in each chroma plane. */
  function PlaneSize(w: nat, h: nat): nat
  {
    ChromaHeight(h) * ChromaWidth(w)
  }

  /** The pixel whose colour chroma slot c takes: the top left of its 2x2 block. */
  function ChromaSource(w: nat, c: nat): nat
  {
    var cw := ChromaWidth(w);
    if cw == 0 then 0 else Idx(2 * (c % cw), 2 * (c / cw), w)
  }

  /** Pixel k of an RGB picture, black past its end. */
  function PixelOf(rgb: seq<byte>, k: nat): Rgb
  {
    if 3 * k + 2 < |rgb| then RgbAt(rgb, k) else Rgb(0, 0, 0)
  }

  /** The luma samples 0 .. n-1 are written. */
  ghost predicate LumaDone(yuv: seq<byte>, rgb: seq<byte>, n: nat)
    requires n <= |yuv| && 3 * n <= |rgb|
  {
    forall k :: 0 <= k < n ==> yuv[k] == LumaStudio(RgbAt(rgb, k))
  }

  /** The chroma slots 0 .. m-1 of both planes are written. */
  ghost predicate ChromaDone(yuv: seq<byte>, rgb: seq<byte>, w: nat, h: nat, m: nat)
    requires |yuv| == w * h + 2 * PlaneSize(w, h) && m <= PlaneSize(w, h)
  {
    forall c :: 0 <= c < m ==>
      yuv[w * h + c] == CbStudio(PixelOf(rgb, ChromaSource(w, c)))
      && yuv[w * h + PlaneSize(w, h) + c] == CrStudio(PixelOf(rgb, ChromaSource(w, c)))
  }

  /** Writing luma sample k extends the written luma and disturbs no chroma. */
  lemma LumaStep(before: seq<byte>, after: seq<byte>, rgb: seq<byte>, w: nat, h: nat, k: nat, m: nat)
    requires |before| == w * h + 2 * PlaneSize(w, h) && 3 * (w * h) <= |rgb| && k < w * h
    requires m <= PlaneSize(w, h)
    requires LumaDone(before, rgb, k) && ChromaDone(before, rgb, w, h, m)
    requires after == before[k := LumaStudio(RgbAt(rgb, k))]
    ensures LumaDone(after, rgb, k + 1) && ChromaDone(after, rgb, w, h, m)
  {
  }

  /** Writing chroma slot m of both planes extends the written chroma and disturbs no luma. */
  lemma ChromaStep(before: seq<byte>, after: seq<byte>, rgb: seq<byte>, w: nat, h: nat, n: nat, m: nat)
    requires |before| == w * h + 2 * PlaneSize(w, h) && 3 * n <= |rgb| && n <= w * h
    requires m < PlaneSize(w, h)
    requires LumaDone(before, rgb, n) && ChromaDone(before, rgb, w, h, m)
    requires var p := PixelOf(rgb, ChromaSource(w, m));
      after == before[w * h + m := CbStudio(p)][w * h + PlaneSize(w, h) + m := CrStudio(p)]
    ensures LumaDone(after, rgb, n) && ChromaDone(after, rgb, w, h, m + 1)
  {
  }

  /** The number of chroma slots the scan has written before it reaches pixel (x, y). */
  function ChromaWritten(w: nat, x: nat, y: nat): nat
  {
    (y + 1) / 2 * ChromaWidth(w) + (if y % 2 == 0 then (x + 1) / 2 else 0)
  }

  /** At an even pixel the next chroma slot is the one of that pixel's block. */
  lemma ChromaSlotOfEvenPixel(w: nat, h: nat, x: nat, y: nat)
    requires x < w && y < h && x % 2 == 0 && y % 2 == 0
    ensures ChromaWritten(w, x, y) == Idx(x / 2, y / 2, ChromaWidth(w)) < PlaneSize(w, h)
    ensures ChromaSource(w, ChromaWritten(w, x, y)) == Idx(x, y, w)
  {
    IdxDivMod(x / 2, y / 2, ChromaWidth(w));
    IdxBound(x / 2, y / 2, ChromaWidth(w), ChromaHeight(h));
  }

  lemma ChromaWrittenNextRow(w: nat, y: nat)
    ensures ChromaWritten(w, w, y) == ChromaWritten(w, 0, y + 1)
  {
    var cw := ChromaWidth(w);
    if y % 2 == 0 {
      var a := y / 2;
      assert (y + 1) / 2 == a && (y + 2) / 2 == a + 1;
      assert (a + 1) * cw == a * cw + cw;
    } else {
      assert (y + 1) / 2 == (y + 2) / 2;
    }
  }

  /** Passing pixel (x, y) writes one more chroma slot exactly when x and y are even, never past the plane. */
  lemma ChromaWrittenStep(w: nat, h: nat, x: nat, y: nat)
    requires x < w && y < h
    ensures ChromaWritten(w, x + 1, y) == ChromaWritten(w, x, y) + (if x % 2 == 0 && y % 2 == 0 then 1 else 0)
    ensures ChromaWritten(w, x + 1, y) <= PlaneSize(w, h)
  {
    var cw := ChromaWidth(w);
    ChromaWrittenNextRow(w, y);
    assert ChromaWritten(w, x + 1, y) <= ChromaWritten(w, w, y);
    assert ChromaWritten(w, 0, y + 1) == (y + 2) / 2 * cw;
    MulMono((y + 2) / 2, ChromaHeight(h), cw);
  }

  /** Once every slot is written, each slot (cx, cy) holds the colour of pixel (2cx, 2cy). */
  lemma ChromaDoneAll(yuv: seq<byte>, rgb: seq<byte>, w: nat, h: nat)
    requires |rgb| == w * h * 3 && |yuv| == YuvSize(w, h)
    requires ChromaDone(yuv, rgb, w, h, PlaneSize(w, h))
    ensures forall cy, cx :: 0 <= cy < ChromaHeight(h) && 0 <= cx < ChromaWidth(w) ==>
      ChromaAt(yuv, rgb, w, h, cx, cy)
  {
    forall cy, cx | 0 <= cy < ChromaHeight(h) && 0 <= cx < ChromaWidth(w)
      ensures ChromaAt(yuv, rgb, w, h, cx, cy)
    {
      ChromaSlotOfEvenPixel(w, h, 2 * cx, 2 * cy);
      PixelInPicture(2 * cx, 2 * cy, w, h);
    }
  }

  /**
   * One pass of the conversion's inner loop: the luma sample of pixel (x, y),
   * then, at an even row and column, its block's Cb and Cr.
   */
  method ConvertPixel(rgb: seq<byte>, w: nat, h: nat, x: nat, y: nat, yuv: array<byte>, ghost m: nat)
    returns (ghost m': nat)
    requires |rgb| == w * h * 3 && yuv.Length == YuvSize(w, h) && x < w && y < h
    requires m == ChromaWritten(w, x, y) <= PlaneSize(w, h) && Idx(x, y, w) < w * h
    requires LumaDone(yuv[..], rgb, Idx(x, y, w)) && ChromaDone(yuv[..], rgb, w, h, m)
    modifies yuv
    ensures m' == ChromaWritten(w, x + 1, y) <= PlaneSize(w, h)
    ensures LumaDone(yuv[..], rgb, Idx(x, y, w) + 1) && ChromaDone(yuv[..], rgb, w, h, m')
  {
    var cw, ch := ChromaWidth(w), ChromaHeight(h);
    var k := Idx(x, y, w);
    var p := RgbAt(rgb, k);
    ghost var before := yuv[..];
    yuv[k] := LumaStudio(p);
    LumaStep(before, yuv[..], rgb, w, h, k, m);
    m' := m;
    if x % 2 == 0 && y % 2 == 0 {
      ChromaSlotOfEvenPixel(w, h, x, y);
      var c := Idx(x / 2, y / 2, cw);
      before := yuv[..];
      yuv[w * h + c] := CbStudio(p);
      yuv[w * h + ch * cw + c] := CrStudio(p);
      ChromaStep(before, yuv[..], rgb, w, h, k + 1, m);
      m' := m + 1;
    }
    ChromaWrittenStep(w, h, x, y);
  }

  /** The conversion's inner loop over row y. */
  method ConvertRow(rgb: seq<byte>, w: nat, h: nat, y: nat, yuv: array<byte>, ghost m: nat)
    returns (ghost m': nat)
    requires |rgb| == w * h * 3 && yuv.Length == YuvSize(w, h) && y < h
    requires m == ChromaWritten(w, 0, y) <= PlaneSize(w, h) && Idx(0, y, w) <= w * h
    requires LumaDone(yuv[..], rgb, Idx(0, y, w)) && ChromaDone(yuv[..], rgb, w, h, m)
    modifies yuv
    ensures m' == ChromaWritten(w, 0, y + 1) <= PlaneSize(w, h) && Idx(0, y + 1, w) <= w * h
    ensures LumaDone(yuv[..], rgb, Idx(0, y + 1, w)) && ChromaDone(yuv[..], rgb, w, h, m')
  {
    m' := m;
    var x := 0;
    while x < w
      invariant 0 <= x <= w
      invariant m' == ChromaWritten(w, x, y) <= PlaneSize(w, h)
      invariant Idx(x, y, w) <= w * h
      invariant LumaDone(yuv[..], rgb, Idx(x, y, w)) && ChromaDone(yuv[..], rgb, w, h, m')
    {
      PixelInPicture(x, y, w, h);
      m' := ConvertPixel(rgb, w, h, x, y, yuv, m');
      x := x + 1;
    }
    ChromaWrittenNextRow(w, y);
    IdxNextRow(y, w);
  }

  /**
   * convert_rgb_to_yuv420 with the chroma planes sized for odd dimensions
   * too. Every luma sample is written from its pixel, every chroma slot
   * from the top-left pixel of its 2x2 block.
   */
  method ConvertRgbToYuv420(rgb: seq<byte>, w: nat, h: nat) returns (yuv: array<byte>)
    requires |rgb| == w * h * 3
    ensures fresh(yuv) && yuv.Length == YuvSize(w, h)
    ensures forall k :: 0 <= k < w * h ==> LumaAt(yuv[..], rgb, w, h, k)
    ensures forall cy, cx :: 0 <= cy < ChromaHeight(h) && 0 <= cx < ChromaWidth(w) ==>
      ChromaAt(yuv[..], rgb, w, h, cx, cy)
  {
    yuv := new byte[YuvSize(w, h)];
    ghost var m := 0;
    var y := 0;
    while y < h
      invariant 0 <= y <= h
      invariant m == ChromaWritten(w, 0, y) <= PlaneSize(w, h)
      invariant Idx(0, y, w) <= w * h
      invariant LumaDone(yuv[..], rgb, Idx(0, y, w)) && ChromaDone(yuv[..], rgb, w, h, m)
    {
      m := ConvertRow(rgb, w, h, y, yuv, m);
      y := y + 1;
    }
    ChromaDoneAll(yuv[..], rgb, w, h);
  }

  /**
   * Nearest-neighbour scaling: render pixel (x, y) takes slice pixel
   * (x*sw/rw, y*sh/rh) when its three bytes lie inside the slice, and stays
   * black otherwise.
   */
  function ScaledAt(slice: seq<byte>, sw: nat, sh: nat, rw: nat, rh: nat, x: nat, y: nat): Rgb
    requires rw > 0 && rh > 0
  {
    PixelOf(slice, Idx(ScaleCoord(x, sw, rw), ScaleCoord(y, sh, rh), sw))
  }

  /** Coordinate c of a size-r axis mapped onto a size-s axis, rounding down. */
  function ScaleCoord(c: nat, s: nat, r: nat): nat
    requires r > 0
  {
    c * s / r
  }

  /** A slice of sw x sh pixels covers every source position the scaling reads. */
  lemma ScaledSourceInside(slice: seq<byte>, sw: nat, sh: nat, rw: nat, rh: nat, x: nat, y: nat)
    requires |slice| == sw * sh * 3 && sw > 0 && sh > 0 && x < rw && y < rh
    ensures x * sw / rw < sw && y * sh / rh < sh
    ensures 3 * Idx(x * sw / rw, y * sh / rh, sw) + 2 < |slice|
    ensures ScaledAt(slice, sw, sh, rw, rh, x, y) == RgbAt(slice, Idx(x * sw / rw, y * sh / rh, sw))
  {
    var sx, sy := x * sw / rw, y * sh / rh;
    ScaledCoordinateBound(x, sw, rw);
    ScaledCoordinateBound(y, sh, rh);
    PixelInPicture(sx, sy, sw, sh);
    var k := Idx(sx, sy, sw);
    assert PixelOf(slice, k) == RgbAt(slice, k);
  }

  /** Scaling a slice to its own size copies it pixel for pixel. */
  lemma ScaleToSameSize(slice: seq<byte>, sw: nat, sh: nat, x: nat, y: nat)
    requires |slice| == sw * sh * 3 && x < sw && y < sh
    ensures 3 * Idx(x, y, sw) + 2 < |slice|
    ensures ScaledAt(slice, sw, sh, sw, sh, x, y) == RgbAt(slice, Idx(x, y, sw))
  {
    IdxDivMod(0, x, sw);
    IdxDivMod(0, y, sh);
    PixelInPicture(x, y, sw, sh);
    assert PixelOf(slice, Idx(x, y, sw)) == RgbAt(slice, Idx(x, y, sw));
  }

  /** Render pixel (x, y) of the frame holds its scaled colour. */
  ghost predicate ScaledPixelAt(frame: seq<byte>, slice: seq<byte>, sw: nat, sh: nat, rw: nat, rh: nat, x: nat, y: nat)
    requires |frame| == rw * rh * 3 && x < rw && y < rh
  {
    PixelInPicture(x, y, rw, rh);
    RgbAt(frame, Idx(x, y, rw)) == ScaledAt(slice, sw, sh, rw, rh, x, y)
  }

  /**
   * The render pixels before offset n, in row-major order, hold their scaled
   * colour; the bytes from pixel n on are still zero.
   */
  ghost predicate ScaledBefore(frame: seq<byte>, slice: seq<byte>, sw: nat, sh: nat, rw: nat, rh: nat, n: nat)
    requires |frame| == rw * rh * 3
  {
    && (forall y, x :: 0 <= y < rh && 0 <= x < rw && Idx(x, y, rw) < n ==>
          ScaledPixelAt(frame, slice, sw, sh, rw, rh, x, y))
    && (forall j :: 3 * n <= j < |frame| ==> frame[j] == 0)
  }

  /** The scaling loop over row y of the render frame. */
  method ScaleRow(slice: seq<byte>, sw: nat, sh: nat, rw: nat, rh: nat, y: nat, frame: array<byte>)
    requires frame.Length == rw * rh * 3 && y < rh
    requires ScaledBefore(frame[..], slice, sw, sh, rw, rh, Idx(0, y, rw))
    modifies frame
    ensures ScaledBefore(frame[..], slice, sw, sh, rw, rh, Idx(rw, y, rw))
  {
    var x := 0;
    while x < rw
      invariant 0 <= x <= rw
      invariant ScaledBefore(frame[..], slice, sw, sh, rw, rh, Idx(x, y, rw))
    {
      PixelInPicture(x, y, rw, rh);
      var srcX := ScaleCoord(x, sw, rw);
      var srcY := ScaleCoord(y, sh, rh);
      var src := 3 * Idx(srcX, srcY, sw);
      var k := Idx(x, y, rw);
      ghost var before := frame[..];
      if src + 2 < |slice| {
        frame[3 * k] := slice[src];
        frame[3 * k + 1] := slice[src + 1];
        frame[3 * k + 2] := slice[src + 2];
        PixelUpdate(before, frame[..], k, RgbAt(slice, Idx(srcX, srcY, sw)));
      }
      assert RgbAt(frame[..], k) == ScaledAt(slice, sw, sh, rw, rh, x, y);
      forall yy, xx | 0 <= yy < rh && 0 <= xx < rw && Idx(xx, yy, rw) < k + 1
        ensures ScaledPixelAt(frame[..], slice, sw, sh, rw, rh, xx, yy)
      {
        if Idx(xx, yy, rw) == k {
          IdxInjective(xx, yy, x, y, rw);
        }
      }
      x := x + 1;
    }
  }

  /**
   * The render loop's slice scaling: a fresh, zeroed rw x rh RGB frame, each
   * pixel filled from the slice by nearest neighbour when that source pixel
   * lies inside the slice.
   */
  method ScaleSlice(slice: seq<byte>, sw: nat, sh: nat, rw: nat, rh: nat) returns (frame: array<byte>)
    ensures frame.Length == rw * rh * 3
    ensures forall y, x :: 0 <= y < rh && 0 <= x < rw ==>
      3 * Idx(x, y, rw) + 2 < frame.Length && RgbAt(frame[..], Idx(x, y, rw)) == ScaledAt(slice, sw, sh, rw, rh, x, y)
  {
    frame := new byte[rw * rh * 3](_ => 0);
    var y := 0;
    while y < rh
      invariant 0 <= y <= rh
      invariant ScaledBefore(frame[..], slice, sw, sh, rw, rh, Idx(0, y, rw))
    {
      ScaleRow(slice, sw, sh, rw, rh, y, frame);
      IdxNextRow(y, rw);
      y := y + 1;
    }
    ScaledAll(frame[..], slice, sw, sh, rw, rh);
  }

  /** Once every row is scaled, every pixel holds its scaled colour. */
  lemma ScaledAll(frame: seq<byte>, slice: seq<byte>, sw: nat, sh: nat, rw: nat, rh: nat)
    requires |frame| == rw * rh * 3 && ScaledBefore(frame, slice, sw, sh, rw, rh, Idx(0, rh, rw))
    ensures forall y, x :: 0 <= y < rh && 0 <= x < rw ==>
      3 * Idx(x, y, rw) + 2 < |frame| && RgbAt(frame, Idx(x, y, rw)) == ScaledAt(slice, sw, sh, rw, rh, x, y)
  {
    forall y, x | 0 <= y < rh && 0 <= x < rw
      ensures 3 * Idx(x, y, rw) + 2 < |frame|
      ensures RgbAt(frame, Idx(x, y, rw)) == ScaledAt(slice, sw, sh, rw, rh, x, y)
    {
      IdxBound(x, y, rw, rh);
      assert ScaledPixelAt(frame, slice, sw, sh, rw, rh, x, y);
    }
  }

  /** The animated gradient: red follows x and green y, both scrolling with the frame counter; blue is the counter. */
  function PatternPixel(x: nat, y: nat, counter: nat): Rgb
  {
    Rgb((x + counter) % 256, (y + counter / 2) % 256, counter % 256)
  }

  /** Each frame the red ramp moves one pixel to the left; blue is the same over the whole picture. */
  lemma PatternScrolls(x: nat, y: nat, x': nat, y': nat, counter: nat)
    ensures PatternPixel(x, y, counter + 1).r == PatternPixel(x + 1, y, counter).r
    ensures PatternPixel(x, y, counter).b == PatternPixel(x', y', counter).b
  {
  }

  /** The animation repeats every 512 frames. */
  lemma PatternPeriod(x: nat, y: nat, counter: nat)
    ensures PatternPixel(x, y, counter + 512) == PatternPixel(x, y, counter)
  {
    assert (counter + 512) / 2 == counter / 2 + 256;
  }

  /** Pixel (x, y) of the test-pattern buffer is drawn for frame `counter`. */
  ghost predicate PatternAt(pattern: seq<byte>, rw: nat, rh: nat, counter: nat, x: nat, y: nat)
    requires |pattern| == rw * rh * 3 && x < rw && y < rh
  {
    PixelInPicture(x, y, rw, rh);
    RgbAt(pattern, Idx(x, y, rw)) == PatternPixel(x, y, counter)
  }

  /** The pattern pixels before offset n, in row-major order, are drawn. */
  ghost predicate PatternBefore(pattern: seq<byte>, rw: nat, rh: nat, counter: nat, n: nat)
    requires |pattern| == rw * rh * 3
  {
    forall y, x :: 0 <= y < rh && 0 <= x < rw && Idx(x, y, rw) < n ==> PatternAt(pattern, rw, rh, counter, x, y)
  }

  /** The test-pattern loop over row y. */
  method DrawPatternRow(pattern: array<byte>, rw: nat, rh: nat, counter: nat, y: nat)
    requires pattern.Length == rw * rh * 3 && y < rh
    requires PatternBefore(pattern[..], rw, rh, counter, Idx(0, y, rw))
    modifies pattern
    ensures PatternBefore(pattern[..], rw, rh, counter, Idx(rw, y, rw))
  {
    var x := 0;
    while x < rw
      invariant 0 <= x <= rw
      invariant PatternBefore(pattern[..], rw, rh, counter, Idx(x, y, rw))
    {
      PixelInPicture(x, y, rw, rh);
      var k := Idx(x, y, rw);
      var p := PatternPixel(x, y, counter);
      ghost var before := pattern[..];
      pattern[3 * k] := p.r;
      pattern[3 * k + 1] := p.g;
      pattern[3 * k + 2] := p.b;
      PixelUpdate(before, pattern[..], k, p);
      forall yy, xx | 0 <= yy < rh && 0 <= xx < rw && Idx(xx, yy, rw) < k + 1
        ensures PatternAt(pattern[..], rw, rh, counter, xx, yy)
      {
        if Idx(xx, yy, rw) == k {
          IdxInjective(xx, yy, x, y, rw);
        }
      }
      x := x + 1;
    }
  }

  /** The render loop's test-pattern branch: every pixel of the rw x rh buffer is redrawn for frame `counter`. */
  method DrawTestPattern(pattern: array<byte>, rw: nat, rh: nat, counter: nat)
    requires pattern.Length == rw * rh * 3
    modifies pattern
    ensures forall y, x :: 0 <= y < rh && 0 <= x < rw ==>
      3 * Idx(x, y, rw) + 2 < pattern.Length && RgbAt(pattern[..], Idx(x, y, rw)) == PatternPixel(x, y, counter)
  {
    var y := 0;
    while y < rh
      invariant 0 <= y <= rh
      invariant PatternBefore(pattern[..], rw, rh, counter, Idx(0, y, rw))
    {
      DrawPatternRow(pattern, rw, rh, counter, y);
      IdxNextRow(y, rw);
      y := y + 1;
    }
    forall y, x | 0 <= y < rh && 0 <= x < rw
      ensures 3 * Idx(x, y, rw) + 2 < pattern.Length
      ensures RgbAt(pattern[..], Idx(x, y, rw)) == PatternPixel(x, y, counter)
    {
      IdxBound(x, y, rw, rh);
      assert PatternAt(pattern[..], rw, rh, counter, x, y);
    }
  }
}
