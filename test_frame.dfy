// The gradient frame the hardware-encoding test program feeds to the
// encoder: red follows x, green follows y and blue follows x + y, each
// scaled into 0..254 by integer division.

module TestFrames {
  import opened Wire
  import opened Colour
  import opened Raster

  /** The cast of an int to uint8_t: the low eight bits. */
  function Low8(n: int): byte
  {
    n % 256
  }

  /** Pixel (x, y) of a width x height gradient frame. */
  function GradientPixel(x: nat, y: nat, width: nat, height: nat): Rgb
    requires x < width && y < height
  {
    Rgb(Low8(x * 255 / width), Low8(y * 255 / height), Low8((x + y) * 255 / (width + height)))
  }

  lemma Low8Small(n: int)
    requires 0 <= n < 256
    ensures Low8(n) as int == n
  {
  }

  /** One gradient channel: coordinate c of an axis of size `size`, scaled into 0..254. */
  lemma ScaledChannel(c: nat, size: nat)
    requires c < size
    ensures 0 <= c * 255 / size <= 254
    ensures Low8(c * 255 / size) as int == c * 255 / size
  {
    ScaledCoordinateBound(c, 255, size);
    Low8Small(c * 255 / size);
  }

  /**
   * The gradient's channels never need the cast: each is the scaled
   * coordinate itself, below 255.
   */
  lemma GradientChannels(x: nat, y: nat, width: nat, height: nat)
    requires x < width && y < height
    ensures GradientPixel(x, y, width, height).r as int == x * 255 / width <= 254
    ensures GradientPixel(x, y, width, height).g as int == y * 255 / height <= 254
    ensures GradientPixel(x, y, width, height).b as int == (x + y) * 255 / (width + height) <= 254
  {
    ScaledChannel(x, width);
    ScaledChannel(y, height);
    ScaledChannel(x + y, width + height);
  }

  /** Integer division by a positive divisor keeps order. */
  lemma {:induction false} DivMono(a: nat, b: nat, d: nat)
    requires a <= b && d > 0
    ensures a / d <= b / d
  {
    var qa, qb := a / d, b / d;
    assert qa * d <= a;
    assert b < (qb + 1) * d;
    if qa > qb {
      MulMono(qb + 1, qa, d);
      assert false;
    }
  }

  /** A scaled channel grows with its coordinate. */
  lemma ChannelMono(c: nat, c': nat, size: nat)
    requires c <= c' < size
    ensures c * 255 / size <= c' * 255 / size
  {
    MulMono(c, c', 255);
    DivMono(c * 255, c' * 255, size);
  }

  /** The frame is a gradient: red grows along each row, green down each column, and both start at 0. */
  lemma GradientRamps(x: nat, x': nat, y: nat, y': nat, width: nat, height: nat)
    requires x <= x' < width && y <= y' < height
    ensures GradientPixel(x, y, width, height).r <= GradientPixel(x', y, width, height).r
    ensures GradientPixel(x, y, width, height).g <= GradientPixel(x, y', width, height).g
    ensures GradientPixel(0, y, width, height).r == 0 && GradientPixel(x, 0, width, height).g == 0
  {
    ScaledChannel(x, width);
    ScaledChannel(x', width);
    ScaledChannel(0, width);
    ScaledChannel(y, height);
    ScaledChannel(y', height);
    ScaledChannel(0, height);
    ChannelMono(x, x', width);
    ChannelMono(y, y', height);
  }

  /** Pixel (x, y) of the frame buffer holds its gradient colour. */
  ghost predicate GradientAt(frame: seq<byte>, width: nat, height: nat, x: nat, y: nat)
    requires |frame| == width * height * 3 && x < width && y < height
  {
    PixelInPicture(x, y, width, height);
    RgbAt(frame, Idx(x, y, width)) == GradientPixel(x, y, width, height)
  }

  /** The pixels before offset n, in row-major order, hold their gradient colour. */
  ghost predicate GradientBefore(frame: seq<byte>, width: nat, height: nat, n: nat)
    requires |frame| == width * height * 3
  {
    forall y, x :: 0 <= y < height && 0 <= x < width && Idx(x, y, width) < n ==> GradientAt(frame, width, height, x, y)
  }

  /** The x loop of generate_test_frame over row y. */
  method GradientRow(frame: array<byte>, width: nat, height: nat, y: nat)
    requires frame.Length == width * height * 3 && y < height
    requires GradientBefore(frame[..], width, height, Idx(0, y, width))
    modifies frame
    ensures GradientBefore(frame[..], width, height, Idx(width, y, width))
  {
    var x := 0;
    while x < width
      invariant 0 <= x <= width
      invariant GradientBefore(frame[..], width, height, Idx(x, y, width))
    {
      PixelInPicture(x, y, width, height);
      var k := Idx(x, y, width);
      var p := GradientPixel(x, y, width, height);
      ghost var before := frame[..];
      frame[3 * k] := p.r;
      frame[3 * k + 1] := p.g;
      frame[3 * k + 2] := p.b;
      PixelUpdate(before, frame[..], k, p);
      forall yy, xx | 0 <= yy < height && 0 <= xx < width && Idx(xx, yy, width) < k + 1
        ensures GradientAt(frame[..], width, height, xx, yy)
      {
        if Idx(xx, yy, width) == k {
          IdxInjective(xx, yy, x, y, width);
        }
      }
      x := x + 1;
    }
  }

  /**
   * generate_test_frame: a width * height * 3 byte RGB frame whose pixel
   * (x, y) sits at bytes 3 * (y * width + x) .. + 2 and holds its gradient
   * colour.
   */
  method GenerateTestFrame(width: nat, height: nat) returns (frame: seq<byte>)
    ensures |frame| == width * height * 3
    ensures forall y, x :: 0 <= y < height && 0 <= x < width ==>
      3 * Idx(x, y, width) + 2 < |frame| && RgbAt(frame, Idx(x, y, width)) == GradientPixel(x, y, width, height)
  {
    var a := new byte[width * height * 3];
    var y := 0;
    while y < height
      invariant 0 <= y <= height
      invariant GradientBefore(a[..], width, height, Idx(0, y, width))
    {
      GradientRow(a, width, height, y);
      IdxNextRow(y, width);
      y := y + 1;
    }
    frame := a[..];
    forall y, x | 0 <= y < height && 0 <= x < width
      ensures 3 * Idx(x, y, width) + 2 < |frame|
      ensures RgbAt(frame, Idx(x, y, width)) == GradientPixel(x, y, width, height)
    {
      IdxBound(x, y, width, height);
      assert GradientAt(frame, width, height, x, y);
    }
  }
}
