/**
 * Row-major addressing shared by every picture loop of the system: element
 * (x, y) of a plane whose rows are `stride` elements apart sits at y*stride+x,
 * and an RGB picture stores pixel k in bytes 3k, 3k+1, 3k+2.
 */
module Raster {
  import opened Wire
  import opened Colour

  function Idx(x: nat, y: nat, stride: nat): nat
  {
    y * stride + x
  }

  lemma IdxBound(x: nat, y: nat, stride: nat, rows: nat)
    requires x < stride && y < rows
    ensures Idx(x, y, stride) < rows * stride
  {
    assert (y + 1) * stride == y * stride + stride;
    MulMono(y + 1, rows, stride);
  }

  lemma MulMono(a: nat, b: nat, c: nat)
    requires a <= b
    ensures a * c <= b * c
  {
  }

  lemma MulStrict(a: nat, b: nat, c: nat)
    requires a < b && c > 0
    ensures a * c < b * c
  {
    MulMono(a + 1, b, c);
  }

  /** Mapping coordinate x of a size-r axis onto a size-s axis by x*s/r stays inside the size-s axis. */
  lemma ScaledCoordinateBound(x: nat, s: nat, r: nat)
    requires x < r && s > 0
    ensures x * s / r < s
  {
    var q := x * s / r;
    assert q * r <= x * s;
    if q >= s {
      MulMono(s, q, r);
      MulStrict(x, r, s);
      assert false;
    }
  }

  /** Distinct in-row positions have distinct offsets. */
  lemma IdxInjective(x1: nat, y1: nat, x2: nat, y2: nat, stride: nat)
    requires x1 < stride && x2 < stride && Idx(x1, y1, stride) == Idx(x2, y2, stride)
    ensures x1 == x2 && y1 == y2
  {
    if y1 < y2 {
      IdxBound(x1, y1, stride, y2);
      assert false;
    } else if y2 < y1 {
      IdxBound(x2, y2, stride, y1);
      assert false;
    }
  }

  function RgbAt(s: seq<byte>, k: nat): Rgb
    requires 3 * k + 2 < |s|
  {
    Rgb(s[3 * k], s[3 * k + 1], s[3 * k + 2])
  }

  /** Pixel (x, y) of a width x height picture lies inside its width*height*3 bytes. */
  lemma PixelInPicture(x: nat, y: nat, width: nat, height: nat)
    requires x < width && y < height
    ensures 3 * Idx(x, y, width) + 2 < width * height * 3
  {
    IdxBound(x, y, width, height);
  }

  /** Writing pixel k changes pixel k to p and leaves every earlier pixel as it was. */
  lemma PixelUpdate(before: seq<byte>, after: seq<byte>, k: nat, p: Rgb)
    requires 3 * k + 2 < |before|
    requires after == before[3 * k := p.r][3 * k + 1 := p.g][3 * k + 2 := p.b]
    ensures |after| == |before| && RgbAt(after, k) == p
    ensures forall j :: 0 <= j < k ==> RgbAt(after, j) == RgbAt(before, j)
  {
  }

  /** Position (b, a) of a plane whose rows are `stride` wide is recovered by division and remainder. */
  lemma IdxDivMod(b: nat, a: nat, stride: nat)
    requires b < stride
    ensures Idx(b, a, stride) / stride == a && Idx(b, a, stride) % stride == b
  {
    var m := Idx(b, a, stride);
    var q, r := m / stride, m % stride;
    assert m == q * stride + r;
    if q > a {
      MulMono(a + 1, q, stride);
      assert false;
    } else if q < a {
      MulMono(q + 1, a, stride);
      assert false;
    }
  }

  lemma IdxNextRow(y: nat, stride: nat)
    ensures Idx(0, y + 1, stride) == Idx(stride, y, stride)
  {
  }
}
