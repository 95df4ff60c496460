/**
 * Per-pixel integer colour arithmetic shared by the conversion loops:
 * the studio-range ITU-R BT.601 approximation of the TCP streaming server,
 * the full-range variant of the hardware encoder, and the client's clamped
 * inverse. A right shift by 8 of a possibly negative int is floor division
 * by 256, which is what Dafny's `/ 256` computes.
 */
module Colour {
  import opened Wire

  datatype Rgb = Rgb(r: byte, g: byte, b: byte)

  predicate IsGrey(p: Rgb) { p.r == p.g == p.b }

  /** Y = ((66R + 129G + 25B + 128) >> 8) + 16 */
  function LumaStudio(p: Rgb): (y: byte)
    ensures 16 <= y <= 235
    ensures IsGrey(p) ==> y == (220 * p.r + 128) / 256 + 16
  {
    (66 * p.r + 129 * p.g + 25 * p.b + 128) / 256 + 16
  }

  /** U = ((-38R - 74G + 112B + 128) >> 8) + 128 */
  function CbStudio(p: Rgb): (u: byte)
    ensures 16 <= u <= 240
    ensures IsGrey(p) ==> u == 128
  {
    (-38 * p.r - 74 * p.g + 112 * p.b + 128) / 256 + 128
  }

  /** V = ((112R - 94G - 18B + 128) >> 8) + 128 */
  function CrStudio(p: Rgb): (v: byte)
    ensures 16 <= v <= 240
    ensures IsGrey(p) ==> v == 128
  {
    (112 * p.r - 94 * p.g - 18 * p.b + 128) / 256 + 128
  }

  /** Y = (77R + 150G + 29B + 128) >> 8; the weights sum to 256, so grey is kept exactly. */
  function LumaFull(p: Rgb): (y: byte)
    ensures IsGrey(p) ==> y == p.r
    ensures p.r <= p.g && p.r <= p.b ==> p.r <= y
    ensures p.r >= p.g && p.r >= p.b ==> y <= p.r
  {
    (77 * p.r + 150 * p.g + 29 * p.b + 128) / 256
  }

  /** U = ((-43R - 84G + 127B + 128) >> 8) + 128 */
  function CbFull(p: Rgb): (u: byte)
    ensures 1 <= u
    ensures IsGrey(p) ==> u == 128
  {
    (-43 * p.r - 84 * p.g + 127 * p.b + 128) / 256 + 128
  }

  /** V = ((127R - 106G - 21B + 128) >> 8) + 128 */
  function CrFull(p: Rgb): (v: byte)
    ensures 1 <= v
    ensures IsGrey(p) ==> v == 128
  {
    (127 * p.r - 106 * p.g - 21 * p.b + 128) / 256 + 128
  }

  /** std::max(0, std::min(255, n)) */
  function Clamp(n: int): (c: byte)
    ensures 0 <= n <= 255 ==> c == n
    ensures n < 0 ==> c == 0
    ensures n > 255 ==> c == 255
  {
    if n < 0 then 0 else if n > 255 then 255 else n
  }

  /** The client's inverse: C = Y-16, D = U-128, E = V-128, then each channel is clamped. */
  function YuvToRgb(y: byte, u: byte, v: byte): (p: Rgb)
    ensures u == 128 && v == 128 ==> IsGrey(p)
  {
    var c, d, e := y - 16, u - 128, v - 128;
    Rgb(Clamp((298 * c + 409 * e + 128) / 256),
        Clamp((298 * c - 100 * d - 208 * e + 128) / 256),
        Clamp((298 * c + 516 * d + 128) / 256))
  }

  /** Studio black and white decode to the extremes of the RGB range. */
  lemma YuvToRgbStudioExtremes()
    ensures YuvToRgb(16, 128, 128) == Rgb(0, 0, 0)
    ensures YuvToRgb(235, 128, 128) == Rgb(255, 255, 255)
  {
  }

  /**
   * A grey pixel encoded by the streaming server and decoded by the client
   * comes back grey, within one step of its original level.
   */
  lemma GreyRoundTrip(level: byte)
    ensures var p := Rgb(level, level, level);
            var q := YuvToRgb(LumaStudio(p), CbStudio(p), CrStudio(p));
            IsGrey(q) && level - 1 <= q.r <= level + 1
  {
    var p := Rgb(level, level, level);
    var yq := (220 * level + 128) / 256;
    assert LumaStudio(p) == yq + 16;
    assert yq * 256 <= 220 * level + 128 < yq * 256 + 256;
    var out := (298 * yq + 128) / 256;
    assert out * 256 <= 298 * yq + 128 < out * 256 + 256;
    assert YuvToRgb(LumaStudio(p), 128, 128).r == Clamp(out);
  }
}
