// The volume manager: a 3-D volume held as a flat sample array in x-fastest
// order, slices cut from it along each axis, the animated slice choice, the
// slice sizes by orientation, the grey RGB expansion, the synthetic noise
// volume, the centred sub-sampling of a loaded volume, and the load fallback.

module VolumeManager {
  import opened Wire
  import opened Wrappers

  /**
   * A sample of the volume, named by how the code produces its float value:
   * a byte widened to float, or the noise function at a voxel and scale.
   * The floating-point arithmetic behind the names is not modelled.
   */
  datatype Sample = Raw(b: byte) | Noise(x: int, y: int, z: int, scale: Float32)

  /** The float 0.05f, the noise scale of synthetic slices and of the fallback volume. */
  const Scale005: Float32 := Float32(0x3D4C_CCCD)

  /**
   * The float 1.0f, create_noise_volume's scale when its caller gives none
   * (a C++ default argument; the callers modelled here all pass Scale005).
   */
  const DefaultNoiseScale: Float32 := Float32(0x3F80_0000)

  /** The cached volume: its extent and its samples (the value range is floating point and left out). */
  datatype VdsData = VdsData(width: int, height: int, depth: int, data: seq<Sample>)

  /** The extents are not negative and the samples fill the whole box, one per voxel. */
  predicate Consistent(v: VdsData)
  {
    && v.width >= 0 && v.height >= 0 && v.depth >= 0
    && |v.data| == v.width * v.height * v.depth
  }

  /**
   * a * b as repeated addition. Buffer positions are written with Mul: its
   * recursive definition is unfolded only on demand, so the proofs about
   * the fill loops treat positions as sums and use the facts proved about
   * Mul below rather than nonlinear arithmetic.
   */
  function Mul(a: nat, b: nat): nat
  {
    if a == 0 then 0 else Mul(a - 1, b) + b
  }

  lemma {:induction false} MulIsProduct(a: nat, b: nat)
    ensures Mul(a, b) == a * b
  {
    if a > 0 {
      MulIsProduct(a - 1, b);
    }
  }

  lemma {:induction false} MulMono(a: nat, b: nat, c: nat)
    requires a <= b
    ensures Mul(a, c) <= Mul(b, c)
  {
    if a < b {
      MulMono(a, b - 1, c);
    }
  }

  lemma {:induction false} MulOne(a: nat)
    ensures Mul(a, 1) == a
  {
    if a > 0 {
      MulOne(a - 1);
    }
  }

  /** The flat position z * (w * h) + y * w + x of voxel (x, y, z) in a volume of width w and height h. */
  function Idx3(x: int, y: nat, z: nat, w: nat, h: nat): int
  {
    Mul(z, Mul(h, w)) + Mul(y, w) + x
  }

  /** The flat position o * inner + i of element i of row o, rows being `inner` long. */
  function Flat(o: nat, i: int, inner: nat): int
  {
    Mul(o, inner) + i
  }

  /** A position base + o * so + i * si, for a slice read with strides. */
  function Strided(base: int, so: nat, si: nat, o: nat, i: nat): int
  {
    base + Mul(o, so) + Mul(i, si)
  }

  /** The number of voxels of a w x h x d volume, counted plane by plane. */
  lemma VolumeSize(w: nat, h: nat, d: nat)
    ensures Mul(d, Mul(h, w)) == w * h * d
  {
    MulIsProduct(h, w);
    MulIsProduct(d, h * w);
    assert d * (h * w) == w * h * d;
  }

  /** Every element of rows before row o lies before that row. */
  lemma RowsBefore(o: nat, inner: nat)
    ensures forall o', i' :: 0 <= o' < o && 0 <= i' < inner ==> Flat(o', i', inner) < Mul(o, inner)
  {
    forall o', i' | 0 <= o' < o && 0 <= i' < inner
      ensures Flat(o', i', inner) < Mul(o, inner)
    {
      MulMono(o' + 1, o, inner);
    }
  }

  /** Row-major positions of a box lie inside it. */
  lemma FlatInside(o: nat, i: nat, outer: nat, inner: nat)
    requires o < outer && i < inner
    ensures Flat(o, i, inner) < Mul(outer, inner)
  {
    MulMono(o + 1, outer, inner);
  }

  /** Voxel positions of a box lie inside it. */
  lemma Idx3Inside(x: nat, y: nat, z: nat, w: nat, h: nat, d: nat)
    requires x < w && y < h && z < d
    ensures 0 <= Idx3(x, y, z, w, h) < w * h * d
  {
    FlatInside(y, x, h, w);
    FlatInside(z, Flat(y, x, w), d, Mul(h, w));
    VolumeSize(w, h, d);
  }

  /**
   * Where the elements of a slice come from: copied out of the samples
   * with strides (element i of row o from base + o * so + i * si), or the
   * noise function at the voxel the slice cuts (see NoiseCell).
   */
  datatype PlaneSource =
    | Copy(src: seq<Sample>, base: int, so: nat, si: nat)
    | Synthetic(axis: int, index: int)

  /**
   * The synthetic-slice voxel behind element i of row o: along axis 0 the
   * rows are z and the elements y, along axis 1 rows z and elements x,
   * along axis 2 rows y and elements x; the cut coordinate is `index`.
   */
  function NoiseCell(axis: int, index: int, o: int, i: int): Sample
  {
    match axis
    case 0 => Noise(index, i, o, Scale005)
    case 1 => Noise(i, index, o, Scale005)
    case _ => Noise(i, o, index, Scale005)
  }

  predicate CellDefined(p: PlaneSource, o: nat, i: nat)
  {
    p.Copy? ==> 0 <= Strided(p.base, p.so, p.si, o, i) < |p.src|
  }

  /** Element i of row o of a slice. */
  function Cell(p: PlaneSource, o: nat, i: nat): Sample
    requires CellDefined(p, o, i)
  {
    match p
    case Copy(src, base, so, si) => src[Strided(base, so, si, o, i)]
    case Synthetic(axis, index) => NoiseCell(axis, index, o, i)
  }

  /**
   * The nested loops of get_slice_data: `outer` rows of `inner` elements,
   * element i of row o written at o * inner + i of a new buffer.
   */
  method FillPlane(p: PlaneSource, outer: nat, inner: nat) returns (r: seq<Sample>)
    requires forall o: nat, i: nat :: o < outer && i < inner ==> CellDefined(p, o, i)
    ensures |r| == outer * inner
    ensures forall o: nat, i: nat :: o < outer && i < inner ==>
      Flat(o, i, inner) < |r| && r[Flat(o, i, inner)] == Cell(p, o, i)
  {
    MulIsProduct(outer, inner);
    var a := new Sample[Mul(outer, inner)](_ => Raw(0));
    var o := 0;
    while o < outer
      invariant 0 <= o <= outer
      invariant forall o': nat, i': nat :: o' < o && i' < inner ==>
        Flat(o', i', inner) < a.Length && a[Flat(o', i', inner)] == Cell(p, o', i')
    {
      RowsBefore(o, inner);
      MulMono(o + 1, outer, inner);
      FillRow(a, p, o, inner);
      o := o + 1;
    }
    r := a[..];
  }

  /** The inner loop of FillPlane: row o, written from position o * inner on. */
  method FillRow(a: array<Sample>, p: PlaneSource, o: nat, inner: nat)
    requires Mul(o, inner) + inner <= a.Length
    requires forall i: nat :: i < inner ==> CellDefined(p, o, i)
    modifies a
    ensures forall i: nat :: i < inner ==> a[Flat(o, i, inner)] == Cell(p, o, i)
    ensures forall k :: 0 <= k < Mul(o, inner) ==> a[k] == old(a[k])
  {
    var rowStart := Mul(o, inner);
    var i := 0;
    while i < inner
      invariant 0 <= i <= inner
      invariant forall i': nat :: i' < i ==> a[rowStart + i'] == Cell(p, o, i')
      invariant forall k :: 0 <= k < rowStart ==> a[k] == old(a[k])
    {
      a[rowStart + i] := Cell(p, o, i);
      i := i + 1;
    }
  }

  /** Voxels of planes before plane z lie before that plane. */
  lemma PlanesBefore(z: nat, w: nat, h: nat)
    ensures forall x: nat, y: nat, z': nat :: x < w && y < h && z' < z ==>
      0 <= Idx3(x, y, z', w, h) < Mul(z, Mul(h, w))
  {
    forall x: nat, y: nat, z': nat | x < w && y < h && z' < z
      ensures 0 <= Idx3(x, y, z', w, h) < Mul(z, Mul(h, w))
    {
      FlatInside(y, x, h, w);
      MulMono(z' + 1, z, Mul(h, w));
    }
  }

  /** Voxels of lines before line y of plane z lie in that plane, before that line. */
  lemma LinesBefore(y: nat, z: nat, w: nat, h: nat)
    ensures forall x: nat, y': nat :: x < w && y' < y ==>
      Mul(z, Mul(h, w)) <= Idx3(x, y', z, w, h) < Idx3(0, y, z, w, h)
  {
    forall x: nat, y': nat | x < w && y' < y
      ensures Mul(z, Mul(h, w)) <= Idx3(x, y', z, w, h) < Idx3(0, y, z, w, h)
    {
      MulMono(y' + 1, y, w);
    }
  }

  /** What a whole volume is filled with: noise at a scale, or bytes read from a window of a stored volume. */
  datatype VolumeSource =
    | NoiseAt(scale: Float32)
    | Window(sampleAt: (int, int, int) -> byte, startX: int, startY: int, startZ: int)

  /** The sample a filled volume holds at voxel (x, y, z). */
  function Voxel(src: VolumeSource, x: int, y: int, z: int): Sample
  {
    match src
    case NoiseAt(scale) => Noise(x, y, z, scale)
    case Window(sampleAt, sx, sy, sz) => Raw(sampleAt(sx + x, sy + y, sz + z))
  }

  /** v is a w x h x d volume holding the sample src gives for each of its voxels. */
  ghost predicate IsFilled(v: VdsData, src: VolumeSource, w: int, h: int, d: int)
  {
    && v.width == w && v.height == h && v.depth == d
    && Consistent(v)
    && forall x, y, z :: 0 <= x < w && 0 <= y < h && 0 <= z < d ==> VoxelAt(v, x, y, z) == Voxel(src, x, y, z)
  }

  /**
   * A new w x h x d volume with voxel (x, y, z) at z * (w * h) + y * w + x,
   * filled in z, y, x order.
   */
  method FillVolume(src: VolumeSource, w: nat, h: nat, d: nat) returns (r: seq<Sample>)
    ensures |r| == w * h * d
    ensures forall x: nat, y: nat, z: nat :: x < w && y < h && z < d ==>
      0 <= Idx3(x, y, z, w, h) < |r| && r[Idx3(x, y, z, w, h)] == Voxel(src, x, y, z)
    ensures IsFilled(VdsData(w, h, d, r), src, w, h, d)
  {
    VolumeSize(w, h, d);
    var a := new Sample[Mul(d, Mul(h, w))](_ => Raw(0));
    var z := 0;
    while z < d
      invariant 0 <= z <= d
      invariant forall x: nat, y: nat, z': nat :: x < w && y < h && z' < z ==>
        0 <= Idx3(x, y, z', w, h) < a.Length && a[Idx3(x, y, z', w, h)] == Voxel(src, x, y, z')
    {
      PlanesBefore(z, w, h);
      MulMono(z + 1, d, Mul(h, w));
      FillPlaneZ(a, src, z, w, h);
      z := z + 1;
    }
    r := a[..];
  }

  /** The y and x loops of FillVolume: plane z, written from position z * (w * h) on. */
  method FillPlaneZ(a: array<Sample>, src: VolumeSource, z: nat, w: nat, h: nat)
    requires Mul(z + 1, Mul(h, w)) <= a.Length
    modifies a
    ensures forall x: nat, y: nat :: x < w && y < h ==>
      0 <= Idx3(x, y, z, w, h) < a.Length && a[Idx3(x, y, z, w, h)] == Voxel(src, x, y, z)
    ensures forall k :: 0 <= k < Mul(z, Mul(h, w)) ==> a[k] == old(a[k])
  {
    var planeStart := Mul(z, Mul(h, w));
    var y := 0;
    while y < h
      invariant 0 <= y <= h
      invariant forall x: nat, y': nat :: x < w && y' < y ==>
        0 <= Idx3(x, y', z, w, h) < a.Length && a[Idx3(x, y', z, w, h)] == Voxel(src, x, y', z)
      invariant forall k :: 0 <= k < planeStart ==> a[k] == old(a[k])
    {
      LinesBefore(y, z, w, h);
      MulMono(y + 1, h, w);
      FillLine(a, src, y, z, w, h);
      y := y + 1;
    }
  }

  /** The x loop of FillVolume: line (y, z), written from its first voxel on. */
  method FillLine(a: array<Sample>, src: VolumeSource, y: nat, z: nat, w: nat, h: nat)
    requires Idx3(0, y, z, w, h) + w <= a.Length
    modifies a
    ensures forall x: nat :: x < w ==> a[Idx3(x, y, z, w, h)] == Voxel(src, x, y, z)
    ensures forall k :: 0 <= k < Idx3(0, y, z, w, h) ==> a[k] == old(a[k])
  {
    var lineStart := Idx3(0, y, z, w, h);
    var x := 0;
    while x < w
      invariant 0 <= x <= w
      invariant forall x': nat :: x' < x ==> a[lineStart + x'] == Voxel(src, x', y, z)
      invariant forall k :: 0 <= k < lineStart ==> a[k] == old(a[k])
    {
      a[lineStart + x] := Voxel(src, x, y, z);
      x := x + 1;
    }
  }

  // ---------------------------------------------------------------------
  // Slices of a volume

  /** The extent of the volume along an axis (0 = x, 1 = y, 2 = z). */
  function Extent(v: VdsData, axis: int): int
  {
    match axis
    case 0 => v.width
    case 1 => v.height
    case _ => v.depth
  }

  /** A slice request names one of the three axes and a position inside the volume along it. */
  predicate InRange(v: VdsData, axis: int, index: int)
  {
    0 <= axis <= 2 && 0 <= index < Extent(v, axis)
  }

  /** A slice is laid out row by row: rows run along z for axes 0 and 1, along y for axis 2. */
  function RowCount(v: VdsData, axis: int): int
  {
    if axis == 2 then v.height else v.depth
  }

  /** Rows hold y values for axis 0 and x values for axes 1 and 2. */
  function RowLength(v: VdsData, axis: int): int
  {
    if axis == 0 then v.height else v.width
  }

  /** The sample of voxel (x, y, z). */
  function VoxelAt(v: VdsData, x: int, y: int, z: int): Sample
    requires Consistent(v)
    requires 0 <= x < v.width && 0 <= y < v.height && 0 <= z < v.depth
  {
    Idx3Inside(x, y, z, v.width, v.height, v.depth);
    v.data[Idx3(x, y, z, v.width, v.height)]
  }

  /** Element i of row o of the slice at `index` along `axis`: the voxel the cut passes through there. */
  function SliceSample(v: VdsData, axis: int, index: int, o: int, i: int): Sample
    requires Consistent(v) && InRange(v, axis, index)
    requires 0 <= o < RowCount(v, axis) && 0 <= i < RowLength(v, axis)
  {
    match axis
    case 0 => VoxelAt(v, index, i, o)
    case 1 => VoxelAt(v, i, index, o)
    case _ => VoxelAt(v, i, o, index)
  }

  /** r is the slice at `index` along `axis`, row-major with RowLength elements a row. */
  ghost predicate IsSlice(v: VdsData, axis: int, index: int, r: seq<Sample>)
    requires Consistent(v) && InRange(v, axis, index)
  {
    && |r| == RowCount(v, axis) * RowLength(v, axis)
    && forall o, i :: 0 <= o < RowCount(v, axis) && 0 <= i < RowLength(v, axis) ==>
         Flat(o, i, RowLength(v, axis)) < |r| && r[Flat(o, i, RowLength(v, axis))] == SliceSample(v, axis, index, o, i)
  }

  /**
   * Where the slice loops read the samples: along x from (index, 0, 0)
   * with strides w * h and w; along y from index * w with strides w * h
   * and 1; along z the contiguous block starting at index * w * h.
   */
  function CopySource(v: VdsData, axis: int, index: int): PlaneSource
    requires Consistent(v) && InRange(v, axis, index)
  {
    var w, h := v.width, v.height;
    match axis
    case 0 => Copy(v.data, index, Mul(h, w), w)
    case 1 => Copy(v.data, Mul(index, w), Mul(h, w), 1)
    case _ => Copy(v.data, Mul(index, Mul(h, w)), w, 1)
  }

  /** The strided reads of the slice loops are exactly the voxels the cut passes through. */
  lemma CopySourceReadsCut(v: VdsData, axis: int, index: int)
    requires Consistent(v) && InRange(v, axis, index)
    ensures forall o, i :: 0 <= o < RowCount(v, axis) && 0 <= i < RowLength(v, axis) ==>
      CellDefined(CopySource(v, axis, index), o, i)
      && Cell(CopySource(v, axis, index), o, i) == SliceSample(v, axis, index, o, i)
  {
    var w, h, d := v.width, v.height, v.depth;
    var p := CopySource(v, axis, index);
    forall o, i | 0 <= o < RowCount(v, axis) && 0 <= i < RowLength(v, axis)
      ensures CellDefined(p, o, i) && Cell(p, o, i) == SliceSample(v, axis, index, o, i)
    {
      MulOne(i);
      if axis == 0 {
        assert Strided(p.base, p.so, p.si, o, i) == Idx3(index, i, o, w, h);
        Idx3Inside(index, i, o, w, h, d);
      } else if axis == 1 {
        assert Strided(p.base, p.so, p.si, o, i) == Idx3(i, index, o, w, h);
        Idx3Inside(i, index, o, w, h, d);
      } else {
        assert Strided(p.base, p.so, p.si, o, i) == Idx3(i, o, index, w, h);
        Idx3Inside(i, o, index, w, h, d);
      }
    }
  }

  /**
   * A volume whose sample array is empty has a zero extent, so every slice
   * inside it is empty: the noise-generating branch of the slice loops
   * never yields a sample.
   */
  lemma SyntheticSlicesAreEmpty(v: VdsData, axis: int, index: int)
    requires Consistent(v) && InRange(v, axis, index) && v.data == []
    ensures RowCount(v, axis) * RowLength(v, axis) == 0
  {
    var w, h, d := v.width, v.height, v.depth;
    if RowCount(v, axis) * RowLength(v, axis) != 0 {
      VolumeSize(w, h, d);
      MulMono(1, h, w);
      MulMono(1, d, Mul(h, w));
      assert false;
    }
  }

  /** The noise volume at scale 0.05 holds, slice by slice, exactly what the synthetic branch generates. */
  lemma NoiseVolumeMatchesSynthetic(v: VdsData, axis: int, index: int, o: int, i: int)
    requires Consistent(v) && InRange(v, axis, index)
    requires 0 <= o < RowCount(v, axis) && 0 <= i < RowLength(v, axis)
    requires forall x, y, z :: 0 <= x < v.width && 0 <= y < v.height && 0 <= z < v.depth ==>
      VoxelAt(v, x, y, z) == Noise(x, y, z, Scale005)
    ensures SliceSample(v, axis, index, o, i) == Cell(Synthetic(axis, index), o, i)
  {
  }

  /** The grey image of samples: three equal bytes, the sample's shade, per sample. */
  ghost predicate IsGreyImage(samples: seq<Sample>, shade: Sample -> byte, rgb: seq<byte>)
  {
    && |rgb| == 3 * |samples|
    && forall k :: 0 <= k < |samples| ==>
         rgb[3 * k] == shade(samples[k]) && rgb[3 * k + 1] == shade(samples[k]) && rgb[3 * k + 2] == shade(samples[k])
  }

  /**
   * float_to_rgb: one grey pixel per sample. The shade of a sample (the
   * normalisation against the value range and the tone curve) is floating
   * point and is a parameter here.
   */
  method FloatToRgb(samples: seq<Sample>, shade: Sample -> byte) returns (rgb: seq<byte>)
    ensures IsGreyImage(samples, shade, rgb)
  {
    var a := new byte[3 * |samples|];
    var k := 0;
    while k < |samples|
      invariant 0 <= k <= |samples|
      invariant forall k' :: 0 <= k' < k ==>
        a[3 * k'] == shade(samples[k']) && a[3 * k' + 1] == shade(samples[k']) && a[3 * k' + 2] == shade(samples[k'])
    {
      var intensity := shade(samples[k]);
      a[3 * k] := intensity;
      a[3 * k + 1] := intensity;
      a[3 * k + 2] := intensity;
      k := k + 1;
    }
    rgb := a[..];
  }

  // ---------------------------------------------------------------------
  // Orientations

  /**
   * The axis an orientation name cuts along and the number of slices on
   * it: "XY" cuts along z, "XZ" along y, "YZ" along x, and any other name
   * is taken as "XZ".
   */
  function AnimatedAxis(orientation: string, v: VdsData): (choice: (int, int))
    ensures 0 <= choice.0 <= 2 && choice.1 == Extent(v, choice.0)
    ensures orientation == "XY" <==> choice.0 == 2
    ensures orientation == "YZ" <==> choice.0 == 0
  {
    if orientation == "XY" then (2, v.depth)
    else if orientation == "XZ" then (1, v.height)
    else if orientation == "YZ" then (0, v.width)
    else (1, v.height)
  }

  /** The slice position clamped into [0, maxSlices - 1], or 0 when there are no slices. */
  function ClampSlice(raw: int, maxSlices: int): (index: int)
    ensures maxSlices >= 1 ==> 0 <= index < maxSlices
    ensures 0 <= raw < maxSlices ==> index == raw
    ensures maxSlices >= 1 && raw >= maxSlices ==> index == maxSlices - 1
    ensures raw < 0 || maxSlices <= 0 ==> index == 0
  {
    var upper := if raw < maxSlices - 1 then raw else maxSlices - 1;
    if upper > 0 then upper else 0
  }

  /**
   * get_slice_dimensions: the width and height of the image of a slice
   * for an orientation; they are the row length and the row count of the
   * slice that orientation animates, so the slice is that image row by row.
   */
  function SliceDimensions(orientation: string, v: VdsData): (dims: (int, int))
    ensures dims == (RowLength(v, AnimatedAxis(orientation, v).0), RowCount(v, AnimatedAxis(orientation, v).0))
  {
    if orientation == "XY" then (v.width, v.height)
    else if orientation == "XZ" then (v.width, v.depth)
    else if orientation == "YZ" then (v.height, v.depth)
    else (v.width, v.depth)
  }

  // ---------------------------------------------------------------------
  // Sub-sampling a stored volume

  /** The largest window read along x, y and z from a stored volume. */
  const SampleCapX := 512
  const SampleCapY := 1024
  const SampleCapZ := 512

  /**
   * The window read along one dimension: min(cap, dim) samples starting
   * at (dim - size) / 2, so that it is centred (the margin after it is
   * the margin before it or one more).
   */
  function SampleWindow(dim: int, cap: int): (window: (int, int))
    requires dim >= 0 && cap >= 0
    ensures 0 <= window.1 <= cap && window.1 <= dim && (window.1 == cap || window.1 == dim)
    ensures 0 <= window.0 && window.0 + window.1 <= dim
    ensures window.0 <= dim - (window.0 + window.1) <= window.0 + 1
  {
    var size := if cap < dim then cap else dim;
    ((dim - size) / 2, size)
  }

  /**
   * A stored volume as the file library presents it: its layout (absent
   * when the library cannot give one) with the extent of each dimension,
   * and the byte the library delivers for each voxel.
   */
  datatype VdsFile = VdsFile(hasLayout: bool, width: nat, height: nat, depth: nat, sampleAt: (int, int, int) -> byte)

  /** The window read from a stored volume: its voxels, offset by the start of the centred window. */
  function WindowOf(f: VdsFile): VolumeSource
  {
    Window(f.sampleAt, SampleWindow(f.width, SampleCapX).0, SampleWindow(f.height, SampleCapY).0,
      SampleWindow(f.depth, SampleCapZ).0)
  }

  /** The volume kept after reading the centred window of a stored volume. */
  ghost predicate IsWindowOf(v: VdsData, f: VdsFile)
  {
    IsFilled(v, WindowOf(f), SampleWindow(f.width, SampleCapX).1, SampleWindow(f.height, SampleCapY).1,
      SampleWindow(f.depth, SampleCapZ).1)
  }

  /** The volume create_noise_volume builds: noise at every voxel of a w x h x d box. */
  ghost predicate IsNoiseVolume(v: VdsData, w: int, h: int, d: int, scale: Float32)
  {
    IsFilled(v, NoiseAt(scale), w, h, d)
  }

  /** The noise volume has one sample per voxel, each voxel its own noise. */
  lemma NoiseVolumeSize(v: VdsData, w: int, h: int, d: int, scale: Float32)
    requires IsNoiseVolume(v, w, h, d, scale)
    ensures |v.data| == w * h * d
    ensures forall x, y, z :: 0 <= x < w && 0 <= y < h && 0 <= z < d ==>
      0 <= Idx3(x, y, z, w, h) < |v.data| && v.data[Idx3(x, y, z, w, h)] == Noise(x, y, z, scale)
  {
    forall x, y, z | 0 <= x < w && 0 <= y < h && 0 <= z < d
      ensures 0 <= Idx3(x, y, z, w, h) < |v.data| && v.data[Idx3(x, y, z, w, h)] == Noise(x, y, z, scale)
    {
      Idx3Inside(x, y, z, w, h, d);
      assert VoxelAt(v, x, y, z) == Noise(x, y, z, scale);
    }
  }

  /** The cube and scale of the fallback noise volume. */
  const FallbackSize := 128

  // ---------------------------------------------------------------------
  // The manager

  class VdsManager {
    /** proxy_interface_ is set. */
    var proxyReady: bool
    /** current_vds_ is set: a stored or a synthetic volume is loaded (has_vds). */
    var hasVolume: bool
    /** The cached volume, vds_data_. */
    var vds: VdsData

    ghost predicate Valid()
      reads this
    {
      hasVolume ==> Consistent(vds)
    }

    constructor()
      ensures Valid()
      ensures !proxyReady && !hasVolume && vds == VdsData(0, 0, 0, [])
    {
      proxyReady := false;
      hasVolume := false;
      vds := VdsData(0, 0, 0, []);
    }

    /** initialize: the proxy is kept when the library creates one; `created` is that outcome. */
    method Initialize(created: bool) returns (ok: bool)
      modifies this`proxyReady
      ensures ok == created
      ensures proxyReady == (old(proxyReady) || created)
    {
      if !created {
        return false;
      }
      proxyReady := true;
      return true;
    }

    /** shutdown: forget the volume, release the proxy, drop the samples (the extents stay). */
    method Shutdown()
      modifies this`proxyReady, this`hasVolume, this`vds
      ensures Valid()
      ensures !proxyReady && !hasVolume
      ensures vds == old(vds).(data := [])
    {
      hasVolume := false;
      proxyReady := false;
      vds := vds.(data := []);
    }

    /**
     * get_slice_data: the slice at `index` along `axis`, or nothing when
     * no volume is loaded, the axis is not 0, 1 or 2, or the index is
     * outside the volume along it.
     */
    method GetSliceData(axis: int, index: int) returns (r: seq<Sample>)
      requires Valid()
      ensures !(hasVolume && InRange(vds, axis, index)) ==> r == []
      ensures hasVolume && InRange(vds, axis, index) ==> IsSlice(vds, axis, index, r)
    {
      if !hasVolume {
        return [];
      }
      var v := vds;
      if !(0 <= axis <= 2) || index < 0 || index >= Extent(v, axis) {
        return [];
      }
      if v.data != [] {
        CopySourceReadsCut(v, axis, index);
        r := FillPlane(CopySource(v, axis, index), RowCount(v, axis), RowLength(v, axis));
      } else {
        SyntheticSlicesAreEmpty(v, axis, index);
        r := FillPlane(Synthetic(axis, index), RowCount(v, axis), RowLength(v, axis));
      }
    }

    /** get_slice_rgb: the grey image of the slice, nothing when there is no slice. */
    method GetSliceRgb(axis: int, index: int, shade: Sample -> byte) returns (rgb: seq<byte>)
      requires Valid()
      ensures !(hasVolume && InRange(vds, axis, index)) ==> rgb == []
      ensures hasVolume && InRange(vds, axis, index) ==>
        exists r :: IsSlice(vds, axis, index, r) && IsGreyImage(r, shade, rgb)
    {
      var r := GetSliceData(axis, index);
      if r == [] {
        return [];
      }
      rgb := FloatToRgb(r, shade);
    }

    /**
     * get_animated_slice_data: the slice of the orientation's axis at the
     * animation position clamped into the volume. The position is the
     * truncated float product of the animation progress and the slice
     * count minus one, taken here as `position`.
     */
    method GetAnimatedSliceData(orientation: string, position: int) returns (r: seq<Sample>)
      requires Valid()
      ensures var (axis, count) := AnimatedAxis(orientation, vds);
        if hasVolume && count >= 1 then IsSlice(vds, axis, ClampSlice(position, count), r) else r == []
    {
      if !hasVolume {
        return [];
      }
      var (axis, count) := AnimatedAxis(orientation, vds);
      var index := ClampSlice(position, count);
      r := GetSliceData(axis, index);
    }

    /** get_animated_slice_rgb: the grey image of the animated slice. */
    method GetAnimatedSliceRgb(orientation: string, position: int, shade: Sample -> byte) returns (rgb: seq<byte>)
      requires Valid()
      ensures var (axis, count) := AnimatedAxis(orientation, vds);
        if hasVolume && count >= 1 then
          exists r :: IsSlice(vds, axis, ClampSlice(position, count), r) && IsGreyImage(r, shade, rgb)
        else rgb == []
    {
      var r := GetAnimatedSliceData(orientation, position);
      if r == [] {
        return [];
      }
      rgb := FloatToRgb(r, shade);
    }

    /**
     * create_noise_volume: a w x h x d volume of noise at `scale`, marked
     * loaded; it always succeeds. A call that leaves out the scale passes
     * DefaultNoiseScale.
     */
    method CreateNoiseVolume(w: int, h: int, d: int, scale: Float32) returns (ok: bool)
      requires w >= 0 && h >= 0 && d >= 0
      modifies this`hasVolume, this`vds
      ensures ok && hasVolume && Valid()
      ensures IsNoiseVolume(vds, w, h, d, scale)
    {
      hasVolume := false;
      var samples := FillVolume(NoiseAt(scale), w, h, d);
      vds := VdsData(w, h, d, samples);
      hasVolume := true;
      return true;
    }

    /**
     * extract_vds_data, on the path load_from_file takes: read the centred
     * window of the stored volume and keep it as the cached volume; fail,
     * changing nothing, when the library gives no layout.
     */
    method ExtractVdsData(f: VdsFile) returns (ok: bool)
      modifies this`vds
      ensures ok == f.hasLayout
      ensures ok ==> IsWindowOf(vds, f)
      ensures !ok ==> vds == old(vds)
    {
      if !f.hasLayout {
        return false;
      }
      var (sx, sw) := SampleWindow(f.width, SampleCapX);
      var (sy, sh) := SampleWindow(f.height, SampleCapY);
      var (sz, sd) := SampleWindow(f.depth, SampleCapZ);
      var samples := FillVolume(Window(f.sampleAt, sx, sy, sz), sw, sh, sd);
      vds := VdsData(sw, sh, sd, samples);
      return true;
    }

    /**
     * load_from_file: with a proxy, open the stored volume (None when the
     * library cannot create a project or restore the file), mark it
     * loaded and extract its window; a failed extraction unmarks it.
     */
    method LoadFromFile(file: Option<VdsFile>) returns (ok: bool)
      requires Valid()
      modifies this`hasVolume, this`vds
      ensures Valid()
      ensures ok == (proxyReady && file.Some? && file.value.hasLayout)
      ensures ok ==> hasVolume && IsWindowOf(vds, file.value)
      ensures !ok ==> vds == old(vds)
      ensures !ok ==> hasVolume == (old(hasVolume) && !(proxyReady && file.Some?))
    {
      if !proxyReady {
        return false;
      }
      if file.None? {
        return false;
      }
      hasVolume := true;
      ok := ExtractVdsData(file.value);
      if !ok {
        hasVolume := false;
        return false;
      }
    }
  }

  /**
   * The streaming server's load_vds: without a manager it fails; otherwise
   * it loads the file or, failing that, falls back to a 128 x 128 x 128
   * noise volume at scale 0.05, so it succeeds whenever a manager exists.
   */
  method LoadVds(m: VdsManager?, file: Option<VdsFile>) returns (ok: bool)
    requires m != null ==> m.Valid()
    modifies if m != null then {m} else {}
    ensures ok <==> m != null
    ensures m != null ==> m.Valid() && m.hasVolume
    ensures m != null && old(m.proxyReady) && file.Some? && file.value.hasLayout ==> IsWindowOf(m.vds, file.value)
    ensures m != null && !(old(m.proxyReady) && file.Some? && file.value.hasLayout) ==>
      IsNoiseVolume(m.vds, FallbackSize, FallbackSize, FallbackSize, Scale005)
  {
    if m == null {
      return false;
    }
    ok := m.LoadFromFile(file);
    if ok {
      return true;
    }
    ok := m.CreateNoiseVolume(FallbackSize, FallbackSize, FallbackSize, Scale005);
    if ok {
      return true;
    }
    return false;
  }
}
