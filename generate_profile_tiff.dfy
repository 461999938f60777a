/** `generate_profile_tiff.py`: the script that writes, for every data file
    named in a list, one profile file and one image file per measurement
    point. The image is a 24-bit bottom-up BMP built byte by byte.

    Reading the list, unpickling a data file and writing files are
    abstract: the list is its lines, a data file is what `pickle.load`
    returns (`None` when opening or unpickling it raises), and the written
    files are the names the script produces. The height of the terrain at
    a grid cell is a parameter. */
module GenerateProfileTiff {
  import opened Common
  import opened Text
  import FileParser
  import CheckAfmFiles
  import GenerateAfmData

  // ---------------------------------------------------------------------
  // get_measurement_points_from_data_dir
  // ---------------------------------------------------------------------

  /** The number of points a data file holds: the number of keys of its
      `data_detail` dict, and 5 whenever reading the file or looking the
      key up raises. */
  function MeasurementPoints(data: Option<Value>): nat {
    match data
    case Some(Dict(es)) =>
      (match Get(es, "data_detail")
       case Some(Dict(detail)) => |detail|
       case _ => 5)
    case _ => 5
  }

  /** A file written by the AFM data generator reports its own number of
      points. */
  lemma GeneratedPoints(info: Entries, d: GenerateAfmData.Draws)
    ensures MeasurementPoints(Some(Dict(GenerateAfmData.FileData(info, d)))) == d.numPoints
  {
    var es := GenerateAfmData.FileData(info, d);
    assert es[1..][1..][0] == ("data_detail", Dict(GenerateAfmData.DataDetail(d.numPoints, d.count, d.detail)));
    assert Get(es, "data_detail") == Get(es[1..][1..], "data_detail");
  }

  /** A file that cannot be read, or whose content has no `data_detail`
      dict, counts as five points. */
  lemma FallbackPoints(data: Option<Value>)
    requires data.None? || !data.value.Dict? || !HasKey(data.value.entries, "data_detail")
             || !Get(data.value.entries, "data_detail").value.Dict?
    ensures MeasurementPoints(data) == 5
  {
  }

  // ---------------------------------------------------------------------
  // generate_profile_data
  // ---------------------------------------------------------------------

  /** The coordinate of grid line `k` of `g` lines spread over [-50, 50]. */
  function Coord(g: nat, k: nat): real
    requires g > 1
  {
    -50.0 + (100 * k) as real / (g - 1) as real
  }

  /** The values of row `i`, columns `0 .. n - 1`. */
  function RowOf(i: nat, n: nat, f: (nat, nat) -> Value): seq<Value> {
    if n == 0 then [] else RowOf(i, n - 1, f) + [f(i, n - 1)]
  }

  /** The values of rows `0 .. m - 1` of a grid with `g` columns, row after
      row: the order of the nested `i`/`j` loops. */
  function Rows(g: nat, m: nat, f: (nat, nat) -> Value): seq<Value> {
    if m == 0 then [] else Rows(g, m - 1, f) + RowOf(m - 1, g, f)
  }

  lemma {:induction false} RowOfAt(i: nat, n: nat, f: (nat, nat) -> Value)
    ensures |RowOf(i, n, f)| == n
    ensures forall j :: 0 <= j < n ==> RowOf(i, n, f)[j] == f(i, j)
  {
    if n > 0 {
      RowOfAt(i, n - 1, f);
    }
  }

  lemma {:induction false} RowsLength(g: nat, m: nat, f: (nat, nat) -> Value)
    ensures |Rows(g, m, f)| == m * g
  {
    if m > 0 {
      RowsLength(g, m - 1, f);
      RowOfAt(m - 1, g, f);
      assert (m - 1) * g + g == m * g;
    }
  }

  /** Cell `(i, j)` sits at index `i * g + j`. */
  lemma {:induction false} RowsAt(g: nat, m: nat, f: (nat, nat) -> Value, i: nat, j: nat)
    requires i < m && j < g
    ensures i * g + j < |Rows(g, m, f)|
    ensures Rows(g, m, f)[i * g + j] == f(i, j)
  {
    RowsLength(g, m, f);
    RowsLength(g, m - 1, f);
    RowOfAt(m - 1, g, f);
    if i < m - 1 {
      RowsAt(g, m - 1, f, i, j);
      assert i * g + j < (m - 1) * g by { RowBound(i, j, g, m - 1); }
    } else {
      assert i * g + j == (m - 1) * g + j;
    }
  }

  /** A cell index of a grid with `m` rows stays below `m * g`. */
  lemma RowBound(i: nat, j: nat, g: nat, m: nat)
    requires i < m && j < g
    ensures i * g + j < m * g
  {
    assert i * g + j < i * g + g == (i + 1) * g;
    assert (i + 1) * g <= m * g;
  }

  function XAt(g: nat): (nat, nat) -> Value
    requires g > 1
  {
    (i: nat, j: nat) => Float(Coord(g, i))
  }

  function YAt(g: nat): (nat, nat) -> Value
    requires g > 1
  {
    (i: nat, j: nat) => Float(Coord(g, j))
  }

  function ZAt(height: (nat, nat) -> real): (nat, nat) -> Value {
    (i: nat, j: nat) => Float(height(i, j))
  }

  /** `generate_profile_data(grid_size)`: `None` is the ZeroDivisionError of
      a one-line grid. */
  function ProfileData(g: nat, height: (nat, nat) -> real): Option<Value> {
    if g == 1 then None
    else if g == 0 then Some(Axes([], [], []))
    else Some(Axes(Rows(g, g, XAt(g)), Rows(g, g, YAt(g)), Rows(g, g, ZAt(height))))
  }

  /** The dict `{'X': xs, 'Y': ys, 'Z': zs}`. */
  function Axes(xs: seq<Value>, ys: seq<Value>, zs: seq<Value>): Value {
    Dict([("X", List(xs)), ("Y", List(ys)), ("Z", List(zs))])
  }

  /** The list under `key` of a profile, and `[]` when there is none. */
  function AxisValues(data: Option<Value>, key: string): seq<Value> {
    match data
    case Some(Dict(es)) =>
      (match Get(es, key)
       case Some(List(xs)) => xs
       case _ => [])
    case _ => []
  }

  lemma AxesValues(xs: seq<Value>, ys: seq<Value>, zs: seq<Value>)
    ensures Get(Axes(xs, ys, zs).entries, "X") == Some(List(xs))
    ensures Get(Axes(xs, ys, zs).entries, "Y") == Some(List(ys))
    ensures Get(Axes(xs, ys, zs).entries, "Z") == Some(List(zs))
  {
    var es := Axes(xs, ys, zs).entries;
    assert Get(es, "Y") == Get(es[1..], "Y");
    assert Get(es, "Z") == Get(es[1..][1..], "Z");
  }

  /** The profile checker accepts three axes exactly when each holds the
      400 values of a 20 by 20 grid. */
  lemma CheckAxes(xs: seq<Value>, ys: seq<Value>, zs: seq<Value>)
    ensures CheckAfmFiles.CheckProfile(Some(Axes(xs, ys, zs))).ProfileValid? <==> |xs| == |ys| == |zs| == 400
  {
    var v := Axes(xs, ys, zs);
    CheckAfmFiles.CheckProfileValid(v);
    AxesValues(xs, ys, zs);
  }

  /** The nested loops of `generate_profile_data`. */
  method GenerateProfileData(g: nat, height: (nat, nat) -> real) returns (r: Option<Value>)
    ensures r == ProfileData(g, height)
  {
    if g == 1 {
      return None;
    }
    var xs: seq<Value> := [];
    var ys: seq<Value> := [];
    var zs: seq<Value> := [];
    for i := 0 to g
      invariant g > 1 ==> xs == Rows(g, i, XAt(g)) && ys == Rows(g, i, YAt(g))
      invariant g > 1 ==> zs == Rows(g, i, ZAt(height))
      invariant g == 0 ==> xs == [] && ys == [] && zs == []
    {
      for j := 0 to g
        invariant g > 1 ==> xs == Rows(g, i, XAt(g)) + RowOf(i, j, XAt(g))
        invariant g > 1 ==> ys == Rows(g, i, YAt(g)) + RowOf(i, j, YAt(g))
        invariant g > 1 ==> zs == Rows(g, i, ZAt(height)) + RowOf(i, j, ZAt(height))
      {
        var x := -50.0 + (100 * i) as real / (g - 1) as real;
        var y := -50.0 + (100 * j) as real / (g - 1) as real;
        xs := xs + [Float(x)];
        ys := ys + [Float(y)];
        zs := zs + [Float(height(i, j))];
      }
    }
    r := Some(Axes(xs, ys, zs));
  }

  /** Each axis holds `g * g` values; cell `(i, j)` at index `i * g + j`
      has the `i`-th X line, the `j`-th Y line and the terrain height. */
  lemma ProfileCells(g: nat, height: (nat, nat) -> real, i: nat, j: nat)
    requires g > 1 && i < g && j < g
    ensures var xs, ys, zs := AxisValues(ProfileData(g, height), "X"), AxisValues(ProfileData(g, height), "Y"),
                              AxisValues(ProfileData(g, height), "Z");
      && |xs| == |ys| == |zs| == g * g && i * g + j < g * g
      && xs[i * g + j] == Float(Coord(g, i))
      && ys[i * g + j] == Float(Coord(g, j))
      && zs[i * g + j] == Float(height(i, j))
  {
    AxesValues(Rows(g, g, XAt(g)), Rows(g, g, YAt(g)), Rows(g, g, ZAt(height)));
    RowsLength(g, g, XAt(g));
    RowsLength(g, g, YAt(g));
    RowsLength(g, g, ZAt(height));
    RowsAt(g, g, XAt(g), i, j);
    RowsAt(g, g, YAt(g), i, j);
    RowsAt(g, g, ZAt(height), i, j);
  }

  /** The grid spans [-50, 50]: the first line is at -50 and the last at 50. */
  lemma CoordEnds(g: nat)
    requires g > 1
    ensures Coord(g, 0) == -50.0 && Coord(g, g - 1) == 50.0
  {
    var d := (g - 1) as real;
    assert (100 * (g - 1)) as real == 100.0 * d;
    assert 100.0 * d / d == 100.0;
  }

  /** The profile checker accepts the generated profile exactly for the
      default grid of 20 lines. */
  lemma ProfileCheckAccepts(g: nat, height: (nat, nat) -> real)
    ensures CheckAfmFiles.CheckProfile(ProfileData(g, height)).ProfileValid? <==> g == 20
  {
    if g == 0 {
      CheckAxes([], [], []);
    } else if g > 1 {
      RowsLength(g, g, XAt(g));
      RowsLength(g, g, YAt(g));
      RowsLength(g, g, ZAt(height));
      CheckAxes(Rows(g, g, XAt(g)), Rows(g, g, YAt(g)), Rows(g, g, ZAt(height)));
      SquareIs400(g);
    }
  }

  lemma SquareIs400(g: nat)
    ensures g * g == 400 <==> g == 20
  {
    if g < 20 {
      assert g * g <= 19 * g;
    } else if g > 20 {
      assert g * g >= 21 * g;
    }
  }

  // ---------------------------------------------------------------------
  // create_simple_bmp
  // ---------------------------------------------------------------------

  /** A Python `bytes` element. */
  newtype Byte = x: int | 0 <= x < 256

  /** `x & 0xFF` for a non-negative `x`. */
  function ByteOf(x: int): Byte {
    (x % 256) as Byte
  }

  /** The little-endian 32-bit field `[n & 0xFF, n >> 8 & 0xFF, ...]`. */
  function Le32(n: int): seq<Byte> {
    [ByteOf(n), ByteOf(n / 0x100), ByteOf(n / 0x1_0000), ByteOf(n / 0x100_0000)]
  }

  /** The number the `n`-byte little-endian field at offset `i` stands for. */
  function FieldAt(bs: seq<Byte>, i: nat, n: nat): nat
    requires i + n <= |bs|
    decreases n
  {
    if n == 0 then 0 else bs[i] as nat + 256 * FieldAt(bs, i + 1, n - 1)
  }

  lemma Field2(bs: seq<Byte>, i: nat)
    requires i + 2 <= |bs|
    ensures FieldAt(bs, i, 2) == bs[i] as nat + 256 * bs[i + 1] as nat
  {
    assert FieldAt(bs, i + 1, 1) == bs[i + 1] as nat + 256 * FieldAt(bs, i + 2, 0);
  }

  lemma Field4(bs: seq<Byte>, i: nat)
    requires i + 4 <= |bs|
    ensures FieldAt(bs, i, 4) == bs[i] as nat + 256 * (bs[i + 1] as nat + 256 * (bs[i + 2] as nat + 256 * bs[i + 3] as nat))
  {
    Field2(bs, i + 2);
    assert FieldAt(bs, i + 1, 3) == bs[i + 1] as nat + 256 * FieldAt(bs, i + 2, 2);
  }

  /** Reading a 32-bit field back gives the number modulo 2^32. */
  lemma Le32Value(n: int)
    ensures |Le32(n)| == 4
    ensures FieldAt(Le32(n), 0, 4) == n % 0x1_0000_0000
  {
    Field4(Le32(n), 0);
    ShiftMaskSum(n);
  }

  /** The four masked shifts of `n` put together give `n` modulo 2^32. */
  lemma ShiftMaskSum(n: int)
    ensures n % 256 + 256 * ((n / 0x100) % 256 + 256 * ((n / 0x1_0000) % 256 + 256 * ((n / 0x100_0000) % 256)))
            == n % 0x1_0000_0000
  {
    var q1, q2, q3 := n / 0x100, n / 0x1_0000, n / 0x100_0000;
    var r0, r1, r2, r3 := n % 256, q1 % 256, q2 % 256, q3 % 256;
    assert q2 == q1 / 256 && q3 == q2 / 256;
    assert n == 256 * q1 + r0 && q1 == 256 * q2 + r1 && q2 == 256 * q3 + r2 && q3 == 256 * (q3 / 256) + r3;
    assert n == 0x1_0000_0000 * (q3 / 256) + (r0 + 256 * (r1 + 256 * (r2 + 256 * r3)));
  }

  /** The 14-byte file header. */
  function FileHeader(w: nat, h: nat): seq<Byte> {
    var size := Le32(54 + w * h * 3);
    [0x42, 0x4D, size[0], size[1], size[2], size[3], 0, 0, 0, 0, 0x36, 0, 0, 0]
  }

  /** The 40-byte info header, field by field. */
  function InfoHeader(w: nat, h: nat): seq<Byte> {
    [0x28, 0, 0, 0]                          // header size
    + (Le32(w)                               // width
    + (Le32(h)                               // height
    + ([0x01, 0, 0x18, 0]                    // planes, bits per pixel
    + ([0, 0, 0, 0, 0, 0, 0, 0]              // compression, image size
    + ([0x13, 0x0B, 0, 0, 0x13, 0x0B, 0, 0]  // pixels per metre
    + [0, 0, 0, 0, 0, 0, 0, 0])))))          // colours used, important colours
  }

  /** The file header says "BM", the file size (modulo 2^32) and that the
      pixels start right after the two headers. */
  lemma FileHeaderLayout(w: nat, h: nat)
    ensures var fh := FileHeader(w, h);
      && |fh| == 14 && fh[0] == 'B' as Byte && fh[1] == 'M' as Byte
      && FieldAt(fh, 2, 4) == (54 + w * h * 3) % 0x1_0000_0000
      && FieldAt(fh, 6, 4) == 0
      && FieldAt(fh, 10, 4) == |FileHeader(w, h) + InfoHeader(w, h)|
  {
    var fh := FileHeader(w, h);
    Le32Value(54 + w * h * 3);
    Field4(fh, 2);
    Field4(Le32(54 + w * h * 3), 0);
    Field4(fh, 6);
    Field4(fh, 10);
  }

  /** A field of the second part of `a + b` is the field of `b`. */
  lemma {:induction false} FieldShift(a: seq<Byte>, b: seq<Byte>, i: nat, n: nat)
    requires i + n <= |b|
    ensures FieldAt(a + b, |a| + i, n) == FieldAt(b, i, n)
    decreases n
  {
    if n > 0 {
      assert (a + b)[|a| + i] == b[i];
      FieldShift(a, b, i + 1, n - 1);
    }
  }

  /** A field of the first part of `a + b` is the field of `a`. */
  lemma {:induction false} FieldPrefix(a: seq<Byte>, b: seq<Byte>, i: nat, n: nat)
    requires i + n <= |a|
    ensures FieldAt(a + b, i, n) == FieldAt(a, i, n)
    decreases n
  {
    if n > 0 {
      assert (a + b)[i] == a[i];
      FieldPrefix(a, b, i + 1, n - 1);
    }
  }

  /** The info header holds the width and the height, modulo 2^32. */
  lemma InfoHeaderSize(w: nat, h: nat)
    ensures |InfoHeader(w, h)| == 40
    ensures FieldAt(InfoHeader(w, h), 4, 4) == w % 0x1_0000_0000
    ensures FieldAt(InfoHeader(w, h), 8, 4) == h % 0x1_0000_0000
  {
    var c0: seq<Byte> := [0x28, 0, 0, 0];
    var t3 := [0x01, 0, 0x18, 0] + ([0, 0, 0, 0, 0, 0, 0, 0]
      + ([0x13, 0x0B, 0, 0, 0x13, 0x0B, 0, 0] + [0, 0, 0, 0, 0, 0, 0, 0]));
    var t2 := Le32(h) + t3;
    var t1 := Le32(w) + t2;
    assert InfoHeader(w, h) == c0 + t1;
    Le32Value(w);
    Le32Value(h);
    FieldShift(c0, t1, 0, 4);
    FieldPrefix(Le32(w), t2, 0, 4);
    FieldShift(c0, t1, 4, 4);
    FieldShift(Le32(w), t2, 0, 4);
    FieldPrefix(Le32(h), t3, 0, 4);
  }

  /** The rest of the info header: its own size, one plane, 24 bits per
      pixel, no compression, 2835 pixels per metre either way. */
  lemma InfoHeaderFields(w: nat, h: nat)
    ensures var ih := InfoHeader(w, h);
      && |ih| == 40
      && FieldAt(ih, 0, 4) == 40
      && FieldAt(ih, 12, 2) == 1 && FieldAt(ih, 14, 2) == 24
      && FieldAt(ih, 16, 4) == 0
      && FieldAt(ih, 24, 4) == 2835 && FieldAt(ih, 28, 4) == 2835
  {
    var c0: seq<Byte> := [0x28, 0, 0, 0];
    var bits: seq<Byte> := [0x01, 0, 0x18, 0];
    var zeros: seq<Byte> := [0, 0, 0, 0, 0, 0, 0, 0];
    var ppm: seq<Byte> := [0x13, 0x0B, 0, 0, 0x13, 0x0B, 0, 0];
    var t4 := zeros + (ppm + zeros);
    var t3 := bits + t4;
    var t1 := Le32(w) + (Le32(h) + t3);
    assert InfoHeader(w, h) == c0 + t1;
    // the header size
    FieldPrefix(c0, t1, 0, 4);
    Field4(c0, 0);
    // planes and bits per pixel: the first field of `t3`
    PastSizes(c0, w, h, t3, 0, 2);
    FieldPrefix(bits, t4, 0, 2);
    Field2(bits, 0);
    PastSizes(c0, w, h, t3, 2, 2);
    FieldPrefix(bits, t4, 2, 2);
    Field2(bits, 2);
    // compression
    PastSizes(c0, w, h, t3, 4, 4);
    FieldShift(bits, t4, 0, 4);
    FieldPrefix(zeros, ppm + zeros, 0, 4);
    Field4(zeros, 0);
    // pixels per metre
    PastSizes(c0, w, h, t3, 12, 4);
    FieldShift(bits, t4, 8, 4);
    FieldShift(zeros, ppm + zeros, 0, 4);
    FieldPrefix(ppm, zeros, 0, 4);
    Field4(ppm, 0);
    PastSizes(c0, w, h, t3, 16, 4);
    FieldShift(bits, t4, 12, 4);
    FieldShift(zeros, ppm + zeros, 4, 4);
    FieldPrefix(ppm, zeros, 4, 4);
    Field4(ppm, 4);
  }

  /** A field after the size, width and height of the info header. */
  lemma PastSizes(c0: seq<Byte>, w: nat, h: nat, t: seq<Byte>, i: nat, n: nat)
    requires |c0| == 4 && i + n <= |t|
    ensures FieldAt(c0 + (Le32(w) + (Le32(h) + t)), 12 + i, n) == FieldAt(t, i, n)
  {
    FieldShift(c0, Le32(w) + (Le32(h) + t), 8 + i, n);
    FieldShift(Le32(w), Le32(h) + t, 4 + i, n);
    FieldShift(Le32(h), t, i, n);
  }

  /** The stored pixel at `idx`: blue, green, red. */
  function Bgr(image: seq<Byte>, idx: nat): seq<Byte>
    requires idx + 2 < |image|
  {
    [image[idx + 2], image[idx + 1], image[idx]]
  }

  /** Where image row `y` starts: after `y` rows of `3 * w` bytes. */
  function RowStart(w: nat, y: nat): nat {
    if y == 0 then 0 else RowStart(w, y - 1) + 3 * w
  }

  lemma {:induction false} RowStartIs(w: nat, y: nat)
    ensures RowStart(w, y) == 3 * w * y
  {
    if y > 0 {
      RowStartIs(w, y - 1);
      assert 3 * w * (y - 1) + 3 * w == 3 * w * y;
    }
  }

  /** Pixels `0 .. n - 1` of the image row starting at `start`. */
  function RowBytes(image: seq<Byte>, start: nat, n: nat): seq<Byte>
    requires start + 3 * n <= |image|
  {
    if n == 0 then [] else RowBytes(image, start, n - 1) + Bgr(image, start + 3 * (n - 1))
  }

  /** The first `k` stored rows: image rows `h - 1` down to `h - k`. */
  function PixelRows(image: seq<Byte>, w: nat, h: nat, k: nat): seq<Byte>
    requires k <= h && RowStart(w, h) <= |image|
  {
    if k == 0 then []
    else
      RowFits(w, h - k, h, |image|);
      PixelRows(image, w, h, k - 1) + RowBytes(image, RowStart(w, h - k), w)
  }

  /** Every row `y < h` ends where row `y + 1` starts, inside the first
      `h` rows. */
  lemma {:induction false} RowFits(w: nat, y: nat, h: nat, len: nat)
    requires y < h && RowStart(w, h) <= len
    ensures RowStart(w, y) + 3 * w <= len
    decreases h
  {
    if y < h - 1 {
      RowFits(w, y, h - 1, len);
    }
  }

  /** The source's index `(y * w + x) * 3`. */
  lemma PixelIndex(w: nat, y: nat, x: nat)
    ensures (y * w + x) * 3 == RowStart(w, y) + 3 * x
  {
    RowStartIs(w, y);
    assert (y * w + x) * 3 == 3 * w * y + 3 * x;
  }

  /** `create_simple_bmp(image, w, h)`. The image holds at least `3 * w * h`
      bytes, as the source's indexing needs. */
  method CreateSimpleBmp(image: seq<Byte>, w: nat, h: nat) returns (bmp: seq<Byte>)
    requires 3 * w * h <= |image|
    ensures RowStart(w, h) <= |image|
    ensures bmp == FileHeader(w, h) + InfoHeader(w, h) + PixelRows(image, w, h, h)
  {
    RowStartIs(w, h);
    var header := FileHeader(w, h) + InfoHeader(w, h);
    var pixels: seq<Byte> := [];
    var y: nat := h;
    while y > 0
      invariant y <= h && RowStart(w, h) <= |image|
      invariant pixels == PixelRows(image, w, h, h - y)
    {
      y := y - 1;
      RowFits(w, y, h, |image|);
      ghost var start := RowStart(w, y);
      for x := 0 to w
        invariant pixels == PixelRows(image, w, h, h - y - 1) + RowBytes(image, start, x)
      {
        PixelIndex(w, y, x);
        var idx := (y * w + x) * 3;
        pixels := pixels + [image[idx + 2], image[idx + 1], image[idx]];
      }
    }
    bmp := header + pixels;
  }

  lemma {:induction false} RowBytesAt(image: seq<Byte>, start: nat, n: nat, x: nat, c: nat)
    requires start + 3 * n <= |image| && x < n && c < 3
    ensures |RowBytes(image, start, n)| == 3 * n
    ensures RowBytes(image, start, n)[3 * x + c] == image[start + 3 * x + (2 - c)]
  {
    RowBytesLength(image, start, n - 1);
    if x < n - 1 {
      RowBytesAt(image, start, n - 1, x, c);
    }
  }

  lemma {:induction false} RowBytesLength(image: seq<Byte>, start: nat, n: nat)
    requires start + 3 * n <= |image|
    ensures |RowBytes(image, start, n)| == 3 * n
  {
    if n > 0 {
      RowBytesLength(image, start, n - 1);
    }
  }

  lemma {:induction false} PixelRowsLength(image: seq<Byte>, w: nat, h: nat, k: nat)
    requires k <= h && RowStart(w, h) <= |image|
    ensures |PixelRows(image, w, h, k)| == RowStart(w, k)
  {
    if k > 0 {
      PixelRowsLength(image, w, h, k - 1);
      RowFits(w, h - k, h, |image|);
      RowBytesLength(image, RowStart(w, h - k), w);
    }
  }

  /** The stored pixels are bottom-up and blue-green-red: byte `c` of pixel
      `x` of stored row `r` is byte `2 - c` of pixel `x` of image row
      `h - 1 - r`, and a picture of `h` rows has `3 * w * h` pixel bytes. */
  lemma {:induction false} PixelRowsAt(image: seq<Byte>, w: nat, h: nat, k: nat, r: nat, x: nat, c: nat)
    requires k <= h && RowStart(w, h) <= |image| && r < k && x < w && c < 3
    ensures |PixelRows(image, w, h, k)| == RowStart(w, k)
    ensures RowStart(w, r) + 3 * x + c < RowStart(w, k)
    ensures RowStart(w, h - 1 - r) + 3 * x + (2 - c) < |image|
    ensures PixelRows(image, w, h, k)[RowStart(w, r) + 3 * x + c] == image[RowStart(w, h - 1 - r) + 3 * x + (2 - c)]
  {
    PixelRowsLength(image, w, h, k);
    PixelRowsLength(image, w, h, k - 1);
    RowFits(w, h - 1 - r, h, |image|);
    RowFits(w, r, k, RowStart(w, k));
    if r < k - 1 {
      PixelRowsAt(image, w, h, k - 1, r, x, c);
    } else {
      RowBytesAt(image, RowStart(w, h - k), w, x, c);
    }
  }

  // ---------------------------------------------------------------------
  // main
  // ---------------------------------------------------------------------

  /** The lines of the list file, stripped, without the blank ones. */
  function ListedNames(lines: seq<string>): seq<string> {
    if lines == [] then []
    else
      var s := PyStrip(lines[|lines| - 1]);
      ListedNames(lines[..|lines| - 1]) + (if s != "" then [s] else [])
  }

  /** The name of point `p` of the data file `base`, without extension. */
  function PointStem(base: string, p: int): string {
    base + "_" + Pad4(p) + "_Height"
  }

  /** `{base}_{p:04d}_Height.pkl` */
  function ProfileFile(base: string, p: int): string {
    PointStem(base, p) + ".pkl"
  }

  /** `{base}_{p:04d}_Height.webp` */
  function TiffFile(base: string, p: int): string {
    PointStem(base, p) + ".webp"
  }

  /** The files with extension `ext` of points `1 .. n` of one data file. */
  function PointFiles(base: string, n: nat, ext: string): seq<string> {
    if n == 0 then [] else PointFiles(base, n - 1, ext) + [PointStem(base, n) + ext]
  }

  /** The data file base of a listed `.csv` name. */
  function CsvBase(name: string): string {
    ReplaceAll(name, ".csv", "")
  }

  /** The data file the script reads the number of points from. */
  function PickleOf(name: string): string {
    ReplaceAll(name, ".csv", ".pkl")
  }

  /** The number of points of a listed name: those of its data file for a
      `.csv` name, none for any other name. */
  function PointsOf(name: string, load: string -> Option<Value>): nat {
    if IsSuffix(".csv", name) then MeasurementPoints(load(PickleOf(name))) else 0
  }

  /** The files with extension `ext` written for the listed names, in list
      order. */
  function Written(names: seq<string>, load: string -> Option<Value>, ext: string): seq<string> {
    if names == [] then []
    else
      var name := names[|names| - 1];
      Written(names[..|names| - 1], load, ext) + NameFiles(name, load, ext)
  }

  /** The files with extension `ext` written for one listed name. */
  function NameFiles(name: string, load: string -> Option<Value>, ext: string): seq<string> {
    PointFiles(CsvBase(name), PointsOf(name, load), ext)
  }

  /** How many points the listed names have in all. */
  function TotalPoints(names: seq<string>, load: string -> Option<Value>): nat {
    if names == [] then 0
    else TotalPoints(names[..|names| - 1], load) + PointsOf(names[|names| - 1], load)
  }

  /** The inner loop of `main`: the profile and image files of points
      `1 .. n` of one data file. */
  method WritePoints(base: string, n: nat) returns (profiles: seq<string>, tiffs: seq<string>)
    ensures profiles == PointFiles(base, n, ".pkl") && tiffs == PointFiles(base, n, ".webp")
  {
    profiles, tiffs := [], [];
    for point := 1 to n + 1
      invariant profiles == PointFiles(base, point - 1, ".pkl")
      invariant tiffs == PointFiles(base, point - 1, ".webp")
    {
      profiles := profiles + [ProfileFile(base, point)];
      tiffs := tiffs + [TiffFile(base, point)];
    }
  }

  /** The body of the outer loop of `main` for one listed name. */
  method WriteFiles(name: string, load: string -> Option<Value>) returns (profiles: seq<string>, tiffs: seq<string>)
    ensures profiles == NameFiles(name, load, ".pkl") && tiffs == NameFiles(name, load, ".webp")
  {
    profiles, tiffs := [], [];
    if IsSuffix(".csv", name) {
      var n := MeasurementPoints(load(PickleOf(name)));
      profiles, tiffs := WritePoints(CsvBase(name), n);
    }
  }

  /** The outer loop of `main` over the listed names. */
  method WriteAll(names: seq<string>, load: string -> Option<Value>)
    returns (profiles: seq<string>, tiffs: seq<string>, profileCount: nat, tiffCount: nat)
    ensures profiles == Written(names, load, ".pkl") && tiffs == Written(names, load, ".webp")
    ensures profileCount == |profiles| && tiffCount == |tiffs|
  {
    profiles, tiffs, profileCount, tiffCount := [], [], 0, 0;
    for i := 0 to |names|
      invariant profiles == Written(names[..i], load, ".pkl")
      invariant tiffs == Written(names[..i], load, ".webp")
      invariant profileCount == |profiles| && tiffCount == |tiffs|
    {
      assert names[..i + 1][..i] == names[..i];
      var ps, ts := WriteFiles(names[i], load);
      profiles, profileCount := profiles + ps, profileCount + |ps|;
      tiffs, tiffCount := tiffs + ts, tiffCount + |ts|;
    }
    assert names[..|names|] == names;
  }

  /** `main`: the profile and image files written for the names of the list
      file, in order, and the two counters it prints. */
  method GenerateAll(lines: seq<string>, load: string -> Option<Value>)
    returns (profiles: seq<string>, tiffs: seq<string>, profileCount: nat, tiffCount: nat)
    ensures profiles == Written(ListedNames(lines), load, ".pkl")
    ensures tiffs == Written(ListedNames(lines), load, ".webp")
    ensures profileCount == |profiles| && tiffCount == |tiffs|
  {
    var names := ListedNames(lines);
    profiles, tiffs, profileCount, tiffCount := WriteAll(names, load);
  }

  // ---------------------------------------------------------------------
  // Agreement of the written names with the checker and the backend
  // ---------------------------------------------------------------------

  /** A name without a dot holds no extension. */
  lemma {:induction false} NoDotNoExt(b: string, ext: string)
    requires '.' !in b && ext != [] && ext[0] == '.'
    ensures !Contains(b, ext)
    decreases |b|
  {
    if b != [] {
      assert !IsPrefix(ext, b) by { if |ext| <= |b| { assert b[0] != ext[0]; } }
      assert '.' !in b[1..] by { forall k | 0 <= k < |b[1..]| ensures b[1..][k] != '.' { assert b[1..][k] == b[k + 1]; } }
      NoDotNoExt(b[1..], ext);
    }
  }

  /** In a dotless base followed by an extension, the extension is the one
      occurrence that `replace` rewrites. */
  lemma {:induction false} ReplaceExtension(b: string, ext: string, rep: string)
    requires '.' !in b && ext != [] && ext[0] == '.'
    ensures ReplaceAll(b + ext, ext, rep) == b + rep
    decreases |b|
  {
    if b == [] {
      assert b + ext == ext;
      assert ext[|ext|..] == [];
    } else {
      assert (b + ext)[..|ext|] != ext by { assert (b + ext)[0] == b[0] != '.'; }
      assert (b + ext)[1..] == b[1..] + ext;
      assert '.' !in b[1..] by { forall k | 0 <= k < |b[1..]| ensures b[1..][k] != '.' { assert b[1..][k] == b[k + 1]; } }
      ReplaceExtension(b[1..], ext, rep);
      assert [b[0]] + (b[1..] + rep) == b + rep;
    }
  }

  /** For a listed name `b.csv`, the profile files the script writes are the
      ones the file checker looks up for the data file `b.pkl`. */
  lemma WrittenProfilesAreChecked(b: string, p: int)
    requires '.' !in b && b != ""
    ensures CsvBase(b + ".csv") == b
    ensures ProfileFile(CsvBase(b + ".csv"), p)
            == CheckAfmFiles.ProfileName(CheckAfmFiles.Stem(PickleOf(b + ".csv")), p)
  {
    ReplaceExtension(b, ".csv", "");
    ReplaceExtension(b, ".csv", ".pkl");
    var pk := b + ".pkl";
    assert PickleOf(b + ".csv") == pk;
    assert pk[..|pk| - 4] == b;
    assert IsSuffix(".pkl", pk) by { assert pk[|b|..] == ".pkl"; }
    assert CheckAfmFiles.Stem(pk) == b;
    var stem := b + "_" + Pad4(p);
    assert ProfileFile(b, p) == stem + "_Height" + ".pkl";
    assert CheckAfmFiles.ProfileName(b, p) == stem + "_Height.pkl";
    assert stem + "_Height" + ".pkl" == stem + "_Height.pkl";
  }

  /** The backend's profile lookup for the data file `b.csv` asks for
      `b#_{p:04d}_Height.pkl`: the name the script writes for the base `b#`,
      never the one it writes for `b` itself. */
  lemma BackendLooksForHash(b: string, p: int)
    requires '.' !in b
    ensures FileParser.PointFileName(b + ".csv", p, ".pkl") == ProfileFile(b + "#", p)
    ensures FileParser.PointFileName(b + ".csv", p, ".pkl") != ProfileFile(b, p)
  {
    ReplaceExtension(b, ".csv", "");
    NoDotNoExt(b, ".pkl");
    ReplaceAbsent(b, ".pkl", "");
    assert b + "" == b;
    assert FileParser.NoExt(b + ".csv") == b;
    var name := FileParser.PointFileName(b + ".csv", p, ".pkl");
    assert name == b + "#_" + Pad4(p) + "_Height" + ".pkl";
    assert  ProfileFile(b + "#", p) == (b + "#") + "_" + Pad4(p) + "_Height" + ".pkl";
    assert b + "#_" == (b + "#") + "_";
    assert |name| == |ProfileFile(b, p)| + 1;
  }

  /** The files of one data file are those of points `1 .. n`, in order. */
  lemma {:induction false} PointFilesAt(base: string, n: nat, ext: string)
    ensures |PointFiles(base, n, ext)| == n
    ensures forall k :: 0 <= k < n ==> PointFiles(base, n, ext)[k] == PointStem(base, k + 1) + ext
  {
    if n > 0 {
      var prev := PointFiles(base, n - 1, ext);
      PointFilesAt(base, n - 1, ext);
      assert PointFiles(base, n, ext) == prev + [PointStem(base, n) + ext];
      forall k | 0 <= k < n
        ensures PointFiles(base, n, ext)[k] == PointStem(base, k + 1) + ext
      {
        if k < n - 1 {
          assert (prev + [PointStem(base, n) + ext])[k] == prev[k];
        }
      }
    }
  }

  /** Different points of one data file get different file names. */
  lemma PointFilesDistinct(base: string, n: nat, ext: string, k: nat, l: nat)
    requires k < l < n
    ensures |PointFiles(base, n, ext)| == n
    ensures PointFiles(base, n, ext)[k] != PointFiles(base, n, ext)[l]
  {
    PointFilesAt(base, n, ext);
    var pk, pl := PointFiles(base, n, ext)[k], PointFiles(base, n, ext)[l];
    assert pk == PointStem(base, k + 1) + ext;
    assert pl == PointStem(base, l + 1) + ext;
    PointFileInjective(base, k + 1, l + 1, ext);
  }

  lemma PointFileInjective(base: string, p: int, q: int, ext: string)
    requires p != q
    ensures PointStem(base, p) + ext != PointStem(base, q) + ext
  {
    var a, b := PointStem(base, p), PointStem(base, q);
    if a + ext == b + ext {
      assert a == (a + ext)[..|a|] && b == (b + ext)[..|b|];
      PointStemInjective(base, p, q);
    }
  }

  lemma PointStemInjective(base: string, p: int, q: int)
    requires p != q
    ensures PointStem(base, p) != PointStem(base, q)
  {
    if PointStem(base, p) == PointStem(base, q) {
      var a, b := base + "_" + Pad4(p), base + "_" + Pad4(q);
      assert a == PointStem(base, p)[..|a|] && b == PointStem(base, q)[..|b|];
      assert |a| == |b|;
      assert Pad4(p) == a[|base| + 1..] && Pad4(q) == b[|base| + 1..];
      PyIntPad4(p);
      PyIntPad4(q);
      assert false;
    }
  }

  /** The script writes one profile and one image file per point of every
      listed `.csv` name. */
  lemma {:induction false} WrittenLength(names: seq<string>, load: string -> Option<Value>, ext: string)
    ensures |Written(names, load, ext)| == TotalPoints(names, load)
  {
    if names != [] {
      WrittenLength(names[..|names| - 1], load, ext);
      var name := names[|names| - 1];
      PointFilesAt(CsvBase(name), PointsOf(name, load), ext);
      assert |NameFiles(name, load, ext)| == PointsOf(name, load);
    }
  }

  /** The `k`-th profile and the `k`-th image share their stem: the `k`-th
      name written without extension. */
  lemma {:induction false} WrittenStem(names: seq<string>, load: string -> Option<Value>, ext: string, k: nat)
    requires k < TotalPoints(names, load)
    ensures |Written(names, load, ext)| == |Written(names, load, "")| == TotalPoints(names, load)
    ensures Written(names, load, ext)[k] == Written(names, load, "")[k] + ext
  {
    var init, name := names[..|names| - 1], names[|names| - 1];
    var a, a0 := Written(init, load, ext), Written(init, load, "");
    var b, b0 := NameFiles(name, load, ext), NameFiles(name, load, "");
    assert Written(names, load, ext) == a + b;
    assert Written(names, load, "") == a0 + b0;
    WrittenLength(init, load, ext);
    WrittenLength(init, load, "");
    assert TotalPoints(names, load) == |a| + PointsOf(name, load);
    if k < |a| {
      WrittenStem(init, load, ext, k);
      NameFileLength(name, load, ext);
    } else {
      NameFileStem(name, load, ext, k - |a|);
    }
    StemOfSplit(a, a0, b, b0, ext, k);
  }

  /** A pointwise stem relation survives concatenation. */
  lemma StemOfSplit(a: seq<string>, a0: seq<string>, b: seq<string>, b0: seq<string>, ext: string, k: nat)
    requires |a| == |a0| && |b| == |b0| && k < |a| + |b|
    requires k < |a| ==> a[k] == a0[k] + ext
    requires |a| <= k ==> b[k - |a|] == b0[k - |a|] + ext
    ensures (a + b)[k] == (a0 + b0)[k] + ext
  {
  }

  lemma NameFileLength(name: string, load: string -> Option<Value>, ext: string)
    ensures |NameFiles(name, load, ext)| == |NameFiles(name, load, "")| == PointsOf(name, load)
  {
    PointFilesAt(CsvBase(name), PointsOf(name, load), ext);
    PointFilesAt(CsvBase(name), PointsOf(name, load), "");
  }

  lemma NameFileStem(name: string, load: string -> Option<Value>, ext: string, j: nat)
    requires j < PointsOf(name, load)
    ensures |NameFiles(name, load, ext)| == |NameFiles(name, load, "")| == PointsOf(name, load)
    ensures NameFiles(name, load, ext)[j] == NameFiles(name, load, "")[j] + ext
  {
    var base, n := CsvBase(name), PointsOf(name, load);
    PointFilesAt(base, n, ext);
    PointFilesAt(base, n, "");
    assert PointStem(base, j + 1) + "" == PointStem(base, j + 1);
  }
}
