/**
 * The level loop of `tone_mapping` in TMO4CT/algorithm.py: for every grey level from 0
 * to the image maximum, the pixels at that level form a binary layer, which is rebinned
 * to the working shape, convolved with the kernel and stored as one slice of the
 * histogram volume. Levels no pixel has keep their zero slice. The convolution is a
 * parameter of the model.
 */
module Volume {
  import opened Sums
  import opened Grids
  import Rebin

  /** The quantised image: a 2-D array of non-negative integer levels. */
  type Image = seq<seq<nat>>

  /** The current contents of the quantised image. */
  function Pixels(data: array2<nat>): (img: Image)
    reads data
    ensures |img| == data.Length0 && forall r :: 0 <= r < data.Length0 ==> |img[r]| == data.Length1
    ensures forall r, c :: 0 <= r < data.Length0 && 0 <= c < data.Length1 ==> img[r][c] == data[r, c]
  {
    seq(data.Length0, r requires 0 <= r < data.Length0 reads data =>
      seq(data.Length1, c requires 0 <= c < data.Length1 reads data => data[r, c]))
  }

  /** Some pixel of the image is at level v (`np.any(data == v)`). */
  predicate Occurs(img: Image, v: int)
  {
    exists r, c :: 0 <= r < |img| && 0 <= c < |img[r]| && img[r][c] == v
  }

  /** `(data == v).astype(np.float32)`: 1.0 where the pixel is at level v, 0.0 elsewhere. */
  function Indicator(img: Image, src: Shape, v: int): Grid
  {
    Tabulate(src.rows, src.cols, (r, c) => if 0 <= r < |img| && 0 <= c < |img[r]| && img[r][c] == v then 1.0 else 0.0)
  }

  /** What `rebin` makes of a src-shaped grid a in a dst-shaped buffer. */
  function Rebinned(a: Grid, src: Shape, dst: Shape): Grid
  {
    Tabulate(dst.rows, dst.cols, (x, y) => Rebin.RebinCell(a, src, dst, x, y))
  }

  /** The layer of level v after `rebin` into the working shape dst. */
  function Layer(img: Image, src: Shape, dst: Shape, v: int): Grid
  {
    Rebinned(Indicator(img, src, v), src, dst)
  }

  /** Entry (x, y) of slice v of the volume: the convolved layer, or 0.0 for a level no pixel has. */
  function SliceCell(img: Image, src: Shape, dst: Shape, conv: Grid -> Grid, v: int, x: int, y: int): real
  {
    if Occurs(img, v) then At(conv(Layer(img, src, dst, v)), x, y) else 0.0
  }

  // ---------------------------------------------------------------------------------
  // The loops.
  // ---------------------------------------------------------------------------------

  /** `data.max()` of an image with at least one pixel. */
  method ImageMax(data: array2<nat>) returns (m: nat)
    requires data.Length0 > 0 && data.Length1 > 0
    ensures forall r, c :: 0 <= r < data.Length0 && 0 <= c < data.Length1 ==> data[r, c] <= m
    ensures exists r, c :: 0 <= r < data.Length0 && 0 <= c < data.Length1 && data[r, c] == m
  {
    m := data[0, 0];
    var r := 0;
    while r < data.Length0
      invariant 0 <= r <= data.Length0
      invariant forall i, c :: 0 <= i < r && 0 <= c < data.Length1 ==> data[i, c] <= m
      invariant exists i, c :: 0 <= i < data.Length0 && 0 <= c < data.Length1 && data[i, c] == m
    {
      var c := 0;
      while c < data.Length1
        invariant 0 <= c <= data.Length1
        invariant forall i, k :: (0 <= i < r && 0 <= k < data.Length1) || (i == r && 0 <= k < c) ==> data[i, k] <= m
        invariant exists i, k :: 0 <= i < data.Length0 && 0 <= k < data.Length1 && data[i, k] == m
      {
        if data[r, c] > m {
          m := data[r, c];
        }
        c := c + 1;
      }
      r := r + 1;
    }
  }

  /** `binary_layer = (data == v)` converted to floats: a fresh array holding the indicator of level v. */
  method BinaryLayer(data: array2<nat>, v: int) returns (b: array2<real>)
    ensures fresh(b) && b.Length0 == data.Length0 && b.Length1 == data.Length1
    ensures Snapshot(b) == Indicator(Pixels(data), Shape(data.Length0, data.Length1), v)
  {
    b := new real[data.Length0, data.Length1];
    forall r, c | 0 <= r < data.Length0 && 0 <= c < data.Length1 {
      b[r, c] := if data[r, c] == v then 1.0 else 0.0;
    }
    GridExtensional(Snapshot(b), Indicator(Pixels(data), Shape(data.Length0, data.Length1), v), data.Length0, data.Length1);
  }

  /** `np.any(b)`: some entry is non-zero. */
  method AnyNonZero(b: array2<real>) returns (any: bool)
    ensures any <==> exists r, c :: 0 <= r < b.Length0 && 0 <= c < b.Length1 && b[r, c] != 0.0
  {
    var r := 0;
    while r < b.Length0
      invariant 0 <= r <= b.Length0
      invariant forall i, c :: 0 <= i < r && 0 <= c < b.Length1 ==> b[i, c] == 0.0
    {
      var c := 0;
      while c < b.Length1
        invariant 0 <= c <= b.Length1
        invariant forall i, k :: (0 <= i < r && 0 <= k < b.Length1) || (i == r && 0 <= k < c) ==> b[i, k] == 0.0
      {
        if b[r, c] != 0.0 {
          return true;
        }
        c := c + 1;
      }
      r := r + 1;
    }
    return false;
  }

  /** The binary layer of level v has a non-zero entry exactly when some pixel is at level v. */
  lemma IndicatorNonZero(img: Image, src: Shape, v: int)
    requires |img| == src.rows && forall r :: 0 <= r < src.rows ==> |img[r]| == src.cols
    ensures (exists r, c :: 0 <= r < src.rows && 0 <= c < src.cols && Indicator(img, src, v)[r][c] != 0.0) <==> Occurs(img, v)
  {
    if Occurs(img, v) {
      var r, c :| 0 <= r < |img| && 0 <= c < |img[r]| && img[r][c] == v;
      assert Indicator(img, src, v)[r][c] != 0.0;
    }
  }

  /** `test[v, ...] = out`: slice v becomes `out`, every other slice is kept. */
  method StoreSlice(test: array3<real>, v: int, out: Grid)
    requires 0 <= v < test.Length0 && IsGrid(out, test.Length1, test.Length2)
    modifies test
    ensures forall u, x, y :: 0 <= u < test.Length0 && 0 <= x < test.Length1 && 0 <= y < test.Length2 ==>
              test[u, x, y] == if u == v then out[x][y] else old(test[u, x, y])
  {
    forall x, y | 0 <= x < test.Length1 && 0 <= y < test.Length2 {
      test[v, x, y] := out[x][y];
    }
  }

  /** `layer = rebin(binary_layer, layer)`, `x = conv(layer)`, `test[v, ...] = x`. */
  method ConvolveLevel(binary: array2<real>, layer: array2<real>, test: array3<real>, conv: Grid -> Grid, v: int)
    requires binary != layer && 0 <= v < test.Length0
    requires binary.Length0 > 0 && binary.Length1 > 0
    requires layer.Length0 == test.Length1 > 0 && layer.Length1 == test.Length2 > 0
    requires forall g :: IsGrid(g, test.Length1, test.Length2) ==> IsGrid(conv(g), test.Length1, test.Length2)
    modifies test, layer
    ensures forall u, x, y :: 0 <= u < test.Length0 && 0 <= x < test.Length1 && 0 <= y < test.Length2 ==>
              test[u, x, y] == if u == v
                               then At(conv(Rebinned(Snapshot(binary), Shape(binary.Length0, binary.Length1), Shape(layer.Length0, layer.Length1))), x, y)
                               else old(test[u, x, y])
  {
    Rebin.Rebin(binary, layer);
    GridExtensional(Snapshot(layer), Rebinned(Snapshot(binary), Shape(binary.Length0, binary.Length1), Shape(layer.Length0, layer.Length1)),
                    layer.Length0, layer.Length1);
    var out := conv(Snapshot(layer));
    StoreSlice(test, v, out);
  }

  /**
   * One pass of the level loop: the binary layer of level v; if it has a pixel, `rebin`
   * into `layer`, convolve, and store the result as slice v of `test`.
   */
  method FillLevel(data: array2<nat>, test: array3<real>, layer: array2<real>, conv: Grid -> Grid, v: int)
    requires 0 <= v < test.Length0
    requires data.Length0 > 0 && data.Length1 > 0
    requires layer.Length0 == test.Length1 > 0 && layer.Length1 == test.Length2 > 0
    requires forall g :: IsGrid(g, test.Length1, test.Length2) ==> IsGrid(conv(g), test.Length1, test.Length2)
    modifies test, layer
    ensures forall u, x, y :: 0 <= u < test.Length0 && 0 <= x < test.Length1 && 0 <= y < test.Length2 ==>
              test[u, x, y] == if u == v && Occurs(Pixels(data), v)
                               then At(conv(Layer(Pixels(data), Shape(data.Length0, data.Length1), Shape(test.Length1, test.Length2), v)), x, y)
                               else old(test[u, x, y])
  {
    ghost var img := Pixels(data);
    ghost var src := Shape(data.Length0, data.Length1);
    var binary := BinaryLayer(data, v);
    var any := AnyNonZero(binary);
    IndicatorNonZero(img, src, v);
    if any {
      ConvolveLevel(binary, layer, test, conv, v);
    }
  }

  /**
   * The histogram volume `test` of `tone_mapping`: one slice per level 0 .. max, each
   * the convolved working-shape layer of its level, or zero when no pixel has that
   * level. `conv` is the convolution with the kernel, keeping the layer's shape.
   */
  method FillVolume(data: array2<nat>, rows: nat, cols: nat, conv: Grid -> Grid) returns (test: array3<real>)
    requires data.Length0 > 0 && data.Length1 > 0 && rows > 0 && cols > 0
    requires forall g :: IsGrid(g, rows, cols) ==> IsGrid(conv(g), rows, cols)
    ensures fresh(test) && test.Length1 == rows && test.Length2 == cols
    ensures forall r, c :: 0 <= r < data.Length0 && 0 <= c < data.Length1 ==> data[r, c] < test.Length0
    ensures exists r, c :: 0 <= r < data.Length0 && 0 <= c < data.Length1 && data[r, c] == test.Length0 - 1
    ensures forall v, x, y :: 0 <= v < test.Length0 && 0 <= x < rows && 0 <= y < cols ==>
              test[v, x, y] == SliceCell(Pixels(data), Shape(data.Length0, data.Length1), Shape(rows, cols), conv, v, x, y)
  {
    ghost var img := Pixels(data);
    ghost var src, dst := Shape(data.Length0, data.Length1), Shape(rows, cols);
    var maxValue := ImageMax(data);
    ghost var wr, wc :| 0 <= wr < data.Length0 && 0 <= wc < data.Length1 && data[wr, wc] == maxValue;
    test := new real[maxValue + 1, rows, cols];
    forall v, x, y | 0 <= v < maxValue + 1 && 0 <= x < rows && 0 <= y < cols {
      test[v, x, y] := 0.0;
    }
    var layer := new real[rows, cols];
    var i := 0;
    while i < maxValue + 1
      invariant 0 <= i <= maxValue + 1
      invariant fresh(layer) && layer.Length0 == rows && layer.Length1 == cols
      invariant forall v, x, y :: 0 <= v < maxValue + 1 && 0 <= x < rows && 0 <= y < cols ==>
                  test[v, x, y] == if v < i then SliceCell(img, src, dst, conv, v, x, y) else 0.0
    {
      FillLevel(data, test, layer, conv, i);
      i := i + 1;
    }
    assert data[wr, wc] == test.Length0 - 1;
  }

  /** Two grids of the same shape with the same entries are the same grid. */
  lemma GridExtensional(g: Grid, h: Grid, rows: nat, cols: nat)
    requires IsGrid(g, rows, cols) && IsGrid(h, rows, cols)
    requires forall i, j :: 0 <= i < rows && 0 <= j < cols ==> g[i][j] == h[i][j]
    ensures g == h
  {
    forall i | 0 <= i < rows
      ensures g[i] == h[i]
    {
      assert forall j :: 0 <= j < cols ==> g[i][j] == h[i][j];
    }
  }

  // ---------------------------------------------------------------------------------
  // Properties of the layers.
  // ---------------------------------------------------------------------------------

  /** The indicator value of pixel (r, c) as a function of the level. */
  function LevelsAt(img: Image, src: Shape, r: int, c: int): int -> real
  {
    v => At(Indicator(img, src, v), r, c)
  }

  /** The binary layers of the levels 0 .. M partition the image: every pixel is in exactly one of them. */
  lemma LayersPartition(img: Image, src: Shape, M: nat, r: int, c: int)
    requires 0 <= r < src.rows && 0 <= c < src.cols
    requires |img| == src.rows && |img[r]| == src.cols && img[r][c] <= M
    ensures Sum(M + 1, LevelsAt(img, src, r, c)) == 1.0
  {
    SumSingle(M + 1, LevelsAt(img, src, r, c), img[r][c]);
  }

  /**
   * A layer's total after `rebin` never exceeds the number of pixels at its level, and
   * equals it when the working shape is not smaller than the image; every cell is
   * non-negative.
   */
  lemma LayerMass(img: Image, src: Shape, dst: Shape, v: int)
    requires dst.rows > 0 && dst.cols > 0
    ensures Total(Layer(img, src, dst, v), dst.rows, dst.cols) <= Total(Indicator(img, src, v), src.rows, src.cols)
    ensures src.rows <= dst.rows && src.cols <= dst.cols ==>
              Total(Layer(img, src, dst, v), dst.rows, dst.cols) == Total(Indicator(img, src, v), src.rows, src.cols)
    ensures forall x, y :: 0 <= x < dst.rows && 0 <= y < dst.cols ==> 0.0 <= Layer(img, src, dst, v)[x][y]
  {
    var a := Indicator(img, src, v);
    forall i, j | 0 <= i < src.rows && 0 <= j < src.cols
      ensures 0.0 <= At(a, i, j)
    {
    }
    Rebin.RebinConservesMass(a, src, dst);
    Sum2Congruent(dst.rows, dst.cols, Entries(Layer(img, src, dst, v)), (x, y) => Rebin.RebinCell(a, src, dst, x, y));
    forall x, y | 0 <= x < dst.rows && 0 <= y < dst.cols
      ensures 0.0 <= Layer(img, src, dst, v)[x][y]
    {
      Rebin.RebinNonNegative(a, src, dst, x, y);
    }
  }

  /** Without downscaling the rebinned layer is the binary layer itself. */
  lemma LayerWithoutDownscale(img: Image, src: Shape, v: int)
    ensures Layer(img, src, src, v) == Indicator(img, src, v)
  {
    forall x, y | 0 <= x < src.rows && 0 <= y < src.cols
      ensures Layer(img, src, src, v)[x][y] == Indicator(img, src, v)[x][y]
    {
      Rebin.RebinIdentity(Indicator(img, src, v), src, x, y);
    }
    GridExtensional(Layer(img, src, src, v), Indicator(img, src, v), src.rows, src.cols);
  }
}
