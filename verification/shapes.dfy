/**
 * The shape arithmetic of TMO4CT/algorithm.py: `crop`, the array shapes that `conv`
 * produces from its padding, transforms and crop, and the working shape of the
 * histogram volume. The Fourier transforms themselves are not modelled; only the
 * lengths numpy gives their outputs are.
 */
module Shapes {
  import opened Wrappers
  import opened Grids
  import Rounding

  // ---------------------------------------------------------------------------------
  // Python slices with step 1.
  // ---------------------------------------------------------------------------------

  /** Where a slice bound k lands in a sequence of length n: negative bounds count from the end, then clamp. */
  function Bound(k: int, n: nat): (b: nat)
    ensures b <= n
    ensures 0 <= k <= n ==> b == k
    ensures -(n as int) <= k < 0 ==> b as int == n + k
  {
    if k < 0 then (if k + n < 0 then 0 else k + n) else (if k > n then n else k)
  }

  /** `s[start:stop]`. */
  function Slice<T>(s: seq<T>, start: int, stop: int): seq<T>
  {
    var b, e := Bound(start, |s|), Bound(stop, |s|);
    if b < e then s[b..e] else []
  }

  /** `s[k:-k]` drops k items from each end when 0 < k and 2k <= |s|. */
  lemma TrimBothEnds<T>(s: seq<T>, k: int)
    requires 0 < k && 2 * k <= |s|
    ensures Slice(s, k, -k) == s[k..|s| - k]
  {
  }

  /** `s[0:-0]` is `s[0:0]`: nothing at all, since -0 is 0. */
  lemma TrimNothingIsEmpty<T>(s: seq<T>)
    ensures Slice(s, 0, -0) == []
  {
  }

  // ---------------------------------------------------------------------------------
  // crop.
  // ---------------------------------------------------------------------------------

  /** `crop(array, width, height) = array[width:-width, height:-height]`. */
  function Crop(g: Grid, width: int, height: int): Grid
  {
    var rows := Slice(g, width, -width);
    seq(|rows|, i requires 0 <= i < |rows| => Slice(rows[i], height, -height))
  }

  /** With positive margins that fit, `crop` keeps the interior: (n - 2 width) by (m - 2 height) cells, shifted by the margins. */
  lemma CropInterior(g: Grid, n: nat, m: nat, width: int, height: int)
    requires IsGrid(g, n, m)
    requires 0 < width && 2 * width <= n && 0 < height && 2 * height <= m
    ensures IsGrid(Crop(g, width, height), n - 2 * width, m - 2 * height)
    ensures forall i, j :: 0 <= i < n - 2 * width && 0 <= j < m - 2 * height ==>
              Crop(g, width, height)[i][j] == g[i + width][j + height]
  {
    TrimBothEnds(g, width);
    forall i | 0 <= i < n - 2 * width
      ensures Crop(g, width, height)[i] == g[i + width][height..m - height]
    {
      TrimBothEnds(g[i + width], height);
    }
  }

  /** As written, a zero row margin crops every row away. */
  lemma CropZeroWidth(g: Grid, height: int)
    ensures Crop(g, 0, height) == []
  {
    TrimNothingIsEmpty(g);
  }

  /** The intended crop: the window of `rows` by `cols` cells after the margins, `array[width:width + rows, height:height + cols]`. */
  function CropWindow(g: Grid, width: nat, height: nat, rows: nat, cols: nat): Grid
  {
    var kept := Slice(g, width, width + rows);
    seq(|kept|, i requires 0 <= i < |kept| => Slice(kept[i], height, height + cols))
  }

  /** The window crop gives the requested shape whenever the padded array holds it, a zero margin included. */
  lemma CropWindowShape(g: Grid, n: nat, m: nat, width: nat, height: nat, rows: nat, cols: nat)
    requires IsGrid(g, n, m) && width + rows <= n && height + cols <= m
    ensures IsGrid(CropWindow(g, width, height, rows, cols), rows, cols)
    ensures forall i, j :: 0 <= i < rows && 0 <= j < cols ==>
              CropWindow(g, width, height, rows, cols)[i][j] == g[i + width][j + height]
  {
  }

  // ---------------------------------------------------------------------------------
  // The shape of conv's result.
  // ---------------------------------------------------------------------------------

  /** `np.pad` by n // 2 on both sides of an axis of length n. */
  function Padded(n: nat): nat
  {
    n + 2 * (n / 2)
  }

  /** Length of the last axis of `irfft2(rfft2(x))` with numpy's default: 2 (m - 1), where m = p // 2 + 1. */
  function InverseLength(p: nat): nat
  {
    2 * (p / 2)
  }

  /** Length of `x[start:stop]` on an axis of length p. */
  function SliceLength(p: nat, start: int, stop: int): nat
  {
    var b, e := Bound(start, p), Bound(stop, p);
    if b < e then e - b else 0
  }

  /** SliceLength is the length of the slice. */
  lemma SliceLengthIsLength<T>(s: seq<T>, start: int, stop: int)
    ensures |Slice(s, start, stop)| == SliceLength(|s|, start, stop)
  {
  }

  /** Length of `x[k:-k]` on an axis of length p. */
  function TrimmedLength(p: nat, k: int): nat
  {
    SliceLength(p, k, -k)
  }

  /** Why `conv` raises: numpy's FFT refuses an axis of zero points (`ValueError`). */
  datatype ConvError = NoFftPoints

  /**
   * The shape of `conv`'s result for a W-by-H layer, as written: `rfft2` of the padded
   * layer fails on an empty axis, `irfft2` fails when its default last-axis length is
   * zero, and otherwise the inverse is cropped by W // 2 and H // 2.
   */
  function ConvShape(W: nat, H: nat): Result<Shape, ConvError>
  {
    if Padded(W) == 0 || Padded(H) == 0 || InverseLength(Padded(H)) == 0 then Err(NoFftPoints)
    else Ok(Shape(TrimmedLength(Padded(W), W / 2), TrimmedLength(InverseLength(Padded(H)), H / 2)))
  }

  /**
   * As written, `conv` raises exactly when W = 0 or H < 2: for H = 1 the padded width is 1,
   * and the inverse transform's default length 2 (1 // 2) is zero. Otherwise it returns
   * the layer's shape only for W of at least 2 and an even H. An odd H loses one column,
   * because the padded width 2H - 1 is odd and the inverse transform's default length is
   * even. W = 1 leaves no row at all, because a zero margin crops everything.
   */
  lemma ConvShapeAsWritten(W: nat, H: nat)
    ensures ConvShape(W, H).Err? <==> W == 0 || H < 2
    ensures ConvShape(W, H).Ok? ==> ConvShape(W, H).value.rows == if W >= 2 then W else 0
    ensures ConvShape(W, H).Ok? ==> ConvShape(W, H).value.cols == if H % 2 == 0 then H else H - 1
  {
    RowsAsWritten(W);
    ColsAsWritten(H);
  }

  /**
   * The row axis of `conv`: the padded axis W + 2 (W // 2) is empty exactly when W = 0, and
   * trimming the margin W // 2 from it leaves W rows for W >= 2 and none for W = 1.
   */
  lemma RowsAsWritten(W: nat)
    ensures Padded(W) == 0 <==> W == 0
    ensures TrimmedLength(Padded(W), W / 2) == if W >= 2 then W else 0
  {
    var q := W / 2;
    assert Padded(W) == 2 * q + W;
    TrimmedLengthOf(Padded(W), q);
  }

  /**
   * The column axis of `conv`: the inverse transform's default length is zero exactly when
   * H < 2; for H >= 2 that even length, trimmed by H // 2, leaves H columns for an even H
   * and H - 1 for an odd one.
   */
  lemma ColsAsWritten(H: nat)
    ensures Padded(H) == 0 <==> H == 0
    ensures InverseLength(Padded(H)) == 0 <==> H < 2
    ensures H >= 2 ==> TrimmedLength(InverseLength(Padded(H)), H / 2) == if H % 2 == 0 then H else H - 1
  {
    var k := H / 2;
    assert Padded(H) == 2 * k + H;
    assert InverseLength(Padded(H)) == 4 * k by {
      assert H == 2 * k || H == 2 * k + 1;
    }
    TrimmedLengthOf(4 * k, k);
  }

  /** Trimming k from both ends of an axis of length p. */
  lemma TrimmedLengthOf(p: nat, k: nat)
    requires 2 * k <= p
    ensures TrimmedLength(p, k) == if k == 0 then 0 else p - 2 * k
  {
  }

  /**
   * The intended shape: the inverse transform told the padded length (`s=` the padded
   * shape), then the window `[W // 2:W // 2 + W, H // 2:H // 2 + H]` that `CropWindow` takes.
   */
  function ConvShapeIntended(W: nat, H: nat): Shape
  {
    Shape(SliceLength(Padded(W), W / 2, W / 2 + W), SliceLength(Padded(H), H / 2, H / 2 + H))
  }

  /** The intended convolution returns a layer of the layer's own shape, for every W and H. */
  lemma ConvShapeIntendedKeepsShape(W: nat, H: nat)
    ensures ConvShapeIntended(W, H) == Shape(W, H)
  {
    assert W / 2 + W <= Padded(W) && H / 2 + H <= Padded(H);
  }

  // ---------------------------------------------------------------------------------
  // The working shape.
  // ---------------------------------------------------------------------------------

  /** Why the working shape cannot be computed: `n // downscale` with a zero divisor raises ZeroDivisionError. */
  datatype ShapeError = ZeroDownscale

  /** `n // d` for a non-zero float divisor: the floor of the quotient, as a float. */
  function FloorDiv(n: nat, d: real): real
    requires d != 0.0
  {
    (n as real / d).Floor as real
  }

  /** `downscaled_shape`: `ceil_int((rows // downscale, cols // downscale))`, or the original shape when `downscale` is None. */
  function WorkingShape(rows: nat, cols: nat, downscale: Option<real>): Result<(int, int), ShapeError>
  {
    match downscale
    case None => Ok((rows, cols))
    case Some(d) =>
      if d == 0.0 then Err(ZeroDownscale)
      else
        var r := Rounding.CeilInt(Rounding.Tuple([FloorDiv(rows, d), FloorDiv(cols, d)]));
        Ok((r.ns[0], r.ns[1]))
  }

  /**
   * The working shape is the floored quotient: `//` already floors, so `ceil_int` changes
   * nothing. It fails exactly for a zero divisor, and a divisor of at least one never
   * enlarges an axis.
   */
  lemma WorkingShapeFloors(rows: nat, cols: nat, downscale: Option<real>)
    ensures WorkingShape(rows, cols, downscale).Err? <==> downscale == Some(0.0)
    ensures downscale.None? ==> WorkingShape(rows, cols, downscale) == Ok((rows, cols))
    ensures downscale.Some? && downscale.value != 0.0 ==>
              WorkingShape(rows, cols, downscale)
              == Ok(((rows as real / downscale.value).Floor, (cols as real / downscale.value).Floor))
    ensures downscale.Some? && downscale.value >= 1.0 ==>
              var s := WorkingShape(rows, cols, downscale).value;
              0 <= s.0 <= rows && 0 <= s.1 <= cols
  {
    if downscale.Some? && downscale.value != 0.0 {
      var d := downscale.value;
      var r := Rounding.CeilInt(Rounding.Tuple([FloorDiv(rows, d), FloorDiv(cols, d)]));
      Rounding.CeilIsLeast(FloorDiv(rows, d), (rows as real / d).Floor);
      Rounding.CeilIsLeast(FloorDiv(cols, d), (cols as real / d).Floor);
      if d >= 1.0 {
        QuotientBelow(rows, d);
        QuotientBelow(cols, d);
      }
    }
  }

  /** Dividing a natural number by at least one gives a quotient in [0, n]. */
  lemma QuotientBelow(n: nat, d: real)
    requires d >= 1.0
    ensures 0.0 <= n as real / d <= n as real
  {
    var q := n as real / d;
    assert q * d == n as real;
  }
}
