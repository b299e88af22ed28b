/**
 * What both quantisers of src/tools.py share: the default number of levels taken from
 * the image maximum, and the final `np.clip(..., 0, levels - 1).astype(dtype)`.
 */
module Quantise {
  import opened Wrappers
  import opened Grids

  /** Why a quantiser call fails. */
  datatype DitherError =
    | EmptyImage   // `image.max()` of an image without pixels, needed when `levels` is None
    | TooFewLevels // `dither`'s argument contract `levels='None|int,>1'` is violated

  /** `np.clip(x, lo, hi)`: numpy takes the maximum with `lo` first, then the minimum with `hi`. */
  function Clip(x: real, lo: real, hi: real): (r: real)
    ensures lo <= hi ==> lo <= r <= hi
    ensures lo <= x <= hi ==> r == x
  {
    var above := if x < lo then lo else x;
    if above > hi then hi else above
  }

  /** Conversion of a float to an integer type (`astype`, `int(...)`): truncation towards zero. */
  function Truncate(x: real): (n: int)
    ensures 0.0 <= x ==> n == x.Floor
    ensures x < 0.0 ==> x <= n as real <= 0.0
  {
    if 0.0 <= x then x.Floor else -((-x).Floor)
  }

  /** One output pixel: the pre-clip value clipped to [0, upper] and converted to the integer dtype. */
  function Quantised(x: real, upper: real): (n: int)
    ensures 0.0 <= upper ==> 0 <= n <= upper.Floor
    ensures 0.0 <= upper && x.Floor as real == x && 0.0 <= x <= upper ==> n == x.Floor
  {
    Truncate(Clip(x, 0.0, upper))
  }

  /** Every pixel of the image is a whole number. */
  predicate Integral(g: Grid, w: nat, h: nat)
    requires IsGrid(g, w, h)
  {
    forall r, c :: 0 <= r < w && 0 <= c < h ==> g[r][c].Floor as real == g[r][c]
  }

  /** Largest entry of a non-empty row. */
  function RowMax(s: seq<real>): (m: real)
    requires |s| > 0
    ensures forall k :: 0 <= k < |s| ==> s[k] <= m
    ensures exists k :: 0 <= k < |s| && s[k] == m
  {
    if |s| == 1 then s[0]
    else
      var rest := RowMax(s[1..]);
      assert forall k :: 1 <= k < |s| ==> s[k] == s[1..][k - 1];
      if s[0] >= rest then s[0] else rest
  }

  /** `image.max()` of a rows-by-cols image with at least one pixel. */
  function GridMax(g: Grid, rows: nat, cols: nat): (m: real)
    requires IsGrid(g, rows, cols) && rows > 0 && cols > 0
    ensures forall i, j :: 0 <= i < rows && 0 <= j < cols ==> g[i][j] <= m
    ensures exists i, j :: 0 <= i < rows && 0 <= j < cols && g[i][j] == m
  {
    if rows == 1 then RowMax(g[0])
    else
      var rest := GridMax(g[1..], rows - 1, cols);
      assert forall i :: 1 <= i < rows ==> g[i] == g[1..][i - 1];
      var first := RowMax(g[0]);
      if first >= rest then first else rest
  }

  /** Non-negative images have a non-negative maximum. */
  lemma GridMaxNonNegative(g: Grid, rows: nat, cols: nat)
    requires IsGrid(g, rows, cols) && rows > 0 && cols > 0
    requires forall i, j :: 0 <= i < rows && 0 <= j < cols ==> 0.0 <= g[i][j]
    ensures 0.0 <= GridMax(g, rows, cols)
  {
    assert 0.0 <= g[0][0];
  }

  /** The image of the `dither` docstring, `np.arange(16).reshape(4, 4) / 4.0`. */
  function Quarters(): (g: Grid)
    ensures IsGrid(g, 4, 4)
  {
    [[0.0, 0.25, 0.5, 0.75], [1.0, 1.25, 1.5, 1.75], [2.0, 2.25, 2.5, 2.75], [3.0, 3.25, 3.5, 3.75]]
  }
}
