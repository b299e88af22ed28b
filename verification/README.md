# TMO4CT tone mapping: a Dafny model of its discrete core

TMO4CT maps the grey levels of a CT image to display values with a local histogram
equalisation. The image is cut into one binary layer per grey level, and each layer is
downsampled with `rebin` and convolved with a power-law kernel built by
`mask_generation`. The results are stacked into a histogram volume, with one column of
levels per pixel. Each column is normalised, clipped at `GAIN / L` and given back the
clipped mass, then turned into a CDF by a cumulative sum. The helper module `src/tools.py`
also provides two quantisers: `dither_FS`, an error diffusion with the Floyd–Steinberg
weights, and `dither_basic`, a one-dimensional carry quantiser. `dither` dispatches between
them, and `ceil_int` rounds up.

The model covers these parts over exact `real` arithmetic:

- `rounding.dfy` (`Rounding`): `ceil_int`.
- `rebin.dfy` (`Rebin`): `rebin`, as a method on arrays with its loops.
  - `separable.dfy` (`Separable`) holds the generic mass-balance algebra it uses.
- `floyd_steinberg.dfy` (`FloydSteinberg`): `dither_FS`.
  - A pure scan of the row-major loop, plus the array methods proved against it.
- `carry_dither.dfy` (`CarryDither`): `dither_basic`, over sequences.
- `quantise.dfy` (`Quantise`): the clipping and conversion both quantisers share.
- `dither.dfy` (`Dither`): `dither`.
- `distance.dfy` (`Distance`): the four metrics and the selection of a metric by name in `tone_mapping`.
- `kernel.dfy` (`Kernel`): `mask_generation`, as methods on the mask array, proved against a pure per-cell definition.
- `shapes.dfy` (`Shapes`): `crop`, the shape arithmetic of `conv`, and the working shape of `tone_mapping`.
- `volume.dfy` (`Volume`): the level loop that fills the histogram volume `test`.
- `normalise.dfy` (`Normalise`): the contrast limit and the CDF.
  - Per column as sequence functions, and as in-place methods on the volume.
- Support modules: `wrappers.dfy`, `sums.dfy` (finite sums), `grids.dfy` (2-D grids and array snapshots) and `reals.dfy`.

Library numerics enter as function-valued parameters:

- `np.sqrt` and `np.power` (`Distance.Numerics`, `Kernel.Recipe`);
- `float(...)` parsing (`parse`);
- the FFT convolution (`conv: Grid -> Grid`).

Where the specification of the program and its code disagree, the model follows the code:

- The working shape is `n // downscale`, a floor. `ceil_int` then changes nothing, so it is not "rounded up".
- `zip(exps, factors)` silently stops at the shorter list. No error is raised for lists of different lengths.
- The metric names are `'eucledian'` (so spelled) and `'maximum'`.
- `'manhattan'` is matched with `in`, not `==`.
- `dither_FS` bumps a pixel only when its error reaches 1, not 1/2. It diffuses the whole remaining error.
- Nothing guards a zero column sum.
- A GAIN of zero or below is not rejected: it yields a uniform column.

## Model

| member | source | states |
|---|---|---|
| Rounding.Ceil | src/tools.py:47 | `int(np.ceil(x))` is an integer n with x <= n < x + 1 |
| Rounding.CeilAll | src/tools.py:44-48 | the append loop keeps the length and rounds each element up, within one |
| Rounding.CeilInt | src/tools.py:37-49 | a number stays a number, a list a list and a tuple a tuple; length kept; each element rounded up within one |
| Rounding.CeilIsLeast | src/tools.py:37-49 | no integer smaller than `ceil_int(x)` bounds x from above |
| Rounding.CeilIntExamples | src/tools.py:38-42 | 3.5 gives 4 and (3.5, 4.1) gives (4, 5) |
| Quantise.Clip | src/tools.py:124 | `np.clip` lands in [lo, hi] and is the identity inside it |
| Quantise.Truncate | src/tools.py:124 | `astype` truncates towards zero: the floor for non-negative values |
| Quantise.Quantised | src/tools.py:124 | an output pixel lies in [0, floor(levels - 1)], and an in-range whole pixel is kept |
| Quantise.GridMax | src/tools.py:103-104 | `image.max()` bounds every pixel and is attained by one |
| Quantise.GridMaxNonNegative | src/tools.py:103-104 | a non-negative image has a non-negative maximum |
| Rebin.TargetInRange | src/tools.py:81-84 | every source index lands inside the output axis: 0 <= int(U) <= X - 1 |
| Rebin.AxisWeight | src/tools.py:85-88 | each one-axis splat weight lies in [0, 1] |
| Rebin.SplatIsBilinear | src/tools.py:85-96 | the four guarded updates of one loop step are the splat of that source cell |
| Rebin.Deposit | src/tools.py:89 | one `out[p, q] += w` changes cell (p, q) only |
| Rebin.SplatFour | src/tools.py:89-96 | the four guarded `+=` add the bilinear split of the cell's mass and touch nothing out of range |
| Rebin.RebinRow | src/tools.py:80-96 | the inner loop adds row i's splats to every output cell |
| Rebin.Rebin | src/tools.py:74-97 | after `rebin` every output cell is the sum of the splats of `a`; its old contents do not matter |
| Rebin.KeptShare | src/tools.py:85-96 | one source index keeps its whole value along an axis except the fraction cut at the last cell |
| Rebin.RebinConservesMass | src/tools.py:74-97 | a non-negative layer loses mass only at the border: sum(out) <= sum(a), with equality when no axis shrinks |
| Rebin.RebinNonNegative | src/tools.py:89-96 | a non-negative layer rebins to non-negative cells |
| Rebin.RebinIdentity | src/tools.py:81-89 | onto a buffer of the same shape `rebin` copies the layer |
| FloydSteinberg.ReceivedAtMostOne | src/tools.py:108 | the weights 7/16, 3/16, 5/16 and 1/16 give any pixel at most 1 in total |
| FloydSteinberg.AddTo | src/tools.py:117 | one `+=` on an array changes exactly one entry |
| FloydSteinberg.DiffuseError | src/tools.py:116-123 | the residual goes to the four later neighbours that exist, each with its weight |
| FloydSteinberg.VisitPixel | src/tools.py:112-123 | one loop iteration bumps when the error reaches 1 and diffuses the rest, as the pure scan step does |
| FloydSteinberg.StartArrays | src/tools.py:105-106 | `result = floor(image)` and `error = image - result` |
| FloydSteinberg.ScanPixels | src/tools.py:110-123 | the nested loops take the arrays to the state after the whole row-major scan |
| FloydSteinberg.ScanHeadroom | src/tools.py:110-123 | scan invariant: visited pixels hold floor or floor + 1, unvisited ones have error below 1 plus what they received |
| FloydSteinberg.DitheredIsFloorOrNext | src/tools.py:105-123 | before clipping every pixel is floor(image) or floor(image) + 1 |
| FloydSteinberg.FinalBalance | src/tools.py:105-123 | final error = own fraction + weighted residuals of the earlier neighbours; bumped exactly when it reached 1 |
| FloydSteinberg.IntegralUnchanged | src/tools.py:105-123 | a whole-valued image is never changed by the scan |
| FloydSteinberg.QuantisePixels | src/tools.py:124 | the final clip and conversion, pixel by pixel |
| FloydSteinberg.DitherFS | src/tools.py:100-124 | `dither_FS` returns the clipped result of the scan; the image itself is untouched |
| FloydSteinberg.OutputPixels | src/tools.py:100-124 | fails only for a default `levels` on an empty image; otherwise w-by-h pixels in [0, levels - 1], each floor or floor + 1 before the clip |
| FloydSteinberg.IntegralOutput | src/tools.py:100-124 | a whole-valued image within the levels comes back unchanged |
| FloydSteinberg.QuartersExample | src/tools.py:143-147 | the docstring ramp gives [[0,0,0,1],[1,1,1,2],[2,2,3,2],[3,3,3,3]] |
| CarryDither.Ravel | src/tools.py:131 | `ravel` of a rows-by-cols image has rows * cols entries |
| CarryDither.Reshape | src/tools.py:135 | `reshape` of rows * cols entries gives a rows-by-cols grid |
| CarryDither.ReshapeRavel | src/tools.py:131-135 | reshaping the ravel gives the image back |
| CarryDither.Fractions | src/tools.py:132 | `image - floor(image)` lies in [0, 1) |
| CarryDither.Diff | src/tools.py:132 | `np.diff` has one entry fewer, none for an empty array |
| CarryDither.Indicator | src/tools.py:133 | the cast to bool and back to float gives 1 exactly for non-zero entries |
| CarryDither.CarriedPixel | src/tools.py:131-134 | the first pixel is never incremented; pixel k >= 1 gains 1 exactly when the floor of the running fraction sum changes |
| CarryDither.CarriedIsFloorOrNext | src/tools.py:131-134 | each pixel ends at its floor or one above |
| CarryDither.CarryIsStep | src/tools.py:132-133 | each carry is the step of the running floor, so the bool cast loses nothing |
| CarryDither.CarryTotal | src/tools.py:131-134 | the number of increments is the floor of the sum of all fractional parts |
| CarryDither.OutputPixels | src/tools.py:127-135 | fails only for a default `levels` on an empty image; otherwise pixels in [0, levels - 1], floor or floor + 1 before the clip |
| CarryDither.IntegralOutput | src/tools.py:127-135 | a whole-valued image within the levels comes back unchanged |
| CarryDither.QuartersExample | src/tools.py:148-152 | the docstring ramp gives [[0,0,0,1],[1,1,2,2],[2,2,2,3],[3,3,3,3]] |
| Dither.DitherOutcome | src/tools.py:138-159 | refused exactly for `levels` <= 1, or a default on an empty image; the method name selects the quantiser; pixels in [0, levels - 1] |
| Dither.DitherExamples | src/tools.py:142-152 | both docstring results of `dither`, by 'floyd' and by 'basic' |
| Distance.Abs | TMO4CT/algorithm.py:29 | `np.abs` is non-negative and is x or -x |
| Distance.Manhattan | TMO4CT/algorithm.py:28-29 | non-negative, zero exactly at the origin |
| Distance.Maximum | TMO4CT/algorithm.py:32-33 | non-negative, zero exactly at the origin, the larger of the two absolute values |
| Distance.DistanceP | TMO4CT/algorithm.py:20-21 | fails exactly for p = 0, where `1./p` raises |
| Distance.MaximumBelowManhattan | TMO4CT/algorithm.py:28-33 | maximum <= manhattan <= 2 maximum |
| Distance.SignFlips | TMO4CT/algorithm.py:20-33 | all four metrics ignore the sign of either coordinate |
| Distance.Lower | TMO4CT/algorithm.py:133 | `str.lower()` keeps the length and lowers each ASCII capital |
| Distance.LowerIdempotent | TMO4CT/algorithm.py:133-137 | lowering twice is lowering once |
| Distance.SubstringAt | TMO4CT/algorithm.py:137 | `a in b` holds exactly when a occurs in b at some index |
| Distance.SelectionIgnoresCase | TMO4CT/algorithm.py:133-145 | names equal after `lower()` select the same metric |
| Distance.EucledianSelected | TMO4CT/algorithm.py:133-134 | 'eucledian' selects the Euclidean metric |
| Distance.MaximumSelected | TMO4CT/algorithm.py:135-136 | 'Maximum' selects the Chebyshev metric |
| Distance.ManhattanPiecesSelected | TMO4CT/algorithm.py:137-138 | 'man' and the empty name select Manhattan |
| Distance.SelectionFallsBackToFloat | TMO4CT/algorithm.py:139-145 | any other name fails exactly when `float` fails, else gives the p-norm |
| Distance.EmptyNameSelectsManhattan | TMO4CT/algorithm.py:137-145 | as written, '' selects Manhattan even though `float('')` fails; the equality test refuses it |
| Distance.ZeroExponentAcceptedThenFails | TMO4CT/algorithm.py:139-142 | the name '0' is accepted as the p-norm with p = 0, whose first evaluation raises at `1./p` (line 21) |
| Distance.ExactSelectsManhattanOnlyByName | TMO4CT/algorithm.py:133-145 | with `==`, Manhattan is chosen exactly for 'manhattan' in any case |
| Kernel.Pairs | TMO4CT/algorithm.py:65 | `zip` runs for the shorter of the two lists |
| Kernel.CoordSymmetric | TMO4CT/algorithm.py:51-68 | cell coordinates `x + offset` are symmetric about the origin |
| Kernel.CentreOffset | TMO4CT/algorithm.py:51-63 | the index centre (w // 2, h // 2) sits at offset 0.5 on an even axis, 0 on an odd one |
| Kernel.SweepRow | TMO4CT/algorithm.py:67-79 | the y loop applies pair k's rule to every cell of one row and nothing else |
| Kernel.SweepPair | TMO4CT/algorithm.py:66-79 | the x loop applies pair k's rule to every cell exactly once |
| Kernel.ArraySum | TMO4CT/algorithm.py:80 | `mask.sum()` is the total of the mask |
| Kernel.MaskGeneration | TMO4CT/algorithm.py:36-81 | the mask is divided exactly when its raw sum is non-zero, and then holds the normalised kernel |
| Kernel.CutCellIsZero | TMO4CT/algorithm.py:70-71 | a cell at or beyond the cutoff is 0 |
| Kernel.CentreCell | TMO4CT/algorithm.py:73-79 | the centre holds CENTER, or 1.0 when the last exponent is None or 0 |
| Kernel.Accumulates | TMO4CT/algorithm.py:73-75 | pairs with real non-zero exponents add their power terms |
| Kernel.SumOfPowerTerms | TMO4CT/algorithm.py:65-75 | with all exponents active a cell is the sum of `factor * d ** -exp` |
| Kernel.InactiveResets | TMO4CT/algorithm.py:78-79 | an exponent None or 0 resets the cell to 1.0, discarding earlier sums |
| Kernel.KernelSumsToOne | TMO4CT/algorithm.py:80 | after `mask /= mask.sum()` the kernel sums to 1 |
| Kernel.RawNonNegative | TMO4CT/algorithm.py:48-79 | with non-negative CENTER, factors and powers every cell stays non-negative |
| Kernel.KernelNonNegative | TMO4CT/algorithm.py:48-80 | such a kernel has a positive sum and non-negative cells |
| Kernel.MirrorSymmetric | TMO4CT/algorithm.py:51-79 | with a sign-blind metric a cell and its mirror agree, unless one is the centre |
| Kernel.MetricsAreSignBlind | TMO4CT/algorithm.py:20-33 | all four selectable metrics are sign-blind |
| Shapes.Bound | TMO4CT/algorithm.py:17 | a slice bound is clamped to the axis, negative bounds counting from the end |
| Shapes.TrimBothEnds | TMO4CT/algorithm.py:17 | `s[k:-k]` with 0 < k drops k entries at each end |
| Shapes.CropInterior | TMO4CT/algorithm.py:16-17 | `crop` with positive margins keeps the interior, shifted by the margins |
| Shapes.CropZeroWidth | TMO4CT/algorithm.py:16-17 | `crop` with a zero row margin returns no rows |
| Shapes.CropWindowShape | TMO4CT/algorithm.py:99 | the window crop returns the requested shape, zero margin included |
| Shapes.SliceLengthIsLength | TMO4CT/algorithm.py:17 | the length arithmetic matches the slice |
| Shapes.ConvShapeAsWritten | TMO4CT/algorithm.py:89-99 | `conv` raises exactly when W = 0 or H < 2 (an FFT of zero points); otherwise it keeps the shape only for W >= 2 and an even H: an odd H loses a column, W = 1 loses every row |
| Shapes.RowsAsWritten | TMO4CT/algorithm.py:91-99 | the padded row axis is empty exactly for W = 0; the crop leaves W rows for W >= 2 and none for W = 1 |
| Shapes.ColsAsWritten | TMO4CT/algorithm.py:92-99 | the inverse transform's default length is zero exactly for H < 2; for H >= 2 the crop leaves H columns for an even H, H - 1 for an odd one |
| Shapes.ConvShapeIntendedKeepsShape | TMO4CT/algorithm.py:89-99 | an inverse transform given the padded length, then the window crop, returns W by H for all W and H |
| Shapes.WorkingShapeFloors | TMO4CT/algorithm.py:122-126 | fails exactly for a zero divisor; None keeps the shape; else the floor of n / downscale, at most n for a divisor >= 1 |
| Volume.Pixels | TMO4CT/algorithm.py:177 | a snapshot of the image's grey levels |
| Volume.ImageMax | TMO4CT/algorithm.py:130 | `data.max()` bounds every pixel and is attained |
| Volume.BinaryLayer | TMO4CT/algorithm.py:177-180 | `(data == v)` as floats is the indicator of level v |
| Volume.AnyNonZero | TMO4CT/algorithm.py:179 | `np.any` is true exactly when some entry is non-zero |
| Volume.IndicatorNonZero | TMO4CT/algorithm.py:177-179 | the binary layer has a non-zero entry exactly when some pixel is at level v |
| Volume.StoreSlice | TMO4CT/algorithm.py:183 | `test[v, ...] = x` replaces slice v only |
| Volume.ConvolveLevel | TMO4CT/algorithm.py:180-183 | slice v becomes the convolution of the rebinned binary layer |
| Volume.FillLevel | TMO4CT/algorithm.py:177-183 | one iteration writes slice v when level v occurs, and changes nothing otherwise |
| Volume.FillVolume | TMO4CT/algorithm.py:164-183 | max + 1 slices of the working shape; slice v is the convolved layer of level v, or zero when no pixel is at v |
| Volume.LayersPartition | TMO4CT/algorithm.py:170-177 | every pixel lies in exactly one binary layer |
| Volume.LayerMass | TMO4CT/algorithm.py:181 | a rebinned layer is non-negative and holds at most its pixel count, exactly that count without downscaling |
| Volume.LayerWithoutDownscale | TMO4CT/algorithm.py:181 | without downscaling the rebinned layer is the binary layer |
| Normalise.Min | TMO4CT/algorithm.py:194 | `np.minimum` is below both arguments and one of them |
| Normalise.ScaledSum | TMO4CT/algorithm.py:193 | dividing each entry by t divides the sum by t |
| Normalise.NormalisedSumsToOne | TMO4CT/algorithm.py:193 | after `test /= np.sum(test, axis=0)` each column sums to 1 |
| Normalise.NormalisedUnit | TMO4CT/algorithm.py:193 | a non-negative column, normalised, lies in [0, 1] |
| Normalise.ClippedBelow | TMO4CT/algorithm.py:194 | after the minimum with CLIP every entry is <= CLIP and <= its old value |
| Normalise.ShiftedSum | TMO4CT/algorithm.py:195-196 | adding s to every level adds L s to the sum |
| Normalise.RedistributedSumsToOne | TMO4CT/algorithm.py:192-196 | s = (1 - sum) / L is >= 0 and restores the column sum to exactly 1 |
| Normalise.NoClipForLargeGain | TMO4CT/algorithm.py:192-196 | with CLIP >= 1 nothing is clipped and s = 0 |
| Normalise.UniformForNonPositiveGain | TMO4CT/algorithm.py:192-196 | with GAIN <= 0 every level gets 1 / L |
| Normalise.RedistributedNonNegative | TMO4CT/algorithm.py:192-196 | a non-negative column stays non-negative |
| Normalise.CumSumLast | TMO4CT/algorithm.py:199 | the last running sum is the column sum |
| Normalise.CumSumMonotone | TMO4CT/algorithm.py:199 | the cumulative sum never decreases and stays in [0, sum] |
| Normalise.CdfShape | TMO4CT/algorithm.py:192-205 | the CDF never decreases, lies in [0, 1] and ends at exactly 1 |
| Normalise.ColumnSum | TMO4CT/algorithm.py:193 | the loop computes the sum of one pixel's column |
| Normalise.ColumnSums | TMO4CT/algorithm.py:193 | `np.sum(test, axis=0)` holds every column's sum |
| Normalise.DivideColumns | TMO4CT/algorithm.py:193 | each column is divided by its own divisor |
| Normalise.ClipAll | TMO4CT/algorithm.py:194 | `np.minimum(test, CLIP, out=test)` in place |
| Normalise.AddShares | TMO4CT/algorithm.py:196 | every level of column (x, y) is raised by s[x, y] |
| Normalise.LimitVolume | TMO4CT/algorithm.py:192-194 | every column becomes its normalised, clipped form |
| Normalise.ShareOut | TMO4CT/algorithm.py:195-196 | every column gets its clipped-off mass back, shared evenly |
| Normalise.Redistribute | TMO4CT/algorithm.py:192-196 | every column becomes its contrast-limited form |
| Normalise.CumulativeSum | TMO4CT/algorithm.py:199 | `np.cumsum(test, axis=0)` holds each column's running sums |
| Normalise.LastSlice | TMO4CT/algorithm.py:204 | `cdf[-1, :, :]` is the last level of each column |
| Normalise.NormaliseVolume | TMO4CT/algorithm.py:192-205 | every pixel's column of `cdf` is that pixel's CDF of its original column |

## Left out

- Image reading and writing, option parsing, progress printing, garbage collection, `eprint`, the `collect` decorator, the numba fallback, `delete_file_ctx` and TMO4CT_cli.py are not modelled: they are I/O or have no contract.
- The FFT convolution is not modelled. `conv` is a parameter of `Volume.FillVolume`, required to turn a grid of the working shape into a grid of the same shape. That is the intended behaviour (see Findings), not the code as written. Only the shape arithmetic of padding, inverse transform and crop is modelled, in `Shapes`. Reflect padding, `fftshift` and the transforms' values are left out.
- The final interpolation (`RegularGridInterpolator`, `linspace`, `array_split`, TMO4CT/algorithm.py:209-236) is scipy plumbing and is not modelled.
- `np.sqrt`, `np.power` and `float` are parameters. Their floating-point behaviour, and strings such as 'inf' or 'nan', are not modelled.
- float32 storage, the `precision` dtype and the narrowing to `uint8` are not modelled: all arithmetic is exact. numpy's pairwise summation order does not matter over reals.
- Distance.SelectMetric: the name '0' is accepted (TMO4CT/algorithm.py:141), and `tone_mapping` then fails with ZeroDivisionError at the first distance `mask_generation` computes. `Distance.ZeroExponentAcceptedThenFails` shows both steps. `Kernel.Recipe.dist` is a total function, so the kernel model only takes metrics that return a value, and `Kernel.MetricsAreSignBlind` requires p != 0.
- Rebin.Rebin: requires that a non-empty `a` come with an `out` of at least one cell per axis. For an empty `out` the first `out[u, v] +=` (src/tools.py:89) is an IndexError in plain Python and an unchecked write under numba; that error is not modelled.
- Distance.Lower: only ASCII capitals are lowered. Python's full Unicode case mapping is not modelled.
- Kernel.MaskGeneration: for a zero raw sum, Python divides by zero and fills the mask with nan or inf. The model reports `false` and leaves the raw mask.
- Normalise.NormaliseVolume: requires every column sum to be non-zero. The code has no guard, and a zero sum gives nan. `GAIN=None`, which raises a TypeError at line 192, is not modelled. The volume must have at least one level, which `data.max() + 1` always gives.
- Normalise.NormaliseVolume: `test = test + s` creates a new array in Python. The model adds in place, which has the same values.
- Volume.FillVolume: requires a non-empty image with non-negative grey levels (`nat`) and a working shape of at least one cell per axis. `data.max()` of an empty image raises in Python. A zero working shape, reached through a downscale larger than the image, makes `rebin` index an empty buffer.
- The unused `weight` and `tempfile` parameters of `tone_mapping` are left out.

## Findings

| source | as written | input that shows it | evidently intended | confidence | as-written member | corrected member |
|---|---|---|---|---|---|---|
| TMO4CT/algorithm.py:137 | `distance_metric.lower() in 'manhattan'` is a substring test | `distance_metric=''` (or 'a', 'hat') selects Manhattan instead of failing | compare with `==` like the other two names | not executed | Distance.EmptyNameSelectsManhattan | Distance.ExactSelectsManhattanOnlyByName |
| TMO4CT/algorithm.py:17 | `array[width:-width, ...]` with width 0 is `array[0:0]` | a layer with W = 1 (so W // 2 = 0) crops to zero rows | a window of the original size after the margin, `array[w:w + W, h:h + H]` | not executed | Shapes.CropZeroWidth | Shapes.CropWindowShape |
| TMO4CT/algorithm.py:98-99 | `irfft2` without `s=` returns an even last axis, 2 (p // 2) | H = 3: padded width 5, inverse width 4, crop [1:-1] leaves 2 columns, and `test[i, ...] = x` cannot store a 2-column slice in a 3-column volume (H = 1 raises inside `irfft2` instead) | pass the padded shape to `irfft2` and crop the W-by-H window | not executed | Shapes.ConvShapeAsWritten | Shapes.ConvShapeIntendedKeepsShape |
