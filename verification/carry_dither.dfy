/**
 * `dither_basic` of src/tools.py: the image is read row by row as one sequence, each pixel
 * starts at its floor, and pixel k >= 1 gains one exactly when the running sum of the
 * fractional parts crosses an integer between pixels k - 1 and k.
 */
module CarryDither {
  import opened Wrappers
  import opened Sums
  import opened Grids
  import opened Quantise
  import opened Reals

  /** Dropping the first row of a rows-by-cols array leaves (rows - 1) * cols entries. */
  lemma RowMajorStep(rows: nat, cols: nat)
    requires rows > 0
    ensures rows * cols == cols + (rows - 1) * cols
  {
  }

  /** Entry (r, c) sits at r * cols + c, inside the array and one row further than (r - 1, c). */
  lemma RowMajorIndex(rows: nat, cols: nat, r: int, c: int)
    requires 0 <= r < rows && 0 <= c < cols
    ensures 0 <= r * cols + c < rows * cols
    ensures r > 0 ==> r * cols + c == cols + ((r - 1) * cols + c)
  {
    assert r * cols + c < (r + 1) * cols <= rows * cols;
  }

  /** `image.ravel()`: the rows one after another. */
  function Ravel(g: Grid, rows: nat, cols: nat): (flat: seq<real>)
    requires IsGrid(g, rows, cols)
    ensures |flat| == rows * cols
    decreases rows
  {
    if rows == 0 then []
    else
      assert IsGrid(g[1..], rows - 1, cols);
      RowMajorStep(rows, cols);
      g[0] + Ravel(g[1..], rows - 1, cols)
  }

  /** `flat.reshape(rows, cols)`: consecutive runs of `cols` entries become the rows. */
  function Reshape(flat: seq<real>, rows: nat, cols: nat): (g: Grid)
    requires |flat| == rows * cols
    ensures IsGrid(g, rows, cols)
    decreases rows
  {
    if rows == 0 then []
    else
      RowMajorStep(rows, cols);
      [flat[..cols]] + Reshape(flat[cols..], rows - 1, cols)
  }

  /** Entry (r, c) of a rows-by-cols grid is entry r * cols + c of its ravel. */
  lemma {:induction false} RavelIndex(g: Grid, rows: nat, cols: nat, r: int, c: int)
    requires IsGrid(g, rows, cols) && 0 <= r < rows && 0 <= c < cols
    ensures 0 <= r * cols + c < rows * cols
    ensures Ravel(g, rows, cols)[r * cols + c] == g[r][c]
    decreases rows
  {
    RowMajorIndex(rows, cols, r, c);
    if r > 0 {
      RavelIndex(g[1..], rows - 1, cols, r - 1, c);
    }
  }

  /** Entry (r, c) of a reshaped sequence is entry r * cols + c of the sequence. */
  lemma {:induction false} ReshapeIndex(flat: seq<real>, rows: nat, cols: nat, r: int, c: int)
    requires |flat| == rows * cols && 0 <= r < rows && 0 <= c < cols
    ensures 0 <= r * cols + c < rows * cols
    ensures Reshape(flat, rows, cols)[r][c] == flat[r * cols + c]
    decreases rows
  {
    RowMajorIndex(rows, cols, r, c);
    if r > 0 {
      RowMajorStep(rows, cols);
      ReshapeIndex(flat[cols..], rows - 1, cols, r - 1, c);
    }
  }

  /** Reshaping the ravel to the original shape gives the image back. */
  lemma ReshapeRavel(g: Grid, rows: nat, cols: nat)
    requires IsGrid(g, rows, cols)
    ensures Reshape(Ravel(g, rows, cols), rows, cols) == g
  {
    var back := Reshape(Ravel(g, rows, cols), rows, cols);
    forall r, c | 0 <= r < rows && 0 <= c < cols
      ensures back[r][c] == g[r][c]
    {
      RavelIndex(g, rows, cols, r, c);
      ReshapeIndex(Ravel(g, rows, cols), rows, cols, r, c);
    }
    assert forall r | 0 <= r < rows :: back[r] == g[r];
  }

  /** `np.floor(xs)`. */
  function Floors(xs: seq<real>): (fs: seq<real>)
    ensures |fs| == |xs|
  {
    seq(|xs|, k requires 0 <= k < |xs| => xs[k].Floor as real)
  }

  /** `xs - np.floor(xs)`: the fractional parts. */
  function Fractions(xs: seq<real>): (fr: seq<real>)
    ensures |fr| == |xs|
    ensures forall k :: 0 <= k < |xs| ==> 0.0 <= fr[k] < 1.0
  {
    seq(|xs|, k requires 0 <= k < |xs| => xs[k] - xs[k].Floor as real)
  }

  /** xs[0] + ... + xs[k]. */
  function RunningSum(xs: seq<real>, k: int): real
    requires 0 <= k < |xs|
  {
    Sum(k + 1, Terms(xs))
  }

  /** `np.cumsum(xs)`. */
  function CumSum(xs: seq<real>): (cs: seq<real>)
    ensures |cs| == |xs|
  {
    seq(|xs|, k requires 0 <= k < |xs| => RunningSum(xs, k))
  }

  /** The cumulative sum starts at the first entry and then adds one entry per step. */
  lemma CumSumStep(xs: seq<real>, k: int)
    requires 0 <= k < |xs|
    ensures k == 0 ==> CumSum(xs)[k] == xs[0]
    ensures k > 0 ==> CumSum(xs)[k] == CumSum(xs)[k - 1] + xs[k]
  {
    assert Sum(k + 1, Terms(xs)) == Sum(k, Terms(xs)) + xs[k];
  }

  /** The last cumulative sum is the sum of all entries. */
  lemma CumSumLast(xs: seq<real>)
    requires |xs| > 0
    ensures CumSum(xs)[|xs| - 1] == Sum(|xs|, Terms(xs))
  {
  }

  /** `np.diff(ys)`: consecutive differences, one fewer than the entries (none for an empty array). */
  function Diff(ys: seq<real>): (d: seq<real>)
    ensures |ys| > 0 ==> |d| == |ys| - 1
    ensures |ys| == 0 ==> d == []
  {
    if |ys| == 0 then [] else seq(|ys| - 1, k requires 0 <= k < |ys| - 1 => ys[k + 1] - ys[k])
  }

  /** `.astype(np.bool).astype(np.float32)`: 1 for any non-zero entry, 0 otherwise. */
  function Indicator(x: real): (b: real)
    ensures b == 0.0 || b == 1.0
    ensures b == 1.0 <==> x != 0.0
  {
    if x != 0.0 then 1.0 else 0.0
  }

  /** The floors of the running sums of the fractional parts. */
  function RunningFloors(xs: seq<real>): (fs: seq<real>)
    ensures |fs| == |xs|
  {
    Floors(CumSum(Fractions(xs)))
  }

  /** The `error` array: where the floor of the running fraction sum changes. */
  function Carries(xs: seq<real>): (e: seq<real>)
    ensures |xs| > 0 ==> |e| == |xs| - 1
  {
    var d := Diff(RunningFloors(xs));
    seq(|d|, k requires 0 <= k < |d| => Indicator(d[k]))
  }

  /** `result = floor(xs); result[1:] += error`. */
  function Carried(xs: seq<real>): (ys: seq<real>)
    ensures |ys| == |xs|
  {
    var f, e := Floors(xs), Carries(xs);
    seq(|xs|, k requires 0 <= k < |xs| => f[k] + (if k == 0 then 0.0 else e[k - 1]))
  }

  /** The running sum of fractions grows by less than 1 per pixel, so its floor steps by 0 or 1. */
  lemma FloorStep(xs: seq<real>, k: int)
    requires 0 < k < |xs|
    ensures var fs := RunningFloors(xs);
            fs[k] == fs[k - 1] || fs[k] == fs[k - 1] + 1.0
  {
    var fr := Fractions(xs);
    var cs := CumSum(fr);
    CumSumStep(fr, k);
    FloorOfSmallStep(cs[k - 1], fr[k]);
  }

  /**
   * The first pixel is never carried into; pixel k >= 1 gains exactly one when the floor of
   * the running fraction sum changes from pixel k - 1 to pixel k, and nothing otherwise.
   */
  lemma CarriedPixel(xs: seq<real>, k: int)
    requires 0 <= k < |xs|
    ensures var fs := RunningFloors(xs);
            Carried(xs)[k] == xs[k].Floor as real + (if k > 0 && fs[k] != fs[k - 1] then 1.0 else 0.0)
  {
    if k > 0 {
      FloorStep(xs, k);
    }
  }

  /** Each pixel ends at its floor or one above. */
  lemma CarriedIsFloorOrNext(xs: seq<real>, k: int)
    requires 0 <= k < |xs|
    ensures Carried(xs)[k] == xs[k].Floor as real || Carried(xs)[k] == xs[k].Floor as real + 1.0
  {
    CarriedPixel(xs, k);
  }

  /** Each carry is the step of the running floor, so the cast to bool loses nothing. */
  lemma CarryIsStep(xs: seq<real>, k: int)
    requires 0 <= k < |xs| - 1
    ensures var fs := RunningFloors(xs);
            Carries(xs)[k] == fs[k + 1] - fs[k]
  {
    FloorStep(xs, k + 1);
  }

  /** The running fraction sum starts below 1, so its first floor is 0. */
  lemma RunningFloorsStart(xs: seq<real>)
    requires |xs| > 0
    ensures RunningFloors(xs)[0] == 0.0
  {
    var fr := Fractions(xs);
    var cs := CumSum(fr);
    CumSumStep(fr, 0);
    FloorOfFraction(cs[0]);
  }

  /** The last running sum is the sum of all fractional parts. */
  lemma RunningFloorsEnd(xs: seq<real>)
    requires |xs| > 0
    ensures RunningFloors(xs)[|xs| - 1] == Sum(|xs|, Terms(Fractions(xs))).Floor as real
  {
    var cs := CumSum(Fractions(xs));
    CumSumLast(Fractions(xs));
    assert RunningFloors(xs)[|xs| - 1] == cs[|xs| - 1].Floor as real;
  }

  /** The carries add up to the last running floor less the first one. */
  lemma CarriesTelescope(xs: seq<real>)
    requires |xs| > 0
    ensures var fs := RunningFloors(xs);
            Sum(|xs| - 1, Terms(Carries(xs))) == fs[|xs| - 1] - fs[0]
  {
    var fs := RunningFloors(xs);
    var e := Carries(xs);
    forall k | 0 <= k < |e|
      ensures e[k] == fs[k + 1] - fs[k]
    {
      CarryIsStep(xs, k);
    }
    SumOfSteps(e, fs);
  }

  /** The carries telescope: their total is the floor of the sum of all fractional parts. */
  lemma CarryTotal(xs: seq<real>)
    requires |xs| > 0
    ensures Sum(|xs| - 1, Terms(Carries(xs))) == Sum(|xs|, Terms(Fractions(xs))).Floor as real
  {
    CarriesTelescope(xs);
    RunningFloorsStart(xs);
    RunningFloorsEnd(xs);
  }

  /** The clip bound `levels - 1`, where `levels` defaults to `int(image.max()) + 1`. */
  function Upper(g: Grid, w: nat, h: nat, levels: Option<int>): Result<real, DitherError>
    requires IsGrid(g, w, h)
  {
    match levels
    case Some(n) => Ok(n as real - 1.0)
    case None => if w == 0 || h == 0 then Err(EmptyImage) else Ok((Truncate(GridMax(g, w, h)) + 1) as real - 1.0)
  }

  /** The `result` array before clipping, in the image's shape. */
  function CarriedImage(g: Grid, w: nat, h: nat): (result: Grid)
    requires IsGrid(g, w, h)
    ensures IsGrid(result, w, h)
  {
    Reshape(Carried(Ravel(g, w, h)), w, h)
  }

  /** What `dither_basic(image, levels)` returns: the carried pixels, reshaped, clipped and converted. */
  function Output(g: Grid, w: nat, h: nat, levels: Option<int>): Result<seq<seq<int>>, DitherError>
    requires IsGrid(g, w, h)
  {
    match Upper(g, w, h, levels)
    case Err(e) => Err(e)
    case Ok(upper) =>
      var result := CarriedImage(g, w, h);
      Ok(seq(w, r requires 0 <= r < w => seq(h, c requires 0 <= c < h => Quantised(result[r][c], upper))))
  }

  /** Pixel (r, c) of the result is entry r * h + c of the carried ravel, whose pixel is image[r, c]. */
  lemma CarriedImageAt(g: Grid, w: nat, h: nat, r: int, c: int)
    requires IsGrid(g, w, h) && 0 <= r < w && 0 <= c < h
    ensures 0 <= r * h + c < w * h
    ensures Ravel(g, w, h)[r * h + c] == g[r][c]
    ensures CarriedImage(g, w, h)[r][c] == Carried(Ravel(g, w, h))[r * h + c]
  {
    RavelIndex(g, w, h, r, c);
    ReshapeIndex(Carried(Ravel(g, w, h)), w, h, r, c);
  }

  /** Pixel (r, c) before clipping is floor(image[r, c]) or one above. */
  lemma ResultPixel(g: Grid, w: nat, h: nat, r: int, c: int)
    requires IsGrid(g, w, h) && 0 <= r < w && 0 <= c < h
    ensures var x := CarriedImage(g, w, h)[r][c];
            x == g[r][c].Floor as real || x == g[r][c].Floor as real + 1.0
  {
    CarriedImageAt(g, w, h, r, c);
    CarriedIsFloorOrNext(Ravel(g, w, h), r * h + c);
  }

  /**
   * `dither_basic` fails only when it needs `image.max()` of an empty image; otherwise it
   * returns a w-by-h image whose pixels are `floor(image)` or `floor(image) + 1`, clipped
   * to [0, levels - 1].
   */
  lemma OutputPixels(g: Grid, w: nat, h: nat, levels: Option<int>)
    requires IsGrid(g, w, h)
    ensures Output(g, w, h, levels).Err? <==> levels.None? && (w == 0 || h == 0)
    ensures Output(g, w, h, levels).Ok? ==>
              var out, upper := Output(g, w, h, levels).value, Upper(g, w, h, levels).value;
              |out| == w &&
              forall r, c :: 0 <= r < w && 0 <= c < h ==>
                |out[r]| == h &&
                (out[r][c] == Quantised(g[r][c].Floor as real, upper)
                 || out[r][c] == Quantised(g[r][c].Floor as real + 1.0, upper))
    ensures levels.Some? && levels.value >= 1 ==>
              forall r, c :: 0 <= r < w && 0 <= c < h ==> 0 <= Output(g, w, h, levels).value[r][c] < levels.value
  {
    forall r, c | 0 <= r < w && 0 <= c < h
      ensures var x := CarriedImage(g, w, h)[r][c];
              x == g[r][c].Floor as real || x == g[r][c].Floor as real + 1.0
    {
      ResultPixel(g, w, h, r, c);
    }
  }

  /** Whole numbers have no fractional part, so nothing is ever carried. */
  lemma IntegralCarried(xs: seq<real>)
    requires forall k :: 0 <= k < |xs| ==> xs[k].Floor as real == xs[k]
    ensures Carried(xs) == xs
  {
    var fr := Fractions(xs);
    forall k | 0 <= k < |xs|
      ensures RunningFloors(xs)[k] == 0.0
    {
      SumZero(k + 1, Terms(fr));
    }
    forall k | 0 < k < |xs|
      ensures Carried(xs)[k] == xs[k]
    {
      CarriedPixel(xs, k);
    }
  }

  /** The ravel of an integral image holds whole numbers only. */
  lemma {:induction false} RavelIntegral(g: Grid, rows: nat, cols: nat)
    requires IsGrid(g, rows, cols) && Integral(g, rows, cols)
    ensures forall k :: 0 <= k < rows * cols ==> Ravel(g, rows, cols)[k].Floor as real == Ravel(g, rows, cols)[k]
    decreases rows
  {
    if rows > 0 {
      assert IsGrid(g[1..], rows - 1, cols) && Integral(g[1..], rows - 1, cols);
      RavelIntegral(g[1..], rows - 1, cols);
      assert Ravel(g, rows, cols) == g[0] + Ravel(g[1..], rows - 1, cols);
    }
  }

  /** With levels to spare, an integral image comes back as it went in. */
  lemma IntegralOutput(g: Grid, w: nat, h: nat, levels: Option<int>)
    requires IsGrid(g, w, h) && Integral(g, w, h)
    requires forall r, c :: 0 <= r < w && 0 <= c < h ==> 0.0 <= g[r][c]
    requires levels.Some? ==> forall r, c :: 0 <= r < w && 0 <= c < h ==> g[r][c] < levels.value as real
    requires levels.None? ==> w > 0 && h > 0
    ensures Output(g, w, h, levels).Ok?
    ensures forall r, c :: 0 <= r < w && 0 <= c < h ==> Output(g, w, h, levels).value[r][c] as real == g[r][c]
  {
    var flat := Ravel(g, w, h);
    RavelIntegral(g, w, h);
    IntegralCarried(flat);
    forall r, c | 0 <= r < w && 0 <= c < h
      ensures CarriedImage(g, w, h)[r][c] == g[r][c]
    {
      CarriedImageAt(g, w, h, r, c);
    }
    if levels.Some? {
      forall r, c | 0 <= r < w && 0 <= c < h
        ensures g[r][c] <= levels.value as real - 1.0
      {
        assert g[r][c].Floor < levels.value;
      }
    } else {
      forall r, c | 0 <= r < w && 0 <= c < h
        ensures g[r][c] <= (Truncate(GridMax(g, w, h)) + 1) as real - 1.0
      {
        assert g[r][c].Floor <= GridMax(g, w, h).Floor;
      }
    }
  }

  /** The docstring image read row by row. */
  lemma QuartersRavel()
    ensures Ravel(Quarters(), 4, 4) == [0.0, 1.0 / 4.0, 1.0 / 2.0, 3.0 / 4.0, 1.0, 5.0 / 4.0, 3.0 / 2.0, 7.0 / 4.0, 2.0, 9.0 / 4.0, 5.0 / 2.0, 11.0 / 4.0, 3.0, 13.0 / 4.0, 7.0 / 2.0, 15.0 / 4.0]
  {
  }

  /** Its fractional parts repeat 0, 1/4, 1/2, 3/4. */
  lemma QuartersFractions()
    ensures Fractions(Ravel(Quarters(), 4, 4)) == [0.0, 1.0 / 4.0, 1.0 / 2.0, 3.0 / 4.0, 0.0, 1.0 / 4.0, 1.0 / 2.0, 3.0 / 4.0, 0.0, 1.0 / 4.0, 1.0 / 2.0, 3.0 / 4.0, 0.0, 1.0 / 4.0, 1.0 / 2.0, 3.0 / 4.0]
  {
    QuartersRavel();
  }

  /** Running fraction sums 0 to 3 of the docstring image. */
  lemma QuartersSums0()
    ensures var cs := CumSum(Fractions(Ravel(Quarters(), 4, 4)));
            cs[0] == 0.0 && cs[1] == 1.0 / 4.0 && cs[2] == 3.0 / 4.0 && cs[3] == 3.0 / 2.0
  {
    QuartersFractions();
    CumSumStep(Fractions(Ravel(Quarters(), 4, 4)), 0);
    CumSumStep(Fractions(Ravel(Quarters(), 4, 4)), 1);
    CumSumStep(Fractions(Ravel(Quarters(), 4, 4)), 2);
    CumSumStep(Fractions(Ravel(Quarters(), 4, 4)), 3);
  }

  /** Running fraction sums 4 to 7 of the docstring image. */
  lemma QuartersSums1()
    ensures var cs := CumSum(Fractions(Ravel(Quarters(), 4, 4)));
            cs[4] == 3.0 / 2.0 && cs[5] == 7.0 / 4.0 && cs[6] == 9.0 / 4.0 && cs[7] == 3.0
  {
    QuartersSums0();
    QuartersFractions();
    CumSumStep(Fractions(Ravel(Quarters(), 4, 4)), 4);
    CumSumStep(Fractions(Ravel(Quarters(), 4, 4)), 5);
    CumSumStep(Fractions(Ravel(Quarters(), 4, 4)), 6);
    CumSumStep(Fractions(Ravel(Quarters(), 4, 4)), 7);
  }

  /** Running fraction sums 8 to 11 of the docstring image. */
  lemma QuartersSums2()
    ensures var cs := CumSum(Fractions(Ravel(Quarters(), 4, 4)));
            cs[8] == 3.0 && cs[9] == 13.0 / 4.0 && cs[10] == 15.0 / 4.0 && cs[11] == 9.0 / 2.0
  {
    QuartersSums1();
    QuartersFractions();
    CumSumStep(Fractions(Ravel(Quarters(), 4, 4)), 8);
    CumSumStep(Fractions(Ravel(Quarters(), 4, 4)), 9);
    CumSumStep(Fractions(Ravel(Quarters(), 4, 4)), 10);
    CumSumStep(Fractions(Ravel(Quarters(), 4, 4)), 11);
  }

  /** Running fraction sums 12 to 15 of the docstring image. */
  lemma QuartersSums3()
    ensures var cs := CumSum(Fractions(Ravel(Quarters(), 4, 4)));
            cs[12] == 9.0 / 2.0 && cs[13] == 19.0 / 4.0 && cs[14] == 21.0 / 4.0 && cs[15] == 6.0
  {
    QuartersSums2();
    QuartersFractions();
    CumSumStep(Fractions(Ravel(Quarters(), 4, 4)), 12);
    CumSumStep(Fractions(Ravel(Quarters(), 4, 4)), 13);
    CumSumStep(Fractions(Ravel(Quarters(), 4, 4)), 14);
    CumSumStep(Fractions(Ravel(Quarters(), 4, 4)), 15);
  }

  /** The floors of the running fraction sums of the docstring image. */
  lemma QuartersRunning()
    ensures RunningFloors(Ravel(Quarters(), 4, 4)) == [0.0, 0.0, 0.0, 1.0, 1.0, 1.0, 2.0, 3.0, 3.0, 3.0, 3.0, 4.0, 4.0, 4.0, 5.0, 6.0]
  {
    QuartersSums0();
    QuartersSums1();
    QuartersSums2();
    QuartersSums3();
  }

  /** Where the docstring image carries: wherever the running floor steps. */
  lemma QuartersCarries()
    ensures Carries(Ravel(Quarters(), 4, 4)) == [0.0, 0.0, 1.0, 0.0, 0.0, 1.0, 1.0, 0.0, 0.0, 0.0, 1.0, 0.0, 0.0, 1.0, 1.0]
  {
    QuartersRunning();
  }

  /** The floors of the docstring image, read row by row. */
  lemma QuartersFloors()
    ensures Floors(Ravel(Quarters(), 4, 4)) == [0.0, 0.0, 0.0, 0.0, 1.0, 1.0, 1.0, 1.0, 2.0, 2.0, 2.0, 2.0, 3.0, 3.0, 3.0, 3.0]
  {
    QuartersRavel();
  }

  /** The carried pixels of the docstring image, before reshaping and clipping. */
  lemma QuartersCarried()
    ensures Carried(Ravel(Quarters(), 4, 4))
            == [0.0, 0.0, 0.0, 1.0, 1.0, 1.0, 2.0, 2.0, 2.0, 2.0, 2.0, 3.0, 3.0, 3.0, 4.0, 4.0]
  {
    QuartersFloors();
    QuartersCarries();
  }

  /** The result array of the docstring image before clipping, row by row. */
  lemma QuartersImage()
    ensures var result := CarriedImage(Quarters(), 4, 4);
            result[0] == [0.0, 0.0, 0.0, 1.0] && result[1] == [1.0, 1.0, 2.0, 2.0]
            && result[2] == [2.0, 2.0, 2.0, 3.0] && result[3] == [3.0, 3.0, 4.0, 4.0]
  {
    var flat := Carried(Ravel(Quarters(), 4, 4));
    QuartersCarried();
    RowMajorStep(4, 4);
    RowMajorStep(3, 4);
    RowMajorStep(2, 4);
    RowMajorStep(1, 4);
    var rest := flat[4..];
    assert Reshape(flat, 4, 4) == [flat[..4]] + Reshape(rest, 3, 4);
    assert Reshape(rest, 3, 4) == [rest[..4]] + Reshape(rest[4..], 2, 4);
    assert Reshape(rest[4..], 2, 4) == [rest[4..][..4]] + Reshape(rest[8..], 1, 4);
  }

  /** The first two rows of the basic docstring result. */
  lemma QuartersTopRows()
    ensures var out := Output(Quarters(), 4, 4, Some(4)).value;
            out[0] == [0, 0, 0, 1] && out[1] == [1, 1, 2, 2]
  {
    QuartersImage();
  }

  /** The last two rows of the basic docstring result. */
  lemma QuartersBottomRows()
    ensures var out := Output(Quarters(), 4, 4, Some(4)).value;
            out[2] == [2, 2, 2, 3] && out[3] == [3, 3, 3, 3]
  {
    QuartersImage();
  }

  /** The docstring example of `dither(..., method='basic')`: the quarter ramp with four levels. */
  lemma QuartersExample()
    ensures Output(Quarters(), 4, 4, Some(4)) == Ok([[0, 0, 0, 1], [1, 1, 2, 2], [2, 2, 2, 3], [3, 3, 3, 3]])
  {
    QuartersTopRows();
    QuartersBottomRows();
    var out := Output(Quarters(), 4, 4, Some(4)).value;
    assert out == [out[0], out[1], out[2], out[3]];
  }
}
