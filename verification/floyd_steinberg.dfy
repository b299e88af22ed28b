/**
 * `dither_FS` of src/tools.py: error diffusion over a w-by-h image in row-major order.
 * Each pixel starts at `floor(image)` with error `image - floor(image)`; when a pixel's
 * accumulated error reaches 1 the pixel is bumped by one and 1 is taken from the error,
 * and whatever error remains is passed on to the right neighbour (7/16) and to the
 * lower-left (3/16), lower (5/16) and lower-right (1/16) neighbours that exist.
 */
module FloydSteinberg {
  import opened Wrappers
  import opened Grids
  import opened Quantise

  const RightWeight: real := 7.0 / 16.0
  const DownLeftWeight: real := 3.0 / 16.0
  const DownWeight: real := 5.0 / 16.0
  const DownRightWeight: real := 1.0 / 16.0

  /** The working arrays `result` and `error`, as functions of the pixel index. */
  datatype Diffusion = Diffusion(result: (int, int) -> real, error: (int, int) -> real)

  /** `np.floor(image)`. */
  function Floors(g: Grid): (int, int) -> real
  {
    (r, c) => At(g, r, c).Floor as real
  }

  /** The working arrays before the scan: `result = floor(image)`, `error = image - result`. */
  function Start(g: Grid): Diffusion
  {
    Diffusion(Floors(g), (r, c) => At(g, r, c) - At(g, r, c).Floor as real)
  }

  /** f with v added at (r, c). */
  function AddAt(f: (int, int) -> real, r: int, c: int, v: real): (int, int) -> real
  {
    (x, y) => if x == r && y == c then f(x, y) + v else f(x, y)
  }

  /** What a pixel with accumulated error e gains: one when e has reached 1. */
  function Bump(e: real): real
  {
    if e >= 1.0 then 1.0 else 0.0
  }

  /** The error left to diffuse after the bump. */
  function Residual(e: real): real
  {
    if e >= 1.0 then e - 1.0 else e
  }

  /** The part of the residual `rest` of pixel (i, j) that its visit passes on to pixel (r, c). */
  function Passed(w: nat, h: nat, i: int, j: int, r: int, c: int, rest: real): real
  {
    if r == i && c == j + 1 && j + 1 < h then RightWeight * rest
    else if r == i + 1 && c == j - 1 && i + 1 < w && j > 0 then DownLeftWeight * rest
    else if r == i + 1 && c == j && i + 1 < w then DownWeight * rest
    else if r == i + 1 && c == j + 1 && i + 1 < w && j + 1 < h then DownRightWeight * rest
    else 0.0
  }

  /** f with `rest` passed on from (i, j) to its four later neighbours, each with its share. */
  function Diffuse(f: (int, int) -> real, w: nat, h: nat, i: int, j: int, rest: real): (int, int) -> real
  {
    (x, y) => f(x, y) + Passed(w, h, i, j, x, y, rest)
  }

  /** The body of the scan loop for pixel (i, j) of a w-by-h image. */
  function Visit(s: Diffusion, w: nat, h: nat, i: int, j: int): Diffusion
  {
    var e := s.error(i, j);
    Diffusion(AddAt(s.result, i, j, Bump(e)), Diffuse(s.error, w, h, i, j, Residual(e)))
  }

  /** The working arrays once every pixel before (i, j) in row-major order has been visited. */
  function Scan(g: Grid, w: nat, h: nat, i: nat, j: nat): Diffusion
    requires j <= h
    decreases i, j
  {
    if j == 0 then
      if i == 0 then Start(g) else Scan(g, w, h, i - 1, h)
    else
      Visit(Scan(g, w, h, i, j - 1), w, h, i, j - 1)
  }

  /** The `result` array after the whole scan. */
  function Dithered(g: Grid, w: nat, h: nat): (int, int) -> real
  {
    Scan(g, w, h, w, 0).result
  }

  /** The clip bound `levels - 1`, where `levels` defaults to `image.max() + 1`. */
  function Upper(g: Grid, w: nat, h: nat, levels: Option<int>): Result<real, DitherError>
    requires IsGrid(g, w, h)
  {
    match levels
    case Some(n) => Ok(n as real - 1.0)
    case None => if w == 0 || h == 0 then Err(EmptyImage) else Ok(GridMax(g, w, h))
  }

  /** What `dither_FS(image, levels)` returns: the clipped, converted `result` array. */
  function Output(g: Grid, w: nat, h: nat, levels: Option<int>): Result<seq<seq<int>>, DitherError>
    requires IsGrid(g, w, h)
  {
    match Upper(g, w, h, levels)
    case Err(e) => Err(e)
    case Ok(upper) => Ok(seq(w, r => seq(h, c => Quantised(Dithered(g, w, h)(r, c), upper))))
  }

  // ---------------------------------------------------------------------------------
  // Why every pixel ends at floor or floor + 1: the error headroom of unvisited pixels.
  // ---------------------------------------------------------------------------------

  /** Pixel (r, c) comes before (i, j) in row-major order. */
  predicate Visited(i: int, j: int, r: int, c: int)
  {
    r < i || (r == i && c < j)
  }

  /**
   * The total diffusion weight that pixel (r, c) of a w-by-h image has received once every
   * pixel before (i, j) has been visited: 7/16 from the left, 3/16 from the upper right,
   * 5/16 from above and 1/16 from the upper left, each once its sender has been visited.
   */
  function Received(h: nat, i: int, j: int, r: int, c: int): real
  {
    (if c >= 1 && Visited(i, j, r, c - 1) then RightWeight else 0.0)
    + (if r >= 1 && c + 1 < h && Visited(i, j, r - 1, c + 1) then DownLeftWeight else 0.0)
    + (if r >= 1 && Visited(i, j, r - 1, c) then DownWeight else 0.0)
    + (if r >= 1 && c >= 1 && Visited(i, j, r - 1, c - 1) then DownRightWeight else 0.0)
  }

  /** The four Floyd–Steinberg weights add up to 1, so no pixel ever receives more than 1. */
  lemma ReceivedAtMostOne(h: nat, i: int, j: int, r: int, c: int)
    ensures 0.0 <= Received(h, i, j, r, c) <= 1.0
  {
  }

  /**
   * The scan invariant: visited pixels hold floor or floor + 1, unvisited ones still hold
   * their floor and carry a non-negative error below 1 plus the weight they have received.
   */
  predicate Headroom(g: Grid, w: nat, h: nat, i: int, j: int, s: Diffusion)
  {
    forall r, c {:trigger s.result(r, c)} :: 0 <= r < w && 0 <= c < h ==>
      if Visited(i, j, r, c) then
        s.result(r, c) == Floors(g)(r, c) || s.result(r, c) == Floors(g)(r, c) + 1.0
      else
        s.result(r, c) == Floors(g)(r, c) && 0.0 <= s.error(r, c) < 1.0 + Received(h, i, j, r, c)
  }

  /** Visiting (i, j) bumps only (i, j) and adds its residual, weighted, to its four later neighbours. */
  lemma VisitEffect(s: Diffusion, w: nat, h: nat, i: int, j: int, r: int, c: int)
    ensures Visit(s, w, h, i, j).result(r, c)
         == if r == i && c == j then s.result(r, c) + Bump(s.error(i, j)) else s.result(r, c)
    ensures Visit(s, w, h, i, j).error(r, c)
         == s.error(r, c) + Passed(w, h, i, j, r, c, Residual(s.error(i, j)))
  {
  }

  /** Visiting (i, j) moves exactly its shares into the received weight of the pixels after it. */
  lemma ReceivedStep(w: nat, h: nat, i: int, j: int, r: int, c: int)
    requires 0 <= i && 0 <= j < h && 0 <= r < w && 0 <= c < h && !Visited(i, j + 1, r, c)
    ensures Received(h, i, j + 1, r, c) == Received(h, i, j, r, c) + Passed(w, h, i, j, r, c, 1.0)
  {
  }

  /** One visit keeps the headroom invariant, moving the scan position from (i, j) to (i, j + 1). */
  lemma VisitKeepsHeadroom(g: Grid, w: nat, h: nat, i: int, j: int, s: Diffusion)
    requires 0 <= i < w && 0 <= j < h
    requires Headroom(g, w, h, i, j, s)
    ensures Headroom(g, w, h, i, j + 1, Visit(s, w, h, i, j))
  {
    var e := s.error(i, j);
    assert s.result(i, j) == Floors(g)(i, j);
    ReceivedAtMostOne(h, i, j, i, j);
    assert 0.0 <= Residual(e) < 1.0;
    var t := Visit(s, w, h, i, j);
    forall r, c | 0 <= r < w && 0 <= c < h
      ensures if Visited(i, j + 1, r, c) then
                t.result(r, c) == Floors(g)(r, c) || t.result(r, c) == Floors(g)(r, c) + 1.0
              else
                t.result(r, c) == Floors(g)(r, c) && 0.0 <= t.error(r, c) < 1.0 + Received(h, i, j + 1, r, c)
    {
      VisitEffect(s, w, h, i, j, r, c);
      if !Visited(i, j + 1, r, c) {
        ReceivedStep(w, h, i, j, r, c);
      }
    }
  }

  /** Finishing a row: the position after the last pixel of row i is the start of row i + 1. */
  lemma RowEndIsNextRowStart(g: Grid, w: nat, h: nat, i: int, s: Diffusion)
    requires Headroom(g, w, h, i, h, s)
    ensures Headroom(g, w, h, i + 1, 0, s)
  {
    forall r, c | 0 <= r < w && 0 <= c < h
      ensures if Visited(i + 1, 0, r, c) then
                s.result(r, c) == Floors(g)(r, c) || s.result(r, c) == Floors(g)(r, c) + 1.0
              else
                s.result(r, c) == Floors(g)(r, c) && 0.0 <= s.error(r, c) < 1.0 + Received(h, i + 1, 0, r, c)
    {
      assert Visited(i, h, r, c) == Visited(i + 1, 0, r, c);
      assert Received(h, i, h, r, c) == Received(h, i + 1, 0, r, c);
    }
  }

  /** Before the scan every pixel holds its floor and its fraction as error. */
  lemma StartHeadroom(g: Grid, w: nat, h: nat)
    ensures Headroom(g, w, h, 0, 0, Start(g))
  {
    forall r, c | 0 <= r < w && 0 <= c < h
      ensures 0.0 <= Start(g).error(r, c) < 1.0 + Received(h, 0, 0, r, c)
    {
    }
  }

  /** The invariant holds at every position of the scan. */
  lemma {:induction false} ScanHeadroom(g: Grid, w: nat, h: nat, i: nat, j: nat)
    requires IsGrid(g, w, h) && i <= w && j <= h && (i == w ==> j == 0)
    ensures Headroom(g, w, h, i, j, Scan(g, w, h, i, j))
    decreases i, j
  {
    if j == 0 {
      if i > 0 {
        ScanHeadroom(g, w, h, i - 1, h);
        RowEndIsNextRowStart(g, w, h, i - 1, Scan(g, w, h, i - 1, h));
      } else {
        StartHeadroom(g, w, h);
      }
    } else {
      ScanHeadroom(g, w, h, i, j - 1);
      VisitKeepsHeadroom(g, w, h, i, j - 1, Scan(g, w, h, i, j - 1));
    }
  }

  /**
   * Before clipping, every pixel of `dither_FS` is `floor(image)` or `floor(image) + 1`:
   * the error a pixel accumulates stays below 2, so one bump always suffices.
   */
  lemma DitheredIsFloorOrNext(g: Grid, w: nat, h: nat, r: int, c: int)
    requires IsGrid(g, w, h) && 0 <= r < w && 0 <= c < h
    ensures var x := Dithered(g, w, h)(r, c);
            x == g[r][c].Floor as real || x == g[r][c].Floor as real + 1.0
  {
    ScanHeadroom(g, w, h, w, 0);
  }

  // ---------------------------------------------------------------------------------
  // The error balance: a closed description of the finished scan.
  // ---------------------------------------------------------------------------------

  /** `image - floor(image)`. */
  function Fractions(g: Grid): (int, int) -> real
  {
    (r, c) => At(g, r, c) - At(g, r, c).Floor as real
  }

  /**
   * The error that pixel (r, c) has received once every pixel before (i, j) has been visited:
   * each visited neighbour's residual, weighted by the share it passes to (r, c).
   */
  function Inflow(s: Diffusion, h: nat, i: int, j: int, r: int, c: int): real
  {
    (if c >= 1 && Visited(i, j, r, c - 1) then RightWeight * Residual(s.error(r, c - 1)) else 0.0)
    + (if r >= 1 && c + 1 < h && Visited(i, j, r - 1, c + 1) then DownLeftWeight * Residual(s.error(r - 1, c + 1)) else 0.0)
    + (if r >= 1 && Visited(i, j, r - 1, c) then DownWeight * Residual(s.error(r - 1, c)) else 0.0)
    + (if r >= 1 && c >= 1 && Visited(i, j, r - 1, c - 1) then DownRightWeight * Residual(s.error(r - 1, c - 1)) else 0.0)
  }

  /**
   * Every pixel's error is its own fraction plus what its visited neighbours passed on,
   * and every visited pixel was bumped exactly when that error reached 1.
   */
  ghost predicate Balanced(g: Grid, w: nat, h: nat, i: int, j: int, s: Diffusion)
  {
    forall r, c {:trigger s.result(r, c)} :: 0 <= r < w && 0 <= c < h ==>
      s.error(r, c) == Fractions(g)(r, c) + Inflow(s, h, i, j, r, c)
      && s.result(r, c) == Floors(g)(r, c) + (if Visited(i, j, r, c) then Bump(s.error(r, c)) else 0.0)
  }

  /** A visit leaves the error of (i, j) and of every earlier pixel as it was. */
  lemma VisitKeepsEarlier(s: Diffusion, w: nat, h: nat, i: int, j: int, r: int, c: int)
    requires Visited(i, j + 1, r, c)
    ensures Visit(s, w, h, i, j).error(r, c) == s.error(r, c)
  {
    VisitEffect(s, w, h, i, j, r, c);
  }

  /** Visiting (i, j) adds its own weighted residual to the inflow of the pixels after it and nothing else. */
  lemma InflowStep(s: Diffusion, w: nat, h: nat, i: int, j: int, r: int, c: int)
    requires 0 <= i && 0 <= j < h && 0 <= r < w && 0 <= c < h
    ensures var t := Visit(s, w, h, i, j);
            Inflow(t, h, i, j + 1, r, c)
            == Inflow(s, h, i, j, r, c) + (if Visited(i, j + 1, r, c) then 0.0 else Passed(w, h, i, j, r, c, Residual(s.error(i, j))))
  {
    if c >= 1 && Visited(i, j + 1, r, c - 1) { VisitKeepsEarlier(s, w, h, i, j, r, c - 1); }
    if r >= 1 && c + 1 < h && Visited(i, j + 1, r - 1, c + 1) { VisitKeepsEarlier(s, w, h, i, j, r - 1, c + 1); }
    if r >= 1 && Visited(i, j + 1, r - 1, c) { VisitKeepsEarlier(s, w, h, i, j, r - 1, c); }
    if r >= 1 && c >= 1 && Visited(i, j + 1, r - 1, c - 1) { VisitKeepsEarlier(s, w, h, i, j, r - 1, c - 1); }
  }

  /** One visit keeps the balance, moving the scan position from (i, j) to (i, j + 1). */
  lemma VisitKeepsBalance(g: Grid, w: nat, h: nat, i: int, j: int, s: Diffusion)
    requires 0 <= i < w && 0 <= j < h
    requires Balanced(g, w, h, i, j, s)
    ensures Balanced(g, w, h, i, j + 1, Visit(s, w, h, i, j))
  {
    var t := Visit(s, w, h, i, j);
    forall r, c | 0 <= r < w && 0 <= c < h
      ensures t.error(r, c) == Fractions(g)(r, c) + Inflow(t, h, i, j + 1, r, c)
      ensures t.result(r, c) == Floors(g)(r, c) + (if Visited(i, j + 1, r, c) then Bump(t.error(r, c)) else 0.0)
    {
      VisitEffect(s, w, h, i, j, r, c);
      InflowStep(s, w, h, i, j, r, c);
      if Visited(i, j + 1, r, c) {
        VisitKeepsEarlier(s, w, h, i, j, r, c);
      }
    }
  }

  /** Before the scan each pixel's error is its own fraction and nothing has been bumped. */
  lemma StartBalanced(g: Grid, w: nat, h: nat)
    ensures Balanced(g, w, h, 0, 0, Start(g))
  {
    forall r, c | 0 <= r < w && 0 <= c < h
      ensures Inflow(Start(g), h, 0, 0, r, c) == 0.0
    {
    }
  }

  /** Finishing a row keeps the balance: the end of row i is the start of row i + 1. */
  lemma RowEndKeepsBalance(g: Grid, w: nat, h: nat, i: int, s: Diffusion)
    requires Balanced(g, w, h, i, h, s)
    ensures Balanced(g, w, h, i + 1, 0, s)
  {
    forall r, c | 0 <= r < w && 0 <= c < h
      ensures s.error(r, c) == Fractions(g)(r, c) + Inflow(s, h, i + 1, 0, r, c)
      ensures s.result(r, c) == Floors(g)(r, c) + (if Visited(i + 1, 0, r, c) then Bump(s.error(r, c)) else 0.0)
    {
      assert s.result(r, c) == Floors(g)(r, c) + (if Visited(i, h, r, c) then Bump(s.error(r, c)) else 0.0);
      assert s.error(r, c) == Fractions(g)(r, c) + Inflow(s, h, i, h, r, c);
      assert Inflow(s, h, i, h, r, c) == Inflow(s, h, i + 1, 0, r, c);
      assert Visited(i, h, r, c) == Visited(i + 1, 0, r, c);
    }
  }

  /** Visiting (i, j) keeps the balance of the scan. */
  lemma ScanStepBalanced(g: Grid, w: nat, h: nat, i: nat, j: nat)
    requires i < w && 0 < j <= h
    requires Balanced(g, w, h, i, j - 1, Scan(g, w, h, i, j - 1))
    ensures Balanced(g, w, h, i, j, Scan(g, w, h, i, j))
  {
    VisitKeepsBalance(g, w, h, i, j - 1, Scan(g, w, h, i, j - 1));
  }

  /** Finishing row i - 1 keeps the balance of the scan. */
  lemma ScanRowBalanced(g: Grid, w: nat, h: nat, i: nat)
    requires 0 < i
    requires Balanced(g, w, h, i - 1, h, Scan(g, w, h, i - 1, h))
    ensures Balanced(g, w, h, i, 0, Scan(g, w, h, i, 0))
  {
    RowEndKeepsBalance(g, w, h, i - 1, Scan(g, w, h, i - 1, h));
  }

  /** The balance holds at every position of the scan. */
  lemma {:induction false} ScanBalanced(g: Grid, w: nat, h: nat, i: nat, j: nat)
    requires IsGrid(g, w, h) && i <= w && j <= h && (i == w ==> j == 0)
    ensures Balanced(g, w, h, i, j, Scan(g, w, h, i, j))
    decreases i, j
  {
    if j == 0 {
      if i > 0 {
        ScanBalanced(g, w, h, i - 1, h);
        ScanRowBalanced(g, w, h, i);
      } else {
        StartBalanced(g, w, h);
      }
    } else {
      ScanBalanced(g, w, h, i, j - 1);
      ScanStepBalanced(g, w, h, i, j);
    }
  }

  /**
   * The finished scan, described without the loop: the final error of each pixel is its
   * fraction plus the weighted residuals of its four earlier neighbours, and the pixel
   * was bumped exactly when that error reached 1.
   */
  lemma FinalBalance(g: Grid, w: nat, h: nat, r: int, c: int)
    requires IsGrid(g, w, h) && 0 <= r < w && 0 <= c < h
    ensures var s := Scan(g, w, h, w, 0);
            s.error(r, c) == Fractions(g)(r, c) + Inflow(s, h, w, 0, r, c)
            && Dithered(g, w, h)(r, c) == Floors(g)(r, c) + Bump(s.error(r, c))
  {
    ScanBalanced(g, w, h, w, 0);
    assert Dithered(g, w, h)(r, c) == Scan(g, w, h, w, 0).result(r, c);
  }

  // ---------------------------------------------------------------------------------
  // Images that are already integral pass through unchanged.
  // ---------------------------------------------------------------------------------

  /** No error anywhere and every pixel still at its floor. */
  ghost predicate Settled(g: Grid, s: Diffusion)
  {
    forall r, c :: s.error(r, c) == 0.0 && s.result(r, c) == Floors(g)(r, c)
  }

  /** On an integral image there is never any error to diffuse. */
  lemma {:induction false} ScanSettled(g: Grid, w: nat, h: nat, i: nat, j: nat)
    requires IsGrid(g, w, h) && Integral(g, w, h) && j <= h
    ensures Settled(g, Scan(g, w, h, i, j))
    decreases i, j
  {
    if j == 0 {
      if i > 0 {
        ScanSettled(g, w, h, i - 1, h);
      }
    } else {
      var s := Scan(g, w, h, i, j - 1);
      ScanSettled(g, w, h, i, j - 1);
      forall r, c
        ensures Visit(s, w, h, i, j - 1).error(r, c) == 0.0
        ensures Visit(s, w, h, i, j - 1).result(r, c) == Floors(g)(r, c)
      {
        VisitEffect(s, w, h, i, j - 1, r, c);
      }
    }
  }

  /** `dither_FS` of an integral image is the image itself, clipped to the levels. */
  lemma IntegralUnchanged(g: Grid, w: nat, h: nat, r: int, c: int)
    requires IsGrid(g, w, h) && Integral(g, w, h) && 0 <= r < w && 0 <= c < h
    ensures Dithered(g, w, h)(r, c) == g[r][c]
  {
    ScanSettled(g, w, h, w, 0);
  }

  // ---------------------------------------------------------------------------------
  // The returned image.
  // ---------------------------------------------------------------------------------

  /**
   * `dither_FS` fails only when it needs `image.max()` of an empty image; otherwise it
   * returns a w-by-h image whose pixels are `floor(image)` or `floor(image) + 1`, clipped
   * to [0, levels - 1].
   */
  lemma OutputPixels(g: Grid, w: nat, h: nat, levels: Option<int>)
    requires IsGrid(g, w, h)
    ensures Output(g, w, h, levels).Err? <==> levels.None? && (w == 0 || h == 0)
    ensures Output(g, w, h, levels).Ok? ==>
              var out, upper := Output(g, w, h, levels).value, Upper(g, w, h, levels).value;
              |out| == w &&
              forall r, c :: 0 <= r < w && 0 <= c < h ==>
                |out[r]| == h &&
                (out[r][c] == Quantised(g[r][c].Floor as real, upper)
                 || out[r][c] == Quantised(g[r][c].Floor as real + 1.0, upper))
    ensures levels.Some? && levels.value >= 1 ==>
              forall r, c :: 0 <= r < w && 0 <= c < h ==> 0 <= Output(g, w, h, levels).value[r][c] < levels.value
  {
    forall r, c | 0 <= r < w && 0 <= c < h
      ensures var x := Dithered(g, w, h)(r, c);
              x == g[r][c].Floor as real || x == g[r][c].Floor as real + 1.0
    {
      DitheredIsFloorOrNext(g, w, h, r, c);
    }
  }

  /** With levels to spare, an integral image comes back as it went in. */
  lemma IntegralOutput(g: Grid, w: nat, h: nat, levels: Option<int>)
    requires IsGrid(g, w, h) && Integral(g, w, h)
    requires forall r, c :: 0 <= r < w && 0 <= c < h ==> 0.0 <= g[r][c]
    requires levels.Some? ==> forall r, c :: 0 <= r < w && 0 <= c < h ==> g[r][c] < levels.value as real
    requires levels.None? ==> w > 0 && h > 0
    ensures Output(g, w, h, levels).Ok?
    ensures forall r, c :: 0 <= r < w && 0 <= c < h ==> Output(g, w, h, levels).value[r][c] as real == g[r][c]
  {
    forall r, c | 0 <= r < w && 0 <= c < h
      ensures Dithered(g, w, h)(r, c) == g[r][c]
    {
      IntegralUnchanged(g, w, h, r, c);
    }
    if levels.Some? {
      forall r, c | 0 <= r < w && 0 <= c < h
        ensures g[r][c] <= levels.value as real - 1.0
      {
        assert g[r][c].Floor < levels.value;
      }
    }
  }

  /** Pixel (r, c) of the quarter ramp is r + c / 4: floor r, fraction c / 4. */
  lemma QuartersPixel(r: int, c: int)
    requires 0 <= r < 4 && 0 <= c < 4
    ensures Floors(Quarters())(r, c) == r as real
    ensures Fractions(Quarters())(r, c) == c as real / 4.0
  {
    assert At(Quarters(), r, c) == r as real + c as real / 4.0;
  }

  /** The final errors of the quarter ramp, worked out pixel by pixel in scan order. */
  function QuartersError(r: int, c: int): real
  {
    if r == 0 && c == 0 then 0.0
    else if r == 0 && c == 1 then 1.0 / 4.0
    else if r == 0 && c == 2 then 39.0 / 64.0
    else if r == 0 && c == 3 then 1041.0 / 1024.0
    else if r == 1 && c == 0 then 3.0 / 64.0
    else if r == 1 && c == 1 then 237.0 / 512.0
    else if r == 1 && c == 2 then 14937.0 / 16384.0
    else if r == 1 && c == 3 then 312511.0 / 262144.0
    else if r == 2 && c == 0 then 831.0 / 8192.0
    else if r == 2 && c == 1 then 160669.0 / 262144.0
    else if r == 2 && c == 2 then 586155.0 / 524288.0
    else if r == 2 && c == 3 then 7706179.0 / 8388608.0
    else if r == 3 && c == 0 then 614967.0 / 4194304.0
    else if r == 3 && c == 1 then 35845785.0 / 67108864.0
    else if r == 3 && c == 2 then 1053465847.0 / 1073741824.0
    else if r == 3 && c == 3 then 25317820993.0 / 17179869184.0
    else 0.0
  }

  /** The balance equation of one pixel, for any balanced state s after the whole scan. */
  lemma BalanceAt(g: Grid, w: nat, h: nat, s: Diffusion, r: int, c: int)
    requires Balanced(g, w, h, w, 0, s) && 0 <= r < w && 0 <= c < h
    ensures s.error(r, c) == Fractions(g)(r, c) + Inflow(s, h, w, 0, r, c)
    ensures s.result(r, c) == Floors(g)(r, c) + Bump(s.error(r, c))
  {
    assert s.result(r, c) == Floors(g)(r, c) + (if Visited(w, 0, r, c) then Bump(s.error(r, c)) else 0.0);
  }

  /** The final errors of row 0 of the quarter ramp. */
  lemma QuartersRow0(s: Diffusion)
    requires Balanced(Quarters(), 4, 4, 4, 0, s)
    ensures forall c :: 0 <= c < 4 ==> s.error(0, c) == QuartersError(0, c)
  {
    BalanceAt(Quarters(), 4, 4, s, 0, 0);
    QuartersPixel(0, 0);
    BalanceAt(Quarters(), 4, 4, s, 0, 1);
    QuartersPixel(0, 1);
    BalanceAt(Quarters(), 4, 4, s, 0, 2);
    QuartersPixel(0, 2);
    BalanceAt(Quarters(), 4, 4, s, 0, 3);
    QuartersPixel(0, 3);
  }

  /** The final errors of row 1 of the quarter ramp, given those of row 0. */
  lemma QuartersRow1(s: Diffusion)
    requires Balanced(Quarters(), 4, 4, 4, 0, s)
    requires forall c :: 0 <= c < 4 ==> s.error(0, c) == QuartersError(0, c)
    ensures forall c :: 0 <= c < 4 ==> s.error(1, c) == QuartersError(1, c)
  {
    BalanceAt(Quarters(), 4, 4, s, 1, 0);
    QuartersPixel(1, 0);
    BalanceAt(Quarters(), 4, 4, s, 1, 1);
    QuartersPixel(1, 1);
    BalanceAt(Quarters(), 4, 4, s, 1, 2);
    QuartersPixel(1, 2);
    BalanceAt(Quarters(), 4, 4, s, 1, 3);
    QuartersPixel(1, 3);
  }

  /** The final errors of row 2 of the quarter ramp, given those of row 1. */
  lemma QuartersRow2(s: Diffusion)
    requires Balanced(Quarters(), 4, 4, 4, 0, s)
    requires forall c :: 0 <= c < 4 ==> s.error(1, c) == QuartersError(1, c)
    ensures forall c :: 0 <= c < 4 ==> s.error(2, c) == QuartersError(2, c)
  {
    BalanceAt(Quarters(), 4, 4, s, 2, 0);
    QuartersPixel(2, 0);
    BalanceAt(Quarters(), 4, 4, s, 2, 1);
    QuartersPixel(2, 1);
    BalanceAt(Quarters(), 4, 4, s, 2, 2);
    QuartersPixel(2, 2);
    BalanceAt(Quarters(), 4, 4, s, 2, 3);
    QuartersPixel(2, 3);
  }

  /** The final errors of row 3 of the quarter ramp, given those of row 2. */
  lemma QuartersRow3(s: Diffusion)
    requires Balanced(Quarters(), 4, 4, 4, 0, s)
    requires forall c :: 0 <= c < 4 ==> s.error(2, c) == QuartersError(2, c)
    ensures forall c :: 0 <= c < 4 ==> s.error(3, c) == QuartersError(3, c)
  {
    BalanceAt(Quarters(), 4, 4, s, 3, 0);
    QuartersPixel(3, 0);
    BalanceAt(Quarters(), 4, 4, s, 3, 1);
    QuartersPixel(3, 1);
    BalanceAt(Quarters(), 4, 4, s, 3, 2);
    QuartersPixel(3, 2);
    BalanceAt(Quarters(), 4, 4, s, 3, 3);
    QuartersPixel(3, 3);
  }

  /** Exactly four pixels of the quarter ramp reach an error of 1. */
  lemma QuartersBumps(r: int, c: int)
    requires 0 <= r < 4 && 0 <= c < 4
    ensures QuartersError(r, c) >= 1.0 <==> (r == 0 && c == 3) || (r == 1 && c == 3) || (r == 2 && c == 2) || (r == 3 && c == 3)
  {
  }

  /** Pixel (r, c) of the quarter ramp ends at r, plus one where its error reached 1. */
  lemma QuartersResult(s: Diffusion, r: int, c: int)
    requires Balanced(Quarters(), 4, 4, 4, 0, s) && 0 <= r < 4 && 0 <= c < 4
    ensures s.result(r, c) == r as real + Bump(QuartersError(r, c))
  {
    QuartersRow0(s);
    QuartersRow1(s);
    QuartersRow2(s);
    QuartersRow3(s);
    BalanceAt(Quarters(), 4, 4, s, r, c);
    QuartersPixel(r, c);
  }

  /** The same, for the `result` array `dither_FS` leaves behind. */
  lemma QuartersDithered(r: int, c: int)
    requires 0 <= r < 4 && 0 <= c < 4
    ensures Dithered(Quarters(), 4, 4)(r, c) == r as real + Bump(QuartersError(r, c))
  {
    ScanBalanced(Quarters(), 4, 4, 4, 0);
    QuartersResult(Scan(Quarters(), 4, 4, 4, 0), r, c);
  }

  /** The docstring example of `dither`: the quarter ramp with four levels, error diffusion. */
  lemma QuartersExample()
    ensures Output(Quarters(), 4, 4, Some(4)) == Ok([[0, 0, 0, 1], [1, 1, 1, 2], [2, 2, 3, 2], [3, 3, 3, 3]])
  {
    var want := [[0, 0, 0, 1], [1, 1, 1, 2], [2, 2, 3, 2], [3, 3, 3, 3]];
    var out := Output(Quarters(), 4, 4, Some(4)).value;
    assert |out| == 4 && forall r :: 0 <= r < 4 ==> |out[r]| == 4;
    forall r, c | 0 <= r < 4 && 0 <= c < 4
      ensures out[r][c] == want[r][c]
    {
      QuartersDithered(r, c);
      QuartersBumps(r, c);
    }
    assert forall r | 0 <= r < 4 :: out[r] == want[r];
    assert out == want;
  }

  // ---------------------------------------------------------------------------------
  // The loop itself, on the `result` and `error` arrays.
  // ---------------------------------------------------------------------------------

  /** The array holds the values of f. */
  ghost predicate HoldsValues(a: array2<real>, f: (int, int) -> real)
    reads a
  {
    forall r, c :: 0 <= r < a.Length0 && 0 <= c < a.Length1 ==> a[r, c] == f(r, c)
  }

  /** The `result` and `error` arrays hold the working state s. */
  ghost predicate Holds(result: array2<real>, error: array2<real>, s: Diffusion)
    reads result, error
  {
    HoldsValues(result, s.result) && HoldsValues(error, s.error)
  }

  /** `a[r, c] += v`. */
  method AddTo(a: array2<real>, r: int, c: int, v: real, ghost f: (int, int) -> real)
    requires 0 <= r < a.Length0 && 0 <= c < a.Length1 && HoldsValues(a, f)
    modifies a
    ensures HoldsValues(a, AddAt(f, r, c, v))
  {
    a[r, c] := a[r, c] + v;
  }

  /** The four guarded `+=` updates that pass the residual e of pixel (i, j) on to its later neighbours. */
  method DiffuseError(error: array2<real>, i: int, j: int, e: real)
    requires 0 <= i < error.Length0 && 0 <= j < error.Length1
    modifies error
    ensures forall r, c :: 0 <= r < error.Length0 && 0 <= c < error.Length1 ==>
              error[r, c] == old(error[r, c]) + Passed(error.Length0, error.Length1, i, j, r, c, e)
  {
    var w, h := error.Length0, error.Length1;
    if j + 1 < h {
      error[i, j + 1] := error[i, j + 1] + RightWeight * e;
    }
    if i + 1 < w && j > 0 {
      error[i + 1, j - 1] := error[i + 1, j - 1] + DownLeftWeight * e;
    }
    if i + 1 < w {
      error[i + 1, j] := error[i + 1, j] + DownWeight * e;
    }
    if i + 1 < w && j + 1 < h {
      error[i + 1, j + 1] := error[i + 1, j + 1] + DownRightWeight * e;
    }
  }

  /** One iteration of the inner loop: bump pixel (i, j) if its error has reached 1, then diffuse the rest. */
  method VisitPixel(result: array2<real>, error: array2<real>, i: int, j: int, ghost s: Diffusion)
    requires result != error
    requires error.Length0 == result.Length0 && error.Length1 == result.Length1
    requires 0 <= i < result.Length0 && 0 <= j < result.Length1
    requires Holds(result, error, s)
    modifies result, error
    ensures Holds(result, error, Visit(s, result.Length0, result.Length1, i, j))
  {
    var e := error[i, j];
    if e >= 1.0 {
      AddTo(result, i, j, 1.0, s.result);
      e := e - 1.0;
    } else {
      assert HoldsValues(result, AddAt(s.result, i, j, Bump(s.error(i, j))));
    }
    DiffuseError(error, i, j, e);
  }

  /** The working arrays of `dither_FS` for an image: `floor(image)` and `image - floor(image)`. */
  method StartArrays(image: array2<real>) returns (result: array2<real>, error: array2<real>)
    ensures fresh(result) && fresh(error) && result != error
    ensures result.Length0 == error.Length0 == image.Length0 && result.Length1 == error.Length1 == image.Length1
    ensures Holds(result, error, Start(Snapshot(image)))
  {
    var w, h := image.Length0, image.Length1;
    result := new real[w, h];
    error := new real[w, h];
    forall r, c | 0 <= r < w && 0 <= c < h {
      result[r, c] := image[r, c].Floor as real;
    }
    forall r, c | 0 <= r < w && 0 <= c < h {
      error[r, c] := image[r, c] - result[r, c];
    }
  }

  /** The two nested loops of `dither_FS` over the rows and columns of g. */
  method ScanPixels(result: array2<real>, error: array2<real>, ghost g: Grid)
    requires result != error
    requires error.Length0 == result.Length0 && error.Length1 == result.Length1
    requires Holds(result, error, Scan(g, result.Length0, result.Length1, 0, 0))
    modifies result, error
    ensures Holds(result, error, Scan(g, result.Length0, result.Length1, result.Length0, 0))
  {
    var w, h := result.Length0, result.Length1;
    var i := 0;
    while i < w
      invariant 0 <= i <= w
      invariant Holds(result, error, Scan(g, w, h, i, 0))
    {
      var j := 0;
      while j < h
        invariant 0 <= j <= h
        invariant Holds(result, error, Scan(g, w, h, i, j))
      {
        VisitPixel(result, error, i, j, Scan(g, w, h, i, j));
        j := j + 1;
      }
      i := i + 1;
    }
  }

  /**
   * `dither_FS(image, levels)`: scans a copy of the image in row-major order, bumping and
   * diffusing as it goes, and returns the clipped, converted result. The image is not changed.
   */
  method DitherFS(image: array2<real>, levels: Option<int>) returns (out: Result<seq<seq<int>>, DitherError>)
    ensures out == Output(Snapshot(image), image.Length0, image.Length1, levels)
  {
    var w, h := image.Length0, image.Length1;
    var g := Snapshot(image);
    var upper: real;
    match levels {
      case Some(n) =>
        upper := n as real - 1.0;
      case None =>
        if w == 0 || h == 0 {
          return Err(EmptyImage);
        }
        var defaultLevels := GridMax(g, w, h) + 1.0;
        upper := defaultLevels - 1.0;
    }
    var result, error := StartArrays(image);
    ScanPixels(result, error, g);
    var pixels := QuantisePixels(result, upper, Dithered(g, w, h));
    out := Ok(pixels);
  }

  /** `np.clip(result, 0, upper).astype(dtype)`. */
  method QuantisePixels(result: array2<real>, upper: real, ghost f: (int, int) -> real) returns (pixels: seq<seq<int>>)
    requires HoldsValues(result, f)
    ensures pixels == seq(result.Length0, r => seq(result.Length1, c => Quantised(f(r, c), upper)))
  {
    var w, h := result.Length0, result.Length1;
    pixels := seq(w, r requires 0 <= r < w reads result =>
                seq(h, c requires 0 <= c < h reads result => Quantised(result[r, c], upper)));
    forall r | 0 <= r < w
      ensures pixels[r] == seq(h, c => Quantised(f(r, c), upper))
    {
    }
  }
}
