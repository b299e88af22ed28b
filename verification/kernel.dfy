/**
 * `mask_generation` of TMO4CT/algorithm.py: the power-law kernel that the tone mapper
 * convolves every grey-level layer with. The mask is zero-filled, every (exponent,
 * factor) pair then sweeps all cells, and the result is divided by its total. The
 * distance function and `np.power` are library calls and enter as parameters.
 */
module Kernel {
  import opened Wrappers
  import opened Sums
  import opened Grids
  import Distance

  /** The arguments of `mask_generation` other than the mask itself. */
  datatype Recipe = Recipe(
    center: real,                 // CENTER, the value of the centre cell
    exps: seq<Option<real>>,      // the exponents; an entry may be None
    factors: seq<real>,           // the factors
    cutoff: Option<real>,         // R_cutoff; None stands for np.inf
    dist: (real, real) -> real,   // the selected distance metric
    power: (real, real) -> real)  // np.power

  /** `zip(exps, factors)` stops at the shorter list. */
  function Pairs(r: Recipe): (n: nat)
    ensures n <= |r.exps| && n <= |r.factors|
    ensures n == |r.exps| || n == |r.factors|
  {
    if |r.exps| <= |r.factors| then |r.exps| else |r.factors|
  }

  /** `xoffset`/`yoffset`: half a cell on an axis of even length, none on an odd one. */
  function Offset(n: nat): real
  {
    if n % 2 == 0 then 0.5 else 0.0
  }

  /** The coordinate `x + xoffset` of index i = x + n // 2 on an axis of length n. */
  function Coord(i: int, n: nat): real
  {
    (i - n / 2) as real + Offset(n)
  }

  /** The distance `d` the loop computes for cell (i, j) of a w-by-h mask. */
  function CellDistance(r: Recipe, w: nat, h: nat, i: int, j: int): real
  {
    r.dist(Coord(i, w), Coord(j, h))
  }

  /** `d >= R_cutoff`; with the default cutoff np.inf no finite distance is cut. */
  predicate Beyond(r: Recipe, d: real)
  {
    r.cutoff.Some? && d >= r.cutoff.value
  }

  /** `exp is not None and exp != 0`. */
  predicate Active(e: Option<real>)
  {
    e.Some? && e.value != 0.0
  }

  /** `x == 0 and y == 0`: the cell at index (w // 2, h // 2). */
  predicate IsCentre(w: nat, h: nat, i: int, j: int)
  {
    i == w / 2 && j == h / 2
  }

  /** The term `factor * np.power(d, -exp)` that pair k adds to cell (i, j). */
  function PowerTerm(r: Recipe, w: nat, h: nat, i: int, j: int): int -> real
  {
    k => if 0 <= k < Pairs(r) && r.exps[k].Some? then
           r.factors[k] * r.power(CellDistance(r, w, h, i, j), -r.exps[k].value)
         else 0.0
  }

  /** What pair k does to cell (i, j) when that cell holds v. */
  function Update(r: Recipe, k: nat, w: nat, h: nat, i: int, j: int, v: real): real
    requires k < Pairs(r)
  {
    if Beyond(r, CellDistance(r, w, h, i, j)) then 0.0
    else if !Active(r.exps[k]) then 1.0
    else if IsCentre(w, h, i, j) then r.center
    else v + PowerTerm(r, w, h, i, j)(k)
  }

  /** Cell (i, j) after the zero fill and the first k pairs. */
  function Raw(r: Recipe, k: nat, w: nat, h: nat, i: int, j: int): real
    requires k <= Pairs(r)
  {
    if k == 0 then 0.0 else Update(r, k - 1, w, h, i, j, Raw(r, k - 1, w, h, i, j))
  }

  /** The mask after all pairs, before the division by its sum. */
  function RawMask(r: Recipe, w: nat, h: nat): (int, int) -> real
  {
    (i, j) => Raw(r, Pairs(r), w, h, i, j)
  }

  /** `mask.sum()` before the division. */
  function RawTotal(r: Recipe, w: nat, h: nat): real
  {
    Sum2(w, h, RawMask(r, w, h))
  }

  /** The mask after `mask /= mask.sum()`, for a non-zero sum. */
  function Normalised(r: Recipe, w: nat, h: nat): (int, int) -> real
    requires RawTotal(r, w, h) != 0.0
  {
    (i, j) => RawMask(r, w, h)(i, j) / RawTotal(r, w, h)
  }

  // ---------------------------------------------------------------------------------
  // The loops of mask_generation.
  // ---------------------------------------------------------------------------------

  /** The `for y` loop of pair k for the row index i = x + w // 2. */
  method SweepRow(mask: array2<real>, r: Recipe, k: nat, x: int)
    requires k < Pairs(r)
    requires 0 <= x + mask.Length0 / 2 < mask.Length0
    modifies mask
    ensures forall i, j :: 0 <= i < mask.Length0 && 0 <= j < mask.Length1 ==>
              mask[i, j] == if i == x + mask.Length0 / 2
                            then Update(r, k, mask.Length0, mask.Length1, i, j, old(mask[i, j]))
                            else old(mask[i, j])
  {
    var w, h := mask.Length0, mask.Length1;
    var wmin, hmin := w / 2, h / 2;
    var hmax := h - hmin;
    var xoffset, yoffset := Offset(w), Offset(h);
    var exp, factor := r.exps[k], r.factors[k];
    var y := -hmin;
    while y < hmax
      invariant -hmin <= y <= hmax
      invariant forall i, j :: 0 <= i < w && 0 <= j < h ==>
                  mask[i, j] == if i == x + wmin && j < y + hmin
                                then Update(r, k, w, h, i, j, old(mask[i, j]))
                                else old(mask[i, j])
    {
      var i, j := x + wmin, y + hmin;
      var d := r.dist(x as real + xoffset, y as real + yoffset);
      assert d == CellDistance(r, w, h, i, j);
      if r.cutoff.Some? && d >= r.cutoff.value {
        mask[i, j] := 0.0;
      } else if exp.Some? && exp.value != 0.0 {
        if x != 0 || y != 0 {
          mask[i, j] := mask[i, j] + factor * r.power(d, -exp.value);
        } else {
          mask[i, j] := r.center;
        }
      } else {
        mask[i, j] := 1.0;
      }
      y := y + 1;
    }
  }

  /** The `for x` loop of pair k: every cell is updated exactly once. */
  method SweepPair(mask: array2<real>, r: Recipe, k: nat)
    requires k < Pairs(r)
    modifies mask
    ensures forall i, j :: 0 <= i < mask.Length0 && 0 <= j < mask.Length1 ==>
              mask[i, j] == Update(r, k, mask.Length0, mask.Length1, i, j, old(mask[i, j]))
  {
    var w, h := mask.Length0, mask.Length1;
    var wmin := w / 2;
    var wmax := w - wmin;
    var x := -wmin;
    while x < wmax
      invariant -wmin <= x <= wmax
      invariant forall i, j :: 0 <= i < w && 0 <= j < h ==>
                  mask[i, j] == if i < x + wmin
                                then Update(r, k, w, h, i, j, old(mask[i, j]))
                                else old(mask[i, j])
    {
      SweepRow(mask, r, k, x);
      x := x + 1;
    }
  }

  /** `mask.sum()`: the total of a 2-D array, row by row. */
  method ArraySum(a: array2<real>) returns (t: real)
    ensures t == Total(Snapshot(a), a.Length0, a.Length1)
  {
    ghost var g := Snapshot(a);
    var i := 0;
    t := 0.0;
    while i < a.Length0
      invariant 0 <= i <= a.Length0
      invariant t == Sum(i, RowSums(a.Length1, Entries(g)))
    {
      var s, j := 0.0, 0;
      while j < a.Length1
        invariant 0 <= j <= a.Length1
        invariant s == Sum(j, Row(Entries(g), i))
      {
        s := s + a[i, j];
        j := j + 1;
      }
      t := t + s;
      i := i + 1;
    }
  }

  /**
   * `mask_generation(mask, CENTER, exps, factors, R_cutoff, distance)`. The answer says
   * whether the division by the sum took place; it does exactly when the sum is non-zero,
   * and the mask then holds the normalised kernel.
   */
  method MaskGeneration(mask: array2<real>, r: Recipe) returns (normalised: bool)
    modifies mask
    ensures normalised <==> RawTotal(r, mask.Length0, mask.Length1) != 0.0
    ensures forall i, j :: 0 <= i < mask.Length0 && 0 <= j < mask.Length1 ==>
              mask[i, j] == if normalised then Normalised(r, mask.Length0, mask.Length1)(i, j)
                            else RawMask(r, mask.Length0, mask.Length1)(i, j)
  {
    var w, h := mask.Length0, mask.Length1;
    forall i, j | 0 <= i < w && 0 <= j < h {
      mask[i, j] := 0.0;
    }
    var k := 0;
    while k < Pairs(r)
      invariant k <= Pairs(r)
      invariant forall i, j :: 0 <= i < w && 0 <= j < h ==> mask[i, j] == Raw(r, k, w, h, i, j)
    {
      SweepPair(mask, r, k);
      k := k + 1;
    }
    var total := ArraySum(mask);
    Sum2Congruent(w, h, Entries(Snapshot(mask)), RawMask(r, w, h));
    normalised := total != 0.0;
    if normalised {
      forall i, j | 0 <= i < w && 0 <= j < h {
        mask[i, j] := mask[i, j] / total;
      }
    }
  }

  // ---------------------------------------------------------------------------------
  // Properties of the kernel.
  // ---------------------------------------------------------------------------------

  /** x ranges over [-(n // 2), n - n // 2), so the coordinates are symmetric about the origin. */
  lemma CoordSymmetric(i: int, n: nat)
    ensures Coord(n - 1 - i, n) == -Coord(i, n)
  {
  }

  /** For an even size the centre cell sits at offset (0.5, 0.5), not at the origin. */
  lemma CentreOffset(n: nat)
    ensures Coord(n / 2, n) == if n % 2 == 0 then 0.5 else 0.0
  {
  }

  /** A cell at or beyond the cutoff is 0 once any pair has run, whatever came before. */
  lemma CutCellIsZero(r: Recipe, w: nat, h: nat, i: int, j: int)
    requires Pairs(r) > 0 && Beyond(r, CellDistance(r, w, h, i, j))
    ensures RawMask(r, w, h)(i, j) == 0.0
  {
  }

  /** The centre cell holds CENTER, or 1.0 when the last exponent is None or 0. */
  lemma CentreCell(r: Recipe, w: nat, h: nat)
    requires Pairs(r) > 0 && !Beyond(r, CellDistance(r, w, h, w / 2, h / 2))
    ensures RawMask(r, w, h)(w / 2, h / 2) == if Active(r.exps[Pairs(r) - 1]) then r.center else 1.0
  {
  }

  /**
   * Away from the centre and inside the cutoff, a run of pairs with real, non-zero
   * exponents adds its power terms to what the cell held before the run.
   */
  lemma {:induction false} Accumulates(r: Recipe, w: nat, h: nat, i: int, j: int, m: nat, k: nat)
    requires m <= k <= Pairs(r)
    requires !IsCentre(w, h, i, j) && !Beyond(r, CellDistance(r, w, h, i, j))
    requires forall t :: m <= t < k ==> Active(r.exps[t])
    ensures Raw(r, k, w, h, i, j) == Raw(r, m, w, h, i, j) + (Sum(k, PowerTerm(r, w, h, i, j)) - Sum(m, PowerTerm(r, w, h, i, j)))
  {
    if m < k {
      Accumulates(r, w, h, i, j, m, k - 1);
    }
  }

  /** With every exponent real and non-zero, a cell off the centre inside the cutoff is the sum of its power terms. */
  lemma SumOfPowerTerms(r: Recipe, w: nat, h: nat, i: int, j: int)
    requires !IsCentre(w, h, i, j) && !Beyond(r, CellDistance(r, w, h, i, j))
    requires forall t :: 0 <= t < Pairs(r) ==> Active(r.exps[t])
    ensures RawMask(r, w, h)(i, j) == Sum(Pairs(r), PowerTerm(r, w, h, i, j))
  {
    Accumulates(r, w, h, i, j, 0, Pairs(r));
  }

  /**
   * A pair whose exponent is None or 0 sets the cell to 1.0, discarding the sums of the
   * pairs before it; later pairs add to that 1.0.
   */
  lemma InactiveResets(r: Recipe, w: nat, h: nat, i: int, j: int, m: nat)
    requires m < Pairs(r) && !Active(r.exps[m])
    requires !IsCentre(w, h, i, j) && !Beyond(r, CellDistance(r, w, h, i, j))
    requires forall t :: m < t < Pairs(r) ==> Active(r.exps[t])
    ensures RawMask(r, w, h)(i, j) ==
              1.0 + (Sum(Pairs(r), PowerTerm(r, w, h, i, j)) - Sum(m + 1, PowerTerm(r, w, h, i, j)))
  {
    Accumulates(r, w, h, i, j, m + 1, Pairs(r));
  }

  /** After the division the kernel sums to one. */
  lemma KernelSumsToOne(r: Recipe, w: nat, h: nat)
    requires RawTotal(r, w, h) != 0.0
    ensures Sum2(w, h, Normalised(r, w, h)) == 1.0
  {
    var t := RawTotal(r, w, h);
    forall i, j | 0 <= i < w && 0 <= j < h
      ensures Normalised(r, w, h)(i, j) == (1.0 / t) * RawMask(r, w, h)(i, j)
    {
    }
    Sum2Scale(w, h, 1.0 / t, RawMask(r, w, h), Normalised(r, w, h));
  }

  /** The ingredients of a non-negative kernel: CENTER, every factor and every power are non-negative. */
  ghost predicate NonNegativeRecipe(r: Recipe)
  {
    0.0 <= r.center
    && (forall k :: 0 <= k < Pairs(r) ==> 0.0 <= r.factors[k])
    && (forall d, e :: 0.0 <= r.power(d, e))
  }

  /** Every cell stays non-negative through the pairs of a non-negative recipe. */
  lemma {:induction false} RawNonNegative(r: Recipe, k: nat, w: nat, h: nat, i: int, j: int)
    requires k <= Pairs(r) && NonNegativeRecipe(r)
    ensures 0.0 <= Raw(r, k, w, h, i, j)
  {
    if k > 0 {
      RawNonNegative(r, k - 1, w, h, i, j);
      var p := PowerTerm(r, w, h, i, j)(k - 1);
      assert 0.0 <= p by {
        if r.exps[k - 1].Some? {
          var f, q := r.factors[k - 1], r.power(CellDistance(r, w, h, i, j), -r.exps[k - 1].value);
          assert 0.0 <= f && 0.0 <= q;
          assert 0.0 <= f * q;
        }
      }
    }
  }

  /** A non-negative recipe with a non-zero sum gives a non-negative kernel with a positive sum. */
  lemma KernelNonNegative(r: Recipe, w: nat, h: nat)
    requires NonNegativeRecipe(r) && RawTotal(r, w, h) != 0.0
    ensures 0.0 < RawTotal(r, w, h)
    ensures forall i, j :: 0 <= i < w && 0 <= j < h ==> 0.0 <= Normalised(r, w, h)(i, j)
  {
    forall i, j | 0 <= i < w && 0 <= j < h
      ensures 0.0 <= RawMask(r, w, h)(i, j)
    {
      RawNonNegative(r, Pairs(r), w, h, i, j);
    }
    Sum2NonNegative(w, h, RawMask(r, w, h));
  }

  /** A distance that ignores the sign of either coordinate, as all four metrics do. */
  ghost predicate SignBlind(dist: (real, real) -> real)
  {
    forall x, y :: dist(x, y) == dist(-x, y) && dist(x, y) == dist(x, -y)
  }

  /**
   * With a sign-blind distance the kernel is point-symmetric, except at the centre: a
   * cell and its mirror image through the middle of the mask hold the same value when
   * neither is the centre cell. For an even size the mirror of the centre is an ordinary
   * cell, so the symmetry breaks there.
   */
  lemma {:induction false} MirrorSymmetric(r: Recipe, k: nat, w: nat, h: nat, i: int, j: int)
    requires k <= Pairs(r) && SignBlind(r.dist)
    requires !IsCentre(w, h, i, j) && !IsCentre(w, h, w - 1 - i, h - 1 - j)
    ensures Raw(r, k, w, h, w - 1 - i, h - 1 - j) == Raw(r, k, w, h, i, j)
  {
    var a, b := Coord(i, w), Coord(j, h);
    CoordSymmetric(i, w);
    CoordSymmetric(j, h);
    assert r.dist(-a, -b) == r.dist(a, -b) == r.dist(a, b);
    assert CellDistance(r, w, h, w - 1 - i, h - 1 - j) == CellDistance(r, w, h, i, j);
    if k > 0 {
      MirrorSymmetric(r, k - 1, w, h, i, j);
    }
  }

  /** The metrics `tone_mapping` can hand to `mask_generation` are all blind to signs. */
  lemma MetricsAreSignBlind(p: real, num: Distance.Numerics)
    requires p != 0.0
    ensures SignBlind(Distance.Manhattan)
    ensures SignBlind(Distance.Maximum)
    ensures SignBlind((x, y) => Distance.Euclidean(x, y, num))
    ensures SignBlind((x, y) => Distance.DistanceP(x, y, p, num).value)
  {
    forall x, y
      ensures Distance.Manhattan(x, y) == Distance.Manhattan(-x, y) && Distance.Manhattan(x, y) == Distance.Manhattan(x, -y)
    {
      Distance.SignFlips(x, y, p, num);
    }
    forall x, y
      ensures Distance.Maximum(x, y) == Distance.Maximum(-x, y) && Distance.Maximum(x, y) == Distance.Maximum(x, -y)
    {
      Distance.SignFlips(x, y, p, num);
    }
    var e := (x, y) => Distance.Euclidean(x, y, num);
    forall x, y
      ensures e(x, y) == e(-x, y) && e(x, y) == e(x, -y)
    {
      Distance.SignFlips(x, y, p, num);
    }
    var q := (x, y) => Distance.DistanceP(x, y, p, num).value;
    forall x, y
      ensures q(x, y) == q(-x, y) && q(x, y) == q(x, -y)
    {
      Distance.SignFlips(x, y, p, num);
    }
  }
}
