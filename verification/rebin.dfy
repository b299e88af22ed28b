/**
 * `rebin` of src/tools.py: each source cell of an I-by-J layer spreads its value
 * bilinearly over (up to) four cells of an X-by-Y output buffer; neighbours that
 * fall outside the buffer are skipped.
 */
module Rebin {
  import opened Sums
  import opened Grids
  import opened Separable
  import opened Reals

  /** `U = float(i) * X / I`: where source index i of an axis of `src` cells lands on an axis of `dst` cells. */
  function Coord(i: int, src: nat, dst: nat): real
    requires src > 0
  {
    (i as real) * (dst as real) / (src as real)
  }

  /** Every source index lands inside the output axis: `0 <= int(U) <= X - 1` because `i < I`. */
  lemma TargetInRange(i: int, src: nat, dst: nat)
    requires 0 <= i < src && dst > 0
    ensures 0.0 <= Coord(i, src, dst) < dst as real
    ensures 0 <= Coord(i, src, dst).Floor < dst
  {
    var U := Coord(i, src, dst);
    assert U * (src as real) == (i as real) * (dst as real);
    assert (i as real) * (dst as real) < (src as real) * (dst as real);
  }

  /**
   * The share of source index i that lands in output cell x along one axis:
   * `1 - f` at `u = int(U)`, `f = U - u` at `u + 1` when that cell exists, nothing elsewhere.
   */
  function AxisWeight(i: int, src: nat, dst: nat, x: int): (w: real)
    ensures 0.0 <= w <= 1.0
  {
    if 0 <= i < src then
      var U := Coord(i, src, dst);
      var u := U.Floor;
      if x == u then 1.0 - (U - u as real)
      else if x == u + 1 && u + 1 < dst then U - u as real
      else 0.0
    else 0.0
  }

  /** The weights of one axis as a family: entry (x, i) is the share of source index i in output cell x. */
  function Weights(src: nat, dst: nat): (int, int) -> real
  {
    (x, i) => AxisWeight(i, src, dst, x)
  }

  /** What source cell (i, j) of `a` adds to output cell (x, y): `f1 * f2 * a[i, j]` and its three siblings. */
  function Splat(a: Grid, src: Shape, dst: Shape, x: int, y: int): (int, int) -> real
  {
    Spread(Weights(src.rows, dst.rows), Weights(src.cols, dst.cols), Entries(a), x, y)
  }

  /** Output cell (x, y) after `rebin`: the splats of all source cells onto it. */
  function RebinCell(a: Grid, src: Shape, dst: Shape, x: int, y: int): real
  {
    Sum2(src.rows, src.cols, Splat(a, src, dst, x, y))
  }

  /** An amount `w` that lands on cell (p, q) only, seen from cell (x, y). */
  function Dot(p: int, q: int, w: real, x: int, y: int): real
  {
    if x == p && y == q then w else 0.0
  }

  /** What the four guarded updates of one loop step add to output cell (x, y). */
  function Bilinear(u: int, v: int, frac1: real, frac2: real, m: real, x: int, y: int): real
  {
    Dot(u, v, (1.0 - frac1) * (1.0 - frac2) * m, x, y)
    + Dot(u + 1, v, frac1 * (1.0 - frac2) * m, x, y)
    + Dot(u, v + 1, (1.0 - frac1) * frac2 * m, x, y)
    + Dot(u + 1, v + 1, frac1 * frac2 * m, x, y)
  }

  /** The share of an amount at fractional position `u + f` that output index x receives along one axis. */
  function Tent(u: int, f: real, x: int): real
  {
    if x == u then 1.0 - f else if x == u + 1 then f else 0.0
  }

  /** Inside the output axis, the axis weight is the tent around `int(U)`. */
  lemma AxisWeightIsTent(i: int, src: nat, dst: nat, x: int)
    requires 0 <= i < src && 0 <= x < dst
    ensures var U := Coord(i, src, dst);
            AxisWeight(i, src, dst, x) == Tent(U.Floor, U - U.Floor as real, x)
  {
  }

  /** The four updates are the product of the two axes' tents. */
  lemma BilinearIsTents(u: int, v: int, frac1: real, frac2: real, m: real, x: int, y: int)
    ensures Bilinear(u, v, frac1, frac2, m, x, y) == Tent(u, frac1, x) * Tent(v, frac2, y) * m
  {
    if x != u && x != u + 1 {
      assert Tent(u, frac1, x) == 0.0;
    } else if y != v && y != v + 1 {
      assert Tent(v, frac2, y) == 0.0;
    }
  }

  /** The splat of source cell (i, j) is what the four updates of the loop body add. */
  lemma SplatIsBilinear(a: Grid, src: Shape, dst: Shape, i: int, j: int, x: int, y: int)
    requires 0 <= i < src.rows && 0 <= j < src.cols && dst.rows > 0 && dst.cols > 0
    requires 0 <= x < dst.rows && 0 <= y < dst.cols
    ensures var U, V := Coord(i, src.rows, dst.rows), Coord(j, src.cols, dst.cols);
            Splat(a, src, dst, x, y)(i, j)
            == Bilinear(U.Floor, V.Floor, U - U.Floor as real, V - V.Floor as real, At(a, i, j), x, y)
  {
    var U, V := Coord(i, src.rows, dst.rows), Coord(j, src.cols, dst.cols);
    AxisWeightIsTent(i, src.rows, dst.rows, x);
    AxisWeightIsTent(j, src.cols, dst.cols, y);
    BilinearIsTents(U.Floor, V.Floor, U - U.Floor as real, V - V.Floor as real, At(a, i, j), x, y);
    assert Splat(a, src, dst, x, y)(i, j)
        == AxisWeight(i, src.rows, dst.rows, x) * AxisWeight(j, src.cols, dst.cols, y) * At(a, i, j);
  }

  /** One step of the inner loop extends every output cell's partial row sum by the four updates' share. */
  lemma RowStep(a: Grid, src: Shape, dst: Shape, i: int, j: nat)
    requires 0 <= i < src.rows && j < src.cols && dst.rows > 0 && dst.cols > 0
    ensures var U, V := Coord(i, src.rows, dst.rows), Coord(j, src.cols, dst.cols);
            forall x, y :: 0 <= x < dst.rows && 0 <= y < dst.cols ==>
              Sum(j + 1, Row(Splat(a, src, dst, x, y), i))
              == Sum(j, Row(Splat(a, src, dst, x, y), i))
                 + Bilinear(U.Floor, V.Floor, U - U.Floor as real, V - V.Floor as real, At(a, i, j), x, y)
  {
    forall x, y | 0 <= x < dst.rows && 0 <= y < dst.cols {
      SplatIsBilinear(a, src, dst, i, j, x, y);
    }
  }

  /** One `out[p, q] += w`. */
  method Deposit(out: array2<real>, p: int, q: int, w: real)
    requires 0 <= p < out.Length0 && 0 <= q < out.Length1
    modifies out
    ensures forall x, y :: 0 <= x < out.Length0 && 0 <= y < out.Length1 ==>
              out[x, y] == old(out[x, y]) + Dot(p, q, w, x, y)
  {
    out[p, q] := out[p, q] + w;
  }

  /**
   * The four guarded `+=` updates of the loop body: `m` split with weights `1 - frac1` / `frac1`
   * between rows u and u + 1 and `1 - frac2` / `frac2` between columns v and v + 1.
   */
  method SplatFour(out: array2<real>, u: int, v: int, frac1: real, frac2: real, m: real)
    requires 0 <= u < out.Length0 && 0 <= v < out.Length1
    modifies out
    ensures forall x, y :: 0 <= x < out.Length0 && 0 <= y < out.Length1 ==>
              out[x, y] == old(out[x, y]) + Bilinear(u, v, frac1, frac2, m, x, y)
  {
    var X, Y := out.Length0, out.Length1;
    Deposit(out, u, v, (1.0 - frac1) * (1.0 - frac2) * m);
    if u + 1 < X {
      Deposit(out, u + 1, v, frac1 * (1.0 - frac2) * m);
    }
    if v + 1 < Y {
      Deposit(out, u, v + 1, (1.0 - frac1) * frac2 * m);
    }
    if u + 1 < X && v + 1 < Y {
      Deposit(out, u + 1, v + 1, frac1 * frac2 * m);
    }
  }

  /** The inner `for j` loop of `rebin` for source row i. */
  method RebinRow(a: array2<real>, out: array2<real>, i: int)
    requires a != out
    requires 0 <= i < a.Length0
    requires a.Length1 > 0 ==> out.Length0 > 0 && out.Length1 > 0
    modifies out
    ensures forall x, y :: 0 <= x < out.Length0 && 0 <= y < out.Length1 ==>
              out[x, y] == old(out[x, y])
                           + Sum(a.Length1, Row(Splat(Snapshot(a), Shape(a.Length0, a.Length1), Shape(out.Length0, out.Length1), x, y), i))
  {
    var I, J := a.Length0, a.Length1;
    var X, Y := out.Length0, out.Length1;
    ghost var A := Snapshot(a);
    ghost var src, dst := Shape(I, J), Shape(X, Y);
    var j := 0;
    while j < J
      invariant 0 <= j <= J
      invariant forall x, y :: 0 <= x < X && 0 <= y < Y ==>
                  out[x, y] == old(out[x, y]) + Sum(j, Row(Splat(A, src, dst, x, y), i))
    {
      TargetInRange(i, I, X);
      TargetInRange(j, J, Y);
      var U := Coord(i, I, X);
      var V := Coord(j, J, Y);
      var u := U.Floor;
      var v := V.Floor;
      SplatFour(out, u, v, U - u as real, V - v as real, a[i, j]);
      RowStep(A, src, dst, i, j);
      j := j + 1;
    }
  }

  /**
   * `rebin(a, out)`: zeroes `out`, then accumulates every source cell's splat in
   * row-major order. The result depends only on `a` and the shape of `out`.
   */
  method Rebin(a: array2<real>, out: array2<real>)
    requires a != out
    requires a.Length0 > 0 && a.Length1 > 0 ==> out.Length0 > 0 && out.Length1 > 0
    modifies out
    ensures forall x, y :: 0 <= x < out.Length0 && 0 <= y < out.Length1 ==>
              out[x, y] == RebinCell(Snapshot(a), Shape(a.Length0, a.Length1), Shape(out.Length0, out.Length1), x, y)
  {
    var I, J := a.Length0, a.Length1;
    var X, Y := out.Length0, out.Length1;
    ghost var A := Snapshot(a);
    ghost var src, dst := Shape(I, J), Shape(X, Y);
    forall x, y | 0 <= x < X && 0 <= y < Y {
      out[x, y] := 0.0;
    }
    var i := 0;
    while i < I
      invariant 0 <= i <= I
      invariant forall x, y :: 0 <= x < X && 0 <= y < Y ==>
                  out[x, y] == Sum(i, RowSums(J, Splat(A, src, dst, x, y)))
    {
      RebinRow(a, out, i);
      i := i + 1;
    }
  }

  /** Total share of source index i over all `dst` cells of an output axis. */
  function Kept(i: int, src: nat, dst: nat): real
  {
    ColSums(dst, Weights(src, dst))(i)
  }

  /**
   * The two weights of one source index sum to 1; only the part `f` that would go
   * past the last output cell (`u + 1 == X`) is lost.
   */
  lemma KeptShare(i: int, src: nat, dst: nat)
    requires 0 <= i < src && dst > 0
    ensures var U := Coord(i, src, dst);
            Kept(i, src, dst) == if U.Floor + 1 < dst then 1.0 else 1.0 - (U - U.Floor as real)
    ensures 0.0 <= Kept(i, src, dst) <= 1.0
  {
    TargetInRange(i, src, dst);
    var u := Coord(i, src, dst).Floor;
    if u + 1 < dst {
      SumPair(dst, Col(Weights(src, dst), i), u);
    } else {
      SumSingle(dst, Col(Weights(src, dst), i), u);
    }
  }

  /** Each source index keeps between none and all of its value along an axis. */
  lemma KeptUnit(i: int, src: nat, dst: nat)
    requires 0 <= i < src && dst > 0
    ensures 0.0 <= Kept(i, src, dst) <= 1.0
  {
    KeptShare(i, src, dst);
  }

  /** Upsampling an axis: every source index has a right-hand neighbour inside the output. */
  lemma CoordBelowLast(i: int, src: nat, dst: nat)
    requires 0 <= i < src < dst
    ensures Coord(i, src, dst) < (dst - 1) as real
  {
    var U, n, d := Coord(i, src, dst), src as real, dst as real;
    assert U * n == (i as real) * d;
    ScaledBelowLast(i as real, n, d, U);
  }

  /** When the output axis is at least as long as the source axis, nothing is lost. */
  lemma KeptWhole(i: int, src: nat, dst: nat)
    requires 0 <= i < src <= dst
    ensures Kept(i, src, dst) == 1.0
  {
    KeptShare(i, src, dst);
    if src == dst {
      assert Coord(i, src, dst) == i as real;
    } else {
      CoordBelowLast(i, src, dst);
    }
  }

  /** The sum of all output cells after `rebin`. */
  function RebinTotal(a: Grid, src: Shape, dst: Shape): real
  {
    Sum2(dst.rows, dst.cols, (x, y) => RebinCell(a, src, dst, x, y))
  }

  /** The share each source column keeps along the column axis. */
  function ColShares(src: Shape, dst: Shape): int -> real
  {
    j => Kept(j, src.cols, dst.cols)
  }

  /** Row i of `a` with every cell weighted by the share its column keeps. */
  function KeptCols(a: Grid, src: Shape, dst: Shape, i: int): real
  {
    Sum(src.cols, Weighted(ColShares(src, dst), Row(Entries(a), i)))
  }

  /** Row i of `a` with every cell weighted by the shares it keeps along both axes. */
  function KeptMass(a: Grid, src: Shape, dst: Shape): int -> real
  {
    i => Kept(i, src.rows, dst.rows) * KeptCols(a, src, dst, i)
  }

  /**
   * Mass balance of `rebin`: the output total is the input total with each source cell
   * weighted by the shares it keeps along both axes.
   */
  lemma RebinMass(a: Grid, src: Shape, dst: Shape)
    ensures RebinTotal(a, src, dst) == Sum(src.rows, KeptMass(a, src, dst))
  {
    var W, V, A := Weights(src.rows, dst.rows), Weights(src.cols, dst.cols), Entries(a);
    SpreadMass(W, V, A, src.rows, src.cols, dst.rows, dst.cols);
    RebinTotalIsSpread(a, src, dst);
    KeptRowsAgree(a, src, dst);
  }

  /** The output total, written over the generic spread of `a`. */
  lemma RebinTotalIsSpread(a: Grid, src: Shape, dst: Shape)
    ensures RebinTotal(a, src, dst)
         == Sum2(dst.rows, dst.cols, Cells(Weights(src.rows, dst.rows), Weights(src.cols, dst.cols), Entries(a), src.rows, src.cols))
  {
    var W, V, A := Weights(src.rows, dst.rows), Weights(src.cols, dst.cols), Entries(a);
    Sum2Congruent(dst.rows, dst.cols, (x, y) => RebinCell(a, src, dst, x, y), Cells(W, V, A, src.rows, src.cols));
  }

  /** One row of the generic kept-share sum is `KeptCols`. */
  lemma KeptRowAgrees(a: Grid, src: Shape, dst: Shape, i: int)
    ensures KeptRow(Weights(src.cols, dst.cols), Entries(a), src.cols, dst.cols)(i) == KeptCols(a, src, dst, i)
  {
    var V, A := Weights(src.cols, dst.cols), Entries(a);
    SumCongruent(src.cols, j => ColSums(dst.cols, V)(j) * A(i, j), Weighted(ColShares(src, dst), Row(Entries(a), i)));
  }

  /** The generic kept-share sum of `a` is the one stated with `Kept`. */
  lemma KeptRowsAgree(a: Grid, src: Shape, dst: Shape)
    ensures var W, V, A := Weights(src.rows, dst.rows), Weights(src.cols, dst.cols), Entries(a);
            Sum(src.rows, KeptTotal(W, V, A, src.cols, dst.rows, dst.cols))
            == Sum(src.rows, KeptMass(a, src, dst))
  {
    var W, V, A := Weights(src.rows, dst.rows), Weights(src.cols, dst.cols), Entries(a);
    forall i | 0 <= i < src.rows
      ensures KeptTotal(W, V, A, src.cols, dst.rows, dst.cols)(i) == KeptMass(a, src, dst)(i)
    {
      KeptRowAgrees(a, src, dst, i);
      assert KeptMass(a, src, dst)(i) == Kept(i, src.rows, dst.rows) * KeptCols(a, src, dst, i);
    }
    SumCongruent(src.rows, KeptTotal(W, V, A, src.cols, dst.rows, dst.cols), KeptMass(a, src, dst));
  }

  /** A non-negative row keeps at most its own sum along the column axis, and all of it when that axis does not shrink. */
  lemma KeptColsBelow(a: Grid, src: Shape, dst: Shape, i: int)
    requires dst.cols > 0
    requires forall j :: 0 <= j < src.cols ==> 0.0 <= At(a, i, j)
    ensures 0.0 <= KeptCols(a, src, dst, i) <= RowSums(src.cols, Entries(a))(i)
    ensures src.cols <= dst.cols ==> KeptCols(a, src, dst, i) == RowSums(src.cols, Entries(a))(i)
  {
    var w, r := ColShares(src, dst), Row(Entries(a), i);
    forall j | 0 <= j < src.cols
      ensures 0.0 <= w(j) <= 1.0
      ensures src.cols <= dst.cols ==> w(j) == 1.0
    {
      KeptUnit(j, src.cols, dst.cols);
      if src.cols <= dst.cols { KeptWhole(j, src.cols, dst.cols); }
    }
    WeightedBelow(src.cols, w, r);
    if src.cols <= dst.cols {
      SumCongruent(src.cols, Weighted(w, r), r);
    }
  }

  /** A non-negative row keeps at most its own sum, and all of it when no axis shrinks. */
  lemma KeptMassBelowRow(a: Grid, src: Shape, dst: Shape, i: int)
    requires dst.rows > 0 && dst.cols > 0 && 0 <= i < src.rows
    requires forall j :: 0 <= j < src.cols ==> 0.0 <= At(a, i, j)
    ensures KeptMass(a, src, dst)(i) <= RowSums(src.cols, Entries(a))(i)
    ensures src.rows <= dst.rows && src.cols <= dst.cols ==> KeptMass(a, src, dst)(i) == RowSums(src.cols, Entries(a))(i)
  {
    var k, kc := Kept(i, src.rows, dst.rows), KeptCols(a, src, dst, i);
    KeptColsBelow(a, src, dst, i);
    assert KeptMass(a, src, dst)(i) == k * kc;
    assert k * kc <= kc by {
      KeptUnit(i, src.rows, dst.rows);
      MulShrinks(k, kc);
    }
    if src.rows <= dst.rows {
      KeptWhole(i, src.rows, dst.rows);
      assert k * kc == kc;
    }
  }

  /**
   * `rebin` of a non-negative layer never creates mass, and keeps all of it when the
   * output is at least as large as the input along both axes.
   */
  lemma RebinConservesMass(a: Grid, src: Shape, dst: Shape)
    requires dst.rows > 0 && dst.cols > 0
    requires forall i, j :: 0 <= i < src.rows && 0 <= j < src.cols ==> 0.0 <= At(a, i, j)
    ensures RebinTotal(a, src, dst) <= Total(a, src.rows, src.cols)
    ensures src.rows <= dst.rows && src.cols <= dst.cols ==> RebinTotal(a, src, dst) == Total(a, src.rows, src.cols)
  {
    RebinMass(a, src, dst);
    forall i | 0 <= i < src.rows
      ensures KeptMass(a, src, dst)(i) <= RowSums(src.cols, Entries(a))(i)
      ensures src.rows <= dst.rows && src.cols <= dst.cols ==> KeptMass(a, src, dst)(i) == RowSums(src.cols, Entries(a))(i)
    {
      KeptMassBelowRow(a, src, dst, i);
    }
    SumLe(src.rows, KeptMass(a, src, dst), RowSums(src.cols, Entries(a)));
    if src.rows <= dst.rows && src.cols <= dst.cols {
      SumCongruent(src.rows, KeptMass(a, src, dst), RowSums(src.cols, Entries(a)));
    }
  }

  /** `rebin` of a non-negative layer is non-negative. */
  lemma RebinNonNegative(a: Grid, src: Shape, dst: Shape, x: int, y: int)
    requires forall i, j :: 0 <= i < src.rows && 0 <= j < src.cols ==> 0.0 <= At(a, i, j)
    ensures 0.0 <= RebinCell(a, src, dst, x, y)
  {
    forall i, j | 0 <= i < src.rows && 0 <= j < src.cols
      ensures 0.0 <= Splat(a, src, dst, x, y)(i, j)
    {
      var wx, wy := AxisWeight(i, src.rows, dst.rows, x), AxisWeight(j, src.cols, dst.cols, y);
      MulNonNegative(wx, wy);
      MulNonNegative(wx * wy, At(a, i, j));
    }
    Sum2NonNegative(src.rows, src.cols, Splat(a, src, dst, x, y));
  }

  /** On an axis of unchanged length every source index lands entirely on its own cell. */
  lemma SameAxisWeight(i: int, n: nat, x: int)
    requires 0 <= i < n
    ensures AxisWeight(i, n, n, x) == if x == i then 1.0 else 0.0
  {
    assert Coord(i, n, n) == i as real;
  }

  /** Rebinning onto a buffer of the same shape copies the layer. */
  lemma RebinIdentity(a: Grid, s: Shape, x: int, y: int)
    requires 0 <= x < s.rows && 0 <= y < s.cols
    ensures RebinCell(a, s, s, x, y) == At(a, x, y)
  {
    forall i, j | 0 <= i < s.rows && 0 <= j < s.cols
      ensures Splat(a, s, s, x, y)(i, j) == if i == x && j == y then At(a, x, y) else 0.0
    {
      SameAxisWeight(i, s.rows, x);
      SameAxisWeight(j, s.cols, y);
    }
    Sum2Single(s.rows, s.cols, Splat(a, s, s, x, y), x, y);
  }
}
