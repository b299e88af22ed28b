/**
 * Double sums of separably weighted families: the bookkeeping behind the mass balance
 * of bilinear splatting, stated for arbitrary weights.
 */
module Separable {
  import opened Sums
  import opened Reals

  /** Source entry (i, j) of `A` weighted by `W(x, i)` along rows and `V(y, j)` along columns. */
  function Spread(W: (int, int) -> real, V: (int, int) -> real, A: (int, int) -> real, x: int, y: int): (int, int) -> real
  {
    (i, j) => W(x, i) * V(y, j) * A(i, j)
  }

  /** Row i of `A` weighted along columns for target column y. */
  function Pass(V: (int, int) -> real, A: (int, int) -> real, m: nat, y: int): int -> real
  {
    i => Sum(m, j => V(y, j) * A(i, j))
  }

  /** Row i of the column pass, summed over all target columns. */
  function PassTotal(V: (int, int) -> real, A: (int, int) -> real, m: nat, q: nat): int -> real
  {
    i => Sum(q, y => Pass(V, A, m, y)(i))
  }

  /** Row i of `A` weighted by the total column weight of each entry. */
  function KeptRow(V: (int, int) -> real, A: (int, int) -> real, m: nat, q: nat): int -> real
  {
    i => Sum(m, j => ColSums(q, V)(j) * A(i, j))
  }

  /** Row i of `A` weighted by the total row weight of i and the total column weight of each entry. */
  function KeptTotal(W: (int, int) -> real, V: (int, int) -> real, A: (int, int) -> real, m: nat, p: nat, q: nat): int -> real
  {
    i => ColSums(p, W)(i) * KeptRow(V, A, m, q)(i)
  }

  /** For target row x: entry (y, i) is source row i's column pass for target column y, weighted by `W(x, i)`. */
  function Passes(W: (int, int) -> real, V: (int, int) -> real, A: (int, int) -> real, m: nat, x: int): (int, int) -> real
  {
    (y, i) => W(x, i) * Pass(V, A, m, y)(i)
  }

  /** Entry (x, i) is source row i's total column pass, weighted by `W(x, i)`. */
  function Totals(W: (int, int) -> real, V: (int, int) -> real, A: (int, int) -> real, m: nat, q: nat): (int, int) -> real
  {
    (x, i) => W(x, i) * PassTotal(V, A, m, q)(i)
  }

  /** Entry (x, y) is everything the n-by-m source sends to target (x, y). */
  function Cells(W: (int, int) -> real, V: (int, int) -> real, A: (int, int) -> real, n: nat, m: nat): (int, int) -> real
  {
    (x, y) => Sum2(n, m, Spread(W, V, A, x, y))
  }

  /** One weighted double sum is a row-weighted sum of column passes. */
  lemma SpreadSeparates(W: (int, int) -> real, V: (int, int) -> real, A: (int, int) -> real, n: nat, m: nat, x: int, y: int)
    ensures Sum2(n, m, Spread(W, V, A, x, y)) == RowSums(n, Passes(W, V, A, m, x))(y)
  {
    var S, g := Spread(W, V, A, x, y), Passes(W, V, A, m, x);
    forall i | 0 <= i < n
      ensures RowSums(m, S)(i) == Row(g, y)(i)
    {
      SumScale(m, W(x, i), j => V(y, j) * A(i, j), Row(S, i));
      assert Row(g, y)(i) == W(x, i) * Pass(V, A, m, y)(i);
    }
    SumCongruent(n, RowSums(m, S), Row(g, y));
  }

  /** Row i of `A` against every target column: entry (y, j) is `V(y, j) * A(i, j)`. */
  function Fixed(V: (int, int) -> real, A: (int, int) -> real, i: int): (int, int) -> real
  {
    (y, j) => V(y, j) * A(i, j)
  }

  /** The column pass of row i, summed over target columns, is a sum of `Fixed` rows. */
  lemma PassTotalAsRows(V: (int, int) -> real, A: (int, int) -> real, m: nat, q: nat, i: int)
    ensures PassTotal(V, A, m, q)(i) == Sum(q, RowSums(m, Fixed(V, A, i)))
  {
    var g := Fixed(V, A, i);
    forall y | 0 <= y < q
      ensures RowSums(m, g)(y) == Pass(V, A, m, y)(i)
    {
      SumCongruent(m, Row(g, y), j => V(y, j) * A(i, j));
    }
    SumCongruent(q, RowSums(m, g), y => Pass(V, A, m, y)(i));
  }

  /** The kept row i is a sum of `Fixed` columns. */
  lemma KeptRowAsCols(V: (int, int) -> real, A: (int, int) -> real, m: nat, q: nat, i: int)
    ensures KeptRow(V, A, m, q)(i) == Sum(m, ColSums(q, Fixed(V, A, i)))
  {
    var g := Fixed(V, A, i);
    forall j | 0 <= j < m
      ensures ColSums(q, g)(j) == ColSums(q, V)(j) * A(i, j)
    {
      SumScale(q, A(i, j), Col(V, j), Col(g, j));
    }
    SumCongruent(m, ColSums(q, g), j => ColSums(q, V)(j) * A(i, j));
  }

  /** Summing the column pass over all target columns leaves each entry weighted by its column total. */
  lemma PassTotalIsKept(V: (int, int) -> real, A: (int, int) -> real, m: nat, q: nat, i: int)
    ensures PassTotal(V, A, m, q)(i) == KeptRow(V, A, m, q)(i)
  {
    PassTotalAsRows(V, A, m, q, i);
    KeptRowAsCols(V, A, m, q, i);
    SumSwap(q, m, Fixed(V, A, i));
  }

  /** One target row x of the weighted family, summed over its q target columns. */
  lemma TargetRowTotal(W: (int, int) -> real, V: (int, int) -> real, A: (int, int) -> real, n: nat, m: nat, q: nat, x: int)
    ensures RowSums(q, Cells(W, V, A, n, m))(x) == RowSums(n, Totals(W, V, A, m, q))(x)
  {
    var g := Passes(W, V, A, m, x);
    forall y | 0 <= y < q
      ensures Row(Cells(W, V, A, n, m), x)(y) == RowSums(n, g)(y)
    {
      SpreadSeparates(W, V, A, n, m, x, y);
    }
    SumCongruent(q, Row(Cells(W, V, A, n, m), x), RowSums(n, g));
    SumSwap(q, n, g);
    forall i | 0 <= i < n
      ensures ColSums(q, g)(i) == Row(Totals(W, V, A, m, q), x)(i)
    {
      SumScale(q, W(x, i), y => Pass(V, A, m, y)(i), Col(g, i));
    }
    SumCongruent(n, ColSums(q, g), Row(Totals(W, V, A, m, q), x));
  }

  /**
   * Mass balance of a separable spread: the p-by-q total of all targets equals the n-by-m
   * source total with each entry weighted by its row and column weight totals.
   */
  lemma SpreadMass(W: (int, int) -> real, V: (int, int) -> real, A: (int, int) -> real, n: nat, m: nat, p: nat, q: nat)
    ensures Sum2(p, q, Cells(W, V, A, n, m)) == Sum(n, KeptTotal(W, V, A, m, p, q))
  {
    var h := Totals(W, V, A, m, q);
    forall x | 0 <= x < p
      ensures RowSums(q, Cells(W, V, A, n, m))(x) == RowSums(n, h)(x)
    {
      TargetRowTotal(W, V, A, n, m, q, x);
    }
    SumCongruent(p, RowSums(q, Cells(W, V, A, n, m)), RowSums(n, h));
    SumSwap(p, n, h);
    forall i | 0 <= i < n
      ensures ColSums(p, h)(i) == KeptTotal(W, V, A, m, p, q)(i)
    {
      SumScale(p, PassTotal(V, A, m, q)(i), Col(W, i), Col(h, i));
      PassTotalIsKept(V, A, m, q, i);
    }
    SumCongruent(n, ColSums(p, h), KeptTotal(W, V, A, m, p, q));
  }

  /** Term k of f scaled by w(k). */
  function Weighted(w: int -> real, f: int -> real): int -> real
  {
    k => w(k) * f(k)
  }

  /** Weighting non-negative terms by factors in [0, 1] keeps their sum between 0 and its unweighted value. */
  lemma {:induction false} WeightedBelow(n: nat, w: int -> real, f: int -> real)
    requires forall k :: 0 <= k < n ==> 0.0 <= w(k) <= 1.0 && 0.0 <= f(k)
    ensures 0.0 <= Sum(n, Weighted(w, f)) <= Sum(n, f)
  {
    if n > 0 {
      WeightedBelow(n - 1, w, f);
      var k := n - 1;
      var a, b := w(k), f(k);
      assert 0.0 <= a <= 1.0 && 0.0 <= b;
      MulShrinks(a, b);
      assert Weighted(w, f)(k) == a * b;
    }
  }
}
