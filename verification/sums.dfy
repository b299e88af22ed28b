/** Finite sums over integer indices, the arithmetic behind every `np.sum` and `+=` loop in the model. */
module Sums {

  /** f(0) + f(1) + ... + f(n - 1). */
  function Sum(n: nat, f: int -> real): real
  {
    if n == 0 then 0.0 else Sum(n - 1, f) + f(n - 1)
  }

  /** The entries of a sequence as a one-index family, 0.0 outside it. */
  function Terms(s: seq<real>): int -> real
  {
    k => if 0 <= k < |s| then s[k] else 0.0
  }

  /** The i-th row of a two-index family. */
  function Row(g: (int, int) -> real, i: int): int -> real
  {
    j => g(i, j)
  }

  /** The j-th column of a two-index family. */
  function Col(g: (int, int) -> real, j: int): int -> real
  {
    i => g(i, j)
  }

  /** Row totals: i maps to g(i, 0) + ... + g(i, m - 1). */
  function RowSums(m: nat, g: (int, int) -> real): int -> real
  {
    i => Sum(m, Row(g, i))
  }

  /** Column totals: j maps to g(0, j) + ... + g(n - 1, j). */
  function ColSums(n: nat, g: (int, int) -> real): int -> real
  {
    j => Sum(n, Col(g, j))
  }

  /** Sum of an n-by-m family, row by row. */
  function Sum2(n: nat, m: nat, g: (int, int) -> real): real
  {
    Sum(n, RowSums(m, g))
  }

  lemma {:induction false} SumZero(n: nat, f: int -> real)
    requires forall k :: 0 <= k < n ==> f(k) == 0.0
    ensures Sum(n, f) == 0.0
  {
    if n > 0 { SumZero(n - 1, f); }
  }

  lemma {:induction false} SumCongruent(n: nat, f: int -> real, g: int -> real)
    requires forall k :: 0 <= k < n ==> f(k) == g(k)
    ensures Sum(n, f) == Sum(n, g)
  {
    if n > 0 { SumCongruent(n - 1, f, g); }
  }

  lemma {:induction false} SumAdd(n: nat, f: int -> real, g: int -> real, h: int -> real)
    requires forall k :: 0 <= k < n ==> h(k) == f(k) + g(k)
    ensures Sum(n, h) == Sum(n, f) + Sum(n, g)
  {
    if n > 0 { SumAdd(n - 1, f, g, h); }
  }

  lemma {:induction false} SumScale(n: nat, c: real, f: int -> real, g: int -> real)
    requires forall k :: 0 <= k < n ==> g(k) == c * f(k)
    ensures Sum(n, g) == c * Sum(n, f)
  {
    if n > 0 { SumScale(n - 1, c, f, g); }
  }

  lemma {:induction false} SumLe(n: nat, f: int -> real, g: int -> real)
    requires forall k :: 0 <= k < n ==> f(k) <= g(k)
    ensures Sum(n, f) <= Sum(n, g)
  {
    if n > 0 { SumLe(n - 1, f, g); }
  }

  lemma {:induction false} SumNonNegative(n: nat, f: int -> real)
    requires forall k :: 0 <= k < n ==> 0.0 <= f(k)
    ensures 0.0 <= Sum(n, f)
  {
    if n > 0 { SumNonNegative(n - 1, f); }
  }

  /** A sum with a single non-zero term is that term. */
  lemma {:induction false} SumSingle(n: nat, f: int -> real, x: int)
    requires 0 <= x < n
    requires forall k :: 0 <= k < n && k != x ==> f(k) == 0.0
    ensures Sum(n, f) == f(x)
  {
    if n - 1 == x {
      SumZero(n - 1, f);
    } else {
      SumSingle(n - 1, f, x);
    }
  }

  /** A sum with two adjacent non-zero terms is their sum. */
  lemma {:induction false} SumPair(n: nat, f: int -> real, x: int)
    requires 0 <= x && x + 1 < n
    requires forall k :: 0 <= k < n && k != x && k != x + 1 ==> f(k) == 0.0
    ensures Sum(n, f) == f(x) + f(x + 1)
  {
    if n - 1 == x + 1 {
      SumSingle(n - 1, f, x);
    } else {
      SumPair(n - 1, f, x);
    }
  }

  /** Each term of a sum of non-negative terms is at most the sum. */
  lemma {:induction false} TermBelowSum(n: nat, f: int -> real, x: int)
    requires 0 <= x < n
    requires forall k :: 0 <= k < n ==> 0.0 <= f(k)
    ensures f(x) <= Sum(n, f)
  {
    SumNonNegative(n - 1, f);
    if x < n - 1 {
      TermBelowSum(n - 1, f, x);
    }
  }

  /** Summing a prefix of non-negative terms gives at most the whole sum. */
  lemma {:induction false} PrefixBelowSum(k: nat, n: nat, f: int -> real)
    requires k <= n
    requires forall t :: 0 <= t < n ==> 0.0 <= f(t)
    ensures Sum(k, f) <= Sum(n, f)
  {
    if k < n {
      PrefixBelowSum(k, n - 1, f);
    }
  }

  /** A telescoping sum of consecutive differences. */
  lemma {:induction false} Telescope(n: nat, a: int -> real, d: int -> real)
    requires forall k :: 0 <= k < n ==> d(k) == a(k + 1) - a(k)
    ensures Sum(n, d) == a(n) - a(0)
  {
    if n > 0 { Telescope(n - 1, a, d); }
  }

  /** The entries of a sequence of consecutive steps add up to the last value less the first. */
  lemma SumOfSteps(d: seq<real>, a: seq<real>)
    requires |a| == |d| + 1
    requires forall k :: 0 <= k < |d| ==> d[k] == a[k + 1] - a[k]
    ensures Sum(|d|, Terms(d)) == a[|d|] - a[0]
  {
    forall k | 0 <= k < |d|
      ensures Terms(d)(k) == Terms(a)(k + 1) - Terms(a)(k)
    {
    }
    Telescope(|d|, Terms(a), Terms(d));
  }

  /** The order of summation of a finite double sum does not matter. */
  lemma {:induction false} SumSwap(n: nat, m: nat, g: (int, int) -> real)
    ensures Sum(n, RowSums(m, g)) == Sum(m, ColSums(n, g))
  {
    if n == 0 {
      SumZero(m, ColSums(0, g));
    } else {
      SumSwap(n - 1, m, g);
      SumAdd(m, ColSums(n - 1, g), Row(g, n - 1), ColSums(n, g));
    }
  }

  /** Double sums of pointwise equal families are equal. */
  lemma Sum2Congruent(n: nat, m: nat, g: (int, int) -> real, h: (int, int) -> real)
    requires forall i, j :: 0 <= i < n && 0 <= j < m ==> g(i, j) == h(i, j)
    ensures Sum2(n, m, g) == Sum2(n, m, h)
  {
    forall i | 0 <= i < n
      ensures RowSums(m, g)(i) == RowSums(m, h)(i)
    {
      SumCongruent(m, Row(g, i), Row(h, i));
    }
    SumCongruent(n, RowSums(m, g), RowSums(m, h));
  }

  /** A double sum of non-negative terms is non-negative. */
  lemma Sum2NonNegative(n: nat, m: nat, g: (int, int) -> real)
    requires forall i, j :: 0 <= i < n && 0 <= j < m ==> 0.0 <= g(i, j)
    ensures 0.0 <= Sum2(n, m, g)
  {
    forall i | 0 <= i < n
      ensures 0.0 <= RowSums(m, g)(i)
    {
      SumNonNegative(m, Row(g, i));
    }
    SumNonNegative(n, RowSums(m, g));
  }

  /** A double sum with one non-zero term is that term. */
  lemma Sum2Single(n: nat, m: nat, g: (int, int) -> real, x: int, y: int)
    requires 0 <= x < n && 0 <= y < m
    requires forall i, j :: 0 <= i < n && 0 <= j < m && (i != x || j != y) ==> g(i, j) == 0.0
    ensures Sum2(n, m, g) == g(x, y)
  {
    forall i | 0 <= i < n && i != x
      ensures RowSums(m, g)(i) == 0.0
    {
      SumZero(m, Row(g, i));
    }
    SumSingle(m, Row(g, x), y);
    SumSingle(n, RowSums(m, g), x);
  }

  /** Scaling every term of a double sum scales the sum. */
  lemma Sum2Scale(n: nat, m: nat, c: real, g: (int, int) -> real, h: (int, int) -> real)
    requires forall i, j :: 0 <= i < n && 0 <= j < m ==> h(i, j) == c * g(i, j)
    ensures Sum2(n, m, h) == c * Sum2(n, m, g)
  {
    forall i | 0 <= i < n
      ensures RowSums(m, h)(i) == c * RowSums(m, g)(i)
    {
      SumScale(m, c, Row(g, i), Row(h, i));
    }
    SumScale(n, c, RowSums(m, g), RowSums(m, h));
  }

  /** A term-by-term bound on double sums. */
  lemma Sum2Le(n: nat, m: nat, g: (int, int) -> real, h: (int, int) -> real)
    requires forall i, j :: 0 <= i < n && 0 <= j < m ==> g(i, j) <= h(i, j)
    ensures Sum2(n, m, g) <= Sum2(n, m, h)
  {
    forall i | 0 <= i < n
      ensures RowSums(m, g)(i) <= RowSums(m, h)(i)
    {
      SumLe(m, Row(g, i), Row(h, i));
    }
    SumLe(n, RowSums(m, g), RowSums(m, h));
  }

  /** Adding two double sums term by term. */
  lemma Sum2Add(n: nat, m: nat, f: (int, int) -> real, g: (int, int) -> real, h: (int, int) -> real)
    requires forall i, j :: 0 <= i < n && 0 <= j < m ==> h(i, j) == f(i, j) + g(i, j)
    ensures Sum2(n, m, h) == Sum2(n, m, f) + Sum2(n, m, g)
  {
    forall i | 0 <= i < n
      ensures RowSums(m, h)(i) == RowSums(m, f)(i) + RowSums(m, g)(i)
    {
      SumAdd(m, Row(f, i), Row(g, i), Row(h, i));
    }
    SumAdd(n, RowSums(m, f), RowSums(m, g), RowSums(m, h));
  }

  /** A double sum of a product of one-index terms factorises. */
  lemma Sum2Product(n: nat, m: nat, f: int -> real, g: int -> real)
    ensures Sum2(n, m, (x, y) => f(x) * g(y)) == Sum(n, f) * Sum(m, g)
  {
    var p := (x, y) => f(x) * g(y);
    forall x | 0 <= x < n
      ensures RowSums(m, p)(x) == Sum(m, g) * f(x)
    {
      SumScale(m, f(x), g, Row(p, x));
    }
    SumScale(n, Sum(m, g), f, RowSums(m, p));
  }
}
