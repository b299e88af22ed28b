/** Small facts about real multiplication and floors that the solver does not find on its own. */
module Reals {

  lemma MulMono(a: real, b: real, c: real)
    requires a <= b && 0.0 <= c
    ensures a * c <= b * c
  {
  }

  lemma MulDistributes(a: real, b: real, c: real)
    ensures (a - b) * c == a * c - b * c
  {
  }

  lemma MulNonNegative(a: real, b: real)
    requires 0.0 <= a && 0.0 <= b
    ensures 0.0 <= a * b
  {
  }

  /** Fractions over one denominator add up over it. */
  lemma DivAdd(a: real, b: real, d: real)
    requires d != 0.0
    ensures a / d + b / d == (a + b) / d
  {
  }

  /** Scaling a non-negative value by a factor in [0, 1] does not increase it. */
  lemma MulShrinks(a: real, b: real)
    requires 0.0 <= a <= 1.0 && 0.0 <= b
    ensures 0.0 <= a * b <= b
  {
    MulMono(a, 1.0, b);
  }

  /** If u * n == i * d with 0 <= i <= n - 1 < d - 1, then u < d - 1. */
  lemma ScaledBelowLast(i: real, n: real, d: real, u: real)
    requires 0.0 <= i <= n - 1.0 && n < d && 0.0 < n
    requires u * n == i * d
    ensures u < d - 1.0
  {
    MulMono(i, n - 1.0, d);
    MulDistributes(n, 1.0, d);
    MulDistributes(d, 1.0, n);
    assert n * d == d * n;
    if u >= d - 1.0 {
      MulMono(d - 1.0, u, n);
    }
  }

  /** Adding less than one moves the floor up by at most one. */
  lemma FloorOfSmallStep(a: real, f: real)
    requires 0.0 <= f < 1.0
    ensures (a + f).Floor == a.Floor || (a + f).Floor == a.Floor + 1
  {
  }

  /** A number in [0, 1) has floor 0. */
  lemma FloorOfFraction(f: real)
    requires 0.0 <= f < 1.0
    ensures f.Floor == 0
  {
  }
}
