/** Two-dimensional images as values: a numpy 2-D array read row by row. */
module Grids {
  import opened Sums

  /** A 2-D array of reals, indexed `g[row][column]`. */
  type Grid = seq<seq<real>>

  /** numpy's `shape` of a 2-D array. */
  datatype Shape = Shape(rows: nat, cols: nat)

  /** g has `rows` rows of `cols` entries each (numpy's `shape == (rows, cols)`). */
  predicate IsGrid(g: Grid, rows: nat, cols: nat)
  {
    |g| == rows && forall i :: 0 <= i < rows ==> |g[i]| == cols
  }

  /** Entry (i, j), or 0.0 outside the grid. */
  function At(g: Grid, i: int, j: int): real
  {
    if 0 <= i < |g| && 0 <= j < |g[i]| then g[i][j] else 0.0
  }

  /** The entries of g as a two-index family. */
  function Entries(g: Grid): (int, int) -> real
  {
    (i, j) => At(g, i, j)
  }

  /** `g.sum()` for a rows-by-cols grid. */
  function Total(g: Grid, rows: nat, cols: nat): real
  {
    Sum2(rows, cols, Entries(g))
  }

  /** The current contents of a 2-D array. */
  function Snapshot(a: array2<real>): (g: Grid)
    reads a
    ensures IsGrid(g, a.Length0, a.Length1)
    ensures forall i, j :: 0 <= i < a.Length0 && 0 <= j < a.Length1 ==> g[i][j] == a[i, j]
  {
    seq(a.Length0, i requires 0 <= i < a.Length0 reads a =>
      seq(a.Length1, j requires 0 <= j < a.Length1 reads a => a[i, j]))
  }

  /** A rows-by-cols grid whose entry (i, j) is f(i, j). */
  function Tabulate(rows: nat, cols: nat, f: (int, int) -> real): (g: Grid)
    ensures IsGrid(g, rows, cols)
    ensures forall i, j :: 0 <= i < rows && 0 <= j < cols ==> g[i][j] == f(i, j)
  {
    seq(rows, i => seq(cols, j => f(i, j)))
  }
}
