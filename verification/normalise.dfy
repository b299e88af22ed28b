/**
 * The contrast-limit normalisation and the cumulative distribution of `tone_mapping` in
 * TMO4CT/algorithm.py. Each pixel owns a column of the histogram volume, one entry per
 * grey level. The column is divided by its sum, clipped at GAIN / L (L levels), the
 * clipped mass is spread back evenly over all levels, and the running sum along the
 * levels, divided by its last entry, is the pixel's CDF.
 */
module Normalise {
  import opened Sums
  import opened Reals

  // ---------------------------------------------------------------------------------
  // One column, as values.
  // ---------------------------------------------------------------------------------

  /** `np.sum` of a column. */
  function ColSum(s: seq<real>): real
  {
    Sum(|s|, Terms(s))
  }

  /** `np.minimum(a, b)` on two numbers. */
  function Min(a: real, b: real): (m: real)
    ensures m <= a && m <= b && (m == a || m == b)
  {
    if a <= b then a else b
  }

  /** Every entry divided by t. */
  function Scaled(s: seq<real>, t: real): (r: seq<real>)
    requires t != 0.0
    ensures |r| == |s|
  {
    seq(|s|, k requires 0 <= k < |s| => s[k] / t)
  }

  /** `np.minimum(s, clip)`. */
  function Clipped(s: seq<real>, clip: real): (r: seq<real>)
    ensures |r| == |s|
  {
    seq(|s|, k requires 0 <= k < |s| => Min(s[k], clip))
  }

  /** Every entry raised by a. */
  function Shifted(s: seq<real>, a: real): (r: seq<real>)
    ensures |r| == |s|
  {
    seq(|s|, k requires 0 <= k < |s| => s[k] + a)
  }

  /** `np.cumsum`: entry k is the sum of entries 0 .. k. */
  function CumSum(s: seq<real>): (r: seq<real>)
    ensures |r| == |s|
  {
    seq(|s|, k requires 0 <= k < |s| => Sum(k + 1, Terms(s)))
  }

  /** `CLIP = GAIN / L`. */
  function Clip(gain: real, levels: nat): real
    requires levels > 0
  {
    gain / levels as real
  }

  /** The column after the division by its sum and the `np.minimum` with CLIP. */
  function Limited(s: seq<real>, gain: real): (r: seq<real>)
    requires |s| > 0 && ColSum(s) != 0.0
    ensures |r| == |s|
  {
    Clipped(Scaled(s, ColSum(s)), Clip(gain, |s|))
  }

  /** `s = (1 - np.sum(test, axis=0)) / L`: the clipped-off mass, shared evenly. */
  function Share(c: seq<real>): real
    requires |c| > 0
  {
    (1.0 - ColSum(c)) / |c| as real
  }

  /** The column after `test = test + s`. */
  function Redistributed(s: seq<real>, gain: real): (r: seq<real>)
    requires |s| > 0 && ColSum(s) != 0.0
    ensures |r| == |s|
  {
    var c := Limited(s, gain);
    Shifted(c, Share(c))
  }

  /** The pixel's CDF: the cumulative sum divided by its last entry (`cdf /= norm_factors`). */
  function Cdf(s: seq<real>, gain: real): (r: seq<real>)
    requires |s| > 0 && ColSum(s) != 0.0
    ensures |r| == |s|
  {
    var c := CumSum(Redistributed(s, gain));
    RedistributedSumsToOne(s, gain);
    CumSumLast(Redistributed(s, gain));
    Scaled(c, c[|c| - 1])
  }

  // ---------------------------------------------------------------------------------
  // Properties of one column.
  // ---------------------------------------------------------------------------------

  /** Dividing every entry by t divides the sum by t. */
  lemma ScaledSum(s: seq<real>, t: real)
    requires t != 0.0
    ensures ColSum(Scaled(s, t)) == ColSum(s) / t
  {
    SumScale(|s|, 1.0 / t, Terms(s), Terms(Scaled(s, t)));
  }

  /** After `test /= np.sum(test, axis=0)` the column sums to one. */
  lemma NormalisedSumsToOne(s: seq<real>)
    requires ColSum(s) != 0.0
    ensures ColSum(Scaled(s, ColSum(s))) == 1.0
  {
    ScaledSum(s, ColSum(s));
    assert ColSum(s) / ColSum(s) == 1.0;
  }

  /** Raising every entry by a raises the sum by L a. */
  lemma ShiftedSum(s: seq<real>, a: real)
    ensures ColSum(Shifted(s, a)) == ColSum(s) + |s| as real * a
  {
    var ones := (k: int) => a;
    SumAdd(|s|, Terms(s), ones, Terms(Shifted(s, a)));
    ConstantSum(|s|, a);
  }

  /** n copies of a add up to n a. */
  lemma {:induction false} ConstantSum(n: nat, a: real)
    ensures Sum(n, (k: int) => a) == n as real * a
  {
    if n > 0 {
      var f := (k: int) => a;
      ConstantSum(n - 1, a);
      assert Sum(n, f) == Sum(n - 1, f) + a;
      assert (n - 1) as real * a + a == n as real * a;
    }
  }

  /** Clipping keeps every entry at or below CLIP and at or below where it was, so the sum does not grow. */
  lemma ClippedBelow(s: seq<real>, clip: real)
    ensures forall k :: 0 <= k < |s| ==> Clipped(s, clip)[k] <= clip && Clipped(s, clip)[k] <= s[k]
    ensures ColSum(Clipped(s, clip)) <= ColSum(s)
  {
    SumLe(|s|, Terms(Clipped(s, clip)), Terms(s));
  }

  /**
   * The clipped-off share is never negative, and adding it back gives every column the
   * sum one again.
   */
  lemma RedistributedSumsToOne(s: seq<real>, gain: real)
    requires |s| > 0 && ColSum(s) != 0.0
    ensures 0.0 <= Share(Limited(s, gain))
    ensures ColSum(Redistributed(s, gain)) == 1.0
  {
    var p := Scaled(s, ColSum(s));
    var c := Limited(s, gain);
    NormalisedSumsToOne(s);
    ClippedBelow(p, Clip(gain, |s|));
    ShiftedSum(c, Share(c));
  }

  /** The last entry of the running sum is the whole sum. */
  lemma CumSumLast(s: seq<real>)
    requires |s| > 0
    ensures CumSum(s)[|s| - 1] == ColSum(s)
  {
  }

  /** The running sum of non-negative entries never decreases and stays between 0 and the total. */
  lemma CumSumMonotone(s: seq<real>)
    requires forall k :: 0 <= k < |s| ==> 0.0 <= s[k]
    ensures forall k :: 0 <= k < |s| ==> 0.0 <= CumSum(s)[k] <= ColSum(s)
    ensures forall i, j :: 0 <= i <= j < |s| ==> CumSum(s)[i] <= CumSum(s)[j]
  {
    forall i, j | 0 <= i <= j < |s|
      ensures CumSum(s)[i] <= CumSum(s)[j]
    {
      PrefixBelowSum(i + 1, j + 1, Terms(s));
    }
    forall k | 0 <= k < |s|
      ensures 0.0 <= CumSum(s)[k] <= ColSum(s)
    {
      SumNonNegative(k + 1, Terms(s));
      PrefixBelowSum(k + 1, |s|, Terms(s));
    }
  }

  /** The entries of a non-negative column, divided by its positive sum, lie in [0, 1]. */
  lemma NormalisedUnit(s: seq<real>)
    requires forall k :: 0 <= k < |s| ==> 0.0 <= s[k]
    requires ColSum(s) != 0.0
    ensures 0.0 < ColSum(s)
    ensures forall k :: 0 <= k < |s| ==> 0.0 <= Scaled(s, ColSum(s))[k] <= 1.0
  {
    SumNonNegative(|s|, Terms(s));
    forall k | 0 <= k < |s|
      ensures 0.0 <= Scaled(s, ColSum(s))[k] <= 1.0
    {
      TermBelowSum(|s|, Terms(s), k);
    }
  }

  /** With CLIP at least one nothing is clipped: the share is zero and the column is just normalised. */
  lemma NoClipForLargeGain(s: seq<real>, gain: real)
    requires |s| > 0 && ColSum(s) != 0.0
    requires forall k :: 0 <= k < |s| ==> 0.0 <= s[k]
    requires Clip(gain, |s|) >= 1.0
    ensures Limited(s, gain) == Scaled(s, ColSum(s))
    ensures Share(Limited(s, gain)) == 0.0
    ensures Redistributed(s, gain) == Scaled(s, ColSum(s))
  {
    NormalisedUnit(s);
    var p := Scaled(s, ColSum(s));
    assert Limited(s, gain) == p;
    NormalisedSumsToOne(s);
    assert Redistributed(s, gain) == p;
  }

  /** With GAIN at most zero every entry is clipped to CLIP, and every level gets the same 1 / L. */
  lemma UniformForNonPositiveGain(s: seq<real>, gain: real)
    requires |s| > 0 && ColSum(s) != 0.0
    requires forall k :: 0 <= k < |s| ==> 0.0 <= s[k]
    requires gain <= 0.0
    ensures forall k :: 0 <= k < |s| ==> Redistributed(s, gain)[k] == 1.0 / |s| as real
  {
    var L := |s| as real;
    var clip := Clip(gain, |s|);
    var c := Limited(s, gain);
    AllClipped(s, gain);
    ConstantColumn(c, clip);
    assert ColSum(c) == gain by {
      assert L * (gain / L) == gain;
    }
    DivAdd(gain, 1.0 - gain, L);
  }

  /** With GAIN at most zero, CLIP is below every normalised entry, so all of them are cut to it. */
  lemma AllClipped(s: seq<real>, gain: real)
    requires |s| > 0 && ColSum(s) != 0.0
    requires forall k :: 0 <= k < |s| ==> 0.0 <= s[k]
    requires gain <= 0.0
    ensures forall k :: 0 <= k < |s| ==> Limited(s, gain)[k] == Clip(gain, |s|)
  {
    NormalisedUnit(s);
  }

  /** A column whose entries all equal a sums to L a. */
  lemma ConstantColumn(c: seq<real>, a: real)
    requires forall k :: 0 <= k < |c| ==> c[k] == a
    ensures ColSum(c) == |c| as real * a
  {
    SumCongruent(|c|, Terms(c), (k: int) => a);
    ConstantSum(|c|, a);
  }

  /** A non-negative column stays non-negative through clipping and redistribution. */
  lemma RedistributedNonNegative(s: seq<real>, gain: real)
    requires |s| > 0 && ColSum(s) != 0.0
    requires forall k :: 0 <= k < |s| ==> 0.0 <= s[k]
    ensures forall k :: 0 <= k < |s| ==> 0.0 <= Redistributed(s, gain)[k]
  {
    if gain <= 0.0 {
      UniformForNonPositiveGain(s, gain);
    } else {
      NormalisedUnit(s);
      RedistributedSumsToOne(s, gain);
    }
  }

  /**
   * The CDF of a non-negative column: it never decreases along the levels, every value
   * lies in [0, 1], and the last one is exactly 1.
   */
  lemma CdfShape(s: seq<real>, gain: real)
    requires |s| > 0 && ColSum(s) != 0.0
    requires forall k :: 0 <= k < |s| ==> 0.0 <= s[k]
    ensures Cdf(s, gain)[|s| - 1] == 1.0
    ensures forall k :: 0 <= k < |s| ==> 0.0 <= Cdf(s, gain)[k] <= 1.0
    ensures forall i, j :: 0 <= i <= j < |s| ==> Cdf(s, gain)[i] <= Cdf(s, gain)[j]
  {
    var r := Redistributed(s, gain);
    RedistributedNonNegative(s, gain);
    RedistributedSumsToOne(s, gain);
    CumSumLast(r);
    CumSumMonotone(r);
    assert Cdf(s, gain) == CumSum(r);
  }

  // ---------------------------------------------------------------------------------
  // The volume-wide steps, in place on the histogram volume.
  // ---------------------------------------------------------------------------------

  /** Column (x, y) of a volume: the entries of pixel (x, y) at every level. */
  function Column(a: array3<real>, x: int, y: int): (c: seq<real>)
    reads a
    requires 0 <= x < a.Length1 && 0 <= y < a.Length2
    ensures |c| == a.Length0 && forall v :: 0 <= v < a.Length0 ==> c[v] == a[v, x, y]
  {
    seq(a.Length0, v requires 0 <= v < a.Length0 reads a => a[v, x, y])
  }

  /** The sum of column (x, y). */
  method ColumnSum(a: array3<real>, x: int, y: int) returns (t: real)
    requires 0 <= x < a.Length1 && 0 <= y < a.Length2
    ensures t == ColSum(Column(a, x, y))
  {
    ghost var c := Column(a, x, y);
    t := 0.0;
    var v := 0;
    while v < a.Length0
      invariant 0 <= v <= a.Length0
      invariant t == Sum(v, Terms(c))
    {
      t := t + a[v, x, y];
      v := v + 1;
    }
  }

  /** `np.sum(a, axis=0)`: a fresh array of the column sums. */
  method ColumnSums(a: array3<real>) returns (sums: array2<real>)
    ensures fresh(sums) && sums.Length0 == a.Length1 && sums.Length1 == a.Length2
    ensures forall x, y :: 0 <= x < a.Length1 && 0 <= y < a.Length2 ==> sums[x, y] == ColSum(Column(a, x, y))
  {
    sums := new real[a.Length1, a.Length2];
    var x := 0;
    while x < a.Length1
      invariant 0 <= x <= a.Length1
      invariant forall i, j :: 0 <= i < x && 0 <= j < a.Length2 ==> sums[i, j] == ColSum(Column(a, i, j))
    {
      var y := 0;
      while y < a.Length2
        invariant 0 <= y <= a.Length2
        invariant forall i, j :: ((0 <= i < x && 0 <= j < a.Length2) || (i == x && 0 <= j < y)) ==>
                    sums[i, j] == ColSum(Column(a, i, j))
      {
        sums[x, y] := ColumnSum(a, x, y);
        y := y + 1;
      }
      x := x + 1;
    }
  }

  /** `a /= d[None, :, :]`: every column divided by its own divisor. */
  method DivideColumns(a: array3<real>, d: array2<real>)
    requires d.Length0 == a.Length1 && d.Length1 == a.Length2
    requires forall x, y :: 0 <= x < d.Length0 && 0 <= y < d.Length1 ==> d[x, y] != 0.0
    modifies a
    ensures forall v, x, y :: 0 <= v < a.Length0 && 0 <= x < a.Length1 && 0 <= y < a.Length2 ==>
              a[v, x, y] == old(a[v, x, y]) / d[x, y]
  {
    forall v, x, y | 0 <= v < a.Length0 && 0 <= x < a.Length1 && 0 <= y < a.Length2 {
      a[v, x, y] := a[v, x, y] / d[x, y];
    }
  }

  /** `np.minimum(a, clip, out=a)`. */
  method ClipAll(a: array3<real>, clip: real)
    modifies a
    ensures forall v, x, y :: 0 <= v < a.Length0 && 0 <= x < a.Length1 && 0 <= y < a.Length2 ==>
              a[v, x, y] == Min(old(a[v, x, y]), clip)
  {
    forall v, x, y | 0 <= v < a.Length0 && 0 <= x < a.Length1 && 0 <= y < a.Length2 {
      a[v, x, y] := Min(a[v, x, y], clip);
    }
  }

  /** `a + s[None, :, :]`: every entry of column (x, y) raised by s[x, y]. */
  method AddShares(a: array3<real>, s: array2<real>)
    requires s.Length0 == a.Length1 && s.Length1 == a.Length2
    modifies a
    ensures forall v, x, y :: 0 <= v < a.Length0 && 0 <= x < a.Length1 && 0 <= y < a.Length2 ==>
              a[v, x, y] == old(a[v, x, y]) + s[x, y]
  {
    forall v, x, y | 0 <= v < a.Length0 && 0 <= x < a.Length1 && 0 <= y < a.Length2 {
      a[v, x, y] := a[v, x, y] + s[x, y];
    }
  }

  /** `test /= np.sum(test, axis=0)` followed by `np.minimum(test, CLIP, out=test)`. */
  method LimitVolume(test: array3<real>, gain: real)
    requires test.Length0 > 0
    requires forall x, y :: 0 <= x < test.Length1 && 0 <= y < test.Length2 ==> ColSum(Column(test, x, y)) != 0.0
    modifies test
    ensures forall x, y :: 0 <= x < test.Length1 && 0 <= y < test.Length2 ==>
              Column(test, x, y) == Limited(old(Column(test, x, y)), gain)
  {
    var sums := ColumnSums(test);
    DivideColumns(test, sums);
    ClipAll(test, gain / test.Length0 as real);
    forall x, y | 0 <= x < test.Length1 && 0 <= y < test.Length2
      ensures Column(test, x, y) == Limited(old(Column(test, x, y)), gain)
    {
      assert forall v :: 0 <= v < test.Length0 ==> Column(test, x, y)[v] == Limited(old(Column(test, x, y)), gain)[v];
    }
  }

  /** `s = (1 - np.sum(test, axis=0)) / L` and `test = test + s`. */
  method ShareOut(test: array3<real>)
    requires test.Length0 > 0
    modifies test
    ensures forall x, y :: 0 <= x < test.Length1 && 0 <= y < test.Length2 ==>
              Column(test, x, y) == Shifted(old(Column(test, x, y)), Share(old(Column(test, x, y))))
  {
    var sums := ColumnSums(test);
    var shares := new real[test.Length1, test.Length2];
    forall x, y | 0 <= x < test.Length1 && 0 <= y < test.Length2 {
      shares[x, y] := (1.0 - sums[x, y]) / test.Length0 as real;
    }
    AddShares(test, shares);
    forall x, y | 0 <= x < test.Length1 && 0 <= y < test.Length2
      ensures Column(test, x, y) == Shifted(old(Column(test, x, y)), Share(old(Column(test, x, y))))
    {
      assert forall v :: 0 <= v < test.Length0 ==>
        Column(test, x, y)[v] == Shifted(old(Column(test, x, y)), Share(old(Column(test, x, y))))[v];
    }
  }

  /** The contrast limit on the whole volume: every column becomes its redistributed form. */
  method Redistribute(test: array3<real>, gain: real)
    requires test.Length0 > 0
    requires forall x, y :: 0 <= x < test.Length1 && 0 <= y < test.Length2 ==> ColSum(Column(test, x, y)) != 0.0
    modifies test
    ensures forall x, y :: 0 <= x < test.Length1 && 0 <= y < test.Length2 ==>
              Column(test, x, y) == Redistributed(old(Column(test, x, y)), gain)
  {
    LimitVolume(test, gain);
    ShareOut(test);
  }

  /** `np.cumsum(a, axis=0)`: a fresh volume of running sums along the levels. */
  method CumulativeSum(a: array3<real>) returns (cdf: array3<real>)
    ensures fresh(cdf) && cdf.Length0 == a.Length0 && cdf.Length1 == a.Length1 && cdf.Length2 == a.Length2
    ensures forall v, x, y :: 0 <= v < a.Length0 && 0 <= x < a.Length1 && 0 <= y < a.Length2 ==>
              cdf[v, x, y] == CumSum(Column(a, x, y))[v]
  {
    cdf := new real[a.Length0, a.Length1, a.Length2];
    var v := 0;
    while v < a.Length0
      invariant 0 <= v <= a.Length0
      invariant forall u, x, y :: 0 <= u < v && 0 <= x < a.Length1 && 0 <= y < a.Length2 ==>
                  cdf[u, x, y] == CumSum(Column(a, x, y))[u]
    {
      forall x, y | 0 <= x < a.Length1 && 0 <= y < a.Length2
        ensures CumSum(Column(a, x, y))[v] == (if v == 0 then 0.0 else CumSum(Column(a, x, y))[v - 1]) + a[v, x, y]
      {
        var c := Column(a, x, y);
        assert CumSum(c)[v] == Sum(v + 1, Terms(c));
        assert Sum(v + 1, Terms(c)) == Sum(v, Terms(c)) + Terms(c)(v);
        assert Terms(c)(v) == c[v];
        if v > 0 {
          assert CumSum(c)[v - 1] == Sum(v, Terms(c));
        }
      }
      forall x, y | 0 <= x < a.Length1 && 0 <= y < a.Length2 {
        cdf[v, x, y] := (if v == 0 then 0.0 else cdf[v - 1, x, y]) + a[v, x, y];
      }
      v := v + 1;
    }
  }

  /** `norm_factors = cdf[-1, :, :]`: a fresh copy of the last slice. */
  method LastSlice(a: array3<real>) returns (last: array2<real>)
    requires a.Length0 > 0
    ensures fresh(last) && last.Length0 == a.Length1 && last.Length1 == a.Length2
    ensures forall x, y :: 0 <= x < a.Length1 && 0 <= y < a.Length2 ==> last[x, y] == a[a.Length0 - 1, x, y]
  {
    last := new real[a.Length1, a.Length2];
    forall x, y | 0 <= x < a.Length1 && 0 <= y < a.Length2 {
      last[x, y] := a[a.Length0 - 1, x, y];
    }
  }

  /**
   * Lines `CLIP = GAIN / L` to `cdf /= norm_factors` of `tone_mapping`: every pixel's
   * column of the volume becomes that pixel's CDF over the levels.
   */
  method NormaliseVolume(test: array3<real>, gain: real) returns (cdf: array3<real>)
    requires test.Length0 > 0
    requires forall x, y :: 0 <= x < test.Length1 && 0 <= y < test.Length2 ==> ColSum(Column(test, x, y)) != 0.0
    modifies test
    ensures fresh(cdf) && cdf.Length0 == test.Length0 && cdf.Length1 == test.Length1 && cdf.Length2 == test.Length2
    ensures forall v, x, y :: 0 <= v < test.Length0 && 0 <= x < test.Length1 && 0 <= y < test.Length2 ==>
              cdf[v, x, y] == Cdf(old(Column(test, x, y)), gain)[v]
  {
    Redistribute(test, gain);
    cdf := CumulativeSum(test);
    var top := test.Length0 - 1;
    forall x, y | 0 <= x < test.Length1 && 0 <= y < test.Length2
      ensures cdf[top, x, y] == 1.0
    {
      RedistributedSumsToOne(old(Column(test, x, y)), gain);
      CumSumLast(Column(test, x, y));
    }
    var last := LastSlice(cdf);
    DivideColumns(cdf, last);
  }
}
