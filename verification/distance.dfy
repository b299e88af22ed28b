/**
 * The distance metrics of TMO4CT/algorithm.py and the string that selects one of them
 * in `tone_mapping`. Square roots, powers and float parsing are numpy/Python library
 * calls; they enter the model as function parameters.
 */
module Distance {
  import opened Wrappers

  /** `np.abs`. */
  function Abs(x: real): (r: real)
    ensures 0.0 <= r && (r == x || r == -x)
  {
    if x < 0.0 then -x else x
  }

  /** `distance_manhattan(x, y) = |x| + |y|`. */
  function Manhattan(x: real, y: real): (d: real)
    ensures 0.0 <= d
    ensures d == 0.0 <==> x == 0.0 && y == 0.0
  {
    Abs(x) + Abs(y)
  }

  /** `distance_maximum(x, y) = max(|x|, |y|)`. */
  function Maximum(x: real, y: real): (d: real)
    ensures 0.0 <= d
    ensures d == 0.0 <==> x == 0.0 && y == 0.0
    ensures Abs(x) <= d && Abs(y) <= d && (d == Abs(x) || d == Abs(y))
  {
    if Abs(x) >= Abs(y) then Abs(x) else Abs(y)
  }

  /** The foreign numerics the other two metrics call: `np.sqrt` and `np.power`. */
  datatype Numerics = Numerics(sqrt: real -> real, power: (real, real) -> real)

  /** `distance_eucledian(x, y) = sqrt(x**2 + y**2)`. */
  function Euclidean(x: real, y: real, num: Numerics): real
  {
    num.sqrt(x * x + y * y)
  }

  /** Why `distance_p` cannot produce a value: `1./p` with p = 0 raises ZeroDivisionError. */
  datatype PowerError = ZeroExponent

  /** `distance_p(x, y, p) = (|x|**p + |y|**p) ** (1/p)`. */
  function DistanceP(x: real, y: real, p: real, num: Numerics): (r: Result<real, PowerError>)
    ensures r.Err? <==> p == 0.0
  {
    if p == 0.0 then Err(ZeroExponent)
    else Ok(num.power(num.power(Abs(x), p) + num.power(Abs(y), p), 1.0 / p))
  }

  /** The Chebyshev distance never exceeds the Manhattan distance, which is at most twice it. */
  lemma MaximumBelowManhattan(x: real, y: real)
    ensures Maximum(x, y) <= Manhattan(x, y) <= 2.0 * Maximum(x, y)
  {
  }

  /** All four metrics ignore the sign of either coordinate, whatever the root and power functions are. */
  lemma SignFlips(x: real, y: real, p: real, num: Numerics)
    ensures Manhattan(-x, y) == Manhattan(x, y) && Manhattan(x, -y) == Manhattan(x, y)
    ensures Maximum(-x, y) == Maximum(x, y) && Maximum(x, -y) == Maximum(x, y)
    ensures Euclidean(-x, y, num) == Euclidean(x, y, num) && Euclidean(x, -y, num) == Euclidean(x, y, num)
    ensures DistanceP(-x, y, p, num) == DistanceP(x, y, p, num) && DistanceP(x, -y, p, num) == DistanceP(x, y, p, num)
  {
    assert Abs(-x) == Abs(x) && Abs(-y) == Abs(y);
    assert (-x) * (-x) == x * x && (-y) * (-y) == y * y;
  }

  // ---------------------------------------------------------------------------------
  // Selecting a metric by name.
  // ---------------------------------------------------------------------------------

  /** The metric `tone_mapping` ends up with. */
  datatype Metric = EuclideanMetric | MaximumMetric | ManhattanMetric | PNorm(p: real)

  /** Why the selection fails: the name is none of the three and not a float (`sys.exit(1)`). */
  datatype MetricError = UnrecognizedDistance

  /** `str.lower()` on one character: the ASCII capitals become small letters. */
  function LowerChar(c: char): (d: char)
    ensures 'A' <= c <= 'Z' ==> 'a' <= d <= 'z' && d as int == c as int + 32
    ensures !('A' <= c <= 'Z') ==> d == c
  {
    if 'A' <= c <= 'Z' then (c as int + 32) as char else c
  }

  /** `str.lower()`. */
  function Lower(s: string): (t: string)
    ensures |t| == |s| && forall k :: 0 <= k < |s| ==> t[k] == LowerChar(s[k])
  {
    seq(|s|, k requires 0 <= k < |s| => LowerChar(s[k]))
  }

  /** Lowering twice is lowering once. */
  lemma LowerIdempotent(s: string)
    ensures Lower(Lower(s)) == Lower(s)
  {
    assert forall k :: 0 <= k < |s| ==> LowerChar(LowerChar(s[k])) == LowerChar(s[k]);
  }

  /** `a` starts `b`. */
  predicate IsPrefix(a: string, b: string)
  {
    |a| <= |b| && b[..|a|] == a
  }

  /** Python's `a in b` on strings: a occurs in b as a contiguous run, the empty string in every string. */
  predicate IsSubstring(a: string, b: string)
    decreases |b|
  {
    IsPrefix(a, b) || (|b| > 0 && IsSubstring(a, b[1..]))
  }

  /** a occurs in b starting at index i. */
  predicate OccursAt(a: string, b: string, i: int)
  {
    0 <= i <= |b| - |a| && b[i..i + |a|] == a
  }

  /** `a in b` holds exactly when a occurs in b at some start index. */
  lemma {:induction false} SubstringAt(a: string, b: string)
    ensures IsSubstring(a, b) <==> exists i :: OccursAt(a, b, i)
    decreases |b|
  {
    assert IsPrefix(a, b) <==> OccursAt(a, b, 0);
    if |b| > 0 {
      SubstringAt(a, b[1..]);
      forall i | OccursAt(a, b[1..], i)
        ensures OccursAt(a, b, i + 1)
      {
        assert b[i + 1..i + 1 + |a|] == b[1..][i..i + |a|];
      }
      forall i | OccursAt(a, b, i) && i > 0
        ensures OccursAt(a, b[1..], i - 1)
      {
        assert b[1..][i - 1..i - 1 + |a|] == b[i..i + |a|];
      }
    } else if exists i :: OccursAt(a, b, i) {
      var i :| OccursAt(a, b, i);
      assert i == 0;
    }
  }

  /**
   * The metric selection of `tone_mapping`: the lowered name is compared with
   * 'eucledian' and 'maximum', then tested with `in 'manhattan'`; any other name is
   * handed, as given, to `float`, whose outcome `parse` supplies.
   */
  function SelectMetric(name: string, parse: string -> Option<real>): Result<Metric, MetricError>
  {
    var l := Lower(name);
    if l == "eucledian" then Ok(EuclideanMetric)
    else if l == "maximum" then Ok(MaximumMetric)
    else if IsSubstring(l, "manhattan") then Ok(ManhattanMetric)
    else match parse(name)
      case Some(p) => Ok(PNorm(p))
      case None => Err(UnrecognizedDistance)
  }

  /**
   * The selection ignores letter case: two names that lower to the same string, and that
   * `float` reads alike, select the same metric.
   */
  lemma SelectionIgnoresCase(a: string, b: string, parse: string -> Option<real>)
    requires Lower(a) == Lower(b) && parse(a) == parse(b)
    ensures SelectMetric(a, parse) == SelectMetric(b, parse)
  {
  }

  /** 'eucledian', so spelled, selects the Euclidean metric, whatever `float` does. */
  lemma EucledianSelected(parse: string -> Option<real>)
    ensures SelectMetric("eucledian", parse) == Ok(EuclideanMetric)
  {
    assert Lower("eucledian") == "eucledian";
  }

  /** 'maximum' in any letter case selects the Chebyshev metric. */
  lemma MaximumSelected(parse: string -> Option<real>)
    ensures SelectMetric("Maximum", parse) == Ok(MaximumMetric)
  {
    var l := Lower("Maximum");
    assert l == "maximum";
  }

  /** Every piece of 'manhattan', the empty name included, selects the Manhattan metric. */
  lemma ManhattanPiecesSelected(parse: string -> Option<real>)
    ensures SelectMetric("man", parse) == Ok(ManhattanMetric)
    ensures SelectMetric("", parse) == Ok(ManhattanMetric)
  {
    assert Lower("man") == "man";
    assert IsPrefix("man", "manhattan");
    assert IsPrefix("", "manhattan");
  }

  /**
   * Outside the three names the selection is the float parse: it fails exactly when
   * `float` fails, and otherwise yields the p-norm with the parsed exponent.
   */
  lemma SelectionFallsBackToFloat(name: string, parse: string -> Option<real>)
    requires Lower(name) != "eucledian" && Lower(name) != "maximum" && !IsSubstring(Lower(name), "manhattan")
    ensures SelectMetric(name, parse).Err? <==> parse(name).None?
    ensures parse(name).Some? ==> SelectMetric(name, parse) == Ok(PNorm(parse(name).value))
  {
  }

  /**
   * The intended selection: 'manhattan' compared for equality like the other two names, so
   * that any other name that `float` cannot read is refused.
   */
  function SelectMetricExact(name: string, parse: string -> Option<real>): Result<Metric, MetricError>
  {
    var l := Lower(name);
    if l == "eucledian" then Ok(EuclideanMetric)
    else if l == "maximum" then Ok(MaximumMetric)
    else if l == "manhattan" then Ok(ManhattanMetric)
    else match parse(name)
      case Some(p) => Ok(PNorm(p))
      case None => Err(UnrecognizedDistance)
  }

  /** With the equality test, Manhattan is chosen exactly for the name 'manhattan' in any letter case. */
  lemma ExactSelectsManhattanOnlyByName(name: string, parse: string -> Option<real>)
    ensures SelectMetricExact(name, parse) == Ok(ManhattanMetric) <==> Lower(name) == "manhattan"
  {
  }

  /**
   * As written, the empty name (or 'a', or 'hat') selects Manhattan even when `float`
   * rejects it; the intended selection refuses it.
   */
  lemma EmptyNameSelectsManhattan(parse: string -> Option<real>)
    requires parse("").None?
    ensures SelectMetric("", parse) == Ok(ManhattanMetric)
    ensures SelectMetricExact("", parse) == Err(UnrecognizedDistance)
  {
    assert IsPrefix("", "manhattan");
  }

  /**
   * The name "0" passes the selection, since `float('0')` reads it, but the metric it
   * selects fails at its first call: `distance_p` with p = 0 raises ZeroDivisionError.
   */
  lemma ZeroExponentAcceptedThenFails(parse: string -> Option<real>, x: real, y: real, num: Numerics)
    requires parse("0") == Some(0.0)
    ensures SelectMetric("0", parse) == Ok(PNorm(0.0))
    ensures DistanceP(x, y, 0.0, num) == Err(ZeroExponent)
  {
    assert Lower("0") == "0";
    SubstringAt("0", "manhattan");
    forall i | 0 <= i < |"manhattan"|
      ensures !OccursAt("0", "manhattan", i)
    {
      assert "manhattan"[i..i + 1][0] == "manhattan"[i] != '0';
    }
  }
}
