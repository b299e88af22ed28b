/** `ceil_int` of src/tools.py: round a number up to an integer, elementwise on lists and tuples. */
module Rounding {

  /** What `ceil_int` accepts: a number, or a list or tuple of numbers. */
  datatype Data = Number(x: real) | List(xs: seq<real>) | Tuple(xs: seq<real>)

  /** What it returns: an int, or a container of the same kind holding ints. */
  datatype IntData = IntNumber(n: int) | IntList(ns: seq<int>) | IntTuple(ns: seq<int>)

  /** `int(np.ceil(x))`: the least integer that is not below x. */
  function Ceil(x: real): (n: int)
    ensures x <= n as real < x + 1.0
  {
    -((-x).Floor)
  }

  /** The append loop over a list or tuple, rounding each element up in order. */
  function CeilAll(xs: seq<real>): (ns: seq<int>)
    ensures |ns| == |xs|
    ensures forall k :: 0 <= k < |xs| ==> xs[k] <= ns[k] as real < xs[k] + 1.0
  {
    if xs == [] then [] else [Ceil(xs[0])] + CeilAll(xs[1..])
  }

  /** `ceil_int(data)`: containers keep their kind and length, numbers stay numbers. */
  function CeilInt(data: Data): (r: IntData)
    ensures r.IntNumber? <==> data.Number?
    ensures r.IntList? <==> data.List?
    ensures r.IntTuple? <==> data.Tuple?
    ensures data.Number? ==> data.x <= r.n as real < data.x + 1.0
    ensures !data.Number? ==> |r.ns| == |data.xs|
    ensures !data.Number? ==>
              forall k :: 0 <= k < |data.xs| ==> data.xs[k] <= r.ns[k] as real < data.xs[k] + 1.0
  {
    match data
    case Number(x) => IntNumber(Ceil(x))
    case List(xs) => IntList(CeilAll(xs))
    case Tuple(xs) => IntTuple(CeilAll(xs))
  }

  /** The result is the least integer above: no smaller integer also bounds x from above. */
  lemma CeilIsLeast(x: real, m: int)
    requires x <= m as real
    ensures Ceil(x) <= m
  {
  }

  /** The two examples of the docstring: 3.5 gives 4, and (3.5, 4.1) gives (4, 5). */
  lemma CeilIntExamples()
    ensures CeilInt(Number(3.5)) == IntNumber(4)
    ensures CeilInt(Tuple([3.5, 4.1])) == IntTuple([4, 5])
  {
    var r := CeilAll([3.5, 4.1]);
    assert r[0] == 4 && r[1] == 5;
    assert r == [4, 5];
  }
}
