/** Real-valued vectors: one row of the embedding table, or one flattened dense tensor. */
module Vectors {

  type Vector = seq<real>

  function Zeros(d: nat): Vector
  {
    seq(d, _ => 0.0)
  }

  function Add(a: Vector, b: Vector): Vector
    requires |a| == |b|
  {
    seq(|a|, k requires 0 <= k < |a| => a[k] + b[k])
  }

  function Sub(a: Vector, b: Vector): Vector
    requires |a| == |b|
  {
    seq(|a|, k requires 0 <= k < |a| => a[k] - b[k])
  }

  function Scale(c: real, a: Vector): Vector
  {
    seq(|a|, k requires 0 <= k < |a| => c * a[k])
  }

  /** Element-wise division of a tensor by a scalar. */
  function Divide(a: Vector, c: real): (r: Vector)
    requires c != 0.0
    ensures |r| == |a| && forall k :: 0 <= k < |a| ==> r[k] == a[k] / c
  {
    if a == [] then [] else Divide(a[..|a| - 1], c) + [a[|a| - 1] / c]
  }

  /** Every row of t has dimension d. */
  ghost predicate Shaped(t: seq<Vector>, d: nat)
  {
    forall i :: 0 <= i < |t| ==> |t[i]| == d
  }

  lemma AddZeros(a: Vector)
    ensures Add(a, Zeros(|a|)) == a
  {
  }

  lemma AddAssociative(a: Vector, b: Vector, c: Vector)
    requires |a| == |b| == |c|
    ensures Add(Add(a, b), c) == Add(a, Add(b, c))
  {
  }

  /** Adding -c times a vector is subtracting c times it. */
  lemma AddNegScale(a: Vector, c: real, b: Vector)
    requires |a| == |b|
    ensures Add(a, Scale(-c, b)) == Sub(a, Scale(c, b))
  {
  }
}
