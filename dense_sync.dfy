/**
 * Averaging of the dense parameters (the NCE bias and the recurrent weights) across the
 * worker group. For each dense tensor in turn every worker takes part in an all-reduce
 * with the sum operator, after which every worker holds the element-wise sum; each then
 * divides its copy by the world size in place.
 *
 * A worker's dense parameters are an array of tensors, each flattened to a vector; the
 * collective is the pure function ReduceSum over the group's copies, one per worker.
 */
module DenseSync {
  import opened Vectors

  /** One worker's dense parameters, in the order of `dense_params`. */
  type DenseParams = seq<Vector>

  /** There is at least one worker, and all hold tensors of the same shapes. */
  ghost predicate SameShape(group: seq<DenseParams>)
  {
    |group| > 0 &&
    (forall w :: 0 <= w < |group| ==> |group[w]| == |group[0]|) &&
    (forall w, p :: 0 <= w < |group| && 0 <= p < |group[0]| ==> |group[w][p]| == |group[0][p]|)
  }

  /** There is at least one worker, and all hold a tensor p of the same length. */
  ghost predicate ColumnShape(group: seq<DenseParams>, p: nat)
  {
    |group| > 0 && p < |group[0]| &&
    forall w :: 0 <= w < |group| ==> p < |group[w]| && |group[w][p]| == |group[0][p]|
  }

  /** The sum over the workers of element k of tensor p. */
  function ColumnSum(group: seq<DenseParams>, p: nat, k: nat): real
    requires forall w :: 0 <= w < |group| ==> p < |group[w]| && k < |group[w][p]|
  {
    if group == [] then 0.0
    else ColumnSum(group[..|group| - 1], p, k) + group[|group| - 1][p][k]
  }

  /** What the sum all-reduce leaves in every worker's copy of tensor p. */
  function ReduceSum(group: seq<DenseParams>, p: nat): (s: Vector)
    requires ColumnShape(group, p)
    ensures |s| == |group[0][p]|
  {
    seq(|group[0][p]|, k requires 0 <= k < |group[0][p]| => ColumnSum(group, p, k))
  }

  /** The element-wise mean over the workers of tensor p. */
  function MeanTensor(group: seq<DenseParams>, p: nat): (m: Vector)
    requires ColumnShape(group, p)
    ensures |m| == |group[0][p]|
    ensures forall k :: 0 <= k < |m| ==> m[k] == ColumnSum(group, p, k) / (|group| as real)
  {
    Divide(ReduceSum(group, p), |group| as real)
  }

  /** Every tensor replaced by its element-wise mean over the workers. */
  ghost function Means(group: seq<DenseParams>): (m: DenseParams)
    requires SameShape(group)
    ensures |m| == |group[0]|
  {
    seq(|group[0]|, p requires 0 <= p < |group[0]| => MeanTensor(group, p))
  }

  /** The group after synchronisation: every worker holds the means. */
  ghost function Averaged(group: seq<DenseParams>): (r: seq<DenseParams>)
    requires SameShape(group)
    ensures |r| == |group|
  {
    seq(|group|, _ => Means(group))
  }

  // ---------------------------------------------------------------------------

  /** A column in which every worker holds x sums to |group| * x. */
  lemma {:induction false} ColumnSumConstant(group: seq<DenseParams>, p: nat, k: nat, x: real)
    requires forall w :: 0 <= w < |group| ==> p < |group[w]| && k < |group[w][p]| && group[w][p][k] == x
    ensures ColumnSum(group, p, k) == (|group| as real) * x
    decreases |group|
  {
    if group != [] {
      ColumnSumConstant(group[..|group| - 1], p, k, x);
    }
  }

  /** The column sum over two groups of workers put side by side is the sum of their column sums. */
  lemma {:induction false} ColumnSumAppend(a: seq<DenseParams>, b: seq<DenseParams>, p: nat, k: nat)
    requires forall w :: 0 <= w < |a| ==> p < |a[w]| && k < |a[w][p]|
    requires forall w :: 0 <= w < |b| ==> p < |b[w]| && k < |b[w][p]|
    ensures ColumnSum(a + b, p, k) == ColumnSum(a, p, k) + ColumnSum(b, p, k)
    decreases |b|
  {
    if b == [] {
      assert a + b == a;
    } else {
      var n := |b| - 1;
      assert (a + b)[..|a| + n] == a + b[..n];
      ColumnSumAppend(a, b[..n], p, k);
    }
  }

  /** After synchronisation all workers hold the same dense parameters, of the original shapes. */
  lemma AveragedAgrees(group: seq<DenseParams>)
    requires SameShape(group)
    ensures SameShape(Averaged(group))
    ensures forall w :: 0 <= w < |group| ==> Averaged(group)[w] == Means(group)
    ensures forall p :: 0 <= p < |group[0]| ==> |Means(group)[p]| == |group[0][p]|
  {
  }

  /** Averaging preserves each column's sum over the workers, so the group's mean is unchanged. */
  lemma AveragedKeepsSum(group: seq<DenseParams>, p: nat, k: nat)
    requires SameShape(group) && p < |group[0]| && k < |group[0][p]|
    ensures SameShape(Averaged(group))
    ensures ColumnSum(Averaged(group), p, k) == ColumnSum(group, p, k)
  {
    var a := Averaged(group);
    AveragedAgrees(group);
    var x := ColumnSum(group, p, k) / (|group| as real);
    assert Means(group)[p][k] == x;
    ColumnSumConstant(a, p, k, x);
  }

  /** Synchronising a group that has just been synchronised changes nothing. */
  lemma AveragedIdempotent(group: seq<DenseParams>)
    requires SameShape(group)
    ensures SameShape(Averaged(group))
    ensures Averaged(Averaged(group)) == Averaged(group)
  {
    var a := Averaged(group);
    AveragedAgrees(group);
    assert Means(a) == Means(group) by {
      forall p | 0 <= p < |group[0]| ensures Means(a)[p] == Means(group)[p] {
        forall k | 0 <= k < |group[0][p]| ensures Means(a)[p][k] == Means(group)[p][k] {
          AveragedKeepsSum(group, p, k);
        }
      }
    }
  }

  /** Two workers holding 10.0 and 20.0 both hold 15.0 afterwards. */
  lemma TwoWorkerScenario()
    ensures SameShape([[[10.0]], [[20.0]]])
    ensures Averaged([[[10.0]], [[20.0]]]) == [[[15.0]], [[15.0]]]
  {
    var g: seq<DenseParams> := [[[10.0]], [[20.0]]];
    assert g[..1][..0] == [];
    assert ColumnSum(g, 0, 0) == 30.0;
    assert ReduceSum(g, 0) == [30.0];
    assert MeanTensor(g, 0) == [15.0];
    assert Means(g) == [[15.0]];
  }

  // ---------------------------------------------------------------------------

  /**
   * One worker's pass over its dense tensors: each is summed over the group by the all-reduce,
   * then divided in place by the world size.
   * The collective sees the whole group's copies, this worker's own (dense, at index rank)
   * among them; each tensor of dense is overwritten in place.
   */
  method SyncDenseParams(dense: array<Vector>, rank: nat, group: seq<DenseParams>)
    requires SameShape(group) && rank < |group| && group[rank] == dense[..]
    modifies dense
    ensures dense[..] == Means(group)
    ensures dense[..] == Averaged(group)[rank]
  {
    var world := |group|;
    for p := 0 to dense.Length
      invariant forall q :: 0 <= q < p ==> dense[q] == MeanTensor(group, q)
      invariant forall q :: p <= q < dense.Length ==> dense[q] == group[rank][q]
    {
      assert ColumnShape(group, p);
      // the sum all-reduce over the group
      var total := ReduceSum(group, p);
      // in-place division by the world size
      dense[p] := Divide(total, world as real);
    }
  }
}
