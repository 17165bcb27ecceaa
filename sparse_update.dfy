/**
 * The sparse step of `train` on the embedding table `encoder.weight`.
 *
 * After the backward pass the gradient of the table is a sparse tensor: a list of
 * (row index, gradient vector) pairs in which one row may occur several times (a token
 * that is both a target and a sampled noise word). The step coalesces it (duplicates
 * summed, rows sorted), adds weight decay `wd * row` once per distinct row, and subtracts
 * `lr` times the result from exactly those rows with `index_add_`.
 */
module SparseUpdate {
  import opened Vectors

  /** One (row index, gradient vector) pair of the sparse gradient. */
  datatype Entry = Entry(row: nat, grad: Vector)

  /** Every gradient vector in g has dimension d. */
  ghost predicate GradDims(g: seq<Entry>, d: nat)
  {
    forall k :: 0 <= k < |g| ==> |g[k].grad| == d
  }

  /** g is a gradient of a table with n rows of dimension d. */
  ghost predicate GradShape(g: seq<Entry>, n: nat, d: nat)
  {
    GradDims(g, d) && forall k :: 0 <= k < |g| ==> g[k].row < n
  }

  /** The row indices of g, in order: the index list the update scatters into. */
  function Rows(g: seq<Entry>): seq<nat>
  {
    seq(|g|, k requires 0 <= k < |g| => g[k].row)
  }

  /** The rows the gradient touches. */
  function RowSet(g: seq<Entry>): set<nat>
  {
    set k | 0 <= k < |g| :: g[k].row
  }

  /** The rows of c are strictly increasing: sorted and free of duplicates. */
  ghost predicate StrictlyIncreasing(c: seq<Entry>)
  {
    forall j, k :: 0 <= j < k < |c| ==> c[j].row < c[k].row
  }

  /** The sum of all gradient vectors that g holds for row i; the zero vector when it holds none. */
  ghost function RowGrad(g: seq<Entry>, i: nat, d: nat): (v: Vector)
    requires GradDims(g, d)
    ensures |v| == d
    decreases |g|
  {
    if g == [] then Zeros(d)
    else if g[0].row == i then Add(g[0].grad, RowGrad(g[1..], i, d))
    else RowGrad(g[1..], i, d)
  }

  /** Merges e into the row-sorted list c: summed into the entry of its row, or placed in order. */
  function Insert(c: seq<Entry>, e: Entry, d: nat): (r: seq<Entry>)
    requires GradDims(c, d) && |e.grad| == d
    ensures GradDims(r, d)
    decreases |c|
  {
    if c == [] then [e]
    else if e.row < c[0].row then [e] + c
    else if e.row == c[0].row then [Entry(e.row, Add(e.grad, c[0].grad))] + c[1..]
    else [c[0]] + Insert(c[1..], e, d)
  }

  /** The sparse gradient's `coalesce()`: one entry per touched row, sorted by row. */
  function Coalesce(g: seq<Entry>, d: nat): (c: seq<Entry>)
    requires GradDims(g, d)
    ensures GradDims(c, d)
    decreases |g|
  {
    if g == [] then [] else Insert(Coalesce(g[1..], d), g[0], d)
  }

  /**
   * The specification of the sparse step: a row the gradient touches becomes
   * `row - lr * (sum of its gradients + wd * row)`; every other row is left as it was.
   */
  ghost function SparseStep(t: seq<Vector>, g: seq<Entry>, lr: real, wd: real, d: nat): (r: seq<Vector>)
    requires Shaped(t, d) && GradShape(g, |t|, d)
    ensures |r| == |t| && Shaped(r, d)
  {
    seq(|t|, j requires 0 <= j < |t| =>
      if j in RowSet(g) then Sub(t[j], Scale(lr, Add(RowGrad(g, j, d), Scale(wd, t[j])))) else t[j])
  }

  /** t after `index_add_` along rows: src[k] is added to row idx[k]; repeated indices accumulate. */
  ghost function IndexAdded(t: seq<Vector>, idx: seq<nat>, src: seq<Vector>, d: nat): (r: seq<Vector>)
    requires Shaped(t, d) && |idx| == |src|
    requires forall k :: 0 <= k < |idx| ==> idx[k] < |t| && |src[k]| == d
    ensures |r| == |t| && Shaped(r, d)
    decreases |idx|
  {
    if idx == [] then t
    else
      var n := |idx| - 1;
      var p := IndexAdded(t, idx[..n], src[..n], d);
      p[idx[n] := Add(p[idx[n]], src[n])]
  }

  /** What the step adds to each coalesced row: `-lr * (grad + wd * row)`. */
  function StepValues(c: seq<Entry>, t: seq<Vector>, lr: real, wd: real, d: nat): (s: seq<Vector>)
    requires GradShape(c, |t|, d) && Shaped(t, d)
    ensures |s| == |c| && forall k :: 0 <= k < |c| ==> |s[k]| == d
  {
    seq(|c|, k requires 0 <= k < |c| => Scale(-lr, Add(c[k].grad, Scale(wd, t[c[k].row]))))
  }

  // ---------------------------------------------------------------------------
  // Coalescing

  lemma {:induction false} RowGradAbsent(g: seq<Entry>, i: nat, d: nat)
    requires GradDims(g, d) && i !in RowSet(g)
    ensures RowGrad(g, i, d) == Zeros(d)
    decreases |g|
  {
    if g != [] {
      assert RowSet(g[1..]) <= RowSet(g) by {
        forall j | j in RowSet(g[1..]) ensures j in RowSet(g) {
          var k :| 0 <= k < |g[1..]| && g[1..][k].row == j;
          assert g[k + 1].row == j;
        }
      }
      assert g[0].row in RowSet(g);
      RowGradAbsent(g[1..], i, d);
    }
  }

  /** Merging e into c adds e's gradient to row e.row and changes no other row's sum. */
  lemma {:induction false} InsertRowGrad(c: seq<Entry>, e: Entry, d: nat, i: nat)
    requires GradDims(c, d) && |e.grad| == d
    ensures RowGrad(Insert(c, e, d), i, d) == if i == e.row then Add(e.grad, RowGrad(c, i, d)) else RowGrad(c, i, d)
    decreases |c|
  {
    var r := Insert(c, e, d);
    if c == [] {
      assert r[1..] == [];
      AddZeros(e.grad);
    } else if e.row < c[0].row {
      assert r[1..] == c;
    } else if e.row == c[0].row {
      assert r[1..] == c[1..];
      if i == e.row {
        AddAssociative(e.grad, c[0].grad, RowGrad(c[1..], i, d));
      }
    } else {
      assert r[1..] == Insert(c[1..], e, d);
      InsertRowGrad(c[1..], e, d, i);
      if i == c[0].row && i != e.row {
      } else if i == e.row {
        assert i != c[0].row;
      }
    }
  }

  lemma RowSetCons(e: Entry, c: seq<Entry>)
    ensures RowSet([e] + c) == {e.row} + RowSet(c)
  {
    var r := [e] + c;
    forall j | j in RowSet(r) ensures j in {e.row} + RowSet(c) {
      var k :| 0 <= k < |r| && r[k].row == j;
      if k > 0 { assert c[k - 1].row == j; }
    }
    forall j | j in RowSet(c) ensures j in RowSet(r) {
      var k :| 0 <= k < |c| && c[k].row == j;
      assert r[k + 1].row == j;
    }
    assert r[0].row == e.row;
  }

  lemma {:induction false} InsertRowSet(c: seq<Entry>, e: Entry, d: nat)
    requires GradDims(c, d) && |e.grad| == d
    ensures RowSet(Insert(c, e, d)) == RowSet(c) + {e.row}
    decreases |c|
  {
    if c == [] {
      RowSetCons(e, []);
    } else {
      assert c == [c[0]] + c[1..];
      RowSetCons(c[0], c[1..]);
      if e.row < c[0].row {
        RowSetCons(e, c);
      } else if e.row == c[0].row {
        RowSetCons(Entry(e.row, Add(e.grad, c[0].grad)), c[1..]);
      } else {
        InsertRowSet(c[1..], e, d);
        RowSetCons(c[0], Insert(c[1..], e, d));
      }
    }
  }

  lemma {:induction false} InsertSorted(c: seq<Entry>, e: Entry, d: nat)
    requires GradDims(c, d) && |e.grad| == d && StrictlyIncreasing(c)
    ensures StrictlyIncreasing(Insert(c, e, d))
    decreases |c|
  {
    if c != [] && e.row > c[0].row {
      var tail := Insert(c[1..], e, d);
      InsertSorted(c[1..], e, d);
      InsertRowSet(c[1..], e, d);
      forall k | 0 <= k < |tail| ensures c[0].row < tail[k].row {
        assert tail[k].row in RowSet(tail);
        if tail[k].row != e.row {
          var m :| 0 <= m < |c[1..]| && c[1..][m].row == tail[k].row;
          assert c[m + 1].row == tail[k].row;
        }
      }
    }
  }

  /**
   * coalesce() keeps rows strictly increasing, touches exactly the rows of g, and gives each
   * row the sum of all of g's gradients for it.
   */
  lemma {:induction false} CoalesceMerges(g: seq<Entry>, d: nat)
    requires GradDims(g, d)
    ensures StrictlyIncreasing(Coalesce(g, d))
    ensures RowSet(Coalesce(g, d)) == RowSet(g)
    ensures forall i :: RowGrad(Coalesce(g, d), i, d) == RowGrad(g, i, d)
    decreases |g|
  {
    if g != [] {
      var c := Coalesce(g[1..], d);
      CoalesceMerges(g[1..], d);
      InsertSorted(c, g[0], d);
      InsertRowSet(c, g[0], d);
      assert g == [g[0]] + g[1..];
      RowSetCons(g[0], g[1..]);
      forall i ensures RowGrad(Coalesce(g, d), i, d) == RowGrad(g, i, d) {
        InsertRowGrad(c, g[0], d, i);
      }
    }
  }

  /** In a coalesced list, the entry of a row holds that row's whole gradient sum. */
  lemma {:induction false} RowGradOfStrict(c: seq<Entry>, d: nat, k: nat)
    requires GradDims(c, d) && StrictlyIncreasing(c) && k < |c|
    ensures RowGrad(c, c[k].row, d) == c[k].grad
    decreases |c|
  {
    if k == 0 {
      assert c[0].row !in RowSet(c[1..]) by {
        forall m | 0 <= m < |c[1..]| ensures c[1..][m].row != c[0].row {
          assert c[m + 1].row > c[0].row;
        }
      }
      RowGradAbsent(c[1..], c[0].row, d);
      AddZeros(c[0].grad);
    } else {
      assert c[0].row < c[k].row;
      assert c[1..][k - 1] == c[k];
      RowGradOfStrict(c[1..], d, k - 1);
    }
  }

  /** A gradient that is already coalesced is left as it is: coalescing is idempotent. */
  lemma {:induction false} CoalesceOfCoalesced(c: seq<Entry>, d: nat)
    requires GradDims(c, d) && StrictlyIncreasing(c)
    ensures Coalesce(c, d) == c
    decreases |c|
  {
    if c != [] {
      CoalesceOfCoalesced(c[1..], d);
      assert Coalesce(c, d) == Insert(c[1..], c[0], d);
      if |c| > 1 {
        assert c[0].row < c[1..][0].row;
      }
    }
  }

  lemma CoalesceIdempotent(g: seq<Entry>, d: nat)
    requires GradDims(g, d)
    ensures Coalesce(Coalesce(g, d), d) == Coalesce(g, d)
  {
    CoalesceMerges(g, d);
    CoalesceOfCoalesced(Coalesce(g, d), d);
  }

  /**
   * Merge-then-decay: the step on g equals the step on g with its duplicate rows summed
   * first, so the decay term is applied once per row however often the row occurs.
   */
  lemma MergeThenDecay(t: seq<Vector>, g: seq<Entry>, lr: real, wd: real, d: nat)
    requires Shaped(t, d) && GradShape(g, |t|, d)
    ensures GradShape(Coalesce(g, d), |t|, d)
    ensures SparseStep(t, Coalesce(g, d), lr, wd, d) == SparseStep(t, g, lr, wd, d)
  {
    var c := Coalesce(g, d);
    CoalesceMerges(g, d);
    forall k | 0 <= k < |c| ensures c[k].row < |t| {
      assert c[k].row in RowSet(c);
      var m :| 0 <= m < |g| && g[m].row == c[k].row;
    }
  }

  // ---------------------------------------------------------------------------
  // index_add_

  /** With distinct indices, index_add_ adds src[k] to row idx[k] and leaves the other rows alone. */
  lemma {:induction false} IndexAddedDistinct(t: seq<Vector>, idx: seq<nat>, src: seq<Vector>, d: nat)
    requires Shaped(t, d) && |idx| == |src|
    requires forall k :: 0 <= k < |idx| ==> idx[k] < |t| && |src[k]| == d
    requires forall j, k :: 0 <= j < k < |idx| ==> idx[j] != idx[k]
    ensures forall i :: 0 <= i < |t| && i !in idx ==> IndexAdded(t, idx, src, d)[i] == t[i]
    ensures forall k :: 0 <= k < |idx| ==> IndexAdded(t, idx, src, d)[idx[k]] == Add(t[idx[k]], src[k])
    decreases |idx|
  {
    if idx != [] {
      var n := |idx| - 1;
      IndexAddedDistinct(t, idx[..n], src[..n], d);
      forall i | 0 <= i < |t| && i !in idx ensures IndexAdded(t, idx, src, d)[i] == t[i] {
        assert i !in idx[..n];
      }
      forall k | 0 <= k < n ensures IndexAdded(t, idx, src, d)[idx[k]] == Add(t[idx[k]], src[k]) {
        assert idx[..n][k] == idx[k] && src[..n][k] == src[k];
      }
      assert idx[n] !in idx[..n];
    }
  }

  /** Coalesce, add the decay, then index_add_ the scaled values: this is the sparse step. */
  lemma SparseUpdateCorrect(t: seq<Vector>, g: seq<Entry>, lr: real, wd: real, d: nat)
    requires Shaped(t, d) && GradShape(g, |t|, d)
    ensures GradShape(Coalesce(g, d), |t|, d)
    ensures IndexAdded(t, Rows(Coalesce(g, d)), StepValues(Coalesce(g, d), t, lr, wd, d), d)
         == SparseStep(t, g, lr, wd, d)
  {
    var c := Coalesce(g, d);
    MergeThenDecay(t, g, lr, wd, d);
    CoalesceMerges(g, d);
    var idx, src := Rows(c), StepValues(c, t, lr, wd, d);
    IndexAddedDistinct(t, idx, src, d);
    var r, s := IndexAdded(t, idx, src, d), SparseStep(t, g, lr, wd, d);
    forall j | 0 <= j < |t| ensures r[j] == s[j] {
      if j in RowSet(g) {
        var k :| 0 <= k < |c| && c[k].row == j;
        assert idx[k] == j;
        RowGradOfStrict(c, d, k);
        AddNegScale(t[j], lr, Add(c[k].grad, Scale(wd, t[j])));
      } else {
        assert j !in idx;
      }
    }
  }

  // ---------------------------------------------------------------------------
  // The in-place update

  /** `index_add_` along the rows of table, in place. */
  method IndexAdd(table: array<Vector>, d: nat, idx: seq<nat>, src: seq<Vector>)
    requires Shaped(table[..], d) && |idx| == |src|
    requires forall k :: 0 <= k < |idx| ==> idx[k] < table.Length && |src[k]| == d
    modifies table
    ensures table[..] == IndexAdded(old(table[..]), idx, src, d)
  {
    ghost var t0 := table[..];
    for k := 0 to |idx|
      invariant table[..] == IndexAdded(t0, idx[..k], src[..k], d)
    {
      assert idx[..k + 1][..k] == idx[..k] && src[..k + 1][..k] == src[..k];
      table[idx[k]] := Add(table[idx[k]], src[k]);
    }
    assert idx[..|idx|] == idx && src[..|src|] == src;
  }

  /**
   * The sparse step of one batch: coalesce the gradient, add `wd * row` to each coalesced
   * row, and `index_add_` `-lr` times the result into the table.
   */
  method ApplySparseUpdate(table: array<Vector>, d: nat, g: seq<Entry>, lr: real, wd: real)
    requires Shaped(table[..], d) && GradShape(g, table.Length, d)
    modifies table
    ensures table[..] == SparseStep(old(table[..]), g, lr, wd, d)
  {
    SparseUpdateCorrect(table[..], g, lr, wd, d);
    var c := Coalesce(g, d);
    var src := StepValues(c, table[..], lr, wd, d);
    IndexAdd(table, d, Rows(c), src);
  }

  // ---------------------------------------------------------------------------
  // A worked batch

  const Row3: Vector := [1.0, 1.0, 1.0, 1.0]

  /** A batch touching rows 3, 7 and 3 again. */
  function ScenarioGrad(): seq<Entry>
  {
    [Entry(3, [0.1, 0.1, 0.1, 0.1]), Entry(7, [0.2, 0.2, 0.2, 0.2]), Entry(3, [0.05, 0.05, 0.05, 0.05])]
  }

  /**
   * Row 3 gets the merged gradient 0.15 plus decay 0.01 once, so with lr 0.5 it becomes 0.92
   * everywhere; row 7 takes its own step; every other row of the 1000 is unchanged.
   */
  lemma SparseScenario(t: seq<Vector>)
    requires |t| == 1000 && Shaped(t, 4) && t[3] == Row3
    ensures GradShape(ScenarioGrad(), |t|, 4)
    ensures SparseStep(t, ScenarioGrad(), 0.5, 0.01, 4)[3] == [0.92, 0.92, 0.92, 0.92]
    ensures SparseStep(t, ScenarioGrad(), 0.5, 0.01, 4)[7]
         == Sub(t[7], Scale(0.5, Add([0.2, 0.2, 0.2, 0.2], Scale(0.01, t[7]))))
    ensures forall j :: 0 <= j < 1000 && j != 3 && j != 7 ==> SparseStep(t, ScenarioGrad(), 0.5, 0.01, 4)[j] == t[j]
  {
    var g := ScenarioGrad();
    assert RowSet(g) == {3, 7} by {
      assert g[0].row == 3 && g[1].row == 7 && g[2].row == 3;
    }
    assert g[1..][1..] == [g[2]];
    assert g[1..][1..][1..] == [];
    var z := Zeros(4);
    assert RowGrad(g, 3, 4) == Add(g[0].grad, Add(g[2].grad, z));
    assert Add(g[0].grad, Add(g[2].grad, z)) == [0.15, 0.15, 0.15, 0.15];
    assert RowGrad(g, 7, 4) == Add(g[1].grad, z);
    AddZeros(g[1].grad);
  }
}
