/**
 * One worker's `train` and `evaluate`.
 *
 * The model's embedding table (shared with the NCE criterion) and its dense parameters are
 * arrays updated in place; `training` is the module's dropout mode and `nce` the criterion's
 * loss switch. The forward and backward passes are not modelled: a training batch supplies
 * the loss and the sparse embedding gradient they produced, and evaluation calls a given
 * forward function with the mode flags in force when it runs.
 */
module Training {
  import opened Wrappers
  import opened Vectors
  import opened SparseUpdate
  import opened Cadence
  import opened DenseSync

  class Model {
    /** The embedding table of the encoder, one row per vocabulary word. */
    const encoder: array<Vector>
    /** The dense parameters: the NCE bias and the recurrent weights, flattened. */
    const dense: array<Vector>
    const dim: nat
    var training: bool
    var nce: bool

    ghost predicate Valid()
      reads this, encoder
    {
      encoder != dense && Shaped(encoder[..], dim)
    }

    constructor(weights: seq<Vector>, params: seq<Vector>, dim: nat, nce: bool)
      requires Shaped(weights, dim)
      ensures Valid() && fresh(encoder) && fresh(dense)
      ensures encoder[..] == weights && dense[..] == params && this.dim == dim
      ensures training && this.nce == nce
    {
      encoder := new Vector[|weights|](i requires 0 <= i < |weights| => weights[i]);
      dense := new Vector[|params|](i requires 0 <= i < |params| => params[i]);
      this.dim := dim;
      training := true;
      this.nce := nce;
    }
  }

  // ---------------------------------------------------------------------------
  // Training

  /** A training batch: the loss of its forward pass and the sparse embedding gradient its backward pass left. */
  datatype Batch = Batch(loss: real, grad: seq<Entry>)

  function Losses(batches: seq<Batch>): (r: seq<real>)
    ensures |r| == |batches|
  {
    seq(|batches|, k requires 0 <= k < |batches| => batches[k].loss)
  }

  ghost predicate BatchesFit(batches: seq<Batch>, n: nat, d: nat)
  {
    forall k :: 0 <= k < |batches| ==> GradShape(batches[k].grad, n, d)
  }

  /** The embedding table after the sparse updates of the first n batches, in order. */
  ghost function SparseSteps(t: seq<Vector>, batches: seq<Batch>, n: nat, lr: real, wd: real, d: nat): (r: seq<Vector>)
    requires Shaped(t, d) && BatchesFit(batches, |t|, d) && n <= |batches|
    ensures |r| == |t| && Shaped(r, d)
  {
    if n == 0 then t
    else SparseStep(SparseSteps(t, batches, n - 1, lr, wd, d), batches[n - 1].grad, lr, wd, d)
  }

  /** Two copies of the dense parameters hold tensors of the same lengths. */
  ghost predicate SameLengths(a: DenseParams, b: DenseParams)
  {
    |a| == |b| && forall p :: 0 <= p < |a| ==> |a[p]| == |b[p]|
  }

  /**
   * The copies the other workers hold at each sync, of the same shapes as this worker's,
   * with room to place this worker at index rank.
   */
  ghost predicate PeersFit(syncPeers: seq<seq<DenseParams>>, rank: nat, own: DenseParams)
  {
    forall j :: 0 <= j < |syncPeers| ==>
      rank <= |syncPeers[j]| && forall w :: 0 <= w < |syncPeers[j]| ==> SameLengths(syncPeers[j][w], own)
  }

  /** The worker group taking part in the collective: the peers with this worker at index rank. */
  function Place(peers: seq<DenseParams>, rank: nat, own: DenseParams): (group: seq<DenseParams>)
    requires rank <= |peers|
    ensures |group| == |peers| + 1 && group[rank] == own
  {
    peers[..rank] + [own] + peers[rank..]
  }

  lemma PlaceShape(peers: seq<DenseParams>, rank: nat, own: DenseParams, d0: DenseParams)
    requires rank <= |peers| && SameLengths(own, d0)
    requires forall w :: 0 <= w < |peers| ==> SameLengths(peers[w], d0)
    ensures SameShape(Place(peers, rank, own))
    ensures SameLengths(Means(Place(peers, rank, own)), d0)
  {
    var group := Place(peers, rank, own);
    assert forall w :: 0 <= w < |group| ==> SameLengths(group[w], d0) by {
      forall w | 0 <= w < |group| ensures SameLengths(group[w], d0) {
        if w < rank {
          assert group[w] == peers[w];
        } else if w > rank {
          assert group[w] == peers[w - 1];
        }
      }
    }
  }

  /** With this worker placed at any rank, each column of the group sums to its own value plus the peers' sum. */
  lemma PlaceColumnSum(peers: seq<DenseParams>, rank: nat, own: DenseParams, p: nat, k: nat)
    requires rank <= |peers| && p < |own| && k < |own[p]|
    requires forall w :: 0 <= w < |peers| ==> p < |peers[w]| && k < |peers[w][p]|
    ensures ColumnSum(Place(peers, rank, own), p, k) == own[p][k] + ColumnSum(peers, p, k)
  {
    var front, back := peers[..rank], peers[rank..];
    assert peers == front + back;
    assert Place(peers, rank, own) == front + ([own] + back);
    ColumnSumAppend(front, back, p, k);
    ColumnSumAppend([own], back, p, k);
    ColumnSumAppend(front, [own] + back, p, k);
    assert [own][..0] == [];
  }

  /**
   * The mean the collective leaves does not depend on where this worker sits in the group:
   * workers that list the group in different orders agree on the result.
   */
  lemma MeansRankFree(peers: seq<DenseParams>, rank1: nat, rank2: nat, own: DenseParams)
    requires rank1 <= |peers| && rank2 <= |peers|
    requires forall w :: 0 <= w < |peers| ==> SameLengths(peers[w], own)
    ensures SameShape(Place(peers, rank1, own)) && SameShape(Place(peers, rank2, own))
    ensures Means(Place(peers, rank1, own)) == Means(Place(peers, rank2, own))
  {
    var g1, g2 := Place(peers, rank1, own), Place(peers, rank2, own);
    PlaceShape(peers, rank1, own, own);
    PlaceShape(peers, rank2, own, own);
    forall q | 0 <= q < |own| ensures MeanTensor(g1, q) == MeanTensor(g2, q) {
      forall k | 0 <= k < |own[q]| ensures ColumnSum(g1, q, k) == ColumnSum(g2, q, k) {
        PlaceColumnSum(peers, rank1, own, q, k);
        PlaceColumnSum(peers, rank2, own, q, k);
      }
      assert ReduceSum(g1, q) == ReduceSum(g2, q);
    }
  }

  /**
   * The SGD step on the dense parameters of batch k: the values the optimizer leaves,
   * given those the batch starts from. The gradient behind it comes from the forward and
   * backward passes, which are not modelled.
   */
  type DenseStep = (nat, DenseParams) -> DenseParams

  /** The optimizer step keeps every dense tensor at its length. */
  ghost predicate StepKeepsShape(denseStep: DenseStep, d0: DenseParams)
  {
    forall k: nat, p: DenseParams {:trigger denseStep(k, p)} :: SameLengths(p, d0) ==> SameLengths(denseStep(k, p), d0)
  }

  /**
   * This worker's dense parameters after the first n batches of an epoch: each batch takes
   * the optimizer step, and a sync batch then averages the stepped values over the group
   * this worker forms with the peers of that sync.
   */
  ghost function DenseAfter(d0: DenseParams, denseStep: DenseStep, syncPeers: seq<seq<DenseParams>>, rank: nat,
                            logInterval: nat, n: nat): (r: DenseParams)
    requires logInterval > 0 && StepKeepsShape(denseStep, d0) && PeersFit(syncPeers, rank, d0)
    requires |SyncSteps(n, logInterval)| <= |syncPeers|
    ensures SameLengths(r, d0)
    decreases n
  {
    if n == 0 then d0
    else
      var prev := DenseAfter(d0, denseStep, syncPeers, rank, logInterval, n - 1);
      var stepped := denseStep(n - 1, prev);
      if IsSyncStep(n - 1, logInterval) then
        var peers := syncPeers[|SyncSteps(n - 1, logInterval)|];
        PlaceShape(peers, rank, stepped, d0);
        Means(Place(peers, rank, stepped))
      else stepped
  }

  /** Overwrites the tensors of a in place with those of s. */
  method Overwrite(a: array<Vector>, s: seq<Vector>)
    requires |s| == a.Length
    modifies a
    ensures a[..] == s
  {
    for p := 0 to a.Length
      invariant forall q :: 0 <= q < p ==> a[q] == s[q]
    {
      a[p] := s[p];
    }
  }

  /**
   * The model updates of batch n: the optimizer step on the dense parameters, the sparse
   * embedding step, then, at a sync, the averaging of the stepped dense parameters over the
   * group this worker forms with its peers.
   */
  method UpdateModel(m: Model, n: nat, grad: seq<Entry>, lr: real, weightDecay: real, denseStep: DenseStep,
                     sync: bool, rank: nat, peers: seq<DenseParams>, ghost d0: DenseParams)
    requires m.Valid() && GradShape(grad, m.encoder.Length, m.dim)
    requires StepKeepsShape(denseStep, d0) && SameLengths(m.dense[..], d0)
    requires sync ==> rank <= |peers| && forall w :: 0 <= w < |peers| ==> SameLengths(peers[w], d0)
    modifies m.encoder, m.dense
    ensures m.Valid()
    ensures m.encoder[..] == SparseStep(old(m.encoder[..]), grad, lr, weightDecay, m.dim)
    ensures sync ==> SameShape(Place(peers, rank, denseStep(n, old(m.dense[..])))) &&
                     m.dense[..] == Means(Place(peers, rank, denseStep(n, old(m.dense[..]))))
    ensures !sync ==> m.dense[..] == denseStep(n, old(m.dense[..]))
  {
    // the optimizer step on the dense parameters
    var stepped := denseStep(n, m.dense[..]);
    Overwrite(m.dense, stepped);
    ApplySparseUpdate(m.encoder, m.dim, grad, lr, weightDecay);
    if sync {
      var group := Place(peers, rank, stepped);
      PlaceShape(peers, rank, stepped, d0);
      SyncDenseParams(m.dense, rank, group);
    }
  }

  /**
   * Where train stands after its first n batches: the embedding table has taken n sparse
   * steps, the dense parameters n optimizer steps with the averaging of each sync so far,
   * and the ledger holds the reports and the running loss.
   */
  ghost predicate Progress(m: Model, e0: seq<Vector>, d0: DenseParams, batches: seq<Batch>, n: nat, lr: real,
                           weightDecay: real, denseStep: DenseStep, logInterval: nat, rank: nat,
                           syncPeers: seq<seq<DenseParams>>, syncs: seq<nat>, reports: seq<real>, start: nat,
                           total: real)
    reads m, m.encoder, m.dense
  {
    m.Valid() && Shaped(e0, m.dim) && |e0| == m.encoder.Length &&
    BatchesFit(batches, m.encoder.Length, m.dim) && n <= |batches| &&
    m.encoder[..] == SparseSteps(e0, batches, n, lr, weightDecay, m.dim) &&
    logInterval > 0 && syncs == SyncSteps(n, logInterval) &&
    |SyncSteps(|batches|, logInterval)| <= |syncPeers| && PeersFit(syncPeers, rank, d0) &&
    Ledger(Losses(batches), n, logInterval, syncs, reports, start, total) &&
    |syncs| <= |syncPeers| && StepKeepsShape(denseStep, d0) &&
    m.dense[..] == DenseAfter(d0, denseStep, syncPeers, rank, logInterval, n)
  }

  /**
   * Batch n of `train`: the model updates, the loss added to the running total, and at a
   * sync step the report of the running loss over log_interval and its reset.
   */
  method TrainBatch(m: Model, batches: seq<Batch>, n: nat, lr: real, weightDecay: real, denseStep: DenseStep,
                    logInterval: nat, rank: nat, syncPeers: seq<seq<DenseParams>>, syncs: seq<nat>,
                    reports: seq<real>, total: real, ghost e0: seq<Vector>, ghost d0: DenseParams, ghost start: nat)
    returns (syncs': seq<nat>, reports': seq<real>, total': real, ghost start': nat)
    requires n < |batches|
    requires Progress(m, e0, d0, batches, n, lr, weightDecay, denseStep, logInterval, rank, syncPeers,
                      syncs, reports, start, total)
    modifies m.encoder, m.dense
    ensures Progress(m, e0, d0, batches, n + 1, lr, weightDecay, denseStep, logInterval, rank, syncPeers,
                     syncs', reports', start', total')
  {
    var sync := n % logInterval == 0 && n > 0;
    var peers: seq<DenseParams> := [];
    if sync {
      SyncStepsGrow(n + 1, |batches|, logInterval);
      peers := syncPeers[|syncs|];
    }
    UpdateModel(m, n, batches[n].grad, lr, weightDecay, denseStep, sync, rank, peers, d0);
    LedgerStep(Losses(batches), n, logInterval, syncs, reports, start, total, sync);
    total' := total + batches[n].loss;
    syncs', reports', start' := syncs, reports, start;
    if sync {
      reports' := reports + [total' / (logInterval as real)];
      syncs' := syncs + [n];
      total' := 0.0;
      start' := n + 1;
    }
  }

  /**
   * One epoch of `train` on this worker: per batch, the optimizer step on the dense
   * parameters, the sparse embedding update, the loss added to the running total, and at
   * each sync step the dense averaging, a report of the running loss over log_interval,
   * and the reset of the running loss. Returns the sync batches and the reported losses.
   */
  method Train(m: Model, batches: seq<Batch>, lr: real, weightDecay: real, denseStep: DenseStep, logInterval: nat,
               nceFlag: bool, rank: nat, syncPeers: seq<seq<DenseParams>>)
    returns (syncs: seq<nat>, reports: seq<real>)
    requires m.Valid() && logInterval > 0
    requires BatchesFit(batches, m.encoder.Length, m.dim) && StepKeepsShape(denseStep, m.dense[..])
    requires |syncPeers| == |SyncSteps(|batches|, logInterval)| && PeersFit(syncPeers, rank, m.dense[..])
    modifies m, m.encoder, m.dense
    ensures m.Valid() && m.training && m.nce == nceFlag
    ensures m.encoder[..] == SparseSteps(old(m.encoder[..]), batches, |batches|, lr, weightDecay, m.dim)
    ensures syncs == SyncSteps(|batches|, logInterval)
    ensures m.dense[..] == DenseAfter(old(m.dense[..]), denseStep, syncPeers, rank, logInterval, |batches|)
    ensures |reports| == |syncs|
    ensures SyncsBefore(syncs, |batches|)
    ensures forall j {:trigger reports[j]} :: 0 <= j < |syncs| ==>
      reports[j] == ReportedLoss(Losses(batches), syncs, j, logInterval)
  {
    ghost var e0 := m.encoder[..];
    ghost var d0 := m.dense[..];
    m.training := true;
    m.nce := nceFlag;
    var total := 0.0;
    syncs, reports := [], [];
    ghost var start: nat := 0;
    assert Losses(batches)[0..0] == [];
    for n := 0 to |batches|
      invariant m.training && m.nce == nceFlag
      invariant Progress(m, e0, d0, batches, n, lr, weightDecay, denseStep, logInterval, rank, syncPeers,
                         syncs, reports, start, total)
    {
      syncs, reports, total, start := TrainBatch(m, batches, n, lr, weightDecay, denseStep, logInterval, rank,
                                                 syncPeers, syncs, reports, total, e0, d0, start);
    }
    LedgerReports(Losses(batches), |batches|, logInterval, syncs, reports, start, total);
  }

  // ---------------------------------------------------------------------------
  // Evaluation

  /** An evaluation batch: its tokens and the length of each of its sentences. */
  datatype EvalBatch = EvalBatch(tokens: seq<seq<nat>>, lengths: seq<nat>)

  datatype EvalError = ZeroDivision

  /** The sum of a sequence of counts: the total length over the batches, or the word count of one batch. */
  function TotalLength(lengths: seq<nat>): nat
  {
    if lengths == [] then 0 else TotalLength(lengths[..|lengths| - 1]) + lengths[|lengths| - 1]
  }

  /** The number of target words in each batch: the sum of its sentence lengths. */
  function Lengths(stream: seq<EvalBatch>): (r: seq<nat>)
    ensures |r| == |stream|
  {
    seq(|stream|, k requires 0 <= k < |stream| => TotalLength(stream[k].lengths))
  }

  /** The loss the forward pass returns for every batch, under the given modes. */
  function EvalLosses(stream: seq<EvalBatch>, forward: (EvalBatch, bool, bool) -> real, training: bool, nce: bool): (r: seq<real>)
    ensures |r| == |stream|
  {
    seq(|stream|, k requires 0 <= k < |stream| => forward(stream[k], training, nce))
  }

  /** The evaluation loss: the sum of every batch's loss weighted by its length. */
  function WeightedLoss(losses: seq<real>, lengths: seq<nat>): real
    requires |losses| == |lengths|
  {
    if losses == [] then 0.0
    else WeightedLoss(losses[..|losses| - 1], lengths[..|lengths| - 1]) + losses[|losses| - 1] * (lengths[|lengths| - 1] as real)
  }

  /**
   * `evaluate`: switch to evaluation mode and the full-softmax loss, accumulate the
   * length-weighted loss and the length, switch the NCE loss back on, and return the
   * exponential of the per-word loss. An empty total length is Python's ZeroDivisionError,
   * raised after the NCE flag has been restored; the training mode is not restored.
   */
  method Evaluate(m: Model, stream: seq<EvalBatch>, forward: (EvalBatch, bool, bool) -> real, exp: real -> real)
    returns (r: Result<real, EvalError>)
    requires m.Valid()
    modifies m
    ensures m.Valid() && !m.training && m.nce
    ensures TotalLength(Lengths(stream)) == 0 <==> r == Failure(ZeroDivision)
    ensures TotalLength(Lengths(stream)) != 0 ==>
      r == Success(exp(WeightedLoss(EvalLosses(stream, forward, false, false), Lengths(stream)) /
                       (TotalLength(Lengths(stream)) as real)))
  {
    ghost var losses := EvalLosses(stream, forward, false, false);
    ghost var lengths := Lengths(stream);
    m.training := false;
    m.nce := false;
    var evalLoss := 0.0;
    var totalLength := 0;
    for i := 0 to |stream|
      invariant !m.training && !m.nce
      invariant evalLoss == WeightedLoss(losses[..i], lengths[..i])
      invariant totalLength == TotalLength(lengths[..i])
    {
      assert losses[..i + 1][..i] == losses[..i];
      assert lengths[..i + 1][..i] == lengths[..i];
      var loss := forward(stream[i], m.training, m.nce);
      var curLength := TotalLength(stream[i].lengths);
      evalLoss := evalLoss + loss * (curLength as real);
      totalLength := totalLength + curLength;
    }
    assert losses[..|stream|] == losses && lengths[..|stream|] == lengths;
    m.nce := true;
    if totalLength == 0 {
      r := Failure(ZeroDivision);
    } else {
      r := Success(exp(evalLoss / (totalLength as real)));
    }
  }

  // ---------------------------------------------------------------------------

  /** Evaluating a stream in two parts and adding the partial sums gives the same totals. */
  lemma {:induction false} EvaluationSplits(xs: seq<real>, ls: seq<nat>, ys: seq<real>, ms: seq<nat>)
    requires |xs| == |ls| && |ys| == |ms|
    ensures TotalLength(ls + ms) == TotalLength(ls) + TotalLength(ms)
    ensures WeightedLoss(xs + ys, ls + ms) == WeightedLoss(xs, ls) + WeightedLoss(ys, ms)
    decreases |ys|
  {
    if ys == [] {
      assert xs + ys == xs && ls + ms == ls;
    } else {
      var n := |ys|;
      assert (xs + ys)[..|xs| + n - 1] == xs + ys[..n - 1];
      assert (ls + ms)[..|ls| + n - 1] == ls + ms[..n - 1];
      EvaluationSplits(xs, ls, ys[..n - 1], ms[..n - 1]);
    }
  }

  lemma ScaleMonotone(a: real, b: real, c: real)
    requires a <= b && 0.0 <= c
    ensures a * c <= b * c
  {
  }

  /** If every batch's loss is at least lo, the length-weighted loss is at least lo per word. */
  lemma {:induction false} WeightedLossAtLeast(losses: seq<real>, lengths: seq<nat>, lo: real)
    requires |losses| == |lengths|
    requires forall k :: 0 <= k < |losses| ==> lo <= losses[k]
    ensures lo * (TotalLength(lengths) as real) <= WeightedLoss(losses, lengths)
    decreases |losses|
  {
    if losses != [] {
      var n := |losses|;
      WeightedLossAtLeast(losses[..n - 1], lengths[..n - 1], lo);
      ScaleMonotone(lo, losses[n - 1], lengths[n - 1] as real);
    }
  }

  /** If every batch's loss is at most hi, the length-weighted loss is at most hi per word. */
  lemma {:induction false} WeightedLossAtMost(losses: seq<real>, lengths: seq<nat>, hi: real)
    requires |losses| == |lengths|
    requires forall k :: 0 <= k < |losses| ==> losses[k] <= hi
    ensures WeightedLoss(losses, lengths) <= hi * (TotalLength(lengths) as real)
    decreases |losses|
  {
    if losses != [] {
      var n := |losses|;
      WeightedLossAtMost(losses[..n - 1], lengths[..n - 1], hi);
      ScaleMonotone(losses[n - 1], hi, lengths[n - 1] as real);
    }
  }

  lemma ScaledBounds(lo: real, hi: real, w: real, t: real)
    requires t > 0.0 && lo * t <= w <= hi * t
    ensures lo <= w / t <= hi
  {
    var q := w / t;
    assert q * t == w;
  }

  /**
   * With a non-empty stream whose every batch loss (in evaluation mode) lies in [lo, hi],
   * the per-word loss that evaluate exponentiates lies in [lo, hi] too.
   */
  lemma MeanLossBounds(stream: seq<EvalBatch>, forward: (EvalBatch, bool, bool) -> real, lo: real, hi: real)
    requires forall k :: 0 <= k < |stream| ==> lo <= forward(stream[k], false, false) <= hi
    requires TotalLength(Lengths(stream)) != 0
    ensures lo <= WeightedLoss(EvalLosses(stream, forward, false, false), Lengths(stream)) /
                  (TotalLength(Lengths(stream)) as real) <= hi
  {
    var losses := EvalLosses(stream, forward, false, false);
    var lengths := Lengths(stream);
    WeightedLossAtLeast(losses, lengths, lo);
    WeightedLossAtMost(losses, lengths, hi);
    ScaledBounds(lo, hi, WeightedLoss(losses, lengths), TotalLength(lengths) as real);
  }
}
