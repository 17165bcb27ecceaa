/**
 * When `train` synchronises: batch n of an epoch closes a logging interval when
 * its number is a positive multiple of log_interval. At those batches the dense parameters are averaged
 * across the workers, the running loss divided by `log_interval` is reported, and the
 * running loss is reset to zero.
 */
module Cadence {

  /** Batch n closes an interval. */
  predicate IsSyncStep(n: nat, logInterval: nat)
    requires logInterval > 0
  {
    n % logInterval == 0 && n > 0
  }

  /** The batches among the first n at which train synchronises, in order. */
  function SyncSteps(n: nat, logInterval: nat): (r: seq<nat>)
    requires logInterval > 0
    ensures |r| <= n
  {
    if n == 0 then []
    else SyncSteps(n - 1, logInterval) + (if IsSyncStep(n - 1, logInterval) then [n - 1] else [])
  }

  function Sum(xs: seq<real>): real
  {
    if xs == [] then 0.0 else Sum(xs[..|xs| - 1]) + xs[|xs| - 1]
  }

  /** Extending a window of losses by one adds that loss to its sum. */
  lemma SumExtend(xs: seq<real>, start: nat, n: nat)
    requires start <= n < |xs|
    ensures Sum(xs[start..n + 1]) == Sum(xs[start..n]) + xs[n]
  {
    assert xs[start..n + 1][..n - start] == xs[start..n];
  }

  /** The first batch whose loss enters report j: the one after the previous sync. */
  function IntervalStart(syncs: seq<nat>, j: nat): nat
    requires j <= |syncs|
  {
    if j == 0 then 0 else syncs[j - 1] + 1
  }

  /** Report j: the losses accumulated since the previous sync, up to and including sync j, over log_interval. */
  ghost function ReportedLoss(losses: seq<real>, syncs: seq<nat>, j: nat, logInterval: nat): real
    requires j < |syncs| && logInterval > 0
    requires IntervalStart(syncs, j) <= syncs[j] < |losses|
  {
    Sum(losses[IntervalStart(syncs, j)..syncs[j] + 1]) / (logInterval as real)
  }

  /** The syncs so far are in increasing order and lie among the first n batches. */
  ghost predicate SyncsBefore(syncs: seq<nat>, n: nat)
  {
    (forall i, j :: 0 <= i < j < |syncs| ==> syncs[i] < syncs[j]) &&
    (forall j :: 0 <= j < |syncs| ==> syncs[j] < n)
  }

  /**
   * The logging state of train after its first n batches: the syncs so far with their
   * reports, the first batch of the open interval, and the running loss over that interval.
   */
  ghost predicate Ledger(losses: seq<real>, n: nat, logInterval: nat, syncs: seq<nat>, reports: seq<real>,
                         start: nat, total: real)
  {
    logInterval > 0 && n <= |losses| &&
    start == IntervalStart(syncs, |syncs|) && start <= n &&
    total == Sum(losses[start..n]) &&
    |reports| == |syncs| && SyncsBefore(syncs, n) &&
    forall j {:trigger reports[j]} :: 0 <= j < |syncs| ==> reports[j] == ReportedLoss(losses, syncs, j, logInterval)
  }

  /** What a ledger says about its reports. */
  lemma LedgerReports(losses: seq<real>, n: nat, logInterval: nat, syncs: seq<nat>, reports: seq<real>,
                      start: nat, total: real)
    requires Ledger(losses, n, logInterval, syncs, reports, start, total)
    ensures |reports| == |syncs| && logInterval > 0 && SyncsBefore(syncs, |losses|)
    ensures forall j {:trigger reports[j]} :: 0 <= j < |syncs| ==> reports[j] == ReportedLoss(losses, syncs, j, logInterval)
  {
  }

  /** Appending a sync leaves the earlier reports' intervals as they were. */
  lemma ReportedLossAppend(losses: seq<real>, syncs: seq<nat>, n: nat, j: nat, logInterval: nat)
    requires j < |syncs| && logInterval > 0
    requires IntervalStart(syncs, j) <= syncs[j] < |losses|
    ensures IntervalStart(syncs + [n], j) == IntervalStart(syncs, j) && (syncs + [n])[j] == syncs[j]
    ensures ReportedLoss(losses, syncs + [n], j, logInterval) == ReportedLoss(losses, syncs, j, logInterval)
  {
  }

  /** The report made at sync batch n covers the open interval, which then closes. */
  lemma LedgerSync(losses: seq<real>, n: nat, logInterval: nat, syncs: seq<nat>, reports: seq<real>,
                   start: nat, total: real)
    requires Ledger(losses, n, logInterval, syncs, reports, start, total) && n < |losses|
    ensures Ledger(losses, n + 1, logInterval, syncs + [n], reports + [(total + losses[n]) / (logInterval as real)],
                   n + 1, 0.0)
  {
    SumExtend(losses, start, n);
    var syncs' := syncs + [n];
    var reports' := reports + [(total + losses[n]) / (logInterval as real)];
    assert losses[n + 1..n + 1] == [];
    assert IntervalStart(syncs', |syncs|) == start;
    forall j {:trigger reports'[j]} | 0 <= j < |syncs|
      ensures reports'[j] == ReportedLoss(losses, syncs', j, logInterval)
    {
      var r := reports[j];
      assert reports'[j] == r;
      ReportedLossAppend(losses, syncs, n, j, logInterval);
    }
  }

  /** Batch n adds its loss to the running total; at a sync it also reports and resets it. */
  lemma LedgerStep(losses: seq<real>, n: nat, logInterval: nat, syncs: seq<nat>, reports: seq<real>,
                   start: nat, total: real, sync: bool)
    requires Ledger(losses, n, logInterval, syncs, reports, start, total) && n < |losses|
    ensures var total' := total + losses[n];
      if sync
      then Ledger(losses, n + 1, logInterval, syncs + [n], reports + [total' / (logInterval as real)], n + 1, 0.0)
      else Ledger(losses, n + 1, logInterval, syncs, reports, start, total')
  {
    if sync {
      LedgerSync(losses, n, logInterval, syncs, reports, start, total);
    } else {
      SumExtend(losses, start, n);
    }
  }

  // ---------------------------------------------------------------------------

  /** Euclidean division has unique quotient and remainder. */
  lemma DivUnique(a: nat, l: nat, q: nat, r: nat)
    requires l > 0 && a == q * l + r && r < l
    ensures a / l == q && a % l == r
  {
    var q', r' := a / l, a % l;
    assert a == q' * l + r';
    if q' > q {
      assert q' * l >= (q + 1) * l by { MulMono(q + 1, q', l); }
    } else if q' < q {
      assert q * l >= (q' + 1) * l by { MulMono(q' + 1, q, l); }
    }
  }

  lemma MulMono(a: nat, b: nat, c: nat)
    requires a <= b
    ensures a * c <= b * c
  {
  }

  /** Going from n - 1 to n, the quotient by l grows by one exactly when l divides n. */
  lemma DivStep(n: nat, l: nat)
    requires n > 0 && l > 0
    ensures n % l == 0 ==> n / l == (n - 1) / l + 1 && n == (n / l) * l
    ensures n % l != 0 ==> n / l == (n - 1) / l
  {
    var q, r := (n - 1) / l, (n - 1) % l;
    assert n - 1 == q * l + r;
    if r + 1 == l {
      DivUnique(n, l, q + 1, 0);
    } else {
      DivUnique(n, l, q, r + 1);
    }
  }

  /**
   * Over n batches train synchronises (n - 1) / log_interval times, never at batch 0, and
   * sync j happens at batch (j + 1) * log_interval.
   */
  lemma {:induction false} SyncStepsClosedForm(n: nat, logInterval: nat)
    requires logInterval > 0
    ensures |SyncSteps(n, logInterval)| == if n == 0 then 0 else (n - 1) / logInterval
    ensures forall j :: 0 <= j < |SyncSteps(n, logInterval)| ==> SyncSteps(n, logInterval)[j] == (j + 1) * logInterval
  {
    if n > 0 {
      var prev := SyncSteps(n - 1, logInterval);
      SyncStepsClosedForm(n - 1, logInterval);
      if n - 1 > 0 {
        DivStep(n - 1, logInterval);
        assert |prev| == (n - 2) / logInterval;
      } else {
        assert |prev| == 0;
      }
      assert IsSyncStep(n - 1, logInterval) ==> (n - 1) / logInterval == |prev| + 1;
      assert !IsSyncStep(n - 1, logInterval) ==> (n - 1) / logInterval == |prev|;
    }
  }

  /** Batch m is a sync of the first n batches exactly when m < n and the cadence fires at m. */
  lemma {:induction false} SyncStepsMembers(n: nat, logInterval: nat)
    requires logInterval > 0
    ensures forall m: nat :: m in SyncSteps(n, logInterval) <==> m < n && IsSyncStep(m, logInterval)
  {
    if n > 0 {
      SyncStepsMembers(n - 1, logInterval);
    }
  }

  /** A longer epoch has at least as many syncs. */
  lemma {:induction false} SyncStepsGrow(n: nat, total: nat, logInterval: nat)
    requires logInterval > 0 && n <= total
    ensures |SyncSteps(n, logInterval)| <= |SyncSteps(total, logInterval)|
    decreases total
  {
    if n < total {
      SyncStepsGrow(n, total - 1, logInterval);
    }
  }

  /**
   * The running loss is reset only at syncs, so the first report covers batches
   * 0 .. log_interval (log_interval + 1 losses) while every later report covers exactly
   * log_interval losses, though each is divided by log_interval.
   */
  lemma IntervalLengths(n: nat, logInterval: nat)
    requires logInterval > 0
    ensures var syncs := SyncSteps(n, logInterval);
      forall j :: 0 <= j < |syncs| ==>
        IntervalStart(syncs, j) <= syncs[j] < n &&
        syncs[j] + 1 - IntervalStart(syncs, j) == if j == 0 then logInterval + 1 else logInterval
  {
    var syncs := SyncSteps(n, logInterval);
    SyncStepsClosedForm(n, logInterval);
    SyncStepsMembers(n, logInterval);
    forall j | 0 <= j < |syncs|
      ensures IntervalStart(syncs, j) <= syncs[j] < n
      ensures syncs[j] + 1 - IntervalStart(syncs, j) == if j == 0 then logInterval + 1 else logInterval
    {
      assert syncs[j] in syncs;
      if j > 0 {
        assert syncs[j - 1] == j * logInterval;
      }
    }
  }

  /** The first report is the sum of the first log_interval + 1 losses over log_interval. */
  lemma FirstReportOverCounts(losses: seq<real>, logInterval: nat)
    requires logInterval > 0 && |losses| > logInterval
    ensures var syncs := SyncSteps(|losses|, logInterval);
      |syncs| > 0 && syncs[0] == logInterval &&
      ReportedLoss(losses, syncs, 0, logInterval) == Sum(losses[..logInterval + 1]) / (logInterval as real)
  {
    SyncStepsClosedForm(|losses|, logInterval);
    DivUnique(logInterval, logInterval, 1, 0);
    var a := |losses| - 1;
    assert a == (a / logInterval) * logInterval + a % logInterval;
  }
}
