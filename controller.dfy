/**
 * Checkpoint selection and learning-rate annealing: the part of `run_epoch` after the
 * validation pass, and the epoch loop of `main` that threads the learning rate and the best perplexity through it.
 *
 * Checkpoint files are recorded as an appended trace of writes: `<save>.epoch_<n>` is
 * written after every epoch, the best-model file `<save>` (overwritten) whenever the epoch is the best so far.
 */
module Controller {
  import opened Wrappers

  datatype Checkpoint = EpochSnapshot(epoch: nat) | BestSnapshot(epoch: nat)

  /** The variables of main's epoch loop, with the checkpoint writes made so far. */
  datatype TrainingState = TrainingState(lr: real, best: Option<real>, saved: seq<Checkpoint>)

  /** Before the first epoch: the configured learning rate, no best perplexity yet, nothing written. */
  function Initial(lr: real): TrainingState
  {
    TrainingState(lr, None, [])
  }

  /**
   * The epoch improves when there is no best yet or it beats the best strictly. The test is a
   * Python truth test, under which a best of 0.0 counts as no best at all.
   */
  predicate Improves(best: Option<real>, val: real)
  {
    best.None? || best.value == 0.0 || val < best.value
  }

  /**
   * The selection step of run_epoch for epoch number `epoch` whose validation perplexity is
   * val: write the epoch checkpoint; then either record a new best (and write the best
   * checkpoint) or divide the learning rate by lrDecay.
   */
  function RunEpoch(s: TrainingState, epoch: nat, val: real, lrDecay: real): (r: TrainingState)
    requires !Improves(s.best, val) ==> lrDecay != 0.0
    ensures |r.saved| > |s.saved| && r.saved[..|s.saved|] == s.saved && r.saved[|s.saved|] == EpochSnapshot(epoch)
    ensures r.best.Some?
    ensures s.best.Some? && s.best.value != 0.0 ==> r.best.value <= s.best.value
    ensures 1.0 <= lrDecay && 0.0 <= s.lr ==> 0.0 <= r.lr <= s.lr
  {
    var saved := s.saved + [EpochSnapshot(epoch)];
    if Improves(s.best, val) then TrainingState(s.lr, Some(val), saved + [BestSnapshot(epoch)])
    else TrainingState(s.lr / lrDecay, s.best, saved)
  }

  /** main's epochs, numbered from 1: epoch k + 1 has validation perplexity vals[k]. */
  ghost function RunEpochs(s0: TrainingState, vals: seq<real>, lrDecay: real): (r: TrainingState)
    requires lrDecay != 0.0
    ensures |r.saved| >= |s0.saved| + |vals| && r.saved[..|s0.saved|] == s0.saved
    decreases |vals|
  {
    if vals == [] then s0
    else RunEpoch(RunEpochs(s0, vals[..|vals| - 1], lrDecay), |vals|, vals[|vals| - 1], lrDecay)
  }

  /** main's epoch loop over the validation perplexities the epochs produce. */
  method TrainingLoop(lr0: real, valPpls: seq<real>, lrDecay: real)
    returns (lr: real, best: Option<real>, saved: seq<Checkpoint>)
    requires lrDecay != 0.0
    ensures TrainingState(lr, best, saved) == RunEpochs(Initial(lr0), valPpls, lrDecay)
  {
    lr, best, saved := lr0, None, [];
    for epoch := 1 to |valPpls| + 1
      invariant TrainingState(lr, best, saved) == RunEpochs(Initial(lr0), valPpls[..epoch - 1], lrDecay)
    {
      assert valPpls[..epoch][..epoch - 1] == valPpls[..epoch - 1];
      var next := RunEpoch(TrainingState(lr, best, saved), epoch, valPpls[epoch - 1], lrDecay);
      lr, best, saved := next.lr, next.best, next.saved;
    }
    assert valPpls[..|valPpls|] == valPpls;
  }

  // ---------------------------------------------------------------------------
  // Reference definitions in terms of the validation perplexities alone

  function Min(xs: seq<real>): real
    requires |xs| > 0
  {
    if |xs| == 1 then xs[0]
    else var m := Min(xs[..|xs| - 1]); if xs[|xs| - 1] < m then xs[|xs| - 1] else m
  }

  /** The number of epochs after the first that fail to beat every earlier perplexity. */
  function Stagnant(vals: seq<real>): nat
  {
    if |vals| <= 1 then 0
    else Stagnant(vals[..|vals| - 1]) + if vals[|vals| - 1] >= Min(vals[..|vals| - 1]) then 1 else 0
  }

  function Pow(x: real, n: nat): real
  {
    if n == 0 then 1.0 else Pow(x, n - 1) * x
  }

  /** The epochs whose `<save>.epoch_<n>` file is written, in order. */
  function EpochFiles(saved: seq<Checkpoint>): seq<nat>
  {
    if saved == [] then []
    else EpochFiles(saved[..|saved| - 1]) + if saved[|saved| - 1].EpochSnapshot? then [saved[|saved| - 1].epoch] else []
  }

  /** The epoch whose model `<save>` holds at the end: the last best-checkpoint write. */
  function LastBest(saved: seq<Checkpoint>): Option<nat>
  {
    if saved == [] then None
    else if saved[|saved| - 1].BestSnapshot? then Some(saved[|saved| - 1].epoch)
    else LastBest(saved[..|saved| - 1])
  }

  function Range(n: nat): seq<nat>
  {
    seq(n, k => k + 1)
  }

  // ---------------------------------------------------------------------------

  lemma RangeStep(n: nat)
    requires n > 0
    ensures Range(n - 1) + [n] == Range(n)
  {
  }

  lemma {:induction false} MinBounds(xs: seq<real>)
    requires |xs| > 0
    ensures forall k :: 0 <= k < |xs| ==> Min(xs) <= xs[k]
    ensures exists k :: 0 <= k < |xs| && Min(xs) == xs[k]
    decreases |xs|
  {
    if |xs| > 1 {
      var p := xs[..|xs| - 1];
      MinBounds(p);
      var k :| 0 <= k < |p| && Min(p) == p[k];
      assert forall j :: 0 <= j < |p| ==> xs[j] == p[j];
      if xs[|xs| - 1] < Min(p) {
        assert Min(xs) == xs[|xs| - 1];
      } else {
        assert Min(xs) == xs[k];
      }
    } else {
      assert Min(xs) == xs[0];
    }
  }

  /** One epoch adds its own epoch checkpoint to the epoch files. */
  lemma EpochFilesStep(s: TrainingState, epoch: nat, val: real, lrDecay: real)
    requires lrDecay != 0.0
    ensures EpochFiles(RunEpoch(s, epoch, val, lrDecay).saved) == EpochFiles(s.saved) + [epoch]
  {
    var withEpoch := s.saved + [EpochSnapshot(epoch)];
    assert withEpoch[..|s.saved|] == s.saved;
    assert EpochFiles(withEpoch) == EpochFiles(s.saved) + [epoch];
    if Improves(s.best, val) {
      var r := withEpoch + [BestSnapshot(epoch)];
      assert r[..|r| - 1] == withEpoch;
      assert EpochFiles(r) == EpochFiles(withEpoch);
    }
  }

  /** One epoch leaves the best checkpoint with its own model exactly when it improves. */
  lemma LastBestStep(s: TrainingState, epoch: nat, val: real, lrDecay: real)
    requires lrDecay != 0.0
    ensures LastBest(RunEpoch(s, epoch, val, lrDecay).saved) ==
      if Improves(s.best, val) then Some(epoch) else LastBest(s.saved)
  {
    var withEpoch := s.saved + [EpochSnapshot(epoch)];
    assert withEpoch[..|s.saved|] == s.saved;
    assert LastBest(withEpoch) == LastBest(s.saved);
  }

  /** Each epoch writes its own epoch checkpoint, once, in epoch order. */
  lemma {:induction false} EpochCheckpointsInOrder(lr0: real, vals: seq<real>, lrDecay: real)
    requires lrDecay != 0.0
    ensures EpochFiles(RunEpochs(Initial(lr0), vals, lrDecay).saved) == Range(|vals|)
    decreases |vals|
  {
    if vals != [] {
      var n := |vals|;
      var s := RunEpochs(Initial(lr0), vals[..n - 1], lrDecay);
      assert RunEpochs(Initial(lr0), vals, lrDecay) == RunEpoch(s, n, vals[n - 1], lrDecay);
      EpochCheckpointsInOrder(lr0, vals[..n - 1], lrDecay);
      EpochFilesStep(s, n, vals[n - 1], lrDecay);
      RangeStep(n);
    }
  }

  /**
   * With positive perplexities, the recorded best is the minimum so far, and the model kept
   * at `<save>` is that of the first epoch attaining it.
   */
  lemma {:induction false} SelectionTracksMinimum(lr0: real, vals: seq<real>, lrDecay: real)
    requires lrDecay != 0.0 && |vals| > 0
    requires forall k :: 0 <= k < |vals| ==> vals[k] > 0.0
    ensures RunEpochs(Initial(lr0), vals, lrDecay).best == Some(Min(vals))
    ensures var e := LastBest(RunEpochs(Initial(lr0), vals, lrDecay).saved);
      e.Some? && 1 <= e.value <= |vals| && vals[e.value - 1] == Min(vals) &&
      forall k :: 0 <= k < e.value - 1 ==> vals[k] > Min(vals)
    decreases |vals|
  {
    var n := |vals|;
    var p := vals[..n - 1];
    var s := RunEpochs(Initial(lr0), p, lrDecay);
    var r := RunEpoch(s, n, vals[n - 1], lrDecay);
    assert RunEpochs(Initial(lr0), vals, lrDecay) == r;
    LastBestStep(s, n, vals[n - 1], lrDecay);
    if n == 1 {
      assert p == [];
    } else {
      SelectionTracksMinimum(lr0, p, lrDecay);
      MinBounds(p);
      var e := LastBest(s.saved).value;
      assert forall k :: 0 <= k < n - 1 ==> vals[k] == p[k];
      if vals[n - 1] < Min(p) {
        assert LastBest(r.saved) == Some(n);
      } else {
        assert LastBest(r.saved) == Some(e);
      }
    }
  }

  lemma DivDiv(a: real, b: real, c: real)
    requires b != 0.0 && c != 0.0
    ensures a / b / c == a / (b * c)
  {
  }

  lemma {:induction false} PowNonZero(x: real, n: nat)
    requires x != 0.0
    ensures Pow(x, n) != 0.0
  {
    if n > 0 {
      PowNonZero(x, n - 1);
    }
  }

  /** The learning rate after n annealings: divided by lrDecay n times. */
  function Annealed(lr0: real, lrDecay: real, n: nat): real
    requires lrDecay != 0.0
  {
    if n == 0 then lr0 else Annealed(lr0, lrDecay, n - 1) / lrDecay
  }

  /** Dividing n times by lrDecay is dividing once by lrDecay to the n. */
  lemma {:induction false} AnnealedClosedForm(lr0: real, lrDecay: real, n: nat)
    requires lrDecay != 0.0
    ensures Pow(lrDecay, n) != 0.0
    ensures Annealed(lr0, lrDecay, n) == lr0 / Pow(lrDecay, n)
  {
    PowNonZero(lrDecay, n);
    if n > 0 {
      AnnealedClosedForm(lr0, lrDecay, n - 1);
      DivDiv(lr0, Pow(lrDecay, n - 1), lrDecay);
    }
  }

  /**
   * With positive perplexities, the final learning rate is the initial one divided by
   * lrDecay once for every epoch that did not improve on the best so far.
   */
  lemma {:induction false} LearningRateSchedule(lr0: real, vals: seq<real>, lrDecay: real)
    requires lrDecay != 0.0
    requires forall k :: 0 <= k < |vals| ==> vals[k] > 0.0
    ensures RunEpochs(Initial(lr0), vals, lrDecay).lr == Annealed(lr0, lrDecay, Stagnant(vals))
    decreases |vals|
  {
    var n := |vals|;
    if n == 1 {
      assert vals[..0] == [];
    } else if n > 1 {
      var p := vals[..n - 1];
      var s := RunEpochs(Initial(lr0), p, lrDecay);
      assert RunEpochs(Initial(lr0), vals, lrDecay) == RunEpoch(s, n, vals[n - 1], lrDecay);
      LearningRateSchedule(lr0, p, lrDecay);
      SelectionTracksMinimum(lr0, p, lrDecay);
      MinBounds(p);
    }
  }

  /** The same schedule in closed form. */
  lemma LearningRateClosedForm(lr0: real, vals: seq<real>, lrDecay: real)
    requires lrDecay != 0.0
    requires forall k :: 0 <= k < |vals| ==> vals[k] > 0.0
    ensures Pow(lrDecay, Stagnant(vals)) != 0.0
    ensures RunEpochs(Initial(lr0), vals, lrDecay).lr == lr0 / Pow(lrDecay, Stagnant(vals))
  {
    LearningRateSchedule(lr0, vals, lrDecay);
    AnnealedClosedForm(lr0, lrDecay, Stagnant(vals));
  }

  /** With lrDecay >= 1 the learning rate never increases from one epoch to a later one. */
  lemma {:induction false} LearningRateNonIncreasing(s0: TrainingState, vals: seq<real>, lrDecay: real)
    requires 1.0 <= lrDecay && 0.0 <= s0.lr
    ensures forall k :: 0 <= k <= |vals| ==>
      0.0 <= RunEpochs(s0, vals, lrDecay).lr <= RunEpochs(s0, vals[..k], lrDecay).lr
    decreases |vals|
  {
    if vals != [] {
      var n := |vals|;
      var s := RunEpochs(s0, vals[..n - 1], lrDecay);
      assert RunEpochs(s0, vals, lrDecay) == RunEpoch(s, n, vals[n - 1], lrDecay);
      LearningRateNonIncreasing(s0, vals[..n - 1], lrDecay);
      assert 0.0 <= s.lr by {
        assert vals[..n - 1][..n - 1] == vals[..n - 1];
      }
      forall k | 0 <= k <= n
        ensures 0.0 <= RunEpochs(s0, vals, lrDecay).lr <= RunEpochs(s0, vals[..k], lrDecay).lr
      {
        if k < n {
          assert vals[..n - 1][..k] == vals[..k];
        } else {
          assert vals[..k] == vals;
        }
      }
    } else {
      assert vals[..0] == vals;
    }
  }

  /** With positive perplexities, the best perplexity never increases over later epochs. */
  lemma {:induction false} BestNonIncreasing(s0: TrainingState, vals: seq<real>, lrDecay: real, k: nat)
    requires lrDecay != 0.0 && k <= |vals|
    requires forall j :: 0 <= j < |vals| ==> vals[j] > 0.0
    requires RunEpochs(s0, vals[..k], lrDecay).best.Some? && RunEpochs(s0, vals[..k], lrDecay).best.value > 0.0
    ensures RunEpochs(s0, vals, lrDecay).best.Some?
    ensures 0.0 < RunEpochs(s0, vals, lrDecay).best.value <= RunEpochs(s0, vals[..k], lrDecay).best.value
    decreases |vals|
  {
    var n := |vals|;
    if k == n {
      assert vals[..k] == vals;
    } else {
      var s := RunEpochs(s0, vals[..n - 1], lrDecay);
      assert RunEpochs(s0, vals, lrDecay) == RunEpoch(s, n, vals[n - 1], lrDecay);
      assert vals[..n - 1][..k] == vals[..k];
      BestNonIncreasing(s0, vals[..n - 1], lrDecay, k);
    }
  }
}
