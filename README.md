# Pytorch-NCE training loop, modelled in Dafny

The system trains a recurrent language model with noise-contrastive estimation (NCE) on
several worker processes. This project models one worker's control logic in `main.py`:

- the sparse step on the embedding table in `train`: coalesce the sparse gradient, add
  weight decay once per touched row, then `index_add_` the scaled result into the table;
- the cadence at which `train` averages the dense parameters (the NCE bias and the
  recurrent weights) across the worker group, and the running loss it reports and resets
  at those batches;
- `evaluate`, the length-weighted perplexity over a data stream, together with the mode
  flags it switches;
- the selection step of `run_epoch` (epoch checkpoint, best checkpoint, learning-rate
  annealing) and the epoch loop of `main` that folds it over the epochs.

Tensors are real-valued vectors (`seq<real>`). The embedding table and the dense parameters
are arrays of vectors, updated in place. The collective `all_reduce` is a pure function over
the sequence of per-worker copies. Checkpoint writes are an appended trace of events.

Module layout:

- `wrappers.dfy`: `Option` and `Result`.
- `vectors.dfy`: element-wise vector arithmetic.
- `sparse_update.dfy`: module `SparseUpdate`, the sparse embedding step.
- `cadence.dfy`: module `Cadence`, which batches synchronise and what their reports hold.
- `dense_sync.dfy`: module `DenseSync`, the mean over the worker group.
- `training.dfy`: module `Training`. It holds the `Model` class (embedding table, dense parameters, `training` and `nce` flags), `Train` (one epoch on one worker) and `Evaluate`.
- `controller.dfy`: module `Controller`, `run_epoch`'s selection step and `main`'s epoch loop.

Inputs that the loop does not compute are parameters:

- For `Train`: each batch's loss and sparse embedding gradient, as produced by the forward and backward passes. Also the optimizer step on the dense parameters, as a function of the batch number and the values it starts from, and the dense copies the other workers contribute at each sync.
- For `Evaluate`: the forward pass, as a function of the batch and the two mode flags, and `math.exp`.
- For the controller: each epoch's validation perplexity.

Places where the code behaves differently from what one might expect of it, modelled as
the code does:

- `evaluate` sets `model.eval()` and never switches training mode back on. It sets
  `criterion.nce` to `True` when it finishes, whatever the flag was before.
  `Training.Evaluate` ensures `!m.training && m.nce`.
- An empty evaluation stream (total length 0) raises `ZeroDivisionError` at the final
  division. This happens after `criterion.nce` has been set back to `True`.
  `Evaluate` returns `Failure(ZeroDivision)` in that case, with `m.nce` already true.
- `not best_val_ppl` is true both for `None` and for a previous best of `0.0`. So a best of
  exactly `0.0` is always replaced (`Controller.Improves`).
- The running loss is reset only at sync batches, and batch 0 never syncs. The first report
  therefore sums `log_interval + 1` losses but divides by `log_interval`; later reports sum
  `log_interval` losses (`Cadence.IntervalLengths`, `Cadence.FirstReportOverCounts`).
- The embedding table is one shared table. `model.encoder` is put in shared memory, and the same
  `model` is handed to every worker process; `main.py` moves only the dense parameters and the
  noise to the GPU, and the criterion's own device move is not part of this model. So every
  worker's `index_add_` writes that one table, which is why only the dense parameters are
  all-reduced. The model gives each worker a table of its own that only it writes (see "## Left out").
- After training, `main` evaluates the model held in memory (the last epoch's) on the test
  set, not the best checkpoint. That test run lies outside this model.

## Model

| member | source | states |
|---|---|---|
| SparseUpdate.Coalesce | main.py:126 | the coalesced gradient keeps every vector at the table's dimension; what it holds is stated by CoalesceMerges |
| SparseUpdate.StepValues | main.py:128-131 | one value per coalesced row, each of the table's dimension; the values themselves are fixed by SparseUpdateCorrect, which proves that scattering them gives the reference step |
| SparseUpdate.CoalesceMerges | main.py:126 | the coalesced gradient has strictly increasing rows, touches exactly the rows of the original, and holds for each row the sum of all its gradient vectors |
| SparseUpdate.CoalesceIdempotent | main.py:126 | coalescing an already coalesced gradient changes nothing |
| SparseUpdate.CoalesceOfCoalesced | main.py:126 | a gradient with strictly increasing rows is its own coalesced form |
| SparseUpdate.MergeThenDecay | main.py:126-129 | the step on the coalesced gradient equals the step of the reference definition on the raw gradient, so weight decay enters once per distinct row however often it repeats |
| SparseUpdate.IndexAddedDistinct | main.py:131 | with distinct indices, `index_add_` adds `src[k]` to row `idx[k]` and leaves every other row as it was |
| SparseUpdate.SparseUpdateCorrect | main.py:126-131 | coalesce, add `wd * row` to each coalesced value, then `index_add_` `-lr` times it: the result is `row - lr * (sum of the row's gradients + wd * row)` on touched rows; untouched rows stay as they were |
| SparseUpdate.IndexAdd | main.py:131 | the in-place loop over the indices leaves the table equal to the reference `index_add_`, repeated indices accumulating |
| SparseUpdate.ApplySparseUpdate | main.py:126-131 | the array after the in-place update is the reference sparse step of its old contents |
| SparseUpdate.SparseScenario | main.py:126-131 | a batch touching row 3 twice and row 7 once with lr 0.5 and wd 0.01 takes row 3 from 1.0 to 0.92 (decay once), steps row 7, and leaves the other 998 rows unchanged |
| Vectors.Divide | main.py:141 | every element of the result is the element of the input divided by the world size |
| Cadence.IsSyncStep | main.py:138 | batch n syncs iff `n % log_interval == 0` and `n > 0` |
| Cadence.SyncSteps | main.py:138 | the sync batches among the first n, in order, at most n of them; their count and positions are stated by SyncStepsClosedForm and SyncStepsMembers |
| Cadence.SyncStepsClosedForm | main.py:138 | over N batches there are `(N - 1) / log_interval` syncs (0 for N = 0), and sync j is at batch `(j + 1) * log_interval` |
| Cadence.SyncStepsMembers | main.py:138 | batch m is a sync of the first n batches iff `m < n`, `m % log_interval == 0` and `m > 0` |
| Cadence.IntervalLengths | main.py:110 | every report interval ends at its sync batch and lies inside the epoch; the first covers `log_interval + 1` batches, every later one `log_interval` |
| Cadence.FirstReportOverCounts | main.py:142 | with more than log_interval batches the first sync is batch `log_interval`, and its report is the sum of the first `log_interval + 1` losses over `log_interval` |
| Cadence.LedgerStep | main.py:134-152 | one batch adds its loss to the running total; at a sync the report is the total over log_interval, the total resets to 0, and the earlier reports are kept |
| Cadence.LedgerSync | main.py:138-152 | at a sync the new report covers exactly the losses since the previous sync, including this batch's, and the earlier reports' intervals are unchanged |
| DenseSync.ReduceSum | main.py:140 | definition of the sum all-reduce: element k of tensor p is the sum of element k over all workers; its contract gives only the tensor's length |
| DenseSync.MeanTensor | main.py:140-141 | element k of tensor p becomes its sum over the workers divided by the world size |
| DenseSync.SyncDenseParams | main.py:139-141 | after the loop over the dense tensors, this worker's copy is the element-wise sum over the group divided by the world size; it is every worker's post-sync value (`Averaged(group)[rank]`), and by Training.MeansRankFree it does not depend on where this worker sits in the group |
| DenseSync.ColumnSumAppend | main.py:140 | the sum over two groups of workers put side by side is the sum of the two groups' sums |
| DenseSync.AveragedKeepsSum | main.py:139-141 | averaging preserves each element's sum over the workers |
| DenseSync.AveragedIdempotent | main.py:139-141 | synchronising a group that was just synchronised changes nothing |
| DenseSync.TwoWorkerScenario | main.py:139-141 | two workers holding 10.0 and 20.0 both hold 15.0 afterwards |
| Training.Model.constructor | main.py:66-96 | the encoder table and the dense parameters live in two distinct arrays of the given contents, in training mode, with the NCE flag the criterion was configured with |
| Training.Losses | main.py:134 | one loss per batch, in order |
| Training.SparseSteps | main.py:112-131 | the embedding table after the sparse steps of the first n batches, in order, of the table's shape |
| Training.PlaceColumnSum | main.py:140 | whatever rank this worker has, each element's sum over the group is its own value plus the peers' sum |
| Training.MeansRankFree | main.py:139-141 | the mean the collective leaves is the same whatever rank this worker takes in the group |
| Training.DenseAfter | main.py:125-141 | this worker's dense parameters after n batches: each batch's optimizer step, and at a sync batch the group mean of the stepped values; the tensor lengths never change |
| Training.Overwrite | main.py:125 | the dense array holds exactly the values the optimizer step produced |
| Training.UpdateModel | main.py:125-141 | the dense parameters take the optimizer step; the embedding table takes the sparse step; at a sync the dense parameters then become the group mean of the stepped values with this worker at its rank; without a sync they are the stepped values |
| Training.TrainBatch | main.py:112-152 | one batch takes the state of train after n batches to its state after n + 1: n + 1 sparse steps, n + 1 dense optimizer steps with the averaging of each sync, the syncs among the first n + 1 batches, and the reports and running loss that go with them |
| Training.Train | main.py:98-152 | after an epoch: training mode on and the NCE flag set to the argument; the embedding table is the composition of every batch's sparse step; the syncs are exactly the cadence's batches; the dense parameters are those after every batch's optimizer step, averaged over the group at each sync; report j is the sum of the losses since the previous sync over log_interval |
| Training.Evaluate | main.py:154-173 | training mode off and the NCE flag on afterwards; the forward pass runs with both off; a total length of 0 iff a ZeroDivision failure; otherwise `exp(Σ loss_b·len_b / Σ len_b)` |
| Training.TotalLength | main.py:160-169 | the total length: the sum of the batch word counts |
| Training.Lengths | main.py:167 | one word count per batch, the sum of its sentence lengths |
| Training.WeightedLoss | main.py:159-168 | the evaluation loss: the sum of each batch loss times its word count |
| Training.EvaluationSplits | main.py:159-169 | the length and weighted-loss accumulators are additive over a split of the stream |
| Training.WeightedLossAtLeast | main.py:168-169 | if every batch loss is at least lo, the weighted loss is at least lo times the total length |
| Training.WeightedLossAtMost | main.py:168-169 | if every batch loss is at most hi, the weighted loss is at most hi times the total length |
| Training.MeanLossBounds | main.py:159-173 | the per-word loss that evaluate exponentiates lies between the smallest and largest batch losses |
| Controller.Improves | main.py:193 | an epoch improves iff there is no best yet, the best is 0.0 (falsy in Python), or its perplexity is strictly below the best |
| Controller.Initial | main.py:208-209 | the configured learning rate, no best, no checkpoint written |
| Controller.RunEpoch | main.py:190-201 | the epoch checkpoint is appended first (earlier writes kept); a best is always recorded afterwards; a non-zero best never increases; with lr_decay ≥ 1 a non-negative lr never increases |
| Controller.RunEpochs | main.py:218-219 | the fold of the selection step over the epochs 1 .. n: earlier writes are kept and every epoch writes at least once |
| Controller.TrainingLoop | main.py:208-219 | the loop over the epochs ends in the fold of the selection step over the validation perplexities, epoch k + 1 taking the k-th |
| Controller.EpochFilesStep | main.py:190-191 | each epoch adds its epoch checkpoint to the written epoch files |
| Controller.LastBestStep | main.py:193-196 | after an epoch the best checkpoint holds that epoch iff it improved, and is otherwise unchanged |
| Controller.EpochCheckpointsInOrder | main.py:190-191 | after n epochs the epoch checkpoints written are those of epochs 1 .. n, in order |
| Controller.SelectionTracksMinimum | main.py:193-196 | with positive perplexities the best is the minimum over all epochs, and the best checkpoint holds the first epoch that reached it |
| Controller.BestNonIncreasing | main.py:193-196 | once set to a positive value, the best never increases over later epochs |
| Controller.LearningRateSchedule | main.py:197-200 | the final lr is the initial lr divided by lr_decay once for each epoch that failed to beat all earlier ones |
| Controller.LearningRateClosedForm | main.py:200 | the final lr is `lr0 / lr_decay^s` with s the number of non-improving epochs |
| Controller.LearningRateNonIncreasing | main.py:200 | with lr_decay ≥ 1 and a non-negative start, the lr after every later epoch is at most the lr after every earlier one |

## Left out

- Argument parsing, logging, seeding, corpus loading, and model and criterion construction. These are configuration and code that `main.py` imports. `Training.Model` is built from given contents.
- The forward and backward passes, the autograd profiler and the `prof` flag (including its early `break`s and `return`), `clip_grad_norm`, and how the `optim.SGD` momentum step computes its values. These are library numerics. A batch's loss and sparse gradient are inputs to `Train`. The optimizer step itself is the given function `DenseStep`: it maps the batch number and the dense parameters it starts from to those it leaves. `Train` applies it to the dense array on every batch, before the sync.
- Clearing the gradients before each batch. This is library bookkeeping; the given gradient is the batch's own.
- The logged perplexity `math.exp(cur_loss)`, the progress bar and the log lines. Only the reported loss `cur_loss` is modelled.
- `torch.save`/`torch.load` and file handling. Checkpoint writes are the `Controller.Checkpoint` trace, and loading a saved model (the non-training branch) is not modelled.
- Training.Train, Training.TrainBatch, Training.UpdateModel: each worker's embedding table is its own and only its own sparse steps reach it. In the program the table is shared by all workers, so it also takes the other workers' sparse steps, interleaved with this worker's in an order the scheduler decides; the model's `SparseSteps` result is the table only when a single worker runs, and the model never synchronises the table.
- `dist.init_process_group`, the transport of `dist.all_reduce`, `mp.Process` start and join (`WORLD_SIZE = 2`), `share_memory` and the weight tying of the criterion to the encoder. This is concurrency. The collective is the pure mean over a group of any positive size.
- CUDA device moves and `KeyboardInterrupt` handling. These are runtime plumbing.
- The final test-set evaluation in `main`. It is one more call of `evaluate` outside the epoch loop.
- IEEE floating point. Tensors hold `real`s, and `math.exp` and the forward pass are function parameters.
- Controller.RunEpoch: takes the validation perplexity as an argument instead of running `train` and `evaluate`. It requires `lr_decay != 0.0` only when the epoch anneals, where Python would raise ZeroDivisionError.
- Controller.RunEpochs, Controller.TrainingLoop: require `lr_decay != 0.0` for the whole run, although Python fails only at the first annealing epoch; a run with `lr_decay == 0` in which every epoch improves is not modelled.
- Training.Train: requires `log_interval > 0`; with 0 Python would raise ZeroDivisionError at the first modulo.
- SparseUpdate.Coalesce: sorts rows by insertion, which matches the sorted, duplicate-free indices of `coalesce()` but not how torch computes them.
- Controller.SelectionTracksMinimum and Controller.BestNonIncreasing: require positive perplexities, as every `exp` is. A zero perplexity would hit the `not best_val_ppl` case above.
- Controller.LearningRateNonIncreasing: stated for lr_decay ≥ 1 and a non-negative lr; for lr_decay < 1 annealing increases the learning rate.
