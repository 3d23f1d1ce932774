# Training-driver control logic of `train_mp.py`

This project models the control logic of the mask-classification training driver
`Pstage1_ImageClassification/py/train_mp.py`, leaving out its tensor computations:

- **Run directory naming** (`increment_path`). The module is `RunDir`, with the digit-string helpers
  in `Decimal`. The file system's answers are inputs: whether the path exists, and the names that
  `glob(f"{path}*")` returned. The regex `stem(\d+)` is modelled as `re.search` applies it. The
  leftmost position where the stem is followed by a digit wins, and its group is the greedy run of
  digits there.
- **Branch selection per batch** between cutmix, mixup and the plain loss (`Augment`). A batch is
  described by the sequence of assignments to `loss` it performs, in program order. The loss that
  `scaler.scale(loss).backward()` sees is the last of them.
- **Weighted sampler weights** (`WeightedSampler`). These are `np.unique(..., return_counts=True)`,
  `class_weights = [sum(counts) / c ...]` and `example_weights = [class_weights[e] ...]`. The last
  one is `None` when a label indexes past the class-weight list, which is where Python raises
  `IndexError`.
- **The training batch loop's accumulators** (`BatchLog`). The imperative method
  `BatchLog.RunBatches` adds each batch's loss, matches and F1, and every `log_interval` batches
  records the averages and resets the accumulators. It is proved equal to the specification
  function `EpochLogs`.
- **The epoch loop** (`TrainLoop`). The imperative method `TrainLoop.Train` keeps the early-stop
  counter and the best F1, accuracy and loss. It breaks when the counter reaches the patience, runs
  one epoch's batch loop, and records every `torch.save` as a `Save(file, weightsOf)` event. It is
  proved equal to the specification function `TrainLoop.Replay` over the sequence of per-epoch
  validation results. `TrainLoopFacts` proves what the bookkeeping promises:
  - the counter's behaviour;
  - the running extremes;
  - the bounds on the number of epochs;
  - which checkpoints are written, and what each file holds at the end of the run.

The per-batch numbers (`loss.item()`, matches, `f1_score`), the per-epoch validation metrics and the
random draw `r` are inputs.

## Model

| member | source | states |
|---|---|---|
| Decimal.Value | Pstage1_ImageClassification/py/train_mp.py:63 | `int()` of k decimal digits is below 10^k |
| Decimal.Show | Pstage1_ImageClassification/py/train_mp.py:65 | `f"{n}"` is a non-empty digit string that starts with '0' only for n = 0 |
| Decimal.ValueOfShow | Pstage1_ImageClassification/py/train_mp.py:63-65 | `int()` of the decimal spelling `f"{n}"` gives back n |
| Decimal.RunLength | Pstage1_ImageClassification/py/train_mp.py:62 | the greedy `\d+` stays in bounds, covers only digits, and stops at the end or at a non-digit |
| Decimal.RunLengthUpTo | Pstage1_ImageClassification/py/train_mp.py:62 | a greedy `\d+` over a digit run followed by a non-digit or by the end stops exactly at the end of the run |
| Decimal.RunValueOfShow | Pstage1_ImageClassification/py/train_mp.py:62-65 | a greedy digit group that starts just after p, in p + `f"{n}"`, reads n |
| RunDir.RFindIsLast | Pstage1_ImageClassification/py/train_mp.py:62 | the index of the last occurrence of a character is what `str.rfind` returns (used for `Path.stem`) |
| RunDir.Name | Pstage1_ImageClassification/py/train_mp.py:62 | `Path.name` is the suffix of the path after its last '/', and holds no '/' |
| RunDir.Stem | Pstage1_ImageClassification/py/train_mp.py:62 | `Path.stem` is a prefix of the name; when it is shorter, it stops at the last '.' of the name, which is neither its first nor its last character; a name without an inner '.' is its own stem |
| RunDir.StemCutsAtLastInnerDot | Pstage1_ImageClassification/py/train_mp.py:62 | a name whose last '.' is an inner one has as `Path.stem` exactly the part before that '.' |
| RunDir.RFind | Pstage1_ImageClassification/py/train_mp.py:57 | the index is -1 or the last occurrence of the character (used for `Path.name` and `Path.stem`) |
| RunDir.SearchFrom | Pstage1_ImageClassification/py/train_mp.py:62 | `re.search` gives no match exactly when no position at or after p holds the stem followed by a digit |
| RunDir.SearchFromLeftmost | Pstage1_ImageClassification/py/train_mp.py:62 | a match comes from the leftmost position at or after p that holds the stem followed by a digit, and its value is the greedy digit run there |
| RunDir.Search | Pstage1_ImageClassification/py/train_mp.py:62 | the search of a whole name gives no match exactly when no position holds the stem followed by a digit |
| RunDir.Suffixes | Pstage1_ImageClassification/py/train_mp.py:62-63 | every name with a match gives its suffix in the list, and every listed suffix comes from some name's match |
| RunDir.MaxOf | Pstage1_ImageClassification/py/train_mp.py:64 | `max(i)` is an element of i and is at least every element |
| RunDir.NextIndex | Pstage1_ImageClassification/py/train_mp.py:64 | n is 2 without suffixes; otherwise n - 1 is a suffix; n exceeds every suffix |
| RunDir.IncrementPath | Pstage1_ImageClassification/py/train_mp.py:50-65 | the path comes back unchanged when it does not exist or `exist_ok` is set; otherwise the result is the path followed by a non-empty run of digits |
| RunDir.UnchangedIff | Pstage1_ImageClassification/py/train_mp.py:57-59 | the path comes back unchanged iff it does not exist or `exist_ok` is set |
| RunDir.IncrementedExceedsSuffixes | Pstage1_ImageClassification/py/train_mp.py:61-65 | otherwise the result is path + `f"{n}"`, with n greater than every suffix found among the globbed names |
| RunDir.SearchAppended | Pstage1_ImageClassification/py/train_mp.py:62 | when the stem ends the path and the path holds no match, the search in path + `f"{n}"` finds exactly n |
| RunDir.FreshWhenStemOnlyAtEnd | Pstage1_ImageClassification/py/train_mp.py:57-65 | in that case the incremented name is none of the listed names |
| RunDir.FreshAfterStem | Pstage1_ImageClassification/py/train_mp.py:61-65 | when the path ends with the stem and holds no match itself, path + `f"{n}"` is none of the listed names |
| RunDir.NotAmongListed | Pstage1_ImageClassification/py/train_mp.py:62-64 | a name whose suffix is the next index cannot be a listed name, since every listed suffix is below it |
| RunDir.CollisionAsWritten | Pstage1_ImageClassification/py/train_mp.py:61-65 | an existing "exp1/exp" with names ["exp1/exp", "exp1/exp2"] gives "exp1/exp2", which already exists |
| RunDir.AnchoredSuffixOfShow | Pstage1_ImageClassification/py/train_mp.py:62-65 | corrected suffix: a name made of the path, `f"{n}"` and a tail that does not start with a digit gives back exactly n |
| RunDir.AnchoredSuffixes | Pstage1_ImageClassification/py/train_mp.py:62-63 | corrected suffix list: every anchored suffix of a name is in it, and every listed suffix is some name's anchored suffix |
| RunDir.IncrementPathAnchored | Pstage1_ImageClassification/py/train_mp.py:57-65 | corrected `increment_path`: unchanged under the same condition, otherwise the path followed by a non-empty run of digits |
| RunDir.AnchoredIsFresh | Pstage1_ImageClassification/py/train_mp.py:57-65 | corrected `increment_path`: unchanged under the same condition, and otherwise returns a name that is none of the listed ones |
| Augment.SelectBranch | Pstage1_ImageClassification/py/train_mp.py:216-238 | the backpropagated loss is the mixup blend iff `r > Mbeta and MixUp > 0`, else the plain criterion; it is never the cutmix blend; the cutmix blend is computed iff its gate is open, at the cost of a second forward pass |
| Augment.CutmixDiscardedExample | Pstage1_ImageClassification/py/train_mp.py:217-235 | with r = 0.9, Cbeta = 0.5, CutMix = 1, Mbeta = 0.95 and MixUp = 1, the cutmix loss is computed and then overwritten by the plain criterion |
| Augment.SelectBranchElif | Pstage1_ImageClassification/py/train_mp.py:216-238 | corrected selection: one forward pass; cutmix iff its gate is open; mixup iff only the mixup gate is open; plain otherwise |
| Augment.AgreeUnlessCutmix | Pstage1_ImageClassification/py/train_mp.py:217-235 | the code as written and the corrected selection backpropagate the same loss iff the cutmix gate is closed |
| WeightedSampler.Count | Pstage1_ImageClassification/py/train_mp.py:113 | a count is at most the number of labels, and it is positive iff the value occurs |
| WeightedSampler.Bound | Pstage1_ImageClassification/py/train_mp.py:113 | the bound exceeds every label and is 0 or one past an occurring label |
| WeightedSampler.ClassesBelow | Pstage1_ImageClassification/py/train_mp.py:113 | the classes found below hi are below hi, occur among the labels, and number at most hi |
| WeightedSampler.ClassesBelowComplete | Pstage1_ImageClassification/py/train_mp.py:113 | every occurring label below hi is found |
| WeightedSampler.ClassesBelowIncreasing | Pstage1_ImageClassification/py/train_mp.py:113 | the classes come out strictly increasing, as `np.unique` sorts them |
| WeightedSampler.Unique | Pstage1_ImageClassification/py/train_mp.py:113 | `labels_unique` is strictly increasing and holds exactly the values that occur |
| WeightedSampler.Counts | Pstage1_ImageClassification/py/train_mp.py:113 | `counts[i]` is the positive number of occurrences of `labels_unique[i]` |
| WeightedSampler.ClassWeights | Pstage1_ImageClassification/py/train_mp.py:114 | one class weight per class, the i-th being (number of labels) / (count of the i-th class of `labels_unique`) |
| WeightedSampler.SumOfClassCounts | Pstage1_ImageClassification/py/train_mp.py:113-114 | the counts of the classes below hi add up to the number of labels below hi |
| WeightedSampler.TotalIsLength | Pstage1_ImageClassification/py/train_mp.py:114 | `sum(counts)` equals the number of labels |
| WeightedSampler.ClassesBelowAllPresent | Pstage1_ImageClassification/py/train_mp.py:113 | when every value below hi occurs, the classes below hi are exactly 0..hi-1 |
| WeightedSampler.ClassesBelowFull | Pstage1_ImageClassification/py/train_mp.py:113 | hi classes found below hi means every value below hi occurs |
| WeightedSampler.ClassesBelowStable | Pstage1_ImageClassification/py/train_mp.py:113 | raising hi past every label finds no further class |
| WeightedSampler.UniqueOfExactClasses | Pstage1_ImageClassification/py/train_mp.py:113 | labels that are exactly 0..k-1 have `labels_unique == [0, ..., k-1]` |
| WeightedSampler.ExampleWeightsIndexing | Pstage1_ImageClassification/py/train_mp.py:113-115 | `class_weights[e]` fails iff some label is not below the number of classes; otherwise one weight per label, (number of labels) / (count of the class at position e of `labels_unique`) |
| WeightedSampler.ExampleWeightsDefinedIff | Pstage1_ImageClassification/py/train_mp.py:113-115 | `class_weights[e]` raises no `IndexError` iff the labels are exactly 0..k-1 for k classes |
| WeightedSampler.ExampleWeightsValue | Pstage1_ImageClassification/py/train_mp.py:113-115 | then there is one weight per label, and each weight is (number of labels) / (count of that label) |
| WeightedSampler.RarerClassWeighsMore | Pstage1_ImageClassification/py/train_mp.py:114-115 | an example of a rarer class weighs strictly more, and an example of an equally frequent class weighs the same |
| WeightedSampler.OffsetLabelsFail | Pstage1_ImageClassification/py/train_mp.py:113-115 | labels [1, 1, 2] index past the two class weights |
| BatchLog.SumsExtend | Pstage1_ImageClassification/py/train_mp.py:242-244 | adding one batch to a window adds its loss, matches and F1 to the sums |
| BatchLog.Flush | Pstage1_ImageClassification/py/train_mp.py:246-265 | a record has step `epoch * len(train_loader) + idx`, and its loss, F1 and accuracy times `log_interval` (and `batch_size`) give the window's sums |
| BatchLog.RunBatches | Pstage1_ImageClassification/py/train_mp.py:206-267 | the batch loop logs exactly `EpochLogs`, and leaves in the accumulators the sums over the batches since the last flush |
| BatchLog.LogsCount | Pstage1_ImageClassification/py/train_mp.py:246 | after n batches, (records logged) * `log_interval` + n % `log_interval` == n |
| BatchLog.LogsAt | Pstage1_ImageClassification/py/train_mp.py:246-265 | the k-th record is logged after batch k*L + L - 1 and averages exactly the L batches since the previous flush |
| BatchLog.EpochCadence | Pstage1_ImageClassification/py/train_mp.py:246-265 | an epoch logs `len(train_loader) // log_interval` records, one per complete window, at step `epoch * len(train_loader) + idx` |
| TrainLoop.MinLoss | Pstage1_ImageClassification/py/train_mp.py:306 | `min(best_val_loss, val_loss)` is finite, at most the new loss and at most the old bound, and is one of the two |
| TrainLoop.UpdateFacts | Pstage1_ImageClassification/py/train_mp.py:306-317 | after one update the counter is 0 iff the epoch improved and grows by one otherwise; best F1 and accuracy become the larger of old best and new value; the best loss becomes finite and no larger than either |
| TrainLoop.EpochSaves | Pstage1_ImageClassification/py/train_mp.py:271-318 | an epoch makes two saves (`epoch{e}.pth`, `last.pth`), a second save of `epoch{e}.pth` on every fifth epoch, and one of `best.pth` when it improves |
| TrainLoop.EpochSavesFacts | Pstage1_ImageClassification/py/train_mp.py:271-318 | an epoch's saves all hold that epoch's weights, and `last.pth` comes last; `best.pth` is written iff the epoch improves; `epoch{e}.pth` is written twice on every fifth epoch and once otherwise |
| TrainLoop.Replay | Pstage1_ImageClassification/py/train_mp.py:196-317 | at most `epochs` epochs run; fewer only when the counter has reached the patience; the counter stays within the patience and the epochs run; best F1 and accuracy stay non-negative; the best loss is infinite iff no epoch ran |
| TrainLoop.StopIsFinal | Pstage1_ImageClassification/py/train_mp.py:203 | once the counter reaches the patience, later epochs change nothing |
| TrainLoop.ReplayStep | Pstage1_ImageClassification/py/train_mp.py:201-318 | one more epoch either changes nothing (loop broken) or performs one update and appends that epoch's saves |
| TrainLoop.AllLogsStep | Pstage1_ImageClassification/py/train_mp.py:209-267 | one more epoch appends that epoch's training records |
| TrainLoop.AllLogsCount | Pstage1_ImageClassification/py/train_mp.py:209-267 | the run logs, over the epochs that ran, `len(train_loader) // log_interval` records per epoch |
| TrainLoop.Train | Pstage1_ImageClassification/py/train_mp.py:196-318 | the epoch loop's final counter, best metrics, saves and number of epochs run are those of `Replay`; its training records are those of the epochs that ran |
| TrainLoopFacts.LatestSave | Pstage1_ImageClassification/py/train_mp.py:313-318 | a file has no save iff no save names it, and the epoch it holds comes from a save to it |
| TrainLoopFacts.LatestSaveAppend | Pstage1_ImageClassification/py/train_mp.py:313-318 | a later save to a file overrides earlier ones |
| TrainLoopFacts.LatestOfEpochSaves | Pstage1_ImageClassification/py/train_mp.py:311-318 | within one epoch, `best.pth` gets that epoch's weights iff it improved, and `last.pth` always does |
| TrainLoopFacts.ExecutedEpoch | Pstage1_ImageClassification/py/train_mp.py:201-203 | an epoch that ran started with the counter below the patience and with all earlier epochs run |
| TrainLoopFacts.EpochTransition | Pstage1_ImageClassification/py/train_mp.py:311-317 | the counter resets to 0 iff `val_f1 > best_val_f1` (strict) and otherwise grows by 1; the best F1 is updated only then; `best.pth` is among the epoch's saves iff it improved |
| TrainLoopFacts.RunningExtremes | Pstage1_ImageClassification/py/train_mp.py:197-314 | best F1 and accuracy bound every value seen and are one of them or still 0; the best loss is finite once an epoch ran, bounds every loss seen from below, and is one of them |
| TrainLoopFacts.BestNeverDecreases | Pstage1_ImageClassification/py/train_mp.py:306-314 | best F1 and accuracy never decrease from one epoch to a later one, and the best loss never increases |
| TrainLoopFacts.NoImprovementSinceCounterReset | Pstage1_ImageClassification/py/train_mp.py:311-317 | none of the last `early_stop` epochs beat the best F1 |
| TrainLoopFacts.CounterCountsAllWithoutImprovement | Pstage1_ImageClassification/py/train_mp.py:197-317 | a counter equal to the number of epochs run means the best F1 is still 0 |
| TrainLoopFacts.ResetCarried | Pstage1_ImageClassification/py/train_mp.py:311-317 | an epoch that does not improve, or does not run, keeps the best F1 and the number of epochs run before the counter's last reset |
| TrainLoopFacts.CounterResetByLastImprovement | Pstage1_ImageClassification/py/train_mp.py:311-317 | otherwise the epoch just before the counted ones set the best F1, strictly beating the best of the epochs before it |
| TrainLoopFacts.EpochBounds | Pstage1_ImageClassification/py/train_mp.py:201-203 | at most `epochs` epochs run; stopping early means the counter reached the patience; a patience <= 0 runs none; a positive patience runs at least min(patience, epochs) |
| TrainLoopFacts.SavesOfExecutedEpochs | Pstage1_ImageClassification/py/train_mp.py:271-318 | no save holds the weights of an epoch that did not run |
| TrainLoopFacts.CheckpointsExtend | Pstage1_ImageClassification/py/train_mp.py:271-318 | appending an epoch's saves keeps the earlier epochs' checkpoints and adds its own |
| TrainLoopFacts.EpochCheckpoints | Pstage1_ImageClassification/py/train_mp.py:271-318 | every epoch e that ran saves `last.pth` and saves `epoch{e}.pth` twice when (e+1) % 5 == 0 and once otherwise |
| TrainLoopFacts.LastCheckpoint | Pstage1_ImageClassification/py/train_mp.py:318 | `last.pth` ends up holding the last epoch that ran, and is never written if none ran |
| TrainLoopFacts.BestCheckpointWritten | Pstage1_ImageClassification/py/train_mp.py:311-314 | `best.pth` is written iff the best F1 has left its start value 0 |
| TrainLoopFacts.BestCheckpointHoldsBest | Pstage1_ImageClassification/py/train_mp.py:311-314 | `best.pth` holds an epoch that ran, and that epoch's F1 is the best F1 |
| TrainLoopFacts.PatienceScenario | Pstage1_ImageClassification/py/train_mp.py:201-318 | F1s 0.50, 0.48, 0.40 with patience 2 run all three epochs, end with counter 2 and best 0.50, and leave `best.pth` holding epoch 0 |
| TrainLoopFacts.EarlyStopScenario | Pstage1_ImageClassification/py/train_mp.py:201-203 | with patience 2, a fourth epoch that would have improved (F1 0.90) never runs |

## Left out

- Path normalisation by `pathlib`: paths are taken to be already in the form `str(Path(path))` gives them (no trailing `/`, no `.` components).
- `Path.exists` and `glob.glob`: they become the inputs `pathExists` and `dirs`.
- Regex details: the stem is assumed to hold no regex metacharacters, and `\d` is restricted to the ASCII digits (Python's `\d` also matches other Unicode decimal digits).
- RunDir.Stem: `Path.stem` is modelled on a single final component; the special names `.` and `..` are not treated separately.
- Floating point: losses, F1 scores, accuracies and weights are mathematical reals, with no rounding and no NaN.
- WeightedSampler: labels are natural numbers; `print("Weighted")` and the `WeightedRandomSampler` draw itself are not modelled.
- The `Imbalanced` and `Dynamic` samplers and the other sampler branches: they are foreign library code.
- The model, optimizer, `StepLR` scheduler, `GradScaler`, `autocast` and the forward and backward passes: they are tensor computations. Only which loss expression is assigned, and in what order, is modelled.
- `generate_cutmix_image` and `mixup_data`: they live in `utils`, which is not part of this model.
- The random draw `np.random.rand(1)`: it becomes the input `r`.
- Validation averaging (the appends to `val_loss_items`, `val_acc_items` and `val_f1_items`, and the means): each epoch's `val_f1`, `val_acc` and `val_loss` are inputs.
- `f1_score`, `grid_image` and the denormalisation of images: they are foreign library code.
- `time.time()`, `print` and the TensorBoard writer: a flush is recorded as a `TrainLog` value, without the elapsed time or the learning rate.
- The `config.json` dump and argparse: they are file and command-line I/O.
- `torch.save`: it becomes a `Save` event naming the file and the epoch whose weights it holds.
- BatchLog.RunBatches: requires `log_interval > 0`, and `logInterval` is a `nat`. With `log_interval == 0` the source raises `ZeroDivisionError` at the first batch, and this model does not represent that crash. A negative `log_interval` is accepted by argparse: Python's `%` then still flushes after every -L batches, but divides by the negative L, so the logged averages are negated. The model does not cover that case.
- TrainLoop.Train: `val loop` at line 273 is a syntax error and `model_path` at line 175 is undefined. The model follows the evident control flow and reproduces neither.

## Findings

| source | as written | input that shows it | evidently intended | confidence | as-written member | corrected member |
|---|---|---|---|---|---|---|
| Pstage1_ImageClassification/py/train_mp.py:62 | the suffix is taken after the leftmost stem-plus-digit anywhere in each globbed name, not after the path itself | an existing `exp1/exp` with names `exp1/exp` and `exp1/exp2`: both names give suffix 1 (from the parent `exp1`), n = 2, and `exp1/exp2` is returned although it exists | read the digits right after the whole path, so the new name is always fresh | not executed | RunDir.CollisionAsWritten | RunDir.AnchoredIsFresh |
| Pstage1_ImageClassification/py/train_mp.py:224 | the mixup test is a second `if` whose `else` assigns the plain loss, so the cutmix loss from lines 217-222 is always overwritten; it costs a forward pass and is never trained on | r = 0.9, Cbeta = 0.5, CutMix = 1, Mbeta = 0.95, MixUp = 1: cutmix is computed, then `loss = criterion(outs, labels)` is backpropagated | `elif`, so that at most one augmentation applies and cutmix takes effect when its gate is open | not executed | Augment.CutmixDiscardedExample | Augment.SelectBranchElif |
