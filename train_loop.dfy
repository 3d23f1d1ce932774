/** The epoch loop of `train` (train_mp.py:196-318): the early-stop
    counter, the best validation metrics and the checkpoints written.

    Each epoch's validation metrics and each batch's numbers are inputs;
    `torch.save` is recorded as a `Save` event naming the file and the
    epoch whose weights it holds. */
module TrainLoop {
  import opened BatchLog

  /** The epoch-level validation results `val_f1`, `val_acc`, `val_loss`. */
  datatype Validation = Validation(f1: real, acc: real, loss: real)

  /** `best_val_loss`: `np.inf` until the first epoch is validated. */
  datatype LossBound = Infinity | Finite(value: real)

  /** The checkpoint files in the run directory. */
  datatype File = EpochFile(epoch: nat) | BestFile | LastFile

  /** One `torch.save(model.module.state_dict(), ...)`. */
  datatype Save = Save(file: File, weightsOf: nat)

  /** The controller state: `early_stop`, `best_val_f1`, `best_val_acc`,
      `best_val_loss`. */
  datatype Tracker = Tracker(earlyStop: nat, bestF1: real, bestAcc: real, bestLoss: LossBound)

  /** The state before the first epoch (lines 196-199). */
  function Initial(): Tracker {
    Tracker(0, 0.0, 0.0, Infinity)
  }

  /** `min(best_val_loss, val_loss)`. */
  function MinLoss(b: LossBound, x: real): (m: LossBound)
    ensures m.Finite? && m.value <= x
    ensures b.Finite? ==> m.value <= b.value
    ensures m.value == x || m == b
  {
    match b
    case Infinity => Finite(x)
    case Finite(y) => Finite(if x < y then x else y)
  }

  /** The test at line 311: the epoch strictly improves on the best F1. */
  predicate Improves(t: Tracker, v: Validation) {
    v.f1 > t.bestF1
  }

  /** The bookkeeping after validating one epoch (lines 306-317). */
  function Update(t: Tracker, v: Validation): Tracker {
    Tracker(if Improves(t, v) then 0 else t.earlyStop + 1,
            if Improves(t, v) then v.f1 else t.bestF1,
            if v.acc > t.bestAcc then v.acc else t.bestAcc,
            MinLoss(t.bestLoss, v.loss))
  }

  /** After one update the counter is 0 exactly when the epoch improved
      and has grown by one otherwise; the best F1 and accuracy are the
      larger of the old best and the new value, and the best loss the
      smaller, now finite. */
  lemma UpdateFacts(t: Tracker, v: Validation)
    ensures var u := Update(t, v);
      && (u.earlyStop == 0 <==> Improves(t, v))
      && (!Improves(t, v) ==> u.earlyStop == t.earlyStop + 1)
      && u.bestF1 >= t.bestF1 && u.bestF1 >= v.f1 && (u.bestF1 == t.bestF1 || u.bestF1 == v.f1)
      && u.bestAcc >= t.bestAcc && u.bestAcc >= v.acc && (u.bestAcc == t.bestAcc || u.bestAcc == v.acc)
      && u.bestLoss.Finite? && u.bestLoss.value <= v.loss
      && (t.bestLoss.Finite? ==> u.bestLoss.value <= t.bestLoss.value)
  {
  }

  /** The saves of one executed epoch, in program order: `epoch{e}.pth`
      after training (line 271), again on every fifth epoch (line 310),
      `best.pth` when the epoch improves (line 313), `last.pth` (line 318). */
  function EpochSaves(e: nat, improved: bool): (saves: seq<Save>)
    ensures |saves| == 2 + (if (e + 1) % 5 == 0 then 1 else 0) + (if improved then 1 else 0)
  {
    [Save(EpochFile(e), e)]
    + (if (e + 1) % 5 == 0 then [Save(EpochFile(e), e)] else [])
    + (if improved then [Save(BestFile, e)] else [])
    + [Save(LastFile, e)]
  }

  /** Every save of an epoch holds that epoch's weights; `last.pth` comes
      last; `best.pth` is written only when the epoch improves;
      `epoch{e}.pth` is written twice on every fifth epoch, once otherwise. */
  lemma EpochSavesFacts(e: nat, improved: bool)
    ensures var saves := EpochSaves(e, improved);
      && (forall s :: s in saves ==> s.weightsOf == e)
      && saves[|saves| - 1] == Save(LastFile, e)
      && (Save(BestFile, e) in saves <==> improved)
      && multiset(saves)[Save(EpochFile(e), e)] == if (e + 1) % 5 == 0 then 2 else 1
  {
  }

  /** The controller after the epochs of vals, the saves they made and how
      many epoch bodies ran; epoch |vals| - 1 runs only if the counter is
      below the patience when it starts (line 203), and once the loop has
      broken nothing changes any more. */
  datatype Outcome = Outcome(tracker: Tracker, saves: seq<Save>, executed: nat)

  function Replay(vals: seq<Validation>, patience: int): (o: Outcome)
    ensures o.executed <= |vals|
    ensures o.executed < |vals| ==> o.tracker.earlyStop >= patience
    ensures o.tracker.earlyStop <= if patience > 0 then patience else 0
    ensures o.tracker.earlyStop <= o.executed
    ensures o.tracker.bestF1 >= 0.0 && o.tracker.bestAcc >= 0.0
    ensures o.tracker.bestLoss.Infinity? <==> o.executed == 0
  {
    if vals == [] then Outcome(Initial(), [], 0)
    else
      var o := Replay(vals[..|vals| - 1], patience);
      var e, v := |vals| - 1, vals[|vals| - 1];
      if o.tracker.earlyStop >= patience then o
      else Outcome(Update(o.tracker, v), o.saves + EpochSaves(e, Improves(o.tracker, v)), o.executed + 1)
  }

  /** The training records of the executed epochs, in order. */
  function AllLogs(batches: seq<seq<BatchResult>>, logInterval: nat, batchSize: nat): seq<TrainLog>
    requires logInterval > 0 && batchSize > 0
  {
    if batches == [] then []
    else AllLogs(batches[..|batches| - 1], logInterval, batchSize) +
         EpochLogs(|batches| - 1, batches[|batches| - 1], logInterval, batchSize)
  }

  /** The number of complete windows of logInterval batches, summed over
      the epochs: `len(train_loader) // log_interval` per epoch. */
  function WindowCount(batches: seq<seq<BatchResult>>, logInterval: nat): nat
    requires logInterval > 0
  {
    if batches == [] then 0
    else WindowCount(batches[..|batches| - 1], logInterval) + |batches[|batches| - 1]| / logInterval
  }

  /** The run logs one training record per complete window of every
      epoch that ran. */
  lemma {:induction false} AllLogsCount(batches: seq<seq<BatchResult>>, logInterval: nat, batchSize: nat)
    requires logInterval > 0 && batchSize > 0
    ensures |AllLogs(batches, logInterval, batchSize)| == WindowCount(batches, logInterval)
  {
    if batches != [] {
      AllLogsCount(batches[..|batches| - 1], logInterval, batchSize);
      EpochCadence(|batches| - 1, batches[|batches| - 1], logInterval, batchSize);
    }
  }

  /** Once the counter has reached the patience, later epochs change nothing. */
  lemma {:induction false} StopIsFinal(vals: seq<Validation>, patience: int, i: nat, j: nat)
    requires i <= j <= |vals|
    requires Replay(vals[..i], patience).tracker.earlyStop >= patience
    ensures Replay(vals[..j], patience) == Replay(vals[..i], patience)
    decreases j - i
  {
    if i < j {
      StopIsFinal(vals, patience, i, j - 1);
      assert vals[..j][..j - 1] == vals[..j - 1];
    }
  }

  lemma ReplayStep(vals: seq<Validation>, patience: int, e: nat)
    requires e < |vals|
    ensures var o := Replay(vals[..e], patience);
      Replay(vals[..e + 1], patience) ==
        if o.tracker.earlyStop >= patience then o
        else Outcome(Update(o.tracker, vals[e]),
                     o.saves + EpochSaves(e, Improves(o.tracker, vals[e])), o.executed + 1)
  {
    assert vals[..e + 1][..e] == vals[..e];
  }

  lemma AllLogsStep(batches: seq<seq<BatchResult>>, logInterval: nat, batchSize: nat, e: nat)
    requires logInterval > 0 && batchSize > 0 && e < |batches|
    ensures AllLogs(batches[..e + 1], logInterval, batchSize) ==
            AllLogs(batches[..e], logInterval, batchSize) + EpochLogs(e, batches[e], logInterval, batchSize)
  {
    assert batches[..e + 1][..e] == batches[..e];
  }

  lemma SavesShape(p: seq<Save>, e: nat, improved: bool)
    ensures p + EpochSaves(e, improved) ==
            p + [Save(EpochFile(e), e)]
              + (if (e + 1) % 5 == 0 then [Save(EpochFile(e), e)] else [])
              + (if improved then [Save(BestFile, e)] else [])
              + [Save(LastFile, e)]
  {
  }

  /** `train`'s epoch loop, abstracted to its control logic: epoch `epoch`
      trains on batches[epoch] and validates to vals[epoch]. */
  method Train(epochs: nat, patience: int, logInterval: nat, batchSize: nat,
               batches: seq<seq<BatchResult>>, vals: seq<Validation>)
    returns (t: Tracker, saves: seq<Save>, logs: seq<TrainLog>, executed: nat)
    requires |batches| == epochs && |vals| == epochs
    requires logInterval > 0 && batchSize > 0
    ensures Outcome(t, saves, executed) == Replay(vals, patience)
    ensures logs == AllLogs(batches[..executed], logInterval, batchSize)
  {
    var earlyStop: nat := 0;
    var bestF1, bestAcc, bestLoss := 0.0, 0.0, Infinity;
    saves, logs, executed := [], [], 0;
    var epoch := 0;
    while epoch < epochs
      invariant 0 <= epoch <= epochs && executed == epoch
      invariant Replay(vals[..epoch], patience) ==
                Outcome(Tracker(earlyStop, bestF1, bestAcc, bestLoss), saves, executed)
      invariant logs == AllLogs(batches[..epoch], logInterval, batchSize)
    {
      if earlyStop >= patience {
        StopIsFinal(vals, patience, epoch, epochs);
        break;
      }
      ghost var before := Tracker(earlyStop, bestF1, bestAcc, bestLoss);
      ghost var savesBefore := saves;
      var epochLogs, _, _, _ := RunBatches(epoch, batches[epoch], logInterval, batchSize);
      logs := logs + epochLogs;
      saves := saves + [Save(EpochFile(epoch), epoch)];
      var v := vals[epoch];
      bestLoss := MinLoss(bestLoss, v.loss);
      bestAcc := if v.acc > bestAcc then v.acc else bestAcc;
      if (epoch + 1) % 5 == 0 {
        saves := saves + [Save(EpochFile(epoch), epoch)];
      }
      ghost var improved := v.f1 > bestF1;
      ghost var again := if (epoch + 1) % 5 == 0 then [Save(EpochFile(epoch), epoch)] else [];
      assert saves == savesBefore + [Save(EpochFile(epoch), epoch)] + again;
      if v.f1 > bestF1 {
        saves := saves + [Save(BestFile, epoch)];
        bestF1 := v.f1;
        earlyStop := 0;
      } else {
        earlyStop := earlyStop + 1;
      }
      ghost var best := if improved then [Save(BestFile, epoch)] else [];
      assert saves == savesBefore + [Save(EpochFile(epoch), epoch)] + again + best;
      saves := saves + [Save(LastFile, epoch)];
      assert Tracker(earlyStop, bestF1, bestAcc, bestLoss) == Update(before, v);
      SavesShape(savesBefore, epoch, improved);
      ReplayStep(vals, patience, epoch);
      AllLogsStep(batches, logInterval, batchSize, epoch);
      executed := executed + 1;
      epoch := epoch + 1;
    }
    assert vals[..epochs] == vals;
    t := Tracker(earlyStop, bestF1, bestAcc, bestLoss);
  }
}
