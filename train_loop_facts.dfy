/** What the epoch loop of train_mp.py promises, stated about `Replay`
    (which `TrainLoop.Train` is proved to compute). */
module TrainLoopFacts {
  import opened Wrappers
  import opened TrainLoop

  /** A loss bound no larger than another; `np.inf` is the largest. */
  predicate LossAtMost(a: LossBound, b: LossBound) {
    match b
    case Infinity => true
    case Finite(y) => a.Finite? && a.value <= y
  }

  /** The epoch whose weights the last save to file f holds, if any. */
  function LatestSave(saves: seq<Save>, f: File): (w: Option<nat>)
    ensures w.None? <==> forall k :: 0 <= k < |saves| ==> saves[k].file != f
    ensures w.Some? ==> Save(f, w.value) in saves
  {
    if saves == [] then None
    else if saves[|saves| - 1].file == f then Some(saves[|saves| - 1].weightsOf)
    else LatestSave(saves[..|saves| - 1], f)
  }

  lemma LatestSaveAppend(p: seq<Save>, q: seq<Save>, f: File)
    ensures LatestSave(p + q, f) == if LatestSave(q, f).Some? then LatestSave(q, f) else LatestSave(p, f)
    decreases |q|
  {
    if q != [] {
      assert (p + q)[..|p + q| - 1] == p + q[..|q| - 1];
      LatestSaveAppend(p, q[..|q| - 1], f);
    } else {
      assert p + q == p;
    }
  }

  /** Within one epoch's saves, `best.pth` is written iff the epoch
      improved and `last.pth` always, both with that epoch's weights. */
  lemma LatestOfEpochSaves(e: nat, improved: bool)
    ensures LatestSave(EpochSaves(e, improved), BestFile) == if improved then Some(e) else None
    ensures LatestSave(EpochSaves(e, improved), LastFile) == Some(e)
  {
    var added := EpochSaves(e, improved);
    if improved {
      assert added[..|added| - 1][|added| - 2] == Save(BestFile, e);
    } else {
      assert forall k :: 0 <= k < |added| ==> added[k].file != BestFile;
    }
  }

  /** An executed epoch e started with the counter below the patience and
      with exactly e epochs behind it, and performed one `Update`. */
  lemma {:induction false} ExecutedEpoch(vals: seq<Validation>, patience: int, e: nat)
    requires e < Replay(vals, patience).executed
    ensures e < |vals|
    ensures var o := Replay(vals[..e], patience);
      && o.executed == e
      && o.tracker.earlyStop < patience
      && Replay(vals[..e + 1], patience) ==
           Outcome(Update(o.tracker, vals[e]),
                   o.saves + EpochSaves(e, Improves(o.tracker, vals[e])), e + 1)
  {
    var p := vals[..|vals| - 1];
    var o := Replay(p, patience);
    assert vals != [];
    if e < o.executed {
      ExecutedEpoch(p, patience, e);
      assert p[..e] == vals[..e] && p[..e + 1] == vals[..e + 1];
    } else {
      assert e == |p| && vals[..e] == p && vals[..e + 1] == vals;
    }
  }

  /** On each executed epoch the counter is reset to 0 exactly when the
      validation F1 strictly beats the best so far, and otherwise grows by
      one; `best.pth` is among that epoch's saves only when it improves, and
      `epoch{e}.pth` is saved twice on every fifth epoch, once otherwise. */
  lemma EpochTransition(vals: seq<Validation>, patience: int, e: nat)
    requires e < Replay(vals, patience).executed
    ensures e < |vals|
    ensures var before := Replay(vals[..e], patience);
      var after := Replay(vals[..e + 1], patience);
      var improved := vals[e].f1 > before.tracker.bestF1;
      && before.tracker.earlyStop < patience
      && (after.tracker.earlyStop == 0 <==> improved)
      && (!improved ==> after.tracker.earlyStop == before.tracker.earlyStop + 1)
      && after.tracker.bestF1 == (if improved then vals[e].f1 else before.tracker.bestF1)
      && |before.saves| <= |after.saves| && after.saves[..|before.saves|] == before.saves
      && (Save(BestFile, e) in after.saves[|before.saves|..] <==> improved)
      && multiset(after.saves[|before.saves|..])[Save(EpochFile(e), e)] ==
           (if (e + 1) % 5 == 0 then 2 else 1)
  {
    ExecutedEpoch(vals, patience, e);
    var before := Replay(vals[..e], patience);
    var improved := vals[e].f1 > before.tracker.bestF1;
    var after := Replay(vals[..e + 1], patience);
    assert after.saves[|before.saves|..] == EpochSaves(e, improved);
    EpochSavesFacts(e, improved);
  }

  /** `best_val_f1` and `best_val_acc` are the running maxima of the epochs
      run, started at 0, and `best_val_loss` the running minimum, started
      at infinity: each bounds every value seen and is attained by one of
      them (or is still the start value). */
  lemma {:induction false} RunningExtremes(vals: seq<Validation>, patience: int)
    ensures var o := Replay(vals, patience);
      var t := o.tracker;
      && (forall i :: 0 <= i < o.executed ==> vals[i].f1 <= t.bestF1 && vals[i].acc <= t.bestAcc)
      && (forall i :: 0 <= i < o.executed ==> t.bestLoss.Finite? && t.bestLoss.value <= vals[i].loss)
      && (t.bestF1 == 0.0 || exists i :: 0 <= i < o.executed && vals[i].f1 == t.bestF1)
      && (t.bestAcc == 0.0 || exists i :: 0 <= i < o.executed && vals[i].acc == t.bestAcc)
      && (t.bestLoss.Finite? ==> exists i :: 0 <= i < o.executed && vals[i].loss == t.bestLoss.value)
  {
    if vals != [] {
      var p := vals[..|vals| - 1];
      RunningExtremes(p, patience);
      assert forall i :: 0 <= i < |p| ==> p[i] == vals[i];
    }
  }

  /** The best metrics never get worse from one epoch to a later one. */
  lemma {:induction false} BestNeverDecreases(vals: seq<Validation>, patience: int, i: nat, j: nat)
    requires i <= j <= |vals|
    ensures var a := Replay(vals[..i], patience).tracker;
      var b := Replay(vals[..j], patience).tracker;
      a.bestF1 <= b.bestF1 && a.bestAcc <= b.bestAcc && LossAtMost(b.bestLoss, a.bestLoss)
    decreases j - i
  {
    if i < j {
      BestNeverDecreases(vals, patience, i, j - 1);
      ReplayStep(vals, patience, j - 1);
    }
  }

  /** The counter is the number of epochs since the last strict
      improvement.  First half: none of the last `early_stop` epochs beat
      the best F1 ... */
  lemma {:induction false} NoImprovementSinceCounterReset(vals: seq<Validation>, patience: int)
    ensures var o := Replay(vals, patience);
      forall i :: o.executed - o.tracker.earlyStop <= i < o.executed ==> vals[i].f1 <= o.tracker.bestF1
  {
    if vals != [] {
      var p := vals[..|vals| - 1];
      var op := Replay(p, patience);
      NoImprovementSinceCounterReset(p, patience);
      var n', c' := op.executed, op.tracker.earlyStop;
      assert forall i :: 0 <= i < |p| ==> p[i] == vals[i];
      if c' < n' {
        assert p[..n' - 1 - c'] == vals[..n' - 1 - c'];
      }
      if c' < patience {
        var e := |p|;
        assert n' == e;
        if vals[e].f1 > op.tracker.bestF1 {
          assert vals[..e] == p;
        }
      }
    }
  }

  /** ... second half: when the counter counts every epoch run, none ever
      improved and the best F1 is still its start value 0 ... */
  lemma {:induction false} CounterCountsAllWithoutImprovement(vals: seq<Validation>, patience: int)
    ensures var o := Replay(vals, patience);
      o.tracker.earlyStop == o.executed ==> o.tracker.bestF1 == 0.0
  {
    if vals != [] {
      CounterCountsAllWithoutImprovement(vals[..|vals| - 1], patience);
    }
  }

  /** ... and otherwise the epoch just before them set the best F1. */
  lemma {:induction false} CounterResetByLastImprovement(vals: seq<Validation>, patience: int)
    ensures var o := Replay(vals, patience);
      var n, c := o.executed, o.tracker.earlyStop;
      c < n ==> vals[n - 1 - c].f1 == o.tracker.bestF1 &&
                vals[n - 1 - c].f1 > Replay(vals[..n - 1 - c], patience).tracker.bestF1
  {
    if vals != [] {
      var e := |vals| - 1;
      var p := vals[..e];
      var op := Replay(p, patience);
      var o := Replay(vals, patience);
      CounterResetByLastImprovement(p, patience);
      if op.tracker.earlyStop >= patience || vals[e].f1 <= op.tracker.bestF1 {
        ResetCarried(vals, patience);
        if op.tracker.earlyStop < op.executed {
          PrefixOfPrefix(vals, patience, op.executed - 1 - op.tracker.earlyStop);
        }
      } else {
        assert o.tracker.earlyStop == 0 && o.executed == e + 1;
        assert o.tracker.bestF1 == vals[e].f1;
      }
    }
  }

  /** An epoch that does not reset the counter keeps the best F1 and the
      number of epochs run before the last reset. */
  lemma ResetCarried(vals: seq<Validation>, patience: int)
    requires vals != []
    requires var op := Replay(vals[..|vals| - 1], patience);
      op.tracker.earlyStop >= patience || vals[|vals| - 1].f1 <= op.tracker.bestF1
    ensures var o, op := Replay(vals, patience), Replay(vals[..|vals| - 1], patience);
      o.tracker.bestF1 == op.tracker.bestF1 &&
      o.executed - o.tracker.earlyStop == op.executed - op.tracker.earlyStop
  {
    var e := |vals| - 1;
    var op := Replay(vals[..e], patience);
    if op.tracker.earlyStop < patience {
      assert !Improves(op.tracker, vals[e]);
      assert Replay(vals, patience).tracker == Update(op.tracker, vals[e]);
    }
  }

  /** Cutting the last validation result does not change an earlier one
      or the replay of a shorter prefix. */
  lemma PrefixOfPrefix(vals: seq<Validation>, patience: int, k: nat)
    requires k < |vals| - 1
    ensures vals[..|vals| - 1][k] == vals[k]
    ensures Replay(vals[..|vals| - 1][..k], patience) == Replay(vals[..k], patience)
  {
    assert vals[..|vals| - 1][..k] == vals[..k];
  }

  /** The loop runs at most `epochs` epochs, stops early only once the
      counter has reached the patience, and with a positive patience runs
      at least min(patience, epochs) epochs. */
  lemma EpochBounds(vals: seq<Validation>, patience: int)
    ensures var o := Replay(vals, patience);
      && o.executed <= |vals|
      && (o.executed < |vals| ==> o.tracker.earlyStop >= patience)
      && (patience <= 0 ==> o.executed == 0)
      && (patience > 0 ==> o.executed >= if patience < |vals| then patience else |vals|)
  {
    if patience <= 0 && vals != [] {
      var o := Replay(vals, patience);
      if o.executed > 0 {
        ExecutedEpoch(vals, patience, 0);
      }
    }
  }

  /** No save holds the weights of an epoch that did not run. */
  lemma {:induction false} SavesOfExecutedEpochs(vals: seq<Validation>, patience: int)
    ensures var o := Replay(vals, patience);
      forall s :: s in o.saves ==> s.weightsOf < o.executed
  {
    if vals != [] {
      var p := vals[..|vals| - 1];
      var op := Replay(p, patience);
      SavesOfExecutedEpochs(p, patience);
      if op.tracker.earlyStop < patience {
        var e := |p|;
        var added := EpochSaves(e, Improves(op.tracker, vals[e]));
        EpochSavesFacts(e, Improves(op.tracker, vals[e]));
        assert Replay(vals, patience).saves == op.saves + added;
      }
    }
  }

  /** Epochs 0..e-1 each have their `epoch{d}.pth` and `last.pth` saves in
      prev; appending epoch e's saves adds epoch e and leaves the others'. */
  lemma CheckpointsExtend(prev: seq<Save>, e: nat, improved: bool)
    requires forall s :: s in prev ==> s.weightsOf < e
    requires forall d :: 0 <= d < e ==>
      Save(LastFile, d) in prev &&
      multiset(prev)[Save(EpochFile(d), d)] == if (d + 1) % 5 == 0 then 2 else 1
    ensures var next := prev + EpochSaves(e, improved);
      forall d :: 0 <= d <= e ==>
        Save(LastFile, d) in next &&
        multiset(next)[Save(EpochFile(d), d)] == if (d + 1) % 5 == 0 then 2 else 1
  {
    var added := EpochSaves(e, improved);
    EpochSavesFacts(e, improved);
    var next := prev + added;
    assert multiset(next) == multiset(prev) + multiset(added);
    forall d | 0 <= d <= e
      ensures Save(LastFile, d) in next
      ensures multiset(next)[Save(EpochFile(d), d)] == if (d + 1) % 5 == 0 then 2 else 1
    {
      if d < e {
        assert Save(EpochFile(d), d) !in added;
      } else {
        assert Save(EpochFile(e), e) !in prev;
        assert next[|next| - 1] == Save(LastFile, e);
      }
    }
  }

  /** Every executed epoch e saves `epoch{e}.pth` (twice on every fifth
      epoch, once otherwise) and `last.pth`. */
  lemma {:induction false} EpochCheckpoints(vals: seq<Validation>, patience: int)
    ensures var o := Replay(vals, patience);
      forall e :: 0 <= e < o.executed ==>
        Save(LastFile, e) in o.saves &&
        multiset(o.saves)[Save(EpochFile(e), e)] == if (e + 1) % 5 == 0 then 2 else 1
  {
    if vals != [] {
      var p := vals[..|vals| - 1];
      var op := Replay(p, patience);
      EpochCheckpoints(p, patience);
      if op.tracker.earlyStop < patience {
        SavesOfExecutedEpochs(p, patience);
        assert op.executed == |p|;
        CheckpointsExtend(op.saves, |p|, Improves(op.tracker, vals[|p|]));
      }
    }
  }

  /** `last.pth` ends up holding the last epoch run. */
  lemma {:induction false} LastCheckpoint(vals: seq<Validation>, patience: int)
    ensures var o := Replay(vals, patience);
      LatestSave(o.saves, LastFile) == if o.executed == 0 then None else Some(o.executed - 1)
  {
    if vals != [] {
      var p := vals[..|vals| - 1];
      var op := Replay(p, patience);
      var o := Replay(vals, patience);
      LastCheckpoint(p, patience);
      if op.tracker.earlyStop >= patience {
        assert o == op;
      } else {
        var e := |p|;
        var improved := Improves(op.tracker, vals[e]);
        LatestOfEpochSaves(e, improved);
        LatestSaveAppend(op.saves, EpochSaves(e, improved), LastFile);
        assert o.saves == op.saves + EpochSaves(e, improved);
        assert o.executed == e + 1;
      }
    }
  }

  /** `best.pth` is written exactly when some epoch improved, so that the
      best F1 has left its start value 0 ... */
  lemma {:induction false} BestCheckpointWritten(vals: seq<Validation>, patience: int)
    ensures var o := Replay(vals, patience);
      LatestSave(o.saves, BestFile).None? <==> o.tracker.bestF1 == 0.0
  {
    if vals != [] {
      var p := vals[..|vals| - 1];
      var op := Replay(p, patience);
      BestCheckpointWritten(p, patience);
      if op.tracker.earlyStop < patience {
        var e := |p|;
        var improved := Improves(op.tracker, vals[e]);
        LatestOfEpochSaves(e, improved);
        LatestSaveAppend(op.saves, EpochSaves(e, improved), BestFile);
      }
    }
  }

  /** ... and it holds the weights of an epoch that ran and whose F1 is the
      best F1. */
  lemma {:induction false} BestCheckpointHoldsBest(vals: seq<Validation>, patience: int)
    ensures var o := Replay(vals, patience);
      var b := LatestSave(o.saves, BestFile);
      b.Some? ==> b.value < o.executed && vals[b.value].f1 == o.tracker.bestF1
  {
    if vals != [] {
      var p := vals[..|vals| - 1];
      var op := Replay(p, patience);
      var o := Replay(vals, patience);
      BestCheckpointHoldsBest(p, patience);
      var b := LatestSave(op.saves, BestFile);
      if b.Some? {
        assert p[b.value] == vals[b.value];
      }
      if op.tracker.earlyStop >= patience {
        assert o == op;
      } else {
        var e := |p|;
        var improved := Improves(op.tracker, vals[e]);
        LatestOfEpochSaves(e, improved);
        LatestSaveAppend(op.saves, EpochSaves(e, improved), BestFile);
        assert o.saves == op.saves + EpochSaves(e, improved);
        if improved {
          assert LatestSave(o.saves, BestFile) == Some(e);
          assert o.tracker.bestF1 == vals[e].f1 && o.executed == e + 1;
        } else {
          assert LatestSave(o.saves, BestFile) == b;
          assert o.tracker.bestF1 == op.tracker.bestF1 && o.executed == op.executed + 1;
        }
      }
    }
  }

  /** Epochs 3, patience 2, F1 0.50, 0.48, 0.40: all three epochs run, the
      counter ends at 2, and `best.pth` holds epoch 0 with F1 0.50. */
  lemma PatienceScenario()
    ensures var vals := [Validation(0.50, 0.8, 1.0), Validation(0.48, 0.7, 1.1), Validation(0.40, 0.6, 1.2)];
      var o := Replay(vals, 2);
      o.executed == 3 && o.tracker.earlyStop == 2 && o.tracker.bestF1 == 0.50 &&
      LatestSave(o.saves, BestFile) == Some(0)
  {
    var vals := [Validation(0.50, 0.8, 1.0), Validation(0.48, 0.7, 1.1), Validation(0.40, 0.6, 1.2)];
    assert vals[..0] == [] && vals[..1][..0] == [];
    assert vals[..2][..1] == vals[..1];
    assert vals[..3][..2] == vals[..2] && vals[..3] == vals;
    ReplayStep(vals, 2, 0);
    ReplayStep(vals, 2, 1);
    ReplayStep(vals, 2, 2);
    var o := Replay(vals, 2);
    assert o.saves == EpochSaves(0, true) + EpochSaves(1, false) + EpochSaves(2, false);
    LatestSaveAppend(EpochSaves(0, true) + EpochSaves(1, false), EpochSaves(2, false), BestFile);
    LatestSaveAppend(EpochSaves(0, true), EpochSaves(1, false), BestFile);
  }

  /** With patience 2, two epochs without improvement end the run: the
      fourth epoch never runs, although its F1 would have been the best. */
  lemma EarlyStopScenario()
    ensures var vals := [Validation(0.50, 0.8, 1.0), Validation(0.40, 0.7, 1.1),
                         Validation(0.30, 0.6, 1.2), Validation(0.90, 0.9, 0.5)];
      var o := Replay(vals, 2);
      o.executed == 3 && o.tracker.earlyStop == 2 && o.tracker.bestF1 == 0.50
  {
    var vals := [Validation(0.50, 0.8, 1.0), Validation(0.40, 0.7, 1.1),
                 Validation(0.30, 0.6, 1.2), Validation(0.90, 0.9, 0.5)];
    assert vals[..0] == [];
    ReplayStep(vals, 2, 0);
    ReplayStep(vals, 2, 1);
    ReplayStep(vals, 2, 2);
    ReplayStep(vals, 2, 3);
    assert vals[..4] == vals;
  }
}
