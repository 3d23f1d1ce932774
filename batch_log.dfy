/** The training batch loop's accumulators (train_mp.py:206-267):
    `loss_value`, `matches` and `f1_value` grow by each batch's loss, its
    number of correct predictions and its macro F1, and every
    `log_interval` batches their averages are logged and they are reset.
    The per-batch numbers are inputs: the forward pass, `f1_score` and the
    console and TensorBoard writers are not modelled; a flush is recorded
    as a `TrainLog` value. */
module BatchLog {

  /** What one batch contributes: `loss.item()`,
      `(preds == labels).sum().item()` and its macro F1. */
  datatype BatchResult = BatchResult(loss: real, matches: nat, f1: real)

  /** One flush: the TensorBoard step `epoch * len(train_loader) + idx`
      and the three averages `train_loss`, `train_acc`, `train_f1`. */
  datatype TrainLog = TrainLog(step: int, loss: real, acc: real, f1: real)

  function LossSum(s: seq<BatchResult>): real {
    if s == [] then 0.0 else LossSum(s[..|s| - 1]) + s[|s| - 1].loss
  }

  function MatchSum(s: seq<BatchResult>): nat {
    if s == [] then 0 else MatchSum(s[..|s| - 1]) + s[|s| - 1].matches
  }

  function F1Sum(s: seq<BatchResult>): real {
    if s == [] then 0.0 else F1Sum(s[..|s| - 1]) + s[|s| - 1].f1
  }

  lemma SumsExtend(s: seq<BatchResult>, a: nat, b: nat)
    requires a <= b < |s|
    ensures LossSum(s[a..b + 1]) == LossSum(s[a..b]) + s[b].loss
    ensures MatchSum(s[a..b + 1]) == MatchSum(s[a..b]) + s[b].matches
    ensures F1Sum(s[a..b + 1]) == F1Sum(s[a..b]) + s[b].f1
  {
    assert s[a..b + 1][..b - a] == s[a..b];
  }

  /** The record logged after batch idx when the window of the last
      logInterval batches, ending at idx, is complete. */
  function Flush(epoch: nat, batches: seq<BatchResult>, idx: nat, logInterval: nat, batchSize: nat): (r: TrainLog)
    requires logInterval > 0 && batchSize > 0
    requires logInterval <= idx + 1 <= |batches|
    ensures r.step == epoch * |batches| + idx
    ensures var w, n := batches[idx + 1 - logInterval..idx + 1], logInterval as real;
      && r.loss * n == LossSum(w)
      && r.f1 * n == F1Sum(w)
      && r.acc * batchSize as real * n == MatchSum(w) as real
  {
    var w := batches[idx + 1 - logInterval..idx + 1];
    var n := logInterval as real;
    TrainLog(epoch * |batches| + idx, LossSum(w) / n,
             MatchSum(w) as real / batchSize as real / n, F1Sum(w) / n)
  }

  /** The records logged during the first n batches of an epoch. */
  function LogsUpTo(epoch: nat, batches: seq<BatchResult>, n: nat, logInterval: nat, batchSize: nat): seq<TrainLog>
    requires logInterval > 0 && batchSize > 0 && n <= |batches|
  {
    if n == 0 then []
    else LogsUpTo(epoch, batches, n - 1, logInterval, batchSize) +
         if n % logInterval == 0 then [Flush(epoch, batches, n - 1, logInterval, batchSize)] else []
  }

  /** The records an epoch logs. */
  function EpochLogs(epoch: nat, batches: seq<BatchResult>, logInterval: nat, batchSize: nat): seq<TrainLog>
    requires logInterval > 0 && batchSize > 0
  {
    LogsUpTo(epoch, batches, |batches|, logInterval, batchSize)
  }

  lemma ModStep(i: nat, m: nat)
    requires m > 0
    ensures (i + 1) % m == 0 ==> i % m == m - 1
    ensures (i + 1) % m != 0 ==> (i + 1) % m == i % m + 1
  {
    var q, r := i / m, i % m;
    assert i == q * m + r && 0 <= r < m;
    if r + 1 < m {
      assert i + 1 == q * m + (r + 1);
      assert (i + 1) / m == q && (i + 1) % m == r + 1 by {
        DivModUnique(i + 1, m, q, r + 1);
      }
    } else {
      assert i + 1 == (q + 1) * m;
      DivModUnique(i + 1, m, q + 1, 0);
    }
  }

  lemma DivModUnique(n: nat, m: nat, q: int, r: int)
    requires m > 0 && 0 <= r < m && n == q * m + r
    ensures n / m == q && n % m == r
  {
    var q', r' := n / m, n % m;
    assert n == q' * m + r' && 0 <= r' < m;
    var d := q - q';
    assert d * m == r' - r by {
      assert q * m - q' * m == (q - q') * m;
    }
    SmallMultiple(d, m);
  }

  /** A multiple of m strictly between -m and m is 0. */
  lemma SmallMultiple(d: int, m: int)
    requires m > 0 && -m < d * m < m
    ensures d == 0
  {
  }

  /** The batch loop of one epoch.  It returns the records it logged and
      the accumulators as they stand after the last batch. */
  method RunBatches(epoch: nat, batches: seq<BatchResult>, logInterval: nat, batchSize: nat)
    returns (logs: seq<TrainLog>, lossValue: real, matches: nat, f1Value: real)
    requires logInterval > 0 && batchSize > 0
    ensures logs == EpochLogs(epoch, batches, logInterval, batchSize)
    ensures var w := batches[|batches| - |batches| % logInterval..];
      lossValue == LossSum(w) && matches == MatchSum(w) && f1Value == F1Sum(w)
  {
    logs := [];
    lossValue, matches, f1Value := 0.0, 0, 0.0;
    var idx := 0;
    while idx < |batches|
      invariant 0 <= idx <= |batches|
      invariant logs == LogsUpTo(epoch, batches, idx, logInterval, batchSize)
      invariant var w := batches[idx - idx % logInterval..idx];
        lossValue == LossSum(w) && matches == MatchSum(w) && f1Value == F1Sum(w)
    {
      ModStep(idx, logInterval);
      SumsExtend(batches, idx - idx % logInterval, idx);
      lossValue := lossValue + batches[idx].loss;
      matches := matches + batches[idx].matches;
      f1Value := f1Value + batches[idx].f1;
      if (idx + 1) % logInterval == 0 {
        var n := logInterval as real;
        logs := logs + [TrainLog(epoch * |batches| + idx, lossValue / n,
                                 matches as real / batchSize as real / n, f1Value / n)];
        lossValue, matches, f1Value := 0.0, 0, 0.0;
      }
      idx := idx + 1;
    }
    assert batches[idx - idx % logInterval..idx] == batches[|batches| - |batches| % logInterval..];
  }

  /** The first n batches log one record per complete window of
      logInterval batches: n == count * logInterval + n % logInterval. */
  lemma {:induction false} LogsCount(epoch: nat, batches: seq<BatchResult>, n: nat, logInterval: nat, batchSize: nat)
    requires logInterval > 0 && batchSize > 0 && n <= |batches|
    ensures |LogsUpTo(epoch, batches, n, logInterval, batchSize)| * logInterval + n % logInterval == n
  {
    if n > 0 {
      LogsCount(epoch, batches, n - 1, logInterval, batchSize);
      var c := |LogsUpTo(epoch, batches, n - 1, logInterval, batchSize)|;
      CountStep(c, n, logInterval);
      var logs := LogsUpTo(epoch, batches, n, logInterval, batchSize);
      if n % logInterval == 0 {
        assert |logs| == c + 1;
      } else {
        assert |logs| == c;
      }
    }
  }

  lemma CountStep(c: nat, n: nat, m: nat)
    requires m > 0 && n > 0 && c * m + (n - 1) % m == n - 1
    ensures n % m == 0 ==> c * m + m == n && (c + 1) * m + n % m == n
    ensures n % m != 0 ==> c * m + n % m == n
  {
    ModStep(n - 1, m);
    assert (c + 1) * m == c * m + m;
  }

  /** Index of the last batch of the k-th window of m batches. */
  function WindowEnd(k: nat, m: nat): nat
    requires m > 0
  {
    k * m + m - 1
  }

  /** The k-th record is logged after batch WindowEnd(k, logInterval) and
      averages exactly the logInterval batches since the previous flush. */
  lemma {:induction false} LogsAt(epoch: nat, batches: seq<BatchResult>, n: nat, logInterval: nat, batchSize: nat)
    requires logInterval > 0 && batchSize > 0 && n <= |batches|
    ensures var logs := LogsUpTo(epoch, batches, n, logInterval, batchSize);
      forall k :: 0 <= k < |logs| ==>
        WindowEnd(k, logInterval) < n &&
        logs[k] == Flush(epoch, batches, WindowEnd(k, logInterval), logInterval, batchSize)
  {
    if n > 0 {
      var logs := LogsUpTo(epoch, batches, n, logInterval, batchSize);
      var prev := LogsUpTo(epoch, batches, n - 1, logInterval, batchSize);
      LogsAt(epoch, batches, n - 1, logInterval, batchSize);
      LogsCount(epoch, batches, n - 1, logInterval, batchSize);
      CountStep(|prev|, n, logInterval);
      forall k | 0 <= k < |logs|
        ensures WindowEnd(k, logInterval) < n
        ensures logs[k] == Flush(epoch, batches, WindowEnd(k, logInterval), logInterval, batchSize)
      {
        if k < |prev| {
          assert logs[k] == prev[k];
        } else {
          assert k == |prev| && n % logInterval == 0;
          assert WindowEnd(k, logInterval) == n - 1;
        }
      }
    }
  }

  /** The cadence over a whole epoch: b / logInterval records, the k-th
      after batch (k + 1) * logInterval - 1; so the last b % logInterval
      batches of an epoch are added up but never logged. */
  lemma EpochCadence(epoch: nat, batches: seq<BatchResult>, logInterval: nat, batchSize: nat)
    requires logInterval > 0 && batchSize > 0
    ensures var logs := EpochLogs(epoch, batches, logInterval, batchSize);
      && |logs| == |batches| / logInterval
      && (forall k :: 0 <= k < |logs| ==>
            WindowEnd(k, logInterval) < |batches| &&
            logs[k] == Flush(epoch, batches, WindowEnd(k, logInterval), logInterval, batchSize))
      && |logs| * logInterval + |batches| % logInterval == |batches|
  {
    var logs := EpochLogs(epoch, batches, logInterval, batchSize);
    LogsCount(epoch, batches, |batches|, logInterval, batchSize);
    LogsAt(epoch, batches, |batches|, logInterval, batchSize);
    DivModUnique(|batches|, logInterval, |logs|, |batches| % logInterval);
  }
}
