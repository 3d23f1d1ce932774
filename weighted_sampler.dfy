/** The weights handed to `WeightedRandomSampler` (train_mp.py:112-115):
    `np.unique(labels, return_counts=True)`, the class weights
    `sum(counts) / c` and the per-example weights `class_weights[e]`.
    Labels are class indices (`nat`); floats are modelled as `real`. */
module WeightedSampler {
  import opened Wrappers

  /** Number of occurrences of v in s. */
  function Count(s: seq<nat>, v: nat): (c: nat)
    ensures c <= |s|
    ensures c > 0 <==> v in s
  {
    if s == [] then 0
    else Count(s[..|s| - 1], v) + (if s[|s| - 1] == v then 1 else 0)
  }

  /** Number of elements of s below hi. */
  function CountBelow(s: seq<nat>, hi: nat): nat {
    if s == [] then 0
    else CountBelow(s[..|s| - 1], hi) + (if s[|s| - 1] < hi then 1 else 0)
  }

  /** One more than the largest label (0 for no labels). */
  function Bound(s: seq<nat>): (b: nat)
    ensures forall j :: 0 <= j < |s| ==> s[j] < b
    ensures b == 0 || b - 1 in s
  {
    if s == [] then 0
    else
      var b := Bound(s[..|s| - 1]);
      assert forall j :: 0 <= j < |s| - 1 ==> s[j] == s[..|s| - 1][j];
      if s[|s| - 1] + 1 > b then s[|s| - 1] + 1 else b
  }

  predicate StrictlyIncreasing(u: seq<nat>) {
    forall i, j :: 0 <= i < j < |u| ==> u[i] < u[j]
  }

  /** The distinct values of s below hi, in increasing order. */
  function ClassesBelow(s: seq<nat>, hi: nat): (u: seq<nat>)
    ensures |u| <= hi
    ensures forall i :: 0 <= i < |u| ==> u[i] < hi && u[i] in s
  {
    if hi == 0 then []
    else ClassesBelow(s, hi - 1) + (if hi - 1 in s then [hi - 1] else [])
  }

  lemma {:induction false} ClassesBelowComplete(s: seq<nat>, hi: nat)
    ensures forall v :: 0 <= v < hi && v in s ==> v in ClassesBelow(s, hi)
  {
    if hi > 0 {
      ClassesBelowComplete(s, hi - 1);
    }
  }

  lemma {:induction false} ClassesBelowIncreasing(s: seq<nat>, hi: nat)
    ensures StrictlyIncreasing(ClassesBelow(s, hi))
  {
    if hi > 0 {
      ClassesBelowIncreasing(s, hi - 1);
    }
  }

  /** `labels_unique` of `np.unique`: the distinct labels, sorted. */
  function Unique(labels: seq<nat>): (u: seq<nat>)
    ensures StrictlyIncreasing(u)
    ensures forall v :: v in u <==> v in labels
  {
    ClassesBelowIncreasing(labels, Bound(labels));
    ClassesBelowComplete(labels, Bound(labels));
    ClassesBelow(labels, Bound(labels))
  }

  /** The occurrences in s of each value of cs. */
  function CountsFor(s: seq<nat>, cs: seq<nat>): (counts: seq<nat>)
    ensures |counts| == |cs|
  {
    seq(|cs|, i requires 0 <= i < |cs| => Count(s, cs[i]))
  }

  /** `counts` of `np.unique`: the occurrences of each distinct label. */
  function Counts(labels: seq<nat>): (counts: seq<nat>)
    ensures |counts| == |Unique(labels)|
    ensures forall i :: 0 <= i < |counts| ==> counts[i] == Count(labels, Unique(labels)[i]) > 0
  {
    CountsFor(labels, Unique(labels))
  }

  function Sum(s: seq<nat>): nat {
    if s == [] then 0 else Sum(s[..|s| - 1]) + s[|s| - 1]
  }

  /** `[sum(counts) / c for c in counts]`. */
  function ClassWeights(labels: seq<nat>): (w: seq<real>)
    ensures |w| == |Unique(labels)|
    ensures forall i :: 0 <= i < |w| ==>
              w[i] == |labels| as real / Count(labels, Unique(labels)[i]) as real
  {
    var counts := Counts(labels);
    TotalIsLength(labels);
    seq(|counts|, i requires 0 <= i < |counts| => Sum(counts) as real / counts[i] as real)
  }

  /** `[class_weights[e] for e in all_label_ids]`; None where a label is
      not a valid index into `class_weights` (an IndexError). */
  function ExampleWeights(labels: seq<nat>): Option<seq<real>> {
    var cw := ClassWeights(labels);
    if forall j :: 0 <= j < |labels| ==> labels[j] < |cw|
    then Some(seq(|labels|, j requires 0 <= j < |labels| => cw[labels[j]]))
    else None
  }

  /** `class_weights[e]` fails exactly when some label is not below the
      number of classes; otherwise there is one weight per label, that of
      the class at position e of `labels_unique`. */
  lemma ExampleWeightsIndexing(labels: seq<nat>)
    ensures var w := ExampleWeights(labels);
      w.None? <==> exists j :: 0 <= j < |labels| && labels[j] >= |Unique(labels)|
    ensures var w := ExampleWeights(labels);
      w.Some? ==> |w.value| == |labels|
    ensures var w := ExampleWeights(labels);
      w.Some? ==> forall j :: 0 <= j < |labels| ==>
        w.value[j] == |labels| as real / Count(labels, Unique(labels)[labels[j]]) as real
  {
  }

  /** The labels are exactly the class indices 0..k-1. */
  predicate ExactlyClasses(labels: seq<nat>, k: nat) {
    (forall j :: 0 <= j < |labels| ==> labels[j] < k) &&
    (forall v :: 0 <= v < k ==> v in labels)
  }

  lemma {:induction false} CountBelowStep(s: seq<nat>, hi: nat)
    ensures CountBelow(s, hi + 1) == CountBelow(s, hi) + Count(s, hi)
  {
    if s != [] {
      CountBelowStep(s[..|s| - 1], hi);
    }
  }

  lemma {:induction false} CountBelowBound(s: seq<nat>, hi: nat)
    requires forall j :: 0 <= j < |s| ==> s[j] < hi
    ensures CountBelow(s, hi) == |s|
  {
    if s != [] {
      CountBelowBound(s[..|s| - 1], hi);
    }
  }

  lemma CountsForAppend(s: seq<nat>, cs: seq<nat>, x: nat)
    ensures CountsFor(s, cs + [x]) == CountsFor(s, cs) + [Count(s, x)]
  {
  }

  lemma SumAppend(a: seq<nat>, x: nat)
    ensures Sum(a + [x]) == Sum(a) + x
  {
    assert (a + [x])[..|a|] == a;
  }

  lemma {:induction false} SumOfClassCounts(s: seq<nat>, hi: nat)
    ensures Sum(CountsFor(s, ClassesBelow(s, hi))) == CountBelow(s, hi)
  {
    if hi > 0 {
      var u := ClassesBelow(s, hi - 1);
      SumOfClassCounts(s, hi - 1);
      CountBelowStep(s, hi - 1);
      if hi - 1 in s {
        assert ClassesBelow(s, hi) == u + [hi - 1];
        CountsForAppend(s, u, hi - 1);
        SumAppend(CountsFor(s, u), Count(s, hi - 1));
      } else {
        assert ClassesBelow(s, hi) == u;
      }
    } else {
      CountBelowZero(s);
    }
  }

  lemma {:induction false} CountBelowZero(s: seq<nat>)
    ensures CountBelow(s, 0) == 0
  {
    if s != [] {
      CountBelowZero(s[..|s| - 1]);
    }
  }

  /** `sum(counts)` is the number of labels. */
  lemma TotalIsLength(labels: seq<nat>)
    ensures Sum(Counts(labels)) == |labels|
  {
    SumOfClassCounts(labels, Bound(labels));
    CountBelowBound(labels, Bound(labels));
  }

  lemma {:induction false} ClassesBelowAllPresent(s: seq<nat>, hi: nat)
    requires forall v :: 0 <= v < hi ==> v in s
    ensures ClassesBelow(s, hi) == seq(hi, i => i)
  {
    if hi > 0 {
      ClassesBelowAllPresent(s, hi - 1);
    }
  }

  lemma {:induction false} ClassesBelowFull(s: seq<nat>, hi: nat)
    requires |ClassesBelow(s, hi)| == hi
    ensures forall v :: 0 <= v < hi ==> v in s
  {
    if hi > 0 {
      ClassesBelowFull(s, hi - 1);
    }
  }

  lemma {:induction false} ClassesBelowStable(s: seq<nat>, lo: nat, hi: nat)
    requires lo <= hi
    requires forall j :: 0 <= j < |s| ==> s[j] < lo
    ensures ClassesBelow(s, hi) == ClassesBelow(s, lo)
    decreases hi - lo
  {
    if lo < hi {
      ClassesBelowStable(s, lo, hi - 1);
      assert hi - 1 !in s;
    }
  }

  /** With labels exactly 0..k-1, `np.unique` returns 0..k-1 itself. */
  lemma UniqueOfExactClasses(labels: seq<nat>, k: nat)
    requires ExactlyClasses(labels, k)
    ensures Unique(labels) == seq(k, i => i)
  {
    assert Bound(labels) == k by {
      if k > 0 {
        assert k - 1 in labels;
        var j :| 0 <= j < |labels| && labels[j] == k - 1;
        assert Bound(labels) > k - 1;
      } else {
        assert labels == [];
      }
    }
    ClassesBelowAllPresent(labels, k);
  }

  /** `class_weights[e]` succeeds for every label exactly when the labels
      are the class indices 0..k-1, k being the number of distinct labels. */
  lemma ExampleWeightsDefinedIff(labels: seq<nat>)
    ensures ExampleWeights(labels).Some? <==> ExactlyClasses(labels, |Unique(labels)|)
  {
    var m := |Unique(labels)|;
    if ExampleWeights(labels).Some? {
      assert forall j :: 0 <= j < |labels| ==> labels[j] < m;
      ClassesBelowStable(labels, m, Bound(labels));
      ClassesBelowFull(labels, m);
    }
  }

  /** With labels exactly 0..k-1 there is one weight per label, and each is
      the number of labels divided by the number of labels of its class. */
  lemma ExampleWeightsValue(labels: seq<nat>, k: nat)
    requires ExactlyClasses(labels, k)
    ensures ExampleWeights(labels).Some?
    ensures |ExampleWeights(labels).value| == |labels|
    ensures forall j :: 0 <= j < |labels| ==>
              ExampleWeights(labels).value[j] ==
              |labels| as real / Count(labels, labels[j]) as real
  {
    UniqueOfExactClasses(labels, k);
    TotalIsLength(labels);
    ExampleWeightsDefinedIff(labels);
  }

  lemma DivisionAntitone(n: real, a: real, b: real)
    requires n > 0.0 && 0.0 < a < b
    ensures n / a > n / b
  {
  }

  /** A label whose class is rarer gets a strictly larger weight, and
      labels of equally frequent classes get equal weights. */
  lemma RarerClassWeighsMore(labels: seq<nat>, k: nat, i: nat, j: nat)
    requires ExactlyClasses(labels, k)
    requires i < |labels| && j < |labels|
    ensures ExampleWeights(labels).Some?
    ensures var w := ExampleWeights(labels).value;
      && |w| == |labels|
      && (Count(labels, labels[i]) < Count(labels, labels[j]) ==> w[i] > w[j])
      && (Count(labels, labels[i]) == Count(labels, labels[j]) ==> w[i] == w[j])
  {
    ExampleWeightsValue(labels, k);
    var ci, cj := Count(labels, labels[i]), Count(labels, labels[j]);
    assert ci > 0 && cj > 0 by {
      assert labels[i] in labels && labels[j] in labels;
    }
    if ci < cj {
      DivisionAntitone(|labels| as real, ci as real, cj as real);
    }
  }

  /** Labels that start at 1 are not class indices 0..k-1 for any k, so
      some `class_weights[e]` is out of range: [1, 1, 2] has two distinct
      labels and label 2 is no index into two class weights. */
  lemma OffsetLabelsFail()
    ensures ExampleWeights([1, 1, 2]).None?
  {
    var s: seq<nat> := [1, 1, 2];
    ExampleWeightsDefinedIff(s);
    assert 0 !in s;
    assert s[0] == 1;
  }
}
