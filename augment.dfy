/** Which loss a training batch backpropagates (train_mp.py:216-238).

    The random draw `r = np.random.rand(1)` and the four thresholds are
    inputs; the tensors, `generate_cutmix_image` and `mixup_data` are not
    modelled, only which assignments to `loss` happen and in what order. */
module Augment {

  /** The three expressions that can be assigned to `loss`. */
  datatype LossExpr =
    | CutmixBlend     // criterion(outs, target_a) * lam + ... after generate_cutmix_image
    | MixupBlend      // the same blend after mixup_data
    | PlainCriterion  // criterion(outs, labels)

  /** The assignments to `loss` in one batch, in program order; each one
      comes with its own forward pass `outs = model(inputs)`. */
  datatype BatchPlan = BatchPlan(assignments: seq<LossExpr>) {
    /** The value `scaler.scale(loss)` sees: the last assignment. */
    function Backpropagated(): LossExpr
      requires |assignments| > 0
    {
      assignments[|assignments| - 1]
    }

    function ForwardPasses(): nat {
      |assignments|
    }
  }

  predicate CutmixGate(r: real, cbeta: real, cutMix: real) {
    r > cbeta && cutMix > 0.0
  }

  predicate MixupGate(r: real, mbeta: real, mixUp: real) {
    r > mbeta && mixUp > 0.0
  }

  /** The branch selection as written: an `if` for cutmix, then a second,
      independent `if`/`else` for mixup, whose `else` always assigns.  What
      reaches `scaler.scale(loss)` is the mixup blend exactly when the mixup
      gate is open and the plain criterion otherwise; the cutmix blend is
      computed (with its own forward pass) whenever its gate is open, and is
      never the loss that is backpropagated. */
  function SelectBranch(r: real, cbeta: real, cutMix: real, mbeta: real, mixUp: real): (p: BatchPlan)
    ensures |p.assignments| > 0
    ensures p.Backpropagated() == MixupBlend <==> MixupGate(r, mbeta, mixUp)
    ensures p.Backpropagated() == PlainCriterion <==> !MixupGate(r, mbeta, mixUp)
    ensures p.Backpropagated() != CutmixBlend
    ensures CutmixBlend in p.assignments <==> CutmixGate(r, cbeta, cutMix)
    ensures p.ForwardPasses() == if CutmixGate(r, cbeta, cutMix) then 2 else 1
  {
    var first := if CutmixGate(r, cbeta, cutMix) then [CutmixBlend] else [];
    var second := if MixupGate(r, mbeta, mixUp) then MixupBlend else PlainCriterion;
    BatchPlan(first + [second])
  }

  /** A draw that opens the cutmix gate and not the mixup gate: the cutmix
      loss is computed, then replaced by the plain criterion. */
  lemma CutmixDiscardedExample()
    ensures SelectBranch(0.9, 0.5, 1.0, 0.95, 1.0).assignments == [CutmixBlend, PlainCriterion]
  {
  }

  /** The evidently intended selection: `elif` for the mixup branch, so at
      most one augmentation applies, with one forward pass: cutmix wins when
      its gate is open, mixup when only its gate is open, and the plain
      criterion otherwise. */
  function SelectBranchElif(r: real, cbeta: real, cutMix: real, mbeta: real, mixUp: real): (p: BatchPlan)
    ensures p.ForwardPasses() == 1
    ensures p.Backpropagated() == CutmixBlend <==> CutmixGate(r, cbeta, cutMix)
    ensures p.Backpropagated() == MixupBlend <==>
              !CutmixGate(r, cbeta, cutMix) && MixupGate(r, mbeta, mixUp)
    ensures p.Backpropagated() == PlainCriterion <==>
              !CutmixGate(r, cbeta, cutMix) && !MixupGate(r, mbeta, mixUp)
  {
    if CutmixGate(r, cbeta, cutMix) then BatchPlan([CutmixBlend])
    else if MixupGate(r, mbeta, mixUp) then BatchPlan([MixupBlend])
    else BatchPlan([PlainCriterion])
  }

  /** The two selections backpropagate the same loss exactly when the
      cutmix gate is closed. */
  lemma AgreeUnlessCutmix(r: real, cbeta: real, cutMix: real, mbeta: real, mixUp: real)
    ensures SelectBranch(r, cbeta, cutMix, mbeta, mixUp).Backpropagated() ==
              SelectBranchElif(r, cbeta, cutMix, mbeta, mixUp).Backpropagated()
            <==> !CutmixGate(r, cbeta, cutMix)
  {
  }
}
