/**
 The cross-entropy loss (NNImpl.loss): run the forward pass and return
 −Σ target_i · log(score_i) over the output units. `log` is uninterpreted; the
 only fact assumed of it, where needed, is that it is non-positive on (0, 1].
 */
module Loss {
  import opened Sums
  import opened Nodes
  import opened Networks
  import opened Forward

  /** The terms target_i · log(score_i), one per score. */
  function LikelihoodTerms(scores: seq<real>, target: seq<int>, log: real -> real): (r: seq<real>)
    requires |target| >= |scores|
    ensures |r| == |scores|
  {
    seq(|scores|, i requires 0 <= i < |scores| => target[i] as real * log(scores[i]))
  }

  /** −Σ target_i · log(score_i) over the scores. */
  function CrossEntropy(scores: seq<real>, target: seq<int>, log: real -> real): real
    requires |target| >= |scores|
  {
    -Sum(LikelihoodTerms(scores, target, log))
  }

  /** `target` is 1 at index `c` and 0 everywhere else. */
  predicate OneHot(target: seq<int>, c: nat)
  {
    && c < |target|
    && target[c] == 1
    && forall i :: 0 <= i < |target| && i != c ==> target[i] == 0
  }

  /** For a one-hot target the cross-entropy is the negative log of the true class's
      score, whatever `log` is. */
  lemma OneHotLoss(scores: seq<real>, target: seq<int>, log: real -> real, c: nat)
    requires |target| >= |scores|
    requires OneHot(target, c) && c < |scores|
    ensures CrossEntropy(scores, target, log) == -log(scores[c])
  {
    var terms := LikelihoodTerms(scores, target, log);
    SumSingle(terms, c);
  }

  /** The logarithm is non-positive on (0, 1]. */
  ghost predicate LogNonPositiveOnUnit(log: real -> real)
  {
    forall p :: 0.0 < p <= 1.0 ==> log(p) <= 0.0
  }

  /** Against a one-hot target, scores in (0, 1] have a non-negative loss. */
  lemma LossNonNegative(scores: seq<real>, target: seq<int>, log: real -> real, c: nat)
    requires |target| >= |scores|
    requires OneHot(target, c)
    requires forall i :: 0 <= i < |scores| ==> 0.0 < scores[i] <= 1.0
    requires LogNonPositiveOnUnit(log)
    ensures CrossEntropy(scores, target, log) >= 0.0
  {
    if c < |scores| {
      OneHotLoss(scores, target, log, c);
      assert log(scores[c]) <= 0.0;
    } else {
      SumZero(LikelihoodTerms(scores, target, log));
    }
  }

  /** NNImpl.loss: the network after the forward pass, and the loss of its scores
      against the instance's class values. */
  datatype Evaluation = Evaluation(net: Network, loss: real)

  /** NNImpl.loss. For a one-hot target it is the negative log of the true class's
      score, and it is non-negative when `log` is non-positive on (0, 1]. */
  function InstanceLoss(net: Network, inst: Instance, num: Numerics): (r: Evaluation)
    requires WellFormed(net)
    requires |inst.attributes| <= |net.inputNodes|
    requires |inst.classValues| >= |net.outputNodes|
    requires PositiveExp(num)
    ensures WellFormed(r.net) && SameWeights(net, r.net)
    ensures r.net.trainingSet == net.trainingSet && r.net.learningRate == net.learningRate
    ensures r.net.maxEpoch == net.maxEpoch
    ensures forall c: nat :: OneHot(inst.classValues, c) && c < |net.outputNodes| ==>
      r.loss == -num.log(ComputeNNout(net, inst, num).scores[c])
    ensures LogNonPositiveOnUnit(num.log) && (exists c: nat :: OneHot(inst.classValues, c)) ==> r.loss >= 0.0
  {
    var pass := ComputeNNout(net, inst, num);
    ForwardOneHotLoss(net, inst, num);
    ForwardLossNonNegative(net, inst, num);
    Evaluation(pass.net, CrossEntropy(pass.scores, inst.classValues, num.log))
  }

  lemma ForwardOneHotLoss(net: Network, inst: Instance, num: Numerics)
    requires WellFormed(net)
    requires |inst.attributes| <= |net.inputNodes|
    requires |inst.classValues| >= |net.outputNodes|
    requires PositiveExp(num)
    ensures forall c: nat :: OneHot(inst.classValues, c) && c < |net.outputNodes| ==>
      CrossEntropy(ComputeNNout(net, inst, num).scores, inst.classValues, num.log)
        == -num.log(ComputeNNout(net, inst, num).scores[c])
  {
    var scores := ComputeNNout(net, inst, num).scores;
    forall c: nat | OneHot(inst.classValues, c) && c < |net.outputNodes|
      ensures CrossEntropy(scores, inst.classValues, num.log) == -num.log(scores[c])
    {
      OneHotLoss(scores, inst.classValues, num.log, c);
    }
  }

  lemma ForwardLossNonNegative(net: Network, inst: Instance, num: Numerics)
    requires WellFormed(net)
    requires |inst.attributes| <= |net.inputNodes|
    requires |inst.classValues| >= |net.outputNodes|
    requires PositiveExp(num)
    ensures LogNonPositiveOnUnit(num.log) && (exists c: nat :: OneHot(inst.classValues, c)) ==>
      CrossEntropy(ComputeNNout(net, inst, num).scores, inst.classValues, num.log) >= 0.0
  {
    if LogNonPositiveOnUnit(num.log) && (exists c: nat :: OneHot(inst.classValues, c)) {
      var c: nat :| OneHot(inst.classValues, c);
      ScoresFormDistribution(net, inst, num);
      LossNonNegative(ComputeNNout(net, inst, num).scores, inst.classValues, num.log, c);
    }
  }
}
