/**
 Prediction (NNImpl.predict): the index of the largest score, scanning left to
 right and replacing the running best only on a strictly larger score, so the
 first of several equal maxima wins; -1 when there are no scores.
 */
module Prediction {
  import opened Nodes
  import opened Networks
  import opened Forward

  /** `m` is the first index holding the maximum of `scores`. */
  predicate IsFirstMax(scores: seq<real>, m: int)
  {
    && 0 <= m < |scores|
    && (forall k :: 0 <= k < |scores| ==> scores[k] <= scores[m])
    && (forall k :: 0 <= k < m ==> scores[k] < scores[m])
  }

  /** At most one index is the first maximum, so the contract of ArgMax fixes its result. */
  lemma FirstMaxUnique(scores: seq<real>, m1: int, m2: int)
    requires IsFirstMax(scores, m1) && IsFirstMax(scores, m2)
    ensures m1 == m2
  {
    assert scores[m1] == scores[m2];
  }

  /** The scan of predict: -1 exactly when there are no scores, otherwise the first maximum. */
  method ArgMax(scores: seq<real>) returns (maxIdx: int)
    ensures maxIdx == -1 <==> |scores| == 0
    ensures |scores| > 0 ==> IsFirstMax(scores, maxIdx)
  {
    maxIdx := -1;
    var i := 0;
    while i < |scores|
      invariant 0 <= i <= |scores|
      invariant maxIdx == -1 <==> i == 0
      invariant -1 <= maxIdx < i
      invariant i > 0 ==> forall k :: 0 <= k < i ==> scores[k] <= scores[maxIdx]
      invariant i > 0 ==> forall k :: 0 <= k < maxIdx ==> scores[k] < scores[maxIdx]
    {
      if maxIdx == -1 || scores[i] > scores[maxIdx] {
        maxIdx := i;
      }
      i := i + 1;
    }
  }

  /** NNImpl.predict: run the forward pass, then pick the first maximal score. The class
      index is in range exactly when the network has output units. */
  method Predict(net: Network, inst: Instance, num: Numerics) returns (classIndex: int, after: Network)
    requires WellFormed(net)
    requires |inst.attributes| <= |net.inputNodes|
    requires PositiveExp(num)
    ensures after == ComputeNNout(net, inst, num).net
    ensures classIndex == -1 <==> |net.outputNodes| == 0
    ensures |net.outputNodes| > 0 ==> IsFirstMax(ComputeNNout(net, inst, num).scores, classIndex)
  {
    var pass := ComputeNNout(net, inst, num);
    classIndex := ArgMax(pass.scores);
    after := pass.net;
  }
}
