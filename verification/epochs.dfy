/**
 The epoch loop of NNImpl.train. Each epoch shuffles the training set, takes one
 training step per instance in the shuffled order, and then reports the mean
 loss over the training set, each loss computed by a forward pass on the
 network the previous pass left behind. The shuffle's randomness is a parameter:
 the caller supplies the order of every epoch, a permutation of the training set.
 */
module Epochs {
  import opened Sums
  import opened Nodes
  import opened Networks
  import opened Forward
  import opened Loss
  import opened Training

  /** Every instance of `xs` fits the network's layer sizes. */
  predicate AllFit(net: Network, xs: seq<Instance>)
  {
    forall x :: x in xs ==> Fits(net, x)
  }

  /** Every instance of `xs` has one attribute per input unit. */
  predicate AllFill(net: Network, xs: seq<Instance>)
  {
    forall x :: x in xs ==> FillsInputs(net, x)
  }

  /** Every instance of `xs` is labelled with exactly one class. */
  ghost predicate AllOneHot(xs: seq<Instance>)
  {
    forall x :: x in xs ==> exists c: nat :: OneHot(x.classValues, c)
  }

  /** Same training set, learning rate and epoch count. */
  predicate SameParameters(a: Network, b: Network)
  {
    a.trainingSet == b.trainingSet && a.learningRate == b.learningRate && a.maxEpoch == b.maxEpoch
  }

  /** Changing weights after changing activations still keeps the wiring. */
  lemma WiringChain(a: Network, b: Network, c: Network)
    requires SameWiring(a, b)
    requires SameWiring(b, c) || SameWeights(b, c)
    ensures SameWiring(a, c)
  {
    assert SameLayerLinks(a.inputNodes, c.inputNodes);
    assert SameLayerLinks(a.hiddenNodes, c.hiddenNodes);
    assert SameLayerLinks(a.outputNodes, c.outputNodes);
  }

  /** Having the same weights is an equivalence. */
  lemma WeightsChain(a: Network, b: Network, c: Network)
    requires SameWeights(a, b) && SameWeights(b, c)
    ensures SameWeights(a, c) && SameWeights(c, a)
  {
  }

  /** The inner loop of an epoch: one training step per instance, in the given order. */
  function TrainPass(net: Network, xs: seq<Instance>, num: Numerics): (r: Network)
    requires WellFormed(net) && AllFit(net, xs) && PositiveExp(num)
    ensures WellFormed(r) && SameWiring(net, r) && SameParameters(net, r)
    decreases |xs|
  {
    if |xs| == 0 then net
    else
      var next := TrainStep(net, xs[0], num);
      assert AllFit(next, xs[1..]) by {
        assert forall x :: x in xs[1..] ==> x in xs;
      }
      var r := TrainPass(next, xs[1..], num);
      WiringChain(net, next, r);
      r
  }

  /** The loss loop of an epoch: the losses of the instances in order, each computed on
      the network the previous forward pass left behind, and their total. */
  function LossPass(net: Network, xs: seq<Instance>, num: Numerics): (r: Evaluation)
    requires WellFormed(net) && AllFit(net, xs) && PositiveExp(num)
    ensures WellFormed(r.net) && SameWeights(net, r.net) && SameParameters(net, r.net)
    ensures LogNonPositiveOnUnit(num.log) && AllOneHot(xs) ==> r.loss >= 0.0
    decreases |xs|
  {
    if |xs| == 0 then Evaluation(net, 0.0)
    else
      assert xs[0] in xs;
      var e := InstanceLoss(net, xs[0], num);
      assert AllFit(e.net, xs[1..]) by {
        assert forall x :: x in xs[1..] ==> x in xs;
      }
      assert AllOneHot(xs) ==> AllOneHot(xs[1..]) by {
        assert forall x :: x in xs[1..] ==> x in xs;
      }
      var rest := LossPass(e.net, xs[1..], num);
      WeightsChain(net, e.net, rest.net);
      Evaluation(rest.net, e.loss + rest.loss)
  }

  /** One epoch on the shuffled order `order`: the training set becomes `order`, every
      instance is trained on in that order, then the mean loss over the training set is
      reported. The network keeps its wiring, and the mean is non-negative for one-hot
      labels when `log` is non-positive on (0, 1]. */
  function Epoch(net: Network, order: seq<Instance>, num: Numerics): (r: Evaluation)
    requires WellFormed(net) && PositiveExp(num)
    requires |order| > 0 && AllFit(net, order)
    requires multiset(order) == multiset(net.trainingSet)
    ensures WellFormed(r.net) && SameWiring(net, r.net)
    ensures r.net.trainingSet == order && multiset(r.net.trainingSet) == multiset(net.trainingSet)
    ensures r.net.learningRate == net.learningRate && r.net.maxEpoch == net.maxEpoch
    ensures LogNonPositiveOnUnit(num.log) && AllOneHot(order) ==> r.loss >= 0.0
  {
    var shuffled := net.(trainingSet := order);
    assert SameWiring(net, shuffled);
    var trained := TrainPass(shuffled, order, num);
    var eval := LossPass(trained, order, num);
    WiringChain(net, shuffled, trained);
    WiringChain(net, trained, eval.net);
    MeanNonNegative(eval.loss, |order|);
    Evaluation(eval.net, eval.loss / |order| as real)
  }

  /** The loss of one instance under the network's weights, as a function of the instance.
      The 0.0 fallback is never reached for the instances of an `AllFit` sequence. */
  ghost function LossOf(net: Network, num: Numerics): Instance -> real
  {
    x => if WellFormed(net) && Fits(net, x) && PositiveExp(num)
         then CrossEntropy(ComputeNNout(net, x, num).scores, x.classValues, num.log)
         else 0.0
  }

  /** One turn of the loss loop. */
  lemma LossPassFirst(net: Network, xs: seq<Instance>, num: Numerics)
    requires WellFormed(net) && AllFit(net, xs) && PositiveExp(num) && |xs| > 0
    ensures Fits(net, xs[0])
    ensures var e := InstanceLoss(net, xs[0], num);
      && AllFit(e.net, xs[1..])
      && LossPass(net, xs, num).loss == e.loss + LossPass(e.net, xs[1..], num).loss
  {
    assert xs[0] in xs;
    assert forall x :: x in xs[1..] ==> x in xs;
  }

  /** The first loss of the loop is the first instance's loss under the weights alone, and
      the network it leaves behind still has those weights. */
  lemma LossOfFirst(a: Network, b: Network, xs: seq<Instance>, num: Numerics)
    requires WellFormed(a) && WellFormed(b) && SameWeights(a, b)
    requires AllFit(a, xs) && AllFill(a, xs) && PositiveExp(num) && |xs| > 0
    ensures Fits(a, xs[0])
    ensures var e := InstanceLoss(a, xs[0], num);
      && e.loss == LossOf(b, num)(xs[0])
      && SameWeights(e.net, b)
      && AllFill(e.net, xs[1..])
  {
    assert xs[0] in xs;
    var e := InstanceLoss(a, xs[0], num);
    ForwardReadsOnlyWeights(a, b, xs[0], num);
    WeightsChain(e.net, a, b);
    assert forall x :: x in xs[1..] ==> x in xs;
  }

  /** When every instance fills the input layer, no activation survives from one forward
      pass to the next, and the loss loop's total is the sum of each instance's loss under
      the weights alone. */
  lemma {:induction false} LossPassIsSum(a: Network, b: Network, xs: seq<Instance>, num: Numerics)
    requires WellFormed(a) && WellFormed(b) && SameWeights(a, b)
    requires AllFit(a, xs) && AllFill(a, xs) && PositiveExp(num)
    ensures LossPass(a, xs, num).loss == SumOf(xs, LossOf(b, num))
    decreases |xs|
  {
    if |xs| > 0 {
      LossPassFirst(a, xs, num);
      LossOfFirst(a, b, xs, num);
      var e := InstanceLoss(a, xs[0], num);
      LossPassIsSum(e.net, b, xs[1..], num);
      SumOfFirst(xs, LossOf(b, num));
    }
  }

  /** When every instance fills the input layer, the mean loss an epoch reports is the mean
      of each instance's loss under the trained weights, summed over the training set in its
      order before the shuffle: the order of the loss loop does not matter. */
  lemma EpochLossIsMean(net: Network, order: seq<Instance>, num: Numerics)
    requires WellFormed(net) && PositiveExp(num)
    requires |order| > 0 && AllFit(net, order) && AllFill(net, order)
    requires multiset(order) == multiset(net.trainingSet)
    ensures |net.trainingSet| == |order|
    ensures Epoch(net, order, num).loss
      == SumOf(net.trainingSet, LossOf(TrainPass(net.(trainingSet := order), order, num), num))
         / |order| as real
  {
    assert |multiset(order)| == |multiset(net.trainingSet)|;
    var trained := TrainPass(net.(trainingSet := order), order, num);
    LossPassIsSum(trained, trained, order, num);
    SumOfPermutation(order, net.trainingSet, LossOf(trained, num));
  }

  /** A permutation has the same members, so it fits and is labelled as the original does. */
  lemma SameMembers(a: seq<Instance>, b: seq<Instance>)
    requires multiset(a) == multiset(b)
    ensures forall x :: x in a <==> x in b
  {
    assert forall x :: x in a <==> x in multiset(a);
  }

  lemma PermutedOneHot(a: seq<Instance>, b: seq<Instance>)
    requires multiset(a) == multiset(b)
    ensures AllOneHot(a) ==> AllOneHot(b)
  {
    SameMembers(a, b);
  }

  /** Every entry of `s` is non-negative. */
  predicate NonNegative(s: seq<real>)
  {
    forall e :: 0 <= e < |s| ==> s[e] >= 0.0
  }

  lemma PrependNonNegative(x: real, xs: seq<real>, ys: seq<real>)
    requires ys == [x] + xs
    requires x >= 0.0 && NonNegative(xs)
    ensures NonNegative(ys)
  {
    assert forall e :: 1 <= e < |ys| ==> ys[e] == xs[e - 1];
  }

  /** The result of training: the final network and the mean loss reported by each epoch. */
  datatype Trained = Trained(net: Network, losses: seq<real>)

  /** Epoch after epoch, epoch e training on the order shuffles[e]; the network keeps its
      wiring and one mean loss is reported per epoch. */
  function RunEpochs(net: Network, shuffles: seq<seq<Instance>>, num: Numerics): (r: Trained)
    requires WellFormed(net) && PositiveExp(num)
    requires |net.trainingSet| > 0 && AllFit(net, net.trainingSet)
    requires forall e :: 0 <= e < |shuffles| ==> multiset(shuffles[e]) == multiset(net.trainingSet)
    ensures WellFormed(r.net) && SameWiring(net, r.net)
    ensures |r.losses| == |shuffles|
    decreases |shuffles|
  {
    if |shuffles| == 0 then Trained(net, [])
    else
      var first := EpochOn(net, shuffles[0], num);
      NextEpochReady(net, first.net, shuffles, num);
      var rest := RunEpochs(first.net, shuffles[1..], num);
      WiringChain(net, first.net, rest.net);
      Trained(rest.net, [first.loss] + rest.losses)
  }

  /** After an epoch on the first shuffle, the remaining shuffles are permutations of the
      new training set. */
  lemma NextEpochReady(net: Network, next: Network, shuffles: seq<seq<Instance>>, num: Numerics)
    requires |shuffles| > 0
    requires forall e :: 0 <= e < |shuffles| ==> multiset(shuffles[e]) == multiset(net.trainingSet)
    requires next.trainingSet == shuffles[0]
    ensures forall e :: 0 <= e < |shuffles[1..]| ==> multiset(shuffles[1..][e]) == multiset(next.trainingSet)
  {
    assert forall e :: 0 <= e < |shuffles[1..]| ==> shuffles[1..][e] == shuffles[e + 1];
  }

  /** The epoch on a permutation of the training set, which therefore fits the network. */
  function EpochOn(net: Network, order: seq<Instance>, num: Numerics): (r: Evaluation)
    requires WellFormed(net) && PositiveExp(num)
    requires |net.trainingSet| > 0 && AllFit(net, net.trainingSet)
    requires multiset(order) == multiset(net.trainingSet)
    ensures WellFormed(r.net) && SameWiring(net, r.net)
    ensures r.net.trainingSet == order && multiset(r.net.trainingSet) == multiset(net.trainingSet)
    ensures r.net.learningRate == net.learningRate && r.net.maxEpoch == net.maxEpoch
    ensures |r.net.trainingSet| > 0 && AllFit(r.net, r.net.trainingSet)
    ensures LogNonPositiveOnUnit(num.log) && AllOneHot(net.trainingSet) ==> r.loss >= 0.0
  {
    SameMembers(order, net.trainingSet);
    assert |multiset(order)| == |multiset(net.trainingSet)|;
    Epoch(net, order, num)
  }

  /** The training set after shuffling `start` into each order of `shuffles` in turn. */
  function LastOrder(start: seq<Instance>, shuffles: seq<seq<Instance>>): (r: seq<Instance>)
    decreases |shuffles|
  {
    if |shuffles| == 0 then start else LastOrder(shuffles[0], shuffles[1..])
  }

  /** That is the last shuffle, or the starting set when there is none. */
  lemma {:induction false} LastOrderIsLast(start: seq<Instance>, shuffles: seq<seq<Instance>>)
    ensures LastOrder(start, shuffles) == if |shuffles| == 0 then start else shuffles[|shuffles| - 1]
    decreases |shuffles|
  {
    if |shuffles| > 1 {
      LastOrderIsLast(shuffles[0], shuffles[1..]);
      assert shuffles[1..][|shuffles| - 2] == shuffles[|shuffles| - 1];
    }
  }

  /** The epochs leave the last shuffle as the training set. */
  lemma {:induction false} EpochsKeepLastOrder(net: Network, shuffles: seq<seq<Instance>>, num: Numerics)
    requires WellFormed(net) && PositiveExp(num)
    requires |net.trainingSet| > 0 && AllFit(net, net.trainingSet)
    requires forall e :: 0 <= e < |shuffles| ==> multiset(shuffles[e]) == multiset(net.trainingSet)
    ensures RunEpochs(net, shuffles, num).net.trainingSet == LastOrder(net.trainingSet, shuffles)
    decreases |shuffles|
  {
    if |shuffles| > 0 {
      var first := EpochOn(net, shuffles[0], num);
      NextEpochReady(net, first.net, shuffles, num);
      EpochsKeepLastOrder(first.net, shuffles[1..], num);
    }
  }

  /** The epochs keep the learning rate and the epoch count. */
  lemma {:induction false} EpochsKeepRate(net: Network, shuffles: seq<seq<Instance>>, num: Numerics)
    requires WellFormed(net) && PositiveExp(num)
    requires |net.trainingSet| > 0 && AllFit(net, net.trainingSet)
    requires forall e :: 0 <= e < |shuffles| ==> multiset(shuffles[e]) == multiset(net.trainingSet)
    ensures RunEpochs(net, shuffles, num).net.learningRate == net.learningRate
    ensures RunEpochs(net, shuffles, num).net.maxEpoch == net.maxEpoch
    decreases |shuffles|
  {
    if |shuffles| > 0 {
      var first := EpochOn(net, shuffles[0], num);
      NextEpochReady(net, first.net, shuffles, num);
      EpochsKeepRate(first.net, shuffles[1..], num);
    }
  }

  /** Every epoch's mean loss is non-negative for one-hot labels when `log` is non-positive
      on (0, 1]. */
  lemma {:induction false} EpochsLossesNonNegative(net: Network, shuffles: seq<seq<Instance>>, num: Numerics)
    requires WellFormed(net) && PositiveExp(num)
    requires |net.trainingSet| > 0 && AllFit(net, net.trainingSet)
    requires forall e :: 0 <= e < |shuffles| ==> multiset(shuffles[e]) == multiset(net.trainingSet)
    requires LogNonPositiveOnUnit(num.log) && AllOneHot(net.trainingSet)
    ensures NonNegative(RunEpochs(net, shuffles, num).losses)
    decreases |shuffles|
  {
    if |shuffles| > 0 {
      var first := EpochOn(net, shuffles[0], num);
      NextEpochReady(net, first.net, shuffles, num);
      PermutedOneHot(net.trainingSet, first.net.trainingSet);
      EpochsLossesNonNegative(first.net, shuffles[1..], num);
      var rest := RunEpochs(first.net, shuffles[1..], num);
      PrependNonNegative(first.loss, rest.losses, RunEpochs(net, shuffles, num).losses);
    }
  }

  /** NNImpl.train: maxEpoch epochs (none when maxEpoch is not positive), each on the
      caller's shuffle of the current training set. The network keeps its wiring, learning
      rate and epoch count, its training set ends up a permutation of the original, and
      one non-negative mean loss is reported per epoch for one-hot labels when `log` is
      non-positive on (0, 1]. */
  function Train(net: Network, shuffles: seq<seq<Instance>>, num: Numerics): (r: Trained)
    requires WellFormed(net) && PositiveExp(num)
    requires |net.trainingSet| > 0 && AllFit(net, net.trainingSet)
    requires |shuffles| == Count(net.maxEpoch)
    requires forall e :: 0 <= e < |shuffles| ==> multiset(shuffles[e]) == multiset(net.trainingSet)
    ensures WellFormed(r.net) && SameWiring(net, r.net)
    ensures net.maxEpoch <= 0 ==> r == Trained(net, [])
    ensures net.maxEpoch > 0 ==> |r.losses| == net.maxEpoch
    ensures multiset(r.net.trainingSet) == multiset(net.trainingSet)
    ensures r.net.learningRate == net.learningRate && r.net.maxEpoch == net.maxEpoch
    ensures LogNonPositiveOnUnit(num.log) && AllOneHot(net.trainingSet) ==> NonNegative(r.losses)
  {
    EpochsKeepLastOrder(net, shuffles, num);
    LastOrderIsLast(net.trainingSet, shuffles);
    EpochsKeepRate(net, shuffles, num);
    TrainLossesNonNegative(net, shuffles, num);
    RunEpochs(net, shuffles, num)
  }

  lemma TrainLossesNonNegative(net: Network, shuffles: seq<seq<Instance>>, num: Numerics)
    requires WellFormed(net) && PositiveExp(num)
    requires |net.trainingSet| > 0 && AllFit(net, net.trainingSet)
    requires forall e :: 0 <= e < |shuffles| ==> multiset(shuffles[e]) == multiset(net.trainingSet)
    ensures LogNonPositiveOnUnit(num.log) && AllOneHot(net.trainingSet) ==>
      NonNegative(RunEpochs(net, shuffles, num).losses)
  {
    if LogNonPositiveOnUnit(num.log) && AllOneHot(net.trainingSet) {
      EpochsLossesNonNegative(net, shuffles, num);
    }
  }
}
