/**
 Training (NNImpl.train). One step per instance: a forward pass, output deltas
 target − score, the hidden error signals accumulated from the pre-update
 output weights, hidden deltas, then the weight updates of the hidden layer
 followed by those of the output layer. The epoch loop around the step is
 in the Epochs module.
 */
module Training {
  import opened Nodes
  import opened Networks
  import opened Forward

  /** The instance's sizes are what a training step indexes the layers with: no more
      attributes than input units, no fewer class values than output units. */
  predicate Fits(net: Network, inst: Instance)
  {
    |inst.attributes| <= |net.inputNodes| && |inst.classValues| >= |net.outputNodes|
  }

  /** The error signal of each output unit: target_j − score_j. */
  function ErrorSignals(target: seq<int>, scores: seq<real>): (e: seq<real>)
    requires |target| >= |scores|
    ensures |e| == |scores|
  {
    seq(|scores|, j requires 0 <= j < |scores| => target[j] as real - scores[j])
  }

  /** The deltas of a layer, in order. */
  function Deltas(layer: seq<Node>): (d: seq<real>)
    ensures |d| == |layer|
  {
    seq(|layer|, j requires 0 <= j < |layer| => layer[j].delta)
  }

  /** calculateDelta(target_j − score_j) on each output unit. */
  function OutputDeltas(outputs: seq<Node>, target: seq<int>, scores: seq<real>): (r: seq<Node>)
    requires |scores| == |outputs| && |target| >= |scores|
    ensures |r| == |outputs|
    ensures forall j :: 0 <= j < |outputs| ==>
      r[j] == CalculateDelta(outputs[j], ErrorSignals(target, scores)[j])
  {
    var e := ErrorSignals(target, scores);
    seq(|outputs|, j requires 0 <= j < |outputs| => CalculateDelta(outputs[j], e[j]))
  }

  function Zeros(n: nat): (r: seq<real>)
    ensures |r| == n && forall k :: 0 <= k < n ==> r[k] == 0.0
  {
    seq(n, _ => 0.0)
  }

  /** The inner loop over one output unit's parents: helpers[k] += weight_k × delta. */
  function AddRow(helpers: seq<real>, o: Node): (r: seq<real>)
    requires |o.parents| <= |helpers|
    ensures |r| == |helpers|
  {
    seq(|helpers|, k requires 0 <= k < |helpers| =>
      if k < |o.parents| then helpers[k] + o.parents[k].weight * o.delta else helpers[k])
  }

  /** The outer loop over the output units, in order, filling the hidden-node helpers. */
  function Accumulate(helpers: seq<real>, outputs: seq<Node>): (r: seq<real>)
    requires forall j :: 0 <= j < |outputs| ==> |outputs[j].parents| <= |helpers|
    ensures |r| == |helpers|
    decreases |outputs|
  {
    if |outputs| == 0 then helpers
    else Accumulate(AddRow(helpers, outputs[0]), outputs[1..])
  }

  /** Σ_j outputs[j].parents[k].weight × deltas[j]: the error reaching hidden position k. */
  function BackSignal(outputs: seq<Node>, deltas: seq<real>, k: nat): real
    requires |deltas| == |outputs|
    requires forall j :: 0 <= j < |outputs| ==> k < |outputs[j].parents|
    decreases |outputs|
  {
    if |outputs| == 0 then 0.0
    else outputs[0].parents[k].weight * deltas[0] + BackSignal(outputs[1..], deltas[1..], k)
  }

  /** When every output unit has exactly one parent per helper slot, the accumulation
      loop adds to slot k the back-propagated signal Σ_j weight_jk × delta_j. */
  lemma {:induction false} AccumulateIsBackSignal(helpers: seq<real>, outputs: seq<Node>, k: nat)
    requires forall j :: 0 <= j < |outputs| ==> |outputs[j].parents| == |helpers|
    requires k < |helpers|
    ensures Accumulate(helpers, outputs)[k] == helpers[k] + BackSignal(outputs, Deltas(outputs), k)
    decreases |outputs|
  {
    if |outputs| > 0 {
      var next := AddRow(helpers, outputs[0]);
      AccumulateIsBackSignal(next, outputs[1..], k);
      assert Deltas(outputs)[1..] == Deltas(outputs[1..]);
    }
  }

  /** The back-propagated signal reads only the connections of the output units. */
  lemma {:induction false} BackSignalReadsParents(a: seq<Node>, b: seq<Node>, deltas: seq<real>, k: nat)
    requires |a| == |b| == |deltas|
    requires forall j :: 0 <= j < |a| ==> a[j].parents == b[j].parents
    requires forall j :: 0 <= j < |a| ==> k < |a[j].parents|
    ensures BackSignal(a, deltas, k) == BackSignal(b, deltas, k)
    decreases |a|
  {
    if |a| > 0 {
      BackSignalReadsParents(a[1..], b[1..], deltas[1..], k);
    }
  }

  /** calculateDelta(helpers[j]) on each hidden-layer node. */
  function HiddenDeltas(hidden: seq<Node>, helpers: seq<real>): (r: seq<Node>)
    requires |helpers| == |hidden|
    ensures |r| == |hidden|
    ensures forall j :: 0 <= j < |hidden| ==> r[j] == CalculateDelta(hidden[j], helpers[j])
  {
    seq(|hidden|, j requires 0 <= j < |hidden| => CalculateDelta(hidden[j], helpers[j]))
  }

  /** updateWeight on each node of a layer. */
  function UpdateLayer(layer: seq<Node>, prev: seq<Node>, rate: real): (r: seq<Node>)
    requires LayerLinksInto(layer, |prev|)
    ensures |r| == |layer|
    ensures forall i :: 0 <= i < |layer| ==> r[i] == UpdateWeight(layer[i], prev, rate)
  {
    seq(|layer|, i requires 0 <= i < |layer| => UpdateWeight(layer[i], prev, rate))
  }

  /** The layers of one training step, from the forward pass to the last weight update. */
  datatype StepLayers = StepLayers(
    pass: Pass,
    outputs: seq<Node>,
    helpers: seq<real>,
    hidden: seq<Node>,
    updatedHidden: seq<Node>,
    updatedOutputs: seq<Node>)

  function Step(net: Network, inst: Instance, num: Numerics): (s: StepLayers)
    requires WellFormed(net) && Fits(net, inst) && PositiveExp(num)
    ensures WellFormed(s.pass.net) && SameWeights(net, s.pass.net)
    ensures |s.updatedHidden| == |net.hiddenNodes| && |s.updatedOutputs| == |net.outputNodes|
  {
    var pass := ComputeNNout(net, inst, num);
    var f := pass.net;
    WellFormedLinks(f);
    var outputs := OutputDeltas(f.outputNodes, inst.classValues, pass.scores);
    var helpers := Accumulate(Zeros(|f.hiddenNodes|), outputs);
    var hidden := HiddenDeltas(f.hiddenNodes, helpers);
    var updatedHidden := UpdateLayer(hidden, f.inputNodes, net.learningRate);
    var updatedOutputs := UpdateLayer(outputs, updatedHidden, net.learningRate);
    StepLayers(pass, outputs, helpers, hidden, updatedHidden, updatedOutputs)
  }

  /** The per-instance body of NNImpl.train. The network stays well-formed and keeps its
      layer sizes, node types and parents; only activations, deltas and weights change. */
  function TrainStep(net: Network, inst: Instance, num: Numerics): (r: Network)
    requires WellFormed(net) && Fits(net, inst) && PositiveExp(num)
    ensures WellFormed(r) && SameWiring(net, r)
    ensures r.trainingSet == net.trainingSet && r.learningRate == net.learningRate
    ensures r.maxEpoch == net.maxEpoch
  {
    var s := Step(net, inst, num);
    StepKeepsWiring(net, inst, num);
    s.pass.net.(hiddenNodes := s.updatedHidden, outputNodes := s.updatedOutputs)
  }

  lemma StepKeepsWiring(net: Network, inst: Instance, num: Numerics)
    requires WellFormed(net) && Fits(net, inst) && PositiveExp(num)
    ensures var s := Step(net, inst, num);
      && SameLayerLinks(net.hiddenNodes, s.updatedHidden)
      && SameLayerLinks(net.outputNodes, s.updatedOutputs)
      && WellFormed(s.pass.net.(hiddenNodes := s.updatedHidden, outputNodes := s.updatedOutputs))
  {
    var s := Step(net, inst, num);
    var f := s.pass.net;
    var last := |net.hiddenNodes| - 1;
    assert s.updatedHidden[last].output == 1.0 by {
      assert s.hidden[last] == CalculateDelta(f.hiddenNodes[last], s.helpers[last]);
    }
    assert SameLayerLinks(net.hiddenNodes, s.updatedHidden);
    SameLinksKeepLayers(net.hiddenNodes, s.updatedHidden, |net.inputNodes|);
    assert SameLayerLinks(net.outputNodes, s.updatedOutputs);
    SameLinksKeepLayers(net.outputNodes, s.updatedOutputs, |net.hiddenNodes|);
  }

  /** The output connections are positionally aligned with the hidden layer: output unit j
      has one parent per hidden-layer node, in hidden-layer order. */
  lemma OutputsAligned(net: Network, k: nat)
    requires WellFormed(net)
    requires k < |net.hiddenNodes|
    ensures forall j :: 0 <= j < |net.outputNodes| ==>
      |net.outputNodes[j].parents| == |net.hiddenNodes| && net.outputNodes[j].parents[k].parent == k
  {
    forall j | 0 <= j < |net.outputNodes|
      ensures |net.outputNodes[j].parents| == |net.hiddenNodes| && net.outputNodes[j].parents[k].parent == k
    {
      assert FullyWired(net.outputNodes[j], |net.hiddenNodes|);
    }
  }

  /** The helper slot of hidden position k holds Σ_j weight_jk × (target_j − score_j)
      over the output weights before the step. */
  lemma HelperAt(net: Network, inst: Instance, num: Numerics, k: nat)
    requires WellFormed(net) && Fits(net, inst) && PositiveExp(num)
    requires k < |net.hiddenNodes|
    ensures forall j :: 0 <= j < |net.outputNodes| ==> k < |net.outputNodes[j].parents|
    ensures var s := Step(net, inst, num);
      s.helpers[k] == BackSignal(net.outputNodes, ErrorSignals(inst.classValues, s.pass.scores), k)
  {
    var s := Step(net, inst, num);
    var e := ErrorSignals(inst.classValues, s.pass.scores);
    OutputsAligned(net, k);
    OutputsAligned(s.pass.net, k);
    assert Deltas(s.outputs) == e;
    AccumulateIsBackSignal(Zeros(|s.pass.net.hiddenNodes|), s.outputs, k);
    BackSignalReadsParents(s.outputs, net.outputNodes, e, k);
  }

  /** Hidden unit k's delta is the back-propagated signal over the pre-update output
      weights, scaled by the sigmoid derivative at its activation h_k: signal × h_k × (1 − h_k). */
  lemma HiddenDeltaAt(net: Network, inst: Instance, num: Numerics, k: nat)
    requires WellFormed(net) && Fits(net, inst) && PositiveExp(num)
    requires k < |net.hiddenNodes| - 1
    ensures forall j :: 0 <= j < |net.outputNodes| ==> k < |net.outputNodes[j].parents|
    ensures var pass := ComputeNNout(net, inst, num);
            var r := TrainStep(net, inst, num);
      r.hiddenNodes[k].delta
        == SigmoidDelta(BackSignal(net.outputNodes, ErrorSignals(inst.classValues, pass.scores), k),
                        pass.net.hiddenNodes[k].output)
  {
    var s := Step(net, inst, num);
    HelperAt(net, inst, num, k);
    StepHiddenFacts(net, inst, num, k);
    assert s.pass.net.hiddenNodes[k].kind == Hidden;
  }

  /** Output unit j's delta is target_j − score_j. */
  lemma OutputDeltaAt(net: Network, inst: Instance, num: Numerics, j: nat)
    requires WellFormed(net) && Fits(net, inst) && PositiveExp(num)
    requires j < |net.outputNodes|
    ensures var pass := ComputeNNout(net, inst, num);
            var r := TrainStep(net, inst, num);
      r.outputNodes[j].delta == ErrorSignals(inst.classValues, pass.scores)[j]
  {
    var s := Step(net, inst, num);
    StepOutputFacts(net, inst, num, j);
    assert s.pass.net.outputNodes[j].kind == Output;
  }

  /** The deltas of one step are computed from the weights before the step: output unit j
      gets target_j − score_j, and hidden unit k gets the signal Σ_j weight_jk × delta_j
      over the pre-update output weights, times h_k × (1 − h_k) for its activation h_k. */
  lemma TrainStepDeltas(net: Network, inst: Instance, num: Numerics)
    requires WellFormed(net) && Fits(net, inst) && PositiveExp(num)
    ensures var pass := ComputeNNout(net, inst, num);
            var r := TrainStep(net, inst, num);
            var e := ErrorSignals(inst.classValues, pass.scores);
      && (forall j :: 0 <= j < |r.outputNodes| ==> r.outputNodes[j].delta == e[j])
      && (forall k :: 0 <= k < |r.hiddenNodes| - 1 ==>
            && (forall j :: 0 <= j < |net.outputNodes| ==> k < |net.outputNodes[j].parents|)
            && r.hiddenNodes[k].delta
                 == SigmoidDelta(BackSignal(net.outputNodes, e, k), pass.net.hiddenNodes[k].output))
  {
    forall j | 0 <= j < |net.outputNodes| {
      OutputDeltaAt(net, inst, num, j);
    }
    forall k | 0 <= k < |net.hiddenNodes| - 1 {
      HiddenDeltaAt(net, inst, num, k);
    }
  }

  /** How the step builds output unit j: from the forward pass's node, with a new delta and
      updated weights over the already updated hidden layer. */
  lemma StepOutputFacts(net: Network, inst: Instance, num: Numerics, j: nat)
    requires WellFormed(net) && Fits(net, inst) && PositiveExp(num)
    requires j < |net.outputNodes|
    ensures var s := Step(net, inst, num);
      && s.pass == ComputeNNout(net, inst, num)
      && s.outputs[j] == CalculateDelta(s.pass.net.outputNodes[j], ErrorSignals(inst.classValues, s.pass.scores)[j])
      && s.outputs[j].parents == net.outputNodes[j].parents
      && LinksInto(s.outputs[j].parents, |s.updatedHidden|)
      && TrainStep(net, inst, num).outputNodes[j] == UpdateWeight(s.outputs[j], s.updatedHidden, net.learningRate)
  {
  }

  /** How the step builds hidden unit i: from the forward pass's node, with a new delta and
      updated weights over the input layer of the forward pass. */
  lemma StepHiddenFacts(net: Network, inst: Instance, num: Numerics, i: nat)
    requires WellFormed(net) && Fits(net, inst) && PositiveExp(num)
    requires i < |net.hiddenNodes|
    ensures var s := Step(net, inst, num);
      && s.pass == ComputeNNout(net, inst, num)
      && s.hidden[i] == CalculateDelta(s.pass.net.hiddenNodes[i], s.helpers[i])
      && s.hidden[i].parents == net.hiddenNodes[i].parents
      && LinksInto(s.hidden[i].parents, |s.pass.net.inputNodes|)
      && s.updatedHidden[i] == UpdateWeight(s.hidden[i], s.pass.net.inputNodes, net.learningRate)
      && TrainStep(net, inst, num).hiddenNodes[i] == s.updatedHidden[i]
  {
  }

  /** Output weight (j, k) moves from its value before the step by
      rate × delta_j × the activation of hidden node k. */
  lemma OutputWeightAt(net: Network, inst: Instance, num: Numerics, j: nat, k: nat)
    requires WellFormed(net) && Fits(net, inst) && PositiveExp(num)
    requires j < |net.outputNodes| && k < |net.hiddenNodes|
    ensures k < |net.outputNodes[j].parents|
    ensures var pass := ComputeNNout(net, inst, num);
            var r := TrainStep(net, inst, num);
      r.outputNodes[j].parents[k].weight
        == SteppedWeight(net.outputNodes[j].parents[k].weight, net.learningRate,
                         r.outputNodes[j].delta, pass.net.hiddenNodes[k].output)
  {
    var s := Step(net, inst, num);
    OutputsAligned(net, k);
    StepOutputFacts(net, inst, num, j);
    StepHiddenFacts(net, inst, num, k);
  }

  /** Hidden weight (i, p) moves from its value before the step by
      rate × delta_i × the activation of input node p. */
  lemma HiddenWeightAt(net: Network, inst: Instance, num: Numerics, i: nat, p: nat)
    requires WellFormed(net) && Fits(net, inst) && PositiveExp(num)
    requires i < |net.hiddenNodes| - 1 && p < |net.inputNodes|
    ensures p < |net.hiddenNodes[i].parents|
    ensures var pass := ComputeNNout(net, inst, num);
            var r := TrainStep(net, inst, num);
      r.hiddenNodes[i].parents[p].weight
        == SteppedWeight(net.hiddenNodes[i].parents[p].weight, net.learningRate,
                         r.hiddenNodes[i].delta, pass.net.inputNodes[p].output)
  {
    assert FullyWired(net.hiddenNodes[i], |net.inputNodes|);
    StepHiddenFacts(net, inst, num, i);
  }

  /** Every weight moves by rate × delta × parent activation, where the delta is the one the
      step computed and the parent activation is the one the forward pass left behind:
      the output layer starts from the output weights before the step, and the hidden
      layer from the hidden weights before the step. */
  lemma TrainStepWeights(net: Network, inst: Instance, num: Numerics)
    requires WellFormed(net) && Fits(net, inst) && PositiveExp(num)
    ensures var pass := ComputeNNout(net, inst, num);
            var r := TrainStep(net, inst, num);
      && (forall j, k :: 0 <= j < |r.outputNodes| && 0 <= k < |r.hiddenNodes| ==>
            r.outputNodes[j].parents[k].weight
              == SteppedWeight(net.outputNodes[j].parents[k].weight, net.learningRate,
                               r.outputNodes[j].delta, pass.net.hiddenNodes[k].output))
      && (forall i, p :: 0 <= i < |r.hiddenNodes| - 1 && 0 <= p < |r.inputNodes| ==>
            r.hiddenNodes[i].parents[p].weight
              == SteppedWeight(net.hiddenNodes[i].parents[p].weight, net.learningRate,
                               r.hiddenNodes[i].delta, pass.net.inputNodes[p].output))
  {
    forall j, k | 0 <= j < |net.outputNodes| && 0 <= k < |net.hiddenNodes| {
      OutputWeightAt(net, inst, num, j, k);
    }
    forall i, p | 0 <= i < |net.hiddenNodes| - 1 && 0 <= p < |net.inputNodes| {
      HiddenWeightAt(net, inst, num, i, p);
    }
  }

  /** A step leaves the activations of the forward pass in place. */
  lemma TrainStepActivations(net: Network, inst: Instance, num: Numerics)
    requires WellFormed(net) && Fits(net, inst) && PositiveExp(num)
    ensures var pass := ComputeNNout(net, inst, num);
            var r := TrainStep(net, inst, num);
      && Outputs(r.inputNodes) == Outputs(pass.net.inputNodes)
      && Outputs(r.hiddenNodes) == Outputs(pass.net.hiddenNodes)
      && Outputs(r.outputNodes) == Outputs(pass.net.outputNodes)
  {
  }
}
