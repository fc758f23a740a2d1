/**
 The forward pass (NNImpl.computeNNout): inject the attributes, activate the
 hidden layer, compute the raw exponentials of the output layer, and divide
 each by their common sum. The pass overwrites the network's activations, so
 it returns the updated network together with the scores.
 */
module Forward {
  import opened Sums
  import opened Nodes
  import opened Networks

  /** The outcome of a forward pass: the network with its new activations, and the scores. */
  datatype Pass = Pass(net: Network, scores: seq<real>)

  /** The first |attributes| nodes of the input layer take the attribute values. */
  function InjectInputs(inputs: seq<Node>, attributes: seq<real>): (r: seq<Node>)
    requires |attributes| <= |inputs|
    ensures |r| == |inputs|
    ensures forall i :: 0 <= i < |inputs| ==>
      r[i] == (if i < |attributes| then SetInput(inputs[i], attributes[i]) else inputs[i])
  {
    seq(|inputs|, i requires 0 <= i < |inputs| =>
      if i < |attributes| then SetInput(inputs[i], attributes[i]) else inputs[i])
  }

  /** Every node of `layer` links into a previous layer of `width` nodes. */
  predicate LayerLinksInto(layer: seq<Node>, width: nat)
  {
    forall i :: 0 <= i < |layer| ==> LinksInto(layer[i].parents, width)
  }

  /** calculateOutput on every node of a layer, reading the previous layer. */
  function ActivateLayer(layer: seq<Node>, prev: seq<Node>, num: Numerics): (r: seq<Node>)
    requires LayerLinksInto(layer, |prev|)
    ensures |r| == |layer|
    ensures forall i :: 0 <= i < |layer| ==> r[i] == CalculateOutput(layer[i], prev, num)
  {
    seq(|layer|, i requires 0 <= i < |layer| => CalculateOutput(layer[i], prev, num))
  }

  /** normalizeOutput on every node of a layer, all by the same sum. */
  function NormalizeLayer(layer: seq<Node>, expSum: real): (r: seq<Node>)
    requires |layer| > 0 ==> expSum != 0.0
    ensures |r| == |layer|
    ensures forall i :: 0 <= i < |layer| ==> r[i] == NormalizeOutput(layer[i], expSum)
  {
    seq(|layer|, i requires 0 <= i < |layer| => NormalizeOutput(layer[i], expSum))
  }

  /** exp of each output unit's weighted sum over the hidden layer. */
  function RawScores(outputs: seq<Node>, hidden: seq<Node>, num: Numerics): (r: seq<real>)
    requires LayerLinksInto(outputs, |hidden|)
    ensures |r| == |outputs|
  {
    seq(|outputs|, i requires 0 <= i < |outputs| => num.exp(WeightedSum(outputs[i].parents, hidden)))
  }

  /** A well-formed network's layers link into their previous layers. */
  lemma WellFormedLinks(net: Network)
    requires WellFormed(net)
    ensures LayerLinksInto(net.hiddenNodes, |net.inputNodes|)
    ensures LayerLinksInto(net.outputNodes, |net.hiddenNodes|)
  {
    forall i | 0 <= i < |net.hiddenNodes|
      ensures LinksInto(net.hiddenNodes[i].parents, |net.inputNodes|)
    {
      if i < |net.hiddenNodes| - 1 {
        assert FullyWired(net.hiddenNodes[i], |net.inputNodes|);
      }
    }
    forall i | 0 <= i < |net.outputNodes|
      ensures LinksInto(net.outputNodes[i].parents, |net.hiddenNodes|)
    {
      assert FullyWired(net.outputNodes[i], |net.hiddenNodes|);
    }
  }

  /** The sum of a positive exponential over a non-empty layer is positive. */
  lemma RawSumPositive(raw: seq<Node>, outputs: seq<Node>, hidden: seq<Node>, num: Numerics)
    requires PositiveExp(num)
    requires LayerLinksInto(outputs, |hidden|)
    requires forall i :: 0 <= i < |outputs| ==> outputs[i].kind.Output?
    requires raw == ActivateLayer(outputs, hidden, num)
    ensures Outputs(raw) == RawScores(outputs, hidden, num)
    ensures |raw| > 0 ==> Sum(Outputs(raw)) > 0.0
  {
    assert Outputs(raw) == RawScores(outputs, hidden, num);
    if |raw| > 0 {
      SumPositive(Outputs(raw));
    }
  }

  /** NNImpl.computeNNout. The network stays well-formed with the same weights, and score i
      is the exponential of output unit i's weighted sum over the new hidden activations,
      divided by the sum of those exponentials over all output units. */
  function ComputeNNout(net: Network, inst: Instance, num: Numerics): (r: Pass)
    requires WellFormed(net)
    requires |inst.attributes| <= |net.inputNodes|
    requires PositiveExp(num)
    ensures WellFormed(r.net) && SameWeights(net, r.net)
    ensures r.net.trainingSet == net.trainingSet && r.net.learningRate == net.learningRate
    ensures r.net.maxEpoch == net.maxEpoch
    ensures |r.scores| == |net.outputNodes|
    ensures forall i :: 0 <= i < |r.scores| ==> r.scores[i] == r.net.outputNodes[i].output
    ensures LayerLinksInto(net.outputNodes, |r.net.hiddenNodes|)
    ensures |r.scores| > 0 ==> Sum(RawScores(net.outputNodes, r.net.hiddenNodes, num)) > 0.0
    ensures forall i :: 0 <= i < |r.scores| ==>
      r.scores[i] == RawScores(net.outputNodes, r.net.hiddenNodes, num)[i]
                     / Sum(RawScores(net.outputNodes, r.net.hiddenNodes, num))
  {
    WellFormedLinks(net);
    var inputs := InjectInputs(net.inputNodes, inst.attributes);
    var hidden := ActivateLayer(net.hiddenNodes, inputs, num);
    var raw := ActivateLayer(net.outputNodes, hidden, num);
    RawSumPositive(raw, net.outputNodes, hidden, num);
    var expSum := Sum(Outputs(raw));
    var outputs := NormalizeLayer(raw, expSum);
    ForwardLayers(net, inputs, hidden, raw, outputs, inst, expSum, num);
    Pass(net.(inputNodes := inputs, hiddenNodes := hidden, outputNodes := outputs), Outputs(outputs))
  }

  /** The layers computeNNout builds keep the network's types, connections and bias
      activations. */
  lemma ForwardLayers(
    net: Network, inputs: seq<Node>, hidden: seq<Node>, raw: seq<Node>, outputs: seq<Node>,
    inst: Instance, expSum: real, num: Numerics)
    requires WellFormed(net)
    requires |inst.attributes| <= |net.inputNodes|
    requires LayerLinksInto(net.hiddenNodes, |net.inputNodes|)
    requires LayerLinksInto(net.outputNodes, |net.hiddenNodes|)
    requires inputs == InjectInputs(net.inputNodes, inst.attributes)
    requires hidden == ActivateLayer(net.hiddenNodes, inputs, num)
    requires raw == ActivateLayer(net.outputNodes, hidden, num)
    requires |raw| > 0 ==> expSum != 0.0
    requires outputs == NormalizeLayer(raw, expSum)
    ensures SameLayerEdges(net.inputNodes, inputs)
    ensures SameLayerEdges(net.hiddenNodes, hidden)
    ensures SameLayerEdges(net.outputNodes, outputs)
    ensures WellFormed(net.(inputNodes := inputs, hiddenNodes := hidden, outputNodes := outputs))
  {
    var last := |net.inputNodes| - 1;
    assert inputs[last].output == 1.0 by {
      if last < |inst.attributes| {
        assert inputs[last] == SetInput(net.inputNodes[last], inst.attributes[last]);
      }
    }
    SameLinksKeepLayers(net.inputNodes, inputs, 0);
    assert hidden[|hidden| - 1] == net.hiddenNodes[|hidden| - 1];
    SameLinksKeepLayers(net.hiddenNodes, hidden, |net.inputNodes|);
    assert SameLayerEdges(net.outputNodes, raw);
    assert SameLayerEdges(raw, outputs);
    SameLinksKeepLayers(net.outputNodes, outputs, |net.hiddenNodes|);
  }

  /** The activations computeNNout leaves behind: the input units hold the attributes and
      each hidden unit holds the sigmoid of its weighted sum over the input layer. */
  lemma ForwardActivations(net: Network, inst: Instance, num: Numerics)
    requires WellFormed(net)
    requires |inst.attributes| <= |net.inputNodes|
    requires PositiveExp(num)
    ensures var p := ComputeNNout(net, inst, num);
      && (forall i :: 0 <= i < |inst.attributes| && i < |net.inputNodes| - 1 ==>
            p.net.inputNodes[i].output == inst.attributes[i])
      && (forall i :: 0 <= i < |net.hiddenNodes| - 1 ==>
            p.net.hiddenNodes[i].output == num.sigmoid(WeightedSum(net.hiddenNodes[i].parents, p.net.inputNodes)))
  {
  }

  /** The scores form a probability distribution: each is positive and, when there is
      at least one class, they sum to 1. */
  lemma {:induction false} ScoresFormDistribution(net: Network, inst: Instance, num: Numerics)
    requires WellFormed(net)
    requires |inst.attributes| <= |net.inputNodes|
    requires PositiveExp(num)
    ensures var s := ComputeNNout(net, inst, num).scores;
      && (forall i :: 0 <= i < |s| ==> 0.0 < s[i] <= 1.0)
      && (|s| > 0 ==> Sum(s) == 1.0)
  {
    var p := ComputeNNout(net, inst, num);
    var raw := RawScores(net.outputNodes, p.net.hiddenNodes, num);
    if |raw| > 0 {
      Normalized(raw, p.scores);
    }
  }

  /** Every input unit is overwritten when the instance has one attribute per input unit. */
  predicate FillsInputs(net: Network, inst: Instance)
  {
    |inst.attributes| + 1 == |net.inputNodes|
  }

  /** computeNNout keeps no state between calls: when the instance fills every input unit,
      the new activations and the scores depend only on the weights, not on the
      activations or deltas a previous pass left behind. */
  lemma ForwardReadsOnlyWeights(a: Network, b: Network, inst: Instance, num: Numerics)
    requires WellFormed(a) && WellFormed(b) && SameWeights(a, b)
    requires FillsInputs(a, inst)
    requires PositiveExp(num)
    ensures ComputeNNout(a, inst, num).scores == ComputeNNout(b, inst, num).scores
    ensures Outputs(ComputeNNout(a, inst, num).net.hiddenNodes) == Outputs(ComputeNNout(b, inst, num).net.hiddenNodes)
  {
    WellFormedLinks(a);
    WellFormedLinks(b);
    var pa := ComputeNNout(a, inst, num);
    var pb := ComputeNNout(b, inst, num);
    assert Outputs(pa.net.inputNodes) == Outputs(pb.net.inputNodes);
    forall i | 0 <= i < |a.hiddenNodes| - 1
      ensures pa.net.hiddenNodes[i].output == pb.net.hiddenNodes[i].output
    {
      WeightedSumReadsOutputs(a.hiddenNodes[i].parents, pa.net.inputNodes, pb.net.inputNodes);
    }
    assert Outputs(pa.net.hiddenNodes) == Outputs(pb.net.hiddenNodes);
    var ra := RawScores(a.outputNodes, pa.net.hiddenNodes, num);
    var rb := RawScores(b.outputNodes, pb.net.hiddenNodes, num);
    forall i | 0 <= i < |a.outputNodes|
      ensures ra[i] == rb[i]
    {
      WeightedSumReadsOutputs(a.outputNodes[i].parents, pa.net.hiddenNodes, pb.net.hiddenNodes);
    }
    assert ra == rb;
  }
}
