/**
 The three-layer network and its construction (NNImpl's constructor). Layers
 are sequences of nodes; the last input node and the last hidden node are bias
 units; every hidden unit is connected to the whole input layer and every
 output unit to the whole hidden layer, parent j being node j of the previous
 layer.
 */
module Networks {
  import opened Nodes

  /** A labelled example: its attribute vector and its class-membership indicators. */
  datatype Instance = Instance(attributes: seq<real>, classValues: seq<int>)

  /** The network's layers and the training parameters fixed at construction. */
  datatype Network = Network(
    inputNodes: seq<Node>,
    hiddenNodes: seq<Node>,
    outputNodes: seq<Node>,
    trainingSet: seq<Instance>,
    learningRate: real,
    maxEpoch: int)

  /** A loop `for (i = 0; i < n; i++)` runs max(n, 0) times. */
  function Count(n: int): nat
  {
    if n < 0 then 0 else n
  }

  /** Parent j of `n` is node j of a previous layer of `width` nodes. */
  predicate FullyWired(n: Node, width: nat)
  {
    |n.parents| == width && forall j :: 0 <= j < width ==> n.parents[j].parent == j
  }

  /** The input layer: input units without parents, then the bias unit with activation 1. */
  predicate InputLayer(layer: seq<Node>)
  {
    && |layer| > 0
    && (forall i :: 0 <= i < |layer| - 1 ==> layer[i].kind == Input && layer[i].parents == [])
    && layer[|layer| - 1].kind == BiasToHidden
    && layer[|layer| - 1].parents == []
    && layer[|layer| - 1].output == 1.0
  }

  /** The hidden layer: hidden units wired to all `width` input-layer nodes, then the
      bias unit with activation 1. */
  predicate HiddenLayer(layer: seq<Node>, width: nat)
  {
    && |layer| > 0
    && (forall i :: 0 <= i < |layer| - 1 ==> layer[i].kind == Hidden && FullyWired(layer[i], width))
    && layer[|layer| - 1].kind == BiasToOutput
    && layer[|layer| - 1].parents == []
    && layer[|layer| - 1].output == 1.0
  }

  /** The output layer: output units wired to all `width` hidden-layer nodes. */
  predicate OutputLayer(layer: seq<Node>, width: nat)
  {
    forall i :: 0 <= i < |layer| ==> layer[i].kind == Output && FullyWired(layer[i], width)
  }

  /** Layer shapes, node types, bias activations and positional wiring of a network. */
  predicate WellFormed(net: Network)
  {
    && InputLayer(net.inputNodes)
    && HiddenLayer(net.hiddenNodes, |net.inputNodes|)
    && OutputLayer(net.outputNodes, |net.hiddenNodes|)
  }

  /** Two nodes have the same type and the same parents, in the same order. */
  predicate SameLinks(a: Node, b: Node)
  {
    && a.kind == b.kind
    && |a.parents| == |b.parents|
    && forall j :: 0 <= j < |a.parents| ==> a.parents[j].parent == b.parents[j].parent
  }

  predicate SameLayerLinks(a: seq<Node>, b: seq<Node>)
  {
    |a| == |b| && forall i :: 0 <= i < |a| ==> SameLinks(a[i], b[i])
  }

  /** Same layer sizes, node types and parents; weights and activations may differ. */
  predicate SameWiring(a: Network, b: Network)
  {
    && SameLayerLinks(a.inputNodes, b.inputNodes)
    && SameLayerLinks(a.hiddenNodes, b.hiddenNodes)
    && SameLayerLinks(a.outputNodes, b.outputNodes)
  }

  predicate SameLayerEdges(a: seq<Node>, b: seq<Node>)
  {
    |a| == |b| && forall i :: 0 <= i < |a| ==> a[i].kind == b[i].kind && a[i].parents == b[i].parents
  }

  /** Same wiring and the same weights; only activations and deltas may differ. */
  predicate SameWeights(a: Network, b: Network)
  {
    && SameLayerEdges(a.inputNodes, b.inputNodes)
    && SameLayerEdges(a.hiddenNodes, b.hiddenNodes)
    && SameLayerEdges(a.outputNodes, b.outputNodes)
  }

  /** A layer with the same types and parents as a well-formed layer, whose last node
      still outputs 1, is well-formed too; only weights may have changed. */
  lemma SameLinksKeepLayers(a: seq<Node>, b: seq<Node>, width: nat)
    requires SameLayerLinks(a, b)
    ensures InputLayer(a) && b[|b| - 1].output == 1.0 ==> InputLayer(b)
    ensures HiddenLayer(a, width) && b[|b| - 1].output == 1.0 ==> HiddenLayer(b, width)
    ensures OutputLayer(a, width) ==> OutputLayer(b, width)
  {
    if InputLayer(a) {
      forall i | 0 <= i < |b|
        ensures b[i].parents == []
      {
        assert SameLinks(a[i], b[i]);
      }
    }
    if HiddenLayer(a, width) {
      assert SameLinks(a[|a| - 1], b[|b| - 1]);
      forall i | 0 <= i < |b| - 1
        ensures FullyWired(b[i], width)
      {
        assert SameLinks(a[i], b[i]);
        assert FullyWired(a[i], width);
      }
    }
    if OutputLayer(a, width) {
      forall i | 0 <= i < |b|
        ensures FullyWired(b[i], width)
      {
        assert SameLinks(a[i], b[i]);
        assert FullyWired(a[i], width);
      }
    }
  }

  /** `m` has at least `rows` rows, each of at least `cols` entries. */
  predicate CoversShape(m: seq<seq<real>>, rows: nat, cols: nat)
  {
    |m| >= rows && forall i :: 0 <= i < rows ==> |m[i]| >= cols
  }

  /** Connections from nodes 0..width-1 of the previous layer, weighted by a matrix row. */
  function Row(weights: seq<real>, width: nat): (ps: seq<Edge>)
    requires |weights| >= width
  {
    seq(width, j requires 0 <= j < width => Edge(j, weights[j]))
  }

  /** NNImpl's constructor: the layer sizes come from the first training instance,
      row i of each weight matrix supplies the incoming weights of unit i. */
  function Construct(
    trainingSet: seq<Instance>,
    hiddenNodeCount: int,
    learningRate: real,
    maxEpoch: int,
    hiddenWeights: seq<seq<real>>,
    outputWeights: seq<seq<real>>): (net: Network)
    requires |trainingSet| > 0
    requires CoversShape(hiddenWeights, Count(hiddenNodeCount), |trainingSet[0].attributes| + 1)
    requires CoversShape(outputWeights, |trainingSet[0].classValues|, Count(hiddenNodeCount) + 1)
    ensures WellFormed(net)
    ensures |net.inputNodes| == |trainingSet[0].attributes| + 1
    ensures |net.hiddenNodes| == Count(hiddenNodeCount) + 1
    ensures |net.outputNodes| == |trainingSet[0].classValues|
    ensures forall i, j :: 0 <= i < |net.hiddenNodes| - 1 && 0 <= j < |net.inputNodes| ==>
      net.hiddenNodes[i].parents[j].weight == hiddenWeights[i][j]
    ensures forall i, j :: 0 <= i < |net.outputNodes| && 0 <= j < |net.hiddenNodes| ==>
      net.outputNodes[i].parents[j].weight == outputWeights[i][j]
    ensures net.trainingSet == trainingSet && net.learningRate == learningRate && net.maxEpoch == maxEpoch
  {
    var a := |trainingSet[0].attributes|;
    var c := |trainingSet[0].classValues|;
    var h := Count(hiddenNodeCount);
    var inputs := seq(a, _ => NewNode(Input, [])) + [NewNode(BiasToHidden, [])];
    var hidden := seq(h, i requires 0 <= i < h => NewNode(Hidden, Row(hiddenWeights[i], a + 1)))
      + [NewNode(BiasToOutput, [])];
    var outputs := seq(c, i requires 0 <= i < c => NewNode(Output, Row(outputWeights[i], h + 1)));
    Network(inputs, hidden, outputs, trainingSet, learningRate, maxEpoch)
  }
}
