/**
 A single unit of the network and its elementary math. A node's incoming
 connections name their parents by position in the previous layer instead of
 by reference. The logistic sigmoid, the exponential and the natural
 logarithm are transcendental; they are carried as uninterpreted functions in
 a `Numerics` record and only the facts the network relies on are assumed of
 them.
 */
module Nodes {
  /** The five node types, in the order of the source's integer type codes 0..4. */
  datatype NodeKind = Input | BiasToHidden | Hidden | BiasToOutput | Output
  {
    predicate IsBias()
    {
      BiasToHidden? || BiasToOutput?
    }
  }

  /** A weighted incoming connection from node `parent` of the previous layer. */
  datatype Edge = Edge(parent: nat, weight: real)

  /** A unit: its type, current activation, current error term and incoming connections. */
  datatype Node = Node(kind: NodeKind, output: real, delta: real, parents: seq<Edge>)

  /** The transcendental functions used by the forward pass and the loss. */
  datatype Numerics = Numerics(sigmoid: real -> real, exp: real -> real, log: real -> real)

  /** The one fact about `exp` the forward pass needs: it is positive. */
  ghost predicate PositiveExp(num: Numerics)
  {
    forall z :: num.exp(z) > 0.0
  }

  /** A freshly created node: a bias unit outputs 1, every other unit starts at 0. */
  function NewNode(kind: NodeKind, parents: seq<Edge>): (n: Node)
    ensures n.kind == kind && n.parents == parents
    ensures kind.IsBias() ==> n.output == 1.0
  {
    Node(kind, if kind.IsBias() then 1.0 else 0.0, 0.0, parents)
  }

  /** Every connection names a node of a previous layer of `width` nodes. */
  predicate LinksInto(parents: seq<Edge>, width: nat)
  {
    forall j :: 0 <= j < |parents| ==> parents[j].parent < width
  }

  /** The activations of a layer, in order. */
  function Outputs(layer: seq<Node>): (r: seq<real>)
    ensures |r| == |layer|
    ensures forall i :: 0 <= i < |layer| ==> r[i] == layer[i].output
  {
    seq(|layer|, i requires 0 <= i < |layer| => layer[i].output)
  }

  /** Σ weight × parent activation over the incoming connections. */
  function WeightedSum(parents: seq<Edge>, prev: seq<Node>): real
    requires LinksInto(parents, |prev|)
  {
    if |parents| == 0 then 0.0
    else parents[0].weight * prev[parents[0].parent].output + WeightedSum(parents[1..], prev)
  }

  /** The weighted sum reads only the previous layer's activations. */
  lemma {:induction false} WeightedSumReadsOutputs(parents: seq<Edge>, a: seq<Node>, b: seq<Node>)
    requires LinksInto(parents, |a|)
    requires Outputs(a) == Outputs(b)
    ensures WeightedSum(parents, a) == WeightedSum(parents, b)
  {
    if |parents| > 0 {
      assert a[parents[0].parent].output == Outputs(a)[parents[0].parent];
      WeightedSumReadsOutputs(parents[1..], a, b);
    }
  }

  /** Node.setInput: only an input unit takes the injected value. */
  function SetInput(n: Node, v: real): (r: Node)
    ensures r.kind == n.kind && r.parents == n.parents && r.delta == n.delta
    ensures n.kind.Input? ==> r.output == v
    ensures !n.kind.Input? ==> r == n
  {
    if n.kind.Input? then n.(output := v) else n
  }

  /** Node.calculateOutput: a hidden unit applies the sigmoid to its weighted sum,
      an output unit the exponential; other units keep their activation. */
  function CalculateOutput(n: Node, prev: seq<Node>, num: Numerics): (r: Node)
    requires LinksInto(n.parents, |prev|)
    ensures r.kind == n.kind && r.parents == n.parents && r.delta == n.delta
    ensures n.kind.Hidden? ==> r.output == num.sigmoid(WeightedSum(n.parents, prev))
    ensures n.kind.Output? ==> r.output == num.exp(WeightedSum(n.parents, prev))
    ensures !n.kind.Hidden? && !n.kind.Output? ==> r == n
  {
    match n.kind
    case Hidden => n.(output := num.sigmoid(WeightedSum(n.parents, prev)))
    case Output => n.(output := num.exp(WeightedSum(n.parents, prev)))
    case _ => n
  }

  /** Node.normalizeOutput: an output unit divides its activation by the layer's sum;
      scaling the result back by that sum gives the raw activation. */
  function NormalizeOutput(n: Node, expSum: real): (r: Node)
    requires n.kind.Output? ==> expSum != 0.0
    ensures r.kind == n.kind && r.parents == n.parents && r.delta == n.delta
    ensures n.kind.Output? ==> r.output * expSum == n.output
    ensures !n.kind.Output? ==> r == n
  {
    if n.kind.Output? then n.(output := n.output / expSum) else n
  }

  /** The error term of a sigmoid unit: the incoming signal times the sigmoid's
      derivative written in terms of the activation, activation × (1 − activation). */
  function SigmoidDelta(signal: real, activation: real): real
  {
    signal * activation * (1.0 - activation)
  }

  /** The gradient step on one weight: it moves by rate × delta × the parent's activation. */
  function SteppedWeight(weight: real, rate: real, delta: real, activation: real): real
  {
    weight + rate * delta * activation
  }

  /** Node.calculateDelta: an output unit takes the error signal as its delta, a hidden
      unit scales it by the sigmoid derivative. */
  function CalculateDelta(n: Node, signal: real): (r: Node)
    ensures r.kind == n.kind && r.parents == n.parents && r.output == n.output
    ensures n.kind.Output? ==> r.delta == signal
    ensures n.kind.Hidden? ==> r.delta == SigmoidDelta(signal, n.output)
    ensures !n.kind.Hidden? && !n.kind.Output? ==> r == n
  {
    match n.kind
    case Output => n.(delta := signal)
    case Hidden => n.(delta := SigmoidDelta(signal, n.output))
    case _ => n
  }

  /** Node.updateWeight: every incoming weight moves by rate × delta × parent activation;
      the connections keep their parents and the node its activation and delta. */
  function UpdateWeight(n: Node, prev: seq<Node>, rate: real): (r: Node)
    requires LinksInto(n.parents, |prev|)
    ensures r.kind == n.kind && r.output == n.output && r.delta == n.delta
    ensures |r.parents| == |n.parents|
    ensures forall j :: 0 <= j < |n.parents| ==> r.parents[j].parent == n.parents[j].parent
    ensures forall j :: 0 <= j < |n.parents| ==>
      r.parents[j].weight == SteppedWeight(n.parents[j].weight, rate, n.delta, prev[n.parents[j].parent].output)
  {
    var ps := seq(|n.parents|, j requires 0 <= j < |n.parents| =>
      Edge(n.parents[j].parent, SteppedWeight(n.parents[j].weight, rate, n.delta, prev[n.parents[j].parent].output)));
    n.(parents := ps)
  }
}
