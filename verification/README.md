# A verified model of NNImpl, a one-hidden-layer neural network

`NNImpl` is a feed-forward network for multi-class classification. It has an input layer of
one unit per attribute plus a bias unit, a hidden layer of sigmoid units plus a bias unit,
and an output layer with one unit per class. The output layer is normalised into a
probability distribution: each output is `exp(z)` divided by the sum of those exponentials.
The network is trained by online back-propagation over a shuffled training set for `maxEpoch`
epochs. It predicts the index of the highest score and reports the mean cross-entropy loss
after every epoch.

This project restates that behaviour in Dafny with immutable data and proves properties of it.
- A node is a value: its type, activation, delta and incoming connections.
- A connection names its parent by position in the previous layer, not by reference.
- A layer is a sequence of nodes.
- Every operation that mutates the Java network returns the updated network instead.
- `double` becomes `real`.
- The logistic sigmoid, `exp` and `log` are parameters: fields of a `Numerics` record.
  - The forward pass assumes `exp` is positive.
  - The non-negativity of the loss assumes `log` is non-positive on (0, 1].

Modules, in dependency order:

- `Sums` (sums.dfy): finite sums over the reals, and the normalisation lemma behind softmax.
- `Nodes` (nodes.dfy): node types, connections, and the per-unit arithmetic the network calls.
  - Its five functions `SetInput`, `CalculateOutput`, `NormalizeOutput`, `CalculateDelta` and
    `UpdateWeight` stand in for the `Node` methods of the same names. They encode the assumptions
    listed under "## Left out".
- `Networks` (networks.dfy): instances, the network, its well-formedness invariant, and the constructor.
  - Well-formedness covers the layer shapes, the bias units with activation 1, and the positional wiring.
- `Forward` (forward.dfy): `computeNNout`.
- `Prediction` (prediction.dfy): `predict` and its argmax loop.
- `Loss` (loss.dfy): `loss`.
- `Training` (training.dfy): the per-instance body of `train`.
- `Epochs` (epochs.dfy): the epoch loop of `train`, with the shuffle supplied by the caller.

Three behaviours of the code are easy to miss, and the model keeps them:

- `predict` returns `-1` when the output layer is empty. It does not always return an index in range.
- `train` calls `calculateDelta` and `updateWeight` on the hidden bias unit too
  (NNImpl.java:146-153). The model makes both calls no-ops on bias units: the unit has no
  parents, and its activation stays 1.
- `computeNNout` does not always overwrite every input activation. It writes only the first
  `attributes.size()` input units (NNImpl.java:95-97). An instance with fewer attributes leaves
  the previous pass's activations in the remaining units.
  - The model threads the network through every pass, so it keeps this behaviour.
  - `Forward.ForwardReadsOnlyWeights` and `Epochs.LossPassIsSum` show that the leftover
    activations do not matter when every instance fills the input layer.

## Model

| member | source | states |
|---|---|---|
| Networks.Construct | NNImpl.java:27-73 | The constructor builds a well-formed network. The input layer has one unit per attribute of the first instance plus a bias unit. The hidden layer has `hiddenNodeCount` units plus a bias unit. There is one output unit per class value. Hidden unit i's weight from input node j is `hiddenWeights[i][j]`, and output unit i's weight from hidden node j is `outputWeights[i][j]`. The training set, learning rate and epoch count are the ones supplied. |
| Prediction.ArgMax | NNImpl.java:84-89 | The scan returns -1 exactly when there are no scores. Otherwise it returns an index m whose score is at least every other score and strictly greater than every score before it, so the first maximum wins. |
| Prediction.FirstMaxUnique | NNImpl.java:84-89 | At most one index satisfies ArgMax's contract, so that contract determines the result of `predict`. |
| Prediction.Predict | NNImpl.java:82-90 | `predict` runs the forward pass and returns -1 exactly when the network has no output units. Otherwise it returns the index of the first maximal score of that pass. |
| Nodes.NormalizeOutput | NNImpl.java:109-112 | Normalising an output unit by a non-zero sum gives an activation that, multiplied back by the sum, is the raw activation. Other units are unchanged. |
| Forward.ComputeNNout | NNImpl.java:93-115 | The pass returns one score per output unit and leaves the network well-formed with the same weights. Score i is the exponential of output unit i's weighted sum over the new hidden activations, divided by the sum of those exponentials over all output units. That one sum is positive whenever there is an output unit. |
| Forward.ForwardActivations | NNImpl.java:95-101 | After the pass, input unit i holds attribute i. Hidden unit i holds the sigmoid of its weighted sum over the new input activations. |
| Forward.ScoresFormDistribution | NNImpl.java:103-112 | Every score lies in (0, 1]. When there is at least one output unit, the scores sum to 1. |
| Forward.ForwardReadsOnlyWeights | NNImpl.java:93-115 | When the instance has one attribute per input unit, two networks with the same weights produce the same scores and the same hidden activations. Activations left by an earlier pass do not matter. |
| Loss.OneHotLoss | NNImpl.java:178-183 | For a target that is 1 at class c and 0 elsewhere, `−Σ target_i · log(score_i)` equals `−log(score_c)`, for any `log`. |
| Loss.LossNonNegative | NNImpl.java:178-183 | For a one-hot target and scores in (0, 1], the cross-entropy is non-negative whenever `log` is non-positive on (0, 1]. |
| Loss.InstanceLoss | NNImpl.java:173-184 | `loss` leaves the network well-formed with the same weights. For a one-hot label whose class has an output unit, the loss is the negative log of that class's score. For one-hot labels the loss is non-negative when `log` is non-positive on (0, 1]. |
| Training.AccumulateIsBackSignal | NNImpl.java:137-145 | When every output unit has one parent per helper slot, the accumulation loop adds to slot k the sum over j of `weight_jk × delta_j`. |
| Training.OutputsAligned | NNImpl.java:140-143 | In a well-formed network, every output unit has exactly one parent per hidden-layer node, and parent k is hidden node k. So every slot index the accumulation loop uses is in range and refers to the hidden node in the same position. |
| Training.HelperAt | NNImpl.java:134-145 | Hidden slot k ends up holding the sum over j of `weight_jk × (target_j − score_j)`, taken over the output weights before the step. |
| Training.TrainStep | NNImpl.java:132-156 | A training step leaves the network well-formed. It keeps the layer sizes, node types and parent lists, and the training set, learning rate and epoch count. Only activations, deltas and weights change. |
| Training.OutputDeltaAt | NNImpl.java:137-138 | After a step, output unit j's delta is `target_j − score_j`. |
| Training.HiddenDeltaAt | NNImpl.java:146-148 | After a step, hidden unit k's delta is `signal × h × (1 − h)`. Here the signal is the back-propagated sum over the pre-update output weights, and h is the unit's activation from the forward pass. |
| Training.TrainStepDeltas | NNImpl.java:137-148 | All deltas of a step come from the weights before the step. Output deltas are the error signals. Hidden deltas are the back-propagated signals scaled by the sigmoid derivative. |
| Training.OutputWeightAt | NNImpl.java:154-156 | Output weight (j, k) becomes its pre-step value plus `rate × delta_j × h_k`. |
| Training.HiddenWeightAt | NNImpl.java:151-153 | Hidden weight (i, p) becomes its pre-step value plus `rate × delta_i × x_p`. Here x_p is input node p's activation from the forward pass. |
| Training.TrainStepWeights | NNImpl.java:150-156 | Every weight of both layers moves from its pre-step value by rate × delta × the parent's activation from the forward pass. This holds although the hidden layer is updated before the output layer. |
| Training.TrainStepActivations | NNImpl.java:150-156 | The weight updates leave every activation of the forward pass in place. |
| Epochs.TrainPass | NNImpl.java:130-157 | One training step per instance, in order, keeps the network well-formed. It keeps the wiring, the training set, the learning rate and the epoch count. |
| Epochs.LossPass | NNImpl.java:159-162 | The loss loop keeps the weights, the wiring and the parameters. For one-hot labels its total is non-negative when `log` is non-positive on (0, 1]. |
| Epochs.LossPassIsSum | NNImpl.java:159-162 | When every instance fills the input layer, the loss loop's total equals the sum of each instance's loss under the current weights. |
| Epochs.Epoch | NNImpl.java:126-164 | An epoch on a shuffled order makes that order the training set, a permutation of the old one. It keeps the wiring, the learning rate and the epoch count. The mean loss it reports is non-negative for one-hot labels when `log` is non-positive on (0, 1]. |
| Epochs.EpochLossIsMean | NNImpl.java:159-163 | When every instance fills the input layer, the reported value is the sum of each instance's loss under the trained weights, divided by the training-set size. The sum may be taken over the training set in its order before the shuffle. |
| Epochs.RunEpochs | NNImpl.java:126-165 | Running the epochs keeps the network well-formed with the same wiring. It reports exactly one mean loss per epoch. |
| Epochs.EpochsKeepLastOrder | NNImpl.java:126-128 | After the epochs, the training set is in the order of the last shuffle. |
| Epochs.EpochsKeepRate | NNImpl.java:126-165 | The epochs change neither the learning rate nor the epoch count. |
| Epochs.EpochsLossesNonNegative | NNImpl.java:159-163 | Every reported mean loss is non-negative for one-hot labels when `log` is non-positive on (0, 1]. |
| Epochs.Train | NNImpl.java:123-166 | `train` runs no epoch when `maxEpoch` is not positive, and otherwise exactly `maxEpoch` epochs, each reporting one loss. The network stays well-formed with the same wiring, learning rate and epoch count. Its training set ends up a permutation of the original. Every reported loss is non-negative for one-hot labels when `log` is non-positive on (0, 1]. |

## Left out

- `printWeights` (NNImpl.java:186-214) is file output with exception handling, so it is not modelled.
- The epoch log line (NNImpl.java:163) is console output. The model returns the value it prints as `Trained.losses`.
- The randomness of `Collections.shuffle(trainingSet, random)` (NNImpl.java:128) is not modelled, and neither is the `random` field.
  - The caller supplies each epoch's order, which must be a permutation of the training set.
  - Only the multiset of instances is guaranteed.
- IEEE-754 arithmetic is not modelled: rounding, overflow of `exp`, `log(0)` and NaN. Weights, activations and losses are exact reals, and real addition is associative. The Java loops sum from the left; the model sums from the head, and over the reals the two agree.
- The values of the sigmoid, `exp` and `log` are not modelled. Of `exp`, only positivity is assumed. Of `log`, only non-positivity on (0, 1] is assumed, and only for the loss bounds. The sigmoid is left unconstrained, but the hidden delta assumes that its derivative at activation h is h × (1 − h), which holds for the logistic sigmoid.
- Node.java, NodeWeightPair.java and Instance.java are not part of this model. Their assumed behaviour:
  - A new bias unit outputs 1 and every other unit starts at 0 with delta 0.
  - `setInput` changes only input units.
  - `calculateOutput` and `calculateDelta` change only hidden and output units.
  - `calculateOutput` sets a hidden unit's activation to sigmoid(Σ weight × parent activation), and an output unit's to exp of that sum.
  - `calculateDelta` sets an output unit's delta to the signal it is given, and a hidden unit's to signal × h × (1 − h), where h is its activation.
  - `updateWeight` on a bias unit does nothing. The unit has no incoming connections: the model gives it an empty parent list, where the Java `parents` field may be null (`printWeights` checks for null at NNImpl.java:195).
  - `normalizeOutput` divides an output unit's activation by the sum it is given and changes no other unit.
  - `updateWeight` moves every incoming weight by rate × delta × parent activation.
- Java object identity and aliasing of parent references are not modelled. Parents are indices into the previous layer.
- Networks.Construct requires weight matrices at least as large as the layers it indexes, and a non-empty training set. On smaller inputs the Java code throws an index-out-of-range exception; that failure is not modelled.
- Forward.ComputeNNout and Prediction.Predict require each instance to have no more attributes than input units. On other instances the Java code throws an index-out-of-range exception at NNImpl.java:96; that failure is not modelled.
- Loss.InstanceLoss requires no more attributes than input units and no fewer class values than output units. On other instances the Java code throws an index-out-of-range exception at NNImpl.java:96 or NNImpl.java:179; that failure is not modelled.
- Training.TrainStep and the Epochs functions require each instance to have no more attributes than input units and no fewer class values than output units (`Fits`). On other instances the Java code throws an index-out-of-range exception; that failure is not modelled.
- Null entries in the `Double[][]` weight matrices and a null `learningRate` are not modelled.
