# Neural Network Analyzer: verified model of the network core

This project models the two parts of the Neural Network Analyzer that do
real work, and proves what they compute:

- **The topology generator** (`generateNetwork`). It lays out a fixed
  four-layer network of 4, 6, 6 and 4 neurons. Each neuron gets the id
  `neuron-<layer>-<i>`, a position on the canvas and the value 0. The
  generator then joins every neuron of a layer to every neuron of the next
  layer. The connections are pushed source by source and target by target,
  and each one takes the next random weight.
- **The propagation effect** of the `NeuralNetwork` component. When input
  data arrives it copies the neuron array and writes the input values onto the
  input neurons it finds by id. It then walks layers 0, 1 and 2. For every
  (source, target) pair of adjacent layers that a connection joins, it emits
  a signal and overwrites the target's value with the sigmoid of
  `source.value * weight`. The last source visited therefore decides each
  target's value.
- **The numeric helper** `processLayer`: a left fold that computes the dot
  product of its inputs and weights.

Modules, file by file:

| file | module | what it holds |
|---|---|---|
| `text.dfy` | `Text` | decimal rendering of naturals (`${n}`) and why it is injective |
| `network_types.dfy` | `NetworkTypes` | the `Neuron`, `Connection`, `Signal` and `InputData` records and the three id formats |
| `network_generator.dfy` | `NetworkGenerator` | `generateNetwork`: the two loops, imperative, specified by the functions `NetworkNeurons` and `NetworkConnections` |
| `generator_properties.dfy` | `GeneratorProperties` | what the generated network is: counts, order, ids, layout, completeness, degrees, weights |
| `network_processor.dfy` | `NetworkProcessor` | `processLayer`, pure, and its fold laws |
| `neural_network.dfy` | `NeuralNetwork` | the propagation effect, imperative over an `array<Neuron>`, specified by the functions `InputsAssigned`, `LayerStep`, `AfterLayers` and `SignalsUpTo` |
| `propagation_properties.dfy` | `PropagationProperties` | what the propagation does on any network: inputs, last writer wins, frame, signal order and content |
| `generated_run.dfy` | `GeneratedRun` | the propagation run on the generated network: its final values and its 84 signals |

Modelling choices:

- Numbers are `real`.
- Neurons are records in an array that the propagation changes in place, one
  `value` at a time.
- `Math.random()` is a parameter `random: seq<real>`. Connection k takes
  `random[k]`. At least 84 values are required.
- `sigmoid` is a parameter `sigmoid: real -> real` about which nothing is
  assumed.
- The k-th `Date.now()` reading of a run is a parameter `clock(k)`. This is
  used for the signal ids.
- A `find` is a function that returns the first matching position. Its
  contract is proved as a lemma (`FindInputSpec`, `FindConnectionSpec`).

Behaviour of the code that the model keeps as written:

- **No input-length check.** The effect raises no error for any number of
  input values. Values beyond the input neurons are ignored, and input neurons
  without a value keep the value they had (`RunPropagation`, `InputWritten`,
  `InputUnwritten`).
- **Inputs are matched by id, not by position.** Input value i goes to the
  first neuron of layer 0 whose id is `neuron-0-<i>`. On the generated network
  this is position i (`GeneratedFindInput`).
- **Fixed layer sizes.** The generator always builds layers of 4, 6, 6 and 4
  neurons and checks none of its arguments.
- **No summation.** Each incoming connection overwrites its target with the
  sigmoid of one weighted source value, so the last source visited decides the
  value (`LastWriterWins`, `GeneratedLaterLayer`).
- **The y bounds are conditional.** The y coordinates lie strictly between
  `padding` and `height - padding` only when `height > 2 * padding`. The
  generator does not enforce this, so the lemmas about y require it.
- **`processLayer` with short weights.** `processLayer` reads
  `weights[index]`, which is `undefined` past the end of the weights, and
  that makes the sum NaN. The model returns `None` exactly when there are
  fewer weights than inputs.

## Model

| member | source | states |
|---|---|---|
| Text.NatToString | src/utils/networkGenerator.ts:25 | `${n}` prints at least one character, all decimal digits, a single digit exactly when n < 10, and no leading zero unless n is 0 |
| Text.NatToStringInjective | src/utils/networkGenerator.ts:25 | two naturals with the same decimal rendering are equal |
| NetworkTypes.NeuronId | src/utils/networkGenerator.ts:25 | a neuron id starts with `neuron-` and has at least one digit for each number and the dash between them; `NeuronIdInjective` is its partner |
| NetworkTypes.NeuronIdInjective | src/utils/networkGenerator.ts:25 | `neuron-<layer>-<i>` determines both layer and i |
| NetworkTypes.ConnectionId | src/utils/networkGenerator.ts:42 | a connection id starts with `connection-` and is exactly 12 characters longer than its two neuron ids together; `ConnectionIdInjective` is its partner |
| NetworkTypes.SignalId | src/components/NeuralNetwork.tsx:52 | a signal id starts with `signal-`, then holds the connection id in full and at least a dash and one digit more |
| NetworkTypes.ConnectionIdInjective | src/utils/networkGenerator.ts:42 | `connection-<sourceId>-<targetId>` built from two neuron ids determines all four layer and index numbers |
| NetworkGenerator.GenerateNetwork | src/utils/networkGenerator.ts:3-52 | the two returned arrays are the specified neurons and connections for the given canvas and random weights |
| NetworkGenerator.GenerateNeurons | src/utils/networkGenerator.ts:14-32 | the nested layer/index loop pushes exactly the planned neurons, layer by layer and index by index |
| NetworkGenerator.GenerateConnections | src/utils/networkGenerator.ts:35-49 | the layer loop pushes the rows of every layer pair in order, taking the filtered neurons of layers L and L+1 |
| NetworkGenerator.ConnectLayer | src/utils/networkGenerator.ts:39-48 | the outer `forEach` over the sources of layer L pushes every source's row in order, so the array grows from the connections of the layers before L to those of the layers up to L |
| NetworkGenerator.ConnectSource | src/utils/networkGenerator.ts:39-48 | one source's inner `forEach` appends exactly its row of connections, one per target, with the next random weights |
| NetworkGenerator.LayerX | src/utils/networkGenerator.ts:16-18 | the x of layer 0 is `padding` and the x of the last layer is `width - padding` |
| NetworkGenerator.InLayer | src/utils/networkGenerator.ts:36-37 | `filter(n => n.layer === layer)` keeps only neurons of that layer and never grows the array; the converse is `InLayerMembers` and the order is `InLayerConcat` |
| NetworkGenerator.InLayerMembers | src/utils/networkGenerator.ts:36-37 | the filter keeps a neuron exactly when it is in the array and in that layer |
| NetworkGenerator.InLayerConcat | src/utils/networkGenerator.ts:36-37 | filtering a concatenation filters each part and keeps them in order, so kept neurons stay in array order |
| NetworkGenerator.InLayerAll | src/utils/networkGenerator.ts:36-37 | a run of neurons all in the layer is kept whole |
| NetworkGenerator.InLayerNone | src/utils/networkGenerator.ts:36-37 | a run of neurons none of which is in the layer is dropped entirely |
| NetworkGenerator.GeneratedLayer | src/utils/networkGenerator.ts:36-37 | filtering the neurons pushed so far by a layer gives exactly that layer's neurons once it is pushed, and none before |
| GeneratorProperties.NeuronAt | src/utils/networkGenerator.ts:14-31 | there are 20 neurons, and position LayerStart(layer)+i holds `neuron-<layer>-<i>` with its layer x, its y, that layer and value 0 |
| GeneratorProperties.NeuronAtIndex | src/utils/networkGenerator.ts:14-31 | every position k holds the planned neuron of the layer k falls in, at index k minus that layer's start |
| GeneratorProperties.NeuronIdsDistinct | src/utils/networkGenerator.ts:20-26 | no two generated neurons share an id |
| GeneratorProperties.NeuronsOrderedByLayer | src/utils/networkGenerator.ts:14-31 | layers never decrease along the neuron array |
| GeneratorProperties.NeuronsStartAtZero | src/utils/networkGenerator.ts:16-30 | every neuron has value 0, a layer in 0..3 and its layer's x; layer 0 sits at `padding` and layer 3 at `width - padding` |
| GeneratorProperties.NeuronYIncreasing | src/utils/networkGenerator.ts:17-22 | when `height > 2*padding`, y strictly increases with the index in the layer |
| GeneratorProperties.NeuronYInside | src/utils/networkGenerator.ts:17-22 | when `height > 2*padding`, every y lies strictly between `padding` and `height - padding` |
| GeneratorProperties.GeneratedLayout | src/utils/networkGenerator.ts:14-31 | on the generated array, neurons of one layer are ordered by strictly increasing y, all inside the vertical margins |
| GeneratorProperties.ConnectionAt | src/utils/networkGenerator.ts:35-49 | there are 84 connections, and position start(L) + i*n(L+1) + j joins source i of L to target j of L+1 with id `connection-<src>-<tgt>` and weight `random[k]` |
| GeneratorProperties.ConnectionAtIndex | src/utils/networkGenerator.ts:35-49 | every position k holds the connection of the layer, source and target that k decodes to |
| GeneratorProperties.ConnectionWeights | src/utils/networkGenerator.ts:45 | connection k's weight is `random[k]`, so with random values in [0,1) every weight is in [0,1) |
| GeneratorProperties.ConnectionsJoinAdjacentLayers | src/utils/networkGenerator.ts:35-46 | every connection's id is built from its endpoints, and it joins a generated neuron to a generated neuron exactly one layer further on |
| GeneratorProperties.ConnectionsDistinct | src/utils/networkGenerator.ts:35-46 | no two connections have the same (source, target) pair or the same id |
| GeneratorProperties.ConnectionsComplete | src/utils/networkGenerator.ts:35-48 | every pair of neurons in adjacent layers is joined, at its row-major position, with that position's weight |
| GeneratorProperties.InDegree | src/utils/networkGenerator.ts:36-48 | a neuron of layer L has n(L-1) incoming connections, 0 in layer 0 |
| GeneratorProperties.OutDegree | src/utils/networkGenerator.ts:36-48 | a neuron of layer L has n(L+1) outgoing connections, 0 in the last layer |
| NetworkProcessor.ProcessLayer | src/utils/networkProcessor.ts:1-8 | the fold is undefined (NaN) exactly when some input has no weight |
| NetworkProcessor.ProcessLayerEmpty | src/utils/networkProcessor.ts:5-7 | no inputs give 0 |
| NetworkProcessor.ProcessLayerIsDot | src/utils/networkProcessor.ts:5-7 | with enough weights the fold equals the dot product of the inputs and the first weights |
| NetworkProcessor.ProcessLayerStep | src/utils/networkProcessor.ts:5-6 | appending an input x adds `x * weights[|inputs|]` to the fold |
| NetworkProcessor.ProcessLayerIgnoresExtraWeights | src/utils/networkProcessor.ts:5-6 | weights beyond the inputs' length do not change the result |
| NetworkProcessor.ProcessLayerZeroInputs | src/utils/networkProcessor.ts:5-7 | all-zero inputs give 0 for any sufficient weights |
| NeuralNetwork.FindInputSpec | src/components/NeuralNetwork.tsx:34 | the input `find` returns the first layer-0 neuron with id `neuron-0-<i>`, or nothing when none exists |
| NeuralNetwork.FindConnectionSpec | src/components/NeuralNetwork.tsx:47-49 | `connections.find` returns the first connection joining the source to the target, or nothing when none does |
| NeuralNetwork.FindInputFromShape | src/components/NeuralNetwork.tsx:33-36 | which neuron the input `find` picks does not depend on neuron values, so earlier writes do not change later lookups |
| NeuralNetwork.AssignInputs | src/components/NeuralNetwork.tsx:33-38 | the `forEach` over input values leaves the array as the in-order assignment of each value to its found neuron |
| NeuralNetwork.LastSource | src/components/NeuralNetwork.tsx:45-62 | the source that last writes a target is the highest-positioned feeding source before the bound, and none means no source feeds it |
| NeuralNetwork.VisitPair | src/components/NeuralNetwork.tsx:46-62 | one pair: if a connection joins them, push its signal and overwrite the target's value; otherwise change nothing |
| NeuralNetwork.VisitSource | src/components/NeuralNetwork.tsx:45-63 | one source visits every target of the next layer in array order |
| NeuralNetwork.PropagateLayer | src/components/NeuralNetwork.tsx:42-64 | one layer iteration leaves the array as the layer's step and returns exactly its signals, numbered from the signals already emitted |
| NeuralNetwork.PropagateLayers | src/components/NeuralNetwork.tsx:41-65 | the loop over layers 0..2 composes the three layer steps and concatenates their signals |
| NeuralNetwork.RunPropagation | src/components/NeuralNetwork.tsx:26-71 | without input data nothing happens; otherwise the update holds the propagated neurons, all signals in emission order and the set of all neuron ids |
| PropagationProperties.InputWritten | src/components/NeuralNetwork.tsx:33-38 | the neuron found for input i ends with `values[i]` verbatim |
| PropagationProperties.InputUnwritten | src/components/NeuralNetwork.tsx:33-38 | a neuron that no input value finds is left unchanged |
| PropagationProperties.InputsOnlyLayerZero | src/components/NeuralNetwork.tsx:34-36 | input assignment never touches a neuron outside layer 0 |
| PropagationProperties.FeedsShape | src/components/NeuralNetwork.tsx:42-51 | whether a pair is joined, and by which connection, depends only on ids and layers, not on values |
| PropagationProperties.LayerStepOnlyNext | src/components/NeuralNetwork.tsx:43-61 | iteration L writes only neurons of layer L+1 |
| PropagationProperties.LastWriterWins | src/components/NeuralNetwork.tsx:45-62 | after iteration L a target holds sigmoid of (last feeding source's value times that connection's weight) |
| PropagationProperties.UnfedKept | src/components/NeuralNetwork.tsx:47-51 | a target that no source feeds keeps its value |
| PropagationProperties.AfterLayersOutside | src/components/NeuralNetwork.tsx:41-61 | the first n iterations change only neurons of layers 1..n |
| PropagationProperties.AfterLayersStable | src/components/NeuralNetwork.tsx:41-43 | a neuron of layer at most m is final after m iterations, so every source value read is already final |
| PropagationProperties.PropagatedShape | src/components/NeuralNetwork.tsx:29-61 | only `value` fields change: ids, x, y, layers, length and order stay the same |
| PropagationProperties.InputLayerFinal | src/components/NeuralNetwork.tsx:41-61 | layer-0 values are the assigned inputs, never passed through sigmoid |
| PropagationProperties.FinalValue | src/components/NeuralNetwork.tsx:45-62 | at the end, a fed target of layer L+1 holds sigmoid(final value of its last feeding source times its weight) |
| PropagationProperties.UnfedFinal | src/components/NeuralNetwork.tsx:47-51 | at the end, a neuron of layers 1..3 that no source feeds is unchanged |
| PropagationProperties.OtherLayersFinal | src/components/NeuralNetwork.tsx:41-43 | neurons of layers outside 0..3 are never changed |
| PropagationProperties.EmptyNetworkSilent | src/components/NeuralNetwork.tsx:41-65 | with no neurons nothing changes and no signal is emitted |
| PropagationProperties.RowPairsMembers | src/components/NeuralNetwork.tsx:46-51 | a source emits towards target t before bound m exactly when a connection joins them |
| PropagationProperties.RowPairsOrdered | src/components/NeuralNetwork.tsx:46 | one source's signals come in target order |
| PropagationProperties.LayerPairsMembers | src/components/NeuralNetwork.tsx:45-51 | iteration L emits for (s, t) exactly when s is within the bound and a connection joins them |
| PropagationProperties.LayerPairsOrdered | src/components/NeuralNetwork.tsx:45-46 | iteration L's signals are ordered by source, then target |
| PropagationProperties.LayerSignalAt | src/components/NeuralNetwork.tsx:52-58 | signal k of an iteration carries the joining connection's id, its stamp `clock(base+k)`, progress 0 and value `source.value * weight` |
| PropagationProperties.SignalUsesFinalSource | src/components/NeuralNetwork.tsx:41-56 | the source value a signal of iteration L uses is that source's final value |
| PropagationProperties.LayerSignalsCount | src/components/NeuralNetwork.tsx:45-58 | iteration L emits exactly as many signals as there are distinct (source, target) index pairs of layers L and L+1 that a connection joins |
| GeneratedRun.GeneratedFindInput | src/components/NeuralNetwork.tsx:34 | on the generated network the input `find` for i returns position i when i < 4, and nothing otherwise |
| GeneratedRun.GeneratedInputs | src/components/NeuralNetwork.tsx:33-38 | on the generated network the first four values go to the four input neurons, extra values are ignored and missing ones leave 0 |
| GeneratedRun.GeneratedFindConnection | src/components/NeuralNetwork.tsx:47-49 | on the generated connections, the lookup for source i of L and target j of L+1 finds the row-major position |
| GeneratedRun.GeneratedFeeds | src/components/NeuralNetwork.tsx:45-51 | on the generated network a pair emits exactly when source and target lie in layers L and L+1, through the row-major connection |
| GeneratedRun.GeneratedLastSource | src/components/NeuralNetwork.tsx:45-62 | on the generated network, the last source writing any target of layer L+1 is the last neuron of layer L |
| GeneratedRun.GeneratedInputLayer | src/components/NeuralNetwork.tsx:33-61 | on the generated network input neuron k ends with `values[k]`, or 0 when there are fewer values |
| GeneratedRun.GeneratedLaterLayer | src/components/NeuralNetwork.tsx:45-62 | on the generated network target j of layer L+1 ends with sigmoid(final value of the last neuron of L times the weight `random[k]` of their connection) |
| GeneratedRun.GeneratedRowPairs | src/components/NeuralNetwork.tsx:46-51 | on the generated network a source of layer L emits towards every target of layer L+1 in order |
| GeneratedRun.GeneratedLayerPairsLength | src/components/NeuralNetwork.tsx:45-58 | on the generated network iteration L emits n(L)·n(L+1) signals |
| GeneratedRun.GeneratedLayerPairsAt | src/components/NeuralNetwork.tsx:45-51 | on the generated network iteration L's signal at i*n(L+1)+j is for source i and target j |
| GeneratedRun.GeneratedSignalCount | src/components/NeuralNetwork.tsx:45-58 | on the generated network the first n iterations emit exactly as many signals as the connections of the first n layer pairs |
| GeneratedRun.GeneratedSignalAt | src/components/NeuralNetwork.tsx:52-58 | after n iterations, signal k is the one for connection k, stamped `clock(k)` |
| GeneratedRun.GeneratedSignals | src/components/NeuralNetwork.tsx:52-58 | on the generated network the run emits 84 signals, and signal k is for connection k, from `neuron-<L>-<i>` to `neuron-<L+1>-<j>`, with id `signal-<connection id>-<clock(k)>`, progress 0 and value `source.value * weight` |
| GeneratedRun.GeneratedSignalEnds | src/components/NeuralNetwork.tsx:52-54 | signal k's connection comes from the neuron at position start(L)+i and goes to `neuron-<L+1>-<j>` |
| GeneratedRun.GeneratedSignalValue | src/components/NeuralNetwork.tsx:56 | signal k's value is the final value of its source times connection k's weight |

## Left out

- React plumbing: `useState`, both `useEffect` registrations and the setters `setNeurons`, `setSignals`, `setActiveNeurons`. `RunPropagation` returns the three values it would set.
- The first effect, which calls `generateNetwork()` with its default canvas of 800 by 600 and padding 100. The generator is modelled for any canvas.
- SVG rendering and animation, and every presentation component: Neuron, Connection, Signal, Footer, Newsletter, ExampleSelector, App, NetworkInfo. They are markup or UI state.
- DataInput's validation relies on JavaScript's `parseFloat` and `isNaN` string semantics, which this model cannot see. DataVisualizer is chart configuration and display statistics.
- Aliasing: the source copies the array shallowly, so the copy shares neuron objects with React state, and its writes also change the old state. The model copies neuron values into a fresh array and does not capture this shared mutation.
- The effect runs only when `inputData` changes, reading the `neurons` and `connections` of the render that scheduled it. In the model these are the parameters of `RunPropagation`. Which render's state they come from is not modelled.
- Floating point: every number is an exact `real`. IEEE rounding, infinities and NaN are not modelled, except that an out-of-range weight read in `processLayer` is `None`.
- `sigmoid`'s body, built on `Math.exp`, is left out. It is a transcendental function in floating point, so it is passed in as `sigmoid` and nothing is assumed or proved about its values.
- `Math.random()` is the parameter `random`. The model does not prove that the real source returns values in [0,1). `ConnectionWeights` takes that as a hypothesis.
- `Date.now()` is the parameter `clock`. The model does not require the readings to increase or to be distinct, so signal ids are not proved distinct.
- `processLayer` is not called by the propagation, and the model does not connect the two.

The y lemmas (`NeuronYIncreasing`, `NeuronYInside`, `GeneratedLayout`) hold only when `height > 2 * padding`, as explained above.
