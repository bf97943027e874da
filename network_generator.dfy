/** generateNetwork (src/utils/networkGenerator.ts): a fixed four-layer network,
    neurons laid out on a canvas and every neuron of one layer connected to
    every neuron of the next. `Math.random()` is replaced by the sequence
    `random`: the k-th connection pushed takes `random[k]`. */
module NetworkGenerator {
  import opened Text
  import opened NetworkTypes

  const Layers: nat := 4
  const NeuronsPerLayer: seq<nat> := [4, 6, 6, 4]

  /** Array position of the first neuron of `layer`: neurons are pushed layer by layer. */
  function LayerStart(layer: nat): nat
    requires layer <= Layers
  {
    if layer == 0 then 0 else LayerStart(layer - 1) + NeuronsPerLayer[layer - 1]
  }

  /** 4 + 6 + 6 + 4 */
  const NeuronCount: nat := LayerStart(Layers)

  /** Array position of the first connection leaving `layer`. */
  function ConnectionStart(layer: nat): nat
    requires layer < Layers
  {
    if layer == 0 then 0
    else ConnectionStart(layer - 1) + NeuronsPerLayer[layer - 1] * NeuronsPerLayer[layer]
  }

  /** 4*6 + 6*6 + 6*4 */
  const ConnectionCount: nat := ConnectionStart(Layers - 1)

  /** The x coordinate of every neuron of `layer`: the layers are spread evenly
      from `padding` to `width - padding`. */
  function LayerX(width: real, padding: real, layer: nat): (x: real)
    ensures layer == 0 ==> x == padding
    ensures layer == Layers - 1 ==> x == width - padding
  {
    padding + ((width - padding * 2.0) / (Layers - 1) as real) * layer as real
  }

  /** The y coordinate of the i-th of `count` neurons in a layer. */
  function NeuronY(height: real, padding: real, count: nat, i: nat): real {
    padding + ((height - padding * 2.0) / (count + 1) as real) * (i + 1) as real
  }

  /** The layer of the neuron at array position k. */
  function LayerOf(k: nat): (layer: nat)
    requires k < NeuronCount
    ensures layer < Layers && LayerStart(layer) <= k < LayerStart(layer + 1)
  {
    if k < LayerStart(1) then 0 else if k < LayerStart(2) then 1 else if k < LayerStart(3) then 2 else 3
  }

  /** The i-th neuron of `layer` sits at position LayerStart(layer) + i, inside `layer`. */
  lemma LayerOfPosition(layer: nat, i: nat)
    requires layer < Layers && i < NeuronsPerLayer[layer]
    ensures LayerStart(layer) + i < NeuronCount && LayerOf(LayerStart(layer) + i) == layer
  {
  }

  /** The i-th neuron of `layer` as the generator creates it. */
  function PlannedNeuron(width: real, height: real, padding: real, layer: nat, i: nat): Neuron
    requires layer < Layers
  {
    Neuron(NeuronId(layer, i), LayerX(width, padding, layer),
           NeuronY(height, padding, NeuronsPerLayer[layer], i), layer, 0.0)
  }

  /** The neurons of one layer, in the order they are created. */
  function LayerNeurons(width: real, height: real, padding: real, layer: nat): (ns: seq<Neuron>)
    requires layer < Layers
    ensures |ns| == NeuronsPerLayer[layer]
  {
    seq(NeuronsPerLayer[layer], i requires 0 <= i < NeuronsPerLayer[layer] =>
      PlannedNeuron(width, height, padding, layer, i))
  }

  /** The neurons of the layers below `layer`, layer after layer. */
  function NeuronsBefore(width: real, height: real, padding: real, layer: nat): (ns: seq<Neuron>)
    requires layer <= Layers
    ensures |ns| == LayerStart(layer)
  {
    if layer == 0 then []
    else NeuronsBefore(width, height, padding, layer - 1) + LayerNeurons(width, height, padding, layer - 1)
  }

  /** The neuron array generateNetwork returns. */
  function NetworkNeurons(width: real, height: real, padding: real): (ns: seq<Neuron>)
    ensures |ns| == NeuronCount
  {
    NeuronsBefore(width, height, padding, Layers)
  }

  /** The layer the connection at array position k leaves. */
  function ConnectionLayerOf(k: nat): (layer: nat)
    requires k < ConnectionCount
    ensures layer < Layers - 1 && ConnectionStart(layer) <= k < ConnectionStart(layer + 1)
  {
    if k < ConnectionStart(1) then 0 else if k < ConnectionStart(2) then 1 else 2
  }

  /** Array position of the connection from the i-th neuron of `layer` to the
      j-th of `layer + 1`: by layer, then by source, then by target. */
  function LinkIndex(layer: nat, i: nat, j: nat): nat
    requires layer < Layers - 1
  {
    ConnectionStart(layer) + RowMajor(layer, i, j)
  }

  /** Position of the connection from source i to target j within the block of `layer`. */
  function RowMajor(layer: nat, i: nat, j: nat): nat
    requires layer < Layers - 1
  {
    i * NeuronsPerLayer[layer + 1] + j
  }

  /** The index, within its layer, of the source of the connection at array
      position k (rows of 6, 6 and 4 connections in the three blocks, which
      start at 0, 24 and 60). */
  function SourceIndexOf(k: nat): (i: nat)
    requires k < ConnectionCount
    ensures i < NeuronsPerLayer[ConnectionLayerOf(k)]
  {
    if k < 24 then k / 6 else if k < 60 then (k - 24) / 6 else (k - 60) / 4
  }

  /** The index, within its layer, of the target of the connection at array position k. */
  function TargetIndexOf(k: nat): (j: nat)
    requires k < ConnectionCount
    ensures j < NeuronsPerLayer[ConnectionLayerOf(k) + 1]
    ensures k == LinkIndex(ConnectionLayerOf(k), SourceIndexOf(k), j)
  {
    assert ConnectionStart(1) == 24 && ConnectionStart(2) == 60;
    if k < 24 then
      assert k == k / 6 * 6 + k % 6; k % 6
    else if k < 60 then
      assert k - 24 == (k - 24) / 6 * 6 + (k - 24) % 6; (k - 24) % 6
    else
      assert k - 60 == (k - 60) / 4 * 4 + (k - 60) % 4; (k - 60) % 4
  }

  /** The connection from the i-th neuron of `layer` to the j-th of `layer + 1`,
      pushed as the k-th connection. */
  function PlannedConnection(random: seq<real>, layer: nat, i: nat, j: nat, k: nat): Connection
    requires k < |random|
  {
    var s, t := NeuronId(layer, i), NeuronId(layer + 1, j);
    Connection(ConnectionId(s, t), s, t, random[k])
  }

  /** The connection from source i of `layer` to target j is pushed inside that layer's block. */
  lemma RowPosition(layer: nat, i: nat, j: nat)
    requires layer < Layers - 1 && i < NeuronsPerLayer[layer] && j < NeuronsPerLayer[layer + 1]
    ensures ConnectionStart(layer) + i * NeuronsPerLayer[layer + 1] + j < ConnectionStart(layer + 1)
    ensures ConnectionStart(layer + 1) <= ConnectionCount
  {
    if layer == 0 {
    } else if layer == 1 {
    } else {
    }
  }

  /** The connections from the i-th neuron of `layer` to every neuron of `layer + 1`. */
  function ConnectionRow(random: seq<real>, layer: nat, i: nat): (cs: seq<Connection>)
    requires layer < Layers - 1 && i < NeuronsPerLayer[layer] && |random| >= ConnectionCount
    ensures |cs| == NeuronsPerLayer[layer + 1]
  {
    var n := NeuronsPerLayer[layer + 1];
    seq(n, j requires 0 <= j < n =>
      RowPosition(layer, i, j);
      PlannedConnection(random, layer, i, j, ConnectionStart(layer) + i * n + j))
  }

  /** The connections leaving the first i neurons of `layer`, source by source. */
  function LayerRows(random: seq<real>, layer: nat, i: nat): (cs: seq<Connection>)
    requires layer < Layers - 1 && i <= NeuronsPerLayer[layer] && |random| >= ConnectionCount
    ensures |cs| == i * NeuronsPerLayer[layer + 1]
  {
    if i == 0 then [] else LayerRows(random, layer, i - 1) + ConnectionRow(random, layer, i - 1)
  }

  /** The connections leaving the layers below `layer`, layer after layer. */
  function ConnectionsBefore(random: seq<real>, layer: nat): (cs: seq<Connection>)
    requires layer < Layers && |random| >= ConnectionCount
    ensures |cs| == ConnectionStart(layer)
  {
    if layer == 0 then []
    else ConnectionsBefore(random, layer - 1) + LayerRows(random, layer - 1, NeuronsPerLayer[layer - 1])
  }

  /** The connection array generateNetwork returns: by layer, then source, then target. */
  function NetworkConnections(random: seq<real>): (cs: seq<Connection>)
    requires |random| >= ConnectionCount
    ensures |cs| == ConnectionCount
  {
    ConnectionsBefore(random, Layers - 1)
  }

  /** `neurons.filter(n => n.layer === layer)` */
  function InLayer(ns: seq<Neuron>, layer: int): (r: seq<Neuron>)
    ensures |r| <= |ns|
    ensures forall k :: 0 <= k < |r| ==> r[k].layer == layer
  {
    if ns == [] then [] else (if ns[0].layer == layer then [ns[0]] else []) + InLayer(ns[1..], layer)
  }

  /** The filter keeps a neuron exactly when it is in the array and in `layer`;
      InLayerConcat below says the kept neurons stay in array order. */
  lemma {:induction false} InLayerMembers(ns: seq<Neuron>, layer: int)
    ensures forall n :: n in InLayer(ns, layer) <==> n in ns && n.layer == layer
  {
    if ns != [] {
      assert ns == [ns[0]] + ns[1..];
      InLayerMembers(ns[1..], layer);
    }
  }

  lemma {:induction false} InLayerConcat(a: seq<Neuron>, b: seq<Neuron>, layer: int)
    ensures InLayer(a + b, layer) == InLayer(a, layer) + InLayer(b, layer)
  {
    if a == [] {
      assert a + b == b;
    } else {
      assert (a + b)[1..] == a[1..] + b;
      InLayerConcat(a[1..], b, layer);
    }
  }

  lemma {:induction false} InLayerAll(s: seq<Neuron>, layer: int)
    requires forall k :: 0 <= k < |s| ==> s[k].layer == layer
    ensures InLayer(s, layer) == s
  {
    if s != [] {
      InLayerAll(s[1..], layer);
    }
  }

  lemma {:induction false} InLayerNone(s: seq<Neuron>, layer: int)
    requires forall k :: 0 <= k < |s| ==> s[k].layer != layer
    ensures InLayer(s, layer) == []
  {
    if s != [] {
      InLayerNone(s[1..], layer);
    }
  }

  /** Filtering the generated neurons by layer gives exactly that layer's neurons, in order. */
  lemma {:induction false} GeneratedLayer(width: real, height: real, padding: real, upTo: nat, layer: nat)
    requires layer < Layers && upTo <= Layers
    ensures InLayer(NeuronsBefore(width, height, padding, upTo), layer) ==
      if layer < upTo then LayerNeurons(width, height, padding, layer) else []
  {
    if upTo > 0 {
      var m := upTo - 1;
      var part := LayerNeurons(width, height, padding, m);
      var before := NeuronsBefore(width, height, padding, m);
      GeneratedLayer(width, height, padding, m, layer);
      assert NeuronsBefore(width, height, padding, upTo) == before + part;
      if m == layer {
        InLayerAll(part, layer);
        InLayerStep(NeuronsBefore(width, height, padding, upTo), before, part, layer, [], part);
      } else {
        InLayerNone(part, layer);
        InLayerStep(NeuronsBefore(width, height, padding, upTo), before, part, layer, InLayer(before, layer), []);
      }
    }
  }

  /** Filtering `before` followed by `part` gives the two filtered parts, one after the other. */
  lemma InLayerStep(all: seq<Neuron>, before: seq<Neuron>, part: seq<Neuron>, layer: int, fb: seq<Neuron>, fp: seq<Neuron>)
    requires all == before + part && InLayer(before, layer) == fb && InLayer(part, layer) == fp
    ensures InLayer(all, layer) == fb + fp
  {
    InLayerConcat(before, part, layer);
  }

  /** The j-th connection of row i of `layer`. */
  lemma RowEntry(random: seq<real>, layer: nat, i: nat, j: nat)
    requires layer < Layers - 1 && i < NeuronsPerLayer[layer] && j < NeuronsPerLayer[layer + 1]
    requires |random| >= ConnectionCount
    ensures var k := ConnectionStart(layer) + i * NeuronsPerLayer[layer + 1] + j;
      k < ConnectionCount &&
      ConnectionRow(random, layer, i)[j] ==
        Connection(ConnectionId(NeuronId(layer, i), NeuronId(layer + 1, j)),
                   NeuronId(layer, i), NeuronId(layer + 1, j), random[k])
  {
    RowPosition(layer, i, j);
    var n := NeuronsPerLayer[layer + 1];
    assert ConnectionRow(random, layer, i)[j] == PlannedConnection(random, layer, i, j, ConnectionStart(layer) + i * n + j);
  }

  lemma PrefixStep<T>(s: seq<T>, j: nat)
    requires j < |s|
    ensures s[..j + 1] == s[..j] + [s[j]]
  {
  }

  /** generateNetwork(width, height, padding) with the random source `random`. */
  method GenerateNetwork(width: real, height: real, padding: real, random: seq<real>)
    returns (neurons: seq<Neuron>, connections: seq<Connection>)
    requires |random| >= ConnectionCount
    ensures neurons == NetworkNeurons(width, height, padding)
    ensures connections == NetworkConnections(random)
  {
    neurons := GenerateNeurons(width, height, padding);
    connections := GenerateConnections(width, height, padding, neurons, random);
  }

  /** The neuron loop of generateNetwork (lines 14-32). */
  method GenerateNeurons(width: real, height: real, padding: real) returns (neurons: seq<Neuron>)
    ensures neurons == NetworkNeurons(width, height, padding)
  {
    neurons := [];
    for layer := 0 to Layers
      invariant neurons == NeuronsBefore(width, height, padding, layer)
    {
      var count := NeuronsPerLayer[layer];
      var layerWidth := width - padding * 2.0;
      var layerHeight := height - padding * 2.0;
      var startX := padding + (layerWidth / (Layers - 1) as real) * layer as real;
      ghost var planned := LayerNeurons(width, height, padding, layer);
      for i := 0 to count
        invariant neurons == NeuronsBefore(width, height, padding, layer) + planned[..i]
      {
        var spacing := layerHeight / (count + 1) as real;
        var y := padding + spacing * (i + 1) as real;
        assert startX == LayerX(width, padding, layer) && y == NeuronY(height, padding, count, i);
        assert planned[i] == Neuron(NeuronId(layer, i), startX, y, layer, 0.0);
        PrefixStep(planned, i);
        neurons := neurons + [Neuron(NeuronId(layer, i), startX, y, layer, 0.0)];
      }
      assert planned[..count] == planned;
    }
  }

  /** The connection loop of generateNetwork (lines 35-49), over the neurons
      the neuron loop produced for the same canvas. */
  method GenerateConnections(ghost width: real, ghost height: real, ghost padding: real,
                             neurons: seq<Neuron>, random: seq<real>)
    returns (connections: seq<Connection>)
    requires neurons == NetworkNeurons(width, height, padding)
    requires |random| >= ConnectionCount
    ensures connections == NetworkConnections(random)
  {
    connections := [];
    for layer := 0 to Layers - 1
      invariant connections == ConnectionsBefore(random, layer)
    {
      var sourceNeurons := InLayer(neurons, layer);
      var targetNeurons := InLayer(neurons, layer + 1);
      GeneratedLayer(width, height, padding, Layers, layer);
      GeneratedLayer(width, height, padding, Layers, layer + 1);
      connections := ConnectLayer(width, height, padding, layer, sourceNeurons, targetNeurons, random, connections);
    }
  }

  /** `sourceNeurons.forEach(...)` (lines 39-48): every neuron of `layer`, in
      order, pushes its row of connections to the neurons of `layer + 1`. */
  method ConnectLayer(ghost width: real, ghost height: real, ghost padding: real, ghost layer: nat,
                      sourceNeurons: seq<Neuron>, targetNeurons: seq<Neuron>,
                      random: seq<real>, connections: seq<Connection>)
    returns (pushed: seq<Connection>)
    requires layer < Layers - 1 && |random| >= ConnectionCount
    requires sourceNeurons == LayerNeurons(width, height, padding, layer)
    requires targetNeurons == LayerNeurons(width, height, padding, layer + 1)
    requires connections == ConnectionsBefore(random, layer)
    ensures pushed == ConnectionsBefore(random, layer + 1)
  {
    pushed := connections;
    for i := 0 to |sourceNeurons|
      invariant pushed == ConnectionsBefore(random, layer) + LayerRows(random, layer, i)
    {
      assert sourceNeurons[i].id == NeuronId(layer, i);
      pushed := ConnectSource(width, height, padding, layer, i, sourceNeurons[i], targetNeurons, random, pushed);
    }
    ConnectionsNextLayer(random, layer, pushed);
  }

  /** All rows of `layer` after the layers below it are the connections below `layer + 1`. */
  lemma ConnectionsNextLayer(random: seq<real>, layer: nat, cs: seq<Connection>)
    requires layer < Layers - 1 && |random| >= ConnectionCount
    requires cs == ConnectionsBefore(random, layer) + LayerRows(random, layer, NeuronsPerLayer[layer])
    ensures cs == ConnectionsBefore(random, layer + 1)
  {
  }

  /** The callback `source => targetNeurons.forEach(...)` (lines 39-48): push one
      connection from `source`, the i-th neuron of `layer`, to every target. */
  method ConnectSource(ghost width: real, ghost height: real, ghost padding: real,
                       ghost layer: nat, ghost i: nat, source: Neuron, targetNeurons: seq<Neuron>,
                       random: seq<real>, connections: seq<Connection>)
    returns (pushed: seq<Connection>)
    requires layer < Layers - 1 && i < NeuronsPerLayer[layer] && |random| >= ConnectionCount
    requires source.id == NeuronId(layer, i)
    requires targetNeurons == LayerNeurons(width, height, padding, layer + 1)
    requires connections == ConnectionsBefore(random, layer) + LayerRows(random, layer, i)
    ensures pushed == ConnectionsBefore(random, layer) + LayerRows(random, layer, i + 1)
  {
    ghost var row := ConnectionRow(random, layer, i);
    pushed := connections;
    for j := 0 to |targetNeurons|
      invariant pushed == connections + row[..j]
    {
      var target := targetNeurons[j];
      RowEntry(random, layer, i, j);
      assert |pushed| == ConnectionStart(layer) + i * |targetNeurons| + j;
      var next := Connection(ConnectionId(source.id, target.id), source.id, target.id, random[|pushed|]);
      PrefixStep(row, j);
      pushed := pushed + [next];
    }
    assert row[..|targetNeurons|] == row;
  }
}
