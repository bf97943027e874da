/** What generateNetwork guarantees about the network it builds: counts,
    order, identifiers, layout, the complete bipartite join between adjacent
    layers, the degrees of every neuron and the weights. */
module GeneratorProperties {
  import opened Text
  import opened NetworkTypes
  import opened NetworkGenerator

  // ---------------------------------------------------------------- neurons

  lemma {:induction false} NeuronsBeforeAt(width: real, height: real, padding: real, upTo: nat, layer: nat, i: nat)
    requires layer < upTo <= Layers && i < NeuronsPerLayer[layer]
    ensures LayerStart(layer) + i < LayerStart(upTo)
    ensures NeuronsBefore(width, height, padding, upTo)[LayerStart(layer) + i] ==
      PlannedNeuron(width, height, padding, layer, i)
  {
    var m := upTo - 1;
    if layer < m {
      NeuronsBeforeAt(width, height, padding, m, layer, i);
    }
  }

  /** The neuron array holds 20 neurons, layer after layer and, inside a layer,
      by index: the i-th neuron of `layer` is `neuron-<layer>-<i>` with the
      layer's layout and value 0. */
  lemma NeuronAt(width: real, height: real, padding: real, layer: nat, i: nat)
    requires layer < Layers && i < NeuronsPerLayer[layer]
    ensures |NetworkNeurons(width, height, padding)| == 20
    ensures LayerStart(layer) + i < NeuronCount
    ensures NetworkNeurons(width, height, padding)[LayerStart(layer) + i] ==
      Neuron(NeuronId(layer, i), LayerX(width, padding, layer),
             NeuronY(height, padding, NeuronsPerLayer[layer], i), layer, 0.0)
  {
    NeuronsBeforeAt(width, height, padding, Layers, layer, i);
  }

  /** The neuron at an arbitrary array position k. */
  lemma NeuronAtIndex(width: real, height: real, padding: real, k: nat)
    requires k < NeuronCount
    ensures var layer := LayerOf(k);
      k - LayerStart(layer) < NeuronsPerLayer[layer] &&
      NetworkNeurons(width, height, padding)[k] ==
        PlannedNeuron(width, height, padding, layer, k - LayerStart(layer))
  {
    var layer := LayerOf(k);
    NeuronsBeforeAt(width, height, padding, Layers, layer, k - LayerStart(layer));
  }

  /** The identifier, layer and value of the i-th neuron of `layer`, without its layout. */
  lemma NeuronShape(width: real, height: real, padding: real, layer: nat, i: nat)
    requires layer < Layers && i < NeuronsPerLayer[layer]
    ensures LayerStart(layer) + i < NeuronCount
    ensures var n := NetworkNeurons(width, height, padding)[LayerStart(layer) + i];
      n.id == NeuronId(layer, i) && n.layer == layer && n.value == 0.0
  {
    NeuronAt(width, height, padding, layer, i);
  }

  /** The identifier, layer and value of the neuron at array position k. */
  lemma NeuronShapeAtIndex(width: real, height: real, padding: real, k: nat)
    requires k < NeuronCount
    ensures var layer := LayerOf(k);
      var n := NetworkNeurons(width, height, padding)[k];
      k - LayerStart(layer) < NeuronsPerLayer[layer] &&
      n.id == NeuronId(layer, k - LayerStart(layer)) && n.layer == layer && n.value == 0.0
  {
    NeuronAtIndex(width, height, padding, k);
  }

  /** No two generated neurons share an identifier. */
  lemma NeuronIdsDistinct(width: real, height: real, padding: real)
    ensures var ns := NetworkNeurons(width, height, padding);
      forall k1, k2 :: 0 <= k1 < k2 < |ns| ==> ns[k1].id != ns[k2].id
  {
    var ns := NetworkNeurons(width, height, padding);
    forall k1, k2 | 0 <= k1 < k2 < |ns| ensures ns[k1].id != ns[k2].id {
      NeuronShapeAtIndex(width, height, padding, k1);
      NeuronShapeAtIndex(width, height, padding, k2);
      var l1, l2 := LayerOf(k1), LayerOf(k2);
      if ns[k1].id == ns[k2].id {
        NeuronIdInjective(l1, k1 - LayerStart(l1), l2, k2 - LayerStart(l2));
      }
    }
  }

  /** The array is ordered by layer. */
  lemma NeuronsOrderedByLayer(width: real, height: real, padding: real)
    ensures var ns := NetworkNeurons(width, height, padding);
      forall k1, k2 :: 0 <= k1 <= k2 < |ns| ==> ns[k1].layer <= ns[k2].layer
  {
    var ns := NetworkNeurons(width, height, padding);
    forall k1, k2 | 0 <= k1 <= k2 < |ns| ensures ns[k1].layer <= ns[k2].layer {
      NeuronShapeAtIndex(width, height, padding, k1);
      NeuronShapeAtIndex(width, height, padding, k2);
    }
  }

  /** Every neuron starts with value 0, and every neuron of a layer shares
      that layer's x: `padding` for the input layer, `width - padding` for the
      output layer. */
  lemma NeuronsStartAtZero(width: real, height: real, padding: real)
    ensures var ns := NetworkNeurons(width, height, padding);
      forall k :: 0 <= k < |ns| ==>
        ns[k].value == 0.0 && 0 <= ns[k].layer < Layers && ns[k].x == LayerX(width, padding, ns[k].layer) &&
        (ns[k].layer == 0 ==> ns[k].x == padding) &&
        (ns[k].layer == Layers - 1 ==> ns[k].x == width - padding)
  {
    var ns := NetworkNeurons(width, height, padding);
    forall k | 0 <= k < |ns|
      ensures ns[k].value == 0.0 && 0 <= ns[k].layer < Layers && ns[k].x == LayerX(width, padding, ns[k].layer)
    {
      NeuronAtIndex(width, height, padding, k);
    }
  }

  /** With a positive usable height, y grows strictly with the index within a layer. */
  lemma NeuronYIncreasing(height: real, padding: real, count: nat, i: nat, j: nat)
    requires height > padding * 2.0 && i < j
    ensures NeuronY(height, padding, count, i) < NeuronY(height, padding, count, j)
  {
    var spacing := (height - padding * 2.0) / (count + 1) as real;
    assert spacing > 0.0;
    assert spacing * (j + 1) as real - spacing * (i + 1) as real == spacing * (j - i) as real;
  }

  /** With a positive usable height, every y of a layer lies strictly inside the padding. */
  lemma NeuronYInside(height: real, padding: real, count: nat, i: nat)
    requires height > padding * 2.0 && i < count
    ensures padding < NeuronY(height, padding, count, i) < height - padding
  {
    var usable := height - padding * 2.0;
    var spacing := usable / (count + 1) as real;
    assert spacing > 0.0;
    assert spacing * (count + 1) as real == usable;
    assert spacing * (count + 1) as real - spacing * (i + 1) as real == spacing * (count - i) as real;
  }

  /** The layout of the generated array: within a layer y grows with position,
      and every y lies strictly between `padding` and `height - padding`. */
  lemma GeneratedLayout(width: real, height: real, padding: real)
    requires height > padding * 2.0
    ensures var ns := NetworkNeurons(width, height, padding);
      (forall k1, k2 :: 0 <= k1 < k2 < |ns| && ns[k1].layer == ns[k2].layer ==> ns[k1].y < ns[k2].y) &&
      (forall k :: 0 <= k < |ns| ==> padding < ns[k].y < height - padding)
  {
    var ns := NetworkNeurons(width, height, padding);
    forall k1, k2 | 0 <= k1 < k2 < |ns| && ns[k1].layer == ns[k2].layer ensures ns[k1].y < ns[k2].y {
      NeuronAtIndex(width, height, padding, k1);
      NeuronAtIndex(width, height, padding, k2);
      var layer := LayerOf(k1);
      NeuronYIncreasing(height, padding, NeuronsPerLayer[layer], k1 - LayerStart(layer), k2 - LayerStart(layer));
    }
    forall k | 0 <= k < |ns| ensures padding < ns[k].y < height - padding {
      NeuronAtIndex(width, height, padding, k);
      var layer := LayerOf(k);
      NeuronYInside(height, padding, NeuronsPerLayer[layer], k - LayerStart(layer));
    }
  }

  // ------------------------------------------------------------ connections

  lemma {:induction false} LayerRowsAt(random: seq<real>, layer: nat, rows: nat, i: nat, j: nat)
    requires layer < Layers - 1 && i < rows <= NeuronsPerLayer[layer] && j < NeuronsPerLayer[layer + 1]
    requires |random| >= ConnectionCount
    ensures i * NeuronsPerLayer[layer + 1] + j < rows * NeuronsPerLayer[layer + 1]
    ensures LayerRows(random, layer, rows)[i * NeuronsPerLayer[layer + 1] + j] == ConnectionRow(random, layer, i)[j]
  {
    var n := NeuronsPerLayer[layer + 1];
    var m := rows - 1;
    assert |LayerRows(random, layer, m)| == m * n;
    if i < m {
      LayerRowsAt(random, layer, m, i, j);
      assert i * n + j < m * n;
    } else {
      assert i * n + j == m * n + j;
    }
  }

  lemma {:induction false} ConnectionsBeforeAt(random: seq<real>, upTo: nat, layer: nat, p: nat)
    requires layer < upTo < Layers && |random| >= ConnectionCount
    requires p < NeuronsPerLayer[layer] * NeuronsPerLayer[layer + 1]
    ensures ConnectionStart(layer) + p < ConnectionStart(upTo)
    ensures ConnectionsBefore(random, upTo)[ConnectionStart(layer) + p] ==
      LayerRows(random, layer, NeuronsPerLayer[layer])[p]
  {
    var m := upTo - 1;
    if layer < m {
      ConnectionsBeforeAt(random, m, layer, p);
    }
  }

  /** The connection array holds 84 connections: by layer, then by source
      index, then by target index; the connection from the i-th neuron of
      `layer` to the j-th of `layer + 1` takes the random value of its own
      position. */
  lemma ConnectionAt(random: seq<real>, layer: nat, i: nat, j: nat)
    requires layer < Layers - 1 && i < NeuronsPerLayer[layer] && j < NeuronsPerLayer[layer + 1]
    requires |random| >= ConnectionCount
    ensures |NetworkConnections(random)| == 84
    ensures LinkIndex(layer, i, j) == ConnectionStart(layer) + i * NeuronsPerLayer[layer + 1] + j
    ensures var k := ConnectionStart(layer) + i * NeuronsPerLayer[layer + 1] + j;
      k < ConnectionCount &&
      NetworkConnections(random)[k] ==
        Connection(ConnectionId(NeuronId(layer, i), NeuronId(layer + 1, j)),
                   NeuronId(layer, i), NeuronId(layer + 1, j), random[k])
  {
    var n := NeuronsPerLayer[layer + 1];
    LayerRowsAt(random, layer, NeuronsPerLayer[layer], i, j);
    RowPosition(layer, i, j);
    ConnectionsBeforeAt(random, Layers - 1, layer, i * n + j);
    RowEntry(random, layer, i, j);
  }

  /** Position k within row r of `layer` holds the connection from the r-th
      neuron of `layer` to the (k - b)-th of `layer + 1`, b being where the row starts. */
  lemma ConnectionInRow(random: seq<real>, layer: nat, r: nat, k: nat)
    requires layer < Layers - 1 && r < NeuronsPerLayer[layer] && |random| >= ConnectionCount
    requires var b := ConnectionStart(layer) + r * NeuronsPerLayer[layer + 1];
      b <= k < b + NeuronsPerLayer[layer + 1]
    ensures var j := k - (ConnectionStart(layer) + r * NeuronsPerLayer[layer + 1]);
      k < |NetworkConnections(random)| &&
      NetworkConnections(random)[k] ==
        Connection(ConnectionId(NeuronId(layer, r), NeuronId(layer + 1, j)),
                   NeuronId(layer, r), NeuronId(layer + 1, j), random[k])
  {
    var j := k - (ConnectionStart(layer) + r * NeuronsPerLayer[layer + 1]);
    ConnectionAt(random, layer, r, j);
    assert ConnectionStart(layer) + r * NeuronsPerLayer[layer + 1] + j == k;
  }

  /** Position k of the connection array decomposes into (layer, source index, target index). */
  lemma ConnectionAtIndex(random: seq<real>, k: nat)
    requires k < ConnectionCount && |random| >= ConnectionCount
    ensures var layer, i, j := ConnectionLayerOf(k), SourceIndexOf(k), TargetIndexOf(k);
      NetworkConnections(random)[k] ==
        Connection(ConnectionId(NeuronId(layer, i), NeuronId(layer + 1, j)),
                   NeuronId(layer, i), NeuronId(layer + 1, j), random[k])
  {
    ConnectionAt(random, ConnectionLayerOf(k), SourceIndexOf(k), TargetIndexOf(k));
  }

  /** The k-th connection takes the k-th random value, so with a source in
      [0, 1) every weight is in [0, 1). */
  lemma ConnectionWeights(random: seq<real>)
    requires |random| >= ConnectionCount
    requires forall k :: 0 <= k < |random| ==> 0.0 <= random[k] < 1.0
    ensures var cs := NetworkConnections(random);
      forall k :: 0 <= k < |cs| ==> cs[k].weight == random[k] && 0.0 <= cs[k].weight < 1.0
  {
    var cs := NetworkConnections(random);
    forall k | 0 <= k < |cs| ensures cs[k].weight == random[k] {
      ConnectionAtIndex(random, k);
    }
  }

  /** Every connection runs from a generated neuron of some layer to a
      generated neuron of the next layer (no self-loops, skip or backward
      edges), and its id is `connection-<sourceId>-<targetId>`. */
  lemma ConnectionsJoinAdjacentLayers(width: real, height: real, padding: real, random: seq<real>)
    requires |random| >= ConnectionCount
    ensures var ns, cs := NetworkNeurons(width, height, padding), NetworkConnections(random);
      forall k :: 0 <= k < |cs| ==>
        cs[k].id == ConnectionId(cs[k].sourceId, cs[k].targetId) &&
        exists s, t :: (0 <= s < |ns| && 0 <= t < |ns| &&
          ns[s].id == cs[k].sourceId && ns[t].id == cs[k].targetId && ns[t].layer == ns[s].layer + 1)
  {
    var ns, cs := NetworkNeurons(width, height, padding), NetworkConnections(random);
    forall k | 0 <= k < |cs|
      ensures cs[k].id == ConnectionId(cs[k].sourceId, cs[k].targetId)
      ensures exists s, t :: (0 <= s < |ns| && 0 <= t < |ns| &&
          ns[s].id == cs[k].sourceId && ns[t].id == cs[k].targetId && ns[t].layer == ns[s].layer + 1)
    {
      ConnectionAtIndex(random, k);
      var layer, i, j := ConnectionLayerOf(k), SourceIndexOf(k), TargetIndexOf(k);
      NeuronShape(width, height, padding, layer, i);
      NeuronShape(width, height, padding, layer + 1, j);
      var s, t := LayerStart(layer) + i, LayerStart(layer + 1) + j;
      assert ns[s].id == cs[k].sourceId && ns[t].id == cs[k].targetId && ns[t].layer == ns[s].layer + 1;
    }
  }

  /** No two connections join the same (source, target) pair, and no two share an id. */
  lemma ConnectionsDistinct(random: seq<real>)
    requires |random| >= ConnectionCount
    ensures var cs := NetworkConnections(random);
      forall k1, k2 :: 0 <= k1 < k2 < |cs| ==>
        (cs[k1].sourceId, cs[k1].targetId) != (cs[k2].sourceId, cs[k2].targetId) && cs[k1].id != cs[k2].id
  {
    var cs := NetworkConnections(random);
    forall k1, k2 | 0 <= k1 < k2 < |cs|
      ensures (cs[k1].sourceId, cs[k1].targetId) != (cs[k2].sourceId, cs[k2].targetId)
      ensures cs[k1].id != cs[k2].id
    {
      ConnectionAtIndex(random, k1);
      ConnectionAtIndex(random, k2);
      var l1, i1, j1 := ConnectionLayerOf(k1), SourceIndexOf(k1), TargetIndexOf(k1);
      var l2, i2, j2 := ConnectionLayerOf(k2), SourceIndexOf(k2), TargetIndexOf(k2);
      if cs[k1].id == cs[k2].id {
        ConnectionIdInjective(l1, i1, l1 + 1, j1, l2, i2, l2 + 1, j2);
      }
    }
  }

  /** Every generated neuron of a layer is joined to every generated neuron
      of the next layer. */
  lemma ConnectionsComplete(width: real, height: real, padding: real, random: seq<real>, s: nat, t: nat)
    requires |random| >= ConnectionCount
    requires s < NeuronCount && t < NeuronCount
    requires NetworkNeurons(width, height, padding)[t].layer == NetworkNeurons(width, height, padding)[s].layer + 1
    ensures var ns, cs := NetworkNeurons(width, height, padding), NetworkConnections(random);
      var layer := LayerOf(s);
      layer < Layers - 1 &&
      var k := ConnectionStart(layer) + (s - LayerStart(layer)) * NeuronsPerLayer[layer + 1] + (t - LayerStart(layer + 1));
      0 <= k < |cs| && cs[k].sourceId == ns[s].id && cs[k].targetId == ns[t].id && cs[k].weight == random[k]
  {
    NeuronShapeAtIndex(width, height, padding, s);
    NeuronShapeAtIndex(width, height, padding, t);
    var layer := LayerOf(s);
    ConnectionAt(random, layer, s - LayerStart(layer), t - LayerStart(layer + 1));
  }

  // ---------------------------------------------------------------- degrees

  function Endpoint(c: Connection, incoming: bool): string {
    if incoming then c.targetId else c.sourceId
  }

  /** Among the first n connections, how many end (incoming) or start (outgoing) at `id`. */
  function Degree(cs: seq<Connection>, id: string, incoming: bool, n: nat): nat
    requires n <= |cs|
  {
    if n == 0 then 0 else Degree(cs, id, incoming, n - 1) + (if Endpoint(cs[n - 1], incoming) == id then 1 else 0)
  }

  lemma {:induction false} DegreeFlat(cs: seq<Connection>, id: string, incoming: bool, lo: nat, hi: nat)
    requires lo <= hi <= |cs|
    requires forall k :: lo <= k < hi ==> Endpoint(cs[k], incoming) != id
    ensures Degree(cs, id, incoming, hi) == Degree(cs, id, incoming, lo)
    decreases hi - lo
  {
    if lo < hi {
      DegreeFlat(cs, id, incoming, lo, hi - 1);
    }
  }

  lemma DegreeStep(cs: seq<Connection>, id: string, incoming: bool, n: nat)
    requires n < |cs|
    ensures Degree(cs, id, incoming, n + 1) == Degree(cs, id, incoming, n) + (if Endpoint(cs[n], incoming) == id then 1 else 0)
  {
  }

  /** A range in which exactly the connection at `hit` ends (or starts) at `id` adds one. */
  lemma DegreeSingle(cs: seq<Connection>, id: string, incoming: bool, lo: nat, hit: nat, hi: nat)
    requires lo <= hit < hi <= |cs|
    requires forall k :: lo <= k < hi ==> (Endpoint(cs[k], incoming) == id <==> k == hit)
    ensures Degree(cs, id, incoming, hi) == Degree(cs, id, incoming, lo) + 1
  {
    DegreeFlat(cs, id, incoming, lo, hit);
    DegreeStep(cs, id, incoming, hit);
    DegreeFlat(cs, id, incoming, hit + 1, hi);
  }

  lemma {:induction false} DegreeFull(cs: seq<Connection>, id: string, incoming: bool, lo: nat, hi: nat)
    requires lo <= hi <= |cs|
    requires forall k :: lo <= k < hi ==> Endpoint(cs[k], incoming) == id
    ensures Degree(cs, id, incoming, hi) == Degree(cs, id, incoming, lo) + (hi - lo)
    decreases hi - lo
  {
    if lo < hi {
      DegreeFull(cs, id, incoming, lo, hi - 1);
    }
  }

  /** Connections outside the block of `layer` never touch a neuron whose
      endpoint layer (source layer for outgoing, target layer for incoming)
      differs. */
  lemma OtherLayersFlat(random: seq<real>, id: string, incoming: bool, layer: nat, i: nat, lo: nat, hi: nat)
    requires |random| >= ConnectionCount && lo <= hi <= ConnectionCount && layer < Layers
    requires id == NeuronId(layer, i)
    requires forall k :: lo <= k < hi ==> ConnectionLayerOf(k) + (if incoming then 1 else 0) != layer
    ensures Degree(NetworkConnections(random), id, incoming, hi) == Degree(NetworkConnections(random), id, incoming, lo)
  {
    var cs := NetworkConnections(random);
    forall k | lo <= k < hi ensures Endpoint(cs[k], incoming) != id {
      ConnectionAtIndex(random, k);
      var l, ci, cj := ConnectionLayerOf(k), SourceIndexOf(k), TargetIndexOf(k);
      if Endpoint(cs[k], incoming) == id {
        if incoming { NeuronIdInjective(l + 1, cj, layer, i); } else { NeuronIdInjective(l, ci, layer, i); }
      }
    }
    DegreeFlat(cs, id, incoming, lo, hi);
  }

  lemma ConnectionStartMonotone(l1: nat, l2: nat)
    requires l1 <= l2 < Layers
    ensures ConnectionStart(l1) <= ConnectionStart(l2)
  {
  }

  /** The rows of `layer` up to row `rows` add exactly one connection into its j-th target each. */
  lemma {:induction false} IncomingRows(random: seq<real>, layer: nat, j: nat, rows: nat)
    requires |random| >= ConnectionCount && layer < Layers - 1 && j < NeuronsPerLayer[layer + 1]
    requires rows <= NeuronsPerLayer[layer]
    ensures var n := NeuronsPerLayer[layer + 1];
      ConnectionStart(layer) + rows * n <= ConnectionCount &&
      Degree(NetworkConnections(random), NeuronId(layer + 1, j), true, ConnectionStart(layer) + rows * n) ==
      Degree(NetworkConnections(random), NeuronId(layer + 1, j), true, ConnectionStart(layer)) + rows
  {
    if rows > 0 {
      var n := NeuronsPerLayer[layer + 1];
      IncomingRows(random, layer, j, rows - 1);
      IncomingRow(random, layer, j, rows - 1);
      RowsStep(ConnectionStart(layer), rows, n);
    }
  }

  /** Row r of `layer` adds exactly one connection into the j-th neuron of `layer + 1`. */
  lemma IncomingRow(random: seq<real>, layer: nat, j: nat, r: nat)
    requires |random| >= ConnectionCount && layer < Layers - 1 && j < NeuronsPerLayer[layer + 1]
    requires r < NeuronsPerLayer[layer]
    ensures var n := NeuronsPerLayer[layer + 1];
      var b := ConnectionStart(layer) + r * n;
      b + n <= ConnectionCount &&
      Degree(NetworkConnections(random), NeuronId(layer + 1, j), true, b + n) ==
      Degree(NetworkConnections(random), NeuronId(layer + 1, j), true, b) + 1
  {
    var cs := NetworkConnections(random);
    var n := NeuronsPerLayer[layer + 1];
    var id := NeuronId(layer + 1, j);
    var b := ConnectionStart(layer) + r * n;
    RowPosition(layer, r, n - 1);
    forall k | b <= k < b + n ensures Endpoint(cs[k], true) == id <==> k == b + j {
      IncomingEntry(random, layer, j, r, k);
    }
    DegreeSingle(cs, id, true, b, b + j, b + n);
  }

  /** Within row r of `layer`, only the j-th connection ends at the j-th neuron of `layer + 1`. */
  lemma IncomingEntry(random: seq<real>, layer: nat, j: nat, r: nat, k: nat)
    requires |random| >= ConnectionCount && layer < Layers - 1 && j < NeuronsPerLayer[layer + 1]
    requires r < NeuronsPerLayer[layer]
    requires var b := ConnectionStart(layer) + r * NeuronsPerLayer[layer + 1];
      b <= k < b + NeuronsPerLayer[layer + 1]
    ensures var b := ConnectionStart(layer) + r * NeuronsPerLayer[layer + 1];
      k < |NetworkConnections(random)| &&
      (Endpoint(NetworkConnections(random)[k], true) == NeuronId(layer + 1, j) <==> k == b + j)
  {
    var b := ConnectionStart(layer) + r * NeuronsPerLayer[layer + 1];
    ConnectionInRow(random, layer, r, k);
    if Endpoint(NetworkConnections(random)[k], true) == NeuronId(layer + 1, j) {
      NeuronIdInjective(layer + 1, k - b, layer + 1, j);
    }
  }

  /** Row `rows - 1` ends where the first `rows` rows end. */
  lemma RowsStep(start: nat, rows: nat, n: nat)
    requires rows > 0
    ensures start + (rows - 1) * n + n == start + rows * n
  {
  }

  /** Row r of `layer` starts n_(layer+1) connections at its i-th neuron if r == i, and none otherwise. */
  lemma OutgoingRow(random: seq<real>, layer: nat, i: nat, r: nat)
    requires |random| >= ConnectionCount && layer < Layers - 1
    requires i < NeuronsPerLayer[layer] && r < NeuronsPerLayer[layer]
    ensures var n := NeuronsPerLayer[layer + 1];
      var b := ConnectionStart(layer) + r * n;
      b + n <= ConnectionCount &&
      Degree(NetworkConnections(random), NeuronId(layer, i), false, b + n) ==
      Degree(NetworkConnections(random), NeuronId(layer, i), false, b) + (if r == i then n else 0)
  {
    if r == i {
      OutgoingOwnRow(random, layer, i);
    } else {
      OutgoingOtherRow(random, layer, i, r);
    }
  }

  /** Every connection of source i's own row leaves source i. */
  lemma OutgoingOwnRow(random: seq<real>, layer: nat, i: nat)
    requires |random| >= ConnectionCount && layer < Layers - 1 && i < NeuronsPerLayer[layer]
    ensures var n := NeuronsPerLayer[layer + 1];
      var b := ConnectionStart(layer) + i * n;
      b + n <= ConnectionCount &&
      Degree(NetworkConnections(random), NeuronId(layer, i), false, b + n) ==
      Degree(NetworkConnections(random), NeuronId(layer, i), false, b) + n
  {
    var cs := NetworkConnections(random);
    var n := NeuronsPerLayer[layer + 1];
    var id := NeuronId(layer, i);
    var b := ConnectionStart(layer) + i * n;
    RowPosition(layer, i, n - 1);
    forall k | b <= k < b + n ensures Endpoint(cs[k], false) == id {
      ConnectionInRow(random, layer, i, k);
    }
    DegreeFull(cs, id, false, b, b + n);
  }

  /** No connection of another source's row leaves source i. */
  lemma OutgoingOtherRow(random: seq<real>, layer: nat, i: nat, r: nat)
    requires |random| >= ConnectionCount && layer < Layers - 1
    requires i < NeuronsPerLayer[layer] && r < NeuronsPerLayer[layer] && r != i
    ensures var n := NeuronsPerLayer[layer + 1];
      var b := ConnectionStart(layer) + r * n;
      b + n <= ConnectionCount &&
      Degree(NetworkConnections(random), NeuronId(layer, i), false, b + n) ==
      Degree(NetworkConnections(random), NeuronId(layer, i), false, b)
  {
    var cs := NetworkConnections(random);
    var n := NeuronsPerLayer[layer + 1];
    var id := NeuronId(layer, i);
    var b := ConnectionStart(layer) + r * n;
    RowPosition(layer, r, n - 1);
    forall k | b <= k < b + n ensures Endpoint(cs[k], false) != id {
      ConnectionInRow(random, layer, r, k);
      if Endpoint(cs[k], false) == id { NeuronIdInjective(layer, r, layer, i); }
    }
    DegreeFlat(cs, id, false, b, b + n);
  }

  /** The first `rows` rows of `layer`, which end at position e, start n connections at its i-th neuron when i < rows and none otherwise. */
  lemma {:induction false} OutgoingRows(random: seq<real>, layer: nat, i: nat, rows: nat, e: nat)
    requires |random| >= ConnectionCount && layer < Layers - 1 && i < NeuronsPerLayer[layer]
    requires rows <= NeuronsPerLayer[layer] && e == ConnectionStart(layer) + rows * NeuronsPerLayer[layer + 1]
    ensures e <= ConnectionCount &&
      Degree(NetworkConnections(random), NeuronId(layer, i), false, e) ==
      Degree(NetworkConnections(random), NeuronId(layer, i), false, ConnectionStart(layer)) + (if i < rows then NeuronsPerLayer[layer + 1] else 0)
  {
    if rows == 0 {
      assert e == ConnectionStart(layer);
    } else {
      var n := NeuronsPerLayer[layer + 1];
      RowsBack(ConnectionStart(layer), rows, n, e);
      OutgoingRows(random, layer, i, rows - 1, e - n);
      OutgoingRow(random, layer, i, rows - 1);
    }
  }

  /** The row before the one ending at e ends n positions earlier. */
  lemma RowsBack(start: nat, rows: nat, n: nat, e: nat)
    requires rows > 0 && e == start + rows * n
    ensures n <= e && e - n == start + (rows - 1) * n
  {
  }

  /** Each neuron of layer L > 0 has exactly n_(L-1) incoming connections; input neurons have none. */
  lemma InDegree(random: seq<real>, layer: nat, j: nat)
    requires |random| >= ConnectionCount && layer < Layers && j < NeuronsPerLayer[layer]
    ensures var cs := NetworkConnections(random);
      Degree(cs, NeuronId(layer, j), true, |cs|) == if layer == 0 then 0 else NeuronsPerLayer[layer - 1]
  {
    var id := NeuronId(layer, j);
    if layer == 0 {
      OtherLayersFlat(random, id, true, layer, j, 0, ConnectionCount);
    } else {
      var l := layer - 1;
      var n := NeuronsPerLayer[layer];
      forall k | 0 <= k < ConnectionStart(l) ensures ConnectionLayerOf(k) + 1 != layer {
        if ConnectionLayerOf(k) >= l { ConnectionStartMonotone(l, ConnectionLayerOf(k)); }
      }
      OtherLayersFlat(random, id, true, layer, j, 0, ConnectionStart(l));
      IncomingRows(random, l, j, NeuronsPerLayer[l]);
      assert ConnectionStart(l) + NeuronsPerLayer[l] * n == ConnectionStart(layer) by {
        if l == 0 {} else if l == 1 {} else {}
      }
      forall k | ConnectionStart(layer) <= k < ConnectionCount ensures ConnectionLayerOf(k) + 1 != layer {
      }
      OtherLayersFlat(random, id, true, layer, j, ConnectionStart(layer), ConnectionCount);
    }
  }

  /** Each neuron of layer L < 3 has exactly n_(L+1) outgoing connections; output neurons have none. */
  lemma OutDegree(random: seq<real>, layer: nat, i: nat)
    requires |random| >= ConnectionCount && layer < Layers && i < NeuronsPerLayer[layer]
    ensures var cs := NetworkConnections(random);
      Degree(cs, NeuronId(layer, i), false, |cs|) == if layer == Layers - 1 then 0 else NeuronsPerLayer[layer + 1]
  {
    var id := NeuronId(layer, i);
    if layer == Layers - 1 {
      OtherLayersFlat(random, id, false, layer, i, 0, ConnectionCount);
    } else {
      var n := NeuronsPerLayer[layer + 1];
      forall k | 0 <= k < ConnectionStart(layer) ensures ConnectionLayerOf(k) != layer {
      }
      OtherLayersFlat(random, id, false, layer, i, 0, ConnectionStart(layer));
      assert ConnectionStart(layer) + NeuronsPerLayer[layer] * n == ConnectionStart(layer + 1);
      OutgoingRows(random, layer, i, NeuronsPerLayer[layer], ConnectionStart(layer + 1));
      forall k | ConnectionStart(layer + 1) <= k < ConnectionCount ensures ConnectionLayerOf(k) != layer {
        if ConnectionLayerOf(k) <= layer { ConnectionStartMonotone(ConnectionLayerOf(k) + 1, layer + 1); }
      }
      OtherLayersFlat(random, id, false, layer, i, ConnectionStart(layer + 1), ConnectionCount);
    }
  }
}
