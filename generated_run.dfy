/** The propagation effect run on the network generateNetwork builds: the
    first four input values land on the four input neurons, every later
    neuron ends with the sigmoid of the last neuron of the layer below times
    its weight, and the 84 signals come out in the order of the connections. */
module GeneratedRun {
  import opened Text
  import opened NetworkTypes
  import opened NetworkGenerator
  import opened GeneratorProperties
  import opened NeuralNetwork
  import opened PropagationProperties

  // ---------------------------------------------------------------- inputs

  /** The input `find` for value i returns position i while i < 4, and nothing after. */
  lemma GeneratedFindInput(width: real, height: real, padding: real, i: nat)
    ensures FindInput(NetworkNeurons(width, height, padding), i) ==
      if i < NeuronsPerLayer[0] then Some(i) else None
  {
    var ns := NetworkNeurons(width, height, padding);
    FindInputSpec(ns, i);
    forall k | 0 <= k < |ns| && IsInputNeuron(ns[k], i) ensures k == i && i < NeuronsPerLayer[0] {
      NeuronShapeAtIndex(width, height, padding, k);
      NeuronIdInjective(LayerOf(k), k - LayerStart(LayerOf(k)), 0, i);
    }
    if i < NeuronsPerLayer[0] {
      NeuronShape(width, height, padding, 0, i);
      assert IsInputNeuron(ns[i], i);
    }
  }

  /** Input value k goes to the k-th neuron for k < 4; a missing value leaves
      0 and values past the fourth are dropped. */
  lemma GeneratedInputs(width: real, height: real, padding: real, values: seq<real>, k: nat)
    requires k < NeuronCount
    ensures InputsAssigned(NetworkNeurons(width, height, padding), values, |values|)[k].value ==
      if k < NeuronsPerLayer[0] && k < |values| then values[k] else 0.0
  {
    var ns := NetworkNeurons(width, height, padding);
    NeuronsStartAtZero(width, height, padding);
    forall i: nat ensures FindInput(ns, i) == if i < NeuronsPerLayer[0] then Some(i) else None {
      GeneratedFindInput(width, height, padding, i);
    }
    InputsOnFirstNeurons(ns, values, k);
  }

  /** Where the input `find` for i returns position i exactly for the first
      four values, input value k lands on position k and nothing else changes. */
  lemma InputsOnFirstNeurons(A: seq<Neuron>, values: seq<real>, k: nat)
    requires k < |A|
    requires forall i: nat :: FindInput(A, i) == if i < NeuronsPerLayer[0] then Some(i) else None
    ensures InputsAssigned(A, values, |values|)[k].value ==
      if k < NeuronsPerLayer[0] && k < |values| then values[k] else A[k].value
  {
    if k < NeuronsPerLayer[0] && k < |values| {
      assert FindInput(A, k) == Some(k);
      InputWritten(A, values, |values|, k, k);
    } else {
      forall i | 0 <= i < |values| ensures FindInput(A, i) != Some(k) {
        assert FindInput(A, i) == if i < NeuronsPerLayer[0] then Some(i) else None;
      }
      InputUnwritten(A, values, |values|, k);
    }
  }

  // ---------------------------------------------------------------- joins

  /** The connection `find` for the i-th neuron of `layer` and the j-th of
      `layer + 1` returns the connection pushed for that pair. */
  lemma GeneratedFindConnection(random: seq<real>, layer: nat, i: nat, j: nat)
    requires |random| >= ConnectionCount
    requires layer < Layers - 1 && i < NeuronsPerLayer[layer] && j < NeuronsPerLayer[layer + 1]
    ensures FindConnection(NetworkConnections(random), NeuronId(layer, i), NeuronId(layer + 1, j)) ==
      Some(ConnectionStart(layer) + i * NeuronsPerLayer[layer + 1] + j)
  {
    var cs := NetworkConnections(random);
    var k := ConnectionStart(layer) + i * NeuronsPerLayer[layer + 1] + j;
    ConnectionAt(random, layer, i, j);
    ConnectionsDistinct(random);
    assert Joins(cs[k], NeuronId(layer, i), NeuronId(layer + 1, j));
    var r := FindConnection(cs, NeuronId(layer, i), NeuronId(layer + 1, j));
    FindConnectionSpec(cs, NeuronId(layer, i), NeuronId(layer + 1, j));
    assert r.Some?;
    assert r.value == k;
  }

  /** On any array shaped like the generated one, s feeds t exactly when s is
      in `layer` and t in `layer + 1`, through the connection pushed for them. */
  lemma GeneratedFeeds(width: real, height: real, padding: real, random: seq<real>, A: seq<Neuron>,
                       layer: nat, s: nat, t: nat)
    requires |random| >= ConnectionCount && SameShape(NetworkNeurons(width, height, padding), A)
    ensures Feeds(A, NetworkConnections(random), layer, s, t) <==>
      s < NeuronCount && t < NeuronCount && LayerOf(s) == layer && LayerOf(t) == layer + 1
    ensures Feeds(A, NetworkConnections(random), layer, s, t) ==>
      layer < Layers - 1 &&
      var k := LinkIndex(layer, s - LayerStart(layer), t - LayerStart(layer + 1));
      k < ConnectionCount && LinkOf(A, NetworkConnections(random), layer, s, t) == NetworkConnections(random)[k]
  {
    GeneratedFeedsExactly(width, height, padding, random, A, layer, s, t);
    if Feeds(A, NetworkConnections(random), layer, s, t) {
      GeneratedFeedsLink(width, height, padding, random, A, layer, s, t, s - LayerStart(layer), t - LayerStart(layer + 1));
    }
  }

  /** The joined pairs of the generated network are exactly the pairs of adjacent layers. */
  lemma GeneratedFeedsExactly(width: real, height: real, padding: real, random: seq<real>, A: seq<Neuron>,
                              layer: nat, s: nat, t: nat)
    requires |random| >= ConnectionCount && SameShape(NetworkNeurons(width, height, padding), A)
    ensures Feeds(A, NetworkConnections(random), layer, s, t) <==>
      s < NeuronCount && t < NeuronCount && LayerOf(s) == layer && LayerOf(t) == layer + 1
  {
    var ns, cs := NetworkNeurons(width, height, padding), NetworkConnections(random);
    FeedsShape(ns, A, cs, layer, s, t);
    if s < NeuronCount && t < NeuronCount {
      NeuronShapeAtIndex(width, height, padding, s);
      NeuronShapeAtIndex(width, height, padding, t);
      if LayerOf(s) == layer && LayerOf(t) == layer + 1 {
        GeneratedFindConnection(random, layer, s - LayerStart(layer), t - LayerStart(layer + 1));
      }
    }
  }

  /** A joined pair of the generated network is joined by the connection pushed for it. */
  lemma GeneratedFeedsLink(width: real, height: real, padding: real, random: seq<real>, A: seq<Neuron>,
                           layer: nat, s: nat, t: nat, i: nat, j: nat)
    requires |random| >= ConnectionCount && SameShape(NetworkNeurons(width, height, padding), A)
    requires s < NeuronCount && t < NeuronCount && LayerOf(s) == layer && LayerOf(t) == layer + 1
    requires i == s - LayerStart(layer) && j == t - LayerStart(layer + 1)
    ensures layer < Layers - 1 && Feeds(A, NetworkConnections(random), layer, s, t)
    ensures LinkIndex(layer, i, j) < ConnectionCount &&
      LinkOf(A, NetworkConnections(random), layer, s, t) == NetworkConnections(random)[LinkIndex(layer, i, j)]
  {
    var ns, cs := NetworkNeurons(width, height, padding), NetworkConnections(random);
    GeneratedFeedsExactly(width, height, padding, random, A, layer, s, t);
    FeedsShape(ns, A, cs, layer, s, t);
    NeuronShapeAtIndex(width, height, padding, s);
    NeuronShapeAtIndex(width, height, padding, t);
    GeneratedFindConnection(random, layer, i, j);
    ConnectionAt(random, layer, i, j);
    assert FindConnection(cs, ns[s].id, ns[t].id) == Some(LinkIndex(layer, i, j));
    assert LinkOf(ns, cs, layer, s, t) == cs[LinkIndex(layer, i, j)];
  }

  /** Position of the last neuron of `layer`. */
  function LastNeuron(layer: nat): (k: nat)
    requires layer < Layers
    ensures LayerStart(layer) <= k && k + 1 == LayerStart(layer + 1)
  {
    if layer == 0 then 3 else if layer == 1 then 9 else if layer == 2 then 15 else 19
  }

  /** The last neuron of `layer` is the last source joined to every neuron of `layer + 1`. */
  lemma GeneratedLastSource(width: real, height: real, padding: real, random: seq<real>, A: seq<Neuron>,
                            layer: nat, t: nat)
    requires |random| >= ConnectionCount && SameShape(NetworkNeurons(width, height, padding), A)
    requires t < NeuronCount && LayerOf(t) == layer + 1
    ensures var last := LastNeuron(layer);
      Feeds(A, NetworkConnections(random), layer, last, t) &&
      forall u :: last < u < |A| ==> !Feeds(A, NetworkConnections(random), layer, u, t)
  {
    var last := LastNeuron(layer);
    GeneratedFeeds(width, height, padding, random, A, layer, last, t);
    forall u | last < u < |A| ensures !Feeds(A, NetworkConnections(random), layer, u, t) {
      GeneratedFeeds(width, height, padding, random, A, layer, u, t);
    }
  }

  // ---------------------------------------------------------------- final values

  /** Input neuron k ends with input value k, or 0 when there is none. */
  lemma GeneratedInputLayer(width: real, height: real, padding: real, random: seq<real>,
                            values: seq<real>, sigmoid: real -> real, k: nat)
    requires |random| >= ConnectionCount && k < NeuronsPerLayer[0]
    ensures Propagated(NetworkNeurons(width, height, padding), NetworkConnections(random), values, sigmoid)[k].value ==
      if k < |values| then values[k] else 0.0
  {
    NeuronShape(width, height, padding, 0, k);
    InputLayerFinal(NetworkNeurons(width, height, padding), NetworkConnections(random), values, sigmoid, k);
    GeneratedInputs(width, height, padding, values, k);
  }

  /** Position of the connection from the last neuron of `layer` to the j-th neuron of `layer + 1`. */
  function LastLink(layer: nat, j: nat): (k: nat)
    requires layer < Layers - 1 && j < NeuronsPerLayer[layer + 1]
    ensures k < ConnectionCount
    ensures k == ConnectionStart(layer) + (NeuronsPerLayer[layer] - 1) * NeuronsPerLayer[layer + 1] + j
  {
    if layer == 0 then RowPosition(0, 3, j); 18 + j
    else if layer == 1 then RowPosition(1, 5, j); 54 + j
    else RowPosition(2, 5, j); 80 + j
  }

  /** Neuron j of layer `layer + 1` ends with the sigmoid of the final value
      of the last neuron of `layer` times the weight of the connection between
      them: the other neurons of `layer` have no effect. */
  lemma GeneratedLaterLayer(width: real, height: real, padding: real, random: seq<real>,
                            values: seq<real>, sigmoid: real -> real, layer: nat, j: nat)
    requires |random| >= ConnectionCount && layer < Layers - 1 && j < NeuronsPerLayer[layer + 1]
    ensures var final := Propagated(NetworkNeurons(width, height, padding), NetworkConnections(random), values, sigmoid);
      |final| == NeuronCount && LayerStart(layer + 1) + j < NeuronCount &&
      final[LayerStart(layer + 1) + j].value ==
        Activate(sigmoid, Weighted(final[LastNeuron(layer)].value, random[LastLink(layer, j)]))
  {
    var ns, cs := NetworkNeurons(width, height, padding), NetworkConnections(random);
    var t := LayerStart(layer + 1) + j;
    var last := LastNeuron(layer);
    PropagatedShape(ns, cs, values, sigmoid);
    LastLinkOf(width, height, padding, random, layer, j);
    FinalValue(ns, cs, values, sigmoid, layer, last, t);
  }

  /** The last neuron of `layer` is the last source joined to the j-th neuron
      of `layer + 1`, through connection LastLink(layer, j). */
  lemma LastLinkOf(width: real, height: real, padding: real, random: seq<real>, layer: nat, j: nat)
    requires |random| >= ConnectionCount && layer < Layers - 1 && j < NeuronsPerLayer[layer + 1]
    ensures var ns, cs := NetworkNeurons(width, height, padding), NetworkConnections(random);
      var last, t := LastNeuron(layer), LayerStart(layer + 1) + j;
      t < NeuronCount && Feeds(ns, cs, layer, last, t) &&
      (forall u :: last < u < |ns| ==> !Feeds(ns, cs, layer, u, t)) &&
      LinkOf(ns, cs, layer, last, t).weight == random[LastLink(layer, j)]
  {
    var ns := NetworkNeurons(width, height, padding);
    var i := NeuronsPerLayer[layer] - 1;
    assert LastNeuron(layer) == LayerStart(layer) + i;
    LayerOfPosition(layer + 1, j);
    assert SameShape(ns, ns);
    GeneratedLastSource(width, height, padding, random, ns, layer, LayerStart(layer + 1) + j);
    GeneratedLink(width, height, padding, random, ns, layer, i, j);
    ConnectionAt(random, layer, i, j);
  }

  // ---------------------------------------------------------------- signals

  /** How many neurons of `layer` sit before array position m. */
  function Below(layer: nat, m: nat): nat
    requires layer < Layers
  {
    if m <= LayerStart(layer) then 0
    else if m >= LayerStart(layer + 1) then NeuronsPerLayer[layer]
    else m - LayerStart(layer)
  }

  /** The pairs from source s to the c targets lo, lo + 1, ..., in that order. */
  function TargetRun(s: nat, lo: nat, c: nat): (ps: seq<Pair>)
    ensures |ps| == c && forall j :: 0 <= j < c ==> ps[j] == Pair(s, lo + j)
  {
    seq(c, j requires 0 <= j < c => Pair(s, lo + j))
  }

  /** A source of `layer` visits the neurons of `layer + 1` in array order. */
  lemma {:induction false} GeneratedRowPairs(width: real, height: real, padding: real, random: seq<real>, A: seq<Neuron>,
                                             layer: nat, s: nat, m: nat)
    requires |random| >= ConnectionCount && SameShape(NetworkNeurons(width, height, padding), A)
    requires s < NeuronCount && LayerOf(s) == layer && layer < Layers - 1 && m <= NeuronCount
    ensures RowPairs(A, NetworkConnections(random), layer, s, m) ==
      TargetRun(s, LayerStart(layer + 1), Below(layer + 1, m))
  {
    if m > 0 {
      GeneratedRowPairs(width, height, padding, random, A, layer, s, m - 1);
      if Feeds(A, NetworkConnections(random), layer, s, m - 1) {
        RowPairsJoined(width, height, padding, random, A, layer, s, m);
      } else {
        RowPairsNotJoined(width, height, padding, random, A, layer, s, m);
      }
    }
  }

  /** A joined target m - 1 is the next neuron of `layer + 1` and extends the run by one. */
  lemma RowPairsJoined(width: real, height: real, padding: real, random: seq<real>, A: seq<Neuron>,
                       layer: nat, s: nat, m: nat)
    requires |random| >= ConnectionCount && SameShape(NetworkNeurons(width, height, padding), A)
    requires s < NeuronCount && LayerOf(s) == layer && layer < Layers - 1 && 0 < m <= NeuronCount
    requires RowPairs(A, NetworkConnections(random), layer, s, m - 1) ==
      TargetRun(s, LayerStart(layer + 1), Below(layer + 1, m - 1))
    requires Feeds(A, NetworkConnections(random), layer, s, m - 1)
    ensures RowPairs(A, NetworkConnections(random), layer, s, m) ==
      TargetRun(s, LayerStart(layer + 1), Below(layer + 1, m))
  {
    var cs := NetworkConnections(random);
    GeneratedFeedsExactly(width, height, padding, random, A, layer, s, m - 1);
    BelowStep(layer + 1, m);
    RunExtend(RowPairs(A, cs, layer, s, m), RowPairs(A, cs, layer, s, m - 1), s, LayerStart(layer + 1),
              Below(layer + 1, m - 1), Below(layer + 1, m));
  }

  /** A target m - 1 that is not joined lies outside `layer + 1` and leaves the run as it is. */
  lemma RowPairsNotJoined(width: real, height: real, padding: real, random: seq<real>, A: seq<Neuron>,
                          layer: nat, s: nat, m: nat)
    requires |random| >= ConnectionCount && SameShape(NetworkNeurons(width, height, padding), A)
    requires s < NeuronCount && LayerOf(s) == layer && layer < Layers - 1 && 0 < m <= NeuronCount
    requires RowPairs(A, NetworkConnections(random), layer, s, m - 1) ==
      TargetRun(s, LayerStart(layer + 1), Below(layer + 1, m - 1))
    requires !Feeds(A, NetworkConnections(random), layer, s, m - 1)
    ensures RowPairs(A, NetworkConnections(random), layer, s, m) ==
      TargetRun(s, LayerStart(layer + 1), Below(layer + 1, m))
  {
    GeneratedFeedsExactly(width, height, padding, random, A, layer, s, m - 1);
    BelowStep(layer + 1, m);
    assert RowPairs(A, NetworkConnections(random), layer, s, m) == RowPairs(A, NetworkConnections(random), layer, s, m - 1);
  }

  /** Position m - 1 adds one to the count of `layer`'s neurons before m
      exactly when it is in `layer`, and it is then the next one. */
  lemma BelowStep(layer: nat, m: nat)
    requires layer < Layers && 0 < m <= NeuronCount
    ensures LayerOf(m - 1) == layer ==>
      m - 1 == LayerStart(layer) + Below(layer, m - 1) && Below(layer, m) == Below(layer, m - 1) + 1
    ensures LayerOf(m - 1) != layer ==> Below(layer, m) == Below(layer, m - 1)
  {
  }

  /** A run of consecutive targets lo, lo + 1, ... of source s followed by
      the next target is the run one longer. */
  lemma RunExtend(ps: seq<Pair>, before: seq<Pair>, s: nat, lo: nat, c0: nat, c1: nat)
    requires before == TargetRun(s, lo, c0)
    requires ps == before + [Pair(s, lo + c0)] && c1 == c0 + 1
    ensures ps == TargetRun(s, lo, c1)
  {
  }

  lemma RowMajorBound(i: nat, j: nat, c: nat, n: nat)
    requires i < c && j < n
    ensures i * n + j < c * n
  {
    assert i * n + j < (i + 1) * n;
    assert (i + 1) * n <= c * n;
  }

  /** The row-major index idx = i * n + j falls before len = c * n. */
  lemma RowMajorBelow(idx: nat, len: nat, i: nat, j: nat, c: nat, n: nat)
    requires i < c && j < n && idx == i * n + j && len == c * n
    ensures idx < len
  {
    RowMajorBound(i, j, c, n);
  }

  /** The pairs of the sources before m: row after row, n targets per row. */
  lemma {:induction false} GeneratedLayerPairsLength(width: real, height: real, padding: real, random: seq<real>,
                                                     A: seq<Neuron>, layer: nat, m: nat)
    requires |random| >= ConnectionCount && SameShape(NetworkNeurons(width, height, padding), A)
    requires layer < Layers - 1 && m <= NeuronCount
    ensures |LayerPairs(A, NetworkConnections(random), layer, m)| == Below(layer, m) * NeuronsPerLayer[layer + 1]
  {
    if m > 0 {
      GeneratedLayerPairsLength(width, height, padding, random, A, layer, m - 1);
      LayerPairsLengthNext(width, height, padding, random, A, layer, m);
    }
  }

  /** Source m - 1 adds a full row of n(layer + 1) pairs when it lies in
      `layer`, and none otherwise. */
  lemma LayerPairsLengthNext(width: real, height: real, padding: real, random: seq<real>,
                             A: seq<Neuron>, layer: nat, m: nat)
    requires |random| >= ConnectionCount && SameShape(NetworkNeurons(width, height, padding), A)
    requires layer < Layers - 1 && 0 < m <= NeuronCount
    requires |LayerPairs(A, NetworkConnections(random), layer, m - 1)| == Below(layer, m - 1) * NeuronsPerLayer[layer + 1]
    ensures |LayerPairs(A, NetworkConnections(random), layer, m)| == Below(layer, m) * NeuronsPerLayer[layer + 1]
  {
    var cs := NetworkConnections(random);
    LayerRow(width, height, padding, random, A, layer, m - 1);
    var before, row := LayerPairs(A, cs, layer, m - 1), RowPairs(A, cs, layer, m - 1, |A|);
    assert LayerPairs(A, cs, layer, m) == before + row;
    RowsLength(|LayerPairs(A, cs, layer, m)|, |before|, |row|, Below(layer, m - 1), Below(layer, m), NeuronsPerLayer[layer + 1]);
  }

  /** Adding a row of n pairs, or none, to rows0 full rows gives rows1 full rows. */
  lemma RowsLength(total: nat, before: nat, row: nat, rows0: nat, rows1: nat, n: nat)
    requires total == before + row && before == rows0 * n
    requires (rows1 == rows0 + 1 && row == n) || (rows1 == rows0 && row == 0)
    ensures total == rows1 * n
  {
  }

  /** Source position s contributes a full row of n pairs when it is in `layer`, none otherwise. */
  lemma LayerRow(width: real, height: real, padding: real, random: seq<real>, A: seq<Neuron>, layer: nat, s: nat)
    requires |random| >= ConnectionCount && SameShape(NetworkNeurons(width, height, padding), A)
    requires layer < Layers - 1 && s < NeuronCount
    ensures Below(layer, s + 1) == Below(layer, s) + (if LayerOf(s) == layer then 1 else 0)
    ensures LayerOf(s) != layer ==> RowPairs(A, NetworkConnections(random), layer, s, |A|) == []
    ensures LayerOf(s) == layer ==>
      var n := NeuronsPerLayer[layer + 1];
      RowPairs(A, NetworkConnections(random), layer, s, |A|) ==
        TargetRun(s, LayerStart(layer + 1), n)
  {
    NeuronShapeAtIndex(width, height, padding, s);
    assert A[s] == NetworkNeurons(width, height, padding)[s].(value := A[s].value);
    if LayerOf(s) == layer {
      GeneratedRowPairs(width, height, padding, random, A, layer, s, NeuronCount);
    } else {
      RowPairsOther(A, NetworkConnections(random), layer, s, NeuronCount);
    }
  }

  /** Pair number i * n + j of the first m sources joins the i-th neuron of
      `layer` to the j-th of `layer + 1`. */
  lemma {:induction false} GeneratedLayerPairsAt(width: real, height: real, padding: real, random: seq<real>,
                                                 A: seq<Neuron>, layer: nat, m: nat, i: nat, j: nat)
    requires |random| >= ConnectionCount && SameShape(NetworkNeurons(width, height, padding), A)
    requires layer < Layers - 1 && m <= NeuronCount
    requires i < Below(layer, m) && j < NeuronsPerLayer[layer + 1]
    ensures var ps := LayerPairs(A, NetworkConnections(random), layer, m);
      RowMajor(layer, i, j) < |ps| &&
      ps[RowMajor(layer, i, j)] == Pair(LayerStart(layer) + i, LayerStart(layer + 1) + j)
    decreases m, 1
  {
    if i < Below(layer, m - 1) {
      LayerPairsAtEarlierRow(width, height, padding, random, A, layer, m, i, j);
    } else {
      LayerPairsAtLastRow(width, height, padding, random, A, layer, m, i, j);
    }
  }

  /** Pair i * n + j of a row before source m - 1 is where the first m - 1 sources put it. */
  lemma {:induction false} LayerPairsAtEarlierRow(width: real, height: real, padding: real, random: seq<real>,
                                                  A: seq<Neuron>, layer: nat, m: nat, i: nat, j: nat)
    requires |random| >= ConnectionCount && SameShape(NetworkNeurons(width, height, padding), A)
    requires layer < Layers - 1 && 0 < m <= NeuronCount
    requires i < Below(layer, m - 1) && j < NeuronsPerLayer[layer + 1]
    ensures var ps := LayerPairs(A, NetworkConnections(random), layer, m);
      RowMajor(layer, i, j) < |ps| &&
      ps[RowMajor(layer, i, j)] == Pair(LayerStart(layer) + i, LayerStart(layer + 1) + j)
    decreases m, 0
  {
    var cs := NetworkConnections(random);
    var idx := RowMajor(layer, i, j);
    GeneratedLayerPairsAt(width, height, padding, random, A, layer, m - 1, i, j);
    GeneratedLayerPairsLength(width, height, padding, random, A, layer, m - 1);
    var before := LayerPairs(A, cs, layer, m - 1);
    RowMajorBelow(idx, |before|, i, j, Below(layer, m - 1), NeuronsPerLayer[layer + 1]);
    assert LayerPairs(A, cs, layer, m) == before + RowPairs(A, cs, layer, m - 1, |A|);
    ConcatAt(LayerPairs(A, cs, layer, m), before, RowPairs(A, cs, layer, m - 1, |A|), idx,
             Pair(LayerStart(layer) + i, LayerStart(layer + 1) + j));
  }

  /** Pair i * n + j of the row of source m - 1 is the j-th pair of that row. */
  lemma LayerPairsAtLastRow(width: real, height: real, padding: real, random: seq<real>,
                            A: seq<Neuron>, layer: nat, m: nat, i: nat, j: nat)
    requires |random| >= ConnectionCount && SameShape(NetworkNeurons(width, height, padding), A)
    requires layer < Layers - 1 && 0 < m <= NeuronCount
    requires Below(layer, m - 1) <= i < Below(layer, m) && j < NeuronsPerLayer[layer + 1]
    ensures var ps := LayerPairs(A, NetworkConnections(random), layer, m);
      RowMajor(layer, i, j) < |ps| &&
      ps[RowMajor(layer, i, j)] == Pair(LayerStart(layer) + i, LayerStart(layer + 1) + j)
  {
    var cs := NetworkConnections(random);
    var idx := RowMajor(layer, i, j);
    LayerRow(width, height, padding, random, A, layer, m - 1);
    GeneratedLayerPairsLength(width, height, padding, random, A, layer, m - 1);
    var before := LayerPairs(A, cs, layer, m - 1);
    var row := RowPairs(A, cs, layer, m - 1, |A|);
    assert LayerPairs(A, cs, layer, m) == before + row;
    var target := Pair(LayerStart(layer) + i, LayerStart(layer + 1) + j);
    assert i == Below(layer, m - 1) && LayerOf(m - 1) == layer;
    assert m - 1 == LayerStart(layer) + i;
    assert idx == |before| + j;
    assert row[j] == target;
    ConcatAt(LayerPairs(A, cs, layer, m), before, row, idx, target);
  }

  /** Element k of a concatenation is x when the part it falls in has x there. */
  lemma ConcatAt<T>(ab: seq<T>, a: seq<T>, b: seq<T>, k: nat, x: T)
    requires ab == a + b && k < |a| + |b|
    requires k < |a| ==> a[k] == x
    requires k >= |a| ==> b[k - |a|] == x
    ensures k < |ab| && ab[k] == x
  {
  }

  /** The signals of the first n iterations number ConnectionStart(n). */
  lemma {:induction false} GeneratedSignalCount(width: real, height: real, padding: real, random: seq<real>,
                                                A1: seq<Neuron>, sigmoid: real -> real, clock: nat -> nat, n: nat)
    requires |random| >= ConnectionCount && SameShape(NetworkNeurons(width, height, padding), A1)
    requires n < Layers
    ensures |SignalsUpTo(A1, NetworkConnections(random), sigmoid, clock, n)| == ConnectionStart(n)
  {
    if n > 0 {
      GeneratedSignalCount(width, height, padding, random, A1, sigmoid, clock, n - 1);
      var B := AfterLayers(A1, NetworkConnections(random), sigmoid, n - 1);
      SameShapeTrans(NetworkNeurons(width, height, padding), A1, B);
      GeneratedLayerPairsLength(width, height, padding, random, B, n - 1, NeuronCount);
      assert Below(n - 1, NeuronCount) == NeuronsPerLayer[n - 1];
    }
  }

  /** Among the signals of the first n iterations, signal LinkIndex(layer, i, j)
      belongs to the connection of that index, with the value its source had
      once iteration `layer` began. */
  lemma {:induction false} GeneratedSignalAt(width: real, height: real, padding: real, random: seq<real>,
                                             A1: seq<Neuron>, sigmoid: real -> real, clock: nat -> nat,
                                             n: nat, layer: nat, i: nat, j: nat)
    requires |random| >= ConnectionCount && SameShape(NetworkNeurons(width, height, padding), A1)
    requires layer < n < Layers && i < NeuronsPerLayer[layer] && j < NeuronsPerLayer[layer + 1]
    ensures var cs := NetworkConnections(random);
      var k := LinkIndex(layer, i, j);
      var sigs := SignalsUpTo(A1, cs, sigmoid, clock, n);
      var B := AfterLayers(A1, cs, sigmoid, layer);
      k < |sigs| && k < |cs| && LayerStart(layer) + i < |B| &&
      sigs[k] == Signal(SignalId(cs[k].id, clock(k)), cs[k].id, 0.0, Weighted(B[LayerStart(layer) + i].value, cs[k].weight))
    decreases n, 1
  {
    if layer < n - 1 {
      GeneratedEarlierSignal(width, height, padding, random, A1, sigmoid, clock, n, layer, i, j);
    } else {
      assert n == layer + 1;
      GeneratedLatestSignal(width, height, padding, random, A1, sigmoid, clock, layer, i, j);
    }
  }

  /** GeneratedSignalAt for a layer before the last of the n iterations:
      the signal is already among those of the first n - 1. */
  lemma {:induction false} GeneratedEarlierSignal(width: real, height: real, padding: real, random: seq<real>,
                                                  A1: seq<Neuron>, sigmoid: real -> real, clock: nat -> nat,
                                                  n: nat, layer: nat, i: nat, j: nat)
    requires |random| >= ConnectionCount && SameShape(NetworkNeurons(width, height, padding), A1)
    requires layer < n - 1 && n < Layers && i < NeuronsPerLayer[layer] && j < NeuronsPerLayer[layer + 1]
    ensures var cs := NetworkConnections(random);
      var k := LinkIndex(layer, i, j);
      var sigs := SignalsUpTo(A1, cs, sigmoid, clock, n);
      var B := AfterLayers(A1, cs, sigmoid, layer);
      k < |sigs| && k < |cs| && LayerStart(layer) + i < |B| &&
      sigs[k] == Signal(SignalId(cs[k].id, clock(k)), cs[k].id, 0.0, Weighted(B[LayerStart(layer) + i].value, cs[k].weight))
    decreases n, 0
  {
    var cs := NetworkConnections(random);
    var k := LinkIndex(layer, i, j);
    RowPosition(layer, i, j);
    ConnectionAt(random, layer, i, j);
    GeneratedSignalCount(width, height, padding, random, A1, sigmoid, clock, n - 1);
    ConnectionStartMonotone(layer + 1, n - 1);
    GeneratedSignalAt(width, height, padding, random, A1, sigmoid, clock, n - 1, layer, i, j);
    var B := AfterLayers(A1, cs, sigmoid, layer);
    EarlierSignalOf(A1, cs, sigmoid, clock, n, k,
      Signal(SignalId(cs[k].id, clock(k)), cs[k].id, 0.0, Weighted(B[LayerStart(layer) + i].value, cs[k].weight)));
  }

  /** A signal of the first n - 1 iterations keeps its position among those of the first n. */
  lemma EarlierSignalOf(A1: seq<Neuron>, cs: seq<Connection>, sigmoid: real -> real, clock: nat -> nat,
                        n: nat, k: nat, sig: Signal)
    requires 0 < n && k < |SignalsUpTo(A1, cs, sigmoid, clock, n - 1)| && SignalsUpTo(A1, cs, sigmoid, clock, n - 1)[k] == sig
    ensures k < |SignalsUpTo(A1, cs, sigmoid, clock, n)| && SignalsUpTo(A1, cs, sigmoid, clock, n)[k] == sig
  {
    SignalsUpToPrefix(A1, cs, sigmoid, clock, n, k);
  }

  /** GeneratedSignalAt for n = layer + 1: the signal is iteration `layer`'s. */
  lemma GeneratedLatestSignal(width: real, height: real, padding: real, random: seq<real>,
                              A1: seq<Neuron>, sigmoid: real -> real, clock: nat -> nat,
                              layer: nat, i: nat, j: nat)
    requires |random| >= ConnectionCount && SameShape(NetworkNeurons(width, height, padding), A1)
    requires layer < Layers - 1 && i < NeuronsPerLayer[layer] && j < NeuronsPerLayer[layer + 1]
    ensures var cs := NetworkConnections(random);
      var k := LinkIndex(layer, i, j);
      var sigs := SignalsUpTo(A1, cs, sigmoid, clock, layer + 1);
      var B := AfterLayers(A1, cs, sigmoid, layer);
      k < |sigs| && k < |cs| && LayerStart(layer) + i < |B| &&
      sigs[k] == Signal(SignalId(cs[k].id, clock(k)), cs[k].id, 0.0, Weighted(B[LayerStart(layer) + i].value, cs[k].weight))
  {
    var cs := NetworkConnections(random);
    var B := AfterLayers(A1, cs, sigmoid, layer);
    GeneratedSignalCount(width, height, padding, random, A1, sigmoid, clock, layer);
    SameShapeTrans(NetworkNeurons(width, height, padding), A1, B);
    SignalsUpToNext(A1, cs, sigmoid, clock, layer);
    LatestSignalFromLayer(width, height, padding, random, B, clock, layer, i, j,
                          SignalsUpTo(A1, cs, sigmoid, clock, layer), SignalsUpTo(A1, cs, sigmoid, clock, layer + 1));
  }

  /** The step of GeneratedLatestSignal for the neurons B entering iteration
      `layer`, once the `earlier` signals are counted and `all` the signals
      are those followed by the signals of iteration `layer`. */
  lemma LatestSignalFromLayer(width: real, height: real, padding: real, random: seq<real>, B: seq<Neuron>,
                              clock: nat -> nat, layer: nat, i: nat, j: nat, earlier: seq<Signal>, all: seq<Signal>)
    requires |random| >= ConnectionCount && SameShape(NetworkNeurons(width, height, padding), B)
    requires layer < Layers - 1 && i < NeuronsPerLayer[layer] && j < NeuronsPerLayer[layer + 1]
    requires |earlier| == ConnectionStart(layer)
    requires all == earlier + LayerSignals(B, NetworkConnections(random), layer, clock, |earlier|)
    ensures var cs := NetworkConnections(random);
      var k := LinkIndex(layer, i, j);
      k < |all| && k < |cs| && LayerStart(layer) + i < |B| &&
      all[k] == Signal(SignalId(cs[k].id, clock(k)), cs[k].id, 0.0, Weighted(B[LayerStart(layer) + i].value, cs[k].weight))
  {
    var cs := NetworkConnections(random);
    var k := LinkIndex(layer, i, j);
    var p := RowMajor(layer, i, j);
    GeneratedLayerSignalAt(width, height, padding, random, B, layer, clock, |earlier|, i, j);
    assert k == |earlier| + p;
    LatestSignalOf(all, earlier, LayerSignals(B, cs, layer, clock, |earlier|),
                   clock, p, k, cs[k].id, Weighted(B[LayerStart(layer) + i].value, cs[k].weight));
  }

  /** Signal p of iteration `layer` comes at position k of the first
      layer + 1 iterations, k being p plus the number emitted before. */
  lemma LatestSignalOf(all: seq<Signal>, earlier: seq<Signal>, latest: seq<Signal>, clock: nat -> nat,
                       p: nat, k: nat, cid: string, value: real)
    requires all == earlier + latest && k == |earlier| + p && p < |latest|
    requires latest[p] == Signal(SignalId(cid, clock(|earlier| + p)), cid, 0.0, value)
    ensures k < |all| && all[k] == Signal(SignalId(cid, clock(k)), cid, 0.0, value)
  {
  }

  /** Signal i * n + j of iteration `layer` belongs to the connection from
      the i-th neuron of `layer` to the j-th of `layer + 1`. */
  lemma GeneratedLayerSignalAt(width: real, height: real, padding: real, random: seq<real>, B: seq<Neuron>,
                               layer: nat, clock: nat -> nat, base: nat, i: nat, j: nat)
    requires |random| >= ConnectionCount && SameShape(NetworkNeurons(width, height, padding), B)
    requires layer < Layers - 1 && i < NeuronsPerLayer[layer] && j < NeuronsPerLayer[layer + 1]
    ensures var cs := NetworkConnections(random);
      var p := RowMajor(layer, i, j);
      var k := LinkIndex(layer, i, j);
      var sigs := LayerSignals(B, cs, layer, clock, base);
      k < ConnectionCount && LayerStart(layer) + i < |B| && p < |sigs| &&
      sigs[p] == Signal(SignalId(cs[k].id, clock(base + p)), cs[k].id, 0.0, Weighted(B[LayerStart(layer) + i].value, cs[k].weight))
  {
    var cs := NetworkConnections(random);
    var p := RowMajor(layer, i, j);
    GeneratedPairAt(width, height, padding, random, B, layer, i, j);
    GeneratedLink(width, height, padding, random, B, layer, i, j);
    LayerSignalAt(B, cs, layer, clock, base, p);
  }

  /** The pair for the i-th neuron of `layer` and the j-th of `layer + 1`
      comes at position i * n + j of the iteration. */
  lemma GeneratedPairAt(width: real, height: real, padding: real, random: seq<real>, B: seq<Neuron>,
                        layer: nat, i: nat, j: nat)
    requires |random| >= ConnectionCount && SameShape(NetworkNeurons(width, height, padding), B)
    requires layer < Layers - 1 && i < NeuronsPerLayer[layer] && j < NeuronsPerLayer[layer + 1]
    ensures var ps := LayerPairs(B, NetworkConnections(random), layer, |B|);
      var p := RowMajor(layer, i, j);
      p < |ps| && ps[p] == Pair(LayerStart(layer) + i, LayerStart(layer + 1) + j)
  {
    NeuronShape(width, height, padding, layer, i);
    assert Below(layer, NeuronCount) == NeuronsPerLayer[layer];
    GeneratedLayerPairsAt(width, height, padding, random, B, layer, NeuronCount, i, j);
  }

  /** The link between the i-th neuron of `layer` and the j-th of `layer + 1`
      is connection LinkIndex(layer, i, j). */
  lemma GeneratedLink(width: real, height: real, padding: real, random: seq<real>, B: seq<Neuron>,
                      layer: nat, i: nat, j: nat)
    requires |random| >= ConnectionCount && SameShape(NetworkNeurons(width, height, padding), B)
    requires layer < Layers - 1 && i < NeuronsPerLayer[layer] && j < NeuronsPerLayer[layer + 1]
    ensures var s, t := LayerStart(layer) + i, LayerStart(layer + 1) + j;
      LinkIndex(layer, i, j) < ConnectionCount && s < |B| &&
      Feeds(B, NetworkConnections(random), layer, s, t) &&
      LinkOf(B, NetworkConnections(random), layer, s, t) == NetworkConnections(random)[LinkIndex(layer, i, j)]
  {
    var s, t := LayerStart(layer) + i, LayerStart(layer + 1) + j;
    LayerOfPosition(layer, i);
    LayerOfPosition(layer + 1, j);
    GeneratedFeedsLink(width, height, padding, random, B, layer, s, t, i, j);
  }

  /** The run on the generated network emits 84 signals, in connection
      order: signal LinkIndex(layer, i, j) belongs to the connection from the
      i-th neuron of `layer` to the j-th of `layer + 1`, its id carries the
      connection id and the clock reading of the same number, its progress is
      0 and its value is the source's final value times the weight. */
  lemma GeneratedSignals(width: real, height: real, padding: real, random: seq<real>,
                         values: seq<real>, sigmoid: real -> real, clock: nat -> nat, layer: nat, i: nat, j: nat)
    requires |random| >= ConnectionCount
    requires layer < Layers - 1 && i < NeuronsPerLayer[layer] && j < NeuronsPerLayer[layer + 1]
    ensures var ns, cs := NetworkNeurons(width, height, padding), NetworkConnections(random);
      var sigs := PropagatedSignals(ns, cs, values, sigmoid, clock);
      var final := Propagated(ns, cs, values, sigmoid);
      var k, s := LinkIndex(layer, i, j), LayerStart(layer) + i;
      |sigs| == ConnectionCount && k < ConnectionCount && s < |final| &&
      cs[k].sourceId == final[s].id == NeuronId(layer, i) &&
      cs[k].targetId == NeuronId(layer + 1, j) &&
      sigs[k] == Signal(SignalId(cs[k].id, clock(k)), cs[k].id, 0.0, Weighted(final[s].value, cs[k].weight))
  {
    GeneratedSignalEnds(width, height, padding, random, values, sigmoid, layer, i, j);
    GeneratedSignalValue(width, height, padding, random, values, sigmoid, clock, layer, i, j);
  }

  /** The connection of signal LinkIndex(layer, i, j) runs from the i-th
      neuron of `layer` to the j-th of `layer + 1`. */
  lemma GeneratedSignalEnds(width: real, height: real, padding: real, random: seq<real>,
                            values: seq<real>, sigmoid: real -> real, layer: nat, i: nat, j: nat)
    requires |random| >= ConnectionCount
    requires layer < Layers - 1 && i < NeuronsPerLayer[layer] && j < NeuronsPerLayer[layer + 1]
    ensures var ns, cs := NetworkNeurons(width, height, padding), NetworkConnections(random);
      var final := Propagated(ns, cs, values, sigmoid);
      var k, s := LinkIndex(layer, i, j), LayerStart(layer) + i;
      k < |cs| && s < |final| &&
      cs[k].sourceId == final[s].id == NeuronId(layer, i) &&
      cs[k].targetId == NeuronId(layer + 1, j)
  {
    var ns, cs := NetworkNeurons(width, height, padding), NetworkConnections(random);
    ConnectionAt(random, layer, i, j);
    NeuronShape(width, height, padding, layer, i);
    PropagatedShape(ns, cs, values, sigmoid);
  }

  /** Signal LinkIndex(layer, i, j) of the run carries the final value of its source. */
  lemma GeneratedSignalValue(width: real, height: real, padding: real, random: seq<real>,
                             values: seq<real>, sigmoid: real -> real, clock: nat -> nat, layer: nat, i: nat, j: nat)
    requires |random| >= ConnectionCount
    requires layer < Layers - 1 && i < NeuronsPerLayer[layer] && j < NeuronsPerLayer[layer + 1]
    ensures var ns, cs := NetworkNeurons(width, height, padding), NetworkConnections(random);
      var sigs := PropagatedSignals(ns, cs, values, sigmoid, clock);
      var final := Propagated(ns, cs, values, sigmoid);
      var k, s := LinkIndex(layer, i, j), LayerStart(layer) + i;
      |sigs| == ConnectionCount && k < ConnectionCount && k < |cs| && s < |final| &&
      sigs[k] == Signal(SignalId(cs[k].id, clock(k)), cs[k].id, 0.0, Weighted(final[s].value, cs[k].weight))
  {
    var ns, cs := NetworkNeurons(width, height, padding), NetworkConnections(random);
    var A1 := InputsAssigned(ns, values, |values|);
    var s := LayerStart(layer) + i;
    GeneratedSignalCount(width, height, padding, random, A1, sigmoid, clock, LayerSteps);
    GeneratedSignalAt(width, height, padding, random, A1, sigmoid, clock, LayerSteps, layer, i, j);
    NeuronShape(width, height, padding, layer, i);
    SignalUsesFinalSource(ns, cs, values, sigmoid, layer, s);
    PropagatedShape(ns, cs, values, sigmoid);
    var sigs, B, final := SignalsUpTo(A1, cs, sigmoid, clock, LayerSteps), AfterLayers(A1, cs, sigmoid, layer), Propagated(ns, cs, values, sigmoid);
    assert PropagatedSignals(ns, cs, values, sigmoid, clock) == sigs;
    assert B[s] == final[s];
  }
}
