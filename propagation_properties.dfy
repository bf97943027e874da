/** What the propagation effect guarantees on any neuron array and any
    connection list: where the inputs go, which neurons each layer iteration
    may change, the last-writer-wins rule, which pairs emit signals and in
    what order. */
module PropagationProperties {
  import opened Text
  import opened NetworkTypes
  import opened NeuralNetwork

  // ---------------------------------------------------------------- inputs

  /** Value i lands on the neuron the input `find` returns for i. A later
      value never overwrites it, because `neuron-0-<i>` differs for distinct i. */
  lemma {:induction false} InputWritten(A: seq<Neuron>, values: seq<real>, n: nat, i: nat, k: nat)
    requires n <= |values| && i < n && FindInput(A, i) == Some(k)
    ensures k < |A| && InputsAssigned(A, values, n)[k].value == values[i]
  {
    var B := InputsAssigned(A, values, n - 1);
    if i == n - 1 {
      assert InputsAssigned(A, values, n) == B[k := B[k].(value := values[n - 1])];
    } else {
      InputWritten(A, values, n - 1, i, k);
      match FindInput(A, n - 1)
      case None =>
        assert InputsAssigned(A, values, n) == B;
      case Some(j) =>
        assert InputsAssigned(A, values, n) == B[j := B[j].(value := values[n - 1])];
        if j == k {
          FindInputSpec(A, i);
          FindInputSpec(A, n - 1);
          NeuronIdInjective(0, i, 0, n - 1);
        }
    }
  }

  /** A neuron that no value's `find` returns keeps its value. */
  lemma {:induction false} InputUnwritten(A: seq<Neuron>, values: seq<real>, n: nat, k: nat)
    requires n <= |values| && k < |A|
    requires forall i :: 0 <= i < n ==> FindInput(A, i) != Some(k)
    ensures InputsAssigned(A, values, n)[k] == A[k]
  {
    if n > 0 {
      InputUnwritten(A, values, n - 1, k);
      var B := InputsAssigned(A, values, n - 1);
      match FindInput(A, n - 1)
      case None =>
        assert InputsAssigned(A, values, n) == B;
      case Some(j) =>
        assert InputsAssigned(A, values, n) == B[j := B[j].(value := values[n - 1])];
    }
  }

  /** Only layer-0 neurons receive inputs. */
  lemma InputsOnlyLayerZero(A: seq<Neuron>, values: seq<real>, k: nat)
    requires k < |A| && A[k].layer != 0
    ensures InputsAssigned(A, values, |values|)[k] == A[k]
  {
    forall i | 0 <= i < |values| ensures FindInput(A, i) != Some(k) {
      FindInputSpec(A, i);
    }
    InputUnwritten(A, values, |values|, k);
  }

  // ---------------------------------------------------------------- shape

  /** Which pairs feed, and through which connection, depends on ids and layers only. */
  lemma FeedsShape(A: seq<Neuron>, B: seq<Neuron>, cs: seq<Connection>, layer: nat, s: nat, t: nat)
    requires SameShape(A, B)
    ensures Feeds(A, cs, layer, s, t) == Feeds(B, cs, layer, s, t)
    ensures Feeds(A, cs, layer, s, t) ==> LinkOf(A, cs, layer, s, t) == LinkOf(B, cs, layer, s, t)
  {
    if s < |A| && t < |A| {
      assert B[s] == A[s].(value := B[s].value);
      assert B[t] == A[t].(value := B[t].value);
    }
  }

  // ---------------------------------------------------------------- one layer

  /** A layer iteration changes only neurons of the next layer. */
  lemma LayerStepOnlyNext(A: seq<Neuron>, cs: seq<Connection>, layer: nat, sigmoid: real -> real, t: nat)
    requires t < |A| && A[t].layer != layer + 1
    ensures LayerStep(A, cs, layer, sigmoid)[t] == A[t]
  {
    var r := LastSource(A, cs, layer, t, |A|);
    assert r.Some? ==> Feeds(A, cs, layer, r.value, t);
  }

  /** Last writer wins: when s is the last source of `layer` joined to t,
      t ends the iteration holding `sigmoid(A[s].value * weight)`, with the
      weight of the first connection from s to t; earlier sources' writes are lost. */
  lemma LastWriterWins(A: seq<Neuron>, cs: seq<Connection>, layer: nat, sigmoid: real -> real, s: nat, t: nat)
    requires Feeds(A, cs, layer, s, t)
    requires forall u :: s < u < |A| ==> !Feeds(A, cs, layer, u, t)
    ensures LayerStep(A, cs, layer, sigmoid)[t] ==
      A[t].(value := Activate(sigmoid, Weighted(A[s].value, LinkOf(A, cs, layer, s, t).weight)))
  {
    var r := LastSource(A, cs, layer, t, |A|);
    assert r == Some(s);
    assert LayerStep(A, cs, layer, sigmoid)[t] == A[t].(value := Activate(sigmoid, RawSignal(A, cs, layer, s, t)));
  }

  /** A neuron that no source of `layer` is joined to keeps its value. */
  lemma UnfedKept(A: seq<Neuron>, cs: seq<Connection>, layer: nat, sigmoid: real -> real, t: nat)
    requires t < |A|
    requires forall s :: 0 <= s < |A| ==> !Feeds(A, cs, layer, s, t)
    ensures LayerStep(A, cs, layer, sigmoid)[t] == A[t]
  {
    assert LastSource(A, cs, layer, t, |A|).None?;
  }

  // ---------------------------------------------------------------- the run

  /** The iterations change neurons of layers 1 to n only. */
  lemma {:induction false} AfterLayersOutside(A: seq<Neuron>, cs: seq<Connection>, sigmoid: real -> real, n: nat, t: nat)
    requires t < |A| && !(1 <= A[t].layer <= n)
    ensures AfterLayers(A, cs, sigmoid, n)[t] == A[t]
  {
    if n > 0 {
      AfterLayersOutside(A, cs, sigmoid, n - 1, t);
      var B := AfterLayers(A, cs, sigmoid, n - 1);
      assert B[t] == A[t].(value := B[t].value);
      LayerStepOnlyNext(B, cs, n - 1, sigmoid, t);
    }
  }

  /** A neuron of layer m is final once iteration m - 1 is done: later
      iterations only write to higher layers. */
  lemma {:induction false} AfterLayersStable(A: seq<Neuron>, cs: seq<Connection>, sigmoid: real -> real, m: nat, n: nat, t: nat)
    requires m <= n && t < |A| && A[t].layer <= m
    ensures AfterLayers(A, cs, sigmoid, n)[t] == AfterLayers(A, cs, sigmoid, m)[t]
    decreases n
  {
    if m < n {
      AfterLayersStable(A, cs, sigmoid, m, n - 1, t);
      var B := AfterLayers(A, cs, sigmoid, n - 1);
      assert B[t] == A[t].(value := B[t].value);
      LayerStepOnlyNext(B, cs, n - 1, sigmoid, t);
    }
  }

  /** The run keeps every neuron's id, position and layer. */
  lemma PropagatedShape(neurons: seq<Neuron>, cs: seq<Connection>, values: seq<real>, sigmoid: real -> real)
    ensures SameShape(neurons, Propagated(neurons, cs, values, sigmoid))
  {
    var B := InputsAssigned(neurons, values, |values|);
    SameShapeTrans(neurons, B, Propagated(neurons, cs, values, sigmoid));
  }

  /** Input neurons end with their assigned values, untransformed: no
      iteration writes to layer 0. */
  lemma InputLayerFinal(neurons: seq<Neuron>, cs: seq<Connection>, values: seq<real>, sigmoid: real -> real, k: nat)
    requires k < |neurons| && neurons[k].layer == 0
    ensures Propagated(neurons, cs, values, sigmoid)[k] == InputsAssigned(neurons, values, |values|)[k]
  {
    var B := InputsAssigned(neurons, values, |values|);
    assert B[k] == neurons[k].(value := B[k].value);
    AfterLayersOutside(B, cs, sigmoid, LayerSteps, k);
  }

  /** The whole run, for a neuron t of layer L + 1 (L = 0, 1, 2): when s is
      the last neuron of layer L joined to t, t ends with the sigmoid of
      s's final value times the weight. Stated on the neurons as passed in,
      since which pairs are joined does not depend on values. */
  lemma FinalValue(neurons: seq<Neuron>, cs: seq<Connection>, values: seq<real>, sigmoid: real -> real,
                   layer: nat, s: nat, t: nat)
    requires layer < LayerSteps
    requires Feeds(neurons, cs, layer, s, t)
    requires forall u :: s < u < |neurons| ==> !Feeds(neurons, cs, layer, u, t)
    ensures var final := Propagated(neurons, cs, values, sigmoid);
      final[t].value == Activate(sigmoid, Weighted(final[s].value, LinkOf(neurons, cs, layer, s, t).weight))
  {
    var A1 := InputsAssigned(neurons, values, |values|);
    LastFeederShape(neurons, A1, cs, layer, s, t);
    AfterLayersFinal(A1, cs, sigmoid, layer, s, t);
  }

  /** FinalValue, from the neurons as they are once the inputs are assigned. */
  lemma AfterLayersFinal(A1: seq<Neuron>, cs: seq<Connection>, sigmoid: real -> real, layer: nat, s: nat, t: nat)
    requires layer < LayerSteps
    requires Feeds(A1, cs, layer, s, t)
    requires forall u :: s < u < |A1| ==> !Feeds(A1, cs, layer, u, t)
    ensures var final := AfterLayers(A1, cs, sigmoid, LayerSteps);
      final[t].value == Activate(sigmoid, Weighted(final[s].value, LinkOf(A1, cs, layer, s, t).weight))
  {
    var B := AfterLayers(A1, cs, sigmoid, layer);
    var C := AfterLayers(A1, cs, sigmoid, layer + 1);
    var final := AfterLayers(A1, cs, sigmoid, LayerSteps);
    assert C == LayerStep(B, cs, layer, sigmoid);
    LastFeederShape(A1, B, cs, layer, s, t);
    LastWriterWins(B, cs, layer, sigmoid, s, t);
    AfterLayersStable(A1, cs, sigmoid, layer + 1, LayerSteps, t);
    AfterLayersStable(A1, cs, sigmoid, layer, LayerSteps, s);
  }

  /** "s is the last source joined to t" carries over between arrays of the same shape. */
  lemma LastFeederShape(A: seq<Neuron>, B: seq<Neuron>, cs: seq<Connection>, layer: nat, s: nat, t: nat)
    requires SameShape(A, B)
    requires Feeds(A, cs, layer, s, t)
    requires forall u :: s < u < |A| ==> !Feeds(A, cs, layer, u, t)
    ensures Feeds(B, cs, layer, s, t) && LinkOf(B, cs, layer, s, t) == LinkOf(A, cs, layer, s, t)
    ensures forall u :: s < u < |B| ==> !Feeds(B, cs, layer, u, t)
  {
    forall u | s < u < |B| ensures !Feeds(B, cs, layer, u, t) {
      FeedsShape(A, B, cs, layer, u, t);
    }
    FeedsShape(A, B, cs, layer, s, t);
  }

  /** A neuron of layer L + 1 (L = 0, 1, 2) that no neuron of layer L is
      joined to ends with the value it came with. */
  lemma UnfedFinal(neurons: seq<Neuron>, cs: seq<Connection>, values: seq<real>, sigmoid: real -> real,
                   layer: nat, t: nat)
    requires layer < LayerSteps && t < |neurons| && neurons[t].layer == layer + 1
    requires forall s :: 0 <= s < |neurons| ==> !Feeds(neurons, cs, layer, s, t)
    ensures Propagated(neurons, cs, values, sigmoid)[t] == neurons[t]
  {
    var A1 := InputsAssigned(neurons, values, |values|);
    InputsOnlyLayerZero(neurons, values, t);
    var B := AfterLayers(A1, cs, sigmoid, layer);
    SameShapeTrans(neurons, A1, B);
    forall s | 0 <= s < |B| ensures !Feeds(B, cs, layer, s, t) {
      FeedsShape(neurons, B, cs, layer, s, t);
    }
    UnfedKept(B, cs, layer, sigmoid, t);
    AfterLayersOutside(A1, cs, sigmoid, layer, t);
    assert AfterLayers(A1, cs, sigmoid, layer + 1) == LayerStep(B, cs, layer, sigmoid);
    AfterLayersStable(A1, cs, sigmoid, layer + 1, LayerSteps, t);
  }

  /** Neurons of a layer below 0 or above 3 are never touched. */
  lemma OtherLayersFinal(neurons: seq<Neuron>, cs: seq<Connection>, values: seq<real>, sigmoid: real -> real, t: nat)
    requires t < |neurons| && (neurons[t].layer < 0 || neurons[t].layer > LayerSteps)
    ensures Propagated(neurons, cs, values, sigmoid)[t] == neurons[t]
  {
    var A1 := InputsAssigned(neurons, values, |values|);
    InputsOnlyLayerZero(neurons, values, t);
    AfterLayersOutside(A1, cs, sigmoid, LayerSteps, t);
  }

  /** With no neurons (the effect reading the initial empty state) nothing is emitted. */
  lemma {:induction false} EmptyNetworkSilent(cs: seq<Connection>, sigmoid: real -> real, clock: nat -> nat, n: nat)
    ensures AfterLayers([], cs, sigmoid, n) == []
    ensures SignalsUpTo([], cs, sigmoid, clock, n) == []
  {
    if n > 0 {
      EmptyNetworkSilent(cs, sigmoid, clock, n - 1);
    }
  }

  // ---------------------------------------------------------------- signals

  /** p is visited before q: smaller source, or the same source and a smaller target. */
  predicate Before(p: Pair, q: Pair) {
    p.source < q.source || (p.source == q.source && p.target < q.target)
  }

  predicate Ordered(ps: seq<Pair>) {
    forall k1, k2 :: 0 <= k1 < k2 < |ps| ==> Before(ps[k1], ps[k2])
  }

  lemma {:induction false} RowPairsMembers(A: seq<Neuron>, cs: seq<Connection>, layer: nat, s: nat, m: nat, p: Pair)
    ensures p in RowPairs(A, cs, layer, s, m) <==> p.source == s && p.target < m && Feeds(A, cs, layer, s, p.target)
  {
    if m > 0 {
      RowPairsMembers(A, cs, layer, s, m - 1, p);
    }
  }

  lemma {:induction false} RowPairsOrdered(A: seq<Neuron>, cs: seq<Connection>, layer: nat, s: nat, m: nat)
    ensures Ordered(RowPairs(A, cs, layer, s, m))
  {
    if m > 0 {
      RowPairsOrdered(A, cs, layer, s, m - 1);
    }
  }

  /** Exactly the joined pairs of adjacent layers emit a signal. */
  lemma {:induction false} LayerPairsMembers(A: seq<Neuron>, cs: seq<Connection>, layer: nat, n: nat, s: nat, t: nat)
    ensures Pair(s, t) in LayerPairs(A, cs, layer, n) <==> s < n && Feeds(A, cs, layer, s, t)
    decreases n, 1
  {
    if n > 0 {
      LayerPairsMembersNext(A, cs, layer, n, s, t);
    }
  }

  /** The membership of (s, t) carries over from n - 1 sources to n. */
  lemma LayerPairsMembersNext(A: seq<Neuron>, cs: seq<Connection>, layer: nat, n: nat, s: nat, t: nat)
    requires n > 0
    ensures Pair(s, t) in LayerPairs(A, cs, layer, n) <==> s < n && Feeds(A, cs, layer, s, t)
    decreases n, 0
  {
    var p, before, row := Pair(s, t), LayerPairs(A, cs, layer, n - 1), RowPairs(A, cs, layer, n - 1, |A|);
    LayerPairsMembers(A, cs, layer, n - 1, s, t);
    RowPairsMembers(A, cs, layer, n - 1, |A|, p);
    LayerPairsMembersStep(A, cs, layer, n, p, before, row);
    LayerPairsUnfold(A, cs, layer, n);
  }

  /** The first n sources' pairs are the first n - 1 sources' pairs, then source n - 1's row. */
  lemma LayerPairsUnfold(A: seq<Neuron>, cs: seq<Connection>, layer: nat, n: nat)
    requires n > 0
    ensures LayerPairs(A, cs, layer, n) == LayerPairs(A, cs, layer, n - 1) + RowPairs(A, cs, layer, n - 1, |A|)
  {
  }

  /** The pair p is among the pairs of the first n - 1 sources followed by
      those of source n - 1 exactly when its source is below n and feeds its target. */
  lemma LayerPairsMembersStep(A: seq<Neuron>, cs: seq<Connection>, layer: nat, n: nat, p: Pair,
                              before: seq<Pair>, row: seq<Pair>)
    requires n > 0
    requires p in before <==> p.source < n - 1 && Feeds(A, cs, layer, p.source, p.target)
    requires p in row <==> p.source == n - 1 && p.target < |A| && Feeds(A, cs, layer, n - 1, p.target)
    ensures p in before + row <==> p.source < n && Feeds(A, cs, layer, p.source, p.target)
  {
    assert (p in before + row) <==> (p in before || p in row);
  }

  /** Signals come out source by source, target by target, each pair once. */
  lemma {:induction false} LayerPairsOrdered(A: seq<Neuron>, cs: seq<Connection>, layer: nat, n: nat)
    ensures Ordered(LayerPairs(A, cs, layer, n))
  {
    if n > 0 {
      LayerPairsOrdered(A, cs, layer, n - 1);
      RowPairsOrdered(A, cs, layer, n - 1, |A|);
      OrderedAppend(LayerPairs(A, cs, layer, n - 1), RowPairs(A, cs, layer, n - 1, |A|), n - 1);
    }
  }

  /** Appending the pairs of source s to ordered pairs of earlier sources keeps them ordered. */
  lemma OrderedAppend(before: seq<Pair>, row: seq<Pair>, s: nat)
    requires Ordered(before) && Ordered(row)
    requires forall k :: 0 <= k < |before| ==> before[k].source < s
    requires forall k :: 0 <= k < |row| ==> row[k].source == s
    ensures Ordered(before + row)
  {
    var ps := before + row;
    forall k1, k2 | 0 <= k1 < k2 < |ps| ensures Before(ps[k1], ps[k2]) {
      if k2 < |before| {
        assert ps[k1] == before[k1] && ps[k2] == before[k2];
      } else if k1 >= |before| {
        assert ps[k1] == row[k1 - |before|] && ps[k2] == row[k2 - |before|];
      } else {
        assert ps[k1] == before[k1] && ps[k2] == row[k2 - |before|];
      }
    }
  }

  /** The k-th signal of a layer iteration: the k-th pair's first
      connection, progress 0, value `source.value * weight`, and the clock
      reading number base + k in its id. */
  lemma LayerSignalAt(A: seq<Neuron>, cs: seq<Connection>, layer: nat, clock: nat -> nat, base: nat, k: nat)
    requires k < |LayerPairs(A, cs, layer, |A|)|
    ensures var p := LayerPairs(A, cs, layer, |A|)[k];
      var sig := LayerSignals(A, cs, layer, clock, base)[k];
      Feeds(A, cs, layer, p.source, p.target) &&
      var c := LinkOf(A, cs, layer, p.source, p.target);
      Joins(c, A[p.source].id, A[p.target].id) &&
      sig == Signal(SignalId(c.id, clock(base + k)), c.id, 0.0, Weighted(A[p.source].value, c.weight))
  {
    var ps := LayerPairs(A, cs, layer, |A|);
    EmittedAt(A, cs, layer, ps, clock, base, k);
    PairSignalShape(A, cs, layer, ps[k], clock(base + k));
  }

  /** Signal k of the emission of ps is the signal of pair k, stamped with reading base + k. */
  lemma EmittedAt(A: seq<Neuron>, cs: seq<Connection>, layer: nat, ps: seq<Pair>, clock: nat -> nat, base: nat, k: nat)
    requires AllFeed(A, cs, layer, ps) && k < |ps|
    ensures Feeds(A, cs, layer, ps[k].source, ps[k].target)
    ensures Emitted(A, cs, layer, ps, clock, base)[k] == PairSignal(A, cs, layer, ps[k], clock(base + k))
  {
  }

  /** The signal of a feeding pair carries the id of a connection that joins the pair. */
  lemma PairSignalShape(A: seq<Neuron>, cs: seq<Connection>, layer: nat, p: Pair, stamp: nat)
    requires Feeds(A, cs, layer, p.source, p.target)
    ensures var c := LinkOf(A, cs, layer, p.source, p.target);
      Joins(c, A[p.source].id, A[p.target].id) &&
      PairSignal(A, cs, layer, p, stamp) == Signal(SignalId(c.id, stamp), c.id, 0.0, Weighted(A[p.source].value, c.weight))
  {
    FindConnectionSpec(cs, A[p.source].id, A[p.target].id);
  }

  /** Signal values use the sources' final values: a source of layer L is
      final before iteration L runs. */
  lemma SignalUsesFinalSource(neurons: seq<Neuron>, cs: seq<Connection>, values: seq<real>, sigmoid: real -> real,
                              layer: nat, s: nat)
    requires layer < LayerSteps && s < |neurons| && neurons[s].layer == layer
    ensures var A1 := InputsAssigned(neurons, values, |values|);
      AfterLayers(A1, cs, sigmoid, layer)[s] == Propagated(neurons, cs, values, sigmoid)[s]
  {
    var A1 := InputsAssigned(neurons, values, |values|);
    assert A1[s] == neurons[s].(value := A1[s].value);
    AfterLayersStable(A1, cs, sigmoid, layer, LayerSteps, s);
  }

  /** The (source, target) index pairs that iteration `layer` joins: a
      neuron of `layer` and a neuron of `layer + 1` with a connection between them. */
  function JoinedPairs(A: seq<Neuron>, cs: seq<Connection>, layer: nat): set<Pair> {
    set s, t | 0 <= s < |A| && 0 <= t < |A| && Feeds(A, cs, layer, s, t) :: Pair(s, t)
  }

  /** An ordered list of pairs repeats none, so it has as many elements as its set. */
  lemma {:induction false} OrderedCount(ps: seq<Pair>)
    requires Ordered(ps)
    ensures |(set p | p in ps)| == |ps|
  {
    if ps != [] {
      var init, last := ps[..|ps| - 1], ps[|ps| - 1];
      assert Ordered(init) by {
        forall k1, k2 | 0 <= k1 < k2 < |init| ensures Before(init[k1], init[k2]) {
          assert init[k1] == ps[k1] && init[k2] == ps[k2];
        }
      }
      OrderedCount(init);
      assert last !in init by {
        forall k | 0 <= k < |init| ensures init[k] != last {
          assert Before(ps[k], ps[|ps| - 1]);
        }
      }
      assert ps == init + [last];
      assert (set p | p in ps) == (set p | p in init) + {last};
    }
  }

  /** One iteration emits exactly one signal per pair it joins. */
  lemma LayerSignalsCount(A: seq<Neuron>, cs: seq<Connection>, layer: nat, clock: nat -> nat, base: nat)
    ensures |LayerSignals(A, cs, layer, clock, base)| == |JoinedPairs(A, cs, layer)|
  {
    var ps := LayerPairs(A, cs, layer, |A|);
    LayerPairsOrdered(A, cs, layer, |A|);
    OrderedCount(ps);
    forall p ensures p in ps <==> p in JoinedPairs(A, cs, layer) {
      LayerPairsMembers(A, cs, layer, |A|, p.source, p.target);
    }
    assert (set p | p in ps) == JoinedPairs(A, cs, layer);
  }

  /** Later iterations only append: the signals of the first n - 1 iterations keep their places. */
  lemma SignalsUpToPrefix(A: seq<Neuron>, cs: seq<Connection>, sigmoid: real -> real, clock: nat -> nat, n: nat, k: nat)
    requires 0 < n && k < |SignalsUpTo(A, cs, sigmoid, clock, n - 1)|
    ensures k < |SignalsUpTo(A, cs, sigmoid, clock, n)| &&
      SignalsUpTo(A, cs, sigmoid, clock, n)[k] == SignalsUpTo(A, cs, sigmoid, clock, n - 1)[k]
  {
  }

  /** The signals of iteration `layer` follow those of the earlier iterations. */
  lemma SignalsUpToNext(A: seq<Neuron>, cs: seq<Connection>, sigmoid: real -> real, clock: nat -> nat, layer: nat)
    ensures var earlier := SignalsUpTo(A, cs, sigmoid, clock, layer);
      SignalsUpTo(A, cs, sigmoid, clock, layer + 1) ==
        earlier + LayerSignals(AfterLayers(A, cs, sigmoid, layer), cs, layer, clock, |earlier|)
  {
  }
}
