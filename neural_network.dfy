/** The propagation effect of src/components/NeuralNetwork.tsx: when input
    data arrives, a copy of the neuron array gets its input values, then
    every (source, target) pair of adjacent layers that a connection joins
    emits a Signal and overwrites the target's value with the sigmoid of the
    signal. Neurons are values in an array that the method updates in place. */
module NeuralNetwork {
  import opened Text
  import opened NetworkTypes

  /** `for (let layer = 0; layer < 3; layer++)`: layers 0, 1 and 2 act as sources. */
  const LayerSteps: nat := 3

  // ---------------------------------------------------------------- find

  /** The predicate of the input-neuron `find`: layer 0 and id `neuron-0-<i>`. */
  predicate IsInputNeuron(n: Neuron, i: nat) {
    n.layer == 0 && n.id == NeuronId(0, i)
  }

  function FindInputFrom(ns: seq<Neuron>, i: nat, from: nat): (r: Option<nat>)
    requires from <= |ns|
    ensures r.Some? ==> from <= r.value < |ns|
    decreases |ns| - from
  {
    if from == |ns| then None
    else if IsInputNeuron(ns[from], i) then Some(from)
    else FindInputFrom(ns, i, from + 1)
  }

  /** The position of the first input neuron for value i, if any. */
  function FindInput(ns: seq<Neuron>, i: nat): (r: Option<nat>)
    ensures r.Some? ==> r.value < |ns|
  {
    FindInputFrom(ns, i, 0)
  }

  lemma {:induction false} FindInputFromSpec(ns: seq<Neuron>, i: nat, from: nat)
    requires from <= |ns|
    ensures var r := FindInputFrom(ns, i, from);
      (r.Some? ==> (IsInputNeuron(ns[r.value], i) &&
                    forall k :: from <= k < r.value ==> !IsInputNeuron(ns[k], i))) &&
      (r.None? ==> forall k :: from <= k < |ns| ==> !IsInputNeuron(ns[k], i))
    decreases |ns| - from
  {
    if from < |ns| && !IsInputNeuron(ns[from], i) {
      FindInputFromSpec(ns, i, from + 1);
    }
  }

  /** The input `find` returns the first input neuron for value i, or nothing when there is none. */
  lemma FindInputSpec(ns: seq<Neuron>, i: nat)
    ensures var r := FindInput(ns, i);
      (r.Some? ==> (IsInputNeuron(ns[r.value], i) &&
                    forall k :: 0 <= k < r.value ==> !IsInputNeuron(ns[k], i))) &&
      (r.None? ==> forall k :: 0 <= k < |ns| ==> !IsInputNeuron(ns[k], i))
  {
    FindInputFromSpec(ns, i, 0);
  }

  /** The predicate of the connection `find`: from `sourceId` to `targetId`. */
  predicate Joins(c: Connection, sourceId: string, targetId: string) {
    c.sourceId == sourceId && c.targetId == targetId
  }

  function FindConnectionFrom(cs: seq<Connection>, sourceId: string, targetId: string, from: nat): (r: Option<nat>)
    requires from <= |cs|
    ensures r.Some? ==> from <= r.value < |cs|
    decreases |cs| - from
  {
    if from == |cs| then None
    else if Joins(cs[from], sourceId, targetId) then Some(from)
    else FindConnectionFrom(cs, sourceId, targetId, from + 1)
  }

  /** The position of the first connection from `sourceId` to `targetId`, if any. */
  function FindConnection(cs: seq<Connection>, sourceId: string, targetId: string): (r: Option<nat>)
    ensures r.Some? ==> r.value < |cs|
  {
    FindConnectionFrom(cs, sourceId, targetId, 0)
  }

  lemma {:induction false} FindConnectionFromSpec(cs: seq<Connection>, sourceId: string, targetId: string, from: nat)
    requires from <= |cs|
    ensures var r := FindConnectionFrom(cs, sourceId, targetId, from);
      (r.Some? ==> (Joins(cs[r.value], sourceId, targetId) &&
                    forall k :: from <= k < r.value ==> !Joins(cs[k], sourceId, targetId))) &&
      (r.None? ==> forall k :: from <= k < |cs| ==> !Joins(cs[k], sourceId, targetId))
    decreases |cs| - from
  {
    if from < |cs| && !Joins(cs[from], sourceId, targetId) {
      FindConnectionFromSpec(cs, sourceId, targetId, from + 1);
    }
  }

  /** The connection `find` returns the first connection that joins the two ids, or nothing when none does. */
  lemma FindConnectionSpec(cs: seq<Connection>, sourceId: string, targetId: string)
    ensures var r := FindConnection(cs, sourceId, targetId);
      (r.Some? ==> (Joins(cs[r.value], sourceId, targetId) &&
                    forall k :: 0 <= k < r.value ==> !Joins(cs[k], sourceId, targetId))) &&
      (r.None? ==> forall k :: 0 <= k < |cs| ==> !Joins(cs[k], sourceId, targetId))
  {
    FindConnectionFromSpec(cs, sourceId, targetId, 0);
  }

  /** B holds the same neurons as A (ids, positions, layers), values aside. */
  predicate SameShape(A: seq<Neuron>, B: seq<Neuron>) {
    |A| == |B| && forall k :: 0 <= k < |A| ==> B[k] == A[k].(value := B[k].value)
  }
  lemma SameShapeTrans(A: seq<Neuron>, B: seq<Neuron>, C: seq<Neuron>)
    requires SameShape(A, B) && SameShape(B, C)
    ensures SameShape(A, C)
  {
    forall k | 0 <= k < |A| ensures C[k] == A[k].(value := C[k].value) {
      assert B[k] == A[k].(value := B[k].value);
      assert C[k] == B[k].(value := C[k].value);
    }
  }

  /** Arrays of the same shape carry the same set of neuron ids. */
  lemma SameShapeIds(A: seq<Neuron>, B: seq<Neuron>)
    requires SameShape(A, B)
    ensures (set k | 0 <= k < |B| :: B[k].id) == set k | 0 <= k < |A| :: A[k].id
  {
    forall k | 0 <= k < |A| ensures B[k].id == A[k].id {
      assert B[k] == A[k].(value := B[k].value);
    }
  }


  /** The input `find` looks only at ids and layers, so values do not affect it. */
  lemma {:induction false} FindInputFromShape(A: seq<Neuron>, B: seq<Neuron>, i: nat, from: nat)
    requires SameShape(A, B) && from <= |A|
    ensures FindInputFrom(A, i, from) == FindInputFrom(B, i, from)
    decreases |A| - from
  {
    if from < |A| {
      assert B[from] == A[from].(value := B[from].value);
      FindInputFromShape(A, B, i, from + 1);
    }
  }

  // ---------------------------------------------------------------- inputs

  /** The neurons after the first n values of `inputData.values.forEach`:
      value i goes to the neuron the `find` returns and is dropped when there is none. */
  function InputsAssigned(A: seq<Neuron>, values: seq<real>, n: nat): (B: seq<Neuron>)
    requires n <= |values|
    ensures SameShape(A, B)
  {
    if n == 0 then A
    else
      var B := InputsAssigned(A, values, n - 1);
      match FindInput(A, n - 1)
      case None => B
      case Some(k) => B[k := B[k].(value := values[n - 1])]
  }

  method AssignInputs(a: array<Neuron>, values: seq<real>)
    modifies a
    ensures a[..] == InputsAssigned(old(a[..]), values, |values|)
  {
    ghost var A := a[..];
    for i := 0 to |values|
      invariant a[..] == InputsAssigned(A, values, i)
    {
      FindInputFromShape(A, a[..], i, 0);
      var found := FindInput(a[..], i);
      if found.Some? {
        var k := found.value;
        a[k] := a[k].(value := values[i]);
      }
    }
  }

  // ---------------------------------------------------------------- one layer

  /** Source s and target t are in layers `layer` and `layer + 1` and a connection joins them. */
  predicate Feeds(A: seq<Neuron>, cs: seq<Connection>, layer: nat, s: nat, t: nat) {
    s < |A| && t < |A| && A[s].layer == layer && A[t].layer == layer + 1 &&
    FindConnection(cs, A[s].id, A[t].id).Some?
  }

  /** The connection the `find` returns for a feeding pair. */
  function LinkOf(A: seq<Neuron>, cs: seq<Connection>, layer: nat, s: nat, t: nat): Connection
    requires Feeds(A, cs, layer, s, t)
  {
    cs[FindConnection(cs, A[s].id, A[t].id).value]
  }

  /** `source.value * connection.weight`: the value of the signal a feeding pair emits. */
  function RawSignal(A: seq<Neuron>, cs: seq<Connection>, layer: nat, s: nat, t: nat): real
    requires Feeds(A, cs, layer, s, t)
  {
    Weighted(A[s].value, LinkOf(A, cs, layer, s, t).weight)
  }

  /** `source.value * connection.weight`. */
  function Weighted(value: real, weight: real): real {
    value * weight
  }

  /** `sigmoid(x)`, for the activation function passed in. */
  function Activate(sigmoid: real -> real, x: real): real {
    sigmoid(x)
  }

  /** The last source before n that feeds t. */
  function LastSource(A: seq<Neuron>, cs: seq<Connection>, layer: nat, t: nat, n: nat): (r: Option<nat>)
    ensures r.Some? ==> (r.value < n && Feeds(A, cs, layer, r.value, t) &&
      forall s :: r.value < s < n ==> !Feeds(A, cs, layer, s, t))
    ensures r.None? ==> forall s :: 0 <= s < n ==> !Feeds(A, cs, layer, s, t)
  {
    if n == 0 then None
    else if Feeds(A, cs, layer, n - 1, t) then Some(n - 1)
    else LastSource(A, cs, layer, t, n - 1)
  }

  /** Neuron t once the sources before n have been visited: the last feeding
      source wrote `sigmoid(source.value * weight)`, or nothing did. */
  function Visited(A: seq<Neuron>, cs: seq<Connection>, layer: nat, sigmoid: real -> real, n: nat, t: nat): (v: Neuron)
    requires t < |A|
    ensures v == A[t].(value := v.value)
  {
    match LastSource(A, cs, layer, t, n)
    case None => A[t]
    case Some(s) => A[t].(value := Activate(sigmoid, RawSignal(A, cs, layer, s, t)))
  }

  /** Visiting source s changes neuron t only when s feeds t. */
  lemma VisitedStep(A: seq<Neuron>, cs: seq<Connection>, layer: nat, sigmoid: real -> real, s: nat, t: nat)
    requires t < |A|
    ensures Feeds(A, cs, layer, s, t) ==> (Visited(A, cs, layer, sigmoid, s + 1, t) ==
      A[t].(value := Activate(sigmoid, RawSignal(A, cs, layer, s, t))))
    ensures !Feeds(A, cs, layer, s, t) ==> Visited(A, cs, layer, sigmoid, s + 1, t) == Visited(A, cs, layer, sigmoid, s, t)
  {
    if Feeds(A, cs, layer, s, t) {
      assert LastSource(A, cs, layer, t, s + 1) == Some(s);
    } else {
      assert LastSource(A, cs, layer, t, s + 1) == LastSource(A, cs, layer, t, s);
    }
  }

  /** The neurons after the iteration with `layer` as the source layer. */
  function LayerStep(A: seq<Neuron>, cs: seq<Connection>, layer: nat, sigmoid: real -> real): (B: seq<Neuron>)
    ensures SameShape(A, B)
  {
    seq(|A|, t requires 0 <= t < |A| => Visited(A, cs, layer, sigmoid, |A|, t))
  }

  /** A (source, target) pair of neuron positions. */
  datatype Pair = Pair(source: nat, target: nat)

  predicate AllFeed(A: seq<Neuron>, cs: seq<Connection>, layer: nat, ps: seq<Pair>) {
    forall k :: 0 <= k < |ps| ==> Feeds(A, cs, layer, ps[k].source, ps[k].target)
  }

  /** The feeding pairs (s, t) with t < m, by increasing t. */
  function RowPairs(A: seq<Neuron>, cs: seq<Connection>, layer: nat, s: nat, m: nat): (ps: seq<Pair>)
    ensures forall k :: 0 <= k < |ps| ==> ps[k].source == s && ps[k].target < m
    ensures AllFeed(A, cs, layer, ps)
  {
    if m == 0 then []
    else RowPairs(A, cs, layer, s, m - 1) + (if Feeds(A, cs, layer, s, m - 1) then [Pair(s, m - 1)] else [])
  }

  /** The feeding pairs whose source is before n, in the order the nested
      `forEach` visits them: by source, then by target. */
  function LayerPairs(A: seq<Neuron>, cs: seq<Connection>, layer: nat, n: nat): (ps: seq<Pair>)
    ensures forall k :: 0 <= k < |ps| ==> ps[k].source < n
    ensures AllFeed(A, cs, layer, ps)
  {
    if n == 0 then [] else LayerPairs(A, cs, layer, n - 1) + RowPairs(A, cs, layer, n - 1, |A|)
  }

  /** The Signal a feeding pair emits, with the clock reading it is stamped with. */
  function PairSignal(A: seq<Neuron>, cs: seq<Connection>, layer: nat, p: Pair, stamp: nat): Signal
    requires Feeds(A, cs, layer, p.source, p.target)
  {
    var c := LinkOf(A, cs, layer, p.source, p.target);
    Signal(SignalId(c.id, stamp), c.id, 0.0, RawSignal(A, cs, layer, p.source, p.target))
  }

  /** The signals of the pairs ps; the k-th is stamped with the clock's
      reading number base + k of the run. */
  function Emitted(A: seq<Neuron>, cs: seq<Connection>, layer: nat, ps: seq<Pair>, clock: nat -> nat, base: nat): (sigs: seq<Signal>)
    requires AllFeed(A, cs, layer, ps)
    ensures |sigs| == |ps|
  {
    seq(|ps|, k requires 0 <= k < |ps| => PairSignal(A, cs, layer, ps[k], clock(base + k)))
  }

  function LayerSignals(A: seq<Neuron>, cs: seq<Connection>, layer: nat, clock: nat -> nat, base: nat): seq<Signal> {
    Emitted(A, cs, layer, LayerPairs(A, cs, layer, |A|), clock, base)
  }

  lemma EmittedSnoc(A: seq<Neuron>, cs: seq<Connection>, layer: nat, ps: seq<Pair>, p: Pair, clock: nat -> nat, base: nat)
    requires AllFeed(A, cs, layer, ps) && Feeds(A, cs, layer, p.source, p.target)
    ensures AllFeed(A, cs, layer, ps + [p])
    ensures Emitted(A, cs, layer, ps + [p], clock, base) ==
      Emitted(A, cs, layer, ps, clock, base) + [PairSignal(A, cs, layer, p, clock(base + |ps|))]
  {
    var qs := ps + [p];
    assert forall k :: 0 <= k < |ps| ==> qs[k] == ps[k];
    assert qs[|ps|] == p;
  }

  lemma ConcatAssoc<T>(x: seq<T>, y: seq<T>, z: seq<T>)
    ensures x + (y + z) == (x + y) + z
  {
  }

  /** A source outside `layer` feeds nothing. */
  lemma {:induction false} RowPairsOther(A: seq<Neuron>, cs: seq<Connection>, layer: nat, s: nat, m: nat)
    requires s < |A| && A[s].layer != layer
    ensures RowPairs(A, cs, layer, s, m) == []
  {
    if m > 0 {
      RowPairsOther(A, cs, layer, s, m - 1);
    }
  }

  // ---------------------------------------------------------------- the run

  /** The neurons after the first n layer iterations. */
  function AfterLayers(A: seq<Neuron>, cs: seq<Connection>, sigmoid: real -> real, n: nat): (B: seq<Neuron>)
    ensures SameShape(A, B)
  {
    if n == 0 then A else LayerStep(AfterLayers(A, cs, sigmoid, n - 1), cs, n - 1, sigmoid)
  }

  /** The signals of the first n layer iterations, in emission order. */
  function SignalsUpTo(A: seq<Neuron>, cs: seq<Connection>, sigmoid: real -> real, clock: nat -> nat, n: nat): seq<Signal> {
    if n == 0 then []
    else
      var earlier := SignalsUpTo(A, cs, sigmoid, clock, n - 1);
      earlier + LayerSignals(AfterLayers(A, cs, sigmoid, n - 1), cs, n - 1, clock, |earlier|)
  }

  /** The neurons the effect hands to `setNeurons`. */
  function Propagated(neurons: seq<Neuron>, cs: seq<Connection>, values: seq<real>, sigmoid: real -> real): seq<Neuron> {
    AfterLayers(InputsAssigned(neurons, values, |values|), cs, sigmoid, LayerSteps)
  }

  /** The signals the effect hands to `setSignals`. */
  function PropagatedSignals(neurons: seq<Neuron>, cs: seq<Connection>, values: seq<real>,
                             sigmoid: real -> real, clock: nat -> nat): seq<Signal>
  {
    SignalsUpTo(InputsAssigned(neurons, values, |values|), cs, sigmoid, clock, LayerSteps)
  }

  /** The neurons once every source before s has visited every target and
      source s the targets before t. */
  function Sweep(A: seq<Neuron>, cs: seq<Connection>, layer: nat, sigmoid: real -> real, s: nat, t: nat): (B: seq<Neuron>)
    ensures |B| == |A|
  {
    seq(|A|, u requires 0 <= u < |A| =>
      if u < t then Visited(A, cs, layer, sigmoid, s + 1, u) else Visited(A, cs, layer, sigmoid, s, u))
  }

  /** Visiting target t changes position t of the sweep and nothing else. */
  lemma SweepStep(A: seq<Neuron>, cs: seq<Connection>, layer: nat, sigmoid: real -> real, s: nat, t: nat)
    requires t < |A|
    ensures Sweep(A, cs, layer, sigmoid, s, t)[t] == Visited(A, cs, layer, sigmoid, s, t)
    ensures Sweep(A, cs, layer, sigmoid, s, t + 1) ==
      Sweep(A, cs, layer, sigmoid, s, t)[t := Visited(A, cs, layer, sigmoid, s + 1, t)]
  {
  }

  /** Once source s has visited every target, the sweep moves on to source s + 1. */
  lemma SweepRowDone(A: seq<Neuron>, cs: seq<Connection>, layer: nat, sigmoid: real -> real, s: nat)
    ensures Sweep(A, cs, layer, sigmoid, s, |A|) == Sweep(A, cs, layer, sigmoid, s + 1, 0)
  {
  }

  /** A source outside `layer` leaves the sweep as it is. */
  lemma SweepSkip(A: seq<Neuron>, cs: seq<Connection>, layer: nat, sigmoid: real -> real, s: nat)
    requires s < |A| && A[s].layer != layer
    ensures Sweep(A, cs, layer, sigmoid, s + 1, 0) == Sweep(A, cs, layer, sigmoid, s, 0)
  {
    forall t | 0 <= t < |A|
      ensures Visited(A, cs, layer, sigmoid, s + 1, t) == Visited(A, cs, layer, sigmoid, s, t)
    {
      VisitedStep(A, cs, layer, sigmoid, s, t);
    }
  }

  /** The signals emitted once every source before s has visited every
      target and source s the targets before t, in emission order. */
  function SweepSignals(A: seq<Neuron>, cs: seq<Connection>, layer: nat, clock: nat -> nat, base: nat,
                        s: nat, t: nat): seq<Signal>
    decreases s, t
  {
    if t == 0 then (if s == 0 then [] else SweepSignals(A, cs, layer, clock, base, s - 1, |A|))
    else
      var before := SweepSignals(A, cs, layer, clock, base, s, t - 1);
      before + PairEmission(A, cs, layer, s, t - 1, clock(base + |before|))
  }

  /** A source outside `layer` emits nothing. */
  lemma {:induction false} SweepSignalsSkip(A: seq<Neuron>, cs: seq<Connection>, layer: nat, clock: nat -> nat, base: nat,
                                            s: nat, t: nat)
    requires s < |A| && A[s].layer != layer
    ensures SweepSignals(A, cs, layer, clock, base, s, t) == SweepSignals(A, cs, layer, clock, base, s, 0)
  {
    if t > 0 {
      SweepSignalsSkip(A, cs, layer, clock, base, s, t - 1);
    }
  }

  /** A source outside `layer` changes nothing and emits nothing. */
  lemma SweepPass(A: seq<Neuron>, cs: seq<Connection>, layer: nat, sigmoid: real -> real, clock: nat -> nat, base: nat, s: nat)
    requires s < |A| && A[s].layer != layer
    ensures Sweep(A, cs, layer, sigmoid, s + 1, 0) == Sweep(A, cs, layer, sigmoid, s, 0)
    ensures SweepSignals(A, cs, layer, clock, base, s + 1, 0) == SweepSignals(A, cs, layer, clock, base, s, 0)
  {
    SweepSkip(A, cs, layer, sigmoid, s);
    SweepSignalsSkip(A, cs, layer, clock, base, s, |A|);
  }

  /** The feeding pairs visited once every source before s has visited
      every target and source s the targets before t. */
  function SweepPairs(A: seq<Neuron>, cs: seq<Connection>, layer: nat, s: nat, t: nat): (ps: seq<Pair>)
    ensures AllFeed(A, cs, layer, ps)
  {
    AllFeedConcat(A, cs, layer, LayerPairs(A, cs, layer, s), RowPairs(A, cs, layer, s, t));
    LayerPairs(A, cs, layer, s) + RowPairs(A, cs, layer, s, t)
  }

  /** The signals of the sweep are those of the feeding pairs visited so far. */
  lemma {:induction false} SweepSignalsEmitted(A: seq<Neuron>, cs: seq<Connection>, layer: nat, clock: nat -> nat, base: nat,
                                               s: nat, t: nat)
    ensures SweepSignals(A, cs, layer, clock, base, s, t) == Emitted(A, cs, layer, SweepPairs(A, cs, layer, s, t), clock, base)
    decreases s, t
  {
    if t == 0 {
      if s > 0 {
        SweepSignalsEmitted(A, cs, layer, clock, base, s - 1, |A|);
        SweepSignalsRowStart(A, cs, layer, clock, base, s);
      } else {
        SweepSignalsStart(A, cs, layer, clock, base);
      }
    } else {
      SweepSignalsEmitted(A, cs, layer, clock, base, s, t - 1);
      SweepSignalsNext(A, cs, layer, clock, base, s, t);
    }
  }

  /** Before the first source nothing is emitted. */
  lemma SweepSignalsStart(A: seq<Neuron>, cs: seq<Connection>, layer: nat, clock: nat -> nat, base: nat)
    ensures SweepSignals(A, cs, layer, clock, base, 0, 0) == Emitted(A, cs, layer, SweepPairs(A, cs, layer, 0, 0), clock, base)
  {
    assert SweepPairs(A, cs, layer, 0, 0) == [];
  }

  /** A new source starts where the previous one finished. */
  lemma SweepSignalsRowStart(A: seq<Neuron>, cs: seq<Connection>, layer: nat, clock: nat -> nat, base: nat, s: nat)
    requires s > 0
    requires SweepSignals(A, cs, layer, clock, base, s - 1, |A|) ==
      Emitted(A, cs, layer, SweepPairs(A, cs, layer, s - 1, |A|), clock, base)
    ensures SweepSignals(A, cs, layer, clock, base, s, 0) == Emitted(A, cs, layer, SweepPairs(A, cs, layer, s, 0), clock, base)
  {
    assert SweepPairs(A, cs, layer, s, 0) == SweepPairs(A, cs, layer, s - 1, |A|);
  }

  /** Visiting target t - 1 appends that pair's emission. */
  lemma SweepSignalsNext(A: seq<Neuron>, cs: seq<Connection>, layer: nat, clock: nat -> nat, base: nat, s: nat, t: nat)
    requires t > 0
    requires SweepSignals(A, cs, layer, clock, base, s, t - 1) ==
      Emitted(A, cs, layer, SweepPairs(A, cs, layer, s, t - 1), clock, base)
    ensures SweepSignals(A, cs, layer, clock, base, s, t) == Emitted(A, cs, layer, SweepPairs(A, cs, layer, s, t), clock, base)
  {
    EmittedStep(A, cs, layer, clock, base, s, t);
    var ps := SweepPairs(A, cs, layer, s, t - 1);
    SweepSignalsUnfold(A, cs, layer, clock, base, s, t, |ps|,
      Emitted(A, cs, layer, ps, clock, base), Emitted(A, cs, layer, SweepPairs(A, cs, layer, s, t), clock, base));
  }

  /** Unfolding the sweep's signals once: if the signals before target t - 1
      are `before`, n of them, and `after` extends `before` with the emission of
      the pair (s, t - 1) stamped with reading n, then `after` are the signals
      up to target t. */
  lemma SweepSignalsUnfold(A: seq<Neuron>, cs: seq<Connection>, layer: nat, clock: nat -> nat, base: nat, s: nat, t: nat,
                           n: nat, before: seq<Signal>, after: seq<Signal>)
    requires t > 0 && SweepSignals(A, cs, layer, clock, base, s, t - 1) == before && n == |before|
    requires after == before + PairEmission(A, cs, layer, s, t - 1, clock(base + n))
    ensures SweepSignals(A, cs, layer, clock, base, s, t) == after
  {
  }

  /** The same step read forwards: `emitted0` are the signals up to target t
      and `emitted` extends them with the emission of the pair (s, t). */
  lemma SweepSignalsNextTarget(A: seq<Neuron>, cs: seq<Connection>, layer: nat, clock: nat -> nat, base: nat,
                               s: nat, t: nat, emitted0: seq<Signal>, emitted: seq<Signal>)
    requires emitted0 == SweepSignals(A, cs, layer, clock, base, s, t)
    requires emitted == emitted0 + PairEmission(A, cs, layer, s, t, clock(base + |emitted0|))
    ensures emitted == SweepSignals(A, cs, layer, clock, base, s, t + 1)
  {
    SweepSignalsUnfold(A, cs, layer, clock, base, s, t + 1, |emitted0|, emitted0, emitted);
  }

  /** One iteration of the layer loop: every source of `layer`, in array
      order, visits every target of `layer + 1`. Walking the array and
      skipping the other layers visits the same neurons in the same order as
      `forEach` over `filter`, since no layer field changes. */
  method PropagateLayer(a: array<Neuron>, cs: seq<Connection>, layer: nat, sigmoid: real -> real,
                        clock: nat -> nat, base: nat)
    returns (emitted: seq<Signal>)
    modifies a
    ensures a[..] == LayerStep(old(a[..]), cs, layer, sigmoid)
    ensures emitted == LayerSignals(old(a[..]), cs, layer, clock, base)
  {
    ghost var A := a[..];
    emitted := [];
    assert a[..] == Sweep(A, cs, layer, sigmoid, 0, 0);
    for s := 0 to a.Length
      invariant a[..] == Sweep(A, cs, layer, sigmoid, s, 0)
      invariant emitted == SweepSignals(A, cs, layer, clock, base, s, 0)
    {
      SweepLayer(A, cs, layer, sigmoid, s, a[..]);
      if a[s].layer == layer {
        emitted := VisitSource(a, cs, layer, sigmoid, clock, base, A, s, emitted);
      } else {
        SweepPass(A, cs, layer, sigmoid, clock, base, s);
      }
    }
    SweepDone(A, cs, layer, sigmoid, clock, base);
  }

  /** The sweep leaves every neuron's layer as it is. */
  lemma SweepLayer(A: seq<Neuron>, cs: seq<Connection>, layer: nat, sigmoid: real -> real, s: nat, B: seq<Neuron>)
    requires s < |A| && B == Sweep(A, cs, layer, sigmoid, s, 0)
    ensures s < |B| && B[s].layer == A[s].layer
  {
    assert B[s] == Visited(A, cs, layer, sigmoid, s, s);
  }

  /** Once every source has visited every target, the sweep is the layer's
      step and its signals are those of the layer's feeding pairs. */
  lemma SweepDone(A: seq<Neuron>, cs: seq<Connection>, layer: nat, sigmoid: real -> real,
                  clock: nat -> nat, base: nat)
    ensures Sweep(A, cs, layer, sigmoid, |A|, 0) == LayerStep(A, cs, layer, sigmoid)
    ensures SweepSignals(A, cs, layer, clock, base, |A|, 0) == LayerSignals(A, cs, layer, clock, base)
  {
    SweepSignalsEmitted(A, cs, layer, clock, base, |A|, 0);
    assert SweepPairs(A, cs, layer, |A|, 0) == LayerPairs(A, cs, layer, |A|);
  }

  /** The inner `forEach`: source s visits every target of `layer + 1`. */
  method VisitSource(a: array<Neuron>, cs: seq<Connection>, layer: nat, sigmoid: real -> real,
                     clock: nat -> nat, base: nat, ghost A: seq<Neuron>, s: nat, emitted0: seq<Signal>)
    returns (emitted: seq<Signal>)
    requires s < |A| && A[s].layer == layer
    requires a[..] == Sweep(A, cs, layer, sigmoid, s, 0)
    requires emitted0 == SweepSignals(A, cs, layer, clock, base, s, 0)
    modifies a
    ensures a[..] == Sweep(A, cs, layer, sigmoid, s + 1, 0)
    ensures emitted == SweepSignals(A, cs, layer, clock, base, s + 1, 0)
  {
    emitted := emitted0;
    var source := a[s];
    assert source == A[s] by {
      assert a[s] == Sweep(A, cs, layer, sigmoid, s, 0)[s];
    }
    for t := 0 to a.Length
      invariant a[..] == Sweep(A, cs, layer, sigmoid, s, t)
      invariant emitted == SweepSignals(A, cs, layer, clock, base, s, t)
    {
      ghost var before := emitted;
      emitted := VisitPair(a, cs, layer, sigmoid, clock, base, A, s, t, source, emitted);
      SweepSignalsNextTarget(A, cs, layer, clock, base, s, t, before, emitted);
    }
    SweepRowDone(A, cs, layer, sigmoid, s);
  }

  /** The signal the pair (s, t) emits, stamped `stamp`, if s feeds t. */
  function PairEmission(A: seq<Neuron>, cs: seq<Connection>, layer: nat, s: nat, t: nat, stamp: nat): seq<Signal> {
    if Feeds(A, cs, layer, s, t) then [PairSignal(A, cs, layer, Pair(s, t), stamp)] else []
  }

  /** The body of the inner `forEach`: when a connection joins source s to
      target t, emit its signal and overwrite the target's value. */
  method VisitPair(a: array<Neuron>, cs: seq<Connection>, layer: nat, sigmoid: real -> real,
                   clock: nat -> nat, base: nat, ghost A: seq<Neuron>, s: nat, t: nat,
                   source: Neuron, emitted0: seq<Signal>)
    returns (emitted: seq<Signal>)
    requires s < |A| && t < |A| && A[s].layer == layer && source == A[s]
    requires a[..] == Sweep(A, cs, layer, sigmoid, s, t)
    modifies a
    ensures a[..] == Sweep(A, cs, layer, sigmoid, s, t + 1)
    ensures emitted == emitted0 + PairEmission(A, cs, layer, s, t, clock(base + |emitted0|))
  {
    emitted := emitted0;
    VisitedStep(A, cs, layer, sigmoid, s, t);
    SweepStep(A, cs, layer, sigmoid, s, t);
    var target := a[t];
    assert target == Visited(A, cs, layer, sigmoid, s, t);
    if target.layer == layer + 1 {
      var found := FindConnection(cs, source.id, target.id);
      if found.Some? {
        var connection := cs[found.value];
        var signal := Signal(SignalId(connection.id, clock(base + |emitted|)), connection.id, 0.0,
                             Weighted(source.value, connection.weight));
        assert signal == PairSignal(A, cs, layer, Pair(s, t), clock(base + |emitted0|));
        emitted := emitted + [signal];
        a[t] := target.(value := Activate(sigmoid, signal.value));
        return;
      }
    }
    assert a[..] == a[..][t := target];
  }

  /** Visiting the pair (s, t - 1) appends its emission to the signals emitted so far. */
  lemma EmittedStep(A: seq<Neuron>, cs: seq<Connection>, layer: nat, clock: nat -> nat, base: nat, s: nat, t: nat)
    requires t > 0
    ensures var ps := SweepPairs(A, cs, layer, s, t - 1);
      Emitted(A, cs, layer, SweepPairs(A, cs, layer, s, t), clock, base) ==
        Emitted(A, cs, layer, ps, clock, base) + PairEmission(A, cs, layer, s, t - 1, clock(base + |ps|))
  {
    if Feeds(A, cs, layer, s, t - 1) {
      PairsFeedStep(A, cs, layer, clock, base, LayerPairs(A, cs, layer, s), s, t);
    } else {
      assert SweepPairs(A, cs, layer, s, t) == SweepPairs(A, cs, layer, s, t - 1);
    }
  }

  /** Visiting a pair where s feeds t - 1 adds the pair's signal. */
  lemma PairsFeedStep(A: seq<Neuron>, cs: seq<Connection>, layer: nat, clock: nat -> nat, base: nat,
                      before: seq<Pair>, s: nat, t: nat)
    requires t > 0
    requires AllFeed(A, cs, layer, before) && Feeds(A, cs, layer, s, t - 1)
    ensures var ps := before + RowPairs(A, cs, layer, s, t - 1);
      var next := before + RowPairs(A, cs, layer, s, t);
      AllFeed(A, cs, layer, ps) && AllFeed(A, cs, layer, next) &&
      Emitted(A, cs, layer, next, clock, base) ==
        Emitted(A, cs, layer, ps, clock, base) + [PairSignal(A, cs, layer, Pair(s, t - 1), clock(base + |ps|))]
  {
    var row := RowPairs(A, cs, layer, s, t - 1);
    AllFeedConcat(A, cs, layer, before, row);
    var ps := before + row;
    assert RowPairs(A, cs, layer, s, t) == row + [Pair(s, t - 1)];
    ConcatAssoc(before, row, [Pair(s, t - 1)]);
    EmittedSnoc(A, cs, layer, ps, Pair(s, t - 1), clock, base);
  }

  lemma AllFeedConcat(A: seq<Neuron>, cs: seq<Connection>, layer: nat, x: seq<Pair>, y: seq<Pair>)
    requires AllFeed(A, cs, layer, x) && AllFeed(A, cs, layer, y)
    ensures AllFeed(A, cs, layer, x + y)
  {
    forall k | 0 <= k < |x + y| ensures Feeds(A, cs, layer, (x + y)[k].source, (x + y)[k].target) {
      if k < |x| { assert (x + y)[k] == x[k]; } else { assert (x + y)[k] == y[k - |x|]; }
    }
  }

  /** The layer loop. */
  method PropagateLayers(a: array<Neuron>, cs: seq<Connection>, sigmoid: real -> real, clock: nat -> nat)
    returns (signals: seq<Signal>)
    modifies a
    ensures a[..] == AfterLayers(old(a[..]), cs, sigmoid, LayerSteps)
    ensures signals == SignalsUpTo(old(a[..]), cs, sigmoid, clock, LayerSteps)
  {
    ghost var A := a[..];
    signals := [];
    for layer := 0 to LayerSteps
      invariant a[..] == AfterLayers(A, cs, sigmoid, layer)
      invariant signals == SignalsUpTo(A, cs, sigmoid, clock, layer)
    {
      var emitted := PropagateLayer(a, cs, layer, sigmoid, clock, |signals|);
      signals := signals + emitted;
    }
  }

  /** What the effect hands to `setNeurons`, `setSignals` and `setActiveNeurons`. */
  datatype Update = Update(neurons: seq<Neuron>, signals: seq<Signal>, activeNeurons: set<string>)

  /** The effect on `[inputData]`: nothing happens without input data;
      otherwise the copied neurons get their inputs, the three layer
      iterations run, and every neuron id is marked active. `sigmoid` stands
      for the activation function and `clock(k)` for the k-th `Date.now()` of the run. */
  method RunPropagation(neurons: seq<Neuron>, connections: seq<Connection>, inputData: Option<InputData>,
                        sigmoid: real -> real, clock: nat -> nat)
    returns (update: Option<Update>)
    ensures inputData.None? <==> update.None?
    ensures inputData.Some? ==>
      var values := inputData.value.values;
      update.value.neurons == Propagated(neurons, connections, values, sigmoid) &&
      update.value.signals == PropagatedSignals(neurons, connections, values, sigmoid, clock)
    ensures inputData.Some? ==> update.value.activeNeurons == set k | 0 <= k < |neurons| :: neurons[k].id
  {
    if inputData.None? {
      return None;
    }
    var values := inputData.value.values;
    var newNeurons := new Neuron[|neurons|](k requires 0 <= k < |neurons| => neurons[k]);
    assert newNeurons[..] == neurons;
    AssignInputs(newNeurons, values);
    var signals := PropagateLayers(newNeurons, connections, sigmoid, clock);
    var final := newNeurons[..];
    var active := set k | 0 <= k < |final| :: final[k].id;
    SameShapeTrans(neurons, InputsAssigned(neurons, values, |values|), final);
    SameShapeIds(neurons, final);
    update := Some(Update(final, signals, active));
  }
}
