/** The records of src/types/neural-network.ts and the identifier formats
    the generator and the propagation build from them. */
module NetworkTypes {
  import opened Text

  datatype Option<T> = None | Some(value: T)

  /** A neuron: its identifier, layout position, layer (0 = input) and current value. */
  datatype Neuron = Neuron(id: string, x: real, y: real, layer: int, value: real)

  /** A weighted connection between two neurons, by their identifiers. */
  datatype Connection = Connection(id: string, sourceId: string, targetId: string, weight: real)

  /** A transient record of one connection's contribution during one propagation run. */
  datatype Signal = Signal(id: string, connectionId: string, progress: real, value: real)

  /** An input vector with its label (`label` is a Dafny keyword, hence `labelText`); the label is only displayed. */
  datatype InputData = InputData(values: seq<real>, labelText: string)

  /** `neuron-${layer}-${i}`: the prefix, then at least one digit for each number and the dash between them. */
  function NeuronId(layer: nat, i: nat): (r: string)
    ensures 10 <= |r| && r[..7] == "neuron-"
  {
    "neuron-" + NatToString(layer) + "-" + NatToString(i)
  }

  /** `connection-${sourceId}-${targetId}`: the prefix, then both ids in full with one dash between them. */
  function ConnectionId(sourceId: string, targetId: string): (r: string)
    ensures |r| == 12 + |sourceId| + |targetId| && r[..11] == "connection-"
  {
    "connection-" + sourceId + "-" + targetId
  }

  /** `signal-${connectionId}-${now}`: the prefix, the connection id in full, a dash and at least one digit. */
  function SignalId(connectionId: string, now: nat): (r: string)
    ensures 9 + |connectionId| <= |r| && r[..7] == "signal-"
  {
    "signal-" + connectionId + "-" + NatToString(now)
  }

  /** A neuron identifier followed by '-' and anything else splits uniquely. */
  lemma NeuronIdSplit(l1: nat, i1: nat, r1: string, l2: nat, i2: nat, r2: string)
    requires NeuronId(l1, i1) + "-" + r1 == NeuronId(l2, i2) + "-" + r2
    ensures l1 == l2 && i1 == i2 && r1 == r2
  {
    var a1, b1 := NatToString(l1), NatToString(i1);
    var a2, b2 := NatToString(l2), NatToString(i2);
    assert NeuronId(l1, i1) + "-" + r1 == "neuron-" + (a1 + "-" + (b1 + "-" + r1));
    assert NeuronId(l2, i2) + "-" + r2 == "neuron-" + (a2 + "-" + (b2 + "-" + r2));
    PrefixCancel("neuron-", a1 + "-" + (b1 + "-" + r1), a2 + "-" + (b2 + "-" + r2));
    SplitAtDash(a1, b1 + "-" + r1, a2, b2 + "-" + r2);
    SplitAtDash(b1, r1, b2, r2);
    NatToStringInjective(l1, l2);
    NatToStringInjective(i1, i2);
  }

  /** Distinct (layer, index) pairs have distinct neuron identifiers. */
  lemma NeuronIdInjective(l1: nat, i1: nat, l2: nat, i2: nat)
    requires NeuronId(l1, i1) == NeuronId(l2, i2)
    ensures l1 == l2 && i1 == i2
  {
    var a1, b1 := NatToString(l1), NatToString(i1);
    var a2, b2 := NatToString(l2), NatToString(i2);
    assert NeuronId(l1, i1) == "neuron-" + (a1 + "-" + b1);
    assert NeuronId(l2, i2) == "neuron-" + (a2 + "-" + b2);
    PrefixCancel("neuron-", a1 + "-" + b1, a2 + "-" + b2);
    SplitAtDash(a1, b1, a2, b2);
    NatToStringInjective(l1, l2);
    NatToStringInjective(i1, i2);
  }

  /** A connection id is the prefix followed by the two neuron ids joined by a dash. */
  lemma ConnectionIdLayout(s: string, t: string)
    ensures ConnectionId(s, t) == "connection-" + (s + "-" + t)
  {
  }

  /** A connection identifier between two neuron identifiers determines both endpoints. */
  lemma ConnectionIdInjective(l1: nat, i1: nat, m1: nat, j1: nat, l2: nat, i2: nat, m2: nat, j2: nat)
    requires ConnectionId(NeuronId(l1, i1), NeuronId(m1, j1)) == ConnectionId(NeuronId(l2, i2), NeuronId(m2, j2))
    ensures l1 == l2 && i1 == i2 && m1 == m2 && j1 == j2
  {
    var s1, t1 := NeuronId(l1, i1), NeuronId(m1, j1);
    var s2, t2 := NeuronId(l2, i2), NeuronId(m2, j2);
    ConnectionIdLayout(s1, t1);
    ConnectionIdLayout(s2, t2);
    PrefixCancel("connection-", s1 + "-" + t1, s2 + "-" + t2);
    NeuronIdSplit(l1, i1, t1, l2, i2, t2);
    NeuronIdInjective(m1, j1, m2, j2);
  }
}
