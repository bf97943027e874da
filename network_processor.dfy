/** processLayer (src/utils/networkProcessor.ts): the weighted sum of the
    inputs, computed by a left fold that starts at 0. */
module NetworkProcessor {
  import opened NetworkTypes

  /** `inputValues.reduce((sum, value, index) => sum + value * weights[index], 0)`.
      A missing weight reads as `undefined` in JavaScript and turns the sum
      into NaN for good; `None` stands for that NaN. */
  function ProcessLayer(inputs: seq<real>, weights: seq<real>): (r: Option<real>)
    ensures r.None? <==> |weights| < |inputs|
    decreases |inputs|
  {
    if |inputs| == 0 then Some(0.0)
    else
      var last := |inputs| - 1;
      var sum := ProcessLayer(inputs[..last], weights);
      if sum.Some? && last < |weights| then Some(Accumulate(sum.value, inputs[last], weights[last])) else None
  }

  /** One step of the fold: `sum + value * weights[index]`. */
  function Accumulate(sum: real, value: real, weight: real): real {
    sum + value * weight
  }

  /** The dot product, summed from the front: an independent definition of
      what the fold computes. */
  function Dot(inputs: seq<real>, weights: seq<real>): real
    requires |inputs| <= |weights|
  {
    if |inputs| == 0 then 0.0 else inputs[0] * weights[0] + Dot(inputs[1..], weights[1..])
  }

  lemma {:induction false} DotSnoc(inputs: seq<real>, weights: seq<real>)
    requires 0 < |inputs| <= |weights|
    ensures var last := |inputs| - 1;
      Dot(inputs, weights) == Dot(inputs[..last], weights) + inputs[last] * weights[last]
    decreases |inputs|
  {
    var last := |inputs| - 1;
    if last > 0 {
      DotSnoc(inputs[1..], weights[1..]);
      assert inputs[1..][..last - 1] == inputs[..last][1..];
    }
  }

  /** The empty input gives 0, because the fold starts at 0. */
  lemma ProcessLayerEmpty(weights: seq<real>)
    ensures ProcessLayer([], weights) == Some(0.0)
  {
  }

  /** With a weight for every input, the fold is the dot product Σ inputs[i] * weights[i]. */
  lemma {:induction false} ProcessLayerIsDot(inputs: seq<real>, weights: seq<real>)
    requires |inputs| <= |weights|
    ensures ProcessLayer(inputs, weights) == Some(Dot(inputs, weights))
    decreases |inputs|
  {
    if |inputs| > 0 {
      var last := |inputs| - 1;
      ProcessLayerIsDot(inputs[..last], weights);
      DotSnoc(inputs, weights);
    }
  }

  /** One fold step: appending an input adds its product with the weight at its index. */
  lemma ProcessLayerStep(inputs: seq<real>, x: real, weights: seq<real>)
    requires |inputs| < |weights|
    ensures ProcessLayer(inputs + [x], weights) ==
      Some(Accumulate(ProcessLayer(inputs, weights).value, x, weights[|inputs|]))
  {
    var s := inputs + [x];
    assert s[..|s| - 1] == inputs;
  }

  /** Weights past the last input do not affect the result. */
  lemma {:induction false} ProcessLayerIgnoresExtraWeights(inputs: seq<real>, weights: seq<real>, other: seq<real>)
    requires |inputs| <= |weights| && |inputs| <= |other|
    requires weights[..|inputs|] == other[..|inputs|]
    ensures ProcessLayer(inputs, weights) == ProcessLayer(inputs, other)
    decreases |inputs|
  {
    if |inputs| > 0 {
      var last := |inputs| - 1;
      assert weights[..last] == other[..last] by {
        assert weights[..last] == weights[..|inputs|][..last];
        assert other[..last] == other[..|inputs|][..last];
      }
      ProcessLayerIgnoresExtraWeights(inputs[..last], weights, other);
      assert weights[last] == other[last] by {
        assert weights[last] == weights[..|inputs|][last];
        assert other[last] == other[..|inputs|][last];
      }
      var prev := ProcessLayer(inputs[..last], weights);
      assert prev == ProcessLayer(inputs[..last], other);
    }
  }

  /** All-zero inputs give 0 whatever the weights, as long as there is one per input. */
  lemma {:induction false} ProcessLayerZeroInputs(inputs: seq<real>, weights: seq<real>)
    requires |inputs| <= |weights|
    requires forall i :: 0 <= i < |inputs| ==> inputs[i] == 0.0
    ensures ProcessLayer(inputs, weights) == Some(0.0)
    decreases |inputs|
  {
    if |inputs| > 0 {
      ProcessLayerZeroInputs(inputs[..|inputs| - 1], weights);
    }
  }
}
