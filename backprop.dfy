/** Backpropagation as a specification: the error signal of every neuron for one
    forward trace and target vector, and the cost it reduces. */
module Backprop {
  import opened Vectors
  import opened Activation
  import opened Parameters

  /** The errors of layer `i` of the forward trace `fr` (layer 0 is the first
      non-input layer). The output layer compares with `expected`; a hidden layer
      takes the next layer's errors through the weights leaving each neuron. */
  function LayerErrors(sizes: seq<nat>, st: NetworkState, fr: seq<seq<real>>, expected: seq<real>, i: nat): (e: seq<real>)
    requires Shaped(sizes, st) && TraceShaped(sizes, fr)
    requires i < |fr| && |fr[|fr| - 1]| <= |expected|
    ensures |e| == |fr[i]|
    decreases |fr| - i
  {
    if i == |fr| - 1 then
      seq(|fr[i]|, j requires 0 <= j < |fr[i]| => OutputNeuronError(fr[i][j], expected[j]))
    else
      var next := LayerErrors(sizes, st, fr, expected, i + 1);
      seq(|fr[i]|, j requires 0 <= j < |fr[i]| => HiddenNeuronError(fr[i][j], Column(st.weights[i + 1], j), next))
  }

  /** The error vectors of every layer, in the order of the forward trace. */
  function Errors(sizes: seq<nat>, st: NetworkState, fr: seq<seq<real>>, expected: seq<real>): (e: seq<seq<real>>)
    requires Shaped(sizes, st) && TraceShaped(sizes, fr)
    requires |fr| == 0 || |fr[|fr| - 1]| <= |expected|
    ensures TraceShaped(sizes, e)
  {
    seq(|fr|, i requires 0 <= i < |fr| => LayerErrors(sizes, st, fr, expected, i))
  }

  /** Output-layer error j is `(expected[j] - o) * o * (1 - o)` for that neuron's output o. */
  lemma OutputLayerErrors(sizes: seq<nat>, st: NetworkState, fr: seq<seq<real>>, expected: seq<real>)
    requires Shaped(sizes, st) && TraceShaped(sizes, fr)
    requires |fr| > 0 && |fr[|fr| - 1]| <= |expected|
    ensures forall j :: 0 <= j < |fr[|fr| - 1]| ==>
      Errors(sizes, st, fr, expected)[|fr| - 1][j]
        == (expected[j] - fr[|fr| - 1][j]) * (fr[|fr| - 1][j] * (1.0 - fr[|fr| - 1][j]))
  {
  }

  /** Hidden error j of layer i is the sum over the next layer's neurons k of
      `weights[i+1][k][j] * errors[i+1][k]`, times `o * (1 - o)`. */
  lemma HiddenLayerErrors(sizes: seq<nat>, st: NetworkState, fr: seq<seq<real>>, expected: seq<real>, i: nat)
    requires Shaped(sizes, st) && TraceShaped(sizes, fr)
    requires i + 1 < |fr| && |fr[|fr| - 1]| <= |expected|
    ensures forall j :: 0 <= j < |fr[i]| ==>
      Errors(sizes, st, fr, expected)[i][j]
        == Dot(Errors(sizes, st, fr, expected)[i + 1], Column(st.weights[i + 1], j)) * (fr[i][j] * (1.0 - fr[i][j]))
  {
  }

  /** A sum of products with an all-zero left operand is zero. */
  lemma {:induction false} DotOfZeros(xs: seq<real>, ys: seq<real>)
    requires |xs| <= |ys|
    requires forall k :: 0 <= k < |xs| ==> xs[k] == 0.0
    ensures Dot(xs, ys) == 0.0
  {
    if |xs| > 0 {
      DotOfZeros(xs[..|xs| - 1], ys);
    }
  }

  /** When the output layer already equals the target, every neuron of every
      layer has error zero, so the example contributes nothing to the gradient. */
  lemma {:induction false} ErrorsVanishAtTarget(sizes: seq<nat>, st: NetworkState, fr: seq<seq<real>>, expected: seq<real>, i: nat)
    requires Shaped(sizes, st) && TraceShaped(sizes, fr)
    requires i < |fr| && |fr[|fr| - 1]| <= |expected|
    requires forall j :: 0 <= j < |fr[|fr| - 1]| ==> fr[|fr| - 1][j] == expected[j]
    ensures forall j :: 0 <= j < |fr[i]| ==> LayerErrors(sizes, st, fr, expected, i)[j] == 0.0
    decreases |fr| - i
  {
    if i < |fr| - 1 {
      var next := LayerErrors(sizes, st, fr, expected, i + 1);
      ErrorsVanishAtTarget(sizes, st, fr, expected, i + 1);
      forall j | 0 <= j < |fr[i]|
        ensures LayerErrors(sizes, st, fr, expected, i)[j] == 0.0
      {
        DotOfZeros(next, Column(st.weights[i + 1], j));
      }
    }
  }

  /** One entry of the cost: half the square of the difference `d` between target and output. */
  function HalfSquare(d: real): (h: real)
    ensures h >= 0.0
  {
    (d * d) / 2.0
  }

  /** `calculateCost`: the halved squared differences of output and target, summed. */
  function CalculateCost(result: seq<real>, expected: seq<real>): (c: real)
    requires |result| == |expected|
    ensures c >= 0.0
  {
    if |result| == 0 then 0.0
    else
      var n := |result| - 1;
      CalculateCost(result[..n], expected[..n]) + HalfSquare(expected[n] - result[n])
  }

  /** A product of two positive numbers is positive. */
  lemma ProductPositive(a: real, b: real, p: real)
    requires a > 0.0 && b > 0.0 && p == a * b
    ensures p > 0.0
  {
  }

  /** One entry of the cost is zero for a zero difference and positive otherwise. */
  lemma HalfSquareSign(d: real)
    ensures d == 0.0 ==> HalfSquare(d) == 0.0
    ensures d != 0.0 ==> HalfSquare(d) > 0.0
  {
    var p := 2.0 * HalfSquare(d);
    if d > 0.0 {
      ProductPositive(d, d, p);
    } else if d < 0.0 {
      assert p == (-d) * (-d);
      ProductPositive(-d, -d, p);
    }
  }

  /** The cost is never negative, and it is zero exactly when the output equals the target. */
  lemma {:induction false} CostZeroExactlyAtTarget(result: seq<real>, expected: seq<real>)
    requires |result| == |expected|
    ensures CalculateCost(result, expected) >= 0.0
    ensures CalculateCost(result, expected) == 0.0 <==> result == expected
  {
    if |result| > 0 {
      var n := |result| - 1;
      CostZeroExactlyAtTarget(result[..n], expected[..n]);
      HalfSquareSign(expected[n] - result[n]);
      assert result == result[..n] + [result[n]];
      assert expected == expected[..n] + [expected[n]];
      if result[..n] != expected[..n] {
        assert result != expected;
      } else if result[n] != expected[n] {
        assert result != expected;
      }
    }
  }
}
