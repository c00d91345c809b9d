/** The sigmoid activation and the error terms built from its derivative. */
module Activation {
  import opened Vectors

  /** What the model needs of the sigmoid `1 / (1 + exp(-x))`: every value lies
      strictly between 0 and 1. */
  ghost predicate Squashing(f: real -> real)
  {
    forall x :: 0.0 < f(x) < 1.0
  }

  /** Derivative of the sigmoid, expressed through the neuron's OUTPUT `x`
      (not its weighted input). It is at most 1/4, reached at x = 1/2; it is
      positive on the open unit interval, zero at its ends and negative outside. */
  function SigmoidDerivative(x: real): (d: real)
    ensures d <= 0.25
    ensures x == 0.5 ==> d == 0.25
    ensures x == 0.0 || x == 1.0 ==> d == 0.0
    ensures 0.0 < x < 1.0 ==> d > 0.0
    ensures x < 0.0 || x > 1.0 ==> d < 0.0
  {
    ParabolaShape(x);
    x * (1.0 - x)
  }

  /** Sign analysis of the parabola `x * (1 - x)` behind SigmoidDerivative's contract. */
  lemma ParabolaShape(x: real)
    ensures x * (1.0 - x) <= 0.25
    ensures 0.0 < x < 1.0 ==> x * (1.0 - x) > 0.0
    ensures x < 0.0 || x > 1.0 ==> x * (1.0 - x) < 0.0
  {
    var y := x - 0.5;
    assert x * (1.0 - x) == 0.25 - y * y;
    if y >= 0.0 {
      assert y * y >= 0.0;
    } else {
      var z := -y;
      assert z * z > 0.0;
      assert z * z == y * y;
    }
    var u := 1.0 - x;
    if 0.0 < x < 1.0 {
      assert x * u > 0.0;
    }
    if x < 0.0 {
      assert (-x) * u > 0.0;
      assert x * u == -((-x) * u);
    }
    if x > 1.0 {
      assert x * (-u) > 0.0;
      assert x * u == -(x * (-u));
    }
  }

  /** Error of an output neuron whose value is `output` and whose target is `expected`. */
  function OutputNeuronError(output: real, expected: real): (e: real)
    ensures e == 0.0 <==> expected == output || output == 0.0 || output == 1.0
  {
    (expected - output) * SigmoidDerivative(output)
  }

  /** Error of a hidden neuron: the next layer's errors weighted by the weights
      leaving this neuron, times the derivative at this neuron's output. */
  function HiddenNeuronError(output: real, nextLayerWeights: seq<real>, nextLayerErrors: seq<real>): (e: real)
    requires |nextLayerErrors| <= |nextLayerWeights|
    ensures e == 0.0 <==> Dot(nextLayerErrors, nextLayerWeights) == 0.0 || output == 0.0 || output == 1.0
  {
    Dot(nextLayerErrors, nextLayerWeights) * SigmoidDerivative(output)
  }

  /** An output neuron with a value in (0,1) gets an error of the same sign as
      `expected - output`, and at most a quarter of its size. */
  lemma OutputErrorPointsToTarget(output: real, expected: real)
    requires 0.0 < output < 1.0
    ensures expected > output ==> 0.0 < OutputNeuronError(output, expected) <= (expected - output) / 4.0
    ensures expected == output ==> OutputNeuronError(output, expected) == 0.0
    ensures expected < output ==> (expected - output) / 4.0 <= OutputNeuronError(output, expected) < 0.0
  {
    var d := SigmoidDerivative(output);
    var g := expected - output;
    var e := OutputNeuronError(output, expected);
    // how far the derivative stays below its maximum
    var c := 0.25 - d;
    assert e == g * d && 0.0 < d && 0.0 <= c;
    assert g / 4.0 - e == g * c;
    if g > 0.0 {
      assert g * d > 0.0;
      assert g * c >= 0.0;
    } else if g < 0.0 {
      assert (-g) * d > 0.0;
      assert g * d == -((-g) * d);
      assert (-g) * c >= 0.0;
      assert g * c == -((-g) * c);
    }
  }
}
