/** The parameter store: weights and biases per connection layer, their shape,
    and the element-wise operations the trainer applies to them. */
module Parameters {

  /** The `{ weights, biases }` record read and written by getNetworkState and
      loadNetworkState; the gradient buffers of a mini-batch have the same layout. */
  datatype NetworkState = NetworkState(weights: seq<seq<seq<real>>>, biases: seq<seq<real>>)

  /** `weights[i]` has `sizes[i+1]` rows of `sizes[i]` entries (row j holds the
      weights into neuron j of layer i+1) and `biases[i]` has `sizes[i+1]` entries. */
  ghost predicate Shaped(sizes: seq<nat>, st: NetworkState)
  {
    && |sizes| >= 1
    && |st.weights| == |sizes| - 1
    && |st.biases| == |sizes| - 1
    && (forall i :: 0 <= i < |st.weights| ==> |st.weights[i]| == sizes[i + 1] && |st.biases[i]| == sizes[i + 1])
    && (forall i, j :: 0 <= i < |st.weights| && 0 <= j < |st.weights[i]| ==> |st.weights[i][j]| == sizes[i])
  }

  /** One vector per non-input layer, vector i of length `sizes[i+1]`: the shape of
      a forward trace and of the error vectors computed from it. */
  ghost predicate TraceShaped(sizes: seq<nat>, t: seq<seq<real>>)
  {
    |sizes| >= 1 && |t| == |sizes| - 1 && forall i :: 0 <= i < |t| ==> |t[i]| == sizes[i + 1]
  }

  /** The weight matrices the constructor draws: `sizes[i+1]` rows of `sizes[i]` entries per connection layer. */
  function InitialWeights(sizes: seq<nat>, w: (nat, nat, nat) -> real): (ws: seq<seq<seq<real>>>)
    requires |sizes| >= 1
    ensures |ws| == |sizes| - 1
    ensures forall i :: 0 <= i < |ws| ==> |ws[i]| == sizes[i + 1]
    ensures forall i, j :: 0 <= i < |ws| && 0 <= j < |ws[i]| ==> |ws[i][j]| == sizes[i]
    ensures forall i, j, k :: 0 <= i < |ws| && 0 <= j < |ws[i]| && 0 <= k < |ws[i][j]| ==> ws[i][j][k] == w(i, j, k)
  {
    seq(|sizes| - 1, i requires 0 <= i < |sizes| - 1 =>
      seq(sizes[i + 1], j requires 0 <= j < sizes[i + 1] =>
        seq(sizes[i], k requires 0 <= k < sizes[i] => w(i, j, k))))
  }

  /** The bias vectors the constructor draws: `sizes[i+1]` entries per connection layer. */
  function InitialBiases(sizes: seq<nat>, b: (nat, nat) -> real): (bs: seq<seq<real>>)
    requires |sizes| >= 1
    ensures |bs| == |sizes| - 1
    ensures forall i :: 0 <= i < |bs| ==> |bs[i]| == sizes[i + 1]
    ensures forall i, j :: 0 <= i < |bs| && 0 <= j < |bs[i]| ==> bs[i][j] == b(i, j)
  {
    seq(|sizes| - 1, i requires 0 <= i < |sizes| - 1 =>
      seq(sizes[i + 1], j requires 0 <= j < sizes[i + 1] => b(i, j)))
  }

  /** Parameters built layer by layer as the constructor does, entry values taken
      from `w` and `b` (the random draws, left arbitrary). */
  function Initial(sizes: seq<nat>, w: (nat, nat, nat) -> real, b: (nat, nat) -> real): (st: NetworkState)
    requires |sizes| >= 1
    ensures Shaped(sizes, st)
    ensures forall i, j, k :: 0 <= i < |st.weights| && 0 <= j < |st.weights[i]| && 0 <= k < |st.weights[i][j]| ==>
      st.weights[i][j][k] == w(i, j, k)
    ensures forall i, j :: 0 <= i < |st.biases| && 0 <= j < |st.biases[i]| ==> st.biases[i][j] == b(i, j)
  {
    NetworkState(InitialWeights(sizes, w), InitialBiases(sizes, b))
  }

  /** Gradient buffers of the network's shape with every entry zero. */
  function Zeros(sizes: seq<nat>): (z: NetworkState)
    requires |sizes| >= 1
    ensures Shaped(sizes, z)
    ensures forall i, j, k :: 0 <= i < |z.weights| && 0 <= j < |z.weights[i]| && 0 <= k < |z.weights[i][j]| ==>
      z.weights[i][j][k] == 0.0
    ensures forall i, j :: 0 <= i < |z.biases| && 0 <= j < |z.biases[i]| ==> z.biases[i][j] == 0.0
  {
    NetworkState(
      seq(|sizes| - 1, i requires 0 <= i < |sizes| - 1 => seq(sizes[i + 1], j => seq(sizes[i], k => 0.0))),
      seq(|sizes| - 1, i requires 0 <= i < |sizes| - 1 => seq(sizes[i + 1], j => 0.0)))
  }

  /** Every parameter moved by its delta times `rate`. */
  function Updated(sizes: seq<nat>, st: NetworkState, d: NetworkState, rate: real): (u: NetworkState)
    requires Shaped(sizes, st) && Shaped(sizes, d)
    ensures Shaped(sizes, u)
  {
    NetworkState(
      seq(|st.weights|, i requires 0 <= i < |st.weights| =>
        seq(|st.weights[i]|, j requires 0 <= j < |st.weights[i]| =>
          seq(|st.weights[i][j]|, k requires 0 <= k < |st.weights[i][j]| =>
            st.weights[i][j][k] + d.weights[i][j][k] * rate))),
      seq(|st.biases|, i requires 0 <= i < |st.biases| =>
        seq(|st.biases[i]|, j requires 0 <= j < |st.biases[i]| => st.biases[i][j] + d.biases[i][j] * rate)))
  }

  /** The activation feeding connection layer `i`: the raw input for the first
      layer, the previous layer's output otherwise. */
  function SourceActivations(x: seq<real>, trace: seq<seq<real>>, i: nat): seq<real>
    requires i <= |trace|
  {
    if i == 0 then x else trace[i - 1]
  }

  /** One example's contribution added to the buffers `d`: `errors[i][j]` times the
      source activation for each weight, `errors[i][j]` for each bias. */
  function Accumulated(sizes: seq<nat>, d: NetworkState, x: seq<real>, errors: seq<seq<real>>, trace: seq<seq<real>>): (a: NetworkState)
    requires Shaped(sizes, d) && sizes[0] <= |x|
    requires TraceShaped(sizes, errors) && TraceShaped(sizes, trace)
    ensures Shaped(sizes, a)
  {
    NetworkState(
      seq(|d.weights|, i requires 0 <= i < |d.weights| =>
        seq(|d.weights[i]|, j requires 0 <= j < |d.weights[i]| =>
          seq(|d.weights[i][j]|, k requires 0 <= k < |d.weights[i][j]| =>
            d.weights[i][j][k] + errors[i][j] * SourceActivations(x, trace, i)[k]))),
      seq(|d.biases|, i requires 0 <= i < |d.biases| =>
        seq(|d.biases[i]|, j requires 0 <= j < |d.biases[i]| => d.biases[i][j] + errors[i][j])))
  }

  /** Applying an all-zero delta leaves every parameter where it was, whatever the rate. */
  lemma ZeroDeltaChangesNothing(sizes: seq<nat>, st: NetworkState, rate: real)
    requires Shaped(sizes, st)
    ensures Updated(sizes, st, Zeros(sizes), rate) == st
  {
    var u := Updated(sizes, st, Zeros(sizes), rate);
    forall i | 0 <= i < |st.weights|
      ensures u.weights[i] == st.weights[i] && u.biases[i] == st.biases[i]
    {
      forall j | 0 <= j < |st.weights[i]|
        ensures u.weights[i][j] == st.weights[i][j]
      {
      }
    }
  }

  /** Accumulation only adds: the increase of each entry does not depend on what
      the buffer held before, so the buffers end up holding the sum of the
      contributions of the examples seen so far. */
  lemma AccumulationOnlyAdds(sizes: seq<nat>, d: NetworkState, x: seq<real>, errors: seq<seq<real>>, trace: seq<seq<real>>)
    requires Shaped(sizes, d) && sizes[0] <= |x|
    requires TraceShaped(sizes, errors) && TraceShaped(sizes, trace)
    ensures forall i, j, k :: 0 <= i < |d.weights| && 0 <= j < |d.weights[i]| && 0 <= k < |d.weights[i][j]| ==>
      Accumulated(sizes, d, x, errors, trace).weights[i][j][k]
        == d.weights[i][j][k] + Accumulated(sizes, Zeros(sizes), x, errors, trace).weights[i][j][k]
    ensures forall i, j :: 0 <= i < |d.biases| && 0 <= j < |d.biases[i]| ==>
      Accumulated(sizes, d, x, errors, trace).biases[i][j]
        == d.biases[i][j] + Accumulated(sizes, Zeros(sizes), x, errors, trace).biases[i][j]
  {
  }
}
