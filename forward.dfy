/** Forward propagation as a specification: the outputs of every layer for one
    input, and the network's output. */
module Forward {
  import opened Vectors
  import opened Activation
  import opened Parameters

  /** The outputs of one layer: neuron j applies `act` to the weighted sum of the
      incoming values `x` by row j of `w`, plus bias j. */
  function Layer(act: real -> real, w: seq<seq<real>>, b: seq<real>, x: seq<real>): (y: seq<real>)
    requires |b| == |w| && forall j :: 0 <= j < |w| ==> |x| <= |w[j]|
    ensures |y| == |w|
  {
    seq(|w|, j requires 0 <= j < |w| => act(Dot(x, w[j]) + b[j]))
  }

  /** The outputs of the first `n` non-input layers, input-side layer first. */
  function TraceUpTo(sizes: seq<nat>, act: real -> real, st: NetworkState, x: seq<real>, n: nat): (t: seq<seq<real>>)
    requires Shaped(sizes, st) && |x| <= sizes[0] && n <= |sizes| - 1
    ensures |t| == n
    ensures forall m :: 0 <= m < n ==> |t[m]| == sizes[m + 1]
    decreases n
  {
    if n == 0 then []
    else
      var t := TraceUpTo(sizes, act, st, x, n - 1);
      t + [Layer(act, st.weights[n - 1], st.biases[n - 1], if n == 1 then x else t[n - 2])]
  }

  /** The forward trace: the output vector of every non-input layer. */
  function Trace(sizes: seq<nat>, act: real -> real, st: NetworkState, x: seq<real>): (t: seq<seq<real>>)
    requires Shaped(sizes, st) && |x| <= sizes[0]
    ensures TraceShaped(sizes, t)
  {
    TraceUpTo(sizes, act, st, x, |sizes| - 1)
  }

  /** The values fed into layer `n + 1`: the input itself for n = 0, else the
      output of the n-th non-input layer. */
  function LayerInput(sizes: seq<nat>, act: real -> real, st: NetworkState, x: seq<real>, n: nat): (y: seq<real>)
    requires Shaped(sizes, st) && |x| <= sizes[0] && n <= |sizes| - 1
    ensures n > 0 ==> |y| == sizes[n]
  {
    if n == 0 then x else TraceUpTo(sizes, act, st, x, n)[n - 1]
  }

  /** The network's answer: the last layer's output (the input itself when the
      network has a single layer). */
  function Output(sizes: seq<nat>, act: real -> real, st: NetworkState, x: seq<real>): (y: seq<real>)
    requires Shaped(sizes, st) && |x| <= sizes[0]
    ensures |sizes| >= 2 ==> |y| == sizes[|sizes| - 1]
  {
    LayerInput(sizes, act, st, x, |sizes| - 1)
  }

  /** The parameters of the network that starts at the first hidden layer. */
  function Rest(sizes: seq<nat>, st: NetworkState): (r: NetworkState)
    requires Shaped(sizes, st) && |sizes| >= 2
    ensures Shaped(sizes[1..], r)
  {
    NetworkState(st.weights[1..], st.biases[1..])
  }

  /** Reference definition: the network as the composition of its layer maps,
      applied input-side first. */
  function Compose(sizes: seq<nat>, act: real -> real, st: NetworkState, x: seq<real>): (y: seq<real>)
    requires Shaped(sizes, st) && |x| <= sizes[0]
    decreases |sizes|
  {
    if |sizes| == 1 then x
    else Compose(sizes[1..], act, Rest(sizes, st), Layer(act, st.weights[0], st.biases[0], x))
  }

  /** One more layer of the trace: the next layer applied to the last values computed. */
  lemma TraceStep(sizes: seq<nat>, act: real -> real, st: NetworkState, x: seq<real>, n: nat)
    requires Shaped(sizes, st) && |x| <= sizes[0] && 1 <= n <= |sizes| - 1
    ensures TraceUpTo(sizes, act, st, x, n)
      == TraceUpTo(sizes, act, st, x, n - 1)
         + [Layer(act, st.weights[n - 1], st.biases[n - 1], LayerInput(sizes, act, st, x, n - 1))]
  {
  }

  /** Entry `m` of the trace `t` is layer `m` applied to the input (for m = 0)
      or to the entry before it. */
  lemma {:induction false} TraceEntry(sizes: seq<nat>, act: real -> real, st: NetworkState, x: seq<real>, n: nat,
                                      t: seq<seq<real>>, m: nat, prev: seq<real>)
    requires Shaped(sizes, st) && |x| <= sizes[0] && n <= |sizes| - 1
    requires t == TraceUpTo(sizes, act, st, x, n) && m < n
    requires m == 0 ==> prev == x
    requires m > 0 ==> prev == t[m - 1]
    ensures t[m] == Layer(act, st.weights[m], st.biases[m], prev)
    decreases n
  {
    if m < n - 1 {
      TraceEntry(sizes, act, st, x, n - 1, TraceUpTo(sizes, act, st, x, n - 1), m, prev);
    }
  }

  /** Entry `m` of a trace does not depend on how many layers further the trace goes. */
  lemma {:induction false} TracePrefix(sizes: seq<nat>, act: real -> real, st: NetworkState, x: seq<real>, m: nat, n: nat)
    requires Shaped(sizes, st) && |x| <= sizes[0] && m < n <= |sizes| - 1
    ensures TraceUpTo(sizes, act, st, x, n)[m] == TraceUpTo(sizes, act, st, x, m + 1)[m]
    decreases n
  {
    if n > m + 1 {
      TracePrefix(sizes, act, st, x, m, n - 1);
    }
  }

  /** The inputs the gradient accumulation reads for connection layer `i` from
      the forward result, the input itself for i = 0 and the previous layer's
      output otherwise, are on the network's own trace the values the forward
      pass fed into that layer. */
  lemma SourceIsLayerInput(sizes: seq<nat>, act: real -> real, st: NetworkState, x: seq<real>, i: nat)
    requires Shaped(sizes, st) && |x| <= sizes[0] && i < |sizes| - 1
    ensures SourceActivations(x, Trace(sizes, act, st, x), i) == LayerInput(sizes, act, st, x, i)
  {
    var t := Trace(sizes, act, st, x);
    if i > 0 {
      TracePrefix(sizes, act, st, x, i - 1, |sizes| - 1);
      assert LayerInput(sizes, act, st, x, i) == TraceUpTo(sizes, act, st, x, i)[i - 1];
      assert SourceActivations(x, t, i) == t[i - 1];
    } else {
      assert LayerInput(sizes, act, st, x, i) == x;
    }
  }

  /** A prefix extended by the next entry is the longer prefix. */
  lemma PrefixSnoc<T>(t: seq<T>, prefix: seq<T>, i: nat, e: T)
    requires i < |t| && prefix == t[..i] && e == t[i]
    ensures prefix + [e] == t[..i + 1]
  {
  }

  /** Adding at the front and at the back commute. */
  lemma ConsThenSnoc<T>(a: T, s: seq<T>, b: T)
    ensures [a] + (s + [b]) == ([a] + s) + [b]
  {
  }

  /** The trace of a network is its first layer's output followed by the trace of
      the remaining network on that output. */
  lemma {:induction false} TraceSplit(sizes: seq<nat>, act: real -> real, st: NetworkState, x: seq<real>, n: nat)
    requires Shaped(sizes, st) && |x| <= sizes[0] && 1 <= n <= |sizes| - 1
    ensures TraceUpTo(sizes, act, st, x, n)
      == [Layer(act, st.weights[0], st.biases[0], x)]
         + TraceUpTo(sizes[1..], act, Rest(sizes, st), Layer(act, st.weights[0], st.biases[0], x), n - 1)
    decreases n
  {
    var first := Layer(act, st.weights[0], st.biases[0], x);
    var rest := Rest(sizes, st);
    if n > 1 {
      TraceSplit(sizes, act, st, x, n - 1);
      TraceStep(sizes, act, st, x, n);
      TraceStep(sizes[1..], act, rest, first, n - 1);
      var t' := TraceUpTo(sizes[1..], act, rest, first, n - 2);
      var input := LayerInput(sizes, act, st, x, n - 1);
      assert input == LayerInput(sizes[1..], act, rest, first, n - 2);
      ConsThenSnoc(first, t', Layer(act, st.weights[n - 1], st.biases[n - 1], input));
    }
  }

  /** The loop of feedForward computes the composition of the layer maps. */
  lemma {:induction false} OutputIsComposition(sizes: seq<nat>, act: real -> real, st: NetworkState, x: seq<real>)
    requires Shaped(sizes, st) && |x| <= sizes[0]
    ensures Output(sizes, act, st, x) == Compose(sizes, act, st, x)
    decreases |sizes|
  {
    if |sizes| >= 2 {
      var first := Layer(act, st.weights[0], st.biases[0], x);
      var n := |sizes| - 1;
      TraceSplit(sizes, act, st, x, n);
      OutputIsComposition(sizes[1..], act, Rest(sizes, st), first);
    }
  }

  /** With a sigmoid-like activation, every value in the trace lies in (0,1). */
  lemma {:induction false} TraceInUnitInterval(sizes: seq<nat>, act: real -> real, st: NetworkState, x: seq<real>, n: nat)
    requires Shaped(sizes, st) && |x| <= sizes[0] && n <= |sizes| - 1
    requires Squashing(act)
    ensures forall m, j :: 0 <= m < n && 0 <= j < |TraceUpTo(sizes, act, st, x, n)[m]| ==>
      0.0 < TraceUpTo(sizes, act, st, x, n)[m][j] < 1.0
    decreases n
  {
    if n > 0 {
      TraceInUnitInterval(sizes, act, st, x, n - 1);
    }
  }
}
