/** The `NeuralNet` class: parameters held in fields and updated in place, the
    forward and backward passes, gradient accumulation, testing and training. */
module Network {
  import opened Vectors
  import opened Activation
  import opened Parameters
  import opened Forward
  import opened Backprop
  import opened DataLoader
  import opened Classify
  import opened Training

  /** What `feedForward` returns: the output of every non-input layer when asked
      for all layers, otherwise the last layer's output alone. */
  datatype FeedForwardResult = AllLayers(outputs: seq<seq<real>>) | LastLayer(values: seq<real>)

  /** The inner loop of `feedForward`: neuron j of a layer applies the activation
      to the weighted sum of the values `x` by row j of `w`, plus bias j. */
  method LayerValues(act: real -> real, w: seq<seq<real>>, b: seq<real>, x: seq<real>) returns (result: seq<real>)
    requires |b| == |w| && forall j :: 0 <= j < |w| ==> |x| <= |w[j]|
    ensures result == Layer(act, w, b, x)
  {
    result := [];
    for j := 0 to |w|
      invariant |result| == j
      invariant forall m :: 0 <= m < j ==> result[m] == Layer(act, w, b, x)[m]
    {
      var total := Dot(x, w[j]);
      result := result + [act(total + b[j])];
    }
  }

  /** The loop of `feedForward` over the network's layer sizes, activation and
      parameters: layer i's values are computed from layer i-1's and pushed to
      the result when all layers are wanted. */
  method ForwardPass(sizes: seq<nat>, act: real -> real, st: NetworkState, input: seq<real>, returnAllLayers: bool)
    returns (r: FeedForwardResult)
    requires Shaped(sizes, st) && |input| <= sizes[0]
    ensures returnAllLayers ==> r == AllLayers(Trace(sizes, act, st, input))
    ensures !returnAllLayers ==> r == LastLayer(Output(sizes, act, st, input))
  {
    ghost var t := TraceUpTo(sizes, act, st, input, |sizes| - 1);
    var output: seq<seq<real>> := [];
    var x := input;
    for i := 1 to |sizes|
      invariant i == 1 ==> x == input
      invariant i > 1 ==> x == t[i - 2]
      invariant returnAllLayers ==> output == t[..i - 1]
    {
      TraceEntry(sizes, act, st, input, |sizes| - 1, t, i - 1, x);
      var result := LayerValues(act, st.weights[i - 1], st.biases[i - 1], x);
      if returnAllLayers {
        PrefixSnoc(t, output, i - 1, result);
        output := output + [result];
      }
      x := result;
    }
    if returnAllLayers {
      assert output == t;
      r := AllLayers(output);
    } else {
      r := LastLayer(x);
    }
  }

  /** The loops of `initialiseWeightAndBiasUpdates`: a zero for every weight and
      bias of the parameters `weights`, `biases`. */
  method ZeroBuffers(sizes: seq<nat>, weights: seq<seq<seq<real>>>, biases: seq<seq<real>>)
    returns (ws: seq<seq<seq<real>>>, bs: seq<seq<real>>)
    requires Shaped(sizes, NetworkState(weights, biases))
    ensures NetworkState(ws, bs) == Zeros(sizes)
  {
    ghost var z := Zeros(sizes);
    ws, bs := [], [];
    for i := 0 to |weights|
      invariant |ws| == i && |bs| == i
      invariant forall m :: 0 <= m < i ==> ws[m] == z.weights[m] && bs[m] == z.biases[m]
    {
      var layer: seq<seq<real>> := [];
      bs := bs + [seq(|biases[i]|, _ => 0.0)];
      for j := 0 to |weights[i]|
        invariant |layer| == j
        invariant forall m :: 0 <= m < j ==> layer[m] == z.weights[i][m]
      {
        layer := layer + [seq(|weights[i][j]|, _ => 0.0)];
      }
      ws := ws + [layer];
    }
  }

  /** The innermost loop of `getWeightsAndBiasesUpdates`: entry k of a row of
      weight deltas gains `error` times input k of connection layer `i`, read
      from `data` for the first layer and from the previous layer's output
      otherwise. */
  method AccumulateRow(row: seq<real>, error: real, data: seq<real>, forwardResult: seq<seq<real>>, i: nat)
    returns (r: seq<real>)
    requires i <= |forwardResult| && |row| <= |SourceActivations(data, forwardResult, i)|
    ensures |r| == |row|
    ensures forall k :: 0 <= k < |row| ==> r[k] == row[k] + error * SourceActivations(data, forwardResult, i)[k]
  {
    r := row;
    for k := 0 to |row|
      invariant |r| == |row|
      invariant forall m :: 0 <= m < k ==> r[m] == row[m] + error * SourceActivations(data, forwardResult, i)[m]
      invariant forall m :: k <= m < |row| ==> r[m] == row[m]
    {
      var input := if i == 0 then data[k] else forwardResult[i - 1][k];
      r := r[k := r[k] + error * input];
    }
  }

  /** Connection layer `i` of `getWeightsAndBiasesUpdates`: every weight delta
      and bias delta of the layer in the buffers `d` gains its share of the
      example's errors. */
  method AccumulateLayer(sizes: seq<nat>, d: NetworkState, data: seq<real>, errors: seq<seq<real>>,
                         forwardResult: seq<seq<real>>, i: nat) returns (layerW: seq<seq<real>>, layerB: seq<real>)
    requires Shaped(sizes, d) && sizes[0] <= |data| && i < |d.weights|
    requires TraceShaped(sizes, errors) && TraceShaped(sizes, forwardResult)
    ensures layerW == Accumulated(sizes, d, data, errors, forwardResult).weights[i]
    ensures layerB == Accumulated(sizes, d, data, errors, forwardResult).biases[i]
  {
    ghost var target := Accumulated(sizes, d, data, errors, forwardResult);
    ghost var targetW, targetB := target.weights[i], target.biases[i];
    layerW, layerB := d.weights[i], d.biases[i];
    for j := 0 to |layerW|
      invariant |layerW| == |d.weights[i]| && |layerB| == |d.biases[i]|
      invariant forall m :: 0 <= m < j ==> layerW[m] == targetW[m] && layerB[m] == targetB[m]
      invariant forall m :: j <= m < |layerW| ==> layerW[m] == d.weights[i][m] && layerB[m] == d.biases[i][m]
    {
      assert layerW[j] == d.weights[i][j];
      var row := AccumulateRow(layerW[j], errors[i][j], data, forwardResult, i);
      assert |row| == |targetW[j]|;
      assert forall m :: 0 <= m < |row| ==> row[m] == targetW[j][m];
      layerW := layerW[j := row];
      layerB := layerB[j := layerB[j] + errors[i][j]];
    }
  }

  /** The loops of `getWeightsAndBiasesUpdates`, updating each entry of the
      buffers `d` in turn. */
  method AccumulateExample(sizes: seq<nat>, d: NetworkState, data: seq<real>, errors: seq<seq<real>>,
                           forwardResult: seq<seq<real>>) returns (r: NetworkState)
    requires Shaped(sizes, d) && sizes[0] <= |data|
    requires TraceShaped(sizes, errors) && TraceShaped(sizes, forwardResult)
    ensures r == Accumulated(sizes, d, data, errors, forwardResult)
  {
    ghost var target := Accumulated(sizes, d, data, errors, forwardResult);
    var ws, bs := d.weights, d.biases;
    for i := 0 to |ws|
      invariant |ws| == |d.weights| && |bs| == |d.biases|
      invariant forall m :: 0 <= m < i ==> ws[m] == target.weights[m] && bs[m] == target.biases[m]
    {
      var layerW, layerB := AccumulateLayer(sizes, d, data, errors, forwardResult, i);
      ws, bs := ws[i := layerW], bs[i := layerB];
    }
    assert ws == target.weights && bs == target.biases;
    r := NetworkState(ws, bs);
  }

  /** The innermost loop of `updateWeightsAndBiases`: entry k of a weight row
      moves by delta k times `rate`. */
  method MoveRow(row: seq<real>, delta: seq<real>, rate: real) returns (r: seq<real>)
    requires |delta| == |row|
    ensures |r| == |row| && forall k :: 0 <= k < |row| ==> r[k] == row[k] + delta[k] * rate
  {
    r := row;
    for k := 0 to |row|
      invariant |r| == |row|
      invariant forall m :: 0 <= m < k ==> r[m] == row[m] + delta[m] * rate
      invariant forall m :: k <= m < |row| ==> r[m] == row[m]
    {
      r := r[k := r[k] + delta[k] * rate];
    }
  }

  /** Connection layer `i` of `updateWeightsAndBiases`: every weight and bias
      of the layer moved by its delta in `d` times `learningRate`. */
  method MoveLayer(sizes: seq<nat>, st: NetworkState, d: NetworkState, learningRate: real, i: nat)
    returns (layerW: seq<seq<real>>, layerB: seq<real>)
    requires Shaped(sizes, st) && Shaped(sizes, d) && i < |st.weights|
    ensures layerW == Updated(sizes, st, d, learningRate).weights[i]
    ensures layerB == Updated(sizes, st, d, learningRate).biases[i]
  {
    ghost var target := Updated(sizes, st, d, learningRate);
    ghost var targetW, targetB := target.weights[i], target.biases[i];
    layerW, layerB := st.weights[i], st.biases[i];
    for j := 0 to |layerW|
      invariant |layerW| == |st.weights[i]| && |layerB| == |st.biases[i]|
      invariant forall m :: 0 <= m < j ==> layerW[m] == targetW[m] && layerB[m] == targetB[m]
      invariant forall m :: j <= m < |layerW| ==> layerW[m] == st.weights[i][m] && layerB[m] == st.biases[i][m]
    {
      assert layerW[j] == st.weights[i][j];
      var row := MoveRow(layerW[j], d.weights[i][j], learningRate);
      assert |row| == |targetW[j]|;
      assert forall m :: 0 <= m < |row| ==> row[m] == targetW[j][m];
      layerW := layerW[j := row];
      layerB := layerB[j := layerB[j] + d.biases[i][j] * learningRate];
    }
  }

  /** The loops of `updateWeightsAndBiases`, moving each parameter of `st` by its
      delta in `d` times `learningRate`. */
  method MoveParameters(sizes: seq<nat>, st: NetworkState, d: NetworkState, learningRate: real) returns (r: NetworkState)
    requires Shaped(sizes, st) && Shaped(sizes, d)
    ensures r == Updated(sizes, st, d, learningRate)
  {
    ghost var target := Updated(sizes, st, d, learningRate);
    var ws, bs := st.weights, st.biases;
    for i := 0 to |ws|
      invariant |ws| == |st.weights| && |bs| == |st.biases|
      invariant forall m :: 0 <= m < i ==> ws[m] == target.weights[m] && bs[m] == target.biases[m]
    {
      var layerW, layerB := MoveLayer(sizes, st, d, learningRate, i);
      ws, bs := ws[i := layerW], bs[i := layerB];
    }
    assert ws == target.weights && bs == target.biases;
    r := NetworkState(ws, bs);
  }

  /** The `{ weights, biases }` delta buffers of one mini-batch, which
      `getWeightsAndBiasesUpdates` adds to in place. */
  class GradientBuffers {
    var weights: seq<seq<seq<real>>>
    var biases: seq<seq<real>>

    /** The buffers as a value. */
    function State(): NetworkState
      reads this
    {
      NetworkState(weights, biases)
    }

    constructor(weights: seq<seq<seq<real>>>, biases: seq<seq<real>>)
      ensures State() == NetworkState(weights, biases)
    {
      this.weights := weights;
      this.biases := biases;
    }
  }

  class NeuralNet {
    const sizes: seq<nat>
    const layers: nat
    /** The sigmoid `1 / (1 + exp(-x))`, known to the model only by its range. */
    const activation: real -> real
    var weights: seq<seq<seq<real>>>
    var biases: seq<seq<real>>
    var isTraining: bool
    /** The parameters have the shape the layer sizes dictate. */
    ghost predicate Valid()
      reads this`weights, this`biases
    {
      layers == |sizes| && Shaped(sizes, NetworkState(weights, biases)) && Squashing(activation)
    }

    /** The parameters as a value. */
    function State(): NetworkState
      reads this`weights, this`biases
    {
      NetworkState(weights, biases)
    }

    /** `new NeuralNet(...sizes)`: `weights[i]` gets `sizes[i+1]` rows of `sizes[i]`
        entries and `biases[i]` gets `sizes[i+1]` entries, every entry drawn
        from `w` and `b` (the Gaussian draws). */
    constructor(sizes: seq<nat>, activation: real -> real, w: (nat, nat, nat) -> real, b: (nat, nat) -> real)
      requires |sizes| >= 1 && Squashing(activation)
      ensures Valid()
      ensures this.sizes == sizes && layers == |sizes| && this.activation == activation
      ensures State() == Initial(sizes, w, b)
      ensures !isTraining
    {
      this.sizes := sizes;
      layers := |sizes|;
      weights := InitialWeights(sizes, w);
      biases := InitialBiases(sizes, b);
      this.activation := activation;
      isTraining := false;
    }

    /** `getNetworkState`: the current weights and biases. */
    method GetNetworkState() returns (st: NetworkState)
      ensures st.weights == weights && st.biases == biases
    {
      st := NetworkState(weights, biases);
    }

    /** `loadNetworkState`: replaces the weights and biases and nothing else. */
    method LoadNetworkState(st: NetworkState)
      requires Valid() && Shaped(sizes, st)
      modifies this`weights, this`biases
      ensures Valid() && State() == st
      ensures isTraining == old(isTraining)
    {
      weights := st.weights;
      biases := st.biases;
    }

    /** `stopTraining`: clears the training flag, which the training loop checks
        before every example. */
    method StopTraining()
      modifies this`isTraining
      ensures !isTraining
      ensures weights == old(weights) && biases == old(biases)
    {
      isTraining := false;
    }

    /** `feedForward`: runs the layers in order, each neuron applying the
        activation to its weighted input sum plus its bias. Changes nothing. */
    method FeedForward(input: seq<real>, returnAllLayers: bool) returns (r: FeedForwardResult)
      requires Valid() && |input| <= sizes[0]
      ensures returnAllLayers ==> r == AllLayers(Trace(sizes, activation, State(), input))
      ensures !returnAllLayers ==> r == LastLayer(Output(sizes, activation, State(), input))
    {
      r := ForwardPass(sizes, activation, State(), input, returnAllLayers);
    }

    /** `backprop`: error vectors computed from the output layer back to the first
        hidden layer, each hidden layer reading the errors pushed just before it
        (at `forwardResult.length - 2 - i`), then reversed into forward order. */
    method Backprop(forwardResult: seq<seq<real>>, expectedResult: seq<real>) returns (errors: seq<seq<real>>)
      requires Valid() && TraceShaped(sizes, forwardResult)
      requires |forwardResult| == 0 || |forwardResult[|forwardResult| - 1]| <= |expectedResult|
      ensures errors == Errors(sizes, State(), forwardResult, expectedResult)
    {
      var fr := forwardResult;
      var w := weights;
      var errorResults: seq<seq<real>> := [];
      var i := |fr| - 1;
      while i >= 0
        invariant -1 <= i < |fr|
        invariant |errorResults| == |fr| - 1 - i
        invariant forall m :: 0 <= m < |errorResults| ==>
          errorResults[m] == LayerErrors(sizes, State(), fr, expectedResult, |fr| - 1 - m)
      {
        var isOutputLayer := i == |fr| - 1;
        var errs;
        if isOutputLayer {
          errs := seq(|fr[i]|, j requires 0 <= j < |fr[i]| => OutputNeuronError(fr[i][j], expectedResult[j]));
        } else {
          var next := errorResults[|fr| - 2 - i];
          errs := seq(|fr[i]|, j requires 0 <= j < |fr[i]| => HiddenNeuronError(fr[i][j], Column(w[i + 1], j), next));
        }
        errorResults := errorResults + [errs];
        i := i - 1;
      }
      errors := Reversed(errorResults);
    }

    /** `initialiseWeightAndBiasUpdates`: fresh buffers of the parameters' shape,
        every entry zero. */
    method InitialiseWeightAndBiasUpdates() returns (g: GradientBuffers)
      requires Valid()
      ensures fresh(g) && g.State() == Zeros(sizes)
    {
      var ws, bs := ZeroBuffers(sizes, weights, biases);
      g := new GradientBuffers(ws, bs);
    }

    /** `getWeightsAndBiasesUpdates`: adds one example's gradient to the buffers,
        `errors[i][j]` times the source activation to each weight delta and
        `errors[i][j]` to each bias delta. */
    method GetWeightsAndBiasesUpdates(data: seq<real>, errors: seq<seq<real>>, forwardResult: seq<seq<real>>,
                                      g: GradientBuffers)
      requires Valid() && Shaped(sizes, g.State()) && sizes[0] <= |data|
      requires TraceShaped(sizes, errors) && TraceShaped(sizes, forwardResult)
      modifies g
      ensures g.State() == Accumulated(sizes, old(g.State()), data, errors, forwardResult)
    {
      var d := AccumulateExample(sizes, g.State(), data, errors, forwardResult);
      g.weights, g.biases := d.weights, d.biases;
    }

    /** `updateWeightsAndBiases`: moves every parameter by its delta times the rate,
        in place; nothing else changes. */
    method UpdateWeightsAndBiases(weightUpdates: seq<seq<seq<real>>>, biasUpdates: seq<seq<real>>, learningRate: real)
      requires Valid() && Shaped(sizes, NetworkState(weightUpdates, biasUpdates))
      modifies this`weights, this`biases
      ensures Valid()
      ensures State() == Updated(sizes, old(State()), NetworkState(weightUpdates, biasUpdates), learningRate)
      ensures isTraining == old(isTraining)
    {
      var st := MoveParameters(sizes, State(), NetworkState(weightUpdates, biasUpdates), learningRate);
      weights, biases := st.weights, st.biases;
    }

    /** `trainOneInput`: forward pass over all layers, one-hot target, backward
        pass, then the example's gradient added to the buffers. */
    method TrainOneInput(sample: Sample, g: GradientBuffers)
      requires Valid() && TargetFits(sizes) && |sample.pixels| == sizes[0] && Shaped(sizes, g.State())
      modifies g
      ensures g.State() == WithExample(sizes, activation, State(), old(g.State()), sample)
    {
      var forwardResult := FeedForward(sample.pixels, true);
      var expectedResult := ExpectedResult(sample.digit);
      var errorResults := Backprop(forwardResult.outputs, expectedResult);
      GetWeightsAndBiasesUpdates(sample.pixels, errorResults, forwardResult.outputs, g);
    }

    /** `updateWeightsAndBiases` with the buffers `g` holding the deltas of
        `batch`: one step of gradient descent at rate `learningRate / batchSize`. */
    method ApplyBatch(g: GradientBuffers, ghost batch: seq<Sample>, learningRate: real, batchSize: nat)
      requires Valid() && TargetFits(sizes) && SamplesFit(sizes, batch) && batchSize > 0
      requires g.State() == BatchDeltas(sizes, activation, State(), batch)
      modifies this`weights, this`biases
      ensures Valid() && isTraining == old(isTraining)
      ensures State() == TrainBatch(sizes, activation, old(State()), batch, learningRate, batchSize)
    {
      UpdateWeightsAndBiases(g.weights, g.biases, learningRate / batchSize as real);
    }

    /** The training flag after `processed` examples of a run whose callback
        clears it once `stopAfter` examples are done. */
    predicate FlagAt(stopAfter: Option<nat>, processed: nat)
      reads this
    {
      && isTraining == !(stopAfter.Some? && stopAfter.value <= processed)
      && (stopAfter.Some? ==> processed <= stopAfter.value)
    }

    /** The update handler, called after example number `processed'` of the
        run: the callback stops training once `stopAfter` examples are done. */
    method HandleUpdate(stopAfter: Option<nat>, processed: nat, processed': nat)
      requires processed' == processed + 1 && isTraining && FlagAt(stopAfter, processed)
      modifies this`isTraining
      ensures FlagAt(stopAfter, processed')
    {
      if stopAfter == Some(processed') {
        StopTraining();
      }
    }

    /** The check at the head of the innermost loop of `train`, before example
        `dataIndex` of `len`, with `processed` examples of the run done: a
        cleared training flag ends training; an index past the end of the data
        cannot be destructured. */
    function Interruption(processed: nat, dataIndex: nat, len: nat): (r: Option<Outcome>)
      reads this
      ensures !isTraining ==> r == Some(Stopped(processed))
      ensures isTraining ==> (r.Some? <==> dataIndex >= len) && (r.Some? ==> r.value == Threw(dataIndex))
    {
      if !isTraining then Some(Stopped(processed))
      else if dataIndex >= len then Some(Threw(dataIndex))
      else None
    }

    /** One example of a mini batch: example `start + fed` of `d` goes into the
        buffers after the `fed` before it, its progress is reported, and the
        update handler may stop training. The buffers along the examples from
        `start` on are `partials`. */
    method FeedExample(d: seq<Sample>, start: nat, fed: nat, epoch: nat, epochs: nat, stopAfter: Option<nat>,
                       processed0: nat, g: GradientBuffers, ghost partials: seq<NetworkState>, ghost trail: seq<Event>)
      returns (fed': nat, ghost trail': seq<Event>)
      requires Valid() && TargetFits(sizes) && SamplesFit(sizes, d) && start + fed < |d| && epoch < epochs
      requires Filling(sizes, activation, State(), d[start..], partials)
      requires g.State() == partials[fed]
      requires isTraining && FlagAt(stopAfter, processed0 + fed)
      requires ReportsSoFar(trail, |d|, epochs, epoch, start + fed)
      modifies this`isTraining, g
      ensures fed' == fed + 1 && g.State() == partials[fed']
      ensures FlagAt(stopAfter, processed0 + fed')
      ensures trail' == trail + [Progressed(epoch, start + fed)] && TestedEpochs(trail') == TestedEpochs(trail)
      ensures ReportsSoFar(trail', |d|, epochs, epoch, start + fed')
    {
      var s := d[start + fed];
      fed' := fed + 1;
      FillingStep(sizes, activation, State(), d[start..], partials, fed, fed');
      TrainOneInput(s, g);
      // the update handler receives Progress(epoch, dataIndex, |d|, epochs)
      ReportExample(trail, |d|, epochs, epoch, start + fed, start + fed');
      trail' := trail + [Progressed(epoch, start + fed)];
      TestedAfter(trail, Progressed(epoch, start + fed));
      HandleUpdate(stopAfter, processed0 + fed, processed0 + fed');
    }

    /** The innermost loop of `train`, over the examples of one mini batch
        starting at `start`, with `processed0` examples of the run already
        processed, until the batch is full or a pass is interrupted. The buffers
        then hold the deltas of the `fed` examples fed; the weights and biases
        do not change. */
    method FeedBatch(d: seq<Sample>, start: nat, batchSize: nat, epoch: nat, epochs: nat,
                     stopAfter: Option<nat>, processed0: nat, g: GradientBuffers,
                     ghost partials: seq<NetworkState>, ghost trail0: seq<Event>)
      returns (fed: nat, interrupted: Option<Outcome>, ghost trail: seq<Event>)
      requires Valid() && TargetFits(sizes) && SamplesFit(sizes, d) && start < |d| && epoch < epochs
      requires Filling(sizes, activation, State(), d[start..], partials)
      requires g.State() == partials[0]
      requires FlagAt(stopAfter, processed0)
      requires ReportsSoFar(trail0, |d|, epochs, epoch, start)
      modifies this`isTraining, g
      ensures Valid() && State() == old(State())
      ensures fed <= batchSize && start + fed <= |d|
      ensures g.State() == partials[fed]
      ensures interrupted.None? ==> fed == batchSize
      ensures interrupted.Some? ==> fed < batchSize
      ensures interrupted.Some? ==> interrupted.value.Stopped? || interrupted.value.Threw?
      ensures interrupted.Some? && interrupted.value.Stopped? ==>
        interrupted.value.examples == processed0 + fed && !isTraining
      ensures interrupted.Some? && interrupted.value.Threw? ==>
        interrupted.value.dataIndex == start + fed == |d| && isTraining
      ensures FlagAt(stopAfter, processed0 + fed)
      ensures ReportsSoFar(trail, |d|, epochs, epoch, start + fed)
      ensures trail0 <= trail && (Completed !in trail0 ==> Completed !in trail)
      ensures TestedEpochs(trail) == TestedEpochs(trail0)
    {
      trail := trail0;
      fed := 0;
      while fed < batchSize
        invariant fed <= batchSize && start + fed <= |d|
        invariant Valid() && State() == old(State())
        invariant g.State() == partials[fed]
        invariant FlagAt(stopAfter, processed0 + fed)
        invariant ReportsSoFar(trail, |d|, epochs, epoch, start + fed)
        invariant trail0 <= trail && (Completed !in trail0 ==> Completed !in trail)
        invariant TestedEpochs(trail) == TestedEpochs(trail0)
      {
        interrupted := Interruption(processed0 + fed, start + fed, |d|);
        if interrupted.Some? {
          return;
        }
        fed, trail := FeedExample(d, start, fed, epoch, epochs, stopAfter, processed0, g, partials, trail);
      }
      interrupted := None;
    }

    /** One mini batch of `train`, starting at example `start` of `d`: fresh
        buffers, the examples fed one by one, and the deltas applied once all
        `batchSize` of them are in. The run's batches are `full`, this one is
        `full[n]`, and the parameters are `states[n]`, where `st0` was before the
        first batch of the run and the `n` batches before this one took it. */
    method TrainMiniBatch(d: seq<Sample>, start: nat, batchSize: nat, epoch: nat, epochs: nat, learningRate: real,
                          stopAfter: Option<nat>, processed0: nat, ghost trail0: seq<Event>,
                          ghost st0: NetworkState, ghost full: seq<seq<Sample>>, ghost states: seq<NetworkState>,
                          ghost n: nat, ghost n': nat)
      returns (fed: nat, interrupted: Option<Outcome>, ghost trail: seq<Event>)
      requires Valid() && TargetFits(sizes) && SamplesFit(sizes, d) && start < |d| && epoch < epochs && batchSize > 0
      requires Shaped(sizes, st0) && BatchesFit(sizes, full) && n' == n + 1 && n <= |full|
      requires Trajectory(sizes, activation, st0, full, learningRate, batchSize, states)
      requires start + batchSize <= |d| ==> n < |full| && full[n] == d[start..start + batchSize]
      requires State() == states[n]
      requires FlagAt(stopAfter, processed0)
      requires ReportsSoFar(trail0, |d|, epochs, epoch, start)
      modifies this`weights, this`biases, this`isTraining
      ensures Valid() && fed <= batchSize && start + fed <= |d|
      ensures interrupted.None? ==> fed == batchSize && n' <= |full| && State() == states[n']
      ensures interrupted.Some? ==> fed < batchSize && State() == states[n]
      ensures interrupted.Some? ==> interrupted.value.Stopped? || interrupted.value.Threw?
      ensures interrupted.Some? && interrupted.value.Stopped? ==>
        interrupted.value.examples == processed0 + fed && !isTraining
      ensures interrupted.Some? && interrupted.value.Threw? ==>
        interrupted.value.dataIndex == start + fed == |d| && isTraining
      ensures FlagAt(stopAfter, processed0 + fed)
      ensures trail0 <= trail && (Completed !in trail0 ==> Completed !in trail)
      ensures TestedEpochs(trail) == TestedEpochs(trail0)
      ensures ReportsSoFar(trail, |d|, epochs, epoch, start + fed)
    {
      var g := InitialiseWeightAndBiasUpdates();
      ghost var partials := FillingOf(sizes, activation, State(), d[start..]);
      fed, interrupted, trail :=
        FeedBatch(d, start, batchSize, epoch, epochs, stopAfter, processed0, g, partials, trail0);
      if interrupted.None? {
        // the whole batch is in: apply its deltas
        ghost var batch := d[start..][..batchSize];
        assert batch == full[n];
        assert g.State() == BatchDeltas(sizes, activation, State(), batch);
        TrajectoryStep(sizes, activation, st0, full, learningRate, batchSize, states, n, n');
        ApplyBatch(g, batch, learningRate, batchSize);
      }
    }

    /** Batch `k` of an epoch over its shuffle `d`, with `processed0` examples
        of the run done before the epoch: the batch starts at example
        `examples`, inside the data, and is applied once all its examples are
        in. An interruption ends the epoch inside it: a stop, or, without an
        even split, the index `data.length`. */
    method EpochBatch(d: seq<Sample>, epoch: nat, epochs: nat, batchSize: nat, learningRate: real,
                      stopAfter: Option<nat>, processed0: nat, ghost trail0: seq<Event>,
                      ghost st0: NetworkState, ghost full: seq<seq<Sample>>, ghost states: seq<NetworkState>,
                      ghost applied0: nat, k: nat, examples: nat)
      returns (fed: nat, interrupted: Option<Outcome>, ghost trail: seq<Event>)
      requires Valid() && TargetFits(sizes) && SamplesFit(sizes, d) && batchSize > 0 && epoch < epochs
      requires Shaped(sizes, st0) && BatchesFit(sizes, full)
      requires applied0 + |Chunks(d, batchSize)| <= |full|
      requires full[applied0..applied0 + |Chunks(d, batchSize)|] == Chunks(d, batchSize)
      requires Trajectory(sizes, activation, st0, full, learningRate, batchSize, states)
      requires examples == k * batchSize < |d| && k <= |Chunks(d, batchSize)|
      requires State() == states[applied0 + k]
      requires FlagAt(stopAfter, processed0 + examples)
      requires ReportsSoFar(trail0, |d|, epochs, epoch, examples)
      modifies this`weights, this`biases, this`isTraining
      ensures Valid() && fed <= batchSize && examples + fed <= |d|
      ensures interrupted.None? ==>
        fed == batchSize && k + 1 <= |Chunks(d, batchSize)| && examples + fed == (k + 1) * batchSize
      ensures interrupted.None? ==> State() == states[applied0 + k + 1]
      ensures interrupted.Some? ==> fed < batchSize && State() == states[applied0 + k]
      ensures interrupted.Some? ==> interrupted.value.Stopped? || interrupted.value.Threw?
      ensures interrupted.Some? && interrupted.value.Stopped? ==>
        interrupted.value.examples == processed0 + examples + fed && !isTraining
        && (|d| % batchSize == 0 ==> examples + fed < |d|)
      ensures interrupted.Some? && interrupted.value.Threw? ==>
        interrupted.value.dataIndex == examples + fed == |d| && |d| % batchSize != 0 && isTraining
      ensures FlagAt(stopAfter, processed0 + examples + fed)
      ensures trail0 <= trail && (Completed !in trail0 ==> Completed !in trail)
      ensures TestedEpochs(trail) == TestedEpochs(trail0)
      ensures ReportsSoFar(trail, |d|, epochs, epoch, examples + fed)
    {
      var len := |d|;
      if examples + batchSize <= len {
        ChunkAt(d, batchSize, k);
      }
      MulSucc(k, k + 1, batchSize);
      fed, interrupted, trail :=
        TrainMiniBatch(d, examples, batchSize, epoch, epochs, learningRate, stopAfter, processed0 + examples, trail0,
                       st0, full, states, applied0 + k, applied0 + k + 1);
      if interrupted.Some? {
        if interrupted.value.Stopped? {
          if len % batchSize == 0 {
            NextMultiple(len, batchSize, k);
          }
        } else {
          OverrunOnlyWithoutEvenSplit(len, batchSize, k, fed);
        }
      }
    }

    /** One epoch of `train` over its shuffle `d`, with `processed0` examples of
        the run done before it: batch `k` starts at example `k * batchSize` while
        that is inside the data, gets fresh buffers, and is applied once all its
        examples are in. `k` batches are applied and `examples` examples fed; an
        interruption ends the epoch inside batch `k`. The run's batches are
        `full`, with `states` the parameters along them from `st0`; this epoch's
        batches are `full[applied0..]`, and the parameters are `states[applied0]`. */
    method RunEpoch(d: seq<Sample>, epoch: nat, epochs: nat, batchSize: nat, learningRate: real,
                    stopAfter: Option<nat>, processed0: nat, ghost trail0: seq<Event>,
                    ghost st0: NetworkState, ghost full: seq<seq<Sample>>, ghost states: seq<NetworkState>,
                    ghost applied0: nat)
      returns (k: nat, examples: nat, interrupted: Option<Outcome>, ghost trail: seq<Event>)
      requires Valid() && TargetFits(sizes) && SamplesFit(sizes, d) && batchSize > 0 && epoch < epochs
      requires Shaped(sizes, st0) && BatchesFit(sizes, full)
      requires applied0 + |Chunks(d, batchSize)| <= |full|
      requires full[applied0..applied0 + |Chunks(d, batchSize)|] == Chunks(d, batchSize)
      requires Trajectory(sizes, activation, st0, full, learningRate, batchSize, states)
      requires State() == states[applied0]
      requires FlagAt(stopAfter, processed0)
      requires ReportsSoFar(trail0, |d|, epochs, epoch, 0)
      modifies this`weights, this`biases, this`isTraining
      ensures Valid()
      ensures k <= |Chunks(d, batchSize)| && k * batchSize <= examples <= |d|
      ensures State() == states[applied0 + k]
      ensures interrupted.None? ==> k == |Chunks(d, batchSize)| && examples == k * batchSize == |d| && |d| % batchSize == 0
      ensures interrupted.Some? ==> examples < k * batchSize + batchSize
      ensures interrupted.Some? ==> interrupted.value.Stopped? || interrupted.value.Threw?
      ensures interrupted.Some? && interrupted.value.Stopped? ==>
        interrupted.value.examples == processed0 + examples && !isTraining && (|d| % batchSize == 0 ==> examples < |d|)
      ensures interrupted.Some? && interrupted.value.Threw? ==>
        interrupted.value.dataIndex == examples == |d| && |d| % batchSize != 0 && isTraining
      ensures FlagAt(stopAfter, processed0 + examples)
      ensures trail0 <= trail && (Completed !in trail0 ==> Completed !in trail)
      ensures TestedEpochs(trail) == TestedEpochs(trail0)
      ensures ReportsSoFar(trail, |d|, epochs, epoch, examples)
    {
      ghost var batches := Chunks(d, batchSize);
      var len := |d|;
      k, examples, trail := 0, 0, trail0;
      // `j < numBatches` with `numBatches = data.length / batchSize` not rounded, i.e. `j * batchSize < data.length`
      while examples < len
        invariant Valid()
        invariant examples == k * batchSize <= len && k <= |batches|
        invariant State() == states[applied0 + k]
        invariant FlagAt(stopAfter, processed0 + examples)
        invariant trail0 <= trail && (Completed !in trail0 ==> Completed !in trail)
        invariant TestedEpochs(trail) == TestedEpochs(trail0)
        invariant ReportsSoFar(trail, len, epochs, epoch, examples)
        decreases len - examples
      {
        var fed: nat;
        fed, interrupted, trail :=
          EpochBatch(d, epoch, epochs, batchSize, learningRate, stopAfter, processed0, trail, st0, full, states,
                     applied0, k, examples);
        if interrupted.Some? {
          examples := examples + fed;
          return;
        }
        k, examples := k + 1, examples + fed;
      }
      DivMod(len, batchSize, k, 0);
      ChunksCount(d, batchSize);
      interrupted := None;
    }

    /** Epoch `i` of `train`, after the `processed` examples and `applied`
        batches of the epochs before it: its shuffle trained batch by batch and,
        when the epoch runs to its end, the test message logged if there is
        test data. An interrupted epoch is the last one and completes none. */
    method TrainEpoch(data: seq<Sample>, learningRate: real, epochs: nat, batchSize: nat, testData: Option<seq<Sample>>,
                      shuffled: seq<seq<Sample>>, stopAfter: Option<nat>, i: nat, processed: nat,
                      ghost st0: NetworkState, ghost full: seq<seq<Sample>>, ghost states: seq<NetworkState>,
                      ghost offsets: seq<nat>, ghost applied: nat, ghost trail0: seq<Event>)
      returns (interrupted: Option<Outcome>, ghost applied': nat, ghost trail: seq<Event>)
      requires Valid() && TargetFits(sizes) && SamplesFit(sizes, data) && batchSize > 0 && i < epochs
      requires ShufflesOf(data, shuffled, epochs) && Laid(shuffled, epochs, batchSize, full, offsets)
      requires Shaped(sizes, st0) && BatchesFit(sizes, full)
      requires Trajectory(sizes, activation, st0, full, learningRate, batchSize, states)
      requires i > 0 ==> |data| % batchSize == 0
      requires processed == i * |data| && processed == applied * batchSize
      requires applied == offsets[i] <= |full|
      requires State() == states[applied]
      requires FlagAt(stopAfter, processed)
      requires |trail0| > 0 && trail0[0] == Started && Completed !in trail0
      requires ReportsSoFar(trail0, |data|, epochs, i, 0)
      modifies this`weights, this`biases, this`isTraining
      ensures Valid() && applied' <= |full| && State() == states[applied']
      ensures |trail| > 0 && trail[0] == Started && Completed !in trail
      ensures interrupted.None? ==> |data| % batchSize == 0 && applied' == offsets[i + 1]
      ensures interrupted.None? ==> processed + |data| == (i + 1) * |data| == applied' * batchSize
      ensures interrupted.None? ==> FlagAt(stopAfter, processed + |data|) && ReportsSoFar(trail, |data|, epochs, i + 1, 0)
      ensures interrupted.Some? ==> interrupted.value == ExpectedOutcome(false, |data|, epochs, batchSize, stopAfter)
      ensures interrupted.Some? ==> interrupted.value.Stopped? || interrupted.value.Threw?
      ensures interrupted.Some? && interrupted.value.Stopped? ==>
        applied' == interrupted.value.examples / batchSize && !isTraining
      ensures interrupted.Some? && interrupted.value.Threw? ==>
        applied' == interrupted.value.dataIndex / batchSize && isTraining
      ensures interrupted.Some? ==> ReportsSoFar(trail, |data|, epochs, epochs, 0)
      ensures interrupted.Some? ==> CompletedEpochs(interrupted.value, |data|, batchSize, epochs) == i
      ensures TestedEpochs(trail) == TestedEpochs(trail0) + (if interrupted.None? && testData.Some? then [i + 1] else [])
    {
      var len := |data|;
      // the shuffle of this epoch
      var d := shuffled[i];
      ShuffleFits(sizes, data, d);
      var k, examples;
      k, examples, interrupted, trail :=
        RunEpoch(d, i, epochs, batchSize, learningRate, stopAfter, processed, trail0, st0, full, states, applied);
      applied' := applied + k;
      if interrupted.Some? {
        InterruptedRun(len, epochs, batchSize, stopAfter, isTraining, i, processed, applied, k, examples,
                       interrupted.value);
        ReportsLater(trail, len, epochs, i, examples, epochs, 0);
        if interrupted.value.Stopped? && len % batchSize == 0 {
          DivMod(processed + examples, len, i, examples);
        }
        return;
      }
      EpochCompleted(len, batchSize, i, processed, applied, k, applied');
      ReportsLater(trail, len, epochs, i, len, i + 1, 0);
      if testData.Some? {
        LogTested(trail, i + 1, len, epochs);
        TestedAfter(trail, EpochTested(i + 1));
        trail := trail + [EpochTested(i + 1)];
      }
    }

    /** The epochs of `train`, from the first until one is interrupted or all
        of them are done. The run's batches are `full`, and `states` are the
        parameters along them from `st0`. */
    method RunEpochs(data: seq<Sample>, learningRate: real, epochs: nat, batchSize: nat, testData: Option<seq<Sample>>,
                     shuffled: seq<seq<Sample>>, stopAfter: Option<nat>, ghost st0: NetworkState,
                     ghost full: seq<seq<Sample>>, ghost states: seq<NetworkState>, ghost offsets: seq<nat>,
                     ghost trail0: seq<Event>)
      returns (interrupted: Option<Outcome>, ghost applied: nat, ghost trail: seq<Event>)
      requires Valid() && TargetFits(sizes) && SamplesFit(sizes, data) && batchSize > 0
      requires ShufflesOf(data, shuffled, epochs) && Laid(shuffled, epochs, batchSize, full, offsets)
      requires Shaped(sizes, st0) && BatchesFit(sizes, full)
      requires Trajectory(sizes, activation, st0, full, learningRate, batchSize, states)
      requires State() == states[0]
      requires FlagAt(stopAfter, 0)
      requires |trail0| > 0 && trail0[0] == Started && Completed !in trail0
      requires ReportsSoFar(trail0, |data|, epochs, 0, 0)
      modifies this`weights, this`biases, this`isTraining
      ensures Valid() && applied <= |full| && State() == states[applied]
      ensures interrupted.None? ==> applied == |full| && ExpectedOutcome(false, |data|, epochs, batchSize, stopAfter) == Finished
      ensures interrupted.Some? ==> interrupted.value == ExpectedOutcome(false, |data|, epochs, batchSize, stopAfter)
      ensures interrupted.Some? ==> interrupted.value.Stopped? || interrupted.value.Threw?
      ensures interrupted.Some? && interrupted.value.Stopped? ==>
        applied == interrupted.value.examples / batchSize && !isTraining
      ensures interrupted.Some? && interrupted.value.Threw? ==>
        applied == interrupted.value.dataIndex / batchSize && isTraining
      ensures |trail| > 0 && trail[0] == Started && Completed !in trail
      ensures ReportsSoFar(trail, |data|, epochs, epochs, 0)
      ensures TestedEpochs(trail) == TestedEpochs(trail0) + (if testData.Some? then
        EpochsUpTo(if interrupted.Some? then CompletedEpochs(interrupted.value, |data|, batchSize, epochs) else epochs)
        else [])
    {
      applied, trail := 0, trail0;
      var processed: nat := 0;
      var len := |data|;
      for i := 0 to epochs
        invariant Valid()
        invariant i > 0 ==> len % batchSize == 0
        invariant processed == i * len && processed == applied * batchSize
        invariant applied == offsets[i] <= |full|
        invariant State() == states[applied]
        invariant FlagAt(stopAfter, processed)
        invariant |trail| > 0 && trail[0] == Started && Completed !in trail
        invariant ReportsSoFar(trail, len, epochs, i, 0)
        invariant TestedEpochs(trail) == TestedEpochs(trail0) + (if testData.Some? then EpochsUpTo(i) else [])
      {
        interrupted, applied, trail :=
          TrainEpoch(data, learningRate, epochs, batchSize, testData, shuffled, stopAfter, i, processed,
                     st0, full, states, offsets, applied, trail);
        if interrupted.Some? {
          return;
        }
        processed := processed + len;
      }
      interrupted := None;
    }

    /** `train` from the point where the training flag is found clear: the flag
        set, the start logged, the epochs run, and on completion the flag
        cleared and the completion logged. The run's batches are `full`,
        `states` the parameters along them from `st0`, and `offsets` where each
        epoch's batches begin. */
    method StartRun(data: seq<Sample>, learningRate: real, epochs: nat, batchSize: nat, testData: Option<seq<Sample>>,
                    shuffled: seq<seq<Sample>>, stopAfter: Option<nat>, ghost st0: NetworkState,
                    ghost full: seq<seq<Sample>>, ghost states: seq<NetworkState>, ghost offsets: seq<nat>)
      returns (outcome: Outcome, ghost applied: nat, ghost log: seq<Event>)
      requires Valid() && TargetFits(sizes) && SamplesFit(sizes, data) && batchSize > 0 && !isTraining
      requires ShufflesOf(data, shuffled, epochs) && Laid(shuffled, epochs, batchSize, full, offsets)
      requires Shaped(sizes, st0) && BatchesFit(sizes, full)
      requires Trajectory(sizes, activation, st0, full, learningRate, batchSize, states)
      requires State() == states[0]
      modifies this`weights, this`biases, this`isTraining
      ensures Valid() && applied <= |full| && State() == states[applied]
      ensures outcome == ExpectedOutcome(false, |data|, epochs, batchSize, stopAfter)
      ensures outcome == Finished ==> applied == |full|
      ensures outcome.Stopped? ==> applied == outcome.examples / batchSize
      ensures outcome.Threw? ==> applied == outcome.dataIndex / batchSize
      ensures isTraining <==> outcome.Threw?
      ensures |log| > 0 && log[0] == Started
      ensures Completed in log <==> outcome == Finished
      ensures outcome == Finished ==> log[|log| - 1] == Completed
      ensures ReportsSoFar(log, |data|, epochs, epochs, 0)
      ensures TestedEpochs(log) == (if testData.Some? then EpochsUpTo(CompletedEpochs(outcome, |data|, batchSize, epochs)) else [])
    {
      isTraining := true;
      ghost var trail := [Started];
      TestedAfter([], Started);
      if stopAfter == Some(0) {
        StopTraining();
      }
      var interrupted;
      interrupted, applied, trail :=
        RunEpochs(data, learningRate, epochs, batchSize, testData, shuffled, stopAfter, st0, full, states, offsets, trail);
      if interrupted.Some? {
        return interrupted.value, applied, trail;
      }
      isTraining := false;
      LogMessage(trail, Completed, |data|, epochs, epochs, 0);
      TestedAfter(trail, Completed);
      log := trail + [Completed];
      outcome := Finished;
    }

    /** `train` on a network that is not training: the run planned from the
        shuffles, its batches `full` applied one by one until the run ends. */
    method TrainIdle(data: seq<Sample>, learningRate: real, epochs: nat, batchSize: nat, testData: Option<seq<Sample>>,
                     shuffled: seq<seq<Sample>>, stopAfter: Option<nat>)
      returns (outcome: Outcome, ghost full: seq<seq<Sample>>, ghost applied: nat, ghost log: seq<Event>)
      requires Valid() && TargetFits(sizes) && SamplesFit(sizes, data) && batchSize > 0 && !isTraining
      requires ShufflesOf(data, shuffled, epochs)
      modifies this`weights, this`biases, this`isTraining
      ensures Valid()
      ensures outcome == ExpectedOutcome(false, |data|, epochs, batchSize, stopAfter)
      ensures full == Schedule(shuffled, epochs, batchSize) && BatchesFit(sizes, full)
      ensures applied <= |full|
      ensures State() == ApplyBatches(sizes, activation, old(State()), full[..applied], learningRate, batchSize)
      ensures outcome == Finished ==> applied == |full|
      ensures outcome.Stopped? ==> applied == outcome.examples / batchSize
      ensures outcome.Threw? ==> applied == outcome.dataIndex / batchSize
      ensures isTraining <==> outcome.Threw?
      ensures |log| > 0 && log[0] == Started
      ensures Completed in log <==> outcome == Finished
      ensures outcome == Finished ==> log[|log| - 1] == Completed
      ensures ReportsSoFar(log, |data|, epochs, epochs, 0)
      ensures TestedEpochs(log) == (if testData.Some? then EpochsUpTo(CompletedEpochs(outcome, |data|, batchSize, epochs)) else [])
    {
      full := Schedule(shuffled, epochs, batchSize);
      ScheduleFits(sizes, data, shuffled, epochs, batchSize);
      ghost var st0 := State();
      ghost var states := TrajectoryOf(sizes, activation, st0, full, learningRate, batchSize);
      ghost var offsets := OffsetsOf(shuffled, epochs, batchSize);
      outcome, applied, log :=
        StartRun(data, learningRate, epochs, batchSize, testData, shuffled, stopAfter, st0, full, states, offsets);
      if outcome == Finished {
        assert full[..applied] == full;
      }
    }

    /** `train`: mini-batch gradient descent. A call made while training is under
        way returns at once. Each epoch trains on its shuffle of the data
        (`shuffled[i]`) batch by batch, applying a batch's deltas at rate
        `learningRate / batchSize` once all its examples are in; before each
        example the training flag is checked, and a cleared flag ends the run
        without applying the unfinished batch. `stopAfter` says after how many
        examples a callback clears the flag; the batch count `data.length /
        batchSize` is not rounded, so without an even split the first epoch
        reads `data[data.length]` and throws, leaving the flag set. */
    method Train(data: seq<Sample>, learningRate: real, epochs: nat, batchSize: nat, testData: Option<seq<Sample>>,
                 shuffled: seq<seq<Sample>>, stopAfter: Option<nat>)
      returns (outcome: Outcome, ghost full: seq<seq<Sample>>, ghost applied: nat, ghost log: seq<Event>)
      requires Valid() && TargetFits(sizes) && SamplesFit(sizes, data) && batchSize > 0
      requires ShufflesOf(data, shuffled, epochs)
      modifies this
      ensures Valid()
      ensures outcome == ExpectedOutcome(old(isTraining), |data|, epochs, batchSize, stopAfter)
      ensures full == Schedule(shuffled, epochs, batchSize) && BatchesFit(sizes, full)
      ensures applied <= |full|
      ensures State() == ApplyBatches(sizes, activation, old(State()), full[..applied], learningRate, batchSize)
      ensures outcome == Finished ==> applied == |full|
      ensures outcome.Stopped? ==> applied == outcome.examples / batchSize
      ensures outcome.Threw? ==> applied == outcome.dataIndex / batchSize
      ensures isTraining <==> outcome == AlreadyTraining || outcome.Threw?
      ensures old(isTraining) ==> applied == 0 && State() == old(State()) && log == []
      ensures outcome != AlreadyTraining ==> |log| > 0 && log[0] == Started
      ensures outcome != AlreadyTraining ==> (Completed in log <==> outcome == Finished)
      ensures outcome == Finished ==> log[|log| - 1] == Completed
      ensures ReportsSoFar(log, |data|, epochs, epochs, 0)
      ensures TestedEpochs(log) == (if testData.Some? then EpochsUpTo(CompletedEpochs(outcome, |data|, batchSize, epochs)) else [])
    {
      if isTraining {
        full := Schedule(shuffled, epochs, batchSize);
        ScheduleFits(sizes, data, shuffled, epochs, batchSize);
        return AlreadyTraining, full, 0, [];
      }
      outcome, full, applied, log := TrainIdle(data, learningRate, epochs, batchSize, testData, shuffled, stopAfter);
    }

    /** `testImage`: the first index of the largest output (-1 for an empty output). */
    method TestImage(data: seq<real>) returns (digit: int)
      requires Valid() && |data| <= sizes[0]
      ensures digit == FavouredIndex(Output(sizes, activation, State(), data))
      ensures |sizes| >= 2 ==> 0 <= digit < sizes[|sizes| - 1] || sizes[|sizes| - 1] == 0
    {
      var result := FeedForward(data, false);
      var values := result.values;
      if |values| == 0 {
        digit := -1;
      } else {
        var favouredValue := MaxOf(values);
        digit := IndexOf(values, favouredValue);
      }
    }

    /** `test`: how many samples the network classifies as their label. */
    method Test(data: seq<Sample>) returns (correct: nat)
      requires Valid() && InputsFit(sizes, data)
      ensures correct == Score(data, Predictions(sizes, activation, State(), data))
      ensures correct <= |data|
    {
      ghost var predicted := Predictions(sizes, activation, State(), data);
      var results: seq<int> := [];
      for i := 0 to |data|
        invariant |results| == i
        invariant forall m :: 0 <= m < i ==> results[m] == predicted[m]
      {
        var actual := TestImage(data[i].pixels);
        results := results + [actual];
      }
      assert results == predicted;
      correct := Score(data, results);
    }
  }
}
