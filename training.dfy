/** Mini-batch gradient descent as a specification: the deltas one example and one
    batch contribute, the batches of an epoch, the order in which the trainer
    applies them, how a run ends, and the progress values it reports. */
module Training {
  import opened DataLoader
  import opened Parameters
  import opened Forward
  import opened Backprop
  import opened Classify

  /** How a call of `train` ends. `Stopped` records how many examples had been
      processed when the cancellation check returned; `Threw` records the
      out-of-range `dataIndex` whose sample `trainOneInput` cannot destructure. */
  datatype Outcome = AlreadyTraining | Stopped(examples: nat) | Finished | Threw(dataIndex: nat)

  /** What the trainer reports through its logger and update handler. A progress
      report names the example it follows (epoch and index within the shuffled
      data); the number handed to the handler is `Progress` of that position. */
  datatype Event = Started | Progressed(epoch: nat, dataIndex: nat) | EpochTested(completedEpoch: nat) | Completed

  /** expectedResult has ten entries, so the output layer may have at most ten
      neurons (a wider one would read undefined targets). */
  predicate TargetFits(sizes: seq<nat>)
  {
    |sizes| >= 1 && (|sizes| >= 2 ==> sizes[|sizes| - 1] <= 10)
  }

  /** Every sample's image has exactly one value per input neuron. */
  ghost predicate SamplesFit(sizes: seq<nat>, data: seq<Sample>)
  {
    |sizes| >= 1 && forall i :: 0 <= i < |data| ==> |data[i].pixels| == sizes[0]
  }

  /** `trainOneInput`: the buffers `d` after adding the gradient of one example,
      computed from the forward trace, the one-hot target and the backpropagated errors. */
  function WithExample(sizes: seq<nat>, act: real -> real, st: NetworkState, d: NetworkState, s: Sample): (d': NetworkState)
    requires Shaped(sizes, st) && Shaped(sizes, d) && TargetFits(sizes) && |s.pixels| == sizes[0]
    ensures Shaped(sizes, d')
  {
    var fr := Trace(sizes, act, st, s.pixels);
    Accumulated(sizes, d, s.pixels, Errors(sizes, st, fr, ExpectedResult(s.digit)), fr)
  }

  /** The buffers after the examples of `batch`, starting from zero buffers. */
  function BatchDeltas(sizes: seq<nat>, act: real -> real, st: NetworkState, batch: seq<Sample>): (d: NetworkState)
    requires Shaped(sizes, st) && TargetFits(sizes) && SamplesFit(sizes, batch)
    ensures Shaped(sizes, d)
  {
    if |batch| == 0 then Zeros(sizes)
    else
      var n := |batch| - 1;
      WithExample(sizes, act, st, BatchDeltas(sizes, act, st, batch[..n]), batch[n])
  }

  /** One step of gradient descent: the batch's deltas applied at rate `learningRate / batchSize`. */
  function TrainBatch(sizes: seq<nat>, act: real -> real, st: NetworkState, batch: seq<Sample>,
                      learningRate: real, batchSize: nat): (st': NetworkState)
    requires Shaped(sizes, st) && TargetFits(sizes) && SamplesFit(sizes, batch) && batchSize > 0
    ensures Shaped(sizes, st')
  {
    Updated(sizes, st, BatchDeltas(sizes, act, st, batch), learningRate / batchSize as real)
  }

  /** `partials` lists the buffers while the examples of `samples` are fed in
      order: entry `k` holds the deltas of the first `k` of them. */
  ghost predicate Filling(sizes: seq<nat>, act: real -> real, st: NetworkState, samples: seq<Sample>,
                          partials: seq<NetworkState>)
    requires Shaped(sizes, st) && TargetFits(sizes) && SamplesFit(sizes, samples)
  {
    && |partials| == |samples| + 1
    && forall k {:trigger BatchDeltas(sizes, act, st, samples[..k])} :: 0 <= k <= |samples| ==>
         SamplesFit(sizes, samples[..k]) && partials[k] == BatchDeltas(sizes, act, st, samples[..k])
  }

  /** Feeding one more example adds its gradient to the buffers. */
  lemma FillingStep(sizes: seq<nat>, act: real -> real, st: NetworkState, samples: seq<Sample>,
                    partials: seq<NetworkState>, k: nat, k': nat)
    requires Shaped(sizes, st) && TargetFits(sizes) && SamplesFit(sizes, samples)
    requires Filling(sizes, act, st, samples, partials)
    requires k' == k + 1 && k < |samples|
    ensures Shaped(sizes, partials[k])
    ensures partials[k'] == WithExample(sizes, act, st, partials[k], samples[k])
  {
    assert samples[..k'][..k] == samples[..k];
    assert BatchDeltas(sizes, act, st, samples[..k'])
      == WithExample(sizes, act, st, BatchDeltas(sizes, act, st, samples[..k]), samples[k]);
  }

  /** The buffers along the examples of `samples`, from zero buffers. */
  ghost method FillingOf(sizes: seq<nat>, act: real -> real, st: NetworkState, samples: seq<Sample>)
    returns (partials: seq<NetworkState>)
    requires Shaped(sizes, st) && TargetFits(sizes) && SamplesFit(sizes, samples)
    ensures Filling(sizes, act, st, samples, partials)
    ensures partials[0] == Zeros(sizes)
  {
    forall k | 0 <= k <= |samples|
      ensures SamplesFit(sizes, samples[..k])
    {
      assert forall i :: 0 <= i < k ==> samples[..k][i] == samples[i];
    }
    partials := seq(|samples| + 1, k requires 0 <= k <= |samples| => BatchDeltas(sizes, act, st, samples[..k]));
    forall k | 0 <= k <= |samples|
      ensures partials[k] == BatchDeltas(sizes, act, st, samples[..k])
    {
    }
  }

  /** Every batch fits the input layer. */
  ghost predicate BatchesFit(sizes: seq<nat>, batches: seq<seq<Sample>>)
  {
    forall b :: 0 <= b < |batches| ==> SamplesFit(sizes, batches[b])
  }

  /** The parameters after the batches have been applied in order. */
  function ApplyBatches(sizes: seq<nat>, act: real -> real, st: NetworkState, batches: seq<seq<Sample>>,
                        learningRate: real, batchSize: nat): (st': NetworkState)
    requires Shaped(sizes, st) && TargetFits(sizes) && BatchesFit(sizes, batches) && batchSize > 0
    ensures Shaped(sizes, st')
  {
    if |batches| == 0 then st
    else
      var n := |batches| - 1;
      TrainBatch(sizes, act, ApplyBatches(sizes, act, st, batches[..n], learningRate, batchSize),
                 batches[n], learningRate, batchSize)
  }

  /** Applying one more batch of a list is one more step of gradient descent. */
  lemma ApplyNext(sizes: seq<nat>, act: real -> real, st: NetworkState, batches: seq<seq<Sample>>, n: nat, n': nat,
                  learningRate: real, batchSize: nat)
    requires Shaped(sizes, st) && TargetFits(sizes) && BatchesFit(sizes, batches) && batchSize > 0
    requires n' == n + 1 && n < |batches|
    ensures BatchesFit(sizes, batches[..n]) && BatchesFit(sizes, batches[..n'])
    ensures ApplyBatches(sizes, act, st, batches[..n'], learningRate, batchSize)
      == TrainBatch(sizes, act, ApplyBatches(sizes, act, st, batches[..n], learningRate, batchSize),
                    batches[n], learningRate, batchSize)
  {
    assert batches[..n'][..n] == batches[..n];
  }

  /** `states` lists the parameters before the first batch and after each one:
      entry `n` is where the first `n` batches take `st`. */
  ghost predicate Trajectory(sizes: seq<nat>, act: real -> real, st: NetworkState, batches: seq<seq<Sample>>,
                             learningRate: real, batchSize: nat, states: seq<NetworkState>)
    requires Shaped(sizes, st) && TargetFits(sizes) && BatchesFit(sizes, batches) && batchSize > 0
  {
    && |states| == |batches| + 1
    && forall n {:trigger ApplyBatches(sizes, act, st, batches[..n], learningRate, batchSize)} ::
         0 <= n <= |batches| ==>
           BatchesFit(sizes, batches[..n]) && states[n] == ApplyBatches(sizes, act, st, batches[..n], learningRate, batchSize)
  }

  /** Along a trajectory, each entry is one step of gradient descent on the one before. */
  lemma TrajectoryStep(sizes: seq<nat>, act: real -> real, st: NetworkState, batches: seq<seq<Sample>>,
                       learningRate: real, batchSize: nat, states: seq<NetworkState>, n: nat, n': nat)
    requires Shaped(sizes, st) && TargetFits(sizes) && BatchesFit(sizes, batches) && batchSize > 0
    requires Trajectory(sizes, act, st, batches, learningRate, batchSize, states)
    requires n' == n + 1 && n < |batches|
    ensures Shaped(sizes, states[n])
    ensures states[n'] == TrainBatch(sizes, act, states[n], batches[n], learningRate, batchSize)
  {
    ApplyNext(sizes, act, st, batches, n, n', learningRate, batchSize);
  }

  /** The trajectory of gradient descent over `batches`. */
  ghost method TrajectoryOf(sizes: seq<nat>, act: real -> real, st: NetworkState, batches: seq<seq<Sample>>,
                            learningRate: real, batchSize: nat) returns (states: seq<NetworkState>)
    requires Shaped(sizes, st) && TargetFits(sizes) && BatchesFit(sizes, batches) && batchSize > 0
    ensures Trajectory(sizes, act, st, batches, learningRate, batchSize, states)
    ensures states[0] == st
  {
    forall n | 0 <= n <= |batches|
      ensures BatchesFit(sizes, batches[..n])
    {
      assert forall b :: 0 <= b < n ==> batches[..n][b] == batches[b];
    }
    states := seq(|batches| + 1, n requires 0 <= n <= |batches| =>
                    ApplyBatches(sizes, act, st, batches[..n], learningRate, batchSize));
    forall n | 0 <= n <= |batches|
      ensures states[n] == ApplyBatches(sizes, act, st, batches[..n], learningRate, batchSize)
    {
    }
  }

  /** The complete batches of one epoch: consecutive runs of `batchSize` samples;
      a shorter remainder forms no batch. */
  function Chunks<T>(d: seq<T>, batchSize: nat): (c: seq<seq<T>>)
    requires batchSize > 0
    ensures forall j :: 0 <= j < |c| ==> |c[j]| == batchSize
    decreases |d|
  {
    if |d| < batchSize then [] else [d[..batchSize]] + Chunks(d[batchSize..], batchSize)
  }

  /** Sequences laid end to end. */
  function Concat<T>(ss: seq<seq<T>>): seq<T>
  {
    if |ss| == 0 then [] else ss[0] + Concat(ss[1..])
  }

  /** The batches of the first `epochs` epochs, epoch by epoch, each epoch drawing
      its batches from its own shuffle of the data. */
  function Schedule(shuffled: seq<seq<Sample>>, epochs: nat, batchSize: nat): seq<seq<Sample>>
    requires batchSize > 0 && epochs <= |shuffled|
  {
    if epochs == 0 then [] else Schedule(shuffled, epochs - 1, batchSize) + Chunks(shuffled[epochs - 1], batchSize)
  }

  /** A positive multiple of a positive number is at least that number. */
  lemma MultipleAtLeast(a: int, b: int, p: int)
    requires a >= 1 && b > 0 && p == a * b
    ensures p >= b
  {
    assert p - b == (a - 1) * b;
  }

  /** Euclidean division is determined by a quotient and a remainder in range. */
  lemma DivMod(x: int, b: int, q: int, r: int)
    requires b > 0 && 0 <= r < b && x == q * b + r
    ensures x / b == q && x % b == r
  {
    var q', r' := x / b, x % b;
    var dq := q' - q;
    var p := dq * b;
    assert p == q' * b - q * b;
    assert p == r - r';
    if dq >= 1 {
      MultipleAtLeast(dq, b, p);
    } else if dq <= -1 {
      MultipleAtLeast(-dq, b, -p);
    }
  }

  /** Batch `j` of an epoch holds the samples at positions `j*batchSize` up to
      `(j+1)*batchSize`, whenever those all exist. */
  lemma {:induction false} ChunkAt<T>(d: seq<T>, batchSize: nat, j: nat)
    requires batchSize > 0 && j * batchSize + batchSize <= |d|
    ensures j < |Chunks(d, batchSize)|
    ensures Chunks(d, batchSize)[j] == d[j * batchSize..j * batchSize + batchSize]
    decreases j
  {
    if j > 0 {
      var rest := d[batchSize..];
      assert (j - 1) * batchSize + batchSize == j * batchSize;
      ChunkAt(rest, batchSize, j - 1);
      assert rest[(j - 1) * batchSize..(j - 1) * batchSize + batchSize]
        == d[j * batchSize..j * batchSize + batchSize];
    }
  }

  /** Taking one batch off the front lowers the quotient by one and keeps the remainder. */
  lemma DivModStep(x: int, b: int)
    requires b > 0 && x >= b
    ensures x / b == (x - b) / b + 1 && x % b == (x - b) % b
  {
    DivMod(x, b, (x - b) / b + 1, (x - b) % b);
  }

  /** An epoch makes `floor(|d| / batchSize)` updates. */
  lemma {:induction false} ChunksCount<T>(d: seq<T>, batchSize: nat)
    requires batchSize > 0
    ensures |Chunks(d, batchSize)| == |d| / batchSize
    decreases |d|
  {
    if |d| < batchSize {
      DivMod(|d|, batchSize, 0, |d|);
    } else {
      ChunksCount(d[batchSize..], batchSize);
      DivModStep(|d|, batchSize);
    }
  }

  /** An epoch's batches laid end to end give the data up to a remainder shorter
      than one batch. */
  lemma {:induction false} ChunksCover<T>(d: seq<T>, batchSize: nat)
    requires batchSize > 0
    ensures Concat(Chunks(d, batchSize)) + d[|d| - |d| % batchSize..] == d
    decreases |d|
  {
    if |d| < batchSize {
      DivMod(|d|, batchSize, 0, |d|);
    } else {
      var rest := d[batchSize..];
      ChunksCover(rest, batchSize);
      DivModStep(|d|, batchSize);
      assert d[|d| - |d| % batchSize..] == rest[|rest| - |rest| % batchSize..];
      FirstChunk(d, batchSize, d[|d| - |d| % batchSize..]);
    }
  }

  /** Putting one batch in front of the batches of the rest of the data. */
  lemma FirstChunk<T>(d: seq<T>, batchSize: nat, tail: seq<T>)
    requires 0 < batchSize <= |d|
    requires Concat(Chunks(d[batchSize..], batchSize)) + tail == d[batchSize..]
    ensures Concat(Chunks(d, batchSize)) + tail == d
  {
    var c := Chunks(d, batchSize);
    var rest := d[batchSize..];
    assert c[0] == d[..batchSize] && c[1..] == Chunks(rest, batchSize);
    calc {
      Concat(c) + tail;
      d[..batchSize] + (Concat(Chunks(rest, batchSize)) + tail);
      d[..batchSize] + rest;
      d;
    }
  }

  /** When the batch size divides the data, the epoch's batches use every sample
      exactly once, in the order of the shuffle. */
  lemma EpochCoversData<T>(d: seq<T>, batchSize: nat)
    requires batchSize > 0 && |d| % batchSize == 0
    ensures |Chunks(d, batchSize)| * batchSize == |d|
    ensures Concat(Chunks(d, batchSize)) == d
  {
    ChunksCount(d, batchSize);
    ChunksCover(d, batchSize);
    assert d[|d|..] == [];
    assert Concat(Chunks(d, batchSize)) + [] == Concat(Chunks(d, batchSize));
  }

  /** When every epoch's shuffle has the length of the data and the batch size
      divides it, `e` epochs make `e * (len / batchSize)` updates. */
  lemma {:induction false} ScheduleLength(shuffled: seq<seq<Sample>>, e: nat, len: nat, batchSize: nat)
    requires batchSize > 0 && e <= |shuffled| && len % batchSize == 0
    requires forall i :: 0 <= i < |shuffled| ==> |shuffled[i]| == len
    ensures |Schedule(shuffled, e, batchSize)| == e * (len / batchSize)
  {
    if e > 0 {
      var q := len / batchSize;
      ScheduleLength(shuffled, e - 1, len, batchSize);
      ChunksCount(shuffled[e - 1], batchSize);
      assert |Chunks(shuffled[e - 1], batchSize)| == q;
      assert e * q == (e - 1) * q + q;
    }
  }

  /** The schedule of fewer epochs is a prefix of the schedule of more. */
  lemma {:induction false} SchedulePrefix(shuffled: seq<seq<Sample>>, e: nat, e': nat, batchSize: nat)
    requires batchSize > 0 && e <= e' <= |shuffled|
    ensures Schedule(shuffled, e, batchSize) <= Schedule(shuffled, e', batchSize)
    decreases e'
  {
    if e < e' {
      SchedulePrefix(shuffled, e, e' - 1, batchSize);
    }
  }

  /** `train`'s result, predicted from the sizes alone. `stopAfter` is the number of
      examples after which a logger or update-handler callback calls
      `stopTraining` (0: during the 'Started Training' message). Without an even
      split, the first epoch's last batch reads `data[len]` and throws, unless
      the run was stopped before that read. */
  function ExpectedOutcome(wasTraining: bool, len: nat, epochs: nat, batchSize: nat, stopAfter: Option<nat>): (o: Outcome)
    requires batchSize > 0
    ensures o == AlreadyTraining <==> wasTraining
    ensures o.Stopped? ==> stopAfter == Some(o.examples) && o.examples <= epochs * len
    ensures o.Threw? ==> o.dataIndex == len && epochs > 0 && len % batchSize != 0
    ensures o == Finished ==> (epochs == 0 || len % batchSize == 0) && (stopAfter.None? || stopAfter.value >= epochs * len)
  {
    if wasTraining then AlreadyTraining
    else if epochs > 0 && len % batchSize != 0 then
      if stopAfter.Some? && stopAfter.value <= len then Stopped(stopAfter.value) else Threw(len)
    else if stopAfter.Some? && stopAfter.value < epochs * len then Stopped(stopAfter.value)
    else Finished
  }

  /** The value passed to the update handler after example `dataIndex` of epoch
      `epoch`: `((dataIndex / len * 100) / epochs) + epoch * (100 / epochs)`. */
  function Progress(epoch: nat, dataIndex: nat, len: nat, epochs: nat): (p: real)
    requires len > 0 && epochs > 0
    ensures p >= 0.0
  {
    ((dataIndex as real / len as real * 100.0) / epochs as real) + (epoch as real * (100.0 / epochs as real))
  }

  /** The progress value is the fraction of epochs completed, scaled to 100. */
  lemma ProgressForm(epoch: nat, dataIndex: nat, len: nat, epochs: nat)
    requires len > 0 && epochs > 0
    ensures Progress(epoch, dataIndex, len, epochs)
      == (epoch as real + dataIndex as real / len as real) * (100.0 / epochs as real)
  {
  }

  /** A product of two positive reals is positive. */
  lemma PositiveProduct(a: real, b: real)
    requires a > 0.0 && b > 0.0
    ensures a * b > 0.0
  {
  }

  /** Progress strictly increases from one example to any later one, across
      epoch boundaries too. */
  lemma ProgressIncreases(e: nat, d: nat, e': nat, d': nat, len: nat, epochs: nat)
    requires len > 0 && epochs > 0 && d < len
    requires e < e' || (e == e' && d < d')
    ensures Progress(e, d, len, epochs) < Progress(e', d', len, epochs)
  {
    ProgressForm(e, d, len, epochs);
    ProgressForm(e', d', len, epochs);
    var t := e as real + d as real / len as real;
    var t' := e' as real + d' as real / len as real;
    var u := 100.0 / epochs as real;
    assert d as real / len as real < 1.0;
    if e == e' {
      assert d as real / len as real < d' as real / len as real;
    }
    assert t < t';
    PositiveProduct(t' - t, u);
    assert t' * u - t * u == (t' - t) * u;
  }

  /** Every progress value of a run lies in [0, 100). */
  lemma ProgressBelowHundred(e: nat, d: nat, len: nat, epochs: nat)
    requires len > 0 && epochs > 0 && d < len && e < epochs
    ensures 0.0 <= Progress(e, d, len, epochs) < 100.0
  {
    ProgressForm(e, d, len, epochs);
    var t := e as real + d as real / len as real;
    var u := 100.0 / epochs as real;
    assert 0.0 <= d as real / len as real < 1.0;
    assert 0.0 <= t < epochs as real;
    PositiveProduct(epochs as real - t, u);
    assert epochs as real * u == 100.0;
    assert epochs as real * u - t * u == (epochs as real - t) * u;
  }

  /** Each value is smaller than the next. */
  predicate StrictlyIncreasing(vs: seq<real>)
  {
    forall a, b :: 0 <= a < b < |vs| ==> vs[a] < vs[b]
  }
  /** Each epoch's data is a shuffle (a permutation) of the training data. */
  ghost predicate ShufflesOf(data: seq<Sample>, shuffled: seq<seq<Sample>>, epochs: nat)
  {
    epochs <= |shuffled| && forall i :: 0 <= i < epochs ==> multiset(shuffled[i]) == multiset(data)
  }

  /** A shuffle of fitting samples has the same length and fits too. */
  lemma ShuffleFits(sizes: seq<nat>, data: seq<Sample>, s: seq<Sample>)
    requires SamplesFit(sizes, data) && multiset(s) == multiset(data)
    ensures |s| == |data| && SamplesFit(sizes, s)
  {
    assert |multiset(s)| == |s| && |multiset(data)| == |data|;
    forall i | 0 <= i < |s|
      ensures |s[i].pixels| == sizes[0]
    {
      assert s[i] in multiset(s);
      assert s[i] in data;
    }
  }

  /** The batches of fitting data fit. */
  lemma {:induction false} ChunksFit(sizes: seq<nat>, d: seq<Sample>, batchSize: nat)
    requires batchSize > 0 && SamplesFit(sizes, d)
    ensures BatchesFit(sizes, Chunks(d, batchSize))
    decreases |d|
  {
    if |d| >= batchSize {
      ChunksFit(sizes, d[batchSize..], batchSize);
      assert Chunks(d, batchSize) == [d[..batchSize]] + Chunks(d[batchSize..], batchSize);
    }
  }

  /** The schedule of a run over shuffles of fitting data fits. */
  lemma {:induction false} ScheduleFits(sizes: seq<nat>, data: seq<Sample>, shuffled: seq<seq<Sample>>, e: nat, batchSize: nat)
    requires batchSize > 0 && SamplesFit(sizes, data) && ShufflesOf(data, shuffled, e)
    ensures BatchesFit(sizes, Schedule(shuffled, e, batchSize))
  {
    if e > 0 {
      ScheduleFits(sizes, data, shuffled, e - 1, batchSize);
      ShuffleFits(sizes, data, shuffled[e - 1]);
      ChunksFit(sizes, shuffled[e - 1], batchSize);
    }
  }

  /** The batches of epoch `i` follow the batches of the epochs before it in the
      schedule of the whole run. */
  lemma ScheduleEpoch(shuffled: seq<seq<Sample>>, i: nat, e: nat, batchSize: nat, full: seq<seq<Sample>>, applied: nat)
    requires batchSize > 0 && i < e <= |shuffled|
    requires full == Schedule(shuffled, e, batchSize) && applied == |Schedule(shuffled, i, batchSize)|
    ensures applied + |Chunks(shuffled[i], batchSize)| == |Schedule(shuffled, i + 1, batchSize)| <= |full|
    ensures full[applied..|Schedule(shuffled, i + 1, batchSize)|] == Chunks(shuffled[i], batchSize)
  {
    SchedulePrefix(shuffled, i + 1, e, batchSize);
    var before := Schedule(shuffled, i, batchSize);
    var upTo := Schedule(shuffled, i + 1, batchSize);
    assert upTo == before + Chunks(shuffled[i], batchSize);
    assert upTo[|before|..] == Chunks(shuffled[i], batchSize);
  }

  /** `offsets` marks where each epoch's batches begin among the batches `full`
      of the run: entry `i` counts the batches of the epochs before epoch `i`,
      and the batches of epoch `i` follow from there. */
  ghost predicate Laid(shuffled: seq<seq<Sample>>, epochs: nat, batchSize: nat, full: seq<seq<Sample>>,
                       offsets: seq<nat>)
    requires batchSize > 0 && epochs <= |shuffled|
  {
    && |offsets| == epochs + 1 && offsets[0] == 0 && offsets[epochs] == |full|
    && forall i {:trigger shuffled[i]} :: 0 <= i < epochs ==>
         && offsets[i] + |Chunks(shuffled[i], batchSize)| == offsets[i + 1] <= |full|
         && full[offsets[i]..offsets[i + 1]] == Chunks(shuffled[i], batchSize)
  }

  /** Where the epochs' batches begin in the schedule of a run. */
  ghost method OffsetsOf(shuffled: seq<seq<Sample>>, epochs: nat, batchSize: nat) returns (offsets: seq<nat>)
    requires batchSize > 0 && epochs <= |shuffled|
    ensures Laid(shuffled, epochs, batchSize, Schedule(shuffled, epochs, batchSize), offsets)
  {
    offsets := seq(epochs + 1, i requires 0 <= i <= epochs => |Schedule(shuffled, i, batchSize)|);
    EpochsLaid(shuffled, epochs, batchSize, offsets);
  }

  /** Counting the batches of the schedule before each epoch lays the epochs out. */
  lemma EpochsLaid(shuffled: seq<seq<Sample>>, epochs: nat, batchSize: nat, offsets: seq<nat>)
    requires batchSize > 0 && epochs <= |shuffled| && |offsets| == epochs + 1
    requires forall i :: 0 <= i <= epochs ==> offsets[i] == |Schedule(shuffled, i, batchSize)|
    ensures Laid(shuffled, epochs, batchSize, Schedule(shuffled, epochs, batchSize), offsets)
  {
    var full := Schedule(shuffled, epochs, batchSize);
    forall i {:trigger shuffled[i]} | 0 <= i < epochs
      ensures offsets[i] + |Chunks(shuffled[i], batchSize)| == offsets[i + 1] <= |full|
      ensures full[offsets[i]..offsets[i + 1]] == Chunks(shuffled[i], batchSize)
    {
      ScheduleEpoch(shuffled, i, epochs, batchSize, full, offsets[i]);
    }
    assert offsets[0] == |Schedule(shuffled, 0, batchSize)| == 0;
  }

  /** Multiplying by a non-negative number keeps the order. */
  lemma MulMonotone(a: int, b: int, c: int)
    requires a <= b && c >= 0
    ensures a * c <= b * c
  {
    assert b * c - a * c == (b - a) * c;
  }

  /** One more factor adds one more `c`. */
  lemma MulSucc(a: int, a': int, c: int)
    requires a' == a + 1
    ensures a' * c == a * c + c
  { }

  /** Multiplication distributes over a sum. */
  lemma MulAdd(a: int, b: int, a': int, c: int)
    requires a' == a + b
    ensures a' * c == a * c + b * c
  { }

  /** Below a multiple of the batch size, a whole batch still fits. */
  lemma NextMultiple(len: nat, batchSize: nat, j: nat)
    requires batchSize > 0 && len % batchSize == 0 && j * batchSize < len
    ensures j * batchSize + batchSize <= len
  {
    var q := len / batchSize;
    assert len == q * batchSize;
    if j + 1 > q {
      MulMonotone(q, j, batchSize);
    } else {
      MulMonotone(j + 1, q, batchSize);
    }
  }

  /** If example `j*batchSize + k` of a batch that starts before the end of the
      data is index `len`, the batch size does not divide `len`. */
  lemma OverrunOnlyWithoutEvenSplit(len: nat, batchSize: nat, j: nat, k: nat)
    requires batchSize > 0 && k < batchSize && j * batchSize < len && j * batchSize + k == len
    ensures len % batchSize != 0
  {
    if len % batchSize == 0 {
      NextMultiple(len, batchSize, j);
    }
  }

  /** An interruption in epoch `i`, after the `processed` examples and `applied`
      batches of the epochs before it and `examples` examples and `k` batches of
      its own, with the training flag then `training`, is the outcome predicted
      for the run, and the batches applied by then are those the interrupted
      example's index counts. */
  lemma InterruptedRun(len: nat, epochs: nat, batchSize: nat, stopAfter: Option<nat>, training: bool,
                       i: nat, processed: nat, applied: nat, k: nat, examples: nat, outcome: Outcome)
    requires batchSize > 0 && i < epochs && (i > 0 ==> len % batchSize == 0)
    requires processed == i * len && processed == applied * batchSize
    requires k * batchSize <= examples < k * batchSize + batchSize && examples <= len
    requires training == !(stopAfter.Some? && stopAfter.value <= processed + examples)
    requires stopAfter.Some? ==> processed + examples <= stopAfter.value
    requires outcome.Stopped? || outcome.Threw?
    requires outcome.Stopped? ==>
      outcome.examples == processed + examples && !training && (len % batchSize == 0 ==> examples < len)
    requires outcome.Threw? ==> outcome.dataIndex == examples == len && len % batchSize != 0 && training
    ensures outcome == ExpectedOutcome(false, len, epochs, batchSize, stopAfter)
    ensures outcome.Stopped? ==> outcome.examples / batchSize == applied + k
    ensures outcome.Threw? ==> outcome.dataIndex / batchSize == applied + k
  {
    MulAdd(applied, k, applied + k, batchSize);
    if outcome.Stopped? {
      DivMod(outcome.examples, batchSize, applied + k, examples - k * batchSize);
      if len % batchSize == 0 {
        MulSucc(i, i + 1, len);
        MulMonotone(i + 1, epochs, len);
      }
    } else {
      if applied > 0 {
        MulMonotone(1, applied, batchSize);
      }
      DivMod(outcome.dataIndex, batchSize, k, examples - k * batchSize);
    }
  }

  /** An epoch that runs to its end over its shuffle of `len` samples applies
      `k` batches of `batchSize` examples: the run's counts advance by one epoch. */
  lemma EpochCompleted(len: nat, batchSize: nat, i: nat, processed: nat, applied: nat, k: nat, applied': nat)
    requires k * batchSize == len && applied' == applied + k
    requires processed == i * len && processed == applied * batchSize
    ensures processed + len == (i + 1) * len && processed + len == applied' * batchSize
  {
    MulAdd(applied, k, applied', batchSize);
    MulSucc(i, i + 1, len);
  }

  /** Example `dataIndex` of epoch `epoch` comes before example `dataIndex'` of epoch `epoch'`. */
  predicate Earlier(epoch: nat, dataIndex: nat, epoch': nat, dataIndex': nat)
  {
    epoch < epoch' || (epoch == epoch' && dataIndex < dataIndex')
  }

  /** The progress reports among the events name examples of a run of `epochs`
      epochs over `len` samples, each one later than the report before it, and
      all of them before example `next` of epoch `epoch`. */
  predicate ReportsSoFar(events: seq<Event>, len: nat, epochs: nat, epoch: nat, next: nat)
    decreases |events|
  {
    if |events| == 0 then true
    else
      var e := events[|events| - 1];
      var rest := events[..|events| - 1];
      if e.Progressed? then
        && e.dataIndex < len && e.epoch < epochs
        && Earlier(e.epoch, e.dataIndex, epoch, next)
        && ReportsSoFar(rest, len, epochs, e.epoch, e.dataIndex)
      else
        ReportsSoFar(rest, len, epochs, epoch, next)
  }

  /** The numbers handed to the update handler, one per progress report, in order. */
  function ProgressValues(events: seq<Event>, len: nat, epochs: nat): (vs: seq<real>)
    requires len > 0 && epochs > 0
    ensures |vs| <= |events|
  {
    if |events| == 0 then []
    else
      var e := events[|events| - 1];
      var vs := ProgressValues(events[..|events| - 1], len, epochs);
      if e.Progressed? then vs + [Progress(e.epoch, e.dataIndex, len, epochs)] else vs
  }

  /** Reports made in the order of the run give progress values that strictly
      increase, stay in [0, 100) and lie below the progress of example `next`
      of epoch `epoch`. */
  lemma {:induction false} ProgressOfRun(events: seq<Event>, len: nat, epochs: nat, epoch: nat, next: nat)
    requires len > 0 && epochs > 0 && ReportsSoFar(events, len, epochs, epoch, next)
    ensures StrictlyIncreasing(ProgressValues(events, len, epochs))
    ensures forall m :: 0 <= m < |ProgressValues(events, len, epochs)| ==>
      0.0 <= ProgressValues(events, len, epochs)[m] < Progress(epoch, next, len, epochs)
    ensures forall m :: 0 <= m < |ProgressValues(events, len, epochs)| ==> ProgressValues(events, len, epochs)[m] < 100.0
    decreases |events|
  {
    if |events| > 0 {
      var e := events[|events| - 1];
      var rest := events[..|events| - 1];
      var vs := ProgressValues(rest, len, epochs);
      if e.Progressed? {
        ProgressOfRun(rest, len, epochs, e.epoch, e.dataIndex);
        var last := Progress(e.epoch, e.dataIndex, len, epochs);
        ProgressIncreases(e.epoch, e.dataIndex, epoch, next, len, epochs);
        ProgressBelowHundred(e.epoch, e.dataIndex, len, epochs);
        assert ProgressValues(events, len, epochs) == vs + [last];
      } else {
        ProgressOfRun(rest, len, epochs, epoch, next);
      }
    }
  }

  /** Reporting example `dataIndex` of epoch `epoch` keeps the reports in order. */
  lemma ReportExample(events: seq<Event>, len: nat, epochs: nat, epoch: nat, dataIndex: nat, next: nat)
    requires ReportsSoFar(events, len, epochs, epoch, dataIndex)
    requires dataIndex < len && epoch < epochs && next == dataIndex + 1
    ensures ReportsSoFar(events + [Progressed(epoch, dataIndex)], len, epochs, epoch, next)
  {
    assert (events + [Progressed(epoch, dataIndex)])[..|events|] == events;
  }

  /** Logging the test of epoch `epoch` into the log of a run under way keeps
      the log's head, keeps `Completed` out of it, and leaves the reports as
      they were. */
  lemma LogTested(events: seq<Event>, epoch: nat, len: nat, epochs: nat)
    requires |events| > 0 && events[0] == Started && Completed !in events
    requires ReportsSoFar(events, len, epochs, epoch, 0)
    ensures |events + [EpochTested(epoch)]| > 0 && (events + [EpochTested(epoch)])[0] == Started
    ensures Completed !in events + [EpochTested(epoch)]
    ensures ReportsSoFar(events + [EpochTested(epoch)], len, epochs, epoch, 0)
  {
    LogMessage(events, EpochTested(epoch), len, epochs, epoch, 0);
  }

  /** A log message that is not a progress report leaves the reports as they were. */
  lemma LogMessage(events: seq<Event>, e: Event, len: nat, epochs: nat, epoch: nat, next: nat)
    requires ReportsSoFar(events, len, epochs, epoch, next) && !e.Progressed?
    ensures ReportsSoFar(events + [e], len, epochs, epoch, next)
  {
    assert (events + [e])[..|events|] == events;
  }

  /** The epochs whose test message the events log, in the order logged. */
  function TestedEpochs(events: seq<Event>): (tested: seq<nat>)
    ensures |tested| <= |events|
    decreases |events|
  {
    if |events| == 0 then []
    else
      var e := events[|events| - 1];
      var tested := TestedEpochs(events[..|events| - 1]);
      if e.EpochTested? then tested + [e.completedEpoch] else tested
  }

  /** Logging one more event adds its epoch to the tested epochs exactly when
      it is a test message. */
  lemma TestedAfter(events: seq<Event>, e: Event)
    ensures TestedEpochs(events + [e]) == TestedEpochs(events) + (if e.EpochTested? then [e.completedEpoch] else [])
  {
    assert (events + [e])[..|events|] == events;
  }

  /** An epoch is among the tested epochs exactly when its test message is in the events. */
  lemma {:induction false} TestedEpochsLogged(events: seq<Event>, epoch: nat)
    ensures epoch in TestedEpochs(events) <==> EpochTested(epoch) in events
    decreases |events|
  {
    if |events| > 0 {
      var rest := events[..|events| - 1];
      TestedEpochsLogged(rest, epoch);
      assert events == rest + [events[|events| - 1]];
      TestedAfter(rest, events[|events| - 1]);
    }
  }

  /** Epochs 1 to `n` in order: the test messages of a run whose first `n` epochs ran to their end. */
  function EpochsUpTo(n: nat): (s: seq<nat>)
    ensures |s| == n && forall m :: 0 <= m < n ==> s[m] == m + 1
  {
    if n == 0 then [] else EpochsUpTo(n - 1) + [n]
  }

  /** How many epochs a run with the given outcome completes: all of them when
      it finishes, those before the stop when it is stopped with an even split,
      and none otherwise (an uneven split ends the run in its first epoch). */
  function CompletedEpochs(outcome: Outcome, len: nat, batchSize: nat, epochs: nat): nat
    requires batchSize > 0
  {
    match outcome
    case Finished => epochs
    case Stopped(examples) => if len > 0 && len % batchSize == 0 then examples / len else 0
    case _ => 0
  }

  /** Reports made before one example are made before every later example too. */
  lemma {:induction false} ReportsLater(events: seq<Event>, len: nat, epochs: nat, epoch: nat, next: nat,
                                        epoch': nat, next': nat)
    requires ReportsSoFar(events, len, epochs, epoch, next)
    requires epoch < epoch' || (epoch == epoch' && next <= next')
    ensures ReportsSoFar(events, len, epochs, epoch', next')
    decreases |events|
  {
    if |events| > 0 && !events[|events| - 1].Progressed? {
      ReportsLater(events[..|events| - 1], len, epochs, epoch, next, epoch', next');
    }
  }
}
