# neuralnet-test in Dafny: the `NeuralNet` class and the MNIST IDX loader

This project models the core of a small in-browser digit recogniser. The model has two parts.

- **`NeuralNet`** (neuralNet.js) is a fully connected sigmoid network trained by mini-batch gradient descent. The model covers:
  - the parameter layout the constructor builds;
  - the forward pass, and backpropagation with its index arithmetic;
  - the zeroed gradient buffers, the in-place accumulation of one example's gradient, and the in-place parameter update;
  - the one-hot target, `testImage` and `test`;
  - `train`, as a state machine over the `isTraining` flag: the re-entrancy guard, the nested epoch / batch / example loops, the cancellation check before every example, and the progress reports.
- **`fetchData` / `byteArrayToInt`** (dataLoader.js) split an IDX image file and an IDX label file into `[label, pixels]` records. The model works on byte sequences handed in directly.

Modules:

| module | what it holds |
|---|---|
| `Vectors` | `Dot` (the `reduce` of `feedForward` and `hiddenNeuronError`), matrix columns, reversal. |
| `Activation` | The sigmoid's derivative and the two neuron-error formulas. The sigmoid itself is any function into (0,1) (`Squashing`). |
| `Parameters` | `NetworkState` (the `{ weights, biases }` record), its shape, the initial, zero, updated and accumulated parameters. |
| `Forward` | The forward trace and output as functions, and the network as a composition of layers. |
| `Backprop` | The error vectors as functions, and `calculateCost`. |
| `Classify` | `expectedResult`, the favoured index of `testImage`, and the score of `test`. |
| `Training` | Specification of `train`: deltas of an example and of a batch, an epoch's batches (`Chunks`), the run's batches (`Schedule`), the predicted outcome, the progress values and the order of the reports. |
| `Network` | The class `NeuralNet` (fields `weights`, `biases`, `isTraining`, updated in place) and the class `GradientBuffers` (the delta buffers of one batch, updated in place). Each loop of the source is a method proved against the specification functions above. |
| `DataLoader` | Big-endian decoding, the record-splitting loop of `fetchData`, and a round trip through well-formed IDX files. |

How the model reads the source:

- **Numbers.** Numbers are `real`. `Math.exp`, and so the sigmoid, is abstract. The constructor receives it as an argument, and all the model uses is that its values lie strictly between 0 and 1. The Gaussian draws of the constructor are arbitrary functions `w(i, j, k)` and `b(i, j)`.
- **Shuffles and stop requests.** `_.shuffle` is replaced by a given sequence of permutations, one per epoch. The callbacks (`logger`, `handler`) are the only places where `stopTraining` can be called while `train` runs. The parameter `stopAfter` says after how many examples that happens. `Some(0)` means during the 'Started Training' message.
- **Reports.** Messages and progress reports go into a ghost log of `Event`s.
- **Incomplete last batch.** `numBatches = data.length / batchSize` is not rounded (neuralNet.js:77). When `batchSize` does not divide the data, the last batch of the first epoch therefore reaches `data[data.length]`. `trainOneInput` cannot destructure `undefined`, so `train` throws with the flag still set. The model makes that failure explicit as the outcome `Threw(data.length)`.
- **Undefined values.**
  - A label read past the end of the label file (`undefined`) is the digit -1. It matches no target index and no prediction.
  - A header field missing from a short image file is `None`. It stands for the source's `NaN`, and a `NaN` loop bound reads nothing.

## Model

| member | source | states |
|---|---|---|
| Parameters.InitialWeights | neuralNet.js:30-31 | `weights[i]` has `sizes[i+1]` rows of `sizes[i]` entries, entry `[i][j][k]` being the draw `w(i, j, k)` |
| Parameters.InitialBiases | neuralNet.js:34 | `biases[i]` has `sizes[i+1]` entries, entry `[i][j]` being the draw `b(i, j)` |
| Parameters.Initial | neuralNet.js:30-34 | the constructed parameters are shaped by `sizes` and hold the draws |
| Network.NeuralNet.constructor | neuralNet.js:20-38 | the new network keeps `sizes`, `layers == sizes.length` and the activation; its parameters are `Initial(sizes, w, b)`; it is not training |
| Vectors.Column | neuralNet.js:181 | `weights[i+1].map(w => w[j])` has one entry per row |
| Vectors.Dot | neuralNet.js:56 | the `reduce` over the entries of `input` reading the weight row at the same index (also the `reduce` over `nextLayerErrors` at neuralNet.js:231); it is zero when the second operand is all zero over the first's indices (the other direction is Backprop.DotOfZeros) |
| Vectors.Reversed | neuralNet.js:186 | `errorResults.reverse()` keeps the length and swaps the first and last entries |
| Vectors.ReversedTwice | neuralNet.js:186 | reversing twice gives the sequence back, so the reversal loses no entry |
| Forward.Layer | neuralNet.js:54-59 | one output per neuron of the layer |
| Forward.TraceUpTo | neuralNet.js:52-64 | after n layers there are n vectors, vector m of length `sizes[m+1]` |
| Forward.Trace | neuralNet.js:60-65 | the all-layers result has `layers - 1` vectors, the i-th of length `sizes[i+1]` |
| Forward.LayerInput | neuralNet.js:63 | the values fed to layer n+1 have `sizes[n]` entries for n > 0 |
| Forward.Output | neuralNet.js:65 | the last-layer result has `sizes[layers-1]` entries |
| Forward.OutputIsComposition | neuralNet.js:50-66 | the loop's answer equals the independent definition of the network as the composition of its layer maps |
| Forward.TraceInUnitInterval | neuralNet.js:58 | with a sigmoid-like activation, every neuron value of the trace lies in (0,1) |
| Network.LayerValues | neuralNet.js:54-59 | the inner loop of `feedForward` computes `Layer` |
| Network.ForwardPass | neuralNet.js:50-66 | with `returnAllLayers` the loop returns the whole trace, otherwise only the output |
| Network.NeuralNet.FeedForward | neuralNet.js:50-66 | `feedForward` returns `Trace` or `Output` of the current parameters and changes no field |
| Activation.SigmoidDerivative | neuralNet.js:215-217 | `x(1-x)` is at most 1/4 (reached at 1/2), positive on (0,1), zero at 0 and 1, negative outside |
| Activation.OutputNeuronError | neuralNet.js:235-237 | `(expected - output) * activationDerivative(output)` is zero exactly when the output is on target or saturated at 0 or 1 |
| Activation.HiddenNeuronError | neuralNet.js:230-232 | the derivative-weighted sum of the next layer's errors is zero exactly when that weighted sum is zero or the output is saturated at 0 or 1 |
| Activation.OutputErrorPointsToTarget | neuralNet.js:235-237 | for an output in (0,1), the output error has the sign of `expected - output`, is at most a quarter of it in size, and is zero at the target |
| Backprop.LayerErrors | neuralNet.js:176-184 | the errors of layer i have one entry per neuron of that layer |
| Backprop.Errors | neuralNet.js:174-187 | one error vector per forward layer, with the same lengths and in the same order |
| Backprop.OutputLayerErrors | neuralNet.js:235-237 | output error j is `(expected[j] - o) * o * (1 - o)` |
| Backprop.HiddenLayerErrors | neuralNet.js:230-232 | hidden error j of layer i is `(Σ_k weights[i+1][k][j] * errors[i+1][k]) * o * (1 - o)` |
| Backprop.ErrorsVanishAtTarget | neuralNet.js:174-187 | when the output equals the target, every error of every layer is zero |
| Backprop.HalfSquare | neuralNet.js:191 | one term `((e - r) * (e - r)) / 2` of the cost is never negative |
| Backprop.CalculateCost | neuralNet.js:190-192 | the sum over the zipped pairs of those terms is never negative |
| Backprop.CostZeroExactlyAtTarget | neuralNet.js:190-192 | the cost is never negative, and it is zero exactly when the output equals the target |
| Network.NeuralNet.Backprop | neuralNet.js:174-187 | the output-first loop reading `errorResults[length - 2 - i]`, then reversed, yields `Errors`: the index arithmetic is right |
| Parameters.Zeros | neuralNet.js:120-131 | buffers of the parameters' shape with every entry zero |
| Network.ZeroBuffers | neuralNet.js:120-131 | the push loops build exactly `Zeros(sizes)` |
| Network.NeuralNet.InitialiseWeightAndBiasUpdates | neuralNet.js:120-131 | returns fresh all-zero buffers of the parameters' shape |
| Parameters.Accumulated | neuralNet.js:161-171 | adding an example's gradient keeps the buffers' shape |
| Parameters.AccumulationOnlyAdds | neuralNet.js:161-171 | each entry grows by an amount independent of what it held, so the buffers only add and never overwrite |
| Forward.SourceIsLayerInput | neuralNet.js:165 | the input read for layer i, `i === 0 ? data[k] : forwardResult[i - 1][k]`, is on the network's own trace the value the forward pass fed into that layer |
| Network.AccumulateRow | neuralNet.js:164-167 | the k loop adds `errors[i][j]` times input k of layer i to entry k of the row, input k being read from `data` for i = 0 and from `forwardResult[i-1]` otherwise |
| Network.AccumulateLayer | neuralNet.js:163-169 | the j loop turns layer i of the buffers into layer i of `Accumulated` |
| Network.AccumulateExample | neuralNet.js:161-171 | the triple loop computes `Accumulated`: `weightUpdates[i][j][k]` grows by `errors[i][j]` times `data[k]` (i = 0) or `forwardResult[i-1][k]`, `biasUpdates[i][j]` by `errors[i][j]` |
| Network.NeuralNet.GetWeightsAndBiasesUpdates | neuralNet.js:161-171 | the buffers object is updated in place to `Accumulated` of its old contents |
| Parameters.Updated | neuralNet.js:148-157 | the updated parameters keep their shape |
| Parameters.ZeroDeltaChangesNothing | neuralNet.js:148-157 | an all-zero delta leaves every parameter unchanged at any rate |
| Network.MoveRow | neuralNet.js:151-153 | the k loop moves entry k of a weight row by its delta times the rate |
| Network.MoveLayer | neuralNet.js:150-155 | the j loop turns layer i of the parameters into layer i of `Updated` |
| Network.MoveParameters | neuralNet.js:148-157 | the triple loop sets every weight to old + `dw * r` and every bias to old + `db * r` |
| Network.NeuralNet.UpdateWeightsAndBiases | neuralNet.js:148-157 | the parameters become `Updated(old, delta, rate)`, keep their shape, and the flag is unchanged |
| Training.WithExample | neuralNet.js:135-145 | one example's gradient, from its trace, one-hot target and errors, keeps the buffers' shape |
| Network.NeuralNet.TrainOneInput | neuralNet.js:135-145 | the buffers become `WithExample` of their old contents for the current parameters |
| Training.BatchDeltas | neuralNet.js:83-91 | the deltas of a batch, fed one example at a time into zero buffers, keep the shape |
| Training.TrainBatch | neuralNet.js:95 | one gradient step at rate `learningRate / batchSize` keeps the shape |
| Network.NeuralNet.ApplyBatch | neuralNet.js:95 | applying buffers holding a batch's deltas makes the parameters `TrainBatch` of the old ones, flag unchanged |
| Training.ApplyBatches | neuralNet.js:78-96 | the parameters after a list of batches applied in order keep the shape |
| Training.Chunks | neuralNet.js:81-87 | every batch of an epoch holds exactly `batchSize` samples |
| Training.ChunkAt | neuralNet.js:84-89 | batch j holds the samples at `dataIndex = j*batchSize + k`, for k below `batchSize` |
| Training.ChunksCount | neuralNet.js:77-81 | an epoch makes `floor(len / batchSize)` complete batches |
| Training.ChunksCover | neuralNet.js:81-89 | the batches laid end to end are the shuffled data minus a remainder shorter than one batch |
| Training.EpochCoversData | neuralNet.js:77-95 | when `batchSize` divides the data, an epoch makes exactly `len / batchSize` updates and uses every sample once, in shuffled order |
| Training.ScheduleLength | neuralNet.js:78-96 | with an even split, e epochs make `e * (len / batchSize)` updates |
| Training.SchedulePrefix | neuralNet.js:78-101 | the batches of fewer epochs are a prefix of the batches of more |
| Training.ShuffleFits | neuralNet.js:80 | a shuffle of the data has its length and its image sizes |
| Training.OverrunOnlyWithoutEvenSplit | neuralNet.js:77-87 | an index equal to `data.length` inside a batch that starts before the end needs an uneven split (that the index is exactly `data.length` is Network.NeuralNet.FeedBatch's ensures) |
| Training.InterruptedRun | neuralNet.js:84-91 | an interruption inside epoch i is the outcome `ExpectedOutcome` predicts, and the batches applied by then are those before the interrupted example's batch |
| Training.EpochCompleted | neuralNet.js:78-96 | arithmetic step: `k` batches of `batchSize` covering `len` examples after `i` epochs give `(i+1) * len` processed examples and `applied + k` batches; that a completed epoch does this is Network.NeuralNet.TrainEpoch's ensures |
| Training.ExpectedOutcome | neuralNet.js:73-104 | how `train` ends: `AlreadyTraining` exactly when a run is under way; with an uneven split (and epochs > 0) `Stopped(n)` for a stop after n ≤ `data.length` examples, else `Threw(data.length)`; otherwise `Stopped(n)` for n < epochs·`data.length`, else `Finished`. Its ensures: a `Stopped(n)` is the requested stop and n ≤ epochs·`data.length`; `Threw` only at index `data.length` with an uneven split; `Finished` only with an even split (or no epochs) and no earlier stop. Network.NeuralNet.Train is proved to end this way |
| Network.NeuralNet.Interruption | neuralNet.js:86-89 | the check before each example: a cleared flag gives `Stopped(processed)` whatever the index, since it is tested first; with the flag set, an outcome exists exactly when the index is at or past the end, and it is `Threw(dataIndex)`, the failed destructure |
| Training.Progress | neuralNet.js:90 | the value handed to the handler, never negative (its closed form is Training.ProgressForm, its order and bound Training.ProgressIncreases and Training.ProgressBelowHundred) |
| Training.ProgressForm | neuralNet.js:90 | the handler's value is `(epoch + dataIndex/len) * 100/epochs` |
| Training.ProgressIncreases | neuralNet.js:90 | the handler's value strictly increases from any example to any later one, across epochs too |
| Training.ProgressBelowHundred | neuralNet.js:90 | every handler value lies in [0, 100) |
| Training.ProgressOfRun | neuralNet.js:90 | the values handed to the handler during a run strictly increase and stay in [0, 100) |
| Training.ReportExample | neuralNet.js:90 | reporting the next example keeps the reports in run order |
| Training.LogTested | neuralNet.js:98-100 | the per-epoch test message keeps the log's start and adds no completion message |
| Training.TestedEpochs | neuralNet.js:98-100 | the epochs whose test message a log holds, in the order logged, are at most as many as its events |
| Training.TestedAfter | neuralNet.js:98-100 | logging an event adds its epoch to the tested epochs exactly when it is a test message |
| Training.TestedEpochsLogged | neuralNet.js:98-100 | an epoch is among the tested epochs exactly when its test message is in the log |
| Training.EpochsUpTo | neuralNet.js:78-100 | the epochs 1 to n in order: entry m is m + 1 |
| Network.NeuralNet.StopTraining | neuralNet.js:106-108 | clears the flag and leaves the parameters alone |
| Network.NeuralNet.HandleUpdate | neuralNet.js:90 | after each example the flag matches "stopAfter not yet reached" |
| Network.NeuralNet.FeedExample | neuralNet.js:86-90 | one example of a batch: its gradient added, its progress reported in order, the handler run |
| Network.NeuralNet.FeedBatch | neuralNet.js:84-91 | the example loop fills the buffers with the deltas of the examples fed; it stops early only on a cleared flag (`Stopped`) or at `dataIndex == data.length` (`Threw`); parameters unchanged |
| Network.NeuralNet.TrainMiniBatch | neuralNet.js:83-95 | a complete batch moves the parameters one step along the run; an interrupted one leaves them where the previous batch left them, so a cancelled batch's deltas are dropped |
| Network.NeuralNet.EpochBatch | neuralNet.js:81-95 | batch k of an epoch, starting inside the data: applied when complete; interrupted only by a stop or, without an even split, at `data.length`; the test messages logged are unchanged |
| Network.NeuralNet.RunEpoch | neuralNet.js:81-96 | the batch loop under the unrounded `j < numBatches` applies `k` consecutive batches of the epoch; it finishes only with an even split and then covers every example |
| Network.NeuralNet.TrainEpoch | neuralNet.js:78-100 | one epoch over its shuffle; completed, it has applied its batches and adds the test message of epoch i + 1 to the log exactly when there is test data; interrupted, it gives the predicted outcome, completes no epoch and logs no test message |
| Network.NeuralNet.RunEpochs | neuralNet.js:78-101 | the epoch loop finishes having applied every batch of the run, or ends with the predicted `Stopped`/`Threw` outcome; the test messages logged are those of the completed epochs 1, 2, ... in order, and none without test data |
| Network.NeuralNet.StartRun | neuralNet.js:75-103 | the flag is set and 'Started Training' logged; on completion the flag is cleared and 'Training Completed' is the last message, and only then; the test messages are those of the completed epochs |
| Network.NeuralNet.TrainIdle | neuralNet.js:75-103 | on an idle network the parameters end as the first `applied` batches of the run applied in order from the old ones, with the outcome, batch count and log as predicted |
| Network.NeuralNet.Train | neuralNet.js:73-104 | a call made while training returns at once and changes nothing; otherwise the parameters are those after the last completed batch (all batches when finished, `examples / batchSize` when stopped); the flag ends clear exactly when the run finishes or is stopped; the progress values increase; with test data the log holds the test messages of epochs 1 to the number completed (all when finished, `examples / data.length` when stopped with an even split, none otherwise), in order, and without test data none |
| Network.NeuralNet.GetNetworkState | neuralNet.js:115-117 | returns the current weights and biases |
| Network.NeuralNet.LoadNetworkState | neuralNet.js:110-113 | replaces the weights and biases and nothing else |
| Classify.ExpectedResult | neuralNet.js:242-244 | ten entries, each 0 or 1, with 1 exactly at index `val` |
| Classify.MaxOf | neuralNet.js:197 | `_.max` is an entry of the vector and no entry exceeds it |
| Classify.IndexOf | neuralNet.js:198 | `_.indexOf` is the first index holding the value, or -1 exactly when it is absent |
| Classify.FavouredIndex | neuralNet.js:195-199 | the smallest index holding the maximum output; -1 exactly for an empty output |
| Classify.FavouredIndexOfTarget | neuralNet.js:242-244 | `testImage`'s choice read on the one-hot target of a label 0..9 gives the label back |
| Network.NeuralNet.TestImage | neuralNet.js:195-199 | returns `FavouredIndex` of the network's output, an index of the output layer |
| Classify.Predictions | neuralNet.js:204 | one prediction per sample, each `testImage` of its pixels |
| Classify.Matches | neuralNet.js:205 | `expected === actual` is never true for a label read past the end (-1) or for `testImage`'s -1, and when true the prediction is the label |
| Classify.Score | neuralNet.js:205 | the count is at most the number of samples |
| Classify.ScoreAllCorrect | neuralNet.js:203-206 | the count equals the number of samples exactly when every sample is classified as its label |
| Classify.ScoreNoneCorrect | neuralNet.js:203-206 | the count is zero exactly when no sample is classified as its label |
| Classify.ScoreSplit | neuralNet.js:203-206 | counts over consecutive parts of the data add up |
| Network.NeuralNet.Test | neuralNet.js:203-206 | returns the number of samples whose label equals `testImage`'s answer, within [0, data.length] |
| DataLoader.ReadInt | dataLoader.js:9-15 | a value exists exactly when four bytes are present from `start`, and is below 2^32 |
| DataLoader.ByteArrayToInt | dataLoader.js:9-15 | the accumulation loop computes `ReadInt` |
| DataLoader.BigEndian | dataLoader.js:9-15 | `value * 256 + array[i]` over the bytes gives a number that fits in as many bytes as it read |
| DataLoader.BigEndianFour | dataLoader.js:8-15 | four bytes decode to `a[s]*2^24 + a[s+1]*2^16 + a[s+2]*2^8 + a[s+3]`, below 2^32 |
| DataLoader.Encode32 | dataLoader.js:8-15 | the big-endian encoding of a 32-bit number has four bytes |
| DataLoader.ReadEncoded | dataLoader.js:8-15 | decoding the encoding of any n < 2^32 gives n |
| DataLoader.EncodeRead | dataLoader.js:8-15 | encoding the value of any four bytes gives the bytes back |
| DataLoader.Offset | dataLoader.js:28 | an image starts after the 16 header bytes |
| DataLoader.OffsetIsProduct | dataLoader.js:28-29 | image i starts at `16 + i * P` |
| DataLoader.OffsetMonotone | dataLoader.js:28-29 | later images start no earlier |
| DataLoader.LabelAt | dataLoader.js:27 | a label is a byte, or -1 past the end of the label file |
| DataLoader.Scale | dataLoader.js:31 | a scaled pixel lies in [0,1] |
| DataLoader.Pixels | dataLoader.js:30-31 | `count` pixels, pixel k being byte `start + k` divided by 255 |
| DataLoader.ImageCount | dataLoader.js:21 | the number of images is the field at offset 4, below 2^32, and 0 (a `NaN` bound) when the file has fewer than 8 bytes |
| DataLoader.ImagePixels | dataLoader.js:22-24 | `width * height` exists exactly when the file holds both fields (16 bytes), and is below 2^64 |
| DataLoader.ImageAt | dataLoader.js:24-32 | image i has `width * height` pixels |
| DataLoader.Records | dataLoader.js:19-36 | one record per announced image |
| DataLoader.ImageBounds | dataLoader.js:28-31 | image i is the run `data[16+i*P .. 16+(i+1)*P)` and lies inside the file |
| DataLoader.RecordsStep | dataLoader.js:26-34 | the records are built in order, one image at a time |
| DataLoader.FetchData | dataLoader.js:19-36 | the nested push loops compute `Records` |
| DataLoader.PixelsInUnitInterval | dataLoader.js:31 | every pixel of every record lies in [0,1] |
| DataLoader.LabelsFromOffsetEight | dataLoader.js:27 | record i's label is `labels[i+8]`, or -1 when the label file is shorter |
| DataLoader.MagicIgnored | dataLoader.js:21-23 | the first four bytes of the image file (its magic number) are neither read nor checked |
| DataLoader.ImageFile | dataLoader.js:21-24 | an IDX image file is its body plus 16 header bytes |
| DataLoader.LabelFile | dataLoader.js:27 | an IDX label file is its labels plus 8 header bytes |
| DataLoader.ImageFileHeader | dataLoader.js:21-24 | the count is read at offset 4 and `width * height` from offsets 8 and 12 |
| DataLoader.LoadsWhatWasWritten | dataLoader.js:19-36 | loading well-formed IDX files gives back every image's label and its pixels divided by 255, in order |

## Left out

- Network I/O: `fetchRawData`, `fetchVariables` and the `fetch`/`await` parts of `fetchData`. The loader takes the two files as byte sequences.
- The web worker, the DOM and canvas wiring, the messages and the build configuration (nnWorker.js, app.js, canvas.js, messages.js, rollup.config.js) are not part of this model.
- `setLogger` and `setUpdateHandler` are not modelled. The callbacks they install appear only as the ghost event log, and the stop request as `stopAfter`. Anything else a callback might do, such as calling `train` again, is not modelled. The model assumes a logger is installed: without `setLogger`, `this.logger` is `undefined` (neuralNet.js:10), so `train` throws at neuralNet.js:76 just after setting `isTraining = true`, and the flag stays set so every later `train` returns at once. That failure is not modelled.
- Floating point: the numbers are exact reals, so there is no rounding, overflow or `NaN`.
  - The sigmoid is any function into (0,1), not `1 / (1 + Math.exp(-x))`.
  - `relu` and `reluDerivative` are never used.
- `gaussianRand` (utils.js): the initial draws are arbitrary values supplied to the constructor.
- `_.shuffle`: each epoch's order is a given permutation of the data. No randomness is modelled.
- `formatTestResult`, imported from ./utils (neuralNet.js:1) but not defined in utils.js (which defines only `log`, `renderImage` and `gaussianRand`), is treated as an opaque message and is not part of this model. The per-epoch test message is the event `EpochTested(epoch)`, without the accuracy text.
- Whether a training step lowers `calculateCost` is not addressed. It depends on the learning rate and on analysis beyond the code.
- Network.NeuralNet.FeedForward: requires the input to be no longer than the input layer. A longer input makes the source read weights that do not exist (`NaN`).
- Network.NeuralNet.TestImage: requires the same, for the same reason, since it calls `feedForward`.
- Network.NeuralNet.Test: requires the same of every sample (`InputsFit`), since it calls `testImage` on each.
- Network.NeuralNet.Train: requires `batchSize > 0`, which the source does not check, and the UI hands it a free text field (app.js:24, nnWorker.js:38). With `batchSize = 0` and data present, `numBatches` is `Infinity` (neuralNet.js:77): the `j` loop never ends, the `k` loop never runs, so the stop check at neuralNet.js:86 is never reached and `stopTraining` cannot end the run, and every pass multiplies zero deltas by `learningRate / 0`, making every parameter `NaN`. The model does not cover this non-terminating run.
- Network.NeuralNet.GetNetworkState: returns copies of the parameters as values. The source returns the network's own arrays (neuralNet.js:115-117), which training then updates in place (neuralNet.js:152, 154), so the object handed out keeps changing while training goes on. That aliasing is not modelled.
- Network.NeuralNet.LoadNetworkState: stores the given parameters as values and requires them to have the network's shape. The source stores the caller's arrays themselves (neuralNet.js:110-113), so later training writes into the caller's object, and it accepts any object, failing later with `NaN` or a `TypeError` on a wrongly shaped one. Neither the aliasing nor the wrongly shaped state is modelled.
- Network.NeuralNet.Train: requires an output layer of at most ten neurons (`expectedResult` has ten entries) and every image to have exactly `sizes[0]` pixels. Otherwise the source computes with `undefined` (`NaN`).
- DataLoader.FetchData: requires the image file to hold every pixel its header announces. Reading past its end gives `NaN` pixels in the source. Labels past the end of the label file are modelled (as -1).
- A header field of a too-short image file is `NaN` in the source. The model reads it as `None`: no images, or images without pixels.
