# A verified model of the pipe-inspection edge pipeline

The repository reads radar and IMU samples, cuts them into windows of 128, repairs, filters
and resamples each window to a 128 x 9 tensor, runs a network on it, and reports a class to
a callback. Three worker threads do this, joined by three bounded blocking queues. This
project models that behaviour in Dafny and proves what the code is meant to guarantee.

`dafny verify dfyconfig.toml` checks everything.

## How it is organised

**The blocking queue.** `QueueProtocol` describes the queue as a step relation over any number
of threads: what each does while it holds the mutex, who sleeps on which condition variable,
who is awake but has not tested its predicate again, and which notifications are still owed.
Spurious wake-ups and passing deadlines are steps that may happen at any time. The
condition-variable semantics are those of [thread.condition.condvar] in ISO C++17. `BlockingQueue`
is the object itself, each method proved to be the protocol's step. `QueueTheorems` holds the
results over whole runs: no wake-up is lost, the queue is a bounded FIFO, and it is linearizable
with respect to the atomic queue of `AtomicQueue`. `QueueLiveness` shows that calls on a closed
queue return.

**The pipeline.** `PipelineModel` takes those atomic queues and adds the three workers with
their `while (running_) loop()`, the owner calling `start()` and `stop()`, and any number of
threads calling `submit()`. `Workers` and `Pipelines` are the objects; each method is proved to
be a step of the model. `PipelineInvariant` has the inductive invariant, `PipelineTheorems` what
follows in every reachable state, `PipelineDelivery` why every complete window reaches the
callback, `PipelineShutdown` why `stop()` returns. Inference is an arbitrary function of the call
number and the input, and may fail.

**Preprocessing.** `MissingRepair`, `SavGol`, `Interpolation`, `Resampling` and `Preprocessing`
contain the loops on arrays, proved against pure specifications: the nearest valid neighbours,
the least-squares quadratic of a window, the interpolant. `MissingRepairLaws`, `SavGolLaws`,
`ResamplingLaws` and `PreprocessingLaws` say what these specifications mean, up to equality with
the Python reference `repair_and_resample`. Readings are a finite real, an infinity or NaN.
Arithmetic is exact, except that the float32 knots of the resampler go through an arbitrary
monotone rounding that fixes 0 and 1. Where more about float32 matters, `LikeFloat32` adds that
positions from 2^-64 on keep a relative accuracy of 2^-23; smaller ones may become zero.

**CSV, quantisation, classification.** `CsvSplit`, `CsvReading` and `CsvLaws` treat the quoting
automaton and the table reader, `CsvMeaning` says what the samples are in terms of the table's text; `Quantization` the INT8 conversions; `Classification` softmax
and first maximum over an abstract exponential that is positive, strictly increasing and turns
sums into products. `EndToEnd` puts the real stages into the pipeline.

## Where the code and its description differ

- The configured window stride is only logged. The code takes tumbling windows of 128, and so
  does the model.
- The bound on free slots beside a sleeping producer holds while the queue is open. After
  `close()` a woken producer leaves without passing its wake-up on, so a producer can sleep
  beside a free slot until the closer's `notify_all` (`ClosedQueueCanStrandProducer`); that the
  closer still owes it is part of `NoLostWakeup`.

`resample.hpp` calls the resampler equivalent to `np.interp`, and for every length a vector can
have it is. In general that holds if and only if the first and the last source value whose knots
round to zero are equal (`ResampledIsNumpyExactly`), and float32 never rounds the second knot to
zero (`Float32SecondKnot`).

## Model

| member | source | states |
|---|---|---|
| QueueProtocol.InitEstablishesInv | pipeline/blocking_queue.hpp:22-26 | A new queue, used by nobody, satisfies the protocol invariant. |
| QueueProtocol.StoringKeepsInv | pipeline/blocking_queue.hpp:101-110 | Storing a value and leaving the mutex with a notification owed keeps the wake-up accounting. |
| QueueProtocol.TakingKeepsInv | pipeline/blocking_queue.hpp:49-60 | So does taking the front value with the opposite notification owed. |
| QueueProtocol.BlockingKeepsInv | pipeline/blocking_queue.hpp:51 | A thread that goes to sleep does so only on a full or an empty open queue, which keeps the invariant. |
| QueueProtocol.LeavingKeepsInv | pipeline/blocking_queue.hpp:34-76 | A thread may leave empty-handed, refused or timed out, without stranding a sleeper that the invariant counts on it for. |
| QueueProtocol.ClosingKeepsInv | pipeline/blocking_queue.hpp:78-84 | Closing hands every sleeper to the closer, who owes both notify_all. |
| QueueProtocol.NotifyWakingKeepsInv | pipeline/blocking_queue.hpp:45-58 | A notify_one that wakes a sleeper turns an owed notification into an awake thread. |
| QueueProtocol.NotifyLostKeepsInv | pipeline/blocking_queue.hpp:45-58 | A notify_one with nobody asleep may be lost without harm. |
| QueueProtocol.NotifyAllKeepsInv | pipeline/blocking_queue.hpp:83-84 | Each notify_all discharges its share of what the closer owes. |
| QueueProtocol.StepKeepsInv | pipeline/blocking_queue.hpp:34-111 | Every step of every thread, including spurious wake-ups and passing deadlines, keeps the whole invariant. |
| QueueTheorems.NoLostWakeup | pipeline/blocking_queue.hpp:34-111 | In every reachable state: beside a sleeping consumer there are at most as many values as awake consumers plus pushes not yet notified; dually for producers on an open queue; and on a closed queue with a sleeper some closer still owes the notify_all that wakes it. |
| QueueTheorems.ClosedQueueCanStrandProducer | pipeline/blocking_queue.hpp:78-110 | For every capacity a concrete run in which, after close, a producer sleeps beside a free slot with no producer awake and no pop unnotified: the producers' bound needs the queue open. |
| QueueTheorems.SettledSleepersAreJustified | pipeline/blocking_queue.hpp:34-111 | With no thread awake and nothing owed, a consumer sleeps only on an empty open queue, a producer only on a full open one, and never both. |
| QueueTheorems.FifoOverRuns | pipeline/blocking_queue.hpp:34-111 | Over every run, popped values followed by the contents are the accepted values in order, the length stays within capacity, and closing freezes the accepted log. |
| QueueTheorems.WhatCallsReturn | pipeline/blocking_queue.hpp:34-111 | What each call reports: pop gets the oldest value not yet taken, or nothing only when all is drained and the queue closed (or its deadline passed); push is refused only when closed (or full past its deadline). |
| QueueTheorems.DrainAfterClose | pipeline/blocking_queue.hpp:11-16 | From any reachable closed state an idle thread can pop every remaining value in order, after which pop reports the end. |
| QueueTheorems.RefinesAtomicQueue | pipeline/blocking_queue.hpp:34-111 | Only the section under the mutex has an effect, it is the atomic operation, and it blocks exactly while that operation is not ready. |
| QueueTheorems.ReportIsLegal | pipeline/blocking_queue.hpp:34-111 | What a step reports to its caller is what an atomic queue in the same state could report. |
| QueueTheorems.Linearizable | pipeline/blocking_queue.hpp:34-111 | In every run the reports of all calls, in mutex order, replay legally on an atomic queue and lead it to the contents actually reached. |
| QueueTheorems.OneReportPerCall | pipeline/blocking_queue.hpp:34-111 | Every finished call makes exactly one report, one its operation may make, after it was called and before it returned; so the order in which reports replay respects which calls ended before which others began. |
| QueueLiveness.CallsReturnOnceClosed | pipeline/blocking_queue.hpp:11-16 | In every behaviour weakly fair to each thread, any thread inside a call once the queue is closed returns from it, whatever the others do and however often they call again. |
| QueueLiveness.StepsComeCloser | pipeline/blocking_queue.hpp:78-84 | On a closed queue no step takes a call further from its return, and each step of the thread itself, or of the closer while it sleeps, takes it closer. |
| BlockingQueues.BlockingQueue.Create | pipeline/blocking_queue.hpp:22-26 | A capacity of zero is refused, any other gives an empty open queue. |
| BlockingQueues.BlockingQueue.EmplaceSection | pipeline/blocking_queue.hpp:34-111 | The locked part of push and push_for is the protocol's step, with the result it reports. |
| BlockingQueues.BlockingQueue.PopSection | pipeline/blocking_queue.hpp:49-76 | The locked part of pop and pop_for is the protocol's step, with the result it reports. |
| BlockingQueues.BlockingQueue.CloseSection | pipeline/blocking_queue.hpp:78-82 | The locked part of close. |
| BlockingQueues.BlockingQueue.NotifyWaiter | pipeline/blocking_queue.hpp:44-59 | notify_one after the lock is dropped. |
| BlockingQueues.BlockingQueue.NotifyWaiters | pipeline/blocking_queue.hpp:83-84 | The two notify_all of close, in order. |
| Workers.Worker.Start | pipeline/worker.cpp:7-15 | Only the call that raises the flag spawns a thread, which begins at its loop guard; a second call fails and changes nothing. |
| Workers.Worker.Guard | pipeline/worker.cpp:9-13 | A running worker enters its loop again, a stopped one ends. |
| Workers.Worker.LowerFlag | pipeline/worker.cpp:17-20 | Only the call that lowers the flag goes on to join. |
| PipelineInvariant.StepKeepsInv | pipeline/pipeline.cpp:18-81 | Every step of owner, submitters and workers keeps the invariant: each stage's output is, in order, a contiguous piece of the sequence the accepted samples determine. |
| PipelineInvariant.RunKeepsInv | pipeline/pipeline.cpp:18-81 | Hence it holds in every reachable state. |
| PipelineTheorems.CallbacksArePrefix | pipeline/pipeline.cpp:26-81 | In every reachable state, whatever stop() interleaves with, callback k is the result numbered k + 1 of samples 128k to 128k + 127: no gap, repeat or reordering, so shutdown only cuts off a suffix. |
| PipelineTheorems.LogitsAreTheOutput | pipeline/pipeline.cpp:66-69 | The logits are the engine's output in its own order, cut to five or padded with zeros. |
| PipelineTheorems.LogsOnlyGrow | pipeline/pipeline.cpp:26-37 | Later states only extend what was accepted and delivered, and nothing is accepted once the first queue is closed. |
| PipelineTheorems.SamplesAreConserved | pipeline/pipeline.cpp:39-81 | Accepted samples are exactly those queued, in hand and buffered, plus 128 for every window in transit, delivered or dropped; nothing is dropped while its queue is open; every queue respects its capacity. |
| PipelineTheorems.BlockedMeansDelivered | pipeline/pipeline.cpp:39-81 | Deadlock freedom: while the pipeline runs, all workers are blocked only when every queue is empty and every complete window has been delivered. |
| PipelineTheorems.StopInOrder | pipeline/pipeline.cpp:26-33 | In every reachable state the queues are closed from the front, no started worker is told to stop before all are closed, and none before the worker in front of it has ended. |
| PipelineTheorems.StoppedMeansDrained | pipeline/pipeline.cpp:26-33 | When stop() has returned no worker runs, the queue of each worker that ever entered its loop is empty, and every complete window was delivered if and only if none was dropped at a closed queue. |
| PipelineDelivery.EveryWindowIsDelivered | pipeline/pipeline.cpp:39-81 | In every behaviour weakly fair to the workers in which stop() never begins, each complete accepted window of a running pipeline reaches the callback with its own result, however many samples keep arriving. |
| PipelineDelivery.StaysAble | pipeline/pipeline.cpp:39-81 | While the pipeline runs, a worker that can step still can after any step of another thread. |
| PipelineShutdown.StepsDecrease | pipeline/worker.cpp:7-20 | Once stop() has begun every step strictly decreases a measure, except refused submits and a running worker re-entering its loop on its closed empty queue, which leave it unchanged. |
| PipelineShutdown.WorkersDoBoundedWork | pipeline/pipeline.cpp:39-81 | Before stop() every worker step decreases the measure, so without new samples the workers do bounded work. |
| PipelineShutdown.HelpfulCanStep | pipeline/pipeline.cpp:26-33 | Until the last join, the owner or the worker it waits for can take a step that decreases the measure. |
| PipelineShutdown.SpinsKeepHelpful | pipeline/worker.cpp:9-13 | A worker re-entering its loop never takes that possibility away. |
| PipelineShutdown.StopReturns | pipeline/pipeline.cpp:26-33 | In every weakly fair infinite behaviour, a stop() that has begun returns, whatever is queued or in hand and however many submitters keep calling. |
| Pipelines.Pipeline.Submit | pipeline/pipeline.cpp:35-37 | submit() is the model's step and fails exactly when the first queue is closed. |
| Pipelines.Pipeline.StartNext | pipeline/pipeline.cpp:18-24 | Each Worker::start of start() is the model's step, with the status it contributes. |
| Pipelines.Pipeline.CloseNext | pipeline/pipeline.cpp:26-29 | stop() closes the queues from the front. |
| Pipelines.Pipeline.JoinNext | pipeline/pipeline.cpp:30-32 | Then it lowers the flags and joins in the same order, skipping a worker that is not running. |
| Pipelines.Pipeline.PreprocessHead | pipeline/pipeline.cpp:39-42 | Guard and pop of the preprocessing loop. |
| Pipelines.Pipeline.PreprocessSample | pipeline/pipeline.cpp:43-53 | Buffering a sample, and taking the window once it holds 128. |
| Pipelines.Pipeline.PreprocessPush | pipeline/pipeline.cpp:54 | Handing the tensor on, or dropping it at a closed queue. |
| Pipelines.Pipeline.InferenceHead | pipeline/pipeline.cpp:59-62 | Guard and pop of the inference loop. |
| Pipelines.Pipeline.Infer | pipeline/pipeline.cpp:63-69 | Numbering the window; its logits are the first five values inference returned, padded with zeros, or five zeros if it failed. |
| Pipelines.Pipeline.InferencePush | pipeline/pipeline.cpp:70 | Handing the result on, or dropping it at a closed queue. |
| Pipelines.Pipeline.PostHead | pipeline/pipeline.cpp:74-77 | Guard and pop of the post loop. |
| Pipelines.Pipeline.Deliver | pipeline/pipeline.cpp:78-79 | Classifying the result and, if a callback is set, calling it with that result. |
| Interpolation.UpperBound | preprocess/resample.cpp:27-28 | The binary search returns the first knot above x. |
| Interpolation.InterpolateOne | preprocess/resample.cpp:23-38 | interp_one computes the interpolant on every non-decreasing knot sequence, repeated knots included, without a zero denominator. |
| Interpolation.InterpOneIsNpInterp | preprocess/resample.hpp:10-13 | As functions of any non-decreasing knots, interp_one equals np.interp except at a repeated first knot, and there if and only if the first and last of its values are equal. |
| Interpolation.RepeatedFirstKnotDiffers | preprocess/resample.cpp:24 | Taken by itself, away from the knots the resampler gives it, interp_one does differ from np.interp at such a knot. |
| Interpolation.InterpOneIsBetween | preprocess/resample.cpp:23-38 | The result lies between the values at the two knots around x, or at the first or last two if x is outside. |
| Resampling.Linspace01 | preprocess/resample.cpp:9-21 | The knot array holds the rounded evenly spaced positions with exact ends. |
| Resampling.LinspaceIsKnots | algorithm/pipeai_net_training.py:104-105 | The knots are those of np.linspace(0, 1, n) rounded once to float32. |
| Resampling.ResampleLinearNormalized | preprocess/resample.cpp:42-70 | Fails on an empty source and on a zero target, otherwise fills the resampled sequence. |
| Resampling.ResampledIsBetween | preprocess/resample.cpp:42-70 | Under any rounding, even one that merges knots, each output lies between the source values at the two neighbours of its own position. |
| Resampling.ResampledIsClosedForm | preprocess/resample.cpp:64-68 | In exact arithmetic, output k of m from n points has k(n-1) div (m-1) as left neighbour and k(n-1) mod (m-1) over m-1 as fraction. |
| Resampling.ResampledIsNumpyExactly | preprocess/resample.hpp:10-13 | Under any monotone rounding the output is np.interp's if and only if the first and the last source value with a knot at zero are equal. |
| Resampling.ResampledIsNumpy | algorithm/pipeai_net_training.py:103-109 | As soon as the second source knot is not rounded to zero, the output is np.interp's for every target length. |
| Resampling.Float32SecondKnot | preprocess/resample.cpp:9-21 | In float32 the second knot is positive for every length a vector can have. |
| Resampling.Float32KnotsIncrease | preprocess/resample.cpp:9-21 | In float32 up to 2^22 knots are distinct. |
| ResamplingLaws.SameLengthIsIdentity | preprocess/resample.cpp:42-70 | Resampling to the same length is the identity as long as the knots are distinct. |
| ResamplingLaws.ExactSameLengthIsIdentity | preprocess/resample.cpp:42-70 | In exact arithmetic that is every length. |
| ResamplingLaws.Float32SameLengthIsIdentity | preprocess/resample.cpp:42-70 | In float32 it is every length up to 2^22. |
| ResamplingLaws.UpThenDownIsIdentity | preprocess/resample.cpp:42-70 | From n points to (n-1)c + 1 and back to n returns the original sequence. |
| ResamplingLaws.AffineStaysAffine | preprocess/resample.cpp:23-70 | An affine sequence is resampled to the same line. |
| ResamplingLaws.MonotoneStaysMonotone | preprocess/resample.cpp:23-70 | A non-decreasing sequence stays so, under any monotone rounding. |
| ResamplingLaws.LowerBoundKept | preprocess/resample.cpp:23-70 | A lower bound on the source bounds the output. |
| SavGol.FitIsLeastSquares | preprocess/savgol.cpp:9-11 | The fitted quadratic has the smallest squared error of all quadratics, and is the only one with it. |
| SavGol.Pythagoras | preprocess/savgol.cpp:9-11 | Any quadratic's squared error is the fit's error plus its squared distance from the fit. |
| SavGol.WeightsEvaluateFit | preprocess/savgol.cpp:12-20 | Each of the seven weight rows evaluates that fit at its own sample. |
| SavGol.Evaluate | preprocess/savgol.cpp:22-28 | The weighted sum is the fit's value. |
| SavGol.SavGol72Interp | preprocess/savgol.cpp:32-53 | In place, every sample becomes the value of its window's fit; fewer than seven samples are left alone. |
| SavGolLaws.SmoothedIsLeastSquares | preprocess/savgol.cpp:32-53 | Every output is the value, at its own place, of the unique quadratic minimising the squared error on its window: the seven samples around it, or the first or last seven for the first or last three outputs. |
| SavGolLaws.FirstThreeOnOneFit | preprocess/savgol.cpp:38-41 | Outputs 0, 1 and 2 are values of the one least-squares quadratic of the first seven samples. |
| SavGolLaws.LastThreeOnOneFit | preprocess/savgol.cpp:48-52 | The last three outputs are values of that of the last seven. |
| SavGolLaws.ShortIsKept | preprocess/savgol.cpp:33 | Fewer than seven samples are left alone. |
| SavGolLaws.QuadraticsReproduced | preprocess/savgol.cpp:32-53 | A quadratic sequence of any length passes through unchanged. |
| SavGolLaws.SmoothedIsLinear | preprocess/savgol.cpp:32-53 | The filter is linear. |
| SavGolLaws.SmoothedCommutesWithReversal | preprocess/savgol.cpp:32-53 | Filtering a reversed sequence gives the reversed result. |
| SavGolLaws.SmoothedBounded | preprocess/savgol.cpp:12-53 | Outputs are at most 34/21 times the largest absolute input. |
| SavGolLaws.BoundIsTight | preprocess/savgol.cpp:12-41 | An input that reaches 34/21. |
| SavGolLaws.IdempotentOnOneWindow | preprocess/savgol.cpp:32-53 | On seven samples a second pass changes nothing. |
| MissingRepair.RepairRadarChannel | preprocess/missing_repair.cpp:8-64 | In place, every sample becomes what its nearest valid neighbours determine; the count of invalid values and the all-invalid flag are exact. |
| MissingRepair.FillGap | preprocess/missing_repair.cpp:51-59 | The inner loop extends the repaired prefix across a gap. |
| MissingRepair.SanitizeImu | preprocess/missing_repair.cpp:66-75 | Non-finite readings become zero and are counted. |
| MissingRepairLaws.ValidUntouched | preprocess/missing_repair.cpp:12-17 | A valid sample is never changed. |
| MissingRepairLaws.FilledValues | preprocess/missing_repair.cpp:27-61 | A filled value is valid and lies between its bracketing valid values; an edge holds the nearest valid value; without any, the sensor minimum. |
| MissingRepairLaws.AllValidAfterwards | preprocess/missing_repair.cpp:8-64 | Afterwards every sample is valid, or every sample is the sensor minimum. |
| MissingRepairLaws.PositiveStays | preprocess/missing_repair.cpp:12-17 | A reading that is finite and above zero is never changed. |
| MissingRepairLaws.PositiveAfterwards | preprocess/missing_repair.cpp:12-61 | If any reading is finite and above zero, every one is afterwards; if none is, all become the sensor minimum. |
| MissingRepairLaws.CountInvalidIsCardinality | preprocess/missing_repair.cpp:12-17 | The count is the number of readings that are not finite or not above zero. |
| MissingRepairLaws.CountNonFiniteIsCardinality | preprocess/missing_repair.cpp:66-75 | The IMU count is the number of readings that are not finite. |
| MissingRepairLaws.RepairIsIdempotent | preprocess/missing_repair.cpp:8-64 | A second pass changes nothing. |
| MissingRepairLaws.RepairCommutesWithReversal | preprocess/missing_repair.cpp:33-61 | The left-to-right pass gives the same on a reversed channel. |
| MissingRepairLaws.RepairedIsNumpy | algorithm/pipeai_net_training.py:79-91 | The pass equals the reference's own mask, not finite or at most zero, and np.interp over the unmasked indices, at every sample of every channel. |
| Preprocessing.Preprocessor.Run | preprocess/preprocessor.cpp:16-81 | Fails, writing nothing, exactly on an empty input or a non-finite sensor minimum; otherwise fills the tensor and reports exact counts. |
| PreprocessingLaws.ReportMeaning | preprocess/preprocessor.cpp:28-53 | The reported counts are the numbers of bad radar readings, of non-finite IMU readings and of channels without a good reading, and the filter is reported from seven samples on. |
| PreprocessingLaws.RadarColumnIs | preprocess/preprocessor.cpp:36-39 | Radar column ch is made of radar channel ch of every sample, in order. |
| PreprocessingLaws.ImuColumnIs | preprocess/preprocessor.cpp:40 | The IMU column is made of the IMU readings, in order. |
| Preprocessing.Preprocessor.Condition | preprocess/preprocessor.cpp:31-61 | Extraction, repair, sanitation, smoothing and clamping of all channels, each on its own buffer. |
| Preprocessing.LayOut | preprocess/preprocessor.cpp:72-77 | The nine columns are interleaved row by row. |
| PreprocessingLaws.ChainMatchesReference | algorithm/pipeai_net_training.py:74-112 | For every finite sensor minimum and every non-empty sample list whose second position is not rounded to zero, under any monotone rounding, each tensor entry is that of the Python reference, column ch built from radar channel ch and column 8 from the IMU. |
| PreprocessingLaws.ChainMatchesReferenceInFloat32 | algorithm/pipeai_net_training.py:74-112 | In float32 that is every non-empty sample list a vector can hold. |
| PreprocessingLaws.ColumnsAreIndependent | preprocess/preprocessor.cpp:43-77 | Two inputs of one length that agree on radar channel ch, or on the IMU for column 8, have the same output column. |
| PreprocessingLaws.RadarAtLeastSensorMin | preprocess/preprocessor.cpp:56-67 | No radar entry is below the sensor minimum, for any input length. |
| PreprocessingLaws.AllInvalidChannelIsConstant | preprocess/missing_repair.cpp:27-31 | A channel without a valid value comes out as the constant sensor minimum. |
| PreprocessingLaws.FullWindowIsNotResampled | pipeline/pipeline.cpp:43-54 | On exactly 128 samples, in float32, the tensor is the conditioned channels themselves. |
| PreprocessingLaws.ConditioningCommutesWithReversal | preprocess/preprocessor.cpp:43-61 | Repair, filter and clamp treat both directions of time alike. |
| CsvSplit.SplitLine | preprocess/csv_reader.cpp:118-158 | The look-ahead loop returns the fields, or one of its two errors, that the recursive automaton gives. |
| CsvSplit.SplitParity | preprocess/csv_reader.cpp:118-158 | Success means an even number of quotes, and one field more than there are commas after an even number of quotes. |
| CsvSplit.UnterminatedMeansOdd | preprocess/csv_reader.cpp:153-155 | An unterminated quote is reported only for an odd number of quotes. |
| CsvSplit.QuoteInsideFieldIsRefused | preprocess/csv_reader.cpp:140-144 | A quote after text that is not all blank is an error, whatever follows it. |
| CsvSplit.ScanIsOnline | preprocess/csv_reader.cpp:123-151 | The automaton equals one with three modes and no look-ahead. |
| CsvSplit.TrimIsCore | preprocess/csv_reader.cpp:160-165 | Trimming cuts nothing but spaces, tabs and line breaks, on both sides, and leaves none of them at either end. |
| CsvSplit.SplitPrintedRow | preprocess/csv_reader.cpp:118-158 | Any non-empty row of fields, each quoted with doubled quotes as in section 2 of RFC 4180 behind optional blanks, or bare without commas and quotes, splits back into exactly those fields. |
| CsvReading.BuildColumnMap | preprocess/csv_reader.cpp:45-48 | Every trimmed header is mapped, to the last column that has it. |
| CsvReading.LocateColumns | preprocess/csv_reader.cpp:50-65 | The first required column that is missing is the one reported. |
| CsvMeaning.HeaderMeaning | preprocess/csv_reader.cpp:50-65 | A header is understood if and only if it has D1 to D8 and IMU; otherwise the first of them that is missing is reported. |
| CsvReading.Read | preprocess/csv_reader.cpp:24-116 | Reading a list of lines: header, blank lines, error lines and numbers, in the order the code meets them, and what the caller's list holds afterwards. |
| CsvReading.SamplesLeftAreThoseBefore | preprocess/csv_reader.cpp:67-115 | A header error leaves the caller's list alone; after an error in a row it holds exactly what reading the lines before that row gives. |
| CsvMeaning.TableMeaning | preprocess/csv_reader.cpp:67-115 | There is one sample for each line that is not blank, in order and numbered; radar readings 0 to 7 are the fields under D1 to D8, the IMU reading the field under IMU. An error names a line that does not split, or a column whose field in that line is no number. |
| CsvMeaning.ParsedTextReads | preprocess/csv_reader.cpp:167-184 | A blank field is NaN, any other what the number parser makes of the text between its blanks. |
| CsvMeaning.CarriageReturnMeaning | preprocess/csv_reader.cpp:34-36 | One carriage return is cut from the end of a line, and nothing else. |
| CsvMeaning.ByteOrderMarkMeaning | preprocess/csv_reader.cpp:15-20 | One byte order mark is cut from the front, and nothing else. |
| CsvLaws.PrintedTableReadsBack | preprocess/csv_reader.cpp:24-116 | Reading a table printed with every field quoted gives what its fields mean, error line numbers included. |
| CsvLaws.LineEndingsDoNotMatter | preprocess/csv_reader.cpp:34-73 | Carriage returns at line ends and a byte order mark before the header change neither the samples nor the error. |
| CsvLaws.ReadingIgnoresColumnOrder | preprocess/csv_reader.cpp:41-109 | One permutation of distinct columns, applied to the fields of the header and of every full row, however quoted, changes neither the samples nor the error. |
| Quantization.Quantizer.Quantize | tensor/quantizer.cpp:5 | The scalar quantiser gives the saturated code, for any scale but zero. |
| Quantization.Quantizer.QuantizeVector | tensor/quantizer.cpp:7 | The vector version gives the same codes, element by element. |
| Quantization.Quantizer.RoundTrip | tensor/quantizer.cpp:5-6 | Quantising a dequantised code gives it back without overflow, as long as its distance from the zero point is an int. |
| Quantization.FloatToInt8 | tensor/tensor_converter.cpp:5-7 | So does the converter, on the first n elements only. |
| Quantization.PackFloatToInt8 | tensor/int8_input_pack.cpp:3-10 | And the version clamping by branches. |
| Quantization.QuantizeInt8 | optimization/quant/int8_quantizer.cpp:4 | And the version rounding with lround. |
| Quantization.Int8ToFloat | tensor/tensor_converter.cpp:8-10 | Each code becomes its value, on the first n elements only. |
| Quantization.QuantisationIsNearest | tensor/quantizer.cpp:5-6 | The value of the code is at least as close to the input as that of any of the 256 codes, clamped or not. |
| Quantization.ErrorAtMostHalfStep | tensor/quantizer.cpp:5-6 | Unclamped, the error is at most half the size of the scale. |
| Quantization.CodeOfValue | tensor/quantizer.cpp:5-6 | Every code survives the trip to its value and back. |
| Quantization.ZeroAndStep | tensor/quantizer.cpp:5-6 | Zero is the zero point, and each code is worth one scale more than the one before. |
| Quantization.TiesGoAway | tensor/quantizer.cpp:5 | A number half way between two steps goes to the one further from zero. |
| Quantization.QuantisationIsMonotone | tensor/quantizer.cpp:5 | Larger inputs never get smaller codes; with a negative scale, never larger ones. |
| Classification.ApplySoftmax | postprocess/softmax.cpp:5-9 | The loops compute the softmax with the maximum subtracted. |
| Classification.MaxElement | postprocess/classifier.cpp:7 | The first position of the largest element. |
| Classification.SoftmaxIsDistribution | postprocess/softmax.cpp:5-9 | The results are positive and sum to one. |
| Classification.SoftmaxIsPlain | postprocess/softmax.cpp:6-8 | Subtracting the maximum does not change the quotient of exponentials. |
| Classification.SoftmaxIsShare | postprocess/softmax.cpp:6-8 | Each probability is the exponential of its own logit over the sum of all exponentials. |
| Classification.SoftmaxOfFiveSumsToOne | postprocess/softmax.cpp:5-9 | The five probabilities add up to one. |
| Classification.SoftmaxIsShiftInvariant | postprocess/softmax.cpp:6-8 | Nor does adding a constant to all logits. |
| Classification.SoftmaxKeepsArgMax | postprocess/classifier.cpp:6-8 | The first largest probability belongs to the first largest logit. |
| Classification.Classify | postprocess/classifier.cpp:5-9 | Fills probabilities, class and confidence and leaves the rest of the result alone. |
| Classification.ClassIsLargestLogit | postprocess/classifier.cpp:5-9 | The class is that of the first largest logit, the confidence its plain softmax. |
| Classification.ConfidenceAtLeastUniform | postprocess/classifier.cpp:5-9 | The confidence is at least one over the number of classes. |
| EndToEnd.RealEnvIsValid | pipeline/pipeline.cpp:51-54 | In the running pipeline preprocessing never fails on a full window. |
| EndToEnd.PreprocessWindow | pipeline/pipeline.cpp:51-54 | Preprocessor::run with default options is the preprocessing stage the pipeline theorems use. |
| EndToEnd.ClassifyWindow | pipeline/pipeline.cpp:78 | Classifier::classify is the classification stage they use. |
| EndToEnd.CallbackMeaning | pipeline/pipeline.cpp:39-81 | In every reachable state callback k is numbered k + 1 and carries, in order, the first five values inference returned for the tensor of samples 128k to 128k + 127, padded with zeros, or five zeros if it failed; it names the first largest of them. |
| EndToEnd.CallbackProbabilities | postprocess/softmax.cpp:5-9 | Its probabilities are the shares of these logits in the sum of the five exponentials, its confidence that of the class it names, at least 0.2. |
| EndToEnd.WindowTensor | pipeline/pipeline.cpp:43-55 | In float32 that tensor is the clamped, filtered, repaired window, never below 150, and the sanitized IMU channel. |
| EndToEnd.ClassificationSurvivesQuantisation | tensor/tensor_converter.cpp:5-10 | If one logit leads by at least one quantisation step and none clamps, quantise, dequantise, softmax and first maximum still pick it, for any number of classes. |
| EndToEnd.SmallerLeadsCanBeLost | tensor/tensor_converter.cpp:5-10 | For every smaller lead there are unclamped logits whose leading class loses its place. |

## Left out

- BlockingQueues.BlockingQueue.EmplaceSection: a mutex section is one step, because nothing else reads or writes the queue without the mutex; the lock itself, `size()` and `closed()` are not modelled.
- QueueTheorems.NoLostWakeup: the producers' bound is stated for an open queue, because it is false on a closed one (see ClosedQueueCanStrandProducer).
- PipelineShutdown.StopReturns: assumes that inference, preprocessing and the callback return and that scheduling is weakly fair; one owner calls start() completely or not at all, and stop() once. The queues are the atomic ones; that calls on a closed queue return at the level of sleepers and notifications is CallsReturnOnceClosed.
- The callback is set, or left unset, before start(); what it does is a log of its calls.
- Pipelines.Pipeline.Infer: the 64-bit window counter is unbounded, and `engine_.ready()` is part of the inference function that may fail.
- Pipelines.Pipeline.PreprocessSample: the window mutex has a single user and is not modelled.
- Worker restart, concurrent start and stop on one worker, and the destructors.
- Wall-clock time: a deadline is a step that may happen at any moment to a timed waiter, so how long a call waits is not modelled.
- Floating point: reals throughout, except the rounding of resampling knots. Rounding of filtered, interpolated and softmax values, NaN logits and an underflowing softmax sum (so its `s > 0` guard, which is always true here) are not captured.
- Float32 knots: the rounding is any monotone function fixing 0 and 1, with the accuracy of `LikeFloat32` where a theorem says float32. That IEEE-754 rounding, through double, meets `LikeFloat32` is not proved here.
- The standard library: `std::upper_bound` and `std::max_element` are written out as loops.
- scipy's filter is represented by its definition, the least-squares quadratic of each window; its internals are not part of this model.
- PreprocessingLaws.ChainMatchesReference: the Python reference is modelled as functions on columns, not as in-place masking of a numpy array, and starts from the same sample list rather than from pandas.
- Preprocessing.Preprocessor.Run: the stages are separate methods, and the buffers change from readings to reals after the repair, when all values are finite.
- Classification.Classify: returns the updated result instead of changing it by reference.
- Quantization.FloatToInt8: int overflow is excluded by a precondition, as is a scale of zero, whose quotient has no int; likewise in the other quantisers.
- `Quantizer::dequantize`, `dequant_int8` and `dequantize_int8` are the same expression as Int8ToFloat and are not repeated with proofs.
- CsvReading.Read: starts from a list of lines; opening files, `std::getline` (so fields that span lines) and `strtof` are outside, the last as an arbitrary parser.
- CsvLaws.PrintedTableReadsBack: covers tables with every field quoted; single rows with bare fields are covered by SplitPrintedRow.
- The model runtime, network, training and export scripts, configuration, logging, sensors, buffer and tensor pools, metrics, watchdog and recovery: foreign or library code, or members that would only add easy results.
