/**
 The pipeline with its real preprocessing and classification put in, and the classification
 of quantised logits. Inference stays an arbitrary function that may fail.
 */
module EndToEnd {
  import opened Common
  import opened Interpolation
  import opened Resampling
  import opened MissingRepair
  import opened Preprocessing
  import opened PreprocessingLaws
  import opened Classification
  import Quantization
  import PipelineModel
  import PipelineInvariant
  import PipelineTheorems

  /** The default of PreprocessOptions. */
  const SENSOR_MIN: real := 150.0

  /** The status and output of Preprocessor::run with default options. */
  function RunPreprocessor(round: Rounding, samples: seq<RawSample>): Option<ModelInput> {
    if |samples| == 0 then None else Some(Tensor(round, samples, SENSOR_MIN))
  }

  function ClassifyResult(e: Exponential, r: InferenceResult): InferenceResult {
    if |r.logits| == 0 then r else Classified(e, r)
  }

  /** What preprocess_loop calls: Preprocessor::run with default options. */
  method PreprocessWindow(round: Rounding, samples: seq<RawSample>) returns (input: Option<ModelInput>)
    requires MonotoneRounding(round)
    ensures input == RunPreprocessor(round, samples)
  {
    var preprocessor := new Preprocessor(Finite(SENSOR_MIN));
    var output := new real[TARGET_LENGTH * INPUT_CHANNELS](_ => 0.0);
    var status := preprocessor.Run(samples, output, round);
    input := if status.Ok? then Some(output[..]) else None;
  }

  /** What post_loop calls: Classifier::classify. A result has at least one logit. */
  method ClassifyWindow(e: Exponential, r: InferenceResult) returns (out: InferenceResult)
    requires |r.logits| > 0
    ensures out == ClassifyResult(e, r)
  {
    out := Classify(e, r);
  }

  function RealEnv(cap: nat, round: Rounding, infer: (nat, ModelInput) -> Option<seq<real>>,
      e: Exponential): PipelineModel.Env {
    PipelineModel.Env(cap, samples => RunPreprocessor(round, samples), infer, r => ClassifyResult(e, r))
  }

  /** Preprocessing never fails in the pipeline: a full window is not empty and the default
      sensor minimum is finite. */
  lemma RealEnvIsValid(cap: nat, round: Rounding, infer: (nat, ModelInput) -> Option<seq<real>>, e: Exponential)
    requires cap > 0
    ensures PipelineInvariant.ValidEnv(RealEnv(cap, round, infer, e))
  {
  }

  /** The samples of window k, counted from zero. */
  function WindowSamples(accepted: seq<RawSample>, k: nat): seq<RawSample>
    requires 128 * k + 128 <= |accepted|
  {
    accepted[128 * k..128 * k + 128]
  }

  /** What classification makes of five logits: the class is the first largest one, and the
      confidence is the class's probability, at least one fifth. */
  lemma ClassifiedMeaning(e: Exponential, r: InferenceResult)
    requires IsExponential(e) && |r.logits| == 5
    ensures var c, l := Classified(e, r), r.logits;
      && c.windowId == r.windowId && c.logits == l && c.probabilities == Softmax(e, l)
      && 0 <= c.classId < 5
      && (forall j :: 0 <= j < 5 ==> l[j] <= l[c.classId])
      && (forall j :: 0 <= j < c.classId ==> l[j] < l[c.classId])
      && c.confidence == c.probabilities[c.classId] && c.confidence >= 0.2
  {
    ClassIsLargestLogit(e, r);
    ConfidenceAtLeastUniform(e, r);
    SoftmaxIsPlain(e, r.logits);
  }

  lemma CallbackIsClassified(cap: nat, round: Rounding, infer: (nat, ModelInput) -> Option<seq<real>>, e: Exponential,
      r: PipelineModel.Run, i: nat, k: nat) returns (result: InferenceResult)
    requires cap > 0
    requires PipelineModel.IsRun(RealEnv(cap, round, infer, e), r) && i < |r.states|
    requires k < |r.states[i].callbacks|
    ensures 128 * k + 128 <= |r.states[i].accepted|
    ensures |result.logits| == 5 && result.windowId == k + 1
    ensures r.states[i].callbacks[k] == Classified(e, result)
    ensures result.logits
         == PipelineModel.LogitsFrom(infer(k + 1, Tensor(round, WindowSamples(r.states[i].accepted, k), SENSOR_MIN)))
  {
    var env := RealEnv(cap, round, infer, e);
    var s := r.states[i];
    RealEnvIsValid(cap, round, infer, e);
    PipelineTheorems.CallbacksArePrefix(env, r, i);
    var window := WindowSamples(s.accepted, k);
    assert env.preprocess(window) == Some(Tensor(round, window, SENSOR_MIN));
    result := PipelineModel.ResultFor(env, k + 1, Tensor(round, window, SENSOR_MIN));
    assert env.classify(result) == Classified(e, result);
  }

  /** What the callback is told. In every reachable state of every run the k-th callback is
      numbered k + 1. Its logits are what inference returned for call k + 1 and the tensor of
      samples 128k .. 128k + 127: the first five values, padded with zeros if there are fewer,
      all zero if inference failed. Its class is the first largest logit. */
  lemma CallbackMeaning(cap: nat, round: Rounding, infer: (nat, ModelInput) -> Option<seq<real>>, e: Exponential,
      r: PipelineModel.Run, i: nat, k: nat)
    requires cap > 0 && IsExponential(e)
    requires PipelineModel.IsRun(RealEnv(cap, round, infer, e), r) && i < |r.states|
    requires k < |r.states[i].callbacks|
    ensures 128 * k + 128 <= |r.states[i].accepted|
    ensures var c, input := r.states[i].callbacks[k],
      Tensor(round, r.states[i].accepted[128 * k..128 * k + 128], 150.0);
      var l, v := c.logits, infer(k + 1, input);
      && c.windowId == k + 1 && |l| == 5
      && (v.None? ==> l == [0.0, 0.0, 0.0, 0.0, 0.0])
      && (v.Some? && |v.value| >= 5 ==> l == v.value[..5])
      && (v.Some? && |v.value| < 5 ==> v.value <= l && forall j :: |v.value| <= j < 5 ==> l[j] == 0.0)
      && 0 <= c.classId < 5
      && (forall j :: 0 <= j < 5 ==> l[j] <= l[c.classId])
      && (forall j :: 0 <= j < c.classId ==> l[j] < l[c.classId])
  {
    var result := CallbackIsClassified(cap, round, infer, e, r, i, k);
    ClassifiedMeaning(e, result);
    PipelineTheorems.LogitsAreTheOutput(
      infer(k + 1, Tensor(round, r.states[i].accepted[128 * k..128 * k + 128], 150.0)));
  }

  /** And its probabilities are the shares of these logits in the sum of their exponentials;
      its confidence is that of its class, at least one fifth. */
  lemma CallbackProbabilities(cap: nat, round: Rounding, infer: (nat, ModelInput) -> Option<seq<real>>,
      e: Exponential, r: PipelineModel.Run, i: nat, k: nat, m: nat) returns (sum: real)
    requires cap > 0 && IsExponential(e)
    requires PipelineModel.IsRun(RealEnv(cap, round, infer, e), r) && i < |r.states|
    requires k < |r.states[i].callbacks| && m < 5
    ensures var c := r.states[i].callbacks[k];
      var l := c.logits;
      && |l| == 5 && |c.probabilities| == 5
      && sum == e(l[0]) + e(l[1]) + e(l[2]) + e(l[3]) + e(l[4])
      && sum > 0.0 && c.probabilities[m] == e(l[m]) / sum
      && 0 <= c.classId < 5 && c.confidence == c.probabilities[c.classId] && c.confidence >= 0.2
  {
    var result := CallbackIsClassified(cap, round, infer, e, r, i, k);
    ClassifiedMeaning(e, result);
    sum := ProbabilityShare(e, result.logits, m);
  }

  lemma ProbabilityShare(e: Exponential, l: seq<real>, m: nat) returns (sum: real)
    requires IsExponential(e) && |l| == 5 && m < 5
    ensures sum == e(l[0]) + e(l[1]) + e(l[2]) + e(l[3]) + e(l[4])
    ensures sum > 0.0 && Softmax(e, l)[m] == e(l[m]) / sum
  {
    sum := e(l[0]) + e(l[1]) + e(l[2]) + e(l[3]) + e(l[4]);
    SumOfFiveExponentials(e, l);
    SoftmaxIsShare(e, l, sum, m);
  }

  /** And what that tensor is: each radar column the clamped, filtered, repaired channel and
      never below the sensor minimum, the IMU column the sanitized channel. */
  lemma WindowTensor(round: Rounding, window: seq<RawSample>, t: nat, ch: nat)
    requires LikeFloat32(round)
    requires |window| == TARGET_LENGTH && t < TARGET_LENGTH && ch < INPUT_CHANNELS
    ensures t * INPUT_CHANNELS + ch < |Tensor(round, window, 150.0)|
    ensures var y := Tensor(round, window, 150.0)[t * INPUT_CHANNELS + ch];
      if ch < RADAR_CHANNELS then y == Conditioned(RadarColumn(window, ch), 150.0)[t] && y >= 150.0
      else y == SanitizedValues(ImuColumn(window))[t]
  {
    FullWindowIsNotResampled(round, window, SENSOR_MIN, t, ch);
    if ch < RADAR_CHANNELS {
      RadarAtLeastSensorMin(round, window, SENSOR_MIN, t, ch);
    }
  }

  // ----- quantised logits -----

  /** Logits after a trip through INT8. */
  function ThroughInt8(logits: seq<real>, scale: real, zeroPoint: int): (out: seq<real>)
    requires scale != 0.0
    ensures |out| == |logits|
  {
    seq(|logits|, i requires 0 <= i < |logits| =>
      Quantization.Value(Quantization.Code(logits[i], scale, zeroPoint), scale, zeroPoint))
  }

  /** A class that leads by at least one quantisation step keeps its place, for any number of
      classes: quantise, dequantise, softmax and first maximum still pick it. */
  lemma ClassificationSurvivesQuantisation(e: Exponential, logits: seq<real>, scale: real, zeroPoint: int, c: nat)
    requires IsExponential(e) && scale != 0.0 && c < |logits|
    requires forall j :: 0 <= j < |logits| && j != c ==> logits[j] + Quantization.Abs(scale) <= logits[c]
    requires forall j :: 0 <= j < |logits| ==> !Quantization.Clamps(logits[j], scale, zeroPoint)
    ensures ArgMax(Softmax(e, logits)) == c
    ensures ArgMax(Softmax(e, ThroughInt8(logits, scale, zeroPoint))) == c
  {
    var q := ThroughInt8(logits, scale, zeroPoint);
    forall j: nat | j < |logits| && j != c ensures q[j] < q[c] {
      Quantization.StepSurvives(logits[j], logits[c], scale, zeroPoint);
    }
    ArgMaxIsUnique(q, c);
    ArgMaxIsUnique(logits, c);
    SoftmaxKeepsArgMax(e, q);
    SoftmaxKeepsArgMax(e, logits);
  }

  /** The step is the exact margin: for every smaller lead there are logits, unclamped, whose
      leading class loses its place. */
  lemma SmallerLeadsCanBeLost(e: Exponential, scale: real, lead: real)
    requires IsExponential(e) && 0.0 < lead < Quantization.Abs(scale)
    ensures var logits := [0.5 * Quantization.Abs(scale), 0.5 * Quantization.Abs(scale) + lead];
      && !Quantization.Clamps(logits[0], scale, 0) && !Quantization.Clamps(logits[1], scale, 0)
      && ArgMax(Softmax(e, logits)) == 1
      && ArgMax(Softmax(e, ThroughInt8(logits, scale, 0))) == 0
  {
    var logits := [0.5 * Quantization.Abs(scale), 0.5 * Quantization.Abs(scale) + lead];
    var q := ThroughInt8(logits, scale, 0);
    Quantization.SmallerGapsCanVanish(scale, lead);
    assert q[0] == q[1];
    ArgMaxIsUnique(logits, 1);
    ArgMaxIsUnique(q, 0);
    SoftmaxKeepsArgMax(e, logits);
    SoftmaxKeepsArgMax(e, q);
  }
}
