/**
 The preprocessing chain: repair, smooth, clamp, resample, and lay out as [128, 9]. From the
 repair on every value is finite, so the later stages work on reals.
 */
module Preprocessing {
  import opened Common
  import opened MissingRepair
  import opened MissingRepairLaws
  import opened SavGol
  import opened Resampling

  datatype PreprocessError = InputIsEmpty | SensorMinNotFinite

  datatype PreprocessReport = PreprocessReport(
    sourceSamples: nat,
    radarInvalidValues: nat,
    imuNonfiniteValues: nat,
    allInvalidRadarChannels: nat,
    savgolApplied: bool)

  // ----- what each column becomes -----

  function RadarColumn(samples: seq<RawSample>, ch: nat): (c: seq<Reading>)
    requires ch < RADAR_CHANNELS
    ensures |c| == |samples|
  {
    seq(|samples|, i requires 0 <= i < |samples| => samples[i].radar[ch])
  }

  function ImuColumn(samples: seq<RawSample>): (c: seq<Reading>)
    ensures |c| == |samples|
  {
    seq(|samples|, i requires 0 <= i < |samples| => samples[i].imu)
  }

  ghost predicate AllFinite(c: seq<Reading>) {
    forall i :: 0 <= i < |c| ==> c[i].Finite?
  }

  /** The values of a channel in which every reading is finite. */
  function Reals(c: seq<Reading>): (r: seq<real>)
    requires AllFinite(c)
    ensures |r| == |c|
  {
    seq(|c|, i requires 0 <= i < |c| => c[i].value)
  }

  lemma RepairedIsFinite(c: seq<Reading>, sensorMin: real)
    ensures AllFinite(Repaired(c, Finite(sensorMin)))
  {
    forall i: nat | i < |c| ensures Repaired(c, Finite(sensorMin))[i].Finite? {
      AllFiniteAfterwards(c, Finite(sensorMin), i);
    }
  }

  function RepairedValues(c: seq<Reading>, sensorMin: real): (out: seq<real>)
    ensures |out| == |c|
  {
    RepairedIsFinite(c, sensorMin);
    Reals(Repaired(c, Finite(sensorMin)))
  }

  function SanitizedValues(c: seq<Reading>): (out: seq<real>)
    ensures |out| == |c|
  {
    Reals(Sanitized(c))
  }

  function Max(a: real, b: real): real {
    if a < b then b else a
  }

  function Clamped(c: seq<real>, low: real): (out: seq<real>)
    ensures |out| == |c|
  {
    seq(|c|, i requires 0 <= i < |c| => Max(c[i], low))
  }

  /** A radar channel just before resampling. */
  function Conditioned(c: seq<Reading>, sensorMin: real): (out: seq<real>)
    ensures |out| == |c|
  {
    Clamped(Smoothed(RepairedValues(c, sensorMin)), sensorMin)
  }

  /** Column `ch` of the tensor: channels 0..7 are radar, channel 8 is the IMU. */
  function OutputColumn(round: Rounding, samples: seq<RawSample>, sensorMin: real, ch: nat): (out: seq<real>)
    requires |samples| > 0 && ch < INPUT_CHANNELS
    ensures |out| == TARGET_LENGTH
  {
    if ch < RADAR_CHANNELS then Resampled(round, Conditioned(RadarColumn(samples, ch), sensorMin), TARGET_LENGTH)
    else Resampled(round, SanitizedValues(ImuColumn(samples)), TARGET_LENGTH)
  }

  function Tensor(round: Rounding, samples: seq<RawSample>, sensorMin: real): ModelInput
    requires |samples| > 0
  {
    seq(TARGET_LENGTH * INPUT_CHANNELS, i requires 0 <= i < TARGET_LENGTH * INPUT_CHANNELS =>
      OutputColumn(round, samples, sensorMin, i % INPUT_CHANNELS)[i / INPUT_CHANNELS])
  }

  function SumInvalid(samples: seq<RawSample>, k: nat): nat
    requires k <= RADAR_CHANNELS
  {
    if k == 0 then 0 else SumInvalid(samples, k - 1) + CountInvalid(RadarColumn(samples, k - 1))
  }

  ghost function CountAllInvalid(samples: seq<RawSample>, k: nat): nat
    requires k <= RADAR_CHANNELS
  {
    if k == 0 then 0
    else CountAllInvalid(samples, k - 1) + if NoneValid(RadarColumn(samples, k - 1)) then 1 else 0
  }

  ghost function ReportOf(samples: seq<RawSample>): PreprocessReport {
    PreprocessReport(|samples|, SumInvalid(samples, RADAR_CHANNELS), CountNonFinite(ImuColumn(samples)),
      CountAllInvalid(samples, RADAR_CHANNELS), |samples| >= 7)
  }

  // ----- lists of channel buffers -----

  ghost predicate Distinct<T>(channels: seq<array<T>>) {
    forall i, j :: 0 <= i < j < |channels| ==> channels[i] != channels[j]
  }

  /** Buffer k holds contents[k]. */
  ghost predicate Holds<T>(channels: seq<array<T>>, contents: seq<seq<T>>)
    reads channels
  {
    |channels| == |contents| && forall k :: 0 <= k < |channels| ==> channels[k][..] == contents[k]
  }

  method ExtractRadarChannel(samples: seq<RawSample>, ch: nat) returns (channel: array<Reading>)
    requires ch < RADAR_CHANNELS
    ensures fresh(channel) && channel[..] == RadarColumn(samples, ch)
  {
    channel := new Reading[|samples|](_ => NaN);
    for i := 0 to |samples|
      invariant forall j :: 0 <= j < i ==> channel[j] == RadarColumn(samples, ch)[j]
    {
      channel[i] := samples[i].radar[ch];
    }
    assert channel[..] == RadarColumn(samples, ch);
  }

  method ExtractImuChannel(samples: seq<RawSample>) returns (channel: array<Reading>)
    ensures fresh(channel) && channel[..] == ImuColumn(samples)
  {
    channel := new Reading[|samples|](_ => NaN);
    for i := 0 to |samples|
      invariant forall j :: 0 <= j < i ==> channel[j] == ImuColumn(samples)[j]
    {
      channel[i] := samples[i].imu;
    }
    assert channel[..] == ImuColumn(samples);
  }

  ghost function RadarColumns(samples: seq<RawSample>): (cs: seq<seq<Reading>>)
    ensures |cs| == RADAR_CHANNELS
  {
    seq(RADAR_CHANNELS, ch requires 0 <= ch < RADAR_CHANNELS => RadarColumn(samples, ch))
  }

  method ExtractRadar(samples: seq<RawSample>) returns (radar: seq<array<Reading>>)
    ensures fresh(set k | 0 <= k < |radar| :: radar[k]) && Distinct(radar)
    ensures Holds(radar, RadarColumns(samples))
  {
    radar := [];
    for ch := 0 to RADAR_CHANNELS
      invariant |radar| == ch && Distinct(radar) && fresh(set k | 0 <= k < |radar| :: radar[k])
      invariant forall k :: 0 <= k < ch ==> radar[k][..] == RadarColumns(samples)[k]
    {
      var channel := ExtractRadarChannel(samples, ch);
      radar := radar + [channel];
    }
  }

  ghost function RepairedColumns(samples: seq<RawSample>, sensorMin: real): (cs: seq<seq<Reading>>)
    ensures |cs| == RADAR_CHANNELS
  {
    seq(RADAR_CHANNELS, ch requires 0 <= ch < RADAR_CHANNELS => Repaired(RadarColumn(samples, ch), Finite(sensorMin)))
  }

  method RepairAll(radar: seq<array<Reading>>, sensorMin: real, ghost samples: seq<RawSample>)
      returns (invalid: nat, allInvalid: nat)
    requires |samples| > 0 && Distinct(radar) && Holds(radar, RadarColumns(samples))
    modifies radar
    ensures Holds(radar, RepairedColumns(samples, sensorMin))
    ensures invalid == SumInvalid(samples, RADAR_CHANNELS)
    ensures allInvalid == CountAllInvalid(samples, RADAR_CHANNELS)
  {
    invalid, allInvalid := 0, 0;
    for ch := 0 to RADAR_CHANNELS
      invariant forall k :: 0 <= k < ch ==> radar[k][..] == RepairedColumns(samples, sensorMin)[k]
      invariant forall k :: ch <= k < RADAR_CHANNELS ==> radar[k][..] == RadarColumns(samples)[k]
      invariant invalid == SumInvalid(samples, ch) && allInvalid == CountAllInvalid(samples, ch)
    {
      assert radar[ch][..] == RadarColumn(samples, ch);
      var stats := RepairRadarChannel(radar[ch], Finite(sensorMin));
      invalid := invalid + stats.invalidValues;
      if stats.allInvalid {
        allInvalid := allInvalid + 1;
      }
    }
  }

  /** The buffer as reals, once every reading in it is finite. */
  method AsReals(channel: array<Reading>) returns (values: array<real>)
    requires AllFinite(channel[..])
    ensures fresh(values) && values[..] == Reals(channel[..])
  {
    values := new real[channel.Length](_ => 0.0);
    for i := 0 to channel.Length
      invariant forall j :: 0 <= j < i ==> values[j] == Reals(channel[..])[j]
    {
      assert channel[..][i] == channel[i];
      values[i] := channel[i].value;
    }
    assert values[..] == Reals(channel[..]);
  }

  ghost function RepairedReals(samples: seq<RawSample>, sensorMin: real): (cs: seq<seq<real>>)
    ensures |cs| == RADAR_CHANNELS
  {
    seq(RADAR_CHANNELS, ch requires 0 <= ch < RADAR_CHANNELS =>
      RepairedValues(RadarColumn(samples, ch), sensorMin))
  }

  method AllAsReals(radar: seq<array<Reading>>, ghost samples: seq<RawSample>, ghost sensorMin: real)
      returns (channels: seq<array<real>>)
    requires Holds(radar, RepairedColumns(samples, sensorMin))
    ensures fresh(set k | 0 <= k < |channels| :: channels[k]) && Distinct(channels)
    ensures Holds(channels, RepairedReals(samples, sensorMin))
  {
    channels := [];
    for ch := 0 to RADAR_CHANNELS
      invariant |channels| == ch && Distinct(channels) && fresh(set k | 0 <= k < |channels| :: channels[k])
      invariant forall k :: 0 <= k < ch ==> channels[k][..] == RepairedReals(samples, sensorMin)[k]
    {
      RepairedIsFinite(RadarColumn(samples, ch), sensorMin);
      assert radar[ch][..] == Repaired(RadarColumn(samples, ch), Finite(sensorMin));
      var channel := AsReals(radar[ch]);
      channels := channels + [channel];
    }
  }

  ghost function SmoothedColumns(samples: seq<RawSample>, sensorMin: real): (cs: seq<seq<real>>)
    ensures |cs| == RADAR_CHANNELS
  {
    seq(RADAR_CHANNELS, ch requires 0 <= ch < RADAR_CHANNELS =>
      Smoothed(RepairedValues(RadarColumn(samples, ch), sensorMin)))
  }

  method SmoothAll(channels: seq<array<real>>, ghost samples: seq<RawSample>, ghost sensorMin: real)
    requires Distinct(channels) && Holds(channels, RepairedReals(samples, sensorMin))
    modifies channels
    ensures Holds(channels, SmoothedColumns(samples, sensorMin))
  {
    for ch := 0 to RADAR_CHANNELS
      invariant forall k :: 0 <= k < ch ==> channels[k][..] == SmoothedColumns(samples, sensorMin)[k]
      invariant forall k :: ch <= k < RADAR_CHANNELS ==> channels[k][..] == RepairedReals(samples, sensorMin)[k]
    {
      SavGol72Interp(channels[ch]);
    }
  }

  method ClampChannel(values: array<real>, low: real)
    modifies values
    ensures values[..] == Clamped(old(values[..]), low)
  {
    ghost var c := values[..];
    for i := 0 to values.Length
      invariant forall j :: 0 <= j < i ==> values[j] == Clamped(c, low)[j]
      invariant forall j :: i <= j < values.Length ==> values[j] == c[j]
    {
      values[i] := Max(values[i], low);
    }
    assert values[..] == Clamped(c, low);
  }

  ghost function ConditionedColumns(samples: seq<RawSample>, sensorMin: real): (cs: seq<seq<real>>)
    ensures |cs| == RADAR_CHANNELS
  {
    seq(RADAR_CHANNELS, ch requires 0 <= ch < RADAR_CHANNELS => Conditioned(RadarColumn(samples, ch), sensorMin))
  }

  method ClampAll(channels: seq<array<real>>, sensorMin: real, ghost samples: seq<RawSample>)
    requires Distinct(channels) && Holds(channels, SmoothedColumns(samples, sensorMin))
    modifies channels
    ensures Holds(channels, ConditionedColumns(samples, sensorMin))
  {
    for ch := 0 to RADAR_CHANNELS
      invariant forall k :: 0 <= k < ch ==> channels[k][..] == ConditionedColumns(samples, sensorMin)[k]
      invariant forall k :: ch <= k < RADAR_CHANNELS ==> channels[k][..] == SmoothedColumns(samples, sensorMin)[k]
    {
      ClampChannel(channels[ch], sensorMin);
    }
  }

  ghost function OutputColumns(round: Rounding, samples: seq<RawSample>, sensorMin: real): (cs: seq<seq<real>>)
    requires |samples| > 0
    ensures |cs| == INPUT_CHANNELS
  {
    seq(INPUT_CHANNELS, ch requires 0 <= ch < INPUT_CHANNELS => OutputColumn(round, samples, sensorMin, ch))
  }

  /** One channel to its output column. The resampler cannot fail here. */
  method ResampleChannel(channel: array<real>, round: Rounding, ghost goal: seq<real>) returns (out: array<real>)
    requires MonotoneRounding(round) && channel.Length > 0
    requires goal == Resampled(round, channel[..], TARGET_LENGTH)
    ensures fresh(out) && out[..] == goal
  {
    var status := ResampleLinearNormalized(channel, TARGET_LENGTH, round);
    out := status.value;
  }

  lemma HoldsOneMore<T>(channels: seq<array<T>>, contents: seq<seq<T>>, channel: array<T>)
    requires Holds(channels, contents)
    ensures Holds(channels + [channel], contents + [channel[..]])
  {
  }

  /** Resample into a list, the result of each channel being the goal for it. */
  method ResampleEach(channels: seq<array<real>>, round: Rounding, ghost contents: seq<seq<real>>,
      ghost goals: seq<seq<real>>)
      returns (columns: seq<array<real>>)
    requires MonotoneRounding(round) && Holds(channels, contents) && |goals| == |contents|
    requires forall k :: 0 <= k < |contents| ==>
      |contents[k]| > 0 && goals[k] == Resampled(round, contents[k], TARGET_LENGTH)
    ensures fresh(set k | 0 <= k < |columns| :: columns[k]) && Holds(columns, goals)
  {
    columns := [];
    for ch := 0 to |channels|
      invariant |columns| == ch && fresh(set k | 0 <= k < |columns| :: columns[k])
      invariant Holds(columns, goals[..ch])
    {
      assert channels[ch][..] == contents[ch];
      var column := ResampleChannel(channels[ch], round, goals[ch]);
      HoldsOneMore(columns, goals[..ch], column);
      assert goals[..ch] + [goals[ch]] == goals[..ch + 1];
      columns := columns + [column];
    }
  }

  method ResampleAll(channels: seq<array<real>>, imu: array<real>, round: Rounding,
      ghost samples: seq<RawSample>, ghost sensorMin: real) returns (columns: seq<array<real>>)
    requires |samples| > 0 && MonotoneRounding(round)
    requires Holds(channels, ConditionedColumns(samples, sensorMin))
    requires imu[..] == SanitizedValues(ImuColumn(samples))
    ensures fresh(set k | 0 <= k < |columns| :: columns[k])
    ensures Holds(columns, OutputColumns(round, samples, sensorMin))
  {
    ghost var goals := OutputColumns(round, samples, sensorMin);
    columns := ResampleEach(channels, round, ConditionedColumns(samples, sensorMin), goals[..RADAR_CHANNELS]);
    var column := ResampleChannel(imu, round, goals[RADAR_CHANNELS]);
    columns := columns + [column];
  }

  /** Interleave the nine columns row by row. */
  method LayOut(columns: seq<array<real>>, output: array<real>, ghost contents: seq<seq<real>>)
    requires |contents| == INPUT_CHANNELS && forall c :: 0 <= c < INPUT_CHANNELS ==> |contents[c]| == TARGET_LENGTH
    requires Holds(columns, contents) && output.Length == TARGET_LENGTH * INPUT_CHANNELS
    requires output !in columns
    modifies output
    ensures forall i :: 0 <= i < output.Length ==> output[i] == contents[i % INPUT_CHANNELS][i / INPUT_CHANNELS]
  {
    for t := 0 to TARGET_LENGTH
      invariant forall i :: 0 <= i < t * INPUT_CHANNELS ==>
        output[i] == contents[i % INPUT_CHANNELS][i / INPUT_CHANNELS]
      invariant Holds(columns, contents)
    {
      for ch := 0 to INPUT_CHANNELS
        invariant forall i :: 0 <= i < t * INPUT_CHANNELS + ch ==>
          output[i] == contents[i % INPUT_CHANNELS][i / INPUT_CHANNELS]
        invariant Holds(columns, contents)
      {
        assert columns[ch][..][t] == columns[ch][t];
        assert (t * INPUT_CHANNELS + ch) % INPUT_CHANNELS == ch && (t * INPUT_CHANNELS + ch) / INPUT_CHANNELS == t;
        output[t * INPUT_CHANNELS + ch] := columns[ch][t];
      }
    }
  }

  class Preprocessor {
    const sensorMin: Reading

    constructor (sensorMin: Reading)
      ensures this.sensorMin == sensorMin
    {
      this.sensorMin := sensorMin;
    }

    /** The stages before resampling: repair, smooth and clamp the radar, sanitize the IMU. */
    method Condition(samples: seq<RawSample>, low: real)
        returns (channels: seq<array<real>>, imuValues: array<real>, invalid: nat, allInvalid: nat, nonfinite: nat)
      requires |samples| > 0
      ensures fresh(set k | 0 <= k < |channels| :: channels[k]) && fresh(imuValues)
      ensures Holds(channels, ConditionedColumns(samples, low))
      ensures imuValues[..] == SanitizedValues(ImuColumn(samples))
      ensures invalid == SumInvalid(samples, RADAR_CHANNELS) && allInvalid == CountAllInvalid(samples, RADAR_CHANNELS)
      ensures nonfinite == CountNonFinite(ImuColumn(samples))
    {
      var radar := ExtractRadar(samples);
      var imu := ExtractImuChannel(samples);
      invalid, allInvalid := RepairAll(radar, low, samples);
      nonfinite := SanitizeImu(imu);
      channels := AllAsReals(radar, samples, low);
      imuValues := AsReals(imu);
      if |samples| >= 7 {
        SmoothAll(channels, samples, low);
      } else {
        assert Holds(channels, SmoothedColumns(samples, low));
      }
      ClampAll(channels, low, samples);
    }

    /** Fails on an empty input and on a sensor minimum that is not finite, and then writes
        nothing; otherwise fills the tensor and reports the counts. */
    method Run(samples: seq<RawSample>, output: array<real>, round: Rounding)
        returns (status: Result<PreprocessReport, PreprocessError>)
      requires MonotoneRounding(round) && output.Length == TARGET_LENGTH * INPUT_CHANNELS
      modifies output
      ensures status.Err? <==> samples == [] || !sensorMin.Finite?
      ensures status.Err? ==> output[..] == old(output[..])
      ensures status == Err(InputIsEmpty) <==> samples == []
      ensures status.Ok? ==>
        && output[..] == Tensor(round, samples, sensorMin.value)
        && status.value == ReportOf(samples)
    {
      if |samples| == 0 {
        return Err(InputIsEmpty);
      }
      if !sensorMin.Finite? {
        return Err(SensorMinNotFinite);
      }
      var low := sensorMin.value;
      var channels, imuValues, invalid, allInvalid, nonfinite := Condition(samples, low);
      var columns := ResampleAll(channels, imuValues, round, samples, low);
      LayOut(columns, output, OutputColumns(round, samples, low));
      assert output[..] == Tensor(round, samples, low);
      return Ok(PreprocessReport(|samples|, invalid, nonfinite, allInvalid, |samples| >= 7));
    }
  }
}
