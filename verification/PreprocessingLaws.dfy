/** The chain against its Python reference, and what every tensor satisfies. */
module PreprocessingLaws {
  import opened Common
  import opened Interpolation
  import opened MissingRepair
  import opened MissingRepairLaws
  import opened SavGol
  import SavGolLaws
  import opened Resampling
  import ResamplingLaws
  import opened Preprocessing

  // ----- which input fills which column -----

  /** Column ch of the radar is channel D(ch + 1) of every sample, in order. */
  lemma RadarColumnIs(samples: seq<RawSample>, ch: nat, c: seq<Reading>)
    requires ch < 8 && |c| == |samples| && forall i :: 0 <= i < |samples| ==> c[i] == samples[i].radar[ch]
    ensures RadarColumn(samples, ch) == c
  {
  }

  lemma ImuColumnIs(samples: seq<RawSample>, c: seq<Reading>)
    requires |c| == |samples| && forall i :: 0 <= i < |samples| ==> c[i] == samples[i].imu
    ensures ImuColumn(samples) == c
  {
  }

  // ----- the reference: repair_and_resample on one table -----

  /** np.maximum(column, low). */
  function NpMaximum(c: seq<real>, low: real): (out: seq<real>)
    ensures |out| == |c|
  {
    seq(|c|, i requires 0 <= i < |c| => if c[i] >= low then c[i] else low)
  }

  lemma NpRepairedIsFinite(c: seq<Reading>, sensorMin: real)
    ensures AllFinite(NpRepaired(c, Finite(sensorMin)))
  {
    RepairedIsNumpy(c, Finite(sensorMin));
    RepairedIsFinite(c, sensorMin);
  }

  /** A radar column: numpy repair, scipy filter from seven samples on, maximum, np.interp. */
  function ReferenceRadar(round: Rounding, c: seq<Reading>, sensorMin: real): seq<real>
    requires |c| > 0
  {
    NpRepairedIsFinite(c, sensorMin);
    var repaired := Reals(NpRepaired(c, Finite(sensorMin)));
    var filtered := if |c| >= 7 then Smoothed(repaired) else repaired;
    NpResampled(round, NpMaximum(filtered, sensorMin), TARGET_LENGTH)
  }

  /** The IMU column: non-finite becomes zero, then np.interp. */
  function ReferenceImu(round: Rounding, c: seq<Reading>): seq<real>
    requires |c| > 0
  {
    NpResampled(round, seq(|c|, i requires 0 <= i < |c| => if c[i].Finite? then c[i].value else 0.0), TARGET_LENGTH)
  }

  /** Entry (t, ch) of the reference's [128, 9] result. */
  function Reference(round: Rounding, samples: seq<RawSample>, sensorMin: real, t: nat, ch: nat): real
    requires |samples| > 0 && t < TARGET_LENGTH && ch < INPUT_CHANNELS
  {
    if ch < 8 then
      ReferenceRadar(round, seq(|samples|, i requires 0 <= i < |samples| => samples[i].radar[ch]), sensorMin)[t]
    else
      ReferenceImu(round, seq(|samples|, i requires 0 <= i < |samples| => samples[i].imu))[t]
  }

  lemma ClampIsNpMaximum(c: seq<real>, low: real)
    ensures Clamped(c, low) == NpMaximum(c, low)
  {
  }

  lemma RadarMatchesReference(round: Rounding, c: seq<Reading>, sensorMin: real)
    requires MonotoneRounding(round) && SecondKnotPositive(round, |c|) && |c| > 0
    ensures Resampled(round, Conditioned(c, sensorMin), TARGET_LENGTH) == ReferenceRadar(round, c, sensorMin)
  {
    RepairedIsNumpy(c, Finite(sensorMin));
    ClampIsNpMaximum(Smoothed(RepairedValues(c, sensorMin)), sensorMin);
    ResampledIsNumpy(round, Conditioned(c, sensorMin), TARGET_LENGTH);
  }

  lemma ImuMatchesReference(round: Rounding, c: seq<Reading>)
    requires MonotoneRounding(round) && SecondKnotPositive(round, |c|) && |c| > 0
    ensures Resampled(round, SanitizedValues(c), TARGET_LENGTH) == ReferenceImu(round, c)
  {
    ResampledIsNumpy(round, SanitizedValues(c), TARGET_LENGTH);
    assert SanitizedValues(c) == seq(|c|, i requires 0 <= i < |c| => if c[i].Finite? then c[i].value else 0.0);
  }

  lemma TensorEntry(round: Rounding, samples: seq<RawSample>, sensorMin: real, t: nat, ch: nat)
    requires |samples| > 0 && t < TARGET_LENGTH && ch < INPUT_CHANNELS
    ensures t * INPUT_CHANNELS + ch < |Tensor(round, samples, sensorMin)|
    ensures Tensor(round, samples, sensorMin)[t * INPUT_CHANNELS + ch]
         == OutputColumn(round, samples, sensorMin, ch)[t]
  {
    var i := t * INPUT_CHANNELS + ch;
    assert i / INPUT_CHANNELS == t && i % INPUT_CHANNELS == ch;
  }

  /** The C++ chain computes what the Python reference computes, at every entry, for every
      finite sensor minimum and every non-empty list of samples whose second position is not
      rounded to zero. */
  lemma ChainMatchesReference(round: Rounding, samples: seq<RawSample>, sensorMin: real, t: nat, ch: nat)
    requires MonotoneRounding(round) && SecondKnotPositive(round, |samples|)
    requires |samples| > 0 && t < TARGET_LENGTH && ch < INPUT_CHANNELS
    ensures t * INPUT_CHANNELS + ch < |Tensor(round, samples, sensorMin)|
    ensures Tensor(round, samples, sensorMin)[t * INPUT_CHANNELS + ch] == Reference(round, samples, sensorMin, t, ch)
  {
    TensorEntry(round, samples, sensorMin, t, ch);
    if ch < 8 {
      var c := seq(|samples|, i requires 0 <= i < |samples| => samples[i].radar[ch]);
      RadarColumnIs(samples, ch, c);
      RadarMatchesReference(round, c, sensorMin);
    } else {
      var c := seq(|samples|, i requires 0 <= i < |samples| => samples[i].imu);
      ImuColumnIs(samples, c);
      ImuMatchesReference(round, c);
    }
  }

  /** In float32 that is every list a vector can hold. */
  lemma ChainMatchesReferenceInFloat32(round: Rounding, samples: seq<RawSample>, sensorMin: real, t: nat, ch: nat)
    requires LikeFloat32(round) && 0 < |samples| <= SIZE_MAX
    requires t < TARGET_LENGTH && ch < INPUT_CHANNELS
    ensures t * INPUT_CHANNELS + ch < |Tensor(round, samples, sensorMin)|
    ensures Tensor(round, samples, sensorMin)[t * INPUT_CHANNELS + ch] == Reference(round, samples, sensorMin, t, ch)
  {
    Float32SecondKnot(round, |samples|);
    ChainMatchesReference(round, samples, sensorMin, t, ch);
  }

  // ----- the report -----

  /** The samples whose reading of channel ch is not finite or not above zero. */
  ghost function BadSamples(samples: seq<RawSample>, ch: nat): set<int>
    requires ch < 8
  {
    set i | 0 <= i < |samples| && (!samples[i].radar[ch].Finite? || samples[i].radar[ch].value <= 0.0)
  }

  ghost predicate AllBad(samples: seq<RawSample>, ch: nat)
    requires ch < 8
  {
    forall i :: 0 <= i < |samples| ==> !samples[i].radar[ch].Finite? || samples[i].radar[ch].value <= 0.0
  }

  lemma InvalidInChannel(samples: seq<RawSample>, ch: nat)
    requires ch < 8
    ensures CountInvalid(RadarColumn(samples, ch)) == |BadSamples(samples, ch)|
    ensures NoneValid(RadarColumn(samples, ch)) <==> AllBad(samples, ch)
  {
    var c := RadarColumn(samples, ch);
    CountInvalidIsCardinality(c);
    assert InvalidIndices(c) == BadSamples(samples, ch);
    assert forall i :: 0 <= i < |samples| ==> c[i] == samples[i].radar[ch];
  }

  ghost function BadChannels(samples: seq<RawSample>, k: nat): set<int>
    requires k <= 8
  {
    set ch | 0 <= ch < k && AllBad(samples, ch)
  }

  lemma OneMoreChannel(samples: seq<RawSample>, k: nat)
    requires k < 8
    ensures |BadChannels(samples, k + 1)| == |BadChannels(samples, k)| + if AllBad(samples, k) then 1 else 0
  {
    if AllBad(samples, k) {
      assert BadChannels(samples, k + 1) == BadChannels(samples, k) + {k};
    } else {
      assert BadChannels(samples, k + 1) == BadChannels(samples, k);
    }
  }

  lemma {:induction false} AllInvalidChannels(samples: seq<RawSample>, k: nat)
    requires k <= 8
    ensures CountAllInvalid(samples, k) == |BadChannels(samples, k)|
  {
    if k > 0 {
      AllInvalidChannels(samples, k - 1);
      InvalidInChannel(samples, k - 1);
      OneMoreChannel(samples, k - 1);
    } else {
      assert BadChannels(samples, 0) == {};
    }
  }

  lemma SumInvalidUnrolled(samples: seq<RawSample>)
    ensures SumInvalid(samples, 8)
         == |BadSamples(samples, 0)| + |BadSamples(samples, 1)| + |BadSamples(samples, 2)| + |BadSamples(samples, 3)|
          + |BadSamples(samples, 4)| + |BadSamples(samples, 5)| + |BadSamples(samples, 6)| + |BadSamples(samples, 7)|
  {
    forall ch: nat | ch < 8 ensures SumInvalid(samples, ch + 1) == SumInvalid(samples, ch) + |BadSamples(samples, ch)| {
      InvalidInChannel(samples, ch);
    }
    assert SumInvalid(samples, 0) == 0;
  }

  /** What the report counts. */
  lemma ReportMeaning(samples: seq<RawSample>)
    ensures var report := ReportOf(samples);
      && report.sourceSamples == |samples|
      && report.radarInvalidValues
           == |BadSamples(samples, 0)| + |BadSamples(samples, 1)| + |BadSamples(samples, 2)| + |BadSamples(samples, 3)|
            + |BadSamples(samples, 4)| + |BadSamples(samples, 5)| + |BadSamples(samples, 6)| + |BadSamples(samples, 7)|
      && report.imuNonfiniteValues == |set i | 0 <= i < |samples| && !samples[i].imu.Finite?|
      && report.allInvalidRadarChannels == |set ch | 0 <= ch < 8 && AllBad(samples, ch)|
      && (report.savgolApplied <==> |samples| >= 7)
  {
    SumInvalidUnrolled(samples);
    AllInvalidChannels(samples, 8);
    assert BadChannels(samples, 8) == set ch | 0 <= ch < 8 && AllBad(samples, ch);
    var imu := ImuColumn(samples);
    CountNonFiniteIsCardinality(imu);
    assert NonFiniteIndices(imu) == set i | 0 <= i < |samples| && !samples[i].imu.Finite?;
  }

  // ----- what every tensor satisfies -----

  /** A column depends on its own input channel only. */
  lemma ColumnsAreIndependent(round: Rounding, a: seq<RawSample>, b: seq<RawSample>, sensorMin: real, t: nat, ch: nat)
    requires |a| == |b| > 0 && t < TARGET_LENGTH && ch < INPUT_CHANNELS
    requires if ch < 8 then forall i :: 0 <= i < |a| ==> a[i].radar[ch] == b[i].radar[ch]
      else forall i :: 0 <= i < |a| ==> a[i].imu == b[i].imu
    ensures t * INPUT_CHANNELS + ch < |Tensor(round, a, sensorMin)| == |Tensor(round, b, sensorMin)|
    ensures Tensor(round, a, sensorMin)[t * INPUT_CHANNELS + ch] == Tensor(round, b, sensorMin)[t * INPUT_CHANNELS + ch]
  {
    TensorEntry(round, a, sensorMin, t, ch);
    TensorEntry(round, b, sensorMin, t, ch);
    if ch < 8 {
      RadarColumnIs(a, ch, RadarColumn(b, ch));
    } else {
      ImuColumnIs(a, ImuColumn(b));
    }
  }

  /** No radar entry is below the sensor minimum, whatever the input length. */
  lemma RadarAtLeastSensorMin(round: Rounding, samples: seq<RawSample>, sensorMin: real, t: nat, ch: nat)
    requires |samples| > 0 && t < TARGET_LENGTH && ch < RADAR_CHANNELS
    ensures t * INPUT_CHANNELS + ch < |Tensor(round, samples, sensorMin)|
    ensures sensorMin <= Tensor(round, samples, sensorMin)[t * INPUT_CHANNELS + ch]
  {
    TensorEntry(round, samples, sensorMin, t, ch);
    ResamplingLaws.LowerBoundKept(round, Conditioned(RadarColumn(samples, ch), sensorMin), TARGET_LENGTH, sensorMin, t);
  }

  /** A radar channel without a single valid value comes out as the constant sensor minimum. */
  lemma AllInvalidChannelIsConstant(round: Rounding, samples: seq<RawSample>, sensorMin: real, t: nat, ch: nat)
    requires |samples| > 0 && t < TARGET_LENGTH && ch < RADAR_CHANNELS
    requires NoneValid(RadarColumn(samples, ch))
    ensures t * INPUT_CHANNELS + ch < |Tensor(round, samples, sensorMin)|
    ensures Tensor(round, samples, sensorMin)[t * INPUT_CHANNELS + ch] == sensorMin
  {
    TensorEntry(round, samples, sensorMin, t, ch);
    var c := RadarColumn(samples, ch);
    var values := RepairedValues(c, sensorMin);
    forall i: nat | i < |c| ensures values[i] == sensorMin {
      AllValidAfterwards(c, Finite(sensorMin), i);
    }
    SavGolLaws.ConstantsReproduced(values, sensorMin);
    ResamplingLaws.ConstantStaysConstant(round, Conditioned(c, sensorMin), TARGET_LENGTH, sensorMin, t);
  }

  /** On exactly 128 samples the resampling step does nothing: a radar column is the clamped,
      filtered, repaired channel and the IMU column is the sanitized channel. */
  lemma FullWindowIsNotResampled(round: Rounding, samples: seq<RawSample>, sensorMin: real, t: nat, ch: nat)
    requires LikeFloat32(round)
    requires |samples| == TARGET_LENGTH && t < TARGET_LENGTH && ch < INPUT_CHANNELS
    ensures t * INPUT_CHANNELS + ch < |Tensor(round, samples, sensorMin)|
    ensures Tensor(round, samples, sensorMin)[t * INPUT_CHANNELS + ch] ==
      if ch < RADAR_CHANNELS then Conditioned(RadarColumn(samples, ch), sensorMin)[t]
      else SanitizedValues(ImuColumn(samples))[t]
  {
    TensorEntry(round, samples, sensorMin, t, ch);
    if ch < RADAR_CHANNELS {
      ResamplingLaws.Float32SameLengthIsIdentity(round, Conditioned(RadarColumn(samples, ch), sensorMin));
    } else {
      ResamplingLaws.Float32SameLengthIsIdentity(round, SanitizedValues(ImuColumn(samples)));
    }
  }

  /** Reversing the samples in time reverses the conditioned channel. */
  lemma ConditioningCommutesWithReversal(c: seq<Reading>, sensorMin: real)
    ensures Conditioned(Reversed(c), sensorMin) == Reversed(Conditioned(c, sensorMin))
  {
    RepairCommutesWithReversal(c, Finite(sensorMin));
    var values := RepairedValues(c, sensorMin);
    assert RepairedValues(Reversed(c), sensorMin) == Reversed(values);
    SavGolLaws.SmoothedCommutesWithReversal(values);
  }
}
