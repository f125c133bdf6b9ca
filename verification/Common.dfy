/** Result types, sizes and plain records shared by every component. */
module Common {

  datatype Option<+T> = None | Some(value: T)

  datatype Result<+T, +E> = Ok(value: T) | Err(error: E)

  const RADAR_CHANNELS: nat := 8
  const INPUT_CHANNELS: nat := 9
  const TARGET_LENGTH: nat := 128
  const CLASS_COUNT: nat := 5

  /** A float as the program sees it. Finite values are exact reals. */
  datatype Reading = Finite(value: real) | PosInf | NegInf | NaN

  /** The eight radar distances D1..D8 of one sample. */
  type RadarVector = v: seq<Reading> | |v| == 8
    witness [NaN, NaN, NaN, NaN, NaN, NaN, NaN, NaN]

  /** One acquisition sample. */
  datatype RawSample = RawSample(timestamp: nat, radar: RadarVector, imu: Reading)

  /** The [128, 9] tensor in row-major order. */
  type ModelInput = seq<real>

  datatype InferenceResult = InferenceResult(
    windowId: nat,
    logits: seq<real>,
    probabilities: seq<real>,
    classId: int,
    confidence: real)

  function Reversed<T>(s: seq<T>): seq<T> {
    seq(|s|, i requires 0 <= i < |s| => s[|s| - 1 - i])
  }
}
