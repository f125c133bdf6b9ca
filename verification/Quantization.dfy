/**
 INT8 quantisation in its several hand-written versions, over exact reals. `round` and
 `lround` of the C library both round halves away from zero.
 */
module Quantization {
  import opened RealArithmetic

  type Int8 = x: int | -128 <= x <= 127

  const INT_MIN: int := -0x8000_0000
  const INT_MAX: int := 0x7FFF_FFFF

  function RoundHalfAway(x: real): int {
    if x >= 0.0 then (x + 0.5).Floor else -((0.5 - x).Floor)
  }

  /** The conversions to int and the addition of the zero point do not overflow. */
  predicate FitsInt(v: real, scale: real, zeroPoint: int)
    requires scale != 0.0
  {
    && INT_MIN <= RoundHalfAway(v / scale) <= INT_MAX
    && INT_MIN <= RoundHalfAway(v / scale) + zeroPoint <= INT_MAX
  }

  function Saturate(x: int): Int8 {
    if x < -128 then -128 else if x > 127 then 127 else x
  }

  /** The INT8 code of v. */
  function Code(v: real, scale: real, zeroPoint: int): Int8
    requires scale != 0.0
  {
    Saturate(RoundHalfAway(v / scale) + zeroPoint)
  }

  /** The value of an INT8 code. */
  function Value(q: Int8, scale: real, zeroPoint: int): real {
    (q - zeroPoint) as real * scale
  }

  ghost predicate Clamps(v: real, scale: real, zeroPoint: int)
    requires scale != 0.0
  {
    !(-128 <= RoundHalfAway(v / scale) + zeroPoint <= 127)
  }

  // ----- the versions in the source -----

  function Min(a: int, b: int): int { if b < a then b else a }
  function Max(a: int, b: int): int { if a < b then b else a }

  class Quantizer {
    const scale: real
    const zero: int

    constructor (scale: real, zero: int)
      ensures this.scale == scale && this.zero == zero
    {
      this.scale, this.zero := scale, zero;
    }

    function Quantize(v: real): (q: Int8)
      requires scale != 0.0 && FitsInt(v, scale, zero)
      ensures q == Code(v, scale, zero)
    {
      var x := RoundHalfAway(v / scale) + zero;
      Max(-128, Min(127, x))
    }

    function Dequantize(v: Int8): (r: real)
      ensures r == Value(v, scale, zero)
    {
      (v - zero) as real * scale
    }

    /** Every code survives dequantise and quantise, as long as its distance from the zero
        point is an int. */
    lemma RoundTrip(v: Int8)
      requires scale != 0.0 && INT_MIN <= v - zero <= INT_MAX
      ensures FitsInt(Dequantize(v), scale, zero) && Quantize(Dequantize(v)) == v
    {
      QuotientOfValue(v, scale, zero);
      CodeOfValue(v, scale, zero);
    }

    method QuantizeVector(input: array<real>) returns (out: array<Int8>)
      requires scale != 0.0 && forall i :: 0 <= i < input.Length ==> FitsInt(input[i], scale, zero)
      ensures fresh(out) && out.Length == input.Length
      ensures forall i :: 0 <= i < input.Length ==> out[i] == Code(input[i], scale, zero)
    {
      out := new Int8[input.Length](_ => 0);
      for i := 0 to input.Length
        invariant forall j :: 0 <= j < i ==> out[j] == Code(input[j], scale, zero)
      {
        out[i] := Quantize(input[i]);
      }
    }
  }

  /** TensorConverter::floatToInt8 on the first n elements. */
  method FloatToInt8(s: array<real>, d: array<Int8>, n: nat, scale: real, zeroPoint: int)
    requires scale != 0.0 && n <= s.Length && n <= d.Length
    requires forall i :: 0 <= i < n ==> FitsInt(s[i], scale, zeroPoint)
    modifies d
    ensures forall i :: 0 <= i < n ==> d[i] == Code(s[i], scale, zeroPoint)
    ensures forall i :: n <= i < d.Length ==> d[i] == old(d[i])
  {
    for i := 0 to n
      invariant forall j :: 0 <= j < i ==> d[j] == Code(s[j], scale, zeroPoint)
      invariant forall j :: i <= j < d.Length ==> d[j] == old(d[j])
    {
      var q := RoundHalfAway(s[i] / scale) + zeroPoint;
      q := Max(-128, Min(127, q));
      d[i] := q;
    }
  }

  /** pack_float_to_int8: the same with two clamping branches. */
  method PackFloatToInt8(src: array<real>, dst: array<Int8>, size: nat, scale: real, zeroPoint: int)
    requires scale != 0.0 && size <= src.Length && size <= dst.Length
    requires forall i :: 0 <= i < size ==> FitsInt(src[i], scale, zeroPoint)
    modifies dst
    ensures forall i :: 0 <= i < size ==> dst[i] == Code(src[i], scale, zeroPoint)
    ensures forall i :: size <= i < dst.Length ==> dst[i] == old(dst[i])
  {
    for i := 0 to size
      invariant forall j :: 0 <= j < i ==> dst[j] == Code(src[j], scale, zeroPoint)
      invariant forall j :: i <= j < dst.Length ==> dst[j] == old(dst[j])
    {
      var v := RoundHalfAway(src[i] / scale) + zeroPoint;
      if v > 127 {
        v := 127;
      }
      if v < -128 {
        v := -128;
      }
      dst[i] := v;
    }
  }

  /** quantize_int8, via lround. */
  function QuantizeInt8(x: real, scale: real, zeroPoint: int): (q: Int8)
    requires scale != 0.0 && FitsInt(x, scale, zeroPoint)
    ensures q == Code(x, scale, zeroPoint)
  {
    var r := RoundHalfAway(x / scale) + zeroPoint;
    var high := if r > 127 then 127 else r;
    if high < -128 then -128 else high
  }

  /** TensorConverter::int8ToFloat; dequant_int8 is the same loop. */
  method Int8ToFloat(s: array<Int8>, d: array<real>, n: nat, scale: real, zeroPoint: int)
    requires n <= s.Length && n <= d.Length
    modifies d
    ensures forall i :: 0 <= i < n ==> d[i] == Value(s[i], scale, zeroPoint)
    ensures forall i :: n <= i < d.Length ==> d[i] == old(d[i])
  {
    for i := 0 to n
      invariant forall j :: 0 <= j < i ==> d[j] == Value(s[j], scale, zeroPoint)
      invariant forall j :: i <= j < d.Length ==> d[j] == old(d[j])
    {
      d[i] := (s[i] - zeroPoint) as real * scale;
    }
  }

  // ----- what quantisation is -----

  function Abs(x: real): real { if x < 0.0 then -x else x }

  /** Rounding moves a number by at most one half. */
  lemma RoundError(x: real)
    ensures RoundHalfAway(x) as real - 0.5 <= x <= RoundHalfAway(x) as real + 0.5
  {
  }

  /** An integer within one half of x is as close as any integer. */
  lemma NearestInteger(x: real, near: int, far: int)
    requires near as real - 0.5 <= x <= near as real + 0.5
    ensures Abs(near as real - x) <= Abs(far as real - x)
  {
    if far < near {
      assert far as real <= (near - 1) as real == near as real - 1.0;
    } else if near < far {
      assert (near + 1) as real == near as real + 1.0 <= far as real;
    }
  }

  /** In units of the scale, the saturated code is at least as close as any other code. */
  lemma NearestInUnits(x: real, zeroPoint: int, other: Int8)
    ensures Abs((Saturate(RoundHalfAway(x) + zeroPoint) - zeroPoint) as real - x)
         <= Abs((other - zeroPoint) as real - x)
  {
    var r := RoundHalfAway(x);
    RoundError(x);
    if r + zeroPoint > 127 {
      FurtherBelow(x, r, 127 - zeroPoint, other - zeroPoint);
    } else if r + zeroPoint < -128 {
      FurtherAbove(x, r, -128 - zeroPoint, other - zeroPoint);
    } else {
      NearestInteger(x, r, other - zeroPoint);
    }
  }

  lemma FurtherBelow(x: real, r: int, top: int, other: int)
    requires r as real - 0.5 <= x && other <= top < r
    ensures Abs(top as real - x) <= Abs(other as real - x)
  {
    assert other as real <= top as real <= (r - 1) as real == r as real - 1.0;
  }

  lemma FurtherAbove(x: real, r: int, bottom: int, other: int)
    requires x <= r as real + 0.5 && r < bottom <= other
    ensures Abs(bottom as real - x) <= Abs(other as real - x)
  {
    assert r as real + 1.0 == (r + 1) as real <= bottom as real <= other as real;
  }

  lemma AbsOfProduct(a: real, b: real, ab: real)
    requires ab == a * b
    ensures Abs(ab) == Abs(a) * Abs(b)
  {
    assert (-a) * b == -ab && a * (-b) == -ab && (-a) * (-b) == ab;
    ProductNonNegative(Abs(a), Abs(b));
  }

  /** How far a code's value is from v, in units of the scale: x is v over the scale. */
  lemma ValueDistance(q: Int8, v: real, x: real, scale: real, zeroPoint: int)
    requires v == x * scale
    ensures Value(q, scale, zeroPoint) - v == ((q - zeroPoint) as real - x) * scale
  {
  }

  lemma ScaledDistances(d: real, e: real, k: real, dk: real, ek: real)
    requires Abs(d) <= Abs(e) && dk == d * k && ek == e * k
    ensures Abs(dk) <= Abs(ek)
  {
    AbsOfProduct(d, k, dk);
    AbsOfProduct(e, k, ek);
    ScaledOrder(Abs(d), Abs(e), Abs(k), Abs(dk), Abs(ek));
  }

  lemma ScaledOrder(a: real, b: real, k: real, ak: real, bk: real)
    requires a <= b && k >= 0.0 && ak == a * k && bk == b * k
    ensures ak <= bk
  {
    ProductMonotone(a, b, k);
  }

  /** Quantising projects onto the nearest of the 256 representable values. */
  lemma QuantisationIsNearest(v: real, scale: real, zeroPoint: int, other: Int8)
    requires scale != 0.0
    ensures Abs(Value(Code(v, scale, zeroPoint), scale, zeroPoint) - v) <= Abs(Value(other, scale, zeroPoint) - v)
  {
    NearestInUnits(v / scale, zeroPoint, other);
    NearerInUnits(Code(v, scale, zeroPoint), other, v, v / scale, scale, zeroPoint);
  }

  lemma NearerInUnits(q: Int8, other: Int8, v: real, x: real, scale: real, zeroPoint: int)
    requires v == x * scale
    requires Abs((q - zeroPoint) as real - x) <= Abs((other - zeroPoint) as real - x)
    ensures Abs(Value(q, scale, zeroPoint) - v) <= Abs(Value(other, scale, zeroPoint) - v)
  {
    ValueDistance(q, v, x, scale, zeroPoint);
    ValueDistance(other, v, x, scale, zeroPoint);
    ScaledDistances((q - zeroPoint) as real - x, (other - zeroPoint) as real - x, scale,
      Value(q, scale, zeroPoint) - v, Value(other, scale, zeroPoint) - v);
  }

  /** Without clamping the error is at most half a step. */
  lemma ErrorAtMostHalfStep(v: real, scale: real, zeroPoint: int)
    requires scale != 0.0 && !Clamps(v, scale, zeroPoint)
    ensures Abs(Value(Code(v, scale, zeroPoint), scale, zeroPoint) - v) <= 0.5 * Abs(scale)
  {
    var x, q := v / scale, Code(v, scale, zeroPoint);
    RoundError(x);
    ValueDistance(q, v, x, scale, zeroPoint);
    ScaledDistances((q - zeroPoint) as real - x, 0.5, scale, Value(q, scale, zeroPoint) - v, 0.5 * scale);
  }

  lemma RoundOfInt(k: int)
    ensures RoundHalfAway(k as real) == k
  {
  }

  lemma QuotientOfValue(q: Int8, scale: real, zeroPoint: int)
    requires scale != 0.0
    ensures Value(q, scale, zeroPoint) / scale == (q - zeroPoint) as real
    ensures RoundHalfAway(Value(q, scale, zeroPoint) / scale) == q - zeroPoint
  {
    TimesOver((q - zeroPoint) as real, scale);
    RoundOfInt(q - zeroPoint);
  }

  /** Every code survives the trip to its value and back. */
  lemma CodeOfValue(q: Int8, scale: real, zeroPoint: int)
    requires scale != 0.0
    ensures Code(Value(q, scale, zeroPoint), scale, zeroPoint) == q
  {
    QuotientOfValue(q, scale, zeroPoint);
  }

  lemma TimesOver(a: real, b: real)
    requires b != 0.0
    ensures a * b / b == a
  {
  }

  // ----- anchors -----

  /** Zero is the zero point, and each code is worth one scale more than the one before. */
  lemma ZeroAndStep(scale: real, zeroPoint: int, q: int)
    requires scale != 0.0 && -128 <= zeroPoint <= 127 && -128 <= q <= 126
    ensures Code(0.0, scale, zeroPoint) == zeroPoint && Value(zeroPoint, scale, zeroPoint) == 0.0
    ensures Value(q + 1, scale, zeroPoint) - Value(q, scale, zeroPoint) == scale
  {
    TimesOver(0.0, scale);
    var k := (q - zeroPoint) as real;
    assert (q + 1 - zeroPoint) as real == k + 1.0;
    assert (k + 1.0) * scale == k * scale + scale;
  }

  /** A number half way between two steps goes to the one further from zero. */
  lemma TiesGoAway(v: real, scale: real, zeroPoint: int, k: int)
    requires scale != 0.0 && k >= 0
    ensures v / scale == k as real + 0.5 && -128 <= zeroPoint + k + 1 <= 127 ==>
      Code(v, scale, zeroPoint) == zeroPoint + k + 1
    ensures v / scale == -(k as real) - 0.5 && -128 <= zeroPoint - k - 1 <= 127 ==>
      Code(v, scale, zeroPoint) == zeroPoint - k - 1
  {
    RoundOfTie(k);
  }

  lemma RoundOfTie(k: int)
    requires k >= 0
    ensures RoundHalfAway(k as real + 0.5) == k + 1
    ensures RoundHalfAway(-(k as real) - 0.5) == -k - 1
  {
  }

  // ----- order -----

  lemma RoundMonotone(x: real, y: real)
    requires x <= y
    ensures RoundHalfAway(x) <= RoundHalfAway(y)
  {
  }

  lemma QuotientMirrored(v: real, scale: real)
    requires scale != 0.0
    ensures (-v) / (-scale) == v / scale
  {
    var x := v / scale;
    assert x * (-scale) == -v;
    TimesOver(x, -scale);
  }

  /** Turning the signs of number and scale keeps the code and turns the value. */
  lemma Mirrored(v: real, scale: real, zeroPoint: int, q: Int8)
    requires scale != 0.0
    ensures Code(-v, -scale, zeroPoint) == Code(v, scale, zeroPoint)
    ensures Clamps(-v, -scale, zeroPoint) == Clamps(v, scale, zeroPoint)
    ensures Value(q, -scale, zeroPoint) == -Value(q, scale, zeroPoint)
  {
    QuotientMirrored(v, scale);
  }

  lemma QuotientMonotone(v: real, w: real, scale: real)
    requires scale > 0.0 && v <= w
    ensures v / scale <= w / scale
  {
    assert w / scale * scale == w;
    QuotientCompare(v, scale, w / scale);
  }

  /** With a positive scale a larger number never gets a smaller code, with a negative one
      never a larger. */
  lemma QuantisationIsMonotone(v: real, w: real, scale: real, zeroPoint: int)
    requires scale != 0.0 && v <= w
    ensures scale > 0.0 ==> Code(v, scale, zeroPoint) <= Code(w, scale, zeroPoint)
    ensures scale < 0.0 ==> Code(v, scale, zeroPoint) >= Code(w, scale, zeroPoint)
  {
    if scale > 0.0 {
      QuotientMonotone(v, w, scale);
      RoundMonotone(v / scale, w / scale);
    } else {
      Mirrored(v, scale, zeroPoint, 0);
      Mirrored(w, scale, zeroPoint, 0);
      QuotientMonotone(-w, -v, -scale);
      RoundMonotone(-w / -scale, -v / -scale);
    }
  }

  lemma RoundOfStep(x: real, y: real)
    requires x + 1.0 <= y
    ensures RoundHalfAway(x) + 1 <= RoundHalfAway(y)
  {
  }

  lemma ValuesOfCodes(q: Int8, r: Int8, scale: real, zeroPoint: int)
    requires q + 1 <= r && scale > 0.0
    ensures Value(q, scale, zeroPoint) + scale <= Value(r, scale, zeroPoint)
  {
    var a, b := q - zeroPoint, r - zeroPoint;
    ProductMonotone((a + 1) as real, b as real, scale);
    assert (a + 1) as real * scale == a as real * scale + scale;
  }

  lemma StepInUnits(v: real, w: real, scale: real)
    requires scale > 0.0 && v + scale <= w
    ensures v / scale + 1.0 <= w / scale
  {
    var x := v / scale;
    assert (x + 1.0) * scale == v + scale;
    QuotientCompare(w, scale, x + 1.0);
  }

  lemma PositiveStepSurvives(v: real, w: real, scale: real, zeroPoint: int)
    requires scale > 0.0 && v + scale <= w
    requires !Clamps(v, scale, zeroPoint) && !Clamps(w, scale, zeroPoint)
    ensures Value(Code(v, scale, zeroPoint), scale, zeroPoint) + scale
         <= Value(Code(w, scale, zeroPoint), scale, zeroPoint)
  {
    StepInUnits(v, w, scale);
    RoundOfStep(v / scale, w / scale);
    ValuesOfCodes(Code(v, scale, zeroPoint), Code(w, scale, zeroPoint), scale, zeroPoint);
  }

  /** Numbers one step apart stay at least one step apart. */
  lemma StepSurvives(v: real, w: real, scale: real, zeroPoint: int)
    requires scale != 0.0 && v + Abs(scale) <= w
    requires !Clamps(v, scale, zeroPoint) && !Clamps(w, scale, zeroPoint)
    ensures Value(Code(v, scale, zeroPoint), scale, zeroPoint) + Abs(scale)
         <= Value(Code(w, scale, zeroPoint), scale, zeroPoint)
  {
    if scale > 0.0 {
      PositiveStepSurvives(v, w, scale, zeroPoint);
    } else {
      Mirrored(v, scale, zeroPoint, Code(v, scale, zeroPoint));
      Mirrored(w, scale, zeroPoint, Code(w, scale, zeroPoint));
      PositiveStepSurvives(-w, -v, -scale, zeroPoint);
    }
  }

  lemma RoundsToOne(v: real, scale: real)
    requires scale > 0.0 && 0.5 * scale <= v < 1.5 * scale
    ensures RoundHalfAway(v / scale) == 1
  {
    QuotientCompare(v, scale, 0.5);
    QuotientCompare(v, scale, 1.5);
    assert 0.5 <= v / scale < 1.5;
  }

  lemma RoundIsOdd(x: real)
    ensures RoundHalfAway(-x) == -RoundHalfAway(x)
  {
  }

  /** All numbers from half a step to one and a half steps have the same code, unclamped. */
  lemma HalfStepCodes(v: real, scale: real)
    requires scale != 0.0 && 0.5 * Abs(scale) <= v < 1.5 * Abs(scale)
    ensures !Clamps(v, scale, 0) && Code(v, scale, 0) == if scale > 0.0 then 1 else -1
  {
    if scale > 0.0 {
      RoundsToOne(v, scale);
    } else {
      RoundsToOne(v, -scale);
      QuotientNegated(v, scale);
      RoundIsOdd(v / -scale);
    }
  }

  lemma QuotientNegated(v: real, scale: real)
    requires scale != 0.0
    ensures v / scale == -(v / -scale)
  {
    var x := v / -scale;
    assert -x * scale == v;
    TimesOver(-x, scale);
  }

  /** And one step is the exact limit: any smaller gap can be quantised away. */
  lemma SmallerGapsCanVanish(scale: real, gap: real)
    requires 0.0 <= gap < Abs(scale)
    ensures var v := 0.5 * Abs(scale);
      && !Clamps(v, scale, 0) && !Clamps(v + gap, scale, 0)
      && Code(v + gap, scale, 0) == Code(v, scale, 0)
  {
    HalfStepCodes(0.5 * Abs(scale), scale);
    HalfStepCodes(0.5 * Abs(scale) + gap, scale);
  }
}
