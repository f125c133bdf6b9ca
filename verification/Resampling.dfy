/**
 Linear resampling on normalised positions. `round` is the rounding that stores a position
 as float32: any monotone function that fixes 0 and 1. `Exact` is the rounding that does
 nothing, under which the closed forms hold.
 */
module Resampling {
  import opened Common
  import opened RealArithmetic
  import opened Interpolation

  datatype ResampleError = EmptySource | ZeroTargetLength

  type Rounding = real -> real

  ghost predicate MonotoneRounding(round: Rounding) {
    && round(0.0) == 0.0 && round(1.0) == 1.0
    && forall a, b :: a <= b ==> round(a) <= round(b)
  }

  function Exact(x: real): real { x }

  lemma ExactIsMonotone()
    ensures MonotoneRounding(Exact)
  {
  }

  // ----- positions -----

  /** i / (n - 1), the i-th of n evenly spaced positions. */
  function Position(n: nat, i: nat): real
    requires n >= 2
  {
    i as real / (n - 1) as real
  }

  function Knots(n: nat, round: Rounding): seq<real> {
    if n <= 1 then seq(n, _ => 0.0)
    else seq(n, i requires 0 <= i => round(Position(n, i)))
  }

  lemma PositionsIncrease(n: nat, i: nat, j: nat)
    requires n >= 2 && i < j < n
    ensures 0.0 <= Position(n, i) < Position(n, j) <= 1.0
  {
    var d := (n - 1) as real;
    QuotientCompare(i as real, d, Position(n, j));
    QuotientCompare(j as real, d, 1.0);
    QuotientCompare(i as real, d, 0.0);
    assert Position(n, j) * d == j as real;
  }

  lemma PositionEnds(n: nat)
    requires n >= 2
    ensures Position(n, 0) == 0.0 && Position(n, n - 1) == 1.0
  {
    QuotientCompare(0.0, (n - 1) as real, 0.0);
    QuotientCompare((n - 1) as real, (n - 1) as real, 1.0);
  }

  lemma KnotsNonDecreasing(n: nat, round: Rounding)
    requires MonotoneRounding(round)
    ensures NonDecreasing(Knots(n, round))
    ensures n >= 2 ==> Knots(n, round)[0] == 0.0 && Knots(n, round)[n - 1] == 1.0
  {
    var xs := Knots(n, round);
    if n >= 2 {
      PositionEnds(n);
      forall i, j | 0 <= i <= j < n ensures xs[i] <= xs[j] {
        if i < j {
          PositionsIncrease(n, i, j);
        }
        assert Position(n, i) <= Position(n, j);
      }
    }
  }

  /** linspace01_float32: fill by division, then pin both ends. */
  method Linspace01(count: nat, round: Rounding) returns (x: array<real>)
    requires MonotoneRounding(round)
    ensures fresh(x) && x[..] == Knots(count, round)
  {
    x := new real[count](_ => 0.0);
    if count <= 1 {
      assert x[..] == Knots(count, round);
      return;
    }
    var denom := (count - 1) as real;
    for i := 0 to count
      invariant forall j :: 0 <= j < i ==> x[j] == Knots(count, round)[j]
    {
      x[i] := round(i as real / denom);
    }
    KnotsNonDecreasing(count, round);
    x[0] := 0.0;
    x[count - 1] := 1.0;
    assert x[..] == Knots(count, round);
  }

  // ----- the whole resampler -----

  /** What resample_linear_normalized computes, on sequences. */
  function Resampled(round: Rounding, source: seq<real>, target: nat): (out: seq<real>)
    requires |source| > 0 && target > 0
    ensures |out| == target
  {
    if |source| == 1 || target == 1 then seq(target, _ => source[0])
    else
      seq(target, k requires 0 <= k < target =>
        InterpOne(Knots(target, round)[k], Knots(|source|, round), source))
  }

  method ResampleLinearNormalized(source: array<real>, target: nat, round: Rounding)
      returns (output: Result<array<real>, ResampleError>)
    requires MonotoneRounding(round)
    ensures output.Err? <==> source.Length == 0 || target == 0
    ensures output == Err(EmptySource) <==> source.Length == 0
    ensures output.Ok? ==> fresh(output.value) && output.value[..] == Resampled(round, source[..], target)
  {
    if source.Length == 0 {
      return Err(EmptySource);
    }
    if target == 0 {
      return Err(ZeroTargetLength);
    }
    var out := new real[target](_ => 0.0);
    if source.Length == 1 {
      for i := 0 to target
        invariant forall j :: 0 <= j < i ==> out[j] == source[0]
      {
        out[i] := source[0];
      }
      assert out[..] == Resampled(round, source[..], target);
      return Ok(out);
    }
    if target == 1 {
      out[0] := source[0];
      assert out[..] == Resampled(round, source[..], target);
      return Ok(out);
    }
    var oldX := Linspace01(source.Length, round);
    var newX := Linspace01(target, round);
    KnotsNonDecreasing(source.Length, round);
    InterpolateAll(newX, oldX, source, out);
    assert out[..] == Resampled(round, source[..], target);
    return Ok(out);
  }

  method InterpolateAll(xs: array<real>, xp: array<real>, fp: array<real>, out: array<real>)
    requires xp.Length == fp.Length > 0 && NonDecreasing(xp[..])
    requires out.Length == xs.Length && out != xs && out != xp && out != fp
    modifies out
    ensures forall j :: 0 <= j < out.Length ==> out[j] == InterpOne(xs[..][j], xp[..], fp[..])
  {
    for i := 0 to xs.Length
      invariant forall j :: 0 <= j < i ==> out[j] == InterpOne(xs[..][j], xp[..], fp[..])
    {
      out[i] := InterpolateOne(xs[i], xp, fp);
    }
  }

  /** Every output lies between the source values at the two neighbours of its own position,
      under any rounding, even one that merges positions. */
  lemma ResampledIsBetween(round: Rounding, source: seq<real>, target: nat, k: nat) returns (left: nat)
    requires |source| >= 2 && k < target
    ensures if target == 1 then left == 0 else Neighbours(Knots(|source|, round), Knots(target, round)[k], left)
    ensures Between(Resampled(round, source, target)[k], source[left], source[left + 1])
  {
    if target == 1 {
      left := 0;
    } else {
      left := InterpOneIsBetween(Knots(target, round)[k], Knots(|source|, round), source);
    }
  }

  /** np.linspace(0, 1, n, dtype=float32). */
  function NpLinspace(n: nat, round: Rounding): (x: seq<real>)
    ensures |x| == n
  {
    seq(n, i requires 0 <= i < n => if n == 1 then 0.0 else round(i as real / (n - 1) as real))
  }

  lemma LinspaceIsKnots(n: nat, round: Rounding)
    ensures NpLinspace(n, round) == Knots(n, round)
  {
    forall i | 0 <= i < n ensures NpLinspace(n, round)[i] == Knots(n, round)[i] {
      if n > 1 {
        assert Knots(n, round)[i] == round(Position(n, i));
      }
    }
  }

  /** The reference: np.interp between two linspaces, with no special cases. */
  function NpResampled(round: Rounding, source: seq<real>, target: nat): seq<real>
    requires |source| > 0
  {
    seq(target, k requires 0 <= k < target =>
      NpInterp(NpLinspace(target, round)[k], NpLinspace(|source|, round), source))
  }

  /** Output k agrees with numpy's, except that at position zero the first of the source
      values whose knots round to zero must equal the last of them. */
  lemma AgreesAt(round: Rounding, source: seq<real>, target: nat, k: nat)
    requires MonotoneRounding(round) && |source| > 0 && k < target
    ensures KnotsStartAtZero(|source|, round)
    ensures Resampled(round, source, target)[k] == NpResampled(round, source, target)[k]
       <==> (Knots(target, round)[k] == 0.0 ==> source[0] == source[LastAtMost(Knots(|source|, round), 0.0)])
  {
    var n := |source|;
    KnotsNonDecreasing(n, round);
    KnotsNonDecreasing(target, round);
    LinspaceIsKnots(n, round);
    LinspaceIsKnots(target, round);
    InterpOneIsNpInterp(Knots(target, round)[k], Knots(n, round), source);
  }

  ghost predicate KnotsStartAtZero(n: nat, round: Rounding) {
    n > 0 ==> Knots(n, round)[0] == 0.0
  }

  /** The exact condition for numpy's result, under any monotone rounding, even one that
      merges knots: the first and the last source value with a knot at zero are equal. */
  lemma ResampledIsNumpyExactly(round: Rounding, source: seq<real>, target: nat)
    requires MonotoneRounding(round) && |source| > 0 && target > 0
    ensures KnotsStartAtZero(|source|, round)
    ensures Resampled(round, source, target) == NpResampled(round, source, target)
       <==> source[0] == source[LastAtMost(Knots(|source|, round), 0.0)]
  {
    KnotsNonDecreasing(|source|, round);
    if source[0] == source[LastAtMost(Knots(|source|, round), 0.0)] {
      var ours, numpys := Resampled(round, source, target), NpResampled(round, source, target);
      forall k: nat | k < target ensures ours[k] == numpys[k] {
        AgreesAt(round, source, target, k);
      }
      assert ours == numpys;
    } else {
      DiffersAtZero(round, source, target);
    }
  }

  lemma DiffersAtZero(round: Rounding, source: seq<real>, target: nat)
    requires MonotoneRounding(round) && |source| > 0 && target > 0
    requires KnotsStartAtZero(|source|, round)
    requires source[0] != source[LastAtMost(Knots(|source|, round), 0.0)]
    ensures Resampled(round, source, target)[0] != NpResampled(round, source, target)[0]
  {
    AgreesAt(round, source, target, 0);
    KnotsNonDecreasing(target, round);
  }

  /** The second of n knots stays away from the first. */
  ghost predicate SecondKnotPositive(round: Rounding, n: nat) {
    n >= 2 ==> round(Position(n, 1)) > 0.0
  }

  /** Hence the resampler is np.interp as soon as the second source knot is not zero. */
  lemma ResampledIsNumpy(round: Rounding, source: seq<real>, target: nat)
    requires MonotoneRounding(round) && SecondKnotPositive(round, |source|) && |source| > 0 && target > 0
    ensures Resampled(round, source, target) == NpResampled(round, source, target)
  {
    var n := |source|;
    KnotsNonDecreasing(n, round);
    ResampledIsNumpyExactly(round, source, target);
    if n >= 2 {
      assert Knots(n, round)[1] == round(Position(n, 1));
      LastAtMostIsUnique(Knots(n, round), 0.0, 0);
    }
  }

  // ----- float32 -----

  const SMALLEST_POSITION := 1.0 / 18446744073709551616.0
  const SIZE_MAX: nat := 0x1_0000_0000_0000_0000
  const EPSILON := 1.0 / 8388608.0

  /** What storing a position as float32 keeps: order, both ends, and every position from
      2^-64 on up to a relative error of 2^-23, even if it first goes through double. Tiny
      positions may become zero. */
  ghost predicate LikeFloat32(round: Rounding) {
    && MonotoneRounding(round)
    && forall x :: SMALLEST_POSITION <= x <= 1.0 ==> x - EPSILON * x <= round(x) <= x + EPSILON * x
  }

  lemma ExactIsLikeFloat32()
    ensures LikeFloat32(Exact)
  {
    ExactIsMonotone();
    forall x | SMALLEST_POSITION <= x <= 1.0 ensures x - EPSILON * x <= Exact(x) <= x + EPSILON * x {
      ProductNonNegative(EPSILON, x);
    }
  }

  /** No length of a vector puts the second position below 2^-64. */
  lemma PositionNotTiny(n: nat, i: nat)
    requires 2 <= n <= SIZE_MAX && 0 < i < n
    ensures SMALLEST_POSITION <= Position(n, i) <= 1.0
  {
    var d := (n - 1) as real;
    ProductMonotone(d, 18446744073709551616.0, SMALLEST_POSITION);
    QuotientCompare(i as real, d, SMALLEST_POSITION);
    QuotientCompare(i as real, d, 1.0);
  }

  lemma Float32SecondKnot(round: Rounding, n: nat)
    requires LikeFloat32(round) && n <= SIZE_MAX
    ensures SecondKnotPositive(round, n)
  {
    if n >= 2 {
      PositionNotTiny(n, 1);
      var x := Position(n, 1);
      assert x - EPSILON * x <= round(x);
    }
  }

  /** Knots at least 2^-22 apart stay apart. */
  lemma Float32KnotsIncrease(round: Rounding, n: nat)
    requires LikeFloat32(round) && 2 <= n <= 4194304
    ensures Increasing(Knots(n, round))
  {
    forall i, j | 0 <= i < j < n ensures Knots(n, round)[i] < Knots(n, round)[j] {
      Float32KnotsApart(round, n, i, j);
    }
  }

  lemma Float32KnotsApart(round: Rounding, n: nat, i: nat, j: nat)
    requires LikeFloat32(round) && 2 <= n <= 4194304 && i < j < n
    ensures round(Position(n, i)) < round(Position(n, j))
  {
    var x, y := Position(n, i), Position(n, j);
    PositionNotTiny(n, j);
    assert y - EPSILON * y <= round(y);
    if i > 0 {
      PositionNotTiny(n, i);
      PositionsApart(n, i, j);
      assert round(x) <= x + EPSILON * x;
      assert EPSILON * x + EPSILON * y <= 2.0 * EPSILON;
    } else {
      PositionEnds(n);
    }
  }

  lemma PositionsApart(n: nat, i: nat, j: nat)
    requires 2 <= n <= 4194304 && i < j < n
    ensures Position(n, j) - Position(n, i) > 2.0 * EPSILON
  {
    var d := (n - 1) as real;
    QuotientDifference(j as real, i as real, d);
    QuotientCompare(j as real - i as real, d, 2.0 * EPSILON);
  }

  // ----- the integer closed form -----

  /** Source value q, moved towards the next one by the fraction r / d. */
  function MixAt(source: seq<real>, q: nat, r: nat, d: nat): real
    requires d > 0 && q < |source| && (r != 0 ==> q + 1 < |source|)
  {
    if r == 0 then source[q]
    else Mix(source[q], source[q + 1], r as real / d as real)
  }

  /** Output k of m from n source points: k(n-1) divided by m-1 gives the left neighbour as
      quotient and the fraction as remainder. */
  function ClosedForm(source: seq<real>, m: nat, k: nat): real
    requires |source| >= 2 && m >= 2 && k < m
  {
    ClosedFormInRange(|source|, m, k);
    MixAt(source, k * (|source| - 1) / (m - 1), k * (|source| - 1) % (m - 1), m - 1)
  }

  lemma ClosedFormInRange(n: nat, m: nat, k: nat)
    requires n >= 2 && m >= 2 && k < m
    ensures var p := k * (n - 1);
      && 0 <= p / (m - 1) < n
      && (p % (m - 1) != 0 ==> p / (m - 1) + 1 < n)
  {
    var p, d := k * (n - 1), m - 1;
    assert p == p / d * d + p % d;
    QuotientInRange(n, m, k, p / d, p % d);
  }

  lemma QuotientInRange(n: nat, m: nat, k: nat, q: nat, r: nat)
    requires n >= 2 && m >= 2 && k < m && k * (n - 1) == q * (m - 1) + r && r < m - 1
    ensures q < n && (r != 0 ==> q + 1 < n)
  {
    if q >= n - 1 {
      LastPosition(n, m, k, q, r);
      if q >= n {
        NatProductLeq(n, q, m - 1);
        assert false;
      }
    }
  }

  lemma DivideWithRemainder(x: real, k: real, steps: real, d: real, q: real, r: real)
    requires d > 0.0 && x * d == k && k * steps == q * d + r && 0.0 <= r < d
    ensures x * steps == q + r / d && 0.0 <= r / d < 1.0
  {
    assert (x * steps) * d == (x * d) * steps;
    assert (x * steps - q) * d == (x * steps) * d - q * d;
    QuotientCompare(r, d, x * steps - q);
    QuotientCompare(r, d, 1.0);
    QuotientCompare(r, d, 0.0);
  }

  /** The position k/(m-1), measured in source steps, is left + rem/(m-1). */
  lemma PositionInSteps(n: nat, m: nat, k: nat, q: nat, r: nat)
    requires n >= 2 && m >= 2 && k < m && k * (n - 1) == q * (m - 1) + r && r < m - 1
    ensures Position(m, k) * (n - 1) as real == q as real + r as real / (m - 1) as real
    ensures 0.0 <= r as real / (m - 1) as real < 1.0
  {
    RealOfProduct(k, n - 1);
    RealOfProduct(q, m - 1);
    DivideWithRemainder(Position(m, k), k as real, (n - 1) as real, (m - 1) as real, q as real, r as real);
  }

  /** Dividing by the width of a source step is multiplying by the number of steps. */
  lemma StepFraction(n: nat, q: nat, x: real)
    requires n >= 2 && q + 1 < n
    ensures Position(n, q) < Position(n, q + 1)
    ensures Position(n, q) <= x <==> q as real <= x * (n - 1) as real
    ensures x < Position(n, q + 1) <==> x * (n - 1) as real < (q + 1) as real
    ensures (x - Position(n, q)) / (Position(n, q + 1) - Position(n, q)) == x * (n - 1) as real - q as real
  {
    var N := (n - 1) as real;
    PositionsIncrease(n, q, q + 1);
    QuotientCompare(q as real, N, x);
    QuotientCompare((q + 1) as real, N, x);
    var a, b := Position(n, q), Position(n, q + 1);
    assert a * N == q as real && b * N == (q + 1) as real;
    var u := x * N - q as real;
    assert (b - a) * N == 1.0;
    assert (x - a) * N == u;
    assert (u * (b - a)) * N == u * ((b - a) * N) == u;
    assert (u * (b - a) - (x - a)) * N == 0.0;
    assert u * (b - a) == x - a;
    QuotientCompare(x - a, b - a, u);
  }

  /** Only the last output reaches the last source point. */
  lemma LastPosition(n: nat, m: nat, k: nat, q: nat, r: nat)
    requires n >= 2 && m >= 2 && k < m && k * (n - 1) == q * (m - 1) + r && q >= n - 1
    ensures k == m - 1 && r == 0
  {
    NatProductLeq(n - 1, q, m - 1);
    NatProductLeq(k, m - 1, n - 1);
    if k < m - 1 {
      NatProductLeq(k + 1, m - 1, n - 1);
      assert false;
    }
  }

  /** A place inside a segment of exact knots is interpolated on that segment. */
  lemma InterpOnSegment(source: seq<real>, x: real, q: nat)
    requires |source| >= 2 && q + 1 < |source| && x > 0.0
    requires Position(|source|, q) <= x < Position(|source|, q + 1)
    ensures InterpOne(x, Knots(|source|, Exact), source)
         == Segment(x, Position(|source|, q), Position(|source|, q + 1), source[q], source[q + 1])
  {
    var xs := Knots(|source|, Exact);
    KnotsNonDecreasing(|source|, Exact);
    assert xs[q] == Position(|source|, q) && xs[q + 1] == Position(|source|, q + 1);
    assert xs[q + 1] <= xs[|source| - 1];
    forall j | 0 <= j < q + 1 ensures xs[j] <= x {
      assert xs[j] <= xs[q];
    }
    FirstAboveIsUnique(xs, x, q + 1);
  }

  /** At q steps and a fraction f, the search lands on segment q and mixes by f. */
  lemma InterpAtSteps(source: seq<real>, x: real, q: nat, f: real)
    requires |source| >= 2 && q + 1 < |source| && x > 0.0
    requires x * (|source| - 1) as real == q as real + f && 0.0 <= f < 1.0
    ensures InterpOne(x, Knots(|source|, Exact), source) == Mix(source[q], source[q + 1], f)
  {
    StepFraction(|source|, q, x);
    InterpOnSegment(source, x, q);
  }

  lemma ResampledAt(round: Rounding, source: seq<real>, m: nat, k: nat)
    requires |source| >= 2 && m >= 2 && k < m
    ensures Resampled(round, source, m)[k]
         == InterpOne(round(Position(m, k)), Knots(|source|, round), source)
  {
    assert Knots(m, round)[k] == round(Position(m, k));
  }

  lemma MixForm(source: seq<real>, q: nat, r: nat, d: nat)
    requires d > 0 && q + 1 < |source|
    ensures MixAt(source, q, r, d) == Mix(source[q], source[q + 1], r as real / d as real)
  {
    if r == 0 {
      assert r as real / d as real == 0.0;
    }
  }

  lemma FirstPosition(n: nat, m: nat, k: nat, q: nat, r: nat)
    requires m >= 2 && n >= 2 && k == 0 && k * (n - 1) == q * (m - 1) + r
    ensures q == 0 && r == 0
  {
    if q > 0 {
      NatProductLeq(1, q, m - 1);
    }
  }

  lemma ResampledAtSteps(source: seq<real>, m: nat, k: nat, q: nat, f: real)
    requires |source| >= 2 && m >= 2 && 0 < k < m && q + 1 < |source| && 0.0 <= f < 1.0
    requires Position(m, k) * (|source| - 1) as real == q as real + f
    ensures Resampled(Exact, source, m)[k] == Mix(source[q], source[q + 1], f)
  {
    PositionsIncrease(m, 0, k);
    ResampledAt(Exact, source, m, k);
    InterpAtSteps(source, Position(m, k), q, f);
  }

  lemma ResampledInterior(source: seq<real>, n: nat, m: nat, k: nat, q: nat, r: nat)
    requires |source| == n >= 2 && m >= 2 && 0 < k < m && q + 1 < n
    requires k * (n - 1) == q * (m - 1) + r && r < m - 1
    ensures Resampled(Exact, source, m)[k] == MixAt(source, q, r, m - 1)
  {
    PositionInSteps(n, m, k, q, r);
    ResampledAtSteps(source, m, k, q, r as real / (m - 1) as real);
    MixForm(source, q, r, m - 1);
  }

  lemma ResampledEnds(source: seq<real>, m: nat)
    requires |source| >= 2 && m >= 2
    ensures Resampled(Exact, source, m)[0] == source[0]
    ensures Resampled(Exact, source, m)[m - 1] == source[|source| - 1]
  {
    KnotsNonDecreasing(|source|, Exact);
    PositionEnds(m);
    ResampledAt(Exact, source, m, 0);
    ResampledAt(Exact, source, m, m - 1);
  }

  lemma ResampledIsMix(source: seq<real>, n: nat, m: nat, k: nat, q: nat, r: nat)
    requires |source| == n >= 2 && m >= 2 && k < m && q < n && (r != 0 ==> q + 1 < n)
    requires k * (n - 1) == q * (m - 1) + r && r < m - 1
    ensures Resampled(Exact, source, m)[k] == MixAt(source, q, r, m - 1)
  {
    if k == 0 {
      FirstPosition(n, m, k, q, r);
      ResampledEnds(source, m);
    } else if q >= n - 1 {
      LastPosition(n, m, k, q, r);
      ResampledEnds(source, m);
    } else {
      ResampledInterior(source, n, m, k, q, r);
    }
  }

  /** In exact arithmetic, the float-knot search and division compute the closed form. */
  lemma ResampledIsClosedForm(source: seq<real>, m: nat, k: nat)
    requires |source| >= 2 && m >= 2 && k < m
    ensures Resampled(Exact, source, m)[k] == ClosedForm(source, m, k)
  {
    ClosedFormInRange(|source|, m, k);
    var p, d := k * (|source| - 1), m - 1;
    assert p == p / d * d + p % d;
    ResampledIsMix(source, |source|, m, k, p / d, p % d);
  }
}
