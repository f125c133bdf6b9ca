/** What the filter preserves and how far it can move a value. */
module SavGolLaws {
  import opened Common
  import opened RealArithmetic
  import opened SavGol

  lemma WindowPlace(n: nat, i: nat, start: nat)
    requires n >= 7 && i < n && start == WindowStart(n, i)
    ensures start <= i < start + 7 <= n
    ensures i < 3 ==> start == 0
    ensures 3 <= i < n - 3 ==> start == i - 3
    ensures i >= n - 3 ==> start == n - 7
  {
  }

  lemma FitAtIs(c: seq<real>, start: nat, row: nat, w: Window, z: real)
    requires start + 7 <= |c| && w == c[start..start + 7] && z == row as real - 3.0
    ensures FitAt(c, start, row) == At(Fit(w), z)
  {
  }

  lemma SmoothedOnWindow(c: seq<real>, i: nat, start: nat, w: Window, z: real)
    requires |c| >= 7 && i < |c| && start == WindowStart(|c|, i) && start + 7 <= |c| && w == c[start..start + 7]
    requires start <= i && z == (i - start) as real - 3.0
    ensures Smoothed(c)[i] == At(Fit(w), z)
  {
    SmoothedAt(c, i, start, i - start);
    FitAtIs(c, start, i - start, w, z);
  }

  /** Every output is the value, at its own place, of the quadratic that no other quadratic
      beats on the output's window; and only that quadratic is as good. */
  lemma SmoothedIsLeastSquares(c: seq<real>, i: nat, q: Quadratic) returns (start: nat, w: Window)
    requires |c| >= 7 && i < |c|
    ensures start <= i < start + 7 <= |c| && w == c[start..start + 7]
    ensures start == if i < 3 then 0 else if i < |c| - 3 then i - 3 else |c| - 7
    ensures Smoothed(c)[i] == At(Fit(w), (i - start) as real - 3.0)
    ensures SquaredError(Fit(w), w) <= SquaredError(q, w)
    ensures SquaredError(q, w) == SquaredError(Fit(w), w) ==> q == Fit(w)
  {
    start := WindowStart(|c|, i);
    WindowPlace(|c|, i, start);
    w := c[start..start + 7];
    SmoothedOnWindow(c, i, start, w, (i - start) as real - 3.0);
    FitIsLeastSquares(w, q);
  }

  /** The first three outputs lie on the one least-squares quadratic of the first seven
      samples. */
  lemma FirstThreeOnOneFit(c: seq<real>, i: nat)
    requires |c| >= 7 && i < 3
    ensures Smoothed(c)[i] == At(Fit(c[..7]), i as real - 3.0)
  {
    WindowPlace(|c|, i, 0);
    SmoothedOnWindow(c, i, 0, c[..7], i as real - 3.0);
  }

  /** The last three lie on that of the last seven. */
  lemma LastThreeOnOneFit(c: seq<real>, i: nat)
    requires |c| >= 7 && |c| - 3 <= i < |c|
    ensures Smoothed(c)[i] == At(Fit(c[|c| - 7..]), (i - (|c| - 7)) as real - 3.0)
  {
    WindowPlace(|c|, i, |c| - 7);
    SmoothedOnWindow(c, i, |c| - 7, c[|c| - 7..], (i - (|c| - 7)) as real - 3.0);
  }

  /** Fewer than seven samples are left alone. */
  lemma ShortIsKept(c: seq<real>)
    requires |c| < 7
    ensures Smoothed(c) == c
  {
  }

  // ----- windowed filters in general -----

  /** Sample i becomes f of its window and of its place in the window. */
  function Windowed(f: (Window, nat) -> real, c: seq<real>): (out: seq<real>)
    requires |c| >= 7
    ensures |out| == |c|
  {
    seq(|c|, i requires 0 <= i < |c| =>
      f(c[WindowStart(|c|, i)..WindowStart(|c|, i) + 7], i - WindowStart(|c|, i)))
  }

  lemma WindowedAt(f: (Window, nat) -> real, c: seq<real>, i: nat, start: nat)
    requires |c| >= 7 && i < |c| && start == WindowStart(|c|, i)
    ensures Windowed(f, c)[i] == f(c[start..start + 7], i - start)
  {
  }

  lemma Applied(f: (Window, nat) -> real, w: Window, row: nat)
    requires f == FitValue
    ensures f(w, row) == FitValue(w, row)
  {
  }

  lemma WindowedFitAt(c: seq<real>, i: nat, start: nat)
    requires |c| >= 7 && i < |c| && start == WindowStart(|c|, i)
    ensures Windowed(FitValue, c)[i] == FitAt(c, start, i - start)
  {
    WindowedAt(FitValue, c, i, start);
    Applied(FitValue, c[start..start + 7], i - start);
  }

  lemma SmoothedIsWindowed(c: seq<real>)
    requires |c| >= 7
    ensures Smoothed(c) == Windowed(FitValue, c)
  {
    forall i: nat | i < |c| ensures Smoothed(c)[i] == Windowed(FitValue, c)[i] {
      SmoothedAt(c, i, WindowStart(|c|, i), i - WindowStart(|c|, i));
      WindowedFitAt(c, i, WindowStart(|c|, i));
    }
  }

  // ----- quadratics -----

  /** The window of a quadratic. */
  function WindowFrom(q: Quadratic): Window {
    [At(q, -3.0), At(q, -2.0), At(q, -1.0), At(q, 0.0), At(q, 1.0), At(q, 2.0), At(q, 3.0)]
  }

  lemma FitOfQuadratic(q: Quadratic)
    ensures Fit(WindowFrom(q)) == q
  {
  }

  /** The same quadratic counted from another origin. */
  function Shifted(q: Quadratic, d: real): Quadratic {
    Quadratic(q.a + q.b * d + q.c * (d * d), q.b + 2.0 * (q.c * d), q.c)
  }

  lemma ShiftedAt(q: Quadratic, d: real, z: real, x: real)
    requires x == d + z
    ensures At(Shifted(q, d), z) == At(q, x)
  {
    assert x * x == d * d + 2.0 * (d * z) + z * z;
    assert q.c * (x * x) == q.c * (d * d) + 2.0 * (q.c * d) * z + q.c * (z * z);
    assert q.b * x == q.b * d + q.b * z;
    assert (q.b + 2.0 * (q.c * d)) * z == q.b * z + 2.0 * (q.c * d) * z;
  }

  lemma FitOfQuadraticWindow(w: Window, q: Quadratic, d: real)
    requires forall j: nat :: j < 7 ==> w[j] == At(q, d - 3.0 + j as real)
    ensures Fit(w) == Shifted(q, d)
  {
    forall j: nat | j < 7 ensures w[j] == WindowFrom(Shifted(q, d))[j] {
      ShiftedAt(q, d, j as real - 3.0, d - 3.0 + j as real);
      assert WindowFrom(Shifted(q, d))[j] == At(Shifted(q, d), j as real - 3.0);
    }
    assert w == WindowFrom(Shifted(q, d));
    FitOfQuadratic(Shifted(q, d));
  }

  lemma FitValueOfQuadratic(w: Window, q: Quadratic, d: real, row: nat, x: real)
    requires forall j: nat :: j < 7 ==> w[j] == At(q, d - 3.0 + j as real)
    requires x == d - 3.0 + row as real
    ensures FitValue(w, row) == At(q, x)
  {
    FitOfQuadraticWindow(w, q, d);
    ShiftedAt(q, d, row as real - 3.0, x);
  }

  ghost predicate Kept(c: seq<real>, i: nat)
    requires |c| >= 7 && i < |c|
  {
    FitAt(c, WindowStart(|c|, i), i - WindowStart(|c|, i)) == c[i]
  }

  lemma KeptEverywhere(c: seq<real>)
    requires |c| >= 7 && forall i: nat :: i < |c| ==> Kept(c, i)
    ensures Smoothed(c) == c
  {
    forall i: nat | i < |c| ensures Smoothed(c)[i] == c[i] {
      assert Kept(c, i);
    }
  }

  lemma QuadraticAt(c: seq<real>, q: Quadratic, i: nat)
    requires |c| >= 7 && i < |c| && forall k: nat :: k < |c| ==> c[k] == At(q, k as real)
    ensures Kept(c, i)
  {
    var start := WindowStart(|c|, i);
    var d := start as real + 3.0;
    var w := c[start..start + 7];
    forall j: nat | j < 7 ensures w[j] == At(q, d - 3.0 + j as real) {
      assert (start + j) as real == d - 3.0 + j as real;
    }
    FitValueOfQuadratic(w, q, d, i - start, i as real);
  }

  /** Quadratic sequences of any length pass through unchanged. */
  lemma QuadraticsReproduced(c: seq<real>, q: Quadratic)
    requires forall i: nat :: i < |c| ==> c[i] == At(q, i as real)
    ensures Smoothed(c) == c
  {
    if |c| >= 7 {
      forall i: nat | i < |c| ensures Kept(c, i) {
        QuadraticAt(c, q, i);
      }
      KeptEverywhere(c);
    }
  }

  // ----- linearity -----

  function Blend(a: real, x: real, b: real, y: real): real {
    a * x + b * y
  }

  function Combined(a: real, x: seq<real>, b: real, y: seq<real>): seq<real>
    requires |x| == |y|
  {
    seq(|x|, i requires 0 <= i < |x| => Blend(a, x[i], b, y[i]))
  }

  lemma FitIsLinear(a: real, x: Window, b: real, y: Window, z: real)
    ensures At(Fit(Combined(a, x, b, y)), z) == Blend(a, At(Fit(x), z), b, At(Fit(y), z))
  {
    var w := Combined(a, x, b, y);
    assert Moment0(w) == a * Moment0(x) + b * Moment0(y);
    assert Moment1(w) == a * Moment1(x) + b * Moment1(y);
    assert Moment2(w) == a * Moment2(x) + b * Moment2(y);
    AtIsLinear(a, Fit(x), b, Fit(y), Fit(w), z);
  }

  lemma BlendTimes(a: real, x: real, b: real, y: real, z: real)
    ensures (a * x + b * y) * z == a * (x * z) + b * (y * z)
  {
  }

  lemma TimesSum(k: real, x: real, y: real, z: real)
    ensures k * (x + y + z) == k * x + k * y + k * z
  {
  }

  lemma AtIsLinear(a: real, p: Quadratic, b: real, q: Quadratic, s: Quadratic, z: real)
    requires s == Quadratic(a * p.a + b * q.a, a * p.b + b * q.b, a * p.c + b * q.c)
    ensures At(s, z) == Blend(a, At(p, z), b, At(q, z))
  {
    BlendTimes(a, p.b, b, q.b, z);
    BlendTimes(a, p.c, b, q.c, z * z);
    TimesSum(a, p.a, p.b * z, p.c * (z * z));
    TimesSum(b, q.a, q.b * z, q.c * (z * z));
  }

  lemma SliceOfCombined(a: real, x: seq<real>, b: real, y: seq<real>, start: nat)
    requires |x| == |y| && start + 7 <= |x|
    ensures Combined(a, x, b, y)[start..start + 7] == Combined(a, x[start..start + 7], b, y[start..start + 7])
  {
    var whole, part := Combined(a, x, b, y)[start..start + 7], Combined(a, x[start..start + 7], b, y[start..start + 7]);
    forall k | 0 <= k < 7 ensures whole[k] == part[k] {
      assert Combined(a, x, b, y)[start + k] == Blend(a, x[start + k], b, y[start + k]);
    }
  }

  lemma WindowedIsLinear(f: (Window, nat) -> real, a: real, x: seq<real>, b: real, y: seq<real>)
    requires |x| == |y| >= 7
    requires forall v: Window, w: Window, row: nat ::
      f(Combined(a, v, b, w), row) == Blend(a, f(v, row), b, f(w, row))
    ensures Windowed(f, Combined(a, x, b, y)) == Combined(a, Windowed(f, x), b, Windowed(f, y))
  {
    var c := Combined(a, x, b, y);
    var left, right := Windowed(f, c), Combined(a, Windowed(f, x), b, Windowed(f, y));
    forall i: nat | i < |x| ensures left[i] == right[i] {
      var start := WindowStart(|x|, i);
      SliceOfCombined(a, x, b, y, start);
      var v, w := x[start..start + 7], y[start..start + 7];
      assert left[i] == f(Combined(a, v, b, w), i - start);
      assert right[i] == Blend(a, Windowed(f, x)[i], b, Windowed(f, y)[i]);
    }
  }

  /** The filter is linear. */
  lemma SmoothedIsLinear(a: real, x: seq<real>, b: real, y: seq<real>)
    requires |x| == |y|
    ensures Smoothed(Combined(a, x, b, y)) == Combined(a, Smoothed(x), b, Smoothed(y))
  {
    if |x| >= 7 {
      var f := FitValue;
      forall v: Window, w: Window, row: nat
        ensures f(Combined(a, v, b, w), row) == Blend(a, f(v, row), b, f(w, row))
      {
        FitIsLinear(a, v, b, w, row as real - 3.0);
      }
      WindowedIsLinear(f, a, x, b, y);
      SmoothedIsWindowed(x);
      SmoothedIsWindowed(y);
      SmoothedIsWindowed(Combined(a, x, b, y));
    }
  }

  // ----- reversal -----

  lemma FitOfReversed(w: Window, z: real)
    ensures At(Fit(Reversed(w)), z) == At(Fit(w), 0.0 - z)
  {
    var r := Reversed(w);
    assert Moment0(r) == Moment0(w) && Moment1(r) == 0.0 - Moment1(w) && Moment2(r) == Moment2(w);
    assert z * z == (0.0 - z) * (0.0 - z);
    assert Fit(r).b * z == Fit(w).b * (0.0 - z);
  }

  lemma WindowedReversed(f: (Window, nat) -> real, c: seq<real>)
    requires |c| >= 7
    requires forall w: Window, row: nat :: row < 7 ==> f(Reversed(w), row) == f(w, 6 - row)
    ensures Windowed(f, Reversed(c)) == Reversed(Windowed(f, c))
  {
    var n, r := |c|, Reversed(c);
    forall i: nat | i < n ensures Windowed(f, r)[i] == Windowed(f, c)[n - 1 - i] {
      var start := WindowStart(n, i);
      var mirror := n - 7 - start;
      var w: Window := c[mirror..mirror + 7];
      WindowedAt(f, r, i, start);
      WindowedAt(f, c, n - 1 - i, mirror);
      assert r[start..start + 7] == Reversed(w);
      assert f(Reversed(w), i - start) == f(w, 6 - (i - start));
    }
  }

  /** Filtering a reversed sequence gives the reversed result. */
  lemma SmoothedCommutesWithReversal(c: seq<real>)
    ensures Smoothed(Reversed(c)) == Reversed(Smoothed(c))
  {
    if |c| >= 7 {
      var f := FitValue;
      forall w: Window, row: nat | row < 7 ensures f(Reversed(w), row) == f(w, 6 - row) {
        FitOfReversed(w, row as real - 3.0);
      }
      WindowedReversed(f, c);
      SmoothedIsWindowed(c);
      SmoothedIsWindowed(Reversed(c));
    }
  }

  // ----- size -----

  lemma RowsExplicit(row: nat, w: Window)
    requires row < 7
    ensures 42.0 * Dot(row, w, 7) == match row
      case 0 => 32.0 * w[0] + 15.0 * w[1] + 3.0 * w[2] - 4.0 * w[3] - 6.0 * w[4] - 3.0 * w[5] + 5.0 * w[6]
      case 1 => 15.0 * w[0] + 12.0 * w[1] + 9.0 * w[2] + 6.0 * w[3] + 3.0 * w[4] - 3.0 * w[6]
      case 2 => 3.0 * w[0] + 9.0 * w[1] + 12.0 * w[2] + 12.0 * w[3] + 9.0 * w[4] + 3.0 * w[5] - 6.0 * w[6]
      case 3 => -4.0 * w[0] + 6.0 * w[1] + 12.0 * w[2] + 14.0 * w[3] + 12.0 * w[4] + 6.0 * w[5] - 4.0 * w[6]
      case 4 => -6.0 * w[0] + 3.0 * w[1] + 9.0 * w[2] + 12.0 * w[3] + 12.0 * w[4] + 9.0 * w[5] + 3.0 * w[6]
      case 5 => -3.0 * w[0] + 3.0 * w[2] + 6.0 * w[3] + 9.0 * w[4] + 12.0 * w[5] + 15.0 * w[6]
      case _ => 5.0 * w[0] - 3.0 * w[1] - 6.0 * w[2] - 4.0 * w[3] + 3.0 * w[4] + 15.0 * w[5] + 32.0 * w[6]
  {
    DotUnrolled(row, w);
  }

  lemma DotBounded(row: nat, w: Window, bound: real)
    requires row < 7 && forall j :: 0 <= j < 7 ==> -bound <= w[j] <= bound
    ensures -(34.0 / 21.0 * bound) <= Dot(row, w, 7) <= 34.0 / 21.0 * bound
  {
    RowsExplicit(row, w);
    assert -bound <= w[0] <= bound && -bound <= w[1] <= bound && -bound <= w[2] <= bound;
    assert -bound <= w[3] <= bound && -bound <= w[4] <= bound;
    assert -bound <= w[5] <= bound && -bound <= w[6] <= bound;
  }

  lemma FitAtBounded(c: seq<real>, start: nat, row: nat, bound: real)
    requires start + 7 <= |c| && row < 7 && forall j :: 0 <= j < |c| ==> -bound <= c[j] <= bound
    ensures -(34.0 / 21.0 * bound) <= FitAt(c, start, row) <= 34.0 / 21.0 * bound
  {
    var w := c[start..start + 7];
    WeightsEvaluateFit(row, w);
    DotBounded(row, w, bound);
  }

  /** The filter amplifies by at most 34/21. */
  lemma SmoothedBounded(c: seq<real>, bound: real, i: nat)
    requires |c| >= 7 && i < |c| && forall j :: 0 <= j < |c| ==> -bound <= c[j] <= bound
    ensures -(34.0 / 21.0 * bound) <= Smoothed(c)[i] <= 34.0 / 21.0 * bound
  {
    var start := WindowStart(|c|, i);
    SmoothedAt(c, i, start, i - start);
    FitAtBounded(c, start, i - start, bound);
  }

  /** And the bound is reached. */
  lemma BoundIsTight()
    ensures Smoothed([1.0, 1.0, 1.0, -1.0, -1.0, -1.0, 1.0])[0] == 34.0 / 21.0
  {
    var c: Window := [1.0, 1.0, 1.0, -1.0, -1.0, -1.0, 1.0];
    SmoothedAt(c, 0, 0, 0);
    assert c[0..7] == c;
    WeightsEvaluateFit(0, c);
    DotUnrolled(0, c);
  }

  /** On exactly seven samples a second pass changes nothing. */
  lemma IdempotentOnOneWindow(c: seq<real>)
    requires |c| == 7
    ensures Smoothed(Smoothed(c)) == Smoothed(c)
  {
    var q := Shifted(Fit(c), -3.0);
    forall i: nat | i < |Smoothed(c)| ensures Smoothed(c)[i] == At(q, i as real) {
      SmoothedAt(c, i, 0, i);
      assert c[0..7] == c;
      assert At(q, i as real) == At(Fit(c), i as real - 3.0) by {
        ShiftedAt(Fit(c), -3.0, i as real, i as real - 3.0);
      }
    }
    QuadraticsReproduced(Smoothed(c), q);
  }

  /** A constant sequence passes through unchanged. */
  lemma ConstantsReproduced(c: seq<real>, v: real)
    requires forall i: nat :: i < |c| ==> c[i] == v
    ensures Smoothed(c) == c
  {
    var q := Quadratic(v, 0.0, 0.0);
    forall i: nat | i < |c| ensures c[i] == At(q, i as real) {
    }
    QuadraticsReproduced(c, q);
  }
}
