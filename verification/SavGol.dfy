/**
 The seven-point, degree-two Savitzky-Golay filter. The program multiplies windows by a
 table of weights. The specification is the least-squares quadratic of each window.
 */
module SavGol {
  import opened RealArithmetic

  // ----- least squares -----

  /** The quadratic a + b z + c z^2, with z counted from the centre of a window. */
  datatype Quadratic = Quadratic(a: real, b: real, c: real)

  function At(q: Quadratic, z: real): real {
    q.a + q.b * z + q.c * (z * z)
  }

  type Window = w: seq<real> | |w| == 7
    witness [0.0, 0.0, 0.0, 0.0, 0.0, 0.0, 0.0]

  /** By how much the quadratic misses sample j of the window. */
  function Miss(q: Quadratic, w: Window, j: nat): real
    requires j < 7
  {
    At(q, j as real - 3.0) - w[j]
  }

  function Square(x: real): real { x * x }

  function SquaredMisses(q: Quadratic, w: Window): Window {
    seq(7, j requires 0 <= j < 7 => Square(Miss(q, w, j)))
  }

  function SquaredError(q: Quadratic, w: Window): real {
    Moment0(SquaredMisses(q, w))
  }

  /** The moments of a window: sums of z^k times the sample. */
  function Moment0(w: Window): real { w[0] + w[1] + w[2] + w[3] + w[4] + w[5] + w[6] }
  function Moment1(w: Window): real { -3.0 * w[0] - 2.0 * w[1] - w[2] + w[4] + 2.0 * w[5] + 3.0 * w[6] }
  function Moment2(w: Window): real { 9.0 * w[0] + 4.0 * w[1] + w[2] + w[4] + 4.0 * w[5] + 9.0 * w[6] }

  /** The solution of the normal equations. */
  function Fit(w: Window): Quadratic {
    Quadratic(
      (7.0 * Moment0(w) - Moment2(w)) / 21.0,
      Moment1(w) / 28.0,
      (Moment2(w) - 4.0 * Moment0(w)) / 84.0)
  }

  function SquaredGaps(p: Quadratic, q: Quadratic): Window {
    seq(7, j requires 0 <= j < 7 => Square(At(p, j as real - 3.0) - At(q, j as real - 3.0)))
  }

  /** The sum over the window of the squared difference of two quadratics. */
  function SquaredDistance(p: Quadratic, q: Quadratic): real {
    Moment0(SquaredGaps(p, q))
  }

  function Residual(q: Quadratic, w: Window): Window {
    seq(7, j requires 0 <= j < 7 => Miss(q, w, j))
  }

  /** The residual of the fit is orthogonal to 1, z and z^2. */
  lemma ResidualOrthogonal(w: Window)
    ensures var r := Residual(Fit(w), w);
      Moment0(r) == 0.0 && Moment1(r) == 0.0 && Moment2(r) == 0.0
  {
    var f, r := Fit(w), Residual(Fit(w), w);
    assert r[0] == f.a - 3.0 * f.b + 9.0 * f.c - w[0];
    assert r[1] == f.a - 2.0 * f.b + 4.0 * f.c - w[1];
    assert r[2] == f.a - f.b + f.c - w[2];
    assert r[3] == f.a - w[3];
    assert r[4] == f.a + f.b + f.c - w[4];
    assert r[5] == f.a + 2.0 * f.b + 4.0 * f.c - w[5];
    assert r[6] == f.a + 3.0 * f.b + 9.0 * f.c - w[6];
  }

  /** Pointwise product of a quadratic with a window. */
  function Products(d: Quadratic, r: Window): Window {
    seq(7, j requires 0 <= j < 7 => At(d, j as real - 3.0) * r[j])
  }

  lemma ProductExpands(d: Quadratic, z: real, x: real)
    ensures At(d, z) * x == z * z * (d.c * x) + z * (d.b * x) + d.a * x
  {
    assert d.b * z * x == z * (d.b * x);
    assert d.c * (z * z) * x == z * z * (d.c * x);
    assert At(d, z) * x == d.a * x + d.b * z * x + d.c * (z * z) * x;
  }

  function Scaled(k: real, r: Window): Window {
    seq(7, j requires 0 <= j < 7 => k * r[j])
  }

  lemma ScaledMoments(k: real, r: Window)
    ensures Moment0(Scaled(k, r)) == k * Moment0(r)
    ensures Moment1(Scaled(k, r)) == k * Moment1(r)
    ensures Moment2(Scaled(k, r)) == k * Moment2(r)
  {
  }

  lemma VanishingMomentsScale(k: real, r: Window)
    requires Moment0(r) == 0.0 && Moment1(r) == 0.0 && Moment2(r) == 0.0
    ensures Moment0(Scaled(k, r)) == 0.0 && Moment1(Scaled(k, r)) == 0.0 && Moment2(Scaled(k, r)) == 0.0
  {
    ScaledMoments(k, r);
    assert k * 0.0 == 0.0;
  }

  lemma ProductsSplit(d: Quadratic, r: Window, j: nat)
    requires j < 7
    ensures Products(d, r)[j]
         == (j as real - 3.0) * (j as real - 3.0) * Scaled(d.c, r)[j] + (j as real - 3.0) * Scaled(d.b, r)[j]
           + Scaled(d.a, r)[j]
  {
    ProductExpands(d, j as real - 3.0, r[j]);
  }

  /** A quadratic is orthogonal to whatever has vanishing moments. */
  lemma CrossTermVanishes(d: Quadratic, r: Window)
    requires Moment0(r) == 0.0 && Moment1(r) == 0.0 && Moment2(r) == 0.0
    ensures Moment0(Products(d, r)) == 0.0
  {
    forall j: nat | j < 7
      ensures Products(d, r)[j]
           == (j as real - 3.0) * (j as real - 3.0) * Scaled(d.c, r)[j] + (j as real - 3.0) * Scaled(d.b, r)[j]
             + Scaled(d.a, r)[j]
    {
      ProductsSplit(d, r, j);
    }
    SumOfMoments(Products(d, r), Scaled(d.a, r), Scaled(d.b, r), Scaled(d.c, r));
    VanishingMomentsScale(d.a, r);
    VanishingMomentsScale(d.b, r);
    VanishingMomentsScale(d.c, r);
  }

  lemma SumOfMoments(p: Window, ra: Window, rb: Window, rc: Window)
    requires forall j: nat :: j < 7 ==>
      p[j] == (j as real - 3.0) * (j as real - 3.0) * rc[j] + (j as real - 3.0) * rb[j] + ra[j]
    ensures Moment0(p) == Moment0(ra) + Moment1(rb) + Moment2(rc)
  {
    assert p[0] == 9.0 * rc[0] - 3.0 * rb[0] + ra[0];
    assert p[1] == 4.0 * rc[1] - 2.0 * rb[1] + ra[1];
    assert p[2] == rc[2] - rb[2] + ra[2];
    assert p[3] == ra[3];
    assert p[4] == rc[4] + rb[4] + ra[4];
    assert p[5] == 4.0 * rc[5] + 2.0 * rb[5] + ra[5];
    assert p[6] == 9.0 * rc[6] + 3.0 * rb[6] + ra[6];
  }

  function Minus(p: Quadratic, q: Quadratic): Quadratic {
    Quadratic(p.a - q.a, p.b - q.b, p.c - q.c)
  }

  lemma AtMinus(p: Quadratic, q: Quadratic, z: real)
    ensures At(Minus(p, q), z) == At(p, z) - At(q, z)
  {
    assert (p.b - q.b) * z == p.b * z - q.b * z;
    assert (p.c - q.c) * (z * z) == p.c * (z * z) - q.c * (z * z);
  }

  lemma SquareOfSum(x: real, y: real)
    ensures Square(x + y) == Square(x) + 2.0 * (x * y) + Square(y)
  {
  }

  lemma MissSplits(f: Quadratic, q: Quadratic, w: Window, j: nat)
    requires j < 7
    ensures SquaredMisses(q, w)[j]
         == SquaredGaps(q, f)[j] + 2.0 * Products(Minus(q, f), Residual(f, w))[j] + SquaredMisses(f, w)[j]
  {
    var z := j as real - 3.0;
    AtMinus(q, f, z);
    SquareOfSum(At(Minus(q, f), z), Miss(f, w, j));
    assert Miss(q, w, j) == At(Minus(q, f), z) + Miss(f, w, j);
  }

  lemma SumSplits(e: Window, g: Window, p: Window, m: Window)
    requires forall j: nat :: j < 7 ==> e[j] == g[j] + 2.0 * p[j] + m[j]
    ensures Moment0(e) == Moment0(g) + 2.0 * Moment0(p) + Moment0(m)
  {
  }

  /** Pythagoras: any quadratic's error is the fit's error plus its distance from the fit. */
  lemma Pythagoras(w: Window, q: Quadratic)
    ensures SquaredError(q, w) == SquaredError(Fit(w), w) + SquaredDistance(q, Fit(w))
  {
    var f := Fit(w);
    forall j: nat | j < 7
      ensures SquaredMisses(q, w)[j]
           == SquaredGaps(q, f)[j] + 2.0 * Products(Minus(q, f), Residual(f, w))[j] + SquaredMisses(f, w)[j]
    {
      MissSplits(f, q, w, j);
    }
    SumSplits(SquaredMisses(q, w), SquaredGaps(q, f), Products(Minus(q, f), Residual(f, w)), SquaredMisses(f, w));
    ResidualOrthogonal(w);
    CrossTermVanishes(Minus(q, f), Residual(f, w));
  }

  lemma SquareOfPositive(y: real, s: real)
    requires y > 0.0 && s == y * y
    ensures s > 0.0
  {
    QuotientCompare(s, y, y);
    QuotientCompare(s, y, 0.0);
  }

  lemma SquareIsZero(x: real)
    ensures Square(x) >= 0.0
    ensures Square(x) == 0.0 ==> x == 0.0
  {
    if x > 0.0 {
      SquareOfPositive(x, Square(x));
    } else if x < 0.0 {
      assert (0.0 - x) * (0.0 - x) == Square(x);
      SquareOfPositive(0.0 - x, Square(x));
    }
  }

  lemma SumOfNonNegatives(g: Window)
    requires forall j: nat :: j < 7 ==> g[j] >= 0.0
    ensures Moment0(g) >= 0.0
    ensures Moment0(g) == 0.0 ==> g[2] == g[3] == g[4] == 0.0
  {
  }

  /** Quadratics at distance zero coincide: they agree at -1, 0 and 1. */
  lemma DistancePositive(p: Quadratic, q: Quadratic)
    ensures SquaredDistance(p, q) >= 0.0
    ensures SquaredDistance(p, q) == 0.0 ==> p == q
  {
    var g := SquaredGaps(p, q);
    forall j: nat | j < 7 ensures g[j] >= 0.0 {
      SquareIsZero(At(p, j as real - 3.0) - At(q, j as real - 3.0));
    }
    SumOfNonNegatives(g);
    if SquaredDistance(p, q) == 0.0 {
      SquareIsZero(At(p, -1.0) - At(q, -1.0));
      SquareIsZero(At(p, 0.0) - At(q, 0.0));
      SquareIsZero(At(p, 1.0) - At(q, 1.0));
      assert g[2] == Square(At(p, -1.0) - At(q, -1.0));
      assert g[3] == Square(At(p, 0.0) - At(q, 0.0));
      assert g[4] == Square(At(p, 1.0) - At(q, 1.0));
      AgreeingAtThree(p, q);
    }
  }

  lemma AgreeingAtThree(p: Quadratic, q: Quadratic)
    requires At(p, -1.0) == At(q, -1.0) && At(p, 0.0) == At(q, 0.0) && At(p, 1.0) == At(q, 1.0)
    ensures p == q
  {
  }

  /** The fit is the unique minimiser of the squared error among all quadratics. */
  lemma FitIsLeastSquares(w: Window, q: Quadratic)
    ensures SquaredError(Fit(w), w) <= SquaredError(q, w)
    ensures SquaredError(q, w) == SquaredError(Fit(w), w) ==> q == Fit(w)
  {
    Pythagoras(w, q);
    DistancePositive(q, Fit(w));
  }

  // ----- the filter -----

  /** kWeights: row r evaluates the fit of a window at its r-th sample. */
  const WEIGHTS: seq<seq<real>> := [
    [32.0 / 42.0, 15.0 / 42.0, 3.0 / 42.0, -4.0 / 42.0, -6.0 / 42.0, -3.0 / 42.0, 5.0 / 42.0],
    [15.0 / 42.0, 12.0 / 42.0, 9.0 / 42.0, 6.0 / 42.0, 3.0 / 42.0, 0.0, -3.0 / 42.0],
    [3.0 / 42.0, 9.0 / 42.0, 12.0 / 42.0, 12.0 / 42.0, 9.0 / 42.0, 3.0 / 42.0, -6.0 / 42.0],
    [-2.0 / 21.0, 3.0 / 21.0, 6.0 / 21.0, 7.0 / 21.0, 6.0 / 21.0, 3.0 / 21.0, -2.0 / 21.0],
    [-6.0 / 42.0, 3.0 / 42.0, 9.0 / 42.0, 12.0 / 42.0, 12.0 / 42.0, 9.0 / 42.0, 3.0 / 42.0],
    [-3.0 / 42.0, 0.0, 3.0 / 42.0, 6.0 / 42.0, 9.0 / 42.0, 12.0 / 42.0, 15.0 / 42.0],
    [5.0 / 42.0, -3.0 / 42.0, -6.0 / 42.0, -4.0 / 42.0, 3.0 / 42.0, 15.0 / 42.0, 32.0 / 42.0]]

  function Weight(row: nat, j: nat): real
    requires row < 7 && j < 7
  {
    WEIGHTS[row][j]
  }

  /** The sum of the first k weighted samples. */
  function Dot(row: nat, w: Window, k: nat): real
    requires row < 7 && k <= 7
  {
    if k == 0 then 0.0 else Dot(row, w, k - 1) + Weight(row, k - 1) * w[k - 1]
  }

  lemma DotUnrolled(row: nat, w: Window)
    requires row < 7
    ensures Dot(row, w, 7) == Weight(row, 0) * w[0] + Weight(row, 1) * w[1] + Weight(row, 2) * w[2]
      + Weight(row, 3) * w[3] + Weight(row, 4) * w[4] + Weight(row, 5) * w[5] + Weight(row, 6) * w[6]
  {
    assert Dot(row, w, 1) == Weight(row, 0) * w[0];
    assert Dot(row, w, 2) == Dot(row, w, 1) + Weight(row, 1) * w[1];
    assert Dot(row, w, 3) == Dot(row, w, 2) + Weight(row, 2) * w[2];
    assert Dot(row, w, 4) == Dot(row, w, 3) + Weight(row, 3) * w[3];
    assert Dot(row, w, 5) == Dot(row, w, 4) + Weight(row, 4) * w[4];
    assert Dot(row, w, 6) == Dot(row, w, 5) + Weight(row, 5) * w[5];
  }

  /** Each row of the table evaluates the least-squares quadratic. */
  lemma WeightsEvaluateFit(row: nat, w: Window)
    requires row < 7
    ensures Dot(row, w, 7) == At(Fit(w), row as real - 3.0)
  {
    DotUnrolled(row, w);
  }

  /** Where the window of sample i starts: centred inside, clipped at both ends. */
  function WindowStart(n: nat, i: nat): nat
    requires n >= 7 && i < n
  {
    if i < 3 then 0 else if i + 3 < n then i - 3 else n - 7
  }

  /** The least-squares quadratic of a window, at its row-th sample. */
  function FitValue(w: Window, row: nat): real {
    At(Fit(w), row as real - 3.0)
  }

  function FitAt(c: seq<real>, start: nat, row: nat): real
    requires start + 7 <= |c|
  {
    FitValue(c[start..start + 7], row)
  }

  /** scipy's savgol_filter(c, 7, 2, mode="interp"): every sample becomes the value, at its own
      place, of the least-squares quadratic of its window. Shorter sequences are left alone. */
  function Smoothed(c: seq<real>): (out: seq<real>)
    ensures |out| == |c|
  {
    if |c| < 7 then c
    else seq(|c|, i requires 0 <= i < |c| => FitAt(c, WindowStart(|c|, i), i - WindowStart(|c|, i)))
  }

  method Evaluate(x: seq<real>, start: nat, weightRow: nat) returns (acc: real)
    requires start + 7 <= |x| && weightRow < 7
    ensures acc == FitAt(x, start, weightRow)
  {
    acc := 0.0;
    for j := 0 to 7
      invariant acc == Dot(weightRow, x[start..start + 7], j)
    {
      acc := acc + Weight(weightRow, j) * x[start + j];
    }
    WeightsEvaluateFit(weightRow, x[start..start + 7]);
  }

  lemma SmoothedAt(c: seq<real>, i: nat, start: nat, row: nat)
    requires |c| >= 7 && i < |c| && start == WindowStart(|c|, i) && i == start + row
    ensures row < 7 && start + 7 <= |c| && Smoothed(c)[i] == FitAt(c, start, row)
  {
  }

  /** The first k outputs are in place. */
  ghost predicate DoneUpTo(values: array<real>, goal: seq<real>, k: nat)
    requires k <= values.Length == |goal|
    reads values
  {
    forall i :: 0 <= i < k ==> values[i] == goal[i]
  }

  method SavGol72Interp(values: array<real>)
    modifies values
    ensures values[..] == Smoothed(old(values[..]))
  {
    if values.Length < 7 {
      return;
    }
    var source := values[..];
    var n := values.Length;
    ghost var goal := Smoothed(source);
    values[0] := EvaluateFor(source, 0, 0, 0);
    values[1] := EvaluateFor(source, 0, 1, 1);
    values[2] := EvaluateFor(source, 0, 2, 2);
    for i := 3 to n - 3
      invariant DoneUpTo(values, goal, i)
    {
      values[i] := EvaluateFor(source, i - 3, 3, i);
    }
    var start := n - 7;
    values[n - 3] := EvaluateFor(source, start, 4, n - 3);
    values[n - 2] := EvaluateFor(source, start, 5, n - 2);
    values[n - 1] := EvaluateFor(source, start, 6, n - 1);
    assert values[..] == goal;
  }

  /** Evaluate, for the sample i that has this window and row. */
  method EvaluateFor(x: seq<real>, start: nat, weightRow: nat, ghost i: nat) returns (acc: real)
    requires |x| >= 7 && i < |x| && start == WindowStart(|x|, i) && i == start + weightRow
    ensures acc == Smoothed(x)[i]
  {
    SmoothedAt(x, i, start, weightRow);
    acc := Evaluate(x, start, weightRow);
  }
}
