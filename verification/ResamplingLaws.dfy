/** What resampling preserves. */
module ResamplingLaws {
  import opened RealArithmetic
  import opened Interpolation
  import opened Resampling

  /** Resampling to the same length is the identity, under every rounding that keeps the
      positions apart. */
  lemma SameLengthIsIdentity(round: Rounding, source: seq<real>)
    requires |source| > 0 && MonotoneRounding(round) && Increasing(Knots(|source|, round))
    ensures Resampled(round, source, |source|) == source
  {
    var n := |source|;
    if n >= 2 {
      KnotsNonDecreasing(n, round);
      var xs := Knots(n, round);
      forall k | 0 <= k < n ensures Resampled(round, source, n)[k] == source[k] {
        ResampledAt(round, source, n, k);
        assert xs[k] == round(Position(n, k));
        InterpOneAtKnot(xs, source, k);
      }
    }
  }

  /** In exact arithmetic that is every rounding-free length. */
  lemma ExactSameLengthIsIdentity(source: seq<real>)
    requires |source| > 0
    ensures Resampled(Exact, source, |source|) == source
  {
    ExactIsMonotone();
    if |source| >= 2 {
      ExactKnotsIncrease(|source|);
    }
    SameLengthIsIdentity(Exact, source);
  }

  /** And in float32 every length up to 2^22, the 128 of a window among them. */
  lemma Float32SameLengthIsIdentity(round: Rounding, source: seq<real>)
    requires LikeFloat32(round) && 0 < |source| <= 4194304
    ensures Resampled(round, source, |source|) == source
  {
    if |source| >= 2 {
      Float32KnotsIncrease(round, |source|);
    }
    SameLengthIsIdentity(round, source);
  }

  lemma InterpOneAtKnot(xs: seq<real>, fp: seq<real>, k: nat)
    requires Increasing(xs) && |xs| == |fp| && k < |xs|
    ensures InterpOne(xs[k], xs, fp) == fp[k]
  {
    if 0 < k < |xs| - 1 {
      FirstAboveIsUnique(xs, xs[k], k + 1);
      assert (xs[k] - xs[k]) / (xs[k + 1] - xs[k]) == 0.0;
    }
  }

  lemma ExactKnotsIncrease(n: nat)
    requires n >= 2
    ensures Increasing(Knots(n, Exact))
  {
    var xs := Knots(n, Exact);
    forall i, j | 0 <= i < j < n ensures xs[i] < xs[j] {
      PositionsIncrease(n, i, j);
      assert xs[i] == Position(n, i) && xs[j] == Position(n, j);
    }
  }

  /** Multiplying the number of steps by c and going back loses nothing. */
  lemma UpThenDownIsIdentity(source: seq<real>, c: nat)
    requires |source| >= 2 && c >= 1
    ensures var fine := (|source| - 1) * c + 1;
      Resampled(Exact, Resampled(Exact, source, fine), |source|) == source
  {
    var n := |source|;
    var fine := (n - 1) * c + 1;
    assert fine >= 2 by {
      NatProductLeq(1, n - 1, c);
    }
    forall k: nat | k < n ensures Resampled(Exact, Resampled(Exact, source, fine), n)[k] == source[k] {
      UpThenDownAt(source, n, c, k, fine);
    }
  }

  lemma FinePlace(n: nat, c: nat, k: nat, fine: nat) returns (j: nat)
    requires n >= 2 && c >= 1 && k < n && fine == (n - 1) * c + 1
    ensures fine >= 2 && j < fine && k * (fine - 1) == j * (n - 1)
  {
    j := k * c;
    NatProductLeq(1, n - 1, c);
    NatProductLeq(k, n - 1, c);
    Regroup(k, n - 1, c);
  }

  /** Source point k is some point j of the finer sequence, and comes back from there. */
  lemma UpThenDownAt(source: seq<real>, n: nat, c: nat, k: nat, fine: nat)
    requires |source| == n >= 2 && c >= 1 && k < n && fine == (n - 1) * c + 1 && fine >= 2
    ensures Resampled(Exact, Resampled(Exact, source, fine), n)[k] == source[k]
  {
    var j := FinePlace(n, c, k, fine);
    SharedPlace(source, n, fine, k, j);
  }

  lemma SharedPlace(source: seq<real>, n: nat, fine: nat, k: nat, j: nat)
    requires |source| == n >= 2 && fine >= 2 && k < n && j < fine && k * (fine - 1) == j * (n - 1)
    ensures Resampled(Exact, Resampled(Exact, source, fine), n)[k] == source[k]
  {
    ResampledIsMix(Resampled(Exact, source, fine), fine, n, k, j, 0);
    ResampledIsMix(source, n, fine, j, k, 0);
  }

  lemma Regroup(a: nat, b: nat, c: nat)
    ensures a * (b * c) == (a * c) * b
  {
  }

  /** Affine sequences stay affine: if output k lies u source steps from the start, its value
      is that of the same line at u. */
  lemma AffineStaysAffine(source: seq<real>, m: nat, k: nat, a: real, b: real, u: real)
    requires |source| >= 2 && m >= 2 && k < m && u == Position(m, k) * (|source| - 1) as real
    requires forall i :: 0 <= i < |source| ==> source[i] == a + b * i as real
    ensures Resampled(Exact, source, m)[k] == a + b * u
  {
    ClosedFormInRange(|source|, m, k);
    var q, r := QuotientOf(k, |source| - 1, m - 1);
    assert u == q as real + r as real / (m - 1) as real by {
      PositionInSteps(|source|, m, k, q, r);
    }
    AffineAt(source, |source|, m, k, q, r, a, b, u);
  }

  lemma QuotientOf(k: nat, n: nat, d: nat) returns (q: nat, r: nat)
    requires d > 0
    ensures q == k * n / d && r == k * n % d
    ensures k * n == q * d + r && r < d
  {
    q, r := k * n / d, k * n % d;
  }

  lemma AffineAt(source: seq<real>, n: nat, m: nat, k: nat, q: nat, r: nat, a: real, b: real, u: real)
    requires |source| == n >= 2 && m >= 2 && k < m && q < n && (r != 0 ==> q + 1 < n)
    requires k * (n - 1) == q * (m - 1) + r && r < m - 1
    requires forall i :: 0 <= i < |source| ==> source[i] == a + b * i as real
    requires u == q as real + r as real / (m - 1) as real
    ensures Resampled(Exact, source, m)[k] == a + b * u
  {
    ResampledIsMix(source, n, m, k, q, r);
    MixOfAffine(source, q, r, m - 1, a, b, u);
  }

  lemma MixOfAffine(source: seq<real>, q: nat, r: nat, d: nat, a: real, b: real, u: real)
    requires d > 0 && q < |source| && (r != 0 ==> q + 1 < |source|)
    requires forall i :: 0 <= i < |source| ==> source[i] == a + b * i as real
    requires u == q as real + r as real / d as real
    ensures MixAt(source, q, r, d) == a + b * u
  {
    var f := r as real / d as real;
    assert b * u == b * q as real + f * b;
    if r == 0 {
      assert f == 0.0;
    } else {
      assert source[q + 1] - source[q] == b by {
        assert b * (q + 1) as real == b * q as real + b;
      }
    }
  }

  lemma MixMonotone(s: real, t: real, y0: real, y1: real)
    requires s <= t && y0 <= y1
    ensures Mix(y0, y1, s) <= Mix(y0, y1, t)
  {
    ProductMonotone(s, t, y1 - y0);
  }

  lemma SegmentMonotone(x: real, z: real, x0: real, x1: real, y0: real, y1: real)
    requires x <= z && x0 < x1 && y0 <= y1
    ensures Segment(x, x0, x1, y0, y1) <= Segment(z, x0, x1, y0, y1)
  {
    var w := x1 - x0;
    QuotientCompare(x - x0, w, (z - x0) / w);
    assert (z - x0) / w * w == z - x0;
    MixMonotone((x - x0) / w, (z - x0) / w, y0, y1);
  }

  lemma InterpOneMonotone(x: real, z: real, xp: seq<real>, fp: seq<real>)
    requires |xp| == |fp| > 0 && NonDecreasing(xp) && NonDecreasing(fp) && x <= z
    ensures InterpOne(x, xp, fp) <= InterpOne(z, xp, fp)
  {
    var last := |xp| - 1;
    assert fp[0] <= fp[last];
    if xp[0] < x < xp[last] {
      var i := FirstAbove(xp, x) - 1;
      SegmentIsBetween(x, xp[i], xp[i + 1], fp[i], fp[i + 1]);
      assert fp[i] <= fp[i + 1] <= fp[last];
      if z < xp[last] {
        var j := FirstAbove(xp, z) - 1;
        SegmentIsBetween(z, xp[j], xp[j + 1], fp[j], fp[j + 1]);
        assert i <= j;
        if i == j {
          SegmentMonotone(x, z, xp[i], xp[i + 1], fp[i], fp[i + 1]);
        } else {
          assert fp[i + 1] <= fp[j] <= fp[j + 1];
        }
      }
    } else if x <= xp[0] < z < xp[last] {
      var j := FirstAbove(xp, z) - 1;
      SegmentIsBetween(z, xp[j], xp[j + 1], fp[j], fp[j + 1]);
      assert fp[0] <= fp[j] <= fp[j + 1];
    }
  }

  /** Monotone sequences stay monotone, under any rounding. */
  lemma MonotoneStaysMonotone(round: Rounding, source: seq<real>, m: nat)
    requires MonotoneRounding(round) && NonDecreasing(source) && |source| > 0 && m > 0
    ensures NonDecreasing(Resampled(round, source, m))
  {
    if |source| >= 2 && m >= 2 {
      KnotsNonDecreasing(|source|, round);
      KnotsNonDecreasing(m, round);
      forall i, j | 0 <= i <= j < m
        ensures Resampled(round, source, m)[i] <= Resampled(round, source, m)[j]
      {
        InterpOneMonotone(Knots(m, round)[i], Knots(m, round)[j], Knots(|source|, round), source);
      }
    }
  }

  /** A constant sequence stays that constant. */
  lemma ConstantStaysConstant(round: Rounding, source: seq<real>, m: nat, v: real, k: nat)
    requires |source| > 0 && k < m && forall i :: 0 <= i < |source| ==> source[i] == v
    ensures Resampled(round, source, m)[k] == v
  {
    if |source| >= 2 {
      var left := ResampledIsBetween(round, source, m, k);
    }
  }

  /** A lower bound of the source is a lower bound of the output. */
  lemma LowerBoundKept(round: Rounding, source: seq<real>, m: nat, low: real, k: nat)
    requires |source| > 0 && k < m && forall i :: 0 <= i < |source| ==> low <= source[i]
    ensures low <= Resampled(round, source, m)[k]
  {
    if |source| >= 2 {
      var left := ResampledIsBetween(round, source, m, k);
    }
  }
}
