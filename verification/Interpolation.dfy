/** One-dimensional linear interpolation: the C++ search-and-divide form and numpy's. */
module Interpolation {
  import opened RealArithmetic

  ghost predicate NonDecreasing(xs: seq<real>) {
    forall i, j :: 0 <= i <= j < |xs| ==> xs[i] <= xs[j]
  }

  ghost predicate Increasing(xs: seq<real>) {
    forall i, j :: 0 <= i < j < |xs| ==> xs[i] < xs[j]
  }

  ghost predicate Between(y: real, a: real, b: real) {
    a <= y <= b || b <= y <= a
  }

  /** Index of the first element above x, or the length: the result of std::upper_bound. */
  function FirstAbove(xs: seq<real>, x: real): (r: nat)
    ensures r <= |xs|
    ensures forall j :: 0 <= j < r ==> xs[j] <= x
    ensures r < |xs| ==> xs[r] > x
  {
    if |xs| == 0 || xs[0] > x then 0 else 1 + FirstAbove(xs[1..], x)
  }

  lemma FirstAboveIsUnique(xs: seq<real>, x: real, r: nat)
    requires r <= |xs|
    requires forall j :: 0 <= j < r ==> xs[j] <= x
    requires r < |xs| ==> xs[r] > x
    ensures FirstAbove(xs, x) == r
  {
    var f := FirstAbove(xs, x);
    assert f < |xs| ==> xs[f] > x;
    assert r < |xs| ==> xs[r] > x;
  }

  /** std::upper_bound by halving the remaining range. */
  method UpperBound(xs: array<real>, x: real) returns (r: nat)
    requires NonDecreasing(xs[..])
    ensures r == FirstAbove(xs[..], x)
  {
    var lo, hi := 0, xs.Length;
    while lo < hi
      invariant 0 <= lo <= hi <= xs.Length
      invariant forall j :: 0 <= j < lo ==> xs[j] <= x
      invariant forall j :: hi <= j < xs.Length ==> xs[j] > x
    {
      var mid := (lo + hi) / 2;
      if xs[mid] <= x {
        forall j | 0 <= j <= mid ensures xs[j] <= x {
          assert xs[..][j] <= xs[..][mid];
        }
        lo := mid + 1;
      } else {
        forall j | mid <= j < xs.Length ensures xs[j] > x {
          assert xs[..][mid] <= xs[..][j];
        }
        hi := mid;
      }
    }
    FirstAboveIsUnique(xs[..], x, lo);
    r := lo;
  }

  // ----- the C++ form -----

  function Segment(x: real, x0: real, x1: real, y0: real, y1: real): real
    requires x0 < x1
  {
    Mix(y0, y1, (x - x0) / (x1 - x0))
  }

  function InterpOne(x: real, xp: seq<real>, fp: seq<real>): real
    requires |xp| == |fp| > 0
  {
    if x <= xp[0] then fp[0]
    else if x >= xp[|xp| - 1] then fp[|xp| - 1]
    else
      var right := FirstAbove(xp, x);
      Segment(x, xp[right - 1], xp[right], fp[right - 1], fp[right])
  }

  method InterpolateOne(x: real, xp: array<real>, fp: array<real>) returns (y: real)
    requires xp.Length == fp.Length > 0 && NonDecreasing(xp[..])
    ensures y == InterpOne(x, xp[..], fp[..])
  {
    if x <= xp[0] {
      return fp[0];
    }
    if x >= xp[xp.Length - 1] {
      return fp[xp.Length - 1];
    }
    var right := UpperBound(xp, x);
    var left := right - 1;
    var x0, x1, y0, y1 := xp[left], xp[right], fp[left], fp[right];
    var t := (x - x0) / (x1 - x0);
    y := MixOf(y0, y1, t);
  }

  method MixOf(y0: real, y1: real, t: real) returns (y: real)
    ensures y == Mix(y0, y1, t)
  {
    y := y0 + t * (y1 - y0);
  }

  // ----- numpy's form -----

  /** The last index whose knot is at most x. */
  function LastAtMost(xs: seq<real>, x: real): (r: nat)
    requires |xs| > 0 && xs[0] <= x
    ensures r < |xs| && xs[r] <= x
    ensures forall j :: r < j < |xs| ==> xs[j] > x
  {
    if xs[|xs| - 1] <= x then |xs| - 1 else LastAtMost(xs[..|xs| - 1], x)
  }

  /** np.interp: hold the end values outside the knots; on or after the last knot at most x,
      start from its value and follow the slope to the next one. */
  function NpInterp(x: real, xp: seq<real>, fp: seq<real>): real
    requires |xp| == |fp| > 0
  {
    if x < xp[0] then fp[0]
    else
      var j := LastAtMost(xp, x);
      if j == |xp| - 1 || xp[j] == x then fp[j]
      else
        var slope := (fp[j + 1] - fp[j]) / (xp[j + 1] - xp[j]);
        slope * (x - xp[j]) + fp[j]
  }

  lemma LastAtMostIsUnique(xs: seq<real>, x: real, j: nat)
    requires NonDecreasing(xs) && j + 1 < |xs| && xs[0] <= xs[j] <= x < xs[j + 1]
    ensures LastAtMost(xs, x) == j
  {
    var k := LastAtMost(xs, x);
    assert xs[k] <= x && xs[j] <= x && xs[j + 1] > x;
  }

  /** NpInterp at a place known to lie in the half-open segment j. */
  lemma NpInterpInSegment(x: real, xp: seq<real>, fp: seq<real>, j: nat)
    requires |xp| == |fp| && NonDecreasing(xp) && j + 1 < |xp| && xp[j] <= x < xp[j + 1]
    ensures NpInterp(x, xp, fp) == Segment(x, xp[j], xp[j + 1], fp[j], fp[j + 1])
  {
    assert xp[0] <= xp[j];
    LastAtMostIsUnique(xp, x, j);
    SlopeForm(x - xp[j], xp[j + 1] - xp[j], fp[j + 1] - fp[j]);
    if x == xp[j] {
      assert (x - xp[j]) / (xp[j + 1] - xp[j]) == 0.0;
    }
  }

  lemma SlopeForm(d: real, w: real, h: real)
    requires w > 0.0
    ensures h / w * d == d / w * h
  {
    assert h / w * d == (h * d) / w;
    assert d / w * h == (d * h) / w;
  }

  /** The two agree everywhere except at a repeated first knot, where the C++ form takes the
      first of the repeated values and numpy the last: they agree there if and only if these
      two values are equal. */
  lemma InterpOneIsNpInterp(x: real, xp: seq<real>, fp: seq<real>)
    requires |xp| == |fp| > 0 && NonDecreasing(xp)
    ensures InterpOne(x, xp, fp) == NpInterp(x, xp, fp)
       <==> (x == xp[0] ==> fp[0] == fp[LastAtMost(xp, xp[0])])
  {
    assert xp[0] <= xp[|xp| - 1];
    if x == xp[0] {
      var j := LastAtMost(xp, x);
      assert xp[0] <= xp[j];
    } else if x >= xp[|xp| - 1] {
      assert LastAtMost(xp, x) == |xp| - 1;
    } else if x > xp[0] {
      NpInterpInSegment(x, xp, fp, FirstAbove(xp, x) - 1);
    }
  }

  /** Taken by themselves the two forms do differ there. The resampler's own knots never repeat
      the first one. */
  lemma RepeatedFirstKnotDiffers(a: real, b: real)
    requires a != b
    ensures NonDecreasing([0.0, 0.0, 1.0])
    ensures InterpOne(0.0, [0.0, 0.0, 1.0], [a, b, b]) == a
    ensures NpInterp(0.0, [0.0, 0.0, 1.0], [a, b, b]) == b
  {
    assert LastAtMost([0.0, 0.0, 1.0], 0.0) == 1;
  }

  // ----- shape of a segment -----

  lemma SegmentIsBetween(x: real, x0: real, x1: real, y0: real, y1: real)
    requires x0 <= x <= x1 && x0 < x1
    ensures Between(Segment(x, x0, x1, y0, y1), y0, y1)
  {
    var t := (x - x0) / (x1 - x0);
    QuotientInUnit(x - x0, x1 - x0);
    MixIsBetween(t, y0, y1);
  }

  lemma MixIsBetween(t: real, y0: real, y1: real)
    requires 0.0 <= t <= 1.0
    ensures Between(Mix(y0, y1, t), y0, y1)
  {
    if y0 <= y1 {
      var rise := y1 - y0;
      ShareBounds(t, rise);
      assert y0 <= Mix(y0, y1, t) == y0 + t * rise <= y1;
    } else {
      ShareBounds(1.0 - t, y0 - y1);
      assert Mix(y0, y1, t) == y1 + (1.0 - t) * (y0 - y1);
    }
  }

  /** Knots left and left + 1 are the neighbours of x: those around it, or the first or the
      last two if x is no further in than the first or the last knot. */
  ghost predicate Neighbours(xs: seq<real>, x: real, left: nat) {
    left + 1 < |xs| &&
    if x <= xs[0] then left == 0
    else if x >= xs[|xs| - 1] then left == |xs| - 2
    else xs[left] <= x < xs[left + 1]
  }

  /** Interpolation never leaves the values at the two neighbours of x, whatever the knots. */
  lemma InterpOneIsBetween(x: real, xp: seq<real>, fp: seq<real>) returns (left: nat)
    requires |xp| == |fp| >= 2
    ensures Neighbours(xp, x, left)
    ensures Between(InterpOne(x, xp, fp), fp[left], fp[left + 1])
  {
    if x <= xp[0] {
      left := 0;
    } else if x >= xp[|xp| - 1] {
      left := |xp| - 2;
    } else {
      left := FirstAbove(xp, x) - 1;
      SegmentIsBetween(x, xp[left], xp[left + 1], fp[left], fp[left + 1]);
    }
  }
}
