/** What gap repair keeps, and its equality with the numpy reference. */
module MissingRepairLaws {
  import opened Common
  import opened RealArithmetic
  import opened Interpolation
  import opened MissingRepair

  // ----- values -----

  lemma ValidUntouched(c: seq<Reading>, sensorMin: Reading, i: nat)
    requires i < |c| && Valid(c[i])
    ensures Repaired(c, sensorMin)[i] == c[i]
  {
  }

  lemma OnLineIsBetween(p: int, q: int, i: int, y0: real, y1: real)
    requires p <= i <= q && p < q
    ensures Between(OnLine(p, q, i, y0, y1), y0, y1)
  {
    var t := (i - p) as real / (q - p) as real;
    QuotientInUnit((i - p) as real, (q - p) as real);
    MixIsBetween(t, y0, y1);
  }

  /** A gap is filled between its valid neighbours; an edge holds the nearest valid value; a
      channel without a valid value becomes the sensor minimum throughout. */
  lemma FilledValues(c: seq<Reading>, sensorMin: Reading, i: nat)
    requires i < |c| && !Valid(c[i])
    ensures var p, q, y := PrevValid(c, i), NextValid(c, i), Repaired(c, sensorMin)[i];
      && (p >= 0 && q < |c| ==> p < i < q && Valid(y) && Between(y.value, c[p].value, c[q].value))
      && (p >= 0 && q == |c| ==> y == c[p])
      && (p == -1 && q < |c| ==> y == c[q])
      && (p == -1 && q == |c| ==> y == sensorMin && NoneValid(c))
  {
    var p, q := PrevValid(c, i), NextValid(c, i);
    if p >= 0 && q < |c| {
      OnLineIsBetween(p, q, i, c[p].value, c[q].value);
    }
    if p == -1 && q == |c| {
      forall j | 0 <= j < |c| ensures !Valid(c[j]) {
        assert j <= i || i <= j;
      }
    }
  }

  /** Unless no sample was valid, every sample is valid afterwards. */
  lemma AllValidAfterwards(c: seq<Reading>, sensorMin: Reading, i: nat)
    requires i < |c|
    ensures !NoneValid(c) ==> Valid(Repaired(c, sensorMin)[i])
    ensures NoneValid(c) ==> Repaired(c, sensorMin)[i] == sensorMin
  {
    if !Valid(c[i]) {
      FilledValues(c, sensorMin, i);
    }
  }

  lemma AllFiniteAfterwards(c: seq<Reading>, sensorMin: Reading, i: nat)
    requires i < |c| && sensorMin.Finite?
    ensures Repaired(c, sensorMin)[i].Finite?
  {
    AllValidAfterwards(c, sensorMin, i);
  }

  /** A second pass changes nothing. */
  lemma RepairIsIdempotent(c: seq<Reading>, sensorMin: Reading)
    ensures Repaired(Repaired(c, sensorMin), sensorMin) == Repaired(c, sensorMin)
  {
    var once := Repaired(c, sensorMin);
    forall i: nat | i < |c| ensures Repaired(once, sensorMin)[i] == once[i] {
      forall j: nat | j < |c| ensures if NoneValid(c) then once[j] == sensorMin else Valid(once[j]) {
        AllValidAfterwards(c, sensorMin, j);
      }
      if Valid(once[i]) {
        ValidUntouched(once, sensorMin, i);
      } else {
        FilledValues(once, sensorMin, i);
      }
    }
  }

  // ----- what counts as missing -----

  /** A reading that is finite and above zero stays as it is. */
  lemma PositiveStays(c: seq<Reading>, sensorMin: Reading, i: nat)
    requires i < |c| && c[i].Finite? && c[i].value > 0.0
    ensures Repaired(c, sensorMin)[i] == c[i]
  {
  }

  /** If any reading is finite and above zero, all are afterwards; otherwise all become the
      sensor minimum. So a zero, a negative, an infinite or a NaN reading is always replaced. */
  lemma PositiveAfterwards(c: seq<Reading>, sensorMin: Reading, i: nat)
    requires i < |c|
    ensures (exists j :: 0 <= j < |c| && c[j].Finite? && c[j].value > 0.0) ==>
      Repaired(c, sensorMin)[i].Finite? && Repaired(c, sensorMin)[i].value > 0.0
    ensures (forall j :: 0 <= j < |c| ==> !c[j].Finite? || c[j].value <= 0.0) ==>
      Repaired(c, sensorMin)[i] == sensorMin
  {
    AllValidAfterwards(c, sensorMin, i);
    if j :| 0 <= j < |c| && c[j].Finite? && c[j].value > 0.0 {
      assert Valid(c[j]);
    }
  }

  ghost function InvalidIndices(c: seq<Reading>): set<int> {
    set i | 0 <= i < |c| && (!c[i].Finite? || c[i].value <= 0.0)
  }

  ghost function NonFiniteIndices(c: seq<Reading>): set<int> {
    set i | 0 <= i < |c| && !c[i].Finite?
  }

  /** The count is the number of readings that are not finite or not above zero. */
  lemma {:induction false} CountInvalidIsCardinality(c: seq<Reading>)
    ensures CountInvalid(c) == |InvalidIndices(c)|
  {
    if |c| > 0 {
      var last := |c| - 1;
      CountInvalidIsCardinality(c[..last]);
      assert InvalidIndices(c) ==
        InvalidIndices(c[..last]) + if !c[last].Finite? || c[last].value <= 0.0 then {last} else {};
    } else {
      assert InvalidIndices(c) == {};
    }
  }

  lemma {:induction false} CountNonFiniteIsCardinality(c: seq<Reading>)
    ensures CountNonFinite(c) == |NonFiniteIndices(c)|
  {
    if |c| > 0 {
      var last := |c| - 1;
      CountNonFiniteIsCardinality(c[..last]);
      assert NonFiniteIndices(c) == NonFiniteIndices(c[..last]) + if !c[last].Finite? then {last} else {};
    } else {
      assert NonFiniteIndices(c) == {};
    }
  }

  // ----- reversal -----

  lemma NeighboursSwap(c: seq<Reading>, i: nat)
    requires i < |c|
    ensures PrevValid(Reversed(c), i) == |c| - 1 - NextValid(c, |c| - 1 - i)
  {
    var n, r := |c|, Reversed(c);
    var q := NextValid(c, n - 1 - i);
    var p := n - 1 - q;
    forall j | p < j <= i ensures !Valid(r[j]) {
      assert r[j] == c[n - 1 - j];
    }
    if p >= 0 {
      PrevValidIs(r, i, p);
    }
  }

  lemma ReversedTwice<T>(s: seq<T>)
    ensures Reversed(Reversed(s)) == s
  {
  }

  lemma OnLineSwapped(p: int, q: int, i: int, y0: real, y1: real)
    requires p < q
    ensures OnLine(-q, -p, -i, y1, y0) == OnLine(p, q, i, y0, y1)
  {
    var d := (q - p) as real;
    var s, t := (i - p) as real / d, (q - i) as real / d;
    assert s + t == 1.0 by {
      assert s * d == (i - p) as real && t * d == (q - i) as real;
      assert (s + t) * d == s * d + t * d;
      QuotientCompare(d, d, s + t);
    }
    assert OnLine(p, q, i, y0, y1) == y0 + (y1 - y0) * s;
    assert OnLine(-q, -p, -i, y1, y0) == y1 + (y0 - y1) * t;
    assert (y0 - y1) * t == (y0 - y1) * (1.0 - s);
  }

  lemma OnLineShifted(p: int, q: int, i: int, d: int, y0: real, y1: real)
    requires p < q
    ensures OnLine(p + d, q + d, i + d, y0, y1) == OnLine(p, q, i, y0, y1)
  {
  }

  lemma LineReversed(n: nat, p: nat, q: nat, m: nat, y0: real, y1: real)
    requires p <= m <= q < n && p < q
    ensures OnLine(n - 1 - q, n - 1 - p, n - 1 - m, y1, y0) == OnLine(p, q, m, y0, y1)
  {
    OnLineSwapped(p, q, m, y0, y1);
    var a: int, b: int, e: int := 0 - q, 0 - p, 0 - m;
    OnLineShifted(a, b, e, n - 1, y1, y0);
  }

  lemma BothNeighboursSwap(c: seq<Reading>, i: nat, m: nat)
    requires i < |c| && m == |c| - 1 - i
    ensures PrevValid(Reversed(c), i) == |c| - 1 - NextValid(c, m)
    ensures NextValid(Reversed(c), i) == |c| - 1 - PrevValid(c, m)
  {
    NeighboursSwap(c, i);
    NeighboursSwap(Reversed(c), m);
    ReversedTwice(c);
  }

  lemma RepairedAtReversed(c: seq<Reading>, sensorMin: Reading, i: nat)
    requires i < |c|
    ensures RepairedAt(Reversed(c), sensorMin, i) == RepairedAt(c, sensorMin, |c| - 1 - i)
  {
    var m := |c| - 1 - i;
    var p, q := PrevValid(c, m), NextValid(c, m);
    assert PrevValid(Reversed(c), i) == |c| - 1 - q && NextValid(Reversed(c), i) == |c| - 1 - p by {
      BothNeighboursSwap(c, i, m);
    }
    if p >= 0 && q < |c| && p < q {
      assert Reversed(c)[|c| - 1 - p] == c[p] && Reversed(c)[|c| - 1 - q] == c[q];
      LineReversed(|c|, p, q, m, c[p].value, c[q].value);
    }
  }

  /** Repairing a reversed channel gives the reversed result. */
  lemma RepairCommutesWithReversal(c: seq<Reading>, sensorMin: Reading)
    ensures Repaired(Reversed(c), sensorMin) == Reversed(Repaired(c, sensorMin))
  {
    var left, right := Repaired(Reversed(c), sensorMin), Reversed(Repaired(c, sensorMin));
    forall i: nat | i < |c| ensures left[i] == right[i] {
      RepairedAtReversed(c, sensorMin, i);
    }
  }

  // ----- the numpy reference -----

  /** The reference's mask: not finite, or not above zero. */
  predicate NpMissing(x: Reading) {
    !x.Finite? || x.value <= 0.0
  }

  /** idx[~mask]: the unmasked indices below n, in order. */
  function UnmaskedIndices(c: seq<Reading>, n: nat): (idx: seq<nat>)
    requires n <= |c|
    ensures forall k :: 0 <= k < |idx| ==> idx[k] < n && !NpMissing(c[idx[k]])
    ensures forall j, k :: 0 <= j < k < |idx| ==> idx[j] < idx[k]
  {
    if n == 0 then []
    else UnmaskedIndices(c, n - 1) + if NpMissing(c[n - 1]) then [] else [n - 1]
  }

  lemma IndicesOrdered(idx: seq<nat>, j: nat, k: nat)
    requires forall j, k :: 0 <= j < k < |idx| ==> idx[j] < idx[k]
    requires j <= k < |idx|
    ensures idx[j] <= idx[k]
  {
  }

  lemma {:induction false} NothingListed(c: seq<Reading>, n: nat)
    requires n <= |c| && NoneValid(c)
    ensures UnmaskedIndices(c, n) == []
  {
    if n > 0 {
      NothingListed(c, n - 1);
    }
  }

  lemma {:induction false} UnmaskedIndexListed(c: seq<Reading>, n: nat, i: nat) returns (k: nat)
    requires i < n <= |c| && Valid(c[i])
    ensures k < |UnmaskedIndices(c, n)| && UnmaskedIndices(c, n)[k] == i
  {
    if i == n - 1 {
      k := |UnmaskedIndices(c, n - 1)|;
    } else {
      k := UnmaskedIndexListed(c, n - 1, i);
    }
  }

  function Places(idx: seq<nat>): seq<real> {
    seq(|idx|, k requires 0 <= k < |idx| => idx[k] as real)
  }

  function ValuesAt(c: seq<Reading>, idx: seq<nat>): seq<real>
    requires forall k :: 0 <= k < |idx| ==> idx[k] < |c| && !NpMissing(c[idx[k]])
  {
    seq(|idx|, k requires 0 <= k < |idx| =>
      assert !NpMissing(c[idx[k]]);
      c[idx[k]].value)
  }

  /** col[mask] = np.interp(idx[mask], idx[~mask], col[~mask]), or the sensor minimum. */
  function NpRepairedAt(c: seq<Reading>, sensorMin: Reading, i: nat): Reading
    requires i < |c|
  {
    var idx := UnmaskedIndices(c, |c|);
    if |idx| == 0 then sensorMin
    else if !NpMissing(c[i]) then c[i]
    else Finite(NpInterp(i as real, Places(idx), ValuesAt(c, idx)))
  }

  function NpRepaired(c: seq<Reading>, sensorMin: Reading): seq<Reading> {
    seq(|c|, i requires 0 <= i < |c| => NpRepairedAt(c, sensorMin, i))
  }

  lemma PlacesIncrease(idx: seq<nat>)
    requires forall j, k :: 0 <= j < k < |idx| ==> idx[j] < idx[k]
    ensures NonDecreasing(Places(idx))
  {
  }

  lemma SegmentIsOnLine(p: int, q: int, i: int, y0: real, y1: real)
    requires p < q
    ensures Segment(i as real, p as real, q as real, y0, y1) == OnLine(p, q, i, y0, y1)
  {
    assert i as real - p as real == (i - p) as real && q as real - p as real == (q - p) as real;
  }

  lemma NpAtListed(c: seq<Reading>, idx: seq<nat>, i: nat, k: nat)
    requires forall k :: 0 <= k < |idx| ==> idx[k] < |c| && !NpMissing(c[idx[k]])
    requires forall j, k :: 0 <= j < k < |idx| ==> idx[j] < idx[k]
    requires k + 1 < |idx| && idx[k] < i < idx[k + 1]
    ensures NpInterp(i as real, Places(idx), ValuesAt(c, idx))
         == Segment(i as real, idx[k] as real, idx[k + 1] as real, c[idx[k]].value, c[idx[k + 1]].value)
  {
    PlacesIncrease(idx);
    NpInterpInSegment(i as real, Places(idx), ValuesAt(c, idx), k);
  }

  /** Two valid neighbours stand side by side in the list. */
  lemma GapIsListed(c: seq<Reading>, i: nat, p: nat, q: nat) returns (k: nat)
    requires p < i < q < |c| && p == PrevValid(c, i) && q == NextValid(c, i)
    ensures var idx := UnmaskedIndices(c, |c|);
      k + 1 < |idx| && idx[k] == p && idx[k + 1] == q
  {
    var idx := UnmaskedIndices(c, |c|);
    k := UnmaskedIndexListed(c, |c|, p);
    var m := UnmaskedIndexListed(c, |c|, q);
    assert k < m;
    IndicesOrdered(idx, k + 1, m);
    assert idx[k] < idx[k + 1] && Valid(c[idx[k + 1]]);
  }

  /** Between two valid neighbours, numpy picks exactly their segment. */
  lemma NpInGap(c: seq<Reading>, i: nat, p: nat, q: nat)
    requires p < i < q < |c| && p == PrevValid(c, i) && q == NextValid(c, i)
    ensures var idx := UnmaskedIndices(c, |c|);
      |idx| > 0 && NpInterp(i as real, Places(idx), ValuesAt(c, idx)) == OnLine(p, q, i, c[p].value, c[q].value)
  {
    var k := GapIsListed(c, i, p, q);
    NpAtListed(c, UnmaskedIndices(c, |c|), i, k);
    SegmentIsOnLine(p, q, i, c[p].value, c[q].value);
  }

  /** Left of every valid sample, numpy holds the first valid value. */
  lemma NpAtLeftEdge(c: seq<Reading>, i: nat, q: nat)
    requires i < q < |c| && PrevValid(c, i) == -1 && q == NextValid(c, i)
    ensures var idx := UnmaskedIndices(c, |c|);
      |idx| > 0 && NpInterp(i as real, Places(idx), ValuesAt(c, idx)) == c[q].value
  {
    var idx := UnmaskedIndices(c, |c|);
    var m := UnmaskedIndexListed(c, |c|, q);
    assert idx[0] == q by {
      IndicesOrdered(idx, 0, m);
      assert Valid(c[idx[0]]);
    }
  }

  /** Right of every valid sample, numpy holds the last valid value. */
  lemma NpAtRightEdge(c: seq<Reading>, i: nat, p: nat)
    requires p < i < |c| && p == PrevValid(c, i) && NextValid(c, i) == |c|
    ensures var idx := UnmaskedIndices(c, |c|);
      |idx| > 0 && NpInterp(i as real, Places(idx), ValuesAt(c, idx)) == c[p].value
  {
    var idx := UnmaskedIndices(c, |c|);
    var k := UnmaskedIndexListed(c, |c|, p);
    var last := |idx| - 1;
    assert idx[last] == p by {
      IndicesOrdered(idx, k, last);
      assert Valid(c[idx[last]]);
    }
    PlacesIncrease(idx);
    assert Places(idx)[0] <= Places(idx)[last] < i as real;
    assert LastAtMost(Places(idx), i as real) == last;
  }

  /** The in-place repair is the reference: the same mask, the same interpolation, the same
      fill value, at every sample of every channel. */
  lemma RepairedIsNumpy(c: seq<Reading>, sensorMin: Reading)
    ensures Repaired(c, sensorMin) == NpRepaired(c, sensorMin)
  {
    forall i: nat | i < |c| ensures RepairedAt(c, sensorMin, i) == NpRepairedAt(c, sensorMin, i) {
      var p, q := PrevValid(c, i), NextValid(c, i);
      if Valid(c[i]) {
        var k := UnmaskedIndexListed(c, |c|, i);
      } else if p == -1 && q == |c| {
        FilledValues(c, sensorMin, i);
        NothingListed(c, |c|);
      } else if p == -1 {
        NpAtLeftEdge(c, i, q);
      } else if q == |c| {
        NpAtRightEdge(c, i, p);
      } else {
        NpInGap(c, i, p, q);
      }
    }
  }
}
