/**
 Gap repair of a radar channel and sanitation of the IMU channel, both in place. The
 specification says what each sample becomes in terms of the nearest valid samples.
 */
module MissingRepair {
  import opened Common
  import opened RealArithmetic

  datatype RadarRepairStats = RadarRepairStats(invalidValues: nat, allInvalid: bool)

  /** A usable radar value: finite and above zero. */
  predicate Valid(x: Reading) {
    x.Finite? && x.value > 0.0
  }

  function CountInvalid(c: seq<Reading>): nat {
    if |c| == 0 then 0
    else CountInvalid(c[..|c| - 1]) + if Valid(c[|c| - 1]) then 0 else 1
  }

  ghost predicate NoneValid(c: seq<Reading>) {
    forall i :: 0 <= i < |c| ==> !Valid(c[i])
  }

  /** The nearest valid index at or before i, or -1. */
  function PrevValid(c: seq<Reading>, i: nat): (p: int)
    requires i < |c|
    ensures -1 <= p <= i && (p >= 0 ==> Valid(c[p]))
    ensures forall j :: p < j <= i ==> !Valid(c[j])
  {
    if Valid(c[i]) then i else if i == 0 then -1 else PrevValid(c, i - 1)
  }

  /** The nearest valid index at or after i, or the length. */
  function NextValid(c: seq<Reading>, i: nat): (q: nat)
    requires i < |c|
    ensures i <= q <= |c| && (q < |c| ==> Valid(c[q]))
    ensures forall j :: i <= j < q ==> !Valid(c[j])
    decreases |c| - i
  {
    if Valid(c[i]) then i else if i + 1 == |c| then |c| else NextValid(c, i + 1)
  }

  /** The point at i on the line through (p, y0) and (q, y1). */
  function OnLine(p: int, q: int, i: int, y0: real, y1: real): real
    requires p < q
  {
    Mix(y0, y1, (i - p) as real / (q - p) as real)
  }

  /** What sample i becomes: itself if valid, otherwise the line between its valid
      neighbours, the one there is, or the sensor minimum if no sample is valid. */
  function RepairedAt(c: seq<Reading>, sensorMin: Reading, i: nat): Reading
    requires i < |c|
  {
    var p, q := PrevValid(c, i), NextValid(c, i);
    if p == -1 && q == |c| then sensorMin
    else if p == -1 then c[q]
    else if q == |c| then c[p]
    else if p == q then c[i]
    else Finite(OnLine(p, q, i, c[p].value, c[q].value))
  }

  function Repaired(c: seq<Reading>, sensorMin: Reading): (out: seq<Reading>)
    ensures |out| == |c|
  {
    seq(|c|, i requires 0 <= i < |c| => RepairedAt(c, sensorMin, i))
  }

  lemma PrevValidIs(c: seq<Reading>, i: nat, p: nat)
    requires p <= i < |c| && Valid(c[p]) && forall j :: p < j <= i ==> !Valid(c[j])
    ensures PrevValid(c, i) == p
  {
  }

  lemma NextValidIs(c: seq<Reading>, i: nat, q: nat)
    requires i <= q < |c| && Valid(c[q]) && forall j :: i <= j < q ==> !Valid(c[j])
    ensures NextValid(c, i) == q
  {
  }

  /** The first pass: every unusable value becomes NaN and is counted. */
  function Marked(c: seq<Reading>): (m: seq<Reading>)
    ensures |m| == |c|
  {
    seq(|c|, i requires 0 <= i < |c| => if Valid(c[i]) then c[i] else NaN)
  }

  method MarkInvalid(values: array<Reading>) returns (invalid: nat)
    modifies values
    ensures values[..] == Marked(old(values[..]))
    ensures invalid == CountInvalid(old(values[..]))
  {
    ghost var c := values[..];
    invalid := 0;
    for i := 0 to values.Length
      invariant forall j :: 0 <= j < i ==> values[j] == Marked(c)[j]
      invariant forall j :: i <= j < values.Length ==> values[j] == c[j]
      invariant invalid == CountInvalid(c[..i])
    {
      assert c[..i + 1][..i] == c[..i];
      if !values[i].Finite? || values[i].value <= 0.0 {
        values[i] := NaN;
        invalid := invalid + 1;
      }
    }
    assert c[..values.Length] == c;
    assert values[..] == Marked(c);
  }

  method FindFirstValid(values: array<Reading>, ghost c: seq<Reading>) returns (first: nat)
    requires values[..] == Marked(c)
    ensures first <= |c| && forall j :: 0 <= j < first ==> !Valid(c[j])
    ensures first < |c| ==> Valid(c[first])
  {
    first := values.Length;
    for i := 0 to values.Length
      invariant forall j :: 0 <= j < i ==> !Valid(c[j])
      invariant first == values.Length
    {
      assert values[..][i] == values[i];
      if !values[i].NaN? {
        first := i;
        break;
      }
    }
  }

  /** What is done and what is still as marked, around index `left`. */
  ghost predicate RepairedUpTo(values: array<Reading>, c: seq<Reading>, goal: seq<Reading>, left: nat)
    requires values.Length == |c| == |goal|
    reads values
  {
    && (forall i :: 0 <= i <= left && i < |c| ==> values[i] == goal[i])
    && (forall i :: left < i < |c| ==> values[i] == Marked(c)[i])
  }

  /** Hold the first valid value to the left. */
  method FillLeft(values: array<Reading>, first: nat, ghost c: seq<Reading>, ghost sensorMin: Reading)
    requires values[..] == Marked(c) && first < |c| && Valid(c[first])
    requires forall j :: 0 <= j < first ==> !Valid(c[j])
    modifies values
    ensures RepairedUpTo(values, c, Repaired(c, sensorMin), first)
  {
    assert forall j :: 0 <= j < |c| ==> values[..][j] == values[j];
    for i := 0 to first
      invariant forall j :: 0 <= j < i ==> values[j] == Repaired(c, sensorMin)[j]
      invariant forall j :: i <= j < |c| ==> values[j] == Marked(c)[j]
    {
      NextValidIs(c, i, first);
      values[i] := values[first];
    }
    PrevValidIs(c, first, first);
    NextValidIs(c, first, first);
  }

  /** Hold the last valid value to the right. */
  method FillRight(values: array<Reading>, left: nat, ghost c: seq<Reading>, ghost sensorMin: Reading)
    requires values.Length == |c| && left < |c| && Valid(c[left])
    requires forall j :: left < j < |c| ==> !Valid(c[j])
    requires RepairedUpTo(values, c, Repaired(c, sensorMin), left)
    modifies values
    ensures values[..] == Repaired(c, sensorMin)
  {
    PrevValidIs(c, left, left);
    NextValidIs(c, left, left);
    for i := left + 1 to values.Length
      invariant forall j :: 0 <= j < i ==> values[j] == Repaired(c, sensorMin)[j]
    {
      PrevValidIs(c, i, left);
      values[i] := values[left];
    }
    assert values[..] == Repaired(c, sensorMin);
  }

  /** Draw the line between two valid neighbours. */
  method FillGap(values: array<Reading>, left: nat, right: nat, ghost c: seq<Reading>, ghost sensorMin: Reading)
    requires values.Length == |c| && left < right < |c| && Valid(c[left]) && Valid(c[right])
    requires forall j :: left < j < right ==> !Valid(c[j])
    requires RepairedUpTo(values, c, Repaired(c, sensorMin), left)
    modifies values
    ensures RepairedUpTo(values, c, Repaired(c, sensorMin), right)
  {
    ValidIsKept(c, sensorMin, left);
    ValidIsKept(c, sensorMin, right);
    if right > left + 1 {
      var y0, y1 := values[left].value, values[right].value;
      var span := (right - left) as real;
      for i := left + 1 to right
        invariant forall j :: 0 <= j < i ==> values[j] == Repaired(c, sensorMin)[j]
        invariant forall j :: i <= j < |c| ==> values[j] == Marked(c)[j]
      {
        var alpha := (i - left) as real / span;
        var y := y0 + (y1 - y0) * alpha;
        assert y == Mix(y0, y1, alpha);
        values[i] := Finite(y);
        GapIsLine(c, sensorMin, left, i, right, y0, y1);
      }
    }
  }

  lemma ValidIsKept(c: seq<Reading>, sensorMin: Reading, i: nat)
    requires i < |c| && Valid(c[i])
    ensures Repaired(c, sensorMin)[i] == c[i] == Marked(c)[i]
  {
    PrevValidIs(c, i, i);
    NextValidIs(c, i, i);
  }

  lemma GapIsLine(c: seq<Reading>, sensorMin: Reading, left: nat, i: nat, right: nat, y0: real, y1: real)
    requires left < i < right < |c| && Valid(c[left]) && Valid(c[right])
    requires forall j :: left < j < right ==> !Valid(c[j])
    requires y0 == c[left].value && y1 == c[right].value
    ensures Repaired(c, sensorMin)[i] == Finite(OnLine(left, right, i, y0, y1))
  {
    PrevValidIs(c, i, left);
    NextValidIs(c, i, right);
  }

  /** repair_radar_channel. */
  method RepairRadarChannel(values: array<Reading>, sensorMin: Reading) returns (stats: RadarRepairStats)
    modifies values
    ensures values[..] == Repaired(old(values[..]), sensorMin)
    ensures stats.invalidValues == CountInvalid(old(values[..]))
    ensures stats.allInvalid <==> values.Length > 0 && NoneValid(old(values[..]))
  {
    ghost var c := values[..];
    var n := values.Length;
    if n == 0 {
      return RadarRepairStats(0, false);
    }
    var invalid := MarkInvalid(values);
    var firstValid := FindFirstValid(values, c);
    if firstValid == n {
      for i := 0 to n
        invariant forall j :: 0 <= j < i ==> values[j] == sensorMin
      {
        values[i] := sensorMin;
      }
      assert values[..] == Repaired(c, sensorMin);
      return RadarRepairStats(invalid, true);
    }
    FillLeft(values, firstValid, c, sensorMin);
    var left := firstValid;
    while left + 1 < n
      invariant left < n && Valid(c[left])
      invariant RepairedUpTo(values, c, Repaired(c, sensorMin), left)
      decreases n - left
    {
      var right := left + 1;
      while right < n && values[right].NaN?
        invariant left < right <= n
        invariant forall j :: left < j < right ==> !Valid(c[j])
      {
        right := right + 1;
      }
      if right == n {
        FillRight(values, left, c, sensorMin);
        return RadarRepairStats(invalid, false);
      }
      FillGap(values, left, right, c, sensorMin);
      left := right;
    }
    assert values[..] == Repaired(c, sensorMin);
    return RadarRepairStats(invalid, false);
  }

  // ----- the IMU channel -----

  function Sanitized(c: seq<Reading>): (out: seq<Reading>)
    ensures |out| == |c|
  {
    seq(|c|, i requires 0 <= i < |c| => if c[i].Finite? then c[i] else Finite(0.0))
  }

  function CountNonFinite(c: seq<Reading>): nat {
    if |c| == 0 then 0
    else CountNonFinite(c[..|c| - 1]) + if c[|c| - 1].Finite? then 0 else 1
  }

  method SanitizeImu(values: array<Reading>) returns (count: nat)
    modifies values
    ensures values[..] == Sanitized(old(values[..]))
    ensures count == CountNonFinite(old(values[..]))
  {
    ghost var c := values[..];
    count := 0;
    for i := 0 to values.Length
      invariant forall j :: 0 <= j < i ==> values[j] == Sanitized(c)[j]
      invariant forall j :: i <= j < values.Length ==> values[j] == c[j]
      invariant count == CountNonFinite(c[..i])
    {
      assert c[..i + 1][..i] == c[..i];
      if !values[i].Finite? {
        values[i] := Finite(0.0);
        count := count + 1;
      }
    }
    assert c[..values.Length] == c;
    assert values[..] == Sanitized(c);
  }
}
