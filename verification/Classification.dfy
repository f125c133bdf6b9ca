/**
 Softmax and classification over any number of classes. The exponential is a parameter: any
 positive, strictly increasing function that turns sums into products.
 */
module Classification {
  import opened Common
  import opened RealArithmetic

  type Exponential = real -> real

  ghost predicate SumLaw(e: Exponential, x: real, y: real) {
    e(x + y) == e(x) * e(y)
  }

  ghost predicate OrderLaw(e: Exponential, x: real, y: real) {
    x < y ==> e(x) < e(y)
  }

  ghost predicate IsExponential(e: Exponential) {
    && (forall x :: e(x) > 0.0)
    && (forall x, y :: OrderLaw(e, x, y))
    && (forall x, y :: SumLaw(e, x, y))
  }

  // ----- sums and maxima -----

  function Sum(s: seq<real>): real {
    if |s| == 0 then 0.0 else Sum(s[..|s| - 1]) + s[|s| - 1]
  }

  /** The index of the first largest element. */
  function ArgMax(s: seq<real>): (k: nat)
    requires |s| > 0
    ensures k < |s|
    ensures forall j :: 0 <= j < |s| ==> s[j] <= s[k]
    ensures forall j :: 0 <= j < k ==> s[j] < s[k]
  {
    if |s| == 1 then 0
    else
      var k := ArgMax(s[..|s| - 1]);
      if s[k] < s[|s| - 1] then |s| - 1 else k
  }

  lemma ArgMaxIsUnique(s: seq<real>, k: nat)
    requires k < |s|
    requires forall j :: 0 <= j < |s| ==> s[j] <= s[k]
    requires forall j :: 0 <= j < k ==> s[j] < s[k]
    ensures ArgMax(s) == k
  {
    var m := ArgMax(s);
    assert s[m] <= s[k] && s[k] <= s[m];
  }

  /** std::max_element: scan, keep the first largest. */
  method MaxElement(s: array<real>) returns (k: nat)
    requires s.Length > 0
    ensures k == ArgMax(s[..])
  {
    k := 0;
    for i := 1 to s.Length
      invariant k < i
      invariant forall j :: 0 <= j < i ==> s[j] <= s[k]
      invariant forall j :: 0 <= j < k ==> s[j] < s[k]
    {
      if s[k] < s[i] {
        k := i;
      }
    }
    ArgMaxIsUnique(s[..], k);
  }

  // ----- softmax -----

  /** Every logit shifted down by m, exponentiated. */
  function Weights(e: Exponential, logits: seq<real>, m: real): (w: seq<real>)
    ensures |w| == |logits|
  {
    seq(|logits|, i requires 0 <= i < |logits| => e(logits[i] - m))
  }

  function DividedBy(w: seq<real>, s: real): (p: seq<real>)
    ensures |p| == |w|
  {
    seq(|w|, i requires 0 <= i < |w| => if s > 0.0 then w[i] / s else w[i])
  }

  /** What Softmax::apply computes. */
  function Softmax(e: Exponential, logits: seq<real>): (p: seq<real>)
    requires |logits| > 0
    ensures |p| == |logits|
  {
    var w := Weights(e, logits, logits[ArgMax(logits)]);
    DividedBy(w, Sum(w))
  }

  lemma SumStep(w: seq<real>, i: nat)
    requires i < |w|
    ensures Sum(w[..i + 1]) == Sum(w[..i]) + w[i]
  {
    assert w[..i + 1][..i] == w[..i];
  }

  /** The first loop of the softmax: exponentiate and add up. */
  method Exponentiate(e: Exponential, logits: array<real>, m: real) returns (p: array<real>, s: real)
    ensures fresh(p) && p[..] == Weights(e, logits[..], m)
    ensures s == Sum(p[..])
  {
    var n := logits.Length;
    ghost var w := Weights(e, logits[..], m);
    p := new real[n](_ => 0.0);
    s := 0.0;
    for i := 0 to n
      invariant forall j :: 0 <= j < i ==> p[j] == w[j]
      invariant s == Sum(w[..i])
    {
      var x := e(logits[i] - m);
      assert x == w[i];
      SumStep(w, i);
      p[i] := x;
      s := s + x;
    }
    assert w[..n] == w;
    assert p[..] == w;
  }

  /** The second loop of the softmax: divide in place, unless the sum is not positive. */
  method Normalise(p: array<real>, s: real)
    modifies p
    ensures p[..] == DividedBy(old(p[..]), s)
  {
    ghost var w := p[..];
    if s > 0.0 {
      for i := 0 to p.Length
        invariant forall j :: 0 <= j < i ==> p[j] == w[j] / s
        invariant forall j :: i <= j < p.Length ==> p[j] == w[j]
      {
        p[i] := p[i] / s;
      }
    }
    assert p[..] == DividedBy(w, s);
  }

  method ApplySoftmax(e: Exponential, logits: array<real>) returns (p: array<real>)
    requires logits.Length > 0
    ensures fresh(p) && p[..] == Softmax(e, logits[..])
  {
    var top := MaxElement(logits);
    var s;
    p, s := Exponentiate(e, logits, logits[top]);
    Normalise(p, s);
  }

  lemma {:induction false} SumPositive(w: seq<real>)
    requires forall i :: 0 <= i < |w| ==> w[i] > 0.0
    ensures Sum(w) >= 0.0 && (|w| > 0 ==> Sum(w) > 0.0)
  {
    if |w| > 0 {
      SumPositive(w[..|w| - 1]);
    }
  }

  lemma WeightsSumPositive(e: Exponential, logits: seq<real>, m: real)
    requires IsExponential(e) && |logits| > 0
    ensures Sum(Weights(e, logits, m)) > 0.0
  {
    SumPositive(Weights(e, logits, m));
  }

  lemma {:induction false} SumDivided(w: seq<real>, s: real)
    requires s > 0.0
    ensures Sum(DividedBy(w, s)) == Sum(w) / s
  {
    if |w| > 0 {
      var init := w[..|w| - 1];
      SumDivided(init, s);
      assert DividedBy(w, s)[..|w| - 1] == DividedBy(init, s);
      SumOfQuotients(Sum(init), w[|w| - 1], s);
    }
  }

  lemma SumOfQuotients(a: real, b: real, s: real)
    requires s > 0.0
    ensures a / s + b / s == (a + b) / s
  {
    assert a / s * s == a && b / s * s == b;
    QuotientCompare(a + b, s, a / s + b / s);
  }

  /** The outputs are positive and sum to one. */
  lemma SoftmaxIsDistribution(e: Exponential, logits: seq<real>)
    requires IsExponential(e) && |logits| > 0
    ensures Sum(Softmax(e, logits)) == 1.0
    ensures forall i :: 0 <= i < |logits| ==> 0.0 < Softmax(e, logits)[i] <= 1.0
  {
    var w := Weights(e, logits, logits[ArgMax(logits)]);
    var s, p := Sum(w), Softmax(e, logits);
    WeightsSumPositive(e, logits, logits[ArgMax(logits)]);
    SumDivided(w, s);
    QuotientCompare(s, s, 1.0);
    forall i: nat | i < |logits| ensures 0.0 < p[i] <= 1.0 {
      TermAtMostSum(w, i);
      QuotientCompare(w[i], s, 1.0);
      QuotientCompare(w[i], s, 0.0);
    }
  }

  lemma {:induction false} TermAtMostSum(w: seq<real>, i: nat)
    requires i < |w| && forall j :: 0 <= j < |w| ==> w[j] > 0.0
    ensures w[i] <= Sum(w)
  {
    var init := w[..|w| - 1];
    SumPositive(init);
    if i < |w| - 1 {
      TermAtMostSum(init, i);
    }
  }

  // ----- the mathematical softmax -----

  /** e(l_i) over the sum of all e(l_j), without subtracting the maximum. */
  function PlainSoftmax(e: Exponential, logits: seq<real>): seq<real> {
    DividedBy(Weights(e, logits, 0.0), Sum(Weights(e, logits, 0.0)))
  }

  lemma {:induction false} SumScaled(w: seq<real>, v: seq<real>, k: real)
    requires |w| == |v| && forall i :: 0 <= i < |w| ==> v[i] == k * w[i]
    ensures Sum(v) == k * Sum(w)
  {
    if |w| > 0 {
      SumScaled(w[..|w| - 1], v[..|v| - 1], k);
    }
  }

  lemma QuotientOfScaled(k: real, a: real, s: real, a': real, s': real)
    requires k > 0.0 && s > 0.0 && a' == k * a && s' == k * s
    ensures s' > 0.0 && a' / s' == a / s
  {
    var q := a / s;
    ProductStrictlyMonotone(0.0, k, s);
    assert q * s' == k * (q * s);
    QuotientCompare(a', s', q);
  }

  lemma ScalingCancels(w: seq<real>, v: seq<real>, k: real, s: real, s': real)
    requires |w| == |v| && k > 0.0 && s > 0.0 && s' == k * s
    requires forall i :: 0 <= i < |w| ==> v[i] == k * w[i]
    ensures DividedBy(v, s') == DividedBy(w, s)
  {
    forall i: nat | i < |w| ensures s' > 0.0 && v[i] / s' == w[i] / s {
      QuotientOfScaled(k, w[i], s, v[i], s');
    }
  }

  lemma ScalingCancelsInSoftmax(w: seq<real>, v: seq<real>, k: real)
    requires |w| == |v| && k > 0.0 && Sum(w) > 0.0
    requires forall i :: 0 <= i < |w| ==> v[i] == k * w[i]
    ensures DividedBy(v, Sum(v)) == DividedBy(w, Sum(w))
  {
    SumScaled(w, v, k);
    ScalingCancels(w, v, k, Sum(w), Sum(v));
  }

  lemma WeightsScale(e: Exponential, logits: seq<real>, m: real, i: nat)
    requires IsExponential(e) && i < |logits|
    ensures Weights(e, logits, 0.0)[i] == e(m) * Weights(e, logits, m)[i]
  {
    assert SumLaw(e, m, logits[i] - m);
    assert m + (logits[i] - m) == logits[i] - 0.0;
  }

  /** Subtracting the maximum changes nothing: the result is the mathematical softmax. */
  lemma SoftmaxIsPlain(e: Exponential, logits: seq<real>)
    requires IsExponential(e) && |logits| > 0
    ensures Softmax(e, logits) == PlainSoftmax(e, logits)
  {
    var m := logits[ArgMax(logits)];
    var w, v := Weights(e, logits, m), Weights(e, logits, 0.0);
    forall i: nat | i < |logits| ensures v[i] == e(m) * w[i] {
      WeightsScale(e, logits, m, i);
    }
    WeightsSumPositive(e, logits, m);
    ScalingCancelsInSoftmax(w, v, e(m));
  }

  ghost predicate SumOfExponentials(e: Exponential, l: seq<real>, sum: real) {
    sum == Sum(seq(|l|, j requires 0 <= j < |l| => e(l[j])))
  }

  /** Each probability is the exponential of its own logit over the sum of all exponentials. */
  lemma SoftmaxIsShare(e: Exponential, l: seq<real>, sum: real, i: nat)
    requires IsExponential(e) && i < |l| && SumOfExponentials(e, l, sum)
    ensures sum > 0.0 && Softmax(e, l)[i] == e(l[i]) / sum
  {
    WeightsOfZero(e, l);
    SoftmaxIsPlain(e, l);
    WeightsSumPositive(e, l, 0.0);
  }

  lemma WeightsOfZero(e: Exponential, l: seq<real>)
    ensures Weights(e, l, 0.0) == seq(|l|, j requires 0 <= j < |l| => e(l[j]))
  {
    assert forall j :: 0 <= j < |l| ==> l[j] - 0.0 == l[j];
  }

  lemma SumOfFive(w: seq<real>)
    requires |w| == 5
    ensures Sum(w) == w[0] + w[1] + w[2] + w[3] + w[4]
  {
    SumStep(w, 0);
    SumStep(w, 1);
    SumStep(w, 2);
    SumStep(w, 3);
    SumStep(w, 4);
    assert w[..5] == w && w[..0] == [];
  }

  lemma SumOfFiveExponentials(e: Exponential, l: seq<real>)
    requires |l| == 5
    ensures SumOfExponentials(e, l, e(l[0]) + e(l[1]) + e(l[2]) + e(l[3]) + e(l[4]))
  {
    SumOfFive(seq(|l|, j requires 0 <= j < |l| => e(l[j])));
  }

  lemma SoftmaxOfFiveSumsToOne(e: Exponential, l: seq<real>)
    requires IsExponential(e) && |l| == 5
    ensures var p := Softmax(e, l); p[0] + p[1] + p[2] + p[3] + p[4] == 1.0
  {
    SoftmaxIsDistribution(e, l);
    SumOfFive(Softmax(e, l));
  }

  function Shifted(logits: seq<real>, c: real): seq<real> {
    seq(|logits|, i requires 0 <= i < |logits| => logits[i] + c)
  }

  /** Adding a constant to every logit changes nothing. */
  lemma SoftmaxIsShiftInvariant(e: Exponential, logits: seq<real>, c: real)
    requires |logits| > 0
    ensures Softmax(e, Shifted(logits, c)) == Softmax(e, logits)
  {
    var k, shifted := ArgMax(logits), Shifted(logits, c);
    ArgMaxIsUnique(shifted, k);
    forall i | 0 <= i < |logits|
      ensures Weights(e, shifted, shifted[k])[i] == Weights(e, logits, logits[k])[i]
    {
      assert shifted[i] - shifted[k] == logits[i] - logits[k];
    }
    assert Weights(e, shifted, shifted[k]) == Weights(e, logits, logits[k]);
  }

  /** Larger logits get larger probabilities, equal ones equal probabilities. */
  lemma SoftmaxKeepsOrder(e: Exponential, logits: seq<real>, i: nat, j: nat)
    requires IsExponential(e) && i < |logits| && j < |logits|
    ensures logits[i] < logits[j] <==> Softmax(e, logits)[i] < Softmax(e, logits)[j]
  {
    var m := logits[ArgMax(logits)];
    var w := Weights(e, logits, m);
    WeightsSumPositive(e, logits, m);
    assert OrderLaw(e, logits[i] - m, logits[j] - m) && OrderLaw(e, logits[j] - m, logits[i] - m);
    assert logits[i] < logits[j] <==> w[i] < w[j];
    QuotientsKeepOrder(w[i], w[j], Sum(w));
  }

  lemma QuotientsKeepOrder(a: real, b: real, s: real)
    requires s > 0.0
    ensures a / s < b / s <==> a < b
  {
    assert b / s * s == b;
    QuotientCompare(a, s, b / s);
  }

  /** The first largest probability belongs to the first largest logit. */
  lemma SoftmaxKeepsArgMax(e: Exponential, logits: seq<real>)
    requires IsExponential(e) && |logits| > 0
    ensures ArgMax(Softmax(e, logits)) == ArgMax(logits)
  {
    var k := ArgMax(logits);
    var p := Softmax(e, logits);
    forall j | 0 <= j < |logits| ensures p[j] <= p[k] && (j < k ==> p[j] < p[k]) {
      SoftmaxKeepsOrder(e, logits, k, j);
      SoftmaxKeepsOrder(e, logits, j, k);
    }
    ArgMaxIsUnique(p, k);
  }

  lemma {:induction false} SumAtMost(p: seq<real>, top: real)
    requires forall i :: 0 <= i < |p| ==> p[i] <= top
    ensures Sum(p) <= |p| as real * top
  {
    if |p| > 0 {
      SumAtMost(p[..|p| - 1], top);
      assert |p| as real * top == (|p| - 1) as real * top + top;
    }
  }

  lemma TopAtLeastMean(p: seq<real>)
    requires |p| > 0 && Sum(p) == 1.0
    ensures p[ArgMax(p)] >= 1.0 / |p| as real
  {
    SumAtMost(p, p[ArgMax(p)]);
    QuotientCompare(1.0, |p| as real, p[ArgMax(p)]);
  }

  // ----- the classifier -----

  /** What Classifier::classify makes of a result. */
  function Classified(e: Exponential, r: InferenceResult): InferenceResult
    requires |r.logits| > 0
  {
    var p := Softmax(e, r.logits);
    r.(probabilities := p, classId := ArgMax(p), confidence := p[ArgMax(p)])
  }

  method Classify(e: Exponential, r: InferenceResult) returns (out: InferenceResult)
    requires |r.logits| > 0
    ensures out == Classified(e, r)
  {
    var logits := new real[|r.logits|](i requires 0 <= i < |r.logits| => r.logits[i]);
    assert logits[..] == r.logits;
    var p := ApplySoftmax(e, logits);
    var top := MaxElement(p);
    out := r.(probabilities := p[..], classId := top, confidence := p[top]);
  }

  /** The class is that of the first largest logit; the confidence is its probability. */
  lemma ClassIsLargestLogit(e: Exponential, r: InferenceResult)
    requires IsExponential(e) && |r.logits| > 0
    ensures Classified(e, r).classId == ArgMax(r.logits)
    ensures Classified(e, r).probabilities == PlainSoftmax(e, r.logits)
    ensures Classified(e, r).confidence == PlainSoftmax(e, r.logits)[ArgMax(r.logits)]
    ensures Classified(e, r).windowId == r.windowId && Classified(e, r).logits == r.logits
  {
    SoftmaxKeepsArgMax(e, r.logits);
    SoftmaxIsPlain(e, r.logits);
  }

  /** The confidence is at least one over the number of classes. */
  lemma ConfidenceAtLeastUniform(e: Exponential, r: InferenceResult)
    requires IsExponential(e) && |r.logits| > 0
    ensures Classified(e, r).confidence >= 1.0 / |r.logits| as real
  {
    var p := Softmax(e, r.logits);
    SoftmaxIsDistribution(e, r.logits);
    TopAtLeastMean(p);
  }
}
