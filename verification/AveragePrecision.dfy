/** Precision and recall curves of a class and the average precision computed from them. */
module AveragePrecision {
  import opened Evaluation

  // ----- the curves -----

  function Count(tp: seq<bool>): nat {
    if tp == [] then 0 else Count(tp[..|tp| - 1]) + if tp[|tp| - 1] then 1 else 0
  }

  /** True positives among the first i + 1 predictions. */
  function Tpc(tp: seq<bool>, i: nat): nat
    requires i < |tp|
  {
    Count(tp[..i + 1])
  }

  function Negate(tp: seq<bool>): (r: seq<bool>)
    ensures |r| == |tp|
  {
    seq(|tp|, i requires 0 <= i < |tp| => !tp[i])
  }

  /** False positives among the first i + 1 predictions. */
  function Fpc(tp: seq<bool>, i: nat): nat
    requires i < |tp|
  {
    Count(Negate(tp)[..i + 1])
  }

  const TINY := 0.0000000000000001

  function Recall(tp: seq<bool>, labels: nat): (r: seq<real>)
    requires labels > 0
    ensures |r| == |tp|
  {
    seq(|tp|, i requires 0 <= i < |tp| => Tpc(tp, i) as real / (labels as real + TINY))
  }

  function Precision(tp: seq<bool>): (p: seq<real>)
    ensures |p| == |tp|
  {
    seq(|tp|, i requires 0 <= i < |tp| =>
      PositivesAndNegatives(tp, i);
      Tpc(tp, i) as real / (Tpc(tp, i) + Fpc(tp, i)) as real)
  }

  lemma PositivesAndNegatives(tp: seq<bool>, i: nat)
    requires i < |tp|
    ensures Tpc(tp, i) + Fpc(tp, i) == i + 1
  {
    CountBoth(tp, i + 1);
  }

  lemma {:induction false} CountBoth(tp: seq<bool>, n: nat)
    requires n <= |tp|
    ensures Count(tp[..n]) + Count(Negate(tp)[..n]) == n
  {
    if n > 0 {
      CountBoth(tp, n - 1);
      assert tp[..n][..n - 1] == tp[..n - 1] && Negate(tp)[..n][..n - 1] == Negate(tp)[..n - 1];
    }
  }

  lemma {:induction false} CountGrows(tp: seq<bool>, i: nat, j: nat)
    requires i <= j <= |tp|
    ensures Count(tp[..i]) <= Count(tp[..j])
  {
    if i < j {
      CountGrows(tp, i, j - 1);
      assert tp[..j][..j - 1] == tp[..j - 1];
    }
  }

  lemma RatioInUnit(a: real, b: real, d: real)
    requires 0.0 <= a <= b && 0.0 < d && b <= d
    ensures 0.0 <= a / d <= b / d <= 1.0
  {
  }

  ghost predicate InUnit(s: seq<real>) {
    forall i :: 0 <= i < |s| ==> 0.0 <= s[i] <= 1.0
  }

  ghost predicate NonDecreasing(s: seq<real>) {
    forall i, j :: 0 <= i <= j < |s| ==> s[i] <= s[j]
  }

  ghost predicate NonIncreasing(s: seq<real>) {
    forall i, j :: 0 <= i <= j < |s| ==> s[i] >= s[j]
  }

  /** With no more true positives than labels, recall climbs from 0 and stays at most 1, and so does precision stay in range. */
  lemma CurvesBounded(tp: seq<bool>, labels: nat)
    requires labels > 0 && Count(tp) <= labels
    ensures NonDecreasing(Recall(tp, labels)) && InUnit(Recall(tp, labels)) && InUnit(Precision(tp))
  {
    var r, p, d := Recall(tp, labels), Precision(tp), labels as real + TINY;
    assert tp[..|tp|] == tp;
    forall i, j | 0 <= i <= j < |tp| ensures 0.0 <= r[i] <= r[j] <= 1.0 {
      CountGrows(tp, i + 1, j + 1);
      CountGrows(tp, j + 1, |tp|);
      RatioInUnit(Tpc(tp, i) as real, Tpc(tp, j) as real, d);
    }
    forall i | 0 <= i < |tp| ensures 0.0 <= p[i] <= 1.0 {
      PositivesAndNegatives(tp, i);
      var t := Tpc(tp, i) as real;
      RatioInUnit(t, t, (i + 1) as real);
    }
    assert forall i :: 0 <= i < |tp| ==> r[i] <= r[i];
  }

  /** Recall and precision after i + 1 predictions: the correct ones among them, relative to the labels and to the predictions. */
  lemma CurvePoints(tp: seq<bool>, labels: nat, i: nat)
    requires labels > 0 && i < |tp|
    ensures Recall(tp, labels)[i] * (labels as real + 0.0000000000000001) == multiset(tp[..i + 1])[true] as real
    ensures Precision(tp)[i] * (i + 1) as real == multiset(tp[..i + 1])[true] as real
  {
    CountIsMultiplicity(tp[..i + 1]);
    PositivesAndNegatives(tp, i);
    hide Count, Fpc;
    var n := Tpc(tp, i) as real;
    UndoDivision(n, labels as real + TINY);
    UndoDivision(n, (i + 1) as real);
  }

  lemma UndoDivision(a: real, d: real)
    requires d > 0.0
    ensures a / d * d == a
  {
  }

  /** Reordering the predictions does not change how many are correct. */
  lemma {:induction false} CountIsMultiplicity(tp: seq<bool>)
    ensures Count(tp) == multiset(tp)[true]
  {
    if tp != [] {
      CountIsMultiplicity(tp[..|tp| - 1]);
      assert tp == tp[..|tp| - 1] + [tp[|tp| - 1]];
    }
  }

  // ----- the curves of a dataset -----

  /** The table entries of one image for a class and a threshold. */
  function ImageHits(w: Problem, c: int, k: nat, n: nat): seq<bool>
    requires w.Valid() && k < |w.thresholds| && n <= |w.pred|
  {
    if n == 0 then []
    else
      var before := ImageHits(w, c, k, n - 1);
      if w.pred[n - 1] == c then before + [Correct(w, n - 1)[k]] else before
  }

  /** The table entries of a dataset, image after image. */
  function Hits(ws: seq<Problem>, c: int, k: nat): seq<bool>
    requires ValidSet(ws, k)
  {
    if ws == [] then []
    else Hits(ws[..|ws| - 1], c, k) + ImageHits(ws[|ws| - 1], c, k, |ws[|ws| - 1].pred|)
  }

  lemma {:induction false} CountConcat(a: seq<bool>, b: seq<bool>)
    ensures Count(a + b) == Count(a) + Count(b)
  {
    if b == [] {
      assert a + b == a;
    } else {
      CountConcat(a, b[..|b| - 1]);
      assert (a + b)[..|a + b| - 1] == a + b[..|b| - 1];
    }
  }

  lemma {:induction false} ImageHitsCount(w: Problem, c: int, k: nat, n: nat)
    requires w.Valid() && k < |w.thresholds| && n <= |w.pred|
    ensures Count(ImageHits(w, c, k, n)) == TruePositives(w, c, k, n)
  {
    hide Correct;
    if n > 0 {
      ImageHitsCount(w, c, k, n - 1);
      var before := ImageHits(w, c, k, n - 1);
      if w.pred[n - 1] == c { assert (before + [Correct(w, n - 1)[k]])[..|before|] == before; }
    }
  }

  lemma {:induction false} HitsCount(ws: seq<Problem>, c: int, k: nat)
    requires ValidSet(ws, k)
    ensures Count(Hits(ws, c, k)) == TotalPositives(ws, c, k)
  {
    if ws != [] {
      var w := ws[|ws| - 1];
      HitsCount(ws[..|ws| - 1], c, k);
      ImageHitsCount(w, c, k, |w.pred|);
      CountConcat(Hits(ws[..|ws| - 1], c, k), ImageHits(w, c, k, |w.pred|));
    }
  }

  /** The curves of every class of every dataset, in whatever order the scores put the predictions, are in range. */
  lemma DatasetCurves(ws: seq<Problem>, c: int, k: nat, tp: seq<bool>)
    requires ValidSet(ws, k) && multiset(tp) == multiset(Hits(ws, c, k)) && TotalLabels(ws, c) > 0
    ensures var labels := TotalLabels(ws, c);
            NonDecreasing(Recall(tp, labels)) && InUnit(Recall(tp, labels)) && InUnit(Precision(tp))
  {
    CountIsMultiplicity(tp);
    CountIsMultiplicity(Hits(ws, c, k));
    HitsCount(ws, c, k);
    TotalsBounded(ws, c, k);
    CurvesBounded(tp, TotalLabels(ws, c));
  }

  // ----- the precision envelope -----

  function Flip(m: seq<real>): (r: seq<real>)
    ensures |r| == |m| && forall i :: 0 <= i < |m| ==> r[i] == m[|m| - 1 - i]
  {
    seq(|m|, i requires 0 <= i < |m| => m[|m| - 1 - i])
  }

  /** np.maximum.accumulate: the running maximum. */
  function Accumulate(m: seq<real>): (r: seq<real>)
    ensures |r| == |m|
  {
    if m == [] then []
    else
      var before, x := Accumulate(m[..|m| - 1]), m[|m| - 1];
      before + [if before != [] && before[|before| - 1] > x then before[|before| - 1] else x]
  }

  function Envelope(m: seq<real>): (r: seq<real>)
    ensures |r| == |m|
  {
    Flip(Accumulate(Flip(m)))
  }

  /** The running maximum bounds everything seen so far and is one of the values seen. */
  lemma {:induction false} AccumulateIsMax(m: seq<real>, i: nat)
    requires i < |m|
    ensures forall j :: 0 <= j <= i ==> m[j] <= Accumulate(m)[i]
    ensures exists j :: 0 <= j <= i && m[j] == Accumulate(m)[i]
  {
    var n := |m| - 1;
    if i < n {
      AccumulateIsMax(m[..n], i);
      var j :| 0 <= j <= i && m[..n][j] == Accumulate(m[..n])[i];
      assert m[j] == Accumulate(m)[i];
      assert forall j :: 0 <= j <= i ==> m[j] == m[..n][j];
    } else if n > 0 {
      AccumulateIsMax(m[..n], n - 1);
      var j :| 0 <= j <= n - 1 && m[..n][j] == Accumulate(m[..n])[n - 1];
      assert forall j :: 0 <= j < n ==> m[j] == m[..n][j];
      assert m[j] == Accumulate(m)[i] || m[n] == Accumulate(m)[i];
    } else {
      assert m[0] == Accumulate(m)[0];
    }
  }

  /** Entry i of the envelope is the largest value from i on. */
  lemma EnvelopeIsMax(m: seq<real>, i: nat)
    requires i < |m|
    ensures forall j :: i <= j < |m| ==> m[j] <= Envelope(m)[i]
    ensures exists j :: i <= j < |m| && m[j] == Envelope(m)[i]
  {
    var f, k := Flip(m), |m| - 1 - i;
    AccumulateIsMax(f, k);
    forall j | i <= j < |m| ensures m[j] <= Envelope(m)[i] {
      assert m[j] == f[|m| - 1 - j];
    }
    var j :| 0 <= j <= k && f[j] == Accumulate(f)[k];
    assert m[|m| - 1 - j] == Envelope(m)[i];
  }

  ghost predicate Majorises(g: seq<real>, m: seq<real>) {
    |g| == |m| && forall i :: 0 <= i < |m| ==> m[i] <= g[i]
  }

  /** The envelope is the least non-increasing curve above the precision curve. */
  lemma EnvelopeIsLeast(m: seq<real>)
    ensures NonIncreasing(Envelope(m)) && Majorises(Envelope(m), m)
    ensures forall g: seq<real> :: NonIncreasing(g) && Majorises(g, m) ==> Majorises(g, Envelope(m))
  {
    hide Envelope;
    var e := Envelope(m);
    forall i, j | 0 <= i <= j < |m| ensures e[i] >= e[j] {
      EnvelopeIsMax(m, i);
      EnvelopeIsMax(m, j);
    }
    forall i | 0 <= i < |m| ensures m[i] <= e[i] { EnvelopeIsMax(m, i); }
    forall g: seq<real> | NonIncreasing(g) && Majorises(g, m) ensures Majorises(g, e) {
      forall i | 0 <= i < |m| ensures e[i] <= g[i] {
        EnvelopeIsMax(m, i);
        var j :| i <= j < |m| && m[j] == e[i];
        assert m[j] <= g[j] <= g[i];
      }
    }
  }

  // ----- interpolation and integration -----

  /** The last position below n whose abscissa does not exceed x; -1 if there is none. */
  function Locate(xp: seq<real>, x: real, n: nat): (j: int)
    requires n <= |xp|
    ensures -1 <= j < n && (j >= 0 ==> xp[j] <= x) && (forall i :: j < i < n ==> x < xp[i])
  {
    if n == 0 then -1 else if xp[n - 1] <= x then n - 1 else Locate(xp, x, n - 1)
  }

  /** np.interp. */
  function Interpolate(x: real, xp: seq<real>, fp: seq<real>): real
    requires |xp| == |fp| > 0
  {
    var j := Locate(xp, x, |xp|);
    if j == -1 then fp[0]
    else if j == |xp| - 1 then fp[j]
    else fp[j] + (fp[j + 1] - fp[j]) / (xp[j + 1] - xp[j]) * (x - xp[j])
  }

  lemma InterpolateInUnit(x: real, xp: seq<real>, fp: seq<real>)
    requires |xp| == |fp| > 0 && InUnit(fp)
    ensures 0.0 <= Interpolate(x, xp, fp) <= 1.0
  {
    var j := Locate(xp, x, |xp|);
    if 0 <= j < |xp| - 1 {
      Between(fp[j], fp[j + 1], xp[j + 1] - xp[j], x - xp[j]);
    }
  }

  /** A point on the segment from a to b lies between them. */
  lemma Between(a: real, b: real, d: real, t: real)
    requires 0.0 <= a <= 1.0 && 0.0 <= b <= 1.0 && 0.0 <= t <= d && d > 0.0
    ensures 0.0 <= a + (b - a) / d * t <= 1.0
  {
    var s := t / d;
    assert 0.0 <= s <= 1.0 by { RatioInUnit(t, d, d); }
    assert (b - a) / d * t == (b - a) * s;
    Convex(a, b, s);
  }

  lemma Convex(a: real, b: real, s: real)
    requires 0.0 <= a <= 1.0 && 0.0 <= b <= 1.0 && 0.0 <= s <= 1.0
    ensures 0.0 <= a + (b - a) * s <= 1.0
  {
    assert a + (b - a) * s == a * (1.0 - s) + b * s;
    assert 0.0 <= a * (1.0 - s) <= 1.0 - s by { Shrink(a, 1.0 - s); }
    assert 0.0 <= b * s <= s by { Shrink(b, s); }
  }

  lemma Shrink(a: real, s: real)
    requires 0.0 <= a <= 1.0 && 0.0 <= s
    ensures 0.0 <= a * s <= s
  {
  }

  /** np.trapz over the first n of the 100 equal steps of [0, 1]. */
  function Trapezoids(y: seq<real>, n: nat): real
    requires |y| == 101 && n <= 100
  {
    if n == 0 then 0.0 else Trapezoids(y, n - 1) + 0.01 * ((y[n - 1] + y[n]) / 2.0)
  }

  lemma {:induction false} TrapezoidsBounded(y: seq<real>, n: nat)
    requires |y| == 101 && n <= 100 && InUnit(y)
    ensures 0.0 <= Trapezoids(y, n) <= 0.01 * n as real
  {
    if n > 0 { TrapezoidsBounded(y, n - 1); }
  }

  /** compute_ap: sentinels, envelope, 101-point interpolation, area. */
  function ComputeAp(recall: seq<real>, precision: seq<real>): real
    requires |recall| == |precision| > 0
  {
    var mrec := [0.0] + recall + [recall[|recall| - 1] + 0.01];
    var mpre := Envelope([1.0] + precision + [0.0]);
    Trapezoids(seq(101, i => Interpolate(i as real / 100.0, mrec, mpre)), 100)
  }

  // ----- what the area is the area of -----

  /** The least non-increasing curve above m. */
  ghost predicate IsEnvelope(e: seq<real>, m: seq<real>) {
    NonIncreasing(e) && Majorises(e, m) && forall g: seq<real> :: NonIncreasing(g) && Majorises(g, m) ==> Majorises(g, e)
  }

  lemma EnvelopeUnique(e: seq<real>, m: seq<real>)
    requires IsEnvelope(e, m)
    ensures e == Envelope(m)
  {
    hide Envelope;
    EnvelopeIsLeast(m);
    assert Majorises(Envelope(m), e) && Majorises(e, Envelope(m));
  }

  /** Point j is the last one whose abscissa does not exceed x. */
  ghost predicate LastBefore(xp: seq<real>, x: real, j: int) {
    0 <= j < |xp| && xp[j] <= x && forall i :: j < i < |xp| ==> x < xp[i]
  }

  /** v is the height at x of the segment after point j, or of the last point. */
  ghost predicate OnSegment(xp: seq<real>, fp: seq<real>, x: real, v: real, j: int) {
    && |xp| == |fp| && LastBefore(xp, x, j)
    && if j == |xp| - 1 then v == fp[j] else (v - fp[j]) * (xp[j + 1] - xp[j]) == (fp[j + 1] - fp[j]) * (x - xp[j])
  }

  /** v is the height of the polyline through the points (xp[i], fp[i]) at x, which does not lie before the first point. */
  ghost predicate OnPolyline(xp: seq<real>, fp: seq<real>, x: real, v: real) {
    exists j :: OnSegment(xp, fp, x, v, j)
  }

  lemma InterpolateIs(xp: seq<real>, fp: seq<real>, x: real, v: real)
    requires |xp| == |fp| > 0 && OnPolyline(xp, fp, x, v)
    ensures v == Interpolate(x, xp, fp)
  {
    var j :| OnSegment(xp, fp, x, v, j);
    LastIsLocated(xp, x, j);
    if j < |xp| - 1 {
      SolveSlope(v, fp[j], fp[j + 1] - fp[j], xp[j + 1] - xp[j], x - xp[j]);
    }
  }

  lemma LastIsLocated(xp: seq<real>, x: real, j: int)
    requires LastBefore(xp, x, j)
    ensures Locate(xp, x, |xp|) == j
  {
    hide Locate;
  }

  lemma SolveSlope(v: real, a: real, rise: real, d: real, t: real)
    requires d > 0.0 && (v - a) * d == rise * t
    ensures v == a + rise / d * t
  {
    var q := rise / d;
    assert rise == q * d;
    assert q * d * t == q * t * d;
    assert (v - a - q * t) * d == 0.0;
  }

  function Total(y: seq<real>, n: nat): real
    requires n <= |y|
  {
    if n == 0 then 0.0 else Total(y, n - 1) + y[n - 1]
  }

  lemma {:induction false} TrapezoidsAre(y: seq<real>, n: nat)
    requires |y| == 101 && n <= 100
    ensures Trapezoids(y, n) == (Total(y, n + 1) - (y[0] + y[n]) / 2.0) / 100.0
  {
    if n == 0 {
      assert Total(y, 1) == Total(y, 0) + y[0];
    } else {
      TrapezoidsAre(y, n - 1);
    }
  }

  /**
   * Average precision is an area: for the heights y of the polyline through the recalls and the precision envelope, from
   * (0, 1) to the end point 1/100 beyond the last recall, at the 101 hundredths of [0, 1], it is their mean with the
   * two ends at half weight.
   */
  lemma ApIsArea(recall: seq<real>, precision: seq<real>, e: seq<real>, y: seq<real>)
    requires |recall| == |precision| > 0 && IsEnvelope(e, [1.0] + precision + [0.0]) && |y| == 101
    requires forall i :: 0 <= i <= 100 ==>
               OnPolyline([0.0] + recall + [recall[|recall| - 1] + 0.01], e, i as real / 100.0, y[i])
    ensures ComputeAp(recall, precision) == (Total(y, 101) - (y[0] + y[100]) / 2.0) / 100.0
  {
    hide Interpolate, Envelope, Trapezoids, Total, OnPolyline, IsEnvelope;
    var mrec := [0.0] + recall + [recall[|recall| - 1] + 0.01];
    EnvelopeUnique(e, [1.0] + precision + [0.0]);
    var z := seq(101, i => Interpolate(i as real / 100.0, mrec, e));
    forall i | 0 <= i <= 100 ensures y[i] == z[i] { InterpolateIs(mrec, e, i as real / 100.0, y[i]); }
    assert y == z;
    TrapezoidsAre(y, 100);
  }

  /** Heights 1 up to position m and 0 after it. */
  function Step(m: nat): (y: seq<real>)
    ensures |y| == 101
  {
    seq(101, i => if i <= m then 1.0 else 0.0)
  }

  lemma {:induction false} StepTotal(m: nat, n: nat)
    requires m <= 100 && n <= 101
    ensures Total(Step(m), n) == if n <= m then n as real else (m + 1) as real
  {
    if n > 0 { StepTotal(m, n - 1); }
  }

  /** Ones up to the last precision, and the final 0. */
  function Plateau(n: nat): (e: seq<real>)
    ensures |e| == n + 2
  {
    seq(n + 2, i => if i <= n then 1.0 else 0.0)
  }

  lemma PlateauIsEnvelope(precision: seq<real>)
    requires |precision| > 0 && InUnit(precision) && precision[|precision| - 1] == 1.0
    ensures IsEnvelope(Plateau(|precision|), [1.0] + precision + [0.0])
  {
    var e, m, n := Plateau(|precision|), [1.0] + precision + [0.0], |precision|;
    assert m[n] == 1.0;
    assert NonIncreasing(e) && Majorises(e, m);
    forall g: seq<real> | NonIncreasing(g) && Majorises(g, m) ensures Majorises(g, e) {
      forall i | 0 <= i < |e| ensures e[i] <= g[i] {
        if i <= n { assert g[i] >= g[n] >= m[n]; } else { assert g[i] >= m[i]; }
      }
    }
  }

  lemma StepOnPlateau(recall: seq<real>, m: nat, i: nat)
    requires |recall| > 0 && NonDecreasing(recall) && 0.0 <= recall[0] && recall[|recall| - 1] == m as real / 100.0
    requires m <= 99 && i <= 100
    ensures OnPolyline([0.0] + recall + [recall[|recall| - 1] + 0.01], Plateau(|recall|), i as real / 100.0, Step(m)[i])
  {
    var n, x := |recall|, i as real / 100.0;
    var xp, fp := [0.0] + recall + [recall[n - 1] + 0.01], Plateau(n);
    var j := Locate(xp, x, n + 2);
    assert xp[0] <= x && xp[n] == m as real / 100.0 && xp[n + 1] == (m + 1) as real / 100.0;
    assert LastBefore(xp, x, j);
    if i > m {
      assert xp[n + 1] <= x;
    } else if j < n {
      assert fp[j + 1] - fp[j] == 0.0 && Step(m)[i] - fp[j] == 0.0;
    } else {
      assert j == n && x - xp[j] == 0.0 && Step(m)[i] - fp[j] == 0.0;
    }
    assert OnSegment(xp, fp, x, Step(m)[i], j);
  }

  /**
   * The area of a known curve: when the last prediction has precision 1 and recall m / 100, dips in the precision before it
   * do not matter, and the average precision is that recall and half of the final step.
   */
  lemma KnownArea(recall: seq<real>, precision: seq<real>, m: nat)
    requires |recall| == |precision| > 0 && InUnit(precision) && precision[|precision| - 1] == 1.0
    requires NonDecreasing(recall) && 0.0 <= recall[0] && recall[|recall| - 1] == m as real / 100.0 && m <= 99
    ensures ComputeAp(recall, precision) == (m as real + 0.5) / 100.0
  {
    hide ComputeAp, IsEnvelope, OnPolyline, Total;
    PlateauIsEnvelope(precision);
    forall i | 0 <= i <= 100
      ensures OnPolyline([0.0] + recall + [recall[|recall| - 1] + 0.01], Plateau(|recall|), i as real / 100.0, Step(m)[i])
    {
      StepOnPlateau(recall, m, i);
    }
    ApIsArea(recall, precision, Plateau(|recall|), Step(m));
    StepTotal(m, 101);
  }

  lemma EnvelopeInUnit(m: seq<real>)
    requires InUnit(m)
    ensures InUnit(Envelope(m))
  {
    hide Envelope;
    forall i | 0 <= i < |m| ensures 0.0 <= Envelope(m)[i] <= 1.0 { EnvelopeIsMax(m, i); }
  }

  /** The average precision of curves that are in range lies between 0 and 1. */
  lemma ApInUnit(recall: seq<real>, precision: seq<real>)
    requires |recall| == |precision| > 0 && InUnit(precision)
    ensures 0.0 <= ComputeAp(recall, precision) <= 1.0
  {
    hide Interpolate, Envelope, Trapezoids;
    var mrec := [0.0] + recall + [recall[|recall| - 1] + 0.01];
    var raw := [1.0] + precision + [0.0];
    assert InUnit(raw);
    EnvelopeInUnit(raw);
    var y := seq(101, i => Interpolate(i as real / 100.0, mrec, Envelope(raw)));
    forall i | 0 <= i < 101 ensures 0.0 <= y[i] <= 1.0 { InterpolateInUnit(i as real / 100.0, mrec, Envelope(raw)); }
    TrapezoidsBounded(y, 100);
  }

  /** Hence the average precision of every class of every dataset is in range. */
  lemma DatasetApInUnit(ws: seq<Problem>, c: int, k: nat, tp: seq<bool>)
    requires ValidSet(ws, k) && multiset(tp) == multiset(Hits(ws, c, k)) && TotalLabels(ws, c) > 0 && |tp| > 0
    ensures 0.0 <= ComputeAp(Recall(tp, TotalLabels(ws, c)), Precision(tp)) <= 1.0
  {
    hide ComputeAp, Recall, Precision;
    DatasetCurves(ws, c, k, tp);
    ApInUnit(Recall(tp, TotalLabels(ws, c)), Precision(tp));
  }
}
