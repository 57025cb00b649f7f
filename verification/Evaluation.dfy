/** Matching predictions to labels for the evaluation of one image, and what the resulting table can contain. */
module Evaluation {

  /** One image: the class of every prediction (best first) and label, their overlaps, and the overlap thresholds. */
  datatype Problem = Problem(pred: seq<int>, truth: seq<int>, iou: seq<seq<real>>, thresholds: seq<real>) {
    predicate Valid() {
      && |iou| == |pred| && (forall p :: 0 <= p < |pred| ==> |iou[p]| == |truth|)
      && |thresholds| > 0 && (forall k :: 0 <= k < |thresholds| ==> thresholds[0] <= thresholds[k])
    }
  }

  // ----- the declarative meaning -----

  /** The label of the prediction's class with the largest overlap among the first n, the earliest on a tie; -1 if none. */
  function BestUpTo(w: Problem, p: nat, n: nat): (b: int)
    requires w.Valid() && p < |w.pred| && n <= |w.truth|
    ensures -1 <= b < n
    ensures b >= 0 ==> w.truth[b] == w.pred[p]
    ensures b == -1 ==> forall t :: 0 <= t < n ==> w.truth[t] != w.pred[p]
    ensures b >= 0 ==> forall t :: 0 <= t < n && w.truth[t] == w.pred[p] ==> w.iou[p][t] <= w.iou[p][b]
  {
    if n == 0 then -1
    else
      var b := BestUpTo(w, p, n - 1);
      if w.truth[n - 1] == w.pred[p] && (b == -1 || w.iou[p][n - 1] > w.iou[p][b]) then n - 1 else b
  }

  function Best(w: Problem, p: nat): (b: int)
    requires w.Valid() && p < |w.pred|
    ensures -1 <= b < |w.truth|
    ensures b >= 0 ==> w.truth[b] == w.pred[p]
  {
    BestUpTo(w, p, |w.truth|)
  }

  /** The prediction lays claim to its best label. */
  predicate Claims(w: Problem, p: nat)
    requires w.Valid() && p < |w.pred|
  {
    Best(w, p) >= 0 && w.iou[p][Best(w, p)] > w.thresholds[0]
  }

  /** The claim is the first on that label. */
  predicate Credited(w: Problem, p: nat)
    requires w.Valid() && p < |w.pred|
  {
    Claims(w, p) && forall q :: 0 <= q < p && Claims(w, q) ==> Best(w, q) != Best(w, p)
  }

  /** The row of the table for a prediction. */
  function Correct(w: Problem, p: nat): (row: seq<bool>)
    requires w.Valid() && p < |w.pred|
    ensures |row| == |w.thresholds|
  {
    seq(|w.thresholds|, k requires 0 <= k < |w.thresholds| =>
      Credited(w, p) && w.iou[p][Best(w, p)] > w.thresholds[k])
  }

  function Nothing(w: Problem): (row: seq<bool>)
    ensures |row| == |w.thresholds|
  {
    seq(|w.thresholds|, _ => false)
  }

  lemma UncreditedIsNothing(w: Problem, p: nat)
    requires w.Valid() && p < |w.pred| && !Credited(w, p)
    ensures Correct(w, p) == Nothing(w)
  {
  }

  /** Label t has the class of prediction p, no label of that class overlaps it more, and no earlier one as much. */
  predicate Favours(w: Problem, p: nat, t: int)
    requires w.Valid() && p < |w.pred|
  {
    && 0 <= t < |w.truth| && w.truth[t] == w.pred[p]
    && forall u :: 0 <= u < |w.truth| && w.truth[u] == w.pred[p] ==>
         w.iou[p][u] <= w.iou[p][t] && (u < t ==> w.iou[p][u] < w.iou[p][t])
  }

  lemma {:induction false} BestIsFirst(w: Problem, p: nat, n: nat, t: int)
    requires w.Valid() && p < |w.pred| && n <= |w.truth|
    ensures 0 <= t < BestUpTo(w, p, n) && w.truth[t] == w.pred[p] ==> w.iou[p][t] < w.iou[p][BestUpTo(w, p, n)]
  {
    if n > 0 { BestIsFirst(w, p, n - 1, t); }
  }

  lemma BestIsFavoured(w: Problem, p: nat, t: int)
    requires w.Valid() && p < |w.pred|
    ensures Favours(w, p, t) <==> t >= 0 && Best(w, p) == t
  {
    var b := Best(w, p);
    forall u ensures 0 <= u < b && w.truth[u] == w.pred[p] ==> w.iou[p][u] < w.iou[p][b] { BestIsFirst(w, p, |w.truth|, u); }
    hide BestUpTo;
  }

  lemma CorrectAt(w: Problem, p: nat, k: nat)
    requires w.Valid() && p < |w.pred| && k < |w.thresholds|
    ensures Correct(w, p)[k] <==> Credited(w, p) && w.iou[p][Best(w, p)] > w.thresholds[k]
  {
  }

  /**
   * A prediction is correct at threshold k exactly when the label it favours overlaps it by more than that threshold, and
   * no earlier prediction that favours the same label overlaps it by more than the lowest threshold.
   */
  lemma CorrectIs(w: Problem, p: nat, k: nat)
    requires w.Valid() && p < |w.pred| && k < |w.thresholds|
    ensures Correct(w, p)[k] <==>
            exists t :: Favours(w, p, t) && w.iou[p][t] > w.thresholds[k]
                        && forall q :: 0 <= q < p && Favours(w, q, t) ==> w.iou[q][t] <= w.thresholds[0]
  {
    CorrectAt(w, p, k);
    hide Favours, Best, Correct;
    forall q: int, t: int | 0 <= q < |w.pred| ensures Favours(w, q, t) <==> t >= 0 && Best(w, q) == t {
      BestIsFavoured(w, q, t);
    }
    if Credited(w, p) {
      assert Favours(w, p, Best(w, p));
    }
  }

  /** Raising the threshold can only take credit away. */
  lemma DownwardClosed(w: Problem, p: nat, k: nat, l: nat)
    requires w.Valid() && p < |w.pred| && k < |w.thresholds| && l < |w.thresholds|
    requires w.thresholds[l] <= w.thresholds[k] && Correct(w, p)[k]
    ensures Correct(w, p)[l]
  {
  }

  // ----- the loop -----

  /** The classes that occur among the labels, each once. */
  function Classes(truth: seq<int>): (cs: seq<int>)
    ensures forall i, j :: 0 <= i < j < |cs| ==> cs[i] != cs[j]
    ensures forall c :: c in cs <==> c in truth
  {
    if truth == [] then []
    else
      var before := Classes(truth[..|truth| - 1]);
      var c := truth[|truth| - 1];
      assert forall x :: x in truth <==> x in truth[..|truth| - 1] || x == c;
      if c in before then before else before + [c]
  }

  /** Targets credited so far: the best labels of the credited predictions below n of the classes in cs. */
  ghost predicate Found(w: Problem, cs: seq<int>, n: nat, t: int)
    requires w.Valid() && n <= |w.pred|
  {
    exists p :: 0 <= p < n && w.pred[p] in cs && Credited(w, p) && Best(w, p) == t
  }

  ghost predicate Distinct(xs: seq<int>) {
    forall i, j :: 0 <= i < j < |xs| ==> xs[i] != xs[j]
  }

  function Elements(xs: seq<int>): (s: set<int>)
    ensures forall x :: x in s <==> x in xs
  {
    if xs == [] then {}
    else
      assert forall x :: x in xs <==> x in xs[..|xs| - 1] || x == xs[|xs| - 1];
      Elements(xs[..|xs| - 1]) + {xs[|xs| - 1]}
  }

  lemma {:induction false} DistinctSize(xs: seq<int>)
    requires Distinct(xs)
    ensures |Elements(xs)| == |xs|
  {
    if xs != [] { DistinctSize(xs[..|xs| - 1]); }
  }

  function Below(n: nat): (s: set<int>)
    ensures |s| == n && forall x :: x in s <==> 0 <= x < n
  {
    if n == 0 then {} else Below(n - 1) + {n - 1}
  }

  lemma {:induction false} Smaller<T>(a: set<T>, b: set<T>)
    requires a <= b
    ensures |a| <= |b|
  {
    if a != {} {
      var x :| x in a;
      Smaller(a - {x}, b - {x});
    }
  }

  /** As many distinct labels as there are labels are all the labels. */
  lemma AllPresent(xs: seq<int>, n: nat, t: int)
    requires Distinct(xs) && |xs| == n && (forall x :: x in xs ==> 0 <= x < n) && 0 <= t < n
    ensures t in xs
  {
    if t !in xs {
      DistinctSize(xs);
      hide *;
      var e, others := Elements(xs), Below(n) - {t};
      assert forall x :: x in e ==> x in others;
      Smaller(e, others);
    }
  }

  /** Once every label is found, no later prediction of the class is credited. */
  lemma NothingLeft(w: Problem, c: int, n: nat, q: nat, detected: seq<int>)
    requires w.Valid() && n <= q < |w.pred| && w.pred[q] == c
    requires Distinct(detected) && |detected| == |w.truth|
    requires forall t :: t in detected ==> 0 <= t < |w.truth|
    requires forall t :: t in detected && w.truth[t] == c ==> Found(w, [c], n, t)
    ensures !Credited(w, q)
  {
    if Claims(w, q) {
      AllPresent(detected, |w.truth|, Best(w, q));
      var p :| 0 <= p < n && w.pred[p] in [c] && Credited(w, p) && Best(w, p) == Best(w, q);
    }
  }

  /** The body of the loop over classes, with the early exit once every label of the image is found. */
  method MatchClass(w: Problem, c: int, correct: seq<seq<bool>>, detected: seq<int>)
    returns (correct': seq<seq<bool>>, detected': seq<int>)
    requires w.Valid() && |correct| == |w.pred| && Distinct(detected)
    requires forall p :: 0 <= p < |w.pred| && w.pred[p] == c ==> correct[p] == Nothing(w)
    requires forall t :: t in detected ==> 0 <= t < |w.truth| && w.truth[t] != c
    ensures |correct'| == |w.pred| && Distinct(detected')
    ensures forall p :: 0 <= p < |w.pred| && w.pred[p] == c ==> correct'[p] == Correct(w, p)
    ensures forall p :: 0 <= p < |w.pred| && w.pred[p] != c ==> correct'[p] == correct[p]
    ensures forall t :: t in detected' ==> t in detected || (0 <= t < |w.truth| && w.truth[t] == c)
  {
    hide Credited, Correct, Claims;
    correct', detected' := correct, detected;
    var detectedSet: set<int> := {};
    for p := 0 to |w.pred|
      invariant |correct'| == |w.pred| && Distinct(detected')
      invariant forall q :: 0 <= q < p && w.pred[q] == c ==> correct'[q] == Correct(w, q)
      invariant forall q :: p <= q < |w.pred| && w.pred[q] == c ==> correct'[q] == Nothing(w)
      invariant forall q :: 0 <= q < |w.pred| && w.pred[q] != c ==> correct'[q] == correct[q]
      invariant forall t :: t in detectedSet <==> Found(w, [c], p, t)
      invariant forall t :: t in detectedSet ==> 0 <= t < |w.truth| && w.truth[t] == c
      invariant forall t :: t in detected' <==> t in detected || t in detectedSet
    {
      CreditIsNew(w, c, p, detectedSet);
      FoundStep(w, c, p);
      if w.pred[p] == c && Claims(w, p) && Best(w, p) !in detectedSet {
        var d := Best(w, p);
        ClaimsBest(w, p);
        detectedSet := detectedSet + {d};
        detected' := detected' + [d];
        correct' := correct'[p := Exceeds(w, p, d)];
        if |detected'| == |w.truth| {
          forall q | p + 1 <= q < |w.pred| && w.pred[q] == c ensures Correct(w, q) == Nothing(w) {
            NothingLeft(w, c, p + 1, q, detected');
            UncreditedIsNothing(w, q);
          }
          return;
        }
      } else if w.pred[p] == c {
        UncreditedIsNothing(w, p);
      }
    }
  }

  function Exceeds(w: Problem, p: nat, d: nat): (row: seq<bool>)
    requires w.Valid() && p < |w.pred| && d < |w.truth|
    ensures |row| == |w.thresholds|
  {
    seq(|w.thresholds|, k requires 0 <= k < |w.thresholds| => w.iou[p][d] > w.thresholds[k])
  }

  lemma ClaimsBest(w: Problem, p: nat)
    requires w.Valid() && p < |w.pred| && Claims(w, p)
    ensures 0 <= Best(w, p) && (Credited(w, p) ==> Correct(w, p) == Exceeds(w, p, Best(w, p)))
  {
  }

  /** A claim on a label that no credited prediction has taken yet is a credit, and the other way round. */
  lemma CreditIsNew(w: Problem, c: int, p: nat, found: set<int>)
    requires w.Valid() && p < |w.pred|
    requires forall t :: t in found <==> Found(w, [c], p, t)
    ensures w.pred[p] == c ==> (Credited(w, p) <==> Claims(w, p) && Best(w, p) !in found)
  {
    if w.pred[p] == c && Claims(w, p) && !Credited(w, p) {
      var q :| 0 <= q < p && Claims(w, q) && Best(w, q) == Best(w, p);
      FirstClaim(w, q);
    }
  }

  /** The earliest claim on a label is credited. */
  lemma {:induction false} FirstClaim(w: Problem, q: nat)
    requires w.Valid() && q < |w.pred| && Claims(w, q)
    ensures exists p :: 0 <= p <= q && w.pred[p] == w.pred[q] && Credited(w, p) && Best(w, p) == Best(w, q)
  {
    if !Credited(w, q) {
      var r :| 0 <= r < q && Claims(w, r) && Best(w, r) == Best(w, q);
      FirstClaim(w, r);
    }
  }

  lemma FoundStep(w: Problem, c: int, p: nat)
    requires w.Valid() && p < |w.pred|
    ensures forall t :: Found(w, [c], p + 1, t) <==>
              Found(w, [c], p, t) || (w.pred[p] == c && Credited(w, p) && Best(w, p) == t)
  {
    forall t ensures Found(w, [c], p + 1, t) <==>
              Found(w, [c], p, t) || (w.pred[p] == c && Credited(w, p) && Best(w, p) == t)
    {
      if Found(w, [c], p + 1, t) {
        var q :| 0 <= q < p + 1 && w.pred[q] in [c] && Credited(w, q) && Best(w, q) == t;
        if q < p { assert Found(w, [c], p, t); }
      }
    }
  }

  /** The evaluation loop over the classes of an image fills the table with the first claims, early exit or not. */
  method Match(w: Problem) returns (correct: seq<seq<bool>>)
    requires w.Valid()
    ensures |correct| == |w.pred|
    ensures forall p :: 0 <= p < |w.pred| ==> correct[p] == Correct(w, p)
  {
    correct := seq(|w.pred|, _ => Nothing(w));
    var detected: seq<int> := [];
    var cs := Classes(w.truth);
    if |w.truth| > 0 {
      for i := 0 to |cs|
        invariant |correct| == |w.pred| && Distinct(detected)
        invariant forall p :: 0 <= p < |w.pred| && w.pred[p] in cs[..i] ==> correct[p] == Correct(w, p)
        invariant forall p :: 0 <= p < |w.pred| && w.pred[p] !in cs[..i] ==> correct[p] == Nothing(w)
        invariant forall t :: t in detected ==> 0 <= t < |w.truth| && w.truth[t] in cs[..i]
      {
        hide Correct, Nothing;
        assert cs[..i + 1] == cs[..i] + [cs[i]];
        assert cs[i] !in cs[..i];
        correct, detected := MatchClass(w, cs[i], correct, detected);
      }
    }
    assert cs[..|cs|] == cs;
    forall p | 0 <= p < |w.pred| && w.pred[p] !in w.truth ensures Correct(w, p) == Nothing(w) {
      UncreditedIsNothing(w, p);
    }
  }

  // ----- counting -----

  /** Predictions below n of class c that are correct at threshold k. */
  function TruePositives(w: Problem, c: int, k: nat, n: nat): nat
    requires w.Valid() && k < |w.thresholds| && n <= |w.pred|
  {
    if n == 0 then 0
    else TruePositives(w, c, k, n - 1) + if w.pred[n - 1] == c && Correct(w, n - 1)[k] then 1 else 0
  }

  function Labels(w: Problem, c: int, n: nat): nat
    requires n <= |w.truth|
  {
    if n == 0 then 0 else Labels(w, c, n - 1) + if w.truth[n - 1] == c then 1 else 0
  }

  function LabelSet(w: Problem, c: int, n: nat): (s: set<int>)
    requires n <= |w.truth|
    ensures |s| == Labels(w, c, n)
    ensures forall t :: t in s <==> 0 <= t < n && w.truth[t] == c
  {
    if n == 0 then {}
    else
      var before := LabelSet(w, c, n - 1);
      if w.truth[n - 1] == c then before + {n - 1} else before
  }

  /** The labels that the true positives were credited with. */
  function CreditSet(w: Problem, c: int, k: nat, n: nat): set<int>
    requires w.Valid() && k < |w.thresholds| && n <= |w.pred|
  {
    if n == 0 then {}
    else
      var before := CreditSet(w, c, k, n - 1);
      if w.pred[n - 1] == c && Correct(w, n - 1)[k] then before + {Best(w, n - 1)} else before
  }

  /** One of the first n predictions lays claim to label t. */
  ghost predicate Taken(w: Problem, n: nat, t: int)
    requires w.Valid() && n <= |w.pred|
  {
    exists p :: 0 <= p < n && Claims(w, p) && Best(w, p) == t
  }

  lemma CreditIsUntaken(w: Problem, p: nat)
    requires w.Valid() && p < |w.pred| && Credited(w, p)
    ensures !Taken(w, p, Best(w, p)) && Taken(w, p + 1, Best(w, p)) && 0 <= Best(w, p)
  {
    hide Best;
  }

  lemma TakenGrows(w: Problem, n: nat, t: int)
    requires w.Valid() && n < |w.pred| && Taken(w, n, t)
    ensures Taken(w, n + 1, t)
  {
    hide Claims, Best;
  }

  /** No label is credited twice. */
  lemma {:induction false} CreditsAreDistinct(w: Problem, c: int, k: nat, n: nat)
    requires w.Valid() && k < |w.thresholds| && n <= |w.pred|
    ensures |CreditSet(w, c, k, n)| == TruePositives(w, c, k, n)
    ensures forall t :: t in CreditSet(w, c, k, n) ==> 0 <= t < |w.truth| && w.truth[t] == c
    ensures forall t :: t in CreditSet(w, c, k, n) ==> Taken(w, n, t)
  {
    if n > 0 {
      CreditsAreDistinct(w, c, k, n - 1);
      var before := CreditSet(w, c, k, n - 1);
      if w.pred[n - 1] == c && Correct(w, n - 1)[k] { CreditIsUntaken(w, n - 1); }
      hide Best, Taken, Correct;
      forall t | t in before ensures Taken(w, n, t) { TakenGrows(w, n - 1, t); }
    }
  }

  /** In one image, a class never has more true positives than labels. */
  lemma TruePositivesBounded(w: Problem, c: int, k: nat)
    requires w.Valid() && k < |w.thresholds|
    ensures TruePositives(w, c, k, |w.pred|) <= Labels(w, c, |w.truth|)
  {
    CreditsAreDistinct(w, c, k, |w.pred|);
    var credits, labels := CreditSet(w, c, k, |w.pred|), LabelSet(w, c, |w.truth|);
    assert forall t :: t in credits ==> t in labels;
    Smaller(credits, labels);
  }

  // ----- a whole dataset -----

  ghost predicate ValidSet(ws: seq<Problem>, k: nat) {
    forall i :: 0 <= i < |ws| ==> ws[i].Valid() && k < |ws[i].thresholds|
  }

  function TotalPositives(ws: seq<Problem>, c: int, k: nat): nat
    requires ValidSet(ws, k)
  {
    if ws == [] then 0
    else TotalPositives(ws[..|ws| - 1], c, k) + TruePositives(ws[|ws| - 1], c, k, |ws[|ws| - 1].pred|)
  }

  function TotalLabels(ws: seq<Problem>, c: int): nat {
    if ws == [] then 0 else TotalLabels(ws[..|ws| - 1], c) + Labels(ws[|ws| - 1], c, |ws[|ws| - 1].truth|)
  }

  lemma {:induction false} TotalsBounded(ws: seq<Problem>, c: int, k: nat)
    requires ValidSet(ws, k)
    ensures TotalPositives(ws, c, k) <= TotalLabels(ws, c)
  {
    if ws != [] {
      TotalsBounded(ws[..|ws| - 1], c, k);
      TruePositivesBounded(ws[|ws| - 1], c, k);
    }
  }
}
