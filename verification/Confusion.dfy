/** The confusion matrix: one-to-one matching of detections to labels, and what a batch adds to the matrix. */
module Confusion {
  import opened Sorting

  /** A label index, a detection index and their overlap. */
  datatype Match = Match(l: nat, d: nat, iou: real)

  /** A detection: confidence, class, and its overlap with every label. */
  datatype Detection = Detection(conf: real, cls: nat, overlap: seq<real>)

  // ----- the matching -----

  /** Pairs of the first n labels of detection j whose overlap exceeds the threshold. */
  function PairsOf(det: Detection, j: nat, thres: real, n: nat): seq<Match>
    requires n <= |det.overlap|
  {
    if n == 0 then []
    else
      var before := PairsOf(det, j, thres, n - 1);
      if det.overlap[n - 1] > thres then before + [Match(n - 1, j, det.overlap[n - 1])] else before
  }

  predicate ValidBatch(dets: seq<Detection>, labels: nat) {
    forall j :: 0 <= j < |dets| ==> |dets[j].overlap| == labels
  }

  function Pairs(dets: seq<Detection>, labels: nat, thres: real, m: nat): seq<Match>
    requires m <= |dets| && ValidBatch(dets, labels)
  {
    if m == 0 then [] else Pairs(dets, labels, thres, m - 1) + PairsOf(dets[m - 1], m - 1, thres, labels)
  }

  /** The overlap recorded in x is that of the detection with label x.l, and exceeds the threshold. */
  predicate Exceeds(det: Detection, thres: real, x: Match) {
    x.l < |det.overlap| && x.iou == det.overlap[x.l] && x.iou > thres
  }

  lemma {:induction false} PairsOfAre(det: Detection, j: nat, thres: real, n: nat, x: Match)
    requires n <= |det.overlap|
    ensures x in PairsOf(det, j, thres, n) <==> x.d == j && x.l < n && Exceeds(det, thres, x)
  {
    if n > 0 { PairsOfAre(det, j, thres, n - 1, x); }
  }

  /** The candidate pairs are exactly the overlaps above the threshold. */
  lemma {:induction false} PairsAre(dets: seq<Detection>, labels: nat, thres: real, m: nat, x: Match)
    requires m <= |dets| && ValidBatch(dets, labels)
    ensures x in Pairs(dets, labels, thres, m) <==> x.d < m && Exceeds(dets[x.d], thres, x)
  {
    hide Pairs, PairsOf;
    PairsStep(dets, labels, thres, m, x);
    if m > 0 {
      PairsAre(dets, labels, thres, m - 1, x);
      PairsOfAre(dets[m - 1], m - 1, thres, labels, x);
      hide Exceeds;
    }
  }

  lemma PairsStep(dets: seq<Detection>, labels: nat, thres: real, m: nat, x: Match)
    requires m <= |dets| && ValidBatch(dets, labels)
    ensures if m == 0 then x !in Pairs(dets, labels, thres, m)
            else x in Pairs(dets, labels, thres, m) <==>
                 x in Pairs(dets, labels, thres, m - 1) || x in PairsOf(dets[m - 1], m - 1, thres, labels)
  {
    if m > 0 { InEither(Pairs(dets, labels, thres, m - 1), PairsOf(dets[m - 1], m - 1, thres, labels), x); }
  }

  lemma InEither<T>(a: seq<T>, b: seq<T>, x: T)
    ensures x in a + b <==> x in a || x in b
  {
  }

  datatype Side = ByLabel | ByDetection

  function Key(side: Side, x: Match): nat {
    match side case ByLabel => x.l case ByDetection => x.d
  }

  predicate HasKey(side: Side, ms: seq<Match>, k: nat) {
    exists i :: 0 <= i < |ms| && Key(side, ms[i]) == k
  }

  /** np.unique(..., return_index=True): the first row of every key. */
  function FirstOfEach(side: Side, ms: seq<Match>): (r: seq<Match>)
    ensures forall x :: x in r ==> x in ms
    ensures forall k :: HasKey(side, r, k) <==> HasKey(side, ms, k)
    ensures forall i, j :: 0 <= i < j < |r| ==> Key(side, r[i]) != Key(side, r[j])
  {
    if ms == [] then []
    else
      var before, x := FirstOfEach(side, ms[..|ms| - 1]), ms[|ms| - 1];
      KeySplit(side, ms[..|ms| - 1], x);
      KeySplit(side, before, x);
      assert ms == ms[..|ms| - 1] + [x];
      if HasKey(side, before, Key(side, x)) then before else before + [x]
  }

  lemma KeySplit(side: Side, ms: seq<Match>, x: Match)
    ensures forall k :: HasKey(side, ms + [x], k) <==> HasKey(side, ms, k) || Key(side, x) == k
  {
    forall k ensures HasKey(side, ms + [x], k) <==> HasKey(side, ms, k) || Key(side, x) == k {
      if HasKey(side, ms, k) {
        var i :| 0 <= i < |ms| && Key(side, ms[i]) == k;
        assert Key(side, (ms + [x])[i]) == k;
      }
      if Key(side, x) == k { assert Key(side, (ms + [x])[|ms|]) == k; }
    }
  }

  ghost predicate Descending(ms: seq<Match>) {
    DescendingBy((x: Match) => x.iou, ms)
  }

  /** In a list sorted by overlap the first row of a key has the best overlap of that key. */
  lemma {:induction false} FirstIsBest(side: Side, ms: seq<Match>, x: Match, y: Match)
    requires Descending(ms) && x in FirstOfEach(side, ms) && y in ms && Key(side, x) == Key(side, y)
    ensures y.iou <= x.iou
  {
    var n := |ms| - 1;
    var before := FirstOfEach(side, ms[..n]);
    if y in ms[..n] {
      if x in before { FirstIsBest(side, ms[..n], x, y); }
    } else {
      assert y == ms[n];
      assert x in ms;
    }
  }

  /** Any descending rearrangement of a list: what argsort()[::-1] may produce. */
  ghost predicate Sorted(s: seq<Match>, base: seq<Match>) {
    Descending(s) && multiset(s) == multiset(base)
  }

  lemma SameElements(s: seq<Match>, base: seq<Match>)
    requires multiset(s) == multiset(base)
    ensures forall x :: x in s <==> x in base
  {
    forall x ensures x in s <==> x in base {
      assert x in s <==> x in multiset(s);
      assert x in base <==> x in multiset(base);
    }
  }

  /** The two sort-and-unique passes, for any way of breaking ties. */
  ghost predicate TwoPasses(pairs: seq<Match>, r: seq<Match>) {
    exists s1, s2 :: Passes(pairs, s1, s2, r)
  }

  /** ... which left the lists s1 and s2 after the two sorts. */
  ghost predicate Passes(pairs: seq<Match>, s1: seq<Match>, s2: seq<Match>, r: seq<Match>) {
    Sorted(s1, pairs) && Sorted(s2, FirstOfEach(ByDetection, s1)) && r == FirstOfEach(ByLabel, s2)
  }

  ghost predicate OneToOne(r: seq<Match>) {
    forall i, j :: 0 <= i < j < |r| ==> r[i].l != r[j].l && r[i].d != r[j].d
  }

  lemma UniqueKeys(side: Side, r: seq<Match>, x: Match, y: Match)
    requires forall i, j :: 0 <= i < j < |r| ==> Key(side, r[i]) != Key(side, r[j])
    requires x in r && y in r && Key(side, x) == Key(side, y)
    ensures x == y
  {
  }

  /** After both passes no label and no detection is used twice, however ties were broken. */
  lemma MatchingIsOneToOne(pairs: seq<Match>, r: seq<Match>)
    requires TwoPasses(pairs, r)
    ensures OneToOne(r) && forall x :: x in r ==> x in pairs
  {
    var s1, s2 :| Passes(pairs, s1, s2, r);
    var u := FirstOfEach(ByDetection, s1);
    SameElements(s1, pairs);
    SameElements(s2, u);
    forall i, j | 0 <= i < j < |r| ensures r[i].l != r[j].l && r[i].d != r[j].d {
      assert Key(ByLabel, r[i]) != Key(ByLabel, r[j]);
      assert r[i] in r && r[j] in r;
      if r[i].d == r[j].d { UniqueKeys(ByDetection, u, r[i], r[j]); }
    }
  }

  /** The label is the best one for the detection. */
  ghost predicate BestLabel(pairs: seq<Match>, x: Match) {
    x in pairs && forall y :: y in pairs && y.d == x.d ==> y.iou <= x.iou
  }

  /** ... and the detection is the best one among those that prefer the label. */
  ghost predicate Survives(pairs: seq<Match>, x: Match) {
    BestLabel(pairs, x) && forall y :: BestLabel(pairs, y) && y.l == x.l ==> y.iou <= x.iou
  }

  ghost predicate DistinctOverlaps(pairs: seq<Match>) {
    forall x, y :: x in pairs && y in pairs && x.iou == y.iou ==> x == y
  }

  lemma FirstPass(pairs: seq<Match>, s1: seq<Match>, x: Match)
    requires Sorted(s1, pairs) && DistinctOverlaps(pairs)
    ensures x in FirstOfEach(ByDetection, s1) <==> BestLabel(pairs, x)
  {
    SameElements(s1, pairs);
    KeptAreBest(ByDetection, s1, x);
  }

  /** In a sorted list with distinct overlaps, the rows kept are exactly the best of their key. */
  lemma KeptAreBest(side: Side, s: seq<Match>, x: Match)
    requires Descending(s) && DistinctOverlaps(s)
    ensures x in FirstOfEach(side, s) <==> x in s && forall y :: y in s && Key(side, y) == Key(side, x) ==> y.iou <= x.iou
  {
    hide FirstOfEach;
    var u := FirstOfEach(side, s);
    if x in u {
      forall y | y in s && Key(side, y) == Key(side, x) ensures y.iou <= x.iou { FirstIsBest(side, s, x, y); }
    } else if x in s && forall y :: y in s && Key(side, y) == Key(side, x) ==> y.iou <= x.iou {
      var i :| 0 <= i < |s| && s[i] == x;
      assert HasKey(side, s, Key(side, x));
      var k :| 0 <= k < |u| && Key(side, u[k]) == Key(side, x);
      assert u[k] in u;
      FirstIsBest(side, s, u[k], x);
    }
  }

  /** With distinct overlaps a pair survives exactly when label and detection are each other's best in this sense. */
  lemma MatchingIsMutualBest(pairs: seq<Match>, r: seq<Match>, x: Match)
    requires TwoPasses(pairs, r) && DistinctOverlaps(pairs)
    ensures x in r <==> Survives(pairs, x)
  {
    var s1, s2 :| Passes(pairs, s1, s2, r);
    var u := FirstOfEach(ByDetection, s1);
    SameElements(s1, pairs);
    SameElements(s2, u);
    forall y ensures y in u <==> BestLabel(pairs, y) { FirstPass(pairs, s1, y); }
    assert DistinctOverlaps(s2);
    hide FirstOfEach, BestLabel;
    KeptAreBest(ByLabel, s2, x);
    assert forall y :: y in s2 <==> BestLabel(pairs, y);
  }

  function SortByOverlap(ms: seq<Match>): seq<Match> {
    SortBy((x: Match) => x.iou, ms)
  }

  lemma SortByOverlapSorts(ms: seq<Match>)
    ensures Sorted(SortByOverlap(ms), ms)
  {
    SortBySorts((x: Match) => x.iou, ms);
  }

  /** The matching of a batch; a single pair needs no sorting. */
  method FindMatches(dets: seq<Detection>, labels: nat, thres: real) returns (r: seq<Match>)
    requires ValidBatch(dets, labels)
    ensures TwoPasses(Pairs(dets, labels, thres, |dets|), r)
  {
    var pairs := Pairs(dets, labels, thres, |dets|);
    if |pairs| > 1 {
      var s1 := SortByOverlap(pairs);
      SortByOverlapSorts(pairs);
      var u := FirstOfEach(ByDetection, s1);
      SortByOverlapSorts(u);
      var s2 := SortByOverlap(u);
      r := FirstOfEach(ByLabel, s2);
      assert Passes(pairs, s1, s2, r);
    } else {
      r := pairs;
      SinglePass(ByDetection, pairs);
      SinglePass(ByLabel, pairs);
      assert Passes(pairs, pairs, pairs, r);
    }
  }

  lemma SinglePass(side: Side, ms: seq<Match>)
    requires |ms| <= 1
    ensures FirstOfEach(side, ms) == ms
  {
  }

  // ----- the matrix -----

  type Cell = (int, int)

  /** The matches of label i: [] or one. */
  function MatchesOf(r: seq<Match>, i: nat): seq<Match> {
    if r == [] then []
    else
      var before := MatchesOf(r[..|r| - 1], i);
      if r[|r| - 1].l == i then before + [r[|r| - 1]] else before
  }

  /** The cell a label increments: (true class, predicted class), or (background, true class). */
  function LabelCell(r: seq<Match>, gt: seq<nat>, dets: seq<Detection>, nc: nat, i: nat): Cell
    requires i < |gt| && forall x :: x in r ==> x.d < |dets|
  {
    var m := MatchesOf(r, i);
    MatchesOfAre(r, i);
    if |m| == 1 then (gt[i], dets[m[0].d].cls) else (nc, gt[i])
  }

  lemma {:induction false} MatchesOfAre(r: seq<Match>, i: nat)
    ensures forall x :: x in MatchesOf(r, i) <==> x in r && x.l == i
  {
    if r != [] {
      MatchesOfAre(r[..|r| - 1], i);
      assert r == r[..|r| - 1] + [r[|r| - 1]];
    }
  }

  /** The cells incremented for the first n labels. */
  function LabelCells(r: seq<Match>, gt: seq<nat>, dets: seq<Detection>, nc: nat, n: nat): (cells: seq<Cell>)
    requires n <= |gt| && forall x :: x in r ==> x.d < |dets|
    ensures |cells| == n
  {
    if n == 0 then [] else LabelCells(r, gt, dets, nc, n - 1) + [LabelCell(r, gt, dets, nc, n - 1)]
  }

  /** The cells incremented for the unmatched ones among the first n detections. */
  function MissCells(r: seq<Match>, dets: seq<Detection>, nc: nat, n: nat): (cells: seq<Cell>)
    requires n <= |dets|
  {
    if n == 0 then []
    else
      var before := MissCells(r, dets, nc, n - 1);
      if HasKey(ByDetection, r, n - 1) then before else before + [(dets[n - 1].cls as int, nc as int)]
  }

  /** All the cells a batch increments: detections only count when something matched. */
  function Cells(r: seq<Match>, gt: seq<nat>, dets: seq<Detection>, nc: nat): seq<Cell>
    requires forall x :: x in r ==> x.d < |dets|
  {
    LabelCells(r, gt, dets, nc, |gt|) + if |r| > 0 then MissCells(r, dets, nc, |dets|) else []
  }

  function KeptDetections(dets: seq<Detection>, conf: real): (r: seq<Detection>) {
    if dets == [] then []
    else
      var before := KeptDetections(dets[..|dets| - 1], conf);
      if dets[|dets| - 1].conf > conf then before + [dets[|dets| - 1]] else before
  }

  ghost predicate Counted(dets: seq<Detection>, gt: seq<nat>, nc: nat) {
    && ValidBatch(dets, |gt|) && |dets| <= 32768 && |gt| <= 32768
    && (forall i :: 0 <= i < |gt| ==> gt[i] <= nc) && (forall j :: 0 <= j < |dets| ==> dets[j].cls <= nc)
  }

  lemma {:induction false} KeptCounted(dets: seq<Detection>, gt: seq<nat>, nc: nat, conf: real)
    requires Counted(dets, gt, nc)
    ensures Counted(KeptDetections(dets, conf), gt, nc) && |KeptDetections(dets, conf)| <= |dets|
  {
    if dets != [] { KeptCounted(dets[..|dets| - 1], gt, nc, conf); }
  }

  /** The detections with enough confidence ... */
  lemma {:induction false} KeptAre(dets: seq<Detection>, conf: real, x: Detection)
    ensures x in KeptDetections(dets, conf) <==> x in dets && x.conf > conf
  {
    if dets != [] {
      KeptAre(dets[..|dets| - 1], conf, x);
      assert dets == dets[..|dets| - 1] + [dets[|dets| - 1]];
    }
  }

  /** ... in their order, each as often as it occurs. */
  lemma {:induction false} KeptAppend(a: seq<Detection>, b: seq<Detection>, conf: real)
    ensures KeptDetections(a + b, conf) == KeptDetections(a, conf) + KeptDetections(b, conf)
    ensures (forall i :: 0 <= i < |b| ==> b[i].conf > conf) ==> KeptDetections(b, conf) == b
  {
    if b == [] {
      assert a + b == a;
    } else {
      assert (a + b)[..|a + b| - 1] == a + b[..|b| - 1];
      KeptAppend(a, b[..|b| - 1], conf);
    }
  }

  class ConfusionMatrix {
    const nc: nat
    const conf: real
    const iouThres: real
    const matrix: array2<int>

    ghost predicate Valid() {
      matrix.Length0 == nc + 1 && matrix.Length1 == nc + 1
    }

    ghost function Table(): (t: seq<seq<int>>)
      requires Valid()
      reads matrix
      ensures |t| == nc + 1 && forall a :: 0 <= a <= nc ==> |t[a]| == nc + 1
      ensures forall a, b :: 0 <= a <= nc && 0 <= b <= nc ==> t[a][b] == matrix[a, b]
    {
      var m, n := matrix, nc + 1;
      seq(n, a requires 0 <= a < n && Valid() && m == matrix && n == nc + 1 reads m =>
        seq(n, b requires 0 <= a < n && 0 <= b < n && Valid() && m == matrix && n == nc + 1 reads m => m[a, b]))
    }

    constructor (nc: nat, conf: real, iouThres: real)
      ensures Valid() && fresh(matrix) && this.nc == nc && this.conf == conf && this.iouThres == iouThres
      ensures forall a, b :: 0 <= a <= nc && 0 <= b <= nc ==> matrix[a, b] == 0
    {
      this.nc, this.conf, this.iouThres := nc, conf, iouThres;
      matrix := new int[nc + 1, nc + 1]((_, _) => 0);
    }

    /**
     * One image. The detections above the confidence are matched in two passes, and every cell of the matrix grows
     * by the number of times it occurs among the cells of the batch.
     */
    method ProcessBatch(detections: seq<Detection>, gt: seq<nat>)
      returns (ghost r: seq<Match>)
      requires Valid() && Counted(detections, gt, nc)
      modifies matrix
      ensures ValidBatch(KeptDetections(detections, conf), |gt|)
      ensures var dets := KeptDetections(detections, conf);
              TwoPasses(Pairs(dets, |gt|, iouThres, |dets|), r) && (forall x :: x in r ==> x.d < |dets|)
      ensures forall a, b :: 0 <= a <= nc && 0 <= b <= nc ==>
                matrix[a, b] == old(matrix[a, b]) + multiset(Cells(r, gt, KeptDetections(detections, conf), nc))[(a, b)]
      ensures Tallies(old(Table()), Table(), r, gt, KeptDetections(detections, conf), nc)
      ensures var n := |KeptDetections(detections, conf)|;
              Total(Table(), nc + 1) == old(Total(Table(), nc + 1)) + if |r| > 0 then |gt| + (n - |r|) else |gt|
    {
      hide TwoPasses, Cells, Pairs, Total, KeptDetections, Tallies;
      ghost var before := Table();
      var dets := KeptDetections(detections, conf);
      KeptCounted(detections, gt, nc, conf);
      var m := FindMatches(dets, |gt|, iouThres);
      r := m;
      MatchingInRange(dets, |gt|, iouThres, m);
      CountBatch(m, gt, dets);
      BatchTotal(dets, gt, iouThres, nc, m, before, Table());
      BatchTallies(dets, gt, nc, m, before, Table());
    }

    method CountBatch(m: seq<Match>, gt: seq<nat>, dets: seq<Detection>)
      requires Valid() && Counted(dets, gt, nc) && forall x :: x in m ==> x.d < |dets|
      modifies matrix
      ensures forall a, b :: 0 <= a <= nc && 0 <= b <= nc ==>
                matrix[a, b] == old(matrix[a, b]) + multiset(Cells(m, gt, dets, nc))[(a, b)]
    {
      hide LabelCells, MissCells;
      CountLabels(m, gt, dets);
      if |m| > 0 {
        CountMisses(m, gt, dets);
      }
    }

    method CountLabels(m: seq<Match>, gt: seq<nat>, dets: seq<Detection>)
      requires Valid() && Counted(dets, gt, nc) && forall x :: x in m ==> x.d < |dets|
      modifies matrix
      ensures forall a, b :: 0 <= a <= nc && 0 <= b <= nc ==>
                matrix[a, b] == old(matrix[a, b]) + multiset(LabelCells(m, gt, dets, nc, |gt|))[(a, b)]
    {
      hide LabelCell, ValidBatch;
      for i := 0 to |gt|
        invariant forall a, b :: 0 <= a <= nc && 0 <= b <= nc ==>
                    matrix[a, b] == old(matrix[a, b]) + multiset(LabelCells(m, gt, dets, nc, i))[(a, b)]
      {
        CountLabel(m, gt, dets, i);
      }
    }

    method CountLabel(m: seq<Match>, gt: seq<nat>, dets: seq<Detection>, i: nat)
      requires Valid() && Counted(dets, gt, nc) && i < |gt| && forall x :: x in m ==> x.d < |dets|
      modifies matrix
      ensures forall a, b :: 0 <= a <= nc && 0 <= b <= nc ==>
                matrix[a, b] == old(matrix[a, b]) + if (a, b) == LabelCell(m, gt, dets, nc, i) then 1 else 0
    {
      var j := MatchesOf(m, i);
      MatchesOfAre(m, i);
      if |j| == 1 {
        Increment(gt[i], dets[j[0].d].cls);
      } else {
        Increment(nc, gt[i]);
      }
    }

    method CountMisses(m: seq<Match>, gt: seq<nat>, dets: seq<Detection>)
      requires Valid() && Counted(dets, gt, nc)
      modifies matrix
      ensures forall a, b :: 0 <= a <= nc && 0 <= b <= nc ==>
                matrix[a, b] == old(matrix[a, b]) + multiset(MissCells(m, dets, nc, |dets|))[(a, b)]
    {
      hide HasKey, ValidBatch;
      for i := 0 to |dets|
        invariant forall a, b :: 0 <= a <= nc && 0 <= b <= nc ==>
                    matrix[a, b] == old(matrix[a, b]) + multiset(MissCells(m, dets, nc, i))[(a, b)]
      {
        if !HasKey(ByDetection, m, i) {
          Increment(dets[i].cls, nc);
        }
      }
    }

    method Increment(a: nat, b: nat)
      requires Valid() && a <= nc && b <= nc
      modifies matrix
      ensures forall i, j :: 0 <= i <= nc && 0 <= j <= nc ==>
                matrix[i, j] == old(matrix[i, j]) + if i == a && j == b then 1 else 0
    {
      matrix[a, b] := matrix[a, b] + 1;
    }
  }

  lemma MatchingInRange(dets: seq<Detection>, labels: nat, thres: real, r: seq<Match>)
    requires ValidBatch(dets, labels) && TwoPasses(Pairs(dets, labels, thres, |dets|), r)
    ensures OneToOne(r) && forall x :: x in r ==> x.d < |dets| && x.l < labels
  {
    var pairs := Pairs(dets, labels, thres, |dets|);
    MatchingIsOneToOne(pairs, r);
    forall x | x in r ensures x.d < |dets| && x.l < labels { PairsAre(dets, labels, thres, |dets|, x); }
  }

  // ----- how much the matrix grows -----

  /** The detections below n that a matching leaves out are n minus those it uses. */
  lemma {:induction false} MissCount(r: seq<Match>, dets: seq<Detection>, nc: nat, n: nat)
    requires n <= |dets|
    ensures |MissCells(r, dets, nc, n)| == n - |UsedBelow(r, n)|
  {
    if n > 0 { MissCount(r, dets, nc, n - 1); }
  }

  function UsedBelow(r: seq<Match>, n: nat): (s: set<nat>)
    ensures |s| <= n && forall k: nat :: k in s <==> k < n && HasKey(ByDetection, r, k)
  {
    if n == 0 then {}
    else if HasKey(ByDetection, r, n - 1) then UsedBelow(r, n - 1) + {n - 1} else UsedBelow(r, n - 1)
  }

  lemma UsedStep(r: seq<Match>, x: Match, n: nat)
    requires x.d < n
    ensures UsedBelow(r + [x], n) == UsedBelow(r, n) + {x.d}
  {
    hide UsedBelow, HasKey;
    KeySplit(ByDetection, r, x);
  }

  lemma NewDetection(r: seq<Match>, x: Match)
    requires OneToOne(r + [x])
    ensures OneToOne(r) && !HasKey(ByDetection, r, x.d)
  {
    var s := r + [x];
    assert forall i :: 0 <= i < |r| ==> r[i] == s[i];
    assert s[|r|] == x;
  }

  lemma {:induction false} UsedIsMatches(r: seq<Match>, n: nat)
    requires OneToOne(r) && forall i :: 0 <= i < |r| ==> r[i].d < n
    ensures |UsedBelow(r, n)| == |r|
  {
    if r == [] {
      assert UsedBelow(r, n) == {};
    } else {
      hide UsedBelow, HasKey, OneToOne;
      var before, x := r[..|r| - 1], r[|r| - 1];
      assert r == before + [x];
      NewDetection(before, x);
      UsedIsMatches(before, n);
      UsedStep(before, x, n);
    }
  }

  /** A batch with M labels, N kept detections and K matches adds M + (N - K) to the matrix if K > 0, and M otherwise. */
  lemma Growth(dets: seq<Detection>, gt: seq<nat>, thres: real, nc: nat, r: seq<Match>)
    requires ValidBatch(dets, |gt|) && TwoPasses(Pairs(dets, |gt|, thres, |dets|), r)
    ensures (forall x :: x in r ==> x.d < |dets|) &&
            |Cells(r, gt, dets, nc)| == if |r| > 0 then |gt| + (|dets| - |r|) else |gt|
  {
    MatchingInRange(dets, |gt|, thres, r);
    MissCount(r, dets, nc, |dets|);
    UsedIsMatches(r, |dets|);
  }

  /** The number of cells of row a, columns below n, in a list of cells; with multiplicity. */
  ghost function RowSum(m: multiset<Cell>, a: int, n: nat): nat {
    if n == 0 then 0 else RowSum(m, a, n - 1) + m[(a, n - 1)]
  }

  ghost function GridSum(m: multiset<Cell>, rows: nat, cols: nat): nat {
    if rows == 0 then 0 else GridSum(m, rows - 1, cols) + RowSum(m, rows - 1, cols)
  }

  lemma {:induction false} RowSumAdd(m: multiset<Cell>, a: int, n: nat, c: Cell)
    ensures RowSum(m + multiset{c}, a, n) == RowSum(m, a, n) + if c.0 == a && 0 <= c.1 < n then 1 else 0
  {
    if n > 0 { RowSumAdd(m, a, n - 1, c); }
  }

  lemma {:induction false} GridSumAdd(m: multiset<Cell>, rows: nat, cols: nat, c: Cell)
    ensures GridSum(m + multiset{c}, rows, cols) == GridSum(m, rows, cols) + if 0 <= c.0 < rows && 0 <= c.1 < cols then 1 else 0
  {
    if rows > 0 {
      GridSumAdd(m, rows - 1, cols, c);
      RowSumAdd(m, rows - 1, cols, c);
    }
  }

  lemma {:induction false} EmptyGrid(rows: nat, cols: nat)
    ensures GridSum(multiset{}, rows, cols) == 0
  {
    if rows > 0 {
      EmptyGrid(rows - 1, cols);
      EmptyRow(rows - 1, cols);
    }
  }

  lemma {:induction false} EmptyRow(a: int, n: nat)
    ensures RowSum(multiset{}, a, n) == 0
  {
    if n > 0 { EmptyRow(a, n - 1); }
  }

  /** Summed over the whole matrix, a list of cells inside it adds its length. */
  lemma {:induction false} TotalGrowth(cells: seq<Cell>, n: nat)
    requires forall c :: c in cells ==> 0 <= c.0 < n && 0 <= c.1 < n
    ensures GridSum(multiset(cells), n, n) == |cells|
  {
    if cells == [] {
      EmptyGrid(n, n);
    } else {
      var before, c := cells[..|cells| - 1], cells[|cells| - 1];
      TotalGrowth(before, n);
      assert cells == before + [c];
      GridSumAdd(multiset(before), n, n, c);
    }
  }

  lemma {:induction false} LabelCellsInside(r: seq<Match>, gt: seq<nat>, dets: seq<Detection>, nc: nat, n: nat)
    requires n <= |gt| && Counted(dets, gt, nc) && forall x :: x in r ==> x.d < |dets|
    ensures forall c :: c in LabelCells(r, gt, dets, nc, n) ==> 0 <= c.0 <= nc && 0 <= c.1 <= nc
  {
    if n > 0 {
      LabelCellsInside(r, gt, dets, nc, n - 1);
      MatchesOfAre(r, n - 1);
    }
  }

  lemma {:induction false} MissCellsInside(r: seq<Match>, dets: seq<Detection>, nc: nat, n: nat)
    requires n <= |dets| && forall j :: 0 <= j < |dets| ==> dets[j].cls <= nc
    ensures forall c :: c in MissCells(r, dets, nc, n) ==> 0 <= c.0 <= nc && 0 <= c.1 <= nc
  {
    if n > 0 { MissCellsInside(r, dets, nc, n - 1); }
  }

  /** Over all cells, a batch adds M + (N - K) when something matched and M when nothing did. */
  lemma MatrixTotal(dets: seq<Detection>, gt: seq<nat>, thres: real, nc: nat, r: seq<Match>)
    requires Counted(dets, gt, nc) && TwoPasses(Pairs(dets, |gt|, thres, |dets|), r)
    ensures (forall x :: x in r ==> x.d < |dets|) &&
            GridSum(multiset(Cells(r, gt, dets, nc)), nc + 1, nc + 1) == if |r| > 0 then |gt| + (|dets| - |r|) else |gt|
  {
    Growth(dets, gt, thres, nc, r);
    LabelCellsInside(r, gt, dets, nc, |gt|);
    MissCellsInside(r, dets, nc, |dets|);
    TotalGrowth(Cells(r, gt, dets, nc), nc + 1);
  }

  ghost function RowTotal(row: seq<int>, n: nat): int
    requires n <= |row|
  {
    if n == 0 then 0 else RowTotal(row, n - 1) + row[n - 1]
  }

  ghost predicate IsTable(t: seq<seq<int>>, n: nat) {
    |t| == n && forall a :: 0 <= a < n ==> |t[a]| == n
  }

  ghost function TableTotal(t: seq<seq<int>>, n: nat, rows: nat): int
    requires IsTable(t, n) && rows <= n
  {
    if rows == 0 then 0 else TableTotal(t, n, rows - 1) + RowTotal(t[rows - 1], n)
  }

  /** The sum of all entries of a square table. */
  ghost function Total(t: seq<seq<int>>, n: nat): int
    requires IsTable(t, n)
  {
    TableTotal(t, n, n)
  }

  lemma {:induction false} RowGrows(row: seq<int>, row': seq<int>, m: multiset<Cell>, a: int, n: nat)
    requires n <= |row| && n <= |row'| && forall b :: 0 <= b < n ==> row'[b] == row[b] + m[(a, b)]
    ensures RowTotal(row', n) == RowTotal(row, n) + RowSum(m, a, n)
  {
    if n > 0 { RowGrows(row, row', m, a, n - 1); }
  }

  lemma {:induction false} TableGrows(t: seq<seq<int>>, t': seq<seq<int>>, m: multiset<Cell>, n: nat, rows: nat)
    requires IsTable(t, n) && IsTable(t', n) && rows <= n
    requires forall a, b :: 0 <= a < n && 0 <= b < n ==> t'[a][b] == t[a][b] + m[(a, b)]
    ensures TableTotal(t', n, rows) == TableTotal(t, n, rows) + GridSum(m, rows, n)
  {
    if rows > 0 {
      TableGrows(t, t', m, n, rows - 1);
      RowGrows(t[rows - 1], t'[rows - 1], m, rows - 1, n);
    }
  }

  lemma BatchTotal(dets: seq<Detection>, gt: seq<nat>, thres: real, nc: nat, r: seq<Match>,
                   t: seq<seq<int>>, t': seq<seq<int>>)
    requires Counted(dets, gt, nc) && TwoPasses(Pairs(dets, |gt|, thres, |dets|), r) && forall x :: x in r ==> x.d < |dets|
    requires IsTable(t, nc + 1) && IsTable(t', nc + 1)
    requires forall a, b :: 0 <= a <= nc && 0 <= b <= nc ==> t'[a][b] == t[a][b] + multiset(Cells(r, gt, dets, nc))[(a, b)]
    ensures Total(t', nc + 1) == Total(t, nc + 1) + if |r| > 0 then |gt| + (|dets| - |r|) else |gt|
  {
    hide TwoPasses, Cells;
    MatrixTotal(dets, gt, thres, nc, r);
    TableGrows(t, t', multiset(Cells(r, gt, dets, nc)), nc + 1, nc + 1);
  }

  // ----- which axis the background is on -----

  /** The cell with its two classes exchanged, if one of them is the background. */
  function Turn(c: Cell, nc: nat): Cell {
    if c.0 == nc || c.1 == nc then (c.1, c.0) else c
  }

  /** The cells with true classes on the first axis and predicted classes on the second throughout. */
  function Turned(cells: seq<Cell>, nc: nat): (r: seq<Cell>)
    ensures |r| == |cells|
  {
    seq(|cells|, i requires 0 <= i < |cells| => Turn(cells[i], nc))
  }

  lemma {:induction false} TurnedCount(cells: seq<Cell>, nc: nat, c: Cell)
    ensures multiset(Turned(cells, nc))[c] == multiset(cells)[Turn(c, nc)]
  {
    if cells != [] {
      var before, x := cells[..|cells| - 1], cells[|cells| - 1];
      TurnedCount(before, nc, c);
      assert cells == before + [x];
      assert Turned(cells, nc) == Turned(before, nc) + [Turn(x, nc)];
    }
  }

  /** As many entries (background, k) as (k, background). */
  ghost predicate Balanced(cells: seq<Cell>, nc: nat, k: int) {
    multiset(cells)[(nc as int, k)] == multiset(cells)[(k, nc as int)]
  }

  lemma TurnedSame(cells: seq<Cell>, nc: nat)
    ensures multiset(Turned(cells, nc)) == multiset(cells) <==> forall k :: Balanced(cells, nc, k)
  {
    if forall k :: Balanced(cells, nc, k) {
      forall c: Cell ensures multiset(Turned(cells, nc))[c] == multiset(cells)[c] {
        TurnedCount(cells, nc, c);
        assert Balanced(cells, nc, c.0) && Balanced(cells, nc, c.1);
      }
    } else {
      var k :| !Balanced(cells, nc, k);
      TurnedCount(cells, nc, (nc as int, k));
    }
  }

  /** Unmatched labels of class k among the first n. */
  function MissedLabels(r: seq<Match>, gt: seq<nat>, k: int, n: nat): nat
    requires n <= |gt|
  {
    if n == 0 then 0
    else MissedLabels(r, gt, k, n - 1) + if gt[n - 1] == k && |MatchesOf(r, n - 1)| != 1 then 1 else 0
  }

  /** Unmatched detections of class k among the first n. */
  function MissedDetections(r: seq<Match>, dets: seq<Detection>, k: int, n: nat): nat
    requires n <= |dets|
  {
    if n == 0 then 0
    else MissedDetections(r, dets, k, n - 1) + if dets[n - 1].cls == k && !HasKey(ByDetection, r, n - 1) then 1 else 0
  }

  /** All classes are classes, not the background. */
  ghost predicate Classes(dets: seq<Detection>, gt: seq<nat>, nc: nat) {
    (forall i :: 0 <= i < |gt| ==> gt[i] < nc) && (forall j :: 0 <= j < |dets| ==> dets[j].cls < nc)
  }

  /** How often a cell occurs in a list of cells. */
  ghost function Occurs(cells: seq<Cell>, y: Cell): nat {
    multiset(cells)[y]
  }

  lemma CountAppend(cells: seq<Cell>, c: Cell, y: Cell)
    ensures Occurs(cells + [c], y) == Occurs(cells, y) + if y == c then 1 else 0
  {
  }

  lemma {:induction false} LabelCellCounts(r: seq<Match>, gt: seq<nat>, dets: seq<Detection>, nc: nat, k: int, n: nat)
    requires n <= |gt| && Classes(dets, gt, nc) && k != nc && forall x :: x in r ==> x.d < |dets|
    ensures Occurs(LabelCells(r, gt, dets, nc, n), (nc as int, k)) == MissedLabels(r, gt, k, n)
    ensures Occurs(LabelCells(r, gt, dets, nc, n), (k, nc as int)) == 0
  {
    hide *;
    MissedStep(r, gt, k, n);
    LabelCellsLast(r, gt, dets, nc, n, (nc as int, k));
    LabelCellsLast(r, gt, dets, nc, n, (k, nc as int));
    if n > 0 {
      LabelCellCounts(r, gt, dets, nc, k, n - 1);
      LabelCellIs(r, gt, dets, nc, n - 1);
    }
  }

  lemma MissedStep(r: seq<Match>, gt: seq<nat>, k: int, n: nat)
    requires n <= |gt|
    ensures MissedLabels(r, gt, k, n)
         == if n == 0 then 0
            else MissedLabels(r, gt, k, n - 1) + if gt[n - 1] == k && |MatchesOf(r, n - 1)| != 1 then 1 else 0
  {
  }

  lemma LabelCellIs(r: seq<Match>, gt: seq<nat>, dets: seq<Detection>, nc: nat, i: nat)
    requires i < |gt| && Classes(dets, gt, nc) && forall x :: x in r ==> x.d < |dets|
    ensures var c := LabelCell(r, gt, dets, nc, i);
            if |MatchesOf(r, i)| == 1 then c.0 < nc && c.1 < nc else c == (nc as int, gt[i] as int)
  {
    MatchesOfAre(r, i);
  }

  // ----- what the cells of a batch stand for -----

  ghost predicate Indexed(r: seq<Match>, labels: nat, dets: nat) {
    forall x :: x in r ==> x.l < labels && x.d < dets
  }

  /** Whether the match is one of a label of class a with a detection of class b: 1 or 0. */
  ghost function Pairing(x: Match, gt: seq<nat>, dets: seq<Detection>, a: int, b: int): nat {
    if x.l < |gt| && x.d < |dets| && gt[x.l] == a && dets[x.d].cls == b then 1 else 0
  }

  /** The matches of a label of class a with a detection of class b. */
  ghost function Confused(r: seq<Match>, gt: seq<nat>, dets: seq<Detection>, a: int, b: int): nat {
    if r == [] then 0 else Confused(r[..|r| - 1], gt, dets, a, b) + Pairing(r[|r| - 1], gt, dets, a, b)
  }

  /** Those of the labels below m. */
  ghost function ConfusedBelow(r: seq<Match>, gt: seq<nat>, dets: seq<Detection>, a: int, b: int, m: nat): nat {
    if r == [] then 0
    else
      ConfusedBelow(r[..|r| - 1], gt, dets, a, b, m) + if r[|r| - 1].l < m then Pairing(r[|r| - 1], gt, dets, a, b) else 0
  }

  lemma {:induction false} BelowAll(r: seq<Match>, gt: seq<nat>, dets: seq<Detection>, a: int, b: int)
    requires Indexed(r, |gt|, |dets|)
    ensures ConfusedBelow(r, gt, dets, a, b, |gt|) == Confused(r, gt, dets, a, b)
  {
    hide Pairing;
    if r != [] { BelowAll(r[..|r| - 1], gt, dets, a, b); }
  }

  lemma {:induction false} BelowNone(r: seq<Match>, gt: seq<nat>, dets: seq<Detection>, a: int, b: int)
    ensures ConfusedBelow(r, gt, dets, a, b, 0) == 0
  {
    if r != [] { BelowNone(r[..|r| - 1], gt, dets, a, b); }
  }

  /** One more label adds its matches. */
  lemma {:induction false} BelowStep(r: seq<Match>, gt: seq<nat>, dets: seq<Detection>, a: int, b: int, m: nat)
    ensures ConfusedBelow(r, gt, dets, a, b, m + 1)
         == ConfusedBelow(r, gt, dets, a, b, m) + Confused(MatchesOf(r, m), gt, dets, a, b)
  {
    hide Pairing;
    if r != [] {
      var before, x := r[..|r| - 1], r[|r| - 1];
      BelowStep(before, gt, dets, a, b, m);
      if x.l == m { assert (MatchesOf(before, m) + [x])[..|MatchesOf(before, m)|] == MatchesOf(before, m); }
    }
  }

  lemma NewLabel(r: seq<Match>, x: Match)
    requires OneToOne(r + [x])
    ensures OneToOne(r) && forall i :: 0 <= i < |r| ==> r[i].l != x.l
  {
    var s := r + [x];
    assert forall i :: 0 <= i < |r| ==> r[i] == s[i];
    assert s[|r|] == x;
  }

  lemma {:induction false} NoMatches(r: seq<Match>, i: nat)
    requires forall k :: 0 <= k < |r| ==> r[k].l != i
    ensures MatchesOf(r, i) == []
  {
    if r != [] { NoMatches(r[..|r| - 1], i); }
  }

  lemma {:induction false} OneMatchEach(r: seq<Match>, i: nat)
    requires OneToOne(r)
    ensures |MatchesOf(r, i)| <= 1
  {
    if r != [] {
      var before, x := r[..|r| - 1], r[|r| - 1];
      assert r == before + [x];
      NewLabel(before, x);
      OneMatchEach(before, i);
      if x.l == i { NoMatches(before, i); }
    }
  }

  /** The matches of one label put the label in its cell. */
  lemma LabelCellConfused(r: seq<Match>, gt: seq<nat>, dets: seq<Detection>, nc: nat, i: nat, a: int, b: int)
    requires OneToOne(r) && i < |gt| && 0 <= a < nc && 0 <= b < nc && Indexed(r, |gt|, |dets|)
    ensures Confused(MatchesOf(r, i), gt, dets, a, b) == if LabelCell(r, gt, dets, nc, i) == (a, b) then 1 else 0
  {
    MatchesOfAre(r, i);
    OneMatchEach(r, i);
    var m := MatchesOf(r, i);
    if |m| == 1 {
      assert m[0] in m;
      assert Confused(m[..0], gt, dets, a, b) == 0;
    }
  }

  lemma BelowNext(r: seq<Match>, gt: seq<nat>, dets: seq<Detection>, nc: nat, i: nat, a: int, b: int)
    requires OneToOne(r) && i < |gt| && 0 <= a < nc && 0 <= b < nc && Indexed(r, |gt|, |dets|)
    requires forall x :: x in r ==> x.d < |dets|
    ensures ConfusedBelow(r, gt, dets, a, b, i + 1)
         == ConfusedBelow(r, gt, dets, a, b, i) + if LabelCell(r, gt, dets, nc, i) == (a, b) then 1 else 0
  {
    hide *;
    BelowStep(r, gt, dets, a, b, i);
    LabelCellConfused(r, gt, dets, nc, i, a, b);
  }

  lemma {:induction false} LabelCellsConfused(r: seq<Match>, gt: seq<nat>, dets: seq<Detection>, nc: nat, a: int, b: int, n: nat)
    requires OneToOne(r) && n <= |gt| && 0 <= a < nc && 0 <= b < nc && Indexed(r, |gt|, |dets|)
    ensures Occurs(LabelCells(r, gt, dets, nc, n), (a, b)) == ConfusedBelow(r, gt, dets, a, b, n)
  {
    assert forall x :: x in r ==> x.d < |dets|;
    hide *;
    LabelCellsLast(r, gt, dets, nc, n, (a, b));
    if n == 0 {
      BelowNone(r, gt, dets, a, b);
    } else {
      LabelCellsConfused(r, gt, dets, nc, a, b, n - 1);
      BelowNext(r, gt, dets, nc, n - 1, a, b);
    }
  }

  lemma LabelCellsLast(r: seq<Match>, gt: seq<nat>, dets: seq<Detection>, nc: nat, n: nat, y: Cell)
    requires n <= |gt| && forall x :: x in r ==> x.d < |dets|
    ensures Occurs(LabelCells(r, gt, dets, nc, n), y)
         == if n == 0 then 0
            else Occurs(LabelCells(r, gt, dets, nc, n - 1), y) + if LabelCell(r, gt, dets, nc, n - 1) == y then 1 else 0
  {
    hide LabelCell;
    if n > 0 { CountAppend(LabelCells(r, gt, dets, nc, n - 1), LabelCell(r, gt, dets, nc, n - 1), y); }
  }

  lemma {:induction false} MissCellsBackground(r: seq<Match>, dets: seq<Detection>, nc: nat, n: nat, c: Cell)
    requires n <= |dets| && c.1 != nc
    ensures Occurs(MissCells(r, dets, nc, n), c) == 0
  {
    if n > 0 {
      hide HasKey, Occurs;
      MissCellsBackground(r, dets, nc, n - 1, c);
      CountAppend(MissCells(r, dets, nc, n - 1), (dets[n - 1].cls as int, nc as int), c);
    }
  }

  lemma CountConcat(a: seq<Cell>, b: seq<Cell>, y: Cell)
    ensures Occurs(a + b, y) == Occurs(a, y) + Occurs(b, y)
  {
  }

  /**
   * Cell (a, b) of two classes counts the matches of a label of class a with a detection of class b: the true class is
   * on the first axis, the predicted class on the second.
   */
  lemma CellsAreMatches(r: seq<Match>, gt: seq<nat>, dets: seq<Detection>, nc: nat, a: int, b: int)
    requires OneToOne(r) && 0 <= a < nc && 0 <= b < nc && Indexed(r, |gt|, |dets|)
    ensures Occurs(Cells(r, gt, dets, nc), (a, b)) == Confused(r, gt, dets, a, b)
  {
    var labels, misses := LabelCells(r, gt, dets, nc, |gt|), MissCells(r, dets, nc, |dets|);
    assert Cells(r, gt, dets, nc) == labels + if |r| > 0 then misses else [];
    hide LabelCells, MissCells, Cells, OneToOne;
    LabelCellsConfused(r, gt, dets, nc, a, b, |gt|);
    MissCellsBackground(r, dets, nc, |dets|, (a, b));
    BelowAll(r, gt, dets, a, b);
    CountConcat(labels, if |r| > 0 then misses else [], (a, b));
  }

  /** The cells of class k and the background count the unmatched labels, and the unmatched detections if anything matched. */
  lemma BackgroundCells(r: seq<Match>, gt: seq<nat>, dets: seq<Detection>, nc: nat, k: int)
    requires Classes(dets, gt, nc) && k != nc && forall x :: x in r ==> x.d < |dets|
    ensures Occurs(Cells(r, gt, dets, nc), (nc as int, k)) == MissedLabels(r, gt, k, |gt|)
    ensures Occurs(Cells(r, gt, dets, nc), (k, nc as int)) == if |r| > 0 then MissedDetections(r, dets, k, |dets|) else 0
  {
    var labels, misses := LabelCells(r, gt, dets, nc, |gt|), MissCells(r, dets, nc, |dets|);
    assert Cells(r, gt, dets, nc) == labels + if |r| > 0 then misses else [];
    hide LabelCells, MissCells, Cells, MissedLabels, MissedDetections;
    LabelCellCounts(r, gt, dets, nc, k, |gt|);
    MissCellCounts(r, gt, dets, nc, k, |dets|);
    CountConcat(labels, if |r| > 0 then misses else [], (nc as int, k));
    CountConcat(labels, if |r| > 0 then misses else [], (k, nc as int));
  }

  /**
   * What a batch adds to a table: to the cell of two classes the matches of a label of the first with a detection of the
   * second; to (background, k) the unmatched labels of class k; and to (k, background) the unmatched detections of
   * class k, if anything matched.
   */
  ghost predicate Tallies(t: seq<seq<int>>, t': seq<seq<int>>, r: seq<Match>, gt: seq<nat>, dets: seq<Detection>, nc: nat) {
    && IsTable(t, nc + 1) && IsTable(t', nc + 1)
    && (forall a, b :: 0 <= a < nc && 0 <= b < nc ==> t'[a][b] == t[a][b] + Confused(r, gt, dets, a, b))
    && (Classes(dets, gt, nc) ==> forall k :: 0 <= k < nc ==>
         && t'[nc][k] == t[nc][k] + MissedLabels(r, gt, k, |gt|)
         && t'[k][nc] == t[k][nc] + if |r| > 0 then MissedDetections(r, dets, k, |dets|) else 0)
  }

  lemma BatchTallies(dets: seq<Detection>, gt: seq<nat>, nc: nat, r: seq<Match>, t: seq<seq<int>>, t': seq<seq<int>>)
    requires OneToOne(r) && Indexed(r, |gt|, |dets|) && IsTable(t, nc + 1) && IsTable(t', nc + 1)
    requires forall a, b :: 0 <= a <= nc && 0 <= b <= nc ==> t'[a][b] == t[a][b] + multiset(Cells(r, gt, dets, nc))[(a, b)]
    ensures Tallies(t, t', r, gt, dets, nc)
  {
    hide Cells, Confused, MissedLabels, MissedDetections, Classes, OneToOne;
    forall a, b | 0 <= a < nc && 0 <= b < nc ensures t'[a][b] == t[a][b] + Confused(r, gt, dets, a, b) {
      CellsAreMatches(r, gt, dets, nc, a, b);
    }
    if Classes(dets, gt, nc) {
      forall k | 0 <= k < nc
        ensures t'[nc][k] == t[nc][k] + MissedLabels(r, gt, k, |gt|)
        ensures t'[k][nc] == t[k][nc] + if |r| > 0 then MissedDetections(r, dets, k, |dets|) else 0
      {
        BackgroundCells(r, gt, dets, nc, k);
      }
    }
  }

  lemma {:induction false} MissCellCounts(r: seq<Match>, gt: seq<nat>, dets: seq<Detection>, nc: nat, k: int, n: nat)
    requires n <= |dets| && Classes(dets, gt, nc) && k != nc
    ensures Occurs(MissCells(r, dets, nc, n), (k, nc as int)) == MissedDetections(r, dets, k, n)
    ensures Occurs(MissCells(r, dets, nc, n), (nc as int, k)) == 0
  {
    if n > 0 {
      MissCellCounts(r, gt, dets, nc, k, n - 1);
      hide HasKey, Occurs;
      var before, c := MissCells(r, dets, nc, n - 1), (dets[n - 1].cls as int, nc as int);
      CountAppend(before, c, (nc as int, k));
      CountAppend(before, c, (k, nc as int));
    }
  }

  /** The unmatched labels of class k are as many as the unmatched detections of class k that are counted. */
  ghost predicate Evened(r: seq<Match>, gt: seq<nat>, dets: seq<Detection>, k: int) {
    MissedLabels(r, gt, k, |gt|) == if |r| > 0 then MissedDetections(r, dets, k, |dets|) else 0
  }

  lemma BalancedIsEvened(r: seq<Match>, gt: seq<nat>, dets: seq<Detection>, nc: nat, k: int)
    requires Classes(dets, gt, nc) && forall x :: x in r ==> x.d < |dets|
    ensures k != nc ==> (Balanced(Cells(r, gt, dets, nc), nc, k) <==> Evened(r, gt, dets, k))
    ensures Balanced(Cells(r, gt, dets, nc), nc, nc)
  {
    hide Cells, MissedLabels, MissedDetections;
    if k != nc { BackgroundCells(r, gt, dets, nc, k); }
  }

  /**
   * A batch fills the matrix with true classes on one axis and predicted classes on the other exactly when every class
   * has as many unmatched labels as counted unmatched detections.
   */
  lemma OrientationExact(r: seq<Match>, gt: seq<nat>, dets: seq<Detection>, nc: nat)
    requires Classes(dets, gt, nc) && forall x :: x in r ==> x.d < |dets|
    ensures multiset(Turned(Cells(r, gt, dets, nc), nc)) == multiset(Cells(r, gt, dets, nc))
       <==> forall k :: 0 <= k < nc ==> Evened(r, gt, dets, k)
  {
    hide Balanced, Evened, Cells;
    var cells := Cells(r, gt, dets, nc);
    TurnedSame(cells, nc);
    forall k: int
      ensures k != nc ==> (Balanced(cells, nc, k) <==> Evened(r, gt, dets, k))
      ensures Balanced(cells, nc, nc)
      ensures !(0 <= k < nc) ==> Evened(r, gt, dets, k)
    {
      BalancedIsEvened(r, gt, dets, nc, k);
      OutsideIsEvened(r, gt, dets, nc, k);
    }
    assert forall k :: Balanced(cells, nc, k) <==> k == nc || Evened(r, gt, dets, k);
  }

  lemma OutsideIsEvened(r: seq<Match>, gt: seq<nat>, dets: seq<Detection>, nc: nat, k: int)
    requires Classes(dets, gt, nc)
    ensures !(0 <= k < nc) ==> Evened(r, gt, dets, k)
  {
    if !(0 <= k < nc) {
      NoLabelsOutside(r, gt, dets, nc, k, |gt|);
      NoDetectionsOutside(r, gt, dets, nc, k, |dets|);
    }
  }

  lemma {:induction false} NoLabelsOutside(r: seq<Match>, gt: seq<nat>, dets: seq<Detection>, nc: nat, k: int, n: nat)
    requires n <= |gt| && Classes(dets, gt, nc) && !(0 <= k < nc)
    ensures MissedLabels(r, gt, k, n) == 0
  {
    if n > 0 { NoLabelsOutside(r, gt, dets, nc, k, n - 1); }
  }

  lemma {:induction false} NoDetectionsOutside(r: seq<Match>, gt: seq<nat>, dets: seq<Detection>, nc: nat, k: int, n: nat)
    requires n <= |dets| && Classes(dets, gt, nc) && !(0 <= k < nc)
    ensures MissedDetections(r, dets, k, n) == 0
  {
    if n > 0 { NoDetectionsOutside(r, gt, dets, nc, k, n - 1); }
  }

  /** One label that nothing matches already lands on the wrong side. */
  lemma MissTurnsAround()
    ensures Cells([], [0], [], 1) == [(1, 0)] && Turned(Cells([], [0], [], 1), 1) == [(0, 1)]
  {
    var gt: seq<nat> := [0];
    assert MatchesOf([], 0) == [];
    assert LabelCells([], gt, [], 1, 0) == [];
    assert LabelCells([], gt, [], 1, 1) == [LabelCell([], gt, [], 1, 0)];
  }
}
