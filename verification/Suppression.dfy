/** Non-maximum suppression: candidate selection, class offsets and the greedy pass. */
module Suppression {
  import opened Wrappers
  import opened Numbers
  import opened Boxes
  import opened Sorting

  datatype Candidate = Candidate(box: Box, conf: real, cls: nat)

  /** Pixels between the planes that boxes of different classes are moved to. */
  const MAX_WH := 4096.0

  // ----- the greedy pass -----

  type Suppresses = (Candidate, Candidate) -> bool

  predicate Hit(sup: Suppresses, kept: seq<Candidate>, x: Candidate) {
    exists i :: 0 <= i < |kept| && sup(kept[i], x)
  }

  /** Keep a candidate unless one kept before it suppresses it. */
  function Greedy(sup: Suppresses, xs: seq<Candidate>): (kept: seq<Candidate>) {
    if xs == [] then []
    else
      var before := Greedy(sup, xs[..|xs| - 1]);
      var x := xs[|xs| - 1];
      if Hit(sup, before, x) then before else before + [x]
  }

  /** By descending score. */
  ghost predicate Descending(xs: seq<Candidate>) {
    DescendingBy((x: Candidate) => x.conf, xs)
  }

  /** Earlier candidates that were kept stay kept: later ones are only appended. */
  lemma {:induction false} GreedyGrows(sup: Suppresses, xs: seq<Candidate>, p: nat)
    requires p <= |xs|
    ensures Greedy(sup, xs[..p]) <= Greedy(sup, xs)
  {
    if p < |xs| {
      GreedyGrows(sup, xs[..|xs| - 1], p);
      assert xs[..|xs| - 1][..p] == xs[..p];
    } else {
      assert xs[..p] == xs;
    }
  }

  lemma {:induction false} GreedyMembers(sup: Suppresses, xs: seq<Candidate>)
    ensures forall i :: 0 <= i < |Greedy(sup, xs)| ==> Greedy(sup, xs)[i] in xs
  {
    if xs != [] { GreedyMembers(sup, xs[..|xs| - 1]); }
  }

  /** Kept candidates come out in descending score order. */
  lemma {:induction false} GreedyDescending(sup: Suppresses, xs: seq<Candidate>)
    requires Descending(xs)
    ensures Descending(Greedy(sup, xs))
  {
    if xs != [] {
      GreedyDescending(sup, xs[..|xs| - 1]);
      GreedyMembers(sup, xs[..|xs| - 1]);
    }
  }

  /** No kept candidate suppresses a later kept one. */
  lemma {:induction false} GreedyIndependent(sup: Suppresses, xs: seq<Candidate>)
    ensures forall i, j :: 0 <= i < j < |Greedy(sup, xs)| ==> !sup(Greedy(sup, xs)[i], Greedy(sup, xs)[j])
  {
    if xs != [] {
      GreedyIndependent(sup, xs[..|xs| - 1]);
      var before, x, k := Greedy(sup, xs[..|xs| - 1]), xs[|xs| - 1], Greedy(sup, xs);
      forall i, j | 0 <= i < j < |k| ensures !sup(k[i], k[j]) {
        assert k[i] == before[i];
        assert j < |before| ==> k[j] == before[j];
      }
    }
  }

  /** Candidate number p is kept, or a kept candidate of no lower score suppresses it. */
  lemma GreedyCovers(sup: Suppresses, xs: seq<Candidate>, p: nat)
    requires p < |xs| && Descending(xs)
    ensures (Greedy(sup, xs[..p + 1]) == Greedy(sup, xs[..p]) + [xs[p]] && xs[p] in Greedy(sup, xs))
         || (exists i :: 0 <= i < |Greedy(sup, xs)| && sup(Greedy(sup, xs)[i], xs[p]) && Greedy(sup, xs)[i].conf >= xs[p].conf)
  {
    assert xs[..p + 1][..p] == xs[..p];
    GreedyGrows(sup, xs, p);
    GreedyGrows(sup, xs, p + 1);
    GreedyMembers(sup, xs[..p]);
    var before := Greedy(sup, xs[..p]);
    if Hit(sup, before, xs[p]) {
      var i :| 0 <= i < |before| && sup(before[i], xs[p]);
      assert before[i] == Greedy(sup, xs)[i];
      assert before[i] in xs[..p];
    } else {
      var k := Greedy(sup, xs[..p + 1]);
      assert k[|k| - 1] == xs[p] && Greedy(sup, xs)[|k| - 1] == xs[p];
    }
  }

  function Select(xs: seq<Candidate>, mask: seq<bool>): seq<Candidate>
    requires |xs| == |mask|
  {
    if xs == [] then []
    else
      var before := Select(xs[..|xs| - 1], mask[..|xs| - 1]);
      if mask[|xs| - 1] then before + [xs[|xs| - 1]] else before
  }

  ghost predicate IndependentMask(sup: Suppresses, xs: seq<Candidate>, mask: seq<bool>)
    requires |xs| == |mask|
  {
    forall i, j :: 0 <= i < j < |xs| && mask[i] && mask[j] ==> !sup(xs[i], xs[j])
  }

  ghost predicate CoveringMask(sup: Suppresses, xs: seq<Candidate>, mask: seq<bool>)
    requires |xs| == |mask|
  {
    forall j :: 0 <= j < |xs| && !mask[j] ==> exists i :: 0 <= i < j && mask[i] && sup(xs[i], xs[j])
  }

  lemma {:induction false} HitSelected(sup: Suppresses, xs: seq<Candidate>, mask: seq<bool>, x: Candidate)
    requires |xs| == |mask|
    ensures Hit(sup, Select(xs, mask), x) <==> exists i :: 0 <= i < |xs| && mask[i] && sup(xs[i], x)
  {
    if xs != [] {
      var n := |xs| - 1;
      HitSelected(sup, xs[..n], mask[..n], x);
      var before := Select(xs[..n], mask[..n]);
      if mask[n] { assert (before + [xs[n]])[|before|] == xs[n]; }
      if Hit(sup, before, x) {
        var i :| 0 <= i < |before| && sup(before[i], x);
        assert Select(xs, mask)[i] == before[i];
      }
    }
  }

  lemma MaskPrefix(sup: Suppresses, xs: seq<Candidate>, mask: seq<bool>, n: nat)
    requires |xs| == |mask| && n <= |xs| && IndependentMask(sup, xs, mask) && CoveringMask(sup, xs, mask)
    ensures IndependentMask(sup, xs[..n], mask[..n]) && CoveringMask(sup, xs[..n], mask[..n])
  {
  }

  lemma LastDecision(sup: Suppresses, xs: seq<Candidate>, mask: seq<bool>)
    requires |xs| == |mask| > 0 && IndependentMask(sup, xs, mask) && CoveringMask(sup, xs, mask)
    ensures var n := |xs| - 1; mask[n] <==> !exists i :: 0 <= i < n && mask[..n][i] && sup(xs[..n][i], xs[n])
  {
    var n := |xs| - 1;
    if !mask[n] {
      var i :| 0 <= i < n && mask[i] && sup(xs[i], xs[n]);
      assert mask[..n][i] && sup(xs[..n][i], xs[n]);
    }
  }

  /** Being independent and covering the rest determines the kept set: the greedy pass is the only answer. */
  lemma {:induction false} GreedyUnique(sup: Suppresses, xs: seq<Candidate>, mask: seq<bool>)
    requires |xs| == |mask| && IndependentMask(sup, xs, mask) && CoveringMask(sup, xs, mask)
    ensures Select(xs, mask) == Greedy(sup, xs)
  {
    if xs != [] {
      var n := |xs| - 1;
      assert Select(xs, mask) == if mask[n] then Select(xs[..n], mask[..n]) + [xs[n]] else Select(xs[..n], mask[..n]);
      hide Select, Greedy, Hit, CoveringMask, IndependentMask;
      MaskPrefix(sup, xs, mask, n);
      GreedyUnique(sup, xs[..n], mask[..n]);
      HitSelected(sup, xs[..n], mask[..n], xs[n]);
      LastDecision(sup, xs, mask);
      GreedyAppend(sup, xs[..n], xs[n]);
      assert xs == xs[..n] + [xs[n]];
    }
  }

  /** The pass as it is executed: take the best remaining candidate and strike out what it suppresses. */
  method Nms(sup: Suppresses, xs: seq<Candidate>) returns (kept: seq<Candidate>)
    ensures kept == Greedy(sup, xs)
  {
    kept := [];
    var suppressed := seq(|xs|, _ => false);
    for i := 0 to |xs|
      invariant |suppressed| == |xs|
      invariant kept == Greedy(sup, xs[..i])
      invariant forall j :: i <= j < |xs| ==> (suppressed[j] <==> Hit(sup, kept, xs[j]))
    {
      assert xs[..i + 1][..i] == xs[..i];
      if suppressed[i] { continue; }
      var before := kept;
      kept := kept + [xs[i]];
      for j := i + 1 to |xs|
        invariant |suppressed| == |xs|
        invariant forall k :: i + 1 <= k < j ==> (suppressed[k] <==> Hit(sup, before, xs[k]) || sup(xs[i], xs[k]))
        invariant forall k :: j <= k < |xs| ==> (suppressed[k] <==> Hit(sup, before, xs[k]))
      {
        if sup(xs[i], xs[j]) {
          suppressed := suppressed[j := true];
        }
      }
      forall k | i + 1 <= k < |xs| ensures suppressed[k] <==> Hit(sup, kept, xs[k]) {
        HitAppend(sup, before, xs[i], xs[k]);
      }
    }
    assert xs[..|xs|] == xs;
  }

  lemma HitAppend(sup: Suppresses, kept: seq<Candidate>, y: Candidate, x: Candidate)
    ensures Hit(sup, kept + [y], x) <==> Hit(sup, kept, x) || sup(y, x)
  {
    if Hit(sup, kept, x) {
      var i :| 0 <= i < |kept| && sup(kept[i], x);
      assert (kept + [y])[i] == kept[i];
    }
    assert (kept + [y])[|kept|] == y;
  }

  // ----- class offsets -----

  function Offset(x: Candidate): Box {
    x.box.Shift(x.cls as real * MAX_WH)
  }

  function OffsetOverlap(threshold: real): Suppresses {
    (a: Candidate, b: Candidate) => Overlaps(Offset(a), Offset(b), threshold)
  }

  function PlainOverlap(threshold: real): Suppresses {
    (a: Candidate, b: Candidate) => Overlaps(a.box, b.box, threshold)
  }

  function ClassOverlap(threshold: real): Suppresses {
    (a: Candidate, b: Candidate) => a.cls == b.cls && Overlaps(a.box, b.box, threshold)
  }

  function OfClass(xs: seq<Candidate>, c: nat): (r: seq<Candidate>) {
    if xs == [] then []
    else
      var before := OfClass(xs[..|xs| - 1], c);
      if xs[|xs| - 1].cls == c then before + [xs[|xs| - 1]] else before
  }

  lemma {:induction false} HitOfClass(threshold: real, kept: seq<Candidate>, x: Candidate)
    ensures Hit(ClassOverlap(threshold), kept, x) <==> Hit(PlainOverlap(threshold), OfClass(kept, x.cls), x)
  {
    if kept != [] {
      var n := |kept| - 1;
      HitOfClass(threshold, kept[..n], x);
      HitAppend(ClassOverlap(threshold), kept[..n], kept[n], x);
      assert kept == kept[..n] + [kept[n]];
      if kept[n].cls == x.cls { HitAppend(PlainOverlap(threshold), OfClass(kept[..n], x.cls), kept[n], x); }
    }
  }

  lemma OfClassAppend(xs: seq<Candidate>, x: Candidate, c: nat)
    ensures OfClass(xs + [x], c) == if x.cls == c then OfClass(xs, c) + [x] else OfClass(xs, c)
  {
  }

  lemma GreedyAppend(sup: Suppresses, xs: seq<Candidate>, x: Candidate)
    ensures Greedy(sup, xs + [x]) == if Hit(sup, Greedy(sup, xs), x) then Greedy(sup, xs) else Greedy(sup, xs) + [x]
  {
  }

  /** A pass that only compares within classes is one independent pass per class. */
  lemma {:induction false} GreedyPerClass(threshold: real, xs: seq<Candidate>, c: nat)
    ensures OfClass(Greedy(ClassOverlap(threshold), xs), c) == Greedy(PlainOverlap(threshold), OfClass(xs, c))
  {
    if xs != [] {
      var n := |xs| - 1;
      var x := xs[n];
      GreedyPerClass(threshold, xs[..n], c);
      var kept := Greedy(ClassOverlap(threshold), xs[..n]);
      OfClassAppend(kept, x, c);
      if x.cls == c {
        HitOfClass(threshold, kept, x);
        GreedyAppend(PlainOverlap(threshold), OfClass(xs[..n], c), x);
      }
    }
  }

  lemma {:induction false} GreedySame(f: Suppresses, g: Suppresses, xs: seq<Candidate>)
    requires forall a, b :: a in xs && b in xs ==> f(a, b) == g(a, b)
    ensures Greedy(f, xs) == Greedy(g, xs)
  {
    if xs != [] {
      var n := |xs| - 1;
      GreedySame(f, g, xs[..n]);
      GreedyMembers(f, xs[..n]);
      assert forall i :: 0 <= i < |Greedy(f, xs[..n])| ==> Greedy(f, xs[..n])[i] in xs;
    }
  }

  /** All corners lie in a window of wx columns and wy rows with corner (x, y). */
  predicate InWindow(b: Box, x: real, y: real, wx: real, wy: real) {
    b.Proper() && x <= b.x1 && b.x2 <= x + wx && y <= b.y1 && b.y2 <= y + wy
  }

  ghost predicate AllInWindow(xs: seq<Candidate>, x: real, y: real, wx: real, wy: real) {
    forall i :: 0 <= i < |xs| ==> InWindow(xs[i].box, x, y, wx, wy)
  }

  lemma OffsetSeparates(threshold: real, a: Candidate, b: Candidate, x: real, y: real, wx: real, wy: real)
    requires threshold >= 0.0 && (wx <= MAX_WH || wy <= MAX_WH)
    requires InWindow(a.box, x, y, wx, wy) && InWindow(b.box, x, y, wx, wy)
    ensures OffsetOverlap(threshold)(a, b) == ClassOverlap(threshold)(a, b)
  {
    if a.cls == b.cls {
      OverlapsShift(a.box, b.box, threshold, a.cls as real * MAX_WH);
    } else if a.cls < b.cls {
      ClassPlanes(a.cls, b.cls);
      ApartDoNotOverlap(Offset(a), Offset(b), threshold);
    } else {
      ClassPlanes(b.cls, a.cls);
      ApartDoNotOverlap(Offset(b), Offset(a), threshold);
    }
  }

  lemma ClassPlanes(i: nat, j: nat)
    requires i < j
    ensures i as real * MAX_WH + MAX_WH <= j as real * MAX_WH
  {
  }

  /** Offset suppression keeps, class by class, what suppressing each class on its own keeps. */
  lemma OffsetIsPerClass(threshold: real, xs: seq<Candidate>, x: real, y: real, wx: real, wy: real, c: nat)
    requires threshold >= 0.0 && (wx <= MAX_WH || wy <= MAX_WH) && AllInWindow(xs, x, y, wx, wy)
    ensures OfClass(Greedy(OffsetOverlap(threshold), xs), c) == Greedy(PlainOverlap(threshold), OfClass(xs, c))
  {
    forall a, b | a in xs && b in xs ensures OffsetOverlap(threshold)(a, b) == ClassOverlap(threshold)(a, b) {
      OffsetSeparates(threshold, a, b, x, y, wx, wy);
    }
    GreedySame(OffsetOverlap(threshold), ClassOverlap(threshold), xs);
    GreedyPerClass(threshold, xs, c);
  }

  ghost predicate OffsetSafe(threshold: real, wx: real, wy: real) {
    forall xs: seq<Candidate>, x: real, y: real, c: nat :: Descending(xs) && AllInWindow(xs, x, y, wx, wy) ==>
      OfClass(Greedy(OffsetOverlap(threshold), xs), c) == Greedy(PlainOverlap(threshold), OfClass(xs, c))
  }

  /** The class offset is safe for exactly the windows that are no larger than it on one of the axes. */
  lemma OffsetExact(threshold: real, wx: real, wy: real)
    requires 0.0 <= threshold < 1.0
    ensures OffsetSafe(threshold, wx, wy) <==> wx <= MAX_WH || wy <= MAX_WH
  {
    if wx <= MAX_WH || wy <= MAX_WH {
      forall xs: seq<Candidate>, x: real, y: real, c: nat | Descending(xs) && AllInWindow(xs, x, y, wx, wy)
        ensures OfClass(Greedy(OffsetOverlap(threshold), xs), c) == Greedy(PlainOverlap(threshold), OfClass(xs, c))
      {
        OffsetIsPerClass(threshold, xs, x, y, wx, wy, c);
      }
    } else {
      TooWide(threshold, wx, wy);
    }
  }

  /** In a larger window a box of class 1 can land exactly on a box of class 0 and be lost. */
  lemma TooWide(threshold: real, wx: real, wy: real)
    requires 0.0 <= threshold < 1.0 && wx > MAX_WH && wy > MAX_WH
    ensures !OffsetSafe(threshold, wx, wy)
  {
    var a := Candidate(Box(MAX_WH, MAX_WH, wx, wy), 1.0, 0);
    var b := Candidate(Box(0.0, 0.0, wx - MAX_WH, wy - MAX_WH), 1.0, 1);
    hide Greedy, OfClass, Overlaps;
    var xs := [a, b];
    assert AllInWindow(xs, 0.0, 0.0, wx, wy) && Descending(xs);
    assert Offset(a) == Offset(b) == a.box;
    OverlapsItself(a.box, threshold);
    var sup := OffsetOverlap(threshold);
    assert sup(a, b);
    GreedyPair(sup, a, b);
    OfClassPair(a, b);
    GreedyOne(PlainOverlap(threshold), b);
    assert OfClass(Greedy(sup, xs), 1) != Greedy(PlainOverlap(threshold), OfClass(xs, 1));
  }

  lemma OfClassPair(a: Candidate, b: Candidate)
    requires a.cls == 0 && b.cls == 1
    ensures OfClass([a], 1) == [] && OfClass([a, b], 1) == [b]
  {
  }

  lemma GreedyOne(sup: Suppresses, a: Candidate)
    ensures Greedy(sup, [a]) == [a]
  {
  }

  lemma GreedyPair(sup: Suppresses, a: Candidate, b: Candidate)
    requires sup(a, b)
    ensures Greedy(sup, [a, b]) == [a]
  {
    hide Greedy;
    GreedyOne(sup, a);
    GreedyAppend(sup, [a], b);
    assert [a] + [b] == [a, b];
    assert [a][0] == a && Hit(sup, [a], b);
  }

  // ----- from predictions to candidates -----

  /** One prediction: a box by centre and size, an objectness, and one score per class. */
  datatype Row = Row(x: real, y: real, w: real, h: real, obj: real, cls: seq<real>)

  datatype Label = Label(cls: nat, x: real, y: real, w: real, h: real)

  datatype Settings = Settings(confThres: real, iouThres: real, classes: Option<set<nat>>, agnostic: bool, multiLabel: bool)

  const MAX_DET := 300
  const MAX_NMS := 30000

  function Score(row: Row, j: nat): real
    requires j < |row.cls|
  {
    row.cls[j] * row.obj
  }

  /** The class with the best score among the first n, the earliest on a tie. */
  function Best(row: Row, n: nat): (b: nat)
    requires 0 < n <= |row.cls|
    ensures b < n
    ensures forall j :: 0 <= j < n ==> Score(row, j) <= Score(row, b)
  {
    if n == 1 then 0
    else
      var b := Best(row, n - 1);
      if Score(row, n - 1) > Score(row, b) then n - 1 else b
  }

  function Detection(row: Row, j: nat): Candidate
    requires j < |row.cls|
  {
    Candidate(FromCentre(row.x, row.y, row.w, row.h), Score(row, j), j)
  }

  /** Every class of the row whose score exceeds the threshold. */
  function AllLabels(row: Row, thres: real, n: nat): seq<Candidate>
    requires n <= |row.cls|
  {
    if n == 0 then []
    else
      var before := AllLabels(row, thres, n - 1);
      if Score(row, n - 1) > thres then before + [Detection(row, n - 1)] else before
  }

  function RowCandidates(s: Settings, row: Row): seq<Candidate>
    requires |row.cls| > 0
  {
    if s.multiLabel && |row.cls| > 1 then AllLabels(row, s.confThres, |row.cls|)
    else
      var b := Best(row, |row.cls|);
      if Score(row, b) > s.confThres then [Detection(row, b)] else []
  }

  predicate Classified(rows: seq<Row>, nc: nat) {
    forall i :: 0 <= i < |rows| ==> |rows[i].cls| == nc
  }

  function Candidates(s: Settings, rows: seq<Row>, nc: nat): seq<Candidate>
    requires nc > 0 && Classified(rows, nc)
  {
    if rows == [] then []
    else Candidates(s, rows[..|rows| - 1], nc) + RowCandidates(s, rows[|rows| - 1])
  }

  function PreFilter(s: Settings, rows: seq<Row>, nc: nat): (r: seq<Row>)
    requires Classified(rows, nc)
    ensures Classified(r, nc)
  {
    if rows == [] then []
    else
      var before := PreFilter(s, rows[..|rows| - 1], nc);
      if rows[|rows| - 1].obj > s.confThres then before + [rows[|rows| - 1]] else before
  }

  /** The box has the centre and size of the row, and the score is the class score times the objectness. */
  predicate Reports(row: Row, x: Candidate) {
    && x.cls < |row.cls| && x.conf == row.obj * row.cls[x.cls]
    && (x.box.x1 + x.box.x2) / 2.0 == row.x && (x.box.y1 + x.box.y2) / 2.0 == row.y
    && x.box.x2 - x.box.x1 == row.w && x.box.y2 - x.box.y1 == row.h
  }

  /** No class of the row scores higher than j, and no earlier class as high. */
  predicate IsBest(row: Row, j: nat) {
    j < |row.cls| && forall i :: 0 <= i < |row.cls| ==> Score(row, i) <= Score(row, j) && (i < j ==> Score(row, i) < Score(row, j))
  }

  /** Under the given settings x is a candidate of the row. */
  predicate Proposes(s: Settings, row: Row, x: Candidate) {
    Reports(row, x) && x.conf > s.confThres && ((s.multiLabel && |row.cls| > 1) || IsBest(row, x.cls))
  }

  lemma ReportsOne(row: Row, x: Candidate)
    ensures Reports(row, x) <==> x.cls < |row.cls| && x == Detection(row, x.cls)
  {
  }

  lemma {:induction false} BestIsFirst(row: Row, n: nat)
    requires 0 < n <= |row.cls|
    ensures forall i :: 0 <= i < Best(row, n) ==> Score(row, i) < Score(row, Best(row, n))
  {
    if n > 1 { BestIsFirst(row, n - 1); }
  }

  lemma BestIs(row: Row, j: nat)
    requires |row.cls| > 0
    ensures IsBest(row, j) <==> j == Best(row, |row.cls|)
  {
    BestIsFirst(row, |row.cls|);
  }

  lemma {:induction false} AllLabelsAre(row: Row, thres: real, n: nat, x: Candidate)
    requires n <= |row.cls|
    ensures x in AllLabels(row, thres, n) <==> x.cls < n && x == Detection(row, x.cls) && x.conf > thres
  {
    if n > 0 { AllLabelsAre(row, thres, n - 1, x); }
  }

  /** The candidates of a row: its best class, or with several labels every class, above the threshold. */
  lemma RowCandidatesAre(s: Settings, row: Row, x: Candidate)
    requires |row.cls| > 0
    ensures x in RowCandidates(s, row) <==> Proposes(s, row, x)
  {
    hide Reports, IsBest, Detection;
    ReportsOne(row, x);
    BestIs(row, x.cls);
    AllLabelsAre(row, s.confThres, |row.cls|, x);
    DetectionIs(row, Best(row, |row.cls|));
  }

  lemma DetectionIs(row: Row, j: nat)
    requires j < |row.cls|
    ensures Detection(row, j).cls == j && Detection(row, j).conf == Score(row, j)
  {
  }

  /** No class of a row is proposed twice. */
  lemma RowCandidatesDistinct(s: Settings, row: Row)
    requires |row.cls| > 0
    ensures forall i, j :: 0 <= i < j < |RowCandidates(s, row)| ==> RowCandidates(s, row)[i].cls < RowCandidates(s, row)[j].cls
  {
    AllLabelsRise(row, s.confThres, |row.cls|);
  }

  lemma {:induction false} AllLabelsRise(row: Row, thres: real, n: nat)
    requires n <= |row.cls|
    ensures forall i :: 0 <= i < |AllLabels(row, thres, n)| ==> AllLabels(row, thres, n)[i].cls < n
    ensures forall i, j :: 0 <= i < j < |AllLabels(row, thres, n)| ==>
              AllLabels(row, thres, n)[i].cls < AllLabels(row, thres, n)[j].cls
  {
    if n > 0 { AllLabelsRise(row, thres, n - 1); }
  }

  lemma {:induction false} CandidatesAre(s: Settings, rows: seq<Row>, nc: nat, x: Candidate)
    requires nc > 0 && Classified(rows, nc)
    ensures x in Candidates(s, rows, nc) <==> exists i :: 0 <= i < |rows| && Proposes(s, rows[i], x)
  {
    if rows != [] {
      var n := |rows| - 1;
      CandidatesAre(s, rows[..n], nc, x);
      RowCandidatesAre(s, rows[n], x);
      hide Proposes, RowCandidates;
      if i :| 0 <= i < |rows| && Proposes(s, rows[i], x) {
        if i < n { assert Proposes(s, rows[..n][i], x); }
      }
    }
  }

  lemma {:induction false} PreFilterIs(s: Settings, rows: seq<Row>, nc: nat, row: Row)
    requires Classified(rows, nc)
    ensures row in PreFilter(s, rows, nc) <==> row in rows && row.obj > s.confThres
  {
    if rows != [] {
      PreFilterIs(s, rows[..|rows| - 1], nc, row);
      assert rows == rows[..|rows| - 1] + [rows[|rows| - 1]];
    }
  }

  predicate UnitScores(row: Row) {
    forall j :: 0 <= j < |row.cls| ==> 0.0 <= row.cls[j] <= 1.0
  }

  lemma WeakScore(c: real, obj: real, thres: real)
    requires 0.0 <= c <= 1.0 && obj <= thres && thres >= 0.0
    ensures c * obj <= thres
  {
    if obj <= 0.0 {
      NonNegativeProduct(c, -obj);
      assert c * -obj == -(c * obj);
    } else {
      NonNegativeProduct(1.0 - c, obj);
      assert (1.0 - c) * obj == obj - c * obj;
    }
  }

  lemma NoCandidates(s: Settings, row: Row)
    requires |row.cls| > 0 && UnitScores(row) && row.obj <= s.confThres && s.confThres >= 0.0
    ensures RowCandidates(s, row) == []
  {
    forall j | 0 <= j < |row.cls| ensures Score(row, j) <= s.confThres { WeakScore(row.cls[j], row.obj, s.confThres); }
    NoLabels(row, s.confThres, |row.cls|);
  }

  lemma {:induction false} NoLabels(row: Row, thres: real, n: nat)
    requires n <= |row.cls| && forall j :: 0 <= j < n ==> Score(row, j) <= thres
    ensures AllLabels(row, thres, n) == []
  {
    if n > 0 { NoLabels(row, thres, n - 1); }
  }

  /** The objectness pre-filter changes nothing when class scores lie in [0, 1]. */
  lemma {:induction false} PreFilterRedundant(s: Settings, rows: seq<Row>, nc: nat)
    requires nc > 0 && Classified(rows, nc) && s.confThres >= 0.0
    requires forall i :: 0 <= i < |rows| ==> UnitScores(rows[i])
    ensures Candidates(s, PreFilter(s, rows, nc), nc) == Candidates(s, rows, nc)
  {
    if rows != [] {
      var before, row := rows[..|rows| - 1], rows[|rows| - 1];
      PreFilterRedundant(s, before, nc);
      hide RowCandidates;
      if row.obj > s.confThres {
        assert (PreFilter(s, before, nc) + [row])[..|PreFilter(s, before, nc)|] == PreFilter(s, before, nc);
      } else {
        NoCandidates(s, row);
      }
    }
  }

  // ----- sorting -----

  /** A stable sort by descending score. */
  function SortDescending(xs: seq<Candidate>): seq<Candidate> {
    SortBy((x: Candidate) => x.conf, xs)
  }

  lemma SortDescendingSorts(xs: seq<Candidate>)
    ensures Descending(SortDescending(xs)) && multiset(SortDescending(xs)) == multiset(xs)
  {
    SortBySorts((x: Candidate) => x.conf, xs);
  }

  // ----- one image -----

  function LabelRow(l: Label, nc: nat): Row {
    Row(l.x, l.y, l.w, l.h, 1.0, seq(nc, j => if j == l.cls then 1.0 else 0.0))
  }

  function LabelRows(ls: seq<Label>, nc: nat): (rows: seq<Row>)
    ensures Classified(rows, nc)
  {
    seq(|ls|, i requires 0 <= i < |ls| => LabelRow(ls[i], nc))
  }

  function OfClasses(xs: seq<Candidate>, classes: Option<set<nat>>): seq<Candidate> {
    if classes.None? then xs
    else if xs == [] then []
    else
      var before := OfClasses(xs[..|xs| - 1], classes);
      if xs[|xs| - 1].cls in classes.value then before + [xs[|xs| - 1]] else before
  }

  function Take(xs: seq<Candidate>, n: nat): seq<Candidate> {
    if |xs| > n then xs[..n] else xs
  }

  /** The candidates of an image that reach the greedy pass. */
  function Shortlist(s: Settings, rows: seq<Row>, labels: seq<Label>, nc: nat): seq<Candidate>
    requires nc > 0 && Classified(rows, nc)
  {
    OfClasses(Candidates(s, PreFilter(s, rows, nc) + LabelRows(labels, nc), nc), s.classes)
  }

  /** A label stands in as a prediction: it proposes its own box and class with full confidence, and nothing else. */
  lemma LabelProposes(s: Settings, l: Label, nc: nat, x: Candidate)
    requires l.cls < nc && 0.0 <= s.confThres < 1.0
    ensures Proposes(s, LabelRow(l, nc), x) <==> x == Candidate(FromCentre(l.x, l.y, l.w, l.h), 1.0, l.cls)
  {
    hide Reports, FromCentre;
    var row := LabelRow(l, nc);
    ReportsOne(row, x);
    assert forall j :: 0 <= j < nc ==> Score(row, j) == if j == l.cls then 1.0 else 0.0;
  }

  lemma {:induction false} OfClassesAre(xs: seq<Candidate>, classes: Option<set<nat>>, x: Candidate)
    ensures x in OfClasses(xs, classes) <==> x in xs && (classes.Some? ==> x.cls in classes.value)
  {
    if classes.Some? && xs != [] {
      OfClassesAre(xs[..|xs| - 1], classes, x);
      assert xs == xs[..|xs| - 1] + [xs[|xs| - 1]];
    }
  }

  /**
   * What reaches the greedy pass: exactly the proposals of the predictions with enough objectness and of the labels,
   * in the requested classes.
   */
  lemma ShortlistIs(s: Settings, rows: seq<Row>, labels: seq<Label>, nc: nat, x: Candidate)
    requires nc > 0 && Classified(rows, nc)
    ensures x in Shortlist(s, rows, labels, nc) <==>
            && (s.classes.Some? ==> x.cls in s.classes.value)
            && ((exists row :: row in rows && row.obj > s.confThres && Proposes(s, row, x))
                || exists l :: l in labels && Proposes(s, LabelRow(l, nc), x))
  {
    hide Proposes, Candidates, PreFilter, OfClasses, LabelRow;
    var kept, given := PreFilter(s, rows, nc), LabelRows(labels, nc);
    var all := kept + given;
    OfClassesAre(Candidates(s, all, nc), s.classes, x);
    CandidatesAre(s, all, nc, x);
    forall row ensures row in kept <==> row in rows && row.obj > s.confThres { PreFilterIs(s, rows, nc, row); }
    if i :| 0 <= i < |all| && Proposes(s, all[i], x) {
      if i < |kept| {
        assert all[i] in kept;
      } else {
        assert labels[i - |kept|] in labels && all[i] == LabelRow(labels[i - |kept|], nc);
      }
    }
    if row :| row in rows && row.obj > s.confThres && Proposes(s, row, x) {
      assert row in kept;
      var i :| 0 <= i < |kept| && kept[i] == row;
      assert all[i] == row;
    }
    if l :| l in labels && Proposes(s, LabelRow(l, nc), x) {
      var i :| 0 <= i < |labels| && labels[i] == l;
      assert all[|kept| + i] == LabelRow(l, nc);
    }
  }

  function Rule(s: Settings): Suppresses {
    if s.agnostic then PlainOverlap(s.iouThres) else OffsetOverlap(s.iouThres)
  }

  /** The best 30000 candidates of an image. */
  function Order(s: Settings, rows: seq<Row>, labels: seq<Label>, nc: nat): seq<Candidate>
    requires nc > 0 && Classified(rows, nc)
  {
    Take(SortDescending(Shortlist(s, rows, labels, nc)), MAX_NMS)
  }

  /** What the greedy pass keeps of them. */
  function Survivors(s: Settings, rows: seq<Row>, labels: seq<Label>, nc: nat): seq<Candidate>
    requires nc > 0 && Classified(rows, nc)
  {
    Greedy(Rule(s), Order(s, rows, labels, nc))
  }

  /** The detections of one image. */
  function ImageResult(s: Settings, rows: seq<Row>, labels: seq<Label>, nc: nat): seq<Candidate>
    requires nc > 0 && Classified(rows, nc)
  {
    Take(Survivors(s, rows, labels, nc), MAX_DET)
  }

  ghost predicate Above(xs: seq<Candidate>, thres: real) {
    forall i :: 0 <= i < |xs| ==> xs[i].conf > thres
  }

  lemma {:induction false} LabelsAbove(row: Row, thres: real, n: nat)
    requires n <= |row.cls|
    ensures Above(AllLabels(row, thres, n), thres)
  {
    if n > 0 { LabelsAbove(row, thres, n - 1); }
  }

  lemma {:induction false} CandidatesAbove(s: Settings, rows: seq<Row>, nc: nat)
    requires nc > 0 && Classified(rows, nc)
    ensures Above(Candidates(s, rows, nc), s.confThres)
  {
    if rows != [] {
      CandidatesAbove(s, rows[..|rows| - 1], nc);
      LabelsAbove(rows[|rows| - 1], s.confThres, nc);
    }
  }

  lemma {:induction false} OfClassesMembers(xs: seq<Candidate>, classes: Option<set<nat>>)
    ensures forall i :: 0 <= i < |OfClasses(xs, classes)| ==>
              OfClasses(xs, classes)[i] in xs && (classes.Some? ==> OfClasses(xs, classes)[i].cls in classes.value)
  {
    if classes.Some? && xs != [] { OfClassesMembers(xs[..|xs| - 1], classes); }
  }

  lemma ShortlistSound(s: Settings, rows: seq<Row>, labels: seq<Label>, nc: nat)
    requires nc > 0 && Classified(rows, nc)
    ensures forall x :: x in Shortlist(s, rows, labels, nc) ==>
              x.conf > s.confThres && (s.classes.Some? ==> x.cls in s.classes.value)
  {
    var all := PreFilter(s, rows, nc) + LabelRows(labels, nc);
    CandidatesAbove(s, all, nc);
    hide Candidates, OfClasses;
    OfClassesMembers(Candidates(s, all, nc), s.classes);
  }

  /** The best of the survivors of the best: sorted, drawn from the input, none suppressing another. */
  lemma PassSound(sup: Suppresses, xs: seq<Candidate>, m: nat, k: nat)
    ensures var r := Take(Greedy(sup, Take(SortDescending(xs), m)), k);
            && |r| <= k && Descending(r) && (forall i :: 0 <= i < |r| ==> r[i] in xs)
            && (forall i, j :: 0 <= i < j < |r| ==> !sup(r[i], r[j]))
  {
    var sorted := SortDescending(xs);
    var order := Take(sorted, m);
    hide SortDescending, Greedy;
    SortDescendingSorts(xs);
    GreedyDescending(sup, order);
    GreedyIndependent(sup, order);
    var kept := Greedy(sup, order);
    forall i | 0 <= i < |kept| ensures kept[i] in xs { KeptFromInput(sup, xs, m, i); }
  }

  lemma KeptFromInput(sup: Suppresses, xs: seq<Candidate>, m: nat, i: nat)
    requires i < |Greedy(sup, Take(SortDescending(xs), m))|
    ensures Greedy(sup, Take(SortDescending(xs), m))[i] in xs
  {
    hide SortDescending, Greedy;
    var sorted := SortDescending(xs);
    GreedyMembers(sup, Take(sorted, m));
    SortDescendingSorts(xs);
    var x := Greedy(sup, Take(sorted, m))[i];
    assert x in sorted;
    assert x in multiset(sorted);
  }

  /** The candidate is kept, or a kept one of no lower score suppresses it. */
  ghost predicate Covered(sup: Suppresses, kept: seq<Candidate>, x: Candidate) {
    x in kept || exists i :: 0 <= i < |kept| && sup(kept[i], x) && kept[i].conf >= x.conf
  }

  /** A candidate is among the best m, or the best m are full and none of them has a lower score. */
  ghost predicate Ranked(order: seq<Candidate>, m: nat, x: Candidate) {
    x in order || (|order| == m && forall i :: 0 <= i < |order| ==> order[i].conf >= x.conf)
  }

  lemma TakeRanks(xs: seq<Candidate>, m: nat, x: Candidate)
    requires x in xs
    ensures Ranked(Take(SortDescending(xs), m), m, x)
  {
    hide SortDescending;
    SortDescendingSorts(xs);
    var sorted := SortDescending(xs);
    assert x in multiset(sorted);
    var j :| 0 <= j < |sorted| && sorted[j] == x;
    if j < m {
      assert Take(sorted, m)[j] == x;
    }
  }

  /**
   * Nothing is lost for another reason than suppression or a limit: every candidate is among the best 30000 or scores
   * no higher than they do, each of those is kept or suppressed by a kept one of no lower score, and the report is the
   * first 300 of the kept ones.
   */
  lemma ImageCovers(s: Settings, rows: seq<Row>, labels: seq<Label>, nc: nat)
    requires nc > 0 && Classified(rows, nc)
    ensures forall x :: x in Shortlist(s, rows, labels, nc) ==> Ranked(Order(s, rows, labels, nc), MAX_NMS, x)
    ensures forall x :: x in Order(s, rows, labels, nc) ==> Covered(Rule(s), Survivors(s, rows, labels, nc), x)
    ensures ImageResult(s, rows, labels, nc) <= Survivors(s, rows, labels, nc)
    ensures |ImageResult(s, rows, labels, nc)| < MAX_DET ==>
              ImageResult(s, rows, labels, nc) == Survivors(s, rows, labels, nc)
  {
    hide Shortlist, SortDescending, Greedy, Rule, Ranked;
    var order := Order(s, rows, labels, nc);
    forall x | x in Shortlist(s, rows, labels, nc) ensures Ranked(order, MAX_NMS, x) {
      TakeRanks(Shortlist(s, rows, labels, nc), MAX_NMS, x);
    }
    SortDescendingSorts(Shortlist(s, rows, labels, nc));
    forall x | x in order ensures Covered(Rule(s), Greedy(Rule(s), order), x) {
      var p :| 0 <= p < |order| && order[p] == x;
      GreedyCovers(Rule(s), order, p);
    }
  }

  /**
   * What an image reports: at most 300 detections, in descending score order, all above the confidence threshold and
   * of a requested class, none of which suppresses another; and while there are fewer than 300, every candidate among
   * the best 30000 is reported or suppressed by a reported one of no lower score.
   */
  lemma ImageResultSound(s: Settings, rows: seq<Row>, labels: seq<Label>, nc: nat)
    requires nc > 0 && Classified(rows, nc)
    ensures var r := ImageResult(s, rows, labels, nc);
            && |r| <= MAX_DET && Descending(r) && Above(r, s.confThres)
            && (forall i :: 0 <= i < |r| && s.classes.Some? ==> r[i].cls in s.classes.value)
            && (forall i, j :: 0 <= i < j < |r| ==> !Rule(s)(r[i], r[j]))
            && (|r| < MAX_DET ==> forall x :: x in Order(s, rows, labels, nc) ==> Covered(Rule(s), r, x))
  {
    hide Shortlist, SortDescending, Greedy, Rule, Take, Covered;
    ImageCovers(s, rows, labels, nc);
    ShortlistSound(s, rows, labels, nc);
    PassSound(Rule(s), Shortlist(s, rows, labels, nc), MAX_NMS, MAX_DET);
  }

  /** Reported boxes of the same class overlap by no more than the threshold. */
  lemma SameClassApart(s: Settings, rows: seq<Row>, labels: seq<Label>, nc: nat, i: nat, j: nat)
    requires nc > 0 && Classified(rows, nc)
    requires i < j < |ImageResult(s, rows, labels, nc)|
    requires ImageResult(s, rows, labels, nc)[i].cls == ImageResult(s, rows, labels, nc)[j].cls
    ensures !Overlaps(ImageResult(s, rows, labels, nc)[i].box, ImageResult(s, rows, labels, nc)[j].box, s.iouThres)
  {
    hide *;
    ImageResultSound(s, rows, labels, nc);
    var r := ImageResult(s, rows, labels, nc);
    RuleWithinClass(s, r[i], r[j]);
  }

  /** Within a class both rules compare the boxes as they are. */
  lemma RuleWithinClass(s: Settings, a: Candidate, b: Candidate)
    requires a.cls == b.cls
    ensures Rule(s)(a, b) <==> Overlaps(a.box, b.box, s.iouThres)
  {
    hide Intersection, Union;
    OverlapsShift(a.box, b.box, s.iouThres, a.cls as real * MAX_WH);
    assert Offset(a) == a.box.Shift(a.cls as real * MAX_WH) && Offset(b) == b.box.Shift(a.cls as real * MAX_WH);
  }

  /**
   * The report of an image without class-agnostic suppression: for boxes in a window no larger than the class offset
   * on one of the axes, every class comes out as if it had been suppressed alone.
   */
  lemma ReportPerClass(s: Settings, rows: seq<Row>, labels: seq<Label>, nc: nat,
                       x: real, y: real, wx: real, wy: real, c: nat)
    requires nc > 0 && Classified(rows, nc) && !s.agnostic && s.iouThres >= 0.0 && (wx <= MAX_WH || wy <= MAX_WH)
    requires AllInWindow(Order(s, rows, labels, nc), x, y, wx, wy)
    ensures OfClass(Survivors(s, rows, labels, nc), c) == Greedy(PlainOverlap(s.iouThres), OfClass(Order(s, rows, labels, nc), c))
  {
    hide Order, Greedy, OfClass;
    OffsetIsPerClass(s.iouThres, Order(s, rows, labels, nc), x, y, wx, wy, c);
  }

  /** The report with class-agnostic suppression: no two boxes, of whatever classes, overlap above the threshold. */
  lemma ReportAgnostic(s: Settings, rows: seq<Row>, labels: seq<Label>, nc: nat, i: nat, j: nat)
    requires nc > 0 && Classified(rows, nc) && s.agnostic
    requires i < j < |ImageResult(s, rows, labels, nc)|
    ensures !Overlaps(ImageResult(s, rows, labels, nc)[i].box, ImageResult(s, rows, labels, nc)[j].box, s.iouThres)
  {
    hide ImageResult, Overlaps;
    ImageResultSound(s, rows, labels, nc);
    var r := ImageResult(s, rows, labels, nc);
    assert !Rule(s)(r[i], r[j]);
  }

  /**
   * The two rules differ on one image: with class-agnostic suppression a box equal to a better one of another class is
   * dropped, without it both are kept.
   */
  lemma AgnosticDrops(s: Settings, a: Candidate, b: Candidate)
    requires a.box == b.box && a.cls != b.cls && a.box.x1 < a.box.x2 && a.box.y1 < a.box.y2
    requires a.box.x2 - a.box.x1 <= MAX_WH && 0.0 <= s.iouThres < 1.0
    ensures Greedy(Rule(s), [a, b]) == if s.agnostic then [a] else [a, b]
  {
    hide Overlaps, Greedy, Hit;
    GreedyOne(Rule(s), a);
    GreedyAppend(Rule(s), [a], b);
    assert [a] + [b] == [a, b];
    HitOne(Rule(s), a, b);
    if s.agnostic {
      OverlapsItself(a.box, s.iouThres);
    } else {
      OffsetSeparates(s.iouThres, a, b, a.box.x1, a.box.y1, MAX_WH, a.box.y2 - a.box.y1);
    }
  }

  lemma HitOne(sup: Suppresses, a: Candidate, b: Candidate)
    ensures Hit(sup, [a], b) <==> sup(a, b)
  {
    if sup(a, b) { assert [a][0] == a; }
  }

  // ----- a batch of images -----

  /** The time limit is only looked at after an image that had candidates. */
  predicate Stops(s: Settings, rows: seq<Row>, labels: seq<Label>, nc: nat, late: bool)
    requires nc > 0 && Classified(rows, nc)
  {
    late && Shortlist(s, rows, labels, nc) != []
  }

  /** A label of a class that does not exist makes the scatter into the score matrix raise. */
  predicate Labelled(ls: seq<Label>, nc: nat) {
    forall i :: 0 <= i < |ls| ==> ls[i].cls < nc
  }

  ghost predicate ValidBatch(prediction: seq<seq<Row>>, labels: seq<seq<Label>>, late: seq<bool>, nc: nat) {
    && |prediction| == |labels| == |late| && nc > 0
    && forall i :: 0 <= i < |prediction| ==> Classified(prediction[i], nc) && Labelled(labels[i], nc)
  }

  /** non_max_suppression: images are processed in order until the time limit strikes (late[i]: after image i). */
  method NonMaxSuppression(s: Settings, prediction: seq<seq<Row>>, labels: seq<seq<Label>>, nc: nat, late: seq<bool>)
    returns (output: seq<seq<Candidate>>, done: nat)
    requires ValidBatch(prediction, labels, late, nc)
    ensures |output| == |prediction| && done <= |prediction|
    ensures forall i :: 0 <= i < done ==> output[i] == ImageResult(s, prediction[i], labels[i], nc)
    ensures forall i :: done <= i < |prediction| ==> output[i] == []
    ensures forall i :: 0 <= i < done - 1 ==> !Stops(s, prediction[i], labels[i], nc, late[i])
    ensures done < |prediction| ==> done > 0 && Stops(s, prediction[done - 1], labels[done - 1], nc, late[done - 1])
    ensures (forall i :: 0 <= i < |late| ==> !late[i] || Shortlist(s, prediction[i], labels[i], nc) == []) ==> done == |prediction|
  {
    hide ImageResult, Shortlist, Classified;
    output := seq(|prediction|, _ => []);
    done := |prediction|;
    for xi := 0 to |prediction|
      invariant |output| == |prediction| && done == |prediction|
      invariant forall i :: 0 <= i < xi ==> output[i] == ImageResult(s, prediction[i], labels[i], nc)
      invariant forall i :: xi <= i < |prediction| ==> output[i] == []
      invariant forall i :: 0 <= i < xi ==> !Stops(s, prediction[i], labels[i], nc, late[i])
    {
      var kept, any := SuppressImage(s, prediction[xi], labels[xi], nc);
      if !any { continue; }
      output := output[xi := kept];
      if late[xi] {
        done := xi + 1;
        break;
      }
    }
  }

  /** The body of the loop over images. */
  method SuppressImage(s: Settings, rows: seq<Row>, labels: seq<Label>, nc: nat) returns (kept: seq<Candidate>, any: bool)
    requires nc > 0 && Classified(rows, nc) && Labelled(labels, nc)
    ensures any <==> Shortlist(s, rows, labels, nc) != []
    ensures kept == ImageResult(s, rows, labels, nc)
    ensures !any ==> kept == []
  {
    hide Greedy, SortDescending, Rule, Candidates, OfClasses;
    var x := Candidates(s, PreFilter(s, rows, nc) + LabelRows(labels, nc), nc);
    x := OfClasses(x, s.classes);
    if |x| == 0 {
      NothingKept(s, rows, labels, nc);
      return [], false;
    }
    var order := SortDescending(x);
    if |order| > MAX_NMS {
      order := order[..MAX_NMS];
    }
    kept := Nms(Rule(s), order);
    if |kept| > MAX_DET {
      kept := kept[..MAX_DET];
    }
    any := true;
  }

  lemma NothingKept(s: Settings, rows: seq<Row>, labels: seq<Label>, nc: nat)
    requires nc > 0 && Classified(rows, nc) && Shortlist(s, rows, labels, nc) == []
    ensures ImageResult(s, rows, labels, nc) == []
  {
  }
}
