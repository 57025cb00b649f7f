/** Assignment of labelled boxes to grid cells and anchors, and the decoder it is matched to. */
module Targets {
  import opened Numbers

  /** A label: image, class, and a box by centre and size in units of the image. */
  datatype Target = Target(image: nat, cls: nat, x: real, y: real, w: real, h: real) {
    predicate Valid() {
      0.0 <= x <= 1.0 && 0.0 <= y <= 1.0 && w >= 0.0 && h >= 0.0
    }
  }

  /** An anchor size in units of grid cells. */
  datatype Anchor = Anchor(w: real, h: real) {
    predicate Valid() {
      w > 0.0 && h > 0.0
    }
  }

  /** One detection layer: a grid of nx by ny cells and its anchors. */
  datatype Layer = Layer(nx: nat, ny: nat, anchors: seq<Anchor>) {
    predicate Valid() {
      nx > 0 && ny > 0 && forall a :: 0 <= a < |anchors| ==> anchors[a].Valid()
    }
  }

  /** One assignment: the indices and the regression target written for one cell and anchor. */
  datatype Row = Row(image: nat, cls: nat, anchor: nat, gi: int, gj: int, tx: real, ty: real, tw: real, th: real)

  // ----- one axis -----

  function Frac(x: real): real {
    x - x.Floor as real
  }

  /** tensor.long(): truncation toward zero. */
  function Trunc(x: real): int {
    if x >= 0.0 then x.Floor else -(-x).Floor
  }

  function Clamp(k: int, n: nat): int
    requires n > 0
  {
    if k < 0 then 0 else if k > n - 1 then n - 1 else k
  }

  /** The centre is in the lower half of its cell, and there is a cell below. */
  predicate NearLow(g: real) {
    Frac(g) < 0.5 && g > 1.0
  }

  predicate NearHigh(g: real, n: nat) {
    NearLow(n as real - g)
  }

  /** The cell a centre falls in; the far border belongs to the last cell. */
  function Home(g: real, n: nat): int
    requires n > 0
  {
    Clamp(g.Floor, n)
  }

  /** The cells of one axis whose regression range reaches the centre; on the first grid line, only the cell above it. */
  predicate Reaches(g: real, n: nat, c: int)
    requires n > 0
  {
    0 <= c < n && -0.5 < g - c as real < 1.5 && (g == 1.0 ==> c == Home(g, n))
  }

  /** The cells that the half-cell shifts give on one axis. */
  predicate Shifted(g: real, n: nat, c: int)
    requires n > 0
  {
    c == Home(g, n) || (NearLow(g) && c == Clamp(Trunc(g - 0.5), n)) || (NearHigh(g, n) && c == Clamp(Trunc(g + 0.5), n))
  }

  /** The half-cell shifts give exactly the reachable cells of an axis. */
  lemma AxisCells(g: real, n: nat, c: int)
    requires n > 0 && 0.0 <= g <= n as real
    ensures Reaches(g, n, c) <==> Shifted(g, n, c)
  {
    LowCell(g, n);
    HighCell(g, n);
    var f := g.Floor;
    if Reaches(g, n, c) && c != Home(g, n) {
      assert f - 1 <= c <= f + 1;
    }
  }

  /** The regression range of cell c, which is (-1/2, 3/2), covers the centre. */
  predicate InRange(g: real, n: nat, c: int) {
    0 <= c < n && -0.5 < g - c as real < 1.5
  }

  /**
   * The cells that the shifts give on an axis are all the cells in range, except for a centre exactly on the first grid line: the
   * strict comparison with 1 leaves out cell 0 there.
   */
  lemma RangeExact(g: real, n: nat)
    requires n > 0 && 0.0 <= g <= n as real
    ensures (forall c :: Shifted(g, n, c) <==> InRange(g, n, c)) <==> g != 1.0 || n == 1
  {
    forall c ensures Shifted(g, n, c) <==> Reaches(g, n, c) { AxisCells(g, n, c); }
    hide Shifted;
    if g == 1.0 && n > 1 {
      assert InRange(g, n, 0) && Home(g, n) == 1;
      assert !Reaches(g, n, 0);
    }
  }

  lemma LowCell(g: real, n: nat)
    requires n > 0 && 0.0 <= g <= n as real
    ensures NearLow(g) ==> Clamp(Trunc(g - 0.5), n) == g.Floor - 1
  {
  }

  lemma FloorIs(x: real, k: int)
    requires k as real <= x < k as real + 1.0
    ensures x.Floor == k
  {
  }

  lemma HighCell(g: real, n: nat)
    requires n > 0 && 0.0 <= g <= n as real
    ensures NearHigh(g, n) ==> Clamp(Trunc(g + 0.5), n) == if Frac(g) == 0.0 then g.Floor else g.Floor + 1
    ensures NearHigh(g, n) <==> n as real - g > 1.0 && (Frac(g) == 0.0 || Frac(g) > 0.5)
  {
    var f := g.Floor;
    if Frac(g) == 0.0 {
      FloorIs(n as real - g, n - f);
      FloorIs(g + 0.5, f);
    } else {
      FloorIs(n as real - g, n - f - 1);
      if Frac(g) > 0.5 { FloorIs(g + 0.5, f + 1); }
    }
  }

  // ----- one target on one layer -----

  /** Both side ratios to the anchor, and their inverses, stay below the threshold. */
  predicate Matches(t: Target, l: Layer, a: nat, thres: real)
    requires l.Valid() && a < |l.anchors|
  {
    t.w > 0.0 && t.h > 0.0 &&
    var rw, rh := Ratio(t.w, l.nx, l.anchors[a].w), Ratio(t.h, l.ny, l.anchors[a].h);
    rw < thres && 1.0 / rw < thres && rh < thres && 1.0 / rh < thres
  }

  /** A side of u times the image, in grid cells, relative to the side of an anchor. */
  function Ratio(u: real, n: nat, anchor: real): (r: real)
    requires n > 0 && anchor > 0.0
    ensures u > 0.0 ==> r > 0.0
  {
    u * n as real / anchor
  }

  /** A side and the anchor's side differ by less than the factor k. */
  predicate Close(side: real, anchor: real, k: real) {
    side > 0.0 && anchor < k * side && side < k * anchor
  }

  /** A target goes to the anchors that it is less than the threshold larger or smaller than, on both axes. */
  lemma MatchesExact(t: Target, l: Layer, a: nat, thres: real)
    requires l.Valid() && a < |l.anchors|
    ensures Matches(t, l, a, thres) <==>
            Close(Times(t.w, l.nx), l.anchors[a].w, thres) && Close(Times(t.h, l.ny), l.anchors[a].h, thres)
  {
    hide Close, Times, Ratio;
    CloseSide(t.w, l.nx, l.anchors[a].w, thres);
    CloseSide(t.h, l.ny, l.anchors[a].h, thres);
  }

  lemma CloseSide(u: real, n: nat, anchor: real, k: real)
    requires n > 0 && anchor > 0.0
    ensures Close(Times(u, n), anchor, k) <==> u > 0.0 && Ratio(u, n, anchor) < k && 1.0 / Ratio(u, n, anchor) < k
  {
    SignOfTimes(u, n);
    RatioTimes(u, n, anchor);
    hide Times, Ratio;
    var q, s := Ratio(u, n, anchor), Times(u, n);
    if u > 0.0 {
      RatioBelow(q, s, anchor, k);
      assert Close(s, anchor, k) <==> q < k && 1.0 / q < k;
    }
  }

  lemma RatioTimes(u: real, n: nat, anchor: real)
    requires n > 0 && anchor > 0.0
    ensures Ratio(u, n, anchor) * anchor == Times(u, n)
  {
  }

  lemma SignOfTimes(u: real, n: nat)
    requires n > 0
    ensures Times(u, n) > 0.0 <==> u > 0.0
  {
  }

  lemma RatioBelow(q: real, s: real, a: real, k: real)
    requires s > 0.0 && a > 0.0 && q > 0.0 && q * a == s
    ensures (q < k <==> s < k * a) && (1.0 / q < k <==> a < k * s)
  {
    QuotientBelow(s, a, k);
    QuotientBelow(a, s, k);
    assert s / a == q && a / s == 1.0 / q;
  }

  lemma QuotientBelow(s: real, a: real, k: real)
    requires a > 0.0
    ensures s / a < k <==> s < k * a
  {
    var q := s / a;
    assert q * a == s;
    if q < k {
      PositiveProduct(k - q, a);
      assert (k - q) * a == k * a - s;
    } else {
      NonNegativeProduct(q - k, a);
      assert (q - k) * a == s - k * a;
    }
  }

  function Times(u: real, n: nat): real { u * n as real }
  function Gx(t: Target, l: Layer): real { Times(t.x, l.nx) }
  function Gy(t: Target, l: Layer): real { Times(t.y, l.ny) }

  /** The five shifts, in order: none, left, up, right, down, by half a cell. */
  predicate Takes(t: Target, l: Layer, o: nat)
    requires o < 5
  {
    match o
    case 0 => true
    case 1 => NearLow(Gx(t, l))
    case 2 => NearLow(Gy(t, l))
    case 3 => NearHigh(Gx(t, l), l.nx)
    case _ => NearHigh(Gy(t, l), l.ny)
  }

  function ShiftX(o: nat): real { if o == 1 then 0.5 else if o == 3 then -0.5 else 0.0 }
  function ShiftY(o: nat): real { if o == 2 then 0.5 else if o == 4 then -0.5 else 0.0 }

  /** The row written for shift o. The clamp is in place, so the offsets are taken from the clamped cell. */
  function Assign(t: Target, l: Layer, a: nat, o: nat): Row
    requires l.Valid()
  {
    var gi := Clamp(Trunc(Gx(t, l) - ShiftX(o)), l.nx);
    var gj := Clamp(Trunc(Gy(t, l) - ShiftY(o)), l.ny);
    Row(t.image, t.cls, a, gi, gj, Gx(t, l) - gi as real, Gy(t, l) - gj as real, Times(t.w, l.nx), Times(t.h, l.ny))
  }

  /** Shift o assigns the target to cell (cx, cy). */
  predicate Hits(t: Target, l: Layer, a: nat, o: int, cx: int, cy: int)
    requires l.Valid()
  {
    0 <= o < 5 && Takes(t, l, o) && Assign(t, l, a, o).gi == cx && Assign(t, l, a, o).gj == cy
  }

  /** A target is assigned exactly the cells that reach it along one axis and contain it along the other. */
  lemma CellsExact(t: Target, l: Layer, a: nat, cx: int, cy: int)
    requires t.Valid() && l.Valid()
    ensures (exists o :: Hits(t, l, a, o, cx, cy)) <==>
            ((Reaches(Gx(t, l), l.nx, cx) && cy == Home(Gy(t, l), l.ny)) ||
             (cx == Home(Gx(t, l), l.nx) && Reaches(Gy(t, l), l.ny, cy)))
  {
    hide Assign, Reaches, NearLow, NearHigh, Trunc, Home, Gx, Gy, Clamp;
    GridCoordinates(t, l);
    AxisCells(Gx(t, l), l.nx, cx);
    AxisCells(Gy(t, l), l.ny, cy);
    AssignCell(t, l, a, 0);
    AssignCell(t, l, a, 1);
    AssignCell(t, l, a, 2);
    AssignCell(t, l, a, 3);
    AssignCell(t, l, a, 4);
    assert Hits(t, l, a, 0, cx, cy) <==> cx == Home(Gx(t, l), l.nx) && cy == Home(Gy(t, l), l.ny);
    assert Hits(t, l, a, 1, cx, cy) <==>
      NearLow(Gx(t, l)) && cx == Clamp(Trunc(Gx(t, l) - 0.5), l.nx) && cy == Home(Gy(t, l), l.ny);
    assert Hits(t, l, a, 3, cx, cy) <==>
      NearHigh(Gx(t, l), l.nx) && cx == Clamp(Trunc(Gx(t, l) + 0.5), l.nx) && cy == Home(Gy(t, l), l.ny);
    assert Hits(t, l, a, 2, cx, cy) <==>
      NearLow(Gy(t, l)) && cy == Clamp(Trunc(Gy(t, l) - 0.5), l.ny) && cx == Home(Gx(t, l), l.nx);
    assert Hits(t, l, a, 4, cx, cy) <==>
      NearHigh(Gy(t, l), l.ny) && cy == Clamp(Trunc(Gy(t, l) + 0.5), l.ny) && cx == Home(Gx(t, l), l.nx);
  }

  lemma GridCoordinates(t: Target, l: Layer)
    requires t.Valid() && l.Valid()
    ensures 0.0 <= Gx(t, l) <= l.nx as real && 0.0 <= Gy(t, l) <= l.ny as real
  {
    hide Times;
    TimesInRange(t.x, l.nx);
    TimesInRange(t.y, l.ny);
  }

  lemma TimesInRange(u: real, n: nat)
    requires 0.0 <= u <= 1.0
    ensures 0.0 <= Times(u, n) <= n as real
  {
    var r := n as real;
    NonNegativeProduct(u, r);
    NonNegativeProduct(1.0 - u, r);
    assert (1.0 - u) * r == r - u * r;
  }

  lemma AssignCell(t: Target, l: Layer, a: nat, o: nat)
    requires t.Valid() && l.Valid() && o < 5
    ensures Assign(t, l, a, o).gi == if o == 1 then Clamp(Trunc(Gx(t, l) - 0.5), l.nx)
                                     else if o == 3 then Clamp(Trunc(Gx(t, l) + 0.5), l.nx) else Home(Gx(t, l), l.nx)
    ensures Assign(t, l, a, o).gj == if o == 2 then Clamp(Trunc(Gy(t, l) - 0.5), l.ny)
                                     else if o == 4 then Clamp(Trunc(Gy(t, l) + 0.5), l.ny) else Home(Gy(t, l), l.ny)
  {
  }

  lemma HomeReaches(g: real, n: nat)
    requires n > 0 && 0.0 <= g <= n as real
    ensures Reaches(g, n, Home(g, n))
  {
  }

  /** Every assigned cell lies in the grid, and its offsets lie strictly between -1/2 and 3/2. */
  lemma AssignedInside(t: Target, l: Layer, a: nat, o: nat)
    requires t.Valid() && l.Valid() && o < 5 && Takes(t, l, o)
    ensures var r := Assign(t, l, a, o);
            && 0 <= r.gi < l.nx && 0 <= r.gj < l.ny
            && -0.5 < r.tx < 1.5 && -0.5 < r.ty < 1.5
  {
    hide Assign, Takes, Home, Gx, Gy;
    var r := Assign(t, l, a, o);
    assert Hits(t, l, a, o, r.gi, r.gj);
    CellsExact(t, l, a, r.gi, r.gj);
    GridCoordinates(t, l);
    HomeReaches(Gx(t, l), l.nx);
    HomeReaches(Gy(t, l), l.ny);
    Offsets(t, l, a, o);
  }

  lemma Offsets(t: Target, l: Layer, a: nat, o: nat)
    requires l.Valid()
    ensures var r := Assign(t, l, a, o);
            r.tx == Gx(t, l) - r.gi as real && r.ty == Gy(t, l) - r.gj as real
            && r.tw == t.w * l.nx as real && r.th == t.h * l.ny as real
  {
  }

  /** For an anchor threshold of at most 4 the size ratios lie strictly between 0 and 4. */
  lemma MatchedRatio(t: Target, l: Layer, a: nat, o: nat, thres: real)
    requires t.Valid() && l.Valid() && a < |l.anchors| && Matches(t, l, a, thres) && thres <= 4.0
    ensures var r := Assign(t, l, a, o);
            0.0 < r.tw / l.anchors[a].w < 4.0 && 0.0 < r.th / l.anchors[a].h < 4.0
  {
  }

  // ----- the decoder -----

  datatype Pixels = Pixels(x: real, y: real, w: real, h: real)

  /** Detect.forward on one cell: sigmoid outputs to a box in pixels; anchorGrid is the anchor in pixels. */
  function Decode(sx: real, sy: real, sw: real, sh: real, gi: int, gj: int, stride: real, anchorGrid: Anchor): Pixels {
    Pixels((sx * 2.0 - 0.5 + gi as real) * stride, (sy * 2.0 - 0.5 + gj as real) * stride,
           (sw * 2.0) * (sw * 2.0) * anchorGrid.w, (sh * 2.0) * (sh * 2.0) * anchorGrid.h)
  }

  /** The sigmoid outputs with which the loss would be zero: the predicted box equals the target row. */
  predicate Perfect(r: Row, a: Anchor, sx: real, sy: real, sw: real, sh: real) {
    && sx * 2.0 - 0.5 == r.tx && sy * 2.0 - 0.5 == r.ty
    && (sw * 2.0) * (sw * 2.0) * a.w == r.tw && (sh * 2.0) * (sh * 2.0) * a.h == r.th
  }

  lemma ScaleDecoded(c: real, off: real, stride: real, u: real, n: real)
    requires off == u * n - c
    ensures (off + c) * stride == u * (n * stride)
  {
  }

  lemma ScaleSize(q: real, a: real, stride: real, u: real, n: real)
    requires q * a == u * n
    ensures q * (a * stride) == u * (n * stride)
  {
  }

  /** A perfect prediction at any assigned cell decodes to the labelled box in pixels. */
  lemma DecodeInverts(t: Target, l: Layer, a: nat, o: nat, stride: real, sx: real, sy: real, sw: real, sh: real)
    requires t.Valid() && l.Valid() && a < |l.anchors| && o < 5
    requires Perfect(Assign(t, l, a, o), l.anchors[a], sx, sy, sw, sh)
    ensures var r := Assign(t, l, a, o);
            var width, height := l.nx as real * stride, l.ny as real * stride;
            Decode(sx, sy, sw, sh, r.gi, r.gj, stride, Anchor(l.anchors[a].w * stride, l.anchors[a].h * stride))
              == Pixels(t.x * width, t.y * height, t.w * width, t.h * height)
  {
    hide Assign;
    var r := Assign(t, l, a, o);
    Offsets(t, l, a, o);
    ScaleDecoded(r.gi as real, r.tx, stride, t.x, l.nx as real);
    ScaleDecoded(r.gj as real, r.ty, stride, t.y, l.ny as real);
    ScaleSize((sw * 2.0) * (sw * 2.0), l.anchors[a].w, stride, t.w, l.nx as real);
    ScaleSize((sh * 2.0) * (sh * 2.0), l.anchors[a].h, stride, t.h, l.ny as real);
  }

  /** s is a sigmoid output that the decoder turns into the given offset. */
  predicate Sigmoid(s: real, offset: real) {
    0.0 < s < 1.0 && s * 2.0 - 0.5 == offset
  }

  /** The offsets of an assigned cell are attainable: some sigmoid value strictly between 0 and 1 produces them. */
  lemma OffsetsAttainable(t: Target, l: Layer, a: nat, o: nat)
    requires t.Valid() && l.Valid() && o < 5 && Takes(t, l, o)
    ensures var r := Assign(t, l, a, o);
            (exists s :: Sigmoid(s, r.tx)) && (exists s :: Sigmoid(s, r.ty))
  {
    AssignedInside(t, l, a, o);
    hide Assign;
    var r := Assign(t, l, a, o);
    var sx, sy := (r.tx + 0.5) / 2.0, (r.ty + 0.5) / 2.0;
    assert Sigmoid(sx, r.tx) && Sigmoid(sy, r.ty);
  }

  // ----- all targets on all layers -----

  datatype Pair = Pair(t: Target, a: nat)

  /** The first n targets that match anchor a. */
  function MatchedTargets(ts: seq<Target>, l: Layer, thres: real, a: nat, n: nat): seq<Pair>
    requires l.Valid() && a < |l.anchors| && n <= |ts|
  {
    if n == 0 then []
    else
      var before := MatchedTargets(ts, l, thres, a, n - 1);
      if Matches(ts[n - 1], l, a, thres) then before + [Pair(ts[n - 1], a)] else before
  }

  /** All matches of the first na anchors, anchor by anchor. */
  function MatchedPairs(ts: seq<Target>, l: Layer, thres: real, na: nat): seq<Pair>
    requires l.Valid() && na <= |l.anchors|
  {
    if na == 0 then [] else MatchedPairs(ts, l, thres, na - 1) + MatchedTargets(ts, l, thres, na - 1, |ts|)
  }

  /** The rows of shift o for the first n matches. */
  function ShiftRows(ps: seq<Pair>, l: Layer, o: nat, n: nat): seq<Row>
    requires l.Valid() && o < 5 && n <= |ps|
  {
    if n == 0 then []
    else
      var before := ShiftRows(ps, l, o, n - 1);
      if Takes(ps[n - 1].t, l, o) then before + [Assign(ps[n - 1].t, l, ps[n - 1].a, o)] else before
  }

  /** The rows of the first k shifts, shift by shift. */
  function Rows(ps: seq<Pair>, l: Layer, k: nat): seq<Row>
    requires l.Valid() && k <= 5
  {
    if k == 0 then [] else Rows(ps, l, k - 1) + ShiftRows(ps, l, k - 1, |ps|)
  }

  function LayerRows(ts: seq<Target>, l: Layer, thres: real): seq<Row>
    requires l.Valid()
  {
    Rows(MatchedPairs(ts, l, thres, |l.anchors|), l, 5)
  }

  /** build_targets: for every layer, the list of assignments. */
  method BuildTargets(ts: seq<Target>, layers: seq<Layer>, thres: real) returns (rows: seq<seq<Row>>)
    requires forall i :: 0 <= i < |layers| ==> layers[i].Valid()
    ensures |rows| == |layers|
    ensures forall i :: 0 <= i < |layers| ==> rows[i] == LayerRows(ts, layers[i], thres)
  {
    rows := [];
    for i := 0 to |layers|
      invariant |rows| == i && forall j :: 0 <= j < i ==> rows[j] == LayerRows(ts, layers[j], thres)
    {
      var l := layers[i];
      var ps: seq<Pair> := [];
      for a := 0 to |l.anchors|
        invariant ps == MatchedPairs(ts, l, thres, a)
      {
        ghost var before := ps;
        for n := 0 to |ts|
          invariant ps == before + MatchedTargets(ts, l, thres, a, n)
        {
          if Matches(ts[n], l, a, thres) {
            ps := ps + [Pair(ts[n], a)];
          }
        }
      }
      var out := Expand(ps, l);
      rows := rows + [out];
    }
  }

  method Expand(ps: seq<Pair>, l: Layer) returns (out: seq<Row>)
    requires l.Valid()
    ensures out == Rows(ps, l, 5)
  {
    out := [];
    for o := 0 to 5
      invariant out == Rows(ps, l, o)
    {
      ghost var before := out;
      for n := 0 to |ps|
        invariant out == before + ShiftRows(ps, l, o, n)
      {
        if Takes(ps[n].t, l, o) {
          out := out + [Assign(ps[n].t, l, ps[n].a, o)];
        }
      }
    }
  }

  lemma {:induction false} MatchedTargetsAre(ts: seq<Target>, l: Layer, thres: real, a: nat, n: nat, p: Pair)
    requires l.Valid() && a < |l.anchors| && n <= |ts|
    ensures p in MatchedTargets(ts, l, thres, a, n) <==> p.a == a && p.t in ts[..n] && Matches(p.t, l, a, thres)
  {
    if n > 0 {
      MatchedTargetsAre(ts, l, thres, a, n - 1, p);
      assert ts[..n] == ts[..n - 1] + [ts[n - 1]];
    }
  }

  lemma {:induction false} MatchedPairsAre(ts: seq<Target>, l: Layer, thres: real, na: nat, p: Pair)
    requires l.Valid() && na <= |l.anchors|
    ensures p in MatchedPairs(ts, l, thres, na) <==> p.a < na && p.t in ts && Matches(p.t, l, p.a, thres)
  {
    if na > 0 {
      MatchedPairsAre(ts, l, thres, na - 1, p);
      MatchedTargetsAre(ts, l, thres, na - 1, |ts|, p);
      assert ts[..|ts|] == ts;
    }
  }

  lemma {:induction false} ShiftRowsAre(ps: seq<Pair>, l: Layer, o: nat, n: nat, r: Row)
    requires l.Valid() && o < 5 && n <= |ps|
    ensures r in ShiftRows(ps, l, o, n) <==> exists p :: p in ps[..n] && Takes(p.t, l, o) && r == Assign(p.t, l, p.a, o)
  {
    hide Takes, Assign;
    if n > 0 {
      ShiftRowsAre(ps, l, o, n - 1, r);
      assert ps[..n] == ps[..n - 1] + [ps[n - 1]];
    }
  }

  /** Shift o writes row r for the match p. */
  ghost predicate Writes(l: Layer, p: Pair, o: int, r: Row)
    requires l.Valid()
  {
    0 <= o < 5 && Takes(p.t, l, o) && r == Assign(p.t, l, p.a, o)
  }

  lemma {:induction false} RowsAre(ps: seq<Pair>, l: Layer, k: nat, r: Row)
    requires l.Valid() && k <= 5
    ensures r in Rows(ps, l, k) <==> exists p, o :: p in ps && o < k && Writes(l, p, o, r)
  {
    hide Takes, Assign;
    if k > 0 {
      RowsAre(ps, l, k - 1, r);
      ShiftRowsAre(ps, l, k - 1, |ps|, r);
      assert ps[..|ps|] == ps;
      if r in ShiftRows(ps, l, k - 1, |ps|) {
        var p :| p in ps && Takes(p.t, l, k - 1) && r == Assign(p.t, l, p.a, k - 1);
        assert Writes(l, p, k - 1, r);
      }
      if p, o :| p in ps && o < k && Writes(l, p, o, r) {
        if o == k - 1 { assert r in ShiftRows(ps, l, k - 1, |ps|); }
      }
    }
  }

  ghost predicate Matched(p: Pair, ts: seq<Target>, l: Layer, thres: real)
    requires l.Valid()
  {
    p.t in ts && p.a < |l.anchors| && Matches(p.t, l, p.a, thres)
  }

  /** The rows of a layer are exactly the shifted assignments of the targets that match an anchor. */
  lemma LayerRowsAre(ts: seq<Target>, l: Layer, thres: real, r: Row)
    requires l.Valid()
    ensures r in LayerRows(ts, l, thres) <==>
            exists p: Pair, o: int :: Matched(p, ts, l, thres) && Writes(l, p, o, r)
  {
    hide Matches, Writes, Rows, MatchedPairs;
    var ps := MatchedPairs(ts, l, thres, |l.anchors|);
    RowsAre(ps, l, 5, r);
    if r in LayerRows(ts, l, thres) {
      var p, o :| p in ps && o < 5 && Writes(l, p, o, r);
      MatchedPairsAre(ts, l, thres, |l.anchors|, p);
    }
    if p: Pair, o: int :| Matched(p, ts, l, thres) && Writes(l, p, o, r) {
      MatchedPairsAre(ts, l, thres, |l.anchors|, p);
      WritesShift(l, p, o, r);
    }
  }

  lemma WritesShift(l: Layer, p: Pair, o: int, r: Row)
    requires l.Valid() && Writes(l, p, o, r)
    ensures 0 <= o < 5
  {
  }

  /** Cell (cx, cy) reaches the target along one axis and contains it along the other. */
  predicate Meets(t: Target, l: Layer, cx: int, cy: int)
    requires l.Valid()
  {
    || (Reaches(Gx(t, l), l.nx, cx) && cy == Home(Gy(t, l), l.ny))
    || (cx == Home(Gx(t, l), l.nx) && Reaches(Gy(t, l), l.ny, cy))
  }

  /** The row tells image and class of the target, its offset from the cell, and its size in cells. */
  predicate Describes(r: Row, t: Target, l: Layer) {
    && r.image == t.image && r.cls == t.cls
    && r.tx == Times(t.x, l.nx) - r.gi as real && r.ty == Times(t.y, l.ny) - r.gj as real
    && r.tw == Times(t.w, l.nx) && r.th == Times(t.h, l.ny)
  }

  /** The target and the anchor of the row are close in size on both axes. */
  predicate Suits(r: Row, t: Target, l: Layer, thres: real) {
    && r.anchor < |l.anchors|
    && Close(Times(t.w, l.nx), l.anchors[r.anchor].w, thres) && Close(Times(t.h, l.ny), l.anchors[r.anchor].h, thres)
  }

  lemma AssignDescribes(t: Target, l: Layer, a: nat, o: nat)
    requires l.Valid()
    ensures Describes(Assign(t, l, a, o), t, l) && Assign(t, l, a, o).anchor == a
  {
    hide Times;
  }

  /** What is written for one target and anchor: a row per cell that the target meets. */
  lemma WritesExact(t: Target, l: Layer, a: nat, r: Row)
    requires t.Valid() && l.Valid()
    ensures (exists o: int :: Writes(l, Pair(t, a), o, r)) <==> r.anchor == a && Describes(r, t, l) && Meets(t, l, r.gi, r.gj)
  {
    hide Takes, Assign, Describes, Reaches, Home, Gx, Gy;
    CellsExact(t, l, a, r.gi, r.gj);
    if o: int :| Writes(l, Pair(t, a), o, r) {
      AssignDescribes(t, l, a, o);
      assert Hits(t, l, a, o, r.gi, r.gj);
    }
    if r.anchor == a && Describes(r, t, l) && Meets(t, l, r.gi, r.gj) {
      var o :| Hits(t, l, a, o, r.gi, r.gj);
      AssignDescribes(t, l, a, o);
      SameRow(r, Assign(t, l, a, o), t, l);
      assert Writes(l, Pair(t, a), o, r);
    }
  }

  lemma SameRow(r: Row, q: Row, t: Target, l: Layer)
    requires Describes(r, t, l) && Describes(q, t, l) && r.anchor == q.anchor && r.gi == q.gi && r.gj == q.gj
    ensures r == q
  {
  }

  /** The rows of a layer, said without the loops: one for every target, every anchor that suits it and every cell it meets. */
  lemma LayerRowsExact(ts: seq<Target>, l: Layer, thres: real, r: Row)
    requires l.Valid() && forall t :: t in ts ==> t.Valid()
    ensures r in LayerRows(ts, l, thres) <==>
            exists t :: t in ts && Suits(r, t, l, thres) && Describes(r, t, l) && Meets(t, l, r.gi, r.gj)
  {
    hide Matches, Writes, LayerRows, Meets, Describes, Close, Times;
    LayerRowsAre(ts, l, thres, r);
    if p: Pair, o: int :| Matched(p, ts, l, thres) && Writes(l, p, o, r) {
      assert p == Pair(p.t, p.a);
      WritesExact(p.t, l, p.a, r);
      MatchesExact(p.t, l, p.a, thres);
    }
    if t :| t in ts && Suits(r, t, l, thres) && Describes(r, t, l) && Meets(t, l, r.gi, r.gj) {
      MatchesExact(t, l, r.anchor, thres);
      WritesExact(t, l, r.anchor, r);
      assert Matched(Pair(t, r.anchor), ts, l, thres);
    }
  }

  /** A target is written for an anchor exactly when the two are close in size on both axes. */
  lemma AnchorAssigned(t: Target, l: Layer, thres: real, a: nat)
    requires l.Valid() && t.Valid()
    ensures (exists r :: r in LayerRows([t], l, thres) && r.anchor == a) <==>
            a < |l.anchors| && Close(Times(t.w, l.nx), l.anchors[a].w, thres) && Close(Times(t.h, l.ny), l.anchors[a].h, thres)
  {
    hide LayerRows, Meets, Describes, Close, Times;
    if r :| r in LayerRows([t], l, thres) && r.anchor == a {
      LayerRowsExact([t], l, thres, r);
    }
    if a < |l.anchors| && Close(Times(t.w, l.nx), l.anchors[a].w, thres) && Close(Times(t.h, l.ny), l.anchors[a].h, thres) {
      var r := Assign(t, l, a, 0);
      AssignDescribes(t, l, a, 0);
      HomeIsMet(t, l, a);
      assert t in [t];
      LayerRowsExact([t], l, thres, r);
    }
  }

  lemma HomeIsMet(t: Target, l: Layer, a: nat)
    requires t.Valid() && l.Valid()
    ensures Meets(t, l, Assign(t, l, a, 0).gi, Assign(t, l, a, 0).gj)
  {
    hide Assign, Reaches, Home, Gx, Gy;
    GridCoordinates(t, l);
    AssignCell(t, l, a, 0);
    HomeReaches(Gx(t, l), l.nx);
  }

  lemma CloseRatio(side: real, anchor: real, k: real)
    requires Close(side, anchor, k) && anchor > 0.0
    ensures k > 0.0 && 1.0 / k < side / anchor < k
  {
    var q := side / anchor;
    assert q * anchor == side && q > 0.0;
    RatioBelow(q, side, anchor, k);
    InverseBelow(q, k);
  }

  lemma InverseBelow(q: real, k: real)
    requires q > 0.0 && 1.0 / q < k
    ensures k > 0.0 && 1.0 / k < q
  {
    assert 1.0 / q > 0.0;
    QuotientBelow(1.0, q, k);
    QuotientBelow(1.0, k, q);
  }

  /**
   * Every row that build_targets produces tells the image and class of a target, indexes a cell of the grid, and carries
   * attainable regression targets: size ratios between 1 / thres and thres, which is at most 4.
   */
  lemma BuiltRowsSound(ts: seq<Target>, l: Layer, thres: real, r: Row)
    requires l.Valid() && thres <= 4.0 && (forall t :: t in ts ==> t.Valid()) && r in LayerRows(ts, l, thres)
    ensures exists t :: t in ts && r.image == t.image && r.cls == t.cls
    ensures 0 <= r.gi < l.nx && 0 <= r.gj < l.ny && r.anchor < |l.anchors|
    ensures -0.5 < r.tx < 1.5 && -0.5 < r.ty < 1.5
    ensures thres > 0.0 && 1.0 / thres < r.tw / l.anchors[r.anchor].w < thres && 1.0 / thres < r.th / l.anchors[r.anchor].h < thres
    ensures 0.0 < r.tw / l.anchors[r.anchor].w < 4.0 && 0.0 < r.th / l.anchors[r.anchor].h < 4.0
  {
    hide LayerRows, Meets, Describes, Close;
    LayerRowsExact(ts, l, thres, r);
    var t :| t in ts && Suits(r, t, l, thres) && Describes(r, t, l) && Meets(t, l, r.gi, r.gj);
    MetInside(t, l, r);
    DescribedSize(r, t, l);
    hide Times;
    CloseRatio(r.tw, l.anchors[r.anchor].w, thres);
    CloseRatio(r.th, l.anchors[r.anchor].h, thres);
    assert 1.0 / thres > 0.0;
  }

  lemma DescribedSize(r: Row, t: Target, l: Layer)
    requires Describes(r, t, l)
    ensures r.image == t.image && r.cls == t.cls && r.tw == Times(t.w, l.nx) && r.th == Times(t.h, l.ny)
  {
    hide Times;
  }

  lemma MetInside(t: Target, l: Layer, r: Row)
    requires t.Valid() && l.Valid() && Describes(r, t, l) && Meets(t, l, r.gi, r.gj)
    ensures 0 <= r.gi < l.nx && 0 <= r.gj < l.ny && -0.5 < r.tx < 1.5 && -0.5 < r.ty < 1.5
  {
    GridCoordinates(t, l);
    HomeReaches(Gx(t, l), l.nx);
    HomeReaches(Gy(t, l), l.ny);
    hide Times, Home;
  }

  // ----- every target on its own -----

  lemma {:induction false} ShiftRowsAppend(ps: seq<Pair>, qs: seq<Pair>, l: Layer, o: nat, n: nat)
    requires l.Valid() && o < 5 && n <= |qs|
    ensures ShiftRows(ps + qs, l, o, |ps| + n) == ShiftRows(ps, l, o, |ps|) + ShiftRows(qs, l, o, n)
  {
    hide Takes, Assign;
    if n > 0 {
      ShiftRowsAppend(ps, qs, l, o, n - 1);
    } else {
      ShiftRowsPrefix(ps, qs, l, o, |ps|);
    }
  }

  lemma {:induction false} ShiftRowsPrefix(ps: seq<Pair>, qs: seq<Pair>, l: Layer, o: nat, n: nat)
    requires l.Valid() && o < 5 && n <= |ps|
    ensures ShiftRows(ps + qs, l, o, n) == ShiftRows(ps, l, o, n)
  {
    hide Takes, Assign;
    if n > 0 { ShiftRowsPrefix(ps, qs, l, o, n - 1); }
  }

  lemma {:induction false} RowsAppend(ps: seq<Pair>, qs: seq<Pair>, l: Layer, k: nat)
    requires l.Valid() && k <= 5
    ensures multiset(Rows(ps + qs, l, k)) == multiset(Rows(ps, l, k)) + multiset(Rows(qs, l, k))
  {
    hide ShiftRows;
    if k > 0 {
      RowsAppend(ps, qs, l, k - 1);
      ShiftRowsAppend(ps, qs, l, k - 1, |qs|);
    }
  }

  lemma {:induction false} MatchedAppend(ts: seq<Target>, us: seq<Target>, l: Layer, thres: real, a: nat, n: nat)
    requires l.Valid() && a < |l.anchors| && n <= |us|
    ensures MatchedTargets(ts + us, l, thres, a, |ts| + n) == MatchedTargets(ts, l, thres, a, |ts|) + MatchedTargets(us, l, thres, a, n)
  {
    hide Matches;
    if n > 0 {
      MatchedAppend(ts, us, l, thres, a, n - 1);
    } else {
      MatchedPrefix(ts, us, l, thres, a, |ts|);
    }
  }

  lemma {:induction false} MatchedPrefix(ts: seq<Target>, us: seq<Target>, l: Layer, thres: real, a: nat, n: nat)
    requires l.Valid() && a < |l.anchors| && n <= |ts|
    ensures MatchedTargets(ts + us, l, thres, a, n) == MatchedTargets(ts, l, thres, a, n)
  {
    hide Matches;
    if n > 0 { MatchedPrefix(ts, us, l, thres, a, n - 1); }
  }

  /** The rows of a list of matches, in any order. */
  ghost function RowBag(ps: seq<Pair>, l: Layer): multiset<Row>
    requires l.Valid()
  {
    multiset(Rows(ps, l, 5))
  }

  lemma RowBagAppend(ps: seq<Pair>, qs: seq<Pair>, l: Layer)
    requires l.Valid()
    ensures RowBag(ps + qs, l) == RowBag(ps, l) + RowBag(qs, l)
  {
    RowsAppend(ps, qs, l, 5);
  }

  lemma MatchedPairsStep(ts: seq<Target>, l: Layer, thres: real, a: nat)
    requires l.Valid() && a < |l.anchors|
    ensures RowBag(MatchedPairs(ts, l, thres, a + 1), l)
         == RowBag(MatchedPairs(ts, l, thres, a), l) + RowBag(MatchedTargets(ts, l, thres, a, |ts|), l)
  {
    hide RowBag, MatchedTargets;
    RowBagAppend(MatchedPairs(ts, l, thres, a), MatchedTargets(ts, l, thres, a, |ts|), l);
  }

  lemma {:induction false} PairRowsAppend(ts: seq<Target>, us: seq<Target>, l: Layer, thres: real, na: nat)
    requires l.Valid() && na <= |l.anchors|
    ensures RowBag(MatchedPairs(ts + us, l, thres, na), l)
         == RowBag(MatchedPairs(ts, l, thres, na), l) + RowBag(MatchedPairs(us, l, thres, na), l)
  {
    if na == 0 {
      NoPairsNoRows(l, 5);
    } else {
      hide RowBag, MatchedTargets, MatchedPairs;
      var a := na - 1;
      PairRowsAppend(ts, us, l, thres, a);
      MatchedPairsStep(ts, l, thres, a);
      MatchedPairsStep(us, l, thres, a);
      MatchedPairsStep(ts + us, l, thres, a);
      MatchedAppend(ts, us, l, thres, a, |us|);
      var (mt, mu) := (MatchedTargets(ts, l, thres, a, |ts|), MatchedTargets(us, l, thres, a, |us|));
      RowBagAppend(mt, mu, l);
      Regroup(RowBag(MatchedPairs(ts, l, thres, a), l), RowBag(MatchedPairs(us, l, thres, a), l), RowBag(mt, l), RowBag(mu, l));
    }
  }

  lemma Regroup<T>(p: multiset<T>, q: multiset<T>, m: multiset<T>, n: multiset<T>)
    ensures (p + q) + (m + n) == (p + m) + (q + n)
  {
  }

  /** Targets do not influence each other: together they are written the rows that each part is written. */
  lemma TargetsIndependent(ts: seq<Target>, us: seq<Target>, l: Layer, thres: real)
    requires l.Valid()
    ensures multiset(LayerRows(ts + us, l, thres)) == multiset(LayerRows(ts, l, thres)) + multiset(LayerRows(us, l, thres))
  {
    PairRowsAppend(ts, us, l, thres, |l.anchors|);
  }

  /** The shifts below k that a target takes. */
  function ShiftCount(t: Target, l: Layer, k: nat): nat
    requires k <= 5
  {
    if k == 0 then 0 else ShiftCount(t, l, k - 1) + if Takes(t, l, k - 1) then 1 else 0
  }

  /** The anchors below na that suit a target. */
  function AnchorCount(t: Target, l: Layer, thres: real, na: nat): nat
    requires l.Valid() && na <= |l.anchors|
  {
    if na == 0 then 0 else AnchorCount(t, l, thres, na - 1) + if Matches(t, l, na - 1, thres) then 1 else 0
  }

  lemma {:induction false} RowsOfOne(p: Pair, l: Layer, k: nat)
    requires l.Valid() && k <= 5
    ensures |Rows([p], l, k)| == ShiftCount(p.t, l, k)
  {
    hide Takes, Assign;
    if k > 0 {
      RowsOfOne(p, l, k - 1);
      assert ShiftRows([p], l, k - 1, 0) == [];
      assert |ShiftRows([p], l, k - 1, 1)| == if Takes(p.t, l, k - 1) then 1 else 0;
    }
  }

  lemma {:induction false} RowsOfAnchors(t: Target, l: Layer, thres: real, na: nat)
    requires l.Valid() && na <= |l.anchors|
    ensures |Rows(MatchedPairs([t], l, thres, na), l, 5)| == AnchorCount(t, l, thres, na) * ShiftCount(t, l, 5)
  {
    hide Rows, Matches, ShiftCount;
    if na == 0 {
      NoPairsNoRows(l, 5);
    } else {
      RowsOfAnchors(t, l, thres, na - 1);
      RowsOfAnchor(t, l, thres, na - 1);
      hide MatchedTargets;
      var before, now := MatchedPairs([t], l, thres, na - 1), MatchedTargets([t], l, thres, na - 1, 1);
      RowsLength(before, now, l);
    }
  }

  lemma RowsOfAnchor(t: Target, l: Layer, thres: real, a: nat)
    requires l.Valid() && a < |l.anchors|
    ensures |Rows(MatchedTargets([t], l, thres, a, 1), l, 5)| == if Matches(t, l, a, thres) then ShiftCount(t, l, 5) else 0
  {
    hide Rows, Matches, ShiftCount;
    assert MatchedTargets([t], l, thres, a, 0) == [];
    assert MatchedTargets([t], l, thres, a, 1) == if Matches(t, l, a, thres) then [Pair(t, a)] else [];
    RowsOfOne(Pair(t, a), l, 5);
    NoPairsNoRows(l, 5);
  }

  lemma RowsLength(ps: seq<Pair>, qs: seq<Pair>, l: Layer)
    requires l.Valid()
    ensures |Rows(ps + qs, l, 5)| == |Rows(ps, l, 5)| + |Rows(qs, l, 5)|
  {
    RowsAppend(ps, qs, l, 5);
    BagSize(Rows(ps + qs, l, 5), Rows(ps, l, 5), Rows(qs, l, 5));
  }

  lemma BagSize<T>(s: seq<T>, a: seq<T>, b: seq<T>)
    requires multiset(s) == multiset(a) + multiset(b)
    ensures |s| == |a| + |b|
  {
    assert |s| == |multiset(s)| && |a| == |multiset(a)| && |b| == |multiset(b)|;
  }

  lemma {:induction false} NoPairsNoRows(l: Layer, k: nat)
    requires l.Valid() && k <= 5
    ensures Rows([], l, k) == []
  {
    if k > 0 { NoPairsNoRows(l, k - 1); }
  }

  /** One target is written once for every anchor that suits it and every shift it takes. */
  lemma RowsPerTarget(t: Target, l: Layer, thres: real)
    requires l.Valid()
    ensures |LayerRows([t], l, thres)| == AnchorCount(t, l, thres, |l.anchors|) * ShiftCount(t, l, 5)
  {
    RowsOfAnchors(t, l, thres, |l.anchors|);
  }
}
