/** Mosaic augmentation: placing four or nine images on one canvas, and moving their labels with them. */
module Mosaic {
  import opened Boxes
  import opened Numbers

  /** An image as rows of pixels. */
  datatype Picture = Picture(h: nat, w: nat, rows: seq<seq<int>>) {
    predicate Valid() {
      |rows| == h && forall y :: 0 <= y < h ==> |rows[y]| == w
    }
  }

  const GREY := 114

  /** A tile on the canvas: columns x1 to x2, rows y1 to y2, and the offset from picture to canvas coordinates. */
  datatype Tile = Tile(x1: int, y1: int, x2: int, y2: int, padx: int, pady: int) {
    predicate Has(y: int, x: int) {
      y1 <= y < y2 && x1 <= x < x2
    }
  }

  predicate Disjoint(a: Tile, b: Tile) {
    a.x2 <= b.x1 || b.x2 <= a.x1 || a.y2 <= b.y1 || b.y2 <= a.y1
  }

  /** The tile lies on a square canvas, and every pixel of it has a source pixel in the picture. */
  predicate Fits(t: Tile, p: Picture, side: nat) {
    && 0 <= t.x1 <= t.x2 <= side && 0 <= t.y1 <= t.y2 <= side
    && 0 <= t.x1 - t.padx && t.x2 - t.padx <= p.w && 0 <= t.y1 - t.pady && t.y2 - t.pady <= p.h
  }

  // ----- the nine-tile layout -----

  /** 1 <= w, h <= s: what load_image produces for an image size of s. */
  predicate Loaded(ps: seq<Picture>, s: nat) {
    forall i :: 0 <= i < |ps| ==> ps[i].Valid() && 1 <= ps[i].w <= s && 1 <= ps[i].h <= s
  }

  /** A box whose negative coordinates are cut off at 0. */
  function Allocate(c1: int, c2: int, c3: int, c4: int): Tile {
    Tile(Max(c1, 0), Max(c2, 0), Max(c3, 0), Max(c4, 0), c1, c2)
  }

  /**
   * Where picture i of size (w, h) goes: around the first one of size (w0, h0), clockwise from the top, each next to
   * the previous one of size (wp, hp).
   */
  function Box9(i: nat, s: nat, w: nat, h: nat, w0: nat, h0: nat, wp: nat, hp: nat): Tile
    requires i < 9
  {
    match i
    case 0 => Allocate(s, s, s + w, s + h)
    case 1 => Allocate(s, s - h, s + w, s)
    case 2 => Allocate(s + wp, s - h, s + wp + w, s)
    case 3 => Allocate(s + w0, s, s + w0 + w, s + h)
    case 4 => Allocate(s + w0, s + hp, s + w0 + w, s + hp + h)
    case 5 => Allocate(s + w0 - w, s + h0, s + w0, s + h0 + h)
    case 6 => Allocate(s + w0 - wp - w, s + h0, s + w0 - wp, s + h0 + h)
    case 7 => Allocate(s - w, s + h0 - h, s, s + h0)
    case _ => Allocate(s - w, s + h0 - hp - h, s, s + h0 - hp)
  }

  function Place9(s: nat, ps: seq<Picture>, i: nat): Tile
    requires |ps| == 9 && i < 9
  {
    Box9(i, s, ps[i].w, ps[i].h, ps[0].w, ps[0].h, if i > 0 then ps[i - 1].w else 0, if i > 0 then ps[i - 1].h else 0)
  }

  /** The unclipped box lies on the 3s canvas below and to the right, and still reaches it above and to the left. */
  lemma Box9Spans(i: nat, s: nat, w: nat, h: nat, w0: nat, h0: nat, wp: nat, hp: nat)
    requires i < 9 && 1 <= w <= s && 1 <= h <= s && 1 <= w0 <= s && 1 <= h0 <= s && wp <= s && hp <= s
    ensures var t := Box9(i, s, w, h, w0, h0, wp, hp);
            && t.x2 == t.padx + w <= 3 * s && t.y2 == t.pady + h <= 3 * s && 0 <= t.x2 && 0 <= t.y2
            && t.x1 == Max(t.padx, 0) && t.y1 == Max(t.pady, 0)
  {
  }

  /** Every tile lies on the 3s canvas, and its slice has the shape of the slice it is copied from. */
  lemma Tiles9Fit(s: nat, ps: seq<Picture>, i: nat)
    requires |ps| == 9 && Loaded(ps, s) && i < 9
    ensures var t := Place9(s, ps, i);
            Fits(t, ps[i], 3 * s) && t.x2 - t.padx == ps[i].w && t.y2 - t.pady == ps[i].h
  {
    hide Box9;
    Box9Spans(i, s, ps[i].w, ps[i].h, ps[0].w, ps[0].h, if i > 0 then ps[i - 1].w else 0, if i > 0 then ps[i - 1].h else 0);
  }

  datatype Place = LeftOf | RightOf | Above | Below

  /** A picture of size (w, h) at tile a touches, from the given side, a picture of size (wt, ht) at tile t. */
  predicate NextTo(p: Place, a: Tile, w: nat, h: nat, t: Tile, wt: nat, ht: nat) {
    match p
    case LeftOf => a.padx + w == t.padx
    case RightOf => a.padx == t.padx + wt
    case Above => a.pady + h == t.pady
    case Below => a.pady == t.pady + ht
  }

  /** Two such pictures are flush on the given side. */
  predicate Flush(p: Place, a: Tile, w: nat, h: nat, t: Tile, wt: nat, ht: nat) {
    match p
    case LeftOf => a.padx == t.padx
    case RightOf => a.padx + w == t.padx + wt
    case Above => a.pady == t.pady
    case Below => a.pady + h == t.pady + ht
  }

  /**
   * The ring of nine: the first picture has its corner at (s, s); 1, 3, 5 and 7 lie against its upper, right, lower and
   * left side, 2, 4, 6 and 8 against the picture before them, always turning clockwise.
   */
  lemma Ring9(s: nat, ps: seq<Picture>, i: nat)
    requires |ps| == 9 && i < 9
    ensures var a := Place9(s, ps, i);
            var j := if i % 2 == 1 || i == 0 then 0 else i - 1;
            var t := Place9(s, ps, j);
            if i == 0 then a.padx == s && a.pady == s
            else
              && NextTo([Above, RightOf, RightOf, Below, Below, LeftOf, LeftOf, Above][i - 1], a, ps[i].w, ps[i].h, t, ps[j].w, ps[j].h)
              && Flush([LeftOf, Below, Above, LeftOf, RightOf, Above, Below, RightOf][i - 1], a, ps[i].w, ps[i].h, t, ps[j].w, ps[j].h)
  {
  }

  /** No two of the nine tiles overlap. */
  lemma Tiles9Disjoint(s: nat, ps: seq<Picture>, i: nat, j: nat)
    requires |ps| == 9 && Loaded(ps, s) && i < j < 9
    ensures Disjoint(Place9(s, ps, i), Place9(s, ps, j))
  {
  }

  // ----- the four-tile layout -----

  /** Where picture i goes around the centre (xc, yc), cut off at the border of the 2s canvas. */
  function Place4(s: nat, p: Picture, xc: int, yc: int, i: nat): Tile
    requires i < 4
  {
    var w, h := p.w, p.h;
    match i
    case 0 =>
      var (x1a, y1a, x2a, y2a) := (Max(xc - w, 0), Max(yc - h, 0), xc, yc);
      Tile(x1a, y1a, x2a, y2a, x1a - (w - (x2a - x1a)), y1a - (h - (y2a - y1a)))
    case 1 =>
      var (x1a, y1a, x2a, y2a) := (xc, Max(yc - h, 0), Min(xc + w, s * 2), yc);
      Tile(x1a, y1a, x2a, y2a, x1a - 0, y1a - (h - (y2a - y1a)))
    case 2 =>
      var (x1a, y1a, x2a, y2a) := (Max(xc - w, 0), yc, xc, Min(s * 2, yc + h));
      Tile(x1a, y1a, x2a, y2a, x1a - (w - (x2a - x1a)), y1a - 0)
    case _ =>
      var (x1a, y1a, x2a, y2a) := (xc, yc, Min(xc + w, s * 2), Min(s * 2, yc + h));
      Tile(x1a, y1a, x2a, y2a, x1a - 0, y1a - 0)
  }

  /** The lower right corner (x2b, y2b) of the source slice that the code computes for picture i. */
  function SourceEnd(s: nat, p: Picture, xc: int, yc: int, i: nat): (int, int)
    requires i < 4
  {
    var t := Place4(s, p, xc, yc, i);
    (if i == 1 || i == 3 then Min(p.w, t.x2 - t.x1) else p.w, if i == 2 || i == 3 then Min(t.y2 - t.y1, p.h) else p.h)
  }

  /** For every centre on the canvas each tile fits and its source slice has the same shape. */
  lemma Tiles4Fit(s: nat, p: Picture, xc: int, yc: int, i: nat)
    requires p.Valid() && 1 <= p.w <= s && 1 <= p.h <= s && i < 4 && 0 <= xc <= 2 * s && 0 <= yc <= 2 * s
    ensures var t := Place4(s, p, xc, yc, i);
            Fits(t, p, 2 * s) && (t.x2 - t.padx, t.y2 - t.pady) == SourceEnd(s, p, xc, yc, i)
  {
  }

  /** Every picture has one corner at the centre, in its own quadrant ... */
  lemma Quadrants4(s: nat, p: Picture, xc: int, yc: int, i: nat)
    requires i < 4
    ensures var t := Place4(s, p, xc, yc, i);
            && (if i % 2 == 0 then t.padx + p.w == xc else t.padx == xc)
            && (if i < 2 then t.pady + p.h == yc else t.pady == yc)
  {
  }

  /** ... and its tile is all of it that lies on the canvas. */
  lemma Tile4IsVisible(s: nat, p: Picture, xc: int, yc: int, i: nat, y: int, x: int)
    requires i < 4 && 0 <= xc <= 2 * s && 0 <= yc <= 2 * s
    ensures var t := Place4(s, p, xc, yc, i);
            t.Has(y, x) <==> 0 <= y < 2 * s && 0 <= x < 2 * s && 0 <= y - t.pady < p.h && 0 <= x - t.padx < p.w
  {
  }

  lemma Tiles4Disjoint(s: nat, p: Picture, q: Picture, xc: int, yc: int, i: nat, j: nat)
    requires i < j < 4
    ensures Disjoint(Place4(s, p, xc, yc, i), Place4(s, q, xc, yc, j))
  {
  }

  // ----- painting -----

  /** Pixel (y, x) of the canvas shows picture p through tile t. */
  predicate Shows(canvas: array2<int>, t: Tile, p: Picture, y: int, x: int)
    requires p.Valid() && Fits(t, p, canvas.Length0) && canvas.Length0 == canvas.Length1 && t.Has(y, x)
    reads canvas
  {
    canvas[y, x] == p.rows[y - t.pady][x - t.padx]
  }

  /** Every tile drawn so far shows its picture everywhere, and the rest of the canvas is grey. */
  ghost predicate Painted(canvas: array2<int>, tiles: seq<Tile>, ps: seq<Picture>, n: nat)
    reads canvas
  {
    && canvas.Length0 == canvas.Length1 && n <= |tiles| && n <= |ps|
    && (forall i :: 0 <= i < n ==> ps[i].Valid() && Fits(tiles[i], ps[i], canvas.Length0))
    && (forall i, y, x :: 0 <= i < n && tiles[i].Has(y, x) ==> Shows(canvas, tiles[i], ps[i], y, x))
    && (forall y, x :: 0 <= y < canvas.Length0 && 0 <= x < canvas.Length0 && (forall i :: 0 <= i < n ==> !tiles[i].Has(y, x))
          ==> canvas[y, x] == GREY)
  }

  /** The slice assignment that copies one picture. */
  method Paint(canvas: array2<int>, ghost tiles: seq<Tile>, ps: seq<Picture>, n: nat, t: Tile)
    requires n < |tiles| && n < |ps| && t == tiles[n] && Painted(canvas, tiles, ps, n)
    requires ps[n].Valid() && Fits(t, ps[n], canvas.Length0)
    requires forall i :: 0 <= i < n ==> Disjoint(tiles[i], tiles[n])
    modifies canvas
    ensures Painted(canvas, tiles, ps, n + 1)
  {
    var p := ps[n];
    forall y, x | t.y1 <= y < t.y2 && t.x1 <= x < t.x2 {
      canvas[y, x] := p.rows[y - t.pady][x - t.padx];
    }
    forall i, y, x | 0 <= i < n + 1 && tiles[i].Has(y, x) ensures Shows(canvas, tiles[i], ps[i], y, x) {
      if i < n {
        assert Disjoint(tiles[i], t);
        assert !t.Has(y, x);
        assert old(Shows(canvas, tiles[i], ps[i], y, x));
      }
    }
  }

  // ----- labels -----

  /** A label of a picture: a class, and a box by centre and size as fractions of the picture. */
  datatype Label = Label(cls: nat, x: real, y: real, w: real, h: real)

  /** A label in pixels. */
  datatype Mark = Mark(cls: nat, box: Box)

  /** The label in pixels of a canvas on which its picture has the given offset. */
  function OnCanvas(l: Label, p: Picture, padx: int, pady: int): Mark {
    Mark(l.cls, Box(p.w as real * (l.x - l.w / 2.0) + padx as real, p.h as real * (l.y - l.h / 2.0) + pady as real,
                    p.w as real * (l.x + l.w / 2.0) + padx as real, p.h as real * (l.y + l.h / 2.0) + pady as real))
  }

  /** The mark has the class of the label, and its centre and size are those of the label in pixels of the picture. */
  lemma OnCanvasIs(l: Label, p: Picture, padx: int, pady: int)
    ensures var m := OnCanvas(l, p, padx, pady);
            && m.cls == l.cls
            && (m.box.x1 + m.box.x2) / 2.0 == p.w as real * l.x + padx as real && m.box.x2 - m.box.x1 == p.w as real * l.w
            && (m.box.y1 + m.box.y2) / 2.0 == p.h as real * l.y + pady as real && m.box.y2 - m.box.y1 == p.h as real * l.h
  {
    Ends(p.w as real, l.x, l.w);
    Ends(p.h as real, l.y, l.h);
  }

  lemma Ends(n: real, c: real, d: real)
    ensures n * (c - d / 2.0) + n * (c + d / 2.0) == 2.0 * (n * c) && n * (c + d / 2.0) - n * (c - d / 2.0) == n * d
  {
  }

  function Convert(ls: seq<Label>, p: Picture, t: Tile): (ms: seq<Mark>)
    ensures |ms| == |ls|
  {
    seq(|ls|, j requires 0 <= j < |ls| => OnCanvas(ls[j], p, t.padx, t.pady))
  }

  /** Moved by the corner of a crop and clipped to its side. */
  function Cropped(m: Mark, xc: int, yc: int, side: nat): Mark {
    Mark(m.cls, Box(Clip(m.box.x1 - xc as real, side as real), Clip(m.box.y1 - yc as real, side as real),
                    Clip(m.box.x2 - xc as real, side as real), Clip(m.box.y2 - yc as real, side as real)))
  }

  function CropAll(ms: seq<Mark>, xc: int, yc: int, side: nat): (r: seq<Mark>)
    ensures |r| == |ms|
  {
    seq(|ms|, k requires 0 <= k < |ms| => Cropped(ms[k], xc, yc, side))
  }

  /** The labels of the first n pictures, picture by picture. */
  function Gathered(labels: seq<seq<Label>>, ps: seq<Picture>, tiles: seq<Tile>, n: nat): (ms: seq<Mark>)
    requires n <= |labels| && n <= |ps| && n <= |tiles|
    ensures |ms| == First(labels, n)
  {
    if n == 0 then [] else Gathered(labels, ps, tiles, n - 1) + Convert(labels[n - 1], ps[n - 1], tiles[n - 1])
  }

  /** The position of the first label of picture i among all labels. */
  function First(labels: seq<seq<Label>>, i: nat): nat
    requires i <= |labels|
  {
    if i == 0 then 0 else First(labels, i - 1) + |labels[i - 1]|
  }

  lemma {:induction false} FirstBelow(labels: seq<seq<Label>>, n: nat, i: nat, j: nat)
    requires i < n <= |labels| && j < |labels[i]|
    ensures First(labels, i) + j < First(labels, n)
  {
    if i < n - 1 { FirstBelow(labels, n - 1, i, j); }
  }

  /** Label j of picture i in a list of the labels of all n pictures. */
  function LabelOf(ms: seq<Mark>, labels: seq<seq<Label>>, n: nat, i: nat, j: nat): Mark
    requires i < n <= |labels| && j < |labels[i]| && |ms| == First(labels, n)
  {
    FirstBelow(labels, n, i, j);
    ms[First(labels, i) + j]
  }

  lemma {:induction false} GatheredAt(labels: seq<seq<Label>>, ps: seq<Picture>, tiles: seq<Tile>, n: nat, i: nat, j: nat)
    requires n <= |labels| && n <= |ps| && n <= |tiles| && i < n && j < |labels[i]|
    ensures LabelOf(Gathered(labels, ps, tiles, n), labels, n, i, j)
         == OnCanvas(labels[i][j], ps[i], tiles[i].padx, tiles[i].pady)
  {
    FirstBelow(labels, n, i, j);
    if i < n - 1 {
      GatheredAt(labels, ps, tiles, n - 1, i, j);
      FirstBelow(labels, n - 1, i, j);
    }
  }

  predicate Contains(b: Box, y: real, x: real) {
    b.x1 <= x <= b.x2 && b.y1 <= y <= b.y2
  }

  /**
   * Mark m stands for label l of picture p at offset t: the centre of pixel (v, u), if it is inside the mosaic, is in
   * the label exactly when its position in the mosaic is in the mark.
   */
  predicate Follows(m: Mark, l: Label, p: Picture, t: Tile, xc: int, yc: int, side: nat, v: int, u: int) {
    m.cls == l.cls &&
    var (y, x) := (v + t.pady - yc, u + t.padx - xc);
    0 <= y < side && 0 <= x < side ==>
      (Contains(OnCanvas(l, p, 0, 0).box, v as real + 0.5, u as real + 0.5)
       <==> Contains(m.box, y as real + 0.5, x as real + 0.5))
  }

  /** One axis: a position inside the clipping range is between two bounds exactly when it is between the clipped ones. */
  lemma ClipKeepsInside(lo: real, hi: real, v: real, side: real)
    requires 0.0 < v < side
    ensures lo <= v <= hi <==> Clip(lo, side) <= v <= Clip(hi, side)
  {
  }

  /** Labels move by exactly the offset of their picture minus the crop, whatever the tile. */
  lemma LabelsFollowPixels(l: Label, p: Picture, t: Tile, xc: int, yc: int, side: nat, v: int, u: int)
    ensures Follows(Cropped(OnCanvas(l, p, t.padx, t.pady), xc, yc, side), l, p, t, xc, yc, side, v, u)
  {
    var (y, x) := (v + t.pady - yc, u + t.padx - xc);
    if 0 <= y < side && 0 <= x < side {
      var b, f := OnCanvas(l, p, t.padx, t.pady).box, OnCanvas(l, p, 0, 0).box;
      hide *;
      ClipKeepsInside(b.x1 - xc as real, b.x2 - xc as real, x as real + 0.5, side as real);
      ClipKeepsInside(b.y1 - yc as real, b.y2 - yc as real, y as real + 0.5, side as real);
    }
  }

  /** Every label of every picture has its mark. */
  ghost predicate AllFollow(ms: seq<Mark>, labels: seq<seq<Label>>, ps: seq<Picture>, tiles: seq<Tile>, n: nat,
                            xc: int, yc: int, side: nat)
  {
    && n <= |labels| && n <= |ps| && n <= |tiles| && |ms| == First(labels, n)
    && forall i, j, v, u :: 0 <= i < n && 0 <= j < |labels[i]| ==>
         Follows(LabelOf(ms, labels, n, i, j), labels[i][j], ps[i], tiles[i], xc, yc, side, v, u)
  }

  lemma GatheredFollow(labels: seq<seq<Label>>, ps: seq<Picture>, tiles: seq<Tile>, n: nat, xc: int, yc: int, side: nat)
    requires n <= |labels| && n <= |ps| && n <= |tiles|
    ensures AllFollow(CropAll(Gathered(labels, ps, tiles, n), xc, yc, side), labels, ps, tiles, n, xc, yc, side)
  {
    hide Follows, Gathered, First, OnCanvas, Cropped;
    var ms := Gathered(labels, ps, tiles, n);
    var r := CropAll(ms, xc, yc, side);
    forall i, j, v, u | 0 <= i < n && 0 <= j < |labels[i]|
      ensures Follows(LabelOf(r, labels, n, i, j), labels[i][j], ps[i], tiles[i], xc, yc, side, v, u)
    {
      GatheredAt(labels, ps, tiles, n, i, j);
      FirstBelow(labels, n, i, j);
      LabelsFollowPixels(labels[i][j], ps[i], tiles[i], xc, yc, side, v, u);
    }
  }

  // ----- the two mosaics -----

  /** The layout of the nine tiles. */
  ghost function Layout9(s: nat, ps: seq<Picture>): (tiles: seq<Tile>)
    requires |ps| == 9
    ensures |tiles| == 9
  {
    seq(9, i requires 0 <= i < 9 => Place9(s, ps, i))
  }

  /** The nine-tile canvas before cropping, and the labels on it. */
  method LoadMosaic9(s: nat, ps: seq<Picture>, labels: seq<seq<Label>>) returns (canvas: array2<int>, marks: seq<Mark>)
    requires |ps| == |labels| == 9 && Loaded(ps, s)
    ensures fresh(canvas) && canvas.Length0 == canvas.Length1 == 3 * s && Painted(canvas, Layout9(s, ps), ps, 9)
    ensures marks == Gathered(labels, ps, Layout9(s, ps), 9)
  {
    ghost var tiles := Layout9(s, ps);
    canvas := new int[3 * s, 3 * s]((_, _) => GREY);
    assert Painted(canvas, tiles, ps, 0);
    hide Painted, Fits, Box9, Disjoint, Convert;
    marks := [];
    var h0, w0, hp, wp := 0, 0, 0, 0;
    for i := 0 to 9
      invariant Painted(canvas, tiles, ps, i) && marks == Gathered(labels, ps, tiles, i)
      invariant i > 0 ==> h0 == ps[0].h && w0 == ps[0].w && hp == ps[i - 1].h && wp == ps[i - 1].w
      invariant i == 0 ==> hp == wp == 0
    {
      var h, w := ps[i].h, ps[i].w;
      if i == 0 {
        h0, w0 := h, w;
      }
      var t := Box9(i, s, w, h, w0, h0, wp, hp);
      assert t == tiles[i];
      marks := marks + Convert(labels[i], ps[i], t);
      Tiles9Fit(s, ps, i);
      forall j | 0 <= j < i ensures Disjoint(tiles[j], tiles[i]) { Tiles9Disjoint(s, ps, j, i); }
      Paint(canvas, tiles, ps, i, t);
      hp, wp := h, w;
    }
  }

  /** The crop of side 2s whose corner is (xc, yc). */
  method Crop(canvas: array2<int>, s: nat, xc: nat, yc: nat) returns (out: array2<int>)
    requires canvas.Length0 == canvas.Length1 == 3 * s && xc <= s && yc <= s
    ensures fresh(out) && out.Length0 == out.Length1 == 2 * s
    ensures forall y, x :: 0 <= y < 2 * s && 0 <= x < 2 * s ==> out[y, x] == canvas[y + yc, x + xc]
  {
    out := new int[2 * s, 2 * s]((y, x) requires 0 <= y < 2 * s && 0 <= x < 2 * s reads canvas => canvas[y + yc, x + xc]);
  }

  /** Pixel (v, u) of a picture at offset t appears in the cropped mosaic, if its position is inside the crop. */
  predicate Appears(out: array2<int>, p: Picture, t: Tile, xc: nat, yc: nat, v: int, u: int)
    requires p.Valid() && 0 <= v < p.h && 0 <= u < p.w
    reads out
  {
    var (y, x) := (v + t.pady - yc, u + t.padx - xc);
    0 <= y < out.Length0 && 0 <= x < out.Length1 ==> out[y, x] == p.rows[v][u]
  }

  /** In the finished nine-tile mosaic every pixel of every picture appears at its offset minus the crop, and every label follows. */
  method Mosaic9(s: nat, ps: seq<Picture>, labels: seq<seq<Label>>, xc: nat, yc: nat)
    returns (out: array2<int>, labels9: seq<Mark>)
    requires |ps| == |labels| == 9 && Loaded(ps, s) && xc <= s && yc <= s
    ensures out.Length0 == out.Length1 == 2 * s
    ensures forall i, v, u :: 0 <= i < 9 && 0 <= v < ps[i].h && 0 <= u < ps[i].w ==>
              Appears(out, ps[i], Place9(s, ps, i), xc, yc, v, u)
    ensures forall y, x :: 0 <= y < 2 * s && 0 <= x < 2 * s && (forall i :: 0 <= i < 9 ==> !Layout9(s, ps)[i].Has(y + yc, x + xc))
              ==> out[y, x] == GREY
    ensures AllFollow(labels9, labels, ps, Layout9(s, ps), 9, xc, yc, 2 * s)
  {
    hide Place9, Fits, Appears, AllFollow, CropAll, Gathered, Shows;
    var canvas, marks := LoadMosaic9(s, ps, labels);
    assert forall y, x :: 0 <= y < 3 * s && 0 <= x < 3 * s && (forall i :: 0 <= i < 9 ==> !Layout9(s, ps)[i].Has(y, x))
             ==> canvas[y, x] == GREY;
    hide Painted;
    out := Crop(canvas, s, xc, yc);
    labels9 := CropAll(marks, xc, yc, 2 * s);
    GatheredFollow(labels, ps, Layout9(s, ps), 9, xc, yc, 2 * s);
    forall i, v, u | 0 <= i < 9 && 0 <= v < ps[i].h && 0 <= u < ps[i].w
      ensures Appears(out, ps[i], Place9(s, ps, i), xc, yc, v, u)
    {
      CropShows(canvas, Layout9(s, ps), s, ps, out, xc, yc, i, v, u);
    }
  }

  lemma CropShows(canvas: array2<int>, tiles: seq<Tile>, s: nat, ps: seq<Picture>, out: array2<int>,
                  xc: nat, yc: nat, i: nat, v: nat, u: nat)
    requires |ps| == |tiles| == 9 && Loaded(ps, s) && i < 9 && v < ps[i].h && u < ps[i].w && xc <= s && yc <= s
    requires tiles[i] == Place9(s, ps, i) && Painted(canvas, tiles, ps, 9) && canvas.Length0 == 3 * s
    requires out.Length0 == out.Length1 == 2 * s
    requires forall y, x :: 0 <= y < 2 * s && 0 <= x < 2 * s ==> out[y, x] == canvas[y + yc, x + xc]
    ensures Appears(out, ps[i], tiles[i], xc, yc, v, u)
  {
    hide Place9;
    var t := tiles[i];
    if 0 <= v + t.pady - yc < 2 * s && 0 <= u + t.padx - xc < 2 * s {
      VisibleInTile(s, ps, i, v, u);
      assert Shows(canvas, t, ps[i], v + t.pady, u + t.padx);
    }
  }

  lemma VisibleInTile(s: nat, ps: seq<Picture>, i: nat, v: nat, u: nat)
    requires |ps| == 9 && Loaded(ps, s) && i < 9 && v < ps[i].h && u < ps[i].w
    requires v + Place9(s, ps, i).pady >= 0 && u + Place9(s, ps, i).padx >= 0
    ensures Place9(s, ps, i).Has(v + Place9(s, ps, i).pady, u + Place9(s, ps, i).padx)
  {
    hide Box9;
    Box9Spans(i, s, ps[i].w, ps[i].h, ps[0].w, ps[0].h, if i > 0 then ps[i - 1].w else 0, if i > 0 then ps[i - 1].h else 0);
  }

  lemma VisibleIn4(s: nat, p: Picture, xc: int, yc: int, i: nat, v: nat, u: nat)
    requires i < 4 && v < p.h && u < p.w && 0 <= xc <= 2 * s && 0 <= yc <= 2 * s
    requires 0 <= v + Place4(s, p, xc, yc, i).pady < 2 * s && 0 <= u + Place4(s, p, xc, yc, i).padx < 2 * s
    ensures Place4(s, p, xc, yc, i).Has(v + Place4(s, p, xc, yc, i).pady, u + Place4(s, p, xc, yc, i).padx)
  {
  }

  /** The layout of the four tiles around a centre. */
  ghost function Layout4(s: nat, ps: seq<Picture>, xc: int, yc: int): (tiles: seq<Tile>)
    requires |ps| == 4
    ensures |tiles| == 4
  {
    seq(4, i requires 0 <= i < 4 => Place4(s, ps[i], xc, yc, i))
  }

  /**
   * The four-tile mosaic around a centre on the canvas: every pixel of every picture whose position is on the canvas
   * appears there, the rest is grey, and every label follows.
   */
  method LoadMosaic4(s: nat, ps: seq<Picture>, labels: seq<seq<Label>>, xc: int, yc: int)
    returns (canvas: array2<int>, labels4: seq<Mark>)
    requires |ps| == |labels| == 4 && Loaded(ps, s) && 0 <= xc <= 2 * s && 0 <= yc <= 2 * s
    ensures fresh(canvas) && canvas.Length0 == canvas.Length1 == 2 * s && Painted(canvas, Layout4(s, ps, xc, yc), ps, 4)
    ensures forall i, v, u :: 0 <= i < 4 && 0 <= v < ps[i].h && 0 <= u < ps[i].w ==>
              Appears(canvas, ps[i], Place4(s, ps[i], xc, yc, i), 0, 0, v, u)
    ensures AllFollow(labels4, labels, ps, Layout4(s, ps, xc, yc), 4, 0, 0, 2 * s)
  {
    ghost var tiles := Layout4(s, ps, xc, yc);
    canvas := new int[2 * s, 2 * s]((_, _) => GREY);
    assert Painted(canvas, tiles, ps, 0);
    hide Painted, Fits, Disjoint, Place4, Convert, Appears, AllFollow, CropAll;
    var marks := [];
    for i := 0 to 4
      invariant Painted(canvas, tiles, ps, i) && marks == Gathered(labels, ps, tiles, i)
    {
      var t := Place4(s, ps[i], xc, yc, i);
      marks := marks + Convert(labels[i], ps[i], t);
      Tiles4Fit(s, ps[i], xc, yc, i);
      forall j | 0 <= j < i ensures Disjoint(tiles[j], tiles[i]) { Tiles4Disjoint(s, ps[j], ps[i], xc, yc, j, i); }
      Paint(canvas, tiles, ps, i, t);
    }
    labels4 := CropAll(marks, 0, 0, 2 * s);
    GatheredFollow(labels, ps, tiles, 4, 0, 0, 2 * s);
    forall i, v, u | 0 <= i < 4 && 0 <= v < ps[i].h && 0 <= u < ps[i].w
      ensures Appears(canvas, ps[i], Place4(s, ps[i], xc, yc, i), 0, 0, v, u)
    {
      CanvasShows(canvas, tiles, s, ps, xc, yc, i, v, u);
    }
  }

  lemma CanvasShows(canvas: array2<int>, tiles: seq<Tile>, s: nat, ps: seq<Picture>, xc: int, yc: int,
                    i: nat, v: nat, u: nat)
    requires |ps| == |tiles| == 4 && Loaded(ps, s) && i < 4 && v < ps[i].h && u < ps[i].w
    requires 0 <= xc <= 2 * s && 0 <= yc <= 2 * s && canvas.Length0 == 2 * s
    requires tiles[i] == Place4(s, ps[i], xc, yc, i) && Painted(canvas, tiles, ps, 4)
    ensures Appears(canvas, ps[i], tiles[i], 0, 0, v, u)
  {
    hide Place4;
    var t := tiles[i];
    if 0 <= v + t.pady < 2 * s && 0 <= u + t.padx < 2 * s {
      VisibleIn4(s, ps[i], xc, yc, i, v, u);
      assert Shows(canvas, t, ps[i], v + t.pady, u + t.padx);
    }
  }
}
