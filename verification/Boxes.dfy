/** Axis-aligned boxes and their overlap. */
module Boxes {
  import opened Numbers

  datatype Box = Box(x1: real, y1: real, x2: real, y2: real) {
    predicate Proper() {
      x1 <= x2 && y1 <= y2
    }

    function Area(): real {
      (x2 - x1) * (y2 - y1)
    }

    function Shift(d: real): Box {
      Box(x1 + d, y1 + d, x2 + d, y2 + d)
    }
  }

  /** Length of the intersection of two intervals, 0 when they do not meet. */
  function Common(a1: real, a2: real, b1: real, b2: real): real {
    RMax(RMin(a2, b2) - RMax(a1, b1), 0.0)
  }

  function Intersection(a: Box, b: Box): real {
    Common(a.x1, a.x2, b.x1, b.x2) * Common(a.y1, a.y2, b.y1, b.y2)
  }

  function Union(a: Box, b: Box): real {
    a.Area() + b.Area() - Intersection(a, b)
  }

  /** box_iou(a, b) > threshold; two boxes without area give 0 / 0, which exceeds nothing. */
  predicate Overlaps(a: Box, b: Box, threshold: real) {
    Union(a, b) != 0.0 && Intersection(a, b) / Union(a, b) > threshold
  }

  /** Moving both boxes by the same amount keeps their overlap. */
  lemma OverlapsShift(a: Box, b: Box, threshold: real, d: real)
    ensures Overlaps(a.Shift(d), b.Shift(d), threshold) <==> Overlaps(a, b, threshold)
  {
    assert a.Shift(d).Area() == a.Area() && b.Shift(d).Area() == b.Area();
    assert Intersection(a.Shift(d), b.Shift(d)) == Intersection(a, b);
  }

  /** Boxes that are apart on either axis do not overlap. */
  lemma ApartDoNotOverlap(a: Box, b: Box, threshold: real)
    requires (a.x2 <= b.x1 || a.y2 <= b.y1) && threshold >= 0.0
    requires a.Proper() && b.Proper()
    ensures !Overlaps(a, b, threshold) && !Overlaps(b, a, threshold)
  {
  }

  /** A box with area overlaps itself completely. */
  lemma OverlapsItself(a: Box, threshold: real)
    requires a.x1 < a.x2 && a.y1 < a.y2 && threshold < 1.0
    ensures Overlaps(a, a, threshold)
  {
    var area := (a.x2 - a.x1) * (a.y2 - a.y1);
    PositiveProduct(a.x2 - a.x1, a.y2 - a.y1);
    assert Intersection(a, a) == area && Union(a, a) == area;
    assert area / area == 1.0;
  }

  /** A box given by its centre and size. */
  function FromCentre(x: real, y: real, w: real, h: real): (b: Box)
    ensures (b.x1 + b.x2) / 2.0 == x && (b.y1 + b.y2) / 2.0 == y && b.x2 - b.x1 == w && b.y2 - b.y1 == h
  {
    Box(x - w / 2.0, y - h / 2.0, x + w / 2.0, y + h / 2.0)
  }

  // ----- what the overlap measures -----

  predicate Within(c: Box, a: Box) {
    c.Proper() && a.x1 <= c.x1 && c.x2 <= a.x2 && a.y1 <= c.y1 && c.y2 <= a.y2
  }

  /** No box inside both has a larger area than their intersection ... */
  lemma IntersectionIsLargest(a: Box, b: Box, c: Box)
    requires Within(c, a) && Within(c, b)
    ensures c.Area() <= Intersection(a, b)
  {
    var u, v := Common(a.x1, a.x2, b.x1, b.x2), Common(a.y1, a.y2, b.y1, b.y2);
    ProductMonotone(c.x2 - c.x1, u, c.y2 - c.y1, v);
  }

  /** ... and one has that area, unless the boxes do not meet. */
  lemma IntersectionIsAttained(a: Box, b: Box)
    requires a.Proper() && b.Proper()
    ensures Intersection(a, b) == 0.0 || exists c :: Within(c, a) && Within(c, b) && c.Area() == Intersection(a, b)
  {
    var c := Box(RMax(a.x1, b.x1), RMax(a.y1, b.y1), RMin(a.x2, b.x2), RMin(a.y2, b.y2));
    if c.Proper() {
      assert Within(c, a) && Within(c, b) && c.Area() == Intersection(a, b);
    }
  }

  lemma ProductMonotone(a: real, b: real, c: real, d: real)
    requires 0.0 <= a <= b && 0.0 <= c <= d
    ensures a * c <= b * d
  {
    NonNegativeProduct(b - a, c);
    NonNegativeProduct(b, d - c);
    assert (b - a) * c == b * c - a * c && b * (d - c) == b * d - b * c;
  }

  /** The overlap of two boxes is their intersection as a share of what they cover together. */
  lemma OverlapsIs(a: Box, b: Box, threshold: real)
    requires a.Proper() && b.Proper()
    ensures Overlaps(a, b, threshold) <==>
            a.Area() + b.Area() > Intersection(a, b) && Intersection(a, b) > threshold * (a.Area() + b.Area() - Intersection(a, b))
  {
    var i, u := Intersection(a, b), a.Area() + b.Area() - Intersection(a, b);
    IntersectionBelow(a, b);
    hide Intersection, Box.Area;
    if u > 0.0 {
      ShareAbove(i, u, threshold);
    }
  }

  lemma IntersectionBelow(a: Box, b: Box)
    requires a.Proper() && b.Proper()
    ensures Intersection(a, b) <= a.Area() && b.Area() >= 0.0
  {
    ProductMonotone(Common(a.x1, a.x2, b.x1, b.x2), a.x2 - a.x1, Common(a.y1, a.y2, b.y1, b.y2), a.y2 - a.y1);
    NonNegativeProduct(b.x2 - b.x1, b.y2 - b.y1);
  }

  lemma ShareAbove(i: real, u: real, threshold: real)
    requires u > 0.0
    ensures i / u > threshold <==> i > threshold * u
  {
    var q := i / u;
    assert q * u == i;
    if q > threshold {
      PositiveProduct(q - threshold, u);
      assert (q - threshold) * u == i - threshold * u;
    } else {
      NonNegativeProduct(threshold - q, u);
      assert (threshold - q) * u == threshold * u - i;
    }
  }
}
