/** Rectangular batches: image sizes after loading, batch shapes, letterboxing, and the way labels travel through them. */
module Rectangles {
  import opened Numbers

  function Ceil(x: real): int {
    -(-x).Floor
  }

  lemma RoundInteger(k: int)
    ensures Round(k as real) == k
  {
  }

  lemma RoundAtMost(x: real, n: int)
    requires x <= n as real
    ensures Round(x) <= n
  {
  }

  /** An image size. */
  datatype Size = Size(h: nat, w: nat) {
    predicate Positive() {
      h > 0 && w > 0
    }
  }

  // ----- load_image -----

  /** The size after scaling the longer side to s. */
  function Load(s: nat, z: Size): Size
    requires z.Positive()
  {
    var longer := Max(z.h, z.w);
    if longer == s then z
    else
      ScaledNonNegative(z.h, s, longer);
      ScaledNonNegative(z.w, s, longer);
      Size((z.h as real * (s as real / longer as real)).Floor, (z.w as real * (s as real / longer as real)).Floor)
  }

  lemma ScaledNonNegative(k: nat, s: nat, m: nat)
    requires m > 0
    ensures k as real * (s as real / m as real) >= 0.0
  {
  }

  lemma Recover(k: real, s: real)
    requires k > 0.0
    ensures k * (s / k) == s
  {
  }

  /** The longer side becomes s, the shorter one at most its share of it. */
  lemma LoadedSize(s: nat, z: Size)
    requires z.Positive()
    ensures z.h >= z.w ==> Load(s, z).h == s && Load(s, z).w as real <= z.w as real / z.h as real * s as real
    ensures z.w >= z.h ==> Load(s, z).w == s && Load(s, z).h as real <= z.h as real / z.w as real * s as real
  {
  }

  // ----- batch shapes -----

  function Aspect(z: Size): real
    requires z.Positive()
  {
    z.h as real / z.w as real
  }

  /** The relative shape of a batch whose aspect ratios span [mini, maxi]. */
  function Relative(mini: real, maxi: real): (real, real)
    requires mini > 0.0
  {
    if maxi < 1.0 then (maxi, 1.0) else if mini > 1.0 then (1.0, 1.0 / mini) else (1.0, 1.0)
  }

  function Grow(r: real, s: nat, stride: nat, pad: real): int
    requires stride > 0
  {
    Ceil(r * s as real / stride as real + pad) * stride
  }

  function BatchShape(mini: real, maxi: real, s: nat, stride: nat, pad: real): (int, int)
    requires mini > 0.0 && stride > 0
  {
    var (rh, rw) := Relative(mini, maxi);
    (Grow(rh, s, stride, pad), Grow(rw, s, stride, pad))
  }

  /** Rounding up to the stride and padding never shrinks a side. */
  lemma GrowAtLeast(r: real, s: nat, stride: nat, pad: real)
    requires stride > 0 && pad >= 0.0
    ensures r * s as real <= Grow(r, s, stride, pad) as real
  {
  }

  lemma Scale(a: real, b: real, d: real)
    requires a <= b && d >= 0.0
    ensures a * d <= b * d
  {
  }

  lemma Ratio(a: nat, b: nat)
    requires a > 0 && b > 0
    ensures a as real / b as real > 0.0
    ensures a < b <==> a as real / b as real < 1.0
    ensures a > b <==> a as real / b as real > 1.0
    ensures 1.0 / (a as real / b as real) == b as real / a as real
  {
  }

  lemma InverseOrder(a: real, b: real)
    requires 0.0 < a <= b
    ensures 1.0 / b <= 1.0 / a
  {
  }

  /** The relative shape of a batch covers the relative shape of each of its images. */
  lemma RelativeCovers(z: Size, mini: real, maxi: real)
    requires z.Positive() && 0.0 < mini <= Aspect(z) <= maxi
    ensures var (rh, rw) := Relative(mini, maxi);
            if z.h >= z.w then rh == 1.0 && z.w as real / z.h as real <= rw else rw == 1.0 && z.h as real / z.w as real <= rh
  {
    Ratio(z.h, z.w);
    Ratio(z.w, z.h);
    InverseOrder(mini, Aspect(z));
  }

  /** The rows, or the columns, of an image relative to its longer side. */
  function Share(z: Size, rows: bool): real
    requires z.Positive()
  {
    (if rows then z.h else z.w) as real / Max(z.h, z.w) as real
  }

  lemma WholeShare(a: nat)
    requires a > 0
    ensures a as real / a as real == 1.0
  {
  }

  lemma ShareWithin(z: Size, mini: real, maxi: real)
    requires z.Positive() && 0.0 < mini <= Aspect(z) <= maxi
    ensures Share(z, true) <= Relative(mini, maxi).0 && Share(z, false) <= Relative(mini, maxi).1
  {
    RelativeCovers(z, mini, maxi);
    WholeShare(Max(z.h, z.w));
    hide Relative, Aspect;
  }

  /** The relative shape of a batch is the largest share of rows and the largest share of columns in it. */
  lemma ShareAttained(lo: Size, hi: Size)
    requires lo.Positive() && hi.Positive() && 0.0 < Aspect(lo) <= Aspect(hi)
    ensures var (rh, rw) := Relative(Aspect(lo), Aspect(hi));
            (Share(lo, true) == rh || Share(hi, true) == rh) && (Share(lo, false) == rw || Share(hi, false) == rw)
  {
    Ratio(lo.h, lo.w);
    Ratio(hi.h, hi.w);
    WholeShare(Max(lo.h, lo.w));
    WholeShare(Max(hi.h, hi.w));
  }

  /** A relative length r in pixels, with pad strides added. */
  function Demand(r: real, s: nat, stride: nat, pad: real): real {
    r * s as real + pad * stride as real
  }

  lemma DemandGrows(r: real, r': real, s: nat, stride: nat, pad: real)
    requires r <= r'
    ensures Demand(r, s, stride, pad) <= Demand(r', s, stride, pad)
  {
    Scale(r, r', s as real);
  }

  lemma CeilAtMost(x: real, q: int)
    ensures Ceil(x) <= q <==> x <= q as real
  {
  }

  lemma MultipleOrder(a: int, b: int, d: nat)
    requires d > 0
    ensures a * d <= b * d <==> a <= b
  {
    Distribute(b, a, d);
    if a <= b { NonNegativeTimes(b - a, d); } else { NonNegativeTimes(a - b - 1, d); }
  }

  /** (b - a) d and (a - b - 1) d in terms of a d and b d. */
  lemma Distribute(b: int, a: int, d: int)
    ensures (b - a) * d == b * d - a * d && (a - b - 1) * d == a * d - b * d - d
  {
  }

  lemma NonNegativeTimes(k: nat, d: nat)
    ensures k * d >= 0
  {
  }

  lemma InStrides(r: real, s: real, stride: real, pad: real, q: real)
    requires stride > 0.0
    ensures r * s / stride + pad <= q <==> r * s + pad * stride <= q * stride
  {
    var u := r * s / stride;
    assert u * stride == r * s;
    var gap := q - u - pad;
    assert gap * stride == q * stride - r * s - pad * stride;
    if gap >= 0.0 { NonNegativeProduct(gap, stride); } else { PositiveProduct(-gap, stride); }
  }

  /** A grown side is the least multiple of the stride that meets its demand. */
  lemma GrowExact(r: real, s: nat, stride: nat, pad: real, q: int)
    requires stride > 0
    ensures Grow(r, s, stride, pad) <= q * stride <==> Demand(r, s, stride, pad) <= q as real * stride as real
  {
    hide Ceil;
    var x := r * s as real / stride as real + pad;
    MultipleOrder(Ceil(x), q, stride);
    CeilAtMost(x, q);
    InStrides(r, s as real, stride as real, pad, q as real);
  }

  lemma Covered(n: nat, share: real, r: real, s: nat, grown: int)
    requires n as real <= share * s as real && share <= r && r * s as real <= grown as real
    ensures n <= grown
  {
  }

  /** Every image whose aspect ratio lies in the span of its batch fits the batch shape. */
  lemma FitsBatch(z: Size, mini: real, maxi: real, s: nat, stride: nat, pad: real)
    requires z.Positive() && 0.0 < mini <= Aspect(z) <= maxi && stride > 0 && pad >= 0.0
    ensures var (h, w) := BatchShape(mini, maxi, s, stride, pad); Load(s, z).h <= h && Load(s, z).w <= w
  {
    hide Load, Grow, Aspect, Relative;
    var (rh, rw) := Relative(mini, maxi);
    var (h, w) := (Grow(rh, s, stride, pad), Grow(rw, s, stride, pad));
    GrowAtLeast(rh, s, stride, pad);
    GrowAtLeast(rw, s, stride, pad);
    LoadedSize(s, z);
    RelativeCovers(z, mini, maxi);
    if z.h >= z.w {
      Covered(Load(s, z).w, z.w as real / z.h as real, rw, s, w);
      Covered(s, 1.0, rh, s, h);
    } else {
      Covered(Load(s, z).h, z.h as real / z.w as real, rh, s, h);
      Covered(s, 1.0, rw, s, w);
    }
  }

  lemma GrowMultiple(r: real, s: nat, stride: nat, pad: real)
    requires stride > 0
    ensures Grow(r, s, stride, pad) % stride == 0
  {
    var c := Ceil(r * s as real / stride as real + pad);
    MultipleOf(c, stride);
  }

  lemma MultipleOf(c: int, d: nat)
    requires d > 0
    ensures (c * d) % d == 0
  {
    var q, m := (c * d) / d, (c * d) % d;
    assert m == (c - q) * d by { assert c * d == q * d + m; }
    SmallMultiple(c - q, d);
  }

  lemma SmallMultiple(k: int, d: nat)
    requires d > 0 && 0 <= k * d < d
    ensures k == 0
  {
  }

  /** The set-up of rectangular training: one shape per batch, from the extreme aspect ratios in it. */
  method RectangularShapes(sizes: seq<Size>, batch: nat, s: nat, stride: nat, pad: real) returns (shapes: seq<(int, int)>)
    requires |sizes| > 0 && batch > 0 && stride > 0 && pad >= 0.0
    requires forall k :: 0 <= k < |sizes| ==> sizes[k].Positive()
    ensures |shapes| == (|sizes| - 1) / batch + 1
    ensures forall i :: 0 <= i < |shapes| ==> shapes[i].0 % stride == 0 && shapes[i].1 % stride == 0
    ensures forall i :: 0 <= i < |shapes| ==> IsLeast(shapes[i], sizes, batch, i, s, stride, pad)
    ensures forall k :: 0 <= k < |sizes| ==>
              BatchOf(k, |sizes|, batch) < |shapes|
              && Load(s, sizes[k]).h <= shapes[BatchOf(k, |sizes|, batch)].0
              && Load(s, sizes[k]).w <= shapes[BatchOf(k, |sizes|, batch)].1
  {
    hide Load, BatchShape, IsLeast;
    var nb := (|sizes| - 1) / batch + 1;
    shapes := [];
    for i := 0 to nb
      invariant |shapes| == i
      invariant forall j :: 0 <= j < i ==> shapes[j].0 % stride == 0 && shapes[j].1 % stride == 0
      invariant forall j :: 0 <= j < i ==> IsLeast(shapes[j], sizes, batch, j, s, stride, pad)
      invariant forall k :: 0 <= k < |sizes| && BatchOf(k, |sizes|, batch) < i ==>
                  Load(s, sizes[k]).h <= shapes[BatchOf(k, |sizes|, batch)].0
                  && Load(s, sizes[k]).w <= shapes[BatchOf(k, |sizes|, batch)].1
    {
      BatchNotEmpty(i, |sizes|, batch);
      var mini, maxi;
      ghost var lo, hi;
      mini, maxi, lo, hi := Extremes(sizes, batch, i);
      var shape := BatchShape(mini, maxi, s, stride, pad);
      ShapeMultiple(mini, maxi, s, stride, pad);
      ShapeIsLeast(sizes, batch, i, lo, hi, s, stride, pad);
      forall k | 0 <= k < |sizes| && BatchOf(k, |sizes|, batch) == i
        ensures Load(s, sizes[k]).h <= shape.0 && Load(s, sizes[k]).w <= shape.1
      {
        FitsBatch(sizes[k], mini, maxi, s, stride, pad);
      }
      shapes := shapes + [shape];
    }
  }

  /** q strides of rows, or columns, meet the demand of every image of batch i. */
  ghost predicate HasRoom(sizes: seq<Size>, batch: nat, i: int, s: nat, stride: nat, pad: real, rows: bool, q: int) {
    batch > 0 && forall k :: 0 <= k < |sizes| && BatchOf(k, |sizes|, batch) == i ==>
      sizes[k].Positive() && Demand(Share(sizes[k], rows), s, stride, pad) <= q as real * stride as real
  }

  /** A multiple of the stride is at least the shape of the batch exactly when it has room for every image. */
  ghost predicate IsLeast(shape: (int, int), sizes: seq<Size>, batch: nat, i: int, s: nat, stride: nat, pad: real) {
    forall q :: (shape.0 <= q * stride <==> HasRoom(sizes, batch, i, s, stride, pad, true, q))
             && (shape.1 <= q * stride <==> HasRoom(sizes, batch, i, s, stride, pad, false, q))
  }

  lemma ShapeIsLeast(sizes: seq<Size>, batch: nat, i: nat, lo: nat, hi: nat, s: nat, stride: nat, pad: real)
    requires batch > 0 && stride > 0 && lo < |sizes| && hi < |sizes|
    requires forall k :: 0 <= k < |sizes| ==> sizes[k].Positive()
    requires BatchOf(lo, |sizes|, batch) == BatchOf(hi, |sizes|, batch) == i && 0.0 < Aspect(sizes[lo])
    requires forall k :: 0 <= k < |sizes| && BatchOf(k, |sizes|, batch) == i ==>
               Aspect(sizes[lo]) <= Aspect(sizes[k]) <= Aspect(sizes[hi])
    ensures IsLeast(BatchShape(Aspect(sizes[lo]), Aspect(sizes[hi]), s, stride, pad), sizes, batch, i, s, stride, pad)
  {
    hide Aspect, Grow, Share, Demand, Relative, HasRoom, BatchOf;
    var (rh, rw) := Relative(Aspect(sizes[lo]), Aspect(sizes[hi]));
    ShareAttained(sizes[lo], sizes[hi]);
    forall k | 0 <= k < |sizes| && BatchOf(k, |sizes|, batch) == i
      ensures Share(sizes[k], true) <= rh && Share(sizes[k], false) <= rw
    {
      ShareWithin(sizes[k], Aspect(sizes[lo]), Aspect(sizes[hi]));
    }
    forall q: int
      ensures Grow(rh, s, stride, pad) <= q * stride <==> HasRoom(sizes, batch, i, s, stride, pad, true, q)
      ensures Grow(rw, s, stride, pad) <= q * stride <==> HasRoom(sizes, batch, i, s, stride, pad, false, q)
    {
      GrowExact(rh, s, stride, pad, q);
      GrowExact(rw, s, stride, pad, q);
      RoomExact(sizes, batch, i, lo, hi, s, stride, pad, true, rh, q);
      RoomExact(sizes, batch, i, lo, hi, s, stride, pad, false, rw, q);
    }
  }

  lemma RoomExact(sizes: seq<Size>, batch: nat, i: nat, lo: nat, hi: nat, s: nat, stride: nat, pad: real, rows: bool, r: real, q: int)
    requires batch > 0 && lo < |sizes| && hi < |sizes| && forall k :: 0 <= k < |sizes| ==> sizes[k].Positive()
    requires BatchOf(lo, |sizes|, batch) == BatchOf(hi, |sizes|, batch) == i
    requires Share(sizes[lo], rows) == r || Share(sizes[hi], rows) == r
    requires forall k :: 0 <= k < |sizes| && BatchOf(k, |sizes|, batch) == i ==> Share(sizes[k], rows) <= r
    ensures Demand(r, s, stride, pad) <= q as real * stride as real <==> HasRoom(sizes, batch, i, s, stride, pad, rows, q)
  {
    hide Share, Demand, BatchOf;
    if Demand(r, s, stride, pad) <= q as real * stride as real {
      forall k | 0 <= k < |sizes| && BatchOf(k, |sizes|, batch) == i
        ensures Demand(Share(sizes[k], rows), s, stride, pad) <= q as real * stride as real
      {
        DemandGrows(Share(sizes[k], rows), r, s, stride, pad);
      }
    }
  }

  /** The batch of image k: its index divided by the batch size. */
  function BatchOf(k: nat, n: nat, batch: nat): (i: nat)
    requires k < n && batch > 0
    ensures i <= (n - 1) / batch && i * batch <= k < i * batch + batch
  {
    QuotientMonotone(k, n - 1, batch);
    k / batch
  }

  lemma QuotientMonotone(a: nat, b: nat, d: nat)
    requires a <= b && d > 0
    ensures a / d <= b / d
  {
    var q, r := a / d, b / d;
    var qd, rd := q * d, r * d;
    assert qd <= a && b < rd + d;
    assert (q - r - 1) * d == qd - rd - d;
    NegativeFactor(q - r - 1, d);
  }

  lemma NegativeFactor(k: int, d: nat)
    requires k * d < 0
    ensures k < 0
  {
  }

  lemma BatchNotEmpty(i: nat, n: nat, batch: nat)
    requires n > 0 && batch > 0 && i <= (n - 1) / batch
    ensures i * batch < n && (i * batch) / batch == i
  {
    assert i * batch <= (n - 1) / batch * batch <= n - 1;
  }

  lemma ShapeMultiple(mini: real, maxi: real, s: nat, stride: nat, pad: real)
    requires mini > 0.0 && stride > 0
    ensures var (h, w) := BatchShape(mini, maxi, s, stride, pad); h % stride == 0 && w % stride == 0
  {
    hide Grow;
    var (rh, rw) := Relative(mini, maxi);
    GrowMultiple(rh, s, stride, pad);
    GrowMultiple(rw, s, stride, pad);
  }

  /** The extreme aspect ratios of batch i. */
  method Extremes(sizes: seq<Size>, batch: nat, i: nat) returns (mini: real, maxi: real, ghost lo: nat, ghost hi: nat)
    requires batch > 0 && i * batch < |sizes| && (i * batch) / batch == i
    requires forall k :: 0 <= k < |sizes| ==> sizes[k].Positive()
    ensures 0.0 < mini
    ensures forall k :: 0 <= k < |sizes| && BatchOf(k, |sizes|, batch) == i ==> mini <= Aspect(sizes[k]) <= maxi
    ensures lo < |sizes| && BatchOf(lo, |sizes|, batch) == i && mini == Aspect(sizes[lo])
    ensures hi < |sizes| && BatchOf(hi, |sizes|, batch) == i && maxi == Aspect(sizes[hi])
  {
    hide Aspect;
    var first := sizes[i * batch];
    mini, maxi := Aspect(first), Aspect(first);
    lo, hi := i * batch, i * batch;
    AspectPositive(first);
    for k := 0 to |sizes|
      invariant 0.0 < mini && lo < |sizes| && hi < |sizes|
      invariant BatchOf(lo, |sizes|, batch) == BatchOf(hi, |sizes|, batch) == i
      invariant mini == Aspect(sizes[lo]) && maxi == Aspect(sizes[hi])
      invariant forall j :: 0 <= j < k && BatchOf(j, |sizes|, batch) == i ==> mini <= Aspect(sizes[j]) <= maxi
    {
      if BatchOf(k, |sizes|, batch) == i {
        AspectPositive(sizes[k]);
        if Aspect(sizes[k]) < mini { lo := k; }
        if Aspect(sizes[k]) > maxi { hi := k; }
        mini, maxi := RMin(mini, Aspect(sizes[k])), RMax(maxi, Aspect(sizes[k]));
      }
    }
  }

  lemma AspectPositive(z: Size)
    requires z.Positive()
    ensures Aspect(z) > 0.0
  {
  }

  // ----- letterbox -----

  /** The result of letterboxing: the size of the output, the scale ratios, and half the padding. */
  datatype Boxed = Boxed(h: int, w: int, ratioW: real, ratioH: real, dw: real, dh: real)

  /** The scale ratio: to fit both sides, and not above 1 unless scaling up is allowed. */
  function Gain(z: Size, newH: nat, newW: nat, scaleup: bool): real
    requires z.Positive()
  {
    var r := RMin(newH as real / z.h as real, newW as real / z.w as real);
    if scaleup then r else RMin(r, 1.0)
  }

  /** Both sides still fit after scaling by g, and g does not scale up unless that is allowed. */
  predicate FitsAt(z: Size, newH: nat, newW: nat, scaleup: bool, g: real) {
    z.h as real * g <= newH as real && z.w as real * g <= newW as real && (scaleup || g <= 1.0)
  }

  lemma BelowQuotient(k: nat, n: nat, g: real)
    requires k > 0
    ensures g <= n as real / k as real <==> k as real * g <= n as real
  {
    var q, d := n as real / k as real, k as real;
    assert d * q == n as real;
    if g <= q {
      NonNegativeProduct(d, q - g);
      assert d * (q - g) == d * q - d * g;
    } else {
      PositiveProduct(d, g - q);
      assert d * (g - q) == d * g - d * q;
    }
  }

  /** The scale ratio is the largest one at which both sides fit. */
  lemma GainIsLargest(z: Size, newH: nat, newW: nat, scaleup: bool, g: real)
    requires z.Positive()
    ensures FitsAt(z, newH, newW, scaleup, g) <==> g <= Gain(z, newH, newW, scaleup)
  {
    BelowQuotient(z.h, newH, g);
    BelowQuotient(z.w, newW, g);
  }

  /** A side after scaling, before the borders. */
  function Unpadded(k: nat, r: real): int {
    Round(k as real * r)
  }

  function Letterbox(z: Size, newH: nat, newW: nat, auto: bool, scaleFill: bool, scaleup: bool, stride: nat): Boxed
    requires z.Positive() && stride > 0
  {
    var r := Gain(z, newH, newW, scaleup);
    var unpadW, unpadH := Unpadded(z.w, r), Unpadded(z.h, r);
    var dw, dh := newW - unpadW, newH - unpadH;
    if auto then Bordered(unpadH, unpadW, dh % stride, dw % stride, r, r)
    else if scaleFill then Bordered(newH, newW, 0, 0, newW as real / z.w as real, newH as real / z.h as real)
    else Bordered(unpadH, unpadW, dh, dw, r, r)
  }

  /** Add borders of dh rows and dw columns, split over the two sides. */
  function Bordered(h: int, w: int, dh: int, dw: int, ratioW: real, ratioH: real): Boxed {
    var (hh, hw) := (dh as real / 2.0, dw as real / 2.0);
    Boxed(Round(hh - 0.1) + h + Round(hh + 0.1), Round(hw - 0.1) + w + Round(hw + 0.1), ratioW, ratioH, hw, hh)
  }

  /** The two borders add up to the padding, odd or even. */
  lemma BordersAddUp(d: int)
    ensures Round(d as real / 2.0 - 0.1) + Round(d as real / 2.0 + 0.1) == d
  {
  }

  lemma BorderedIs(h: int, w: int, dh: int, dw: int, ratioW: real, ratioH: real)
    ensures Bordered(h, w, dh, dw, ratioW, ratioH) == Boxed(h + dh, w + dw, ratioW, ratioH, dw as real / 2.0, dh as real / 2.0)
  {
    hide Round;
    BordersAddUp(dh);
    BordersAddUp(dw);
  }

  /**
   * Without `auto` the output has exactly the requested shape. With `auto` each side is the smallest length congruent to the
   * requested one modulo the stride that the scaled image fits in: at most the requested one, with less than a stride of padding.
   */
  lemma LetterboxSize(z: Size, newH: nat, newW: nat, auto: bool, scaleFill: bool, scaleup: bool, stride: nat)
    requires z.Positive() && stride > 0
    ensures var b := Letterbox(z, newH, newW, auto, scaleFill, scaleup, stride);
            var r := Gain(z, newH, newW, scaleup);
            if !auto then b.h == newH && b.w == newW
            else && (b.h - newH) % stride == 0 && (b.w - newW) % stride == 0 && b.h <= newH && b.w <= newW
                 && Unpadded(z.h, r) <= b.h < Unpadded(z.h, r) + stride && Unpadded(z.w, r) <= b.w < Unpadded(z.w, r) + stride
  {
    hide Round, Unpadded, Gain;
    var r := Gain(z, newH, newW, scaleup);
    GainAtMost(z, newH, newW, scaleup);
    UnpaddedAtMost(z.w, r, newW);
    UnpaddedAtMost(z.h, r, newH);
    LetterboxIs(z, newH, newW, auto, scaleFill, scaleup, stride);
    hide Letterbox;
    ModCongruent(newH - Unpadded(z.h, r), stride);
    ModCongruent(newW - Unpadded(z.w, r), stride);
  }

  /** The letterbox with its borders added up. */
  lemma LetterboxIs(z: Size, newH: nat, newW: nat, auto: bool, scaleFill: bool, scaleup: bool, stride: nat)
    requires z.Positive() && stride > 0
    ensures var r := Gain(z, newH, newW, scaleup);
            var (h, w) := (Unpadded(z.h, r), Unpadded(z.w, r));
            var (dh, dw) := if auto then ((newH - h) % stride, (newW - w) % stride) else (newH - h, newW - w);
            Letterbox(z, newH, newW, auto, scaleFill, scaleup, stride)
              == if scaleFill && !auto then Boxed(newH, newW, newW as real / z.w as real, newH as real / z.h as real, 0.0, 0.0)
                 else Boxed(h + dh, w + dw, r, r, dw as real / 2.0, dh as real / 2.0)
  {
    hide Bordered, Unpadded, Gain;
    var r := Gain(z, newH, newW, scaleup);
    var (h, w) := (Unpadded(z.h, r), Unpadded(z.w, r));
    BorderedIs(h, w, newH - h, newW - w, r, r);
    BorderedIs(h, w, (newH - h) % stride, (newW - w) % stride, r, r);
    BorderedIs(newH, newW, 0, 0, newW as real / z.w as real, newH as real / z.h as real);
  }

  /**
   * What the letterbox reports: stretching gives each axis its own ratio and no padding; otherwise both ratios are the
   * scale ratio, and the padding reported is half of what the output is longer than the scaled image.
   */
  lemma LetterboxReport(z: Size, newH: nat, newW: nat, auto: bool, scaleFill: bool, scaleup: bool, stride: nat)
    requires z.Positive() && stride > 0
    ensures var b := Letterbox(z, newH, newW, auto, scaleFill, scaleup, stride);
            var r := Gain(z, newH, newW, scaleup);
            if scaleFill && !auto then
              && b.dh == b.dw == 0.0 && z.h as real * b.ratioH == newH as real && z.w as real * b.ratioW == newW as real
            else
              && b.ratioH == b.ratioW == r
              && 2.0 * b.dh == (b.h - Unpadded(z.h, r)) as real && 2.0 * b.dw == (b.w - Unpadded(z.w, r)) as real
  {
    hide Letterbox, Unpadded, Gain;
    LetterboxIs(z, newH, newW, auto, scaleFill, scaleup, stride);
    Recover(z.h as real, newH as real);
    Recover(z.w as real, newW as real);
  }

  lemma GainAtMost(z: Size, newH: nat, newW: nat, scaleup: bool)
    requires z.Positive()
    ensures Gain(z, newH, newW, scaleup) <= newH as real / z.h as real
    ensures Gain(z, newH, newW, scaleup) <= newW as real / z.w as real
  {
  }

  lemma ModCongruent(d: int, stride: nat)
    requires stride > 0 && d >= 0
    ensures (d % stride - d) % stride == 0 && d % stride <= d
  {
    assert d % stride - d == -(d / stride) * stride;
    MultipleOf(-(d / stride), stride);
  }

  lemma UnpaddedAtMost(k: nat, r: real, n: nat)
    requires k > 0 && r <= n as real / k as real
    ensures Unpadded(k, r) <= n
  {
    Scale(r, n as real / k as real, k as real);
    Recover(k as real, n as real);
    RoundAtMost(k as real * r, n);
  }

  /** An image that fits is not scaled: the ratio is exactly 1, and the output is the batch shape. */
  lemma FittingIsNotScaled(z: Size, newH: nat, newW: nat, stride: nat)
    requires z.Positive() && stride > 0 && z.h <= newH && z.w <= newW
    ensures var b := Letterbox(z, newH, newW, false, false, false, stride);
            b == Boxed(newH, newW, 1.0, 1.0, (newW - z.w) as real / 2.0, (newH - z.h) as real / 2.0)
  {
    LetterboxSize(z, newH, newW, false, false, false, stride);
    AtLeastOne(newH, z.h);
    AtLeastOne(newW, z.w);
    RoundInteger(z.h);
    RoundInteger(z.w);
    assert z.w as real * 1.0 == z.w as real && z.h as real * 1.0 == z.h as real;
  }

  lemma AtLeastOne(n: nat, k: nat)
    requires 0 < k <= n
    ensures n as real / k as real >= 1.0
  {
  }

  /** In rectangular mode every image of the dataset is letterboxed at ratio 1 to exactly its batch shape. */
  lemma RectangularModeIsUnscaled(z: Size, mini: real, maxi: real, s: nat, stride: nat, pad: real)
    requires z.Positive() && 0.0 < mini <= Aspect(z) <= maxi && stride > 0 && pad >= 0.0 && Load(s, z).Positive()
    ensures var (h, w) := BatchShape(mini, maxi, s, stride, pad);
            h % stride == 0 && w % stride == 0 && h >= 0 && w >= 0 &&
            var b := Letterbox(Load(s, z), h, w, false, false, false, stride);
            b.h == h && b.w == w && b.ratioW == 1.0 && b.ratioH == 1.0
  {
    hide Letterbox, BatchShape, Load;
    FitsBatch(z, mini, maxi, s, stride, pad);
    ShapeMultiple(mini, maxi, s, stride, pad);
    var (h, w) := BatchShape(mini, maxi, s, stride, pad);
    FittingIsNotScaled(Load(s, z), h, w, stride);
  }

  // ----- labels -----

  /** One side of a label on one axis: centre c and size d as fractions, side -1 or +1. */
  function Corner(c: real, d: real, side: real): real {
    c + side * (d / 2.0)
  }

  /**
   * The way of a label through one axis: to letterboxed pixels (loaded length n, half padding p), back to a centre and a
   * size relative to the letterboxed length m, to pixels again, and to the original image by removing the padding,
   * dividing by the gain and clipping to the original length n0.
   */
  function RoundTrip(c: real, d: real, side: real, n: real, p: real, m: real, gain: real, n0: real): real
    requires m != 0.0 && gain != 0.0
  {
    var lo, hi := n * Corner(c, d, -1.0) + p, n * Corner(c, d, 1.0) + p;
    var c', d' := (lo + hi) / 2.0 / m, (hi - lo) / m;
    var px := Corner(c' * m, d' * m, side);
    Clip((px - p) / gain, n0)
  }

  /** Up to the clip, the trip multiplies the corner by n / gain. */
  lemma TripScales(c: real, d: real, side: real, n: real, p: real, m: real, gain: real, n0: real)
    requires m != 0.0 && gain != 0.0 && (side == 1.0 || side == -1.0)
    ensures RoundTrip(c, d, side, n, p, m, gain, n0) == Clip(n * Corner(c, d, side) / gain, n0)
  {
  }

  /** The gain is the height ratio h / h0, so label rows come back exactly, clipped to the image. */
  lemma RowsSurvive(c: real, d: real, side: real, h: real, h0: real, p: real, m: real)
    requires h > 0.0 && h0 > 0.0 && m != 0.0 && (side == 1.0 || side == -1.0)
    ensures h / h0 != 0.0
    ensures RoundTrip(c, d, side, h, p, m, h / h0, h0) == Clip(h0 * Corner(c, d, side), h0)
  {
    DivideByRatio(h, h0, Corner(c, d, side));
    hide RoundTrip, Corner;
    TripScales(c, d, side, h, p, m, h / h0, h0);
  }

  lemma DivideByRatio(a: real, b: real, u: real)
    requires a > 0.0 && b > 0.0
    ensures a / b != 0.0 && a * u / (a / b) == b * u
  {
  }

  /**
   * Columns are divided by the height ratio too. A corner inside the image comes back exactly when the two ratios
   * agree, or it is the left border, or it is the right border and the error is clipped away.
   */
  lemma ColumnsSurviveExactly(c: real, d: real, side: real, h: real, h0: real, w: real, w0: real, p: real, m: real)
    requires h > 0.0 && h0 > 0.0 && w > 0.0 && w0 > 0.0 && m != 0.0 && (side == 1.0 || side == -1.0)
    requires 0.0 <= Corner(c, d, side) <= 1.0
    ensures h / h0 != 0.0
    ensures RoundTrip(c, d, side, w, p, m, h / h0, w0) == w0 * Corner(c, d, side) <==>
            Corner(c, d, side) == 0.0 || w * h0 == h * w0 || (Corner(c, d, side) == 1.0 && w * h0 > h * w0)
  {
    hide RoundTrip, Corner, ClippedProduct, ColumnGain;
    ColumnTrip(c, d, side, h, h0, w, w0, p, m);
    CompareScales(h, h0, w, w0);
    ClippedScale(ColumnGain(w, h, h0), w0, Corner(c, d, side));
  }

  function ClippedProduct(x: real, u: real, n: real): real {
    Clip(x * u, n)
  }

  /** What a column is really multiplied with. */
  function ColumnGain(w: real, h: real, h0: real): real
    requires h > 0.0
  {
    w * h0 / h
  }

  lemma ColumnTrip(c: real, d: real, side: real, h: real, h0: real, w: real, w0: real, p: real, m: real)
    requires h > 0.0 && h0 > 0.0 && m != 0.0 && (side == 1.0 || side == -1.0)
    ensures h / h0 != 0.0
    ensures RoundTrip(c, d, side, w, p, m, h / h0, w0) == ClippedProduct(ColumnGain(w, h, h0), Corner(c, d, side), w0)
  {
  }

  lemma CompareScales(h: real, h0: real, w: real, w0: real)
    requires h > 0.0 && h0 > 0.0 && w > 0.0
    ensures var x := ColumnGain(w, h, h0); x >= 0.0 && (x == w0 <==> w * h0 == h * w0) && (x > w0 <==> w * h0 > h * w0)
  {
  }

  lemma ClippedScale(x: real, n: real, u: real)
    requires 0.0 <= u <= 1.0 && n > 0.0 && x >= 0.0
    ensures ClippedProduct(x, u, n) == n * u <==> u == 0.0 || x == n || (u == 1.0 && x > n)
  {
  }

  /** The ratios do differ in practice: a 480 x 639 image loaded at 640 becomes 480 x 640. */
  lemma RatiosCanDiffer()
    ensures Load(640, Size(480, 639)) == Size(480, 640) && 640 * 480 != 480 * 639
  {
  }

  // ----- when the loader keeps the proportions -----

  lemma RealProduct(a: int, b: int)
    ensures (a * b) as real == a as real * b as real
  {
  }

  /** A side of length k scaled by s / m, with the fraction cut off. */
  function Part(k: nat, s: nat, m: nat): nat
    requires m > 0
  {
    k * s / m
  }

  function Left(k: nat, s: nat, m: nat): (r: nat)
    requires m > 0
    ensures r < m
  {
    k * s % m
  }

  lemma PartAndLeft(k: nat, s: nat, m: nat)
    requires m > 0
    ensures Part(k, s, m) * m + Left(k, s, m) == k * s
  {
  }

  lemma WholePart(s: nat, m: nat)
    requires m > 0
    ensures Part(m, s, m) == s && Part(s, m, m) == s && Left(m, s, m) == 0
  {
    DivModUnique(s, 0, m);
    assert m * s == s * m;
  }

  lemma FloorIsPart(k: nat, s: nat, m: nat)
    requires m > 0
    ensures (k as real * (s as real / m as real)).Floor == Part(k, s, m)
  {
    hide Part, Left;
    var q, r := Part(k, s, m), Left(k, s, m);
    PartAndLeft(k, s, m);
    RealProduct(k, s);
    RealProduct(q, m);
    ScaleIsQuotient(k as real, s as real, m as real, q as real, r as real);
  }

  lemma ScaleIsQuotient(k: real, s: real, m: real, q: real, r: real)
    requires 0.0 <= r < m
    ensures k * s == q * m + r ==> q <= k * (s / m) < q + 1.0
  {
    if k * s == q * m + r {
      Rescale(k, s, m);
      UnitShare(r, m);
      assert (q * m + r) / m == q + r / m;
    }
  }

  lemma Rescale(k: real, s: real, m: real)
    requires m > 0.0
    ensures k * (s / m) == (k * s) / m
  {
  }

  lemma UnitShare(r: real, m: real)
    requires m > 0.0 && 0.0 <= r < m
    ensures 0.0 <= r / m < 1.0
  {
    var x := r / m;
    assert x * m == r;
    if x >= 1.0 {
      LargerProduct(x, m);
    } else if x < 0.0 {
      PositiveProduct(-x, m);
    }
  }

  lemma LargerProduct(x: real, m: real)
    requires x >= 1.0 && m > 0.0
    ensures x * m >= m
  {
    NonNegativeProduct(x - 1.0, m);
    assert (x - 1.0) * m == x * m - m;
  }

  lemma LoadedSides(s: nat, z: Size)
    requires z.Positive()
    ensures Load(s, z) == Size(Part(z.h, s, Max(z.h, z.w)), Part(z.w, s, Max(z.h, z.w)))
  {
    hide Part;
    var longer := Max(z.h, z.w);
    if longer == s {
      WholePart(z.h, s);
      WholePart(z.w, s);
    } else {
      FloorIsPart(z.h, s, longer);
      FloorIsPart(z.w, s, longer);
    }
  }

  /** What the loader cuts off the shorter side, in units of the longer one: s * shorter modulo longer. */
  function CutOff(s: nat, z: Size): nat
    requires z.Positive()
  {
    Left(Min(z.h, z.w), s, Max(z.h, z.w))
  }

  /** By how much the loaded proportions are off: the loader always shortens the shorter side. */
  lemma ProportionsOff(s: nat, z: Size)
    requires z.Positive()
    ensures Load(s, z).w * z.h - Load(s, z).h * z.w == if z.w >= z.h then CutOff(s, z) else 0 - CutOff(s, z)
  {
    hide Part, Left, Load;
    LoadedSides(s, z);
    if z.w >= z.h {
      WholePart(s, z.w);
      PartAndLeft(z.h, s, z.w);
    } else {
      WholePart(s, z.h);
      PartAndLeft(z.w, s, z.h);
    }
  }

  /**
   * What becomes of a label column of an image that the loader scaled to s: it comes back exactly if and only if
   * nothing was cut off the shorter side, or the column is the left border, or it is the right border of an image that is
   * wider than high.
   */
  lemma LoadedColumns(s: nat, z: Size, c: real, d: real, side: real, p: real, m: real)
    requires z.Positive() && Load(s, z).Positive() && m != 0.0 && (side == 1.0 || side == -1.0)
    requires 0.0 <= Corner(c, d, side) <= 1.0
    ensures Load(s, z).h as real / z.h as real != 0.0
    ensures RoundTrip(c, d, side, Load(s, z).w as real, p, m, Load(s, z).h as real / z.h as real, z.w as real)
              == z.w as real * Corner(c, d, side)
       <==> CutOff(s, z) == 0 || Corner(c, d, side) == 0.0 || (Corner(c, d, side) == 1.0 && z.w > z.h)
  {
    hide RoundTrip, Corner, Load, CutOff;
    var l := Load(s, z);
    ColumnsSurviveExactly(c, d, side, l.h as real, z.h as real, l.w as real, z.w as real, p, m);
    ProportionsOff(s, z);
    RealProduct(l.w, z.h);
    RealProduct(l.h, z.w);
    if z.w == z.h { SquareUncut(s, z); }
  }

  lemma SquareUncut(s: nat, z: Size)
    requires z.Positive() && z.w == z.h
    ensures CutOff(s, z) == 0
  {
    WholePart(s, z.h);
  }
}
