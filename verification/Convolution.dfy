/** Convolution, batch normalisation at inference, and their fusion into one convolution. */
module Convolution {
  import opened Numbers
  import opened Wrappers
  import opened Tensors

  // ----- sums of products -----

  function Dot(w: seq<real>, p: seq<real>): real
    requires |w| == |p|
  {
    if |w| == 0 then 0.0 else w[0] * p[0] + Dot(w[1..], p[1..])
  }

  function Scale(a: real, w: seq<real>): (r: seq<real>)
    ensures |r| == |w| && forall k :: 0 <= k < |w| ==> r[k] == a * w[k]
  {
    seq(|w|, k requires 0 <= k < |w| => a * w[k])
  }

  function Plus(v: seq<real>, w: seq<real>): (r: seq<real>)
    requires |v| == |w|
    ensures |r| == |w|
  {
    seq(|w|, k requires 0 <= k < |w| => v[k] + w[k])
  }

  lemma ScaleTail(a: real, w: seq<real>)
    requires |w| > 0
    ensures Scale(a, w) == [a * w[0]] + Scale(a, w[1..])
  {
    hide *;
    var tail := Scale(a, w[1..]);
    forall k | 0 <= k < |w| ensures Scale(a, w)[k] == ([a * w[0]] + tail)[k] {
      if k > 0 { assert tail[k - 1] == a * w[1..][k - 1]; }
    }
  }

  lemma RealDistribute(a: real, u: real, v: real, d: real)
    ensures a * u * v + a * d == a * (u * v + d)
  {
  }

  lemma {:induction false} DotScale(a: real, w: seq<real>, p: seq<real>)
    requires |w| == |p|
    ensures Dot(Scale(a, w), p) == a * Dot(w, p)
  {
    if |w| > 0 {
      DotScale(a, w[1..], p[1..]);
      ScaleTail(a, w);
      assert Scale(a, w)[1..] == Scale(a, w[1..]);
      RealDistribute(a, w[0], p[0], Dot(w[1..], p[1..]));
    }
  }

  lemma {:induction false} DotPlus(v: seq<real>, w: seq<real>, p: seq<real>)
    requires |v| == |w| == |p|
    ensures Dot(Plus(v, w), p) == Dot(v, p) + Dot(w, p)
  {
    if |w| > 0 {
      DotPlus(v[1..], w[1..], p[1..]);
      assert Plus(v, w)[1..] == Plus(v[1..], w[1..]);
    }
  }

  lemma {:induction false} DotZero(w: seq<real>, p: seq<real>)
    requires |w| == |p| && forall k :: 0 <= k < |w| ==> w[k] == 0.0 || p[k] == 0.0
    ensures Dot(w, p) == 0.0
  {
    if |w| > 0 { DotZero(w[1..], p[1..]); }
  }

  /** A sum with a single term that is not zero is that term. */
  lemma {:induction false} DotOne(w: seq<real>, p: seq<real>, i: nat)
    requires |w| == |p| && i < |w|
    requires forall k :: 0 <= k < |w| && k != i ==> w[k] == 0.0 || p[k] == 0.0
    ensures Dot(w, p) == w[i] * p[i]
  {
    if i == 0 {
      DotZero(w[1..], p[1..]);
    } else {
      DotOne(w[1..], p[1..], i - 1);
    }
  }

  // ----- convolution -----

  /** How a convolution walks one image axis. */
  datatype Axis = Axis(kernel: nat, stride: nat, padding: nat, dilation: nat) {
    predicate Valid() {
      kernel > 0 && stride > 0 && dilation > 0
    }

    predicate Fits(n: nat)
      requires Valid()
    {
      dilation * (kernel - 1) + 1 <= n + 2 * padding
    }

    function OutSize(n: nat): nat
      requires Valid() && Fits(n)
    {
      (n + 2 * padding - dilation * (kernel - 1) - 1) / stride + 1
    }

    /** The input coordinate read by one kernel tap at one output coordinate. */
    function Source(out: int, tap: int): int {
      out * stride - padding + tap * dilation
    }
  }

  /** weight[o] is filter o flattened row-major over (input channel of the group, row tap, column tap). */
  datatype Conv2d = Conv2d(inChannels: nat, outChannels: nat, rows: Axis, cols: Axis, groups: nat,
                           weight: seq<seq<real>>, bias: Option<seq<real>>)
  {
    function PerGroup(): nat
      requires groups > 0
    {
      inChannels / groups
    }

    function Taps(): nat
      requires groups > 0
    {
      PerGroup() * (rows.kernel * cols.kernel)
    }

    predicate Valid() {
      && rows.Valid() && cols.Valid() && groups > 0 && outChannels > 0
      && inChannels % groups == 0 && outChannels % groups == 0
      && |weight| == outChannels
      && (forall o :: 0 <= o < outChannels ==> |weight[o]| == Taps())
      && (bias.Some? ==> |bias.value| == outChannels)
    }

    function Bias(o: nat): real
      requires Valid() && o < outChannels
    {
      if bias.Some? then bias.value[o] else 0.0
    }

    predicate Accepts(x: Tensor)
      requires Valid()
    {
      IsImage(x) && x.shape[1] == inChannels && rows.Fits(x.shape[2]) && cols.Fits(x.shape[3])
    }
  }

  /** First input channel of the group that output channel o belongs to. */
  function GroupBase(conv: Conv2d, o: nat): nat
    requires conv.Valid()
  {
    PositiveQuotient(conv.outChannels, conv.groups);
    o / (conv.outChannels / conv.groups) * conv.PerGroup()
  }

  lemma PositiveQuotient(k: nat, g: nat)
    requires k > 0 && g > 0 && k % g == 0
    ensures k / g > 0
  {
  }

  /** Output channels are split into as many groups as input channels, and group g reads input group g. */
  lemma GroupExact(conv: Conv2d, g: nat, j: nat)
    requires conv.Valid() && g < conv.groups && j < conv.outChannels / conv.groups
    ensures GroupBase(conv, g * (conv.outChannels / conv.groups) + j) == g * (conv.inChannels / conv.groups)
  {
    DivModUnique(g, j, conv.outChannels / conv.groups);
  }

  /** The zero-padded input value that tap k of filter o meets at output position (y, x). */
  function TapValue(conv: Conv2d, t: Tensor, n: int, o: nat, y: int, x: int, k: nat): real
    requires conv.Valid() && IsImage(t)
  {
    var kh, kw := conv.rows.kernel, conv.cols.kernel;
    assert kh * kw > 0;
    Pixel(t, n, GroupBase(conv, o) + k / (kh * kw),
          conv.rows.Source(y, k / kw % kh), conv.cols.Source(x, k % kw))
  }

  function Patch(conv: Conv2d, t: Tensor, n: int, o: nat, y: int, x: int): (p: seq<real>)
    requires conv.Valid() && IsImage(t)
    ensures |p| == conv.Taps()
  {
    seq(conv.Taps(), k requires 0 <= k < conv.Taps() => TapValue(conv, t, n, o, y, x, k))
  }

  function ConvAt(conv: Conv2d, t: Tensor, n: int, o: int, y: int, x: int): real
    requires conv.Valid() && IsImage(t)
  {
    if 0 <= o < conv.outChannels
    then conv.Bias(o) + Dot(conv.weight[o], Patch(conv, t, n, o, y, x))
    else 0.0
  }

  function OutShape(conv: Conv2d, t: Tensor): (s: seq<nat>)
    requires conv.Valid() && conv.Accepts(t)
    ensures |s| == 4
  {
    [t.shape[0], conv.outChannels, conv.rows.OutSize(t.shape[2]), conv.cols.OutSize(t.shape[3])]
  }

  /** nn.Conv2d: None where torch raises (wrong channel count, kernel larger than the padded input). */
  function ConvForward(conv: Conv2d, t: Tensor): (r: Option<Tensor>)
    requires conv.Valid()
    ensures r.Some? <==> conv.Accepts(t)
    ensures r.Some? ==> IsImage(r.value)
    ensures r.Some? ==> r.value.shape == OutShape(conv, t)
    ensures r.Some? ==> forall n, o, y, x :: Inside(r.value, n, o, y, x) ==>
                          Pixel(r.value, n, o, y, x) == ConvAt(conv, t, n, o, y, x)
  {
    if conv.Accepts(t) then
      var s := OutShape(conv, t);
      Some(Image(s[0], s[1], s[2], s[3],
                 (n, o, y, x) => ConvAt(conv, t, n, o, y, x)))
    else None
  }

  /** The outputs along an axis are the positions at which the last tap has not left the padded input. */
  lemma OutSizeExact(a: Axis, n: nat, out: nat)
    requires a.Valid() && a.Fits(n)
    ensures out < a.OutSize(n) <==> a.Source(out, a.kernel - 1) < n + a.padding
  {
    var span, reach := n + 2 * a.padding - a.dilation * (a.kernel - 1) - 1, out * a.stride;
    assert (a.kernel - 1) * a.dilation == a.dilation * (a.kernel - 1);
    AtMostQuotient(out, span, a.stride);
  }

  /** The kernel fits when at least the first position does. */
  lemma FitsExact(a: Axis, n: nat)
    requires a.Valid()
    ensures a.Fits(n) <==> a.Source(0, a.kernel - 1) < n + a.padding
  {
    assert (a.kernel - 1) * a.dilation == a.dilation * (a.kernel - 1);
  }

  lemma AtMostQuotient(k: nat, n: nat, d: nat)
    requires d > 0
    ensures k <= n / d <==> k * d <= n
  {
    var q := n / d;
    if k <= q { MulMono(k, q, d); } else { MulStep(q, k, d); }
  }

  // ----- batch normalisation at inference -----

  /** std holds the positive square roots of var + eps. */
  datatype BatchNorm = BatchNorm(weight: seq<real>, bias: seq<real>, mean: seq<real>, variance: seq<real>,
                                 eps: real, std: seq<real>)
  {
    predicate Valid(channels: nat) {
      && |weight| == |bias| == |mean| == |variance| == |std| == channels
      && forall c :: 0 <= c < channels ==> std[c] > 0.0 && std[c] * std[c] == variance[c] + eps
    }
  }

  function BnAt(bn: BatchNorm, c: int, v: real): real
    requires bn.Valid(|bn.weight|)
  {
    if 0 <= c < |bn.weight| then (v - bn.mean[c]) / bn.std[c] * bn.weight[c] + bn.bias[c] else 0.0
  }

  function BnForward(bn: BatchNorm, t: Tensor): (r: Option<Tensor>)
    requires bn.Valid(|bn.weight|)
    ensures r.Some? <==> IsImage(t) && t.shape[1] == |bn.weight|
    ensures r.Some? ==> IsImage(r.value) && r.value.shape == t.shape
    ensures r.Some? ==> forall n, c, y, x :: Inside(r.value, n, c, y, x) ==>
                          Pixel(r.value, n, c, y, x) == BnAt(bn, c, Pixel(t, n, c, y, x))
  {
    if IsImage(t) && t.shape[1] == |bn.weight| then
      Some(Like(t, (n, c, y, x) => BnAt(bn, c, Pixel(t, n, c, y, x))))
    else None
  }

  /** nn.Sequential(conv, bn). */
  function ConvBn(conv: Conv2d, bn: BatchNorm, t: Tensor): (r: Option<Tensor>)
    requires conv.Valid() && bn.Valid(conv.outChannels)
  {
    match ConvForward(conv, t)
    case None => None
    case Some(y) => BnForward(bn, y)
  }

  // ----- matrices -----

  predicate IsMatrix(m: seq<seq<real>>, rows: nat, cols: nat) {
    |m| == rows && forall i :: 0 <= i < rows ==> |m[i]| == cols
  }

  function Diag(d: seq<real>): (m: seq<seq<real>>)
    ensures IsMatrix(m, |d|, |d|)
  {
    seq(|d|, i requires 0 <= i < |d| => seq(|d|, j requires 0 <= j < |d| => if i == j then d[i] else 0.0))
  }

  function Column(m: seq<seq<real>>, rows: nat, cols: nat, j: nat): (c: seq<real>)
    requires IsMatrix(m, rows, cols) && j < cols
    ensures |c| == rows
  {
    seq(rows, i requires 0 <= i < rows => m[i][j])
  }

  /** torch.mm of an (n x k) and a (k x cols) matrix. */
  function Mm(a: seq<seq<real>>, b: seq<seq<real>>, n: nat, k: nat, cols: nat): (m: seq<seq<real>>)
    requires IsMatrix(a, n, k) && IsMatrix(b, k, cols)
    ensures IsMatrix(m, n, cols)
  {
    seq(n, i requires 0 <= i < n => seq(cols, j requires 0 <= j < cols => Dot(a[i], Column(b, k, cols, j))))
  }

  /** Multiplying by a diagonal matrix scales the rows. */
  lemma DiagMm(d: seq<real>, m: seq<seq<real>>, cols: nat, o: nat)
    requires IsMatrix(m, |d|, cols) && o < |d|
    ensures Mm(Diag(d), m, |d|, |d|, cols)[o] == Scale(d[o], m[o])
  {
    var row := Mm(Diag(d), m, |d|, |d|, cols)[o];
    forall j | 0 <= j < cols ensures row[j] == d[o] * m[o][j] {
      DotOne(Diag(d)[o], Column(m, |d|, cols, j), o);
    }
    assert row == Scale(d[o], m[o]);
  }

  // ----- fuse_conv_and_bn -----

  function Ratio(bn: BatchNorm, n: nat): (d: seq<real>)
    requires bn.Valid(n)
    ensures |d| == n
  {
    seq(n, c requires 0 <= c < n => bn.weight[c] / bn.std[c])
  }

  function AsColumn(b: seq<real>): (m: seq<seq<real>>)
    ensures IsMatrix(m, |b|, 1)
  {
    seq(|b|, i requires 0 <= i < |b| => [b[i]])
  }

  /** The fused layer: weights diag(gamma / std) * W, and always dilation 1. */
  function FuseConvAndBn(conv: Conv2d, bn: BatchNorm): (f: Conv2d)
    requires conv.Valid() && bn.Valid(conv.outChannels)
    ensures f.Valid() && f.outChannels == conv.outChannels && f.inChannels == conv.inChannels
  {
    var n := conv.outChannels;
    var wbn := Diag(Ratio(bn, n));
    var bConv := if conv.bias.Some? then conv.bias.value else seq(n, _ => 0.0);
    var scaled := Mm(wbn, AsColumn(bConv), n, n, 1);
    Conv2d(conv.inChannels, n, conv.rows.(dilation := 1), conv.cols.(dilation := 1), conv.groups,
           Mm(wbn, conv.weight, n, n, conv.Taps()),
           Some(seq(n, c requires 0 <= c < n => scaled[c][0] + (bn.bias[c] - bn.weight[c] * bn.mean[c] / bn.std[c]))))
  }

  lemma FusedWeight(conv: Conv2d, bn: BatchNorm, o: nat)
    requires conv.Valid() && bn.Valid(conv.outChannels) && o < conv.outChannels
    ensures FuseConvAndBn(conv, bn).weight[o] == Scale(bn.weight[o] / bn.std[o], conv.weight[o])
  {
    DiagMm(Ratio(bn, conv.outChannels), conv.weight, conv.Taps(), o);
  }

  lemma FusedBias(conv: Conv2d, bn: BatchNorm, o: nat)
    requires conv.Valid() && bn.Valid(conv.outChannels) && o < conv.outChannels
    ensures FuseConvAndBn(conv, bn).Bias(o)
         == bn.weight[o] / bn.std[o] * conv.Bias(o) + (bn.bias[o] - bn.weight[o] * bn.mean[o] / bn.std[o])
  {
    var bConv := if conv.bias.Some? then conv.bias.value else seq(conv.outChannels, _ => 0.0);
    DiagMm(Ratio(bn, conv.outChannels), AsColumn(bConv), 1, o);
  }

  /** Every output of the fused filter is the batch norm of the original filter's output. */
  lemma FusedFilter(conv: Conv2d, bn: BatchNorm, o: nat, p: seq<real>)
    requires conv.Valid() && bn.Valid(conv.outChannels) && o < conv.outChannels && |p| == conv.Taps()
    ensures var f := FuseConvAndBn(conv, bn);
            f.Bias(o) + Dot(f.weight[o], p) == BnAt(bn, o, conv.Bias(o) + Dot(conv.weight[o], p))
  {
    hide FuseConvAndBn, Dot, Conv2d.Bias, Conv2d.Taps;
    FusedWeight(conv, bn, o);
    FusedBias(conv, bn, o);
    DotScale(bn.weight[o] / bn.std[o], conv.weight[o], p);
    var g, s, m, b, u, v := bn.weight[o], bn.std[o], bn.mean[o], bn.bias[o], conv.Bias(o), Dot(conv.weight[o], p);
    var f := FuseConvAndBn(conv, bn);
    calc {
      f.Bias(o) + Dot(f.weight[o], p);
      g / s * u + (b - g * m / s) + g / s * v;
      { AffineOfSum(g, s, m, b, u, v); }
      (u + v - m) / s * g + b;
      BnAt(bn, o, u + v);
    }
  }

  lemma AffineOfSum(g: real, s: real, m: real, b: real, u: real, v: real)
    requires s > 0.0
    ensures g / s * u + (b - g * m / s) + g / s * v == (u + v - m) / s * g + b
  {
  }

  /** Dilation changes nothing on an axis that has one tap, or that is not dilated. */
  predicate Undilated(a: Axis) {
    a.kernel == 1 || a.dilation == 1
  }

  lemma UndilatedAxis(a: Axis)
    requires a.Valid() && Undilated(a)
    ensures forall n: nat :: a.Fits(n) <==> a.(dilation := 1).Fits(n)
    ensures forall n: nat :: a.Fits(n) ==> a.OutSize(n) == a.(dilation := 1).OutSize(n)
    ensures forall out: int, tap: int :: 0 <= tap < a.kernel ==> a.Source(out, tap) == a.(dilation := 1).Source(out, tap)
  {
  }

  lemma FusedPatch(conv: Conv2d, bn: BatchNorm, t: Tensor, n: int, o: nat, y: int, x: int)
    requires conv.Valid() && bn.Valid(conv.outChannels) && IsImage(t) && Undilated(conv.rows) && Undilated(conv.cols)
    ensures Patch(FuseConvAndBn(conv, bn), t, n, o, y, x) == Patch(conv, t, n, o, y, x)
  {
    var f := FuseConvAndBn(conv, bn);
    UndilatedAxis(conv.rows);
    UndilatedAxis(conv.cols);
    forall k | 0 <= k < conv.Taps() ensures TapValue(f, t, n, o, y, x, k) == TapValue(conv, t, n, o, y, x, k) {
      assert 0 <= k / conv.cols.kernel % conv.rows.kernel < conv.rows.kernel;
      assert 0 <= k % conv.cols.kernel < conv.cols.kernel;
    }
  }

  lemma FusedPixel(conv: Conv2d, bn: BatchNorm, t: Tensor, n: int, o: nat, y: int, x: int)
    requires conv.Valid() && bn.Valid(conv.outChannels) && IsImage(t) && Undilated(conv.rows) && Undilated(conv.cols)
    requires o < conv.outChannels
    ensures ConvAt(FuseConvAndBn(conv, bn), t, n, o, y, x) == BnAt(bn, o, ConvAt(conv, t, n, o, y, x))
  {
    FusedPatch(conv, bn, t, n, o, y, x);
    FusedFilter(conv, bn, o, Patch(conv, t, n, o, y, x));
  }

  /** fuse_conv_and_bn preserves the function computed by every undilated layer, errors included. */
  lemma FuseCorrect(conv: Conv2d, bn: BatchNorm, t: Tensor)
    requires conv.Valid() && bn.Valid(conv.outChannels) && Undilated(conv.rows) && Undilated(conv.cols)
    ensures ConvForward(FuseConvAndBn(conv, bn), t) == ConvBn(conv, bn, t)
  {
    hide Pixel, ConvAt, BnAt;
    var f := FuseConvAndBn(conv, bn);
    UndilatedAxis(conv.rows);
    UndilatedAxis(conv.cols);
    if conv.Accepts(t) {
      var a, b := ConvForward(f, t).value, ConvBn(conv, bn, t).value;
      var mid := ConvForward(conv, t).value;
      forall n, o, y, x | Inside(a, n, o, y, x) ensures Pixel(a, n, o, y, x) == Pixel(b, n, o, y, x) {
        assert Inside(mid, n, o, y, x) && Inside(b, n, o, y, x);
        FusedPixel(conv, bn, t, n, o, y, x);
      }
      ImagesEqual(a, b);
    }
  }

  // ----- exactly which layers the fusion preserves -----

  /** An image length on which dilating an axis with several taps shortens the output. */
  function Witness(a: Axis): nat
    requires a.Valid()
  {
    (2 * a.padding + a.dilation * a.kernel) * (a.stride - 1) + a.dilation * a.kernel + a.kernel
  }

  lemma MulPred(m: int, s: int)
    ensures m * (s - 1) + m == m * s
  {
  }

  lemma MulPositive(a: nat, b: nat)
    requires a > 0 && b > 0
    ensures a * b > 0
  {
  }

  /** The padded length splits into stride-many steps of m and one kernel. */
  lemma WitnessLength(a: Axis)
    requires a.Valid()
    ensures var m := 2 * a.padding + a.dilation * a.kernel;
            Witness(a) + 2 * a.padding == m * a.stride + a.kernel && m * a.stride >= m
  {
    var m := 2 * a.padding + a.dilation * a.kernel;
    MulPred(m, a.stride);
    MulMono(0, a.stride - 1, m);
    hide *;
    assert m * (a.stride - 1) == (a.stride - 1) * m;
  }

  lemma WitnessFits(a: Axis)
    requires a.Valid()
    ensures a.Fits(Witness(a)) && a.(dilation := 1).Fits(Witness(a))
    ensures !Undilated(a) ==> a.OutSize(Witness(a)) < a.(dilation := 1).OutSize(Witness(a))
  {
    hide Witness;
    var m, k, d := 2 * a.padding + a.dilation * a.kernel, a.kernel, a.dilation;
    WitnessLength(a);
    var reach, length := m * a.stride, Witness(a) + 2 * a.padding;
    MulPred(d, k);
    var extent := d * (k - 1);
    assert extent + d == d * k && length == reach + k && reach >= m;
    assert 1 * (k - 1) == k - 1;
    if !Undilated(a) {
      MulPred(k - 1, d);
      MulPositive(d - 1, k - 1);
      var e := (d - 1) * (k - 1);
      assert e == (k - 1) * (d - 1) && extent == (k - 1) * d;
      assert extent == e + (k - 1);
      DivBelow(m, a.stride, e);
      DivModUnique(m, 0, a.stride);
    }
  }

  lemma DivBelow(m: nat, s: nat, e: nat)
    requires s > 0 && 0 < e <= m * s
    ensures (m * s - e) / s < m
  {
    var k := m * s - e;
    DivModBounds(k, m, s);
  }

  lemma ConvBnShape(conv: Conv2d, bn: BatchNorm, t: Tensor)
    requires conv.Valid() && bn.Valid(conv.outChannels) && conv.Accepts(t)
    ensures ConvBn(conv, bn, t).Some? && ConvBn(conv, bn, t).value.shape == OutShape(conv, t)
  {
  }

  /** The fusion drops the dilation, so it preserves a layer exactly when no axis is really dilated. */
  lemma FuseExact(conv: Conv2d, bn: BatchNorm)
    requires conv.Valid() && bn.Valid(conv.outChannels)
    ensures (forall t: Tensor :: ConvForward(FuseConvAndBn(conv, bn), t) == ConvBn(conv, bn, t))
       <==> Undilated(conv.rows) && Undilated(conv.cols)
  {
    if Undilated(conv.rows) && Undilated(conv.cols) {
      forall t: Tensor ensures ConvForward(FuseConvAndBn(conv, bn), t) == ConvBn(conv, bn, t) {
        FuseCorrect(conv, bn, t);
      }
    } else {
      var t := Image(1, conv.inChannels, Witness(conv.rows), Witness(conv.cols), (n, c, y, x) => 0.0);
      WitnessFits(conv.rows);
      WitnessFits(conv.cols);
      ConvBnShape(conv, bn, t);
      assert ConvForward(FuseConvAndBn(conv, bn), t) != ConvBn(conv, bn, t);
    }
  }

  // ----- the flattened dot product is the textbook triple sum -----

  ghost function Sum(n: nat, f: int -> real): real {
    if n == 0 then 0.0 else Sum(n - 1, f) + f(n - 1)
  }

  lemma {:induction false} SumEqual(n: nat, f: int -> real, g: int -> real)
    requires forall k :: 0 <= k < n ==> f(k) == g(k)
    ensures Sum(n, f) == Sum(n, g)
  {
    if n > 0 { SumEqual(n - 1, f, g); }
  }

  lemma {:induction false} SumConcat(m: nat, n: nat, f: int -> real)
    ensures Sum(m + n, f) == Sum(m, f) + Sum(n, k => f(m + k))
  {
    if n > 0 {
      SumConcat(m, n - 1, f);
      var g := k => f(m + k);
      assert Sum(n, g) == Sum(n - 1, g) + g(n - 1);
      assert m + n - 1 == m + (n - 1);
    }
  }

  /** A sum over a * b terms, taken in a blocks of b. */
  lemma {:induction false} SumBlocks(a: nat, b: nat, f: int -> real, g: int -> real)
    requires forall i :: 0 <= i < a ==> g(i) == Sum(b, j => f(i * b + j))
    ensures Sum(a * b, f) == Sum(a, g)
  {
    if a > 0 {
      SumBlocks(a - 1, b, f, g);
      assert a * b == (a - 1) * b + b;
      SumConcat((a - 1) * b, b, f);
    }
  }

  lemma {:induction false} DotIsSum(w: seq<real>, p: seq<real>, f: int -> real)
    requires |w| == |p| && forall k :: 0 <= k < |w| ==> f(k) == w[k] * p[k]
    ensures Dot(w, p) == Sum(|w|, f)
  {
    if |w| > 0 {
      var g := k => f(1 + k);
      DotIsSum(w[1..], p[1..], g);
      SumConcat(1, |w| - 1, f);
      assert Sum(1, f) == Sum(0, f) + f(0);
    }
  }

  /** One term of the textbook sum: filter weight (i, ky, kx) times the padded input under it. */
  ghost function Term(conv: Conv2d, t: Tensor, n: int, o: nat, y: int, x: int, i: int, ky: int, kx: int): real
    requires conv.Valid() && IsImage(t) && o < conv.outChannels
  {
    var k := (i * conv.rows.kernel + ky) * conv.cols.kernel + kx;
    if 0 <= k < conv.Taps()
    then conv.weight[o][k] * Pixel(t, n, GroupBase(conv, o) + i, conv.rows.Source(y, ky), conv.cols.Source(x, kx))
    else 0.0
  }

  lemma TapFlat(i: nat, ky: nat, kx: nat, kh: nat, kw: nat)
    ensures i * (kh * kw) + (ky * kw + kx) == (i * kh + ky) * kw + kx
  {
  }

  lemma TapBack(i: nat, ky: nat, kx: nat, kh: nat, kw: nat, row: nat, k: nat)
    requires ky < kh && kx < kw && row == i * kh + ky && k == row * kw + kx
    ensures k % kw == kx && k / kw % kh == ky
  {
    DivModUnique(row, kx, kw);
    DivModUnique(i, ky, kh);
  }

  lemma TapChannel(i: nat, r: nat, area: nat, channels: nat, k: nat)
    requires i < channels && r < area && k == i * area + r
    ensures k < channels * area && k / area == i
  {
    MulStep(i, channels, area);
    DivModUnique(i, r, area);
  }

  /** The flat index of tap (i, ky, kx), and the tap read back from it. */
  lemma TapIndex(i: nat, ky: nat, kx: nat, kh: nat, kw: nat, channels: nat)
    requires i < channels && ky < kh && kx < kw
    ensures var k := i * (kh * kw) + (ky * kw + kx);
            k == (i * kh + ky) * kw + kx && k < channels * (kh * kw)
            && k / (kh * kw) == i && k / kw % kh == ky && k % kw == kx
  {
    var area, r, row := kh * kw, ky * kw + kx, i * kh + ky;
    var k := i * area + r;
    MulStep(ky, kh, kw);
    TapFlat(i, ky, kx, kh, kw);
    TapBack(i, ky, kx, kh, kw, row, k);
    TapChannel(i, r, area, channels, k);
  }

  lemma TermOfTap(conv: Conv2d, t: Tensor, n: int, o: nat, y: int, x: int, i: nat, ky: nat, kx: nat)
    requires conv.Valid() && IsImage(t) && o < conv.outChannels
    requires i < conv.PerGroup() && ky < conv.rows.kernel && kx < conv.cols.kernel
    ensures var k := i * (conv.rows.kernel * conv.cols.kernel) + (ky * conv.cols.kernel + kx);
            0 <= k < conv.Taps() &&
            conv.weight[o][k] * Patch(conv, t, n, o, y, x)[k] == Term(conv, t, n, o, y, x, i, ky, kx)
  {
    hide Pixel, GroupBase, Axis.Source;
    TapIndex(i, ky, kx, conv.rows.kernel, conv.cols.kernel, conv.PerGroup());
  }

  /** The convolution computes its textbook definition: a sum over input channels, row taps and column taps. */
  lemma ConvIsTextbook(conv: Conv2d, t: Tensor, n: int, o: nat, y: int, x: int)
    requires conv.Valid() && IsImage(t) && o < conv.outChannels
    ensures ConvAt(conv, t, n, o, y, x) == conv.Bias(o)
      + Sum(conv.PerGroup(), i => Sum(conv.rows.kernel, ky => Sum(conv.cols.kernel, kx =>
          Term(conv, t, n, o, y, x, i, ky, kx))))
  {
    hide Pixel, Term, ConvAt, Patch, Dot, Sum;
    var kh, kw := conv.rows.kernel, conv.cols.kernel;
    var w, p := conv.weight[o], Patch(conv, t, n, o, y, x);
    var f := k => if 0 <= k < conv.Taps() then w[k] * p[k] else 0.0;
    DotIsSum(w, p, f);
    var rows := i => Sum(kh, ky => Sum(kw, kx => Term(conv, t, n, o, y, x, i, ky, kx)));
    forall i | 0 <= i < conv.PerGroup() ensures rows(i) == Sum(kh * kw, r => f(i * (kh * kw) + r)) {
      TextbookRows(conv, t, n, o, y, x, i, f);
    }
    SumBlocks(conv.PerGroup(), kh * kw, f, rows);
    ConvAtUnfold(conv, t, n, o, y, x);
  }

  lemma ConvAtUnfold(conv: Conv2d, t: Tensor, n: int, o: nat, y: int, x: int)
    requires conv.Valid() && IsImage(t) && o < conv.outChannels
    ensures ConvAt(conv, t, n, o, y, x) == conv.Bias(o) + Dot(conv.weight[o], Patch(conv, t, n, o, y, x))
  {
  }

  lemma TextbookRows(conv: Conv2d, t: Tensor, n: int, o: nat, y: int, x: int, i: nat, f: int -> real)
    requires conv.Valid() && IsImage(t) && o < conv.outChannels && i < conv.PerGroup()
    requires forall k :: 0 <= k < conv.Taps() ==> f(k) == conv.weight[o][k] * Patch(conv, t, n, o, y, x)[k]
    ensures Sum(conv.rows.kernel, ky => Sum(conv.cols.kernel, kx => Term(conv, t, n, o, y, x, i, ky, kx)))
         == Sum(conv.rows.kernel * conv.cols.kernel, r => f(i * (conv.rows.kernel * conv.cols.kernel) + r))
  {
    hide Pixel, Term, Patch;
    var kh, kw := conv.rows.kernel, conv.cols.kernel;
    var g := r => f(i * (kh * kw) + r);
    var cols := ky => Sum(kw, kx => Term(conv, t, n, o, y, x, i, ky, kx));
    forall ky | 0 <= ky < kh ensures cols(ky) == Sum(kw, j => g(ky * kw + j)) {
      forall kx | 0 <= kx < kw ensures Term(conv, t, n, o, y, x, i, ky, kx) == g(ky * kw + kx) {
        TermOfTap(conv, t, n, o, y, x, i, ky, kx);
      }
      SumEqual(kw, kx => Term(conv, t, n, o, y, x, i, ky, kx), j => g(ky * kw + j));
    }
    SumBlocks(kh, kw, g, cols);
  }
}
