/** The three-branch RepVGG block and its re-parametrisation into a single 3 x 3 convolution. */
module RepVgg {
  import opened Numbers
  import opened Wrappers
  import opened Tensors
  import opened Convolution

  /** A block in training form: 3 x 3 and 1 x 1 convolutions with batch norm, and a batch norm of the input. */
  datatype Block = Block(dense: Conv2d, denseBn: BatchNorm, one: Conv2d, oneBn: BatchNorm,
                         identity: Option<BatchNorm>)
  {
    function In(): nat { dense.inChannels }
    function Out(): nat { dense.outChannels }

    /** What the constructor builds, plus the padding under which the three branches can be added. */
    predicate Valid() {
      && dense.Valid() && one.Valid() && denseBn.Valid(Out()) && oneBn.Valid(Out())
      && one.inChannels == In() && one.outChannels == Out() && one.groups == dense.groups
      && dense.bias == None && one.bias == None
      && dense.rows == dense.cols && one.rows == one.cols
      && dense.rows.kernel == 3 && dense.rows.dilation == 1 && dense.rows.padding >= 1
      && one.rows == Axis(1, dense.rows.stride, dense.rows.padding - 1, 1)
      && (identity.Some? <==> Out() == In() && dense.rows.stride == 1)
      && (identity.Some? ==> identity.value.Valid(Out()) && dense.rows.padding == 1)
    }
  }

  /** Elementwise sum: None where either operand failed or the shapes differ. */
  function Add(a: Option<Tensor>, b: Option<Tensor>): (r: Option<Tensor>)
    requires a.Some? ==> IsImage(a.value)
    requires b.Some? ==> IsImage(b.value)
    ensures r.Some? <==> a.Some? && b.Some? && a.value.shape == b.value.shape
    ensures r.Some? ==> IsImage(r.value) && r.value.shape == a.value.shape
    ensures r.Some? ==> forall n, c, y, x :: Inside(r.value, n, c, y, x) ==>
                          Pixel(r.value, n, c, y, x) == Pixel(a.value, n, c, y, x) + Pixel(b.value, n, c, y, x)
  {
    if a.Some? && b.Some? && a.value.shape == b.value.shape then
      Some(Like(a.value, (n, c, y, x) => Pixel(a.value, n, c, y, x) + Pixel(b.value, n, c, y, x)))
    else None
  }

  /** The sum of the branches, before squeeze-and-excite and the activation. */
  function Branches(b: Block, t: Tensor): (r: Option<Tensor>)
    requires b.Valid()
    ensures r.Some? ==> IsImage(r.value)
  {
    var both := Add(ConvBn(b.dense, b.denseBn, t), ConvBn(b.one, b.oneBn, t));
    if b.identity.None? then both else Add(both, BnForward(b.identity.value, t))
  }

  // ----- get_equivalent_kernel_bias -----

  function Gain(bn: BatchNorm, o: nat): real
    requires bn.Valid(|bn.weight|) && o < |bn.weight|
  {
    bn.weight[o] / bn.std[o]
  }

  function Shift(bn: BatchNorm, o: nat): real
    requires bn.Valid(|bn.weight|) && o < |bn.weight|
  {
    bn.bias[o] - bn.mean[o] * bn.weight[o] / bn.std[o]
  }

  lemma BnIsAffine(bn: BatchNorm, o: nat, v: real)
    requires bn.Valid(|bn.weight|) && o < |bn.weight|
    ensures BnAt(bn, o, v) == Gain(bn, o) * v + Shift(bn, o)
  {
  }

  /** A 1 x 1 filter zero-padded to 3 x 3: its weights sit on the centre taps. */
  function PadFilter(w: seq<real>): (r: seq<real>)
    ensures |r| == 9 * |w|
  {
    seq(9 * |w|, k requires 0 <= k < 9 * |w| => if k % 9 == 4 then w[k / 9] else 0.0)
  }

  /** The 3 x 3 filter that copies channel i of a group of dim channels. */
  function CopyFilter(dim: nat, i: nat): (r: seq<real>)
    requires i < dim
    ensures |r| == 9 * dim
  {
    seq(9 * dim, k requires 0 <= k < 9 * dim => if k == 9 * i + 4 then 1.0 else 0.0)
  }

  /** The filter bank of the identity branch: filter i copies channel i % dim of its group. */
  function CopyFilters(channels: nat, dim: nat): (r: seq<seq<real>>)
    requires dim > 0
    ensures IsMatrix(r, channels, 9 * dim)
  {
    seq(channels, i requires 0 <= i < channels => CopyFilter(dim, i % dim))
  }

  /** The loop that fills the identity kernel: all zeros, then one centre tap per channel. */
  method IdentityKernel(channels: nat, dim: nat) returns (kernel: seq<seq<real>>)
    requires dim > 0
    ensures kernel == CopyFilters(channels, dim)
  {
    var zeros := seq(9 * dim, _ => 0.0);
    kernel := seq(channels, _ => zeros);
    for i := 0 to channels
      invariant |kernel| == channels
      invariant forall j :: 0 <= j < i ==> kernel[j] == CopyFilter(dim, j % dim)
      invariant forall j :: i <= j < channels ==> kernel[j] == zeros
    {
      kernel := kernel[i := kernel[i][9 * (i % dim) + 4 := 1.0]];
    }
  }

  /** The two convolution branches as one 3 x 3 filter. */
  function ConvFilter(b: Block, o: nat): (w: seq<real>)
    requires b.Valid() && o < b.Out()
    ensures |w| == b.dense.Taps()
  {
    TapCounts(b);
    Plus(Scale(Gain(b.denseBn, o), b.dense.weight[o]), PadFilter(Scale(Gain(b.oneBn, o), b.one.weight[o])))
  }

  /** The identity branch as a 3 x 3 filter. */
  function IdentityFilter(b: Block, o: nat): (w: seq<real>)
    requires b.Valid() && o < b.Out() && b.identity.Some?
    ensures |w| == b.dense.Taps()
  {
    TapCounts(b);
    PositiveQuotient(b.In(), b.dense.groups);
    Scale(Gain(b.identity.value, o), CopyFilters(b.In(), b.dense.PerGroup())[o])
  }

  function EquivalentFilter(b: Block, o: nat): (w: seq<real>)
    requires b.Valid() && o < b.Out()
    ensures |w| == b.dense.Taps()
  {
    if b.identity.None? then ConvFilter(b, o) else Plus(ConvFilter(b, o), IdentityFilter(b, o))
  }

  function EquivalentBias(b: Block, o: nat): real
    requires b.Valid() && o < b.Out()
  {
    var both := Shift(b.denseBn, o) + Shift(b.oneBn, o);
    if b.identity.None? then both else both + Shift(b.identity.value, o)
  }

  lemma TapCounts(b: Block)
    requires b.Valid()
    ensures b.dense.Taps() == 9 * b.dense.PerGroup() && b.one.Taps() == b.dense.PerGroup()
  {
  }

  /** The convolution that fuse puts in place of the block. */
  function Reparam(b: Block): (f: Conv2d)
    requires b.Valid()
    ensures f.Valid() && f.inChannels == b.In() && f.outChannels == b.Out() && f.groups == b.dense.groups
    ensures f.rows == b.dense.rows && f.cols == b.dense.cols
    ensures forall o :: 0 <= o < b.Out() ==> f.weight[o] == EquivalentFilter(b, o) && f.Bias(o) == EquivalentBias(b, o)
  {
    b.dense.(weight := seq(b.Out(), o requires 0 <= o < b.Out() => EquivalentFilter(b, o)),
             bias := Some(seq(b.Out(), o requires 0 <= o < b.Out() => EquivalentBias(b, o))))
  }

  // ----- the fused filter computes the sum of the branches -----

  lemma {:induction false} DotConcat(v: seq<real>, w: seq<real>, p: seq<real>, q: seq<real>)
    requires |v| == |p| && |w| == |q|
    ensures Dot(v + w, p + q) == Dot(v, p) + Dot(w, q)
  {
    if |v| == 0 {
      assert v + w == w && p + q == q;
    } else {
      DotConcat(v[1..], w, p[1..], q);
      assert (v + w)[1..] == v[1..] + w && (p + q)[1..] == p[1..] + q;
    }
  }

  /** The centre tap of every channel of a 3 x 3 patch. */
  function Centres(p: seq<real>, n: nat): (r: seq<real>)
    requires |p| == 9 * n
    ensures |r| == n
  {
    seq(n, i requires 0 <= i < n => p[9 * i + 4])
  }

  lemma PadFilterCons(w: seq<real>)
    requires |w| > 0
    ensures PadFilter(w) == [0.0, 0.0, 0.0, 0.0, w[0], 0.0, 0.0, 0.0, 0.0] + PadFilter(w[1..])
  {
  }

  lemma CentresCons(p: seq<real>, n: nat)
    requires |p| == 9 * n && n > 0
    ensures Centres(p, n) == [p[4]] + Centres(p[9..], n - 1)
  {
  }

  lemma {:induction false} DotPadded(w: seq<real>, p: seq<real>)
    requires |p| == 9 * |w|
    ensures Dot(PadFilter(w), p) == Dot(w, Centres(p, |w|))
  {
    if |w| > 0 {
      PadFilterCons(w);
      CentresCons(p, |w|);
      DotPadded(w[1..], p[9..]);
      hide PadFilter, Centres;
      var head := [0.0, 0.0, 0.0, 0.0, w[0], 0.0, 0.0, 0.0, 0.0];
      assert p == p[..9] + p[9..];
      DotConcat(head, PadFilter(w[1..]), p[..9], p[9..]);
      DotOne(head, p[..9], 4);
      assert Centres(p, |w|)[1..] == Centres(p[9..], |w| - 1);
    }
  }

  /** Tap 4 of a channel is the centre of its 3 x 3 kernel. */
  lemma CentreTap(i: nat)
    ensures (9 * i + 4) / 9 == i && (9 * i + 4) / (3 * 3) == i && (9 * i + 4) / 3 % 3 == 1 && (9 * i + 4) % 3 == 1
  {
  }

  lemma PaddedPatch(b: Block, t: Tensor, n: int, o: nat, y: int, x: int)
    requires b.Valid() && IsImage(t) && o < b.Out()
    ensures b.dense.Taps() == 9 * b.dense.PerGroup()
    ensures Patch(b.one, t, n, o, y, x) == Centres(Patch(b.dense, t, n, o, y, x), b.dense.PerGroup())
  {
    TapCounts(b);
    hide Pixel;
    forall i | 0 <= i < b.dense.PerGroup()
      ensures TapValue(b.one, t, n, o, y, x, i) == TapValue(b.dense, t, n, o, y, x, 9 * i + 4)
    {
      CentreTap(i);
    }
  }

  /** In a block with an identity branch, the centre tap of an output's own channel is that input pixel. */
  lemma OwnChannel(b: Block, t: Tensor, n: int, o: nat, y: int, x: int)
    requires b.Valid() && IsImage(t) && o < b.Out() && b.identity.Some?
    ensures b.dense.PerGroup() > 0 && b.dense.Taps() == 9 * b.dense.PerGroup()
    ensures Patch(b.dense, t, n, o, y, x)[9 * (o % b.dense.PerGroup()) + 4] == Pixel(t, n, o, y, x)
  {
    TapCounts(b);
    var dim := b.dense.PerGroup();
    PositiveQuotient(b.In(), b.dense.groups);
    hide Pixel;
    CentreTap(o % dim);
    QuotientRemainder(o, dim);
  }

  lemma QuotientRemainder(o: nat, dim: nat)
    requires dim > 0
    ensures o / dim * dim + o % dim == o
  {
  }

  lemma IdentityTerm(b: Block, t: Tensor, n: int, o: nat, y: int, x: int)
    requires b.Valid() && IsImage(t) && o < b.Out() && b.identity.Some?
    ensures Dot(IdentityFilter(b, o), Patch(b.dense, t, n, o, y, x)) == Gain(b.identity.value, o) * Pixel(t, n, o, y, x)
  {
    hide Pixel, Patch, Dot, Gain, Scale, CopyFilter, GroupBase;
    OwnChannel(b, t, n, o, y, x);
    var dim := b.dense.PerGroup();
    var p := Patch(b.dense, t, n, o, y, x);
    CopyDot(dim, o % dim, p);
    DotScale(Gain(b.identity.value, o), CopyFilter(dim, o % dim), p);
  }

  /** A copy filter answers with the centre tap of its channel. */
  lemma CopyDot(dim: nat, i: nat, p: seq<real>)
    requires i < dim && |p| == 9 * dim
    ensures Dot(CopyFilter(dim, i), p) == p[9 * i + 4]
  {
    DotOne(CopyFilter(dim, i), p, 9 * i + 4);
  }

  /** A combined filter distributes over the filters it was made from. */
  lemma CombinedFilters(g3: real, w3: seq<real>, g1: real, w1: seq<real>, p: seq<real>)
    requires |w3| == |p| == 9 * |w1|
    ensures Dot(Plus(Scale(g3, w3), PadFilter(Scale(g1, w1))), p) == g3 * Dot(w3, p) + g1 * Dot(w1, Centres(p, |w1|))
  {
    hide *;
    DotPlus(Scale(g3, w3), PadFilter(Scale(g1, w1)), p);
    DotScale(g3, w3, p);
    DotPadded(Scale(g1, w1), p);
    DotScale(g1, w1, Centres(p, |w1|));
  }

  /** The contribution of one convolution branch to an output, without its shift. */
  function BranchTerm(conv: Conv2d, bn: BatchNorm, t: Tensor, n: int, o: nat, y: int, x: int): real
    requires conv.Valid() && bn.Valid(conv.outChannels) && IsImage(t) && o < conv.outChannels
  {
    Gain(bn, o) * ConvAt(conv, t, n, o, y, x)
  }

  lemma DenseDot(b: Block, t: Tensor, n: int, o: nat, y: int, x: int)
    requires b.Valid() && IsImage(t) && o < b.Out()
    ensures BranchTerm(b.dense, b.denseBn, t, n, o, y, x)
         == Gain(b.denseBn, o) * Dot(b.dense.weight[o], Patch(b.dense, t, n, o, y, x))
  {
  }

  lemma OneDot(b: Block, t: Tensor, n: int, o: nat, y: int, x: int)
    requires b.Valid() && IsImage(t) && o < b.Out()
    ensures b.dense.Taps() == 9 * b.dense.PerGroup() == 9 * |b.one.weight[o]|
    ensures BranchTerm(b.one, b.oneBn, t, n, o, y, x)
         == Gain(b.oneBn, o) * Dot(b.one.weight[o], Centres(Patch(b.dense, t, n, o, y, x), |b.one.weight[o]|))
  {
    hide Pixel, Dot, Patch, Gain, GroupBase, Centres, ConvAt;
    TapCounts(b);
    PaddedPatch(b, t, n, o, y, x);
    ConvAtUnfold(b.one, t, n, o, y, x);
    hide Conv2d.Taps;
  }

  lemma ConvTerms(b: Block, t: Tensor, n: int, o: nat, y: int, x: int)
    requires b.Valid() && IsImage(t) && o < b.Out()
    ensures Dot(ConvFilter(b, o), Patch(b.dense, t, n, o, y, x))
         == BranchTerm(b.dense, b.denseBn, t, n, o, y, x) + BranchTerm(b.one, b.oneBn, t, n, o, y, x)
  {
    hide Pixel, Dot, Patch, Gain, Conv2d.Taps, GroupBase, Plus, Scale, PadFilter, Centres, BranchTerm, IsImage;
    DenseDot(b, t, n, o, y, x);
    OneDot(b, t, n, o, y, x);
    var p, w3, w1 := Patch(b.dense, t, n, o, y, x), b.dense.weight[o], b.one.weight[o];
    var g3, g1 := Gain(b.denseBn, o), Gain(b.oneBn, o);
    CombinedFilters(g3, w3, g1, w1, p);
    assert ConvFilter(b, o) == Plus(Scale(g3, w3), PadFilter(Scale(g1, w1)));
  }

  lemma ReparamUnfold(b: Block, t: Tensor, n: int, o: nat, y: int, x: int)
    requires b.Valid() && IsImage(t) && o < b.Out()
    ensures ConvAt(Reparam(b), t, n, o, y, x)
         == EquivalentBias(b, o) + Dot(EquivalentFilter(b, o), Patch(b.dense, t, n, o, y, x))
  {
    SamePatch(b, t, n, o, y, x);
    ConvAtUnfold(Reparam(b), t, n, o, y, x);
  }

  lemma FilterTerms(b: Block, t: Tensor, n: int, o: nat, y: int, x: int)
    requires b.Valid() && IsImage(t) && o < b.Out()
    ensures Dot(EquivalentFilter(b, o), Patch(b.dense, t, n, o, y, x))
         == BranchTerm(b.dense, b.denseBn, t, n, o, y, x) + BranchTerm(b.one, b.oneBn, t, n, o, y, x)
            + (if b.identity.Some? then Gain(b.identity.value, o) * Pixel(t, n, o, y, x) else 0.0)
  {
    ConvTerms(b, t, n, o, y, x);
    if b.identity.Some? {
      IdentityTerm(b, t, n, o, y, x);
      hide Pixel, Dot, Patch, Gain, ConvFilter, IdentityFilter, ConvAt;
      DotPlus(ConvFilter(b, o), IdentityFilter(b, o), Patch(b.dense, t, n, o, y, x));
    }
  }

  /** One output of the block before the activation: the sum of its normalised branches. */
  function BranchSum(b: Block, t: Tensor, n: int, o: int, y: int, x: int): real
    requires b.Valid() && IsImage(t)
  {
    BnAt(b.denseBn, o, ConvAt(b.dense, t, n, o, y, x)) + BnAt(b.oneBn, o, ConvAt(b.one, t, n, o, y, x))
    + (if b.identity.Some? then BnAt(b.identity.value, o, Pixel(t, n, o, y, x)) else 0.0)
  }

  lemma ReparamPixel(b: Block, t: Tensor, n: int, o: nat, y: int, x: int)
    requires b.Valid() && IsImage(t) && o < b.Out()
    ensures ConvAt(Reparam(b), t, n, o, y, x) == BranchSum(b, t, n, o, y, x)
  {
    hide Pixel, Dot, Patch, Gain, Shift, BnAt, ConvAt, Reparam, EquivalentFilter;
    ReparamUnfold(b, t, n, o, y, x);
    FilterTerms(b, t, n, o, y, x);
    BnIsAffine(b.denseBn, o, ConvAt(b.dense, t, n, o, y, x));
    BnIsAffine(b.oneBn, o, ConvAt(b.one, t, n, o, y, x));
    if b.identity.Some? {
      BnIsAffine(b.identity.value, o, Pixel(t, n, o, y, x));
    }
  }

  lemma SamePatch(b: Block, t: Tensor, n: int, o: nat, y: int, x: int)
    requires b.Valid() && IsImage(t) && o < b.Out()
    ensures Patch(Reparam(b), t, n, o, y, x) == Patch(b.dense, t, n, o, y, x)
  {
  }

  lemma BranchShapes(b: Block, t: Tensor)
    requires b.Valid()
    ensures b.dense.Accepts(t) <==> b.one.Accepts(t)
    ensures b.dense.Accepts(t) <==> Reparam(b).Accepts(t)
    ensures b.dense.Accepts(t) ==> OutShape(b.dense, t) == OutShape(b.one, t) == OutShape(Reparam(b), t)
    ensures b.dense.Accepts(t) && b.identity.Some? ==> OutShape(b.dense, t) == t.shape
  {
  }

  lemma BranchesPixel(b: Block, t: Tensor, n: int, o: int, y: int, x: int)
    requires b.Valid() && b.dense.Accepts(t)
    ensures Branches(b, t).Some? && Branches(b, t).value.shape == OutShape(Reparam(b), t)
    ensures Inside(Branches(b, t).value, n, o, y, x) ==>
              Pixel(Branches(b, t).value, n, o, y, x) == BranchSum(b, t, n, o, y, x)
  {
    BranchShapes(b, t);
    hide Pixel, ConvAt, BnAt, OutShape, Reparam;
    var d, e := ConvForward(b.dense, t).value, ConvForward(b.one, t).value;
    var r := Branches(b, t).value;
    var both := Add(ConvBn(b.dense, b.denseBn, t), ConvBn(b.one, b.oneBn, t)).value;
    if Inside(r, n, o, y, x) {
      assert Inside(both, n, o, y, x);
      assert Inside(d, n, o, y, x) && Inside(e, n, o, y, x);
    }
  }

  /**
   * The re-parametrised convolution computes the sum of the branches on every input: every stride and
   * group count, every padding the branches accept, borders included, and it fails on the same inputs.
   */
  lemma ReparamCorrect(b: Block, t: Tensor)
    requires b.Valid()
    ensures ConvForward(Reparam(b), t) == Branches(b, t)
  {
    BranchShapes(b, t);
    hide Pixel, ConvAt, BnAt, OutShape, Reparam, Branches, BranchSum;
    if b.dense.Accepts(t) {
      BranchesPixel(b, t, 0, 0, 0, 0);
      var f, r := ConvForward(Reparam(b), t).value, Branches(b, t).value;
      forall n, o, y, x | Inside(f, n, o, y, x) ensures Pixel(f, n, o, y, x) == Pixel(r, n, o, y, x) {
        BranchesPixel(b, t, n, o, y, x);
        ReparamPixel(b, t, n, o, y, x);
      }
      ImagesEqual(f, r);
    } else {
      BranchesFail(b, t);
    }
  }

  lemma BranchesFail(b: Block, t: Tensor)
    requires b.Valid() && !b.dense.Accepts(t)
    ensures Branches(b, t) == None
  {
  }
}
