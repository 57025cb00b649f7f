/** Squeeze-and-excite, which the re-parametrisation of a RepVGG block discards, and when that makes no difference. */
module SqueezeExcite {
  import opened Numbers
  import opened Wrappers
  import opened Tensors
  import opened Convolution
  import opened RepVgg

  /** A squeeze-and-excite block multiplies every channel by a sigmoid of the pooled input. */
  ghost predicate IsGate(gate: (Tensor, int, int) -> real) {
    forall t: Tensor, n: int, c: int :: 0.0 < gate(t, n, c) < 1.0
  }

  function Gated(gate: (Tensor, int, int) -> real, t: Tensor, n: int, c: int, y: int, x: int): real
    requires IsImage(t)
  {
    Damped(gate(t, n, c), Pixel(t, n, c, y, x))
  }

  function Excite(gate: (Tensor, int, int) -> real, z: Option<Tensor>): (r: Option<Tensor>)
    requires z.Some? ==> IsImage(z.value)
    ensures r.Some? <==> z.Some?
    ensures r.Some? ==> IsImage(r.value) && r.value.shape == z.value.shape
    ensures r.Some? ==> forall n, c, y, x :: Inside(r.value, n, c, y, x) ==>
                          Pixel(r.value, n, c, y, x) == Gated(gate, z.value, n, c, y, x)
  {
    match z
    case None => None
    case Some(t) => Some(Like(t, (n, c, y, x) => Gated(gate, t, n, c, y, x)))
  }

  ghost predicate AllZero(f: Conv2d)
    requires f.Valid()
  {
    forall o :: 0 <= o < f.outChannels ==> f.Bias(o) == 0.0 && forall k :: 0 <= k < f.Taps() ==> f.weight[o][k] == 0.0
  }

  lemma ZeroFilters(f: Conv2d, t: Tensor, n: int, o: nat, y: int, x: int)
    requires f.Valid() && AllZero(f) && IsImage(t) && o < f.outChannels
    ensures ConvAt(f, t, n, o, y, x) == 0.0
  {
    DotZero(f.weight[o], Patch(f, t, n, o, y, x));
  }

  /** A gate in (0, 1) leaves a value unchanged only if the value is 0. */
  lemma GateMoves(g: real, v: real)
    requires 0.0 < g < 1.0
    ensures Damped(g, v) == v <==> v == 0.0
  {
    hide Damped;
    if v > 0.0 { DampedPositive(g, v); } else if v < 0.0 { DampedNegative(g, v); } else { DampedZero(g); }
  }

  /** A probe image, just large enough for the output position (padding, padding), with one pixel set. */
  function Probe(b: Block, c0: int, y0: int, x0: int, v: real): (t: Tensor)
    requires b.Valid()
    ensures IsImage(t) && t.shape == [1, b.In(), ProbeSide(b), ProbeSide(b)]
    ensures forall n, c, y, x :: Inside(t, n, c, y, x) ==>
              Pixel(t, n, c, y, x) == if c == c0 && y == y0 && x == x0 then v else 0.0
  {
    Image(1, b.In(), ProbeSide(b), ProbeSide(b), (n, c, y, x) => if c == c0 && y == y0 && x == x0 then v else 0.0)
  }

  function ProbeSide(b: Block): nat {
    b.dense.rows.padding * b.dense.rows.stride + 3
  }

  lemma ProbeAccepted(b: Block, t: Tensor, o: nat)
    requires b.Valid() && o < b.Out() && IsImage(t) && t.shape == [1, b.In(), ProbeSide(b), ProbeSide(b)]
    ensures b.dense.Accepts(t)
    ensures Inside(ConvForward(b.dense, t).value, 0, o, b.dense.rows.padding, b.dense.rows.padding)
  {
  }

  /** The input pixel under tap k of filter o at output position (padding, padding). */
  function Under(b: Block, o: nat, k: nat): (int, int, int)
    requires b.Valid()
  {
    var corner := b.dense.rows.padding * b.dense.rows.stride - b.dense.rows.padding;
    (GroupBase(b.dense, o) + k / 9, corner + k / 3 % 3, corner + k % 3)
  }

  lemma UnderInside(b: Block, o: nat, k: nat)
    requires b.Valid() && o < b.Out() && k < b.dense.Taps()
    ensures var (c, y, x) := Under(b, o, k); 0 <= c < b.In() && 0 <= y < ProbeSide(b) && 0 <= x < ProbeSide(b)
  {
    TapCounts(b);
    GroupBaseBound(b.dense, o);
    MulMono(1, b.dense.rows.stride, b.dense.rows.padding);
  }

  lemma PatchUnder(b: Block, t: Tensor, o: nat, i: nat)
    requires b.Valid() && o < b.Out() && i < b.dense.Taps() && IsImage(t)
    ensures var (c, y, x) := Under(b, o, i);
            Patch(b.dense, t, 0, o, b.dense.rows.padding, b.dense.rows.padding)[i] == Pixel(t, 0, c, y, x)
  {
  }

  lemma TapInjective(i: nat, k: nat)
    requires i / 9 == k / 9 && i / 3 % 3 == k / 3 % 3 && i % 3 == k % 3
    ensures i == k
  {
  }

  lemma ProbePatch(b: Block, o: nat, k: nat, v: real, i: nat)
    requires b.Valid() && o < b.Out() && k < b.dense.Taps() && i < b.dense.Taps()
    ensures var (c, y, x) := Under(b, o, k);
            var p := b.dense.rows.padding;
            Patch(b.dense, Probe(b, c, y, x, v), 0, o, p, p)[i] == if i == k then v else 0.0
  {
    var (c0, y0, x0) := Under(b, o, k);
    var (c, y, x) := Under(b, o, i);
    if c == c0 && y == y0 && x == x0 { TapInjective(i, k); }
    UnderInside(b, o, i);
    var t := Probe(b, c0, y0, x0, v);
    PatchUnder(b, t, o, i);
    assert Inside(t, 0, c, y, x);
  }

  lemma GroupBaseBound(conv: Conv2d, o: nat)
    requires conv.Valid() && o < conv.outChannels
    ensures GroupBase(conv, o) + conv.PerGroup() <= conv.inChannels
  {
    PositiveQuotient(conv.outChannels, conv.groups);
    var m := conv.outChannels / conv.groups;
    assert conv.outChannels == conv.groups * m;
    DivModBounds(o, conv.groups, m);
    MulStep(o / m, conv.groups, conv.PerGroup());
  }

  /** An input on which a filter bank that is not all zero answers with a value that is not zero. */
  lemma NonzeroAnswer(b: Block) returns (t: Tensor, o: nat, y: nat)
    requires b.Valid() && !AllZero(Reparam(b))
    ensures b.dense.Accepts(t) && o < b.Out() && Inside(ConvForward(b.dense, t).value, 0, o, y, y)
    ensures ConvAt(Reparam(b), t, 0, o, y, y) != 0.0
  {
    y := b.dense.rows.padding;
    if exists o' :: 0 <= o' < b.Out() && Reparam(b).Bias(o') != 0.0 {
      o :| 0 <= o < b.Out() && Reparam(b).Bias(o) != 0.0;
      t := BiasAnswer(b, o);
    } else {
      var k: nat;
      o, k :| 0 <= o < b.Out() && 0 <= k < Reparam(b).Taps() && Reparam(b).weight[o][k] != 0.0;
      t := WeightAnswer(b, o, k, 1.0);
    }
  }

  lemma BiasAnswer(b: Block, o: nat) returns (t: Tensor)
    requires b.Valid() && o < b.Out()
    ensures var y := b.dense.rows.padding;
            b.dense.Accepts(t) && Inside(ConvForward(b.dense, t).value, 0, o, y, y)
            && ConvAt(Reparam(b), t, 0, o, y, y) == Reparam(b).Bias(o)
  {
    t := Probe(b, 0, 0, 0, 0.0);
    ProbeAccepted(b, t, o);
    var y := b.dense.rows.padding;
    hide Reparam, Inside;
    SamePatch(b, t, 0, o, y, y);
    forall k | 0 <= k < b.dense.Taps() ensures Patch(b.dense, t, 0, o, y, y)[k] == 0.0 { ZeroPixel(b, t, o, k); }
    DotZero(Reparam(b).weight[o], Patch(b.dense, t, 0, o, y, y));
  }

  lemma ZeroPixel(b: Block, t: Tensor, o: nat, k: nat)
    requires b.Valid() && o < b.Out() && k < b.dense.Taps() && t == Probe(b, 0, 0, 0, 0.0)
    ensures Patch(b.dense, t, 0, o, b.dense.rows.padding, b.dense.rows.padding)[k] == 0.0
  {
  }

  function TapAnswer(f: Conv2d, o: nat, k: nat, v: real): real
    requires f.Valid() && o < f.outChannels && k < f.Taps()
  {
    f.weight[o][k] * v
  }

  lemma WeightAnswer(b: Block, o: nat, k: nat, v: real) returns (t: Tensor)
    requires b.Valid() && o < b.Out() && k < b.dense.Taps()
    ensures var y := b.dense.rows.padding;
            b.dense.Accepts(t) && Inside(ConvForward(b.dense, t).value, 0, o, y, y)
            && ConvAt(Reparam(b), t, 0, o, y, y) == Reparam(b).Bias(o) + TapAnswer(Reparam(b), o, k, v)
  {
    hide TapAnswer;
    var (c0, y0, x0) := Under(b, o, k);
    t := Probe(b, c0, y0, x0, v);
    ProbeAccepted(b, t, o);
    var y := b.dense.rows.padding;
    hide Reparam, Inside, Patch, ConvAt, Pixel, GroupBase;
    SamePatch(b, t, 0, o, y, y);
    forall i | 0 <= i < b.dense.Taps() ensures Patch(b.dense, t, 0, o, y, y)[i] == if i == k then v else 0.0 {
      ProbePatch(b, o, k, v, i);
    }
    AnswerOfTap(Reparam(b), t, o, y, k, v);
  }

  /** A filter that meets a single nonzero input answers with its weight there. */
  lemma AnswerOfTap(f: Conv2d, t: Tensor, o: nat, y: int, k: nat, v: real)
    requires f.Valid() && IsImage(t) && o < f.outChannels && k < f.Taps()
    requires forall i :: 0 <= i < f.Taps() ==> Patch(f, t, 0, o, y, y)[i] == if i == k then v else 0.0
    ensures ConvAt(f, t, 0, o, y, y) == f.Bias(o) + TapAnswer(f, o, k, v)
  {
    hide Patch, Dot, ConvAt, Conv2d.Taps, Conv2d.Bias;
    ConvAtUnfold(f, t, 0, o, y, y);
    DotOne(f.weight[o], Patch(f, t, 0, o, y, y), k);
  }

  /**
   * Discarding the squeeze-and-excite of a block preserves what it computes before the activation
   * exactly when the equivalent kernel and bias are all zero.
   */
  lemma DiscardedExcite(b: Block, gate: (Tensor, int, int) -> real)
    requires b.Valid() && IsGate(gate)
    ensures (forall t: Tensor :: ConvForward(Reparam(b), t) == Excite(gate, Branches(b, t))) <==> AllZero(Reparam(b))
  {
    hide Pixel, ConvAt, Reparam, Branches, AllZero;
    var f := Reparam(b);
    if AllZero(f) {
      forall t: Tensor ensures ConvForward(f, t) == Excite(gate, Branches(b, t)) {
        ReparamCorrect(b, t);
        ZeroExcite(f, t, gate);
      }
    } else {
      var t, o, y := NonzeroAnswer(b);
      ReparamCorrect(b, t);
      BranchShapes(b, t);
      ExciteMoves(f, t, o, y, gate);
      assert ConvForward(f, t) != Excite(gate, Branches(b, t));
    }
  }

  lemma ExciteMoves(f: Conv2d, t: Tensor, o: nat, y: nat, gate: (Tensor, int, int) -> real)
    requires f.Valid() && IsGate(gate) && f.Accepts(t) && Inside(ConvForward(f, t).value, 0, o, y, y)
    requires ConvAt(f, t, 0, o, y, y) != 0.0
    ensures ConvForward(f, t) != Excite(gate, ConvForward(f, t))
  {
    hide Pixel, ConvAt;
    var z := ConvForward(f, t);
    GateMoves(gate(z.value, 0, o), Pixel(z.value, 0, o, y, y));
    assert Pixel(Excite(gate, z).value, 0, o, y, y) != Pixel(z.value, 0, o, y, y);
  }

  lemma ZeroExcite(f: Conv2d, t: Tensor, gate: (Tensor, int, int) -> real)
    requires f.Valid() && AllZero(f)
    ensures Excite(gate, ConvForward(f, t)) == ConvForward(f, t)
  {
    hide Pixel, ConvAt;
    if f.Accepts(t) {
      var z := ConvForward(f, t).value;
      var e := Excite(gate, Some(z)).value;
      forall n, o, y, x | Inside(e, n, o, y, x) ensures Pixel(e, n, o, y, x) == Pixel(z, n, o, y, x) {
        ZeroFilters(f, t, n, o, y, x);
      }
      ImagesEqual(e, z);
    }
  }

  // ----- ... and what the activation can hide -----

  /** Strictly increasing above 0, like SiLU and ReLU. */
  ghost predicate Rising(act: real -> real) {
    forall u, v :: 0.0 < u < v ==> act(u) < act(v)
  }

  /** Constant up to 0, like ReLU. */
  ghost predicate FlatBelow(act: real -> real) {
    forall v :: v <= 0.0 ==> act(v) == act(0.0)
  }

  /** The filters are all zero and no bias is positive: the block answers no input with a positive value. */
  ghost predicate Dead(f: Conv2d)
    requires f.Valid()
  {
    forall o :: 0 <= o < f.outChannels ==> f.Bias(o) <= 0.0 && forall k :: 0 <= k < f.Taps() ==> f.weight[o][k] == 0.0
  }

  function Activated(act: real -> real, z: Option<Tensor>): (r: Option<Tensor>)
    requires z.Some? ==> IsImage(z.value)
    ensures r.Some? <==> z.Some?
    ensures r.Some? ==> IsImage(r.value) && r.value.shape == z.value.shape
    ensures r.Some? ==> forall n, c, y, x :: Inside(r.value, n, c, y, x) ==>
                          Pixel(r.value, n, c, y, x) == act(Pixel(z.value, n, c, y, x))
  {
    match z
    case None => None
    case Some(t) => Some(Like(t, (n, c, y, x) => act(Pixel(t, n, c, y, x))))
  }

  /** An input that a block that is not dead answers with a positive value. */
  lemma PositiveAnswer(b: Block) returns (t: Tensor, o: nat, y: nat)
    requires b.Valid() && !Dead(Reparam(b))
    ensures b.dense.Accepts(t) && o < b.Out() && Inside(ConvForward(b.dense, t).value, 0, o, y, y)
    ensures ConvAt(Reparam(b), t, 0, o, y, y) > 0.0
  {
    hide ConvAt, Reparam, Inside, Block.Valid, Conv2d.Accepts, ConvForward, TapAnswer;
    var f := Reparam(b);
    var p: nat :| p < b.Out() && !(f.Bias(p) <= 0.0 && forall k :: 0 <= k < f.Taps() ==> f.weight[p][k] == 0.0);
    o, y := p, b.dense.rows.padding;
    var bias := f.Bias(o);
    hide Conv2d.Bias;
    if bias > 0.0 {
      t := BiasAnswer(b, o);
    } else {
      var k: nat :| k < f.Taps() && f.weight[o][k] != 0.0;
      var v := Multiplier(f, o, k, 1.0 - bias);
      t := WeightAnswer(b, o, k, v);
    }
  }

  /** A weight that is not zero can answer with any value. */
  lemma Multiplier(f: Conv2d, o: nat, k: nat, a: real) returns (v: real)
    requires f.Valid() && o < f.outChannels && k < f.Taps() && f.weight[o][k] != 0.0
    ensures TapAnswer(f, o, k, v) == a
  {
    var w := f.weight[o][k];
    v := a / w;
    hide *;
    assert w * v == a;
  }

  lemma ActivationMoves(f: Conv2d, t: Tensor, o: nat, y: nat, gate: (Tensor, int, int) -> real, act: real -> real)
    requires f.Valid() && f.Accepts(t) && Inside(ConvForward(f, t).value, 0, o, y, y)
    requires IsGate(gate) && Rising(act) && ConvAt(f, t, 0, o, y, y) > 0.0
    ensures Activated(act, ConvForward(f, t)) != Activated(act, Excite(gate, ConvForward(f, t)))
  {
    hide Pixel, ConvAt;
    var z := ConvForward(f, t);
    GatedShrinks(gate, z.value, 0, o, y, y);
    hide Conv2d.Accepts, ConvForward, Gated;
    assert Pixel(Activated(act, z).value, 0, o, y, y) == act(Pixel(z.value, 0, o, y, y));
    assert Pixel(Activated(act, Excite(gate, z)).value, 0, o, y, y) == act(Gated(gate, z.value, 0, o, y, y));
  }

  lemma GatedShrinks(gate: (Tensor, int, int) -> real, t: Tensor, n: int, c: int, y: int, x: int)
    requires IsImage(t) && IsGate(gate)
    ensures Pixel(t, n, c, y, x) > 0.0 ==> 0.0 < Gated(gate, t, n, c, y, x) < Pixel(t, n, c, y, x)
    ensures Pixel(t, n, c, y, x) <= 0.0 ==> Gated(gate, t, n, c, y, x) <= 0.0
  {
    hide Pixel, Damped;
    var g, v := gate(t, n, c), Pixel(t, n, c, y, x);
    if v > 0.0 { DampedPositive(g, v); } else if v < 0.0 { DampedNegative(g, v); } else { DampedZero(g); }
  }

  lemma DeadAnswer(f: Conv2d, t: Tensor, n: int, o: nat, y: int, x: int)
    requires f.Valid() && Dead(f) && IsImage(t) && o < f.outChannels
    ensures ConvAt(f, t, n, o, y, x) == f.Bias(o) <= 0.0
  {
    hide Pixel, Patch;
    DotZero(f.weight[o], Patch(f, t, n, o, y, x));
  }

  /** The activation does not tell a bias from the gated bias: what is left to ask of a block that answers with its biases. */
  ghost predicate BiasUnmoved(f: Conv2d, gate: (Tensor, int, int) -> real, act: real -> real)
    requires f.Valid()
  {
    forall t: Tensor, n: int, o: int :: f.Accepts(t) && 0 <= n < t.shape[0] && 0 <= o < f.outChannels ==>
      act(Damped(gate(ConvForward(f, t).value, n, o), f.Bias(o))) == act(f.Bias(o))
  }

  lemma FlatIsUnmoved(f: Conv2d, gate: (Tensor, int, int) -> real, act: real -> real)
    requires f.Valid() && Dead(f) && IsGate(gate) && FlatBelow(act)
    ensures BiasUnmoved(f, gate, act)
  {
    hide Damped, FlatBelow;
    forall t: Tensor, n: int, o: int | f.Accepts(t) && 0 <= n < t.shape[0] && 0 <= o < f.outChannels
      ensures act(Damped(gate(ConvForward(f, t).value, n, o), f.Bias(o))) == act(f.Bias(o))
    {
      FlatDamped(gate(ConvForward(f, t).value, n, o), f.Bias(o), act);
    }
  }

  lemma FlatDamped(g: real, v: real, act: real -> real)
    requires 0.0 < g < 1.0 && v <= 0.0 && FlatBelow(act)
    ensures act(Damped(g, v)) == act(v)
  {
    hide Damped;
    if v < 0.0 { DampedNegative(g, v); } else { DampedZero(g); }
  }

  /** What the two forms of a dead block answer. */
  lemma DeadPixels(f: Conv2d, t: Tensor, gate: (Tensor, int, int) -> real, act: real -> real, n: int, o: int, y: int, x: int)
    requires f.Valid() && Dead(f) && f.Accepts(t) && Inside(ConvForward(f, t).value, n, o, y, x)
    ensures var z := ConvForward(f, t);
            Pixel(Activated(act, z).value, n, o, y, x) == act(f.Bias(o)) &&
            Pixel(Activated(act, Excite(gate, z)).value, n, o, y, x) == act(Damped(gate(z.value, n, o), f.Bias(o)))
  {
    hide Pixel, ConvAt, Dead, Damped, Conv2d.Bias;
    var z := ConvForward(f, t);
    DeadAnswer(f, t, n, o, y, x);
    assert Pixel(z.value, n, o, y, x) == f.Bias(o);
    assert Pixel(Excite(gate, z).value, n, o, y, x) == Damped(gate(z.value, n, o), f.Bias(o));
  }

  lemma DeadIsUnmoved(f: Conv2d, t: Tensor, gate: (Tensor, int, int) -> real, act: real -> real)
    requires f.Valid() && Dead(f) && BiasUnmoved(f, gate, act)
    ensures Activated(act, Excite(gate, ConvForward(f, t))) == Activated(act, ConvForward(f, t))
  {
    hide Pixel, ConvAt, Dead, Damped, Conv2d.Bias;
    if f.Accepts(t) {
      var z := ConvForward(f, t);
      var a, e := Activated(act, z).value, Activated(act, Excite(gate, z)).value;
      forall n, o, y, x | Inside(e, n, o, y, x) ensures Pixel(e, n, o, y, x) == Pixel(a, n, o, y, x) {
        DeadPixels(f, t, gate, act, n, o, y, x);
      }
      ImagesEqual(e, a);
    }
  }

  lemma MovedBias(f: Conv2d, gate: (Tensor, int, int) -> real, act: real -> real) returns (t: Tensor)
    requires f.Valid() && Dead(f) && !BiasUnmoved(f, gate, act)
    ensures Activated(act, Excite(gate, ConvForward(f, t))) != Activated(act, ConvForward(f, t))
  {
    hide Pixel, ConvAt, Dead, Damped, Conv2d.Bias;
    var n, o;
    t, n, o :| f.Accepts(t) && 0 <= n < t.shape[0] && 0 <= o < f.outChannels
               && act(Damped(gate(ConvForward(f, t).value, n, o), f.Bias(o))) != act(f.Bias(o));
    DeadPixels(f, t, gate, act, n, o, 0, 0);
  }

  /** The original and the fused block agree on every input after the activation. */
  ghost predicate SameActivated(b: Block, gate: (Tensor, int, int) -> real, act: real -> real)
    requires b.Valid()
  {
    forall t: Tensor :: Activated(act, ConvForward(Reparam(b), t)) == Activated(act, Excite(gate, Branches(b, t)))
  }

  /** The same for any gate: a dead block whose biases the activation does not tell from the gated ones. */
  lemma DiscardedGateActivated(b: Block, gate: (Tensor, int, int) -> real, act: real -> real)
    requires b.Valid() && IsGate(gate) && Rising(act)
    ensures SameActivated(b, gate, act) <==> Dead(Reparam(b)) && BiasUnmoved(Reparam(b), gate, act)
    ensures FlatBelow(act) ==> (SameActivated(b, gate, act) <==> Dead(Reparam(b)))
  {
    hide Pixel, ConvAt, Reparam, Branches, Dead, Activated, Excite, Rising, FlatBelow, IsGate, BiasUnmoved;
    var f := Reparam(b);
    if !Dead(f) {
      var t, o, y := PositiveAnswer(b);
      ReparamCorrect(b, t);
      BranchShapes(b, t);
      ActivationMoves(f, t, o, y, gate, act);
      assert Activated(act, ConvForward(f, t)) != Activated(act, Excite(gate, Branches(b, t)));
    } else {
      if FlatBelow(act) { FlatIsUnmoved(f, gate, act); }
      if BiasUnmoved(f, gate, act) {
        forall t: Tensor ensures Activated(act, ConvForward(f, t)) == Activated(act, Excite(gate, Branches(b, t))) {
          ReparamCorrect(b, t);
          DeadIsUnmoved(f, t, gate, act);
        }
      } else {
        var t := MovedBias(f, gate, act);
        ReparamCorrect(b, t);
        assert Activated(act, ConvForward(f, t)) != Activated(act, Excite(gate, Branches(b, t)));
      }
    }
  }

  // ----- a gate that pools its input first, as SEBlock does -----

  function RowTotal(t: Tensor, n: int, c: int, y: int, w: nat): real
    requires IsImage(t)
  {
    if w == 0 then 0.0 else RowTotal(t, n, c, y, w - 1) + Pixel(t, n, c, y, w - 1)
  }

  function AreaTotal(t: Tensor, n: int, c: int, h: nat, w: nat): real
    requires IsImage(t)
  {
    if h == 0 then 0.0 else AreaTotal(t, n, c, h - 1, w) + RowTotal(t, n, c, h - 1, w)
  }

  /** The average of a channel over the square that pooling with the image width as kernel covers. */
  function Mean(t: Tensor, n: int, c: int): real
    requires IsImage(t)
  {
    var (h, w) := (Min(t.shape[2], t.shape[3]), t.shape[3]);
    if h * w == 0 then 0.0 else AreaTotal(t, n, c, h, w) / (h * w) as real
  }

  lemma {:induction false} RowTotalIs(t: Tensor, n: int, c: int, y: int, w: nat)
    requires IsImage(t)
    ensures RowTotal(t, n, c, y, w) == Sum(w, x => Pixel(t, n, c, y, x))
  {
    hide Pixel;
    if w > 0 {
      RowTotalIs(t, n, c, y, w - 1);
      SumEqual(w - 1, x => Pixel(t, n, c, y, x), x => Pixel(t, n, c, y, x));
      SumLast(w, x => Pixel(t, n, c, y, x));
    }
  }

  lemma SumLast(n: nat, f: int -> real)
    requires n > 0
    ensures Sum(n, f) == Sum(n - 1, f) + f(n - 1)
  {
  }

  lemma {:induction false} AreaTotalIs(t: Tensor, n: int, c: int, h: nat, w: nat)
    requires IsImage(t)
    ensures AreaTotal(t, n, c, h, w) == Sum(h, y => Sum(w, x => Pixel(t, n, c, y, x)))
  {
    hide Pixel, RowTotal;
    if h > 0 {
      AreaTotalIs(t, n, c, h - 1, w);
      RowTotalIs(t, n, c, h - 1, w);
      var rows := y => Sum(w, x => Pixel(t, n, c, y, x));
      SumEqual(h - 1, rows, y => Sum(w, x => Pixel(t, n, c, y, x)));
      SumLast(h, rows);
      SumEqual(h, rows, y => Sum(w, x => Pixel(t, n, c, y, x)));
    }
  }

  /** Pooling averages the pixels of its square. */
  lemma MeanIsAverage(t: Tensor, n: int, c: int)
    requires IsImage(t)
    ensures var (h, w) := (Min(t.shape[2], t.shape[3]), t.shape[3]);
            h * w > 0 ==> Mean(t, n, c) * (h * w) as real == Sum(h, y => Sum(w, x => Pixel(t, n, c, y, x)))
  {
    hide Pixel, AreaTotal;
    var (h, w) := (Min(t.shape[2], t.shape[3]), t.shape[3]);
    AreaTotalIs(t, n, c, h, w);
    var area, total := (h * w) as real, AreaTotal(t, n, c, h, w);
    if h * w > 0 { assert total / area * area == total; }
  }

  function Pooled(t: Tensor, n: int): (v: seq<real>)
    requires IsImage(t)
    ensures |v| == t.shape[1]
  {
    seq(t.shape[1], c requires 0 <= c < t.shape[1] => Mean(t, n, c))
  }

  /** What the two convolutions and the sigmoid make of the pooled channels: a factor in (0, 1) per channel. */
  ghost predicate IsSqueeze(h: (seq<real>, int) -> real) {
    forall v: seq<real>, c: int :: 0.0 < h(v, c) < 1.0
  }

  function PooledGate(h: (seq<real>, int) -> real): (Tensor, int, int) -> real {
    (t: Tensor, n: int, c: int) => if IsImage(t) then h(Pooled(t, n), c) else h([], c)
  }

  lemma SqueezeIsGate(h: (seq<real>, int) -> real)
    requires IsSqueeze(h)
    ensures IsGate(PooledGate(h))
  {
    hide Pooled;
    forall t: Tensor, n: int, c: int ensures 0.0 < PooledGate(h)(t, n, c) < 1.0 {
      if IsImage(t) { assert PooledGate(h)(t, n, c) == h(Pooled(t, n), c); }
    }
  }

  /** Channel c of image n has the value v everywhere. */
  ghost predicate Constant(t: Tensor, n: int, c: int, v: real)
    requires IsImage(t)
  {
    forall y, x :: 0 <= y < t.shape[2] && 0 <= x < t.shape[3] ==> Pixel(t, n, c, y, x) == v
  }

  function Times(v: real, k: int): real { v * k as real }

  lemma TimesStep(v: real, k: int, d: int)
    ensures Times(v, k + d) == Times(v, k) + Times(v, d)
  {
    assert (k + d) as real == k as real + d as real;
  }

  lemma {:induction false} ConstantRow(t: Tensor, n: int, c: int, v: real, y: nat, w: nat)
    requires IsImage(t) && Constant(t, n, c, v) && y < t.shape[2] && w <= t.shape[3]
    ensures RowTotal(t, n, c, y, w) == Times(v, w)
  {
    hide Pixel;
    if w > 0 {
      ConstantRow(t, n, c, v, y, w - 1);
      TimesStep(v, w - 1, 1);
    }
  }

  lemma {:induction false} ConstantArea(t: Tensor, n: int, c: int, v: real, h: nat, w: nat)
    requires IsImage(t) && Constant(t, n, c, v) && h <= t.shape[2] && w <= t.shape[3]
    ensures AreaTotal(t, n, c, h, w) == Times(v, h * w)
  {
    hide Pixel, Constant, Times, RowTotal;
    if h > 0 {
      ConstantArea(t, n, c, v, h - 1, w);
      ConstantRow(t, n, c, v, h - 1, w);
      TimesStep(v, (h - 1) * w, w);
      assert (h - 1) * w + w == h * w;
    } else {
      TimesZero(v);
    }
  }

  lemma TimesZero(v: real)
    ensures Times(v, 0) == 0.0
  {
  }

  lemma TimesQuotient(v: real, k: int)
    requires k != 0
    ensures Times(v, k) / k as real == v
  {
  }

  lemma ConstantMean(t: Tensor, n: int, c: int, v: real)
    requires IsImage(t) && Constant(t, n, c, v) && t.shape[2] > 0 && t.shape[3] > 0
    ensures Mean(t, n, c) == v
  {
    hide Pixel, Constant, Times, AreaTotal;
    var h, w := Min(t.shape[2], t.shape[3]), t.shape[3];
    MulPositive(h, w);
    ConstantArea(t, n, c, v, h, w);
    TimesQuotient(v, h * w);
  }

  function Biases(f: Conv2d): (v: seq<real>)
    requires f.Valid()
    ensures |v| == f.outChannels
  {
    seq(f.outChannels, o requires 0 <= o < f.outChannels => f.Bias(o))
  }

  /** A dead block answers with its biases, so that is what pooling sees. */
  lemma DeadPooled(f: Conv2d, t: Tensor, n: int)
    requires f.Valid() && Dead(f) && f.Accepts(t) && 0 <= n < t.shape[0]
    ensures Pooled(ConvForward(f, t).value, n) == Biases(f)
  {
    hide Pixel, ConvAt, Dead, Mean, Conv2d.Bias;
    var z := ConvForward(f, t).value;
    forall o | 0 <= o < f.outChannels ensures Mean(z, n, o) == f.Bias(o) {
      forall y, x | 0 <= y < z.shape[2] && 0 <= x < z.shape[3] ensures Pixel(z, n, o, y, x) == f.Bias(o) {
        DeadAnswer(f, t, n, o, y, x);
        assert Inside(z, n, o, y, x);
      }
      ConstantMean(z, n, o, f.Bias(o));
    }
  }

  /** One equation per channel: the activation does not tell its bias from the gated bias. */
  ghost predicate BiasesUnmoved(f: Conv2d, h: (seq<real>, int) -> real, act: real -> real)
    requires f.Valid()
  {
    forall o :: 0 <= o < f.outChannels ==> act(Damped(h(Biases(f), o), f.Bias(o))) == act(f.Bias(o))
  }

  lemma PooledUnmoved(b: Block, h: (seq<real>, int) -> real, act: real -> real)
    requires b.Valid() && Dead(Reparam(b))
    ensures BiasUnmoved(Reparam(b), PooledGate(h), act) <==> BiasesUnmoved(Reparam(b), h, act)
  {
    hide Pixel, ConvAt, Dead, Damped, Conv2d.Bias, Pooled, Reparam, Biases;
    var f := Reparam(b);
    if BiasesUnmoved(f, h, act) {
      forall t: Tensor, n: int, o: int | f.Accepts(t) && 0 <= n < t.shape[0] && 0 <= o < f.outChannels
        ensures act(Damped(PooledGate(h)(ConvForward(f, t).value, n, o), f.Bias(o))) == act(f.Bias(o))
      {
        DeadPooled(f, t, n);
      }
    }
    if BiasUnmoved(f, PooledGate(h), act) {
      var t := AcceptedInput(b);
      DeadPooled(f, t, 0);
      forall o | 0 <= o < f.outChannels ensures act(Damped(h(Biases(f), o), f.Bias(o))) == act(f.Bias(o)) {
        assert PooledGate(h)(ConvForward(f, t).value, 0, o) == h(Biases(f), o);
      }
    }
  }

  lemma AcceptedInput(b: Block) returns (t: Tensor)
    requires b.Valid()
    ensures Reparam(b).Accepts(t) && t.shape[0] > 0
  {
    t := Probe(b, 0, 0, 0, 0.0);
    ProbeAccepted(b, t, 0);
    BranchShapes(b, t);
  }

  /**
   * Discarding squeeze-and-excite preserves a block after an activation that is strictly increasing above 0 exactly when
   * the block is dead and, for each channel, the activation does not tell the bias from the bias times its gate. After an
   * activation that is constant up to 0, being dead is enough.
   */
  lemma DiscardedExciteActivated(b: Block, h: (seq<real>, int) -> real, act: real -> real)
    requires b.Valid() && IsSqueeze(h) && Rising(act)
    ensures SameActivated(b, PooledGate(h), act) <==> Dead(Reparam(b)) && BiasesUnmoved(Reparam(b), h, act)
    ensures FlatBelow(act) ==> (SameActivated(b, PooledGate(h), act) <==> Dead(Reparam(b)))
  {
    hide *;
    var gate := PooledGate(h);
    SqueezeIsGate(h);
    DiscardedGateActivated(b, gate, act);
    if Dead(Reparam(b)) { PooledUnmoved(b, h, act); }
  }
}
