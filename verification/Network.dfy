/** Networks of blocks: evaluation, layer fusion, and execution with a list of saved outputs. */
module Network {
  import opened Wrappers
  import opened Tensors
  import opened Convolution
  import opened Reshape
  import opened Pooling
  import RepVgg

  datatype Activation = SiLU | ReLU | Hardswish | Identity | Custom(id: nat)

  /** What a layer is given: one tensor, or the list its `from` names. */
  datatype Arg = One(t: Tensor) | Many(ts: seq<Tensor>)

  /** The parts of a network that stay uninterpreted: activations, squeeze-and-excite, all other modules. */
  datatype Env = Env(act: (Activation, real) -> real, excite: (nat, Tensor) -> Option<Tensor>,
                     other: (nat, Arg) -> Option<Tensor>)

  /** A convolution and the batch norm after it, which fusing removes. */
  datatype Unit = Unit(conv: Conv2d, bn: Option<BatchNorm>) {
    predicate Valid() {
      conv.Valid() && (bn.Some? ==> bn.value.Valid(conv.outChannels))
    }

    /** Fusing leaves the unit as it is, or drops no dilation. */
    predicate Fusable() {
      bn.None? || (Undilated(conv.rows) && Undilated(conv.cols))
    }
  }

  datatype Block =
    | ConvUnit(u: Unit, act: Activation)                            // Conv, and CBH with Hardswish
    | Rep(r: RepVgg.Block, se: Option<nat>, act: Activation)        // RepVGGBlock in training form
    | RepFused(conv: Conv2d, act: Activation)                       // RepVGGBlock after fusing
    | Shuffle(stride: nat, down: Option<(Unit, Unit)>, u0: Unit, u1: Unit, u2: Unit)
    | Pipeline(blocks: seq<Block>)                                  // nn.Sequential of repeats
    | Bottleneck(cv1: Block, cv2: Block, shortcut: bool)
    | C3(cv1: Block, cv2: Block, cv3: Block, m: Block)
    | Spp(cv1: Block, cv2: Block, kernels: seq<nat>)
    | Sppf(cv1: Block, cv2: Block, kernel: nat)
    | Focus(cv: Block)
    | Concat
    | Other(id: nat)
  {
    /** Parameters have the sizes the constructors give them. */
    predicate Valid() {
      match this
      case ConvUnit(u, _) => u.Valid()
      case Rep(r, _, _) => r.Valid()
      case RepFused(conv, _) => conv.Valid()
      case Shuffle(stride, down, u0, u1, u2) =>
        (stride != 1 ==> down.Some? && down.value.0.Valid() && down.value.1.Valid()) &&
        u0.Valid() && u1.Valid() && u2.Valid()
      case Pipeline(blocks) => forall i :: 0 <= i < |blocks| ==> blocks[i].Valid()
      case Bottleneck(cv1, cv2, _) => cv1.Valid() && cv2.Valid()
      case C3(cv1, cv2, cv3, m) => cv1.Valid() && cv2.Valid() && cv3.Valid() && m.Valid()
      case Spp(cv1, cv2, kernels) => cv1.Valid() && cv2.Valid()
      case Sppf(cv1, cv2, kernel) => cv1.Valid() && cv2.Valid()
      case Focus(cv) => cv.Valid()
      case Concat => true
      case Other(_) => true
    }

    /** No batch norm is left, and no RepVGG block in training form, at any depth. */
    predicate Folded() {
      match this
      case ConvUnit(u, _) => u.bn.None?
      case Rep(_, _, _) => false
      case RepFused(_, _) => true
      case Shuffle(_, down, u0, u1, u2) =>
        (down.Some? ==> down.value.0.bn.None? && down.value.1.bn.None?) && u0.bn.None? && u1.bn.None? && u2.bn.None?
      case Pipeline(blocks) => forall i :: 0 <= i < |blocks| ==> blocks[i].Folded()
      case Bottleneck(cv1, cv2, _) => cv1.Folded() && cv2.Folded()
      case C3(cv1, cv2, cv3, m) => cv1.Folded() && cv2.Folded() && cv3.Folded() && m.Folded()
      case Spp(cv1, cv2, _) => cv1.Folded() && cv2.Folded()
      case Sppf(cv1, cv2, _) => cv1.Folded() && cv2.Folded()
      case Focus(cv) => cv.Folded()
      case Concat => true
      case Other(_) => true
    }

    /** What fusing is sound for: no dilated convolution, no squeeze-and-excite in a RepVGG block. */
    predicate Fusable() {
      match this
      case ConvUnit(u, _) => u.Fusable()
      case Rep(_, se, _) => se.None?
      case RepFused(_, _) => true
      case Shuffle(stride, down, u0, u1, u2) =>
        (stride != 1 ==> down.Some? && down.value.0.Fusable() && down.value.1.Fusable()) &&
        u0.Fusable() && u1.Fusable() && u2.Fusable()
      case Pipeline(blocks) => forall i :: 0 <= i < |blocks| ==> blocks[i].Fusable()
      case Bottleneck(cv1, cv2, _) => cv1.Fusable() && cv2.Fusable()
      case C3(cv1, cv2, cv3, m) => cv1.Fusable() && cv2.Fusable() && cv3.Fusable() && m.Fusable()
      case Spp(cv1, cv2, _) => cv1.Fusable() && cv2.Fusable()
      case Sppf(cv1, cv2, _) => cv1.Fusable() && cv2.Fusable()
      case Focus(cv) => cv.Fusable()
      case Concat => true
      case Other(_) => true
    }
  }

  // ----- evaluation -----

  function Activate(env: Env, act: Activation, z: Option<Tensor>): Option<Tensor> {
    match z
    case None => None
    case Some(t) => if IsImage(t) then Some(Like(t, (n, c, y, x) => env.act(act, Pixel(t, n, c, y, x)))) else None
  }

  function RunUnit(u: Unit, z: Option<Tensor>): Option<Tensor>
    requires u.Valid()
  {
    match z
    case None => None
    case Some(t) => if u.bn.Some? then ConvBn(u.conv, u.bn.value, t) else ConvForward(u.conv, t)
  }

  /** Channels lo to hi of an image. */
  function Channels(t: Tensor, lo: nat, hi: nat): (r: Tensor)
    requires IsImage(t) && lo <= hi <= t.shape[1]
    ensures IsImage(r) && r.shape == [t.shape[0], hi - lo, t.shape[2], t.shape[3]]
    ensures forall n, c, y, x :: Inside(r, n, c, y, x) ==> Pixel(r, n, c, y, x) == Pixel(t, n, lo + c, y, x)
  {
    Image(t.shape[0], hi - lo, t.shape[2], t.shape[3], (n, c, y, x) => Pixel(t, n, lo + c, y, x))
  }

  function CatPair(a: Option<Tensor>, b: Option<Tensor>): Option<Tensor> {
    if a.Some? && b.Some? && Stackable(a.value, b.value) then Some(Cat(a.value, b.value)) else None
  }

  function ShuffleTwo(z: Option<Tensor>): Option<Tensor> {
    match z
    case None => None
    case Some(t) => if IsImage(t) && Divides(2, t.shape[1]) then Some(ChannelShuffle(t, 2)) else None
  }

  function RunShuffle(env: Env, b: Block, t: Tensor): Option<Tensor>
    requires b.Shuffle? && b.Valid()
  {
    if b.stride == 1 then
      if IsImage(t) && t.shape[1] >= 2 then
        var half := (t.shape[1] + 1) / 2;
        ShuffleTwo(CatPair(Some(Channels(t, 0, half)), Branch2(env, b, Channels(t, half, t.shape[1]))))
      else None
    else
      ShuffleTwo(CatPair(Branch1(env, b, t), Branch2(env, b, t)))
  }

  function Branch1(env: Env, b: Block, t: Tensor): Option<Tensor>
    requires b.Shuffle? && b.Valid() && b.stride != 1
  {
    Activate(env, ReLU, RunUnit(b.down.value.1, RunUnit(b.down.value.0, Some(t))))
  }

  function Branch2(env: Env, b: Block, t: Tensor): Option<Tensor>
    requires b.Shuffle? && b.Valid()
  {
    Activate(env, ReLU, RunUnit(b.u2, RunUnit(b.u1, Activate(env, ReLU, RunUnit(b.u0, Some(t))))))
  }

  function Plus(a: Option<Tensor>, b: Option<Tensor>): Option<Tensor> {
    if a.Some? && b.Some? && IsImage(a.value) && IsImage(b.value) then RepVgg.Add(a, b) else None
  }

  predicate Odd(kernels: seq<nat>) {
    forall i :: 0 <= i < |kernels| ==> kernels[i] % 2 == 1
  }

  /** The output of a block, or None where the layer would raise. */
  function Eval(env: Env, b: Block, a: Arg): Option<Tensor>
    requires b.Valid()
    decreases b, 1
  {
    match b
    case Concat => if a.Many? then CatAll(a.ts) else None
    case Other(id) => env.other(id, a)
    case _ => if a.One? then EvalOne(env, b, a.t) else None
  }

  function EvalOne(env: Env, b: Block, t: Tensor): Option<Tensor>
    requires b.Valid() && !b.Concat? && !b.Other?
    decreases b, 0
  {
    match b
    case ConvUnit(u, act) => Activate(env, act, RunUnit(u, Some(t)))
    case Rep(r, se, act) =>
      var z := RepVgg.Branches(r, t);
      Activate(env, act, if se.Some? && z.Some? then env.excite(se.value, z.value) else z)
    case RepFused(conv, act) => Activate(env, act, ConvForward(conv, t))
    case Shuffle(_, _, _, _, _) => RunShuffle(env, b, t)
    case Pipeline(blocks) => EvalAll(env, blocks, t)
    case Bottleneck(cv1, cv2, shortcut) =>
      var z := Then(env, cv2, Eval(env, cv1, One(t)));
      if shortcut then Plus(Some(t), z) else z
    case C3(cv1, cv2, cv3, m) =>
      Then(env, cv3, CatPair(Then(env, m, Eval(env, cv1, One(t))), Eval(env, cv2, One(t))))
    case Spp(cv1, cv2, kernels) =>
      (match Eval(env, cv1, One(t))
       case None => None
       case Some(z) => if IsImage(z) && Odd(kernels) then Then(env, cv2, CatAll(PyramidMaps(z, kernels))) else None)
    case Sppf(cv1, cv2, kernel) =>
      (match Eval(env, cv1, One(t))
       case None => None
       case Some(z) => if IsImage(z) && Odd([kernel]) then Then(env, cv2, CatAll(ChainMaps(z, kernel))) else None)
    case Focus(cv) =>
      if IsImage(t) && Divides(2, t.shape[2]) && Divides(2, t.shape[3]) then Eval(env, cv, One(FocusPhases(t))) else None
  }

  function Then(env: Env, b: Block, z: Option<Tensor>): Option<Tensor>
    requires b.Valid()
    decreases b, 2
  {
    if z.Some? then Eval(env, b, One(z.value)) else None
  }

  function EvalAll(env: Env, blocks: seq<Block>, t: Tensor): Option<Tensor>
    requires forall i :: 0 <= i < |blocks| ==> blocks[i].Valid()
    decreases blocks
  {
    if blocks == [] then Some(t)
    else match Eval(env, blocks[0], One(t))
      case None => None
      case Some(z) => EvalAll(env, blocks[1..], z)
  }

  // ----- fusing -----

  function FuseUnit(u: Unit): (f: Unit)
    requires u.Valid()
    ensures f.Valid() && f.bn.None?
  {
    if u.bn.Some? then Unit(FuseConvAndBn(u.conv, u.bn.value), None) else u
  }

  /** What Model.fuse makes of a block, nested blocks included. */
  function FuseBlock(b: Block): (f: Block)
    requires b.Valid()
    ensures f.Valid() && f.Folded()
    ensures (f.Concat? <==> b.Concat?) && (f.Other? <==> b.Other?)
    decreases b, 1
  {
    match b
    case ConvUnit(u, act) => ConvUnit(FuseUnit(u), act)
    case Rep(r, _, act) => RepFused(RepVgg.Reparam(r), act)
    case RepFused(_, _) => b
    case Shuffle(stride, down, u0, u1, u2) =>
      Shuffle(stride, if stride != 1 then Some((FuseUnit(down.value.0), FuseUnit(down.value.1))) else None,
              FuseUnit(u0), FuseUnit(u1), FuseUnit(u2))
    case Pipeline(blocks) => Pipeline(FuseAll(blocks))
    case Bottleneck(cv1, cv2, shortcut) => Bottleneck(FuseBlock(cv1), FuseBlock(cv2), shortcut)
    case C3(cv1, cv2, cv3, m) => C3(FuseBlock(cv1), FuseBlock(cv2), FuseBlock(cv3), FuseBlock(m))
    case Spp(cv1, cv2, kernels) => Spp(FuseBlock(cv1), FuseBlock(cv2), kernels)
    case Sppf(cv1, cv2, kernel) => Sppf(FuseBlock(cv1), FuseBlock(cv2), kernel)
    case Focus(cv) => Focus(FuseBlock(cv))
    case Concat => b
    case Other(_) => b
  }

  function FuseAll(blocks: seq<Block>): (fs: seq<Block>)
    requires forall i :: 0 <= i < |blocks| ==> blocks[i].Valid()
    ensures |fs| == |blocks| && forall i :: 0 <= i < |fs| ==> fs[i].Valid() && fs[i].Folded()
    decreases blocks, 0
  {
    if blocks == [] then [] else [FuseBlock(blocks[0])] + FuseAll(blocks[1..])
  }

  lemma FuseUnitCorrect(u: Unit, z: Option<Tensor>)
    requires u.Valid() && u.Fusable()
    ensures RunUnit(FuseUnit(u), z) == RunUnit(u, z)
  {
    if z.Some? && u.bn.Some? { FuseCorrect(u.conv, u.bn.value, z.value); }
  }

  /** A unit may be fused exactly when it has no batch norm or no dilation. */
  lemma FuseUnitExact(u: Unit)
    requires u.Valid()
    ensures (forall z: Option<Tensor> :: RunUnit(FuseUnit(u), z) == RunUnit(u, z)) <==> u.Fusable()
  {
    hide ConvForward, FuseConvAndBn, ConvBn;
    if u.Fusable() {
      forall z: Option<Tensor> ensures RunUnit(FuseUnit(u), z) == RunUnit(u, z) { FuseUnitCorrect(u, z); }
    } else {
      FuseExact(u.conv, u.bn.value);
      var t: Tensor :| ConvForward(FuseConvAndBn(u.conv, u.bn.value), t) != ConvBn(u.conv, u.bn.value, t);
      assert RunUnit(FuseUnit(u), Some(t)) != RunUnit(u, Some(t));
    }
  }

  lemma FuseShuffleCorrect(env: Env, b: Block, t: Tensor)
    requires b.Shuffle? && b.Valid() && b.Fusable()
    ensures RunShuffle(env, FuseBlock(b), t) == RunShuffle(env, b, t)
  {
    hide RunUnit, FuseUnit, Activate, Branch1, Branch2, ShuffleTwo, CatPair, Channels;
    if b.stride == 1 {
      if IsImage(t) && t.shape[1] >= 2 { FuseBranch2(env, b, Channels(t, (t.shape[1] + 1) / 2, t.shape[1])); }
    } else {
      FuseBranch1(env, b, t);
      FuseBranch2(env, b, t);
    }
  }

  lemma FuseBranch1(env: Env, b: Block, t: Tensor)
    requires b.Shuffle? && b.Valid() && b.Fusable() && b.stride != 1
    ensures Branch1(env, FuseBlock(b), t) == Branch1(env, b, t)
  {
    hide RunUnit, FuseUnit;
    var (d0, d1) := b.down.value;
    FuseUnitCorrect(d0, Some(t));
    FuseUnitCorrect(d1, RunUnit(d0, Some(t)));
  }

  lemma FuseBranch2(env: Env, b: Block, t: Tensor)
    requires b.Shuffle? && b.Valid() && b.Fusable()
    ensures Branch2(env, FuseBlock(b), t) == Branch2(env, b, t)
  {
    hide RunUnit, FuseUnit, Activate;
    FuseUnitCorrect(b.u0, Some(t));
    var z := Activate(env, ReLU, RunUnit(b.u0, Some(t)));
    FuseUnitCorrect(b.u1, z);
    FuseUnitCorrect(b.u2, RunUnit(b.u1, z));
  }

  /** Fusing a block preserves what it computes, on every argument, failures included. */
  lemma {:induction false} FuseBlockCorrect(env: Env, b: Block, a: Arg)
    requires b.Valid() && b.Fusable()
    ensures Eval(env, FuseBlock(b), a) == Eval(env, b, a)
    decreases b, 2
  {
    if a.One? && !b.Concat? && !b.Other? { FuseOneCorrect(env, b, a.t); }
  }

  lemma {:induction false} FuseOneCorrect(env: Env, b: Block, t: Tensor)
    requires b.Valid() && b.Fusable() && !b.Concat? && !b.Other?
    ensures EvalOne(env, FuseBlock(b), t) == EvalOne(env, b, t)
    decreases b, 1
  {
    hide Activate, RunUnit, FuseUnit, RunShuffle, CatAll, CatPair, Plus, PyramidMaps, ChainMaps, FocusPhases;
    match b
    case ConvUnit(u, act) => FuseUnitCorrect(u, Some(t));
    case Rep(r, se, act) => RepVgg.ReparamCorrect(r, t);
    case RepFused(_, _) =>
    case Shuffle(_, _, _, _, _) => FuseShuffleCorrect(env, b, t);
    case Pipeline(blocks) => FuseAllCorrect(env, blocks, t);
    case Bottleneck(_, _, _) => FuseNestedCorrect(env, b, t);
    case C3(_, _, _, _) => FuseNestedCorrect(env, b, t);
    case Spp(_, _, _) => FuseNestedCorrect(env, b, t);
    case Sppf(_, _, _) => FuseNestedCorrect(env, b, t);
    case Focus(_) => FuseNestedCorrect(env, b, t);
  }

  lemma {:induction false} FuseNestedCorrect(env: Env, b: Block, t: Tensor)
    requires b.Valid() && b.Fusable() && (b.Bottleneck? || b.C3? || b.Spp? || b.Sppf? || b.Focus?)
    ensures EvalOne(env, FuseBlock(b), t) == EvalOne(env, b, t)
    decreases b, 0
  {
    hide Activate, RunUnit, FuseUnit, RunShuffle, CatAll, CatPair, Plus, PyramidMaps, ChainMaps, FocusPhases;
    match b
    case Bottleneck(cv1, cv2, _) =>
      FuseBlockCorrect(env, cv1, One(t));
      FuseThenCorrect(env, cv2, Eval(env, cv1, One(t)));
    case C3(cv1, cv2, cv3, m) =>
      FuseBlockCorrect(env, cv1, One(t));
      FuseBlockCorrect(env, cv2, One(t));
      var left := Eval(env, cv1, One(t));
      FuseThenCorrect(env, m, left);
      FuseThenCorrect(env, cv3, CatPair(Then(env, m, left), Eval(env, cv2, One(t))));
    case Spp(cv1, cv2, kernels) =>
      FuseBlockCorrect(env, cv1, One(t));
      var z := Eval(env, cv1, One(t));
      if z.Some? && IsImage(z.value) { FuseThenCorrect(env, cv2, CatAll(PyramidMaps(z.value, kernels))); }
    case Sppf(cv1, cv2, kernel) =>
      FuseBlockCorrect(env, cv1, One(t));
      var z := Eval(env, cv1, One(t));
      if z.Some? && IsImage(z.value) { FuseThenCorrect(env, cv2, CatAll(ChainMaps(z.value, kernel))); }
    case Focus(cv) =>
      if IsImage(t) && Divides(2, t.shape[2]) && Divides(2, t.shape[3]) { FuseBlockCorrect(env, cv, One(FocusPhases(t))); }
  }

  lemma {:induction false} FuseThenCorrect(env: Env, b: Block, z: Option<Tensor>)
    requires b.Valid() && b.Fusable()
    ensures Then(env, FuseBlock(b), z) == Then(env, b, z)
    decreases b, 3
  {
    if z.Some? { FuseBlockCorrect(env, b, One(z.value)); }
  }

  lemma {:induction false} FuseAllCorrect(env: Env, blocks: seq<Block>, t: Tensor)
    requires forall i :: 0 <= i < |blocks| ==> blocks[i].Valid() && blocks[i].Fusable()
    ensures EvalAll(env, FuseAll(blocks), t) == EvalAll(env, blocks, t)
    decreases blocks, 0
  {
    if blocks != [] {
      FuseBlockCorrect(env, blocks[0], One(t));
      assert FuseAll(blocks)[1..] == FuseAll(blocks[1..]);
      var z := Eval(env, blocks[0], One(t));
      if z.Some? { FuseAllCorrect(env, blocks[1..], z.value); }
    }
  }

  /** SPPF(k) computes the same function as SPP with kernels k, 2k - 1, 3k - 2 around the same convolutions. */
  lemma SppfIsSpp(env: Env, cv1: Block, cv2: Block, k: nat, a: Arg)
    requires cv1.Valid() && cv2.Valid() && k % 2 == 1
    ensures Eval(env, Sppf(cv1, cv2, k), a) == Eval(env, Spp(cv1, cv2, [k, 2 * k - 1, 3 * k - 2]), a)
  {
    hide EvalOne;
    if a.One? { SppfIsSppOne(env, cv1, cv2, k, a.t); }
  }

  /** What both layers do after their first convolution. */
  function Pooled(env: Env, cv2: Block, z: Option<Tensor>, maps: Tensor -> Option<Tensor>): Option<Tensor>
    requires cv2.Valid()
  {
    if z.Some? && IsImage(z.value) then Then(env, cv2, maps(z.value)) else None
  }

  lemma SppRuns(env: Env, cv1: Block, cv2: Block, ks: seq<nat>, t: Tensor)
    requires cv1.Valid() && cv2.Valid() && Odd(ks)
    ensures EvalOne(env, Spp(cv1, cv2, ks), t) == Pooled(env, cv2, Eval(env, cv1, One(t)), PyramidCat(ks))
  {
  }

  lemma SppfRuns(env: Env, cv1: Block, cv2: Block, k: nat, t: Tensor)
    requires cv1.Valid() && cv2.Valid() && k % 2 == 1
    ensures EvalOne(env, Sppf(cv1, cv2, k), t) == Pooled(env, cv2, Eval(env, cv1, One(t)), ChainCat(k))
  {
    hide Eval, Then, CatAll, ChainMaps;
    assert Odd([k]);
  }

  function PyramidCat(ks: seq<nat>): Tensor -> Option<Tensor> {
    (z: Tensor) => if IsImage(z) then CatAll(PyramidMaps(z, ks)) else None
  }

  function ChainCat(k: nat): Tensor -> Option<Tensor> {
    (z: Tensor) => if IsImage(z) then CatAll(ChainMaps(z, k)) else None
  }

  lemma SppfIsSppOne(env: Env, cv1: Block, cv2: Block, k: nat, t: Tensor)
    requires cv1.Valid() && cv2.Valid() && k % 2 == 1
    ensures EvalOne(env, Sppf(cv1, cv2, k), t) == EvalOne(env, Spp(cv1, cv2, [k, 2 * k - 1, 3 * k - 2]), t)
  {
    var ks := [k, 2 * k - 1, 3 * k - 2];
    assert Odd(ks);
    hide EvalOne, Eval, Then, CatAll, PyramidMaps, ChainMaps;
    SppfRuns(env, cv1, cv2, k, t);
    SppRuns(env, cv1, cv2, ks, t);
    var z := Eval(env, cv1, One(t));
    if z.Some? && IsImage(z.value) { ChainIsPyramid(z.value, k); }
  }

  // ----- the layer list and its save list -----

  /** The `from` entry of a layer: one index, or a list of them; -1 is the previous output. */
  datatype From = Single(f: int) | List(fs: seq<int>) {
    function Indices(): seq<int> {
      if Single? then [f] else fs
    }
  }

  datatype Layer = Layer(from: From, block: Block)

  datatype Outcome<+T> =
    | Done(value: T)
    | IndexError       // a `from` index outside the outputs produced so far
    | Raised           // a block failed
    | ReadDropped      // an output that was not saved was read

  predicate ValidLayers(layers: seq<Layer>) {
    forall i :: 0 <= i < |layers| ==> layers[i].block.Valid()
  }

  // Reference execution, which keeps every output.

  /** Output number f as seen by layer number |ys|, with Python's negative indexing. */
  function Lookup(ys: seq<Tensor>, x: Tensor, f: int): Outcome<Tensor> {
    if f == -1 then Done(x)
    else if 0 <= f < |ys| then Done(ys[f])
    else if -|ys| <= f < 0 then Done(ys[|ys| + f])
    else IndexError
  }

  function LookupAll(ys: seq<Tensor>, x: Tensor, fs: seq<int>): Outcome<seq<Tensor>> {
    if fs == [] then Done([])
    else match LookupAll(ys, x, fs[..|fs| - 1])
      case Done(ts) => (match Lookup(ys, x, fs[|fs| - 1])
                        case Done(t) => Done(ts + [t])
                        case _ => IndexError)
      case _ => IndexError
  }

  function Input(ys: seq<Tensor>, x: Tensor, from: From): Outcome<Arg> {
    match from
    case Single(f) => (match Lookup(ys, x, f) case Done(t) => Done(One(t)) case _ => IndexError)
    case List(fs) => (match LookupAll(ys, x, fs) case Done(ts) => Done(Many(ts)) case _ => IndexError)
  }

  function Latest(input: Tensor, ys: seq<Tensor>): Tensor {
    if ys == [] then input else ys[|ys| - 1]
  }

  /** All outputs of the first n layers, or the first error. */
  function DenseRun(env: Env, layers: seq<Layer>, input: Tensor, n: nat): (r: Outcome<seq<Tensor>>)
    requires n <= |layers| && ValidLayers(layers)
    ensures r.Done? ==> |r.value| == n
    ensures !r.ReadDropped?
  {
    if n == 0 then Done([])
    else
      var before := DenseRun(env, layers, input, n - 1);
      if !before.Done? then before
      else match Input(before.value, Latest(input, before.value), layers[n - 1].from)
        case Done(a) => (match Eval(env, layers[n - 1].block, a)
                         case Some(t) => Done(before.value + [t])
                         case None => Raised)
        case _ => IndexError
  }

  function DenseOutput(env: Env, layers: seq<Layer>, input: Tensor): Outcome<Tensor>
    requires ValidLayers(layers)
  {
    var r := DenseRun(env, layers, input, |layers|);
    if r.Done? then Done(Latest(input, r.value)) else if r.Raised? then Raised else IndexError
  }

  // ----- parse_model -----

  /** x % i for i > 0 in Python: the non-negative position that index x denotes. */
  function Wrap(x: int, i: nat): int
    requires i > 0
  {
    x % i
  }

  /** The positions that the first n layers will read again. */
  ghost predicate Saved(layers: seq<Layer>, n: nat, k: int)
    requires n <= |layers|
  {
    exists i, j :: 0 < i < n && 0 <= j < |layers[i].from.Indices()| && layers[i].from.Indices()[j] != -1
                   && k == Wrap(layers[i].from.Indices()[j], i)
  }

  /** Layer 0 has no earlier output, so anything but -1 there makes parse_model divide by zero. */
  predicate FirstReadsInput(layers: seq<Layer>) {
    |layers| > 0 ==> forall j :: 0 <= j < |layers[0].from.Indices()| ==> layers[0].from.Indices()[j] == -1
  }

  /** The loop of parse_model that collects the save list; None is the ZeroDivisionError. */
  method ParseModel(specs: seq<Layer>) returns (r: Option<(seq<Layer>, set<int>)>)
    ensures r.Some? <==> FirstReadsInput(specs)
    ensures r.Some? ==> r.value.0 == specs && forall k :: k in r.value.1 <==> Saved(specs, |specs|, k)
  {
    var layers: seq<Layer> := [];
    var save: set<int> := {};
    for i := 0 to |specs|
      invariant layers == specs[..i]
      invariant i > 0 ==> FirstReadsInput(specs)
      invariant forall k :: k in save <==> Saved(specs, i, k)
    {
      var fs := specs[i].from.Indices();
      ghost var before := save;
      for j := 0 to |fs|
        invariant i == 0 ==> forall l :: 0 <= l < j ==> fs[l] == -1
        invariant i == 0 ==> save == before
        invariant i > 0 ==>
          forall k :: k in save <==> k in before || exists l :: 0 <= l < j && fs[l] != -1 && k == Wrap(fs[l], i)
      {
        if fs[j] != -1 {
          if i == 0 { return None; }
          save := save + {Wrap(fs[j], i)};
        }
      }
      layers := layers + [specs[i]];
    }
    return Some((layers, save));
  }

  // ----- fusing and running a model -----

  ghost predicate Covers(layers: seq<Layer>, save: set<int>) {
    forall k :: Saved(layers, |layers|, k) ==> k in save
  }

  function FuseLayers(layers: seq<Layer>): (fs: seq<Layer>)
    requires ValidLayers(layers)
    ensures |fs| == |layers| && ValidLayers(fs) && forall i :: 0 <= i < |fs| ==> fs[i].block.Folded()
  {
    seq(|layers|, i requires 0 <= i < |layers| => layers[i].(block := FuseBlock(layers[i].block)))
  }

  lemma FuseKeepsSaved(layers: seq<Layer>, k: int)
    requires ValidLayers(layers)
    ensures Saved(FuseLayers(layers), |layers|, k) <==> Saved(layers, |layers|, k)
  {
    var fused := FuseLayers(layers);
    assert forall i :: 0 <= i < |layers| ==> fused[i].from.Indices() == layers[i].from.Indices();
  }

  /** Every fused network computes what the original computes, layer by layer, errors included. */
  lemma {:induction false} FuseLayersCorrect(env: Env, layers: seq<Layer>, input: Tensor, n: nat)
    requires ValidLayers(layers) && n <= |layers|
    requires forall i :: 0 <= i < |layers| ==> layers[i].block.Fusable()
    ensures DenseRun(env, FuseLayers(layers), input, n) == DenseRun(env, layers, input, n)
  {
    hide Eval, EvalOne, Input, Latest, FuseBlock;
    if n > 0 {
      FuseLayersCorrect(env, layers, input, n - 1);
      var r := DenseRun(env, layers, input, n - 1);
      if r.Done? {
        var a := Input(r.value, Latest(input, r.value), layers[n - 1].from);
        if a.Done? { FuseBlockCorrect(env, layers[n - 1].block, a.value); }
      }
    }
  }

  class Model {
    var layers: seq<Layer>
    var save: set<int>

    ghost predicate Valid()
      reads this
    {
      ValidLayers(layers) && Covers(layers, save)
    }

    constructor (layers: seq<Layer>, save: set<int>)
      requires ValidLayers(layers) && Covers(layers, save)
      ensures Valid() && this.layers == layers && this.save == save
    {
      this.layers := layers;
      this.save := save;
    }

    /** Model.fuse: replace the blocks one after the other. */
    method Fuse()
      requires Valid()
      modifies this
      ensures Valid() && layers == FuseLayers(old(layers)) && save == old(save)
      ensures forall i :: 0 <= i < |layers| ==> layers[i].block.Folded()
      ensures (forall i :: 0 <= i < |old(layers)| ==> old(layers)[i].block.Fusable()) ==>
                forall env: Env, x: Tensor :: DenseOutput(env, layers, x) == DenseOutput(env, old(layers), x)
    {
      ghost var before := layers;
      for i := 0 to |layers|
        invariant |layers| == |before| && ValidLayers(layers) && save == old(save)
        invariant forall j :: 0 <= j < i ==> layers[j] == FuseLayers(before)[j]
        invariant forall j :: i <= j < |before| ==> layers[j] == before[j]
      {
        layers := layers[i := layers[i].(block := FuseBlock(layers[i].block))];
      }
      assert layers == FuseLayers(before);
      forall k | Saved(layers, |layers|, k) ensures k in save { FuseKeepsSaved(before, k); }
      if forall i :: 0 <= i < |before| ==> before[i].block.Fusable() {
        forall env: Env, x: Tensor ensures DenseOutput(env, layers, x) == DenseOutput(env, before, x) {
          FuseLayersCorrect(env, before, x, |before|);
        }
      }
    }

    /** forward_once: keep only the outputs in the save list. */
    method ForwardOnce(env: Env, input: Tensor) returns (r: Outcome<Tensor>)
      requires Valid()
      ensures r == DenseOutput(env, layers, input)
      ensures !r.ReadDropped?
    {
      hide Eval, EvalOne, Input, Covers;
      var y: seq<Option<Tensor>> := [];
      var x := input;
      for i := 0 to |layers|
        invariant |y| == i
        invariant DenseRun(env, layers, input, i).Done?
        invariant x == Latest(input, DenseRun(env, layers, input, i).value)
        invariant Keeps(y, DenseRun(env, layers, input, i).value, save)
      {
        ghost var ys := DenseRun(env, layers, input, i).value;
        ReadsSaved(layers, save, i);
        var a := ReadInput(y, x, layers[i].from, ys, save);
        match a {
          case Done(arg) =>
            match Eval(env, layers[i].block, arg) {
              case None => DenseStops(env, layers, input, i); return Raised;
              case Some(t) => x := t;
            }
          case _ => DenseStops(env, layers, input, i); return IndexError;
        }
        y := y + [if i in save then Some(x) else None];
      }
      r := Done(x);
    }
  }

  /** y holds the outputs in the save list and None elsewhere. */
  ghost predicate Keeps(y: seq<Option<Tensor>>, ys: seq<Tensor>, save: set<int>) {
    |y| == |ys| && forall j :: 0 <= j < |y| ==> y[j] == if j in save then Some(ys[j]) else None
  }

  /** Every index that may be read is a position that was saved. */
  ghost predicate Readable(i: nat, f: int, save: set<int>) {
    f == -1 || ((0 <= f < i ==> f in save) && (0 <= i + f < i ==> i + f in save))
  }

  lemma ReadsSaved(layers: seq<Layer>, save: set<int>, i: nat)
    requires i < |layers| && Covers(layers, save)
    ensures forall j :: 0 <= j < |layers[i].from.Indices()| ==> Readable(i, layers[i].from.Indices()[j], save)
  {
  }

  /** A failure of layer i stops the whole run with that failure. */
  lemma {:induction false} DenseStops(env: Env, layers: seq<Layer>, input: Tensor, i: nat)
    requires ValidLayers(layers) && i < |layers|
    requires !DenseRun(env, layers, input, i + 1).Done?
    ensures DenseRun(env, layers, input, |layers|) == DenseRun(env, layers, input, i + 1)
    decreases |layers| - i
  {
    if i + 1 < |layers| { DenseStops(env, layers, input, i + 1); }
  }

  method ReadOne(y: seq<Option<Tensor>>, x: Tensor, f: int, ghost ys: seq<Tensor>, ghost save: set<int>)
    returns (r: Outcome<Tensor>)
    requires Keeps(y, ys, save) && Readable(|y|, f, save)
    ensures r == Lookup(ys, x, f)
  {
    if f == -1 { return Done(x); }
    var k := if f < 0 then |y| + f else f;
    if k < 0 || k >= |y| { return IndexError; }
    match y[k] {
      case Some(t) => return Done(t);
      case None => return ReadDropped;
    }
  }

  method ReadInput(y: seq<Option<Tensor>>, x: Tensor, from: From, ghost ys: seq<Tensor>, ghost save: set<int>)
    returns (r: Outcome<Arg>)
    requires Keeps(y, ys, save)
    requires forall j :: 0 <= j < |from.Indices()| ==> Readable(|y|, from.Indices()[j], save)
    ensures r == Input(ys, x, from)
  {
    if from.Single? {
      assert from.Indices()[0] == from.f;
      var t := ReadOne(y, x, from.f, ys, save);
      return if t.Done? then Done(One(t.value)) else IndexError;
    }
    var ts: seq<Tensor> := [];
    for j := 0 to |from.fs|
      invariant LookupAll(ys, x, from.fs[..j]) == Done(ts)
    {
      assert from.fs[..j + 1][..j] == from.fs[..j];
      assert from.Indices()[j] == from.fs[j];
      var t := ReadOne(y, x, from.fs[j], ys, save);
      if !t.Done? {
        LookupStops(ys, x, from.fs, j + 1);
        return IndexError;
      }
      ts := ts + [t.value];
    }
    assert from.fs[..|from.fs|] == from.fs;
    r := Done(Many(ts));
  }

  lemma {:induction false} LookupStops(ys: seq<Tensor>, x: Tensor, fs: seq<int>, j: nat)
    requires j <= |fs| && LookupAll(ys, x, fs[..j]) == IndexError
    ensures LookupAll(ys, x, fs) == IndexError
    decreases |fs| - j
  {
    if j == |fs| {
      assert fs[..j] == fs;
    } else {
      assert fs[..j + 1][..j] == fs[..j];
      LookupStops(ys, x, fs, j + 1);
    }
  }
}
