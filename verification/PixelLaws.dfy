/** What every block of a network does to single pixels, and what a run of layers does to tensors. */
module PixelLaws {
  import opened Wrappers
  import opened Tensors
  import opened Convolution
  import opened Reshape
  import opened Pooling
  import opened Network
  import RepVgg

  // ----- images given pixel by pixel -----

  /** The image of the given shape whose pixels are f. */
  ghost predicate IsMade(r: Tensor, shape: seq<nat>, f: (int, int, int, int) -> real) {
    IsImage(r) && r.shape == shape && forall n, c, y, x :: Inside(r, n, c, y, x) ==> Pixel(r, n, c, y, x) == f(n, c, y, x)
  }

  lemma MadeOnce(r: Tensor, q: Tensor, shape: seq<nat>, f: (int, int, int, int) -> real)
    requires IsMade(r, shape, f) && IsMade(q, shape, f)
    ensures r == q
  {
    hide Pixel;
    ImagesEqual(r, q);
  }

  // ----- convolution, batch norm, activation -----

  /** One output of a convolution and the batch norm after it, if there is one. */
  function UnitAt(u: Unit, t: Tensor, n: int, o: int, y: int, x: int): real
    requires u.Valid() && IsImage(t)
  {
    var v := ConvAt(u.conv, t, n, o, y, x);
    if u.bn.Some? then BnAt(u.bn.value, o, v) else v
  }

  ghost predicate IsUnit(u: Unit, t: Tensor, r: Tensor)
    requires u.Valid()
  {
    u.conv.Accepts(t) && IsMade(r, OutShape(u.conv, t), (n, o, y, x) => UnitAt(u, t, n, o, y, x))
  }

  lemma UnitMade(u: Unit, t: Tensor)
    requires u.Valid()
    ensures RunUnit(u, Some(t)).Some? <==> u.conv.Accepts(t)
    ensures u.conv.Accepts(t) ==> IsUnit(u, t, RunUnit(u, Some(t)).value)
  {
    hide Pixel, ConvAt, BnAt;
    if u.conv.Accepts(t) {
      var mid, r := ConvForward(u.conv, t).value, RunUnit(u, Some(t)).value;
      forall n, o, y, x | Inside(r, n, o, y, x) ensures Pixel(r, n, o, y, x) == UnitAt(u, t, n, o, y, x) {
        assert Inside(mid, n, o, y, x);
      }
    }
  }

  /** A unit answers r exactly when r is, pixel by pixel, the normalised convolution. */
  lemma UnitLaw(u: Unit, t: Tensor, r: Tensor)
    requires u.Valid()
    ensures RunUnit(u, Some(t)) == Some(r) <==> IsUnit(u, t, r)
  {
    hide RunUnit, UnitAt, IsMade, OutShape;
    UnitMade(u, t);
    if IsUnit(u, t, r) {
      MadeOnce(r, RunUnit(u, Some(t)).value, OutShape(u.conv, t), (n, o, y, x) => UnitAt(u, t, n, o, y, x));
    }
  }

  ghost predicate IsActivated(env: Env, act: Activation, t: Tensor, r: Tensor) {
    IsImage(t) && IsMade(r, t.shape, (n, c, y, x) => env.act(act, Pixel(t, n, c, y, x)))
  }

  /** An activation is applied to every pixel. */
  lemma ActivateLaw(env: Env, act: Activation, t: Tensor, r: Tensor)
    ensures Activate(env, act, Some(t)) == Some(r) <==> IsActivated(env, act, t, r)
  {
    hide Pixel;
    if IsImage(t) {
      var q := Activate(env, act, Some(t)).value;
      assert IsActivated(env, act, t, q);
      if IsActivated(env, act, t, r) {
        MadeOnce(r, q, t.shape, (n, c, y, x) => env.act(act, Pixel(t, n, c, y, x)));
      }
    }
  }

  /** A unit followed by an activation. */
  ghost predicate IsConv(env: Env, u: Unit, act: Activation, t: Tensor, r: Tensor)
    requires u.Valid()
  {
    u.conv.Accepts(t) && IsMade(r, OutShape(u.conv, t), (n, o, y, x) => env.act(act, UnitAt(u, t, n, o, y, x)))
  }

  lemma ActivatedUnit(env: Env, u: Unit, act: Activation, t: Tensor, m: Tensor)
    requires u.Valid() && IsUnit(u, t, m)
    ensures IsImage(m) && Activate(env, act, Some(m)).Some? && IsConv(env, u, act, t, Activate(env, act, Some(m)).value)
  {
    hide Pixel, UnitAt, OutShape;
    var r := Activate(env, act, Some(m)).value;
    forall n, o, y, x | Inside(r, n, o, y, x) ensures Pixel(r, n, o, y, x) == env.act(act, UnitAt(u, t, n, o, y, x)) {
      assert Inside(m, n, o, y, x);
    }
  }

  lemma ActUnitLaw(env: Env, u: Unit, act: Activation, t: Tensor, r: Tensor)
    requires u.Valid()
    ensures Activate(env, act, RunUnit(u, Some(t))) == Some(r) <==> IsConv(env, u, act, t, r)
  {
    hide RunUnit, Activate, UnitAt, IsMade, OutShape, IsUnit;
    UnitMade(u, t);
    var z := RunUnit(u, Some(t));
    if z.None? {
      ActivateNone(env, act);
    } else {
      ActivatedUnit(env, u, act, t, z.value);
      var q := Activate(env, act, z).value;
      assert z == Some(z.value);
      if IsConv(env, u, act, t, r) {
        MadeOnce(r, q, OutShape(u.conv, t), (n, o, y, x) => env.act(act, UnitAt(u, t, n, o, y, x)));
      }
    }
  }

  lemma ActivateNone(env: Env, act: Activation)
    ensures Activate(env, act, None) == None
  {
  }

  /** Conv and CBH: every output pixel is the activation of the normalised convolution there. */
  lemma ConvUnitLaw(env: Env, u: Unit, act: Activation, t: Tensor, r: Tensor)
    requires u.Valid()
    ensures Eval(env, ConvUnit(u, act), One(t)) == Some(r) <==> IsConv(env, u, act, t, r)
  {
    hide Activate, RunUnit, IsConv;
    ActUnitLaw(env, u, act, t, r);
  }

  /** RepVGGBlock after fusing. */
  lemma RepFusedLaw(env: Env, conv: Conv2d, act: Activation, t: Tensor, r: Tensor)
    requires conv.Valid()
    ensures Eval(env, RepFused(conv, act), One(t)) == Some(r) <==> IsConv(env, Unit(conv, None), act, t, r)
  {
    hide Activate, IsConv;
    ActUnitLaw(env, Unit(conv, None), act, t, r);
    assert RunUnit(Unit(conv, None), Some(t)) == ConvForward(conv, t);
  }

  /** The branches of a RepVGG block add up, pixel by pixel. */
  ghost predicate IsBranched(b: RepVgg.Block, t: Tensor, z: Tensor)
    requires b.Valid()
  {
    b.dense.Accepts(t) && IsMade(z, OutShape(b.dense, t), (n, o, y, x) => RepVgg.BranchSum(b, t, n, o, y, x))
  }

  lemma BranchesLaw(b: RepVgg.Block, t: Tensor, z: Tensor)
    requires b.Valid()
    ensures RepVgg.Branches(b, t) == Some(z) <==> IsBranched(b, t, z)
  {
    hide Pixel, RepVgg.Branches, RepVgg.BranchSum, OutShape, RepVgg.Reparam;
    if b.dense.Accepts(t) {
      RepVgg.BranchShapes(b, t);
      RepVgg.BranchesPixel(b, t, 0, 0, 0, 0);
      var q := RepVgg.Branches(b, t).value;
      forall n, o, y, x | Inside(q, n, o, y, x) ensures Pixel(q, n, o, y, x) == RepVgg.BranchSum(b, t, n, o, y, x) {
        RepVgg.BranchesPixel(b, t, n, o, y, x);
      }
      assert IsBranched(b, t, q);
      if IsBranched(b, t, z) {
        MadeOnce(z, q, OutShape(b.dense, t), (n, o, y, x) => RepVgg.BranchSum(b, t, n, o, y, x));
      }
    } else {
      RepVgg.BranchesFail(b, t);
    }
  }

  /** RepVGGBlock in training form: the sum of the branches, excited if it has a squeeze-and-excite, then activated. */
  lemma RepLaw(env: Env, b: RepVgg.Block, se: Option<nat>, act: Activation, t: Tensor, r: Tensor)
    requires b.Valid()
    ensures Eval(env, Rep(b, se, act), One(t)) == Some(r) <==>
            exists z, e :: IsBranched(b, t, z) && (if se.Some? then env.excite(se.value, z) == Some(e) else e == z)
                           && IsActivated(env, act, e, r)
  {
    hide Activate, RepVgg.Branches, IsBranched, IsActivated;
    ActivateNone(env, act);
    var z := RepVgg.Branches(b, t);
    if z.Some? {
      BranchesLaw(b, t, z.value);
      var e := if se.Some? then env.excite(se.value, z.value) else z;
      if e.Some? { ActivateLaw(env, act, e.value, r); }
    }
    if z', e' :| IsBranched(b, t, z') && (if se.Some? then env.excite(se.value, z') == Some(e') else e' == z')
                 && IsActivated(env, act, e', r)
    {
      BranchesLaw(b, t, z');
      ActivateLaw(env, act, e', r);
    }
  }

  // ----- two images side by side -----

  /** Channel c of the channels of p followed by those of q. */
  function Joint(p: Tensor, q: Tensor, n: int, c: int, y: int, x: int): real
    requires IsImage(p) && IsImage(q)
  {
    if c < p.shape[1] then Pixel(p, n, c, y, x) else Pixel(q, n, c - p.shape[1], y, x)
  }

  function JointShape(p: Tensor, q: Tensor): seq<nat>
    requires IsImage(p) && IsImage(q)
  {
    [p.shape[0], p.shape[1] + q.shape[1], p.shape[2], p.shape[3]]
  }

  ghost predicate IsJoined(p: Tensor, q: Tensor, r: Tensor) {
    Stackable(p, q) && IsMade(r, JointShape(p, q), (n, c, y, x) => Joint(p, q, n, c, y, x))
  }

  lemma JoinLaw(p: Tensor, q: Tensor, r: Tensor)
    ensures CatPair(Some(p), Some(q)) == Some(r) <==> IsJoined(p, q, r)
  {
    hide Pixel, Cat;
    if Stackable(p, q) {
      var j := Cat(p, q);
      forall n, c, y, x | Inside(j, n, c, y, x) ensures Pixel(j, n, c, y, x) == Joint(p, q, n, c, y, x) {
        CatPixel(p, q, n, c, y, x);
      }
      if IsJoined(p, q, r) { MadeOnce(r, j, JointShape(p, q), (n, c, y, x) => Joint(p, q, n, c, y, x)); }
    }
  }

  ghost predicate IsSum(a: Tensor, b: Tensor, r: Tensor) {
    IsImage(a) && IsImage(b) && a.shape == b.shape && IsMade(r, a.shape, (n, c, y, x) => Pixel(a, n, c, y, x) + Pixel(b, n, c, y, x))
  }

  lemma SumLaw(a: Tensor, b: Tensor, r: Tensor)
    ensures Network.Plus(Some(a), Some(b)) == Some(r) <==> IsSum(a, b, r)
  {
    hide Pixel;
    if IsImage(a) && IsImage(b) && a.shape == b.shape {
      var q := Network.Plus(Some(a), Some(b)).value;
      assert IsSum(a, b, q);
      if IsSum(a, b, r) { MadeOnce(r, q, a.shape, (n, c, y, x) => Pixel(a, n, c, y, x) + Pixel(b, n, c, y, x)); }
    }
  }

  // ----- the shuffle block -----

  /** The channel that a two-group shuffle of 2h channels moves to position c: the two halves alternate. */
  function Woven(c: int, h: nat): int {
    if c % 2 == 0 then c / 2 else h + c / 2
  }

  ghost predicate IsWoven(p: Tensor, q: Tensor, r: Tensor) {
    && Stackable(p, q) && (p.shape[1] + q.shape[1]) % 2 == 0
    && IsMade(r, JointShape(p, q), (n, c, y, x) => Joint(p, q, n, Woven(c, (p.shape[1] + q.shape[1]) / 2), y, x))
  }

  lemma WovenPixel(j: Tensor, n: int, c: int, y: int, x: int)
    requires IsImage(j) && Divides(2, j.shape[1]) && Inside(j, n, c, y, x)
    ensures Inside(j, n, Woven(c, j.shape[1] / 2), y, x)
    ensures Pixel(ChannelShuffle(j, 2), n, c, y, x) == Pixel(j, n, Woven(c, j.shape[1] / 2), y, x)
  {
    hide Pixel, ChannelShuffle;
    ShufflePixel(j, 2, n, c % 2, c / 2, y, x);
    assert c / 2 * 2 + c % 2 == c;
  }

  lemma WeaveLaw(p: Tensor, q: Tensor, r: Tensor)
    ensures ShuffleTwo(CatPair(Some(p), Some(q))) == Some(r) <==> IsWoven(p, q, r)
  {
    hide Pixel, ChannelShuffle, Woven, CatPair, IsMade;
    var z := CatPair(Some(p), Some(q));
    if z.Some? {
      JoinLaw(p, q, z.value);
      JoinedShape(p, q, z.value);
      if Divides(2, z.value.shape[1]) {
        ShuffledJoint(p, q, z.value);
        if IsWoven(p, q, r) {
          MadeOnce(r, ChannelShuffle(z.value, 2), JointShape(p, q),
                   (n, c, y, x) => Joint(p, q, n, Woven(c, (p.shape[1] + q.shape[1]) / 2), y, x));
        }
      }
    } else {
      JoinNone(p, q);
    }
  }

  lemma JoinNone(p: Tensor, q: Tensor)
    requires CatPair(Some(p), Some(q)).None?
    ensures !Stackable(p, q)
  {
  }

  lemma JoinedShape(p: Tensor, q: Tensor, j: Tensor)
    requires IsJoined(p, q, j)
    ensures IsImage(j) && j.shape == JointShape(p, q)
  {
  }

  lemma ShuffledJoint(p: Tensor, q: Tensor, j: Tensor)
    requires IsJoined(p, q, j) && IsImage(j) && Divides(2, j.shape[1])
    ensures IsWoven(p, q, ChannelShuffle(j, 2))
  {
    hide Pixel, ChannelShuffle, Woven;
    var r := ChannelShuffle(j, 2);
    forall n, c, y, x | Inside(r, n, c, y, x)
      ensures Pixel(r, n, c, y, x) == Joint(p, q, n, Woven(c, (p.shape[1] + q.shape[1]) / 2), y, x)
    {
      WovenPixel(j, n, c, y, x);
    }
  }

  /** The upper branch: convolution and ReLU, depthwise convolution, convolution and ReLU. */
  ghost predicate IsBranch2(env: Env, b: Block, t: Tensor, a: Tensor, m: Tensor, r: Tensor)
    requires b.Shuffle? && b.Valid()
  {
    IsConv(env, b.u0, ReLU, t, a) && IsUnit(b.u1, a, m) && IsConv(env, b.u2, ReLU, m, r)
  }

  /** The lower branch of a block that halves the image: depthwise convolution, convolution and ReLU. */
  ghost predicate IsBranch1(env: Env, b: Block, t: Tensor, m: Tensor, r: Tensor)
    requires b.Shuffle? && b.Valid() && b.stride != 1
  {
    IsUnit(b.down.value.0, t, m) && IsConv(env, b.down.value.1, ReLU, m, r)
  }

  lemma Branch2Law(env: Env, b: Block, t: Tensor, r: Tensor)
    requires b.Shuffle? && b.Valid()
    ensures Branch2(env, b, t) == Some(r) <==> exists a, m :: IsBranch2(env, b, t, a, m, r)
  {
    hide Activate, RunUnit, IsConv, IsUnit;
    ActivateNone(env, ReLU);
    RunNone(b.u1);
    RunNone(b.u2);
    var a := Activate(env, ReLU, RunUnit(b.u0, Some(t)));
    if a.Some? {
      ActUnitLaw(env, b.u0, ReLU, t, a.value);
      var m := RunUnit(b.u1, a);
      if m.Some? {
        UnitLaw(b.u1, a.value, m.value);
        ActUnitLaw(env, b.u2, ReLU, m.value, r);
        assert Branch2(env, b, t) == Some(r) ==> IsBranch2(env, b, t, a.value, m.value, r);
      }
    }
    if a', m' :| IsBranch2(env, b, t, a', m', r) {
      ActUnitLaw(env, b.u0, ReLU, t, a');
      UnitLaw(b.u1, a', m');
      ActUnitLaw(env, b.u2, ReLU, m', r);
    }
  }

  lemma RunNone(u: Unit)
    requires u.Valid()
    ensures RunUnit(u, None) == None
  {
  }

  lemma Branch1Law(env: Env, b: Block, t: Tensor, r: Tensor)
    requires b.Shuffle? && b.Valid() && b.stride != 1
    ensures Branch1(env, b, t) == Some(r) <==> exists m :: IsBranch1(env, b, t, m, r)
  {
    hide Activate, RunUnit, IsConv, IsUnit;
    var (d0, d1) := b.down.value;
    ActivateNone(env, ReLU);
    RunNone(d1);
    var m := RunUnit(d0, Some(t));
    if m.Some? {
      UnitLaw(d0, t, m.value);
      ActUnitLaw(env, d1, ReLU, m.value, r);
      assert Branch1(env, b, t) == Some(r) ==> IsBranch1(env, b, t, m.value, r);
    }
    if m' :| IsBranch1(env, b, t, m', r) {
      UnitLaw(d0, t, m');
      ActUnitLaw(env, d1, ReLU, m', r);
    }
  }

  /** What a stride-one block weaves together: its lower channels as they are, and the branch of its upper channels. */
  ghost predicate WeavesHalves(env: Env, b: Block, t: Tensor, a: Tensor, m: Tensor, q: Tensor, r: Tensor)
    requires b.Shuffle? && b.Valid()
  {
    && IsImage(t) && t.shape[1] >= 2
    && var half := (t.shape[1] + 1) / 2;
       IsBranch2(env, b, Channels(t, half, t.shape[1]), a, m, q) && IsWoven(Channels(t, 0, half), q, r)
  }

  lemma ShuffleKeepLaw(env: Env, b: Block, t: Tensor, r: Tensor)
    requires b.Shuffle? && b.Valid() && b.stride == 1
    ensures Eval(env, b, One(t)) == Some(r) <==> exists a, m, q :: WeavesHalves(env, b, t, a, m, q, r)
  {
    hide Branch2, ShuffleTwo, CatPair, Channels, IsBranch2, IsWoven;
    if IsImage(t) && t.shape[1] >= 2 {
      var half := (t.shape[1] + 1) / 2;
      var p, z := Channels(t, 0, half), Branch2(env, b, Channels(t, half, t.shape[1]));
      WeaveNone(Some(p), z);
      assert Eval(env, b, One(t)) == ShuffleTwo(CatPair(Some(p), z));
      hide Eval;
      if Eval(env, b, One(t)) == Some(r) {
        Branch2Law(env, b, Channels(t, half, t.shape[1]), z.value);
        var a, m :| IsBranch2(env, b, Channels(t, half, t.shape[1]), a, m, z.value);
        WeaveLaw(p, z.value, r);
        assert WeavesHalves(env, b, t, a, m, z.value, r);
      }
      if a, m, q :| WeavesHalves(env, b, t, a, m, q, r) {
        Branch2Law(env, b, Channels(t, half, t.shape[1]), q);
        WeaveLaw(p, q, r);
      }
    }
  }

  lemma WeaveNone(p: Option<Tensor>, q: Option<Tensor>)
    ensures ShuffleTwo(CatPair(p, q)).Some? ==> p.Some? && q.Some?
  {
  }

  /** What a block that halves the image weaves together: its two branches. */
  ghost predicate WeavesBranches(env: Env, b: Block, t: Tensor, k: Tensor, p: Tensor, a: Tensor, m: Tensor, q: Tensor, r: Tensor)
    requires b.Shuffle? && b.Valid() && b.stride != 1
  {
    IsBranch1(env, b, t, k, p) && IsBranch2(env, b, t, a, m, q) && IsWoven(p, q, r)
  }

  lemma ShuffleDownLaw(env: Env, b: Block, t: Tensor, r: Tensor)
    requires b.Shuffle? && b.Valid() && b.stride != 1
    ensures Eval(env, b, One(t)) == Some(r) <==> exists k, p, a, m, q :: WeavesBranches(env, b, t, k, p, a, m, q, r)
  {
    hide Branch1, Branch2, ShuffleTwo, CatPair, IsBranch1, IsBranch2, IsWoven;
    var (u, v) := (Branch1(env, b, t), Branch2(env, b, t));
    WeaveNone(u, v);
    assert Eval(env, b, One(t)) == ShuffleTwo(CatPair(u, v));
    hide Eval;
    if Eval(env, b, One(t)) == Some(r) {
      Branch1Law(env, b, t, u.value);
      Branch2Law(env, b, t, v.value);
      var k :| IsBranch1(env, b, t, k, u.value);
      var a, m :| IsBranch2(env, b, t, a, m, v.value);
      WeaveLaw(u.value, v.value, r);
      assert WeavesBranches(env, b, t, k, u.value, a, m, v.value, r);
    }
    if k, p, a, m, q :| WeavesBranches(env, b, t, k, p, a, m, q, r) {
      Branch1Law(env, b, t, p);
      Branch2Law(env, b, t, q);
      WeaveLaw(p, q, r);
    }
  }

  lemma WovenHalves(p: Tensor, q: Tensor, r: Tensor, n: int, c: int, y: int, x: int)
    requires IsWoven(p, q, r) && IsImage(p) && IsImage(q) && p.shape[1] == q.shape[1] && Inside(p, n, c, y, x)
    ensures IsImage(r) && Inside(r, n, 2 * c, y, x) && Inside(r, n, 2 * c + 1, y, x) && Inside(q, n, c, y, x)
    ensures Pixel(r, n, 2 * c, y, x) == Pixel(p, n, c, y, x) && Pixel(r, n, 2 * c + 1, y, x) == Pixel(q, n, c, y, x)
  {
    hide Pixel;
    var h := (p.shape[1] + q.shape[1]) / 2;
    assert Woven(2 * c, h) == c && Woven(2 * c + 1, h) == h + c;
    assert Inside(r, n, 2 * c, y, x) && Inside(r, n, 2 * c + 1, y, x);
  }

  /**
   * A stride-one block with as many channels in its branch as it keeps: output channel 2c is input channel c, and output
   * channel 2c + 1 is channel c of the branch, computed from the upper half of the input.
   */
  lemma ShuffleKeeps(env: Env, b: Block, t: Tensor, r: Tensor) returns (a: Tensor, m: Tensor)
    requires b.Shuffle? && b.Valid() && b.stride == 1 && Eval(env, b, One(t)) == Some(r)
    requires IsImage(t) && t.shape[1] == 2 * b.u2.conv.outChannels
    ensures IsConv(env, b.u0, ReLU, Channels(t, t.shape[1] / 2, t.shape[1]), a) && IsUnit(b.u1, a, m) && IsImage(m)
    ensures IsImage(r) && r.shape == t.shape
    ensures forall n, c, y, x :: Inside(t, n, c, y, x) && c < t.shape[1] / 2 ==>
              && Pixel(r, n, 2 * c, y, x) == Pixel(t, n, c, y, x)
              && Pixel(r, n, 2 * c + 1, y, x) == env.act(ReLU, UnitAt(b.u2, m, n, c, y, x))
  {
    hide Pixel, UnitAt, Eval, Channels, IsWoven, IsConv, IsUnit;
    ShuffleKeepLaw(env, b, t, r);
    var q;
    a, m, q :| WeavesHalves(env, b, t, a, m, q, r);
    var p := Channels(t, 0, t.shape[1] / 2);
    UnitIsImage(b.u1, a, m);
    ConvIsImage(env, b.u2, ReLU, m, q);
    WovenIsImage(p, q, r);
    forall n, c, y, x | Inside(t, n, c, y, x) && c < t.shape[1] / 2
      ensures Pixel(r, n, 2 * c, y, x) == Pixel(t, n, c, y, x)
      ensures Pixel(r, n, 2 * c + 1, y, x) == env.act(ReLU, UnitAt(b.u2, m, n, c, y, x))
    {
      assert Inside(p, n, c, y, x);
      WovenHalves(p, q, r, n, c, y, x);
      ConvPixel(env, b.u2, ReLU, m, q, n, c, y, x);
    }
  }

  lemma ConvPixel(env: Env, u: Unit, act: Activation, t: Tensor, r: Tensor, n: int, o: int, y: int, x: int)
    requires u.Valid() && IsConv(env, u, act, t, r) && IsImage(t) && IsImage(r) && Inside(r, n, o, y, x)
    ensures Pixel(r, n, o, y, x) == env.act(act, UnitAt(u, t, n, o, y, x))
  {
    hide Pixel, UnitAt;
  }

  lemma ConvIsImage(env: Env, u: Unit, act: Activation, t: Tensor, r: Tensor)
    requires u.Valid() && IsConv(env, u, act, t, r)
    ensures IsImage(t) && IsImage(r) && r.shape[1] == u.conv.outChannels
  {
    hide Pixel, UnitAt;
  }

  lemma WovenIsImage(p: Tensor, q: Tensor, r: Tensor)
    requires IsWoven(p, q, r)
    ensures IsImage(p) && IsImage(q) && IsImage(r) && r.shape == JointShape(p, q)
  {
    hide Pixel;
  }

  lemma UnitIsImage(u: Unit, t: Tensor, r: Tensor)
    requires u.Valid() && IsUnit(u, t, r)
    ensures IsImage(t) && IsImage(r)
  {
  }

  /**
   * A block that halves the image, with as many channels in both branches: output channel 2c is channel c of the lower
   * branch, output channel 2c + 1 channel c of the upper one.
   */
  lemma ShuffleHalves(env: Env, b: Block, t: Tensor, r: Tensor) returns (k: Tensor, a: Tensor, m: Tensor)
    requires b.Shuffle? && b.Valid() && b.stride != 1 && Eval(env, b, One(t)) == Some(r)
    requires b.down.value.1.conv.outChannels == b.u2.conv.outChannels
    ensures IsUnit(b.down.value.0, t, k) && IsImage(k)
    ensures IsConv(env, b.u0, ReLU, t, a) && IsUnit(b.u1, a, m) && IsImage(m)
    ensures IsImage(r) && r.shape[1] == 2 * b.u2.conv.outChannels
    ensures forall n, c, y, x :: Inside(r, n, c, y, x) && c < r.shape[1] / 2 ==>
              && Pixel(r, n, 2 * c, y, x) == env.act(ReLU, UnitAt(b.down.value.1, k, n, c, y, x))
              && Pixel(r, n, 2 * c + 1, y, x) == env.act(ReLU, UnitAt(b.u2, m, n, c, y, x))
  {
    hide Pixel, UnitAt, Eval, IsWoven, IsConv, IsUnit;
    ShuffleDownLaw(env, b, t, r);
    var p, q;
    k, p, a, m, q :| WeavesBranches(env, b, t, k, p, a, m, q, r);
    UnitIsImage(b.u1, a, m);
    UnitIsImage(b.down.value.0, t, k);
    ConvIsImage(env, b.u2, ReLU, m, q);
    ConvIsImage(env, b.down.value.1, ReLU, k, p);
    WovenIsImage(p, q, r);
    forall n, c, y, x | Inside(r, n, c, y, x) && c < r.shape[1] / 2
      ensures Pixel(r, n, 2 * c, y, x) == env.act(ReLU, UnitAt(b.down.value.1, k, n, c, y, x))
      ensures Pixel(r, n, 2 * c + 1, y, x) == env.act(ReLU, UnitAt(b.u2, m, n, c, y, x))
    {
      assert Inside(p, n, c, y, x);
      WovenHalves(p, q, r, n, c, y, x);
      ConvPixel(env, b.down.value.1, ReLU, k, p, n, c, y, x);
      ConvPixel(env, b.u2, ReLU, m, q, n, c, y, x);
    }
  }

  // ----- blocks made of blocks -----

  /** Bottleneck: two blocks in a row, with a shortcut added pixel by pixel if there is one. */
  lemma BottleneckLaw(env: Env, cv1: Block, cv2: Block, shortcut: bool, t: Tensor, r: Tensor)
    requires cv1.Valid() && cv2.Valid()
    ensures Eval(env, Bottleneck(cv1, cv2, shortcut), One(t)) == Some(r) <==>
            exists a, z :: Eval(env, cv1, One(t)) == Some(a) && Eval(env, cv2, One(a)) == Some(z)
                           && if shortcut then IsSum(t, z, r) else r == z
  {
    var b := Bottleneck(cv1, cv2, shortcut);
    var a, z := Eval(env, cv1, One(t)), Then(env, cv2, Eval(env, cv1, One(t)));
    assert Eval(env, b, One(t)) == if shortcut then Network.Plus(Some(t), z) else z;
    assert z == if a.Some? then Eval(env, cv2, One(a.value)) else None;
    PlusNone(t);
    hide Eval, Then, IsSum, Network.Plus;
    if a.Some? && z.Some? { SumLaw(t, z.value, r); }
  }

  lemma PlusNone(t: Tensor)
    ensures Network.Plus(Some(t), None) == None
  {
  }

  lemma ThenIs(env: Env, b: Block, z: Option<Tensor>)
    requires b.Valid()
    ensures Then(env, b, z) == if z.Some? then Eval(env, b, One(z.value)) else None
  {
  }

  lemma C3Runs(env: Env, cv1: Block, cv2: Block, cv3: Block, m: Block, t: Tensor)
    requires cv1.Valid() && cv2.Valid() && cv3.Valid() && m.Valid()
    ensures Eval(env, C3(cv1, cv2, cv3, m), One(t))
         == Then(env, cv3, CatPair(Then(env, m, Eval(env, cv1, One(t))), Eval(env, cv2, One(t))))
  {
    hide Activate, RunUnit, RunShuffle, CatAll, CatPair, Network.Plus, PyramidMaps, ChainMaps, FocusPhases, Then, EvalAll;
    assert Eval(env, C3(cv1, cv2, cv3, m), One(t)) == EvalOne(env, C3(cv1, cv2, cv3, m), t);
    hide Eval;
  }

  /** C3: the chain of cv1 and m gives p, cv2 gives q, and cv3 gets their channels one after the other. */
  ghost predicate IsC3(env: Env, cv1: Block, cv2: Block, cv3: Block, m: Block, t: Tensor,
                       a: Tensor, p: Tensor, q: Tensor, j: Tensor, r: Tensor)
    requires cv1.Valid() && cv2.Valid() && cv3.Valid() && m.Valid()
  {
    && Eval(env, cv1, One(t)) == Some(a) && Eval(env, m, One(a)) == Some(p)
    && Eval(env, cv2, One(t)) == Some(q) && IsJoined(p, q, j) && Eval(env, cv3, One(j)) == Some(r)
  }

  lemma C3Law(env: Env, cv1: Block, cv2: Block, cv3: Block, m: Block, t: Tensor, r: Tensor)
    requires cv1.Valid() && cv2.Valid() && cv3.Valid() && m.Valid()
    ensures Eval(env, C3(cv1, cv2, cv3, m), One(t)) == Some(r) <==>
            exists a, p, q, j :: IsC3(env, cv1, cv2, cv3, m, t, a, p, q, j, r)
  {
    hide Eval, Then, IsJoined, CatPair;
    C3Runs(env, cv1, cv2, cv3, m, t);
    var a, q := Eval(env, cv1, One(t)), Eval(env, cv2, One(t));
    var p := Then(env, m, a);
    ThenIs(env, m, a);
    ThenIs(env, cv3, CatPair(p, q));
    PairSome(p, q);
    var j := CatPair(p, q);
    if j.Some? {
      JoinLaw(p.value, q.value, j.value);
      assert Then(env, cv3, j) == Some(r) ==> IsC3(env, cv1, cv2, cv3, m, t, a.value, p.value, q.value, j.value, r);
    }
    if a', p', q', j' :| IsC3(env, cv1, cv2, cv3, m, t, a', p', q', j', r) {
      JoinLaw(p', q', j');
    }
  }

  lemma PairSome(p: Option<Tensor>, q: Option<Tensor>)
    ensures CatPair(p, q).Some? ==> p.Some? && q.Some?
  {
  }

  /** The tensors between the blocks of a sequence: every block turns one into the next. */
  ghost predicate IsChain(env: Env, blocks: seq<Block>, zs: seq<Tensor>)
    requires forall i :: 0 <= i < |blocks| ==> blocks[i].Valid()
  {
    |zs| == |blocks| + 1 && forall i :: 0 <= i < |blocks| ==> Eval(env, blocks[i], One(zs[i])) == Some(zs[i + 1])
  }

  lemma {:induction false} ChainOut(env: Env, blocks: seq<Block>, t: Tensor) returns (zs: seq<Tensor>)
    requires (forall i :: 0 <= i < |blocks| ==> blocks[i].Valid()) && EvalAll(env, blocks, t).Some?
    ensures IsChain(env, blocks, zs) && zs[0] == t && Some(zs[|blocks|]) == EvalAll(env, blocks, t)
  {
    if blocks == [] {
      zs := [t];
    } else {
      var z := Eval(env, blocks[0], One(t)).value;
      var rest := ChainOut(env, blocks[1..], z);
      hide Eval, EvalAll;
      zs := [t] + rest;
      forall i | 0 <= i < |blocks| ensures Eval(env, blocks[i], One(zs[i])) == Some(zs[i + 1]) {
        if i > 0 { assert blocks[i] == blocks[1..][i - 1] && zs[i] == rest[i - 1]; }
      }
    }
  }

  lemma {:induction false} ChainIn(env: Env, blocks: seq<Block>, zs: seq<Tensor>)
    requires (forall i :: 0 <= i < |blocks| ==> blocks[i].Valid()) && IsChain(env, blocks, zs)
    ensures EvalAll(env, blocks, zs[0]) == Some(zs[|blocks|])
  {
    if blocks != [] {
      assert Eval(env, blocks[0], One(zs[0])) == Some(zs[1]);
      var (tail, rest) := (blocks[1..], zs[1..]);
      forall i | 0 <= i < |tail| ensures Eval(env, tail[i], One(rest[i])) == Some(rest[i + 1]) {
        assert tail[i] == blocks[i + 1] && rest[i] == zs[i + 1] && rest[i + 1] == zs[i + 2];
      }
      ChainIn(env, tail, rest);
    }
  }

  /** nn.Sequential: one block after the other, each on the output of the one before. */
  lemma PipelineLaw(env: Env, blocks: seq<Block>, t: Tensor, r: Tensor)
    requires forall i :: 0 <= i < |blocks| ==> blocks[i].Valid()
    ensures Eval(env, Pipeline(blocks), One(t)) == Some(r) <==>
            exists zs :: IsChain(env, blocks, zs) && zs[0] == t && zs[|blocks|] == r
  {
    assert Eval(env, Pipeline(blocks), One(t)) == EvalAll(env, blocks, t);
    hide Eval, EvalAll;
    if EvalAll(env, blocks, t) == Some(r) {
      var zs := ChainOut(env, blocks, t);
    }
    if zs :| IsChain(env, blocks, zs) && zs[0] == t && zs[|blocks|] == r {
      ChainIn(env, blocks, zs);
    }
  }

  // ----- pyramid pooling, focus and concatenation -----

  /** v is the largest pixel of channel c within distance k of (y, x). */
  ghost predicate IsPeak(t: Tensor, k: nat, n: int, c: int, y: int, x: int, v: real)
    requires IsImage(t)
  {
    && (forall y', x' :: Inside(t, n, c, y', x') && y - k <= y' <= y + k && x - k <= x' <= x + k ==> Pixel(t, n, c, y', x') <= v)
    && (exists y', x' :: Inside(t, n, c, y', x') && y - k <= y' <= y + k && x - k <= x' <= x + k && Pixel(t, n, c, y', x') == v)
  }

  lemma PoolIsPeak(t: Tensor, k: nat, n: int, c: int, y: int, x: int)
    requires IsImage(t) && Inside(t, n, c, y, x)
    ensures IsPeak(t, k, n, c, y, x, Pixel(Pool(t, k), n, c, y, x))
  {
    hide Pixel, Pool;
    forall y', x' | Inside(t, n, c, y', x') && y - k <= y' <= y + k && x - k <= x' <= x + k
      ensures Pixel(t, n, c, y', x') <= Pixel(Pool(t, k), n, c, y, x)
    {
      PoolBounds(t, k, n, c, y, x, y', x');
    }
    var y', x' := PoolAttained(t, k, n, c, y, x);
  }

  /** Map i of the pyramid: the image itself, then for every kernel its windows' largest pixels. */
  ghost predicate IsPyramid(z: Tensor, kernels: seq<nat>, j: Tensor) {
    && IsImage(z) && IsImage(j)
    && j.shape == [z.shape[0], (|kernels| + 1) * z.shape[1], z.shape[2], z.shape[3]]
    && (forall n, c, y, x :: Inside(z, n, c, y, x) ==> Pixel(j, n, c, y, x) == Pixel(z, n, c, y, x))
    && (forall i, n, c, y, x :: 0 <= i < |kernels| && Inside(z, n, c, y, x) ==> ShowsPeak(z, kernels[i] / 2, j, i, n, c, y, x))
  }

  ghost predicate ShowsPeak(z: Tensor, k: nat, j: Tensor, i: int, n: int, c: int, y: int, x: int)
    requires IsImage(z) && IsImage(j)
  {
    IsPeak(z, k, n, c, y, x, Pixel(j, n, (i + 1) * z.shape[1] + c, y, x))
  }

  lemma {:induction false} EqualChannels(ts: seq<Tensor>, i: nat, c: nat)
    requires i <= |ts| && forall k :: 0 <= k < |ts| ==> IsImage(ts[k]) && ts[k].shape[1] == c
    ensures ChannelsBefore(ts, i) == i * c
  {
    if i > 0 {
      EqualChannels(ts, i - 1, c);
      assert (i - 1) * c + c == i * c;
    }
  }

  lemma MapsAlike(z: Tensor, kernels: seq<nat>)
    requires IsImage(z)
    ensures var maps := PyramidMaps(z, kernels);
            && Alike(maps) && maps[0] == z && (forall k :: 0 <= k < |maps| ==> IsImage(maps[k]) && maps[k].shape == z.shape)
            && forall k :: 0 <= k < |kernels| ==> maps[k + 1] == Pool(z, kernels[k] / 2)
  {
    hide Pool;
  }

  lemma PyramidMade(z: Tensor, kernels: seq<nat>)
    requires IsImage(z)
    ensures CatAll(PyramidMaps(z, kernels)).Some? && IsPyramid(z, kernels, CatAll(PyramidMaps(z, kernels)).value)
  {
    hide Pixel, Pool, CatAll, PyramidMaps, IsPeak;
    MapsAlike(z, kernels);
    var maps := PyramidMaps(z, kernels);
    CatAllShape(maps);
    EqualChannels(maps, |maps|, z.shape[1]);
    var j := CatAll(maps).value;
    forall n, c, y, x | Inside(z, n, c, y, x) ensures Pixel(j, n, c, y, x) == Pixel(z, n, c, y, x) {
      CatAllPixel(maps, 0, n, c, y, x);
      assert ChannelsBefore(maps, 0) == 0;
    }
    forall i, n, c, y, x | 0 <= i < |kernels| && Inside(z, n, c, y, x) ensures ShowsPeak(z, kernels[i] / 2, j, i, n, c, y, x) {
      EqualChannels(maps, i + 1, z.shape[1]);
      assert Inside(maps[i + 1], n, c, y, x);
      CatAllPixel(maps, i + 1, n, c, y, x);
      PoolIsPeak(z, kernels[i] / 2, n, c, y, x);
    }
  }

  /** SPP: the image and the largest pixels of its windows, one kernel after the other, between two convolutions. */
  lemma SppLaw(env: Env, cv1: Block, cv2: Block, kernels: seq<nat>, t: Tensor) returns (j: Tensor)
    requires cv1.Valid() && cv2.Valid()
    ensures var z := Eval(env, cv1, One(t));
            if z.Some? && IsImage(z.value) && forall i :: 0 <= i < |kernels| ==> kernels[i] % 2 == 1 then
              IsPyramid(z.value, kernels, j) && Eval(env, Spp(cv1, cv2, kernels), One(t)) == Eval(env, cv2, One(j))
            else Eval(env, Spp(cv1, cv2, kernels), One(t)) == None
  {
    var z := Eval(env, cv1, One(t));
    var r := Eval(env, Spp(cv1, cv2, kernels), One(t));
    assert r == EvalOne(env, Spp(cv1, cv2, kernels), t);
    j := t;
    if z.Some? && IsImage(z.value) && Odd(kernels) {
      SppRuns(env, cv1, cv2, kernels, t);
      hide IsPyramid, CatAll, PyramidMaps, Eval, EvalOne;
      PyramidMade(z.value, kernels);
      j := CatAll(PyramidMaps(z.value, kernels)).value;
    }
  }

  /** Focus: channel block b holds the pixels of row parity b % 2 and column parity b / 2. */
  ghost predicate IsFocus(t: Tensor, j: Tensor) {
    && IsImage(t) && IsImage(j) && t.shape[2] % 2 == 0 && t.shape[3] % 2 == 0
    && j.shape == [t.shape[0], 4 * t.shape[1], t.shape[2] / 2, t.shape[3] / 2]
    && forall n, b, c, y, x :: 0 <= n < t.shape[0] && 0 <= b < 4 && 0 <= c < t.shape[1] && 0 <= y < t.shape[2] / 2 && 0 <= x < t.shape[3] / 2
         ==> IsPhase(t, j, n, b, c, y, x)
  }

  predicate IsPhase(t: Tensor, j: Tensor, n: int, b: int, c: int, y: int, x: int)
    requires IsImage(t) && IsImage(j)
  {
    Pixel(j, n, b * t.shape[1] + c, y, x) == Pixel(t, n, c, 2 * y + b % 2, 2 * x + b / 2)
  }

  lemma FocusLaw(env: Env, cv: Block, t: Tensor) returns (j: Tensor)
    requires cv.Valid()
    ensures if IsImage(t) && t.shape[2] % 2 == 0 && t.shape[3] % 2 == 0 then
              IsFocus(t, j) && Eval(env, Focus(cv), One(t)) == Eval(env, cv, One(j))
            else Eval(env, Focus(cv), One(t)) == None
  {
    hide IsFocus, FocusPhases;
    assert Eval(env, Focus(cv), One(t)) == EvalOne(env, Focus(cv), t);
    hide Eval;
    j := t;
    if IsImage(t) && t.shape[2] % 2 == 0 && t.shape[3] % 2 == 0 {
      j := FocusPhases(t);
      FocusMade(t);
    }
  }

  lemma FocusMade(t: Tensor)
    requires IsImage(t) && Divides(2, t.shape[2]) && Divides(2, t.shape[3])
    ensures IsFocus(t, FocusPhases(t))
  {
    hide Pixel, FocusPhases;
    var j := FocusPhases(t);
    forall n, b, c, y, x | 0 <= n < t.shape[0] && 0 <= b < 4 && 0 <= c < t.shape[1] && 0 <= y < t.shape[2] / 2 && 0 <= x < t.shape[3] / 2
      ensures IsPhase(t, j, n, b, c, y, x)
    {
      FocusPixel(t, n, b, c, y, x);
    }
  }

  /** Concat: channel c of argument i comes after the channels of the arguments before it. */
  lemma ConcatLaw(env: Env, ts: seq<Tensor>, i: nat, n: int, c: int, y: int, x: int)
    requires i < |ts| && IsImage(ts[i]) && Inside(ts[i], n, c, y, x)
    ensures Eval(env, Concat, Many(ts)).Some? <==> Alike(ts)
    ensures Alike(ts) ==> var r := Eval(env, Concat, Many(ts)).value;
              IsImage(r) && Pixel(r, n, ChannelsBefore(ts, i) + c, y, x) == Pixel(ts[i], n, c, y, x)
  {
    hide Pixel, CatAll;
    CatAllShape(ts);
    if Alike(ts) { CatAllPixel(ts, i, n, c, y, x); }
  }

  // ----- a run of layers -----

  /** What index f means to layer number i: the output just before it, or output f counted from the start or the end. */
  predicate Denotes(input: Tensor, ys: seq<Tensor>, i: nat, f: int, t: Tensor)
    requires i <= |ys|
  {
    if f == -1 then t == (if i == 0 then input else ys[i - 1])
    else if f >= 0 then f < i && t == ys[f]
    else i + f >= 0 && t == ys[i + f]
  }

  /** The argument of layer number i: one tensor for one index, a list for a list. */
  predicate Given(input: Tensor, ys: seq<Tensor>, i: nat, from: From, a: Arg)
    requires i <= |ys|
  {
    match from
    case Single(f) => a.One? && Denotes(input, ys, i, f, a.t)
    case List(fs) => a.Many? && |a.ts| == |fs| && forall j :: 0 <= j < |fs| ==> Denotes(input, ys, i, fs[j], a.ts[j])
  }

  lemma LookupLaw(input: Tensor, ys: seq<Tensor>, i: nat, f: int, t: Tensor)
    requires i <= |ys|
    ensures Lookup(ys[..i], Latest(input, ys[..i]), f) == Done(t) <==> Denotes(input, ys, i, f, t)
  {
  }

  lemma {:induction false} LookupAllLaw(input: Tensor, ys: seq<Tensor>, i: nat, fs: seq<int>, ts: seq<Tensor>)
    requires i <= |ys|
    ensures LookupAll(ys[..i], Latest(input, ys[..i]), fs) == Done(ts) <==>
            |ts| == |fs| && forall j :: 0 <= j < |fs| ==> Denotes(input, ys, i, fs[j], ts[j])
  {
    hide Denotes, Lookup, Latest;
    if fs != [] {
      var n, x := |fs| - 1, Latest(input, ys[..i]);
      var before, last := LookupAll(ys[..i], x, fs[..n]), Lookup(ys[..i], x, fs[n]);
      if |ts| == |fs| {
        LookupAllLaw(input, ys, i, fs[..n], ts[..n]);
        LookupLaw(input, ys, i, fs[n], ts[n]);
        assert ts == ts[..n] + [ts[n]];
      }
      if before.Done? && last.Done? {
        LookupAllLaw(input, ys, i, fs[..n], before.value);
      }
    }
  }

  lemma InputLaw(input: Tensor, ys: seq<Tensor>, i: nat, from: From, a: Arg)
    requires i <= |ys|
    ensures Input(ys[..i], Latest(input, ys[..i]), from) == Done(a) <==> Given(input, ys, i, from, a)
  {
    hide Denotes, Lookup, LookupAll, Latest;
    match from
    case Single(f) => if a.One? { LookupLaw(input, ys, i, f, a.t); }
    case List(fs) => if a.Many? { LookupAllLaw(input, ys, i, fs, a.ts); }
  }

  /** Layer i turns its argument into output i. */
  ghost predicate Produces(env: Env, layers: seq<Layer>, input: Tensor, ys: seq<Tensor>, i: nat)
    requires ValidLayers(layers) && i < |layers| && i < |ys|
  {
    exists a :: Given(input, ys, i, layers[i].from, a) && Eval(env, layers[i].block, a) == Some(ys[i])
  }

  /** The outputs of a run are the lists in which every layer turns what its indices denote into its output. */
  lemma {:induction false} RunLaw(env: Env, layers: seq<Layer>, input: Tensor, n: nat, ys: seq<Tensor>)
    requires ValidLayers(layers) && n <= |layers|
    ensures DenseRun(env, layers, input, n) == Done(ys) <==>
            |ys| == n && forall i :: 0 <= i < n ==> Produces(env, layers, input, ys, i)
  {
    hide Eval, Input, Given, Latest;
    if n > 0 && |ys| == n {
      var (m, before) := (n - 1, ys[..n - 1]);
      RunLaw(env, layers, input, m, before);
      forall i | 0 <= i < m ensures Produces(env, layers, input, before, i) <==> Produces(env, layers, input, ys, i) {
        ProducesPrefix(env, layers, input, ys, m, i);
      }
      assert ys == before + [ys[m]];
      var r := DenseRun(env, layers, input, m);
      if r == Done(before) {
        StepLaw(env, layers, input, m, ys);
      } else if r.Done? {
        forall t ensures r.value + [t] != ys { assert (r.value + [t])[..m] == r.value; }
      }
    }
  }

  lemma ProducesPrefix(env: Env, layers: seq<Layer>, input: Tensor, ys: seq<Tensor>, m: nat, i: nat)
    requires ValidLayers(layers) && i < m <= |layers| && m <= |ys|
    ensures Produces(env, layers, input, ys[..m], i) <==> Produces(env, layers, input, ys, i)
  {
    hide Eval;
    forall a ensures Given(input, ys[..m], i, layers[i].from, a) <==> Given(input, ys, i, layers[i].from, a) {
      assert ys[..m][..i] == ys[..i];
      InputLaw(input, ys[..m], i, layers[i].from, a);
      InputLaw(input, ys, i, layers[i].from, a);
    }
  }

  lemma StepLaw(env: Env, layers: seq<Layer>, input: Tensor, m: nat, ys: seq<Tensor>)
    requires ValidLayers(layers) && m < |layers| && |ys| == m + 1 && DenseRun(env, layers, input, m) == Done(ys[..m])
    ensures DenseRun(env, layers, input, m + 1) == Done(ys) <==> Produces(env, layers, input, ys, m)
  {
    hide Eval, Input, Given, Latest;
    var before := ys[..m];
    assert ys == before + [ys[m]];
    var a := Input(before, Latest(input, before), layers[m].from);
    if a.Done? { InputLaw(input, ys, m, layers[m].from, a.value); }
    if b :| Given(input, ys, m, layers[m].from, b) && Eval(env, layers[m].block, b) == Some(ys[m]) {
      InputLaw(input, ys, m, layers[m].from, b);
    }
  }

  /** The answer of a network: its last output, or its input if it has no layers. */
  lemma OutputLaw(env: Env, layers: seq<Layer>, input: Tensor, out: Tensor)
    requires ValidLayers(layers)
    ensures DenseOutput(env, layers, input) == Done(out) <==>
            exists ys: seq<Tensor> :: && |ys| == |layers| && (forall i :: 0 <= i < |ys| ==> Produces(env, layers, input, ys, i))
                                      && out == if ys == [] then input else ys[|ys| - 1]
  {
    hide DenseRun, Produces;
    var r := DenseRun(env, layers, input, |layers|);
    if r.Done? { RunLaw(env, layers, input, |layers|, r.value); }
    if ys: seq<Tensor> :| && |ys| == |layers| && (forall i :: 0 <= i < |ys| ==> Produces(env, layers, input, ys, i))
                          && out == if ys == [] then input else ys[|ys| - 1]
    {
      RunLaw(env, layers, input, |layers|, ys);
    }
  }
}
