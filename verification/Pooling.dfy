/** Stride-one max pooling, and the two spatial pyramid layers built from it. */
module Pooling {
  import opened Numbers
  import opened Tensors

  /** A rectangle of pixels inside one channel of an image. */
  datatype Window = Window(top: int, bottom: int, left: int, right: int) {
    predicate Has(y: int, x: int) {
      top <= y <= bottom && left <= x <= right
    }
  }

  /** The pixels a (2r+1) x (2r+1) kernel meets at (y, x): padding with minus infinity clips the window. */
  function WindowAt(t: Tensor, r: nat, y: int, x: int): Window
    requires IsImage(t)
  {
    Window(Max(0, y - r), Min(t.shape[2] as int - 1, y + r), Max(0, x - r), Min(t.shape[3] as int - 1, x + r))
  }

  function RowMax(t: Tensor, n: nat, c: nat, y: int, left: int, right: int): real
    requires IsImage(t) && left <= right
    decreases right - left
  {
    if left == right then Pixel(t, n, c, y, left)
    else
      var m := RowMax(t, n, c, y, left, right - 1);
      if m < Pixel(t, n, c, y, right) then Pixel(t, n, c, y, right) else m
  }

  function WindowMax(t: Tensor, n: nat, c: nat, w: Window): real
    requires IsImage(t) && w.top <= w.bottom && w.left <= w.right
    decreases w.bottom - w.top
  {
    var last := RowMax(t, n, c, w.bottom, w.left, w.right);
    if w.top == w.bottom then last
    else
      var m := WindowMax(t, n, c, w.(bottom := w.bottom - 1));
      if m < last then last else m
  }

  lemma {:induction false} RowMaxIsMax(t: Tensor, n: nat, c: nat, y: int, left: int, right: int)
    requires IsImage(t) && left <= right
    ensures forall x :: left <= x <= right ==> Pixel(t, n, c, y, x) <= RowMax(t, n, c, y, left, right)
    ensures exists x :: left <= x <= right && Pixel(t, n, c, y, x) == RowMax(t, n, c, y, left, right)
    decreases right - left
  {
    hide Pixel;
    if left == right {
      assert Pixel(t, n, c, y, left) == RowMax(t, n, c, y, left, right);
    } else {
      RowMaxIsMax(t, n, c, y, left, right - 1);
      if RowMax(t, n, c, y, left, right - 1) < Pixel(t, n, c, y, right) {
        assert Pixel(t, n, c, y, right) == RowMax(t, n, c, y, left, right);
      }
    }
  }

  /** The window maximum bounds the window and is attained in it. */
  lemma {:induction false} WindowMaxIsMax(t: Tensor, n: nat, c: nat, w: Window)
    requires IsImage(t) && w.top <= w.bottom && w.left <= w.right
    ensures forall y, x :: w.Has(y, x) ==> Pixel(t, n, c, y, x) <= WindowMax(t, n, c, w)
    ensures exists y, x :: w.Has(y, x) && Pixel(t, n, c, y, x) == WindowMax(t, n, c, w)
    decreases w.bottom - w.top
  {
    hide Pixel, RowMax;
    RowMaxIsMax(t, n, c, w.bottom, w.left, w.right);
    var x0 :| w.left <= x0 <= w.right && Pixel(t, n, c, w.bottom, x0) == RowMax(t, n, c, w.bottom, w.left, w.right);
    assert w.Has(w.bottom, x0);
    if w.top < w.bottom {
      var v := w.(bottom := w.bottom - 1);
      WindowMaxIsMax(t, n, c, v);
      var y1, x1 :| v.Has(y1, x1) && Pixel(t, n, c, y1, x1) == WindowMax(t, n, c, v);
      assert w.Has(y1, x1);
      forall y, x | w.Has(y, x) ensures Pixel(t, n, c, y, x) <= WindowMax(t, n, c, w) {
        assert y < w.bottom ==> v.Has(y, x);
      }
    }
  }

  function PoolAt(t: Tensor, r: nat, n: int, c: int, y: int, x: int): real
    requires IsImage(t)
  {
    if Inside(t, n, c, y, x) then WindowMax(t, n, c, WindowAt(t, r, y, x)) else 0.0
  }

  /** nn.MaxPool2d(kernel_size = 2r + 1, stride = 1, padding = r). */
  function Pool(t: Tensor, r: nat): (p: Tensor)
    requires IsImage(t)
    ensures IsImage(p) && p.shape == t.shape
  {
    Like(t, (n, c, y, x) => PoolAt(t, r, n, c, y, x))
  }

  lemma PoolPixel(t: Tensor, r: nat, n: int, c: int, y: int, x: int)
    requires IsImage(t) && Inside(t, n, c, y, x)
    ensures Pixel(Pool(t, r), n, c, y, x) == WindowMax(t, n, c, WindowAt(t, r, y, x))
  {
  }

  /** Every pixel within distance r bounds the pooled value from below ... */
  lemma PoolBounds(t: Tensor, r: nat, n: int, c: int, y: int, x: int, y': int, x': int)
    requires IsImage(t) && Inside(t, n, c, y, x) && Inside(t, n, c, y', x')
    requires y - r <= y' <= y + r && x - r <= x' <= x + r
    ensures Pixel(t, n, c, y', x') <= Pixel(Pool(t, r), n, c, y, x)
  {
    hide Pixel, WindowMax, Pool;
    PoolPixel(t, r, n, c, y, x);
    WindowMaxIsMax(t, n, c, WindowAt(t, r, y, x));
    assert WindowAt(t, r, y, x).Has(y', x');
  }

  /** ... and one of them equals it. */
  lemma PoolAttained(t: Tensor, r: nat, n: int, c: int, y: int, x: int) returns (y': int, x': int)
    requires IsImage(t) && Inside(t, n, c, y, x)
    ensures Inside(t, n, c, y', x') && y - r <= y' <= y + r && x - r <= x' <= x + r
    ensures Pixel(t, n, c, y', x') == Pixel(Pool(t, r), n, c, y, x)
  {
    hide Pixel, WindowMax, Pool;
    PoolPixel(t, r, n, c, y, x);
    var w := WindowAt(t, r, y, x);
    WindowMaxIsMax(t, n, c, w);
    y', x' :| w.Has(y', x') && Pixel(t, n, c, y', x') == WindowMax(t, n, c, w);
  }

  /** A step from y towards target of length at most b. */
  function Towards(y: int, target: int, b: nat): int {
    Max(y - b, Min(y + b, target))
  }

  /** Clipped windows compose: pooling with radius a and then b is pooling with radius a + b. */
  lemma PoolCompose(t: Tensor, a: nat, b: nat)
    requires IsImage(t)
    ensures Pool(Pool(t, a), b) == Pool(t, a + b)
  {
    hide Pixel, Pool;
    var mid, two, one := Pool(t, a), Pool(Pool(t, a), b), Pool(t, a + b);
    forall n, c, y, x | Inside(two, n, c, y, x) ensures Pixel(two, n, c, y, x) == Pixel(one, n, c, y, x) {
      var y1, x1 := PoolAttained(mid, b, n, c, y, x);
      var y2, x2 := PoolAttained(t, a, n, c, y1, x1);
      PoolBounds(t, a + b, n, c, y, x, y2, x2);
      var y3, x3 := PoolAttained(t, a + b, n, c, y, x);
      var y4, x4 := Towards(y, y3, b), Towards(x, x3, b);
      PoolBounds(t, a, n, c, y4, x4, y3, x3);
      PoolBounds(mid, b, n, c, y, x, y4, x4);
    }
    ImagesEqual(two, one);
  }

  /** The maps SPP concatenates: the input and one parallel pool per kernel size. */
  function PyramidMaps(t: Tensor, kernels: seq<nat>): (maps: seq<Tensor>)
    requires IsImage(t)
    ensures |maps| == |kernels| + 1
  {
    [t] + seq(|kernels|, i requires 0 <= i < |kernels| => Pool(t, kernels[i] / 2))
  }

  /** The maps SPPF concatenates: one pool applied three times in a chain. */
  function ChainMaps(t: Tensor, kernel: nat): (maps: seq<Tensor>)
    requires IsImage(t)
    ensures |maps| == 4
  {
    var y1 := Pool(t, kernel / 2);
    var y2 := Pool(y1, kernel / 2);
    [t, y1, y2, Pool(y2, kernel / 2)]
  }

  /** SPPF with an odd kernel k gives the maps of SPP with kernels k, 2k - 1 and 3k - 2 on every image. */
  lemma ChainIsPyramid(t: Tensor, k: nat)
    requires IsImage(t) && k % 2 == 1
    ensures ChainMaps(t, k) == PyramidMaps(t, [k, 2 * k - 1, 3 * k - 2])
  {
    hide Pool;
    var r := k / 2;
    PoolCompose(t, r, r);
    PoolCompose(t, r + r, r);
    assert (2 * k - 1) / 2 == r + r && (3 * k - 2) / 2 == r + r + r;
    assert [k, 2 * k - 1, 3 * k - 2][0] == k;
  }
}
