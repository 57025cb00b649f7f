/** Dense tensors stored row-major, the layout `view` and `contiguous` rely on. */
module Tensors {
  import opened Numbers
  import opened Wrappers

  datatype Tensor = Tensor(shape: seq<nat>, data: seq<real>) {
    predicate Valid() {
      |data| == Size(shape)
    }
  }

  function Size(shape: seq<nat>): nat {
    if shape == [] then 1 else shape[0] * Size(shape[1..])
  }

  predicate InBounds(shape: seq<nat>, idx: seq<nat>) {
    |idx| == |shape| && forall d :: 0 <= d < |idx| ==> idx[d] < shape[d]
  }

  /** Position of a multi-index in the row-major data. */
  function Offset(shape: seq<nat>, idx: seq<nat>): (k: nat)
    requires InBounds(shape, idx)
    ensures k < Size(shape)
  {
    if shape == [] then 0 else
      var rest := Offset(shape[1..], idx[1..]);
      assert idx[0] * Size(shape[1..]) + rest < shape[0] * Size(shape[1..]) by {
        MulStep(idx[0], shape[0], Size(shape[1..]));
      }
      idx[0] * Size(shape[1..]) + rest
  }

  /** The multi-index stored at a position: the inverse of Offset. */
  function Unravel(shape: seq<nat>, k: nat): (idx: seq<nat>)
    requires k < Size(shape)
    ensures InBounds(shape, idx)
  {
    if shape == [] then [] else
      var s := Size(shape[1..]);
      DivModBounds(k, shape[0], s);
      [k / s] + Unravel(shape[1..], k % s)
  }

  lemma {:induction false} OffsetUnravel(shape: seq<nat>, k: nat)
    requires k < Size(shape)
    ensures Offset(shape, Unravel(shape, k)) == k
  {
    if shape != [] {
      var s := Size(shape[1..]);
      DivModBounds(k, shape[0], s);
      OffsetUnravel(shape[1..], k % s);
      assert Unravel(shape, k)[1..] == Unravel(shape[1..], k % s);
    }
  }

  lemma {:induction false} UnravelOffset(shape: seq<nat>, idx: seq<nat>)
    requires InBounds(shape, idx)
    ensures Unravel(shape, Offset(shape, idx)) == idx
  {
    if shape != [] {
      var s := Size(shape[1..]);
      UnravelOffset(shape[1..], idx[1..]);
      DivModUnique(idx[0], Offset(shape[1..], idx[1..]), s);
    }
  }

  function At(t: Tensor, idx: seq<nat>): real
    requires t.Valid() && InBounds(t.shape, idx)
  {
    t.data[Offset(t.shape, idx)]
  }

  /** The tensor of a given shape whose elements are given by index. */
  function Make(shape: seq<nat>, f: seq<nat> -> real): (t: Tensor)
    ensures t.Valid() && t.shape == shape
    ensures forall idx :: InBounds(shape, idx) ==> At(t, idx) == f(idx)
  {
    var t := Tensor(shape, seq(Size(shape), k requires 0 <= k < Size(shape) => f(Unravel(shape, k))));
    assert forall idx :: InBounds(shape, idx) ==> At(t, idx) == f(idx) by {
      forall idx | InBounds(shape, idx) ensures At(t, idx) == f(idx) { UnravelOffset(shape, idx); }
    }
    t
  }

  lemma Extensional(a: Tensor, b: Tensor)
    requires a.Valid() && b.Valid() && a.shape == b.shape
    requires forall idx :: InBounds(a.shape, idx) ==> At(a, idx) == At(b, idx)
    ensures a == b
  {
    forall k | 0 <= k < |a.data| ensures a.data[k] == b.data[k] {
      var idx := Unravel(a.shape, k);
      OffsetUnravel(a.shape, k);
      assert At(a, idx) == At(b, idx);
    }
  }

  // ----- images: four-dimensional tensors (batch, channel, row, column) -----

  predicate IsImage(t: Tensor) {
    |t.shape| == 4 && |t.data| == Size(t.shape)
  }

  predicate Inside(t: Tensor, n: int, c: int, y: int, x: int)
    requires IsImage(t)
  {
    0 <= n < t.shape[0] && 0 <= c < t.shape[1] && 0 <= y < t.shape[2] && 0 <= x < t.shape[3]
  }

  /** A pixel, or 0 outside the image: what a zero-padded operator reads. */
  function Pixel(t: Tensor, n: int, c: int, y: int, x: int): real
    requires IsImage(t)
  {
    if Inside(t, n, c, y, x)
    then ImageOffsetIsOffset(t.shape, n, c, y, x);
         t.data[((n * t.shape[1] + c) * t.shape[2] + y) * t.shape[3] + x]
    else 0.0
  }

  lemma ImageOffsetIsOffset(shape: seq<nat>, n: nat, c: nat, y: nat, x: nat)
    requires |shape| == 4 && n < shape[0] && c < shape[1] && y < shape[2] && x < shape[3]
    ensures InBounds(shape, [n, c, y, x])
    ensures Offset(shape, [n, c, y, x]) == ((n * shape[1] + c) * shape[2] + y) * shape[3] + x
  {
    var idx := [n, c, y, x];
    var s3, s2, s1 := shape[1..], shape[2..], shape[3..];
    assert shape[1..][1..] == s2 && s2[1..] == s1 && s1[1..] == [];
    assert idx[1..] == [c, y, x] && idx[2..] == [y, x] && idx[3..] == [x];
    assert Offset([], []) == 0 && Size([]) == 1;
    assert Offset(s1, [x]) == x && Size(s1) == shape[3];
    assert Offset(s2, [y, x]) == y * shape[3] + x && Size(s2) == shape[2] * shape[3] by {
      assert [y, x][1..] == [x];
    }
    assert Offset(s3, [c, y, x]) == c * (shape[2] * shape[3]) + (y * shape[3] + x)
        && Size(s3) == shape[1] * (shape[2] * shape[3]) by {
      assert [c, y, x][1..] == [y, x];
    }
    Horner(n, c, y, x, shape[1], shape[2], shape[3]);
  }

  lemma Horner(n: int, c: int, y: int, x: int, d1: int, d2: int, d3: int)
    ensures n * (d1 * (d2 * d3)) + (c * (d2 * d3) + (y * d3 + x)) == ((n * d1 + c) * d2 + y) * d3 + x
  {
  }

  lemma PixelAt(t: Tensor, n: nat, c: nat, y: nat, x: nat)
    requires IsImage(t) && Inside(t, n, c, y, x)
    ensures InBounds(t.shape, [n, c, y, x]) && Pixel(t, n, c, y, x) == At(t, [n, c, y, x])
  {
    ImageOffsetIsOffset(t.shape, n, c, y, x);
  }

  function Image(n: nat, c: nat, h: nat, w: nat, f: (int, int, int, int) -> real): (t: Tensor)
    ensures IsImage(t) && t.shape == [n, c, h, w]
    ensures forall i, j, y, x :: Inside(t, i, j, y, x) ==> Pixel(t, i, j, y, x) == f(i, j, y, x)
  {
    var t := Make([n, c, h, w], (idx: seq<nat>) => if |idx| == 4 then f(idx[0], idx[1], idx[2], idx[3]) else 0.0);
    assert forall i, j, y, x :: Inside(t, i, j, y, x) ==> Pixel(t, i, j, y, x) == f(i, j, y, x) by {
      forall i, j, y, x | Inside(t, i, j, y, x) ensures Pixel(t, i, j, y, x) == f(i, j, y, x) {
        PixelAt(t, i, j, y, x);
      }
    }
    t
  }

  /** The image of the same shape as t with elements given by index. */
  function Like(t: Tensor, f: (int, int, int, int) -> real): (r: Tensor)
    requires IsImage(t)
    ensures IsImage(r) && r.shape == t.shape
    ensures forall i, j, y, x :: Inside(r, i, j, y, x) ==> Pixel(r, i, j, y, x) == f(i, j, y, x)
  {
    assert t.shape == [t.shape[0], t.shape[1], t.shape[2], t.shape[3]];
    Image(t.shape[0], t.shape[1], t.shape[2], t.shape[3], f)
  }

  ghost predicate SamePixels(a: Tensor, b: Tensor)
    requires IsImage(a) && IsImage(b)
  {
    forall n, c, y, x :: Inside(a, n, c, y, x) ==> Pixel(a, n, c, y, x) == Pixel(b, n, c, y, x)
  }

  lemma ImagesEqual(a: Tensor, b: Tensor)
    requires IsImage(a) && IsImage(b) && a.shape == b.shape && SamePixels(a, b)
    ensures a == b
  {
    forall idx | InBounds(a.shape, idx) ensures At(a, idx) == At(b, idx) {
      var n, c, y, x := idx[0], idx[1], idx[2], idx[3];
      assert idx == [n, c, y, x];
      assert Inside(a, n, c, y, x);
      PixelAt(a, n, c, y, x);
      PixelAt(b, n, c, y, x);
    }
    Extensional(a, b);
  }

  // ----- concatenation along the channel axis -----

  predicate Stackable(a: Tensor, b: Tensor) {
    IsImage(a) && IsImage(b) && a.shape[0] == b.shape[0] && a.shape[2] == b.shape[2] && a.shape[3] == b.shape[3]
  }

  function Cat(a: Tensor, b: Tensor): (t: Tensor)
    requires Stackable(a, b)
    ensures IsImage(t) && t.shape == [a.shape[0], a.shape[1] + b.shape[1], a.shape[2], a.shape[3]]
  {
    Image(a.shape[0], a.shape[1] + b.shape[1], a.shape[2], a.shape[3],
          (n, c, y, x) => if c < a.shape[1] then Pixel(a, n, c, y, x) else Pixel(b, n, c - a.shape[1], y, x))
  }

  lemma CatPixel(a: Tensor, b: Tensor, n: int, c: int, y: int, x: int)
    requires Stackable(a, b) && 0 <= n < a.shape[0] && 0 <= c < a.shape[1] + b.shape[1]
    requires 0 <= y < a.shape[2] && 0 <= x < a.shape[3]
    ensures Inside(Cat(a, b), n, c, y, x)
    ensures Pixel(Cat(a, b), n, c, y, x)
         == if c < a.shape[1] then Pixel(a, n, c, y, x) else Pixel(b, n, c - a.shape[1], y, x)
  {
    hide Pixel;
  }

  /** torch.cat over a list: None where torch raises (no tensors, or shapes that do not agree). */
  function CatAll(ts: seq<Tensor>): (r: Option<Tensor>)
    ensures r.Some? ==> IsImage(r.value)
  {
    if |ts| == 0 then None
    else if |ts| == 1 then (if IsImage(ts[0]) then Some(ts[0]) else None)
    else match CatAll(ts[..|ts| - 1])
      case None => None
      case Some(head) => if Stackable(head, ts[|ts| - 1]) then Some(Cat(head, ts[|ts| - 1])) else None
  }

  /** A list that torch.cat accepts: images that agree on everything but the number of channels. */
  predicate Alike(ts: seq<Tensor>) {
    |ts| > 0 && forall k :: 0 <= k < |ts| ==> Stackable(ts[0], ts[k])
  }

  /** The channels of the first i tensors. */
  function ChannelsBefore(ts: seq<Tensor>, i: nat): nat
    requires i <= |ts| && forall k :: 0 <= k < |ts| ==> IsImage(ts[k])
  {
    if i == 0 then 0 else ChannelsBefore(ts, i - 1) + ts[i - 1].shape[1]
  }

  lemma {:induction false} ChannelsPrefix(ts: seq<Tensor>, m: nat, i: nat)
    requires i <= m <= |ts| && forall k :: 0 <= k < |ts| ==> IsImage(ts[k])
    ensures ChannelsBefore(ts[..m], i) == ChannelsBefore(ts, i)
  {
    if i > 0 { ChannelsPrefix(ts, m, i - 1); }
  }

  /** Concatenation succeeds exactly on such lists, and adds up the channels. */
  lemma {:induction false} CatAllShape(ts: seq<Tensor>)
    ensures CatAll(ts).Some? <==> Alike(ts)
    ensures Alike(ts) ==>
              CatAll(ts).value.shape == [ts[0].shape[0], ChannelsBefore(ts, |ts|), ts[0].shape[2], ts[0].shape[3]]
  {
    hide Size, Cat;
    if |ts| == 1 {
      if Alike(ts) { assert ChannelsBefore(ts, 1) == ChannelsBefore(ts, 0) + ts[0].shape[1]; }
    } else if |ts| > 1 {
      var n := |ts| - 1;
      CatAllShape(ts[..n]);
      assert ts[..n][0] == ts[0];
      assert Alike(ts) <==> Alike(ts[..n]) && Stackable(ts[0], ts[n]);
      if Alike(ts) {
        ChannelsPrefix(ts, n, n);
      }
    }
  }

  /** The channel map of a concatenation: channel c of tensor i comes after all channels of the tensors before it. */
  lemma {:induction false} CatAllPixel(ts: seq<Tensor>, i: nat, n: int, c: int, y: int, x: int)
    requires Alike(ts) && i < |ts| && Inside(ts[i], n, c, y, x)
    ensures CatAll(ts).Some? && Inside(CatAll(ts).value, n, ChannelsBefore(ts, i) + c, y, x)
    ensures Pixel(CatAll(ts).value, n, ChannelsBefore(ts, i) + c, y, x) == Pixel(ts[i], n, c, y, x)
  {
    hide Pixel, Cat, Size;
    if |ts| == 1 {
      assert ChannelsBefore(ts, 0) == 0;
    } else {
      var m := |ts| - 1;
      var head := ts[..m];
      CatAllLast(ts);
      ChannelsPrefix(ts, m, i);
      if i < m { CatAllPixel(head, i, n, c, y, x); }
      hide CatAll, Alike;
      CatPixel(CatAll(head).value, ts[m], n, ChannelsBefore(ts, i) + c, y, x);
    }
  }

  /** The last tensor is appended to the concatenation of the others. */
  lemma CatAllLast(ts: seq<Tensor>)
    requires Alike(ts) && |ts| > 1
    ensures var m := |ts| - 1;
            Alike(ts[..m]) && CatAll(ts[..m]).Some? && Stackable(ts[0], CatAll(ts[..m]).value)
            && Stackable(CatAll(ts[..m]).value, ts[m])
            && CatAll(ts[..m]).value.shape[1] == ChannelsBefore(ts, m) && CatAll(ts) == Some(Cat(CatAll(ts[..m]).value, ts[m]))
  {
    hide Size, Cat;
    var m := |ts| - 1;
    assert ts[..m][0] == ts[0];
    CatAllShape(ts[..m]);
    ChannelsPrefix(ts, m, m);
  }
}
