/** The reshaping layers: views, axis permutations, Contract, Expand, channel_shuffle and Focus. */
module Reshape {
  import opened Numbers
  import opened Tensors

  /** Reinterpret the data under another shape of the same size. */
  function View(t: Tensor, shape: seq<nat>): Tensor
    requires Size(shape) == |t.data|
  {
    Tensor(shape, t.data)
  }

  /** p and q are permutations of the axes that undo each other. */
  predicate Inverses(p: seq<nat>, q: seq<nat>) {
    && |p| == |q|
    && (forall k :: 0 <= k < |p| ==> p[k] < |p| && q[p[k]] == k)
    && (forall k :: 0 <= k < |q| ==> q[k] < |q| && p[q[k]] == k)
  }

  /** The sequence s read through p: entry k is s[p[k]]. */
  function Gather(s: seq<nat>, p: seq<nat>): (r: seq<nat>)
    requires forall k :: 0 <= k < |p| ==> p[k] < |s|
    ensures |r| == |p| && forall k :: 0 <= k < |p| ==> r[k] == s[p[k]]
  {
    seq(|p|, k requires 0 <= k < |p| => s[p[k]])
  }

  lemma GatherBack(s: seq<nat>, p: seq<nat>, q: seq<nat>)
    requires Inverses(p, q) && |s| == |p|
    ensures Gather(Gather(s, p), q) == s
  {
  }

  lemma SourceInBounds(shape: seq<nat>, p: seq<nat>, q: seq<nat>, idx: seq<nat>)
    requires Inverses(p, q) && |p| == |shape| && InBounds(Gather(shape, p), idx)
    ensures InBounds(shape, Gather(idx, q))
  {
  }

  /** torch.permute and contiguous: axis k of the result is axis p[k] of t (q says where each axis went). */
  function Permute(t: Tensor, p: seq<nat>, q: seq<nat>): (r: Tensor)
    requires t.Valid() && Inverses(p, q) && |p| == |t.shape|
    ensures r.Valid() && r.shape == Gather(t.shape, p)
  {
    Make(Gather(t.shape, p), PermuteSource(t, p, q))
  }

  function PermuteSource(t: Tensor, p: seq<nat>, q: seq<nat>): seq<nat> -> real
    requires t.Valid() && Inverses(p, q) && |p| == |t.shape|
  {
    (idx: seq<nat>) =>
      if InBounds(Gather(t.shape, p), idx) then
        SourceInBounds(t.shape, p, q, idx);
        At(t, Gather(idx, q))
      else 0.0
  }

  lemma PermuteAt(t: Tensor, p: seq<nat>, q: seq<nat>, idx: seq<nat>)
    requires t.Valid() && Inverses(p, q) && |p| == |t.shape| && InBounds(Gather(t.shape, p), idx)
    ensures InBounds(t.shape, Gather(idx, q))
    ensures At(Permute(t, p, q), idx) == At(t, Gather(idx, q))
  {
  }

  /** Permuting by p and then by its inverse gives the tensor back. */
  lemma PermuteInverse(t: Tensor, p: seq<nat>, q: seq<nat>)
    requires t.Valid() && Inverses(p, q) && |p| == |t.shape|
    ensures Permute(Permute(t, p, q), q, p) == t
  {
    var m := Permute(t, p, q);
    var r := Permute(m, q, p);
    GatherBack(t.shape, p, q);
    forall idx | InBounds(r.shape, idx) ensures At(r, idx) == At(t, idx) {
      PermuteAt(m, q, p, idx);
      PermuteAt(t, p, q, Gather(idx, p));
      GatherBack(idx, p, q);
    }
    Extensional(r, t);
  }

  // ----- views that split or merge adjacent axes -----

  lemma SizeCons(d: nat, s: seq<nat>)
    ensures Size([d] + s) == d * Size(s)
  {
  }

  lemma OffsetCons(d: nat, s: seq<nat>, i: nat, idx: seq<nat>)
    requires i < d && InBounds(s, idx)
    ensures InBounds([d] + s, [i] + idx) && Offset([d] + s, [i] + idx) == i * Size(s) + Offset(s, idx)
  {
  }

  lemma Associate(a: nat, b: nat, c: nat)
    ensures a * (b * c) == (a * b) * c
  {
  }

  lemma Distribute(a: nat, b: nat, c: nat)
    ensures a * c + b * c == (a + b) * c
  {
  }

  lemma MergeSize(d: nat, e: nat, b: seq<nat>)
    ensures Size([d] + ([e] + b)) == Size([d * e] + b)
  {
  }

  /** Merging the leading axes (d, e) into one of length d * e leaves every element where it is. */
  lemma MergeHead(d: nat, e: nat, b: seq<nat>, k: nat, l: nat, j: seq<nat>)
    requires InBounds(b, j) && k < d && l < e
    ensures k * e + l < d * e
    ensures InBounds([d] + ([e] + b), [k] + ([l] + j)) && InBounds([d * e] + b, [k * e + l] + j)
    ensures Offset([d] + ([e] + b), [k] + ([l] + j)) == Offset([d * e] + b, [k * e + l] + j)
  {
    hide Size, Offset;
    MulStep(k, d, e);
    OffsetCons(e, b, l, j);
    OffsetCons(d, [e] + b, k, [l] + j);
    OffsetCons(d * e, b, k * e + l, j);
    SizeCons(e, b);
    Associate(k, e, Size(b));
    Distribute(k * e, l, Size(b));
  }

  /** ... and so it does below any leading axes a. */
  lemma {:induction false} OffsetPrefix(a: seq<nat>, s: seq<nat>, s': seq<nat>, i: seq<nat>, x: seq<nat>, x': seq<nat>)
    requires InBounds(a, i) && InBounds(s, x) && InBounds(s', x')
    requires Size(s) == Size(s') && Offset(s, x) == Offset(s', x')
    ensures InBounds(a + s, i + x) && InBounds(a + s', i + x')
    ensures Size(a + s) == Size(a + s')
    ensures Offset(a + s, i + x) == Offset(a + s', i + x')
  {
    hide Size, Offset;
    if a == [] {
      assert a + s == s && a + s' == s' && i + x == x && i + x' == x';
    } else {
      var s1, s1', x1, x1' := a[1..] + s, a[1..] + s', i[1..] + x, i[1..] + x';
      OffsetPrefix(a[1..], s, s', i[1..], x, x');
      assert a + s == [a[0]] + s1 && a + s' == [a[0]] + s1';
      assert i + x == [i[0]] + x1 && i + x' == [i[0]] + x1';
      OffsetCons(a[0], s1, i[0], x1);
      OffsetCons(a[0], s1', i[0], x1');
      SizeCons(a[0], s1);
      SizeCons(a[0], s1');
    }
  }

  // ----- Contract and Expand -----

  lemma Size4(a: nat, b: nat, c: nat, d: nat)
    ensures Size([a, b, c, d]) == a * (b * (c * d))
  {
    SizeCons(d, []); SizeCons(c, [d]); SizeCons(b, [c, d]); SizeCons(a, [b, c, d]);
    assert [d] + [] == [d] && [c] + [d] == [c, d] && [b] + [c, d] == [b, c, d] && [a] + [b, c, d] == [a, b, c, d];
  }

  lemma Size6(a: nat, b: nat, c: nat, d: nat, e: nat, f: nat)
    ensures Size([a, b, c, d, e, f]) == a * (b * (c * (d * (e * f))))
  {
    Size4(c, d, e, f); SizeCons(b, [c, d, e, f]); SizeCons(a, [b, c, d, e, f]);
    assert [b] + [c, d, e, f] == [b, c, d, e, f] && [a] + [b, c, d, e, f] == [a, b, c, d, e, f];
  }

  predicate Divides(s: nat, k: nat) {
    s > 0 && k % s == 0
  }

  /** The six axes (batch, channel, row, row phase, column, column phase) that Contract views its input under. */
  function Split(x: Tensor, s: nat): seq<nat>
    requires IsImage(x) && s > 0
  {
    [x.shape[0], x.shape[1], x.shape[2] / s, s, x.shape[3] / s, s]
  }

  lemma SplitSize(x: Tensor, s: nat)
    requires IsImage(x) && Divides(s, x.shape[2]) && Divides(s, x.shape[3])
    ensures Size(Split(x, s)) == |x.data|
  {
    var n, c, h, w := x.shape[0], x.shape[1], x.shape[2] / s, x.shape[3] / s;
    assert x.shape == [n, c, h * s, w * s];
    Size4(n, c, h * s, w * s);
    Size6(n, c, h, s, w, s);
    assert h * (s * (w * s)) == (h * s) * (w * s);
  }

  lemma JoinSize(n: nat, c: nat, h: nat, w: nat, s: nat)
    ensures Size([n, s, s, c, h, w]) == Size([n, c * s * s, h, w])
  {
    Size4(n, c * s * s, h, w);
    Size6(n, s, s, c, h, w);
    var hw := h * w;
    assert s * (s * (c * hw)) == (c * s * s) * hw by {
      assert s * (c * hw) == (c * s) * hw;
      assert s * ((c * s) * hw) == (c * s * s) * hw;
    }
  }

  /** Axis order (0, 3, 5, 1, 2, 4): the two phases move in front of the channels. */
  function PhasesToFront(v: Tensor): (r: Tensor)
    requires v.Valid() && |v.shape| == 6
    ensures r.Valid()
    ensures r.shape == [v.shape[0], v.shape[3], v.shape[5], v.shape[1], v.shape[2], v.shape[4]]
  {
    Permute(v, [0, 3, 5, 1, 2, 4], [0, 3, 4, 1, 5, 2])
  }

  /** Axis order (0, 3, 4, 1, 5, 2): the two phases move back beside their axes. */
  function PhasesBack(v: Tensor): (r: Tensor)
    requires v.Valid() && |v.shape| == 6
    ensures r.Valid()
    ensures r.shape == [v.shape[0], v.shape[3], v.shape[4], v.shape[1], v.shape[5], v.shape[2]]
  {
    Permute(v, [0, 3, 4, 1, 5, 2], [0, 3, 5, 1, 2, 4])
  }

  lemma PhasesRoundTrip(v: Tensor)
    requires v.Valid() && |v.shape| == 6
    ensures PhasesBack(PhasesToFront(v)) == v && PhasesToFront(PhasesBack(v)) == v
  {
    PermuteInverse(v, [0, 3, 5, 1, 2, 4], [0, 3, 4, 1, 5, 2]);
    PermuteInverse(v, [0, 3, 4, 1, 5, 2], [0, 3, 5, 1, 2, 4]);
  }

  function ContractShape(x: Tensor, s: nat): (shape: seq<nat>)
    requires IsImage(x) && s > 0
    ensures |shape| == 4
  {
    [x.shape[0], x.shape[1] * s * s, x.shape[2] / s, x.shape[3] / s]
  }

  lemma ContractSizes(x: Tensor, s: nat)
    requires IsImage(x) && Divides(s, x.shape[2]) && Divides(s, x.shape[3])
    ensures Size(Split(x, s)) == |x.data|
    ensures Size(ContractShape(x, s)) == |PhasesToFront(View(x, Split(x, s))).data|
  {
    hide Size, PhasesToFront;
    SplitSize(x, s);
    JoinSize(x.shape[0], x.shape[1], x.shape[2] / s, x.shape[3] / s, s);
  }

  function Contract(x: Tensor, s: nat): (r: Tensor)
    requires IsImage(x) && Divides(s, x.shape[2]) && Divides(s, x.shape[3])
    ensures IsImage(r) && r.shape == ContractShape(x, s)
  {
    ContractSizes(x, s);
    View(PhasesToFront(View(x, Split(x, s))), ContractShape(x, s))
  }

  lemma SquareMultiple(c: nat, s: nat)
    requires s > 0
    ensures s * s > 0 && (c * s * s) % (s * s) == 0 && (c * s * s) / (s * s) == c
  {
    assert c * s * s == c * (s * s) + 0;
    DivModUnique(c, 0, s * s);
  }

  lemma Quotient(k: nat, s: nat)
    requires Divides(s, k)
    ensures k / s * s == k
  {
  }

  lemma SquareQuotient(k: nat, s: nat)
    requires s > 0 && s * s > 0 && k % (s * s) == 0
    ensures k / (s * s) * s * s == k
  {
  }

  /** The six axes that Expand views its input under. */
  function Join(x: Tensor, s: nat): seq<nat>
    requires IsImage(x) && s > 0
  {
    [x.shape[0], s, s, x.shape[1] / (s * s), x.shape[2], x.shape[3]]
  }

  lemma JoinFits(x: Tensor, s: nat)
    requires IsImage(x) && s > 0 && Divides(s * s, x.shape[1])
    ensures Size(Join(x, s)) == |x.data|
    ensures x.shape == [x.shape[0], x.shape[1] / (s * s) * s * s, x.shape[2], x.shape[3]]
  {
    var c := x.shape[1] / (s * s);
    SquareQuotient(x.shape[1], s);
    assert x.shape == [x.shape[0], c * s * s, x.shape[2], x.shape[3]];
    JoinSize(x.shape[0], c, x.shape[2], x.shape[3], s);
  }

  lemma ExpandedSize(n: nat, c: nat, h: nat, w: nat, s: nat)
    ensures Size([n, c, h, s, w, s]) == Size([n, c, h * s, w * s])
  {
    Size4(n, c, h * s, w * s);
    Size6(n, c, h, s, w, s);
    assert h * (s * (w * s)) == (h * s) * (w * s);
  }

  lemma ExpandSizes(x: Tensor, s: nat)
    requires IsImage(x) && s > 0 && Divides(s * s, x.shape[1])
    ensures Size(Join(x, s)) == |x.data|
    ensures Size([x.shape[0], x.shape[1] / (s * s), x.shape[2] * s, x.shape[3] * s])
         == |PhasesBack(View(x, Join(x, s))).data|
  {
    hide Size, PhasesBack;
    JoinFits(x, s);
    ExpandedSize(x.shape[0], x.shape[1] / (s * s), x.shape[2], x.shape[3], s);
  }

  function Expand(x: Tensor, s: nat): (r: Tensor)
    requires IsImage(x) && s > 0 && Divides(s * s, x.shape[1])
    ensures IsImage(r) && r.shape == [x.shape[0], x.shape[1] / (s * s), x.shape[2] * s, x.shape[3] * s]
  {
    ExpandSizes(x, s);
    View(PhasesBack(View(x, Join(x, s))), [x.shape[0], x.shape[1] / (s * s), x.shape[2] * s, x.shape[3] * s])
  }

  /** The six-axis view Expand takes of a contracted tensor is the one Contract left it in. */
  lemma ContractedView(x: Tensor, s: nat)
    requires IsImage(x) && Divides(s, x.shape[2]) && Divides(s, x.shape[3])
    ensures Size(Split(x, s)) == |x.data|
    ensures Divides(s * s, x.shape[1] * s * s)
    ensures Join(Contract(x, s), s) == PhasesToFront(View(x, Split(x, s))).shape
    ensures Contract(x, s).data == PhasesToFront(View(x, Split(x, s))).data
  {
    hide Size, PhasesToFront;
    SquareMultiple(x.shape[1], s);
    SplitSize(x, s);
  }

  /** Expand undoes Contract for every gain that divides the height and the width. */
  lemma ExpandUndoesContract(x: Tensor, s: nat)
    requires IsImage(x) && Divides(s, x.shape[2]) && Divides(s, x.shape[3])
    ensures Divides(s * s, x.shape[1] * s * s)
    ensures Expand(Contract(x, s), s) == x
  {
    hide Size, Permute, Contract;
    ContractedView(x, s);
    PhasesRoundTrip(View(x, Split(x, s)));
    Quotient(x.shape[2], s);
    Quotient(x.shape[3], s);
    assert Expand(Contract(x, s), s).shape == x.shape;
  }

  /** Contract undoes Expand for every gain whose square divides the channel count. */
  lemma ContractUndoesExpand(x: Tensor, s: nat)
    requires IsImage(x) && s > 0 && Divides(s * s, x.shape[1])
    ensures Divides(s, x.shape[2] * s) && Divides(s, x.shape[3] * s)
    ensures Contract(Expand(x, s), s) == x
  {
    DivModUnique(x.shape[2], 0, s);
    DivModUnique(x.shape[3], 0, s);
    JoinFits(x, s);
    var v := View(x, Join(x, s));
    var y := Expand(x, s);
    assert Split(y, s) == PhasesBack(v).shape;
    assert View(y, Split(y, s)) == PhasesBack(v);
    PhasesRoundTrip(v);
  }

  lemma MergeAt(a: seq<nat>, d: nat, e: nat, b: seq<nat>, i: seq<nat>, k: nat, l: nat, j: seq<nat>,
                s: seq<nat>, x: seq<nat>, s': seq<nat>, x': seq<nat>)
    requires InBounds(a, i) && InBounds(b, j) && k < d && l < e
    requires s == a + ([d] + ([e] + b)) && x == i + ([k] + ([l] + j))
    requires s' == a + ([d * e] + b) && x' == i + ([k * e + l] + j)
    ensures k * e + l < d * e
    ensures InBounds(s, x) && InBounds(s', x') && Offset(s, x) == Offset(s', x')
  {
    MergeHead(d, e, b, k, l, j);
    MergeSize(d, e, b);
    OffsetPrefix(a, [d] + ([e] + b), [d * e] + b, i, [k] + ([l] + j), [k * e + l] + j);
  }

  lemma SplitOffset(n: nat, c: nat, y: nat, i: nat, x: nat, j: nat, N: nat, C: nat, h: nat, s: nat, w: nat)
    requires n < N && c < C && y < h && i < s && x < w && j < s
    ensures y * s + i < h * s && x * s + j < w * s
    ensures InBounds([N, C, h, s, w, s], [n, c, y, i, x, j])
    ensures InBounds([N, C, h * s, w * s], [n, c, y * s + i, x * s + j])
    ensures Offset([N, C, h, s, w, s], [n, c, y, i, x, j]) == Offset([N, C, h * s, w * s], [n, c, y * s + i, x * s + j])
  {
    hide Size, Offset;
    var W, X, H, Y := w * s, x * s + j, h * s, y * s + i;
    MulStep(x, w, s);
    MergeAt([N, C, h, s], w, s, [], [n, c, y, i], x, j, [],
            [N, C, h, s, w, s], [n, c, y, i, x, j], [N, C, h, s, W], [n, c, y, i, X]);
    MergeAt([N, C], h, s, [W], [n, c], y, i, [X],
            [N, C, h, s, W], [n, c, y, i, X], [N, C, H, W], [n, c, Y, X]);
  }

  lemma JoinOffset(n: nat, i: nat, j: nat, c: nat, y: nat, x: nat, N: nat, p: nat, q: nat, C: nat, h: nat, w: nat)
    requires n < N && c < C && y < h && i < p && x < w && j < q
    ensures i * q + j < p * q && (i * q + j) * C + c < p * q * C
    ensures InBounds([N, p, q, C, h, w], [n, i, j, c, y, x])
    ensures InBounds([N, p * q * C, h, w], [n, (i * q + j) * C + c, y, x])
    ensures Offset([N, p, q, C, h, w], [n, i, j, c, y, x]) == Offset([N, p * q * C, h, w], [n, (i * q + j) * C + c, y, x])
  {
    hide Size, Offset;
    var ij, pq := i * q + j, p * q;
    MulStep(i, p, q);
    MulStep(ij, pq, C);
    var k, K := ij * C + c, pq * C;
    assert Offset([N, pq, C, h, w], [n, ij, c, y, x]) == Offset([N, K, h, w], [n, k, y, x]) by {
      MergeAt([N], pq, C, [h, w], [n], ij, c, [y, x],
              [N, pq, C, h, w], [n, ij, c, y, x], [N, K, h, w], [n, k, y, x]);
    }
    MergeAt([N], p, q, [C, h, w], [n], i, j, [c, y, x],
            [N, p, q, C, h, w], [n, i, j, c, y, x], [N, pq, C, h, w], [n, ij, c, y, x]);
  }

  lemma SplitPixel(t: Tensor, s: nat, n: nat, c: nat, y: nat, i: nat, x: nat, j: nat)
    requires IsImage(t) && Divides(s, t.shape[2]) && Divides(s, t.shape[3])
    requires n < t.shape[0] && c < t.shape[1] && y < t.shape[2] / s && i < s && x < t.shape[3] / s && j < s
    ensures Inside(t, n, c, y * s + i, x * s + j)
    ensures Size(Split(t, s)) == |t.data| && InBounds(Split(t, s), [n, c, y, i, x, j])
    ensures At(View(t, Split(t, s)), [n, c, y, i, x, j]) == Pixel(t, n, c, y * s + i, x * s + j)
  {
    Quotient(t.shape[2], s);
    Quotient(t.shape[3], s);
    SplitSize(t, s);
    SplitOffset(n, c, y, i, x, j, t.shape[0], t.shape[1], t.shape[2] / s, s, t.shape[3] / s);
    assert t.shape == [t.shape[0], t.shape[1], t.shape[2] / s * s, t.shape[3] / s * s];
    PixelAt(t, n, c, y * s + i, x * s + j);
  }

  lemma JoinPixel(u: Tensor, r: Tensor, n: nat, i: nat, j: nat, c: nat, y: nat, x: nat)
    requires u.Valid() && |u.shape| == 6 && IsImage(r) && u.data == r.data
    requires InBounds(u.shape, [n, i, j, c, y, x])
    requires r.shape == [u.shape[0], u.shape[1] * u.shape[2] * u.shape[3], u.shape[4], u.shape[5]]
    ensures Inside(r, n, (i * u.shape[2] + j) * u.shape[3] + c, y, x)
    ensures Pixel(r, n, (i * u.shape[2] + j) * u.shape[3] + c, y, x) == At(u, [n, i, j, c, y, x])
  {
    hide Size, Offset, Pixel;
    var d := u.shape;
    var idx := [n, i, j, c, y, x];
    assert idx[0] == n && idx[1] == i && idx[2] == j && idx[3] == c && idx[4] == y && idx[5] == x;
    JoinOffset(n, i, j, c, y, x, d[0], d[1], d[2], d[3], d[4], d[5]);
    assert d == [d[0], d[1], d[2], d[3], d[4], d[5]];
    PixelAt(r, n, (i * d[2] + j) * d[3] + c, y, x);
  }

  lemma ContractedAt(v: Tensor, n: nat, c: nat, y: nat, i: nat, x: nat, j: nat)
    requires v.Valid() && |v.shape| == 6 && InBounds(v.shape, [n, c, y, i, x, j])
    ensures InBounds(PhasesToFront(v).shape, [n, i, j, c, y, x])
    ensures At(PhasesToFront(v), [n, i, j, c, y, x]) == At(v, [n, c, y, i, x, j])
  {
    hide Size, Offset, Make, At, Permute;
    PhasesInBounds(v.shape, n, c, y, i, x, j);
    PhaseOrders();
    hide Inverses, InBounds;
    PermuteAt(v, [0, 3, 5, 1, 2, 4], [0, 3, 4, 1, 5, 2], [n, i, j, c, y, x]);
    assert Gather([n, i, j, c, y, x], [0, 3, 4, 1, 5, 2]) == [n, c, y, i, x, j];
  }

  lemma PhaseOrders()
    ensures Inverses([0, 3, 5, 1, 2, 4], [0, 3, 4, 1, 5, 2])
  {
  }

  lemma PhasesInBounds(s: seq<nat>, n: nat, c: nat, y: nat, i: nat, x: nat, j: nat)
    requires |s| == 6 && InBounds(s, [n, c, y, i, x, j])
    ensures InBounds(Gather(s, [0, 3, 5, 1, 2, 4]), [n, i, j, c, y, x])
  {
    var idx := [n, c, y, i, x, j];
    assert idx[0] == n && idx[1] == c && idx[2] == y && idx[3] == i && idx[4] == x && idx[5] == j;
  }

  lemma ContractedData(t: Tensor, s: nat, u: Tensor)
    requires IsImage(t) && Divides(s, t.shape[2]) && Divides(s, t.shape[3]) && Size(Split(t, s)) == |t.data|
    requires u == PhasesToFront(View(t, Split(t, s)))
    ensures u.data == Contract(t, s).data && |u.shape| == 6 && u.shape[2] == s && u.shape[3] == t.shape[1]
    ensures Contract(t, s).shape == [u.shape[0], u.shape[1] * u.shape[2] * u.shape[3], u.shape[4], u.shape[5]]
  {
    hide PhasesToFront, Size;
    assert s * s * t.shape[1] == t.shape[1] * s * s;
  }

  /** Where Contract puts a pixel: phase (i, j) of channel c becomes channel (i * s + j) * C + c. */
  lemma ContractPixel(t: Tensor, s: nat, n: nat, c: nat, y: nat, i: nat, x: nat, j: nat)
    requires IsImage(t) && Divides(s, t.shape[2]) && Divides(s, t.shape[3])
    requires n < t.shape[0] && c < t.shape[1] && y < t.shape[2] / s && i < s && x < t.shape[3] / s && j < s
    ensures Inside(t, n, c, y * s + i, x * s + j)
    ensures Inside(Contract(t, s), n, (i * s + j) * t.shape[1] + c, y, x)
    ensures Pixel(Contract(t, s), n, (i * s + j) * t.shape[1] + c, y, x) == Pixel(t, n, c, y * s + i, x * s + j)
  {
    hide Size, Offset, At, PhasesToFront, Contract;
    SplitPixel(t, s, n, c, y, i, x, j);
    ContractedAt(View(t, Split(t, s)), n, c, y, i, x, j);
    var u := PhasesToFront(View(t, Split(t, s)));
    ContractedData(t, s, u);
    JoinPixel(u, Contract(t, s), n, i, j, c, y, x);
  }

  // ----- channel_shuffle -----

  /** Exchange axes 1 and 2 of a five-dimensional tensor. */
  function SwapGroups(v: Tensor): (r: Tensor)
    requires v.Valid() && |v.shape| == 5
    ensures r.Valid() && r.shape == [v.shape[0], v.shape[2], v.shape[1], v.shape[3], v.shape[4]]
  {
    Permute(v, [0, 2, 1, 3, 4], [0, 2, 1, 3, 4])
  }

  lemma SwapTwice(v: Tensor)
    requires v.Valid() && |v.shape| == 5
    ensures SwapGroups(SwapGroups(v)) == v
  {
    PermuteInverse(v, [0, 2, 1, 3, 4], [0, 2, 1, 3, 4]);
  }

  lemma GroupSize(n: nat, g: nat, m: nat, h: nat, w: nat)
    ensures Size([n, g, m, h, w]) == Size([n, g * m, h, w])
  {
    Size4(g, m, h, w);
    Size4(n, g * m, h, w);
    SizeCons(n, [g, m, h, w]);
    assert [n] + [g, m, h, w] == [n, g, m, h, w];
    assert g * (m * (h * w)) == (g * m) * (h * w);
  }

  function Groups(x: Tensor, g: nat): seq<nat>
    requires IsImage(x) && g > 0
  {
    [x.shape[0], g, x.shape[1] / g, x.shape[2], x.shape[3]]
  }

  lemma GroupsFit(x: Tensor, g: nat)
    requires IsImage(x) && Divides(g, x.shape[1])
    ensures Size(Groups(x, g)) == |x.data|
    ensures Size([x.shape[0], x.shape[1] / g, g, x.shape[2], x.shape[3]]) == |x.data|
  {
    var m := x.shape[1] / g;
    Quotient(x.shape[1], g);
    assert g * m == m * g == x.shape[1];
    assert x.shape == [x.shape[0], g * m, x.shape[2], x.shape[3]];
    GroupSize(x.shape[0], g, m, x.shape[2], x.shape[3]);
    GroupSize(x.shape[0], m, g, x.shape[2], x.shape[3]);
  }

  function ChannelShuffle(x: Tensor, g: nat): (r: Tensor)
    requires IsImage(x) && Divides(g, x.shape[1])
    ensures IsImage(r) && r.shape == x.shape
  {
    GroupsFit(x, g);
    View(SwapGroups(View(x, Groups(x, g))), x.shape)
  }

  lemma CoQuotient(c: nat, g: nat)
    requires c > 0 && Divides(g, c)
    ensures Divides(c / g, c) && c / (c / g) == g
  {
    Quotient(c, g);
    var m := c / g;
    assert m > 0;
    assert c == g * m + 0;
    DivModUnique(g, 0, m);
  }

  /** Shuffling by g groups and then by C / g groups is the identity. */
  lemma ShuffleUndone(x: Tensor, g: nat)
    requires IsImage(x) && x.shape[1] > 0 && Divides(g, x.shape[1])
    ensures Divides(x.shape[1] / g, x.shape[1])
    ensures ChannelShuffle(ChannelShuffle(x, g), x.shape[1] / g) == x
  {
    CoQuotient(x.shape[1], g);
    GroupsFit(x, g);
    var v := View(x, Groups(x, g));
    SwapTwice(v);
    var y := ChannelShuffle(x, g);
    assert View(y, Groups(y, x.shape[1] / g)) == SwapGroups(v);
  }

  lemma GroupAt(u: Tensor, r: Tensor, n: nat, i: nat, j: nat, y: nat, x: nat)
    requires u.Valid() && |u.shape| == 5 && IsImage(r) && u.data == r.data
    requires InBounds(u.shape, [n, i, j, y, x])
    requires r.shape == [u.shape[0], u.shape[1] * u.shape[2], u.shape[3], u.shape[4]]
    ensures Inside(r, n, i * u.shape[2] + j, y, x)
    ensures Pixel(r, n, i * u.shape[2] + j, y, x) == At(u, [n, i, j, y, x])
  {
    hide Size, Offset, Pixel;
    var d := u.shape;
    var idx := [n, i, j, y, x];
    assert idx[0] == n && idx[1] == i && idx[2] == j && idx[3] == y && idx[4] == x;
    MulStep(i, d[1], d[2]);
    var k := i * d[2] + j;
    assert d == [d[0], d[1], d[2], d[3], d[4]];
    MergeAt([d[0]], d[1], d[2], [d[3], d[4]], [n], i, j, [y, x], d, idx, r.shape, [n, k, y, x]);
    PixelAt(r, n, k, y, x);
  }

  lemma SwapAt(v: Tensor, n: nat, i: nat, j: nat, y: nat, x: nat)
    requires v.Valid() && |v.shape| == 5 && InBounds(v.shape, [n, i, j, y, x])
    ensures InBounds(SwapGroups(v).shape, [n, j, i, y, x])
    ensures At(SwapGroups(v), [n, j, i, y, x]) == At(v, [n, i, j, y, x])
  {
    hide Size, Offset, Make, At, Permute;
    PermuteAt(v, [0, 2, 1, 3, 4], [0, 2, 1, 3, 4], [n, j, i, y, x]);
    assert Gather([n, j, i, y, x], [0, 2, 1, 3, 4]) == [n, i, j, y, x];
  }

  /** Where channel_shuffle puts a channel: member j of group i becomes channel j * g + i. */
  lemma ShufflePixel(t: Tensor, g: nat, n: nat, i: nat, j: nat, y: nat, x: nat)
    requires IsImage(t) && Divides(g, t.shape[1])
    requires n < t.shape[0] && i < g && j < t.shape[1] / g && y < t.shape[2] && x < t.shape[3]
    ensures Inside(t, n, i * (t.shape[1] / g) + j, y, x) && Inside(ChannelShuffle(t, g), n, j * g + i, y, x)
    ensures Pixel(ChannelShuffle(t, g), n, j * g + i, y, x) == Pixel(t, n, i * (t.shape[1] / g) + j, y, x)
  {
    hide Pixel, Size, Offset, SwapGroups, At;
    var m := t.shape[1] / g;
    Quotient(t.shape[1], g);
    assert g * m == m * g == t.shape[1];
    GroupsFit(t, g);
    var v := View(t, Groups(t, g));
    GroupAt(v, t, n, i, j, y, x);
    SwapAt(v, n, i, j, y, x);
    GroupAt(SwapGroups(v), ChannelShuffle(t, g), n, j, i, y, x);
  }

  // ----- Focus -----

  /** The strided slice t[..., i::2, j::2]. */
  function Phase(t: Tensor, i: nat, j: nat): (r: Tensor)
    requires IsImage(t) && Divides(2, t.shape[2]) && Divides(2, t.shape[3]) && i < 2 && j < 2
    ensures IsImage(r) && r.shape == [t.shape[0], t.shape[1], t.shape[2] / 2, t.shape[3] / 2]
  {
    Image(t.shape[0], t.shape[1], t.shape[2] / 2, t.shape[3] / 2, (n, c, y, x) => Pixel(t, n, c, 2 * y + i, 2 * x + j))
  }

  /** What Focus feeds to its convolution: the four phases, row phase varying fastest. */
  function FocusPhases(t: Tensor): (r: Tensor)
    requires IsImage(t) && Divides(2, t.shape[2]) && Divides(2, t.shape[3])
    ensures IsImage(r) && r.shape == [t.shape[0], 4 * t.shape[1], t.shape[2] / 2, t.shape[3] / 2]
  {
    Cat(Cat(Cat(Phase(t, 0, 0), Phase(t, 1, 0)), Phase(t, 0, 1)), Phase(t, 1, 1))
  }

  /** Channel block b of Focus holds row phase b % 2 and column phase b / 2. */
  lemma FocusPixel(t: Tensor, n: nat, b: nat, c: nat, y: nat, x: nat)
    requires IsImage(t) && Divides(2, t.shape[2]) && Divides(2, t.shape[3])
    requires n < t.shape[0] && b < 4 && c < t.shape[1] && y < t.shape[2] / 2 && x < t.shape[3] / 2
    ensures Inside(FocusPhases(t), n, b * t.shape[1] + c, y, x)
    ensures Pixel(FocusPhases(t), n, b * t.shape[1] + c, y, x) == Pixel(t, n, c, 2 * y + b % 2, 2 * x + b / 2)
  {
  }

  /** Focus is Contract(2) with channel blocks 1 and 2 exchanged. */
  lemma FocusIsSwappedContract(t: Tensor, n: nat, b: nat, c: nat, y: nat, x: nat)
    requires IsImage(t) && Divides(2, t.shape[2]) && Divides(2, t.shape[3])
    requires n < t.shape[0] && b < 4 && c < t.shape[1] && y < t.shape[2] / 2 && x < t.shape[3] / 2
    ensures Inside(FocusPhases(t), n, b * t.shape[1] + c, y, x)
    ensures Inside(Contract(t, 2), n, [0, 2, 1, 3][b] * t.shape[1] + c, y, x)
    ensures Pixel(FocusPhases(t), n, b * t.shape[1] + c, y, x)
         == Pixel(Contract(t, 2), n, [0, 2, 1, 3][b] * t.shape[1] + c, y, x)
  {
    hide Pixel, Contract, FocusPhases;
    FocusPixel(t, n, b, c, y, x);
    ContractPixel(t, 2, n, c, y, b % 2, x, b / 2);
  }

  /** The two off-diagonal pixels of the 2 x 2 cell (y, x) are equal. */
  predicate CellSymmetric(t: Tensor, n: int, c: int, y: int, x: int)
    requires IsImage(t)
  {
    Pixel(t, n, c, 2 * y + 1, 2 * x) == Pixel(t, n, c, 2 * y, 2 * x + 1)
  }

  predicate IsCell(t: Tensor, n: int, c: int, y: int, x: int)
    requires IsImage(t)
  {
    0 <= n < t.shape[0] && 0 <= c < t.shape[1] && 0 <= y < t.shape[2] / 2 && 0 <= x < t.shape[3] / 2
  }

  ghost predicate CellsSymmetric(t: Tensor)
    requires IsImage(t)
  {
    forall n, c, y, x :: IsCell(t, n, c, y, x) ==> CellSymmetric(t, n, c, y, x)
  }

  /** The two layers agree on exactly the images that are symmetric within every 2 x 2 cell. */
  lemma FocusEqualsContract(t: Tensor)
    requires IsImage(t) && Divides(2, t.shape[2]) && Divides(2, t.shape[3])
    ensures FocusPhases(t) == Contract(t, 2) <==> CellsSymmetric(t)
  {
    hide Pixel, FocusPhases, Contract;
    var f, k := FocusPhases(t), Contract(t, 2);
    if f == k {
      forall n, c, y, x | IsCell(t, n, c, y, x) ensures CellSymmetric(t, n, c, y, x) {
        FocusPixel(t, n, 1, c, y, x);
        FocusIsSwappedContract(t, n, 2, c, y, x);
        FocusPixel(t, n, 2, c, y, x);
      }
    }
    if CellsSymmetric(t) {
      forall n, d, y, x | Inside(f, n, d, y, x) ensures Pixel(f, n, d, y, x) == Pixel(k, n, d, y, x) {
        BlockOf(d, t.shape[1]);
        AgreeAt(t, n, d / t.shape[1], d % t.shape[1], y, x);
      }
      ImagesEqual(f, k);
    }
  }

  lemma BlockOf(d: nat, C: nat)
    requires d < 4 * C
    ensures C > 0 && d / C < 4 && d / C * C + d % C == d
  {
  }

  lemma AgreeAt(t: Tensor, n: nat, b: nat, c: nat, y: nat, x: nat)
    requires IsImage(t) && Divides(2, t.shape[2]) && Divides(2, t.shape[3]) && CellsSymmetric(t)
    requires n < t.shape[0] && b < 4 && c < t.shape[1] && y < t.shape[2] / 2 && x < t.shape[3] / 2
    ensures Pixel(FocusPhases(t), n, b * t.shape[1] + c, y, x) == Pixel(Contract(t, 2), n, b * t.shape[1] + c, y, x)
  {
    hide Pixel, FocusPhases, Contract;
    var b' := [0, 2, 1, 3][b];
    assert IsCell(t, n, c, y, x) && CellSymmetric(t, n, c, y, x);
    FocusPixel(t, n, b, c, y, x);
    FocusPixel(t, n, b', c, y, x);
    FocusIsSwappedContract(t, n, b', c, y, x);
  }
}
