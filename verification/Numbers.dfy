/** Minimum, maximum, clipping, rounding, and facts about products and quotients. */
module Numbers {

  function Min(a: int, b: int): int { if a < b then a else b }
  function Max(a: int, b: int): int { if a < b then b else a }
  function RMin(a: real, b: real): real { if a < b then a else b }
  function RMax(a: real, b: real): real { if a < b then b else a }

  /** A value moved into [0, hi]. */
  function Clip(v: real, hi: real): real {
    RMin(RMax(v, 0.0), hi)
  }

  /** Rounding to the nearest integer, halves to the even one. */
  function Round(x: real): int {
    var f := x.Floor;
    var d := x - f as real;
    if d < 0.5 then f else if d > 0.5 then f + 1 else if f % 2 == 0 then f else f + 1
  }

  /** The nearest integer, and of two equally near ones the even one. */
  lemma RoundIsNearest(x: real, k: int)
    ensures Round(x) == k <==> -0.5 < x - k as real < 0.5 || ((x - k as real == 0.5 || x - k as real == -0.5) && k % 2 == 0)
  {
  }

  lemma NonNegativeProduct(a: real, b: real)
    requires a >= 0.0 && b >= 0.0
    ensures a * b >= 0.0
  {
  }

  lemma PositiveProduct(a: real, b: real)
    requires a > 0.0 && b > 0.0
    ensures a * b > 0.0
  {
  }

  /** A value times a factor: in (0, 1), the factor moves every value towards 0. */
  function Damped(g: real, v: real): real {
    g * v
  }

  lemma DampedPositive(g: real, v: real)
    requires 0.0 < g < 1.0 && v > 0.0
    ensures 0.0 < Damped(g, v) < v
  {
    hide Damped;
    DampedAbove(g, v);
    DampedBelow(g, v);
  }

  lemma DampedAbove(g: real, v: real)
    requires g > 0.0 && v > 0.0
    ensures 0.0 < Damped(g, v)
  {
    PositiveProduct(g, v);
  }

  lemma DampedBelow(g: real, v: real)
    requires 0.0 < g < 1.0 && v > 0.0
    ensures Damped(g, v) < v
  {
    SmallerProduct(g, v);
  }

  lemma DampedNegative(g: real, v: real)
    requires 0.0 < g < 1.0 && v < 0.0
    ensures v < Damped(g, v) < 0.0
  {
    DampedSign(g, v);
    hide Damped;
    DampedPositive(g, -v);
  }

  lemma DampedSign(g: real, v: real)
    ensures Damped(g, -v) == -Damped(g, v)
  {
  }

  lemma DampedZero(g: real)
    ensures Damped(g, 0.0) == 0.0
  {
  }

  lemma SmallerProduct(a: real, b: real)
    requires a < 1.0 && b > 0.0
    ensures a * b < b
  {
  }

  // ----- products and quotients of naturals -----

  lemma MulMono(a: nat, b: nat, s: nat)
    requires a <= b
    ensures a * s <= b * s
  {
  }

  lemma MulStep(i: nat, n: nat, s: nat)
    requires i < n
    ensures i * s + s <= n * s
  {
    MulMono(i + 1, n, s);
    assert (i + 1) * s == i * s + s;
  }

  lemma DivModBounds(k: nat, n: nat, s: nat)
    requires k < n * s
    ensures s > 0 && k / s < n && k % s < s && (k / s) * s + k % s == k
  {
  }

  lemma DivModUnique(q: nat, r: nat, s: nat)
    requires r < s
    ensures (q * s + r) / s == q && (q * s + r) % s == r
  {
    var k := q * s + r;
    var q' := k / s;
    assert k == q' * s + k % s;
    if q' < q { MulStep(q', q, s); }
    if q' > q { MulStep(q, q', s); }
  }
}
