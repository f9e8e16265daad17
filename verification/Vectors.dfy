/**
 Vectors of scalars and of points (`crates/bulletproof/src/vec_ops.rs`).

 The source zips vectors, so every binary operation stops at the shorter operand.
 `Dot` and `Multiexp` add up unreduced integers; `Reduce` gives the scalar or point.
 */
module Vectors {
  import opened Numbers
  import opened Scalars

  type Vec = seq<Scalar>

  function AddAll(v: Vec, w: Vec): Vec {
    seq(Least(|v|, |w|), i requires 0 <= i < Least(|v|, |w|) => Add(v[i], w[i]))
  }

  function MulAll(v: Vec, w: Vec): Vec {
    seq(Least(|v|, |w|), i requires 0 <= i < Least(|v|, |w|) => Mul(v[i], w[i]))
  }

  function AddScalar(v: Vec, s: Scalar): Vec {
    seq(|v|, i requires 0 <= i < |v| => Add(v[i], s))
  }

  function SubScalar(v: Vec, s: Scalar): Vec {
    seq(|v|, i requires 0 <= i < |v| => Sub(v[i], s))
  }

  function Scale(v: Vec, s: Scalar): Vec {
    seq(|v|, i requires 0 <= i < |v| => Mul(v[i], s))
  }

  function Dot(a: seq<int>, b: seq<int>): int {
    if a == [] || b == [] then 0 else a[0] * b[0] + Dot(a[1..], b[1..])
  }

  /** Weighted inner product of three vectors. */
  function Wip(a: Vec, b: Vec, y: Vec): Scalar {
    Reduce(Dot(a, MulAll(b, y)))
  }

  function SumAll(v: seq<int>): int {
    if v == [] then 0 else v[0] + SumAll(v[1..])
  }

  // ---- Powers ----

  function Pow(v: Scalar, k: nat): Scalar {
    if k == 0 then 1 else Mul(Pow(v, k - 1), v)
  }

  /** The weights `y, y^2, ..., y^n`. */
  function Weights(y: Scalar, n: nat): Vec {
    seq(n, i requires 0 <= i < n => Pow(y, i + 1))
  }

  lemma {:induction false} PowAdd(v: Scalar, j: nat, k: nat)
    ensures Mul(Pow(v, j), Pow(v, k)) == Pow(v, j + k)
    decreases k
  {
    CongReduce(Pow(v, j));
    hide Reduce;
    if k != 0 {
      PowAdd(v, j, k - 1);
      MulAssoc(Pow(v, j), Pow(v, k - 1), v);
    }
  }

  lemma MulAssoc(a: Scalar, b: Scalar, c: Scalar)
    ensures Mul(a, Mul(b, c)) == Mul(Mul(a, b), c)
  {
    CongReduce(b * c);
    CongReduce(a * b);
    hide Reduce;
    CongMul(a, a, Mul(b, c), b * c);
    CongMul(Mul(a, b), a * b, c, c);
    CongEq(a * (b * c), a * b * c);
  }

  /** `new_power`: at least two powers are returned, as `shrink_to` does not truncate. */
  method NewPower(v: Scalar, len: nat) returns (output: Vec)
    ensures |output| == if len < 2 then 2 else len
    ensures forall i :: 0 <= i < |output| ==> output[i] == Pow(v, i)
  {
    output := [1, v];
    assert Pow(v, 1) == v by {
      assert Pow(v, 0) == 1;
    }
    var i := 2;
    while i < len
      invariant 2 <= i
      invariant |output| == i
      invariant i <= len || i == 2
      invariant forall j :: 0 <= j < i ==> output[j] == Pow(v, j)
    {
      output := output + [Mul(output[i - 1], v)];
      i := i + 1;
    }
  }

  // ---- Splitting ----

  function Half(n: nat): nat {
    n / 2 + n % 2
  }

  /** The second half, padded with zeros to the length of the first. */
  function Padded(v: Vec): Vec {
    v[Half(|v|)..] + seq(2 * Half(|v|) - |v|, _ => 0)
  }

  /** `split` of scalars and `split_points` of points: zero and the identity are both 0. */
  method Split(v: Vec) returns (left: Vec, right: Vec)
    ensures left == v[..Half(|v|)] && right == Padded(v) && |left| == |right|
  {
    left, right := v[..Half(|v|)], v[Half(|v|)..];
    while |right| < |left|
      invariant |right| <= |left|
      invariant right == v[Half(|v|)..] + seq(|right| - (|v| - Half(|v|)), _ => 0)
      decreases |left| - |right|
    {
      right := right + [0];
    }
  }

  // ---- Algebra of inner products ----

  lemma {:induction false} DotSplit(a: seq<int>, b: seq<int>, m: nat)
    requires m <= |a| == |b|
    ensures Dot(a, b) == Dot(a[..m], b[..m]) + Dot(a[m..], b[m..])
  {
    if m > 0 {
      DotSplit(a[1..], b[1..], m - 1);
      assert a[..m][1..] == a[1..][..m - 1] && b[..m][1..] == b[1..][..m - 1];
      assert a[1..][m - 1..] == a[m..] && b[1..][m - 1..] == b[m..];
    }
  }

  lemma DotSnoc(v: seq<int>, w: seq<int>, n: nat)
    requires 0 < n <= |v| && n <= |w|
    ensures Dot(v[..n], w[..n]) == Dot(v[..n - 1], w[..n - 1]) + v[n - 1] * w[n - 1]
  {
    DotSplit(v[..n], w[..n], n - 1);
    assert v[..n][..n - 1] == v[..n - 1] && w[..n][..n - 1] == w[..n - 1];
    assert v[..n][n - 1..] == [v[n - 1]] && w[..n][n - 1..] == [w[n - 1]];
    assert [v[n - 1]][1..] == [];
  }

  /** `a` is the combination `x * v + z * w`, entry by entry. */
  ghost predicate Combines(a: seq<int>, x: int, v: seq<int>, z: int, w: seq<int>) {
    && |a| == |v| == |w|
    && forall i :: 0 <= i < |a| ==> Cong(a[i], x * v[i] + z * w[i])
  }

  /** The value of a bilinear form from its four products. */
  ghost function Bilinear(x: int, z: int, s: int, t: int, vg: int, vh: int, wg: int, wh: int): int {
    x * s * vg + x * t * vh + z * s * wg + z * t * wh
  }

  lemma {:induction false} DotBilinear(
    a: seq<int>, x: int, v: seq<int>, z: int, w: seq<int>,
    b: seq<int>, s: int, g: seq<int>, t: int, h: seq<int>)
    requires Combines(a, x, v, z, w) && Combines(b, s, g, t, h) && |a| == |b|
    ensures Cong(Dot(a, b), Bilinear(x, z, s, t, Dot(v, g), Dot(v, h), Dot(w, g), Dot(w, h)))
  {
    if a != [] {
      hide Reduce;
      DotBilinear(a[1..], x, v[1..], z, w[1..], b[1..], s, g[1..], t, h[1..]);
      BilinearStep(a[0], x, v[0], z, w[0], b[0], s, g[0], t, h[0], Dot(a[1..], b[1..]),
                   Dot(v[1..], g[1..]), Dot(v[1..], h[1..]), Dot(w[1..], g[1..]), Dot(w[1..], h[1..]));
    }
  }

  lemma BilinearStep(a: int, x: int, v: int, z: int, w: int, b: int, s: int, g: int, t: int, h: int,
                     rest: int, vg: int, vh: int, wg: int, wh: int)
    requires Cong(a, x * v + z * w) && Cong(b, s * g + t * h)
    requires Cong(rest, Bilinear(x, z, s, t, vg, vh, wg, wh))
    ensures Cong(a * b + rest, Bilinear(x, z, s, t, v * g + vg, v * h + vh, w * g + wg, w * h + wh))
  {
    hide Reduce;
    CongMul(a, x * v + z * w, b, s * g + t * h);
    BilinearIdentity(x, v, z, w, s, g, t, h, vg, vh, wg, wh);
    CongAdd(a * b, (x * v + z * w) * (s * g + t * h), rest, Bilinear(x, z, s, t, vg, vh, wg, wh));
  }

  lemma BilinearIdentity(x: int, v: int, z: int, w: int, s: int, g: int, t: int, h: int,
                         vg: int, vh: int, wg: int, wh: int)
    ensures (x * v + z * w) * (s * g + t * h) + Bilinear(x, z, s, t, vg, vh, wg, wh)
         == Bilinear(x, z, s, t, v * g + vg, v * h + vh, w * g + wg, w * h + wh)
  {
    assert (x * v + z * w) * (s * g + t * h)
        == (x * v) * (s * g) + (x * v) * (t * h) + (z * w) * (s * g) + (z * w) * (t * h);
    assert (x * v) * (s * g) == x * s * (v * g);
    assert (x * v) * (t * h) == x * t * (v * h);
    assert (z * w) * (s * g) == z * s * (w * g);
    assert (z * w) * (t * h) == z * t * (w * h);
  }

  ghost predicate ScaledBy(a: seq<int>, s: int, v: seq<int>) {
    && |a| == |v|
    && forall i :: 0 <= i < |a| ==> Cong(a[i], s * v[i])
  }

  /** A factor common to all entries of one vector comes out of the product. */
  lemma {:induction false} DotScaled(a: seq<int>, s: int, v: seq<int>, b: seq<int>)
    requires ScaledBy(a, s, v) && |a| == |b|
    ensures Cong(Dot(a, b), s * Dot(v, b)) && Cong(Dot(b, a), s * Dot(b, v))
  {
    if a != [] {
      hide Reduce;
      DotScaled(a[1..], s, v[1..], b[1..]);
      ScaledStep(a[0], s, v[0], b[0], Dot(a[1..], b[1..]), Dot(v[1..], b[1..]));
      ScaledStep(a[0], s, v[0], b[0], Dot(b[1..], a[1..]), Dot(b[1..], v[1..]));
      assert a[0] * b[0] == b[0] * a[0] && v[0] * b[0] == b[0] * v[0];
    }
  }

  lemma ScaledStep(a: int, s: int, v: int, b: int, rest: int, vb: int)
    requires Cong(a, s * v) && Cong(rest, s * vb)
    ensures Cong(a * b + rest, s * (v * b + vb))
  {
    hide Reduce;
    CongMul(a, s * v, b, b);
    CongAdd(a * b, (s * v) * b, rest, s * vb);
    CongEq((s * v) * b + s * vb, s * (v * b + vb));
  }

  // ---- Multi-exponentiation ----

  type Term = (Scalar, Point)

  function Zip(v: Vec, w: Vec): seq<Term> {
    seq(Least(|v|, |w|), i requires 0 <= i < Least(|v|, |w|) => (v[i], w[i]))
  }

  function Multiexp(terms: seq<Term>): int {
    if terms == [] then 0 else terms[0].0 * terms[0].1 + Multiexp(terms[1..])
  }

  lemma {:induction false} MultiexpConcat(s: seq<Term>, t: seq<Term>)
    ensures Multiexp(s + t) == Multiexp(s) + Multiexp(t)
  {
    if s == [] {
      assert s + t == t;
    } else {
      assert (s + t)[1..] == s[1..] + t;
      MultiexpConcat(s[1..], t);
    }
  }

  lemma {:induction false} MultiexpZip(v: Vec, w: Vec)
    ensures Multiexp(Zip(v, w)) == Dot(v, w)
  {
    if v != [] && w != [] {
      assert Zip(v, w)[1..] == Zip(v[1..], w[1..]);
      MultiexpZip(v[1..], w[1..]);
    }
  }

  lemma MultiexpPair(s: Term, t: Term)
    ensures Multiexp([s, t]) == s.0 * s.1 + t.0 * t.1
  {
    assert [s, t][1..] == [t];
    assert Multiexp([t]) == t.0 * t.1 + Multiexp([]);
  }
}
