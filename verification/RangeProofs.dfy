/**
 Range proofs (`crates/bulletproof/src/range_proof.rs`): commitments, `generate`, `verify` and
 completeness. The bit width is the number of generators, 128 in the source.
 */
module RangeProofs {
  import opened Options
  import opened Scalars
  import opened Vectors
  import opened WeightedInnerProduct
  import opened WipFolding
  import opened WipVerifier

  datatype RangeProof = RangeProof(a: Point, wip: WipProof)

  function Commit(gens: Generators, v: Scalar, r: Scalar): Point {
    Add(Mul(gens.h, v), Mul(gens.g, r))
  }

  // ---- Bits ----

  function Pow2(k: nat): (p: nat)
    ensures p > 0
  {
    if k == 0 then 1 else 2 * Pow2(k - 1)
  }

  /** The `i`-th binary digit. */
  function Bit(value: nat, i: nat): Scalar {
    value / Pow2(i) % 2
  }

  function Bits(value: nat, n: nat): Vec {
    seq(n, i requires 0 <= i < n => Bit(value, i))
  }

  // ---- Transcript ----

  function Pointed(a: Point, tag: string, t: Transcript): Transcript {
    t + [Absorb("a", a), Squeeze(tag)]
  }

  function YTranscript(a: Point): Transcript {
    Pointed(a, "y", [])
  }

  function ZTranscript(a: Point): Transcript {
    Pointed(a, "z", YTranscript(a))
  }

  // ---- The statement ----

  function Twos(n: nat): Vec {
    seq(n, i requires 0 <= i < n => Pow(Reduce(2), i))
  }

  /** `2^i * y^(n - i)`. */
  function TwoDescendingY(y: Scalar, n: nat): Vec {
    seq(n, i requires 0 <= i < n => Mul(Pow(Reduce(2), i), Pow(y, n - i)))
  }

  /** The terms added to `A`, interleaved as they are pushed. */
  function HatTerms(gens: Generators, z: Scalar, ds: Vec): seq<Term>
    requires |ds| <= |gens.hBold| == |gens.gBold|
  {
    if ds == [] then [] else
    var k := |ds| - 1;
    HatTerms(gens, z, ds[..k]) + [(Neg(z), gens.hBold[k]), (ds[k], gens.gBold[k])]
  }

  function LastTerm(y: Scalar, z: Scalar, n: nat): Scalar {
    var ySum := Reduce(SumAll(Weights(y, n)));
    var powerSum := Reduce(SumAll(Twos(n)));
    Sub(Sub(Mul(ySum, z), Mul(Mul(powerSum, Pow(y, n + 1)), z)), Mul(ySum, Square(z)))
  }

  function AHat(gens: Generators, v: Point, a: Point, y: Scalar, z: Scalar): Point
    requires |gens.hBold| == |gens.gBold|
  {
    var n := |gens.hBold|;
    Add(a, Reduce(Multiexp(HatTerms(gens, z, AddScalar(TwoDescendingY(y, n), z))
                           + [(Pow(y, n + 1), v), (LastTerm(y, z, n), gens.h)])))
  }

  function ATerms(gens: Generators, alpha: Scalar, aL: Vec, aR: Vec): seq<Term> {
    Zip(aL, gens.hBold) + Zip(aR, gens.gBold) + [(alpha, gens.g)]
  }

  /** The proof of `generate` for a value and its blinding; `None` when it would panic. */
  function Proved(gens: Generators, value: nat, blinding: Scalar, alpha: Scalar, rng: nat -> Scalar, oracle: Oracle): Option<RangeProof>
    requires 2 <= |gens.hBold| == |gens.gBold|
  {
    var n := |gens.hBold|;
    var aL := Bits(value, n);
    var aR := SubScalar(aL, 1);
    var a := Reduce(Multiexp(ATerms(gens, alpha, aL, aR)));
    var y, z := oracle(YTranscript(a)), oracle(ZTranscript(a));
    var wip := Generated(gens, Weights(y, n), SubScalar(aL, z), AddAll(aR, AddScalar(TwoDescendingY(y, n), z)),
                         Add(alpha, Mul(blinding, Pow(y, n + 1))), rng, ZTranscript(a), oracle);
    if wip.None? then None else Some(RangeProof(a, wip.value))
  }

  /** Whether `verify` accepts; `None` when it would panic. */
  function Accepted(gens: Generators, commit: Point, proof: RangeProof, oracle: Oracle): Option<bool>
    requires 2 <= |gens.hBold| == |gens.gBold|
  {
    var n := |gens.hBold|;
    var y, z := oracle(YTranscript(proof.a)), oracle(ZTranscript(proof.a));
    var stmt := WipStmt(AHat(gens, commit, proof.a, y, z), Weights(y, n));
    var terms := Queued(gens, stmt, proof.wip, ZTranscript(proof.a), oracle);
    if terms.None? then None else Some(Reduce(Multiexp(terms.value)) == 0)
  }

  // ---- Bits add up to the value ----

  lemma {:induction false} PowOfTwo(i: nat)
    ensures Cong(Pow(Reduce(2), i), Pow2(i))
  {
    CongReduce(2);
    if i != 0 {
      PowOfTwo(i - 1);
      MulCong(Pow(Reduce(2), i - 1), Reduce(2));
      hide Reduce;
      CongMul(Pow(Reduce(2), i - 1), Pow2(i - 1), Reduce(2), 2);
      CongEq(Pow2(i - 1) * 2, Pow2(i));
    }
  }

  /** Weights `2^i` as integers. */
  function IntTwos(n: nat): seq<int> {
    seq(n, i requires 0 <= i < n => Pow2(i))
  }

  lemma {:induction false} BitsRecompose(value: nat, n: nat)
    ensures Dot(Bits(value, n), IntTwos(n)) == value % Pow2(n)
  {
    if n > 0 {
      BitsRecompose(value, n - 1);
      DotSplit(Bits(value, n), IntTwos(n), n - 1);
      assert Bits(value, n)[..n - 1] == Bits(value, n - 1) && IntTwos(n)[..n - 1] == IntTwos(n - 1);
      assert Bits(value, n)[n - 1..] == [Bit(value, n - 1)] && IntTwos(n)[n - 1..] == [Pow2(n - 1)];
      DotOfOne(Bits(value, n)[n - 1..], IntTwos(n)[n - 1..]);
      DigitStep(value, Pow2(n - 1));
    }
  }

  lemma DigitStep(v: nat, p: nat)
    requires p > 0
    ensures v % p + v / p % 2 * p == v % (2 * p)
  {
    var d, m := v / p, v % p;
    assert v == d * p + m;
    var e, b := d / 2, d % 2;
    assert d == 2 * e + b;
    assert v == e * (2 * p) + (b * p + m) by {
      assert (2 * e + b) * p == e * (2 * p) + b * p;
    }
    assert 0 <= b * p + m < 2 * p;
    QuotientUnique(v, 2 * p, e, b * p + m);
  }

  lemma QuotientUnique(v: int, q: int, k: int, r: int)
    requires q > 0 && v == k * q + r && 0 <= r < q
    ensures v % q == r
  {
    var l := v / q;
    assert q * (k - l) == v % q - r by {
      assert v == q * l + v % q;
      assert q * (k - l) == q * k - q * l;
    }
    SmallMultiple(q, k - l);
  }

  // ---- The weighted product of the shifted bits ----

  lemma {:induction false} SumOfEntries(p: seq<int>, q: seq<int>, b: seq<int>, pw: seq<int>, ys: seq<int>, c: int, z: int)
    requires |p| == |q| == |b| == |pw| == |ys|
    requires forall i :: 0 <= i < |p| ==> Cong(p[i] * q[i], Entry(b[i], pw[i], ys[i], c, z))
    ensures Cong(Dot(p, q), c * Dot(b, pw) + (z - z * z) * SumAll(ys) - z * c * SumAll(pw))
  {
    if p != [] {
      hide Reduce;
      SumOfEntries(p[1..], q[1..], b[1..], pw[1..], ys[1..], c, z);
      EntryStep(p[0] * q[0], b[0], pw[0], ys[0], c, z, Dot(p[1..], q[1..]), Dot(b[1..], pw[1..]),
                SumAll(ys[1..]), SumAll(pw[1..]));
    }
  }

  ghost function Entry(b: int, pw: int, y: int, c: int, z: int): int {
    c * (b * pw) + (z - z * z) * y - z * c * pw
  }

  lemma EntryStep(x: int, b: int, pw: int, y: int, c: int, z: int, rest: int, bp: int, ySum: int, pSum: int)
    requires Cong(x, Entry(b, pw, y, c, z))
    requires Cong(rest, c * bp + (z - z * z) * ySum - z * c * pSum)
    ensures Cong(x + rest, c * (b * pw + bp) + (z - z * z) * (y + ySum) - z * c * (pw + pSum))
  {
    hide Reduce;
    CongAdd(x, Entry(b, pw, y, c, z), rest, c * bp + (z - z * z) * ySum - z * c * pSum);
    EntryIdentity(b * pw, pw, y, c, z - z * z, z * c, bp, ySum, pSum);
    CongEq(Entry(b, pw, y, c, z) + (c * bp + (z - z * z) * ySum - z * c * pSum),
           c * (b * pw + bp) + (z - z * z) * (y + ySum) - z * c * (pw + pSum));
  }

  lemma EntryIdentity(x: int, pw: int, y: int, c: int, d: int, e: int, bp: int, ySum: int, pSum: int)
    ensures c * x + d * y - e * pw + (c * bp + d * ySum - e * pSum) == c * (x + bp) + d * (y + ySum) - e * (pw + pSum)
  {
  }

  lemma BitProduct(b: int, z: int, d: int, y: int)
    requires b == 0 || b == 1
    ensures (b - z) * ((b - 1 + (d + z)) * y) == (b - z) * (d * y) + (z - z * z) * y
  {
    assert (b - z) * (b - 1 + (d + z)) == (b - z) * d + (z - z * z);
    assert (b - z) * ((b - 1 + (d + z)) * y) == ((b - z) * (b - 1 + (d + z))) * y;
    assert ((b - z) * d + (z - z * z)) * y == (b - z) * d * y + (z - z * z) * y;
  }

  lemma BitEntry(b: int, z: int, c: int, pw: int, y: int)
    ensures (b - z) * (c * pw) + (z - z * z) * y == Entry(b, pw, y, c, z)
  {
    assert (b - z) * (c * pw) == b * (c * pw) - z * (c * pw);
  }

  lemma SubCong(a: Scalar, b: Scalar)
    ensures Cong(Sub(a, b), a - b)
  {
    CongReduce(a - b);
  }

  lemma ShiftedFactors(b: Scalar, z: Scalar, d: Scalar, y: Scalar)
    ensures Cong(Sub(b, z) * Mul(Add(Sub(b, 1), Add(d, z)), y), (b - z) * ((b - 1 + (d + z)) * y))
  {
    var q := Add(Sub(b, 1), Add(d, z));
    SubCong(b, z);
    SubCong(b, 1);
    AddCong(d, z);
    AddCong(Sub(b, 1), Add(d, z));
    MulCong(q, y);
    hide Reduce;
    CongAdd(Sub(b, 1), b - 1, Add(d, z), d + z);
    CongMul(q, b - 1 + (d + z), y, y);
    CongMul(Sub(b, z), b - z, Mul(q, y), (b - 1 + (d + z)) * y);
  }

  /** `(b - z)(b - 1 + (d + z)) y` for a bit `b`, when `d * y` is `c * pw`. */
  lemma ShiftedBit(b: Scalar, z: Scalar, d: Scalar, y: Scalar, c: int, pw: int)
    requires b == 0 || b == 1
    requires Cong(d * y, c * pw)
    ensures Cong(Sub(b, z) * Mul(Add(Sub(b, 1), Add(d, z)), y), Entry(b, pw, y, c, z))
  {
    hide Reduce;
    ShiftedFactors(b, z, d, y);
    BitProduct(b, z, d, y);
    CongEq((b - z) * ((b - 1 + (d + z)) * y), (b - z) * (d * y) + (z - z * z) * y);
    CongMul(b - z, b - z, d * y, c * pw);
    CongAdd((b - z) * (d * y), (b - z) * (c * pw), (z - z * z) * y, (z - z * z) * y);
    BitEntry(b, z, c, pw, y);
    CongEq((b - z) * (c * pw) + (z - z * z) * y, Entry(b, pw, y, c, z));
  }

  lemma DescendingWeight(y: Scalar, n: nat, i: nat, d: Scalar, w: Scalar)
    requires i < n && d == TwoDescendingY(y, n)[i] && w == Weights(y, n)[i]
    ensures Cong(d * w, Pow(y, n + 1) * Pow2(i))
  {
    hide Reduce;
    PowOfTwo(i);
    PowAdd(y, n - i, i + 1);
    WeightProduct(Pow(Reduce(2), i), Pow2(i), Pow(y, n - i), Pow(y, i + 1));
  }

  lemma WeightProduct(p: Scalar, pw: int, u: Scalar, v: Scalar)
    requires Cong(p, pw)
    ensures Cong(Mul(p, u) * v, Mul(u, v) * pw)
  {
    MulCong(p, u);
    MulCong(u, v);
    hide Reduce;
    CongMul(Mul(p, u), p * u, v, v);
    CongMul(p, pw, u * v, u * v);
    CongEq(p * u * v, p * (u * v));
    CongMul(Mul(u, v), u * v, pw, pw);
    CongEq(pw * (u * v), u * v * pw);
  }

  ghost function ShiftedL(value: nat, n: nat, z: Scalar): Vec {
    SubScalar(Bits(value, n), z)
  }

  ghost function ShiftedR(value: nat, n: nat, y: Scalar, z: Scalar): Vec {
    AddAll(SubScalar(Bits(value, n), 1), AddScalar(TwoDescendingY(y, n), z))
  }

  lemma WeightedBits(value: nat, n: nat, y: Scalar, z: Scalar)
    requires value < Pow2(n)
    ensures Cong(Dot(ShiftedL(value, n, z), MulAll(ShiftedR(value, n, y, z), Weights(y, n))),
                 Pow(y, n + 1) * value + (z - z * z) * SumAll(Weights(y, n)) - z * Pow(y, n + 1) * SumAll(IntTwos(n)))
  {
    hide Reduce, Pow;
    var p, r, ws := ShiftedL(value, n, z), ShiftedR(value, n, y, z), Weights(y, n);
    var q, b, pw, c := MulAll(r, ws), Bits(value, n), IntTwos(n), Pow(y, n + 1);
    forall i | 0 <= i < n
      ensures Cong((p[i] as int) * q[i], Entry(b[i], pw[i], ws[i], c, z))
    {
      var d := TwoDescendingY(y, n)[i];
      DescendingWeight(y, n, i, d, ws[i]);
      assert b[i] == 0 || b[i] == 1;
      ShiftedBit(b[i], z, d, ws[i], c, pw[i]);
      assert p[i] == Sub(b[i], z) && r[i] == Add(Sub(b[i], 1), Add(d, z)) && q[i] == Mul(r[i], ws[i]);
    }
    SumOfEntries(p, q, b, pw, ws, c, z);
    BitsRecompose(value, n);
    SmallRemainder(value, Pow2(n));
  }

  lemma SmallRemainder(v: nat, q: nat)
    requires v < q
    ensures v % q == v
  {
    QuotientUnique(v, q, 0, v);
  }

  lemma {:induction false} SumAllCong(v: seq<int>, w: seq<int>)
    requires |v| == |w| && forall i :: 0 <= i < |v| ==> Cong(v[i], w[i])
    ensures Cong(SumAll(v), SumAll(w))
  {
    if v != [] {
      hide Reduce;
      SumAllCong(v[1..], w[1..]);
      CongAdd(v[0], w[0], SumAll(v[1..]), SumAll(w[1..]));
    }
  }

  lemma TwosSum(n: nat)
    ensures Cong(Reduce(SumAll(Twos(n))), SumAll(IntTwos(n)))
  {
    CongReduce(SumAll(Twos(n)));
    hide Reduce;
    forall i | 0 <= i < n
      ensures Cong(Twos(n)[i], IntTwos(n)[i])
    {
      PowOfTwo(i);
    }
    SumAllCong(Twos(n), IntTwos(n));
  }

  /** The last coefficient of `calculate_a_hat` completes the weighted product. */
  lemma LastTermValue(y: Scalar, z: Scalar, n: nat)
    ensures Cong(LastTerm(y, z, n),
                 (z - z * z) * SumAll(Weights(y, n)) - z * Pow(y, n + 1) * SumAll(IntTwos(n)))
  {
    TwosSum(n);
    CongReduce(SumAll(Weights(y, n)));
    hide Reduce, Pow, Weights, Twos, IntTwos;
    LastTermAlgebra(Reduce(SumAll(Weights(y, n))), SumAll(Weights(y, n)), Reduce(SumAll(Twos(n))), SumAll(IntTwos(n)),
                    Pow(y, n + 1), z);
  }

  lemma LastTermAlgebra(ySum: Scalar, ys: int, pSum: Scalar, ps: int, c: Scalar, z: Scalar)
    requires Cong(ySum, ys) && Cong(pSum, ps)
    ensures Cong(Sub(Sub(Mul(ySum, z), Mul(Mul(pSum, c), z)), Mul(ySum, Square(z))), (z - z * z) * ys - z * c * ps)
  {
    var t1, t2, t3 := Mul(ySum, z), Mul(Mul(pSum, c), z), Mul(ySum, Square(z));
    MulCong(ySum, z);
    TripleCong(pSum, c, z);
    MulCong(z, z);
    MulCong(ySum, Square(z));
    SubCong(t1, t2);
    SubCong(Sub(t1, t2), t3);
    hide Reduce;
    CongMul(ySum, ys, z, z);
    CongMul(pSum, ps, c, c);
    CongMul(pSum * c, ps * c, z, z);
    CongMul(ySum, ys, Square(z), z * z);
    CongSub(t1, ys * z, t2, ps * c * z);
    CongSub(Sub(t1, t2), ys * z - ps * c * z, t3, ys * (z * z));
    CongEq(ys * z - ps * c * z - ys * (z * z), (z - z * z) * ys - z * c * ps);
  }

  lemma CongSub(a: int, b: int, c: int, d: int)
    requires Cong(a, b) && Cong(c, d)
    ensures Cong(a - c, b - d)
  {
    hide Reduce;
    CongMul(-1, -1, c, d);
    CongAdd(a, b, -1 * c, -1 * d);
    CongEq(a + -1 * c, a - c);
    CongEq(b + -1 * d, b - d);
  }

  // ---- `a_hat` commits to the shifted bits ----

  lemma {:induction false} HatTermsValue(gens: Generators, z: Scalar, ds: Vec)
    requires |ds| <= |gens.hBold| == |gens.gBold|
    ensures Multiexp(HatTerms(gens, z, ds))
         == Dot(seq(|ds|, _ => Neg(z)), gens.hBold[..|ds|]) + Dot(ds, gens.gBold[..|ds|])
  {
    if ds != [] {
      hide Reduce, Neg;
      var n := |ds|;
      var k := n - 1;
      HatTermsValue(gens, z, ds[..k]);
      MultiexpConcat(HatTerms(gens, z, ds[..k]), [(Neg(z), gens.hBold[k]), (ds[k], gens.gBold[k])]);
      MultiexpPair((Neg(z), gens.hBold[k]), (ds[k], gens.gBold[k]));
      var zs := seq(n, _ => Neg(z));
      DotSnoc(zs, gens.hBold, n);
      DotSnoc(ds, gens.gBold, n);
      assert zs[..n] == zs && zs[..k] == seq(k, _ => Neg(z)) && ds[..n] == ds;
    }
  }

  lemma {:induction false} DotAdd(a: seq<int>, v: seq<int>, w: seq<int>, h: seq<int>)
    requires |a| == |v| == |w| == |h|
    requires forall i :: 0 <= i < |a| ==> Cong(a[i], v[i] + w[i])
    ensures Cong(Dot(a, h), Dot(v, h) + Dot(w, h))
  {
    if a != [] {
      hide Reduce;
      DotAdd(a[1..], v[1..], w[1..], h[1..]);
      AddStep(a[0], v[0], w[0], h[0], Dot(a[1..], h[1..]), Dot(v[1..], h[1..]), Dot(w[1..], h[1..]));
    }
  }

  lemma AddStep(a: int, v: int, w: int, h: int, rest: int, vh: int, wh: int)
    requires Cong(a, v + w) && Cong(rest, vh + wh)
    ensures Cong(a * h + rest, v * h + vh + (w * h + wh))
  {
    hide Reduce;
    CongMul(a, v + w, h, h);
    CongAdd(a * h, (v + w) * h, rest, vh + wh);
    CongEq((v + w) * h + (vh + wh), v * h + vh + (w * h + wh));
  }

  lemma ShiftedProducts(gens: Generators, value: nat, y: Scalar, z: Scalar, n: nat)
    requires |gens.hBold| == |gens.gBold| == n
    ensures Cong(Dot(ShiftedL(value, n, z), gens.hBold),
                 Dot(Bits(value, n), gens.hBold) + Dot(seq(n, _ => Neg(z)), gens.hBold))
    ensures Cong(Dot(ShiftedR(value, n, y, z), gens.gBold),
                 Dot(SubScalar(Bits(value, n), 1), gens.gBold) + Dot(AddScalar(TwoDescendingY(y, n), z), gens.gBold))
  {
    var l, b := ShiftedL(value, n, z), Bits(value, n);
    var zs := seq(n, _ => Neg(z));
    forall i | 0 <= i < n
      ensures Cong(l[i], (b[i] as int) + zs[i])
    {
      NegatedShift(b[i], z);
    }
    hide Reduce, Pow, TwoDescendingY;
    DotAdd(l, b, zs, gens.hBold);
    var r, aR, ds := ShiftedR(value, n, y, z), SubScalar(b, 1), AddScalar(TwoDescendingY(y, n), z);
    assert |TwoDescendingY(y, n)| == n;
    forall i | 0 <= i < n
      ensures Cong(r[i], (aR[i] as int) + ds[i])
    {
      AddCong(aR[i], ds[i]);
    }
    DotAdd(r, aR, ds, gens.gBold);
  }

  lemma NegatedShift(b: Scalar, z: Scalar)
    ensures Cong(Sub(b, z), b + Neg(z))
  {
    SubCong(b, z);
    CongReduce(-(z as int));
    hide Reduce;
    CongAdd(b, b, Neg(z), -(z as int));
  }

  lemma APointValue(gens: Generators, alpha: Scalar, aL: Vec, aR: Vec)
    ensures Cong(Reduce(Multiexp(ATerms(gens, alpha, aL, aR))),
                 Dot(aL, gens.hBold) + Dot(aR, gens.gBold) + alpha * gens.g)
  {
    CongReduce(Multiexp(ATerms(gens, alpha, aL, aR)));
    hide Reduce;
    MultiexpConcat(Zip(aL, gens.hBold) + Zip(aR, gens.gBold), [(alpha, gens.g)]);
    MultiexpConcat(Zip(aL, gens.hBold), Zip(aR, gens.gBold));
    MultiexpZip(aL, gens.hBold);
    MultiexpZip(aR, gens.gBold);
    assert [(alpha, gens.g)][1..] == [];
  }

  lemma AHatValue(gens: Generators, v: Point, a: Point, y: Scalar, z: Scalar)
    requires |gens.hBold| == |gens.gBold|
    ensures var n := |gens.hBold|;
            Cong(AHat(gens, v, a, y, z),
                 a + (Dot(seq(n, _ => Neg(z)), gens.hBold) + Dot(AddScalar(TwoDescendingY(y, n), z), gens.gBold)
                      + (Pow(y, n + 1) * v + LastTerm(y, z, n) * gens.h)))
  {
    var n := |gens.hBold|;
    var ds := AddScalar(TwoDescendingY(y, n), z);
    assert |ds| == n && gens.hBold[..n] == gens.hBold && gens.gBold[..n] == gens.gBold;
    var terms := HatTerms(gens, z, ds) + [(Pow(y, n + 1), v), (LastTerm(y, z, n), gens.h)];
    CongReduce(Multiexp(terms));
    AddCong(a, Reduce(Multiexp(terms)));
    hide Reduce, Pow, LastTerm, TwoDescendingY, Neg;
    HatTermsValue(gens, z, ds);
    MultiexpConcat(HatTerms(gens, z, ds), [(Pow(y, n + 1), v), (LastTerm(y, z, n), gens.h)]);
    MultiexpPair((Pow(y, n + 1), v), (LastTerm(y, z, n), gens.h));
    CongAdd(a, a, Reduce(Multiexp(terms)), Multiexp(terms));
  }

  lemma CommitTimes(gens: Generators, c: Scalar, v: Scalar, value: int, r: Scalar)
    requires Cong(v, value)
    ensures Cong(c * Commit(gens, v, r), c * value * gens.h + c * r * gens.g)
  {
    MulCong(gens.h, v);
    MulCong(gens.g, r);
    AddCong(Mul(gens.h, v), Mul(gens.g, r));
    hide Reduce;
    CongMul(gens.h, gens.h, v, value);
    CongAdd(Mul(gens.h, v), gens.h * value, Mul(gens.g, r), gens.g * r);
    CongMul(c, c, Commit(gens, v, r), gens.h * value + gens.g * r);
    CongEq(c * (gens.h * value + gens.g * r), c * value * gens.h + c * r * gens.g);
  }

  /** Collects the parts of `a_hat` by base. */
  lemma HatAlgebra(gens: Generators, hat: int, a: int, v: int, l: int, lB: int, lZ: int, r: int, rB: int, rD: int,
                   w: int, c: int, value: int, last: int, alpha: int, blinding: int, alpha': int)
    requires Cong(hat, a + (lZ + rD + (c * v + last * gens.h)))
    requires Cong(a, lB + rB + alpha * gens.g)
    requires Cong(c * v, c * value * gens.h + c * blinding * gens.g)
    requires Cong(l, lB + lZ) && Cong(r, rB + rD) && Cong(w, c * value + last) && Cong(alpha', alpha + c * blinding)
    ensures Cong(hat, Value(gens, l, r, w, alpha'))
  {
    hide Reduce;
    ValueCong(gens, l, lB + lZ, r, rB + rD, w, c * value + last, alpha', alpha + c * blinding);
    var rest := lZ + rD + last * gens.h;
    CongAdd(a, lB + rB + alpha * gens.g, c * v, c * value * gens.h + c * blinding * gens.g);
    CongAdd(a + c * v, lB + rB + alpha * gens.g + (c * value * gens.h + c * blinding * gens.g), rest, rest);
    CongEq(a + (lZ + rD + (c * v + last * gens.h)), a + c * v + rest);
    HatIdentity(lB + lZ, rB + rD, c * value, last, gens.h, alpha, c * blinding, gens.g);
    CongEq(lB + rB + alpha * gens.g + (c * value * gens.h + c * blinding * gens.g) + rest,
           Value(gens, lB + lZ, rB + rD, c * value + last, alpha + c * blinding));
  }

  lemma HatIdentity(l: int, r: int, cv: int, last: int, h: int, alpha: int, cb: int, g: int)
    ensures l + r + alpha * g + (cv * h + cb * g) + last * h == l + r + (cv + last) * h + (alpha + cb) * g
  {
  }

  /**
   For every value that fits in the bit width, every blinding and all challenges, `a_hat` is a
   valid commitment to the shifted bits, blinded by `alpha + r * y^(n + 1)`.
   */
  lemma AHatCommits(gens: Generators, value: nat, blinding: Scalar, alpha: Scalar, y: Scalar, z: Scalar, t: Transcript)
    requires |gens.hBold| == |gens.gBold| && value < Pow2(|gens.hBold|)
    ensures var n := |gens.hBold|;
            var a := Reduce(Multiexp(ATerms(gens, alpha, Bits(value, n), SubScalar(Bits(value, n), 1))));
            Cong(AHat(gens, Commit(gens, Reduce(value), blinding), a, y, z),
                 Commitment(gens, Weights(y, n),
                            InitialProver(gens, ShiftedL(value, n, z), ShiftedR(value, n, y, z),
                                          Add(alpha, Mul(blinding, Pow(y, n + 1))), t)))
  {
    hide Reduce, Pow, Bits, Commit, AHat, LastTerm, ATerms, Multiexp, TwoDescendingY, ShiftedL, ShiftedR, Weights, Twos,
         IntTwos, Value, AddScalar, SubScalar, Mul, Add, Neg, Dot, MulAll, Cong, SumAll;
    var n := |gens.hBold|;
    var b, aR := Bits(value, n), SubScalar(Bits(value, n), 1);
    var a, v := Reduce(Multiexp(ATerms(gens, alpha, b, aR))), Commit(gens, Reduce(value), blinding);
    var l, r, c := ShiftedL(value, n, z), ShiftedR(value, n, y, z), Pow(y, n + 1);
    CongReduce(value);
    BlindingValue(alpha, blinding, c);
    AHatValue(gens, v, a, y, z);
    APointValue(gens, alpha, b, aR);
    CommitTimes(gens, c, Reduce(value), value, blinding);
    ShiftedProducts(gens, value, y, z, n);
    WeightedProduct(value, n, y, z);
    HatAlgebra(gens, AHat(gens, v, a, y, z), a, v, Dot(l, gens.hBold), Dot(b, gens.hBold),
               Dot(seq(n, _ => Neg(z)), gens.hBold), Dot(r, gens.gBold), Dot(aR, gens.gBold),
               Dot(AddScalar(TwoDescendingY(y, n), z), gens.gBold),
               Dot(l, MulAll(r, Weights(y, n))), c, value, LastTerm(y, z, n), alpha, blinding,
               Add(alpha, Mul(blinding, c)));
    InitialCommitment(gens, Weights(y, n), l, r, Add(alpha, Mul(blinding, c)), t);
  }

  lemma InitialCommitment(gens: Generators, y: Vec, a: Vec, b: Vec, alpha: Scalar, t: Transcript)
    ensures Commitment(gens, y, InitialProver(gens, a, b, alpha, t))
         == Value(gens, Dot(a, gens.hBold), Dot(b, gens.gBold), Dot(a, MulAll(b, y)), alpha)
  {
  }

  lemma WeightedProduct(value: nat, n: nat, y: Scalar, z: Scalar)
    requires value < Pow2(n)
    ensures Cong(Dot(ShiftedL(value, n, z), MulAll(ShiftedR(value, n, y, z), Weights(y, n))),
                 Pow(y, n + 1) * value + LastTerm(y, z, n))
  {
    hide Reduce, Pow, LastTerm, Weights, IntTwos, ShiftedL, ShiftedR;
    var c := Pow(y, n + 1);
    var last: int := (z - z * z) * SumAll(Weights(y, n)) - z * c * SumAll(IntTwos(n));
    WeightedBits(value, n, y, z);
    LastTermValue(y, z, n);
    CongAdd(c * value, c * value, last, LastTerm(y, z, n));
    CongEq(c * value + last, Pow(y, n + 1) * value + (z - z * z) * SumAll(Weights(y, n)) - z * Pow(y, n + 1) * SumAll(IntTwos(n)));
  }

  lemma BlindingValue(alpha: Scalar, blinding: Scalar, c: Scalar)
    ensures Cong(Add(alpha, Mul(blinding, c)), alpha + c * blinding)
  {
    Answer(alpha, blinding, c);
    hide Reduce;
    CongEq(alpha + blinding * c, alpha + c * blinding);
  }

  /**
   `verify` accepts every proof of `generate`, for every power-of-two width, every value of that
   width, every blinding, all random draws and all challenges on which the prover finishes.
   */
  lemma RangeCompleteness(gens: Generators, value: nat, blinding: Scalar, alpha: Scalar, rng: nat -> Scalar, oracle: Oracle)
    requires 2 <= |gens.hBold| == |gens.gBold| && PowerOfTwo(|gens.hBold|) && value < Pow2(|gens.hBold|)
    requires Proved(gens, value, blinding, alpha, rng, oracle).Some?
    ensures Accepted(gens, Commit(gens, Reduce(value), blinding),
                     Proved(gens, value, blinding, alpha, rng, oracle).value, oracle) == Some(true)
  {
    var n := |gens.hBold|;
    var aL, aR := Bits(value, n), SubScalar(Bits(value, n), 1);
    var a := Reduce(Multiexp(ATerms(gens, alpha, aL, aR)));
    var y, z := oracle(YTranscript(a)), oracle(ZTranscript(a));
    var ws, l, r := Weights(y, n), ShiftedL(value, n, z), ShiftedR(value, n, y, z);
    assert |l| == |r| == n;
    var stmt := WipStmt(AHat(gens, Commit(gens, Reduce(value), blinding), a, y, z), ws);
    hide Reduce, Pow, Weights, AHat, Commit, Multiexp, Generated, Queued, TwoDescendingY, Bits, Commitment, ATerms;
    AHatCommits(gens, value, blinding, alpha, y, z, ZTranscript(a));
    WeightsSize(y, n);
    WipCompleteness(gens, stmt, y, l, r, Add(alpha, Mul(blinding, Pow(y, n + 1))), rng, ZTranscript(a), oracle);
  }

  lemma WeightsSize(y: Scalar, n: nat)
    ensures |Weights(y, n)| == n
  {
  }

  // ---- The code ----

  /** `calculate_a_l`: the binary digits, least significant first. */
  method CalculateAL(value: nat, n: nat) returns (output: Vec)
    ensures output == Bits(value, n)
  {
    output := [];
    for i := 0 to n
      invariant output == Bits(value, i)
    {
      output := output + [value / Pow2(i) % 2];
    }
  }

  /** `calculate_a_terms`. */
  method CalculateATerms(gens: Generators, alpha: Scalar, aL: Vec, aR: Vec) returns (output: seq<Term>)
    requires |aL| <= |gens.hBold| && |aR| <= |gens.gBold|
    ensures output == ATerms(gens, alpha, aL, aR)
  {
    output := [];
    for i := 0 to |aL|
      invariant output == Zip(aL, gens.hBold)[..i]
    {
      output := output + [(aL[i], gens.hBold[i])];
    }
    for i := 0 to |aR|
      invariant output == Zip(aL, gens.hBold) + Zip(aR, gens.gBold)[..i]
    {
      output := output + [(aR[i], gens.gBold[i])];
    }
    output := output + [(alpha, gens.g)];
  }

  /** The powers of `y` pushed one by one in `calculate_a_hat`. */
  method PushPowers(y: Scalar, n: nat) returns (ys: Vec)
    requires n > 0
    ensures ys == Weights(y, n)
  {
    hide Reduce;
    ys := [y];
    FirstPower(y);
    for i := 1 to n
      invariant ys == Weights(y, i)
    {
      ys := ys + [Mul(ys[i - 1], y)];
    }
  }

  lemma FirstPower(y: Scalar)
    ensures Pow(y, 1) == y
  {
    assert Pow(y, 0) == 1;
    CongReduce(y);
  }

  /** The loop of `calculate_a_hat` that pushes two terms per generator. */
  method PushHatTerms(gens: Generators, z: Scalar, ds: Vec) returns (terms: seq<Term>)
    requires |ds| <= |gens.hBold| == |gens.gBold|
    ensures terms == HatTerms(gens, z, ds)
  {
    terms := [];
    for i := 0 to |ds|
      invariant terms == HatTerms(gens, z, ds[..i])
    {
      assert ds[..i + 1][..i] == ds[..i];
      terms := terms + [(Neg(z), gens.hBold[i])];
      terms := terms + [(ds[i], gens.gBold[i])];
    }
    assert ds[..|ds|] == ds;
  }

  /** `calculate_a_hat`. */
  method CalculateAHat(gens: Generators, v: Point, a: Point, y: Scalar, z: Scalar)
    returns (twoDescendingY: Vec, yPlusOne: Scalar, aHat: Point)
    requires 2 <= |gens.hBold| == |gens.gBold|
    ensures twoDescendingY == TwoDescendingY(y, |gens.hBold|) && yPlusOne == Pow(y, |gens.hBold| + 1)
    ensures aHat == AHat(gens, v, a, y, z)
  {
    hide Reduce, Multiexp, Mul, Add, Sub, SumAll, HatTerms, AddScalar, Pow, TwoDescendingY, Reversed, MulAll, Weights;
    var n := |gens.hBold|;
    var powers := NewPower(Reduce(2), n);
    assert powers == Twos(n);
    var ys := PushPowers(y, n);
    var reversed := Reversed(ys);
    DescendingPowers(y, n);
    yPlusOne := Mul(reversed[0], y);
    var ySum := Reduce(SumAll(ys));
    twoDescendingY := MulAll(powers, reversed);
    assert |AddScalar(twoDescendingY, z)| == n by {
      AddScalarSize(twoDescendingY, z);
    }
    var terms := PushHatTerms(gens, z, AddScalar(twoDescendingY, z));
    var last := Sub(Sub(Mul(ySum, z), Mul(Mul(Reduce(SumAll(powers)), yPlusOne), z)), Mul(ySum, Square(z)));
    terms := terms + [(yPlusOne, v), (last, gens.h)];
    aHat := Add(a, Reduce(Multiexp(terms)));
  }

  function Reversed(v: Vec): Vec {
    seq(|v|, i requires 0 <= i < |v| => v[|v| - 1 - i])
  }

  lemma DescendingPowers(y: Scalar, n: nat)
    requires n > 0
    ensures |Reversed(Weights(y, n))| == n && Mul(Reversed(Weights(y, n))[0], y) == Pow(y, n + 1)
    ensures MulAll(Twos(n), Reversed(Weights(y, n))) == TwoDescendingY(y, n) && |TwoDescendingY(y, n)| == n
  {
    hide Reduce;
    var l, r := MulAll(Twos(n), Reversed(Weights(y, n))), TwoDescendingY(y, n);
    forall i | 0 <= i < n
      ensures l[i] == r[i]
    {
      hide Mul, Pow;
    }
  }

  lemma AddScalarSize(v: Vec, s: Scalar)
    ensures |AddScalar(v, s)| == |v|
  {
  }

  /** `generate`: a proof for the value and its commitment. */
  method GenerateProof(gens: Generators, value: nat, blinding: Scalar, alpha: Scalar, rng: nat -> Scalar, oracle: Oracle)
    returns (proof: Option<RangeProof>, commit: Point)
    requires 2 <= |gens.hBold| == |gens.gBold|
    ensures commit == Commit(gens, Reduce(value), blinding)
    ensures proof == Proved(gens, value, blinding, alpha, rng, oracle)
  {
    hide Reduce, Multiexp, Pow, TwoDescendingY, Generated, Add, Mul;
    var n := |gens.hBold|;
    commit := Commit(gens, Reduce(value), blinding);
    var aL := CalculateAL(value, n);
    var aR := SubScalar(aL, 1);
    var aTerms := CalculateATerms(gens, alpha, aL, aR);
    var a := Reduce(Multiexp(aTerms));
    var y, z := oracle(YTranscript(a)), oracle(ZTranscript(a));
    var twoDescendingY, yPlusOne, aHat := CalculateAHat(gens, commit, a, y, z);
    var stmt := NewStmt(aHat, y, n);
    var wip := Generate(gens, stmt, SubScalar(aL, z), AddAll(aR, AddScalar(twoDescendingY, z)),
                        Add(alpha, Mul(blinding, yPlusOne)), rng, ZTranscript(a), oracle);
    proof := if wip.None? then None else Some(RangeProof(a, wip.value));
  }

  /** `verify`. */
  method VerifyProof(gens: Generators, commit: Point, proof: RangeProof, oracle: Oracle) returns (accepted: Option<bool>)
    requires 2 <= |gens.hBold| == |gens.gBold|
    ensures accepted == Accepted(gens, commit, proof, oracle)
  {
    hide Reduce, Multiexp, Pow, AHat, Queued;
    var y, z := oracle(YTranscript(proof.a)), oracle(ZTranscript(proof.a));
    var _, _, aHat := CalculateAHat(gens, commit, proof.a, y, z);
    var stmt := NewStmt(aHat, y, |gens.hBold|);
    var terms := Verify(gens, stmt, proof.wip, ZTranscript(proof.a), oracle);
    accepted := if terms.None? then None else Some(Reduce(Multiexp(terms.value)) == 0);
  }
}
