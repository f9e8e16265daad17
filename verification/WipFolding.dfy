/** Each halving round of the prover keeps its commitment. */
module WipFolding {
  import opened Options
  import opened Scalars
  import opened Vectors
  import opened WeightedInnerProduct

  lemma Halves(v: Vec, m: nat)
    requires |v| == 2 * m
    ensures Half(|v|) == m && Fst(v) == v[..m] && Snd(v) == v[m..]
  {
  }

  // ---- Products of two vectors folded in opposite directions ----

  lemma Collapse(c: int, x: int)
    requires Cong(c, 1)
    ensures Cong(c * x, x)
  {
    CongMul(c, 1, x, x);
  }

  /** The products kept by a round and its two cross terms. */
  ghost function Crossed(p: int, q: int, x11: int, x12: int, x21: int, x22: int): int {
    x11 + x22 + (p * p * x12 + q * q * x21)
  }

  lemma CrossTerms(d: int, p: int, q: int, x11: int, x12: int, x21: int, x22: int)
    requires Cong(p * q, 1) && Cong(d, Bilinear(p, q, q, p, x11, x12, x21, x22))
    ensures Cong(d, Crossed(p, q, x11, x12, x21, x22))
  {
    hide Reduce;
    Collapse(p * q, x11);
    Collapse(p * q, x22);
    var cross := p * p * x12 + q * q * x21;
    CongAdd(p * q * x11, x11, p * q * x22, x22);
    CongAdd(p * q * x11 + p * q * x22, x11 + x22, cross, cross);
    CongEq(q * p * x22, p * q * x22);
  }

  lemma FoldProduct(a: Vec, v: Vec, w: Vec, b: Vec, g: Vec, h: Vec, p: Scalar, q: Scalar)
    requires Mul(p, q) == 1 && |a| == |b|
    requires Combines(a, p, v, q, w) && Combines(b, q, g, p, h)
    ensures Cong(Dot(a, b), Crossed(p, q, Dot(v, g), Dot(v, h), Dot(w, g), Dot(w, h)))
  {
    UnitCong(p, q);
    hide Reduce, Combines;
    DotBilinear(a, p, v, q, w, b, q, g, p, h);
    CrossTerms(Dot(a, b), p, q, Dot(v, g), Dot(v, h), Dot(w, g), Dot(w, h));
  }

  lemma {:induction false} DotComm(a: seq<int>, b: seq<int>)
    ensures Dot(a, b) == Dot(b, a)
  {
    if a != [] && b != [] {
      DotComm(a[1..], b[1..]);
      assert a[0] * b[0] == b[0] * a[0];
    }
  }

  // ---- The folded vectors of a round ----

  lemma FoldCombines(v: Vec, s: Scalar, t: Scalar)
    ensures Combines(FoldGens(v, s, t), s, Fst(v), t, Snd(v))
  {
    forall i | 0 <= i < Half(|v|)
      ensures Cong(FoldGens(v, s, t)[i], s * Fst(v)[i] + t * Snd(v)[i])
    {
      CongReduce(s * Fst(v)[i] + t * Snd(v)[i]);
    }
  }

  lemma ScaledSum(v: Scalar, s: Scalar, w: Scalar, t: Scalar)
    ensures Cong(Add(Mul(v, s), Mul(w, t)), s * v + t * w)
  {
    CongReduce(v * s);
    CongReduce(w * t);
    CongReduce(Mul(v, s) + Mul(w, t));
    hide Reduce;
    CongEq(v * s, s * v);
    CongEq(w * t, t * w);
    CongAdd(Mul(v, s), s * v, Mul(w, t), t * w);
  }

  /** `p * v + (y * q) * w` is `p * v + q * (y * w)`. */
  lemma WeightMoves(w: Scalar, y: Scalar, q: Scalar)
    ensures Mul(w, Mul(y, q)) == Mul(Mul(w, y), q)
  {
    MulAssoc(w, y, q);
  }

  lemma AddScaledCombines(v: Vec, s: Scalar, w: Vec, t: Scalar)
    requires |v| == |w|
    ensures Combines(AddAll(Scale(v, s), Scale(w, t)), s, v, t, w)
  {
    forall i | 0 <= i < |v|
      ensures Cong(AddAll(Scale(v, s), Scale(w, t))[i], s * v[i] + t * w[i])
    {
      ScaledSum(v[i], s, w[i], t);
    }
  }

  lemma FoldedLeft(v: Vec, w: Vec, p: Scalar, y: Scalar, q: Scalar)
    requires |v| == |w|
    ensures Combines(AddAll(Scale(v, p), Scale(w, Mul(y, q))), p, v, q, Scale(w, y))
  {
    var a := AddAll(Scale(v, p), Scale(w, Mul(y, q)));
    assert a == AddAll(Scale(v, p), Scale(Scale(w, y), q)) by {
      forall i | 0 <= i < |v|
        ensures a[i] == AddAll(Scale(v, p), Scale(Scale(w, y), q))[i]
      {
        WeightMoves(w[i], y, q);
      }
    }
    AddScaledCombines(v, p, Scale(w, y), q);
  }

  lemma FoldedWeightedGens(v: Vec, p: Scalar, y: Scalar, q: Scalar)
    ensures Combines(FoldGens(v, q, Mul(p, y)), q, Fst(v), p, Scale(Snd(v), y))
  {
    forall i | 0 <= i < Half(|v|)
      ensures Cong(FoldGens(v, q, Mul(p, y))[i], q * Fst(v)[i] + p * Scale(Snd(v), y)[i])
    {
      WeightedGen(q, Fst(v)[i], p, y, Snd(v)[i]);
    }
  }

  lemma WeightedGen(q: Scalar, v: Scalar, p: Scalar, y: Scalar, w: Scalar)
    ensures Cong(Reduce(q * v + Mul(p, y) * w), q * v + p * Mul(w, y))
  {
    CongReduce(q * v + Mul(p, y) * w);
    hide Reduce;
    FactorMoves(p, y, w);
    CongAdd(q * v, q * v, Mul(p, y) * w, p * Mul(w, y));
  }

  lemma FactorMoves(p: Scalar, y: Scalar, w: Scalar)
    ensures Cong(Mul(p, y) * w, p * Mul(w, y))
  {
    CongReduce(p * y);
    CongReduce(w * y);
    hide Reduce;
    CongMul(Mul(p, y), p * y, w, w);
    CongMul(p, p, Mul(w, y), w * y);
    CongEq(p * (w * y), p * y * w);
  }

  lemma FoldedWeights(v: Vec, w: Vec, y: Vec, s: Scalar, t: Scalar)
    requires |v| == |w| <= |y|
    ensures Combines(MulAll(AddAll(Scale(v, s), Scale(w, t)), y), s, MulAll(v, y), t, MulAll(w, y))
  {
    var b := AddAll(Scale(v, s), Scale(w, t));
    forall i | 0 <= i < |v|
      ensures Cong(MulAll(b, y)[i], s * MulAll(v, y)[i] + t * MulAll(w, y)[i])
    {
      hide Reduce;
      ScaledSum(v[i], s, w[i], t);
      WeightedEntry(b[i], s, v[i], t, w[i], y[i]);
    }
  }

  lemma WeightedEntry(b: Scalar, s: Scalar, v: Scalar, t: Scalar, w: Scalar, y: Scalar)
    requires Cong(b, s * v + t * w)
    ensures Cong(Mul(b, y), s * Mul(v, y) + t * Mul(w, y))
  {
    CongReduce(b * y);
    CongReduce(v * y);
    CongReduce(w * y);
    hide Reduce;
    CongMul(b, s * v + t * w, y, y);
    CongMul(s, s, Mul(v, y), v * y);
    CongMul(t, t, Mul(w, y), w * y);
    CongAdd(s * Mul(v, y), s * (v * y), t * Mul(w, y), t * (w * y));
    CongEq((s * v + t * w) * y, s * (v * y) + t * (w * y));
  }

  // ---- The two points of a round ----

  lemma TermsValue(v: Vec, h: Vec, b: Vec, g: Vec, s: Term, t: Term)
    ensures Multiexp(Zip(v, h) + Zip(b, g) + [s, t]) == Dot(v, h) + Dot(b, g) + (s.0 * s.1 + t.0 * t.1)
  {
    MultiexpConcat(Zip(v, h) + Zip(b, g), [s, t]);
    MultiexpConcat(Zip(v, h), Zip(b, g));
    MultiexpZip(v, h);
    MultiexpZip(b, g);
    MultiexpPair(s, t);
  }

  /** Value of a committed point: two products, a weighted product and a blinding. */
  ghost function Value(gens: Generators, ah: int, bg: int, w: int, d: int): int {
    ah + bg + w * gens.h + d * gens.g
  }

  lemma PointValue(gens: Generators, v: Vec, h: Vec, b: Vec, g: Vec, x: int, ah: int, w: Scalar, d: Scalar)
    requires Cong(w, x) && Cong(Dot(v, h), ah)
    ensures Cong(Reduce(Multiexp(Zip(v, h) + Zip(b, g) + [(w, gens.h), (d, gens.g)])),
                 Value(gens, ah, Dot(b, g), x, d))
  {
    CongReduce(Multiexp(Zip(v, h) + Zip(b, g) + [(w, gens.h), (d, gens.g)]));
    hide Reduce;
    TermsValue(v, h, b, g, (w, gens.h), (d, gens.g));
    CongMul(w, x, gens.h, gens.h);
    CongAdd(Dot(v, h), ah, w * gens.h, x * gens.h);
    CongAdd(Dot(v, h) + w * gens.h, ah + x * gens.h, Dot(b, g) + d * gens.g, Dot(b, g) + d * gens.g);
  }

  lemma ScaledEntries(v: Vec, s: Scalar)
    ensures ScaledBy(Scale(v, s), s, v)
  {
    forall i | 0 <= i < |v|
      ensures Cong(Scale(v, s)[i], s * v[i])
    {
      CongReduce(v[i] * s);
      CongEq(v[i] * s, s * v[i]);
    }
  }

  lemma ScaleMoves(v: Vec, s: Scalar, w: Vec)
    requires |v| == |w|
    ensures Cong(Dot(Scale(v, s), w), Dot(v, Scale(w, s)))
  {
    ScaledEntries(v, s);
    ScaledEntries(w, s);
    hide Reduce;
    DotScaled(Scale(v, s), s, v, w);
    DotScaled(Scale(w, s), s, w, v);
  }

  /** Scaling one side by a unit and the other by its inverse cancels. */
  lemma ScaleCancels(v: Vec, w: Vec, s: Scalar, t: Scalar)
    requires |v| == |w| && Mul(s, t) == 1
    ensures Cong(Dot(Scale(v, s), Scale(w, t)), Dot(v, w))
  {
    ScaledEntries(v, s);
    ScaledEntries(w, t);
    hide Reduce;
    DotScaled(Scale(v, s), s, v, Scale(w, t));
    DotScaled(Scale(w, t), t, w, v);
    CancelStep(s, t, Dot(v, Scale(w, t)), Dot(v, w));
  }

  lemma CancelStep(s: Scalar, t: Scalar, x: int, y: int)
    requires Mul(s, t) == 1 && Cong(x, t * y)
    ensures Cong(s * x, y)
  {
    hide Reduce;
    UnitCong(s, t);
    CongMul(s, s, x, t * y);
    CongEq(s * (t * y), s * t * y);
    Collapse(s * t, y);
  }

  // ---- Weights ----

  lemma WeightsShift(y: Scalar, n: nat, m: nat, i: nat)
    requires 0 < m && m + i < n
    ensures Weights(y, n)[m + i] == Mul(Weights(y, n)[m - 1], Weights(y, n)[i])
  {
    PowAdd(y, m, i + 1);
  }

  lemma WeightedSecondHalf(b: Scalar, y: Scalar, yi: Scalar, w: Scalar, w2: Scalar)
    requires w == Mul(b, Mul(y, yi)) && w2 == Mul(b, yi)
    ensures Cong(w, y * w2)
  {
    hide Reduce;
    CongReduce(y * yi);
    CongReduce(b * yi);
    CongReduce(b * Mul(y, yi));
    CongMul(b, b, Mul(y, yi), y * yi);
    CongMul(y, y, w2, b * yi);
    CongEq(b * (y * yi), y * (b * yi));
  }

  lemma SecondHalfEntries(b: Vec, y: Vec, y0: Scalar, m: nat)
    requires |b| == 2 * m && 0 < m && y == Weights(y0, |y|) && 2 * m <= |y|
    ensures ScaledBy(MulAll(b, y)[m..], y[m - 1], MulAll(b[m..], y))
  {
    hide Reduce;
    var w, w2 := MulAll(b, y)[m..], MulAll(b[m..], y);
    forall i | 0 <= i < |w|
      ensures Cong(w[i], (y[m - 1] as int) * w2[i])
    {
      WeightsShift(y0, |y|, m, i);
      WeightedSecondHalf(b[m + i], y[m - 1], y[i], w[i], w2[i]);
    }
  }

  lemma WeightedSplit(a: Vec, b: Vec, y: Vec, y0: Scalar, m: nat)
    requires |a| == |b| == 2 * m && 0 < m && y == Weights(y0, |y|) && 2 * m <= |y|
    ensures Cong(Dot(a, MulAll(b, y)),
                 Dot(a[..m], MulAll(b[..m], y)) + Dot(Scale(a[m..], y[m - 1]), MulAll(b[m..], y)))
  {
    var w, w2 := MulAll(b, y), MulAll(b[m..], y);
    hide Reduce;
    DotSplit(a, w, m);
    assert w[..m] == MulAll(b[..m], y);
    SecondHalfEntries(b, y, y0, m);
    DotScaled(w[m..], y[m - 1], w2, a[m..]);
    ScaledEntries(a[m..], y[m - 1]);
    DotScaled(Scale(a[m..], y[m - 1]), y[m - 1], a[m..], w2);
    CongShared(Dot(a[..m], w[..m]), Dot(a[m..], w[m..]), Dot(Scale(a[m..], y[m - 1]), w2),
               y[m - 1] * Dot(a[m..], w2));
  }

  lemma CongShared(x: int, a: int, b: int, c: int)
    requires Cong(a, c) && Cong(b, c)
    ensures Cong(x + a, x + b)
  {
    CongAdd(x, x, a, b);
  }

  // ---- One round ----

  ghost predicate ValidKeys(k: Keys) {
    Mul(k.p, k.pInv) == 1 && Mul(k.y, k.yInv) == 1
  }

  lemma LeftValue(gens: Generators, y: Vec, s: Prover, k: Keys, d: Scalar, m: nat)
    requires Balanced(s, 2 * m) && m <= |y|
    ensures Cong(Reduce(Multiexp(LeftTerms(gens, y, s, k.yInv, d))),
                 Value(gens, Dot(Fst(s.a), Scale(Snd(s.hBold), k.yInv)), Dot(Snd(s.b), Fst(s.gBold)),
                       Dot(Fst(s.a), MulAll(Snd(s.b), y)), d))
  {
    var a1, h2, b2, g1 := Fst(s.a), Snd(s.hBold), Snd(s.b), Fst(s.gBold);
    CongReduce(Dot(a1, MulAll(b2, y)));
    ScaleMoves(a1, k.yInv, h2);
    PointValue(gens, Scale(a1, k.yInv), h2, b2, g1, Dot(a1, MulAll(b2, y)), Dot(a1, Scale(h2, k.yInv)),
               Wip(a1, b2, y), d);
  }

  lemma RightValue(gens: Generators, y: Vec, s: Prover, yHat: Scalar, d: Scalar, m: nat)
    requires Balanced(s, 2 * m) && m <= |y|
    ensures Cong(Reduce(Multiexp(RightTerms(gens, y, s, yHat, d))),
                 Value(gens, Dot(Scale(Snd(s.a), yHat), Fst(s.hBold)), Dot(Fst(s.b), Snd(s.gBold)),
                       Dot(Scale(Snd(s.a), yHat), MulAll(Fst(s.b), y)), d))
  {
    var a2, h1, b1, g2 := Scale(Snd(s.a), yHat), Fst(s.hBold), Fst(s.b), Snd(s.gBold);
    CongReduce(Dot(a2, MulAll(b1, y)));
    PointValue(gens, a2, h1, b1, g2, Dot(a2, MulAll(b1, y)), Dot(a2, h1), Wip(a2, b1, y), d);
  }

  /** The products of a balanced state, split at the middle. */
  lemma SplitProducts(y: Vec, y0: Scalar, s: Prover, k: Keys, m: nat)
    requires Balanced(s, 2 * m) && 0 < m && y == Weights(y0, |y|) && 2 * m <= |y|
    requires k.y == y[m - 1] && ValidKeys(k)
    ensures Cong(Dot(s.a, s.hBold),
                 Dot(Fst(s.a), Fst(s.hBold)) + Dot(Scale(Snd(s.a), k.y), Scale(Snd(s.hBold), k.yInv)))
    ensures Dot(s.b, s.gBold) == Dot(Fst(s.b), Fst(s.gBold)) + Dot(Snd(s.b), Snd(s.gBold))
    ensures Cong(Dot(s.a, MulAll(s.b, y)),
                 Dot(Fst(s.a), MulAll(Fst(s.b), y)) + Dot(Scale(Snd(s.a), k.y), MulAll(Snd(s.b), y)))
  {
    Halves(s.a, m);
    Halves(s.b, m);
    Halves(s.hBold, m);
    Halves(s.gBold, m);
    hide Reduce;
    DotSplit(s.a, s.hBold, m);
    DotSplit(s.b, s.gBold, m);
    ScaleCancels(Snd(s.a), Snd(s.hBold), k.y, k.yInv);
    CongShared(Dot(Fst(s.a), Fst(s.hBold)), Dot(Snd(s.a), Snd(s.hBold)),
               Dot(Scale(Snd(s.a), k.y), Scale(Snd(s.hBold), k.yInv)), Dot(Snd(s.a), Snd(s.hBold)));
    WeightedSplit(s.a, s.b, y, y0, m);
  }

  /** The products after folding: those before, and the products of the two points. */
  lemma FoldedProducts(y: Vec, s: Prover, f: Prover, k: Keys, m: nat)
    requires Balanced(s, 2 * m) && ValidKeys(k) && m <= |y|
    requires exists l, r, dl, dr, t :: f == Folded(s, k, l, r, dl, dr, t)
    ensures Balanced(f, m)
    ensures var a2, h2 := Scale(Snd(s.a), k.y), Scale(Snd(s.hBold), k.yInv);
            Cong(Dot(f.a, f.hBold), Crossed(k.p, k.pInv, Dot(Fst(s.a), Fst(s.hBold)),
                                            Dot(Fst(s.a), h2), Dot(a2, Fst(s.hBold)), Dot(a2, h2)))
    ensures Cong(Dot(f.b, f.gBold), Crossed(k.p, k.pInv, Dot(Fst(s.b), Fst(s.gBold)),
                                            Dot(Snd(s.b), Fst(s.gBold)), Dot(Fst(s.b), Snd(s.gBold)),
                                            Dot(Snd(s.b), Snd(s.gBold))))
    ensures var a2 := Scale(Snd(s.a), k.y);
            var w1, w2 := MulAll(Fst(s.b), y), MulAll(Snd(s.b), y);
            Cong(Dot(f.a, MulAll(f.b, y)), Crossed(k.p, k.pInv, Dot(Fst(s.a), w1), Dot(Fst(s.a), w2),
                                                   Dot(a2, w1), Dot(a2, w2)))
  {
    hide Reduce, Cong;
    FoldedLeft(Fst(s.a), Snd(s.a), k.p, k.y, k.pInv);
    FoldedWeightedGens(s.hBold, k.p, k.yInv, k.pInv);
    FoldProduct(f.a, Fst(s.a), Scale(Snd(s.a), k.y), f.hBold, Fst(s.hBold), Scale(Snd(s.hBold), k.yInv),
                k.p, k.pInv);
    FoldCombines(s.gBold, k.p, k.pInv);
    AddScaledCombines(Fst(s.b), k.pInv, Snd(s.b), k.p);
    FoldProduct(f.gBold, Fst(s.gBold), Snd(s.gBold), f.b, Fst(s.b), Snd(s.b), k.p, k.pInv);
    DotComm(f.b, f.gBold);
    DotComm(Fst(s.b), Fst(s.gBold));
    DotComm(Snd(s.b), Fst(s.gBold));
    DotComm(Fst(s.b), Snd(s.gBold));
    DotComm(Snd(s.b), Snd(s.gBold));
    FoldedWeights(Fst(s.b), Snd(s.b), y, k.pInv, k.p);
    FoldProduct(f.a, Fst(s.a), Scale(Snd(s.a), k.y), MulAll(f.b, y), MulAll(Fst(s.b), y), MulAll(Snd(s.b), y),
                k.p, k.pInv);
  }

  lemma ValueCong(gens: Generators, a: int, a': int, b: int, b': int, w: int, w': int, d: int, d': int)
    requires Cong(a, a') && Cong(b, b') && Cong(w, w') && Cong(d, d')
    ensures Cong(Value(gens, a, b, w, d), Value(gens, a', b', w', d'))
  {
    hide Reduce;
    CongAdd(a, a', b, b');
    CongMul(w, w', gens.h, gens.h);
    CongMul(d, d', gens.g, gens.g);
    CongAdd(a + b, a' + b', w * gens.h, w' * gens.h);
    CongAdd(a + b + w * gens.h, a' + b' + w' * gens.h, d * gens.g, d' * gens.g);
  }

  lemma ValueLinear(gens: Generators, p: int, q: int, a: int, b: int, w: int, d: int,
                    aL: int, bL: int, wL: int, dL: int, aR: int, bR: int, wR: int, dR: int)
    ensures Value(gens, a + (p * aL + q * aR), b + (p * bL + q * bR), w + (p * wL + q * wR), d + (p * dL + q * dR))
         == Value(gens, a, b, w, d) + p * Value(gens, aL, bL, wL, dL) + q * Value(gens, aR, bR, wR, dR)
  {
    LinearTerm(p, q, w, wL, wR, gens.h);
    LinearTerm(p, q, d, dL, dR, gens.g);
    LinearSum(p, aL, bL, wL * gens.h, dL * gens.g);
    LinearSum(q, aR, bR, wR * gens.h, dR * gens.g);
  }

  lemma LinearTerm(p: int, q: int, x: int, l: int, r: int, h: int)
    ensures (x + (p * l + q * r)) * h == x * h + p * (l * h) + q * (r * h)
  {
  }

  lemma LinearSum(p: int, a: int, b: int, c: int, d: int)
    ensures p * (a + b + c + d) == p * a + p * b + p * c + p * d
  {
  }

  lemma ScaledSquare(d: Scalar, p: Scalar)
    ensures Cong(Mul(d, Square(p)), p * p * d)
  {
    CongReduce(p * p);
    CongReduce(d * Square(p));
    hide Reduce;
    CongMul(d, d, Square(p), p * p);
    CongEq(d * (p * p), p * p * d);
  }

  lemma BlindingCong(alpha: Scalar, dl: Scalar, p: Scalar, dr: Scalar, q: Scalar)
    ensures Cong(Add(alpha, Add(Mul(dl, Square(p)), Mul(dr, Square(q)))), alpha + (p * p * dl + q * q * dr))
  {
    var l, r := Mul(dl, Square(p)), Mul(dr, Square(q));
    AddCong(l, r);
    AddCong(alpha, Add(l, r));
    hide Reduce;
    ScaledSquare(dl, p);
    ScaledSquare(dr, q);
    CongAdd(l, p * p * dl, r, q * q * dr);
    CongAdd(alpha, alpha, Add(l, r), p * p * dl + q * q * dr);
  }

  lemma CombineRound(gens: Generators, p: int, q: int, l: int, r: int,
                     a: int, a1: int, a2: int, aL: int, aR: int, a': int,
                     b: int, b1: int, b2: int, bL: int, bR: int, b': int,
                     w: int, w1: int, w2: int, wL: int, wR: int, w': int,
                     d: int, dL: int, dR: int, d': int)
    requires Cong(a, a1 + a2) && Cong(a', Crossed(p, q, a1, aL, aR, a2))
    requires Cong(b, b1 + b2) && Cong(b', Crossed(p, q, b1, bL, bR, b2))
    requires Cong(w, w1 + w2) && Cong(w', Crossed(p, q, w1, wL, wR, w2))
    requires Cong(d', d + (p * p * dL + q * q * dR))
    requires Cong(l, Value(gens, aL, bL, wL, dL)) && Cong(r, Value(gens, aR, bR, wR, dR))
    ensures Cong(Value(gens, a', b', w', d'), Value(gens, a, b, w, d) + p * p * l + q * q * r)
  {
    hide Reduce;
    var p2, q2 := p * p, q * q;
    ValueCong(gens, a', a1 + a2 + (p2 * aL + q2 * aR), b', b1 + b2 + (p2 * bL + q2 * bR),
              w', w1 + w2 + (p2 * wL + q2 * wR), d', d + (p2 * dL + q2 * dR));
    ValueLinear(gens, p2, q2, a1 + a2, b1 + b2, w1 + w2, d, aL, bL, wL, dL, aR, bR, wR, dR);
    ValueCong(gens, a1 + a2, a, b1 + b2, b, w1 + w2, w, d, d);
    CombinePoints(Value(gens, a1 + a2, b1 + b2, w1 + w2, d), Value(gens, a, b, w, d), p2, l,
                  Value(gens, aL, bL, wL, dL), q2, r, Value(gens, aR, bR, wR, dR));
  }

  lemma CombinePoints(v: int, v': int, p: int, l: int, l': int, q: int, r: int, r': int)
    requires Cong(v, v') && Cong(l, l') && Cong(r, r')
    ensures Cong(v + p * l' + q * r', v' + p * l + q * r)
  {
    hide Reduce;
    CongMul(p, p, l', l);
    CongMul(q, q, r', r);
    CongAdd(v, v', p * l', p * l);
    CongAdd(v + p * l', v' + p * l, q * r', q * r);
  }

  lemma FoldKeepsCommitment(gens: Generators, y: Vec, y0: Scalar, s: Prover, f: Prover, k: Keys, l: Point, r: Point,
                            dl: Scalar, dr: Scalar, t: Transcript, m: nat)
    requires Balanced(s, 2 * m) && 0 < m && y == Weights(y0, |y|) && 2 * m <= |y|
    requires ValidKeys(k) && k.y == y[m - 1] && f == Folded(s, k, l, r, dl, dr, t)
    requires l == Reduce(Multiexp(LeftTerms(gens, y, s, k.yInv, dl)))
    requires r == Reduce(Multiexp(RightTerms(gens, y, s, k.y, dr)))
    ensures Balanced(f, m)
    ensures Cong(Commitment(gens, y, f), Commitment(gens, y, s) + k.p * k.p * l + k.pInv * k.pInv * r)
  {
    hide Reduce, Cong, Crossed, Mul, Weights, LeftTerms, RightTerms, Multiexp, Dot, Scale, MulAll, AddAll, FoldGens, Fst, Snd;
    LeftValue(gens, y, s, k, dl, m);
    RightValue(gens, y, s, k.y, dr, m);
    SplitProducts(y, y0, s, k, m);
    FoldedProducts(y, s, f, k, m);
    BlindingCong(s.alpha, dl, k.p, dr, k.pInv);
    CongEq(Dot(s.b, s.gBold), Dot(Fst(s.b), Fst(s.gBold)) + Dot(Snd(s.b), Snd(s.gBold)));
    var a2, h2 := Scale(Snd(s.a), k.y), Scale(Snd(s.hBold), k.yInv);
    var w1, w2 := MulAll(Fst(s.b), y), MulAll(Snd(s.b), y);
    CombineRound(gens, k.p, k.pInv, l, r,
                 Dot(s.a, s.hBold), Dot(Fst(s.a), Fst(s.hBold)), Dot(a2, h2), Dot(Fst(s.a), h2),
                 Dot(a2, Fst(s.hBold)), Dot(f.a, f.hBold),
                 Dot(s.b, s.gBold), Dot(Fst(s.b), Fst(s.gBold)), Dot(Snd(s.b), Snd(s.gBold)),
                 Dot(Snd(s.b), Fst(s.gBold)), Dot(Fst(s.b), Snd(s.gBold)), Dot(f.b, f.gBold),
                 Dot(s.a, MulAll(s.b, y)), Dot(Fst(s.a), w1), Dot(a2, w2), Dot(Fst(s.a), w2),
                 Dot(a2, w1), Dot(f.a, MulAll(f.b, y)),
                 s.alpha, dl, dr, f.alpha);
  }

  /**
   A round turns the commitment `P` of the prover into `P + p^2 L + p^-2 R`, where `p` is the
   challenge drawn for its two points.
   */
  lemma RoundKeepsCommitment(gens: Generators, y: Vec, y0: Scalar, s: Prover, dl: Scalar, dr: Scalar,
                             oracle: Oracle, m: nat) returns (k: Keys, l: Point, r: Point)
    requires Balanced(s, 2 * m) && 0 < m && y == Weights(y0, |y|) && 2 * m <= |y|
    requires Round(gens, y, s, dl, dr, oracle).Some?
    ensures ValidKeys(k) && k.y == y[m - 1] && Invert(k.y) == Some(k.yInv) && Invert(k.p) == Some(k.pInv)
    ensures k.p == oracle(Synced(l, r, s.t))
    ensures var f := Round(gens, y, s, dl, dr, oracle).value;
            && f == Folded(s, k, l, r, dl, dr, Synced(l, r, s.t))
            && Balanced(f, m)
            && Cong(Commitment(gens, y, f), Commitment(gens, y, s) + k.p * k.p * l + k.pInv * k.pInv * r)
  {
    hide Reduce, Cong, Mul, Weights, LeftTerms, RightTerms, Multiexp, Commitment, Folded;
    var yHat := y[m - 1];
    var yInv := Invert(yHat).value;
    l := Reduce(Multiexp(LeftTerms(gens, y, s, yInv, dl)));
    r := Reduce(Multiexp(RightTerms(gens, y, s, yHat, dr)));
    var p := oracle(Synced(l, r, s.t));
    k := Keys(p, Invert(p).value, yHat, yInv);
    var f := Folded(s, k, l, r, dl, dr, Synced(l, r, s.t));
    FoldKeepsCommitment(gens, y, y0, s, f, k, l, r, dl, dr, Synced(l, r, s.t), m);
  }
}
