/**
 The verifier of the weighted inner product argument (`WipStmt::verify` in
 `crates/bulletproof/src/wip.rs`) and completeness: it accepts every proof of `generate`.
 */
module WipVerifier {
  import opened Options
  import opened Scalars
  import opened Vectors
  import opened WeightedInnerProduct
  import opened WipFolding
  import opened ScalarTable

  /** `g` is the table for `H_BOLD1` and `h` the one for `G_BOLD1`, as the source names them. */
  datatype Verifier = Verifier(g: Table, h: Table, terms: seq<Term>, t: Transcript)

  function VerifierRound(y: Vec, v: Verifier, l: Point, r: Point, oracle: Oracle): Option<Verifier>
    requires 1 <= |v.g.positions| <= |y|
  {
    var yInv := Invert(y[Half(|v.g.positions|) - 1]);
    if yInv.None? then None else
    var t := Synced(l, r, v.t);
    var p := oracle(t);
    var pInv := Invert(p);
    if pInv.None? then None else
    Some(Verifier(
      NextPair(v.g, pInv.value, Mul(p, yInv.value)),
      NextPair(v.h, p, pInv.value),
      v.terms + [(Square(p), l), (Square(pInv.value), r)],
      t))
  }

  /** The rounds for the pairs of `l` and `r` from the `i`-th on. */
  function VerifierRounds(y: Vec, v: Verifier, l: Vec, r: Vec, i: nat, oracle: Oracle): Option<Verifier>
    requires 1 <= |v.g.positions| <= |y|
    decreases |l| - i
  {
    if i >= |l| || i >= |r| then
      Some(v)
    else
      var next := VerifierRound(y, v, l[i], r[i], oracle);
      if next.None? then None else VerifierRounds(y, next.value, l, r, i + 1, oracle)
  }

  function ScaleTerms(terms: seq<Term>, s: Scalar): seq<Term> {
    seq(|terms|, i requires 0 <= i < |terms| => (Mul(terms[i].0, s), terms[i].1))
  }

  /** The multi-exponentiation queued for the batch verifier. */
  function QueuedTerms(gens: Generators, y: Scalar, proof: WipProof, v: Verifier, e: Scalar): seq<Term> {
    ScaleTerms(v.terms, Neg(Square(e)))
    + Zip(Scale(Scale(v.g.inner, proof.rRev), e), gens.hBold)
    + Zip(Scale(Scale(v.h.inner, proof.sRev), e), gens.gBold)
    + [(Neg(e), proof.a), (Mul(Mul(proof.rRev, y), proof.sRev), gens.h), (proof.deltaRev, gens.g), (Neg(1), proof.b)]
  }

  function InitialVerifier(aHat: Point, n: nat, t: Transcript): Verifier {
    Verifier(InitialTable(n), InitialTable(n), [(1, aHat)], t)
  }

  /** `verify` up to the check of the batch; `None` when it would panic. */
  function Queued(gens: Generators, stmt: WipStmt, proof: WipProof, t: Transcript, oracle: Oracle): Option<seq<Term>>
    requires 1 <= |gens.hBold| <= |stmt.y|
  {
    var v := VerifierRounds(stmt.y, InitialVerifier(stmt.aHat, |gens.hBold|, t), proof.l, proof.r, 0, oracle);
    if v.None? then None else
    Some(QueuedTerms(gens, stmt.y[0], proof, v.value, oracle(Synced(proof.a, proof.b, v.value.t))))
  }

  // ---- Prover and verifier in step ----

  ghost predicate Related(gens: Generators, y: Vec, s: Prover, v: Verifier, n: nat) {
    && Balanced(s, n) && v.t == s.t
    && |gens.gBold| == |gens.hBold|
    && Partition(v.g, |gens.hBold|) && Represents(v.g, gens.hBold, s.hBold)
    && Partition(v.h, |gens.gBold|) && Represents(v.h, gens.gBold, s.gBold)
    && Cong(Multiexp(v.terms), Commitment(gens, y, s))
  }

  lemma TermsGrow(terms: seq<Term>, c: int, p: Scalar, l: Point, q: Scalar, r: Point)
    requires Cong(Multiexp(terms), c)
    ensures Cong(Multiexp(terms + [(Square(p), l), (Square(q), r)]), c + p * p * l + q * q * r)
  {
    MulCong(p, p);
    MulCong(q, q);
    hide Reduce;
    MultiexpConcat(terms, [(Square(p), l), (Square(q), r)]);
    MultiexpPair((Square(p), l), (Square(q), r));
    CongMul(Square(p), p * p, l, l);
    CongMul(Square(q), q * q, r, r);
    CongAdd(Multiexp(terms), c, Square(p) * l, p * p * l);
    CongAdd(Multiexp(terms) + Square(p) * l, c + p * p * l, Square(q) * r, q * q * r);
  }

  lemma StepRelated(gens: Generators, y: Vec, s: Prover, f: Prover, v: Verifier, k: Keys, l: Point, r: Point,
                    t: Transcript, m: nat)
    requires Related(gens, y, s, v, 2 * m) && 0 < m && Balanced(f, m) && f.t == t
    requires f.hBold == FoldGens(s.hBold, k.pInv, Mul(k.p, k.yInv)) && f.gBold == FoldGens(s.gBold, k.p, k.pInv)
    requires Cong(Commitment(gens, y, f), Commitment(gens, y, s) + k.p * k.p * l + k.pInv * k.pInv * r)
    ensures Related(gens, y, f,
                    Verifier(NextPair(v.g, k.pInv, Mul(k.p, k.yInv)), NextPair(v.h, k.p, k.pInv),
                             v.terms + [(Square(k.p), l), (Square(k.pInv), r)], t), m)
  {
    hide Reduce, Mul, Partition, Represents, NextPair, FoldGens, Commitment, Multiexp;
    var n := |gens.hBold|;
    NextPairPartition(v.g, k.pInv, Mul(k.p, k.yInv), n);
    NextPairPartition(v.h, k.p, k.pInv, n);
    NextPairRefinesFold(v.g, gens.hBold, s.hBold, k.pInv, Mul(k.p, k.yInv), n);
    NextPairRefinesFold(v.h, gens.gBold, s.gBold, k.p, k.pInv, n);
    TermsGrow(v.terms, Commitment(gens, y, s), k.p, l, k.pInv, r);
  }

  lemma VerifierStep(y: Vec, v: Verifier, l: Point, r: Point, oracle: Oracle, k: Keys, m: nat)
    requires 0 < m && |v.g.positions| == 2 * m <= |y| && k.p == oracle(Synced(l, r, v.t))
    requires Invert(y[m - 1]) == Some(k.yInv) && Invert(k.p) == Some(k.pInv)
    ensures VerifierRound(y, v, l, r, oracle)
         == Some(Verifier(NextPair(v.g, k.pInv, Mul(k.p, k.yInv)), NextPair(v.h, k.p, k.pInv),
                          v.terms + [(Square(k.p), l), (Square(k.pInv), r)], Synced(l, r, v.t)))
  {
    hide Mul, Square, NextPair, Invert;
  }

  /** A round of the prover is matched by a round of the verifier on the points it publishes. */
  lemma RoundRelated(gens: Generators, y: Vec, y0: Scalar, s: Prover, v: Verifier, m: nat,
                     dl: Scalar, dr: Scalar, oracle: Oracle) returns (l: Point, r: Point)
    requires Related(gens, y, s, v, 2 * m) && 0 < m && y == Weights(y0, |y|) && 2 * m <= |y|
    requires Round(gens, y, s, dl, dr, oracle).Some?
    ensures 1 <= |v.g.positions| <= |y|
    ensures var f := Round(gens, y, s, dl, dr, oracle).value;
            && f.l == s.l + [l] && f.r == s.r + [r]
            && VerifierRound(y, v, l, r, oracle).Some?
            && Related(gens, y, f, VerifierRound(y, v, l, r, oracle).value, m)
  {
    RelatedSizes(gens, y, s, v, 2 * m);
    hide Related, Weights, Cong, Mul, Square, Commitment, Invert, NextPair, FoldGens, Round, VerifierRound, Add, Scale, AddAll, Synced;
    var k: Keys;
    k, l, r := RoundKeepsCommitment(gens, y, y0, s, dl, dr, oracle, m);
    var f := Round(gens, y, s, dl, dr, oracle).value;
    StepRelated(gens, y, s, f, v, k, l, r, Synced(l, r, s.t), m);
    VerifierStep(y, v, l, r, oracle, k, m);
  }

  lemma RelatedSizes(gens: Generators, y: Vec, s: Prover, v: Verifier, n: nat)
    requires Related(gens, y, s, v, n)
    ensures |v.g.positions| == |s.hBold| == n && v.t == s.t
  {
  }

  /** All rounds: the verifier, fed the published points, ends in step with the prover. */
  lemma {:induction false} RoundsRelated(gens: Generators, y: Vec, y0: Scalar, s: Prover, v: Verifier, n: nat,
                                         i: nat, rng: nat -> Scalar, oracle: Oracle)
    requires Related(gens, y, s, v, n) && PowerOfTwo(n) && y == Weights(y0, |y|) && n <= |y|
    requires |s.l| == |s.r| == i && Rounds(gens, y, s, i, rng, oracle).Some?
    ensures 1 <= |v.g.positions| <= |y|
    ensures var f := Rounds(gens, y, s, i, rng, oracle).value;
            && s.l <= f.l && s.r <= f.r
            && VerifierRounds(y, v, f.l, f.r, i, oracle).Some?
            && Related(gens, y, f, VerifierRounds(y, v, f.l, f.r, i, oracle).value, 1)
    decreases n
  {
    hide Weights, Related, Round, VerifierRound;
    RelatedSizes(gens, y, s, v, n);
    if n > 1 {
      var m := n / 2;
      var dl, dr := rng(2 * i), rng(2 * i + 1);
      var l, r := RoundRelated(gens, y, y0, s, v, m, dl, dr, oracle);
      var s', v' := Round(gens, y, s, dl, dr, oracle).value, VerifierRound(y, v, l, r, oracle).value;
      RoundsRelated(gens, y, y0, s', v', m, i + 1, rng, oracle);
      var f := Rounds(gens, y, s, i, rng, oracle).value;
      assert f.l[i] == l && f.r[i] == r;
    }
  }

  // ---- The last check ----

  lemma {:induction false} MultiexpScaled(terms: seq<Term>, s: Scalar)
    ensures Cong(Multiexp(ScaleTerms(terms, s)), s * Multiexp(terms))
  {
    if terms != [] {
      var x, p := terms[0].0, terms[0].1;
      assert ScaleTerms(terms, s)[1..] == ScaleTerms(terms[1..], s);
      MulCong(x, s);
      hide Reduce;
      MultiexpScaled(terms[1..], s);
      CongEq(x * s, s * x);
      ScaledStep(Mul(x, s), s, x, p, Multiexp(ScaleTerms(terms[1..], s)), Multiexp(terms[1..]));
    }
  }

  lemma {:induction false} DotTruncates(v: seq<int>, w: seq<int>)
    requires |w| <= |v|
    ensures Dot(v, w) == Dot(v[..|w|], w)
  {
    if w != [] {
      DotTruncates(v[1..], w[1..]);
      assert v[..|w|][1..] == v[1..][..|w| - 1];
    }
  }

  lemma TableTerms(t: Table, gens: Vec, folded: Vec, r: Scalar, e: Scalar)
    requires Partition(t, |gens|) && |t.positions| == 1 && Represents(t, gens, folded)
    ensures Cong(Multiexp(Zip(Scale(Scale(t.inner, r), e), gens)), e * (r * folded[0]))
  {
    hide Reduce;
    var v := Scale(t.inner, r);
    var u := t.inner[..|gens|];
    MultiexpZip(Scale(v, e), gens);
    DotTruncates(Scale(v, e), gens);
    assert Scale(v, e)[..|gens|] == Scale(Scale(u, r), e);
    ScaledEntries(Scale(u, r), e);
    DotScaled(Scale(Scale(u, r), e), e, Scale(u, r), gens);
    ScaledEntries(u, r);
    DotScaled(Scale(u, r), r, u, gens);
    LastTable(t, gens, folded);
    CongMul(r, r, Dot(u, gens), folded[0]);
    CongMul(e, e, Dot(Scale(u, r), gens), r * folded[0]);
  }

  lemma MultiexpFour(s: Term, t: Term, u: Term, v: Term)
    ensures Multiexp([s, t, u, v]) == s.0 * s.1 + t.0 * t.1 + u.0 * u.1 + v.0 * v.1
  {
    MultiexpConcat([s, t], [u, v]);
    assert [s, t] + [u, v] == [s, t, u, v];
    MultiexpPair(s, t);
    MultiexpPair(u, v);
  }

  lemma CommitmentOfOne(gens: Generators, y: Vec, s: Prover, a: Scalar, b: Scalar, h0: Point, g0: Point, y0: Scalar)
    requires s.a == [a] && s.b == [b] && s.hBold == [h0] && s.gBold == [g0] && 1 <= |y| && y[0] == y0
    ensures Cong(Commitment(gens, y, s), Value(gens, a * h0, b * g0, a * (b * y0), s.alpha))
  {
    DotOfOne(s.a, s.hBold);
    DotOfOne(s.b, s.gBold);
    assert MulAll(s.b, y) == [Mul(b, y0)];
    DotOfOne(s.a, MulAll(s.b, y));
    MulCong(b, y0);
    hide Reduce;
    CongMul(a, a, Mul(b, y0), b * y0);
    ValueCong(gens, Dot(s.a, s.hBold), a * h0, Dot(s.b, s.gBold), b * g0,
              Dot(s.a, MulAll(s.b, y)), a * (b * y0), s.alpha, s.alpha);
  }

  lemma DotOfOne(v: seq<int>, w: seq<int>)
    requires |v| == |w| == 1
    ensures Dot(v, w) == v[0] * w[0]
  {
    assert v[1..] == [];
  }

  // The coefficients of one base in the last equation add up to zero.

  lemma VectorPart(e: int, a: int, r: int, x: int)
    ensures -(e * e) * (a * x) + e * ((r + a * e) * x) + -e * (r * x) == 0
  {
  }

  lemma Expanded(r: int, u: int, y: int, s: int, w: int, h: int)
    ensures (r + u) * y * (s + w) * h == r * y * s * h + r * y * w * h + u * y * s * h + u * y * w * h
  {
    assert (r + u) * y * (s + w) == (r * y + u * y) * (s + w) == r * y * s + r * y * w + u * y * s + u * y * w;
  }

  lemma SquareTerm(e: int, a: int, b: int, y: int, h: int)
    ensures -(e * e) * (a * (b * y) * h) == -((a * e) * y * (b * e) * h)
  {
  }

  lemma CrossTerm(e: int, a: int, b: int, r: int, s: int, y: int, h: int)
    ensures -e * ((r * y * b + s * y * a) * h) == -(r * y * (b * e) * h) - ((a * e) * y * s * h)
  {
    assert (r * y * b + s * y * a) * h == r * y * b * h + s * y * a * h;
    assert e * (r * y * b * h) == r * y * (b * e) * h;
    assert e * (s * y * a * h) == (a * e) * y * s * h;
  }

  lemma ProductPart(e: int, a: int, b: int, r: int, s: int, y: int, h: int)
    ensures -(e * e) * (a * (b * y) * h) + -e * ((r * y * b + s * y * a) * h) + (r + a * e) * y * (s + b * e) * h
            + -1 * (r * y * s * h) == 0
  {
    Expanded(r, a * e, y, s, b * e, h);
    SquareTerm(e, a, b, y, h);
    CrossTerm(e, a, b, r, s, y, h);
  }

  lemma BlindingPart(e: int, alpha: int, delta: int, eta: int, g: int)
    ensures -(e * e) * (alpha * g) + -e * (delta * g) + (eta + delta * e + alpha * (e * e)) * g + -1 * (eta * g) == 0
  {
  }

  lemma LastEquation(gens: Generators, e: int, a: int, b: int, r: int, s: int, y: int, alpha: int, delta: int,
                     eta: int, h0: int, g0: int)
    ensures -(e * e) * Value(gens, a * h0, b * g0, a * (b * y), alpha)
            + e * ((r + a * e) * h0) + e * ((s + b * e) * g0)
            + (-e * Value(gens, r * h0, s * g0, r * y * b + s * y * a, delta) + (r + a * e) * y * (s + b * e) * gens.h
               + (eta + delta * e + alpha * (e * e)) * gens.g + -1 * Value(gens, 0, 0, r * y * s, eta)) == 0
  {
    LinearSum(-(e * e), a * h0, b * g0, a * (b * y) * gens.h, alpha * gens.g);
    LinearSum(-e, r * h0, s * g0, (r * y * b + s * y * a) * gens.h, delta * gens.g);
    VectorPart(e, a, r, h0);
    VectorPart(e, b, s, g0);
    ProductPart(e, a, b, r, s, y, gens.h);
    BlindingPart(e, alpha, delta, eta, gens.g);
  }

  lemma SumCong(x1: int, z1: int, x2: int, z2: int, x3: int, z3: int, x4: int, z4: int, x5: int, z5: int,
                x6: int, z6: int, x7: int, z7: int)
    requires Cong(x1, z1) && Cong(x2, z2) && Cong(x3, z3) && Cong(x4, z4) && Cong(x5, z5) && Cong(x6, z6) && Cong(x7, z7)
    ensures Cong(x1 + x2 + x3 + (x4 + x5 + x6 + x7), z1 + z2 + z3 + (z4 + z5 + z6 + z7))
  {
    hide Reduce;
    CongAdd(x1, z1, x2, z2);
    CongAdd(x1 + x2, z1 + z2, x3, z3);
    CongAdd(x4, z4, x5, z5);
    CongAdd(x4 + x5, z4 + z5, x6, z6);
    CongAdd(x4 + x5 + x6, z4 + z5 + z6, x7, z7);
    CongAdd(x1 + x2 + x3, z1 + z2 + z3, x4 + x5 + x6 + x7, z4 + z5 + z6 + z7);
  }

  lemma NegCong(x: Scalar, z: int, w: int, w': int)
    requires Cong(x, z) && Cong(w, w')
    ensures Cong(Neg(x) * w, -z * w')
  {
    CongReduce(-(x as int));
    hide Reduce;
    CongMul(-1, -1, x, z);
    CongEq(-1 * x, -(x as int));
    CongEq(-1 * z, -z);
    CongMul(Neg(x), -z, w, w');
  }

  /** The answers of the prover, as congruences. */
  lemma Answers(m: Masks, a: Scalar, b: Scalar, alpha: Scalar, e: Scalar)
    ensures Cong(Add(m.r, Mul(a, e)), m.r + a * e) && Cong(Add(m.s, Mul(b, e)), m.s + b * e)
    ensures Cong(Add(Add(m.eta, Mul(m.delta, e)), Mul(alpha, Square(e))), m.eta + m.delta * e + alpha * (e * e))
  {
    Answer(m.r, a, e);
    Answer(m.s, b, e);
    Answer(m.eta, m.delta, e);
    MulCong(e, e);
    MulCong(alpha, Square(e));
    AddCong(Add(m.eta, Mul(m.delta, e)), Mul(alpha, Square(e)));
    hide Reduce;
    CongMul(alpha, alpha, Square(e), e * e);
    CongAdd(Add(m.eta, Mul(m.delta, e)), m.eta + m.delta * e, Mul(alpha, Square(e)), alpha * (e * e));
  }

  lemma Answer(r: Scalar, a: Scalar, e: Scalar)
    ensures Cong(Add(r, Mul(a, e)), r + a * e)
  {
    MulCong(a, e);
    AddCong(r, Mul(a, e));
    hide Reduce;
    CongAdd(r, r, Mul(a, e), a * e);
  }

  lemma FinalAValue(gens: Generators, y: Scalar, s: Prover, m: Masks, a: Scalar, b: Scalar, h0: Point, g0: Point)
    requires s.a == [a] && s.b == [b] && s.hBold == [h0] && s.gBold == [g0]
    ensures Cong(FinalA(gens, y, s, m), Value(gens, m.r * h0, m.s * g0, m.r * y * b + m.s * y * a, m.delta))
  {
    var w := Add(Mul(Mul(m.r, y), b), Mul(Mul(m.s, y), a));
    MultiexpFour((m.r, h0), (m.s, g0), (w, gens.h), (m.delta, gens.g));
    CongReduce(Multiexp([(m.r, h0), (m.s, g0), (w, gens.h), (m.delta, gens.g)]));
    AddCong(Mul(Mul(m.r, y), b), Mul(Mul(m.s, y), a));
    hide Reduce;
    TripleCong(m.r, y, b);
    TripleCong(m.s, y, a);
    CongAdd(Mul(Mul(m.r, y), b), m.r * y * b, Mul(Mul(m.s, y), a), m.s * y * a);
    ValueCong(gens, m.r * h0, m.r * h0, m.s * g0, m.s * g0, w, m.r * y * b + m.s * y * a, m.delta, m.delta);
  }

  lemma TripleCong(r: Scalar, y: Scalar, b: Scalar)
    ensures Cong(Mul(Mul(r, y), b), r * y * b)
  {
    MulCong(r, y);
    MulCong(Mul(r, y), b);
    hide Reduce;
    CongMul(Mul(r, y), r * y, b, b);
  }

  lemma FinalBValue(gens: Generators, y: Scalar, m: Masks)
    ensures Cong(FinalB(gens, y, m), Value(gens, 0, 0, m.r * y * m.s, m.eta))
  {
    var w := Mul(Mul(m.r, y), m.s);
    MultiexpPair((w, gens.h), (m.eta, gens.g));
    CongReduce(Multiexp([(w, gens.h), (m.eta, gens.g)]));
    hide Reduce;
    TripleCong(m.r, y, m.s);
    ValueCong(gens, 0, 0, 0, 0, w, m.r * y * m.s, m.eta, m.eta);
  }

  lemma QueuedSum(gens: Generators, y: Scalar, proof: WipProof, v: Verifier, e: Scalar)
    ensures Multiexp(QueuedTerms(gens, y, proof, v, e))
         == Multiexp(ScaleTerms(v.terms, Neg(Square(e))))
            + Multiexp(Zip(Scale(Scale(v.g.inner, proof.rRev), e), gens.hBold))
            + Multiexp(Zip(Scale(Scale(v.h.inner, proof.sRev), e), gens.gBold))
            + (Neg(e) * proof.a + Mul(Mul(proof.rRev, y), proof.sRev) * gens.h + proof.deltaRev * gens.g
               + Neg(1) * proof.b)
  {
    hide Mul, Neg, Square, Scale;
    var t1, t2 := ScaleTerms(v.terms, Neg(Square(e))), Zip(Scale(Scale(v.g.inner, proof.rRev), e), gens.hBold);
    var t3 := Zip(Scale(Scale(v.h.inner, proof.sRev), e), gens.gBold);
    var t4: seq<Term> := [(Neg(e), proof.a), (Mul(Mul(proof.rRev, y), proof.sRev), gens.h), (proof.deltaRev, gens.g), (Neg(1), proof.b)];
    MultiexpConcat(t1 + t2 + t3, t4);
    MultiexpConcat(t1 + t2, t3);
    MultiexpConcat(t1, t2);
    MultiexpFour((Neg(e), proof.a), (Mul(Mul(proof.rRev, y), proof.sRev), gens.h), (proof.deltaRev, gens.g), (Neg(1), proof.b));
  }

  lemma TableAnswer(t: Table, gens: Vec, f: Point, rRev: Scalar, r: int, e: Scalar)
    requires Partition(t, |gens|) && |t.positions| == 1 && Represents(t, gens, [f]) && Cong(rRev, r)
    ensures Cong(Multiexp(Zip(Scale(Scale(t.inner, rRev), e), gens)), e * (r * f))
  {
    hide Reduce, Represents, Partition;
    TableTerms(t, gens, [f], rRev, e);
    CongMul(rRev, r, f, f);
    CongMul(e, e, rRev * f, r * f);
  }

  lemma ProductAnswer(rRev: Scalar, r: int, y: Scalar, sRev: Scalar, s: int, h: Point)
    requires Cong(rRev, r) && Cong(sRev, s)
    ensures Cong(Mul(Mul(rRev, y), sRev) * h, r * y * s * h)
  {
    TripleCong(rRev, y, sRev);
    hide Reduce;
    CongMul(rRev, r, y, y);
    CongMul(rRev * y, r * y, sRev, s);
    CongMul(Mul(Mul(rRev, y), sRev), r * y * s, h, h);
  }

  /** In step with the prover, the verifier's last multi-exponentiation is the identity. */
  lemma FinishAccepted(gens: Generators, y: Vec, s: Prover, v: Verifier, m: Masks, oracle: Oracle)
    requires Related(gens, y, s, v, 1) && 1 <= |y|
    ensures var proof := Finish(gens, y[0], s, m, oracle);
            Cong(Multiexp(QueuedTerms(gens, y[0], proof, v, oracle(Synced(proof.a, proof.b, v.t)))), 0)
  {
    RelatedSizes(gens, y, s, v, 1);
    var proof := Finish(gens, y[0], s, m, oracle);
    var e := oracle(Synced(proof.a, proof.b, v.t));
    var a, b, h0, g0, y0 := s.a[0], s.b[0], s.hBold[0], s.gBold[0], y[0];
    assert |v.h.positions| == 1 && |s.a| == |s.b| == |s.gBold| == 1;
    assert s.a == [a] && s.b == [b] && s.hBold == [h0] && s.gBold == [g0];
    hide Reduce, Represents, Partition, Commitment, QueuedTerms, FinalA, FinalB, ScaleTerms, Zip, Scale, Value;
    QueuedSum(gens, y0, proof, v, e);
    Answers(m, a, b, s.alpha, e);
    LastTerms(gens, y, s, v, m, proof, e, a, b, h0, g0, y0);
  }

  lemma LastTerms(gens: Generators, y: Vec, s: Prover, v: Verifier, m: Masks, proof: WipProof, e: Scalar,
                  a: Scalar, b: Scalar, h0: Point, g0: Point, y0: Scalar)
    requires Related(gens, y, s, v, 1) && 1 <= |y| && y[0] == y0
    requires s.a == [a] && s.b == [b] && s.hBold == [h0] && s.gBold == [g0]
    requires Cong(proof.rRev, m.r + a * e) && Cong(proof.sRev, m.s + b * e)
    requires Cong(proof.deltaRev, m.eta + m.delta * e + s.alpha * (e * e))
    requires proof.a == FinalA(gens, y0, s, m) && proof.b == FinalB(gens, y0, m)
    ensures Cong(Multiexp(ScaleTerms(v.terms, Neg(Square(e))))
                 + Multiexp(Zip(Scale(Scale(v.g.inner, proof.rRev), e), gens.hBold))
                 + Multiexp(Zip(Scale(Scale(v.h.inner, proof.sRev), e), gens.gBold))
                 + (Neg(e) * proof.a + Mul(Mul(proof.rRev, y0), proof.sRev) * gens.h + proof.deltaRev * gens.g
                    + Neg(1) * proof.b), 0)
  {
    RelatedSizes(gens, y, s, v, 1);
    assert |v.h.positions| == 1;
    hide Reduce, Represents, Partition, Commitment, FinalA, FinalB, ScaleTerms, Zip, Scale, Value;
    var c := Value(gens, a * h0, b * g0, a * (b * y0), s.alpha);
    CommitmentOfOne(gens, y, s, a, b, h0, g0, y0);
    MultiexpScaled(v.terms, Neg(Square(e)));
    MulCong(e, e);
    NegCong(Square(e), e * e, Multiexp(v.terms), c);
    TableAnswer(v.g, gens.hBold, h0, proof.rRev, m.r + a * e, e);
    TableAnswer(v.h, gens.gBold, g0, proof.sRev, m.s + b * e, e);
    FinalAValue(gens, y0, s, m, a, b, h0, g0);
    var aValue, bValue := Value(gens, m.r * h0, m.s * g0, m.r * y0 * b + m.s * y0 * a, m.delta), Value(gens, 0, 0, m.r * y0 * m.s, m.eta);
    NegCong(e, e, proof.a, aValue);
    ProductAnswer(proof.rRev, m.r + a * e, y0, proof.sRev, m.s + b * e, gens.h);
    CongMul(proof.deltaRev, m.eta + m.delta * e + s.alpha * (e * e), gens.g, gens.g);
    FinalBValue(gens, y0, m);
    NegCong(1, 1, proof.b, bValue);
    var x: int := e;
    SumCong(Multiexp(ScaleTerms(v.terms, Neg(Square(e)))), -(x * x) * c,
            Multiexp(Zip(Scale(Scale(v.g.inner, proof.rRev), e), gens.hBold)), e * ((m.r + a * e) * h0),
            Multiexp(Zip(Scale(Scale(v.h.inner, proof.sRev), e), gens.gBold)), e * ((m.s + b * e) * g0),
            Neg(e) * proof.a, -x * aValue,
            Mul(Mul(proof.rRev, y0), proof.sRev) * gens.h, (m.r + a * e) * y0 * (m.s + b * e) * gens.h,
            proof.deltaRev * gens.g, (m.eta + m.delta * e + s.alpha * (e * e)) * gens.g,
            Neg(1) * proof.b, -1 * bValue);
    LastEquation(gens, e, a, b, m.r, m.s, y0, s.alpha, m.delta, m.eta, h0, g0);
    CongEq(-(x * x) * c + e * ((m.r + a * e) * h0) + e * ((m.s + b * e) * g0)
           + (-x * aValue + (m.r + a * e) * y0 * (m.s + b * e) * gens.h
              + (m.eta + m.delta * e + s.alpha * (e * e)) * gens.g + -1 * bValue), 0);
  }

  // ---- Completeness ----

  lemma InitialRelated(gens: Generators, y: Vec, aHat: Point, s: Prover, n: nat)
    requires Balanced(s, n) && s.hBold == gens.hBold && s.gBold == gens.gBold
    requires Cong(aHat, Commitment(gens, y, s))
    ensures Related(gens, y, s, InitialVerifier(aHat, n, s.t), n)
  {
    hide Commitment, Reduce, Partition, Represents;
    InitialPartition(n);
    InitialRepresents(gens.hBold);
    InitialRepresents(gens.gBold);
    assert Multiexp([(1, aHat)]) == aHat + Multiexp([]);
  }

  /**
   For every power of two, all witness vectors, blindings, random draws and challenges: if the
   statement commits to the witness and the prover finishes, the verifier does not panic either
   and the multi-exponentiation it queues is the identity.
   */
  lemma WipCompleteness(gens: Generators, stmt: WipStmt, y: Scalar, a: Vec, b: Vec, alpha: Scalar,
                        rng: nat -> Scalar, t: Transcript, oracle: Oracle)
    requires PowerOfTwo(|gens.hBold|) && |gens.gBold| == |a| == |b| == |gens.hBold|
    requires |gens.hBold| <= |stmt.y| && stmt.y == Weights(y, |stmt.y|)
    requires Cong(stmt.aHat, Commitment(gens, stmt.y, InitialProver(gens, a, b, alpha, t)))
    requires Generated(gens, stmt.y, a, b, alpha, rng, t, oracle).Some?
    ensures var terms := Queued(gens, stmt, Generated(gens, stmt.y, a, b, alpha, rng, t, oracle).value, t, oracle);
            terms.Some? && Reduce(Multiexp(terms.value)) == 0
  {
    var n, s := |gens.hBold|, InitialProver(gens, a, b, alpha, t);
    CongReduce(0);
    InitialRelated(gens, stmt.y, stmt.aHat, s, n);
    hide Related, Weights, Rounds, VerifierRounds, QueuedTerms, Multiexp, FinalA, FinalB, Add, Mul, Reduce;
    RoundsRelated(gens, stmt.y, y, s, InitialVerifier(stmt.aHat, n, t), n, 0, rng, oracle);
    var f := Rounds(gens, stmt.y, s, 0, rng, oracle).value;
    var v := VerifierRounds(stmt.y, InitialVerifier(stmt.aHat, n, t), f.l, f.r, 0, oracle).value;
    FinishAccepted(gens, stmt.y, f, v, DrawMasks(rng, |f.l|), oracle);
  }

  // ---- The code of the verifier ----

  /** `next_pairs`. */
  method NextPairs(g: IndexedScalars, h: IndexedScalars, terms: seq<Term>, l: Point, r: Point, yInv: Scalar,
                   t: Transcript, oracle: Oracle, ghost n: nat) returns (ok: bool, more: seq<Term>)
    requires g != h && Partition(g.View(), n) && Partition(h.View(), n)
    modifies g, h
    ensures Partition(g.View(), n) && Partition(h.View(), n)
    ensures var p := oracle(Synced(l, r, t));
            && ok == Invert(p).Some?
            && (ok ==>
                  && g.View() == NextPair(old(g.View()), Invert(p).value, Mul(p, yInv))
                  && h.View() == NextPair(old(h.View()), p, Invert(p).value)
                  && more == terms + [(Square(p), l), (Square(Invert(p).value), r)])
  {
    var p := oracle(Synced(l, r, t));
    var pInv := Invert(p);
    ok, more := pInv.Some?, terms;
    if !ok {
      return;
    }
    hide Partition, Mul, NextPair;
    g.Halve(pInv.value, Mul(p, yInv), n);
    h.Halve(p, pInv.value, n);
    more := terms + [(Square(p), l), (Square(pInv.value), r)];
  }

  /** `WipStmt::verify`: the terms it queues for the batch verifier. */
  method Verify(gens: Generators, stmt: WipStmt, proof: WipProof, t: Transcript, oracle: Oracle)
    returns (terms: Option<seq<Term>>)
    requires 1 <= |gens.hBold| == |gens.gBold| <= |stmt.y|
    ensures terms == Queued(gens, stmt, proof, t, oracle)
  {
    hide Partition, NextPair, Mul, Square, Neg, Invert;
    var n := |gens.hBold|;
    var g := new IndexedScalars.WithCapacity(n);
    var h := new IndexedScalars.WithCapacity(n);
    InitialPartition(n);
    var aHatTerms, transcript := [(1, stmt.aHat)], t;
    ghost var start := InitialVerifier(stmt.aHat, n, t);
    var i := 0;
    while i < |proof.l| && i < |proof.r|
      invariant 0 <= i && g != h && fresh(g) && fresh(h)
      invariant Partition(g.View(), n) && Partition(h.View(), n) && 1 <= |g.positions| <= |stmt.y|
      invariant n <= |g.inner| && n <= |h.inner|
      invariant VerifierRounds(stmt.y, Verifier(g.View(), h.View(), aHatTerms, transcript), proof.l, proof.r, i, oracle)
             == VerifierRounds(stmt.y, start, proof.l, proof.r, 0, oracle)
      decreases |proof.l| - i
    {
      ghost var v := Verifier(g.View(), h.View(), aHatTerms, transcript);
      var l, r := proof.l[i], proof.r[i];
      var nHat := (|g.positions| + |g.positions| % 2) / 2;
      var yInv := Invert(stmt.y[nHat - 1]);
      if yInv.None? {
        return None;
      }
      var ok, more := NextPairs(g, h, aHatTerms, l, r, yInv.value, transcript, oracle, n);
      if !ok {
        return None;
      }
      ghost var p := oracle(Synced(l, r, transcript));
      NextPairSize(v.g, Invert(p).value, Mul(p, yInv.value));
      PartitionSize(h.View(), n);
      aHatTerms, transcript := more, Synced(l, r, transcript);
      assert VerifierRound(stmt.y, v, l, r, oracle) == Some(Verifier(g.View(), h.View(), aHatTerms, transcript));
      i := i + 1;
    }
    var e := oracle(Synced(proof.a, proof.b, transcript));
    var queued := Queue(gens, stmt.y[0], proof, aHatTerms, g.inner, h.inner, e);
    terms := Some(queued);
    assert queued == QueuedTerms(gens, stmt.y[0], proof, Verifier(g.View(), h.View(), aHatTerms, transcript), e);
  }

  /** The loop of `verify` that scales the collected terms in place. */
  method ScaleAll(terms: seq<Term>, s: Scalar) returns (scaled: seq<Term>)
    ensures scaled == ScaleTerms(terms, s)
  {
    hide Mul;
    scaled := terms;
    for i := 0 to |terms|
      invariant |scaled| == |terms|
      invariant forall k :: 0 <= k < i ==> scaled[k] == (Mul(terms[k].0, s), terms[k].1)
      invariant forall k :: i <= k < |terms| ==> scaled[k] == terms[k]
    {
      scaled := scaled[i := (Mul(scaled[i].0, s), scaled[i].1)];
    }
  }

  /** A loop of `verify` that appends one term per generator. */
  method PushAnswers(terms: seq<Term>, inner: Vec, answer: Scalar, e: Scalar, points: Vec) returns (more: seq<Term>)
    requires |points| <= |inner|
    ensures more == terms + Zip(Scale(Scale(inner, answer), e), points)
  {
    hide Mul;
    more := terms;
    var pushed := Zip(Scale(Scale(inner, answer), e), points);
    for i := 0 to |points|
      invariant more == terms + pushed[..i]
    {
      more := more + [(Mul(Mul(inner[i], answer), e), points[i])];
    }
  }

  method Queue(gens: Generators, y: Scalar, proof: WipProof, terms: seq<Term>, gInner: Vec, hInner: Vec, e: Scalar)
    returns (queued: seq<Term>)
    requires |gens.hBold| <= |gInner| && |gens.gBold| <= |hInner|
    ensures forall v: Verifier :: v.terms == terms && v.g.inner == gInner && v.h.inner == hInner ==>
      queued == QueuedTerms(gens, y, proof, v, e)
  {
    hide Mul, Square, Neg, Scale, Zip, ScaleTerms;
    queued := ScaleAll(terms, Neg(Square(e)));
    queued := PushAnswers(queued, gInner, proof.rRev, e, gens.hBold);
    queued := PushAnswers(queued, hInner, proof.sRev, e, gens.gBold);
    queued := queued + [(Neg(e), proof.a), (Mul(Mul(proof.rRev, y), proof.sRev), gens.h),
                        (proof.deltaRev, gens.g), (Neg(1), proof.b)];
  }

  lemma PartitionSize(t: Table, n: nat)
    requires Partition(t, n)
    ensures n <= |t.inner|
  {
  }

  lemma NextPairSize(t: Table, s0: Scalar, s1: Scalar)
    requires 1 <= |t.positions|
    ensures |NextPair(t, s0, s1).positions| == Half(|t.positions|) && |NextPair(t, s0, s1).inner| == |t.inner|
  {
  }
}
