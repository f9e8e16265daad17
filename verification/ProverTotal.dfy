/** The prover never panics on invertible challenges, and what it sends is accepted after parsing. */
module ProverTotal {
  import opened Options
  import opened Scalars
  import opened Vectors
  import opened WeightedInnerProduct
  import opened RangeProofs
  import opened ProofBytes

  ghost predicate Unit(x: Scalar) {
    Invert(x).Some?
  }

  /** Every challenge drawn from a transcript is invertible. */
  ghost predicate UnitChallenges(oracle: Oracle) {
    forall t: Transcript :: Unit(oracle(t))
  }

  lemma UnitProduct(a: Scalar, b: Scalar)
    requires Unit(a) && Unit(b)
    ensures Unit(Mul(a, b))
  {
    var c, d := Invert(a).value, Invert(b).value;
    hide Invert;
    assert Mul(a, c) == 1 && Mul(b, d) == 1;
    ProductOfInverses(a, b, c, d);
    InvertExactlyUnits(Mul(a, b));
  }

  lemma ProductOfInverses(a: Scalar, b: Scalar, c: Scalar, d: Scalar)
    requires Mul(a, c) == 1 && Mul(b, d) == 1
    ensures Mul(Mul(a, b), Mul(c, d)) == 1
  {
    MulCong(a, b);
    MulCong(c, d);
    MulCong(a, c);
    MulCong(b, d);
    MulCong(Mul(a, b), Mul(c, d));
    CongReduce(1);
    hide Reduce, Mul;
    CongMul(Mul(a, b), a * b, Mul(c, d), c * d);
    CongMul(Mul(a, c), a * c, Mul(b, d), b * d);
    CongEq(a * b * (c * d), a * c * (b * d));
    CongCanonical(Mul(Mul(a, b), Mul(c, d)), 1);
  }

  lemma {:induction false} UnitPower(v: Scalar, k: nat)
    requires Unit(v)
    ensures Unit(Pow(v, k))
  {
    if k == 0 {
      CongReduce(1);
      assert Mul(1, 1) == 1;
      hide Invert;
      InvertExactlyUnits(1);
    } else {
      UnitPower(v, k - 1);
      UnitProduct(Pow(v, k - 1), v);
      hide Invert, Mul;
    }
  }

  lemma RoundSucceeds(gens: Generators, y: Vec, y0: Scalar, s: Prover, dl: Scalar, dr: Scalar, oracle: Oracle, m: nat)
    requires Balanced(s, 2 * m) && 0 < m && y == Weights(y0, |y|) && 2 * m <= |y| && |s.l| == |s.r|
    requires Unit(y0) && UnitChallenges(oracle)
    ensures var f := Round(gens, y, s, dl, dr, oracle);
            f.Some? && Balanced(f.value, m) && |f.value.l| == |f.value.r|
  {
    assert y[m - 1] == Pow(y0, m);
    UnitPower(y0, m);
    hide Invert, Pow, Reduce, LeftTerms, RightTerms, Multiexp, Mul, Add;
    assert Half(2 * m) == m;
    var l := Reduce(Multiexp(LeftTerms(gens, y, s, Invert(y[m - 1]).value, dl)));
    var r := Reduce(Multiexp(RightTerms(gens, y, s, y[m - 1], dr)));
    assert Unit(oracle(Synced(l, r, s.t)));
  }

  lemma {:induction false} RoundsSucceed(gens: Generators, y: Vec, y0: Scalar, s: Prover, i: nat, rng: nat -> Scalar, oracle: Oracle, n: nat)
    requires Balanced(s, n) && PowerOfTwo(n) && y == Weights(y0, |y|) && n <= |y| && |s.l| == |s.r|
    requires Unit(y0) && UnitChallenges(oracle)
    ensures var f := Rounds(gens, y, s, i, rng, oracle);
            f.Some? && Balanced(f.value, 1) && |f.value.l| == |f.value.r|
    decreases n
  {
    if n > 1 {
      hide Round, Rounds, Weights, Unit, UnitChallenges;
      RoundSucceeds(gens, y, y0, s, rng(2 * i), rng(2 * i + 1), oracle, n / 2);
      NextRounds(gens, y, s, i, rng, oracle);
      RoundsSucceed(gens, y, y0, Round(gens, y, s, rng(2 * i), rng(2 * i + 1), oracle).value, i + 1, rng, oracle, n / 2);
    } else {
      hide Weights;
    }
  }

  lemma NextRounds(gens: Generators, y: Vec, s: Prover, i: nat, rng: nat -> Scalar, oracle: Oracle)
    requires 1 < |s.hBold| <= |y| && Round(gens, y, s, rng(2 * i), rng(2 * i + 1), oracle).Some?
    ensures var next := Round(gens, y, s, rng(2 * i), rng(2 * i + 1), oracle).value;
            Rounds(gens, y, s, i, rng, oracle) == Rounds(gens, y, next, i + 1, rng, oracle)
  {
    hide Round;
  }

  lemma GeneratedSucceeds(gens: Generators, y: Vec, y0: Scalar, a: Vec, b: Vec, alpha: Scalar, rng: nat -> Scalar, t: Transcript, oracle: Oracle)
    requires 1 <= |gens.hBold| && |a| == |b| == |gens.hBold| == |gens.gBold| == |y|
    requires PowerOfTwo(|gens.hBold|) && y == Weights(y0, |y|) && Unit(y0) && UnitChallenges(oracle)
    ensures var p := Generated(gens, y, a, b, alpha, rng, t, oracle); p.Some? && |p.value.l| == |p.value.r|
  {
    RoundsSucceed(gens, y, y0, InitialProver(gens, a, b, alpha, t), 0, rng, oracle, |y|);
    hide Rounds, FinalA, FinalB, Weights;
  }

  /** The last answers are masked with draws that no round used, each with its own. */
  lemma MasksFresh(rng: nat -> Scalar, k: nat, j: nat)
    requires forall i, l :: 0 <= i < l < 2 * k + 4 ==> rng(i) != rng(l)
    ensures var m := DrawMasks(rng, k);
            && (j < 2 * k ==> rng(j) != m.r && rng(j) != m.s && rng(j) != m.delta && rng(j) != m.eta)
            && m.r != m.s && m.r != m.delta && m.r != m.eta && m.s != m.delta && m.s != m.eta && m.delta != m.eta
  {
  }

  /** With invertible challenges `generate` returns a proof for every value, blinding and randomness. */
  lemma ProvedSucceeds(gens: Generators, value: nat, blinding: Scalar, alpha: Scalar, rng: nat -> Scalar, oracle: Oracle)
    requires 2 <= |gens.hBold| == |gens.gBold| && PowerOfTwo(|gens.hBold|) && UnitChallenges(oracle)
    ensures var p := Proved(gens, value, blinding, alpha, rng, oracle); p.Some? && |p.value.wip.l| == |p.value.wip.r|
  {
    var n := |gens.hBold|;
    var aL := Bits(value, n);
    var aR := SubScalar(aL, 1);
    var a := Reduce(Multiexp(ATerms(gens, alpha, aL, aR)));
    var y, z := oracle(YTranscript(a)), oracle(ZTranscript(a));
    var l, r := SubScalar(aL, z), AddAll(aR, AddScalar(TwoDescendingY(y, n), z));
    assert |l| == |r| == n;
    assert Unit(y);
    WeightsSize(y, n);
    hide Generated, Unit, Multiexp, Reduce, Weights, Bits, TwoDescendingY, Pow;
    GeneratedSucceeds(gens, Weights(y, n), y, l, r, Add(alpha, Mul(blinding, Pow(y, n + 1))), rng, ZTranscript(a), oracle);
  }

  /** So every value in range has a proof that, sent as bytes and parsed, is accepted for its commitment. */
  lemma SentProofAccepted(e: Encoding, gens: Generators, value: nat, blinding: Scalar, alpha: Scalar, rng: nat -> Scalar, oracle: Oracle)
    requires Faithful(e) && UnitChallenges(oracle)
    requires 2 <= |gens.hBold| == |gens.gBold| && PowerOfTwo(|gens.hBold|) && value < Pow2(|gens.hBold|)
    ensures var proof := Proved(gens, value, blinding, alpha, rng, oracle);
            && proof.Some?
            && ParseRange(e, RangeBytes(e, proof.value)) == Parsed(proof.value)
            && Accepted(gens, Commit(gens, Reduce(value), blinding), proof.value, oracle) == Some(true)
  {
    hide *;
    ProvedSucceeds(gens, value, blinding, alpha, rng, oracle);
    RangeRoundTrip(e, Proved(gens, value, blinding, alpha, rng, oracle).value);
    RangeCompleteness(gens, value, blinding, alpha, rng, oracle);
  }
}
