/**
 When `verify` accepts: exactly when the textbook verifier, which folds statement and generators
 round by round, does; and for one commitment only.
 */
module RangeVerdict {
  import opened Options
  import opened Scalars
  import opened Vectors
  import opened WeightedInnerProduct
  import opened ScalarTable
  import opened WipVerifier
  import opened RangeProofs
  import opened ProverTotal

  // ---- The textbook verifier ----

  /** A statement about folded generators. */
  datatype Folding = Folding(h: Vec, g: Vec, point: Point, t: Transcript)

  function FoldRound(y: Vec, f: Folding, l: Point, r: Point, oracle: Oracle): (next: Option<Folding>)
    requires 1 <= |f.h| <= |y|
    ensures next.Some? ==> |next.value.h| == Half(|f.h|)
  {
    var t := Synced(l, r, f.t);
    var p, yInv := oracle(t), Invert(y[Half(|f.h|) - 1]);
    var pInv := Invert(p);
    if yInv.None? || pInv.None? then None else
    Some(Folding(FoldGens(f.h, pInv.value, Mul(p, yInv.value)), FoldGens(f.g, p, pInv.value),
                 Reduce(f.point + p * p * l + pInv.value * pInv.value * r), t))
  }

  function FoldAll(y: Vec, f: Folding, l: Vec, r: Vec, i: nat, oracle: Oracle): Option<Folding>
    requires 1 <= |f.h| <= |y|
    decreases |l| - i
  {
    if i >= |l| || i >= |r| then Some(f) else
    var next := FoldRound(y, f, l[i], r[i], oracle);
    if next.None? then None else FoldAll(y, next.value, l, r, i + 1, oracle)
  }

  /** The last equation, on one pair of generators. */
  ghost predicate Opens(gens: Generators, y: Scalar, h: Point, g: Point, point: Point, proof: WipProof, e: Scalar) {
    Cong(e * e * point + e * proof.a + proof.b,
         e * (proof.rRev * h) + e * (proof.sRev * g) + proof.rRev * y * proof.sRev * gens.h + proof.deltaRev * gens.g)
  }

  /** `None` when a scalar has no inverse or the generators are not folded to one pair. */
  ghost function Textbook(gens: Generators, stmt: WipStmt, proof: WipProof, t: Transcript, oracle: Oracle): Option<bool>
    requires 1 <= |gens.hBold| <= |stmt.y|
  {
    var f := FoldAll(stmt.y, Folding(gens.hBold, gens.gBold, stmt.aHat, t), proof.l, proof.r, 0, oracle);
    if f.None? || |f.value.h| != 1 || |f.value.g| != 1 then None else
    Some(Opens(gens, stmt.y[0], f.value.h[0], f.value.g[0], f.value.point, proof, oracle(Synced(proof.a, proof.b, f.value.t))))
  }

  // ---- The verifier keeps in step with it ----

  ghost predicate InStep(gens: Generators, f: Folding, v: Verifier, n: nat) {
    && |f.h| == |f.g| == n && v.t == f.t && |gens.gBold| == |gens.hBold|
    && Partition(v.g, |gens.hBold|) && Represents(v.g, gens.hBold, f.h)
    && Partition(v.h, |gens.gBold|) && Represents(v.h, gens.gBold, f.g)
    && Cong(Multiexp(v.terms), f.point)
  }

  lemma InStepSizes(gens: Generators, f: Folding, v: Verifier, n: nat)
    requires InStep(gens, f, v, n)
    ensures |v.g.positions| == |v.h.positions| == |f.h| == |f.g| == n && v.t == f.t
  {
  }

  lemma RoundInStep(gens: Generators, y: Vec, f: Folding, v: Verifier, m: nat, l: Point, r: Point, oracle: Oracle)
    requires InStep(gens, f, v, 2 * m) && 0 < m && 2 * m <= |y|
    ensures 1 <= |v.g.positions| <= |y| && |f.h| == 2 * m
    ensures var f', v' := FoldRound(y, f, l, r, oracle), VerifierRound(y, v, l, r, oracle);
            (f'.Some? <==> v'.Some?) && (f'.Some? ==> InStep(gens, f'.value, v'.value, m))
  {
    InStepSizes(gens, f, v, 2 * m);
    hide InStep, Reduce, Mul, Invert, NextPair, FoldGens, Multiexp, Square, Synced;
    var p, yInv := oracle(Synced(l, r, f.t)), Invert(y[m - 1]);
    if yInv.Some? && Invert(p).Some? {
      var k := Keys(p, Invert(p).value, y[m - 1], yInv.value);
      VerifierStep(y, v, l, r, oracle, k, m);
      FoldStep(y, f, l, r, oracle, k, m);
      hide VerifierRound, FoldRound;
      LinkedInStep(gens, f, v, k, m, l, r, Synced(l, r, f.t));
    }
  }

  lemma FoldStep(y: Vec, f: Folding, l: Point, r: Point, oracle: Oracle, k: Keys, m: nat)
    requires 0 < m && |f.h| == 2 * m <= |y| && k.p == oracle(Synced(l, r, f.t))
    requires Invert(y[m - 1]) == Some(k.yInv) && Invert(k.p) == Some(k.pInv)
    ensures FoldRound(y, f, l, r, oracle)
         == Some(Folding(FoldGens(f.h, k.pInv, Mul(k.p, k.yInv)), FoldGens(f.g, k.p, k.pInv),
                         Reduce(f.point + k.p * k.p * l + k.pInv * k.pInv * r), Synced(l, r, f.t)))
  {
    hide Mul, FoldGens, Invert, Reduce;
  }

  lemma LinkedInStep(gens: Generators, f: Folding, v: Verifier, k: Keys, m: nat, l: Point, r: Point, t: Transcript)
    requires InStep(gens, f, v, 2 * m) && 0 < m
    ensures InStep(gens,
                   Folding(FoldGens(f.h, k.pInv, Mul(k.p, k.yInv)), FoldGens(f.g, k.p, k.pInv),
                           Reduce(f.point + k.p * k.p * l + k.pInv * k.pInv * r), t),
                   Verifier(NextPair(v.g, k.pInv, Mul(k.p, k.yInv)), NextPair(v.h, k.p, k.pInv),
                            v.terms + [(Square(k.p), l), (Square(k.pInv), r)], t), m)
  {
    InStepSizes(gens, f, v, 2 * m);
    FoldSize(f.h, k.pInv, Mul(k.p, k.yInv), m);
    FoldSize(f.g, k.p, k.pInv, m);
    hide Reduce, Mul, Partition, Represents, NextPair, FoldGens, Multiexp;
    var n := |gens.hBold|;
    NextPairPartition(v.g, k.pInv, Mul(k.p, k.yInv), n);
    NextPairPartition(v.h, k.p, k.pInv, n);
    NextPairRefinesFold(v.g, gens.hBold, f.h, k.pInv, Mul(k.p, k.yInv), n);
    NextPairRefinesFold(v.h, gens.gBold, f.g, k.p, k.pInv, n);
    TermsGrow(v.terms, f.point, k.p, l, k.pInv, r);
    CongReduce(f.point + k.p * k.p * l + k.pInv * k.pInv * r);
  }

  lemma FoldSize(v: Vec, s: Scalar, t: Scalar, m: nat)
    requires |v| == 2 * m
    ensures |FoldGens(v, s, t)| == m
  {
  }

  lemma {:induction false} RoundsInStep(gens: Generators, y: Vec, f: Folding, v: Verifier, k: nat, l: Vec, r: Vec, i: nat, oracle: Oracle)
    requires InStep(gens, f, v, Pow2(k)) && Pow2(k) <= |y| && |l| == |r| == i + k
    ensures 1 <= |v.g.positions| <= |y| && |f.h| == Pow2(k)
    ensures var f', v' := FoldAll(y, f, l, r, i, oracle), VerifierRounds(y, v, l, r, i, oracle);
            (f'.Some? <==> v'.Some?) && (f'.Some? ==> InStep(gens, f'.value, v'.value, 1))
    decreases k
  {
    hide InStep, FoldRound, VerifierRound;
    InStepSizes(gens, f, v, Pow2(k));
    if k > 0 {
      RoundInStep(gens, y, f, v, Pow2(k - 1), l[i], r[i], oracle);
      var f', v' := FoldRound(y, f, l[i], r[i], oracle), VerifierRound(y, v, l[i], r[i], oracle);
      if f'.Some? {
        RoundsInStep(gens, y, f'.value, v'.value, k - 1, l, r, i + 1, oracle);
      }
    }
  }

  // ---- The last equation ----

  lemma LastInStep(gens: Generators, y: Scalar, f: Folding, v: Verifier, proof: WipProof, e: Scalar)
    requires InStep(gens, f, v, 1)
    ensures |f.h| == |f.g| == 1
    ensures Cong(Multiexp(QueuedTerms(gens, y, proof, v, e)), 0) <==> Opens(gens, y, f.h[0], f.g[0], f.point, proof, e)
  {
    InStepSizes(gens, f, v, 1);
    var h, g := f.h[0], f.g[0];
    assert f.h == [h] && f.g == [g];
    hide Reduce, Represents, Partition, QueuedTerms, ScaleTerms, Zip, Scale, Multiexp;
    QueuedSum(gens, y, proof, v, e);
    MultiexpScaled(v.terms, Neg(Square(e)));
    MulCong(e, e);
    NegCong(Square(e), e * e, Multiexp(v.terms), f.point);
    TableAnswer(v.g, gens.hBold, h, proof.rRev, proof.rRev, e);
    TableAnswer(v.h, gens.gBold, g, proof.sRev, proof.sRev, e);
    NegCong(e, e, proof.a, proof.a);
    ProductAnswer(proof.rRev, proof.rRev, y, proof.sRev, proof.sRev, gens.h);
    NegCong(1, 1, proof.b, proof.b);
    var x: int := e;
    SumCong(Multiexp(ScaleTerms(v.terms, Neg(Square(e)))), -(x * x) * f.point,
            Multiexp(Zip(Scale(Scale(v.g.inner, proof.rRev), e), gens.hBold)), e * (proof.rRev * h),
            Multiexp(Zip(Scale(Scale(v.h.inner, proof.sRev), e), gens.gBold)), e * (proof.sRev * g),
            Neg(e) * proof.a, -x * proof.a,
            Mul(Mul(proof.rRev, y), proof.sRev) * gens.h, proof.rRev * y * proof.sRev * gens.h,
            proof.deltaRev * gens.g, proof.deltaRev * gens.g,
            Neg(1) * proof.b, -1 * proof.b);
    Sides(-(x * x) * f.point, e * (proof.rRev * h), e * (proof.sRev * g), -x * proof.a,
          proof.rRev * y * proof.sRev * gens.h, proof.deltaRev * gens.g, -1 * proof.b,
          e * e * f.point, e * proof.a, proof.b);
  }

  /** Moving three summands to the other side. */
  lemma Sides(p: int, u: int, v: int, a: int, w: int, d: int, b: int, p': int, a': int, b': int)
    requires p == -p' && a == -a' && b == -b'
    ensures Cong(p + u + v + (a + w + d + b), 0) <==> Cong(p' + a' + b', u + v + w + d)
  {
    hide Reduce;
    var sum, left, right := p + u + v + (a + w + d + b), p' + a' + b', u + v + w + d;
    assert sum == right - left;
    CongEq(left, left);
    CongEq(-left, -left);
    if Cong(sum, 0) {
      CongAdd(sum, 0, left, left);
    }
    if Cong(left, right) {
      CongAdd(left, right, -left, -left);
    }
  }

  /** The verifier that never folds decides as the textbook verifier, whatever the proof. */
  lemma WipVerdict(gens: Generators, stmt: WipStmt, proof: WipProof, t: Transcript, oracle: Oracle, k: nat)
    requires |gens.hBold| == |gens.gBold| == Pow2(k) <= |stmt.y| && |proof.l| == |proof.r| == k
    ensures var terms, verdict := Queued(gens, stmt, proof, t, oracle), Textbook(gens, stmt, proof, t, oracle);
            (terms.Some? <==> verdict.Some?) && (terms.Some? ==> verdict == Some(Reduce(Multiexp(terms.value)) == 0))
  {
    var n := |gens.hBold|;
    var f, v := Folding(gens.hBold, gens.gBold, stmt.aHat, t), InitialVerifier(stmt.aHat, n, t);
    InitialInStep(gens, stmt.aHat, t);
    hide InStep, QueuedTerms, Multiexp, Opens, FoldAll, VerifierRounds;
    RoundsInStep(gens, stmt.y, f, v, k, proof.l, proof.r, 0, oracle);
    var f' := FoldAll(stmt.y, f, proof.l, proof.r, 0, oracle);
    if f'.Some? {
      var v' := VerifierRounds(stmt.y, v, proof.l, proof.r, 0, oracle).value;
      InStepSizes(gens, f'.value, v', 1);
      LastInStep(gens, stmt.y[0], f'.value, v', proof, oracle(Synced(proof.a, proof.b, v'.t)));
      CongReduce(0);
      hide Reduce;
    }
  }

  lemma InitialInStep(gens: Generators, aHat: Point, t: Transcript)
    requires |gens.hBold| == |gens.gBold|
    ensures InStep(gens, Folding(gens.hBold, gens.gBold, aHat, t), InitialVerifier(aHat, |gens.hBold|, t), |gens.hBold|)
  {
    hide Reduce, Partition, Represents;
    InitialPartition(|gens.hBold|);
    InitialRepresents(gens.hBold);
    InitialRepresents(gens.gBold);
    assert Multiexp([(1, aHat)]) == aHat + Multiexp([]);
  }

  /** So does `verify` of range proofs. */
  lemma RangeVerdict(gens: Generators, commit: Point, proof: RangeProof, oracle: Oracle, k: nat)
    requires 2 <= |gens.hBold| == |gens.gBold| == Pow2(k) && |proof.wip.l| == |proof.wip.r| == k
    ensures |Weights(oracle(YTranscript(proof.a)), Pow2(k))| == Pow2(k)
    ensures var y, z := oracle(YTranscript(proof.a)), oracle(ZTranscript(proof.a));
            Accepted(gens, commit, proof, oracle) ==
            Textbook(gens, WipStmt(AHat(gens, commit, proof.a, y, z), Weights(y, Pow2(k))), proof.wip, ZTranscript(proof.a), oracle)
  {
    var n := |gens.hBold|;
    var y, z := oracle(YTranscript(proof.a)), oracle(ZTranscript(proof.a));
    WeightsSize(y, n);
    hide Queued, Textbook, Multiexp, Weights, AHat, Reduce;
    WipVerdict(gens, WipStmt(AHat(gens, commit, proof.a, y, z), Weights(y, n)), proof.wip, ZTranscript(proof.a), oracle, k);
  }

  // ---- Challenges depend on everything sent before ----

  /** What the rounds from `i` on absorb and squeeze. */
  ghost function Said(l: Vec, r: Vec, i: nat): Transcript
    decreases |l| - i
  {
    if i >= |l| || i >= |r| then [] else [Absorb("a", l[i]), Absorb("b", r[i]), Squeeze("e")] + Said(l, r, i + 1)
  }

  lemma {:induction false} RoundsSay(y: Vec, v: Verifier, l: Vec, r: Vec, i: nat, oracle: Oracle)
    requires 1 <= |v.g.positions| <= |y|
    ensures var v' := VerifierRounds(y, v, l, r, i, oracle); v'.Some? ==> v'.value.t == v.t + Said(l, r, i)
    decreases |l| - i
  {
    if i < |l| && i < |r| {
      RoundSays(y, v, l[i], r[i], oracle);
      var v' := VerifierRound(y, v, l[i], r[i], oracle);
      hide VerifierRound;
      if v'.Some? {
        RoundsSay(y, v'.value, l, r, i + 1, oracle);
      }
    }
  }

  lemma RoundSays(y: Vec, v: Verifier, l: Point, r: Point, oracle: Oracle)
    requires 1 <= |v.g.positions| <= |y|
    ensures var v' := VerifierRound(y, v, l, r, oracle);
            v'.Some? ==> v'.value.t == v.t + [Absorb("a", l), Absorb("b", r), Squeeze("e")] && 1 <= |v'.value.g.positions| <= |y|
  {
    hide Invert, Mul, Square;
  }

  /** The transcript of the last challenge of a proof. */
  ghost function LastSaid(p: RangeProof): Transcript {
    [Absorb("a", p.a), Squeeze("y"), Absorb("a", p.a), Squeeze("z")] + Said(p.wip.l, p.wip.r, 0)
    + [Absorb("a", p.wip.a), Absorb("b", p.wip.b), Squeeze("e")]
  }

  lemma {:induction false} SaidBinds(l: Vec, r: Vec, m: Vec, s: Vec, i: nat)
    requires |l| == |r| && |m| == |s| && i <= |l| && i <= |m| && Said(l, r, i) == Said(m, s, i)
    ensures |l| == |m| && l[i..] == m[i..] && r[i..] == s[i..]
    decreases |l| - i
  {
    if i < |l| {
      assert Said(l, r, i)[3..] == Said(l, r, i + 1);
      assert i < |m|;
      assert Said(m, s, i)[3..] == Said(m, s, i + 1);
      assert Said(l, r, i)[0] == Absorb("a", l[i]) && Said(l, r, i)[1] == Absorb("b", r[i]);
      assert Said(m, s, i)[0] == Absorb("a", m[i]) && Said(m, s, i)[1] == Absorb("b", s[i]);
      SaidBinds(l, r, m, s, i + 1);
      assert l[i..] == [l[i]] + l[i + 1..] && m[i..] == [m[i]] + m[i + 1..];
      assert r[i..] == [r[i]] + r[i + 1..] && s[i..] == [s[i]] + s[i + 1..];
    } else {
      assert Said(l, r, i) == [];
    }
  }

  lemma {:induction false} SaidSize(l: Vec, r: Vec, i: nat)
    requires |l| == |r| && i <= |l|
    ensures |Said(l, r, i)| == 3 * (|l| - i)
    decreases |l| - i
  {
    if i < |l| {
      SaidSize(l, r, i + 1);
    }
  }

  /** Proofs whose last challenge is drawn from the same transcript agree in every point they sent. */
  lemma LastChallengeBinds(p: RangeProof, q: RangeProof)
    requires |p.wip.l| == |p.wip.r| && |q.wip.l| == |q.wip.r| && LastSaid(p) == LastSaid(q)
    ensures p.a == q.a && p.wip.a == q.wip.a && p.wip.b == q.wip.b && p.wip.l == q.wip.l && p.wip.r == q.wip.r
  {
    SaidSize(p.wip.l, p.wip.r, 0);
    SaidSize(q.wip.l, q.wip.r, 0);
    var s, t, n := Said(p.wip.l, p.wip.r, 0), Said(q.wip.l, q.wip.r, 0), |LastSaid(p)|;
    hide Said;
    assert LastSaid(p)[0] == Absorb("a", p.a) && LastSaid(q)[0] == Absorb("a", q.a);
    assert LastSaid(p)[4..n - 3] == s && LastSaid(q)[4..n - 3] == t;
    assert LastSaid(p)[n - 3] == Absorb("a", p.wip.a) && LastSaid(q)[n - 3] == Absorb("a", q.wip.a);
    assert LastSaid(p)[n - 2] == Absorb("b", p.wip.b) && LastSaid(q)[n - 2] == Absorb("b", q.wip.b);
    SaidBinds(p.wip.l, p.wip.r, q.wip.l, q.wip.r, 0);
    assert p.wip.l[0..] == p.wip.l && q.wip.l[0..] == q.wip.l && p.wip.r[0..] == p.wip.r && q.wip.r[0..] == q.wip.r;
  }

  /** The verifier draws its last challenge from that transcript. */
  lemma VerifierSays(gens: Generators, stmt: WipStmt, proof: RangeProof, oracle: Oracle)
    requires 1 <= |gens.hBold| <= |stmt.y|
    ensures var v := VerifierRounds(stmt.y, InitialVerifier(stmt.aHat, |gens.hBold|, ZTranscript(proof.a)), proof.wip.l, proof.wip.r, 0, oracle);
            v.Some? ==> Synced(proof.wip.a, proof.wip.b, v.value.t) == LastSaid(proof)
  {
    var v := InitialVerifier(stmt.aHat, |gens.hBold|, ZTranscript(proof.a));
    RoundsSay(stmt.y, v, proof.wip.l, proof.wip.r, 0, oracle);
    hide VerifierRounds, Said;
    assert ZTranscript(proof.a) == [Absorb("a", proof.a), Squeeze("y"), Absorb("a", proof.a), Squeeze("z")];
  }

  // ---- A proof is accepted for one commitment ----

  /** The same verifier, but for what it has collected; `d` is how much the sums differ. */
  ghost predicate Shifted(v: Verifier, w: Verifier, d: int) {
    v.g == w.g && v.h == w.h && v.t == w.t && Multiexp(w.terms) == Multiexp(v.terms) + d
  }

  lemma {:induction false} RoundsShifted(y: Vec, v: Verifier, w: Verifier, l: Vec, r: Vec, i: nat, oracle: Oracle, d: int)
    requires 1 <= |v.g.positions| <= |y| && Shifted(v, w, d)
    ensures var v', w' := VerifierRounds(y, v, l, r, i, oracle), VerifierRounds(y, w, l, r, i, oracle);
            (v'.Some? <==> w'.Some?) && (v'.Some? ==> Shifted(v'.value, w'.value, d))
    decreases |l| - i
  {
    if i < |l| && i < |r| {
      RoundShifted(y, v, w, l[i], r[i], oracle, d);
      var v', w' := VerifierRound(y, v, l[i], r[i], oracle), VerifierRound(y, w, l[i], r[i], oracle);
      hide VerifierRound, Shifted;
      if v'.Some? {
        RoundsShifted(y, v'.value, w'.value, l, r, i + 1, oracle, d);
      }
    }
  }

  lemma RoundShifted(y: Vec, v: Verifier, w: Verifier, l: Point, r: Point, oracle: Oracle, d: int)
    requires 1 <= |v.g.positions| <= |y| && Shifted(v, w, d)
    ensures var v', w' := VerifierRound(y, v, l, r, oracle), VerifierRound(y, w, l, r, oracle);
            && (v'.Some? <==> w'.Some?)
            && (v'.Some? ==> Shifted(v'.value, w'.value, d) && 1 <= |v'.value.g.positions| <= |y|)
  {
    hide Invert, Mul, Square, Multiexp;
    var p := oracle(Synced(l, r, v.t));
    if Invert(p).Some? {
      var more := [(Square(p), l), (Square(Invert(p).value), r)];
      MultiexpConcat(v.terms, more);
      MultiexpConcat(w.terms, more);
    }
  }

  /** A sum drops by `e * e` times the change of the statement. */
  ghost predicate Drops(at: int, to: int, e: Scalar, change: int) {
    Cong(to, at - e * e * change)
  }

  /** How the queued sum depends on the statement. */
  lemma QueuedShifted(gens: Generators, y: Vec, p: Point, q: Point, proof: WipProof, t: Transcript, oracle: Oracle)
    returns (last: Transcript)
    requires 1 <= |gens.hBold| <= |y|
    ensures var at, to := Queued(gens, WipStmt(p, y), proof, t, oracle), Queued(gens, WipStmt(q, y), proof, t, oracle);
            && (at.Some? <==> to.Some?)
            && (at.Some? ==> Drops(Multiexp(at.value), Multiexp(to.value), oracle(last), q - p))
  {
    var n := |gens.hBold|;
    var v, w := InitialVerifier(p, n, t), InitialVerifier(q, n, t);
    InitialShifted(p, q, n, t);
    hide Shifted, VerifierRounds, QueuedTerms, Multiexp, Reduce, Drops, InitialTable;
    RoundsShifted(y, v, w, proof.l, proof.r, 0, oracle, q - p);
    var v', w' := VerifierRounds(y, v, proof.l, proof.r, 0, oracle), VerifierRounds(y, w, proof.l, proof.r, 0, oracle);
    last := t;
    if v'.Some? {
      ShiftedSame(v'.value, w'.value, q - p);
      last := Synced(proof.a, proof.b, v'.value.t);
      TermsShifted(gens, y[0], proof, v'.value, w'.value, oracle(last), q - p);
    }
  }

  lemma InitialShifted(p: Point, q: Point, n: nat, t: Transcript)
    ensures Shifted(InitialVerifier(p, n, t), InitialVerifier(q, n, t), q - p)
  {
    hide InitialTable;
    OneTerm(p);
    OneTerm(q);
    hide Multiexp;
  }

  lemma OneTerm(p: Point)
    ensures Multiexp([(1, p)]) == p
  {
    assert Multiexp([(1, p)]) == 1 * p + Multiexp([]);
  }

  lemma ShiftedSame(v: Verifier, w: Verifier, d: int)
    requires Shifted(v, w, d)
    ensures v.t == w.t
  {
  }

  lemma TermsShifted(gens: Generators, y: Scalar, proof: WipProof, v: Verifier, w: Verifier, e: Scalar, d: int)
    requires Shifted(v, w, d)
    ensures Drops(Multiexp(QueuedTerms(gens, y, proof, v, e)), Multiexp(QueuedTerms(gens, y, proof, w, e)), e, d)
  {
    MulCong(e, e);
    hide Reduce, Multiexp, QueuedTerms, ScaleTerms, Zip, Scale, Mul, Neg;
    NegCong(Square(e), e * e, d, d);
    var s := Neg(Square(e));
    MultiexpScaled(v.terms, s);
    MultiexpScaled(w.terms, s);
    var rest := SameRest(gens, y, proof, v, w, e, d);
    assert -(e * e) * d == -(e * e * d);
    ShiftSum(rest, Multiexp(ScaleTerms(v.terms, s)), Multiexp(ScaleTerms(w.terms, s)), s, Multiexp(v.terms), d, e * e * d);
  }

  lemma SameRest(gens: Generators, y: Scalar, proof: WipProof, v: Verifier, w: Verifier, e: Scalar, d: int) returns (rest: int)
    requires Shifted(v, w, d)
    ensures Multiexp(QueuedTerms(gens, y, proof, v, e)) == Multiexp(ScaleTerms(v.terms, Neg(Square(e)))) + rest
    ensures Multiexp(QueuedTerms(gens, y, proof, w, e)) == Multiexp(ScaleTerms(w.terms, Neg(Square(e)))) + rest
  {
    hide Reduce, Multiexp, QueuedTerms, ScaleTerms, Zip, Scale, Mul, Neg, Square;
    QueuedSum(gens, y, proof, v, e);
    QueuedSum(gens, y, proof, w, e);
    rest := Multiexp(QueuedTerms(gens, y, proof, v, e)) - Multiexp(ScaleTerms(v.terms, Neg(Square(e))));
  }

  lemma ShiftSum(rest: int, a: int, b: int, s: int, m: int, d: int, ed: int)
    requires Cong(a, s * m) && Cong(b, s * (m + d)) && Cong(s * d, -ed)
    ensures Cong(b + rest, a + rest - ed)
  {
    hide Reduce;
    assert s * (m + d) == s * m + s * d;
    CongAdd(a, s * m, -ed, s * d);
    CongEq(rest, rest);
    CongAdd(a - ed, s * m + s * d, rest, rest);
    CongAdd(b, s * m + s * d, rest, rest);
  }

  /** The statement changes by `w` times the change of the commitment. */
  ghost predicate Follows(change: int, w: Scalar, c: Point, d: Point) {
    Cong(change, w * (d - c))
  }

  lemma AHatShifted(gens: Generators, c: Point, d: Point, a: Point, y: Scalar, z: Scalar)
    requires |gens.hBold| == |gens.gBold|
    ensures Follows(AHat(gens, d, a, y, z) - AHat(gens, c, a, y, z), Pow(y, |gens.hBold| + 1), c, d)
  {
    hide Reduce, AHat, Pow, LastTerm, Dot;
    var n := |gens.hBold|;
    AHatValue(gens, c, a, y, z);
    AHatValue(gens, d, a, y, z);
    var w := Pow(y, n + 1);
    var u := a + (Dot(seq(n, _ => Neg(z)), gens.hBold) + Dot(AddScalar(TwoDescendingY(y, n), z), gens.gBold)
                  + (w * c + LastTerm(y, z, n) * gens.h));
    var u' := a + (Dot(seq(n, _ => Neg(z)), gens.hBold) + Dot(AddScalar(TwoDescendingY(y, n), z), gens.gBold)
                   + (w * d + LastTerm(y, z, n) * gens.h));
    CongMul(-1, -1, AHat(gens, c, a, y, z), u);
    assert -1 * AHat(gens, c, a, y, z) == -(AHat(gens, c, a, y, z) as int) && -1 * u == -u;
    CongAdd(AHat(gens, d, a, y, z), u', -(AHat(gens, c, a, y, z) as int), -u);
    assert u' + -u == w * (d - c);
  }

  lemma UnitCancels(u: Scalar, x: int)
    requires Unit(u) && Cong(u * x, 0)
    ensures Cong(x, 0)
  {
    var i := Invert(u).value;
    MulCong(u, i);
    CongReduce(1);
    hide Reduce, Invert, Mul;
    assert Cong(u * i, 1);
    CongMul(i, i, u * x, 0);
    CongMul(u * i, 1, x, x);
    assert u * i * x == i * (u * x) && 1 * x == x && i * 0 == 0;
  }

  /** A proof accepted for one commitment is accepted for no other, if challenges are invertible. */
  lemma AcceptedForOne(gens: Generators, c: Point, d: Point, proof: RangeProof, oracle: Oracle)
    requires 2 <= |gens.hBold| == |gens.gBold| && UnitChallenges(oracle)
    requires Accepted(gens, c, proof, oracle) == Some(true)
    ensures Accepted(gens, d, proof, oracle) == Some(d == c)
  {
    hide *;
    var n, t := |gens.hBold|, ZTranscript(proof.a);
    var y, z := oracle(YTranscript(proof.a)), oracle(t);
    var p, q := AHat(gens, c, proof.a, y, z), AHat(gens, d, proof.a, y, z);
    AcceptedSum(gens, c, proof, oracle);
    AcceptedSum(gens, d, proof, oracle);
    var ws := Weights(y, n);
    var last := QueuedShifted(gens, ws, p, q, proof.wip, t, oracle);
    UnitChallenge(oracle, YTranscript(proof.a));
    UnitChallenge(oracle, last);
    UnitPower(y, n + 1);
    AHatShifted(gens, c, d, proof.a, y, z);
    SumVanishes(Multiexp(Queued(gens, WipStmt(p, ws), proof.wip, t, oracle).value),
                Multiexp(Queued(gens, WipStmt(q, ws), proof.wip, t, oracle).value), oracle(last), Pow(y, n + 1), c, d, (q as int) - p);
  }

  lemma AcceptedSum(gens: Generators, c: Point, proof: RangeProof, oracle: Oracle)
    requires 2 <= |gens.hBold| == |gens.gBold|
    ensures var n, t := |gens.hBold|, ZTranscript(proof.a);
            var y, z := oracle(YTranscript(proof.a)), oracle(t);
            && |Weights(y, n)| == n
            && var terms := Queued(gens, WipStmt(AHat(gens, c, proof.a, y, z), Weights(y, n)), proof.wip, t, oracle);
               Accepted(gens, c, proof, oracle) == if terms.None? then None else Some(Cong(Multiexp(terms.value), 0))
  {
    WeightsSize(oracle(YTranscript(proof.a)), |gens.hBold|);
    CongReduce(0);
    hide Queued, Multiexp, Weights, AHat, Reduce;
  }

  lemma UnitChallenge(oracle: Oracle, t: Transcript)
    requires UnitChallenges(oracle)
    ensures Unit(oracle(t))
  {
    hide Invert;
  }

  lemma SumVanishes(at: int, to: int, e: Scalar, w: Scalar, c: Point, d: Point, diff: int)
    requires Cong(at, 0) && Drops(at, to, e, diff) && Follows(diff, w, c, d) && Unit(e) && Unit(w)
    ensures Cong(to, 0) <==> c == d
  {
    hide Reduce, Unit;
    CongEq(e * e, e * e);
    CongMul(e * e, e * e, diff, w * (d - c));
    CongMul(-1, -1, e * e * diff, e * e * (w * (d - c)));
    assert -1 * (e * e * diff) == -(e * e * diff) && -1 * (e * e * (w * (d - c))) == -(e * e * (w * (d - c)));
    CongAdd(at, 0, -(e * e * diff), -(e * e * (w * (d - c))));
    var x := e * (e * (w * (d - c)));
    assert e * e * (w * (d - c)) == x;
    assert Cong(to, -x);
    if Cong(to, 0) {
      CongMul(-1, -1, -x, 0);
      assert -1 * -x == x && -1 * 0 == 0;
      UnitCancels(e, e * (w * (d - c)));
      UnitCancels(e, w * (d - c));
      UnitCancels(w, d - c);
      CongEq(c, c);
      CongAdd(d - c, 0, c, c);
      CongCanonical(d, c);
    }
  }

  /** The proof of a value is accepted for the commitment to that value and for no other point. */
  lemma ProofBinds(gens: Generators, value: nat, blinding: Scalar, alpha: Scalar, rng: nat -> Scalar, oracle: Oracle, c: Point)
    requires 2 <= |gens.hBold| == |gens.gBold| && PowerOfTwo(|gens.hBold|) && value < Pow2(|gens.hBold|) && UnitChallenges(oracle)
    ensures var proof := Proved(gens, value, blinding, alpha, rng, oracle);
            proof.Some? && Accepted(gens, c, proof.value, oracle) == Some(c == Commit(gens, Reduce(value), blinding))
  {
    hide *;
    ProvedSucceeds(gens, value, blinding, alpha, rng, oracle);
    RangeCompleteness(gens, value, blinding, alpha, rng, oracle);
    AcceptedForOne(gens, Commit(gens, Reduce(value), blinding), c, Proved(gens, value, blinding, alpha, rng, oracle).value, oracle);
  }
}
