/**
 The weighted inner product argument (`crates/bulletproof/src/wip.rs`): the prover's folding
 and the specification of `generate`.
 */
module WeightedInnerProduct {
  import opened Numbers
  import opened Options
  import opened Scalars
  import opened Vectors

  /** The fixed points `G`, `H`, `G_BOLD1` and `H_BOLD1`. */
  datatype Generators = Generators(g: Point, h: Point, gBold: Vec, hBold: Vec)

  // ---- Transcript ----

  datatype Entry = Absorb(tag: string, point: Point) | Squeeze(tag: string)

  /** Everything absorbed and squeezed so far; a challenge is a function of it. */
  type Transcript = seq<Entry>

  type Oracle = Transcript -> Scalar

  function Synced(a: Point, b: Point, t: Transcript): Transcript {
    t + [Absorb("a", a), Absorb("b", b), Squeeze("e")]
  }

  // ---- Statement, proof and prover state ----

  datatype WipStmt = WipStmt(aHat: Point, y: Vec)

  datatype WipProof = WipProof(l: Vec, r: Vec, a: Point, b: Point,
                               rRev: Scalar, sRev: Scalar, deltaRev: Scalar)

  datatype Prover = Prover(a: Vec, b: Vec, alpha: Scalar, hBold: Vec, gBold: Vec,
                           l: Vec, r: Vec, t: Transcript)

  /** The scalars of one halving round. */
  datatype Keys = Keys(p: Scalar, pInv: Scalar, y: Scalar, yInv: Scalar)

  function Fst(v: Vec): Vec {
    v[..Half(|v|)]
  }

  function Snd(v: Vec): Vec {
    Padded(v)
  }

  function Combined(s: Scalar, v: Point, t: Scalar, w: Point): Point {
    Reduce(s * v + t * w)
  }

  /** `s * v1 + t * v2` for the two halves of `v`, as `next_gens` folds generators. */
  function FoldGens(v: Vec, s: Scalar, t: Scalar): Vec {
    seq(Half(|v|), i requires 0 <= i < Half(|v|) => Combined(s, Fst(v)[i], t, Snd(v)[i]))
  }

  function LeftTerms(gens: Generators, y: Vec, s: Prover, yInv: Scalar, d: Scalar): seq<Term> {
    Zip(Scale(Fst(s.a), yInv), Snd(s.hBold)) + Zip(Snd(s.b), Fst(s.gBold))
    + [(Wip(Fst(s.a), Snd(s.b), y), gens.h), (d, gens.g)]
  }

  function RightTerms(gens: Generators, y: Vec, s: Prover, yHat: Scalar, d: Scalar): seq<Term> {
    Zip(Scale(Snd(s.a), yHat), Fst(s.hBold)) + Zip(Fst(s.b), Snd(s.gBold))
    + [(Wip(Scale(Snd(s.a), yHat), Fst(s.b), y), gens.h), (d, gens.g)]
  }

  function Folded(s: Prover, k: Keys, l: Point, r: Point, dl: Scalar, dr: Scalar, t: Transcript): Prover {
    Prover(
      AddAll(Scale(Fst(s.a), k.p), Scale(Snd(s.a), Mul(k.y, k.pInv))),
      AddAll(Scale(Fst(s.b), k.pInv), Scale(Snd(s.b), k.p)),
      Add(s.alpha, Add(Mul(dl, Square(k.p)), Mul(dr, Square(k.pInv)))),
      FoldGens(s.hBold, k.pInv, Mul(k.p, k.yInv)),
      FoldGens(s.gBold, k.p, k.pInv),
      s.l + [l], s.r + [r], t)
  }

  /** One pass of the loop of `generate`; `None` when a scalar is not invertible. */
  function Round(gens: Generators, y: Vec, s: Prover, dl: Scalar, dr: Scalar, oracle: Oracle): (r: Option<Prover>)
    requires 1 < |s.hBold| && Half(|s.hBold|) <= |y|
    ensures r.Some? ==> |r.value.hBold| == Half(|s.hBold|)
  {
    var yHat := y[Half(|s.hBold|) - 1];
    var yInv := Invert(yHat);
    if yInv.None? then None else
    var l := Reduce(Multiexp(LeftTerms(gens, y, s, yInv.value, dl)));
    var r := Reduce(Multiexp(RightTerms(gens, y, s, yHat, dr)));
    var t := Synced(l, r, s.t);
    var pInv := Invert(oracle(t));
    if pInv.None? then None else
    Some(Folded(s, Keys(oracle(t), pInv.value, yHat, yInv.value), l, r, dl, dr, t))
  }

  /** Halving rounds until one generator is left; round `i` draws `rng(2 * i)` and `rng(2 * i + 1)`. */
  function Rounds(gens: Generators, y: Vec, s: Prover, i: nat, rng: nat -> Scalar, oracle: Oracle): Option<Prover>
    requires |s.hBold| <= |y|
    decreases |s.hBold|
  {
    if |s.hBold| <= 1 then
      Some(s)
    else
      var next := Round(gens, y, s, rng(2 * i), rng(2 * i + 1), oracle);
      if next.None? then None else Rounds(gens, y, next.value, i + 1, rng, oracle)
  }

  /** The four scalars drawn after the last round. */
  datatype Masks = Masks(r: Scalar, s: Scalar, delta: Scalar, eta: Scalar)

  function FinalA(gens: Generators, y: Scalar, s: Prover, m: Masks): Point
    requires s.a != [] && s.b != [] && s.hBold != [] && s.gBold != []
  {
    Reduce(Multiexp([(m.r, s.hBold[0]), (m.s, s.gBold[0]),
                     (Add(Mul(Mul(m.r, y), s.b[0]), Mul(Mul(m.s, y), s.a[0])), gens.h), (m.delta, gens.g)]))
  }

  function FinalB(gens: Generators, y: Scalar, m: Masks): Point {
    Reduce(Multiexp([(Mul(Mul(m.r, y), m.s), gens.h), (m.eta, gens.g)]))
  }

  function Finish(gens: Generators, y: Scalar, s: Prover, m: Masks, oracle: Oracle): WipProof
    requires s.a != [] && s.b != [] && s.hBold != [] && s.gBold != []
  {
    var a, b := FinalA(gens, y, s, m), FinalB(gens, y, m);
    var e := oracle(Synced(a, b, s.t));
    WipProof(s.l, s.r, a, b,
             Add(m.r, Mul(s.a[0], e)),
             Add(m.s, Mul(s.b[0], e)),
             Add(Add(m.eta, Mul(m.delta, e)), Mul(s.alpha, Square(e))))
  }

  function InitialProver(gens: Generators, a: Vec, b: Vec, alpha: Scalar, t: Transcript): Prover {
    Prover(a, b, alpha, gens.hBold, gens.gBold, [], [], t)
  }

  function DrawMasks(rng: nat -> Scalar, i: nat): Masks {
    Masks(rng(2 * i), rng(2 * i + 1), rng(2 * i + 2), rng(2 * i + 3))
  }

  /** The proof of `generate`; `None` when it would panic. */
  function Generated(gens: Generators, y: Vec, a: Vec, b: Vec, alpha: Scalar, rng: nat -> Scalar,
                     t: Transcript, oracle: Oracle): Option<WipProof>
    requires 1 <= |gens.hBold| <= |y|
  {
    var s := Rounds(gens, y, InitialProver(gens, a, b, alpha, t), 0, rng, oracle);
    if s.None? || s.value.a == [] || s.value.b == [] || s.value.hBold == [] || s.value.gBold == [] then None else
    Some(Finish(gens, y[0], s.value, DrawMasks(rng, |s.value.l|), oracle))
  }

  // ---- The commitment every round keeps ----

  /** `<a, hBold> + <b, gBold> + (a wip b) h + alpha g`, unreduced. */
  ghost function Commitment(gens: Generators, y: Vec, s: Prover): int {
    Dot(s.a, s.hBold) + Dot(s.b, s.gBold) + Dot(s.a, MulAll(s.b, y)) * gens.h + s.alpha * gens.g
  }

  ghost predicate Balanced(s: Prover, n: nat) {
    |s.a| == |s.b| == |s.hBold| == |s.gBold| == n
  }

  ghost predicate PowerOfTwo(n: nat) {
    n == 1 || (n > 1 && n % 2 == 0 && PowerOfTwo(n / 2))
  }

  // ---- The code of the prover ----

  /** `WipStmt::new`: fills a zeroed vector with the powers of `y`. */
  method NewStmt(aHat: Point, y: Scalar, n: nat) returns (stmt: WipStmt)
    requires n > 0
    ensures stmt == WipStmt(aHat, Weights(y, n))
  {
    var ys := new Scalar[n](_ => 0);
    ys[0] := y;
    CongReduce(y);
    assert Pow(y, 1) == y by {
      assert Pow(y, 0) == 1;
    }
    for i := 1 to n
      invariant forall j :: 0 <= j < i ==> ys[j] == Pow(y, j + 1)
    {
      ys[i] := Mul(ys[i - 1], y);
    }
    assert ys[..] == Weights(y, n);
    stmt := WipStmt(aHat, ys[..]);
  }

  /** A loop of `next_gens`: folds two vectors of generators into one. */
  method FoldPoints(v: Vec, s: Scalar, w: Vec, t: Scalar) returns (folded: Vec)
    ensures |folded| == Least(|v|, |w|)
    ensures forall i :: 0 <= i < |folded| ==> folded[i] == Combined(s, v[i], t, w[i])
  {
    hide Reduce;
    folded := [];
    for i := 0 to Least(|v|, |w|)
      invariant |folded| == i
      invariant forall j :: 0 <= j < i ==> folded[j] == Combined(s, v[j], t, w[j])
    {
      MultiexpPair((s, v[i]), (t, w[i]));
      folded := folded + [Reduce(Multiexp([(s, v[i]), (t, w[i])]))];
    }
  }

  /** `next_gens`: draws the challenge of the round and folds both vectors of generators. */
  method NextGens(g1: Vec, g2: Vec, h1: Vec, h2: Vec, l: Point, r: Point, yInv: Scalar, t: Transcript, oracle: Oracle)
    returns (p: Scalar, pInv: Option<Scalar>, gBolds: Vec, hBolds: Vec)
    ensures p == oracle(Synced(l, r, t)) && pInv == Invert(p)
    ensures pInv.Some? ==>
      && |gBolds| == Least(|g1|, |g2|) && |hBolds| == Least(|h1|, |h2|)
      && (forall i :: 0 <= i < |gBolds| ==> gBolds[i] == Combined(pInv.value, g1[i], Mul(p, yInv), g2[i]))
      && (forall i :: 0 <= i < |hBolds| ==> hBolds[i] == Combined(p, h1[i], pInv.value, h2[i]))
  {
    hide Combined;
    p := oracle(Synced(l, r, t));
    pInv := Invert(p);
    gBolds, hBolds := [], [];
    if pInv.Some? {
      gBolds := FoldPoints(g1, pInv.value, g2, Mul(p, yInv));
      hBolds := FoldPoints(h1, p, h2, pInv.value);
    }
  }

  /** The body of the loop of `generate`. */
  method HalvingRound(gens: Generators, y: Vec, s: Prover, dl: Scalar, dr: Scalar, oracle: Oracle)
    returns (next: Option<Prover>)
    requires 1 < |s.hBold| <= |y|
    ensures next == Round(gens, y, s, dl, dr, oracle)
  {
    hide Reduce, Mul, Add, Square, Wip, Scale, AddAll, Multiexp, Zip, Invert, Combined;
    var a1, a2 := Split(s.a);
    var b1, b2 := Split(s.b);
    var h1, h2 := Split(s.hBold);
    var g1, g2 := Split(s.gBold);
    var yHat := y[|h1| - 1];
    var cl, cr := Wip(a1, b2, y), Wip(Scale(a2, yHat), b1, y);
    var yInv := Invert(yHat);
    if yInv.None? {
      return None;
    }
    var l := Reduce(Multiexp(Zip(Scale(a1, yInv.value), h2) + Zip(b2, g1) + [(cl, gens.h), (dl, gens.g)]));
    var r := Reduce(Multiexp(Zip(Scale(a2, yHat), h1) + Zip(b1, g2) + [(cr, gens.h), (dr, gens.g)]));
    var p, pInv, hBold, gBold := NextGens(h1, h2, g1, g2, l, r, yInv.value, s.t, oracle);
    if pInv.None? {
      return None;
    }
    assert hBold == FoldGens(s.hBold, pInv.value, Mul(p, yInv.value));
    assert gBold == FoldGens(s.gBold, p, pInv.value);
    var a := AddAll(Scale(a1, p), Scale(a2, Mul(yHat, pInv.value)));
    var b := AddAll(Scale(b1, pInv.value), Scale(b2, p));
    var alpha := Add(s.alpha, Add(Mul(dl, Square(p)), Mul(dr, Square(pInv.value))));
    next := Some(Prover(a, b, alpha, hBold, gBold, s.l + [l], s.r + [r], Synced(l, r, s.t)));
  }

  /** `WipStmt::generate`. */
  method Generate(gens: Generators, stmt: WipStmt, a: Vec, b: Vec, alpha: Scalar, rng: nat -> Scalar,
                  t: Transcript, oracle: Oracle) returns (proof: Option<WipProof>)
    requires 1 <= |gens.hBold| <= |stmt.y|
    ensures proof == Generated(gens, stmt.y, a, b, alpha, rng, t, oracle)
  {
    hide Reduce, Mul, Add, Multiexp, Round;
    var y := stmt.y;
    var s := InitialProver(gens, a, b, alpha, t);
    ghost var start := s;
    var i := 0;
    while |s.hBold| > 1
      invariant 1 <= |s.hBold| <= |y| && |s.l| == i
      invariant Rounds(gens, y, s, i, rng, oracle) == Rounds(gens, y, start, 0, rng, oracle)
      decreases |s.hBold|
    {
      var next := HalvingRound(gens, y, s, rng(2 * i), rng(2 * i + 1), oracle);
      if next.None? {
        return None;
      }
      RoundExtends(gens, y, s, rng(2 * i), rng(2 * i + 1), oracle);
      s := next.value;
      i := i + 1;
    }
    if s.a == [] || s.b == [] || s.gBold == [] {
      return None;
    }
    var r, d, delta, eta := rng(2 * i), rng(2 * i + 1), rng(2 * i + 2), rng(2 * i + 3);
    var ry := Mul(r, y[0]);
    var pa := Reduce(Multiexp([(r, s.hBold[0]), (d, s.gBold[0]),
                               (Add(Mul(ry, s.b[0]), Mul(Mul(d, y[0]), s.a[0])), gens.h), (delta, gens.g)]));
    var pb := Reduce(Multiexp([(Mul(ry, d), gens.h), (eta, gens.g)]));
    var e := oracle(Synced(pa, pb, s.t));
    proof := Some(WipProof(s.l, s.r, pa, pb, Add(r, Mul(s.a[0], e)), Add(d, Mul(s.b[0], e)),
                           Add(Add(eta, Mul(delta, e)), Mul(s.alpha, Square(e)))));
  }

  lemma RoundExtends(gens: Generators, y: Vec, s: Prover, dl: Scalar, dr: Scalar, oracle: Oracle)
    requires 1 < |s.hBold| <= |y|
    ensures var f := Round(gens, y, s, dl, dr, oracle);
            f.Some? ==> |f.value.l| == |s.l| + 1 && |f.value.hBold| == Half(|s.hBold|)
  {
  }
}
