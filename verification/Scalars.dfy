/**
 The scalar field of the curve and its group of points.

 A scalar is the canonical representative of an integer modulo the group order `Q`. The
 modulus is left arbitrary: every statement holds for all of them, the order of secp256k1
 included. The group is cyclic of that order, so a point is represented by its logarithm
 to a fixed base: adding points is `Add`, multiplying a point by a scalar is `Mul`.
 Equations are proved on unreduced integers as congruences.
 */
module Scalars {
  import opened Options

  type Modulus = q: int | q > 1 witness 2

  const Q: Modulus

  type Scalar = x: int | 0 <= x < Q

  type Point = Scalar

  function Reduce(x: int): Scalar {
    x % Q
  }

  function Add(a: Scalar, b: Scalar): Scalar {
    Reduce(a + b)
  }

  function Sub(a: Scalar, b: Scalar): Scalar {
    Reduce(a - b)
  }

  function Neg(a: Scalar): Scalar {
    Reduce(-(a as int))
  }

  function Mul(a: Scalar, b: Scalar): Scalar {
    Reduce(a * b)
  }

  function Square(a: Scalar): Scalar {
    Mul(a, a)
  }

  ghost predicate Cong(a: int, b: int) {
    Reduce(a) == Reduce(b)
  }

  lemma RemainderUnique(x: int, k: int, r: int, l: int, s: int)
    requires x == r + Q * k && x == s + Q * l && 0 <= r < Q && 0 <= s < Q
    ensures r == s
  {
    SmallMultiple(Q, k - l);
    assert Q * (k - l) == Q * k - Q * l;
  }

  lemma SmallMultiple(q: int, n: int)
    requires q > 0
    ensures -q < q * n < q ==> n == 0
  {
    if n > 0 {
      assert q * n >= q * 1;
    } else if n < 0 {
      assert q * n <= q * -1;
    }
  }

  lemma CongCanonical(a: Scalar, b: Scalar)
    requires Cong(a, b)
    ensures a == b
  {
    CongReduce(a);
    CongReduce(b);
  }

  /** Reducing keeps the class, and changes nothing that is reduced already. */
  lemma CongReduce(x: int)
    ensures Cong(Reduce(x), x) && (0 <= x < Q ==> Reduce(x) == x)
  {
    var r := x % Q;
    RemainderUnique(r, 0, r, r / Q, r % Q);
    if 0 <= x < Q {
      RemainderUnique(x, 0, x, x / Q, r);
    }
  }

  lemma CongMultiple(a: int, k: int)
    ensures Cong(a + Q * k, a)
  {
    var x := a + Q * k;
    assert Q * (a / Q + k) == Q * (a / Q) + Q * k;
    RemainderUnique(x, a / Q + k, a % Q, x / Q, x % Q);
  }

  lemma CongWitness(a: int, b: int) returns (k: int)
    requires Cong(a, b)
    ensures a == b + Q * k
  {
    k := a / Q - b / Q;
    assert Q * k == Q * (a / Q) - Q * (b / Q);
  }

  lemma AddCong(a: Scalar, b: Scalar)
    ensures Cong(Add(a, b), a + b)
  {
    CongReduce(a + b);
  }

  lemma MulCong(a: Scalar, b: Scalar)
    ensures Cong(Mul(a, b), a * b)
  {
    CongReduce(a * b);
  }

  lemma CongEq(a: int, b: int)
    requires a == b
    ensures Cong(a, b)
  {
  }

  lemma CongAdd(a: int, b: int, c: int, d: int)
    requires Cong(a, b) && Cong(c, d)
    ensures Cong(a + c, b + d)
  {
    hide Reduce;
    var k := CongWitness(a, b);
    var l := CongWitness(c, d);
    CongMultiple(b + d, k + l);
    assert b + d + Q * (k + l) == a + c;
  }

  lemma CongMul(a: int, b: int, c: int, d: int)
    requires Cong(a, b) && Cong(c, d)
    ensures Cong(a * c, b * d)
  {
    hide Reduce;
    var k := CongWitness(a, b);
    var l := CongWitness(c, d);
    ShiftedProduct(b, k, d, l, Q);
    CongMultiple(b * d, b * l + k * d + Q * (k * l));
  }

  lemma ShiftedProduct(b: int, k: int, d: int, l: int, q: int)
    ensures (b + q * k) * (d + q * l) == b * d + q * (b * l + k * d + q * (k * l))
  {
    assert (b + q * k) * (d + q * l) == b * d + b * (q * l) + (q * k) * d + (q * k) * (q * l);
    assert b * (q * l) == q * (b * l);
    assert (q * k) * d == q * (k * d);
    assert (q * k) * (q * l) == q * (q * (k * l));
  }

  // ---- Inverses ----

  datatype Bezout = Bezout(gcd: nat, s: int, t: int)

  /** Extended Euclid: the greatest common divisor with its two cofactors. */
  function Euclid(a: nat, b: nat): Bezout
    decreases b
  {
    if b == 0 then
      Bezout(a, 1, 0)
    else
      var e := Euclid(b, a % b);
      Bezout(e.gcd, e.t, e.s - e.t * (a / b))
  }

  lemma {:induction false} EuclidCombination(a: nat, b: nat)
    ensures var e := Euclid(a, b); e.s * a + e.t * b == e.gcd
    decreases b
  {
    if b != 0 {
      EuclidCombination(b, a % b);
      var e := Euclid(b, a % b);
      CombinationStep(a, b, a / b, a % b, e.s, e.t);
    }
  }

  lemma CombinationStep(a: int, b: int, d: int, m: int, s: int, t: int)
    requires a == b * d + m
    ensures t * a + (s - t * d) * b == s * b + t * m
  {
    assert t * a == t * (b * d) + t * m;
    assert (s - t * d) * b == s * b - (t * d) * b;
    assert (t * d) * b == t * (b * d);
  }

  lemma {:induction false} EuclidDivides(a: nat, b: nat) returns (u: int, v: int)
    ensures var g := Euclid(a, b).gcd; a == g * u && b == g * v
    decreases b
  {
    if b == 0 {
      u, v := 1, 0;
    } else {
      var u', v' := EuclidDivides(b, a % b);
      DividesStep(a, b, a / b, a % b, Euclid(a, b).gcd, u', v');
      u, v := u' * (a / b) + v', u';
    }
  }

  lemma DividesStep(a: int, b: int, d: int, m: int, g: int, u: int, v: int)
    requires a == b * d + m && b == g * u && m == g * v
    ensures a == g * (u * d + v)
  {
    assert g * (u * d + v) == (g * u) * d + g * v;
  }

  lemma BezoutInverse(x: Scalar, s: int, t: int)
    requires s * x + t * Q == 1
    ensures Mul(x, Reduce(s)) == 1
  {
    hide Reduce;
    CongReduce(s);
    CongReduce(1);
    CongMultiple(s * x, t);
    CongMul(x, x, Reduce(s), s);
    assert s * x + Q * t == 1 && x * s == s * x;
  }

  lemma UnitCong(x: Scalar, y: Scalar)
    requires Mul(x, y) == 1
    ensures Cong(x * y, 1)
  {
    CongReduce(1);
  }

  lemma UnitHasUnitGcd(x: Scalar, y: Scalar)
    requires Mul(x, y) == 1
    ensures Euclid(x, Q).gcd == 1
  {
    UnitCong(x, y);
    hide *;
    var u, v := EuclidDivides(x, Q);
    var k := CongWitness(x * y, 1);
    DivisorOfOne(x, y, Q, k, Euclid(x, Q).gcd, u, v);
  }

  lemma DivisorOfOne(x: int, y: int, q: int, k: int, g: nat, u: int, v: int)
    requires x * y == 1 + q * k && x == g * u && q == g * v
    ensures g == 1
  {
    var w := u * y - v * k;
    assert g * w == (g * u) * y - (g * v) * k;
    assert g * w == 1;
    assert w > 0;
  }

  /** `invert` of the field library; `None` stands for the panic of its `expect`. */
  function Invert(x: Scalar): (r: Option<Scalar>)
    ensures r.Some? ==> Mul(x, r.value) == 1
  {
    var e := Euclid(x, Q);
    if e.gcd == 1 then
      EuclidCombination(x, Q);
      BezoutInverse(x, e.s, e.t);
      Some(Reduce(e.s))
    else
      None
  }

  /** `Invert` fails on exactly the scalars that have no inverse. */
  lemma InvertExactlyUnits(x: Scalar)
    ensures Invert(x).Some? <==> exists y: Scalar :: Mul(x, y) == 1
  {
    if y: Scalar :| Mul(x, y) == 1 {
      UnitHasUnitGcd(x, y);
    }
  }
}
