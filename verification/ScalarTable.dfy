/**
 The verifier's scalar table (`IndexedScalars` in `crates/bulletproof/src/wip.rs`): one scalar
 per original generator, in place of the generators the prover folds.
 */
module ScalarTable {
  import opened Scalars
  import opened Vectors
  import opened WeightedInnerProduct

  type Positions = seq<seq<nat>>

  datatype Table = Table(inner: Vec, positions: Positions)

  /** No index of the table is listed twice, and every index below `n` is listed. */
  ghost predicate Partition(t: Table, n: nat) {
    && n <= |t.inner|
    && (forall i, a :: 0 <= i < |t.positions| && 0 <= a < |t.positions[i]| ==> t.positions[i][a] < n)
    && (forall i, a, j, b | 0 <= i < |t.positions| && 0 <= a < |t.positions[i]|
                            && 0 <= j < |t.positions| && 0 <= b < |t.positions[j]| ::
          t.positions[i][a] == t.positions[j][b] ==> i == j && a == b)
    && (forall k :: 0 <= k < n ==> Listed(t.positions, 0, |t.positions|, k))
  }

  predicate Listed(positions: Positions, lo: nat, hi: nat, k: nat)
    requires hi <= |positions|
  {
    exists i :: lo <= i < hi && k in positions[i]
  }

  function Scaled(t: Table, lo: nat, hi: nat, s: Scalar): Table
    requires hi <= |t.positions|
  {
    t.(inner := seq(|t.inner|, k requires 0 <= k < |t.inner| =>
         if Listed(t.positions, lo, hi, k) then Mul(t.inner[k], s) else t.inner[k]))
  }

  function Merged(positions: Positions): Positions {
    var n, j := |positions|, |positions| / 2;
    seq(n - j, i requires 0 <= i < n - j => if i < j then positions[i] + positions[i + (n - j)] else positions[i])
  }

  function InitialTable(capacity: nat): Table {
    Table(seq(capacity + capacity % 2, _ => 1), seq(capacity, i requires 0 <= i < capacity => [i]))
  }

  /** A halving round of the verifier on one table. */
  function NextPair(t: Table, s0: Scalar, s1: Scalar): Table {
    var n := |t.positions|;
    var u := Scaled(Scaled(t, 0, n / 2, s0), n / 2, n, s1);
    u.(positions := Merged(u.positions))
  }

  class IndexedScalars {
    var inner: Vec
    var positions: Positions

    ghost function View(): Table
      reads this
    {
      Table(inner, positions)
    }

    constructor WithCapacity(capacity: nat)
      ensures View() == InitialTable(capacity)
    {
      inner := seq(capacity + capacity % 2, _ => 1);
      positions := seq(capacity, i requires 0 <= i < capacity => [i]);
    }

    method Next(section: nat, scalar: Scalar, ghost n: nat)
      requires section < 2 && Partition(View(), n)
      modifies this
      ensures positions == old(positions)
      ensures section * |positions| / 2 <= (section + 1) * |positions| / 2 <= |positions|
      ensures View() == Scaled(old(View()), section * |positions| / 2, (section + 1) * |positions| / 2, scalar)
    {
      assert section == 0 || section == 1;
      var lo, hi := section * |positions| / 2, (section + 1) * |positions| / 2;
      var i := lo;
      while i < hi
        invariant lo <= i <= hi && positions == old(positions)
        invariant View() == Scaled(old(View()), lo, i, scalar)
      {
        var a := 0;
        while a < |positions[i]|
          invariant positions == old(positions) && |inner| == |old(inner)|
          invariant 0 <= a <= |positions[i]|
          invariant forall k :: 0 <= k < |inner| ==>
            inner[k] == if Listed(positions, lo, i, k) || k in positions[i][..a]
                        then Mul(old(inner)[k], scalar) else old(inner)[k]
        {
          var pos := positions[i][a];
          assert !Listed(positions, lo, i, pos) && pos !in positions[i][..a];
          inner := inner[pos := Mul(inner[pos], scalar)];
          a := a + 1;
        }
        i := i + 1;
      }
    }

    method Merge()
      modifies this
      ensures inner == old(inner) && positions == Merged(old(positions))
    {
      var j := |positions| / 2;
      var i := 1;
      ghost var n := |positions|;
      while i < j + 1
        invariant 1 <= i <= j + 1 && |positions| == n - (i - 1)
        invariant inner == old(inner)
        invariant forall k :: j - i < k < j ==> positions[k] == old(positions)[k] + old(positions)[k + (n - j)]
        invariant forall k :: 0 <= k < |positions| && !(j - i < k < j) ==> positions[k] == old(positions)[k]
      {
        var pos := positions[|positions| - 1];
        assert pos == old(positions)[n - i] && positions[j - i] == old(positions)[j - i];
        positions := positions[..|positions| - 1];
        positions := positions[j - i := positions[j - i] + pos];
        i := i + 1;
      }
    }

    /** The two `next` calls and the `merge` of a round. */
    method Halve(s0: Scalar, s1: Scalar, ghost n: nat)
      requires Partition(View(), n)
      modifies this
      ensures View() == NextPair(old(View()), s0, s1) && Partition(View(), n)
    {
      hide Partition, Mul, Merged;
      ghost var t, len := View(), |positions|;
      Next(0, s0, n);
      ScaledPartition(t, 0, len / 2, s0, n);
      Next(1, s1, n);
      Merge();
      NextPairPartition(t, s0, s1, n);
    }
  }

  // ---- The table refines folding of generators ----

  function At(v: Vec, k: nat): Scalar {
    if k < |v| then v[k] else 0
  }

  /** The generators at the given indices, each multiplied by its scalar. */
  function SumAt(inner: Vec, gens: Vec, ps: seq<nat>): int {
    if ps == [] then 0 else At(inner, ps[0]) * At(gens, ps[0]) + SumAt(inner, gens, ps[1..])
  }

  ghost predicate Represents(t: Table, gens: Vec, folded: Vec) {
    && |folded| == |t.positions|
    && forall i :: 0 <= i < |folded| ==> Cong(SumAt(t.inner, gens, t.positions[i]), folded[i])
  }

  lemma {:induction false} SumAtConcat(inner: Vec, gens: Vec, ps: seq<nat>, qs: seq<nat>)
    ensures SumAt(inner, gens, ps + qs) == SumAt(inner, gens, ps) + SumAt(inner, gens, qs)
  {
    if ps == [] {
      assert ps + qs == qs;
    } else {
      assert (ps + qs)[1..] == ps[1..] + qs;
      SumAtConcat(inner, gens, ps[1..], qs);
    }
  }

  lemma {:induction false} SumAtScaled(inner: Vec, inner': Vec, gens: Vec, ps: seq<nat>, s: Scalar)
    requires forall p :: p in ps ==> p < |inner| == |inner'| && inner'[p] == Mul(inner[p], s)
    ensures Cong(SumAt(inner', gens, ps), s * SumAt(inner, gens, ps))
  {
    if ps != [] {
      var p := ps[0];
      assert p in ps && forall q :: q in ps[1..] ==> q in ps;
      MulCong(inner[p], s);
      hide Reduce;
      SumAtScaled(inner, inner', gens, ps[1..], s);
      CongEq(inner[p] * s, s * inner[p]);
      ScaledStep(inner'[p], s, inner[p], At(gens, p), SumAt(inner', gens, ps[1..]), SumAt(inner, gens, ps[1..]));
    }
  }

  lemma InitialPartition(capacity: nat)
    ensures Partition(InitialTable(capacity), capacity)
  {
    var t := InitialTable(capacity);
    forall k | 0 <= k < capacity
      ensures Listed(t.positions, 0, capacity, k)
    {
      assert k in t.positions[k];
    }
  }

  lemma InitialRepresents(gens: Vec)
    ensures Represents(InitialTable(|gens|), gens, gens)
  {
    var t := InitialTable(|gens|);
    forall i | 0 <= i < |gens|
      ensures Cong(SumAt(t.inner, gens, t.positions[i]), gens[i])
    {
      assert t.positions[i] == [i] && [i][1..] == [];
    }
  }

  /** Where an entry of a merged list comes from. */
  ghost function Origin(ps: Positions, i: nat, a: nat): (o: (nat, nat))
    requires i < |Merged(ps)| && a < |Merged(ps)[i]|
    ensures o.0 < |ps| && o.1 < |ps[o.0]| && ps[o.0][o.1] == Merged(ps)[i][a]
  {
    if a < |ps[i]| then (i, a) else (i + (|ps| - |ps| / 2), a - |ps[i]|)
  }

  lemma MergedLists(ps: Positions, k: nat)
    requires Listed(ps, 0, |ps|, k)
    ensures Listed(Merged(ps), 0, |Merged(ps)|, k)
  {
    var m := |ps| - |ps| / 2;
    var i :| 0 <= i < |ps| && k in ps[i];
    assert k in Merged(ps)[if i < m then i else i - m];
  }

  lemma MergedPartition(t: Table, n: nat)
    requires Partition(t, n)
    ensures Partition(t.(positions := Merged(t.positions)), n)
  {
    var ps, qs := t.positions, Merged(t.positions);
    forall i, a, j, b | 0 <= i < |qs| && 0 <= a < |qs[i]| && 0 <= j < |qs| && 0 <= b < |qs[j]|
      ensures qs[i][a] == qs[j][b] ==> i == j && a == b
    {
      var o, o' := Origin(ps, i, a), Origin(ps, j, b);
      assert ps[o.0][o.1] == qs[i][a] && ps[o'.0][o'.1] == qs[j][b];
    }
    forall i, a | 0 <= i < |qs| && 0 <= a < |qs[i]|
      ensures qs[i][a] < n
    {
      var o := Origin(ps, i, a);
      assert ps[o.0][o.1] == qs[i][a];
    }
    forall k | 0 <= k < n
      ensures Listed(qs, 0, |qs|, k)
    {
      MergedLists(ps, k);
    }
  }

  lemma ScaledPartition(t: Table, lo: nat, hi: nat, s: Scalar, n: nat)
    requires hi <= |t.positions| && Partition(t, n)
    ensures Partition(Scaled(t, lo, hi, s), n)
  {
    hide Mul;
  }

  lemma NextPairPartition(t: Table, s0: Scalar, s1: Scalar, n: nat)
    requires Partition(t, n)
    ensures Partition(NextPair(t, s0, s1), n)
  {
    hide Mul, Merged, Partition;
    var len := |t.positions|;
    var u := Scaled(t, 0, len / 2, s0);
    ScaledPartition(t, 0, len / 2, s0, n);
    assert |u.positions| == len;
    ScaledPartition(u, len / 2, len, s1, n);
    MergedPartition(Scaled(u, len / 2, len, s1), n);
  }

  /** Entries listed in one half are multiplied by the scalar of that half alone. */
  lemma NextPairInner(t: Table, s0: Scalar, s1: Scalar, n: nat, i: nat, p: nat)
    requires Partition(t, n) && i < |t.positions| && p in t.positions[i]
    ensures p < |t.inner| == |NextPair(t, s0, s1).inner|
    ensures NextPair(t, s0, s1).inner[p] == Mul(t.inner[p], if i < |t.positions| / 2 then s0 else s1)
  {
    hide Mul, Merged;
    var ps, len := t.positions, |t.positions|;
    var a :| 0 <= a < |ps[i]| && ps[i][a] == p;
    forall j | 0 <= j < len && p in ps[j]
      ensures j == i
    {
      var b :| 0 <= b < |ps[j]| && ps[j][b] == p;
    }
    assert Listed(ps, 0, len / 2, p) == (i < len / 2) && Listed(ps, len / 2, len, p) == (i >= len / 2);
  }

  lemma NextPairSum(t: Table, gens: Vec, s0: Scalar, s1: Scalar, n: nat, i: nat)
    requires Partition(t, n) && i < |t.positions|
    ensures Cong(SumAt(NextPair(t, s0, s1).inner, gens, t.positions[i]),
                 (if i < |t.positions| / 2 then s0 else s1) * SumAt(t.inner, gens, t.positions[i]))
  {
    hide Reduce, Mul, NextPair, Partition, Cong;
    var ps, inner' := t.positions[i], NextPair(t, s0, s1).inner;
    forall p | p in ps
      ensures p < |t.inner| == |inner'|
      ensures inner'[p] == Mul(t.inner[p], if i < |t.positions| / 2 then s0 else s1)
    {
      NextPairInner(t, s0, s1, n, i, p);
    }
    SumAtScaled(t.inner, inner', gens, ps, if i < |t.positions| / 2 then s0 else s1);
  }

  /**
   One round of the verifier on a table of even size is one fold of the generators it stands for.
   */
  lemma NextPairRefinesFold(t: Table, gens: Vec, folded: Vec, s0: Scalar, s1: Scalar, n: nat)
    requires Partition(t, n) && Represents(t, gens, folded) && |folded| % 2 == 0
    ensures Represents(NextPair(t, s0, s1), gens, FoldGens(folded, s0, s1))
  {
    hide Reduce, Mul, Partition, Combined, Cong, SumAt, FoldGens;
    var m, u := |folded| / 2, NextPair(t, s0, s1);
    assert |u.positions| == m && |FoldGens(folded, s0, s1)| == m by {
      FoldSize(folded, s0, s1);
    }
    forall i | 0 <= i < m
      ensures Cong(SumAt(u.inner, gens, u.positions[i]), FoldGens(folded, s0, s1)[i])
    {
      NextPairEntry(t, gens, folded, s0, s1, n, i);
    }
  }

  lemma FoldSize(v: Vec, s: Scalar, t: Scalar)
    ensures |FoldGens(v, s, t)| == Half(|v|)
  {
  }

  lemma NextPairEntry(t: Table, gens: Vec, folded: Vec, s0: Scalar, s1: Scalar, n: nat, i: nat)
    requires Partition(t, n) && Represents(t, gens, folded) && |folded| % 2 == 0 && i < |folded| / 2
    ensures i < |NextPair(t, s0, s1).positions| && i < |FoldGens(folded, s0, s1)|
    ensures Cong(SumAt(NextPair(t, s0, s1).inner, gens, NextPair(t, s0, s1).positions[i]), FoldGens(folded, s0, s1)[i])
  {
    hide Reduce, Mul, Partition, Combined;
    var m, u, ps := |folded| / 2, NextPair(t, s0, s1), t.positions;
    assert u.positions[i] == ps[i] + ps[i + m];
    assert FoldGens(folded, s0, s1)[i] == Combined(s0, folded[i], s1, folded[i + m]);
    hide NextPair, FoldGens;
    SumAtConcat(u.inner, gens, ps[i], ps[i + m]);
    NextPairSum(t, gens, s0, s1, n, i);
    NextPairSum(t, gens, s0, s1, n, i + m);
    FoldEntry(SumAt(u.inner, gens, ps[i]), SumAt(t.inner, gens, ps[i]), folded[i], s0,
              SumAt(u.inner, gens, ps[i + m]), SumAt(t.inner, gens, ps[i + m]), folded[i + m], s1);
  }

  lemma FoldEntry(x': int, x: int, f: Scalar, s: Scalar, z': int, z: int, g: Scalar, t: Scalar)
    requires Cong(x', s * x) && Cong(x, f) && Cong(z', t * z) && Cong(z, g)
    ensures Cong(x' + z', Combined(s, f, t, g))
  {
    CongReduce(s * f + t * g);
    hide Reduce;
    CongMul(s, s, x, f);
    CongMul(t, t, z, g);
    CongAdd(x', s * f, z', t * g);
  }

  // ---- Any number of rounds ----

  /** The scalars of a sequence of rounds: one for each half. */
  type Schedule = seq<(Scalar, Scalar)>

  function TableAfter(t: Table, ks: Schedule): Table
    decreases |ks|
  {
    if ks == [] then t else TableAfter(NextPair(t, ks[0].0, ks[0].1), ks[1..])
  }

  function GensAfter(v: Vec, ks: Schedule): Vec
    decreases |ks|
  {
    if ks == [] then v else GensAfter(FoldGens(v, ks[0].0, ks[0].1), ks[1..])
  }

  /** `n` can be halved `k` times. */
  ghost predicate Halvable(n: nat, k: nat) {
    k == 0 || (n % 2 == 0 && Halvable(n / 2, k - 1))
  }

  /**
   After any number of rounds the lists still partition the original indices, and the scalars at
   the indices of the `i`-th list combine the original generators to the `i`-th folded one.
   */
  lemma {:induction false} TableRefinesFolds(t: Table, gens: Vec, folded: Vec, ks: Schedule)
    requires Partition(t, |gens|) && Represents(t, gens, folded) && Halvable(|folded|, |ks|)
    ensures Partition(TableAfter(t, ks), |gens|) && Represents(TableAfter(t, ks), gens, GensAfter(folded, ks))
    decreases |ks|
  {
    if ks != [] {
      hide Partition, Represents, NextPair, Combined;
      var s0, s1 := ks[0].0, ks[0].1;
      NextPairPartition(t, s0, s1, |gens|);
      NextPairRefinesFold(t, gens, folded, s0, s1, |gens|);
      TableRefinesFolds(NextPair(t, s0, s1), gens, FoldGens(folded, s0, s1), ks[1..]);
    }
  }

  /** From the table of `with_capacity`, in particular. */
  lemma InitialTableRefinesFolds(gens: Vec, ks: Schedule)
    requires Halvable(|gens|, |ks|)
    ensures Partition(TableAfter(InitialTable(|gens|), ks), |gens|)
    ensures Represents(TableAfter(InitialTable(|gens|), ks), gens, GensAfter(gens, ks))
  {
    InitialPartition(|gens|);
    InitialRepresents(gens);
    TableRefinesFolds(InitialTable(|gens|), gens, gens, ks);
  }

  // ---- A table with one list ----

  /** `ps` lists every index below `n` exactly once. */
  ghost predicate Permutation(ps: seq<nat>, n: nat) {
    && (forall a :: 0 <= a < |ps| ==> ps[a] < n)
    && (forall a, b :: 0 <= a < b < |ps| ==> ps[a] != ps[b])
    && (forall k :: 0 <= k < n ==> k in ps)
  }

  lemma {:induction false} SumAtPermutation(inner: Vec, gens: Vec, ps: seq<nat>, n: nat)
    requires Permutation(ps, n) && n <= |inner| && n <= |gens|
    ensures SumAt(inner, gens, ps) == Dot(inner[..n], gens[..n])
  {
    if n > 0 {
      assert n - 1 in ps;
      var a :| 0 <= a < |ps| && ps[a] == n - 1;
      PermutationShrinks(ps, n, a);
      SumAtWithout(inner, gens, ps, a);
      SumAtPermutation(inner, gens, ps[..a] + ps[a + 1..], n - 1);
      DotSnoc(inner, gens, n);
    } else {
      assert ps == [];
    }
  }

  lemma PermutationShrinks(ps: seq<nat>, n: nat, a: nat)
    requires Permutation(ps, n) && n > 0 && a < |ps| && ps[a] == n - 1
    ensures Permutation(ps[..a] + ps[a + 1..], n - 1)
  {
    var rest := ps[..a] + ps[a + 1..];
    forall k | 0 <= k < n - 1
      ensures k in rest
    {
      assert k in ps;
      assert k in ps[..a] || k in ps[a + 1..];
    }
  }

  lemma SumAtWithout(inner: Vec, gens: Vec, ps: seq<nat>, a: nat)
    requires a < |ps|
    ensures SumAt(inner, gens, ps)
         == SumAt(inner, gens, ps[..a] + ps[a + 1..]) + (At(inner, ps[a]) as int) * At(gens, ps[a])
  {
    assert ps == ps[..a] + [ps[a]] + ps[a + 1..];
    SumAtConcat(inner, gens, ps[..a] + [ps[a]], ps[a + 1..]);
    SumAtConcat(inner, gens, ps[..a], [ps[a]]);
    SumAtConcat(inner, gens, ps[..a], ps[a + 1..]);
    assert [ps[a]][1..] == [];
  }

  /** After the last round the whole table, as one multi-exponentiation, is the last generator. */
  lemma LastTable(t: Table, gens: Vec, folded: Vec)
    requires Partition(t, |gens|) && |t.positions| == 1 && Represents(t, gens, folded)
    ensures Cong(Dot(t.inner[..|gens|], gens), folded[0])
  {
    var ps := t.positions[0];
    assert Permutation(ps, |gens|) by {
      forall k | 0 <= k < |gens|
        ensures k in ps
      {
        assert Listed(t.positions, 0, 1, k);
      }
    }
    SumAtPermutation(t.inner, gens, ps, |gens|);
    assert gens[..|gens|] == gens;
  }
}
