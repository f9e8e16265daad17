/** Clean-up of outdated transactions (`handle_cleanup` in `crates/tx-attach/src/lib.rs`). */
module AttachCleanup {
  import opened AttachGraph
  import opened AttachResults

  /** With a transaction, its children are in the set. */
  ghost predicate Hereditary(g: Graph, r: set<Txid>) {
    forall p, c :: p in r && Wakes(g, p, c) ==> c in r
  }

  /** The roots and all they wake, directly or not. */
  ghost predicate IsDescendants(g: Graph, roots: set<Txid>, r: set<Txid>) {
    && roots <= r && Hereditary(g, r)
    && forall b :: roots <= b && Hereditary(g, b) ==> r <= b
  }

  /** The removed transactions that await `p`. */
  function Leavers(g: Graph, r: set<Txid>, p: Txid): set<Txid> {
    set x | x in r && x in g.deps && p in g.deps[x]
  }

  /** The graph without the transactions in `r`, which also leave the children of those they await. */
  function Removed(g: Graph, r: set<Txid>): Graph {
    Graph(map p | p in g.inv && p !in r && (Leavers(g, r, p) == {} || g.inv[p] - Leavers(g, r, p) != {}) ::
            g.inv[p] - Leavers(g, r, p),
          g.deps - r, g.stored - r)
  }

  lemma RemovedEdges(g: Graph, r: set<Txid>)
    ensures forall p, c :: Wakes(Removed(g, r), p, c) <==> Wakes(g, p, c) && p !in r && !(c in r && Awaits(g, c, p))
    ensures forall c, p :: Awaits(Removed(g, r), c, p) <==> Awaits(g, c, p) && c !in r
    ensures NoEmptyInv(g) ==> NoEmptyInv(Removed(g, r))
  {
    forall p, c | Wakes(g, p, c) && p !in r && !(c in r && Awaits(g, c, p))
      ensures Wakes(Removed(g, r), p, c)
    {
      assert c in g.inv[p] - Leavers(g, r, p);
    }
  }

  lemma LeaversTwice(g: Graph, r: set<Txid>, s: set<Txid>, p: Txid)
    ensures Leavers(g, r, p) + Leavers(Removed(g, r), s, p) == Leavers(g, r + s, p)
  {
  }

  lemma RemovedTwice(g: Graph, r: set<Txid>, s: set<Txid>)
    ensures Removed(Removed(g, r), s) == Removed(g, r + s)
  {
    var h, a, b := Removed(g, r), Removed(Removed(g, r), s), Removed(g, r + s);
    forall p | p in g.inv
      ensures p in a.inv <==> p in b.inv
      ensures p in a.inv ==> a.inv[p] == b.inv[p]
    {
      LeaversTwice(g, r, s, p);
      assert g.inv[p] - Leavers(g, r, p) - Leavers(h, s, p) == g.inv[p] - Leavers(g, r + s, p);
    }
    assert a.inv == b.inv && a.deps == b.deps && a.stored == b.stored;
  }

  /** Descendants of one more root, found in the graph left after a removal. */
  lemma DescendantsGrow(g: Graph, roots: set<Txid>, r: set<Txid>, t: Txid, s: set<Txid>)
    requires IsDescendants(g, roots, r) && IsDescendants(Removed(g, r), {t}, s)
    ensures IsDescendants(g, roots + {t}, r + s)
  {
    hide Wakes, Removed, Awaits;
    RemovedEdges(g, r);
    forall p, c | p in r + s && Wakes(g, p, c)
      ensures c in r + s
    {
      if p !in r && c !in r {
        assert Wakes(Removed(g, r), p, c);
      }
    }
    forall b | roots + {t} <= b && Hereditary(g, b)
      ensures r + s <= b
    {
      assert roots <= b;
      assert Hereditary(Removed(g, r), b);
      assert {t} <= b;
    }
  }

  // ---- What clean-up keeps ----

  lemma RemovedTracked(g: Graph, a: set<Txid>, early: set<Txid>, r: set<Txid>)
    requires Tracked(g, a, early) && Hereditary(g, r)
    ensures Tracked(Removed(g, r), a, early) && Pending(Removed(g, r)) <= Pending(g)
  {
    var g' := Removed(g, r);
    RemovedEdges(g, r);
    assert Keyed(g');
    assert forall c :: c in g'.stored ==> g'.stored[c] == g.stored[c] && c !in r;
    hide Parents, Awaits, Wakes, Removed, NoEmptyInv, Keyed;
  }

  lemma RemovedSound(g: Graph, seen: set<Txid>, r: set<Txid>)
    requires Sound(g, seen)
    ensures Sound(Removed(g, r), seen)
  {
  }

  lemma RemovedExact(g: Graph, a: set<Txid>, r: set<Txid>)
    requires Exact(g, a) && Hereditary(g, r)
    ensures Exact(Removed(g, r), a)
  {
    TrackedExact(g, a);
    RemovedTracked(g, a, {}, r);
    RemovedSound(g, a, r);
    TrackedExact(Removed(g, r), a);
    hide Exact, Tracked, Sound;
  }

  /** With a transaction, those that await it are in the set. */
  ghost predicate Inherited(g: Graph, r: set<Txid>) {
    forall p, c :: p in r && Awaits(g, c, p) ==> c in r
  }

  /**
   As long as early ids are never waiting, what the roots wake is exactly what waits for them,
   directly or not.
   */
  lemma DescendantsAwait(g: Graph, a: set<Txid>, early: set<Txid>, roots: set<Txid>, r: set<Txid>)
    requires Tracked(g, a, early) && g.stored.Keys !! early && roots <= g.stored.Keys && IsDescendants(g, roots, r)
    ensures Inherited(g, r) && forall b :: roots <= b && Inherited(g, b) ==> r <= b
  {
    assert forall c, p :: Awaits(g, c, p) ==> c in g.stored;
    hide Parents, Wakes, Awaits;
    forall b | roots <= b && Inherited(g, b)
      ensures r <= b
    {
      assert Hereditary(g, b - early);
      assert roots <= b - early;
    }
  }

  /** The waiting transactions stored longer ago than `duration`. */
  function Outdated(g: Graph, now: nat, duration: nat): set<Txid> {
    set c | c in g.stored && now - g.stored[c].1 > duration
  }

  /** A waiting transaction is kept through the whole duration, and outdated right after it. */
  lemma OutdatedExactly(g: Graph, now: nat, duration: nat, c: Txid)
    requires c in g.stored
    ensures c in Outdated(g, now, duration) <==> g.stored[c].1 + duration + 1 <= now
  {
  }

  lemma NoDescendants(g: Graph)
    ensures IsDescendants(g, {}, {}) && Removed(g, {}) == g
  {
    assert forall p :: p in g.inv ==> g.inv[p] - Leavers(g, {}, p) == g.inv[p];
    assert Removed(g, {}).inv == g.inv;
  }

  // ---- One removal ----

  /** `remove_tx_from_deps` followed by dropping the children of `x`. */
  lemma RemoveOne(g: Graph, r: set<Txid>, x: Txid, inv: Links)
    requires forall p :: p in inv <==> p in Removed(g, r).inv && (p in At(Removed(g, r).deps, x) ==> Removed(g, r).inv[p] - {x} != {})
    requires forall p :: p in inv ==>
      inv[p] == if p in At(Removed(g, r).deps, x) then Removed(g, r).inv[p] - {x} else Removed(g, r).inv[p]
    requires x !in r
    ensures Graph(inv - {x}, g.deps - r - {x}, g.stored - r - {x}) == Removed(g, r + {x})
  {
    var h' := Removed(g, r + {x});
    forall p | p in g.inv
      ensures p in inv - {x} <==> p in h'.inv
      ensures p in inv - {x} ==> inv[p] == h'.inv[p]
    {
      RemoveOneAt(g, r, x, p);
    }
    assert forall p :: p in inv - {x} || p in h'.inv ==> p in g.inv;
    assert inv - {x} == h'.inv;
    assert g.deps - r - {x} == h'.deps && g.stored - r - {x} == h'.stored;
  }

  lemma RemoveOneAt(g: Graph, r: set<Txid>, x: Txid, p: Txid)
    requires x !in r && p in g.inv
    ensures var h, h' := Removed(g, r), Removed(g, r + {x});
            var leaves := p in At(h.deps, x);
            && (p in h'.inv <==> p in h.inv && p != x && (leaves ==> h.inv[p] - {x} != {}))
            && (p in h'.inv ==> h'.inv[p] == if leaves then h.inv[p] - {x} else h.inv[p])
  {
    LeaversMore(g, r, x, p);
    var h := Removed(g, r);
    hide Leavers;
    assert p in At(h.deps, x) ==> g.inv[p] - Leavers(g, r, p) - {x} == g.inv[p] - Leavers(g, r + {x}, p);
  }

  lemma LeaversMore(g: Graph, r: set<Txid>, x: Txid, p: Txid)
    requires x !in r
    ensures Leavers(g, r + {x}, p) == Leavers(g, r, p) + (if p in At(Removed(g, r).deps, x) then {x} else {})
  {
  }

  /** The children of `x` still listed, with those removed before, are all its children. */
  lemma ChildrenLeft(g: Graph, done: set<Txid>, x: Txid, inv: Links)
    requires x !in done
    requires forall p :: p in inv <==> p in Removed(g, done).inv && (p in At(Removed(g, done).deps, x) ==> Removed(g, done).inv[p] - {x} != {})
    requires forall p :: p in inv ==>
      inv[p] == if p in At(Removed(g, done).deps, x) then Removed(g, done).inv[p] - {x} else Removed(g, done).inv[p]
    ensures forall c :: Wakes(g, x, c) ==> c in done || c == x || c in At(inv, x)
    ensures forall c :: c in At(inv, x) ==> Wakes(g, x, c)
  {
    RemovedEdges(g, done);
    forall c | Wakes(g, x, c) && c !in done && c != x
      ensures c in At(inv, x)
    {
      assert Wakes(Removed(g, done), x, c);
    }
    forall c | c in At(inv, x)
      ensures Wakes(g, x, c)
    {
      assert Wakes(Removed(g, done), x, c);
    }
  }

  /** All ids listed as children. */
  function Children(g: Graph): set<Txid> {
    set p, c | p in g.inv && c in g.inv[p] :: c
  }

  /** While descendants are removed: `done` are out, `todo` were met, and nothing else was. */
  ghost predicate Clearing(g: Graph, root: Txid, done: set<Txid>, todo: set<Txid>, met: set<Txid>) {
    && met == done + todo && done !! todo && root in met && met <= Children(g) + {root}
    && (forall p, c :: p in done && Wakes(g, p, c) ==> c in met)
    && (forall b :: root in b && Hereditary(g, b) ==> met <= b)
  }

  lemma ClearingFacts(g: Graph, root: Txid, done: set<Txid>, todo: set<Txid>, met: set<Txid>, x: Txid)
    requires Clearing(g, root, done, todo, met) && x in todo
    ensures x !in done && x in Children(g) + {root} && todo <= met
  {
  }

  lemma ClearingStart(g: Graph, root: Txid)
    ensures Clearing(g, root, {}, {root}, {root})
  {
  }

  lemma ClearingNext(g: Graph, root: Txid, done: set<Txid>, todo: set<Txid>, met: set<Txid>, x: Txid, children: set<Txid>)
    requires Clearing(g, root, done, todo, met) && x in todo
    requires forall c :: Wakes(g, x, c) ==> c in done || c == x || c in children
    requires forall c :: c in children ==> Wakes(g, x, c)
    ensures Clearing(g, root, done + {x}, (todo - {x}) + (children - met), met + children)
  {
    assert forall c :: Wakes(g, x, c) ==> c in Children(g);
    hide Wakes, Children;
    forall b | root in b && Hereditary(g, b)
      ensures met + children <= b
    {
      assert x in met && met <= b;
    }
  }

  lemma ClearingEnd(g: Graph, root: Txid, done: set<Txid>, met: set<Txid>)
    requires Clearing(g, root, done, {}, met)
    ensures done == met && IsDescendants(g, {root}, met)
  {
    hide Wakes;
    assert done == met;
    forall b | {root} <= b && Hereditary(g, b)
      ensures met <= b
    {
      assert root in b;
    }
  }
}
