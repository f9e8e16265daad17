/**
 The graph builder service (`crates/tx-attach/src/lib.rs`). The order in which hash sets are
 walked is left open: every choice `:|` stands for all of them.
 */
module GraphBuilder {
  import opened AttachGraph
  import opened AttachResults
  import opened AttachCleanup
  import opened AttachRuns

  /** `Work` of a call in progress: the lists and queues next to the graph. */
  ghost predicate Lists(attached: seq<Txid>, log: seq<Tx>) {
    |attached| == |log| && forall i :: 0 <= i < |log| ==> attached[i] == log[i].txid
  }

  lemma ListsIds(attached: seq<Txid>, log: seq<Tx>)
    requires Lists(attached, log)
    ensures forall p :: p in attached <==> p in Ids(log)
  {
    forall p | p in attached
      ensures p in Ids(log)
    {
      var i :| 0 <= i < |attached| && attached[i] == p;
      assert log[i] in log;
    }
  }

  class GraphBuilder {
    var inverseDeps: Links
    var deps: Links
    var storedTxs: map<Txid, (Tx, nat)>
    var outdatedAfter: nat

    ghost function View(): Graph
      reads this
    {
      Graph(inverseDeps, deps, storedTxs)
    }

    constructor (outdatedDuration: nat)
      ensures View() == Graph(map[], map[], map[]) && outdatedAfter == outdatedDuration
    {
      inverseDeps, deps, storedTxs := map[], map[], map[];
      outdatedAfter := outdatedDuration;
    }

    /** The loop of `handle_transfer` over the proof inputs. */
    method LinkParents(tx: Tx, storage: set<Txid>, attached: seq<Txid>, ghost log: seq<Tx>)
      requires tx.kind.Transfer? && Lists(attached, log)
      modifies this`inverseDeps, this`deps
      ensures var missing := Parents(tx) - storage - Ids(log);
              && inverseDeps == WithChild(old(inverseDeps), missing, tx.txid)
              && deps == WithParents(old(deps), tx.txid, missing)
    {
      ListsIds(attached, log);
      WithNoChild(inverseDeps, tx.txid);
      hide Ids, WithChild, WithParents, At;
      ghost var missing: set<Txid> := {};
      assert WithParents(deps, tx.txid, {}) == deps by {
        WithNoParents(deps, tx.txid);
      }
      for i := 0 to |tx.kind.proofs|
        invariant missing == MissingUpTo(tx, storage, Ids(log), i)
        invariant inverseDeps == WithChild(old(inverseDeps), missing, tx.txid)
        invariant deps == WithParents(old(deps), tx.txid, missing)
      {
        var input := tx.kind.proofs[i];
        if input < |tx.inputs| {
          var parent := tx.inputs[input];
          if parent !in attached && parent !in storage {
            inverseDeps := inverseDeps[parent := At(inverseDeps, parent) + {tx.txid}];
            deps := deps[tx.txid := At(deps, tx.txid) + {parent}];
            LinkOne(old(inverseDeps), old(deps), missing, tx.txid, parent);
            missing := missing + {parent};
          }
        }
      }
      MissingAll(tx, storage, Ids(log));
    }

    /** `handle_transfer`. */
    method HandleTransfer(tx: Tx, now: nat, storage: set<Txid>, queued: set<Txid>, attached: seq<Txid>, ghost log: seq<Tx>)
      returns (queued': set<Txid>, attached': seq<Txid>, ghost log': seq<Tx>)
      requires tx.kind.Transfer? && Lists(attached, log)
      modifies this`inverseDeps, this`deps, this`storedTxs
      ensures Work(View(), log', queued') == TransferStep(Work(old(View()), log, queued), storage, tx, now)
      ensures Lists(attached', log')
    {
      hide Parents, Ids, WithChild;
      queued', attached', log' := queued, attached, log;
      LinkParents(tx, storage, attached, log);
      if tx.txid !in deps {
        deps := deps[tx.txid := {}];
      }
      ghost var missing := Parents(tx) - storage - Ids(log);
      assert deps[tx.txid] == At(old(deps), tx.txid) + missing;
      if deps[tx.txid] == {} {
        attached', log' := attached + [tx.txid], log + [tx];
        deps := deps - {tx.txid};
        assert deps == old(deps) - {tx.txid};
        if tx.txid in inverseDeps {
          queued' := queued + inverseDeps[tx.txid];
          inverseDeps := inverseDeps - {tx.txid};
        } else {
          assert queued + {} == queued && inverseDeps - {tx.txid} == inverseDeps;
        }
      } else {
        assert deps == old(deps)[tx.txid := At(old(deps), tx.txid) + missing];
        storedTxs := storedTxs[tx.txid := (tx, now)];
      }
    }

    /** `remove_attached_parents`. */
    method RemoveAttachedParents(txid: Txid, storage: set<Txid>, attached: seq<Txid>, ghost log: seq<Tx>)
      returns (isEmpty: bool)
      requires Lists(attached, log)
      modifies this`deps
      ensures var own := At(old(deps), txid) - storage - Ids(log);
              && isEmpty == (own == {})
              && deps == if txid in old(deps) then old(deps)[txid := own] else old(deps)
    {
      ListsIds(attached, log);
      hide Ids;
      if txid !in deps {
        return true;
      }
      var own := deps[txid];
      var todo, toRemove := own, {};
      while todo != {}
        invariant todo <= own
        invariant toRemove == set p | p in own && p !in todo && (p in Ids(log) || p in storage)
        decreases todo
      {
        var p :| p in todo;
        if p in attached || p in storage {
          toRemove := toRemove + {p};
        }
        todo := todo - {p};
      }
      deps := deps[txid := own - toRemove];
      assert own - toRemove == own - storage - Ids(log);
      isEmpty := deps[txid] == {};
    }

    /** The body of the inner loop of `attach_txs` for one queued transaction. */
    method Wake(txid: Txid, storage: set<Txid>, localQueue: set<Txid>, attached: seq<Txid>, ghost log: seq<Tx>)
      returns (localQueue': set<Txid>, attached': seq<Txid>, ghost log': seq<Tx>)
      requires Lists(attached, log)
      modifies this`inverseDeps, this`deps, this`storedTxs
      ensures Work(View(), log', localQueue') == WakeStep(Work(old(View()), log, localQueue), storage, txid)
      ensures Lists(attached', log')
    {
      hide Ids;
      localQueue', attached', log' := localQueue, attached, log;
      var isEmpty := RemoveAttachedParents(txid, storage, attached, log);
      if !isEmpty || txid !in storedTxs {
        return;
      }
      var tx := storedTxs[txid].0;
      storedTxs := storedTxs - {txid};
      deps := deps - {txid};
      attached', log' := attached + [tx.txid], log + [tx];
      if txid in inverseDeps {
        localQueue' := localQueue + inverseDeps[txid];
        inverseDeps := inverseDeps - {txid};
      } else {
        assert localQueue + {} == localQueue && inverseDeps - {txid} == inverseDeps;
      }
    }

    /** The loop of `attach_txs` over the batch. */
    method DeliverBatch(checkedTxs: seq<Tx>, now: nat, storage: set<Txid>)
      returns (queued: set<Txid>, attached: seq<Txid>, ghost log: seq<Tx>)
      modifies this`inverseDeps, this`deps, this`storedTxs
      ensures Lists(attached, log)
      ensures Work(View(), log, queued) == Delivered(Work(old(View()), [], {}), storage, checkedTxs, now)
    {
      hide Parents, Ids;
      queued, attached, log := {}, [], [];
      for i := 0 to |checkedTxs|
        invariant Lists(attached, log)
        invariant Work(View(), log, queued) == Delivered(Work(old(View()), [], {}), storage, checkedTxs[..i], now)
      {
        var tx := checkedTxs[i];
        ghost var w := Work(View(), log, queued);
        assert checkedTxs[..i + 1][..i] == checkedTxs[..i];
        match tx.kind
        case Issue =>
          attached, log := attached + [tx.txid], log + [tx];
          if tx.txid in inverseDeps {
            queued := queued + inverseDeps[tx.txid];
            inverseDeps := inverseDeps - {tx.txid};
          } else {
            assert queued + {} == queued && inverseDeps - {tx.txid} == inverseDeps;
          }
          assert Work(View(), log, queued) == IssueStep(w, tx);
        case Transfer(_) =>
          queued, attached, log := HandleTransfer(tx, now, storage, queued, attached, log);
        case Announcement =>
      }
      assert checkedTxs[..|checkedTxs|] == checkedTxs;
    }

    /** One round of waking: every queued transaction once, in any order. */
    method WakeRound(queue: set<Txid>, storage: set<Txid>, attached: seq<Txid>, ghost log: seq<Tx>, ghost start: Call, ghost picks: seq<Txid>)
      returns (localQueue: set<Txid>, attached': seq<Txid>, ghost log': seq<Tx>, ghost picks': seq<Txid>)
      requires Lists(attached, log) && queue != {} && Picked(start, storage, picks)
      requires Turn(Woken(start, storage, picks)) == Call(Work(View(), log, {}), queue)
      modifies this`inverseDeps, this`deps, this`storedTxs
      ensures Lists(attached', log') && Picked(start, storage, picks')
      ensures Woken(start, storage, picks') == Call(Work(View(), log', localQueue), {})
      ensures storedTxs.Keys <= old(storedTxs).Keys
      ensures localQueue == {} || storedTxs.Keys < old(storedTxs).Keys
    {
      hide Woken, Picked, WakeStep, Ids;
      localQueue, attached', log', picks' := {}, attached, log, picks;
      var rest := queue;
      while rest != {}
        invariant Lists(attached', log') && Picked(start, storage, picks')
        invariant rest != {} ==> Turn(Woken(start, storage, picks')) == Call(Work(View(), log', localQueue), rest)
        invariant rest == {} ==> Woken(start, storage, picks') == Call(Work(View(), log', localQueue), {})
        invariant storedTxs.Keys <= old(storedTxs).Keys
        invariant localQueue == {} || storedTxs.Keys < old(storedTxs).Keys
        decreases rest
      {
        var txid :| txid in rest;
        ghost var w := Work(View(), log', localQueue);
        WakeShrinks(w, storage, txid);
        OnePick(start, storage, picks', txid, Call(w, rest));
        localQueue, attached', log' := Wake(txid, storage, localQueue, attached', log');
        picks' := picks' + [txid];
        rest := rest - {txid};
      }
    }

    /**
     `attach_txs`: it delivers the batch and wakes queued transactions, round by round in any order,
     until none is queued. Whatever is delivered, the list holds delivered and waiting transactions
     only, each after all its parents outside storage and what was attached before. Distinct ids
     delivered, none of them issued while it waits, no id is listed twice.
     */
    method AttachTxs(checkedTxs: seq<Tx>, now: nat, storage: set<Txid>) returns (attached: seq<Txid>, ghost log: seq<Tx>)
      modifies this`inverseDeps, this`deps, this`storedTxs
      ensures Lists(attached, log)
      ensures Attaches(old(View()), storage, checkedTxs, now, View(), log)
      ensures forall tx :: tx in log ==> tx in checkedTxs || tx in Pending(old(View()))
      ensures forall seen :: Sound(old(View()), seen) ==>
                Ordered(log, seen + storage) && Sound(View(), seen + storage + Ids(log))
      ensures Keyed(old(View())) && Distinct(old(View()), checkedTxs) ==> NoRepeats(log)
    {
      hide Ids, Woken, Picked, Delivered, Pending, Sound, Ordered, Keyed, NoRepeats, Distinct;
      ghost var g := View();
      var queued: set<Txid>;
      queued, attached, log := DeliverBatch(checkedTxs, now, storage);
      ghost var start, picks: seq<Txid> := Opening(g, storage, checkedTxs, now), [];
      NoPicks(start, storage);
      while queued != {}
        invariant Lists(attached, log) && Picked(start, storage, picks)
        invariant Woken(start, storage, picks) == Call(Work(View(), log, queued), {})
        decreases |storedTxs.Keys|, |queued|
      {
        ghost var before := storedTxs.Keys;
        queued, attached, log, picks := WakeRound(queued, storage, attached, log, start, picks);
        SmallerSet(storedTxs.Keys, before);
      }
      assert Attaches(g, storage, checkedTxs, now, View(), log);
      hide Attaches;
      AttachesWithin(g, storage, checkedTxs, now, View(), log);
      if Keyed(g) && Distinct(g, checkedTxs) {
        ListedOnce(g, storage, checkedTxs, now, View(), log);
      }
      forall seen | Sound(g, seen)
        ensures Ordered(log, seen + storage) && Sound(View(), seen + storage + Ids(log))
      {
        AttachesSound(g, storage, checkedTxs, now, View(), log, seen);
      }
    }

    /** `remove_tx_from_deps`. */
    method RemoveTxFromDeps(txid: Txid)
      modifies this`inverseDeps, this`deps
      ensures deps == old(deps) - {txid}
      ensures var own := At(old(deps), txid);
              && (forall p :: p in inverseDeps <==>
                    p in old(inverseDeps) && (p in own ==> old(inverseDeps)[p] - {txid} != {}))
              && (forall p :: p in inverseDeps ==>
                    inverseDeps[p] == if p in own then old(inverseDeps)[p] - {txid} else old(inverseDeps)[p])
    {
      if txid !in deps {
        assert deps - {txid} == deps;
        return;
      }
      var own := deps[txid];
      deps := deps - {txid};
      var todo := own;
      while todo != {}
        invariant todo <= own && deps == old(deps) - {txid}
        invariant forall p :: p in inverseDeps <==>
          p in old(inverseDeps) && (p in own && p !in todo ==> old(inverseDeps)[p] - {txid} != {})
        invariant forall p :: p in inverseDeps ==>
          inverseDeps[p] == if p in own && p !in todo then old(inverseDeps)[p] - {txid} else old(inverseDeps)[p]
        decreases todo
      {
        var dep :| dep in todo;
        if dep in inverseDeps {
          var children := inverseDeps[dep] - {txid};
          inverseDeps := if children == {} then inverseDeps - {dep} else inverseDeps[dep := children];
        }
        todo := todo - {dep};
      }
    }

    /** `remove_outdated_tx`: removes the transaction with all its descendants, cycles included. */
    method RemoveOutdatedTx(txid: Txid) returns (ghost removed: set<Txid>)
      modifies this`inverseDeps, this`deps, this`storedTxs
      ensures IsDescendants(old(View()), {txid}, removed) && View() == Removed(old(View()), removed)
    {
      hide Clearing, IsDescendants, At, Children, Leavers;
      ghost var g := View();
      var toRemove: seq<Txid> := [txid];
      var removedSet := {txid};
      ghost var done: set<Txid> := {};
      ClearingStart(g, txid);
      NoDescendants(g);
      assert Members(toRemove) == {txid};
      while toRemove != []
        invariant View() == Removed(g, done)
        invariant Clearing(g, txid, done, Members(toRemove), removedSet)
        invariant forall i, j :: 0 <= i < j < |toRemove| ==> toRemove[i] != toRemove[j]
        decreases Children(g) + {txid} - done
      {
        var x := toRemove[0];
        ClearingFacts(g, txid, done, Members(toRemove), removedSet, x);
        HeadApart(toRemove);
        toRemove := toRemove[1..];
        storedTxs := storedTxs - {x};
        RemoveTxFromDeps(x);
        RemoveOne(g, done, x, inverseDeps);
        var children := At(inverseDeps, x);
        ChildrenLeft(g, done, x, inverseDeps);
        inverseDeps := inverseDeps - {x};
        ClearingNext(g, txid, done, Members(toRemove) + {x}, removedSet, x, children);
        done := done + {x};
        toRemove, removedSet := PushNew(toRemove, removedSet, children);
      }
      removed := removedSet;
      assert Members([]) == {};
      ClearingEnd(g, txid, done, removed);
    }

    /**
     `handle_cleanup`: fails without any change if a transaction was stored after `now`, and
     otherwise removes exactly the outdated transactions and all their descendants. What attaching
     keeps, clean-up keeps.
     */
    method HandleCleanup(now: nat) returns (ok: bool, ghost removed: set<Txid>)
      modifies this`inverseDeps, this`deps, this`storedTxs
      ensures ok == forall c :: c in old(storedTxs) ==> old(storedTxs)[c].1 <= now
      ensures !ok ==> removed == {}
      ensures ok ==> IsDescendants(old(View()), Outdated(old(View()), now, outdatedAfter), removed)
      ensures View() == Removed(old(View()), removed) && Hereditary(old(View()), removed)
      ensures forall a :: Exact(old(View()), a) ==> Exact(View(), a)
      ensures forall seen :: Sound(old(View()), seen) ==> Sound(View(), seen)
    {
      ghost var g := View();
      ok, removed := RemoveOutdated(now);
      hide IsDescendants, Removed, Outdated, Hereditary, Exact, Sound;
      forall a | Exact(g, a)
        ensures Exact(View(), a)
      {
        RemovedExact(g, a, removed);
      }
      forall seen | Sound(g, seen)
        ensures Sound(View(), seen)
      {
        RemovedSound(g, seen, removed);
      }
    }

    /** The two loops of `handle_cleanup`. */
    method RemoveOutdated(now: nat) returns (ok: bool, ghost removed: set<Txid>)
      modifies this`inverseDeps, this`deps, this`storedTxs
      ensures ok == forall c :: c in old(storedTxs) ==> old(storedTxs)[c].1 <= now
      ensures !ok ==> removed == {}
      ensures ok ==> IsDescendants(old(View()), Outdated(old(View()), now, outdatedAfter), removed)
      ensures View() == Removed(old(View()), removed) && Hereditary(old(View()), removed)
    {
      removed := {};
      ghost var g := View();
      NoDescendants(g);
      var outdated: seq<Txid> := [];
      var todo := storedTxs.Keys;
      while todo != {}
        invariant todo <= storedTxs.Keys && View() == g
        invariant forall c :: c in storedTxs && c !in todo ==> storedTxs[c].1 <= now
        invariant forall c :: c in outdated <==> c in Outdated(g, now, outdatedAfter) && c !in todo
        decreases todo
      {
        var txid :| txid in todo;
        if storedTxs[txid].1 > now {
          return false, {};
        }
        if now - storedTxs[txid].1 > outdatedAfter {
          outdated := outdated + [txid];
        }
        todo := todo - {txid};
      }
      ok := true;
      hide Removed, Outdated, Hereditary;
      ghost var roots: set<Txid> := {};
      for i := 0 to |outdated|
        invariant roots == set k | 0 <= k < i :: outdated[k]
        invariant IsDescendants(g, roots, removed) && View() == Removed(g, removed)
      {
        hide IsDescendants;
        ghost var more := RemoveOutdatedTx(outdated[i]);
        DescendantsGrow(g, roots, removed, outdated[i], more);
        RemovedTwice(g, removed, more);
        roots, removed := roots + {outdated[i]}, removed + more;
      }
      assert roots == Outdated(g, now, outdatedAfter);
    }
  }

  ghost function Members(queue: seq<Txid>): set<Txid> {
    set x | x in queue
  }

  lemma HeadApart(queue: seq<Txid>)
    requires queue != [] && forall i, j :: 0 <= i < j < |queue| ==> queue[i] != queue[j]
    ensures Members(queue) == Members(queue[1..]) + {queue[0]} && queue[0] !in Members(queue[1..])
  {
    assert queue == [queue[0]] + queue[1..];
  }

  /** The loop that pushes the children not met before. */
  method PushNew(queue: seq<Txid>, met: set<Txid>, children: set<Txid>) returns (queue': seq<Txid>, met': set<Txid>)
    requires forall i, j :: 0 <= i < j < |queue| ==> queue[i] != queue[j]
    requires forall x :: x in queue ==> x in met
    ensures met' == met + children
    ensures Members(queue') == Members(queue) + (children - met)
    ensures forall i, j :: 0 <= i < j < |queue'| ==> queue'[i] != queue'[j]
  {
    queue', met' := queue, met;
    var todo := children;
    while todo != {}
      invariant todo <= children && met' == met + (children - todo)
      invariant forall x :: x in queue' <==> x in queue || (x in children && x !in todo && x !in met)
      invariant forall i, j :: 0 <= i < j < |queue'| ==> queue'[i] != queue'[j]
      decreases todo
    {
      var c :| c in todo;
      if c !in met' {
        queue', met' := queue' + [c], met' + {c};
      }
      todo := todo - {c};
    }
  }

  lemma OnePick(start: Call, storage: set<Txid>, picks: seq<Txid>, txid: Txid, c: Call)
    requires Picked(start, storage, picks) && Turn(Woken(start, storage, picks)) == c && txid in c.rest
    ensures Picked(start, storage, picks + [txid])
    ensures Woken(start, storage, picks + [txid]) == Call(WakeStep(c.w, storage, txid), c.rest - {txid})
  {
    hide WakeStep;
    var more := picks + [txid];
    assert more[..|picks|] == picks;
    forall k | 0 <= k < |more|
      ensures more[k] in Turn(Woken(start, storage, more[..k])).rest
    {
      assert k < |picks| ==> more[..k] == picks[..k];
    }
  }

  lemma NoPicks(start: Call, storage: set<Txid>)
    ensures Picked(start, storage, []) && Woken(start, storage, []) == start
  {
  }

  lemma WakeShrinks(w: Work, storage: set<Txid>, txid: Txid)
    ensures var w' := WakeStep(w, storage, txid);
            w'.g.stored.Keys <= w.g.stored.Keys && (w'.queued == w.queued || w'.g.stored.Keys < w.g.stored.Keys)
  {
  }

  lemma SmallerSet(a: set<Txid>, b: set<Txid>)
    requires a <= b
    ensures |a| <= |b| && (a < b ==> |a| < |b|)
  {
    assert b == a + (b - a);
  }

  /** The map `deps` after `child` was made to wait for `parents`. */
  function WithParents(deps: Links, child: Txid, parents: set<Txid>): Links {
    if parents == {} then deps else deps[child := At(deps, child) + parents]
  }

  lemma WithNoParents(deps: Links, child: Txid)
    ensures WithParents(deps, child, {}) == deps
  {
  }

  lemma LinkOne(inv: Links, deps: Links, missing: set<Txid>, child: Txid, parent: Txid)
    ensures var i := WithChild(inv, missing, child);
            i[parent := At(i, parent) + {child}] == WithChild(inv, missing + {parent}, child)
    ensures var d := WithParents(deps, child, missing);
            d[child := At(d, child) + {parent}] == WithParents(deps, child, missing + {parent})
  {
    LinkChild(inv, missing, child, parent);
    LinkParent(deps, missing, child, parent);
  }

  lemma LinkChild(inv: Links, missing: set<Txid>, child: Txid, parent: Txid)
    ensures var i := WithChild(inv, missing, child);
            i[parent := At(i, parent) + {child}] == WithChild(inv, missing + {parent}, child)
  {
    var i, j := WithChild(inv, missing, child), WithChild(inv, missing + {parent}, child);
    assert i[parent := At(i, parent) + {child}].Keys == j.Keys;
    assert forall p :: p in j ==> i[parent := At(i, parent) + {child}][p] == j[p];
  }

  lemma LinkParent(deps: Links, missing: set<Txid>, child: Txid, parent: Txid)
    ensures var d := WithParents(deps, child, missing);
            d[child := At(d, child) + {parent}] == WithParents(deps, child, missing + {parent})
  {
    assert At(deps, child) + missing + {parent} == At(deps, child) + (missing + {parent});
    assert missing + {parent} != {};
    var d := WithParents(deps, child, missing);
    assert At(d, child) == At(deps, child) + missing;
    assert d[child := At(d, child) + {parent}] == deps[child := At(deps, child) + (missing + {parent})];
  }

  function MissingUpTo(tx: Tx, storage: set<Txid>, ids: set<Txid>, n: nat): set<Txid>
    requires tx.kind.Transfer? && n <= |tx.kind.proofs|
  {
    if n == 0 then {} else
    var k := tx.kind.proofs[n - 1];
    MissingUpTo(tx, storage, ids, n - 1)
    + (if k < |tx.inputs| && tx.inputs[k] !in storage && tx.inputs[k] !in ids then {tx.inputs[k]} else {})
  }

  lemma MissingAll(tx: Tx, storage: set<Txid>, ids: set<Txid>)
    requires tx.kind.Transfer?
    ensures MissingUpTo(tx, storage, ids, |tx.kind.proofs|) == Parents(tx) - storage - ids
  {
    var ks := tx.kind.proofs;
    MissingMembers(tx, storage, ids, |ks|);
    forall p | p in Parents(tx) - storage - ids
      ensures p in MissingUpTo(tx, storage, ids, |ks|)
    {
      var k :| k in ks && k < |tx.inputs| && tx.inputs[k] == p;
      var i :| 0 <= i < |ks| && ks[i] == k;
    }
  }

  lemma {:induction false} MissingMembers(tx: Tx, storage: set<Txid>, ids: set<Txid>, n: nat)
    requires tx.kind.Transfer? && n <= |tx.kind.proofs|
    ensures forall p :: p in MissingUpTo(tx, storage, ids, n) ==> p in Parents(tx) - storage - ids
    ensures forall i :: 0 <= i < n && tx.kind.proofs[i] < |tx.inputs| ==>
      var p := tx.inputs[tx.kind.proofs[i]]; p in storage || p in ids || p in MissingUpTo(tx, storage, ids, n)
  {
    if n > 0 {
      MissingMembers(tx, storage, ids, n - 1);
      assert tx.kind.proofs[n - 1] in tx.kind.proofs;
    }
  }

  // ---- Whole runs ----

  /**
   Any interleaving of calls and clean-ups, with any transactions delivered any number of times, in
   which equal ids mean equal transactions, results are in storage before the next call, and storage
   may hold other ids that are not attached, or not yet. `RunSafe` and `RunTotal` say what it
   amounts to; by `LeastUnique` the least closed set does not depend on order, split or the walking
   order of hash sets.
   */
  method RunSteps(steps: seq<Step>, base: set<Txid>, outdatedDuration: nat)
    returns (builder: GraphBuilder, listed: seq<Txid>, ghost log: seq<Tx>)
    requires UniqueIds(TxSet(Batches(steps)))
    ensures fresh(builder) && Lists(listed, log)
    ensures RunSafe(builder.View(), base, TxSet(Batches(steps)), EarlyBy(steps), Batches(steps), log)
    ensures NoCleanup(steps) ==>
              RunTotal(builder.View(), base, TxSet(Batches(steps)), EarlyBy(steps), base + Ids(log))
  {
    hide UniqueIds, RunInv, Complete, RunSafe, RunTotal, Batches, EarlyBy, TxSet, Attaches, Ids, Hereditary, Sound, Ordered,
      Pending, Keyed, NoRepeats, Distinct, IsDescendants, Exact;
    ghost var txs, early, seen: set<Txid> := TxSet(Batches(steps)), EarlyBy(steps), {};
    builder := new GraphBuilder(outdatedDuration);
    var attached := base;
    listed, log := [], [];
    RunBegins(base, txs, early);
    for i := 0 to |steps|
      invariant fresh(builder) && Lists(listed, log) && attached == base + Ids(log)
      invariant RunInv(builder.View(), base, txs, early, seen, Batches(steps[..i]), log)
      invariant NoCleanup(steps) ==> Complete(builder.View(), TxSet(Batches(steps[..i])), attached)
    {
      ghost var g := builder.View();
      StepTaken(steps, i);
      match steps[i] {
        case Attach(batch, extra, now) =>
          assert Stored(attached + extra, attached, early);
          ghost var more;
          var ids;
          ids, more := builder.AttachTxs(batch, now, attached + extra);
          RunInvAttach(g, base, txs, early, seen, Batches(steps[..i]), log, attached + extra, batch, now, builder.View(), more);
          seen := seen + (attached + extra) + Ids(more);
          Lengthened(listed, log, ids, more);
          IdsConcat(log, more);
          var now' := set p | p in ids;
          assert now' == Ids(more);
          listed, log := listed + ids, log + more;
          attached := attached + now';
        case Cleanup(now) =>
          ghost var removed;
          var ok;
          ok, removed := builder.HandleCleanup(now);
          RunInvCleanup(g, base, txs, early, seen, Batches(steps[..i]), log, removed);
          assert Batches(steps[..i]) + [] == Batches(steps[..i]);
      }
    }
    assert steps[..|steps|] == steps;
    RunInvSafe(builder.View(), base, txs, early, seen, Batches(steps), log);
    if NoCleanup(steps) {
      RunInvTotal(builder.View(), base, txs, early, seen, Batches(steps), log);
    }
  }

  lemma RunBegins(base: set<Txid>, txs: set<Tx>, early: set<Txid>)
    ensures RunInv(Graph(map[], map[], map[]), base, txs, early, {}, Batches([]), [])
    ensures Complete(Graph(map[], map[], map[]), TxSet(Batches([])), base) && base + Ids([]) == base
  {
    assert Ids([]) == {} && base + {} == base;
    hide RunInv, Complete, Ids;
    RunInvStart(base, txs, early);
  }

  lemma Lengthened(listed: seq<Txid>, log: seq<Tx>, ids: seq<Txid>, more: seq<Tx>)
    requires Lists(listed, log) && Lists(ids, more)
    ensures Lists(listed + ids, log + more) && forall p :: p in ids <==> p in Ids(more)
  {
    ListsIds(ids, more);
  }
}
