/** What one call of `attach_txs` attaches, whatever storage holds besides attached transactions. */
module AttachAnswer {
  import opened AttachGraph
  import opened AttachResults

  // ---- The answer to a batch ----

  /** One of `l` wakes `c`. */
  ghost predicate WokenBy(g: Graph, l: set<Txid>, c: Txid) {
    exists p :: p in l && Wakes(g, p, c)
  }

  /** With `l` attached, a waiting transaction is woken and has nothing left to wait for. */
  ghost predicate Ready(g: Graph, storage: set<Txid>, l: set<Txid>, c: Txid) {
    WokenBy(g, l, c) && forall p :: Awaits(g, c, p) ==> p in storage || p in l
  }

  /** Delivered, and not as another copy of a waiting transfer. */
  ghost predicate New(g: Graph, batch: seq<Tx>, tx: Tx) {
    tx in batch && !tx.kind.Announcement? && (tx.kind.Issue? || tx.txid !in g.stored)
  }

  /** Holds what the batch attaches at once and, with it, all that becomes ready. */
  ghost predicate Answers(g: Graph, storage: set<Txid>, batch: seq<Tx>, l: set<Txid>) {
    && (forall tx :: New(g, batch, tx) && Parents(tx) <= storage + l ==> tx.txid in l)
    && (forall c :: c in g.stored && Ready(g, storage, l, c) ==> c in l)
  }

  ghost predicate LeastAnswer(g: Graph, storage: set<Txid>, batch: seq<Tx>, l: set<Txid>) {
    Answers(g, storage, batch, l) && forall b :: Answers(g, storage, batch, b) ==> l <= b
  }

  lemma AnswerUnique(g: Graph, storage: set<Txid>, batch: seq<Tx>, l: set<Txid>, m: set<Txid>)
    requires LeastAnswer(g, storage, batch, l) && LeastAnswer(g, storage, batch, m)
    ensures l == m
  {
    hide Answers;
  }

  // ---- Within a call ----

  /** Why a transaction is listed after `before`. */
  ghost predicate Reason(g: Graph, storage: set<Txid>, batch: seq<Tx>, tx: Tx, before: set<Txid>) {
    || (New(g, batch, tx) && Parents(tx) <= storage + before)
    || (tx.txid in g.stored && g.stored[tx.txid].0 == tx && Ready(g, storage, before, tx.txid))
  }

  ghost predicate Reasoned(g: Graph, storage: set<Txid>, batch: seq<Tx>, log: seq<Tx>) {
    forall i :: 0 <= i < |log| ==> Reason(g, storage, batch, log[i], Ids(log[..i]))
  }

  /** Old transactions await nothing new, and miss only what is stored or listed; new ones await nothing stored. */
  ghost predicate KeptDeps(g: Graph, storage: set<Txid>, batch: seq<Tx>, w: Work) {
    && (forall c :: c in w.g.stored ==>
          if c in g.stored then w.g.stored[c].0 == g.stored[c].0 else New(g, batch, w.g.stored[c].0))
    && (forall c, p :: Awaits(w.g, c, p) ==> if c in g.stored then Awaits(g, c, p) else p !in storage)
    && (forall c, p :: Awaits(g, c, p) && c in g.stored && c in w.g.stored ==>
          Awaits(w.g, c, p) || p in storage || p in Ids(w.log))
  }

  ghost predicate Clean(g: Graph, storage: set<Txid>, c: Txid) {
    forall p :: Awaits(g, c, p) ==> p !in storage
  }

  /** What a listed transaction wakes is to be looked at, or was. */
  ghost predicate Stirred(g: Graph, storage: set<Txid>, w: Work, waking: set<Txid>) {
    && (forall p, c :: Wakes(g, p, c) && c in g.stored && c in w.g.stored ==>
          if p in Ids(w.log) then c in waking || Clean(w.g, storage, c) else Wakes(w.g, p, c))
    && (forall p, c :: Wakes(w.g, p, c) && c in g.stored ==> Wakes(g, p, c))
    && (forall c :: c in waking && c in g.stored ==> WokenBy(g, Ids(w.log), c))
  }

  ghost predicate Steady(g: Graph, storage: set<Txid>, batch: seq<Tx>, w: Work, waking: set<Txid>) {
    && Keyed(w.g) && SoundWork(w, storage)
    && KeptDeps(g, storage, batch, w) && Stirred(g, storage, w, waking) && Reasoned(g, storage, batch, w.log)
  }

  lemma ReasonedSnoc(g: Graph, storage: set<Txid>, batch: seq<Tx>, log: seq<Tx>, tx: Tx)
    requires Reasoned(g, storage, batch, log) && Reason(g, storage, batch, tx, Ids(log))
    ensures Reasoned(g, storage, batch, log + [tx])
  {
    hide Reason, Ids;
    var more := log + [tx];
    forall i | 0 <= i < |more|
      ensures Reason(g, storage, batch, more[i], Ids(more[..i]))
    {
      assert more[..i] == log[..i];
      assert i == |log| ==> log[..i] == log;
    }
  }

  /** Listing a transaction: its children are queued. */
  lemma ListStirred(g: Graph, storage: set<Txid>, batch: seq<Tx>, w: Work, rest: set<Txid>, tx: Tx)
    requires KeptDeps(g, storage, batch, w) && Stirred(g, storage, w, rest + w.queued)
    ensures var w' := IssueStep(w, tx); KeptDeps(g, storage, batch, w') && Stirred(g, storage, w', rest + w'.queued)
  {
    hide Ids;
    var w' := IssueStep(w, tx);
    IdsSnoc(w.log, tx);
    assert forall c, p :: Awaits(w'.g, c, p) == Awaits(w.g, c, p);
    assert forall c :: Clean(w'.g, storage, c) == Clean(w.g, storage, c);
    assert forall c, p :: Wakes(w'.g, p, c) <==> Wakes(w.g, p, c) && p != tx.txid;
    assert forall c :: c in w'.queued <==> c in w.queued || Wakes(w.g, tx.txid, c);
    assert w'.g.stored == w.g.stored && w'.log == w.log + [tx];
    hide Awaits, Wakes, IssueStep, Clean, New;
    assert KeptDeps(g, storage, batch, w');
    hide KeptDeps;
    forall c | c in rest + w'.queued && c in g.stored
      ensures WokenBy(g, Ids(w'.log), c)
    {
      if c in rest + w.queued {
        assert WokenBy(g, Ids(w.log), c);
        WokenMore(g, Ids(w.log), Ids(w'.log), c);
      } else {
        assert Wakes(g, tx.txid, c);
      }
    }
    hide WokenBy;
  }

  lemma WokenMore(g: Graph, l: set<Txid>, m: set<Txid>, c: Txid)
    requires WokenBy(g, l, c) && l <= m
    ensures WokenBy(g, m, c)
  {
    hide Wakes;
  }

  /** The links of `tx` to `missing` are added; those of a waiting transfer were there. */
  ghost predicate Linked(storage: set<Txid>, w: Work, w': Work, tx: Tx, now: nat, missing: set<Txid>) {
    && w'.log == w.log && w'.queued == w.queued && w'.g.stored == w.g.stored[tx.txid := (tx, now)]
    && missing !! storage && Agrees(w.g, tx) && tx.kind.Transfer?
    && (forall c, p :: Awaits(w'.g, c, p) <==> Awaits(w.g, c, p) || (c == tx.txid && p in missing))
    && (forall c, p :: Wakes(w'.g, p, c) <==> Wakes(w.g, p, c) || (c == tx.txid && p in missing))
    && (tx.txid in w.g.stored ==> forall p :: p in missing ==> Awaits(w.g, tx.txid, p))
  }

  lemma WaitLinked(storage: set<Txid>, w: Work, tx: Tx, now: nat)
    requires Keyed(w.g) && SoundWork(w, storage) && Agrees(w.g, tx) && tx.kind.Transfer?
    requires At(w.g.deps, tx.txid) + (Parents(tx) - storage - Ids(w.log)) != {}
    ensures Linked(storage, w, TransferStep(w, storage, tx, now), tx, now, Parents(tx) - storage - Ids(w.log))
  {
    hide Parents, Ids, WithChild, Ordered;
    var missing := Parents(tx) - storage - Ids(w.log);
    TransferEdges(w, storage, tx, now, missing);
    assert forall p :: tx.txid in w.g.stored && p in missing ==> Awaits(w.g, tx.txid, p);
    hide Awaits, Wakes;
  }

  lemma LinkedKept(g: Graph, storage: set<Txid>, batch: seq<Tx>, w: Work, w': Work, tx: Tx, now: nat, missing: set<Txid>)
    requires KeptDeps(g, storage, batch, w) && Linked(storage, w, w', tx, now, missing) && tx in batch
    requires g.stored.Keys <= w.g.stored.Keys
    ensures KeptDeps(g, storage, batch, w')
  {
    hide Ids, Awaits, Wakes;
  }

  lemma LinkedStirred(g: Graph, storage: set<Txid>, batch: seq<Tx>, w: Work, w': Work, tx: Tx, now: nat, missing: set<Txid>)
    requires KeptDeps(g, storage, batch, w) && Stirred(g, storage, w, w.queued) && Linked(storage, w, w', tx, now, missing)
    requires g.stored.Keys <= w.g.stored.Keys && (forall c, p :: Awaits(g, c, p) ==> Wakes(g, p, c))
    ensures Stirred(g, storage, w', w'.queued)
  {
    hide Ids, Awaits, Wakes, New, WokenBy;
    assert forall c :: Clean(w.g, storage, c) ==> Clean(w'.g, storage, c);
    hide Clean;
    assert forall p, c :: Wakes(w'.g, p, c) && c in g.stored ==> Wakes(g, p, c);
  }

  lemma DeliverSteady(g: Graph, storage: set<Txid>, batch: seq<Tx>, w: Work, tx: Tx, now: nat)
    requires Steady(g, storage, batch, w, w.queued) && Agrees(w.g, tx) && tx in batch
    requires g.stored.Keys <= w.g.stored.Keys && (forall c, p :: Awaits(g, c, p) ==> Wakes(g, p, c))
    ensures var w' := DeliverStep(w, storage, tx, now);
            Steady(g, storage, batch, w', w'.queued) && g.stored.Keys <= w'.g.stored.Keys
  {
    DeliverSound(w, storage, storage, tx, now);
    DeliverHeld(w, storage, tx, now);
    hide SoundWork, KeptDeps, Stirred, Reasoned, Held, Apart, Ids, Awaits, Wakes, Parents;
    if tx.kind.Transfer? && At(w.g.deps, tx.txid) + (Parents(tx) - storage - Ids(w.log)) != {} {
      var w' := TransferStep(w, storage, tx, now);
      WaitLinked(storage, w, tx, now);
      hide TransferStep;
      LinkedKept(g, storage, batch, w, w', tx, now, Parents(tx) - storage - Ids(w.log));
      LinkedStirred(g, storage, batch, w, w', tx, now, Parents(tx) - storage - Ids(w.log));
      hide Keyed;
    } else if !tx.kind.Announcement? {
      ListDelivered(g, storage, batch, w, tx, now);
      hide Keyed;
    }
  }

  lemma NothingMissing(g: Graph, tx: Tx, storage: set<Txid>, ids: set<Txid>)
    requires Keyed(g) && At(g.deps, tx.txid) + (Parents(tx) - storage - ids) == {}
    ensures Parents(tx) <= storage + ids && tx.txid !in g.stored
  {
    hide Parents;
    forall p | p in Parents(tx)
      ensures p in storage + ids
    {
      assert p !in At(g.deps, tx.txid) + (Parents(tx) - storage - ids);
    }
  }

  lemma ListDelivered(g: Graph, storage: set<Txid>, batch: seq<Tx>, w: Work, tx: Tx, now: nat)
    requires Steady(g, storage, batch, w, w.queued) && tx in batch && g.stored.Keys <= w.g.stored.Keys
    requires tx.kind.Issue? || (tx.kind.Transfer? && At(w.g.deps, tx.txid) + (Parents(tx) - storage - Ids(w.log)) == {})
    ensures var w' := DeliverStep(w, storage, tx, now);
            && KeptDeps(g, storage, batch, w') && Stirred(g, storage, w', w'.queued) && Reasoned(g, storage, batch, w'.log)
            && w'.g.stored == w.g.stored
  {
    hide SoundWork, KeptDeps, Stirred, Reasoned, Ids, Awaits, Wakes;
    if tx.kind.Transfer? {
      TransferAttaches(w, storage, tx, now);
      NothingMissing(w.g, tx, storage, Ids(w.log));
    }
    hide TransferStep;
    assert Reason(g, storage, batch, tx, Ids(w.log));
    hide Reason;
    assert {} + w.queued == w.queued && {} + IssueStep(w, tx).queued == IssueStep(w, tx).queued;
    ListStirred(g, storage, batch, w, {}, tx);
    ReasonedSnoc(g, storage, batch, w.log, tx);
  }

  lemma {:induction false} DeliveredSteady(g: Graph, storage: set<Txid>, batch: seq<Tx>, n: nat, now: nat)
    requires n <= |batch| && Keyed(g) && Sound(g, storage) && OneTransferPerId(Sources(g, batch))
    requires forall c, p :: Awaits(g, c, p) ==> Wakes(g, p, c)
    ensures var w := Delivered(Work(g, [], {}), storage, batch[..n], now);
            Steady(g, storage, batch, w, w.queued) && g.stored.Keys <= w.g.stored.Keys
  {
    if n == 0 {
      assert Ids([]) == {};
      hide Parents, Ids, New;
      assert SoundWork(Work(g, [], {}), storage);
    } else {
      var k := n - 1;
      DeliveredSteady(g, storage, batch, k, now);
      DeliveredWithin(Work(g, [], {}), storage, batch[..k], now, Sources(g, batch));
      assert batch[..n][..k] == batch[..k];
      DeliveredLast(Work(g, [], {}), storage, batch[..n], now);
      var w := Delivered(Work(g, [], {}), storage, batch[..k], now);
      hide Delivered, Sound, SoundWork, KeptDeps, Stirred, Reasoned, Keyed, OneTransferPerId, Pending;
      AgreesWithin(w, Sources(g, batch), batch[k]);
      hide Within, DeliverStep;
      DeliverSteady(g, storage, batch, w, batch[k], now);
    }
  }

  // ---- Waking ----

  lemma DropStirred(g: Graph, storage: set<Txid>, batch: seq<Tx>, w: Work, rest: set<Txid>, txid: Txid)
    requires KeptDeps(g, storage, batch, w) && Stirred(g, storage, w, rest + w.queued)
    requires At(w.g.deps, txid) - storage - Ids(w.log) != {}
    ensures var w' := WakeStep(w, storage, txid);
            && w'.queued == w.queued && w'.log == w.log
            && KeptDeps(g, storage, batch, w') && Stirred(g, storage, w', rest - {txid} + w.queued)
  {
    hide Ids;
    var ids := Ids(w.log);
    var w' := WakeStep(w, storage, txid);
    assert w'.g == w.g.(deps := w.g.deps[txid := w.g.deps[txid] - storage - ids]);
    assert forall c, p :: Awaits(w'.g, c, p) <==> Awaits(w.g, c, p) && (c == txid ==> p !in storage && p !in ids);
    assert forall c, p :: Wakes(w'.g, p, c) == Wakes(w.g, p, c);
    assert w'.log == w.log && w'.queued == w.queued && w'.g.stored == w.g.stored;
    hide Awaits, Wakes, WakeStep, New;
    assert KeptDeps(g, storage, batch, w');
    assert Clean(w'.g, storage, txid);
    assert forall c :: Clean(w.g, storage, c) ==> Clean(w'.g, storage, c);
    hide Clean, KeptDeps, WokenBy;
  }

  lemma ForgetStirred(g: Graph, storage: set<Txid>, batch: seq<Tx>, w: Work, rest: set<Txid>, txid: Txid)
    requires KeptDeps(g, storage, batch, w) && Stirred(g, storage, w, rest + w.queued) && Keyed(w.g)
    ensures var w' := w.(g := Graph(w.g.inv, w.g.deps - {txid}, w.g.stored - {txid}));
            KeptDeps(g, storage, batch, w') && Stirred(g, storage, w', rest - {txid} + w.queued)
  {
    hide Ids;
    var w' := w.(g := Graph(w.g.inv, w.g.deps - {txid}, w.g.stored - {txid}));
    assert forall c, p :: Awaits(w'.g, c, p) <==> Awaits(w.g, c, p) && c != txid;
    assert forall c, p :: Wakes(w'.g, p, c) == Wakes(w.g, p, c);
    assert forall c :: c in w'.g.stored <==> c in w.g.stored && c != txid;
    hide Awaits, Wakes, New, Keyed;
    assert KeptDeps(g, storage, batch, w');
    assert forall c :: Clean(w.g, storage, c) ==> Clean(w'.g, storage, c);
    hide Clean, KeptDeps, WokenBy;
  }

  lemma IdleStirred(g: Graph, storage: set<Txid>, w: Work, rest: set<Txid>, txid: Txid)
    requires Stirred(g, storage, w, rest + w.queued) && txid !in w.g.stored
    ensures Stirred(g, storage, w, rest - {txid} + w.queued)
  {
    hide Ids, Clean, Wakes, WokenBy;
  }

  lemma WakeReason(g: Graph, storage: set<Txid>, batch: seq<Tx>, w: Work, waking: set<Txid>, txid: Txid)
    requires Steady(g, storage, batch, w, waking) && txid in waking && txid in w.g.stored
    requires At(w.g.deps, txid) - storage - Ids(w.log) == {}
    ensures Reason(g, storage, batch, w.g.stored[txid].0, Ids(w.log))
  {
    hide Ids, Parents, Ordered, Reasoned, New, WokenBy;
    assert forall p :: Awaits(w.g, txid, p) ==> p in storage || p in Ids(w.log) by {
      assert forall p :: Awaits(w.g, txid, p) ==> p !in At(w.g.deps, txid) - storage - Ids(w.log);
    }
    if txid in g.stored {
      hide Awaits, Wakes;
    } else {
      assert Parents(w.g.stored[txid].0) <= storage + Ids(w.log);
    }
  }

  lemma WakeSteady(g: Graph, storage: set<Txid>, batch: seq<Tx>, w: Work, rest: set<Txid>, txid: Txid)
    requires Steady(g, storage, batch, w, rest + w.queued) && txid in rest
    ensures var w' := WakeStep(w, storage, txid); Steady(g, storage, batch, w', rest - {txid} + w'.queued)
  {
    WakeSound(w, storage, storage, txid);
    WakeHeld(w, storage, txid);
    hide SoundWork, KeptDeps, Stirred, Held, Apart, Ids;
    if At(w.g.deps, txid) - storage - Ids(w.log) != {} {
      DropStirred(g, storage, batch, w, rest, txid);
    } else if txid in w.g.stored {
      var tx := w.g.stored[txid].0;
      var w' := w.(g := Graph(w.g.inv, w.g.deps - {txid}, w.g.stored - {txid}));
      WakeReason(g, storage, batch, w, rest + w.queued, txid);
      ForgetStirred(g, storage, batch, w, rest, txid);
      assert WakeStep(w, storage, txid) == IssueStep(w', tx) by {
        assert w.g.deps[txid := {}] - {txid} == w.g.deps - {txid};
      }
      hide Reason;
      ReasonedSnoc(g, storage, batch, w.log, tx);
      hide Reasoned;
      ListStirred(g, storage, batch, w', rest - {txid}, tx);
    } else {
      assert WakeStep(w, storage, txid) == w;
      IdleStirred(g, storage, w, rest, txid);
    }
  }

  lemma {:induction false} WokenSteady(g: Graph, storage: set<Txid>, batch: seq<Tx>, c: Call, picks: seq<Txid>)
    requires Steady(g, storage, batch, c.w, c.rest + c.w.queued) && Picked(c, storage, picks)
    ensures var d := Woken(c, storage, picks); Steady(g, storage, batch, d.w, d.rest + d.w.queued)
  {
    if picks != [] {
      var k := |picks| - 1;
      PickedPrefix(c, storage, picks);
      WokenSteady(g, storage, batch, c, picks[..k]);
      WokenLast(c, storage, picks);
      var b := Woken(c, storage, picks[..k]);
      hide Woken, Picked;
      TurnSteady(g, storage, batch, b);
      var d := Turn(b);
      hide Steady, WakeStep, Turn;
      WakeSteady(g, storage, batch, d.w, d.rest, picks[k]);
    }
  }

  lemma PickedPrefix(c: Call, storage: set<Txid>, picks: seq<Txid>)
    requires Picked(c, storage, picks) && picks != []
    ensures var k := |picks| - 1; Picked(c, storage, picks[..k]) && picks[k] in Turn(Woken(c, storage, picks[..k])).rest
  {
    hide Woken, Turn;
    forall i | 0 <= i < |picks| - 1
      ensures picks[..|picks| - 1][..i] == picks[..i]
    {
    }
  }

  lemma TurnSteady(g: Graph, storage: set<Txid>, batch: seq<Tx>, c: Call)
    requires Steady(g, storage, batch, c.w, c.rest + c.w.queued)
    ensures var d := Turn(c); Steady(g, storage, batch, d.w, d.rest + d.w.queued)
  {
    if c.rest == {} {
      assert c.rest + c.w.queued == Turn(c).rest + Turn(c).w.queued;
      hide Keyed, Sound, Ordered, Reasoned, Clean, Wakes, Awaits, WokenBy, Ids, New;
    }
  }

  // ---- A whole call ----

  lemma AttachesSteady(g: Graph, storage: set<Txid>, batch: seq<Tx>, now: nat, g': Graph, log: seq<Tx>)
    requires Attaches(g, storage, batch, now, g', log)
    requires Keyed(g) && Sound(g, storage) && OneTransferPerId(Sources(g, batch))
    requires forall c, p :: Awaits(g, c, p) ==> Wakes(g, p, c)
    ensures Steady(g, storage, batch, Work(g', log, {}), {})
  {
    var c := Opening(g, storage, batch, now);
    var picks :| Picked(c, storage, picks) && Woken(c, storage, picks) == Call(Work(g', log, {}), {});
    assert batch[..|batch|] == batch;
    DeliveredSteady(g, storage, batch, |batch|, now);
    assert {} + c.w.queued == c.w.queued;
    hide Woken, Picked, Delivered, Steady;
    WokenSteady(g, storage, batch, c, picks);
    var none: set<Txid> := {};
    assert none + none == none;
  }

  /** What still waits after the call was not ready. */
  lemma StillWaits(g: Graph, storage: set<Txid>, batch: seq<Tx>, g': Graph, log: seq<Tx>, a: set<Txid>, early: set<Txid>, c: Txid)
    requires Steady(g, storage, batch, Work(g', log, {}), {}) && Tracked(g', a + Ids(log), early)
    requires c in g.stored && c in g'.stored
    ensures !Ready(g, storage, Ids(log), c)
  {
    hide Ids, Parents, SoundWork, Reasoned, New;
    var q :| q in g'.deps[c];
    assert Awaits(g', c, q) && Awaits(g, c, q);
    hide Awaits, Wakes;
  }

  /** A new transaction that still waits misses a parent. */
  lemma NewMisses(g: Graph, storage: set<Txid>, batch: seq<Tx>, g': Graph, log: seq<Tx>, a: set<Txid>, early: set<Txid>, tx: Tx)
    requires Steady(g, storage, batch, Work(g', log, {}), {}) && Tracked(g', a + Ids(log), early)
    requires New(g, batch, tx) && tx in Pending(g')
    ensures !(Parents(tx) <= storage + Ids(log))
  {
    PendingKinds(g', tx);
    hide Ids, Parents, SoundWork, Reasoned, Stirred;
    var q :| q in g'.deps[tx.txid];
    assert Awaits(g', tx.txid, q);
  }

  lemma {:induction false} ReasonedWithin(g: Graph, storage: set<Txid>, batch: seq<Tx>, log: seq<Tx>, b: set<Txid>)
    requires Reasoned(g, storage, batch, log) && Answers(g, storage, batch, b)
    ensures Ids(log) <= b
  {
    if log != [] {
      var k := |log| - 1;
      ReasonedPrefix(g, storage, batch, log);
      hide Reasoned, Ids, Answers, Reason;
      ReasonedWithin(g, storage, batch, log[..k], b);
      IdsSnoc(log[..k], log[k]);
      assert log == log[..k] + [log[k]];
      ReasonWithin(g, storage, batch, log[k], Ids(log[..k]), b);
    }
  }

  lemma ReasonedPrefix(g: Graph, storage: set<Txid>, batch: seq<Tx>, log: seq<Tx>)
    requires Reasoned(g, storage, batch, log) && log != []
    ensures var k := |log| - 1;
            Reasoned(g, storage, batch, log[..k]) && Reason(g, storage, batch, log[k], Ids(log[..k]))
  {
    hide Reason, Ids;
    assert forall i :: 0 <= i < |log| - 1 ==> log[..|log| - 1][..i] == log[..i];
  }

  lemma ReasonWithin(g: Graph, storage: set<Txid>, batch: seq<Tx>, tx: Tx, before: set<Txid>, b: set<Txid>)
    requires Reason(g, storage, batch, tx, before) && before <= b && Answers(g, storage, batch, b)
    ensures tx.txid in b
  {
    hide Parents, Awaits, New;
    if !New(g, batch, tx) || !(Parents(tx) <= storage + before) {
      WokenMore(g, before, b, tx.txid);
      assert Ready(g, storage, b, tx.txid);
    }
  }

  /**
   Whatever is stored early: one call lists exactly the least answer to its batch, so neither the
   order of the batch nor the order in which transactions are woken matters.
   */
  lemma AttachesAnswer(g: Graph, storage: set<Txid>, a: set<Txid>, early: set<Txid>, batch: seq<Tx>, now: nat, g': Graph, log: seq<Tx>)
    requires Attaches(g, storage, batch, now, g', log) && OneTransferPerId(Sources(g, batch))
    requires Tracked(g, a, early) && Stored(storage, a, early) && Sound(g, storage)
    ensures LeastAnswer(g, storage, batch, Ids(log))
  {
    hide Attaches, Sound, OneTransferPerId, Parents, Ids;
    AttachesSteady(g, storage, batch, now, g', log);
    AttachesHeld(g, storage, batch, now, g', log);
    AttachesTracked(g, storage, a, early, batch, now, g', log);
    hide Tracked, Apart, Ready, Stored;
    EndAnswers(g, storage, batch, g', log, a, early);
    hide Answers;
    forall b | Answers(g, storage, batch, b)
      ensures Ids(log) <= b
    {
      ReasonedWithin(g, storage, batch, log, b);
    }
  }

  lemma EndAnswers(g: Graph, storage: set<Txid>, batch: seq<Tx>, g': Graph, log: seq<Tx>, a: set<Txid>, early: set<Txid>)
    requires Steady(g, storage, batch, Work(g', log, {}), {}) && Tracked(g', a + Ids(log), early)
    requires Keyed(g) && TxSet(log) + Pending(g') == Pending(g) + Relevant(batch)
    ensures Answers(g, storage, batch, Ids(log))
  {
    hide Parents, Steady, Tracked, Ready;
    forall tx | New(g, batch, tx) && Parents(tx) <= storage + Ids(log)
      ensures tx.txid in Ids(log)
    {
      assert tx in TxSet(log) + Pending(g');
      if tx in Pending(g') {
        NewMisses(g, storage, batch, g', log, a, early, tx);
      }
    }
    forall c | c in g.stored && Ready(g, storage, Ids(log), c)
      ensures c in Ids(log)
    {
      WaitedListed(g, storage, batch, g', log, a, early, c);
    }
  }

  lemma WaitedListed(g: Graph, storage: set<Txid>, batch: seq<Tx>, g': Graph, log: seq<Tx>, a: set<Txid>, early: set<Txid>, c: Txid)
    requires Steady(g, storage, batch, Work(g', log, {}), {}) && Tracked(g', a + Ids(log), early)
    requires Keyed(g) && TxSet(log) + Pending(g') == Pending(g) + Relevant(batch)
    requires c in g.stored && Ready(g, storage, Ids(log), c)
    ensures g.stored[c].0 in log
  {
    var tx := g.stored[c].0;
    assert tx in Pending(g);
    assert tx in TxSet(log) + Pending(g');
    if tx in Pending(g') {
      PendingKinds(g', tx);
      hide Steady, Tracked, Ready;
      StillWaits(g, storage, batch, g', log, a, early, c);
    }
  }

  // ---- When an id is listed twice ----

  /** An issuance is delivered under the id of a waiting transfer that the call makes ready. */
  ghost predicate Clash(g: Graph, storage: set<Txid>, batch: seq<Tx>, l: set<Txid>) {
    exists tx :: tx in batch && tx.kind.Issue? && tx.txid in g.stored && Ready(g, storage, l, tx.txid)
  }

  /**
   Distinct ids delivered, a call lists an id twice exactly when an issuance of the batch has the id
   of a waiting transfer that is ready with the least answer attached.
   */
  lemma RepeatsIff(g: Graph, storage: set<Txid>, a: set<Txid>, early: set<Txid>, batch: seq<Tx>, now: nat, g': Graph, log: seq<Tx>, l: set<Txid>)
    requires Attaches(g, storage, batch, now, g', log) && OneTransferPerId(Sources(g, batch)) && NoRepeats(batch)
    requires Tracked(g, a, early) && Stored(storage, a, early) && Sound(g, storage) && LeastAnswer(g, storage, batch, l)
    ensures !NoRepeats(log) <==> Clash(g, storage, batch, l)
  {
    AttachesAnswer(g, storage, a, early, batch, now, g', log);
    AnswerUnique(g, storage, batch, l, Ids(log));
    hide Attaches, Sound, Parents, Ids, LeastAnswer;
    AttachesSteady(g, storage, batch, now, g', log);
    AttachesHeld(g, storage, batch, now, g', log);
    AttachesTracked(g, storage, a, early, batch, now, g', log);
    hide Tracked, Stored, Ready, NoRepeats, Steady;
    if Clash(g, storage, batch, l) {
      ClashRepeats(g, storage, batch, g', log, a, early);
    }
    if !NoRepeats(log) {
      RepeatsClash(g, storage, batch, g', log);
    }
  }

  lemma ClashRepeats(g: Graph, storage: set<Txid>, batch: seq<Tx>, g': Graph, log: seq<Tx>, a: set<Txid>, early: set<Txid>)
    requires Steady(g, storage, batch, Work(g', log, {}), {}) && Tracked(g', a + Ids(log), early)
    requires Keyed(g) && TxSet(log) + Pending(g') == Pending(g) + Relevant(batch) && Clash(g, storage, batch, Ids(log))
    ensures !NoRepeats(log)
  {
    var tx :| tx in batch && tx.kind.Issue? && tx.txid in g.stored && Ready(g, storage, Ids(log), tx.txid);
    assert Keyed(g');
    hide Steady, Tracked, Ready, Ids;
    WaitedListed(g, storage, batch, g', log, a, early, tx.txid);
    assert tx in TxSet(log) + Pending(g');
    if tx in Pending(g') {
      PendingKinds(g', tx);
    }
    TwiceListed(log, tx, g.stored[tx.txid].0);
  }

  lemma RepeatsClash(g: Graph, storage: set<Txid>, batch: seq<Tx>, g': Graph, log: seq<Tx>)
    requires Keyed(g) && NoRepeats(batch) && OneTransferPerId(Sources(g, batch)) && Apart(Work(g', log, {}))
    requires TxSet(log) + Pending(g') == Pending(g) + Relevant(batch) && !NoRepeats(log)
    requires Steady(g, storage, batch, Work(g', log, {}), {})
    ensures Clash(g, storage, batch, Ids(log))
  {
    hide Ids, SoundWork, KeptDeps, Stirred, NoRepeats, Ready, OneTransferPerId;
    var k, tx := RepeatsIssued(g, batch, g', log);
    PendingKinds(g, log[k]);
    assert Reason(g, storage, batch, log[k], Ids(log[..k]));
    assert Ready(g, storage, Ids(log[..k]), tx.txid);
    ReadyMore(g, storage, log, k, tx.txid);
  }

  lemma ReadyMore(g: Graph, storage: set<Txid>, log: seq<Tx>, k: nat, c: Txid)
    requires k <= |log| && Ready(g, storage, Ids(log[..k]), c)
    ensures Ready(g, storage, Ids(log), c)
  {
    assert Ids(log[..k]) <= Ids(log);
    hide Ids, Awaits;
    WokenMore(g, Ids(log[..k]), Ids(log), c);
  }
}
