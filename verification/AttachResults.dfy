/** What complete calls of `attach_txs` keep and compute. */
module AttachResults {
  import opened AttachGraph

  // ---- Every call ----

  /** Listed and waiting transactions come from `src`. */
  ghost predicate Within(w: Work, src: set<Tx>) {
    (forall tx :: tx in w.log ==> tx in src) && Pending(w.g) <= src
  }

  lemma DeliverWithin(w: Work, storage: set<Txid>, tx: Tx, now: nat, src: set<Tx>)
    requires Within(w, src) && tx in src
    ensures Within(DeliverStep(w, storage, tx, now), src)
  {
    hide Parents, Ids, WithChild;
    var w' := DeliverStep(w, storage, tx, now);
    forall t | t in Pending(w'.g)
      ensures t in src
    {
      var c :| c in w'.g.stored && w'.g.stored[c].0 == t;
      assert t == tx || (c in w.g.stored && w.g.stored[c].0 == t);
    }
  }

  lemma WakeWithin(w: Work, storage: set<Txid>, txid: Txid, src: set<Tx>)
    requires Within(w, src)
    ensures Within(WakeStep(w, storage, txid), src)
  {
    hide Ids;
    var w' := WakeStep(w, storage, txid);
    forall t | t in Pending(w'.g)
      ensures t in src
    {
      var c :| c in w'.g.stored && w'.g.stored[c].0 == t;
      assert c in w.g.stored && w.g.stored[c].0 == t;
    }
    assert txid in w.g.stored ==> w.g.stored[txid].0 in Pending(w.g);
  }

  lemma {:induction false} DeliveredWithin(w: Work, storage: set<Txid>, batch: seq<Tx>, now: nat, src: set<Tx>)
    requires Within(w, src) && forall tx :: tx in batch ==> tx in src
    ensures Within(Delivered(w, storage, batch, now), src)
  {
    if batch != [] {
      hide Within, DeliverStep;
      var k := |batch| - 1;
      DeliveredWithin(w, storage, batch[..k], now, src);
      DeliverWithin(Delivered(w, storage, batch[..k], now), storage, batch[k], now, src);
    }
  }

  lemma {:induction false} WokenWithin(c: Call, storage: set<Txid>, picks: seq<Txid>, src: set<Tx>)
    requires Within(c.w, src)
    ensures Within(Woken(c, storage, picks).w, src)
  {
    if picks != [] {
      var k := |picks| - 1;
      WokenWithin(c, storage, picks[..k], src);
      WokenLast(c, storage, picks);
      hide Woken;
      WakeWithin(Turn(Woken(c, storage, picks[..k])).w, storage, picks[k], src);
      hide Within, WakeStep;
    }
  }

  /** A call lists only delivered and waiting transactions, and only those wait after it. */
  lemma AttachesWithin(g: Graph, storage: set<Txid>, batch: seq<Tx>, now: nat, g': Graph, log: seq<Tx>)
    requires Attaches(g, storage, batch, now, g', log)
    ensures forall tx :: tx in log || tx in Pending(g') ==> tx in batch || tx in Pending(g)
  {
    var c := Opening(g, storage, batch, now);
    var picks :| Picked(c, storage, picks) && Woken(c, storage, picks) == Call(Work(g', log, {}), {});
    var src := Pending(g) + set tx | tx in batch;
    DeliveredWithin(Work(g, [], {}), storage, batch, now, src);
    hide Woken, Delivered, Pending;
    WokenWithin(c, storage, picks, src);
  }

  // ---- Calls that deliver one transfer per id ----

  ghost predicate OneTransferPerId(txs: set<Tx>) {
    forall t, u :: t in txs && u in txs && t.kind.Transfer? && u.kind.Transfer? && t.txid == u.txid ==> t == u
  }

  lemma AgreesWithin(w: Work, src: set<Tx>, tx: Tx)
    requires Keyed(w.g) && Within(w, src) && OneTransferPerId(src) && tx in src
    ensures Agrees(w.g, tx)
  {
    if tx.kind.Transfer? && tx.txid in w.g.stored {
      assert w.g.stored[tx.txid].0 in Pending(w.g);
    }
  }

  ghost function TxSet(txs: seq<Tx>): set<Tx> {
    set tx | tx in txs
  }

  /** The call's sources: what waited and what is delivered. */
  ghost function Sources(g: Graph, batch: seq<Tx>): set<Tx> {
    Pending(g) + TxSet(batch)
  }

  ghost predicate NoRepeats(log: seq<Tx>) {
    forall i, j :: 0 <= i < j < |log| ==> log[i].txid != log[j].txid
  }

  /** After the batch: everything held, only delivered ones listed, and all apart. */
  ghost predicate Opened(g: Graph, w: Work, batch: seq<Tx>) {
    && Keyed(w.g) && Held(w) == Pending(g) + Relevant(batch)
    && (forall tx :: tx in w.log ==> tx in batch)
    && (NoRepeats(batch) ==> Apart(w))
  }

  lemma {:induction false} DeliveredHeld(g: Graph, storage: set<Txid>, batch: seq<Tx>, now: nat, src: set<Tx>)
    requires Keyed(g) && OneTransferPerId(src) && Sources(g, batch) <= src
    ensures Opened(g, Delivered(Work(g, [], {}), storage, batch, now), batch)
  {
    if batch == [] {
      OpenedNone(g);
      hide Opened;
    } else {
      var k := |batch| - 1;
      assert Sources(g, batch[..k]) <= src;
      DeliveredHeld(g, storage, batch[..k], now, src);
      DeliveredWithin(Work(g, [], {}), storage, batch[..k], now, src);
      var w := Delivered(Work(g, [], {}), storage, batch[..k], now);
      DeliveredLast(Work(g, [], {}), storage, batch, now);
      hide Delivered, Pending, Keyed, OneTransferPerId, NoRepeats, Held, Apart, Relevant;
      assert Keyed(w.g) && batch[k] in src;
      hide Opened, Sources;
      AgreesWithin(w, src, batch[k]);
      hide Within, Agrees;
      DeliverHeld(w, storage, batch[k], now);
      LogGrows(w, storage, batch[k], now);
      hide DeliverStep;
      OpenedNext(g, w, DeliverStep(w, storage, batch[k], now), batch);
    }
  }

  lemma OpenedNone(g: Graph)
    requires Keyed(g)
    ensures Opened(g, Work(g, [], {}), [])
  {
    assert Relevant([]) == {} && Held(Work(g, [], {})) == Pending(g);
  }

  lemma DeliveredLast(w: Work, storage: set<Txid>, batch: seq<Tx>, now: nat)
    requires batch != []
    ensures var k := |batch| - 1;
            Delivered(w, storage, batch, now) == DeliverStep(Delivered(w, storage, batch[..k], now), storage, batch[k], now)
  {
    hide DeliverStep;
  }

  lemma LogGrows(w: Work, storage: set<Txid>, tx: Tx, now: nat)
    ensures var w' := DeliverStep(w, storage, tx, now); w'.log == w.log || w'.log == w.log + [tx]
  {
    hide Parents, Ids, WithChild;
  }

  lemma OpenedNext(g: Graph, w: Work, w': Work, batch: seq<Tx>)
    requires batch != [] && Opened(g, w, batch[..|batch| - 1])
    requires var tx := batch[|batch| - 1];
             && Keyed(w'.g) && Held(w') == Held(w) + Relevant([tx]) && (Apart(w) && tx !in w.log ==> Apart(w'))
             && (w'.log == w.log || w'.log == w.log + [tx])
    ensures Opened(g, w', batch)
  {
    var k := |batch| - 1;
    var tx := batch[k];
    assert batch == batch[..k] + [tx];
    assert Relevant(batch) == Relevant(batch[..k]) + Relevant([tx]);
    hide Pending, Apart, Keyed, Held, Relevant;
    if NoRepeats(batch) {
      assert NoRepeats(batch[..k]);
      forall t | t in w.log
        ensures t != tx
      {
        var i :| 0 <= i < k && batch[..k][i] == t;
        assert batch[i].txid != batch[k].txid;
      }
    }
  }

  lemma {:induction false} WokenHeld(c: Call, storage: set<Txid>, picks: seq<Txid>)
    requires Keyed(c.w.g)
    ensures var d := Woken(c, storage, picks);
            Keyed(d.w.g) && Held(d.w) == Held(c.w) && (Apart(c.w) ==> Apart(d.w))
  {
    if picks != [] {
      var k := |picks| - 1;
      WokenHeld(c, storage, picks[..k]);
      WokenLast(c, storage, picks);
      hide Woken;
      WakeHeld(Turn(Woken(c, storage, picks[..k])).w, storage, picks[k]);
      hide Keyed, WakeStep;
    }
  }

  /** A call loses nothing; distinct ids delivered, no transaction is listed twice or listed and waiting. */
  lemma AttachesHeld(g: Graph, storage: set<Txid>, batch: seq<Tx>, now: nat, g': Graph, log: seq<Tx>)
    requires Attaches(g, storage, batch, now, g', log) && Keyed(g) && OneTransferPerId(Sources(g, batch))
    ensures Keyed(g') && TxSet(log) + Pending(g') == Pending(g) + Relevant(batch)
    ensures NoRepeats(batch) ==> Apart(Work(g', log, {}))
  {
    var c := Opening(g, storage, batch, now);
    var picks :| Picked(c, storage, picks) && Woken(c, storage, picks) == Call(Work(g', log, {}), {});
    DeliveredHeld(g, storage, batch, now, Sources(g, batch));
    hide Woken, Delivered, Keyed, Apart, Pending;
    WokenHeld(c, storage, picks);
  }

  lemma {:induction false} DeliveredTracked(g: Graph, storage: set<Txid>, a: set<Txid>, early: set<Txid>, batch: seq<Tx>, now: nat, src: set<Tx>)
    requires Tracked(g, a, early) && Stored(storage, a, early) && OneTransferPerId(src) && Sources(g, batch) <= src
    ensures var w := Delivered(Work(g, [], {}), storage, batch, now); TrackedWork(w, a, early, w.queued)
  {
    if batch == [] {
      TrackedStart(g, a, early);
    } else {
      var k := |batch| - 1;
      assert Sources(g, batch[..k]) <= src;
      DeliveredTracked(g, storage, a, early, batch[..k], now, src);
      DeliveredWithin(Work(g, [], {}), storage, batch[..k], now, src);
      DeliveredLast(Work(g, [], {}), storage, batch, now);
      var w := Delivered(Work(g, [], {}), storage, batch[..k], now);
      hide Delivered, OneTransferPerId, Pending, Tracked, AwaitsOk, WakesOk, NoEmptyInv, Keyed;
      AgreesWithin(w, src, batch[k]);
      hide Within, DeliverStep;
      DeliverTracked(w, storage, a, early, batch[k], now);
    }
  }

  lemma {:induction false} WokenTracked(c: Call, storage: set<Txid>, a: set<Txid>, early: set<Txid>, picks: seq<Txid>)
    requires TrackedWork(c.w, a, early, c.rest + c.w.queued) && Stored(storage, a, early)
    ensures var d := Woken(c, storage, picks); TrackedWork(d.w, a, early, d.rest + d.w.queued)
  {
    if picks != [] {
      var k := |picks| - 1;
      WokenTracked(c, storage, a, early, picks[..k]);
      WokenLast(c, storage, picks);
      var b := Woken(c, storage, picks[..k]);
      hide Woken;
      TurnTracked(b, a, early);
      var d := Turn(b);
      hide TrackedWork, WakeStep, Turn;
      WakeTracked(d.w, storage, a, early, d.rest, picks[k]);
    }
  }

  lemma TurnTracked(c: Call, a: set<Txid>, early: set<Txid>)
    requires TrackedWork(c.w, a, early, c.rest + c.w.queued)
    ensures var d := Turn(c); TrackedWork(d.w, a, early, d.rest + d.w.queued)
  {
    if c.rest == {} {
      assert c.rest + c.w.queued == Turn(c).rest + Turn(c).w.queued;
      hide Keyed, NoEmptyInv, Parents, Awaits, Wakes, Ids;
    }
  }

  /** A call keeps track of who waits for whom, now with what it listed attached. */
  lemma AttachesTracked(g: Graph, storage: set<Txid>, a: set<Txid>, early: set<Txid>, batch: seq<Tx>, now: nat, g': Graph, log: seq<Tx>)
    requires Attaches(g, storage, batch, now, g', log)
    requires Tracked(g, a, early) && Stored(storage, a, early) && OneTransferPerId(Sources(g, batch))
    ensures Tracked(g', a + Ids(log), early)
  {
    var c := Opening(g, storage, batch, now);
    var picks :| Picked(c, storage, picks) && Woken(c, storage, picks) == Call(Work(g', log, {}), {});
    DeliveredTracked(g, storage, a, early, batch, now, Sources(g, batch));
    assert {} + c.w.queued == c.w.queued;
    hide Woken, Delivered, Tracked, TrackedWork;
    WokenTracked(c, storage, a, early, picks);
    var none: set<Txid> := {};
    assert none + none == none;
    TrackedEnd(Work(g', log, {}), a, early);
  }

  // ---- The attached set is a least fixpoint ----

  /** Holds `base` and all issuances, and every transfer whose parents it holds. */
  ghost predicate Closed(base: set<Txid>, txs: set<Tx>, a: set<Txid>) {
    && base <= a
    && forall tx :: tx in txs && !tx.kind.Announcement? && Parents(tx) <= a ==> tx.txid in a
  }

  ghost predicate IsLeast(base: set<Txid>, txs: set<Tx>, a: set<Txid>) {
    Closed(base, txs, a) && forall b :: Closed(base, txs, b) ==> a <= b
  }

  lemma LeastUnique(base: set<Txid>, txs: set<Tx>, a: set<Txid>, b: set<Txid>)
    requires IsLeast(base, txs, a) && IsLeast(base, txs, b)
    ensures a == b
  {
  }

  /** Listed transactions are transfers and issuances of `txs`. */
  ghost predicate ListedOf(log: seq<Tx>, txs: set<Tx>) {
    forall tx :: tx in log ==> tx in txs && !tx.kind.Announcement?
  }

  /** What was attached in order lies in every closed set. */
  lemma {:induction false} OrderedWithin(log: seq<Tx>, known: set<Txid>, base: set<Txid>, txs: set<Tx>, b: set<Txid>)
    requires Ordered(log, known) && known <= b && Closed(base, txs, b) && ListedOf(log, txs)
    ensures Ids(log) <= b
  {
    if log != [] {
      hide Parents, Ids, Ordered, Closed, ListedOf;
      var k := |log| - 1;
      OrderedPrefix(log, known, k);
      ListedPrefix(log, txs, k);
      OrderedWithin(log[..k], known, base, txs, b);
      IdsSnoc(log[..k], log[k]);
      assert log == log[..k] + [log[k]];
      ClosedOne(base, txs, b, log[k]);
    }
  }

  lemma ListedPrefix(log: seq<Tx>, txs: set<Tx>, k: nat)
    requires ListedOf(log, txs) && k < |log|
    ensures ListedOf(log[..k], txs) && log[k] in txs && !log[k].kind.Announcement?
  {
    assert log[k] in log;
  }

  lemma ClosedOne(base: set<Txid>, txs: set<Tx>, b: set<Txid>, tx: Tx)
    requires Closed(base, txs, b) && tx in txs && !tx.kind.Announcement? && Parents(tx) <= b
    ensures tx.txid in b
  {
  }

  lemma OrderedPrefix(log: seq<Tx>, known: set<Txid>, k: nat)
    requires Ordered(log, known) && k < |log|
    ensures Ordered(log[..k], known) && Parents(log[k]) <= known + Ids(log[..k])
  {
    hide Parents, Ids;
    assert forall i :: 0 <= i < k ==> log[..k][..i] == log[..i];
  }

  /** A waiting transaction always misses a parent. */
  lemma PendingMisses(g: Graph, a: set<Txid>, early: set<Txid>, tx: Tx)
    requires Tracked(g, a, early) && tx in Pending(g)
    ensures !(Parents(tx) <= a)
  {
    var c :| c in g.stored && g.stored[c].0 == tx;
    var p :| p in g.deps[c];
    hide Parents;
    assert Awaits(g, c, p);
  }

  /** Everything relevant is attached or waiting. */
  ghost predicate Complete(g: Graph, txs: set<Tx>, a: set<Txid>) {
    forall tx :: tx in txs && !tx.kind.Announcement? ==> tx.txid in a || tx in Pending(g)
  }

  lemma CompleteClosed(g: Graph, base: set<Txid>, txs: set<Tx>, a: set<Txid>, early: set<Txid>)
    requires Tracked(g, a, early) && Complete(g, txs, a) && base <= a
    ensures Closed(base, txs, a)
  {
    forall tx | tx in txs && !tx.kind.Announcement? && Parents(tx) <= a
      ensures tx.txid in a
    {
      if tx in Pending(g) {
        PendingMisses(g, a, early, tx);
      }
    }
  }

  lemma ListedKinds(g: Graph, batch: seq<Tx>, g': Graph, log: seq<Tx>)
    requires Keyed(g) && TxSet(log) + Pending(g') == Pending(g) + Relevant(batch)
    ensures ListedOf(log, Sources(g, batch))
    ensures Complete(g', Sources(g, batch), Ids(log))
  {
    forall tx | tx in log
      ensures tx in Sources(g, batch) && !tx.kind.Announcement?
    {
      assert tx in TxSet(log) + Pending(g');
    }
    forall tx | tx in Sources(g, batch) && !tx.kind.Announcement?
      ensures tx.txid in Ids(log) || tx in Pending(g')
    {
      assert tx in Pending(g) + Relevant(batch);
    }
  }

  /** One call from a graph in step with storage attaches exactly the least closed set. */
  lemma AttachesLeast(g: Graph, storage: set<Txid>, batch: seq<Tx>, now: nat, g': Graph, log: seq<Tx>)
    requires Attaches(g, storage, batch, now, g', log)
    requires Tracked(g, storage, {}) && Sound(g, storage) && OneTransferPerId(Sources(g, batch))
    ensures IsLeast(storage, Sources(g, batch), storage + Ids(log))
  {
    hide Attaches, Sound, OneTransferPerId, Ordered, Sources;
    AttachesSound(g, storage, batch, now, g', log, storage);
    AttachesHeld(g, storage, batch, now, g', log);
    AttachesTracked(g, storage, storage, {}, batch, now, g', log);
    ListedKinds(g, batch, g', log);
    hide Tracked, Keyed, Pending, Parents, Ids;
    var a := storage + Ids(log);
    assert Complete(g', Sources(g, batch), a);
    CompleteClosed(g', storage, Sources(g, batch), a, {});
    assert storage + storage == storage;
    hide Closed, Complete;
    forall b | Closed(storage, Sources(g, batch), b)
      ensures a <= b
    {
      ClosedHolds(storage, Sources(g, batch), b);
      OrderedWithin(log, storage, storage, Sources(g, batch), b);
    }
  }

  lemma ClosedHolds(base: set<Txid>, txs: set<Tx>, b: set<Txid>)
    requires Closed(base, txs, b)
    ensures base <= b
  {
  }

  // ---- When an id is listed twice ----

  lemma TwiceListed(log: seq<Tx>, t: Tx, u: Tx)
    requires t in log && u in log && t != u && t.txid == u.txid
    ensures !NoRepeats(log)
  {
    var i :| 0 <= i < |log| && log[i] == t;
    var j :| 0 <= j < |log| && log[j] == u;
    assert log[i].txid == log[j].txid && i != j;
  }

  lemma SameInBatch(batch: seq<Tx>, t: Tx, u: Tx)
    requires NoRepeats(batch) && t in batch && u in batch && t.txid == u.txid
    ensures t == u
  {
    var i :| 0 <= i < |batch| && batch[i] == t;
    var j :| 0 <= j < |batch| && batch[j] == u;
    assert i == j;
  }

  /** Listed twice: once as a transfer that waited, once as an issuance of the batch. */
  lemma RepeatsIssued(g: Graph, batch: seq<Tx>, g': Graph, log: seq<Tx>) returns (k: nat, tx: Tx)
    requires Keyed(g) && NoRepeats(batch) && OneTransferPerId(Sources(g, batch)) && Apart(Work(g', log, {}))
    requires TxSet(log) + Pending(g') == Pending(g) + Relevant(batch) && !NoRepeats(log)
    ensures k < |log| && log[k] in Pending(g) && tx in batch && tx.kind.Issue? && tx.txid == log[k].txid
  {
    var i, j :| 0 <= i < j < |log| && log[i].txid == log[j].txid;
    assert log[i] != log[j];
    ListedKinds(g, batch, g', log);
    assert log[i] in log && log[j] in log;
    if log[i] in Pending(g) {
      k, tx := i, log[j];
    } else if log[j] in Pending(g) {
      k, tx := j, log[i];
    } else {
      SameInBatch(batch, log[i], log[j]);
    }
    PendingKinds(g, log[k]);
    assert tx !in Pending(g) by {
      if tx in Pending(g) {
        PendingKinds(g, tx);
      }
    }
  }

  lemma PendingKinds(g: Graph, tx: Tx)
    requires Keyed(g) && tx in Pending(g)
    ensures tx.kind.Transfer? && tx.txid in g.stored && g.stored[tx.txid].0 == tx
  {
    var c :| c in g.stored && g.stored[c].0 == tx;
  }

  /** No issuance of the batch has the id of a waiting transfer. */
  ghost predicate NoneIssued(g: Graph, batch: seq<Tx>) {
    forall tx :: tx in batch && tx.kind.Issue? ==> tx.txid !in g.stored
  }

  /** Distinct ids are delivered, none of them issued while a transfer waits under it. */
  ghost predicate Distinct(g: Graph, batch: seq<Tx>) {
    OneTransferPerId(Sources(g, batch)) && NoRepeats(batch) && NoneIssued(g, batch)
  }

  /** Then, whatever storage holds, no id is listed twice. */
  lemma ListedOnce(g: Graph, storage: set<Txid>, batch: seq<Tx>, now: nat, g': Graph, log: seq<Tx>)
    requires Attaches(g, storage, batch, now, g', log) && Keyed(g) && Distinct(g, batch)
    ensures NoRepeats(log)
  {
    hide Attaches;
    AttachesHeld(g, storage, batch, now, g', log);
    hide OneTransferPerId, Apart;
    if !NoRepeats(log) {
      hide NoRepeats;
      var k, tx := RepeatsIssued(g, batch, g', log);
      PendingKinds(g, log[k]);
    }
  }

  /** Equal ids mean equal transactions. */
  ghost predicate UniqueIds(txs: set<Tx>) {
    forall t, u :: t in txs && u in txs && t.txid == u.txid ==> t == u
  }

  /** So when ids are unique, no call lists an id twice that was not delivered twice. */
  lemma UniqueOnce(g: Graph, storage: set<Txid>, batch: seq<Tx>, now: nat, g': Graph, log: seq<Tx>)
    requires Attaches(g, storage, batch, now, g', log) && Keyed(g) && UniqueIds(Sources(g, batch)) && NoRepeats(batch)
    ensures NoRepeats(log)
  {
    assert NoneIssued(g, batch) by {
      assert forall c :: c in g.stored ==> g.stored[c].0 in Pending(g);
    }
    hide Attaches, NoRepeats;
    ListedOnce(g, storage, batch, now, g', log);
  }

  /** A transfer waits for an issuance; both ids are then delivered as issuances, and the first is listed twice. */
  lemma ListedTwice(now: nat)
    ensures var waiting := Tx(1, [2], Transfer([0]));
            var g := Graph(map[2 := {1}], map[1 := {2}], map[1 := (waiting, now)]);
            var batch := [Tx(1, [], Issue), Tx(2, [], Issue)];
            && Exact(g, {}) && NoRepeats(batch)
            && Attaches(g, {}, batch, now, Graph(map[], map[], map[]), batch + [waiting]) && !NoRepeats(batch + [waiting])
  {
    var waiting := Tx(1, [2], Transfer([0]));
    var g := Graph(map[2 := {1}], map[1 := {2}], map[1 := (waiting, now)]);
    var one, two := Tx(1, [], Issue), Tx(2, [], Issue);
    var batch := [one, two];
    assert Parents(waiting) == {2} by {
      assert 0 in [0] && waiting.inputs[0] == 2;
    }
    var w1 := Work(g, [one], {});
    assert DeliverStep(Work(g, [], {}), {}, one, now) == w1 by {
      assert g.inv - {1} == g.inv;
    }
    var w2 := Work(g.(inv := map[]), batch, {1});
    assert DeliverStep(w1, {}, two, now) == w2 by {
      assert g.inv - {2} == map[];
    }
    assert batch[..1] == [one] && batch[..1][..0] == [];
    assert Delivered(Work(g, [], {}), {}, [], now) == Work(g, [], {});
    assert Delivered(Work(g, [], {}), {}, batch[..1], now) == w1;
    var c := Opening(g, {}, batch, now);
    assert c == Call(w2, {});
    var d := Call(Work(g.(inv := map[]), batch, {}), {1});
    assert Turn(c) == d;
    assert Ids(batch) == {1, 2} by {
      assert one in batch && two in batch;
    }
    assert WakeStep(d.w, {}, 1) == Work(Graph(map[], map[], map[]), batch + [waiting], {}) by {
      assert g.deps[1] - {} - Ids(batch) == {};
    }
    assert [1][..0] == [];
    assert Woken(c, {}, [1][..0]) == c;
    assert Picked(c, {}, [1]);
    assert Woken(c, {}, [1]) == Call(Work(Graph(map[], map[], map[]), batch + [waiting], {}), {});
    var log := batch + [waiting];
    assert log[0].txid == log[2].txid;
  }

  // ---- Exact graphs ----

  /**
   The waiting transactions are the keys of both `deps` and `stored`, none is attached, each waits
   for exactly its unattached parents, `inv` is the inverse relation, and there are no empty sets.
   */
  ghost predicate Exact(g: Graph, a: set<Txid>) {
    && Keyed(g) && NoEmptyInv(g) && g.stored.Keys !! a
    && (forall c, p :: Awaits(g, c, p) <==> Wakes(g, p, c))
    && (forall c, p :: c in g.stored ==> (Awaits(g, c, p) <==> p in Parents(g.stored[c].0) && p !in a))
  }

  /** Without early ids, keeping track and sound graphs is being exact. */
  lemma TrackedExact(g: Graph, a: set<Txid>)
    ensures Exact(g, a) <==> Tracked(g, a, {}) && Sound(g, a) && g.stored.Keys !! a
  {
    hide Parents;
    if Exact(g, a) {
      ExactTracked(g, a);
    }
    if Tracked(g, a, {}) && Sound(g, a) && g.stored.Keys !! a {
      forall c, p | c in g.stored && p in Parents(g.stored[c].0) && p !in a
        ensures Awaits(g, c, p)
      {
        assert Parents(g.stored[c].0) <= g.deps[c] + a;
      }
    }
  }

  lemma ExactTracked(g: Graph, a: set<Txid>)
    requires Exact(g, a)
    ensures Tracked(g, a, {}) && Sound(g, a)
  {
    hide Parents;
    assert forall c, p :: Awaits(g, c, p) ==> c in g.stored;
    assert Tracked(g, a, {});
    forall c | c in g.stored
      ensures Parents(g.stored[c].0) <= g.deps[c] + a
    {
      forall p | p in Parents(g.stored[c].0)
        ensures p in g.deps[c] + a
      {
        assert p !in a ==> Awaits(g, c, p);
      }
    }
  }
}
