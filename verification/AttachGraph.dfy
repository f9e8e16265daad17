/**
 The dependency graph of waiting transactions and the steps of `GraphBuilder`
 (`crates/tx-attach/src/lib.rs`), as functions of values.
 */
module AttachGraph {
  type Txid = nat

  /** A transfer lists the input indices its proofs are mapped to. */
  datatype Kind = Issue | Transfer(proofs: seq<nat>) | Announcement

  /** `inputs` holds the transaction id of the output each input spends. */
  datatype Tx = Tx(txid: Txid, inputs: seq<Txid>, kind: Kind)

  /** The proof-input parents; proofs mapped beyond the inputs are skipped. */
  function Parents(tx: Tx): set<Txid> {
    if tx.kind.Transfer? then set k | k in tx.kind.proofs && k < |tx.inputs| :: tx.inputs[k] else {}
  }

  type Links = map<Txid, set<Txid>>

  datatype Graph = Graph(inv: Links, deps: Links, stored: map<Txid, (Tx, nat)>)

  /** A graph with the transactions attached in the current call and the children to wake. */
  datatype Work = Work(g: Graph, log: seq<Tx>, queued: set<Txid>)

  function Ids(log: seq<Tx>): set<Txid> {
    set tx | tx in log :: tx.txid
  }

  function At(m: Links, k: Txid): set<Txid> {
    if k in m then m[k] else {}
  }

  function WithChild(inv: Links, parents: set<Txid>, child: Txid): Links {
    map p | p in inv.Keys + parents :: At(inv, p) + (if p in parents then {child} else {})
  }

  function IssueStep(w: Work, tx: Tx): Work {
    Work(w.g.(inv := w.g.inv - {tx.txid}), w.log + [tx], w.queued + At(w.g.inv, tx.txid))
  }

  function TransferStep(w: Work, storage: set<Txid>, tx: Tx, now: nat): Work {
    var missing := Parents(tx) - storage - Ids(w.log);
    var inv := WithChild(w.g.inv, missing, tx.txid);
    var own := At(w.g.deps, tx.txid) + missing;
    if own == {} then
      Work(Graph(inv - {tx.txid}, w.g.deps - {tx.txid}, w.g.stored), w.log + [tx], w.queued + At(inv, tx.txid))
    else
      w.(g := Graph(inv, w.g.deps[tx.txid := own], w.g.stored[tx.txid := (tx, now)]))
  }

  function DeliverStep(w: Work, storage: set<Txid>, tx: Tx, now: nat): Work {
    match tx.kind
    case Issue => IssueStep(w, tx)
    case Transfer(_) => TransferStep(w, storage, tx, now)
    case Announcement => w
  }

  /** One queued transaction: drop its attached parents, attach it if none are left. */
  function WakeStep(w: Work, storage: set<Txid>, txid: Txid): Work {
    var own := At(w.g.deps, txid) - storage - Ids(w.log);
    var deps := if txid in w.g.deps then w.g.deps[txid := own] else w.g.deps;
    if own != {} || txid !in w.g.stored then
      w.(g := w.g.(deps := deps))
    else
      Work(Graph(w.g.inv - {txid}, deps - {txid}, w.g.stored - {txid}),
           w.log + [w.g.stored[txid].0], w.queued + At(w.g.inv, txid))
  }

  // ---- A whole call ----

  /** The loop over the batch. */
  function Delivered(w: Work, storage: set<Txid>, batch: seq<Tx>, now: nat): Work {
    if batch == [] then w else
    var k := |batch| - 1;
    DeliverStep(Delivered(w, storage, batch[..k], now), storage, batch[k], now)
  }

  /** The loop over queued transactions: `rest` are those not yet looked at in the current round. */
  datatype Call = Call(w: Work, rest: set<Txid>)

  /** A new round takes what the last one queued. */
  function Turn(c: Call): Call {
    if c.rest == {} then Call(c.w.(queued := {}), c.w.queued) else c
  }

  /** The queued transactions looked at in the order of `picks`. */
  function Woken(c: Call, storage: set<Txid>, picks: seq<Txid>): Call {
    if picks == [] then c else
    var k := |picks| - 1;
    var d := Turn(Woken(c, storage, picks[..k]));
    Call(WakeStep(d.w, storage, picks[k]), d.rest - {picks[k]})
  }

  /** Every pick is one of those left in its round; hash sets allow any such order. */
  ghost predicate Picked(c: Call, storage: set<Txid>, picks: seq<Txid>) {
    forall k :: 0 <= k < |picks| ==> picks[k] in Turn(Woken(c, storage, picks[..k])).rest
  }

  function Opening(g: Graph, storage: set<Txid>, batch: seq<Tx>, now: nat): Call {
    Call(Delivered(Work(g, [], {}), storage, batch, now), {})
  }

  /** A complete call of `attach_txs`: from graph `g` to `g'`, with `log` attached in this order. */
  ghost predicate Attaches(g: Graph, storage: set<Txid>, batch: seq<Tx>, now: nat, g': Graph, log: seq<Tx>) {
    exists picks ::
      && Picked(Opening(g, storage, batch, now), storage, picks)
      && Woken(Opening(g, storage, batch, now), storage, picks) == Call(Work(g', log, {}), {})
  }

  // ---- Soundness ----

  /** Parents of waiting transactions are awaited or have been seen attached. */
  ghost predicate Sound(g: Graph, seen: set<Txid>) {
    forall c :: c in g.stored ==>
      && g.stored[c].0.txid == c
      && c in g.deps && g.deps[c] != {}
      && Parents(g.stored[c].0) <= g.deps[c] + seen
  }

  /** Every transaction of the list comes after all its parents outside `base`. */
  ghost predicate Ordered(log: seq<Tx>, base: set<Txid>) {
    forall i :: 0 <= i < |log| ==> Parents(log[i]) <= base + Ids(log[..i])
  }

  lemma IdsSnoc(log: seq<Tx>, tx: Tx)
    ensures Ids(log + [tx]) == Ids(log) + {tx.txid}
  {
    assert forall t :: t in log + [tx] <==> t in log || t == tx;
  }

  lemma OrderedSnoc(log: seq<Tx>, tx: Tx, base: set<Txid>)
    requires Ordered(log, base) && Parents(tx) <= base + Ids(log)
    ensures Ordered(log + [tx], base)
  {
    var more := log + [tx];
    forall i | 0 <= i < |more|
      ensures Parents(more[i]) <= base + Ids(more[..i])
    {
      assert more[..i] == log[..i];
    }
  }

  ghost predicate SoundWork(w: Work, base: set<Txid>) {
    Sound(w.g, base + Ids(w.log)) && Ordered(w.log, base)
  }

  lemma DeliverSound(w: Work, storage: set<Txid>, base: set<Txid>, tx: Tx, now: nat)
    requires SoundWork(w, base) && storage <= base
    ensures SoundWork(DeliverStep(w, storage, tx, now), base)
  {
    match tx.kind
    case Announcement =>
    case Issue =>
      assert Parents(tx) == {};
      SnocSound(w, base, tx);
    case Transfer(_) =>
      TransferSound(w, storage, base, tx, now);
  }

  lemma SnocSound(w: Work, base: set<Txid>, tx: Tx)
    requires SoundWork(w, base) && Parents(tx) <= base + Ids(w.log)
    ensures Sound(w.g, base + Ids(w.log + [tx])) && Ordered(w.log + [tx], base)
  {
    hide Parents, Ids, Ordered;
    IdsSnoc(w.log, tx);
    OrderedSnoc(w.log, tx, base);
  }

  lemma TransferSound(w: Work, storage: set<Txid>, base: set<Txid>, tx: Tx, now: nat)
    requires SoundWork(w, base) && storage <= base
    ensures SoundWork(TransferStep(w, storage, tx, now), base)
  {
    hide Parents, Ids, WithChild, Ordered;
    var missing := Parents(tx) - storage - Ids(w.log);
    assert Parents(tx) <= missing + (base + Ids(w.log));
    if At(w.g.deps, tx.txid) + missing == {} {
      assert tx.txid !in w.g.stored;
      SnocSound(w, base, tx);
    }
  }

  lemma WakeSound(w: Work, storage: set<Txid>, base: set<Txid>, txid: Txid)
    requires SoundWork(w, base) && storage <= base
    ensures SoundWork(WakeStep(w, storage, txid), base)
  {
    hide Parents, Ids, Ordered;
    var own := At(w.g.deps, txid) - storage - Ids(w.log);
    assert At(w.g.deps, txid) <= own + (base + Ids(w.log));
    if own == {} && txid in w.g.stored {
      SnocSound(w, base, w.g.stored[txid].0);
    }
  }

  lemma {:induction false} DeliveredSound(w: Work, storage: set<Txid>, base: set<Txid>, batch: seq<Tx>, now: nat)
    requires SoundWork(w, base) && storage <= base
    ensures SoundWork(Delivered(w, storage, batch, now), base)
  {
    if batch != [] {
      hide SoundWork, DeliverStep;
      var k := |batch| - 1;
      DeliveredSound(w, storage, base, batch[..k], now);
      DeliverSound(Delivered(w, storage, batch[..k], now), storage, base, batch[k], now);
    }
  }

  lemma {:induction false} WokenSound(c: Call, storage: set<Txid>, base: set<Txid>, picks: seq<Txid>)
    requires SoundWork(c.w, base) && storage <= base
    ensures SoundWork(Woken(c, storage, picks).w, base)
  {
    if picks != [] {
      var k := |picks| - 1;
      WokenSound(c, storage, base, picks[..k]);
      var d := Turn(Woken(c, storage, picks[..k]));
      hide Woken, Sound, Ordered, Ids;
      WakeSound(d.w, storage, base, picks[k]);
      hide SoundWork, WakeStep;
      WokenLast(c, storage, picks);
    }
  }

  lemma WokenLast(c: Call, storage: set<Txid>, picks: seq<Txid>)
    requires picks != []
    ensures var k := |picks| - 1;
            var d := Turn(Woken(c, storage, picks[..k]));
            Woken(c, storage, picks) == Call(WakeStep(d.w, storage, picks[k]), d.rest - {picks[k]})
  {
    hide WakeStep;
  }

  /**
   Every call, whatever is delivered: each transaction listed comes after all its parents outside
   storage and what was attached before, and parents of waiting ones are awaited or attached.
   */
  lemma AttachesSound(g: Graph, storage: set<Txid>, batch: seq<Tx>, now: nat, g': Graph, log: seq<Tx>, seen: set<Txid>)
    requires Attaches(g, storage, batch, now, g', log) && Sound(g, seen)
    ensures Ordered(log, seen + storage) && Sound(g', seen + storage + Ids(log))
  {
    var c := Opening(g, storage, batch, now);
    var picks :| Picked(c, storage, picks) && Woken(c, storage, picks) == Call(Work(g', log, {}), {});
    assert SoundWork(Work(g, [], {}), seen + storage) by {
      hide Parents;
      assert Ids([]) == {};
    }
    DeliveredSound(Work(g, [], {}), storage, seen + storage, batch, now);
    hide Woken, Delivered, Sound, Ordered;
    WokenSound(c, storage, seen + storage, picks);
  }

  // ---- Where listed and waiting transactions come from ----

  /** The transactions a graph keeps waiting. */
  ghost function Pending(g: Graph): set<Tx> {
    set c | c in g.stored :: g.stored[c].0
  }

  /** Waiting transactions are transfers kept under their ids, each with something to wait for. */
  ghost predicate Keyed(g: Graph) {
    && g.stored.Keys == g.deps.Keys
    && forall c :: c in g.stored ==> g.stored[c].0.txid == c && g.stored[c].0.kind.Transfer? && g.deps[c] != {}
  }

  /** A delivered transfer is the one waiting under its id, if any. */
  ghost predicate Agrees(g: Graph, tx: Tx) {
    tx.kind.Transfer? && tx.txid in g.stored ==> g.stored[tx.txid].0 == tx
  }

  /** All transactions attached or waiting. */
  ghost function Held(w: Work): set<Tx> {
    (set tx | tx in w.log) + Pending(w.g)
  }

  ghost function Relevant(txs: seq<Tx>): set<Tx> {
    set tx | tx in txs && !tx.kind.Announcement?
  }

  /** No transaction is listed twice, or listed and still waiting. */
  ghost predicate Apart(w: Work) {
    && (forall i, j :: 0 <= i < j < |w.log| ==> w.log[i] != w.log[j])
    && (forall tx :: tx in w.log ==> tx !in Pending(w.g))
  }

  lemma PendingPut(g: Graph, stored: map<Txid, (Tx, nat)>, tx: Tx, now: nat)
    requires stored == g.stored[tx.txid := (tx, now)] && (tx.txid in g.stored ==> g.stored[tx.txid].0 == tx)
    ensures Pending(g.(stored := stored)) == Pending(g) + {tx}
  {
    var g' := g.(stored := stored);
    assert g'.stored[tx.txid].0 == tx;
    forall t | t in Pending(g)
      ensures t in Pending(g')
    {
      var c :| c in g.stored && g.stored[c].0 == t;
      assert g'.stored[c].0 == t;
    }
  }

  lemma PendingDrop(g: Graph, c: Txid)
    requires Keyed(g) && c in g.stored
    ensures Pending(g.(stored := g.stored - {c})) == Pending(g) - {g.stored[c].0}
  {
    var g' := g.(stored := g.stored - {c});
    forall t | t in Pending(g) && t != g.stored[c].0
      ensures t in Pending(g')
    {
      var d :| d in g.stored && g.stored[d].0 == t;
      assert g'.stored[d].0 == t;
    }
  }

  lemma PendingSame(g: Graph, g': Graph)
    requires g.stored == g'.stored
    ensures Pending(g) == Pending(g')
  {
  }

  lemma LogSnoc(log: seq<Tx>, tx: Tx)
    ensures (set t | t in log + [tx]) == (set t | t in log) + {tx}
  {
  }

  /** Delivery adds the transaction to those held, and keeps them apart if it was not listed. */
  lemma DeliverHeld(w: Work, storage: set<Txid>, tx: Tx, now: nat)
    requires Keyed(w.g) && Agrees(w.g, tx)
    ensures var w' := DeliverStep(w, storage, tx, now);
            && Keyed(w'.g) && Held(w') == Held(w) + Relevant([tx])
            && (Apart(w) && tx !in w.log ==> Apart(w'))
  {
    hide Parents, Ids, WithChild;
    var w' := DeliverStep(w, storage, tx, now);
    assert forall t :: t in Relevant([tx]) <==> t == tx && !tx.kind.Announcement?;
    LogSnoc(w.log, tx);
    if w'.log == w.log + [tx] {
      PendingSame(w.g, w'.g);
      assert tx !in Pending(w.g);
    } else if tx.kind.Transfer? {
      PendingPut(w.g, w'.g.stored, tx, now);
      PendingSame(w.g.(stored := w'.g.stored), w'.g);
    }
  }

  /** Waking holds on to all, and keeps them apart. */
  lemma WakeHeld(w: Work, storage: set<Txid>, txid: Txid)
    requires Keyed(w.g)
    ensures var w' := WakeStep(w, storage, txid);
            && Keyed(w'.g) && Held(w') == Held(w) && (Apart(w) ==> Apart(w'))
  {
    hide Ids;
    var w' := WakeStep(w, storage, txid);
    if w'.log == w.log {
      PendingSame(w.g, w'.g);
    } else {
      var tx := w.g.stored[txid].0;
      PendingDrop(w.g, txid);
      PendingSame(w.g.(stored := w'.g.stored), w'.g);
      LogSnoc(w.log, tx);
      assert tx in Pending(w.g);
    }
  }

  // ---- Who waits for whom ----

  /** `c` waits for `p`. */
  ghost predicate Awaits(g: Graph, c: Txid, p: Txid) {
    c in g.deps && p in g.deps[c]
  }

  /** `c` is woken by `p`. */
  ghost predicate Wakes(g: Graph, p: Txid, c: Txid) {
    p in g.inv && c in g.inv[p]
  }

  ghost predicate NoEmptyInv(g: Graph) {
    forall p :: p in g.inv ==> g.inv[p] != {}
  }

  /**
   Between calls, with `a` attached: awaited transactions are unattached parents and wake their
   child; only ids in `early`, which may be in storage before they are attached, can wake one that
   does not await them any more.
   */
  ghost predicate Tracked(g: Graph, a: set<Txid>, early: set<Txid>) {
    && Keyed(g) && NoEmptyInv(g)
    && (forall c, p :: Awaits(g, c, p) ==> Wakes(g, p, c) && p !in a && p in Parents(g.stored[c].0))
    && (forall p, c :: Wakes(g, p, c) && p !in early ==> Awaits(g, c, p))
  }

  /** Within a call a parent attached in it may still be awaited, but then the child is to be woken. */
  ghost predicate AwaitsOk(w: Work, a: set<Txid>, waking: set<Txid>) {
    forall c, p :: Awaits(w.g, c, p) ==>
      && p !in a && c in w.g.stored && p in Parents(w.g.stored[c].0)
      && if p in Ids(w.log) then c in waking else Wakes(w.g, p, c)
  }

  ghost predicate WakesOk(w: Work, early: set<Txid>) {
    && (forall p, c :: Wakes(w.g, p, c) && p !in early ==> Awaits(w.g, c, p))
    && (forall p :: p in w.g.inv ==> p !in Ids(w.log))
  }

  ghost predicate TrackedWork(w: Work, a: set<Txid>, early: set<Txid>, waking: set<Txid>) {
    Keyed(w.g) && NoEmptyInv(w.g) && AwaitsOk(w, a, waking) && WakesOk(w, early)
  }

  /** Storage holds what is attached and, beyond that, early ids only. */
  ghost predicate Stored(storage: set<Txid>, a: set<Txid>, early: set<Txid>) {
    a <= storage <= a + early
  }

  lemma TrackedStart(g: Graph, a: set<Txid>, early: set<Txid>)
    requires Tracked(g, a, early)
    ensures TrackedWork(Work(g, [], {}), a, early, {})
  {
    assert Ids([]) == {};
    hide Parents, Ids;
  }

  lemma TrackedEnd(w: Work, a: set<Txid>, early: set<Txid>)
    requires TrackedWork(w, a, early, {})
    ensures Tracked(w.g, a + Ids(w.log), early)
  {
    hide Parents, Ids, Awaits, Wakes, Keyed, NoEmptyInv;
  }

  /** Attaching `tx` with its children queued. */
  lemma AttachTracked(w: Work, a: set<Txid>, early: set<Txid>, rest: set<Txid>, tx: Tx)
    requires TrackedWork(w, a, early, rest + w.queued)
    ensures var w' := IssueStep(w, tx); TrackedWork(w', a, early, rest + w'.queued)
  {
    IdsSnoc(w.log, tx);
    hide Parents, Ids;
    var w' := IssueStep(w, tx);
    assert forall c, p :: Awaits(w'.g, c, p) == Awaits(w.g, c, p);
    assert forall c, p :: Wakes(w'.g, p, c) == (Wakes(w.g, p, c) && p != tx.txid);
    assert forall c :: Wakes(w.g, tx.txid, c) ==> c in w'.queued;
    assert Keyed(w'.g) && NoEmptyInv(w'.g);
    hide Awaits, Wakes, Keyed, NoEmptyInv;
    assert AwaitsOk(w', a, rest + w'.queued);
    assert WakesOk(w', early) by {
      assert forall p :: p in w'.g.inv ==> p in w.g.inv && p != tx.txid;
    }
  }

  lemma WithNoChild(inv: Links, child: Txid)
    ensures WithChild(inv, {}, child) == inv
  {
    assert forall p :: p in inv ==> WithChild(inv, {}, child)[p] == inv[p];
  }

  /** With nothing to wait for, a transfer that is not waiting is attached like an issuance. */
  lemma TransferAttaches(w: Work, storage: set<Txid>, tx: Tx, now: nat)
    requires Keyed(w.g) && At(w.g.deps, tx.txid) + (Parents(tx) - storage - Ids(w.log)) == {}
    ensures TransferStep(w, storage, tx, now) == IssueStep(w, tx)
  {
    hide Parents, Ids;
    var missing := Parents(tx) - storage - Ids(w.log);
    assert missing == {} && tx.txid !in w.g.deps;
    WithNoChild(w.g.inv, tx.txid);
    assert w.g.deps - {tx.txid} == w.g.deps;
  }

  lemma TransferEdges(w: Work, storage: set<Txid>, tx: Tx, now: nat, missing: set<Txid>)
    requires missing == Parents(tx) - storage - Ids(w.log) && At(w.g.deps, tx.txid) + missing != {}
    ensures var g := TransferStep(w, storage, tx, now).g;
            && (forall c, p :: Awaits(g, c, p) <==> Awaits(w.g, c, p) || (c == tx.txid && p in missing))
            && (forall c, p :: Wakes(g, p, c) <==> Wakes(w.g, p, c) || (c == tx.txid && p in missing))
            && (NoEmptyInv(w.g) ==> NoEmptyInv(g))
            && g.inv.Keys == w.g.inv.Keys + missing
  {
    hide Parents, Ids;
  }

  lemma TransferWaits(w: Work, storage: set<Txid>, a: set<Txid>, early: set<Txid>, waking: set<Txid>, tx: Tx, now: nat)
    requires TrackedWork(w, a, early, waking) && Agrees(w.g, tx) && tx.kind.Transfer? && a <= storage
    requires At(w.g.deps, tx.txid) + (Parents(tx) - storage - Ids(w.log)) != {}
    ensures TrackedWork(TransferStep(w, storage, tx, now), a, early, waking)
  {
    hide Parents, Ids, Awaits, Wakes, NoEmptyInv, WithChild;
    var missing := Parents(tx) - storage - Ids(w.log);
    TransferEdges(w, storage, tx, now, missing);
    var w' := TransferStep(w, storage, tx, now);
    assert w'.log == w.log && w'.queued == w.queued && w'.g.stored == w.g.stored[tx.txid := (tx, now)];
    assert Keyed(w'.g);
    hide Keyed, TransferStep;
    assert AwaitsOk(w', a, waking);
    assert WakesOk(w', early);
  }

  /** Delivery of anything but another transfer under a waiting id keeps track. */
  lemma DeliverTracked(w: Work, storage: set<Txid>, a: set<Txid>, early: set<Txid>, tx: Tx, now: nat)
    requires TrackedWork(w, a, early, w.queued) && Agrees(w.g, tx) && Stored(storage, a, early)
    ensures var w' := DeliverStep(w, storage, tx, now); TrackedWork(w', a, early, w'.queued)
  {
    match tx.kind
    case Announcement =>
    case Issue =>
      hide AwaitsOk, WakesOk, NoEmptyInv, IssueStep, Keyed;
      assert {} + w.queued == w.queued;
      AttachTracked(w, a, early, {}, tx);
      assert {} + IssueStep(w, tx).queued == IssueStep(w, tx).queued;
    case Transfer(_) =>
      hide AwaitsOk, WakesOk, NoEmptyInv, TransferStep, IssueStep;
      if At(w.g.deps, tx.txid) + (Parents(tx) - storage - Ids(w.log)) == {} {
        TransferAttaches(w, storage, tx, now);
        assert {} + w.queued == w.queued;
        AttachTracked(w, a, early, {}, tx);
        assert {} + IssueStep(w, tx).queued == IssueStep(w, tx).queued;
      } else {
        TransferWaits(w, storage, a, early, w.queued, tx, now);
        TransferQueue(w, storage, tx, now);
      }
  }

  lemma TransferQueue(w: Work, storage: set<Txid>, tx: Tx, now: nat)
    requires At(w.g.deps, tx.txid) + (Parents(tx) - storage - Ids(w.log)) != {}
    ensures TransferStep(w, storage, tx, now).queued == w.queued
  {
    hide Parents, Ids, WithChild;
  }

  /** Parents that waking drops were attached in this call or are early. */
  lemma DroppedParents(w: Work, storage: set<Txid>, a: set<Txid>, early: set<Txid>, waking: set<Txid>, txid: Txid)
    requires TrackedWork(w, a, early, waking) && Stored(storage, a, early)
    ensures forall p :: Awaits(w.g, txid, p) && (p in storage || p in Ids(w.log)) ==> p in Ids(w.log) || p in early
    ensures forall p :: Wakes(w.g, p, txid) && p !in early ==> p !in storage && p !in Ids(w.log)
  {
    hide Parents, Ids, Awaits, Keyed, NoEmptyInv;
    assert forall p :: Wakes(w.g, p, txid) ==> p in w.g.inv;
    hide Wakes;
  }

  /** Dropping attached parents of a transaction that still waits for others. */
  lemma DropTracked(w: Work, storage: set<Txid>, a: set<Txid>, early: set<Txid>, rest: set<Txid>, txid: Txid)
    requires TrackedWork(w, a, early, rest + w.queued) && Stored(storage, a, early)
    requires At(w.g.deps, txid) - storage - Ids(w.log) != {}
    ensures TrackedWork(WakeStep(w, storage, txid), a, early, rest - {txid} + w.queued)
  {
    DroppedParents(w, storage, a, early, rest + w.queued, txid);
    hide Parents, Ids;
    var ids := Ids(w.log);
    var w' := WakeStep(w, storage, txid);
    assert w'.g == w.g.(deps := w.g.deps[txid := w.g.deps[txid] - storage - ids]);
    assert forall c, p :: Awaits(w'.g, c, p) <==> Awaits(w.g, c, p) && (c == txid ==> p !in storage && p !in ids);
    assert forall c, p :: Wakes(w'.g, p, c) == Wakes(w.g, p, c);
    assert Keyed(w'.g) && NoEmptyInv(w'.g);
    hide Awaits, Wakes, NoEmptyInv, Keyed, WakeStep;
    assert AwaitsOk(w', a, rest - {txid} + w.queued);
    assert WakesOk(w', early);
  }

  /** A waiting transaction with nothing left to wait for is forgotten, ready to be attached. */
  lemma ForgetTracked(w: Work, storage: set<Txid>, a: set<Txid>, early: set<Txid>, rest: set<Txid>, txid: Txid)
    requires TrackedWork(w, a, early, rest + w.queued) && Stored(storage, a, early)
    requires txid in w.g.stored && w.g.deps[txid] - storage - Ids(w.log) == {}
    ensures TrackedWork(w.(g := Graph(w.g.inv, w.g.deps - {txid}, w.g.stored - {txid})), a, early, rest - {txid} + w.queued)
  {
    DroppedParents(w, storage, a, early, rest + w.queued, txid);
    hide Parents, Ids;
    var ids := Ids(w.log);
    var w' := w.(g := Graph(w.g.inv, w.g.deps - {txid}, w.g.stored - {txid}));
    assert forall c, p :: Awaits(w'.g, c, p) <==> Awaits(w.g, c, p) && c != txid;
    assert forall c, p :: Wakes(w'.g, p, c) == Wakes(w.g, p, c);
    assert forall p :: Awaits(w.g, txid, p) ==> p in storage || p in ids by {
      assert forall p :: Awaits(w.g, txid, p) ==> p !in w.g.deps[txid] - storage - ids;
    }
    assert Keyed(w'.g) && NoEmptyInv(w'.g);
    hide Awaits, Wakes, NoEmptyInv, Keyed;
    assert forall p :: Wakes(w.g, p, txid) ==> p in early;
    assert AwaitsOk(w', a, rest - {txid} + w.queued);
    assert WakesOk(w', early);
  }

  lemma WakeTracked(w: Work, storage: set<Txid>, a: set<Txid>, early: set<Txid>, rest: set<Txid>, txid: Txid)
    requires TrackedWork(w, a, early, rest + w.queued) && Stored(storage, a, early)
    ensures var w' := WakeStep(w, storage, txid); TrackedWork(w', a, early, rest - {txid} + w'.queued)
  {
    hide Parents, Ids, NoEmptyInv, AwaitsOk, WakesOk;
    if At(w.g.deps, txid) - storage - Ids(w.log) != {} {
      DropTracked(w, storage, a, early, rest, txid);
    } else if txid in w.g.stored {
      var tx := w.g.stored[txid].0;
      var w' := w.(g := Graph(w.g.inv, w.g.deps - {txid}, w.g.stored - {txid}));
      ForgetTracked(w, storage, a, early, rest, txid);
      assert WakeStep(w, storage, txid) == IssueStep(w', tx) by {
        assert w.g.deps[txid := {}] - {txid} == w.g.deps - {txid};
      }
      hide WakeStep, IssueStep, Keyed;
      AttachTracked(w', a, early, rest - {txid}, tx);
    } else {
      assert WakeStep(w, storage, txid) == w;
      UnlistedIdle(w, a, early, rest, txid);
    }
  }

  /** A queued transaction that is not waiting any more needs no waking. */
  lemma UnlistedIdle(w: Work, a: set<Txid>, early: set<Txid>, rest: set<Txid>, txid: Txid)
    requires TrackedWork(w, a, early, rest + w.queued) && txid !in w.g.stored
    ensures TrackedWork(w, a, early, rest - {txid} + w.queued)
  {
    hide Parents, Ids, Awaits, Wakes, Keyed, NoEmptyInv, WakesOk;
    assert AwaitsOk(w, a, rest - {txid} + w.queued);
  }
}
