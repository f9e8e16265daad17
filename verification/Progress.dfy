/** A transaction that passes its checks gets through the node: some schedule of its services stores it. */
module Progress {
  import opened Numbers
  import opened Options
  import opened Pages
  import opened TokenRules
  import opened TxChecker
  import opened TokenVerdicts
  import opened Controller
  import C = ControllerLaws
  import opened KeyOrder
  import opened Pipeline

  /** An attached delivery handled in full stores every id it names, with the transaction the mempool had. */
  lemma AttachedDelivered(n: Node, a: Action, env: Env)
    requires Safe(n, env.config) && Delivers(n, a) && n.store.bus[a.index].AttachedTxs?
    requires var ids := n.store.bus[a.index].ids;
             C.AllKnown(n.store, ids, |ids|) && C.AllDistinct(ids, |ids|) && a.cut > |ids|
    ensures var s, s', ids := n.store, Next(n, a, env).store, n.store.bus[a.index].ids;
            && (forall i :: 0 <= i < |ids| ==>
                  ids[i] in s'.txs && s'.txs[ids[i]] == s.mempool[ids[i]].tx && ids[i] !in s'.mempool && ids[i] !in s'.raw)
            && Concat(s'.pages) == Concat(s.pages) + ids
            && (forall id :: id !in ids ==> (id in s'.txs <==> id in s.txs) && (id in s.txs ==> s'.txs[id] == s.txs[id]))
            && (forall id :: id !in ids ==> (id in s'.mempool <==> id in s.mempool) && (id in s.mempool ==> s'.mempool[id] == s.mempool[id]))
  {
    var ids := n.store.bus[a.index].ids;
    var s := n.store.(bus := n.store.bus[..a.index] + n.store.bus[a.index + 1..]);
    assert C.OwnIds(s);
    hide C.AllDistinct, StoredAttached, C.NotIn, WellPaged;
    C.AttachedStored(s, ids, a.cut, env.config);
    forall i | 0 <= i < |ids|
      ensures ids[i] !in Next(n, a, env).store.raw
    {
      C.WithoutPicks(s.raw, IdSet(ids));
      C.WithoutHas(s.raw, IdSet(ids), ids[i]);
    }
    hide Safe;
  }

  // ---- One transaction, step by step ----

  /** `n'` has the same token state as `n`, a mempool entry for `tx` and one message to deliver. */
  ghost predicate At(n: Node, n': Node, tx: Tx, status: Status, bus: seq<Message>) {
    && n'.store.txs == n.store.txs && n'.chromas == n.chromas && n'.frozen == n.frozen && n'.store.bus == bus
    && tx.txid in n'.store.mempool && n'.store.mempool[tx.txid] == Entry(tx, status)
  }

  lemma SubmittedAt(n: Node, tx: Tx, env: Env)
    requires n.store.bus == [] && tx.txid !in n.store.mempool && tx.txid !in n.store.txs
    ensures At(n, Next(n, Submit([tx], 1), env), tx, Initialized, [IsolatedCheck([tx])])
  {
    assert Registered(n.store, [tx], 0) == (n.store, []);
    assert [] + [tx] == [tx];
  }

  /** Delivers the only message. */
  ghost function Delivered(n: Node, m: Message, cut: nat, env: Env): Node {
    Handle(n.(store := n.store.(bus := [])), m, cut, env)
  }

  lemma DeliverOnly(n: Node, m: Message, cut: nat, env: Env)
    requires n.store.bus == [m]
    ensures Next(n, Deliver(0, cut), env) == Delivered(n, m, cut, env)
  {
    hide Handle;
    assert [m][..0] + [m][1..] == [];
  }

  lemma CheckedAt(n: Node, n': Node, tx: Tx, env: Env)
    requires At(n, n', tx, Initialized, [IsolatedCheck([tx])]) && env.valid(tx)
    ensures At(n, Next(n', Deliver(0, 1), env), tx, Initialized, [PartiallyChecked([tx.txid])])
  {
    DeliverOnly(n', IsolatedCheck([tx]), 1, env);
    assert [tx][..0] == [] && Passing([], env.valid, true) == [] && Passing([], env.valid, false) == [];
    assert Passing([tx], env.valid, true) == [tx.txid] && Passing([tx], env.valid, false) == [];
    hide Passing;
  }

  lemma MarkedOne(s: Store, id: Txid, status: Status)
    requires id in s.mempool
    ensures Marked(s, [id], status, 1) == (s.(mempool := s.mempool[id := s.mempool[id].(status := status)]), true)
  {
    assert Marked(s, [id], status, 0) == (s, true);
  }

  lemma WaitsAt(n: Node, n': Node, tx: Tx, env: Env)
    requires At(n, n', tx, Initialized, [PartiallyChecked([tx.txid])])
    ensures At(n, Next(n', Deliver(0, 1), env), tx, WaitingMined, [ToConfirm([tx.txid])])
  {
    DeliverOnly(n', PartiallyChecked([tx.txid]), 1, env);
    MarkedOne(n'.store.(bus := []), tx.txid, WaitingMined);
    hide Marked;
  }

  lemma ConfirmingAt(n: Node, n': Node, tx: Tx, env: Env)
    requires At(n, n', tx, WaitingMined, [ToConfirm([tx.txid])])
    ensures var n2 := Next(n', Deliver(0, 1), env); At(n, n2, tx, WaitingMined, []) && tx.txid in n2.confirming
  {
    DeliverOnly(n', ToConfirm([tx.txid]), 1, env);
  }

  lemma MinedAt(n: Node, n': Node, tx: Tx, env: Env)
    requires At(n, n', tx, WaitingMined, []) && tx.txid in n'.confirming
    ensures var n2 := Next(Next(n', ReportMined([tx.txid]), env), Deliver(0, 1), env);
            At(n, n2, tx, Mined, []) && tx.txid in n2.confirming
  {
    var m := MinedTxs([tx.txid]);
    var n1 := Next(n', ReportMined([tx.txid]), env);
    assert n1 == n'.(store := Send(n'.store, m));
    DeliverOnly(n1, m, 1, env);
    MarkedOne(n1.store.(bus := []), tx.txid, Mined);
    hide Marked, Shared, Tail;
  }

  lemma ConfirmedAt(n: Node, n': Node, tx: Tx, env: Env)
    requires At(n, n', tx, Mined, []) && tx.txid in n'.confirming
    ensures At(n, Next(Next(n', ReportConfirmed([tx.txid]), env), Deliver(0, 1), env), tx, Mined, [FullCheck([tx])])
  {
    var m := ConfirmedTxs([tx.txid]);
    var n1 := Next(n', ReportConfirmed([tx.txid]), env);
    assert n1.store == Send(n'.store, m);
    DeliverOnly(n1, m, 1, env);
    var s := n1.store.(bus := []);
    assert Looked(s, [tx.txid], 0) == Some(([], []));
    assert Looked(s, [tx.txid], 1) == if tx.kind.Announce? then Some(([] + [tx], [])) else Some(([], [] + [tx]));
    assert [] + [tx] == [tx] == [tx] + [];
    hide Looked;
  }

  ghost function LedgerOf(n: Node): Ledger {
    Ledger(n.store.txs, n.chromas, n.frozen)
  }

  lemma OneChecked(l: Ledger, tx: Tx, signed: Signature)
    requires Allows(l, tx, signed)
    ensures CheckPrefix(l, [tx], 1, signed) == Batch(false, CheckTx(l, tx, signed).1, map[tx.txid := tx], [])
    ensures ByKey(map[tx.txid := tx]) == [tx]
  {
    VerdictIff(l, tx, signed);
    hide CheckTx, Allows;
    assert CheckPrefix(l, [tx], 0, signed) == Batch(false, l, map[], []);
    OneEntry(tx.txid, tx);
  }

  lemma OneEntry(id: Txid, tx: Tx)
    ensures Entries(map[id := tx]) == [(id, tx)]
  {
    var m := map[id := tx];
    EntriesOf(m);
    assert m.Keys == {id};
  }

  /** After the full check: what remains is the entry, marked as mined, and the message about it. */
  ghost predicate Accepted(n': Node, tx: Tx) {
    && n'.store.bus == [FullyChecked([tx])]
    && tx.txid in n'.store.mempool && n'.store.mempool[tx.txid] == Entry(tx, Mined)
  }

  lemma AcceptedAfter(n: Node, n': Node, tx: Tx, env: Env)
    requires At(n, n', tx, Mined, [FullCheck([tx])]) && Allows(LedgerOf(n), tx, env.signed)
    ensures Accepted(Next(n', Deliver(0, 1), env), tx)
  {
    DeliverOnly(n', FullCheck([tx]), 1, env);
    hide Allows, CheckTx;
    OneChecked(LedgerOf(n), tx, env.signed);
    hide CheckPrefix, ByKey;
  }

  /** The transaction is stored, under its id, and has left the mempool. */
  ghost predicate Stored(n: Node, tx: Tx) {
    tx.txid in n.store.txs && n.store.txs[tx.txid] == tx && tx.txid !in n.store.mempool && tx.txid !in n.store.raw
  }

  lemma AnnouncementStored(n: Node, tx: Tx, env: Env)
    requires Accepted(n, tx) && tx.kind.Announce?
    ensures Stored(Next(n, Deliver(0, 3), env), tx)
  {
    DeliverOnly(n, FullyChecked([tx]), 3, env);
    var s := n.store.(bus := []);
    hide Chunked, Without;
    assert FullySorted(s, [tx], 0) == Sorted(s, true, [], []);
    assert FullySorted(s, [tx], 1) == Sorted(s, true, [] + [tx], []);
    assert [] + [tx] == [tx];
    var s' := s.(pages := Chunked(s.pages, TxIds([tx]), env.config.perPage));
    assert Announced(s', [tx], 0) == s';
    C.WithoutHas(s.raw, {tx.txid}, tx.txid);
  }

  lemma AttachingAt(n: Node, tx: Tx, env: Env)
    requires Accepted(n, tx) && !tx.kind.Announce?
    ensures var n2 := Next(Next(n, Deliver(0, 3), env), Deliver(0, 1), env);
            && n2.store.bus == [] && tx.txid in n2.attaching
            && tx.txid in n2.store.mempool && n2.store.mempool[tx.txid] == Entry(tx, Attaching)
  {
    DeliverOnly(n, FullyChecked([tx]), 3, env);
    var s := n.store.(bus := []);
    assert FullySorted(s, [tx], 0) == Sorted(s, true, [], []);
    var s' := s.(mempool := s.mempool[tx.txid := Entry(tx, Attaching)]);
    assert FullySorted(s, [tx], 1) == Sorted(s', true, [], [] + [tx]);
    assert [] + [tx] == [tx];
    hide FullySorted;
    var n1 := Next(n, Deliver(0, 3), env);
    assert n1.store == Send(s', CheckedTxs([tx]));
    DeliverOnly(n1, CheckedTxs([tx]), 1, env);
    assert TxIds([tx]) == [tx.txid];
  }

  lemma AttachedAt(n: Node, tx: Tx, env: Env)
    requires n.store.bus == [] && tx.txid in n.attaching
    requires tx.txid in n.store.mempool && n.store.mempool[tx.txid] == Entry(tx, Attaching)
    ensures Stored(Next(Next(n, ReportAttached([tx.txid]), env), Deliver(0, 2), env), tx)
  {
    var m := AttachedTxs([tx.txid]);
    var n1 := Next(n, ReportAttached([tx.txid]), env);
    assert n1.store == Send(n.store, m);
    DeliverOnly(n1, m, 2, env);
    var s := n1.store.(bus := []);
    hide Chunked, Without;
    assert Attached(s, [tx.txid], 0) == (s, true);
    C.WithoutHas(s.raw, IdSet([tx.txid]), tx.txid);
  }

  // ---- A transaction that does not pass ----

  /** The node has forgotten the transaction. */
  ghost predicate Forgotten(n: Node, id: Txid) {
    id !in n.store.mempool && id !in n.store.raw && id !in n.store.txs
  }

  lemma InvalidForgets(n: Node, id: Txid, env: Env)
    requires n.store.bus == [InvalidTxs([id])] && id !in n.store.txs
    ensures Forgotten(Next(n, Deliver(0, 1), env), id)
  {
    DeliverOnly(n, InvalidTxs([id]), 1, env);
    C.WithoutHas(n.store.raw, IdSet([id]), id);
    assert [id][..1] == [id];
    hide Without;
  }

  /** Submitted and found invalid by the isolated check, it is forgotten. */
  lemma InvalidRejected(n: Node, tx: Tx, env: Env)
    requires n.store.bus == [] && tx.txid !in n.store.mempool && tx.txid !in n.store.txs && !env.valid(tx)
    ensures var n2 := Next(Next(n, Submit([tx], 1), env), Deliver(0, 1), env);
            Forgotten(Next(n2, Deliver(0, 1), env), tx.txid)
  {
    var n1 := Next(n, Submit([tx], 1), env);
    SubmittedAt(n, tx, env);
    DeliverOnly(n1, IsolatedCheck([tx]), 1, env);
    assert [tx][..0] == [] && Passing([], env.valid, true) == [] && Passing([], env.valid, false) == [];
    assert Passing([tx], env.valid, true) == [] && Passing([tx], env.valid, false) == [tx.txid];
    hide Passing, Registered;
    InvalidForgets(Next(n1, Deliver(0, 1), env), tx.txid, env);
  }

  /** Rejected by the full check, it is forgotten too. */
  lemma RuleBreakerRejected(n: Node, n': Node, tx: Tx, env: Env)
    requires At(n, n', tx, Mined, [FullCheck([tx])]) && tx.txid !in n.store.txs
    requires !Allows(LedgerOf(n), tx, env.signed) && !Breaks(LedgerOf(n), tx, env.signed)
    ensures Forgotten(Next(Next(n', Deliver(0, 1), env), Deliver(0, 1), env), tx.txid)
  {
    DeliverOnly(n', FullCheck([tx]), 1, env);
    var l := LedgerOf(n);
    VerdictIff(l, tx, env.signed);
    StoredAfter(l, Check(tx), env.signed, tx.txid);
    hide CheckTx, Allows, Breaks;
    assert CheckPrefix(l, [tx], 0, env.signed) == Batch(false, l, map[], []);
    assert CheckPrefix(l, [tx], 1, env.signed) == Batch(false, CheckTx(l, tx, env.signed).1, map[], [] + [tx]);
    assert [] + [tx] == [tx] && TxIds([tx]) == [tx.txid];
    hide CheckPrefix;
    InvalidForgets(Next(n', Deliver(0, 1), env), tx.txid, env);
  }

  // ---- The whole way ----

  function Continued(n: Node, actions: seq<Action>, env: Env): Node
    decreases |actions|
  {
    if actions == [] then n else Continued(Next(n, actions[0], env), actions[1..], env)
  }

  lemma {:induction false} RunContinued(prev: seq<Action>, actions: seq<Action>, env: Env)
    ensures RunNode(prev + actions, env) == Continued(RunNode(prev, env), actions, env)
    decreases |actions|
  {
    hide Next;
    if actions == [] {
      assert prev + actions == prev;
    } else {
      assert prev + actions == (prev + [actions[0]]) + actions[1..];
      assert (prev + [actions[0]])[..|prev|] == prev;
      RunContinued(prev + [actions[0]], actions[1..], env);
    }
  }

  ghost function ToFullCheck(tx: Tx): seq<Action> {
    [Submit([tx], 1), Deliver(0, 1), Deliver(0, 1), Deliver(0, 1), ReportMined([tx.txid]), Deliver(0, 1),
     ReportConfirmed([tx.txid]), Deliver(0, 1), Deliver(0, 1)]
  }

  ghost function ToStorage(tx: Tx): seq<Action> {
    if tx.kind.Announce? then [Deliver(0, 3)]
    else [Deliver(0, 3), Deliver(0, 1), ReportAttached([tx.txid]), Deliver(0, 2)]
  }

  lemma FirstHalf(n: Node, tx: Tx, env: Env)
    requires n.store.bus == [] && tx.txid !in n.store.mempool && tx.txid !in n.store.txs
    requires env.valid(tx) && Allows(LedgerOf(n), tx, env.signed)
    ensures Accepted(Continued(n, ToFullCheck(tx), env), tx)
  {
    hide Next, Allows, At, Accepted;
    var n1 := Next(n, Submit([tx], 1), env);
    SubmittedAt(n, tx, env);
    var n2 := Next(n1, Deliver(0, 1), env);
    CheckedAt(n, n1, tx, env);
    var n3 := Next(n2, Deliver(0, 1), env);
    WaitsAt(n, n2, tx, env);
    var n4 := Next(n3, Deliver(0, 1), env);
    ConfirmingAt(n, n3, tx, env);
    var n5 := Next(n4, ReportMined([tx.txid]), env);
    var n6 := Next(n5, Deliver(0, 1), env);
    MinedAt(n, n4, tx, env);
    var n7 := Next(n6, ReportConfirmed([tx.txid]), env);
    var n8 := Next(n7, Deliver(0, 1), env);
    ConfirmedAt(n, n6, tx, env);
    AcceptedAfter(n, n8, tx, env);
    var a := ToFullCheck(tx);
    Unrolled(n, a, env);
    Unrolled(n1, a[1..], env);
    Unrolled(n2, a[2..], env);
    Unrolled(n3, a[3..], env);
    Unrolled(n4, a[4..], env);
    Unrolled(n5, a[5..], env);
    Unrolled(n6, a[6..], env);
    Unrolled(n7, a[7..], env);
    Unrolled(n8, a[8..], env);
    assert a[9..] == [];
    assert Continued(Next(n8, Deliver(0, 1), env), [], env) == Next(n8, Deliver(0, 1), env);
  }

  lemma Unrolled(n: Node, actions: seq<Action>, env: Env)
    requires actions != []
    ensures Continued(n, actions, env) == Continued(Next(n, actions[0], env), actions[1..], env)
  {
    hide Next;
  }

  lemma SecondHalf(n: Node, tx: Tx, env: Env)
    requires Accepted(n, tx)
    ensures Stored(Continued(n, ToStorage(tx), env), tx)
  {
    hide Next, Accepted, Stored;
    var a := ToStorage(tx);
    var n1 := Next(n, Deliver(0, 3), env);
    Unrolled(n, a, env);
    if tx.kind.Announce? {
      AnnouncementStored(n, tx, env);
      assert a[1..] == [];
      assert Continued(n1, [], env) == n1;
    } else {
      var n2 := Next(n1, Deliver(0, 1), env);
      AttachingAt(n, tx, env);
      AttachedAt(n2, tx, env);
      var n3 := Next(n2, ReportAttached([tx.txid]), env);
      Unrolled(n1, a[1..], env);
      Unrolled(n2, a[2..], env);
      Unrolled(n3, a[3..], env);
      assert a[4..] == [];
      assert Continued(Next(n3, Deliver(0, 2), env), [], env) == Next(n3, Deliver(0, 2), env);
    }
  }

  /**
   From every reachable state without pending messages: a transaction the node does not know, that
   passes the isolated check and that the token rules allow, is stored by some continuation.
   */
  lemma GetsThrough(prev: seq<Action>, tx: Tx, env: Env) returns (actions: seq<Action>)
    requires var n := RunNode(prev, env);
             && n.store.bus == [] && tx.txid !in n.store.mempool && tx.txid !in n.store.txs
             && env.valid(tx) && Allows(LedgerOf(n), tx, env.signed)
    ensures Stored(RunNode(prev + actions, env), tx)
  {
    hide Allows, Continued, Next, Accepted, Stored;
    var first, second := ToFullCheck(tx), ToStorage(tx);
    actions := first + second;
    FirstHalf(RunNode(prev, env), tx, env);
    RunContinued(prev, first, env);
    SecondHalf(RunNode(prev + first, env), tx, env);
    RunContinued(prev + first, second, env);
    assert prev + actions == prev + first + second;
  }
}
