/**
 The node as a whole: controller, checker, confirmator and graph builder exchanging messages
 (the sequence of `docs/README.md`), with restarts.

 Messages may be delivered in any order. The confirmator and the graph builder may report any
 transactions they were handed since the last restart, which covers all they do.
 */
module Pipeline {
  import opened Options
  import opened Pages
  import opened TokenRules
  import opened Controller
  import opened KeyOrder
  import opened Numbers
  import opened TxChecker

  /** The ids that have passed the isolated check, were reported confirmed, passed the full check. */
  datatype History = History(isolated: set<Txid>, confirmed: set<Txid>, full: set<Txid>)

  datatype Node = Node(
    store: Store,
    chromas: map<Chroma, ChromaInfo>,
    frozen: map<OutPoint, FreezeEntry>,
    confirming: set<Txid>,
    attaching: set<Txid>,
    history: History)

  /** The configuration of the node, its signature checks and its isolated check. */
  datatype Env = Env(config: Config, signed: Signature, valid: Tx -> bool)

  datatype Action =
    | Submit(txs: seq<Tx>, cut: nat)
    | Deliver(index: nat, cut: nat)
    | ReportMined(ids: seq<Txid>)
    | ReportConfirmed(ids: seq<Txid>)
    | ReportReorg(ids: seq<Txid>, height: int)
    | ReportAttached(ids: seq<Txid>)
    | Restart(cut: nat)

  function EmptyNode(): Node {
    Node(Store.Store([], map[], map[], [[]], [], []), map[], map[], {}, {}, History({}, {}, {}))
  }

  // ---- The checker ----

  function Passing(txs: seq<Tx>, valid: Tx -> bool, want: bool): seq<Txid> {
    if txs == [] then [] else
    var rest := Passing(txs[..|txs| - 1], valid, want);
    var tx := txs[|txs| - 1];
    if valid(tx) == want then rest + [tx.txid] else rest
  }

  /** `check_txs_isolated`. */
  function CheckIsolated(n: Node, txs: seq<Tx>, valid: Tx -> bool): Node {
    var passed := Passing(txs, valid, true);
    var failed := Passing(txs, valid, false);
    var s := if passed == [] then n.store else Send(n.store, PartiallyChecked(passed));
    var s' := if failed == [] then s else Send(s, InvalidTxs(failed));
    n.(store := s', history := n.history.(isolated := n.history.isolated + IdSet(passed)))
  }

  /** The values of a map in the order of its keys. */
  function ByKey(m: map<Txid, Tx>): seq<Tx> {
    var entries := Entries(m);
    seq(|entries|, i requires 0 <= i < |entries| => entries[i].1)
  }

  /** `check_txs_full`; the check of the transaction in round `cut` may fail. */
  function CheckFull(n: Node, txs: seq<Tx>, cut: nat, signed: Signature): Node {
    var b := CheckPrefix(Ledger(n.store.txs, n.chromas, n.frozen), txs, Least(cut, |txs|), signed);
    var s := n.store.(txs := b.ledger.txs);
    var n' := n.(chromas := b.ledger.chromas, frozen := b.ledger.frozen,
                 history := n.history.(full := n.history.full + b.checked.Keys));
    if b.failed || cut < |txs| then n'.(store := s) else
    var s' := if b.checked == map[] then s else Send(s, FullyChecked(ByKey(b.checked)));
    n'.(store := if b.invalid == [] then s' else Send(s', InvalidTxs(TxIds(b.invalid))))
  }

  // ---- Steps ----

  function Handle(n: Node, m: Message, cut: nat, env: Env): Node {
    match m
    case IsolatedCheck(txs) => CheckIsolated(n, txs, env.valid)
    case FullCheck(txs) => CheckFull(n, txs, cut, env.signed)
    case ToConfirm(ids) => n.(confirming := n.confirming + IdSet(ids))
    case CheckedTxs(txs) => n.(attaching := n.attaching + IdSet(TxIds(txs)))
    case PartiallyChecked(ids) => n.(store := Waiting(n.store, ids, cut))
    case MinedTxs(ids) => n.(store := MarkedMined(n.store, ids, cut, env.config))
    case ConfirmedTxs(ids) => n.(store := Confirmed(n.store, ids, cut))
    case FullyChecked(txs) => n.(store := FullyCheckedTxs(n.store, txs, cut, env.config))
    case Reorganization(ids, height) => n.(store := Reorganized(n.store, ids, height, cut))
    case AttachedTxs(ids) => n.(store := StoredAttached(n.store, ids, cut, env.config))
    case InvalidTxs(ids) => n.(store := Invalid(n.store, ids, cut))
    case Reindex(_) => n
  }

  function Next(n: Node, a: Action, env: Env): Node {
    match a
    case Submit(txs, cut) => n.(store := NewTxs(n.store, txs, cut))
    case Deliver(i, cut) =>
      if i >= |n.store.bus| then n else
      Handle(n.(store := n.store.(bus := n.store.bus[..i] + n.store.bus[i + 1..])), n.store.bus[i], cut, env)
    case ReportMined(ids) =>
      if IdSet(ids) <= n.confirming then n.(store := Send(n.store, MinedTxs(ids))) else n
    case ReportConfirmed(ids) =>
      if IdSet(ids) <= n.confirming then
        n.(store := Send(n.store, ConfirmedTxs(ids)),
           history := n.history.(confirmed := n.history.confirmed + IdSet(ids)))
      else n
    case ReportReorg(ids, height) =>
      if IdSet(ids) <= n.confirming then n.(store := Send(n.store, Reorganization(ids, height))) else n
    case ReportAttached(ids) =>
      if IdSet(ids) <= n.attaching then n.(store := Send(n.store, AttachedTxs(ids))) else n
    case Restart(cut) =>
      n.(store := MempoolTxs(n.store.(bus := []), cut), confirming := {}, attaching := {})
  }

  function RunNode(actions: seq<Action>, env: Env): Node {
    if actions == [] then EmptyNode() else
    Next(RunNode(actions[..|actions| - 1], env), actions[|actions| - 1], env)
  }

  // ---- The invariant ----

  ghost predicate IdsIn(ids: seq<Txid>, s: set<Txid>) {
    forall i :: 0 <= i < |ids| ==> ids[i] in s
  }

  ghost predicate TxsIn(txs: seq<Tx>, s: set<Txid>) {
    forall i :: 0 <= i < |txs| ==> txs[i].txid in s
  }

  /** What a message in flight tells about the ids it carries. */
  ghost predicate MessageOk(h: History, m: Message) {
    match m
    case PartiallyChecked(ids) => IdsIn(ids, h.isolated)
    case ToConfirm(ids) => IdsIn(ids, h.isolated)
    case MinedTxs(ids) => IdsIn(ids, h.isolated)
    case Reorganization(ids, _) => IdsIn(ids, h.isolated)
    case ConfirmedTxs(ids) => IdsIn(ids, h.confirmed)
    case FullCheck(txs) => TxsIn(txs, h.confirmed)
    case FullyChecked(txs) => TxsIn(txs, h.full)
    case CheckedTxs(txs) => TxsIn(txs, h.full)
    case AttachedTxs(ids) => IdsIn(ids, h.full)
    case _ => true
  }

  ghost predicate EntryOk(h: History, id: Txid, e: Entry) {
    && e.tx.txid == id
    && match e.status
       case Initialized => true
       case Attaching => id in h.full
       case _ => id in h.isolated
  }

  ghost predicate MempoolOk(h: History, mempool: map<Txid, Entry>) {
    forall id :: id in mempool ==> EntryOk(h, id, mempool[id])
  }

  ghost predicate BusOk(h: History, bus: seq<Message>) {
    forall i :: 0 <= i < |bus| ==> MessageOk(h, bus[i])
  }

  ghost predicate StoreOk(h: History, s: Store) {
    MempoolOk(h, s.mempool) && BusOk(h, s.bus) && s.txs.Keys <= h.full
  }

  /** Recorded ids passed all checks, shared ones the isolated check; all pages but the last are full. */
  ghost predicate RecordsOk(h: History, s: Store, config: Config) {
    && WellPaged(s.pages, config.perPage) && IdsIn(Concat(s.pages), h.full)
    && |s.inventory| <= config.maxInv && IdsIn(s.inventory, h.isolated)
  }

  ghost predicate Ordered(h: History) {
    h.full <= h.confirmed <= h.isolated
  }

  ghost predicate Safe(n: Node, config: Config) {
    && Ordered(n.history) && StoreOk(n.history, n.store) && RecordsOk(n.history, n.store, config)
    && n.confirming <= n.history.isolated && n.attaching <= n.history.full
  }

  // ---- What the controller keeps ----

  lemma {:induction false} RegisteredSafe(h: History, s: Store, txs: seq<Tx>, n: nat)
    requires n <= |txs| && StoreOk(h, s)
    ensures StoreOk(h, Registered(s, txs, n).0)
  {
    if n > 0 {
      RegisteredSafe(h, s, txs, n - 1);
    }
  }

  lemma {:induction false} MarkedSafe(h: History, s: Store, ids: seq<Txid>, status: Status, n: nat)
    requires n <= |ids| && StoreOk(h, s) && IdsIn(ids, h.isolated) && (status == WaitingMined || status == Mined)
    ensures StoreOk(h, Marked(s, ids, status, n).0)
  {
    if n > 0 {
      MarkedSafe(h, s, ids, status, n - 1);
    }
  }

  lemma {:induction false} LookedSafe(h: History, s: Store, ids: seq<Txid>, n: nat)
    requires n <= |ids| && StoreOk(h, s) && IdsIn(ids, h.confirmed)
    ensures var found := Looked(s, ids, n);
            found.Some? ==> TxsIn(found.value.0, h.confirmed) && TxsIn(found.value.1, h.confirmed)
  {
    if n > 0 {
      LookedSafe(h, s, ids, n - 1);
      assert ids[n - 1] in s.mempool ==> EntryOk(h, ids[n - 1], s.mempool[ids[n - 1]]);
    }
  }

  lemma {:induction false} SortedSafe(h: History, s: Store, txs: seq<Tx>, n: nat)
    requires n <= |txs| && StoreOk(h, s) && TxsIn(txs, h.full)
    ensures var r := FullySorted(s, txs, n);
            StoreOk(h, r.store) && TxsIn(r.announcements, h.full) && TxsIn(r.others, h.full)
  {
    if n > 0 {
      SortedSafe(h, s, txs, n - 1);
    }
  }

  lemma {:induction false} AnnouncedSafe(h: History, s: Store, txs: seq<Tx>, n: nat)
    requires n <= |txs| && StoreOk(h, s) && TxsIn(txs, h.full)
    ensures StoreOk(h, Announced(s, txs, n))
  {
    if n > 0 {
      AnnouncedSafe(h, s, txs, n - 1);
    }
  }

  lemma {:induction false} AttachedSafe(h: History, s: Store, ids: seq<Txid>, n: nat)
    requires n <= |ids| && StoreOk(h, s) && IdsIn(ids, h.full)
    ensures StoreOk(h, Attached(s, ids, n).0)
  {
    if n > 0 {
      AttachedSafe(h, s, ids, n - 1);
    }
  }

  lemma {:induction false} ResumedSafe(h: History, s: Store, n: nat)
    requires n <= |s.raw| && StoreOk(h, s)
    ensures StoreOk(h, Resumed(s, n).0)
  {
    if n > 0 {
      ResumedSafe(h, s, n - 1);
      var id := s.raw[n - 1];
      if id in s.mempool {
        assert EntryOk(h, id, s.mempool[id]);
        assert MessageOk(h, ResumeMessage(id, s.mempool[id]));
      }
    }
  }

  lemma ControllerSafe(h: History, s: Store, m: Message, cut: nat, config: Config)
    requires StoreOk(h, s) && MessageOk(h, m)
    ensures m.PartiallyChecked? ==> StoreOk(h, Waiting(s, m.ids, cut))
    ensures m.MinedTxs? ==> StoreOk(h, MarkedMined(s, m.ids, cut, config))
    ensures m.ConfirmedTxs? ==> StoreOk(h, Confirmed(s, m.ids, cut))
    ensures m.FullyChecked? ==> StoreOk(h, FullyCheckedTxs(s, m.txs, cut, config))
    ensures m.Reorganization? ==> StoreOk(h, Reorganized(s, m.ids, m.height, cut))
    ensures m.AttachedTxs? ==> StoreOk(h, StoredAttached(s, m.ids, cut, config))
    ensures m.InvalidTxs? ==> StoreOk(h, Invalid(s, m.ids, cut))
  {
    hide Marked, Looked, FullySorted, Announced, Attached, Chunked, Tail, Shared, Without;
    match m
    case PartiallyChecked(ids) =>
      MarkedSafe(h, s, ids, WaitingMined, Least(cut, |ids|));
    case MinedTxs(ids) =>
      MarkedSafe(h, s, ids, Mined, Least(cut, |ids|));
    case Reorganization(ids, height) =>
      MarkedSafe(h, Send(s, Reindex(height)), ids, WaitingMined, Least(cut, |ids|));
    case ConfirmedTxs(ids) =>
      LookedSafe(h, s, ids, |ids|);
    case FullyChecked(txs) =>
      SortedSafe(h, s, txs, Least(cut, |txs|));
      var r := FullySorted(s, txs, Least(cut, |txs|));
      if cut > |txs| {
        var pages := Chunked(r.store.pages, TxIds(r.announcements), config.perPage);
        AnnouncedSafe(h, r.store.(pages := pages), r.announcements, Least(cut - |txs| - 1, |r.announcements|));
      }
    case AttachedTxs(ids) =>
      AttachedSafe(h, s, ids, Least(cut, |ids|));
    case _ =>
  }

  // ---- What is recorded ----

  ghost predicate SameRecords(s: Store, s': Store) {
    s.pages == s'.pages && s.inventory == s'.inventory
  }

  lemma {:induction false} RegisteredRecords(s: Store, txs: seq<Tx>, n: nat)
    requires n <= |txs|
    ensures SameRecords(s, Registered(s, txs, n).0)
  {
    if n > 0 {
      RegisteredRecords(s, txs, n - 1);
    }
  }

  lemma {:induction false} MarkedRecords(s: Store, ids: seq<Txid>, status: Status, n: nat)
    requires n <= |ids|
    ensures SameRecords(s, Marked(s, ids, status, n).0)
  {
    if n > 0 {
      MarkedRecords(s, ids, status, n - 1);
    }
  }

  lemma {:induction false} SortedRecords(s: Store, txs: seq<Tx>, n: nat)
    requires n <= |txs|
    ensures SameRecords(s, FullySorted(s, txs, n).store)
  {
    if n > 0 {
      SortedRecords(s, txs, n - 1);
    }
  }

  lemma {:induction false} AnnouncedRecords(s: Store, txs: seq<Tx>, n: nat)
    requires n <= |txs|
    ensures SameRecords(s, Announced(s, txs, n))
  {
    if n > 0 {
      AnnouncedRecords(s, txs, n - 1);
    }
  }

  lemma {:induction false} AttachedRecords(s: Store, ids: seq<Txid>, n: nat)
    requires n <= |ids|
    ensures SameRecords(s, Attached(s, ids, n).0)
  {
    if n > 0 {
      AttachedRecords(s, ids, n - 1);
    }
  }

  lemma {:induction false} ResumedRecords(s: Store, n: nat)
    requires n <= |s.raw|
    ensures SameRecords(s, Resumed(s, n).0)
  {
    if n > 0 {
      ResumedRecords(s, n - 1);
    }
  }

  lemma {:induction false} SharedWithin(mempool: map<Txid, Entry>, ids: seq<Txid>, s: set<Txid>)
    requires IdsIn(ids, s)
    ensures IdsIn(Shared(mempool, ids), s)
  {
    if ids != [] {
      SharedWithin(mempool, ids[..|ids| - 1], s);
    }
  }

  /** Recording a batch of ids that passed all checks. */
  lemma RecordedOk(h: History, s: Store, ids: seq<Txid>, config: Config)
    requires RecordsOk(h, s, config) && IdsIn(ids, h.full)
    ensures RecordsOk(h, s.(pages := Chunked(s.pages, ids, config.perPage)), config)
  {
    ChunkedPaged(s.pages, ids, config.perPage);
    hide WellPaged, Chunked, Concat;
  }

  lemma SharedOk(h: History, s: Store, ids: seq<Txid>, config: Config)
    requires RecordsOk(h, s, config) && IdsIn(ids, h.isolated)
    ensures RecordsOk(h, s.(inventory := Tail(s.inventory + ids, config.maxInv)), config)
  {
    hide WellPaged, Concat;
  }

  lemma RecordsLike(h: History, s: Store, s': Store, config: Config)
    requires RecordsOk(h, s, config) && SameRecords(s, s')
    ensures RecordsOk(h, s', config)
  {
  }

  lemma ControllerRecords(h: History, s: Store, m: Message, cut: nat, config: Config)
    requires StoreOk(h, s) && RecordsOk(h, s, config) && MessageOk(h, m)
    ensures m.PartiallyChecked? ==> RecordsOk(h, Waiting(s, m.ids, cut), config)
    ensures m.MinedTxs? ==> RecordsOk(h, MarkedMined(s, m.ids, cut, config), config)
    ensures m.ConfirmedTxs? ==> RecordsOk(h, Confirmed(s, m.ids, cut), config)
    ensures m.FullyChecked? ==> RecordsOk(h, FullyCheckedTxs(s, m.txs, cut, config), config)
    ensures m.Reorganization? ==> RecordsOk(h, Reorganized(s, m.ids, m.height, cut), config)
    ensures m.AttachedTxs? ==> RecordsOk(h, StoredAttached(s, m.ids, cut, config), config)
    ensures m.InvalidTxs? ==> RecordsOk(h, Invalid(s, m.ids, cut), config)
  {
    hide Marked, Looked, FullySorted, Announced, Attached, Chunked, Tail, Shared, Without, RecordsOk, StoreOk;
    match m
    case PartiallyChecked(ids) =>
      MarkedRecords(s, ids, WaitingMined, Least(cut, |ids|));
      RecordsLike(h, s, Waiting(s, ids, cut), config);
    case Reorganization(ids, height) =>
      MarkedRecords(Send(s, Reindex(height)), ids, WaitingMined, Least(cut, |ids|));
      RecordsLike(h, s, Reorganized(s, ids, height, cut), config);
    case ConfirmedTxs(ids) =>
      RecordsLike(h, s, Confirmed(s, ids, cut), config);
    case InvalidTxs(ids) =>
      RecordsLike(h, s, Invalid(s, ids, cut), config);
    case MinedTxs(ids) =>
      MarkedRecords(s, ids, Mined, Least(cut, |ids|));
      var s' := Marked(s, ids, Mined, Least(cut, |ids|)).0;
      RecordsLike(h, s, s', config);
      SharedWithin(s.mempool, ids, h.isolated);
      SharedOk(h, s', Shared(s.mempool, ids), config);
    case AttachedTxs(ids) =>
      AttachedRecords(s, ids, Least(cut, |ids|));
      var s' := Attached(s, ids, Least(cut, |ids|)).0;
      RecordsLike(h, s, s', config);
      RecordedOk(h, s', ids, config);
      RecordsLike(h, s'.(pages := Chunked(s'.pages, ids, config.perPage)),
                  s'.(pages := Chunked(s'.pages, ids, config.perPage), raw := Without(s'.raw, IdSet(ids))), config);
    case FullyChecked(txs) =>
      FullyCheckedRecords(h, s, txs, cut, config);
    case _ =>
  }

  lemma FullyCheckedRecords(h: History, s: Store, txs: seq<Tx>, cut: nat, config: Config)
    requires StoreOk(h, s) && RecordsOk(h, s, config) && TxsIn(txs, h.full)
    ensures RecordsOk(h, FullyCheckedTxs(s, txs, cut, config), config)
  {
    hide FullySorted, Announced, Chunked, RecordsOk, StoreOk;
    SortedSafe(h, s, txs, Least(cut, |txs|));
    SortedRecords(s, txs, Least(cut, |txs|));
    var r := FullySorted(s, txs, Least(cut, |txs|));
    RecordsLike(h, s, r.store, config);
    if cut > |txs| {
      RecordedOk(h, r.store, TxIds(r.announcements), config);
      var s' := r.store.(pages := Chunked(r.store.pages, TxIds(r.announcements), config.perPage));
      AnnouncedRecords(s', r.announcements, Least(cut - |txs| - 1, |r.announcements|));
      RecordsLike(h, s', Announced(s', r.announcements, Least(cut - |txs| - 1, |r.announcements|)), config);
    }
    var (s', ok) := if r.announcements == [] then (r.store, true) else AnnouncedAll(r.store, r.announcements, if cut < |txs| then 0 else cut - |txs|, config);
    RecordsLike(h, s', Send(s', CheckedTxs(r.others)), config);
  }

  // ---- What the checker keeps ----

  lemma RecordsWidened(h: History, h': History, s: Store, config: Config)
    requires RecordsOk(h, s, config) && h.isolated <= h'.isolated && h.full <= h'.full
    ensures RecordsOk(h', s, config)
  {
    hide WellPaged, Concat;
  }

  lemma Widened(h: History, h': History, s: Store)
    requires StoreOk(h, s) && h.isolated <= h'.isolated && h.confirmed <= h'.confirmed && h.full <= h'.full
    ensures StoreOk(h', s)
  {
    forall i | 0 <= i < |s.bus|
      ensures MessageOk(h', s.bus[i])
    {
      assert MessageOk(h, s.bus[i]);
    }
    forall id | id in s.mempool
      ensures EntryOk(h', id, s.mempool[id])
    {
      assert EntryOk(h, id, s.mempool[id]);
    }
  }

  lemma {:induction false} PassingOf(txs: seq<Tx>, valid: Tx -> bool, want: bool)
    ensures forall id :: id in Passing(txs, valid, want) ==> exists i :: 0 <= i < |txs| && txs[i].txid == id && valid(txs[i]) == want
  {
    if txs != [] {
      var k := |txs| - 1;
      PassingOf(txs[..k], valid, want);
      forall id | id in Passing(txs, valid, want)
        ensures exists i :: 0 <= i < |txs| && txs[i].txid == id && valid(txs[i]) == want
      {
        if id in Passing(txs[..k], valid, want) {
          var i :| 0 <= i < k && txs[..k][i].txid == id && valid(txs[..k][i]) == want;
          assert txs[i].txid == id;
        } else {
          assert txs[k].txid == id;
        }
      }
    }
  }

  lemma TransferStorage(l: Ledger, tx: Tx, i: nat)
    requires tx.kind.Transfer?
    ensures CheckTransferFrom(l, tx, i).1.txs.Keys <= l.txs.Keys
    decreases |tx.kind.proofs| - i
  {
    if i < |tx.kind.proofs| && tx.kind.proofs[i].input < |tx.inputs| {
      var proof := tx.kind.proofs[i];
      TransferStorage(IsFrozen(l, tx.inputs[proof.input].previous, proof.chroma).1, tx, i + 1);
    }
  }

  /** A check stores nothing but the transaction it accepts. */
  lemma CheckStorage(l: Ledger, tx: Tx, signed: Signature)
    ensures var (v, l') := CheckTx(l, tx, signed);
            l'.txs.Keys <= l.txs.Keys + if v == Accept then {tx.txid} else {}
  {
    if tx.kind.Transfer? {
      TransferStorage(l, tx, 0);
    }
    hide ByOwner, CheckTransferFrom;
  }

  /** Ids reported as checked come from the batch, and storage gains no others. */
  lemma {:induction false} PrefixStorage(l: Ledger, txs: seq<Tx>, n: nat, signed: Signature)
    requires n <= |txs|
    ensures var b := CheckPrefix(l, txs, n, signed);
            && b.ledger.txs.Keys <= l.txs.Keys + b.checked.Keys
            && forall id :: id in b.checked ==> b.checked[id].txid == id && exists i :: 0 <= i < |txs| && txs[i].txid == id
  {
    if n > 0 {
      PrefixStorage(l, txs, n - 1, signed);
      CheckStorage(CheckPrefix(l, txs, n - 1, signed).ledger, txs[n - 1], signed);
      hide CheckTx;
    }
  }

  lemma ByKeyOf(m: map<Txid, Tx>)
    requires forall id :: id in m ==> m[id].txid == id
    ensures TxsIn(ByKey(m), m.Keys)
  {
    EntriesOf(m);
  }

  lemma CheckIsolatedSafe(n: Node, txs: seq<Tx>, env: Env)
    requires Safe(n, env.config)
    ensures Safe(CheckIsolated(n, txs, env.valid), env.config)
  {
    var passed := Passing(txs, env.valid, true);
    var h := n.history.(isolated := n.history.isolated + IdSet(passed));
    Widened(n.history, h, n.store);
    RecordsWidened(n.history, h, n.store, env.config);
    hide RecordsOk;
    RecordsLike(h, n.store, CheckIsolated(n, txs, env.valid).store, env.config);
    hide Passing;
  }

  lemma CheckFullSafe(n: Node, txs: seq<Tx>, cut: nat, env: Env)
    requires Safe(n, env.config) && TxsIn(txs, n.history.confirmed)
    ensures Safe(CheckFull(n, txs, cut, env.signed), env.config)
  {
    hide CheckPrefix, ByKey, StoreOk, RecordsOk;
    var signed := env.signed;
    var l := Ledger(n.store.txs, n.chromas, n.frozen);
    var b := CheckPrefix(l, txs, Least(cut, |txs|), signed);
    PrefixStorage(l, txs, Least(cut, |txs|), signed);
    forall id | id in b.checked
      ensures id in n.history.confirmed
    {
      var i :| 0 <= i < |txs| && txs[i].txid == id;
    }
    CheckedStore(n.history, n.store, b);
    var n' := CheckFull(n, txs, cut, signed);
    RecordsWidened(n.history, n'.history, n.store, env.config);
    RecordsLike(n'.history, n.store, n'.store, env.config);
  }

  /** The store after a batch, with or without the messages about it. */
  lemma CheckedStore(h: History, s: Store, b: Batch)
    requires StoreOk(h, s) && b.ledger.txs.Keys <= s.txs.Keys + b.checked.Keys
    requires forall id :: id in b.checked ==> b.checked[id].txid == id
    ensures var h' := h.(full := h.full + b.checked.Keys);
            var s0 := s.(txs := b.ledger.txs);
            var s1 := if b.checked == map[] then s0 else Send(s0, FullyChecked(ByKey(b.checked)));
            StoreOk(h', s0) && StoreOk(h', s1) && StoreOk(h', Send(s1, InvalidTxs(TxIds(b.invalid))))
  {
    hide ByKey;
    ByKeyOf(b.checked);
    Widened(h, h.(full := h.full + b.checked.Keys), s);
  }

  // ---- Every run ----

  lemma HandleSafe(n: Node, m: Message, cut: nat, env: Env)
    requires Safe(n, env.config) && MessageOk(n.history, m)
    ensures Safe(Handle(n, m, cut, env), env.config)
  {
    match m {
      case IsolatedCheck(txs) =>
        CheckIsolatedSafe(n, txs, env);
      case FullCheck(txs) =>
        CheckFullSafe(n, txs, cut, env);
      case _ =>
        ControllerSafe(n.history, n.store, m, cut, env.config);
        ControllerRecords(n.history, n.store, m, cut, env.config);
    }
    hide CheckIsolated, CheckFull, Waiting, MarkedMined, Confirmed, FullyCheckedTxs, Reorganized, StoredAttached, Invalid, StoreOk, RecordsOk;
  }

  lemma NextSafe(n: Node, a: Action, env: Env)
    requires Safe(n, env.config)
    ensures Safe(Next(n, a, env), env.config)
  {
    hide Handle, Registered, Resumed, WellPaged, Concat;
    match a
    case Submit(txs, cut) =>
      RegisteredRecords(n.store, txs, Least(cut, |txs|));
      RegisteredSafe(n.history, n.store, txs, Least(cut, |txs|));
    case Deliver(i, cut) =>
      if i < |n.store.bus| {
        var n' := n.(store := n.store.(bus := n.store.bus[..i] + n.store.bus[i + 1..]));
        HandleSafe(n', n.store.bus[i], cut, env);
      }
    case ReportConfirmed(ids) =>
      if IdSet(ids) <= n.confirming {
        Widened(n.history, n.history.(confirmed := n.history.confirmed + IdSet(ids)), n.store);
        RecordsWidened(n.history, n.history.(confirmed := n.history.confirmed + IdSet(ids)), n.store, env.config);
      }
    case Restart(cut) =>
      ResumedRecords(n.store.(bus := []), Least(cut, |n.store.raw|));
      ResumedSafe(n.history, n.store.(bus := []), Least(cut, |n.store.raw|));
    case _ =>
  }

  lemma {:induction false} RunSafe(actions: seq<Action>, env: Env)
    ensures Safe(RunNode(actions, env), env.config)
  {
    if actions != [] {
      var k := |actions| - 1;
      RunSafe(actions[..k], env);
      NextSafe(RunNode(actions[..k], env), actions[k], env);
      hide Next;
    }
  }

  // ---- The events behind the history ----

  datatype Stage = PassedIsolated | ReportedConfirmed | PassedFull

  ghost function Reached(h: History, stage: Stage): set<Txid> {
    match stage
    case PassedIsolated => h.isolated
    case ReportedConfirmed => h.confirmed
    case PassedFull => h.full
  }

  ghost predicate Delivers(n: Node, a: Action) {
    a.Deliver? && a.index < |n.store.bus|
  }

  /** Round `t` of a full check, which ran, accepts a transaction with this id. */
  ghost predicate AcceptedAt(l: Ledger, txs: seq<Tx>, cut: nat, t: nat, signed: Signature, id: Txid) {
    && t < |txs| && t < cut && txs[t].txid == id
    && var b := CheckPrefix(l, txs, t, signed); !b.failed && CheckTx(b.ledger, txs[t], signed).0 == Accept
  }

  /** The action `a` in state `n` takes a transaction with this id past a stage. */
  ghost predicate Passes(stage: Stage, n: Node, a: Action, id: Txid, env: Env) {
    match stage
    case PassedIsolated =>
      && Delivers(n, a) && n.store.bus[a.index].IsolatedCheck?
      && var txs := n.store.bus[a.index].txs;
         exists t :: 0 <= t < |txs| && txs[t].txid == id && env.valid(txs[t])
    case ReportedConfirmed =>
      a.ReportConfirmed? && IdSet(a.ids) <= n.confirming && id in a.ids
    case PassedFull =>
      && Delivers(n, a) && n.store.bus[a.index].FullCheck?
      && exists t: nat :: AcceptedAt(Ledger(n.store.txs, n.chromas, n.frozen), n.store.bus[a.index].txs, a.cut, t, env.signed, id)
  }

  lemma {:induction false} CheckedWereAccepted(l: Ledger, txs: seq<Tx>, n: nat, signed: Signature, id: Txid)
    requires n <= |txs| && id in CheckPrefix(l, txs, n, signed).checked
    ensures exists t: nat :: AcceptedAt(l, txs, n, t, signed, id)
  {
    var b := CheckPrefix(l, txs, n - 1, signed);
    if id in b.checked {
      CheckedWereAccepted(l, txs, n - 1, signed, id);
      var t: nat :| AcceptedAt(l, txs, n - 1, t, signed, id);
      assert AcceptedAt(l, txs, n, t, signed, id);
    } else {
      assert AcceptedAt(l, txs, n, n - 1, signed, id);
    }
  }

  /** The history gains an id only by an action that takes it past the stage. */
  lemma NextPasses(stage: Stage, n: Node, a: Action, id: Txid, env: Env)
    requires id in Reached(Next(n, a, env).history, stage) && id !in Reached(n.history, stage)
    ensures Passes(stage, n, a, id, env)
  {
    if Delivers(n, a) {
      var m := n.store.bus[a.index];
      if m.IsolatedCheck? {
        PassingOf(m.txs, env.valid, true);
      } else if m.FullCheck? && stage == PassedFull {
        var l := Ledger(n.store.txs, n.chromas, n.frozen);
        hide CheckPrefix;
        CheckedWereAccepted(l, m.txs, Least(a.cut, |m.txs|), env.signed, id);
        var t: nat :| AcceptedAt(l, m.txs, Least(a.cut, |m.txs|), t, env.signed, id);
        assert AcceptedAt(l, m.txs, a.cut, t, env.signed, id);
      }
    }
  }

  lemma {:induction false} ReachedPassed(stage: Stage, actions: seq<Action>, id: Txid, env: Env) returns (i: nat)
    requires id in Reached(RunNode(actions, env).history, stage)
    ensures i < |actions| && Passes(stage, RunNode(actions[..i], env), actions[i], id, env)
  {
    if actions == [] {
      assert false;
    }
    var k := |actions| - 1;
    var n := RunNode(actions[..k], env);
    if id in Reached(n.history, stage) {
      i := ReachedPassed(stage, actions[..k], id, env);
      assert actions[..k][..i] == actions[..i];
    } else {
      NextPasses(stage, n, actions[k], id, env);
      i := k;
    }
  }

  /**
   In every run from empty storage, a stored id first passed the isolated check, was later reported
   confirmed and still later passed the full check.
   */
  lemma StoredOnlyAfterChecks(actions: seq<Action>, id: Txid, env: Env) returns (i: nat, j: nat, k: nat)
    requires id in RunNode(actions, env).store.txs
    ensures i < j < k < |actions|
    ensures Passes(PassedIsolated, RunNode(actions[..i], env), actions[i], id, env)
    ensures Passes(ReportedConfirmed, RunNode(actions[..j], env), actions[j], id, env)
    ensures Passes(PassedFull, RunNode(actions[..k], env), actions[k], id, env)
  {
    hide RunNode;
    RunSafe(actions, env);
    k := ReachedPassed(PassedFull, actions, id, env);
    RunSafe(actions[..k], env);
    PassedFullConfirmed(RunNode(actions[..k], env), actions[k], id, env);
    j := ReachedPassed(ReportedConfirmed, actions[..k], id, env);
    assert actions[..k][..j] == actions[..j];
    RunSafe(actions[..j], env);
    assert id in RunNode(actions[..j], env).history.isolated;
    i := ReachedPassed(PassedIsolated, actions[..j], id, env);
    assert actions[..j][..i] == actions[..i];
  }

  lemma PassedFullConfirmed(n: Node, a: Action, id: Txid, env: Env)
    requires Safe(n, env.config) && Passes(PassedFull, n, a, id, env)
    ensures id in n.history.confirmed
  {
    assert MessageOk(n.history, n.store.bus[a.index]);
  }

  // ---- The stored transaction itself ----

  /** All transactions submitted in a run. */
  ghost function Submitted(actions: seq<Action>): set<Tx> {
    if actions == [] then {} else
    var k := |actions| - 1;
    Submitted(actions[..k]) + (if actions[k].Submit? then set tx | tx in actions[k].txs else {})
  }

  ghost predicate OnePerId(txs: set<Tx>) {
    forall t, u :: t in txs && u in txs && t.txid == u.txid ==> t == u
  }

  ghost predicate AllFrom(txs: seq<Tx>, subs: set<Tx>) {
    forall i :: 0 <= i < |txs| ==> txs[i] in subs
  }

  ghost predicate MessageFrom(m: Message, subs: set<Tx>) {
    match m
    case IsolatedCheck(txs) => AllFrom(txs, subs)
    case FullCheck(txs) => AllFrom(txs, subs)
    case CheckedTxs(txs) => AllFrom(txs, subs)
    case FullyChecked(txs) => AllFrom(txs, subs)
    case _ => true
  }

  ghost predicate StorageFrom(txs: map<Txid, Tx>, subs: set<Tx>) {
    forall id :: id in txs ==> txs[id] in subs && txs[id].txid == id
  }

  /** Nothing but submitted transactions is in the mempool, in flight or stored. */
  ghost predicate From(s: Store, subs: set<Tx>) {
    && (forall id :: id in s.mempool ==> s.mempool[id].tx in subs)
    && (forall i :: 0 <= i < |s.bus| ==> MessageFrom(s.bus[i], subs))
    && StorageFrom(s.txs, subs)
  }

  lemma {:induction false} RegisteredFrom(s: Store, txs: seq<Tx>, n: nat, subs: set<Tx>)
    requires n <= |txs| && From(s, subs) && AllFrom(txs, subs)
    ensures From(Registered(s, txs, n).0, subs) && AllFrom(Registered(s, txs, n).1, subs)
  {
    if n > 0 {
      RegisteredFrom(s, txs, n - 1, subs);
    }
  }

  lemma {:induction false} MarkedFrom(s: Store, ids: seq<Txid>, status: Status, n: nat, subs: set<Tx>)
    requires n <= |ids| && From(s, subs)
    ensures From(Marked(s, ids, status, n).0, subs)
  {
    if n > 0 {
      MarkedFrom(s, ids, status, n - 1, subs);
    }
  }

  lemma {:induction false} LookedFrom(s: Store, ids: seq<Txid>, n: nat, subs: set<Tx>)
    requires n <= |ids| && From(s, subs)
    ensures var found := Looked(s, ids, n);
            found.Some? ==> AllFrom(found.value.0, subs) && AllFrom(found.value.1, subs)
  {
    if n > 0 {
      LookedFrom(s, ids, n - 1, subs);
    }
  }

  lemma {:induction false} SortedFrom(s: Store, txs: seq<Tx>, n: nat, subs: set<Tx>)
    requires n <= |txs| && From(s, subs) && AllFrom(txs, subs)
    ensures var r := FullySorted(s, txs, n);
            From(r.store, subs) && AllFrom(r.announcements, subs) && AllFrom(r.others, subs)
  {
    if n > 0 {
      SortedFrom(s, txs, n - 1, subs);
    }
  }

  lemma {:induction false} AnnouncedFrom(s: Store, txs: seq<Tx>, n: nat, subs: set<Tx>)
    requires n <= |txs| && From(s, subs) && AllFrom(txs, subs)
    ensures From(Announced(s, txs, n), subs)
  {
    if n > 0 {
      AnnouncedFrom(s, txs, n - 1, subs);
    }
  }

  lemma {:induction false} AttachedFrom(s: Store, ids: seq<Txid>, n: nat, subs: set<Tx>)
    requires n <= |ids| && From(s, subs)
    ensures From(Attached(s, ids, n).0, subs)
  {
    if n > 0 {
      AttachedFrom(s, ids, n - 1, subs);
    }
  }

  lemma {:induction false} ResumedFrom(s: Store, n: nat, subs: set<Tx>)
    requires n <= |s.raw| && From(s, subs)
    ensures From(Resumed(s, n).0, subs)
  {
    if n > 0 {
      ResumedFrom(s, n - 1, subs);
    }
  }

  lemma ControllerFrom(s: Store, m: Message, cut: nat, config: Config, subs: set<Tx>)
    requires From(s, subs) && MessageFrom(m, subs)
    ensures m.PartiallyChecked? ==> From(Waiting(s, m.ids, cut), subs)
    ensures m.MinedTxs? ==> From(MarkedMined(s, m.ids, cut, config), subs)
    ensures m.ConfirmedTxs? ==> From(Confirmed(s, m.ids, cut), subs)
    ensures m.FullyChecked? ==> From(FullyCheckedTxs(s, m.txs, cut, config), subs)
    ensures m.Reorganization? ==> From(Reorganized(s, m.ids, m.height, cut), subs)
    ensures m.AttachedTxs? ==> From(StoredAttached(s, m.ids, cut, config), subs)
    ensures m.InvalidTxs? ==> From(Invalid(s, m.ids, cut), subs)
  {
    hide Marked, Looked, FullySorted, Announced, Attached, Chunked, Tail, Shared, Without;
    match m
    case PartiallyChecked(ids) =>
      MarkedFrom(s, ids, WaitingMined, Least(cut, |ids|), subs);
    case MinedTxs(ids) =>
      MarkedFrom(s, ids, Mined, Least(cut, |ids|), subs);
    case Reorganization(ids, height) =>
      MarkedFrom(Send(s, Reindex(height)), ids, WaitingMined, Least(cut, |ids|), subs);
    case ConfirmedTxs(ids) =>
      LookedFrom(s, ids, |ids|, subs);
    case FullyChecked(txs) =>
      SortedFrom(s, txs, Least(cut, |txs|), subs);
      var r := FullySorted(s, txs, Least(cut, |txs|));
      if cut > |txs| {
        var pages := Chunked(r.store.pages, TxIds(r.announcements), config.perPage);
        AnnouncedFrom(r.store.(pages := pages), r.announcements, Least(cut - |txs| - 1, |r.announcements|), subs);
      }
    case AttachedTxs(ids) =>
      AttachedFrom(s, ids, Least(cut, |ids|), subs);
    case _ =>
  }

  lemma {:induction false} TransferFrom(l: Ledger, tx: Tx, i: nat, subs: set<Tx>)
    requires tx.kind.Transfer? && StorageFrom(l.txs, subs)
    ensures StorageFrom(CheckTransferFrom(l, tx, i).1.txs, subs)
    decreases |tx.kind.proofs| - i
  {
    if i < |tx.kind.proofs| && tx.kind.proofs[i].input < |tx.inputs| {
      var proof := tx.kind.proofs[i];
      TransferFrom(IsFrozen(l, tx.inputs[proof.input].previous, proof.chroma).1, tx, i + 1, subs);
    }
  }

  lemma CheckFrom(l: Ledger, tx: Tx, signed: Signature, subs: set<Tx>)
    requires StorageFrom(l.txs, subs) && tx in subs
    ensures StorageFrom(CheckTx(l, tx, signed).1.txs, subs)
  {
    if tx.kind.Transfer? {
      TransferFrom(l, tx, 0, subs);
    }
    hide ByOwner, CheckTransferFrom;
  }

  lemma {:induction false} PrefixFrom(l: Ledger, txs: seq<Tx>, n: nat, signed: Signature, subs: set<Tx>)
    requires n <= |txs| && StorageFrom(l.txs, subs) && AllFrom(txs, subs)
    ensures StorageFrom(CheckPrefix(l, txs, n, signed).ledger.txs, subs)
    ensures StorageFrom(CheckPrefix(l, txs, n, signed).checked, subs)
  {
    if n > 0 {
      PrefixFrom(l, txs, n - 1, signed, subs);
      CheckFrom(CheckPrefix(l, txs, n - 1, signed).ledger, txs[n - 1], signed, subs);
      hide CheckTx;
    }
  }

  lemma ByKeyFrom(m: map<Txid, Tx>, subs: set<Tx>)
    requires StorageFrom(m, subs)
    ensures AllFrom(ByKey(m), subs)
  {
    EntriesOf(m);
  }

  lemma CheckFullFrom(n: Node, txs: seq<Tx>, cut: nat, signed: Signature, subs: set<Tx>)
    requires From(n.store, subs) && AllFrom(txs, subs)
    ensures From(CheckFull(n, txs, cut, signed).store, subs)
  {
    var l := Ledger(n.store.txs, n.chromas, n.frozen);
    var b := CheckPrefix(l, txs, Least(cut, |txs|), signed);
    hide CheckPrefix, ByKey;
    PrefixFrom(l, txs, Least(cut, |txs|), signed, subs);
    ByKeyFrom(b.checked, subs);
  }

  lemma HandleFrom(n: Node, m: Message, cut: nat, env: Env, subs: set<Tx>)
    requires From(n.store, subs) && MessageFrom(m, subs)
    ensures From(Handle(n, m, cut, env).store, subs)
  {
    match m {
      case IsolatedCheck(txs) =>
        hide Passing;
      case FullCheck(txs) =>
        CheckFullFrom(n, txs, cut, env.signed, subs);
        hide CheckFull;
      case _ =>
        ControllerFrom(n.store, m, cut, env.config, subs);
        hide Waiting, MarkedMined, Confirmed, FullyCheckedTxs, Reorganized, StoredAttached, Invalid, From;
    }
  }

  lemma NextFrom(n: Node, a: Action, env: Env, subs: set<Tx>)
    requires From(n.store, subs) && (a.Submit? ==> AllFrom(a.txs, subs))
    ensures From(Next(n, a, env).store, subs)
  {
    hide Handle, Registered, Resumed;
    match a
    case Submit(txs, cut) =>
      RegisteredFrom(n.store, txs, Least(cut, |txs|), subs);
    case Deliver(i, cut) =>
      if i < |n.store.bus| {
        HandleFrom(n.(store := n.store.(bus := n.store.bus[..i] + n.store.bus[i + 1..])), n.store.bus[i], cut, env, subs);
      }
    case Restart(cut) =>
      ResumedFrom(n.store.(bus := []), Least(cut, |n.store.raw|), subs);
    case _ =>
  }

  lemma {:induction false} RunFrom(actions: seq<Action>, env: Env, n: nat)
    requires n <= |actions|
    ensures From(RunNode(actions[..n], env).store, Submitted(actions))
  {
    if n > 0 {
      RunFrom(actions, env, n - 1);
      assert actions[..n][..n - 1] == actions[..n - 1];
      SubmittedHas(actions, n - 1);
      hide Next, From, Submitted;
      NextFrom(RunNode(actions[..n - 1], env), actions[n - 1], env, Submitted(actions));
    }
  }

  lemma {:induction false} SubmittedHas(actions: seq<Action>, i: nat)
    requires i < |actions|
    ensures actions[i].Submit? ==> AllFrom(actions[i].txs, Submitted(actions))
  {
    if i < |actions| - 1 {
      SubmittedHas(actions[..|actions| - 1], i);
    }
  }

  /** The action delivers this very transaction to the isolated check, which it passes. */
  ghost predicate IsolatedItself(n: Node, a: Action, tx: Tx, env: Env) {
    Delivers(n, a) && n.store.bus[a.index].IsolatedCheck? && tx in n.store.bus[a.index].txs && env.valid(tx)
  }

  /** The action delivers this very transaction to the full check, which accepts it. */
  ghost predicate AcceptedItself(n: Node, a: Action, tx: Tx, env: Env) {
    && Delivers(n, a) && n.store.bus[a.index].FullCheck?
    && var txs := n.store.bus[a.index].txs;
       exists t: nat :: AcceptedAt(Ledger(n.store.txs, n.chromas, n.frozen), txs, a.cut, t, env.signed, tx.txid) && txs[t] == tx
  }

  /**
   When submissions with equal ids are equal, the stored transaction itself passed the isolated check,
   was then reported confirmed and then passed the full check.
   */
  lemma StoredItself(actions: seq<Action>, id: Txid, env: Env) returns (i: nat, j: nat, k: nat)
    requires id in RunNode(actions, env).store.txs && OnePerId(Submitted(actions))
    ensures i < j < k < |actions|
    ensures var tx := RunNode(actions, env).store.txs[id];
            && IsolatedItself(RunNode(actions[..i], env), actions[i], tx, env)
            && Passes(ReportedConfirmed, RunNode(actions[..j], env), actions[j], id, env)
            && AcceptedItself(RunNode(actions[..k], env), actions[k], tx, env)
  {
    hide RunNode, OnePerId, Submitted;
    i, j, k := StoredOnlyAfterChecks(actions, id, env);
    var subs := Submitted(actions);
    RunFrom(actions, env, |actions|);
    assert actions[..|actions|] == actions;
    var tx := RunNode(actions, env).store.txs[id];
    assert tx in subs && tx.txid == id;
    RunFrom(actions, env, i);
    SameIsolated(RunNode(actions[..i], env), actions[i], tx, env, subs);
    RunFrom(actions, env, k);
    SameAccepted(RunNode(actions[..k], env), actions[k], tx, env, subs);
  }

  lemma SameIsolated(n: Node, a: Action, tx: Tx, env: Env, subs: set<Tx>)
    requires From(n.store, subs) && OnePerId(subs) && tx in subs && Passes(PassedIsolated, n, a, tx.txid, env)
    ensures IsolatedItself(n, a, tx, env)
  {
    var m := n.store.bus[a.index];
    var t :| 0 <= t < |m.txs| && m.txs[t].txid == tx.txid && env.valid(m.txs[t]);
    assert MessageFrom(m, subs) && m.txs[t] in subs;
  }

  lemma SameAccepted(n: Node, a: Action, tx: Tx, env: Env, subs: set<Tx>)
    requires From(n.store, subs) && OnePerId(subs) && tx in subs && Passes(PassedFull, n, a, tx.txid, env)
    ensures AcceptedItself(n, a, tx, env)
  {
    var m := n.store.bus[a.index];
    var t: nat :| AcceptedAt(Ledger(n.store.txs, n.chromas, n.frozen), m.txs, a.cut, t, env.signed, tx.txid);
    assert MessageFrom(m, subs) && m.txs[t] in subs;
  }
}
