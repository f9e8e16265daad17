/**
 The mempool handlers of the controller (`crates/controller/src/handler.rs`). A handler gets a number
 of loop rounds after which its next access to storage fails, so that it ends early; what it wrote
 before stays.
 */
module Controller {
  import opened Numbers
  import opened Options
  import opened Pages
  import opened TokenRules

  datatype Status = Initialized | WaitingMined | Mined | Attaching

  datatype Entry = Entry(tx: Tx, status: Status)

  datatype Message =
    // To the checker
    | IsolatedCheck(txs: seq<Tx>)
    | FullCheck(txs: seq<Tx>)
    // To the confirmator
    | ToConfirm(ids: seq<Txid>)
    // To the graph builder
    | CheckedTxs(txs: seq<Tx>)
    // To the indexer
    | Reindex(height: int)
    // To the controller
    | PartiallyChecked(ids: seq<Txid>)
    | MinedTxs(ids: seq<Txid>)
    | ConfirmedTxs(ids: seq<Txid>)
    | FullyChecked(txs: seq<Tx>)
    | Reorganization(ids: seq<Txid>, height: int)
    | AttachedTxs(ids: seq<Txid>)
    | InvalidTxs(ids: seq<Txid>)

  /** Ids per page, and the greatest number of ids in the inventory. */
  datatype Config = Config(perPage: PageSize, maxInv: nat)

  /** The mempool (its list and its entries), transaction storage, pages, inventory and the messages sent. */
  datatype Store = Store(raw: seq<Txid>, mempool: map<Txid, Entry>, txs: map<Txid, Tx>, pages: PageList, inventory: seq<Txid>, bus: seq<Message>)

  function Send(s: Store, m: Message): Store {
    s.(bus := s.bus + [m])
  }

  /** `is_tx_exist`. */
  function Existing(s: Store, txid: Txid): Option<Tx> {
    if txid in s.mempool then Some(s.mempool[txid].tx)
    else if txid in s.txs then Some(s.txs[txid])
    else None
  }

  /** `clear_mempool`. */
  function Without(raw: seq<Txid>, ids: set<Txid>): seq<Txid> {
    if raw == [] then [] else
    var rest := Without(raw[..|raw| - 1], ids);
    if raw[|raw| - 1] in ids then rest else rest + [raw[|raw| - 1]]
  }

  function TxIds(txs: seq<Tx>): seq<Txid> {
    seq(|txs|, i requires 0 <= i < |txs| => txs[i].txid)
  }

  function IdSet(ids: seq<Txid>): set<Txid> {
    set i | i in ids
  }

  // ---- What each handler does in its first `n` rounds, and as a whole ----

  function Registered(s: Store, txs: seq<Tx>, n: nat): (Store, seq<Tx>)
    requires n <= |txs|
  {
    if n == 0 then (s, []) else
    var (s', added) := Registered(s, txs, n - 1);
    var tx := txs[n - 1];
    var existing := Existing(s', tx.txid);
    if existing.Some? && !existing.value.kind.Announce? then (s', added) else
    var raw := if existing.None? then s'.raw + [tx.txid] else s'.raw;
    (s'.(mempool := s'.mempool[tx.txid := Entry(tx, Initialized)], raw := raw), added + [tx])
  }

  function NewTxs(s: Store, txs: seq<Tx>, cut: nat): Store {
    var (s', added) := Registered(s, txs, Least(cut, |txs|));
    if cut < |txs| || added == [] then s' else Send(s', IsolatedCheck(added))
  }

  function Marked(s: Store, ids: seq<Txid>, status: Status, n: nat): (Store, bool)
    requires n <= |ids|
  {
    if n == 0 then (s, true) else
    var (s', ok) := Marked(s, ids, status, n - 1);
    var id := ids[n - 1];
    if !ok || id !in s'.mempool then (s', false)
    else (s'.(mempool := s'.mempool[id := s'.mempool[id].(status := status)]), true)
  }

  function Waiting(s: Store, ids: seq<Txid>, cut: nat): Store {
    var (s', ok) := Marked(s, ids, WaitingMined, Least(cut, |ids|));
    if !ok || cut < |ids| then s' else Send(s', ToConfirm(ids))
  }

  function Reorganized(s: Store, ids: seq<Txid>, height: int, cut: nat): Store {
    var s' := Send(s, Reindex(height));
    if ids == [] then s' else Waiting(s', ids, cut)
  }

  /** The ids to share with peers: announcements are not. */
  function Shared(mempool: map<Txid, Entry>, ids: seq<Txid>): seq<Txid> {
    if ids == [] then [] else
    var id := ids[|ids| - 1];
    Shared(mempool, ids[..|ids| - 1]) + (if id in mempool && !mempool[id].tx.kind.Announce? then [id] else [])
  }

  function MarkedMined(s: Store, ids: seq<Txid>, cut: nat, config: Config): Store {
    var (s', ok) := Marked(s, ids, Mined, Least(cut, |ids|));
    if !ok || cut < |ids| then s'
    else s'.(inventory := Tail(s'.inventory + Shared(s.mempool, ids), config.maxInv))
  }

  /** The confirmed transactions, announcements apart, or nothing when an entry is missing. */
  function Looked(s: Store, ids: seq<Txid>, n: nat): Option<(seq<Tx>, seq<Tx>)>
    requires n <= |ids|
  {
    if n == 0 then Some(([], [])) else
    var found := Looked(s, ids, n - 1);
    if found.None? || ids[n - 1] !in s.mempool then None else
    var tx := s.mempool[ids[n - 1]].tx;
    if tx.kind.Announce? then Some((found.value.0 + [tx], found.value.1))
    else Some((found.value.0, found.value.1 + [tx]))
  }

  function Confirmed(s: Store, ids: seq<Txid>, cut: nat): Store {
    var found := Looked(s, ids, |ids|);
    if cut < |ids| || found.None? then s else Send(s, FullCheck(found.value.0 + found.value.1))
  }

  datatype Sorted = Sorted(store: Store, ok: bool, announcements: seq<Tx>, others: seq<Tx>)

  function FullySorted(s: Store, txs: seq<Tx>, n: nat): Sorted
    requires n <= |txs|
  {
    if n == 0 then Sorted(s, true, [], []) else
    var r := FullySorted(s, txs, n - 1);
    if !r.ok then r else
    var tx := txs[n - 1];
    if tx.kind.Announce? then r.(announcements := r.announcements + [tx])
    else if tx.txid !in r.store.mempool then r.(ok := false)
    else
      var mempool := r.store.mempool;
      r.(store := r.store.(mempool := mempool[tx.txid := mempool[tx.txid].(status := Attaching)]),
         others := r.others + [tx])
  }

  function Announced(s: Store, txs: seq<Tx>, n: nat): Store
    requires n <= |txs|
  {
    if n == 0 then s else
    var s' := Announced(s, txs, n - 1);
    var tx := txs[n - 1];
    s'.(mempool := s'.mempool - {tx.txid}, raw := Without(s'.raw, {tx.txid}), txs := s'.txs[tx.txid := tx])
  }

  /** Announcements are recorded in pages first; the flag tells whether all were handled. */
  function AnnouncedAll(s: Store, txs: seq<Tx>, cut: nat, config: Config): (Store, bool) {
    if cut == 0 then (s, false) else
    var s' := s.(pages := Chunked(s.pages, TxIds(txs), config.perPage));
    (Announced(s', txs, Least(cut - 1, |txs|)), cut > |txs|)
  }

  function FullyCheckedTxs(s: Store, txs: seq<Tx>, cut: nat, config: Config): Store {
    var r := FullySorted(s, txs, Least(cut, |txs|));
    if !r.ok || cut < |txs| then r.store else
    var (s', ok) := if r.announcements == [] then (r.store, true) else AnnouncedAll(r.store, r.announcements, cut - |txs|, config);
    if !ok || r.others == [] then s' else Send(s', CheckedTxs(r.others))
  }

  function Attached(s: Store, ids: seq<Txid>, n: nat): (Store, bool)
    requires n <= |ids|
  {
    if n == 0 then (s, true) else
    var (s', ok) := Attached(s, ids, n - 1);
    var id := ids[n - 1];
    if !ok || id !in s'.mempool then (s', false) else
    var tx := s'.mempool[id].tx;
    (s'.(txs := s'.txs[tx.txid := tx], mempool := s'.mempool - {id}), true)
  }

  /** Attached ids are recorded in pages after all were stored. */
  function StoredAttached(s: Store, ids: seq<Txid>, cut: nat, config: Config): Store {
    var (s', ok) := Attached(s, ids, Least(cut, |ids|));
    if !ok || cut <= |ids| then s'
    else s'.(pages := Chunked(s'.pages, ids, config.perPage), raw := Without(s'.raw, IdSet(ids)))
  }

  function Invalid(s: Store, ids: seq<Txid>, cut: nat): Store {
    s.(raw := Without(s.raw, IdSet(ids)), mempool := s.mempool - IdSet(ids[..Least(cut, |ids|)]))
  }

  /** The messages a restart sends for the first `n` ids of the list, and the ids it keeps. */
  function Resumed(s: Store, n: nat): (Store, seq<Txid>)
    requires n <= |s.raw|
  {
    if n == 0 then (s, []) else
    var (s', handled) := Resumed(s, n - 1);
    var id := s.raw[n - 1];
    if id !in s.mempool then (s', handled) else
    (Send(s', ResumeMessage(id, s.mempool[id])), handled + [id])
  }

  function ResumeMessage(id: Txid, entry: Entry): Message {
    match entry.status
    case Initialized => IsolatedCheck([entry.tx])
    case Attaching => CheckedTxs([entry.tx])
    case _ => ToConfirm([id])
  }

  function MempoolTxs(s: Store, cut: nat): Store {
    var (s', handled) := Resumed(s, Least(cut, |s.raw|));
    if cut < |s.raw| || s.raw == [] then s' else s'.(raw := handled)
  }

  /** The same transactions under the same ids. */
  ghost predicate SameTxs(a: map<Txid, Entry>, b: map<Txid, Entry>) {
    a.Keys == b.Keys && forall id :: id in a ==> a[id].tx == b[id].tx
  }

  // ---- The handlers ----

  class Controller {
    var raw: seq<Txid>
    var mempool: map<Txid, Entry>
    var txs: map<Txid, Tx>
    var pages: PageList
    var inventory: seq<Txid>
    var bus: seq<Message>
    const config: Config

    ghost function View(): Store
      reads this
    {
      Store.Store(raw, mempool, txs, pages, inventory, bus)
    }

    /** `handle_new_yuv_txs`. */
    method HandleNewTxs(yuvTxs: seq<Tx>, cut: nat)
      modifies this
      ensures View() == NewTxs(old(View()), yuvTxs, cut)
    {
      var added := [];
      for i := 0 to |yuvTxs|
        invariant i <= cut && (View(), added) == Registered(old(View()), yuvTxs, i)
      {
        if i == cut {
          return;
        }
        var tx := yuvTxs[i];
        if tx.txid !in mempool && tx.txid !in txs {
          mempool := mempool[tx.txid := Entry(tx, Initialized)];
          raw := raw + [tx.txid];
          added := added + [tx];
          continue;
        }
        var existing := if tx.txid in mempool then mempool[tx.txid].tx else txs[tx.txid];
        if !existing.kind.Announce? {
          continue;
        }
        mempool := mempool[tx.txid := Entry(tx, Initialized)];
        added := added + [tx];
      }
      if added != [] {
        bus := bus + [IsolatedCheck(added)];
      }
    }

    method MarkAll(ids: seq<Txid>, status: Status, cut: nat) returns (ok: bool)
      modifies this`mempool
      ensures var (s, found) := Marked(old(View()), ids, status, Least(cut, |ids|));
              View() == s && ok == (found && cut >= |ids|)
    {
      for i := 0 to |ids|
        invariant i <= cut && (View(), true) == Marked(old(View()), ids, status, i)
      {
        if i == cut {
          return false;
        }
        if ids[i] !in mempool {
          MarkedStays(old(View()), ids, status, i + 1, Least(cut, |ids|));
          return false;
        }
        mempool := mempool[ids[i] := mempool[ids[i]].(status := status)];
      }
      ok := true;
    }

    /** `handle_partially_checked_txs`. */
    method HandlePartiallyChecked(ids: seq<Txid>, cut: nat)
      modifies this
      ensures View() == Waiting(old(View()), ids, cut)
    {
      var ok := MarkAll(ids, WaitingMined, cut);
      if ok {
        bus := bus + [ToConfirm(ids)];
      }
    }

    /** `handle_reorganization`. */
    method HandleReorganization(ids: seq<Txid>, height: int, cut: nat)
      modifies this
      ensures View() == Reorganized(old(View()), ids, height, cut)
    {
      bus := bus + [Reindex(height)];
      if ids == [] {
        return;
      }
      var ok := MarkAll(ids, WaitingMined, cut);
      if ok {
        bus := bus + [ToConfirm(ids)];
      }
    }

    /** `handle_mined_txs`. */
    method HandleMined(ids: seq<Txid>, cut: nat)
      modifies this
      ensures View() == MarkedMined(old(View()), ids, cut, config)
    {
      var shared := [];
      for i := 0 to |ids|
        invariant i <= cut && (View(), true) == Marked(old(View()), ids, Mined, i)
        invariant SameTxs(old(mempool), mempool) && shared == Shared(old(mempool), ids[..i])
      {
        if i == cut {
          return;
        }
        var id := ids[i];
        if id !in mempool {
          MarkedStays(old(View()), ids, Mined, i + 1, Least(cut, |ids|));
          return;
        }
        assert ids[..i + 1][..i] == ids[..i];
        if !mempool[id].tx.kind.Announce? {
          shared := shared + [id];
        }
        mempool := mempool[id := mempool[id].(status := Mined)];
      }
      assert ids[..|ids|] == ids;
      UpdateInv(shared);
    }

    /** `update_inv`. */
    method UpdateInv(ids: seq<Txid>)
      modifies this`inventory
      ensures inventory == Tail(old(inventory) + ids, config.maxInv)
    {
      var inv := new Inventory(inventory);
      inv.Update(ids, config.maxInv);
      inventory := inv.inv;
    }

    /** Records ids in pages, in chunks of a page. */
    method PutPages(ids: seq<Txid>)
      modifies this`pages
      ensures pages == Chunked(old(pages), ids, config.perPage)
    {
      hide Appended;
      var start := 0;
      assert ids[0..] == ids;
      while start < |ids|
        invariant 0 <= start <= |ids|
        invariant Chunked(pages, ids[start..], config.perPage) == Chunked(old(pages), ids, config.perPage)
      {
        var end := start + Least(config.perPage, |ids| - start);
        assert ids[start..][..end - start] == ids[start..end] && ids[start..][end - start..] == ids[end..];
        pages := Appended(pages, ids[start..end], config.perPage);
        start := end;
      }
      assert ids[start..] == [];
    }

    /** `handle_confirmed_txs`. */
    method HandleConfirmed(ids: seq<Txid>, cut: nat)
      modifies this
      ensures View() == Confirmed(old(View()), ids, cut)
    {
      var announcements, others := [], [];
      for i := 0 to |ids|
        invariant i <= cut && View() == old(View())
        invariant Looked(View(), ids, i) == Some((announcements, others))
      {
        if i == cut {
          return;
        }
        if ids[i] !in mempool {
          LookedStays(View(), ids, i + 1, |ids|);
          return;
        }
        var tx := mempool[ids[i]].tx;
        if tx.kind.Announce? {
          announcements := announcements + [tx];
        } else {
          others := others + [tx];
        }
      }
      bus := bus + [FullCheck(announcements + others)];
    }

    /** `handle_checked_announcements`. */
    method HandleCheckedAnnouncements(announcements: seq<Tx>, cut: nat) returns (ok: bool)
      modifies this
      ensures (View(), ok) == AnnouncedAll(old(View()), announcements, cut, config)
    {
      if cut == 0 {
        return false;
      }
      hide Chunked;
      PutPages(TxIds(announcements));
      ghost var s := View();
      for i := 0 to Least(cut - 1, |announcements|)
        invariant View() == Announced(s, announcements, i)
      {
        var tx := announcements[i];
        mempool := mempool - {tx.txid};
        raw := Without(raw, {tx.txid});
        txs := txs[tx.txid := tx];
      }
      ok := cut > |announcements|;
    }

    /** `handle_fully_checked_txs`. */
    method HandleFullyChecked(yuvTxs: seq<Tx>, cut: nat)
      modifies this
      ensures View() == FullyCheckedTxs(old(View()), yuvTxs, cut, config)
    {
      var others, announcements := [], [];
      for i := 0 to |yuvTxs|
        invariant i <= cut && FullySorted(old(View()), yuvTxs, i) == Sorted(View(), true, announcements, others)
      {
        if i == cut {
          return;
        }
        var tx := yuvTxs[i];
        if tx.kind.Announce? {
          announcements := announcements + [tx];
          continue;
        }
        if tx.txid !in mempool {
          SortedStays(old(View()), yuvTxs, i + 1, Least(cut, |yuvTxs|));
          return;
        }
        mempool := mempool[tx.txid := mempool[tx.txid].(status := Attaching)];
        others := others + [tx];
      }
      if announcements != [] {
        var ok := HandleCheckedAnnouncements(announcements, cut - |yuvTxs|);
        if !ok {
          return;
        }
      }
      if others != [] {
        bus := bus + [CheckedTxs(others)];
      }
    }

    /** `handle_attached_txs`. */
    method HandleAttached(ids: seq<Txid>, cut: nat)
      modifies this
      ensures View() == StoredAttached(old(View()), ids, cut, config)
    {
      for i := 0 to |ids|
        invariant i <= cut && (View(), true) == Attached(old(View()), ids, i)
      {
        if i == cut {
          return;
        }
        if ids[i] !in mempool {
          AttachedStays(old(View()), ids, i + 1, Least(cut, |ids|));
          return;
        }
        var tx := mempool[ids[i]].tx;
        txs := txs[tx.txid := tx];
        mempool := mempool - {ids[i]};
      }
      if cut == |ids| {
        return;
      }
      PutPages(ids);
      raw := Without(raw, IdSet(ids));
    }

    /** `handle_invalid_txs`, without the ban. */
    method HandleInvalid(ids: seq<Txid>, cut: nat)
      modifies this
      ensures View() == Invalid(old(View()), ids, cut)
    {
      raw := Without(raw, IdSet(ids));
      var n := Least(cut, |ids|);
      for i := 0 to n
        invariant View() == old(View()).(raw := Without(old(raw), IdSet(ids)), mempool := old(mempool) - IdSet(ids[..i]))
      {
        assert IdSet(ids[..i + 1]) == IdSet(ids[..i]) + {ids[i]};
        mempool := mempool - {ids[i]};
      }
    }

    /** `handle_mempool_txs`. */
    method HandleMempool(cut: nat)
      modifies this
      ensures View() == MempoolTxs(old(View()), cut)
    {
      if raw == [] {
        return;
      }
      var handled := [];
      for i := 0 to |raw|
        invariant i <= cut && raw == old(raw) && mempool == old(mempool)
        invariant (View(), handled) == Resumed(old(View()), i)
      {
        if i == cut {
          return;
        }
        var id := raw[i];
        if id !in mempool {
          continue;
        }
        var entry := mempool[id];
        match entry.status {
          case Initialized =>
            bus := bus + [IsolatedCheck([entry.tx])];
          case Attaching =>
            bus := bus + [CheckedTxs([entry.tx])];
          case _ =>
            bus := bus + [ToConfirm([id])];
        }
        handled := handled + [id];
      }
      raw := handled;
    }
  }

  // ---- A handler that stopped on a missing entry stays stopped ----

  lemma {:induction false} MarkedStays(s: Store, ids: seq<Txid>, status: Status, n: nat, m: nat)
    requires n <= m <= |ids| && !Marked(s, ids, status, n).1
    ensures Marked(s, ids, status, m) == Marked(s, ids, status, n)
    decreases m
  {
    if n < m {
      MarkedStays(s, ids, status, n, m - 1);
    }
  }

  lemma {:induction false} LookedStays(s: Store, ids: seq<Txid>, n: nat, m: nat)
    requires n <= m <= |ids| && Looked(s, ids, n).None?
    ensures Looked(s, ids, m).None?
    decreases m
  {
    if n < m {
      LookedStays(s, ids, n, m - 1);
    }
  }

  lemma {:induction false} SortedStays(s: Store, txs: seq<Tx>, n: nat, m: nat)
    requires n <= m <= |txs| && !FullySorted(s, txs, n).ok
    ensures FullySorted(s, txs, m) == FullySorted(s, txs, n)
    decreases m
  {
    if n < m {
      SortedStays(s, txs, n, m - 1);
    }
  }

  lemma {:induction false} AttachedStays(s: Store, ids: seq<Txid>, n: nat, m: nat)
    requires n <= m <= |ids| && !Attached(s, ids, n).1
    ensures Attached(s, ids, m) == Attached(s, ids, n)
    decreases m
  {
    if n < m {
      AttachedStays(s, ids, n, m - 1);
    }
  }
}
