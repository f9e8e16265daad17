/**
 What the handlers of the controller do to each transaction and which messages they send, said
 without their functions.
 */
module ControllerLaws {
  import opened Numbers
  import opened Options
  import opened Pages
  import opened Selections
  import opened TokenRules
  import opened Controller

  // ---- The list of the mempool ----

  lemma {:induction false} WithoutHas(raw: seq<Txid>, ids: set<Txid>, id: Txid)
    ensures id in Without(raw, ids) <==> id in raw && id !in ids
  {
    if raw != [] {
      WithoutHas(raw[..|raw| - 1], ids, id);
      assert raw == raw[..|raw| - 1] + [raw[|raw| - 1]];
    }
  }

  ghost function NotIn(raw: seq<Txid>, ids: set<Txid>): seq<bool> {
    seq(|raw|, i requires 0 <= i < |raw| => raw[i] !in ids)
  }

  /** Clearing the list keeps the others, in their order. */
  lemma {:induction false} WithoutPicks(raw: seq<Txid>, ids: set<Txid>)
    ensures Without(raw, ids) == Pick(raw, NotIn(raw, ids))
  {
    if raw != [] {
      var k := |raw| - 1;
      WithoutPicks(raw[..k], ids);
      assert NotIn(raw, ids)[..k] == NotIn(raw[..k], ids);
      PickPrefix(raw, k, NotIn(raw[..k], ids));
    }
  }

  lemma {:induction false} PickPrefix<T>(xs: seq<T>, n: nat, flags: seq<bool>)
    requires |flags| <= n <= |xs|
    ensures Pick(xs[..n], flags) == Pick(xs, flags)
  {
    if flags != [] {
      PickPrefix(xs, n, flags[..|flags| - 1]);
    }
  }

  // ---- New transactions ----

  /** Equal ids mean equal transactions. */
  ghost predicate OneEach(txs: seq<Tx>) {
    forall i, j :: 0 <= i < |txs| && 0 <= j < |txs| && txs[i].txid == txs[j].txid ==> txs[i] == txs[j]
  }

  ghost predicate Unknown(s: Store, id: Txid) {
    id !in s.mempool && id !in s.txs
  }

  /** An id is new, or an announcement is kept under it. */
  ghost predicate Welcome(s: Store, id: Txid) {
    && (id in s.mempool ==> s.mempool[id].tx.kind.Announce?)
    && (id !in s.mempool && id in s.txs ==> s.txs[id].kind.Announce?)
  }

  ghost predicate SeenBefore(txs: seq<Tx>, i: nat)
    requires i < |txs|
  {
    exists j :: 0 <= j < i && txs[j].txid == txs[i].txid
  }

  /** Transaction `i` is entered: another copy only if it is an announcement. */
  ghost predicate Entered(s: Store, txs: seq<Tx>, i: nat)
    requires i < |txs|
  {
    Welcome(s, txs[i].txid) && (SeenBefore(txs, i) ==> txs[i].kind.Announce?)
  }

  ghost function EnteredFlags(s: Store, txs: seq<Tx>, n: nat): seq<bool>
    requires n <= |txs|
  {
    seq(n, i requires 0 <= i < n => Entered(s, txs, i))
  }

  /** Transaction `i` is new to the mempool's list. */
  ghost predicate Listed(s: Store, txs: seq<Tx>, i: nat)
    requires i < |txs|
  {
    Unknown(s, txs[i].txid) && !SeenBefore(txs, i)
  }

  ghost function ListedFlags(s: Store, txs: seq<Tx>, n: nat): seq<bool>
    requires n <= |txs|
  {
    seq(n, i requires 0 <= i < n => Listed(s, txs, i))
  }

  /** The first `n` transactions are entered as they should be. */
  ghost predicate EnteredAll(s: Store, txs: seq<Tx>, n: nat, s': Store, added: seq<Tx>)
    requires n <= |txs|
  {
    && added == Pick(txs, EnteredFlags(s, txs, n))
    && s'.raw == s.raw + Pick(TxIds(txs), ListedFlags(s, txs, n))
    && s'.txs == s.txs && s'.pages == s.pages && s'.inventory == s.inventory && s'.bus == s.bus
    && EntriesAdded(s, txs, n, s'.mempool)
  }

  ghost predicate EntriesAdded(s: Store, txs: seq<Tx>, n: nat, mempool: map<Txid, Entry>)
    requires n <= |txs|
  {
    && (forall i :: 0 <= i < n && Welcome(s, txs[i].txid) ==>
          txs[i].txid in mempool && mempool[txs[i].txid] == Entry(txs[i], Initialized))
    && (forall id :: !Offered(txs, n, id) || !Welcome(s, id) ==>
          (id in mempool <==> id in s.mempool) && (id in s.mempool ==> mempool[id] == s.mempool[id]))
  }

  ghost predicate Offered(txs: seq<Tx>, n: nat, id: Txid)
    requires n <= |txs|
  {
    exists i :: 0 <= i < n && txs[i].txid == id
  }

  lemma EntriesNext(s: Store, txs: seq<Tx>, n: nat, mempool: map<Txid, Entry>)
    requires 0 < n <= |txs| && OneEach(txs) && EntriesAdded(s, txs, n - 1, mempool)
    ensures var tx := txs[n - 1];
            EntriesAdded(s, txs, n, if Entered(s, txs, n - 1) then mempool[tx.txid := Entry(tx, Initialized)] else mempool)
  {
    var tx := txs[n - 1];
    hide Welcome;
    if Welcome(s, tx.txid) && SeenBefore(txs, n - 1) {
      var j :| 0 <= j < n - 1 && txs[j].txid == tx.txid;
      assert txs[j] == tx && Offered(txs, n - 1, tx.txid);
    }
    assert forall id :: Offered(txs, n - 1, id) ==> Offered(txs, n, id);
  }

  lemma {:induction false} RegisteredAll(s: Store, txs: seq<Tx>, n: nat)
    requires n <= |txs| && OneEach(txs)
    ensures var (s', added) := Registered(s, txs, n); EnteredAll(s, txs, n, s', added)
  {
    if n > 0 {
      var k := n - 1;
      RegisteredAll(s, txs, k);
      var (s', added) := Registered(s, txs, k);
      ExistingThen(s, txs, k, s', added);
      EnteredNext(s, txs, n, s', added);
      hide EnteredAll, Existing, Entered, Listed;
    } else {
      assert EnteredFlags(s, txs, 0) == [] && ListedFlags(s, txs, 0) == [];
      assert s.raw + [] == s.raw;
    }
  }

  lemma EnteredNext(s: Store, txs: seq<Tx>, n: nat, s': Store, added: seq<Tx>)
    requires 0 < n <= |txs| && OneEach(txs) && EnteredAll(s, txs, n - 1, s', added)
    ensures var tx := txs[n - 1];
            var raw := if Listed(s, txs, n - 1) then s'.raw + [tx.txid] else s'.raw;
            && (!Entered(s, txs, n - 1) ==> EnteredAll(s, txs, n, s', added))
            && (Entered(s, txs, n - 1) ==>
                  EnteredAll(s, txs, n, s'.(mempool := s'.mempool[tx.txid := Entry(tx, Initialized)], raw := raw), added + [tx]))
  {
    hide Pick, EnteredFlags, ListedFlags, EntriesAdded, Entered, Listed, TxIds, OneEach;
    EnteredPicks(s, txs, n);
    ListedPicks(s, txs, n);
    if Listed(s, txs, n - 1) {
      ListedEntered(s, txs, n - 1);
    }
    EntriesNext(s, txs, n, s'.mempool);
  }

  lemma EnteredPicks(s: Store, txs: seq<Tx>, n: nat)
    requires 0 < n <= |txs|
    ensures var picked := Pick(txs, EnteredFlags(s, txs, n - 1));
            Pick(txs, EnteredFlags(s, txs, n)) == if Entered(s, txs, n - 1) then picked + [txs[n - 1]] else picked
  {
    EnteredFlagsNext(s, txs, n);
    var flags := EnteredFlags(s, txs, n - 1);
    hide EnteredFlags, Entered, Pick;
    PickNext(txs, flags, Entered(s, txs, n - 1));
  }

  lemma ListedPicks(s: Store, txs: seq<Tx>, n: nat)
    requires 0 < n <= |txs|
    ensures var listed := Pick(TxIds(txs), ListedFlags(s, txs, n - 1));
            Pick(TxIds(txs), ListedFlags(s, txs, n)) == if Listed(s, txs, n - 1) then listed + [txs[n - 1].txid] else listed
  {
    ListedFlagsNext(s, txs, n);
    var flags := ListedFlags(s, txs, n - 1);
    hide ListedFlags, Listed, Pick;
    PickNext(TxIds(txs), flags, Listed(s, txs, n - 1));
  }

  lemma EnteredFlagsNext(s: Store, txs: seq<Tx>, n: nat)
    requires 0 < n <= |txs|
    ensures |EnteredFlags(s, txs, n - 1)| == n - 1
    ensures EnteredFlags(s, txs, n) == EnteredFlags(s, txs, n - 1) + [Entered(s, txs, n - 1)]
  {
    hide Entered;
  }

  lemma ListedFlagsNext(s: Store, txs: seq<Tx>, n: nat)
    requires 0 < n <= |txs|
    ensures |ListedFlags(s, txs, n - 1)| == n - 1
    ensures ListedFlags(s, txs, n) == ListedFlags(s, txs, n - 1) + [Listed(s, txs, n - 1)]
  {
    hide Listed;
  }

  /** A transaction that is not entered is not listed. */
  lemma ListedEntered(s: Store, txs: seq<Tx>, i: nat)
    requires i < |txs| && Listed(s, txs, i)
    ensures Entered(s, txs, i)
  {
  }

  /** What is known of the next transaction when its turn comes. */
  lemma ExistingThen(s: Store, txs: seq<Tx>, k: nat, s': Store, added: seq<Tx>)
    requires k < |txs| && OneEach(txs) && EnteredAll(s, txs, k, s', added)
    ensures var now := Existing(s', txs[k].txid);
            && (now.None? <==> Listed(s, txs, k))
            && ((now.Some? ==> now.value.kind.Announce?) <==> Entered(s, txs, k))
  {
    hide Pick, EnteredFlags, ListedFlags;
    var id := txs[k].txid;
    if SeenBefore(txs, k) {
      var j :| 0 <= j < k && txs[j].txid == id;
      assert txs[j] == txs[k];
      if Welcome(s, id) {
        assert s'.mempool[id] == Entry(txs[j], Initialized);
      }
    }
  }

  /** All new transactions are entered, and they are sent to the isolated check. */
  lemma NewTxsSent(s: Store, txs: seq<Tx>, cut: nat)
    requires OneEach(txs) && cut >= |txs|
    ensures var s', added := NewTxs(s, txs, cut), Pick(txs, EnteredFlags(s, txs, |txs|));
            && EnteredAll(s, txs, |txs|, s'.(bus := s.bus), added)
            && s'.bus == s.bus + if added == [] then [] else [IsolatedCheck(added)]
  {
    RegisteredAll(s, txs, |txs|);
    hide Registered, Pick, EnteredFlags, ListedFlags, EntriesAdded, OneEach;
    var (reg, added) := Registered(s, txs, |txs|);
    assert reg.bus == s.bus && added == Pick(txs, EnteredFlags(s, txs, |txs|));
    hide EnteredAll;
    assert NewTxs(s, txs, cut).(bus := s.bus) == reg && s.bus + [] == s.bus;
  }

  // ---- Statuses ----

  ghost predicate AllKnown(s: Store, ids: seq<Txid>, n: nat) {
    n <= |ids| && forall i :: 0 <= i < n ==> ids[i] in s.mempool
  }

  /** The entries of the ids get the status, and nothing else changes. */
  ghost predicate StatusSet(s: Store, s': Store, ids: set<Txid>, status: Status) {
    && s'.raw == s.raw && s'.txs == s.txs && s'.pages == s.pages && s'.inventory == s.inventory && s'.bus == s.bus
    && s'.mempool.Keys == s.mempool.Keys
    && forall id :: id in s.mempool ==>
         s'.mempool[id] == if id in ids then Entry(s.mempool[id].tx, status) else s.mempool[id]
  }

  /** It stops at the first id without entry. */
  lemma {:induction false} MarkedUpTo(s: Store, ids: seq<Txid>, status: Status, n: nat) returns (m: nat)
    requires n <= |ids|
    ensures m <= n && AllKnown(s, ids, m) && (m < n ==> ids[m] !in s.mempool)
    ensures var (s', ok) := Marked(s, ids, status, n); ok == (m == n) && StatusSet(s, s', IdSet(ids[..m]), status)
  {
    if n == 0 {
      m := 0;
    } else {
      m := MarkedUpTo(s, ids, status, n - 1);
      if m == n - 1 && ids[m] in s.mempool {
        m := n;
        assert IdSet(ids[..n]) == IdSet(ids[..n - 1]) + {ids[n - 1]} by {
          assert ids[..n] == ids[..n - 1] + [ids[n - 1]];
        }
      }
    }
  }

  /** All entries there, they wait to be mined and are sent to the confirmator; else nothing is sent. */
  lemma WaitingSent(s: Store, ids: seq<Txid>, cut: nat)
    ensures var s', sent := Waiting(s, ids, cut), AllKnown(s, ids, |ids|) && cut >= |ids|;
            && s'.bus == s.bus + (if sent then [ToConfirm(ids)] else [])
            && (sent ==> StatusSet(s, s'.(bus := s.bus), IdSet(ids), WaitingMined))
  {
    var m := MarkedUpTo(s, ids, WaitingMined, Least(cut, |ids|));
    hide Marked;
    assert ids[..|ids|] == ids;
  }

  lemma ReorganizedSent(s: Store, ids: seq<Txid>, height: int, cut: nat)
    ensures var s', sent := Reorganized(s, ids, height, cut), ids != [] && AllKnown(s, ids, |ids|) && cut >= |ids|;
            && s'.bus == s.bus + [Reindex(height)] + (if sent then [ToConfirm(ids)] else [])
            && (sent ==> StatusSet(s, s'.(bus := s.bus), IdSet(ids), WaitingMined))
  {
    WaitingSent(Send(s, Reindex(height)), ids, cut);
    hide Waiting;
  }

  ghost function SharedFlags(mempool: map<Txid, Entry>, ids: seq<Txid>): seq<bool> {
    seq(|ids|, i requires 0 <= i < |ids| => ids[i] in mempool && !mempool[ids[i]].tx.kind.Announce?)
  }

  lemma {:induction false} SharedPicks(mempool: map<Txid, Entry>, ids: seq<Txid>)
    ensures Shared(mempool, ids) == Pick(ids, SharedFlags(mempool, ids))
  {
    if ids != [] {
      var k := |ids| - 1;
      SharedPicks(mempool, ids[..k]);
      assert SharedFlags(mempool, ids)[..k] == SharedFlags(mempool, ids[..k]);
      PickPrefix(ids, k, SharedFlags(mempool, ids[..k]));
    }
  }

  /** All entries there, they are mined, and those that are not announcements are the newest of the inventory. */
  lemma MinedShared(s: Store, ids: seq<Txid>, cut: nat, config: Config)
    requires AllKnown(s, ids, |ids|) && cut >= |ids|
    ensures var s', inv := MarkedMined(s, ids, cut, config), s.inventory + Pick(ids, SharedFlags(s.mempool, ids));
            && StatusSet(s, s'.(inventory := s.inventory), IdSet(ids), Mined)
            && |s'.inventory| == Least(|inv|, config.maxInv) && s'.inventory == inv[|inv| - |s'.inventory|..]
  {
    var m := MarkedUpTo(s, ids, Mined, |ids|);
    SharedPicks(s.mempool, ids);
    hide Marked, Pick, Shared;
    assert ids[..|ids|] == ids;
  }

  // ---- Confirmed transactions ----

  ghost function EntriesOf(s: Store, ids: seq<Txid>, n: nat): seq<Tx>
    requires AllKnown(s, ids, n)
  {
    seq(n, i requires 0 <= i < n => s.mempool[ids[i]].tx)
  }

  ghost function KindFlags(txs: seq<Tx>, announced: bool): seq<bool> {
    seq(|txs|, i requires 0 <= i < |txs| => txs[i].kind.Announce? == announced)
  }

  lemma KindFlagsNext(txs: seq<Tx>, tx: Tx, announced: bool)
    ensures Pick(txs + [tx], KindFlags(txs + [tx], announced)) ==
            if tx.kind.Announce? == announced then Pick(txs, KindFlags(txs, announced)) + [tx]
            else Pick(txs, KindFlags(txs, announced))
  {
    var more := txs + [tx];
    assert KindFlags(more, announced) == KindFlags(txs, announced) + [tx.kind.Announce? == announced];
    PickNext(more, KindFlags(txs, announced), tx.kind.Announce? == announced);
    assert more[..|txs|] == txs;
    PickPrefix(more, |txs|, KindFlags(txs, announced));
  }

  lemma {:induction false} LookedPicks(s: Store, ids: seq<Txid>, n: nat)
    requires n <= |ids|
    ensures Looked(s, ids, n).Some? <==> AllKnown(s, ids, n)
    ensures AllKnown(s, ids, n) ==>
              var txs := EntriesOf(s, ids, n);
              Looked(s, ids, n).value == (Pick(txs, KindFlags(txs, true)), Pick(txs, KindFlags(txs, false)))
  {
    if n > 0 {
      hide Pick, KindFlags;
      LookedPicks(s, ids, n - 1);
      assert AllKnown(s, ids, n) <==> AllKnown(s, ids, n - 1) && ids[n - 1] in s.mempool;
      if AllKnown(s, ids, n) {
        var txs, tx := EntriesOf(s, ids, n - 1), s.mempool[ids[n - 1]].tx;
        assert EntriesOf(s, ids, n) == txs + [tx];
        hide EntriesOf;
        KindFlagsNext(txs, tx, true);
        KindFlagsNext(txs, tx, false);
      }
    } else {
      assert Pick(EntriesOf(s, ids, 0), []) == [];
      hide Pick;
    }
  }

  /** All entries there, the transactions go to the full check, announcements first; else nothing is sent. */
  lemma ConfirmedSent(s: Store, ids: seq<Txid>, cut: nat)
    ensures var sent := AllKnown(s, ids, |ids|) && cut >= |ids|;
            && (!sent ==> Confirmed(s, ids, cut) == s)
            && (sent ==> var txs := EntriesOf(s, ids, |ids|);
                         Confirmed(s, ids, cut) ==
                         Send(s, FullCheck(Pick(txs, KindFlags(txs, true)) + Pick(txs, KindFlags(txs, false)))))
  {
    LookedPicks(s, ids, |ids|);
    hide Looked, Pick, KindFlags;
  }

  // ---- Fully checked transactions ----

  /** The entries of all but announcements are there. */
  ghost predicate OthersKnown(s: Store, txs: seq<Tx>, n: nat) {
    n <= |txs| && forall i :: 0 <= i < n && !txs[i].kind.Announce? ==> txs[i].txid in s.mempool
  }

  ghost function OtherIds(txs: seq<Tx>): set<Txid> {
    set tx | tx in txs && !tx.kind.Announce? :: tx.txid
  }

  ghost predicate SortedInto(s: Store, txs: seq<Tx>, r: Sorted) {
    && r.announcements == Pick(txs, KindFlags(txs, true)) && r.others == Pick(txs, KindFlags(txs, false))
    && StatusSet(s, r.store, OtherIds(txs), Attaching)
  }

  lemma SortedNext(s: Store, txs: seq<Tx>, tx: Tx, r: Sorted)
    requires SortedInto(s, txs, r) && (tx.kind.Announce? || tx.txid in s.mempool)
    ensures tx.kind.Announce? ==> SortedInto(s, txs + [tx], r.(announcements := r.announcements + [tx]))
    ensures !tx.kind.Announce? ==> tx.txid in r.store.mempool
    ensures var mempool := r.store.mempool;
            !tx.kind.Announce? ==>
              SortedInto(s, txs + [tx],
                         r.(store := r.store.(mempool := mempool[tx.txid := mempool[tx.txid].(status := Attaching)]),
                            others := r.others + [tx]))
  {
    KindFlagsNext(txs, tx, true);
    KindFlagsNext(txs, tx, false);
    OtherIdsNext(txs, tx);
    hide Pick, KindFlags, OtherIds;
  }

  lemma {:induction false} SortedPicks(s: Store, txs: seq<Tx>, n: nat)
    requires n <= |txs|
    ensures var r := FullySorted(s, txs, n);
            (r.ok <==> OthersKnown(s, txs, n)) && (r.ok ==> SortedInto(s, txs[..n], r))
  {
    if n > 0 {
      SortedPicks(s, txs, n - 1);
      assert txs[..n] == txs[..n - 1] + [txs[n - 1]];
      var r := FullySorted(s, txs, n - 1);
      if OthersKnown(s, txs, n) {
        SortedNext(s, txs[..n - 1], txs[n - 1], r);
      } else if r.ok {
        assert r.store.mempool.Keys == s.mempool.Keys;
      }
      hide SortedInto;
    } else {
      assert OtherIds(txs[..0]) == {};
    }
  }

  lemma OtherIdsNext(txs: seq<Tx>, tx: Tx)
    ensures OtherIds(txs + [tx]) == OtherIds(txs) + if tx.kind.Announce? then {} else {tx.txid}
  {
    assert forall t :: t in txs + [tx] <==> t in txs || t == tx;
  }

  /** Announcements are out of the mempool and its list, and in storage. */
  ghost predicate Moved(s: Store, s': Store, txs: seq<Tx>, n: nat)
    requires n <= |txs|
  {
    && s'.pages == s.pages && s'.inventory == s.inventory && s'.bus == s.bus
    && s'.mempool == s.mempool - IdSet(TxIds(txs[..n]))
    && s'.raw == Without(s.raw, IdSet(TxIds(txs[..n])))
    && StoredAll(s.txs, s'.txs, txs, n)
  }

  ghost predicate StoredAll(was: map<Txid, Tx>, now: map<Txid, Tx>, txs: seq<Tx>, n: nat)
    requires n <= |txs|
  {
    && (forall i :: 0 <= i < n ==> txs[i].txid in now && now[txs[i].txid] == txs[i])
    && (forall id :: !Offered(txs, n, id) ==> (id in now <==> id in was) && (id in was ==> now[id] == was[id]))
  }

  lemma StoredNext(was: map<Txid, Tx>, now: map<Txid, Tx>, txs: seq<Tx>, n: nat)
    requires 0 < n <= |txs| && OneEach(txs) && StoredAll(was, now, txs, n - 1)
    ensures StoredAll(was, now[txs[n - 1].txid := txs[n - 1]], txs, n)
  {
    assert forall id :: Offered(txs, n - 1, id) ==> Offered(txs, n, id);
  }

  lemma {:induction false} AnnouncedMoves(s: Store, txs: seq<Tx>, n: nat)
    requires n <= |txs| && OneEach(txs)
    ensures Moved(s, Announced(s, txs, n), txs, n)
  {
    if n == 0 {
      assert TxIds(txs[..0]) == [];
      assert IdSet([]) == {};
      WithoutNothing(s.raw);
      assert s.mempool - {} == s.mempool;
    } else {
      AnnouncedMoves(s, txs, n - 1);
      var id := txs[n - 1].txid;
      assert TxIds(txs[..n]) == TxIds(txs[..n - 1]) + [id];
      IdSetNext(TxIds(txs[..n - 1]), id);
      WithoutTwice(s.raw, IdSet(TxIds(txs[..n - 1])), {id});
      StoredNext(s.txs, Announced(s, txs, n - 1).txs, txs, n);
      hide Without, IdSet, TxIds, StoredAll;
    }
  }

  lemma IdSetNext(ids: seq<Txid>, id: Txid)
    ensures IdSet(ids + [id]) == IdSet(ids) + {id}
  {
  }

  lemma {:induction false} WithoutNothing(raw: seq<Txid>)
    ensures Without(raw, {}) == raw
  {
    if raw != [] {
      WithoutNothing(raw[..|raw| - 1]);
    }
  }

  lemma {:induction false} WithoutTwice(raw: seq<Txid>, a: set<Txid>, b: set<Txid>)
    ensures Without(Without(raw, a), b) == Without(raw, a + b)
  {
    if raw != [] {
      var k := |raw| - 1;
      WithoutTwice(raw[..k], a, b);
      var rest := Without(raw[..k], a);
      if raw[k] !in a {
        assert (rest + [raw[k]])[..|rest|] == rest;
      }
    }
  }

  /** All entries there and all rounds taken: announcements are stored and paged, the others go to the graph builder. */
  lemma FullyCheckedMoves(s: Store, txs: seq<Tx>, cut: nat, config: Config) returns (marked: Store)
    requires OneEach(txs) && OthersKnown(s, txs, |txs|) && cut > 2 * |txs|
    ensures var s' := FullyCheckedTxs(s, txs, cut, config);
            var announced, others := Pick(txs, KindFlags(txs, true)), Pick(txs, KindFlags(txs, false));
            && s'.bus == s.bus + (if others == [] then [] else [CheckedTxs(others)])
            && s'.pages == Chunked(s.pages, TxIds(announced), config.perPage)
            && StatusSet(s, marked, OtherIds(txs), Attaching)
            && Moved(marked, s'.(pages := s.pages, bus := s.bus), announced, |announced|)
  {
    hide Pick, KindFlags, OneEach, AnnouncedAll, Chunked, TxIds, Moved, StatusSet, OthersKnown, FullySorted;
    var r := SortedWhole(s, txs);
    marked := r.store;
    var base := MovedBase(r.store, r.announcements, cut - |txs|, config);
    assert FullyCheckedTxs(s, txs, cut, config) == if r.others == [] then base else Send(base, CheckedTxs(r.others));
    assert s.bus + [] == s.bus;
    assert Send(base, CheckedTxs(r.others)).(pages := s.pages, bus := s.bus) == base.(pages := s.pages, bus := s.bus);
  }

  lemma SortedWhole(s: Store, txs: seq<Tx>) returns (r: Sorted)
    requires OneEach(txs) && OthersKnown(s, txs, |txs|)
    ensures r == FullySorted(s, txs, |txs|) && r.ok && OneEach(r.announcements) && |r.announcements| <= |txs|
    ensures r.announcements == Pick(txs, KindFlags(txs, true)) && r.others == Pick(txs, KindFlags(txs, false))
    ensures StatusSet(s, r.store, OtherIds(txs), Attaching) && r.store.pages == s.pages && r.store.bus == s.bus
  {
    r := FullySorted(s, txs, |txs|);
    SortedPicks(s, txs, |txs|);
    assert txs[..|txs|] == txs;
    hide FullySorted, Pick, OneEach, OthersKnown;
    PickedOneEach(txs, KindFlags(txs, true));
    PickShort(txs, KindFlags(txs, true));
  }

  lemma MovedBase(s: Store, txs: seq<Tx>, cut: nat, config: Config) returns (base: Store)
    requires OneEach(txs) && cut > |txs|
    ensures base == if txs == [] then s else AnnouncedAll(s, txs, cut, config).0
    ensures txs != [] ==> AnnouncedAll(s, txs, cut, config).1
    ensures base.pages == Chunked(s.pages, TxIds(txs), config.perPage) && base.bus == s.bus
    ensures Moved(s, base.(pages := s.pages, bus := s.bus), txs, |txs|)
  {
    if txs == [] {
      base := s;
      NothingMoved(s);
      ChunkedNone(s.pages, config.perPage);
      hide Moved, Chunked;
    } else {
      base := AnnouncedAll(s, txs, cut, config).0;
      AnnouncedAllMoves(s, txs, cut, config);
      hide Moved, Chunked, AnnouncedAll;
    }
  }

  lemma AnnouncedAllMoves(s: Store, txs: seq<Tx>, cut: nat, config: Config)
    requires OneEach(txs) && cut > |txs|
    ensures var (s', ok) := AnnouncedAll(s, txs, cut, config);
            && ok && s'.pages == Chunked(s.pages, TxIds(txs), config.perPage) && s'.bus == s.bus
            && Moved(s, s'.(pages := s.pages, bus := s.bus), txs, |txs|)
  {
    AnnouncedMoves(s.(pages := Chunked(s.pages, TxIds(txs), config.perPage)), txs, |txs|);
    hide Chunked, Announced, Without, IdSet, StoredAll, TxIds;
  }

  lemma NothingMoved(s: Store)
    ensures Moved(s, s, [], 0) && TxIds([]) == []
  {
    WithoutNothing(s.raw);
    var none: seq<Tx> := [];
    assert none[..0] == none && TxIds(none) == [] && IdSet([]) == {} && s.mempool - {} == s.mempool;
  }

  lemma ChunkedNone(pages: PageList, size: PageSize)
    ensures Chunked(pages, [], size) == pages
  {
  }

  lemma {:induction false} PickShort<T>(xs: seq<T>, flags: seq<bool>)
    requires |flags| <= |xs|
    ensures |Pick(xs, flags)| <= |flags|
  {
    if flags != [] {
      PickShort(xs, flags[..|flags| - 1]);
    }
  }

  lemma PickedOneEach(txs: seq<Tx>, flags: seq<bool>)
    requires OneEach(txs) && |flags| <= |txs|
    ensures OneEach(Pick(txs, flags))
  {
    var ys := Pick(txs, flags);
    forall i, j | 0 <= i < |ys| && 0 <= j < |ys| && ys[i].txid == ys[j].txid
      ensures ys[i] == ys[j]
    {
      PickHas(txs, flags, ys[i]);
      PickHas(txs, flags, ys[j]);
      assert ys[i] in ys && ys[j] in ys;
    }
  }

  // ---- Attached transactions ----

  /** Entries are kept under the ids of their transactions. */
  ghost predicate OwnIds(s: Store) {
    forall id :: id in s.mempool ==> s.mempool[id].tx.txid == id
  }

  ghost predicate AllDistinct(ids: seq<Txid>, n: nat) {
    n <= |ids| && forall i, j :: 0 <= i < j < n ==> ids[i] != ids[j]
  }

  /** Transactions go from the mempool to storage, and nothing else changes. */
  ghost predicate StoredFrom(s: Store, s': Store, ids: set<Txid>) {
    && s'.raw == s.raw && s'.pages == s.pages && s'.inventory == s.inventory && s'.bus == s.bus
    && s'.mempool == s.mempool - ids
    && (forall id :: id in ids ==> id in s.mempool && id in s'.txs && s'.txs[id] == s.mempool[id].tx)
    && (forall id :: id !in ids ==> (id in s'.txs <==> id in s.txs) && (id in s.txs ==> s'.txs[id] == s.txs[id]))
  }

  lemma StoredFromNext(s: Store, s': Store, ids: set<Txid>, id: Txid)
    requires StoredFrom(s, s', ids) && OwnIds(s) && id in s.mempool && id !in ids
    ensures id in s'.mempool && s'.mempool[id].tx.txid == id
    ensures StoredFrom(s, s'.(txs := s'.txs[id := s'.mempool[id].tx], mempool := s'.mempool - {id}), ids + {id})
  {
  }

  /** It stops at the first id without entry, as a repeated one is. */
  lemma {:induction false} AttachedUpTo(s: Store, ids: seq<Txid>, n: nat) returns (m: nat)
    requires n <= |ids| && OwnIds(s)
    ensures m <= n && AllKnown(s, ids, m) && AllDistinct(ids, m)
    ensures m < n ==> ids[m] !in s.mempool || ids[m] in ids[..m]
    ensures var (s', ok) := Attached(s, ids, n); ok == (m == n) && StoredFrom(s, s', IdSet(ids[..m]))
  {
    if n == 0 {
      m := 0;
      assert s.mempool - IdSet(ids[..0]) == s.mempool;
    } else {
      m := AttachedUpTo(s, ids, n - 1);
      if m == n - 1 && ids[m] in s.mempool && ids[m] !in ids[..m] {
        IdSetNext(ids[..m], ids[m]);
        assert ids[..n] == ids[..m] + [ids[m]];
        assert AllDistinct(ids, n);
        hide IdSet, AllDistinct;
        StoredFromNext(s, Attached(s, ids, m).0, IdSet(ids[..m]), ids[m]);
        m := n;
        hide StoredFrom;
      } else {
        assert m == n - 1 && ids[m] in s.mempool ==> ids[m] in IdSet(ids[..m]);
        hide IdSet, AllDistinct;
      }
    }
  }

  /** Handled in full, every attached transaction is stored and paged, and leaves the mempool and its list. */
  lemma AttachedStored(s: Store, ids: seq<Txid>, cut: nat, config: Config)
    requires OwnIds(s) && AllKnown(s, ids, |ids|) && AllDistinct(ids, |ids|) && cut > |ids|
    ensures var s' := StoredAttached(s, ids, cut, config);
            && StoredFrom(s, s'.(raw := s.raw, pages := s.pages), IdSet(ids))
            && s'.raw == Pick(s.raw, NotIn(s.raw, IdSet(ids)))
            && (WellPaged(s.pages, config.perPage) ==>
                  WellPaged(s'.pages, config.perPage) && Concat(s'.pages) == Concat(s.pages) + ids)
  {
    var m := AttachedUpTo(s, ids, |ids|);
    assert ids[..|ids|] == ids;
    WithoutPicks(s.raw, IdSet(ids));
    if WellPaged(s.pages, config.perPage) {
      ChunkedPaged(s.pages, ids, config.perPage);
    }
    hide Attached, Chunked, Without, IdSet, Pick;
  }

  // ---- Invalid transactions and restarts ----

  lemma InvalidForgotten(s: Store, ids: seq<Txid>, cut: nat)
    requires cut >= |ids|
    ensures var s' := Invalid(s, ids, cut);
            && s'.txs == s.txs && s'.pages == s.pages && s'.inventory == s.inventory && s'.bus == s.bus
            && s'.raw == Pick(s.raw, NotIn(s.raw, IdSet(ids)))
            && (forall id :: id in s'.mempool <==> id in s.mempool && id !in ids)
            && (forall id :: id in s'.mempool ==> s'.mempool[id] == s.mempool[id])
  {
    WithoutPicks(s.raw, IdSet(ids));
    assert ids[..|ids|] == ids;
    hide Without, Pick;
  }

  ghost function ListedKnown(s: Store, n: nat): seq<bool>
    requires n <= |s.raw|
  {
    seq(n, i requires 0 <= i < n => s.raw[i] in s.mempool)
  }

  /** Where an entry continues. */
  ghost predicate Continues(id: Txid, entry: Entry, m: Message) {
    && (entry.status == Initialized ==> m == IsolatedCheck([entry.tx]))
    && (entry.status == WaitingMined || entry.status == Mined ==> m == ToConfirm([id]))
    && (entry.status == Attaching ==> m == CheckedTxs([entry.tx]))
  }

  lemma {:induction false} ResumedAll(s: Store, n: nat)
    requires n <= |s.raw|
    ensures var (s', handled) := Resumed(s, n);
            && s'.(bus := s.bus) == s && handled == Pick(s.raw, ListedKnown(s, n))
            && |s'.bus| == |s.bus| + |handled| && s'.bus[..|s.bus|] == s.bus
            && forall i :: 0 <= i < |handled| ==>
                 handled[i] in s.mempool && Continues(handled[i], s.mempool[handled[i]], s'.bus[|s.bus| + i])
  {
    if n > 0 {
      ResumedAll(s, n - 1);
      assert ListedKnown(s, n) == ListedKnown(s, n - 1) + [s.raw[n - 1] in s.mempool];
      PickNext(s.raw, ListedKnown(s, n - 1), s.raw[n - 1] in s.mempool);
      hide Pick, ListedKnown;
    } else {
      assert ListedKnown(s, 0) == [];
    }
  }

  /** A restart sends every listed entry where its status says, in order, and drops the other ids from the list. */
  lemma RestartContinues(s: Store, cut: nat)
    requires cut >= |s.raw|
    ensures var s', known := MempoolTxs(s, cut), Pick(s.raw, ListedKnown(s, |s.raw|));
            && s'.raw == known && s'.mempool == s.mempool && s'.txs == s.txs && s'.pages == s.pages && s'.inventory == s.inventory
            && |s'.bus| == |s.bus| + |known| && s'.bus[..|s.bus|] == s.bus
            && forall i :: 0 <= i < |known| ==>
                 known[i] in s.mempool && Continues(known[i], s.mempool[known[i]], s'.bus[|s.bus| + i])
  {
    ResumedAll(s, |s.raw|);
    assert s.raw == [] ==> ListedKnown(s, |s.raw|) == [];
    hide Resumed, Continues;
  }
}
