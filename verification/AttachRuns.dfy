/** Runs of calls and clean-ups of the graph builder. */
module AttachRuns {
  import opened AttachGraph
  import opened AttachResults
  import opened AttachCleanup

  const EMPTY := Graph(map[], map[], map[])

  // ---- Between two steps ----

  ghost function IssueIds(txs: set<Tx>): set<Txid> {
    set tx | tx in txs && tx.kind.Issue? :: tx.txid
  }

  /** With a transaction, its parents. */
  ghost predicate Downward(txs: set<Tx>, a: set<Txid>) {
    forall tx :: tx in txs && tx.txid in a ==> Parents(tx) <= a
  }

  /**
   Between the steps of a run over `txs` from storage `base`, with `a` attached, `seen` known and
   `early` the ids stored without being attached: nothing is attached that is not in every closed
   set over the storage and the early ids.
   */
  ghost predicate RunState(g: Graph, base: set<Txid>, txs: set<Tx>, a: set<Txid>, early: set<Txid>, seen: set<Txid>) {
    && Tracked(g, a, early) && Sound(g, seen) && Pending(g) <= txs
    && base <= a && seen <= a + early
    && forall b :: Closed(base + early, txs, b) ==> a <= b
  }

  lemma RunStart(base: set<Txid>, txs: set<Tx>, early: set<Txid>)
    ensures RunState(EMPTY, base, txs, base, early, {}) && Complete(EMPTY, {}, base)
  {
  }

  lemma IssuesWithin(base: set<Txid>, txs: set<Tx>, b: set<Txid>)
    requires Closed(base, txs, b)
    ensures IssueIds(txs) <= b
  {
    forall id | id in IssueIds(txs)
      ensures id in b
    {
      var tx :| tx in txs && tx.kind.Issue? && tx.txid == id;
      assert Parents(tx) == {};
    }
  }

  /** One more call. */
  lemma RunAttach(g: Graph, base: set<Txid>, txs: set<Tx>, a: set<Txid>, early: set<Txid>, seen: set<Txid>,
                  storage: set<Txid>, batch: seq<Tx>, now: nat, g': Graph, log: seq<Tx>, done: set<Tx>)
    requires RunState(g, base, txs, a, early, seen) && UniqueIds(txs) && TxSet(batch) <= txs
    requires Attaches(g, storage, batch, now, g', log) && Stored(storage, a, early)
    ensures RunState(g', base, txs, a + Ids(log), early, seen + storage + Ids(log))
    ensures Complete(g, done, a) ==> Complete(g', done + TxSet(batch), a + Ids(log))
    ensures Ordered(log, seen + storage) && (NoRepeats(batch) ==> NoRepeats(log))
  {
    assert OneTransferPerId(Sources(g, batch)) && UniqueIds(Sources(g, batch));
    hide Attaches, OneTransferPerId, UniqueIds, Parents, Ids, Closed, NoRepeats;
    if NoRepeats(batch) {
      UniqueOnce(g, storage, batch, now, g', log);
    }
    AttachesSound(g, storage, batch, now, g', log, seen);
    AttachesHeld(g, storage, batch, now, g', log);
    AttachesTracked(g, storage, a, early, batch, now, g', log);
    AttachesWithin(g, storage, batch, now, g', log);
    ListedKinds(g, batch, g', log);
    hide Tracked, Keyed, Sound, Ordered, Pending;
    RunBound(base, txs, a, early, seen, storage, log);
    if Complete(g, done, a) {
      RunComplete(g, batch, g', log, done, a);
    }
  }

  lemma RunComplete(g: Graph, batch: seq<Tx>, g': Graph, log: seq<Tx>, done: set<Tx>, a: set<Txid>)
    requires Complete(g, done, a) && Complete(g', Sources(g, batch), Ids(log))
    ensures Complete(g', done + TxSet(batch), a + Ids(log))
  {
    hide Pending, Ids;
  }

  lemma RunBound(base: set<Txid>, txs: set<Tx>, a: set<Txid>, early: set<Txid>, seen: set<Txid>, storage: set<Txid>, log: seq<Tx>)
    requires Ordered(log, seen + storage) && seen <= a + early && storage <= a + early && ListedOf(log, txs)
    requires forall b :: Closed(base + early, txs, b) ==> a <= b
    ensures forall b :: Closed(base + early, txs, b) ==> a + Ids(log) <= b
  {
    hide Ordered, Parents, Ids, Closed, ListedOf;
    forall b | Closed(base + early, txs, b)
      ensures a + Ids(log) <= b
    {
      ClosedHolds(base + early, txs, b);
      OrderedWithin(log, seen + storage, base + early, txs, b);
    }
  }

  /** Early ids that are issuances of the run do not matter. */
  lemma RunIssues(g: Graph, base: set<Txid>, txs: set<Tx>, a: set<Txid>, early: set<Txid>, seen: set<Txid>)
    requires RunState(g, base, txs, a, early, seen) && early <= IssueIds(txs)
    ensures forall b :: Closed(base, txs, b) ==> a <= b
  {
    hide Tracked, Sound, Parents, Pending, IssueIds;
    forall b | Closed(base, txs, b)
      ensures a <= b
    {
      IssuesWithin(base, txs, b);
      assert Closed(base + early, txs, b);
    }
  }

  /**
   When everything was delivered and nothing removed, the attached set is closed; it is the least
   closed set if the early ids are issuances of the run.
   */
  lemma RunLeast(g: Graph, base: set<Txid>, txs: set<Tx>, a: set<Txid>, early: set<Txid>, seen: set<Txid>)
    requires RunState(g, base, txs, a, early, seen) && Complete(g, txs, a)
    ensures Closed(base, txs, a) && (early <= IssueIds(txs) ==> IsLeast(base, txs, a))
  {
    CompleteClosed(g, base, txs, a, early);
    if early <= IssueIds(txs) {
      RunIssues(g, base, txs, a, early, seen);
    }
  }

  /** An unattached transaction awaits early ids only, which will never wake it. */
  ghost predicate Stuck(g: Graph, a: set<Txid>, early: set<Txid>) {
    exists c :: c in g.stored && c in g.deps && c !in a + early && g.deps[c] <= early
  }

  /** With the early ids counted as attached the result is the least closed set exactly when nothing is stuck. */
  lemma RunSettledIff(g: Graph, base: set<Txid>, txs: set<Tx>, a: set<Txid>, early: set<Txid>, seen: set<Txid>)
    requires RunState(g, base, txs, a, early, seen) && Complete(g, txs, a)
    ensures IsLeast(base + early, txs, a + early) <==> !Stuck(g, a, early)
  {
    if c :| c in g.stored && c in g.deps && c !in a + early && g.deps[c] <= early {
      var tx := g.stored[c].0;
      assert tx in Pending(g);
      hide Parents;
      assert Parents(tx) <= g.deps[c] + seen;
      hide Tracked, Pending;
      assert !Closed(base + early, txs, a + early);
    } else {
      forall tx | tx in txs && !tx.kind.Announcement? && Parents(tx) <= a + early
        ensures tx.txid in a + early
      {
        if tx in Pending(g) && tx.txid !in a + early {
          AwaitsLate(g, a, early, tx);
        }
      }
      hide Tracked, Sound, Parents, Pending;
    }
  }

  lemma AwaitsLate(g: Graph, a: set<Txid>, early: set<Txid>, tx: Tx)
    requires Tracked(g, a, early) && tx in Pending(g) && !Stuck(g, a, early) && tx.txid !in a + early
    ensures !(Parents(tx) <= a + early)
  {
    PendingKinds(g, tx);
    var p :| p in g.deps[tx.txid] && p !in early;
    hide Parents;
    assert Awaits(g, tx.txid, p);
  }

  /** When storage changes only through attach results, parents of attached transactions are attached. */
  lemma RunDownward(txs: set<Tx>, a: set<Txid>, seen: set<Txid>, storage: set<Txid>, log: seq<Tx>)
    requires UniqueIds(txs) && Downward(txs, a) && Ordered(log, seen + storage) && seen <= a && storage <= a
    requires forall tx :: tx in log ==> tx in txs
    ensures Downward(txs, a + Ids(log))
  {
    forall tx | tx in txs && tx.txid in a + Ids(log)
      ensures Parents(tx) <= a + Ids(log)
    {
      if tx.txid in Ids(log) {
        var t :| t in log && t.txid == tx.txid;
        var i :| 0 <= i < |log| && log[i] == t;
        assert Ids(log[..i]) <= Ids(log);
        hide Parents, Ids;
        assert Parents(log[i]) <= seen + storage + Ids(log[..i]);
      }
    }
  }

  /** Then the graph is exact between any two steps. */
  lemma RunExact(g: Graph, base: set<Txid>, txs: set<Tx>, a: set<Txid>, seen: set<Txid>)
    requires RunState(g, base, txs, a, {}, seen) && Downward(txs, a)
    ensures Exact(g, a)
  {
    forall c | c in g.stored
      ensures c !in a
    {
      assert g.stored[c].0 in Pending(g);
      PendingMisses(g, a, {}, g.stored[c].0);
    }
    hide Parents;
    assert Sound(g, a);
    hide Tracked, Sound;
    TrackedExact(g, a);
  }

  /** A run's invariant survives clean-up. */
  lemma RunCleanup(g: Graph, base: set<Txid>, txs: set<Tx>, a: set<Txid>, early: set<Txid>, seen: set<Txid>, r: set<Txid>)
    requires RunState(g, base, txs, a, early, seen) && Hereditary(g, r)
    ensures RunState(Removed(g, r), base, txs, a, early, seen)
  {
    RemovedTracked(g, a, early, r);
    RemovedSound(g, seen, r);
    hide Tracked, Sound, Removed, Hereditary, Pending;
  }

  // ---- Storage that gets ahead ----

  /** Transfer 1 waits for 2. */
  function Alone(tx: Tx, now: nat): Graph {
    Graph(map[2 := {1}], map[1 := {2}], map[1 := (tx, now)])
  }

  /**
   Transfer 1 waits for 2, which then comes into storage without being attached, as announcements
   do. Delivering either again changes nothing, though with 2 stored first 1 would be attached.
   */
  lemma StoredUnattached(now: nat)
    ensures var waiting, announced := Tx(1, [2], Transfer([0])), Tx(2, [], Announcement);
            var g := Alone(waiting, now);
            && Attaches(EMPTY, {}, [waiting], now, g, []) && Exact(g, {})
            && Attaches(g, {2}, [announced], now, g, []) && Attaches(g, {2}, [waiting], now, g, [])
            && !Closed({2}, {waiting, announced}, {2}) && Stuck(g, {}, {2})
            && Attaches(EMPTY, {2}, [waiting], now, EMPTY, [waiting])
  {
    var waiting, announced := Tx(1, [2], Transfer([0])), Tx(2, [], Announcement);
    var g := Alone(waiting, now);
    assert Parents(waiting) == {2} by {
      assert 0 in [0] && waiting.inputs[0] == 2;
    }
    AloneExact(waiting, now);
    FirstWaits(waiting, now);
    AgainWaits(waiting, now);
    StoredFirst(waiting, now);
    hide Attaches, Parents, Alone, Exact, Stuck;
    OneDelivered(EMPTY, {}, waiting, now, g, []);
    OneDelivered(g, {2}, announced, now, g, []);
    OneDelivered(g, {2}, waiting, now, g, []);
    OneDelivered(EMPTY, {2}, waiting, now, EMPTY, [waiting]);
    hide DeliverStep;
    assert waiting in {waiting, announced};
  }

  lemma AloneExact(tx: Tx, now: nat)
    requires tx.txid == 1 && tx.kind.Transfer? && Parents(tx) == {2}
    ensures Exact(Alone(tx, now), {}) && Stuck(Alone(tx, now), {}, {2})
  {
    hide Parents;
    var g := Alone(tx, now);
    assert 1 in g.stored && 1 in g.deps && g.deps[1] <= {2};
  }

  lemma FirstWaits(tx: Tx, now: nat)
    requires tx.txid == 1 && tx.kind.Transfer? && Parents(tx) == {2}
    ensures DeliverStep(Work(EMPTY, [], {}), {}, tx, now) == Work(Alone(tx, now), [], {})
  {
    hide Parents;
    assert Parents(tx) - {} - Ids([]) == {2} && At(EMPTY.deps, 1) + {2} == {2};
    var inv := WithChild(EMPTY.inv, {2}, 1);
    assert inv.Keys == {2} && inv[2] == {1};
    assert inv == map[2 := {1}];
  }

  lemma AgainWaits(tx: Tx, now: nat)
    requires tx.txid == 1 && tx.kind.Transfer? && Parents(tx) == {2}
    ensures var w := Work(Alone(tx, now), [], {}); DeliverStep(w, {2}, tx, now) == w
  {
    hide Parents, WithChild;
    assert Parents(tx) - {2} - Ids([]) == {};
    var g := Alone(tx, now);
    WithNoChild(g.inv, 1);
    assert At(g.deps, 1) + {} == {2} && g.deps[1 := {2}] == g.deps && g.stored[1 := (tx, now)] == g.stored;
  }

  lemma StoredFirst(tx: Tx, now: nat)
    requires tx.txid == 1 && tx.kind.Transfer? && Parents(tx) == {2}
    ensures DeliverStep(Work(EMPTY, [], {}), {2}, tx, now) == Work(EMPTY, [tx], {})
  {
    hide Parents, WithChild;
    assert Parents(tx) - {2} - Ids([]) == {};
    WithNoChild(EMPTY.inv, 1);
  }

  lemma OneDelivered(g: Graph, storage: set<Txid>, tx: Tx, now: nat, g': Graph, log: seq<Tx>)
    requires DeliverStep(Work(g, [], {}), storage, tx, now) == Work(g', log, {})
    ensures Attaches(g, storage, [tx], now, g', log)
  {
    hide DeliverStep;
    assert [tx][..0] == [];
    var c := Opening(g, storage, [tx], now);
    assert Delivered(Work(g, [], {}), storage, [], now) == Work(g, [], {});
    assert Picked(c, storage, []) && Woken(c, storage, []) == Call(Work(g', log, {}), {});
  }

  // ---- Whole runs ----

  /** A call, with ids that are in storage without being attached, or a clean-up. */
  datatype Step = Attach(batch: seq<Tx>, early: set<Txid>, now: nat) | Cleanup(now: nat)

  /** Everything delivered, in order. */
  ghost function Batches(steps: seq<Step>): seq<Tx> {
    if steps == [] then [] else
    var k := |steps| - 1;
    Batches(steps[..k]) + (if steps[k].Attach? then steps[k].batch else [])
  }

  /** All ids stored at some call without being attached. */
  ghost function EarlyBy(steps: seq<Step>): set<Txid> {
    if steps == [] then {} else
    var k := |steps| - 1;
    EarlyBy(steps[..k]) + (if steps[k].Attach? then steps[k].early else {})
  }

  ghost predicate NoCleanup(steps: seq<Step>) {
    forall i :: 0 <= i < |steps| ==> steps[i].Attach?
  }

  lemma StepTaken(steps: seq<Step>, i: nat)
    requires i < |steps|
    ensures Batches(steps[..i + 1]) == Batches(steps[..i]) + (if steps[i].Attach? then steps[i].batch else [])
    ensures steps[i].Attach? ==> TxSet(steps[i].batch) <= TxSet(Batches(steps)) && steps[i].early <= EarlyBy(steps)
  {
    assert steps[..i + 1][..i] == steps[..i];
    StepsGrow(steps, i + 1, |steps|);
    assert steps[..|steps|] == steps;
  }

  lemma {:induction false} StepsGrow(steps: seq<Step>, i: nat, j: nat)
    requires i <= j <= |steps|
    ensures TxSet(Batches(steps[..i])) <= TxSet(Batches(steps[..j])) && EarlyBy(steps[..i]) <= EarlyBy(steps[..j])
    decreases j
  {
    if i < j {
      StepsGrow(steps, i, j - 1);
      assert steps[..j][..j - 1] == steps[..j - 1];
    }
  }

  /** Everything listed or waiting was delivered, and nothing is listed twice or listed and waiting. */
  ghost predicate Once(g: Graph, done: seq<Tx>, log: seq<Tx>) {
    && TxSet(log) <= TxSet(done) && Pending(g) <= TxSet(done)
    && NoRepeats(log) && g.stored.Keys !! Ids(log)
  }

  lemma OnceAttach(g: Graph, done: seq<Tx>, log: seq<Tx>, storage: set<Txid>, batch: seq<Tx>, now: nat, g': Graph, more: seq<Tx>)
    requires Once(g, done, log) && NoRepeats(done + batch) && Keyed(g)
    requires Attaches(g, storage, batch, now, g', more)
    ensures Once(g', done + batch, log + more)
  {
    assert NoRepeats(batch) by {
      assert forall i :: 0 <= i < |batch| ==> batch[i] == (done + batch)[|done| + i];
    }
    SourcesUnique(g, done, batch);
    hide NoRepeats;
    assert OneTransferPerId(Sources(g, batch));
    UniqueOnce(g, storage, batch, now, g', more);
    AttachesHeld(g, storage, batch, now, g', more);
    AttachesWithin(g, storage, batch, now, g', more);
    hide Attaches, OneTransferPerId, Ids;
    SourcesFresh(g, done, log, batch);
    hide Once;
    OnceMore(g, done, log, batch, g', more);
  }

  /** No transaction waiting or delivered now was listed before. */
  ghost predicate Unlisted(g: Graph, batch: seq<Tx>, log: seq<Tx>) {
    forall tx :: tx in Sources(g, batch) ==> tx.txid !in Ids(log)
  }

  lemma DoneUnique(done: seq<Tx>)
    requires NoRepeats(done)
    ensures UniqueIds(TxSet(done))
  {
    forall t, u | t in done && u in done && t.txid == u.txid
      ensures t == u
    {
      SameInBatch(done, t, u);
    }
  }

  lemma SourcesUnique(g: Graph, done: seq<Tx>, batch: seq<Tx>)
    requires Pending(g) <= TxSet(done) && NoRepeats(done + batch)
    ensures UniqueIds(Sources(g, batch))
  {
    DoneUnique(done + batch);
    hide NoRepeats, Pending;
  }

  lemma SourcesFresh(g: Graph, done: seq<Tx>, log: seq<Tx>, batch: seq<Tx>)
    requires Once(g, done, log) && NoRepeats(done + batch) && Keyed(g)
    ensures Unlisted(g, batch, log)
  {
    forall tx | tx in Sources(g, batch)
      ensures tx.txid !in Ids(log)
    {
      if tx in Pending(g) {
        PendingKinds(g, tx);
      } else if t :| t in log && t.txid == tx.txid {
        assert t in TxSet(log);
        ApartInDone(done, batch, t, tx);
      }
    }
  }

  lemma ApartInDone(done: seq<Tx>, batch: seq<Tx>, t: Tx, u: Tx)
    requires NoRepeats(done + batch) && t in done && u in batch
    ensures t.txid != u.txid
  {
    var i :| 0 <= i < |done| && done[i] == t;
    var j :| 0 <= j < |batch| && batch[j] == u;
    assert (done + batch)[i] == t && (done + batch)[|done| + j] == u;
  }

  lemma OnceMore(g: Graph, done: seq<Tx>, log: seq<Tx>, batch: seq<Tx>, g': Graph, more: seq<Tx>)
    requires Once(g, done, log) && Unlisted(g, batch, log) && UniqueIds(Sources(g, batch)) && Keyed(g')
    requires NoRepeats(more) && Apart(Work(g', more, {})) && Sources(g', more) <= Sources(g, batch)
    ensures Once(g', done + batch, log + more)
  {
    hide Keyed;
    assert TxSet(log + more) == TxSet(log) + TxSet(more) && TxSet(done + batch) == TxSet(done) + TxSet(batch);
    IdsConcat(log, more);
    assert NoRepeats(log + more) by {
      hide Pending, UniqueIds, Apart;
      Joined(log, more);
    }
    hide Ids;
    assert g'.stored.Keys !! Ids(log + more) by {
      WaitingUnlisted(g', log, more, Sources(g, batch));
    }
  }

  lemma IdsConcat(a: seq<Tx>, b: seq<Tx>)
    ensures Ids(a + b) == Ids(a) + Ids(b)
  {
    assert forall t :: t in a + b <==> t in a || t in b;
  }

  lemma Joined(log: seq<Tx>, more: seq<Tx>)
    requires NoRepeats(log) && NoRepeats(more) && forall tx :: tx in more ==> tx.txid !in Ids(log)
    ensures NoRepeats(log + more)
  {
    var all := log + more;
    forall i, j | 0 <= i < j < |all|
      ensures all[i].txid != all[j].txid
    {
      if i < |log| <= j {
        assert all[i] == log[i] && all[j] == more[j - |log|];
        assert log[i] in log && more[j - |log|] in more;
      }
    }
  }

  lemma WaitingUnlisted(g: Graph, log: seq<Tx>, more: seq<Tx>, src: set<Tx>)
    requires Keyed(g) && UniqueIds(src) && Apart(Work(g, more, {})) && Sources(g, more) <= src
    requires forall tx :: tx in src ==> tx.txid !in Ids(log)
    ensures g.stored.Keys !! Ids(log + more)
  {
    IdsConcat(log, more);
    forall c | c in g.stored
      ensures c !in Ids(log) && c !in Ids(more)
    {
      var tx := g.stored[c].0;
      assert tx in Pending(g) && tx.txid == c;
      assert forall t :: t in more ==> t in Sources(g, more);
    }
  }

  /** What holds between the steps of a run, `done` delivered and `log` listed in all. */
  ghost predicate RunInv(g: Graph, base: set<Txid>, txs: set<Tx>, early: set<Txid>, seen: set<Txid>, done: seq<Tx>, log: seq<Tx>) {
    && RunState(g, base, txs, base + Ids(log), early, seen)
    && TxSet(log) <= txs && Ordered(log, base + early)
    && (NoRepeats(done) ==> Once(g, done, log))
    && (early == {} && Downward(txs, base) ==> Downward(txs, base + Ids(log)) && seen <= base + Ids(log))
  }

  lemma RunInvStart(base: set<Txid>, txs: set<Tx>, early: set<Txid>)
    ensures RunInv(EMPTY, base, txs, early, {}, [], []) && Complete(EMPTY, TxSet([]), base + Ids([]))
  {
    assert Ids([]) == {} && base + {} == base;
    RunStart(base, txs, early);
    hide RunState, Downward, Ids;
  }

  lemma OrderedConcat(log: seq<Tx>, more: seq<Tx>, base: set<Txid>, known: set<Txid>)
    requires Ordered(log, base) && Ordered(more, known) && known <= base + Ids(log)
    ensures Ordered(log + more, base)
  {
    var all := log + more;
    hide Parents;
    forall i | 0 <= i < |all|
      ensures Parents(all[i]) <= base + Ids(all[..i])
    {
      if i < |log| {
        assert all[..i] == log[..i];
      } else {
        var j := i - |log|;
        assert all[..i] == log + more[..j] && all[i] == more[j];
        IdsConcat(log, more[..j]);
        hide Ids;
        assert Parents(more[j]) <= known + Ids(more[..j]);
      }
    }
  }

  /** One more call. */
  lemma RunInvAttach(g: Graph, base: set<Txid>, txs: set<Tx>, early: set<Txid>, seen: set<Txid>, done: seq<Tx>, log: seq<Tx>,
                     storage: set<Txid>, batch: seq<Tx>, now: nat, g': Graph, more: seq<Tx>)
    requires RunInv(g, base, txs, early, seen, done, log) && UniqueIds(txs) && TxSet(batch) <= txs
    requires Attaches(g, storage, batch, now, g', more) && Stored(storage, base + Ids(log), early)
    ensures RunInv(g', base, txs, early, seen + storage + Ids(more), done + batch, log + more)
    ensures Complete(g, TxSet(done), base + Ids(log)) ==> Complete(g', TxSet(done + batch), base + Ids(log + more))
  {
    var a := base + Ids(log);
    IdsConcat(log, more);
    assert base + Ids(log + more) == a + Ids(more) && TxSet(done + batch) == TxSet(done) + TxSet(batch);
    hide Attaches, Ids, UniqueIds, NoRepeats, Ordered, Once, Complete;
    RunAttach(g, base, txs, a, early, seen, storage, batch, now, g', more, TxSet(done));
    AttachesWithin(g, storage, batch, now, g', more);
    OrderedConcat(log, more, base + early, seen + storage);
    RunKeyed(g, base, txs, a, early, seen);
    if NoRepeats(done + batch) {
      DoneBefore(done, batch);
      OnceAttach(g, done, log, storage, batch, now, g', more);
    }
    LoggedWithin(g, base, txs, a, early, seen, batch, more);
    hide RunState;
    if early == {} && Downward(txs, base) {
      RunDownward(txs, a, seen, storage, more);
    }
    hide Downward;
  }

  lemma DoneBefore(done: seq<Tx>, batch: seq<Tx>)
    requires NoRepeats(done + batch)
    ensures NoRepeats(done)
  {
    assert forall i :: 0 <= i < |done| ==> done[i] == (done + batch)[i];
  }

  lemma RunKeyed(g: Graph, base: set<Txid>, txs: set<Tx>, a: set<Txid>, early: set<Txid>, seen: set<Txid>)
    requires RunState(g, base, txs, a, early, seen)
    ensures Keyed(g) && seen <= a + early
  {
  }

  lemma LoggedWithin(g: Graph, base: set<Txid>, txs: set<Tx>, a: set<Txid>, early: set<Txid>, seen: set<Txid>, batch: seq<Tx>, log: seq<Tx>)
    requires RunState(g, base, txs, a, early, seen) && TxSet(batch) <= txs
    requires forall tx :: tx in log ==> tx in batch || tx in Pending(g)
    ensures TxSet(log) <= txs
  {
    hide Tracked, Sound, Pending;
    forall tx | tx in log
      ensures tx in txs
    {
      assert tx in batch ==> tx in TxSet(batch);
    }
  }

  lemma RunInvCleanup(g: Graph, base: set<Txid>, txs: set<Tx>, early: set<Txid>, seen: set<Txid>, done: seq<Tx>, log: seq<Tx>, r: set<Txid>)
    requires RunInv(g, base, txs, early, seen, done, log) && Hereditary(g, r)
    ensures RunInv(Removed(g, r), base, txs, early, seen, done, log)
  {
    RunCleanup(g, base, txs, base + Ids(log), early, seen, r);
    hide RunState, Downward, Ids, Ordered, NoRepeats, Hereditary;
    var g' := Removed(g, r);
    assert forall c :: c in g'.stored ==> c in g.stored && g'.stored[c] == g.stored[c];
    hide Removed;
    assert Pending(g') <= Pending(g);
  }

  /**
   What a run amounts to. Listed transactions come after their parents outside the storage and the
   early ids; no id is listed twice unless it was delivered twice; nothing is attached outside the
   sets closed over storage and early ids, of which issuances of the run do not matter.
   */
  ghost predicate RunSafe(g: Graph, base: set<Txid>, txs: set<Tx>, early: set<Txid>, done: seq<Tx>, log: seq<Tx>) {
    && TxSet(log) <= txs && Ordered(log, base + early) && (NoRepeats(done) ==> NoRepeats(log))
    && Tracked(g, base + Ids(log), early) && g.stored.Keys !! IssueIds(txs)
    && (forall b :: Closed(base + early, txs, b) ==> base + Ids(log) <= b)
    && (early <= IssueIds(txs) ==> forall b :: Closed(base, txs, b) ==> base + Ids(log) <= b)
    && (early == {} && Downward(txs, base) ==> Exact(g, base + Ids(log)))
  }

  /**
   Without clean-up the attached set is closed; counting the early ids it is the least closed set
   exactly when nothing is stuck, and if they are issuances of the run it is the least closed set.
   */
  ghost predicate RunTotal(g: Graph, base: set<Txid>, txs: set<Tx>, early: set<Txid>, a: set<Txid>) {
    && Closed(base, txs, a)
    && (IsLeast(base + early, txs, a + early) <==> !Stuck(g, a, early))
    && (early <= IssueIds(txs) ==> IsLeast(base, txs, a))
  }

  lemma RunInvSafe(g: Graph, base: set<Txid>, txs: set<Tx>, early: set<Txid>, seen: set<Txid>, done: seq<Tx>, log: seq<Tx>)
    requires RunInv(g, base, txs, early, seen, done, log) && UniqueIds(txs)
    ensures RunSafe(g, base, txs, early, done, log)
  {
    var a := base + Ids(log);
    hide Ordered, NoRepeats, Downward;
    if early == {} && Downward(txs, base) {
      RunExact(g, base, txs, a, seen);
    }
    hide Exact;
    NoneIssuedYet(g, base, txs, a, early, seen);
    if early <= IssueIds(txs) {
      RunIssues(g, base, txs, a, early, seen);
    }
    hide Tracked, Sound, Ids, IssueIds, Closed, UniqueIds, Pending;
  }

  lemma NoneIssuedYet(g: Graph, base: set<Txid>, txs: set<Tx>, a: set<Txid>, early: set<Txid>, seen: set<Txid>)
    requires RunState(g, base, txs, a, early, seen) && UniqueIds(txs)
    ensures g.stored.Keys !! IssueIds(txs)
  {
    forall c | c in g.stored
      ensures c !in IssueIds(txs)
    {
      assert g.stored[c].0 in Pending(g) && g.stored[c].0.txid == c && g.stored[c].0.kind.Transfer?;
    }
  }

  lemma RunInvTotal(g: Graph, base: set<Txid>, txs: set<Tx>, early: set<Txid>, seen: set<Txid>, done: seq<Tx>, log: seq<Tx>)
    requires RunInv(g, base, txs, early, seen, done, log) && Complete(g, txs, base + Ids(log))
    ensures RunTotal(g, base, txs, early, base + Ids(log))
  {
    hide RunState, Complete, Ids, Once, Ordered;
    RunLeast(g, base, txs, base + Ids(log), early, seen);
    RunSettledIff(g, base, txs, base + Ids(log), early, seen);
    hide Closed, IsLeast, Stuck;
  }
}
