/** With which heights a wallet sync finishes transactions. */
module WalletHeights {
  import opened Options
  import opened KeyOrder
  import opened Numbers
  import opened WalletSync

  // ---- What the exchanges say ----

  /** The database knows the transaction, and a listed height is the one it has. */
  ghost predicate Settled(db: Db, id: Txid, height: Option<nat>) {
    id in db.txs && (height.Some? ==> db.txs[id].height == height)
  }

  ghost predicate InList(list: TxList, n: nat, id: Txid, height: Option<nat>)
    requires n <= |list|
  {
    exists j :: 0 <= j < n && list[j] == (id, height)
  }

  ghost predicate InLists(lists: seq<TxList>, n: nat, id: Txid, height: Option<nat>)
    requires n <= |lists|
  {
    exists i :: 0 <= i < n && InList(lists[i], |lists[i]|, id, height)
  }

  /** An answer lists the transaction at this height. */
  ghost predicate Lists(e: Exchange, id: Txid, height: Option<nat>) {
    e.OfScripts? && InLists(e.lists, |e.lists|, id, height)
  }

  /** An answer gives this time for the transaction. */
  ghost predicate Gives(e: Exchange, id: Txid, height: Option<nat>) {
    e.OfTimes? && exists i :: 0 <= i < |e.times| && i < |e.wanted| && e.wanted[i] == id && e.times[i] == height
  }

  ghost predicate Listed(trace: seq<Exchange>, id: Txid, height: Option<nat>) {
    exists k :: 0 <= k < |trace| && Lists(trace[k], id, height)
  }

  ghost predicate Given(trace: seq<Exchange>, id: Txid, height: Option<nat>) {
    exists k :: 0 <= k < |trace| && Gives(trace[k], id, height)
  }

  /** The requests ask, in order, for what is left, and answers are not longer. */
  ghost predicate Asks(db: Db, trace: seq<Exchange>) {
    forall k :: 0 <= k < |trace| ==> AsksAt(db, trace, k)
  }

  ghost predicate AsksAt(db: Db, trace: seq<Exchange>, k: nat)
    requires k < |trace|
  {
    var f, e := Replay(db, trace[..k]), trace[k];
    && (e.OfTxs? ==> |e.txids| <= |InOrder(f.needed)|)
    && (e.OfTimes? ==> e.wanted == InOrder(f.missing.Keys) && |e.times| <= |e.wanted|)
  }

  /** Full details or the time of a transaction are still to come. */
  ghost predicate Waits(f: Found, id: Txid) {
    id in f.needed || id in f.missing
  }

  // ---- Lists of transactions ----

  /** A listed transaction is finished with the height listed, or needs its details or its time. */
  lemma NoteExactly(db: Db, f: Found, id: Txid, height: Option<nat>)
    requires KnownById(db.txs) && KnownById(f.missing)
    ensures var g := Note(db, f, id, height);
            && KnownById(g.missing)
            && g.finished == (if Settled(db, id, height) then f.finished + [Details(id, height)] else f.finished)
            && (forall x :: Waits(g, x) <==> Waits(f, x) || (x == id && !Settled(db, id, height)))
            && (id in db.txs ==> g.needed == f.needed)
  {
  }

  lemma {:induction false} NoteListExactly(db: Db, f: Found, list: TxList, n: nat)
    requires KnownById(db.txs) && KnownById(f.missing) && n <= |list|
    ensures var g := NoteList(db, f, list, n);
            && KnownById(g.missing)
            && (forall d :: d in g.finished <==> d in f.finished || (Settled(db, d.txid, d.height) && InList(list, n, d.txid, d.height)))
            && (forall x :: Waits(g, x) <==> Waits(f, x) || exists h :: InList(list, n, x, h) && !Settled(db, x, h))
  {
    if n > 0 {
      NoteListExactly(db, f, list, n - 1);
      var (id, height) := list[n - 1];
      NoteExactly(db, NoteList(db, f, list, n - 1), id, height);
      InListNext(list, n);
      hide Note, Settled, KnownById, Waits, InList;
      var g, g' := NoteList(db, f, list, n - 1), NoteList(db, f, list, n);
      forall x
        ensures Waits(g', x) <==> Waits(f, x) || exists h :: InList(list, n, x, h) && !Settled(db, x, h)
      {
        if h :| InList(list, n - 1, x, h) && !Settled(db, x, h) {
          assert InList(list, n, x, h);
        }
        if h :| InList(list, n, x, h) && !Settled(db, x, h) {
          assert InList(list, n - 1, x, h) || (x == id && h == height);
        }
        if x == id && !Settled(db, id, height) {
          assert InList(list, n, x, height);
        }
      }
    }
  }

  lemma InListNext(list: TxList, n: nat)
    requires 0 < n <= |list|
    ensures forall id: Txid, h :: InList(list, n, id, h) <==> InList(list, n - 1, id, h) || list[n - 1] == (id, h)
  {
    forall id: Txid, h
      ensures InList(list, n, id, h) <==> InList(list, n - 1, id, h) || list[n - 1] == (id, h)
    {
      if j :| 0 <= j < n && list[j] == (id, h) {
        assert j < n - 1 ==> InList(list, n - 1, id, h);
      }
    }
  }

  lemma {:induction false} NoteAllExactly(db: Db, f: Found, lists: seq<TxList>, n: nat)
    requires KnownById(db.txs) && KnownById(f.missing) && n <= |lists|
    ensures var g := NoteAll(db, f, lists, n);
            && KnownById(g.missing)
            && (forall d :: d in g.finished <==> d in f.finished || (Settled(db, d.txid, d.height) && InLists(lists, n, d.txid, d.height)))
            && (forall x :: Waits(g, x) <==> Waits(f, x) || exists h :: InLists(lists, n, x, h) && !Settled(db, x, h))
  {
    if n > 0 {
      NoteAllExactly(db, f, lists, n - 1);
      var list := lists[n - 1];
      NoteListExactly(db, NoteAll(db, f, lists, n - 1), list, |list|);
      InListsNext(lists, n);
      hide NoteList, Settled, KnownById, Waits, InList, InLists;
      var g' := NoteAll(db, f, lists, n);
      forall x
        ensures Waits(g', x) <==> Waits(f, x) || exists h :: InLists(lists, n, x, h) && !Settled(db, x, h)
      {
        if h :| InLists(lists, n - 1, x, h) && !Settled(db, x, h) {
          assert InLists(lists, n, x, h);
        }
        if h :| InList(list, |list|, x, h) && !Settled(db, x, h) {
          assert InLists(lists, n, x, h);
        }
        if h :| InLists(lists, n, x, h) && !Settled(db, x, h) {
          assert InLists(lists, n - 1, x, h) || InList(list, |list|, x, h);
        }
      }
    }
  }

  lemma InListsNext(lists: seq<TxList>, n: nat)
    requires 0 < n <= |lists|
    ensures forall id, h :: InLists(lists, n, id, h) <==>
              InLists(lists, n - 1, id, h) || InList(lists[n - 1], |lists[n - 1]|, id, h)
  {
    hide InList;
    forall id, h
      ensures InLists(lists, n, id, h) <==> InLists(lists, n - 1, id, h) || InList(lists[n - 1], |lists[n - 1]|, id, h)
    {
      if i :| 0 <= i < n && InList(lists[i], |lists[i]|, id, h) {
        assert i < n - 1 ==> InLists(lists, n - 1, id, h);
      }
    }
  }

  // ---- Details and times ----

  lemma {:induction false} MovedExactly(f: Found, wanted: seq<Txid>, n: nat)
    requires KnownById(f.missing) && n <= |wanted| && forall i :: 0 <= i < n ==> wanted[i] in f.needed
    ensures var g := Moved(f, wanted, n);
            && KnownById(g.missing) && g.finished == f.finished
            && (forall x :: Waits(g, x) <==> Waits(f, x))
  {
    if n > 0 {
      MovedExactly(f, wanted, n - 1);
    }
  }

  lemma TimesGive(f: Found, e: Exchange)
    requires e.OfTimes? && e.wanted == InOrder(f.missing.Keys) && |e.times| <= |e.wanted| && KnownById(f.missing)
    ensures var g := Timed(f, e.wanted, e.times, |e.times|);
            && KnownById(g.missing) && g.needed == f.needed
            && (forall d :: d in g.finished <==> d in f.finished || Gives(e, d.txid, d.height))
            && (forall x :: Waits(g, x) <==> x in f.needed || (x in f.missing && !(exists h :: Gives(e, x, h))))
  {
    TimedExactly(f, e.wanted, e.times, |e.times|);
    TimedKeepsNeeded(f, e.wanted, e.times, |e.times|);
    TimedPrefix(f, e.wanted, e.times, |e.times|);
    hide Timed, InOrder, Gives;
    var g := Timed(f, e.wanted, e.times, |e.times|);
    forall d
      ensures d in g.finished <==> d in f.finished || Gives(e, d.txid, d.height)
    {
      AddedGive(f.finished, g.finished, e, d);
    }
    forall x
      ensures x in FirstOf(e.wanted, |e.times|) <==> exists h :: Gives(e, x, h)
    {
      FirstGiven(e, x);
    }
    hide FirstOf;
  }

  lemma AddedGive(was: seq<Details>, now: seq<Details>, e: Exchange, d: Details)
    requires e.OfTimes? && |e.times| <= |e.wanted| && was <= now && |now| == |was| + |e.times|
    requires forall i :: 0 <= i < |e.times| ==> now[|was| + i] == Details(e.wanted[i], e.times[i])
    ensures d in now <==> d in was || Gives(e, d.txid, d.height)
  {
    var n := |was|;
    if d in now {
      var i :| 0 <= i < |now| && now[i] == d;
      if i >= n {
        assert now[n + (i - n)] == Details(e.wanted[i - n], e.times[i - n]);
        assert e.wanted[i - n] == d.txid && e.times[i - n] == d.height;
      }
    }
    if i :| 0 <= i < |e.times| && e.wanted[i] == d.txid && e.times[i] == d.height {
      assert now[n + i] == d;
    }
  }

  lemma FirstGiven(e: Exchange, x: Txid)
    requires e.OfTimes? && |e.times| <= |e.wanted|
    ensures x in FirstOf(e.wanted, |e.times|) <==> exists h :: Gives(e, x, h)
  {
    if x in FirstOf(e.wanted, |e.times|) {
      var i :| 0 <= i < |e.times| && e.wanted[i] == x;
      assert Gives(e, x, e.times[i]);
    }
  }

  lemma {:induction false} TimedKeepsNeeded(f: Found, wanted: seq<Txid>, times: seq<Option<nat>>, n: nat)
    requires n <= |wanted| && n <= |times|
    ensures Timed(f, wanted, times, n).needed == f.needed
  {
    if n > 0 {
      TimedKeepsNeeded(f, wanted, times, n - 1);
    }
  }

  lemma {:induction false} TimedPrefix(f: Found, wanted: seq<Txid>, times: seq<Option<nat>>, n: nat)
    requires n <= |wanted| && n <= |times|
    ensures f.finished <= Timed(f, wanted, times, n).finished
  {
    if n > 0 {
      TimedPrefix(f, wanted, times, n - 1);
    }
  }

  // ---- Whole syncs ----

  /** Finished are exactly the listed transactions that need nothing, at the height listed, and those given a time. */
  ghost predicate HeightsSaid(db: Db, trace: seq<Exchange>, finished: seq<Details>) {
    forall d :: d in finished <==>
      (Settled(db, d.txid, d.height) && Listed(trace, d.txid, d.height)) || Given(trace, d.txid, d.height)
  }

  /** Every other listed transaction waits or was given a time. */
  ghost predicate OthersWait(db: Db, trace: seq<Exchange>, f: Found) {
    forall id, h :: Listed(trace, id, h) && !Settled(db, id, h) ==> Waits(f, id) || exists t :: Given(trace, id, t)
  }

  lemma {:induction false} Heights(db: Db, trace: seq<Exchange>)
    requires KnownById(db.txs) && Asks(db, trace)
    ensures var f := Replay(db, trace);
            KnownById(f.missing) && HeightsSaid(db, trace, f.finished) && OthersWait(db, trace, f)
  {
    if trace != [] {
      var k := |trace| - 1;
      AsksPrefix(db, trace);
      Heights(db, trace[..k]);
      var f, f', e := Replay(db, trace[..k]), Replay(db, trace), trace[k];
      TraceNext(trace);
      OneExchange(db, f, e);
      hide Replay, Applied, AsksAt, Settled, Waits, Lists, Gives, KnownById, Asks;
      assert f' == Applied(db, f, e);
      SaidNext(db, trace, f, f');
      WaitNext(db, trace, f, f');
    }
  }

  lemma AsksPrefix(db: Db, trace: seq<Exchange>)
    requires Asks(db, trace) && trace != []
    ensures Asks(db, trace[..|trace| - 1]) && AsksAt(db, trace, |trace| - 1)
    ensures Replay(db, trace) == Applied(db, Replay(db, trace[..|trace| - 1]), trace[|trace| - 1])
  {
    hide Applied, Replay;
    var k := |trace| - 1;
    forall i | 0 <= i < k
      ensures AsksAt(db, trace[..k], i)
    {
      assert AsksAt(db, trace, i) && trace[..k][..i] == trace[..i];
    }
    ReplayLast(db, trace);
  }

  lemma ReplayLast(db: Db, trace: seq<Exchange>)
    requires trace != []
    ensures Replay(db, trace) == Applied(db, Replay(db, trace[..|trace| - 1]), trace[|trace| - 1])
  {
    hide Applied;
  }

  lemma TraceNext(trace: seq<Exchange>)
    requires trace != []
    ensures var k := |trace| - 1;
            && (forall id, h :: Listed(trace, id, h) <==> Listed(trace[..k], id, h) || Lists(trace[k], id, h))
            && (forall id, h :: Given(trace, id, h) <==> Given(trace[..k], id, h) || Gives(trace[k], id, h))
  {
    hide Lists, Gives;
    var k := |trace| - 1;
    assert forall i :: 0 <= i < k ==> trace[..k][i] == trace[i];
    forall id, h
      ensures Listed(trace, id, h) <==> Listed(trace[..k], id, h) || Lists(trace[k], id, h)
      ensures Given(trace, id, h) <==> Given(trace[..k], id, h) || Gives(trace[k], id, h)
    {
      if i :| 0 <= i < |trace| && Lists(trace[i], id, h) {
        assert i < k ==> Lists(trace[..k][i], id, h);
      }
      if i :| 0 <= i < |trace| && Gives(trace[i], id, h) {
        assert i < k ==> Gives(trace[..k][i], id, h);
      }
      if i :| 0 <= i < k && Lists(trace[..k][i], id, h) {
        assert Lists(trace[i], id, h);
      }
      if i :| 0 <= i < k && Gives(trace[..k][i], id, h) {
        assert Gives(trace[i], id, h);
      }
    }
  }

  /** What one exchange adds. */
  ghost predicate Adds(db: Db, f: Found, e: Exchange, g: Found) {
    && KnownById(g.missing)
    && (forall d :: d in g.finished <==>
          d in f.finished || (Settled(db, d.txid, d.height) && Lists(e, d.txid, d.height)) || Gives(e, d.txid, d.height))
    && (forall x, h :: Lists(e, x, h) && !Settled(db, x, h) ==> Waits(g, x))
    && (forall x :: Waits(f, x) ==> Waits(g, x) || exists t :: Gives(e, x, t))
  }

  lemma OneExchange(db: Db, f: Found, e: Exchange)
    requires KnownById(db.txs) && KnownById(f.missing)
    requires e.OfTxs? ==> |e.txids| <= |InOrder(f.needed)|
    requires e.OfTimes? ==> e.wanted == InOrder(f.missing.Keys) && |e.times| <= |e.wanted|
    ensures Adds(db, f, e, Applied(db, f, e))
  {
    match e
    case OfScripts(_, _, lists) =>
      NoteAllExactly(db, f, lists, |lists|);
      hide NoteAll, Settled, Waits, InLists, KnownById;
    case OfTxs(_, txids) =>
      InOrderMembers(f.needed);
      var wanted := InOrder(f.needed);
      hide InOrder;
      assert forall i :: 0 <= i < |wanted| ==> wanted[i] in f.needed;
      MovedExactly(f, wanted, |txids|);
      hide Moved, Settled, Waits, KnownById;
    case OfTimes(wanted, times) =>
      TimesGive(f, e);
      hide Timed, InOrder, Settled, Gives, KnownById;
  }

  lemma SaidNext(db: Db, trace: seq<Exchange>, f: Found, g: Found)
    requires trace != [] && Adds(db, f, trace[|trace| - 1], g) && HeightsSaid(db, trace[..|trace| - 1], f.finished)
    ensures HeightsSaid(db, trace, g.finished)
  {
    TraceNext(trace);
    hide Settled, Listed, Given, Lists, Gives, Waits, KnownById;
  }

  lemma WaitNext(db: Db, trace: seq<Exchange>, f: Found, g: Found)
    requires trace != [] && Adds(db, f, trace[|trace| - 1], g) && OthersWait(db, trace[..|trace| - 1], f)
    ensures OthersWait(db, trace, g)
  {
    TraceNext(trace);
    hide Settled, Listed, Given, Lists, Gives, Waits, KnownById;
    var k := |trace| - 1;
    forall id, h | Listed(trace, id, h) && !Settled(db, id, h)
      ensures Waits(g, id) || exists t :: Given(trace, id, t)
    {
      if Listed(trace[..k], id, h) {
        if t :| Given(trace[..k], id, t) {
          assert Given(trace, id, t);
        } else if !Waits(g, id) {
          var t :| Gives(trace[k], id, t);
          assert Given(trace, id, t);
        }
      }
    }
  }

  // ---- A sync with a server ----

  lemma ServedAsks(db: Db, server: Server, trace: seq<Exchange>)
    requires Serves(server) && AllServed(db, server, trace)
    ensures Asks(db, trace)
  {
    forall k | 0 <= k < |trace|
      ensures AsksAt(db, trace, k)
    {
      hide Replay, InOrder, Activity;
      assert Served(db, server, trace, k);
    }
  }

  /**
   Of every sync with an orderly server: finished transactions have exactly the heights its answers
   listed, where the database agrees, and otherwise the times its answers gave; once nothing waits,
   every listed transaction has one of these.
   */
  lemma SyncedHeights(db: Db, server: Server, trace: seq<Exchange>)
    requires KnownById(db.txs) && Serves(server) && AllServed(db, server, trace)
    ensures var f := Replay(db, trace);
            && HeightsSaid(db, trace, f.finished)
            && (f.needed == {} && f.missing == map[] ==>
                  forall id: Txid, h :: Listed(trace, id, h) && !Settled(db, id, h) ==> exists t :: Given(trace, id, t))
  {
    ServedAsks(db, server, trace);
    Heights(db, trace);
    hide KnownById, Serves, AllServed, HeightsSaid, Listed, Given, Settled, Replay, Asks;
    assert forall f, id :: f == Replay(db, trace) && f.needed == {} && f.missing == map[] ==> !Waits(f, id);
  }
}
