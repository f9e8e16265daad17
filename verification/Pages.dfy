/**
 Pages of recorded transaction ids and the inventory (`put_txs_ids_to_page` and `update_inv` of
 `crates/controller/src/handler.rs`).
 */
module Pages {
  import opened Numbers
  import opened Options

  type Txid = nat

  function Concat<T>(ss: seq<seq<T>>): seq<T> {
    if ss == [] then [] else Concat(ss[..|ss| - 1]) + ss[|ss| - 1]
  }

  lemma ConcatSnoc<T>(ss: seq<seq<T>>, s: seq<T>)
    ensures Concat(ss + [s]) == Concat(ss) + s
  {
    assert (ss + [s])[..|ss|] == ss;
  }

  // ---- Pages ----

  /** Every page but the last is full; the last is not overfull, and empty only if it is the only one. */
  ghost predicate WellPaged(pages: seq<seq<Txid>>, size: nat) {
    && pages != []
    && (forall i :: 0 <= i < |pages| - 1 ==> |pages[i]| == size)
    && |pages[|pages| - 1]| <= size
    && (|pages| > 1 ==> pages[|pages| - 1] != [])
  }

  lemma {:induction false} FullPagesLength(pages: seq<seq<Txid>>, size: nat)
    requires forall i :: 0 <= i < |pages| ==> |pages[i]| == size
    ensures |Concat(pages)| == |pages| * size
  {
    if pages != [] {
      FullPagesLength(pages[..|pages| - 1], size);
      assert |pages| * size == (|pages| - 1) * size + size;
    }
  }

  /** How many pages a sequence takes. */
  lemma PagesCount(pages: seq<seq<Txid>>, size: nat)
    requires WellPaged(pages, size) && size > 0
    ensures |pages| > 0 && (|pages| - 1) * size <= |Concat(pages)| <= |pages| * size
    ensures |pages| > 1 ==> (|pages| - 1) * size < |Concat(pages)|
  {
    FullPagesLength(pages[..|pages| - 1], size);
    assert |pages| * size == (|pages| - 1) * size + size;
  }

  lemma FewerPages(m: nat, n: nat, size: nat)
    requires m < n
    ensures m * size <= (n - 1) * size
  {
  }

  lemma SameCount(a: seq<seq<Txid>>, b: seq<seq<Txid>>, size: nat)
    requires WellPaged(a, size) && WellPaged(b, size) && size > 0 && Concat(a) == Concat(b)
    ensures |a| >= |b|
  {
    hide WellPaged, Concat;
    PagesCount(a, size);
    PagesCount(b, size);
    if |a| < |b| {
      FewerPages(|a|, |b|, size);
      assert false;
    }
  }

  /** Two well-paged lists of the same ids are the same: batches leave no trace in the pages. */
  lemma PagesUnique(a: seq<seq<Txid>>, b: seq<seq<Txid>>, size: nat)
    requires WellPaged(a, size) && WellPaged(b, size) && size > 0 && Concat(a) == Concat(b)
    ensures a == b
  {
    SameCount(a, b, size);
    SameCount(b, a, size);
    var k := |a| - 1;
    FullPagesLength(a[..k], size);
    FullPagesLength(b[..k], size);
    var all := Concat(a);
    assert a[k] == all[k * size..] == b[k];
    assert Concat(a[..k]) == all[..k * size] == Concat(b[..k]);
    FullPagesUnique(a[..k], b[..k], size);
    assert a == a[..k] + [a[k]] && b == b[..k] + [b[k]];
  }

  lemma {:induction false} FullPagesUnique(a: seq<seq<Txid>>, b: seq<seq<Txid>>, size: nat)
    requires |a| == |b| && Concat(a) == Concat(b)
    requires forall i :: 0 <= i < |a| ==> |a[i]| == size && |b[i]| == size
    ensures a == b
  {
    if a != [] {
      var k := |a| - 1;
      var all := Concat(a);
      var n := |all| - size;
      assert Concat(a[..k]) == all[..n] == Concat(b[..k]);
      assert a[k] == all[n..] == b[k];
      FullPagesUnique(a[..k], b[..k], size);
      assert a == a[..k] + [a[k]] && b == b[..k] + [b[k]];
    }
  }

  /** There is always a last page, perhaps empty. */
  type PageList = p: seq<seq<Txid>> | p != [] witness [[]]

  type PageSize = n: nat | n > 0 witness 1

  /** How many ids still fit in the last page. */
  function Space(pages: PageList, size: nat): nat {
    var last := pages[|pages| - 1];
    if size >= |last| then size - |last| else 0
  }

  /** The pages after a chunk: what is left of the last page is filled first. */
  function Appended(pages: PageList, txids: seq<Txid>, size: nat): PageList {
    var k := |pages| - 1;
    var at := Least(Space(pages, size), |txids|);
    var filled := pages[..k] + [pages[k] + txids[..at]];
    if txids[at..] == [] then filled else filled + [txids[at..]]
  }

  /** A chunk is recorded after all before it; pages stay well formed exactly when it fits on two. */
  lemma AppendedPaged(pages: PageList, txids: seq<Txid>, size: nat)
    requires WellPaged(pages, size)
    ensures WellPaged(Appended(pages, txids, size), size) <==> |txids| <= Space(pages, size) + size
    ensures Concat(Appended(pages, txids, size)) == Concat(pages) + txids
  {
    var k := |pages| - 1;
    var at := Least(Space(pages, size), |txids|);
    AppendedConcat(pages[..k], pages[k], txids, at);
    AppendedFits(pages, txids, size);
    hide Concat, WellPaged;
    assert pages == pages[..k] + [pages[k]];
  }

  lemma AppendedFits(pages: PageList, txids: seq<Txid>, size: nat)
    requires WellPaged(pages, size)
    ensures WellPaged(Appended(pages, txids, size), size) <==> |txids| <= Space(pages, size) + size
  {
    var after := Appended(pages, txids, size);
    assert forall i :: 0 <= i < |pages| - 1 ==> after[i] == pages[i];
  }

  /** The pages after a batch, recorded in chunks of a page. */
  function Chunked(pages: PageList, txids: seq<Txid>, size: PageSize): PageList
    decreases |txids|
  {
    if txids == [] then pages else
    var n := Least(size, |txids|);
    Chunked(Appended(pages, txids[..n], size), txids[n..], size)
  }

  lemma {:induction false} ChunkedPaged(pages: PageList, txids: seq<Txid>, size: PageSize)
    requires WellPaged(pages, size)
    ensures WellPaged(Chunked(pages, txids, size), size) && Concat(Chunked(pages, txids, size)) == Concat(pages) + txids
    decreases |txids|
  {
    hide Concat, WellPaged, Appended;
    if txids == [] {
      assert Concat(pages) + txids == Concat(pages);
    } else {
      var n := Least(size, |txids|);
      AppendedPaged(pages, txids[..n], size);
      ChunkedPaged(Appended(pages, txids[..n], size), txids[n..], size);
      assert Concat(pages) + txids[..n] + txids[n..] == Concat(pages) + txids;
    }
  }

  lemma AppendedConcat(pages: seq<seq<Txid>>, last: seq<Txid>, txids: seq<Txid>, at: nat)
    requires at <= |txids|
    ensures Concat(pages + [last + txids[..at]] + [txids[at..]]) == Concat(pages + [last]) + txids
    ensures at == |txids| ==> Concat(pages + [last + txids[..at]]) == Concat(pages + [last]) + txids
  {
    hide Concat;
    ConcatSnoc(pages, last);
    ConcatSnoc(pages, last + txids[..at]);
    ConcatSnoc(pages + [last + txids[..at]], txids[at..]);
    Regrouped(Concat(pages), last, txids[..at], txids[at..]);
    assert txids[..at] + txids[at..] == txids;
    if at == |txids| {
      Regrouped(Concat(pages), last, txids, []);
      assert txids[..at] == txids && txids + [] == txids;
      assert Concat(pages) + (last + txids) + [] == Concat(pages) + (last + txids);
    }
  }

  lemma Regrouped<T>(a: seq<T>, b: seq<T>, c: seq<T>, d: seq<T>)
    ensures a + (b + c) + d == a + b + (c + d)
  {
  }

  class PageStorage {
    const size: PageSize
    var number: Option<nat>
    var pages: map<nat, seq<Txid>>

    function Last(): nat
      reads this
    {
      if number.Some? then number.value else 0
    }

    function Page(i: nat): seq<Txid>
      reads this
    {
      if i in pages then pages[i] else []
    }

    function All(): PageList
      reads this
    {
      seq(Last() + 1, i requires 0 <= i <= Last() reads this => Page(i))
    }

    ghost predicate Valid()
      reads this
    {
      WellPaged(All(), size) && InUse()
    }

    ghost predicate InUse()
      reads this
    {
      forall i :: i in pages ==> i <= Last()
    }

    function Recorded(): seq<Txid>
      reads this
    {
      Concat(All())
    }

    constructor (perPage: PageSize)
      ensures Valid() && size == perPage && Recorded() == []
    {
      size := perPage;
      number := None;
      pages := map[];
      new;
      assert All() == [[]];
      ConcatSnoc<Txid>([], []);
      assert [] + [[]] == All();
    }

    /** `put_txs_ids_to_page`: no page is overfull after it exactly when the ids fit on two pages. */
    method PutIds(txids: seq<Txid>)
      requires Valid()
      modifies this
      ensures All() == Appended(old(All()), txids, size) && InUse()
      ensures Recorded() == old(Recorded()) + txids
      ensures Valid() <==> |txids| <= old(Space(All(), size)) + size
    {
      hide WellPaged, Concat;
      AppendedPaged(All(), txids, size);
      ghost var before := All();
      var lastNumber := Last();
      var lastPage := Page(lastNumber);
      var left := if size >= |lastPage| then size - |lastPage| else 0;
      var at := Least(left, |txids|);
      var current, next := txids[..at], txids[at..];
      if current != [] {
        pages := pages[lastNumber := lastPage + current];
      }
      assert Page(lastNumber) == lastPage + current;
      assert All() == before[..lastNumber] + [lastPage + current];
      if next != [] {
        pages := pages[lastNumber + 1 := next];
        number := Some(lastNumber + 1);
        assert All() == before[..lastNumber] + [lastPage + current] + [next];
      }
    }

    /** The ids of one batch, in chunks of a page. */
    method PutBatch(txids: seq<Txid>)
      requires Valid()
      modifies this
      ensures All() == Chunked(old(All()), txids, size)
      ensures Valid() && Recorded() == old(Recorded()) + txids
    {
      hide WellPaged, Concat, Appended;
      var start := 0;
      assert txids[0..] == txids;
      while start < |txids|
        invariant 0 <= start <= |txids| && Valid()
        invariant Chunked(All(), txids[start..], size) == Chunked(old(All()), txids, size)
      {
        var end := if start + size <= |txids| then start + size else |txids|;
        ghost var n := Least(size, |txids[start..]|);
        assert txids[start..][..n] == txids[start..end] && txids[start..][n..] == txids[end..];
        PutIds(txids[start..end]);
        start := end;
      }
      assert txids[start..] == [];
      ChunkedPaged(old(All()), txids, size);
    }

    /** Any run of attached and announcement batches. */
    method PutBatches(batches: seq<seq<Txid>>)
      requires Valid()
      modifies this
      ensures Valid() && Recorded() == old(Recorded()) + Concat(batches)
    {
      hide WellPaged, Concat, Chunked;
      ConcatNone(Recorded());
      for i := 0 to |batches|
        invariant Valid() && Recorded() == old(Recorded()) + Concat(batches[..i])
      {
        PutBatch(batches[i]);
        assert batches[..i + 1] == batches[..i] + [batches[i]];
        ConcatSnoc(batches[..i], batches[i]);
        assert old(Recorded()) + Concat(batches[..i]) + batches[i] == old(Recorded()) + Concat(batches[..i + 1]);
      }
      assert batches[..|batches|] == batches;
    }
  }

  lemma ConcatNone(s: seq<Txid>)
    ensures s + Concat([]) == s
  {
  }

  // ---- Inventory ----

  /** The last `n` elements, or all. */
  function Tail<T>(s: seq<T>, n: nat): seq<T> {
    if |s| <= n then s else s[|s| - n..]
  }

  /** The newest `n`, or all if there are not more. */
  lemma TailIsSuffix<T>(s: seq<T>, n: nat)
    ensures var t := Tail(s, n); |t| == Least(|s|, n) && s == s[..|s| - |t|] + t
  {
  }

  lemma TailOfTail<T>(a: seq<T>, b: seq<T>, n: nat)
    ensures Tail(Tail(a, n) + b, n) == Tail(a + b, n)
  {
  }

  class Inventory {
    var inv: seq<Txid>

    constructor (ids: seq<Txid>)
      ensures inv == ids
    {
      inv := ids;
    }

    /** `update_inv`. */
    method Update(txids: seq<Txid>, maxSize: nat)
      modifies this
      ensures inv == Tail(old(inv) + txids, maxSize)
    {
      if |inv| + |txids| < maxSize {
        inv := inv + txids;
        return;
      }
      var txs := txids;
      if |txs| >= maxSize {
        txs := txs[|txs| - maxSize..];
      }
      var excess := if |inv| + |txs| >= maxSize then |inv| + |txs| - maxSize else 0;
      inv := inv[excess..];
      inv := inv + txs;
    }

    /** Any run of updates keeps the last ids ever appended. */
    method UpdateAll(batches: seq<seq<Txid>>, maxSize: nat)
      requires |inv| <= maxSize
      modifies this
      ensures inv == Tail(old(inv) + Concat(batches), maxSize)
    {
      hide Tail, Concat;
      StartsWhole(inv, maxSize);
      for i := 0 to |batches|
        invariant inv == Tail(old(inv) + Concat(batches[..i]), maxSize)
      {
        Update(batches[i], maxSize);
        TailOfTail(old(inv) + Concat(batches[..i]), batches[i], maxSize);
        assert batches[..i + 1] == batches[..i] + [batches[i]];
        ConcatSnoc(batches[..i], batches[i]);
        assert old(inv) + Concat(batches[..i]) + batches[i] == old(inv) + Concat(batches[..i + 1]);
      }
      assert batches[..|batches|] == batches;
    }
  }

  lemma StartsWhole(inv: seq<Txid>, n: nat)
    requires |inv| <= n
    ensures inv == Tail(inv + Concat([]), n)
  {
    assert inv + Concat([]) == inv;
  }
}
