/** Maps in the order of their keys, as sorted maps are iterated. */
module KeyOrder {
  ghost predicate IsLeast(s: set<nat>, k: nat) {
    k in s && forall j :: j in s ==> k <= j
  }

  function LeastOf(s: set<nat>): (k: nat)
    requires s != {}
    ensures IsLeast(s, k)
  {
    LeastExists(s);
    var k :| k in s && forall j :: j in s ==> k <= j;
    k
  }

  lemma {:induction false} LeastExists(s: set<nat>)
    requires s != {}
    ensures exists k :: IsLeast(s, k)
  {
    var x :| x in s;
    if s - {x} == {} {
      assert s == {x};
      assert IsLeast(s, x);
    } else {
      LeastExists(s - {x});
      var k :| IsLeast(s - {x}, k);
      LeastWith(s, x, k);
    }
  }

  lemma LeastWith(s: set<nat>, x: nat, k: nat)
    requires x in s && IsLeast(s - {x}, k)
    ensures IsLeast(s, if k <= x then k else x)
  {
    forall j | j in s
      ensures (if k <= x then k else x) <= j
    {
      assert j == x || j in s - {x};
    }
  }

  /** The entries of a map, smallest key first. */
  function Entries<V>(m: map<nat, V>): seq<(nat, V)> {
    if m == map[] then [] else
    var k := LeastOf(m.Keys);
    [(k, m[k])] + Entries(m - {k})
  }

  /** The map that inserting entries one after the other gives. */
  function Inserted<V>(m: map<nat, V>, entries: seq<(nat, V)>): map<nat, V>
    decreases entries
  {
    if entries == [] then m else Inserted(m[entries[0].0 := entries[0].1], entries[1..])
  }

  lemma {:induction false} EntriesOf<V>(m: map<nat, V>)
    ensures |Entries(m)| == |m|
    ensures forall i :: 0 <= i < |Entries(m)| ==> Entries(m)[i].0 in m && m[Entries(m)[i].0] == Entries(m)[i].1
  {
    if m != map[] {
      var k := LeastOf(m.Keys);
      assert m.Keys == (m - {k}).Keys + {k};
      EntriesOf(m - {k});
    }
  }

  lemma {:induction false} EntriesSorted<V>(m: map<nat, V>, i: nat, j: nat)
    requires i < j < |Entries(m)|
    ensures Entries(m)[i].0 < Entries(m)[j].0
  {
    var k := LeastOf(m.Keys);
    var rest := Entries(m - {k});
    EntriesOf(m - {k});
    assert Entries(m)[j] == rest[j - 1];
    if i > 0 {
      EntriesSorted(m - {k}, i - 1, j - 1);
    }
  }

  lemma {:induction false} EntriesRebuild<V>(m: map<nat, V>, acc: map<nat, V>)
    ensures Inserted(acc, Entries(m)) == acc + m
  {
    if m != map[] {
      var k := LeastOf(m.Keys);
      EntriesRebuild(m - {k}, acc[k := m[k]]);
      assert Entries(m)[1..] == Entries(m - {k});
      assert acc[k := m[k]] + (m - {k}) == acc + m;
    } else {
      assert acc + m == acc;
    }
  }

  /** The elements of a set, smallest first. */
  function InOrder(s: set<nat>): seq<nat> {
    if s == {} then [] else [LeastOf(s)] + InOrder(s - {LeastOf(s)})
  }

  lemma {:induction false} InOrderMembers(s: set<nat>)
    ensures |InOrder(s)| == |s| && forall x :: x in InOrder(s) <==> x in s
  {
    if s != {} {
      var k := LeastOf(s);
      InOrderMembers(s - {k});
      hide LeastOf;
      assert s == (s - {k}) + {k};
    }
  }

  lemma {:induction false} InOrderSorted(s: set<nat>, i: nat, j: nat)
    requires i < j < |InOrder(s)|
    ensures InOrder(s)[i] < InOrder(s)[j]
  {
    var k := LeastOf(s);
    var rest := InOrder(s - {k});
    InOrderMembers(s - {k});
    if i > 0 {
      InOrderSorted(s - {k}, i - 1, j - 1);
    } else {
      assert InOrder(s)[j] == rest[j - 1];
      assert rest[j - 1] in rest;
    }
  }
}
