/** Subsequences picked by flags. */
module Selections {
  /** The flagged elements, in their order. */
  function Pick<T>(xs: seq<T>, flags: seq<bool>): seq<T>
    requires |flags| <= |xs|
  {
    if flags == [] then [] else
    var k := |flags| - 1;
    Pick(xs, flags[..k]) + (if flags[k] then [xs[k]] else [])
  }

  lemma PickNext<T>(xs: seq<T>, flags: seq<bool>, keep: bool)
    requires |flags| < |xs|
    ensures Pick(xs, flags + [keep]) == if keep then Pick(xs, flags) + [xs[|flags|]] else Pick(xs, flags)
  {
    assert (flags + [keep])[..|flags|] == flags;
  }

  /** An element is picked exactly when it is at a flagged position. */
  lemma {:induction false} PickHas<T>(xs: seq<T>, flags: seq<bool>, x: T)
    requires |flags| <= |xs|
    ensures x in Pick(xs, flags) <==> exists i :: 0 <= i < |flags| && flags[i] && xs[i] == x
  {
    if flags != [] {
      var k := |flags| - 1;
      PickHas(xs, flags[..k], x);
      if i :| 0 <= i < k && flags[..k][i] && xs[i] == x {
        assert flags[i] && xs[i] == x;
      }
      if i :| 0 <= i < |flags| && flags[i] && xs[i] == x {
        assert i < k ==> flags[..k][i] && xs[i] == x;
      }
    }
  }

  /** When all are flagged, all are picked. */
  lemma {:induction false} PickAll<T>(xs: seq<T>, flags: seq<bool>)
    requires |flags| <= |xs| && forall i :: 0 <= i < |flags| ==> flags[i]
    ensures Pick(xs, flags) == xs[..|flags|]
  {
    if flags != [] {
      PickAll(xs, flags[..|flags| - 1]);
    }
  }
}
