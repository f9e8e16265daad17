/** Largest-first coin selection (`crates/dev-kit/src/yuv_coin_selection.rs`). */
module CoinSelection {
  import opened Numbers

  type Chroma = nat

  datatype Coin = Coin(outpoint: nat, chroma: Chroma, amount: nat, opReturn: bool)

  datatype Selection = Selection(selected: seq<Coin>, amount: nat)

  function Sum(coins: seq<Coin>): nat {
    if coins == [] then 0 else Sum(coins[..|coins| - 1]) + coins[|coins| - 1].amount
  }

  lemma SumSnoc(coins: seq<Coin>, c: Coin)
    ensures Sum(coins + [c]) == Sum(coins) + c.amount
  {
    assert (coins + [c])[..|coins|] == coins;
  }

  lemma {:induction false} SumConcat(a: seq<Coin>, b: seq<Coin>)
    ensures Sum(a + b) == Sum(a) + Sum(b)
  {
    if b == [] {
      assert a + b == a;
    } else {
      var k := |b| - 1;
      assert (a + b)[..|a| + k] == a + b[..k];
      SumConcat(a, b[..k]);
    }
  }

  predicate Eligible(c: Coin, target: Chroma) {
    c.chroma == target && !c.opReturn
  }

  // ---- Steps of the selection ----

  /** Keeps the coins of the target chroma that are not on an OP_RETURN output, in order. */
  function Retained(coins: seq<Coin>, target: Chroma): seq<Coin> {
    if coins == [] then [] else
    var rest := Retained(coins[..|coins| - 1], target);
    var c := coins[|coins| - 1];
    if Eligible(c, target) then rest + [c] else rest
  }

  method Retain(coins: seq<Coin>, target: Chroma) returns (kept: seq<Coin>)
    ensures kept == Retained(coins, target)
  {
    kept := [];
    for i := 0 to |coins|
      invariant kept == Retained(coins[..i], target)
    {
      assert coins[..i + 1][..i] == coins[..i];
      if Eligible(coins[i], target) {
        kept := kept + [coins[i]];
      }
    }
    assert coins[..|coins|] == coins;
  }

  /** Each eligible coin is kept as often as it was offered, and no other. */
  lemma {:induction false} RetainedExactly(coins: seq<Coin>, target: Chroma, c: Coin)
    ensures multiset(Retained(coins, target))[c] == if c.chroma == target && !c.opReturn then multiset(coins)[c] else 0
  {
    if coins != [] {
      var k := |coins| - 1;
      RetainedExactly(coins[..k], target, c);
      assert coins == coins[..k] + [coins[k]];
    }
  }

  ghost predicate Ascending(s: seq<Coin>) {
    forall i, j :: 0 <= i < j < |s| ==> s[i].amount <= s[j].amount
  }

  ghost predicate Descending(s: seq<Coin>) {
    forall i, j :: 0 <= i < j < |s| ==> s[i].amount >= s[j].amount
  }

  lemma InsertedSorted(s: seq<Coin>, c: Coin, at: nat)
    requires Ascending(s) && at <= |s|
    requires forall j :: 0 <= j < at ==> s[j].amount < c.amount
    requires at < |s| ==> s[at].amount >= c.amount
    ensures Ascending(s[..at] + [c] + s[at..])
  {
    var r := s[..at] + [c] + s[at..];
    forall i, j | 0 <= i < j < |r|
      ensures r[i].amount <= r[j].amount
    {
      assert r[i] == if i < at then s[i] else if i == at then c else s[i - 1];
      assert r[j] == if j < at then s[j] else if j == at then c else s[j - 1];
    }
  }

  lemma InsertedSame(s: seq<Coin>, c: Coin, at: nat)
    requires at <= |s|
    ensures multiset(s[..at] + [c] + s[at..]) == multiset(s) + multiset{c}
  {
    assert s == s[..at] + s[at..];
  }

  /** One element taken out of a sequence is taken out of its multiset. */
  lemma TakenOut(s: seq<Coin>, i: nat)
    requires i < |s|
    ensures multiset(s) == multiset(s[..i] + s[i + 1..]) + multiset{s[i]}
  {
    assert s == s[..i] + [s[i]] + s[i + 1..];
  }

  method FindPlace(sorted: seq<Coin>, amount: nat) returns (at: nat)
    ensures at <= |sorted|
    ensures forall j :: 0 <= j < at ==> sorted[j].amount < amount
    ensures at < |sorted| ==> sorted[at].amount >= amount
  {
    at := 0;
    while at < |sorted| && sorted[at].amount < amount
      invariant at <= |sorted|
      invariant forall j :: 0 <= j < at ==> sorted[j].amount < amount
    {
      at := at + 1;
    }
  }

  lemma Cancelled(a: multiset<Coin>, b: multiset<Coin>, c: Coin)
    requires a + multiset{c} <= b + multiset{c}
    ensures a <= b
  {
    forall x
      ensures a[x] <= b[x]
    {
      assert (a + multiset{c})[x] <= (b + multiset{c})[x];
    }
  }

  /** Sorting by amount; callers may not rely on the order of equal amounts. */
  method SortByAmount(coins: seq<Coin>) returns (sorted: seq<Coin>)
    ensures Ascending(sorted) && multiset(sorted) == multiset(coins)
  {
    sorted := [];
    for i := 0 to |coins|
      invariant Ascending(sorted) && multiset(sorted) == multiset(coins[..i])
    {
      var at := FindPlace(sorted, coins[i].amount);
      InsertedSorted(sorted, coins[i], at);
      InsertedSame(sorted, coins[i], at);
      hide Ascending;
      assert coins[..i + 1] == coins[..i] + [coins[i]];
      sorted := sorted[..at] + [coins[i]] + sorted[at..];
    }
    assert coins[..|coins|] == coins;
  }

  method Reverse(s: seq<Coin>) returns (r: seq<Coin>)
    requires Ascending(s)
    ensures Descending(r) && multiset(r) == multiset(s)
  {
    r := [];
    for i := 0 to |s|
      invariant |r| == i && forall j :: 0 <= j < i ==> r[j] == s[i - 1 - j]
      invariant multiset(r) == multiset(s[..i])
    {
      assert s[..i + 1] == s[..i] + [s[i]];
      r := [s[i]] + r;
    }
    assert s[..|s|] == s;
  }

  /** The coins a scan of `coins` takes: all required ones, others while the amount is below the target. */
  function Scanned(coins: seq<(bool, Coin)>, amount: nat, target: nat): Selection {
    if coins == [] then Selection([], amount) else
    var (required, c) := coins[0];
    if !required && amount >= target then Selection([], amount) else
    var rest := Scanned(coins[1..], Wrap(amount + c.amount), target);
    Selection([c] + rest.selected, rest.amount)
  }

  /** `select_sorted_utxos`. */
  method SelectSorted(coins: seq<(bool, Coin)>, target: nat) returns (r: Selection)
    ensures r == Scanned(coins, 0, target)
  {
    hide Scanned, Wrap;
    var amount: nat, selected := 0, [];
    var i := 0;
    assert coins[0..] == coins;
    NothingSelected(Scanned(coins, 0, target));
    while i < |coins|
      invariant 0 <= i <= |coins|
      invariant Scanned(coins, 0, target) == Prefixed(selected, Scanned(coins[i..], amount, target))
    {
      ScanOne(coins[i..], amount, target, selected);
      var (required, c) := coins[i];
      if !required && amount >= target {
        return Selection(selected, amount);
      }
      assert coins[i..][1..] == coins[i + 1..];
      amount := Wrap(amount + c.amount);
      selected := selected + [c];
      i := i + 1;
    }
    assert coins[i..] == [];
    ScanNone(amount, target, selected);
    r := Selection(selected, amount);
  }

  ghost function Prefixed(first: seq<Coin>, rest: Selection): Selection {
    Selection(first + rest.selected, rest.amount)
  }

  lemma NothingSelected(s: Selection)
    ensures Prefixed([], s) == s
  {
    assert [] + s.selected == s.selected;
  }

  lemma ScanOne(coins: seq<(bool, Coin)>, amount: nat, target: nat, first: seq<Coin>)
    requires coins != []
    ensures var (required, c) := coins[0];
            Prefixed(first, Scanned(coins, amount, target)) ==
            if !required && amount >= target then Selection(first, amount)
            else Prefixed(first + [c], Scanned(coins[1..], Wrap(amount + c.amount), target))
  {
    var c := coins[0].1;
    var rest := Scanned(coins[1..], Wrap(amount + c.amount), target);
    assert first + [] == first;
    assert first + ([c] + rest.selected) == first + [c] + rest.selected;
  }

  lemma ScanNone(amount: nat, target: nat, first: seq<Coin>)
    ensures Prefixed(first, Scanned([], amount, target)) == Selection(first, amount)
  {
    assert first + [] == first;
  }

  function Tagged(coins: seq<Coin>, required: bool): seq<(bool, Coin)> {
    seq(|coins|, i requires 0 <= i < |coins| => (required, coins[i]))
  }

  // ---- What the scan takes ----

  /** How many optional coins the scan takes after the amount reached `amount`. */
  function Taken(optional: seq<Coin>, amount: nat, target: nat): (k: nat)
    ensures k <= |optional|
  {
    if optional == [] || amount >= target then 0
    else 1 + Taken(optional[1..], Wrap(amount + optional[0].amount), target)
  }

  ghost predicate PrefixTaken(optional: seq<Coin>, amount: nat, target: nat) {
    var k := Taken(optional, amount, target);
    Scanned(Tagged(optional, false), amount, target) == Selection(optional[..k], Wrap(amount + Sum(optional[..k])))
  }

  lemma {:induction false} ScannedOptional(optional: seq<Coin>, amount: nat, target: nat)
    requires Wrap(amount) == amount
    ensures PrefixTaken(optional, amount, target)
  {
    if optional == [] || amount >= target {
      NoCoins(optional);
    } else {
      hide PrefixTaken, Wrap;
      WrapAssoc(amount, optional[0].amount, 0);
      ScannedOptional(optional[1..], Wrap(amount + optional[0].amount), target);
      OneMoreTaken(optional, amount, target);
    }
  }

  lemma OneMoreTaken(optional: seq<Coin>, amount: nat, target: nat)
    requires optional != [] && amount < target && PrefixTaken(optional[1..], Wrap(amount + optional[0].amount), target)
    ensures PrefixTaken(optional, amount, target)
  {
    hide Scanned, Taken, Sum, Wrap, Tagged;
    var next := Wrap(amount + optional[0].amount);
    OptionalStep(optional, amount, target);
    var k := Taken(optional[1..], next, target);
    FirstSum(optional, k + 1);
    WrapAssoc(amount, optional[0].amount, Sum(optional[1..][..k]));
    assert optional[..k + 1] == [optional[0]] + optional[1..][..k];
  }

  lemma OptionalStep(optional: seq<Coin>, amount: nat, target: nat)
    requires optional != [] && amount < target
    ensures var next := Wrap(amount + optional[0].amount);
            var rest := Scanned(Tagged(optional[1..], false), next, target);
            && Taken(optional, amount, target) == Taken(optional[1..], next, target) + 1
            && Scanned(Tagged(optional, false), amount, target) == Selection([optional[0]] + rest.selected, rest.amount)
  {
    assert Tagged(optional, false)[0] == (false, optional[0]);
    assert Tagged(optional, false)[1..] == Tagged(optional[1..], false);
  }

  lemma ZeroWraps()
    ensures Wrap(0) == 0
  {
  }

  lemma WrapAssoc(a: nat, b: nat, c: nat)
    ensures Wrap(Wrap(a + b) + c) == Wrap(a + (b + c))
    ensures Wrap(Wrap(a + b)) == Wrap(a + b)
  {
  }

  ghost predicate RequiredFirst(required: seq<Coin>, optional: seq<Coin>, amount: nat, target: nat) {
    var rest := Scanned(Tagged(optional, false), Wrap(amount + Sum(required)), target);
    Scanned(Tagged(required, true) + Tagged(optional, false), amount, target) == Selection(required + rest.selected, rest.amount)
  }

  lemma {:induction false} ScannedRequired(required: seq<Coin>, optional: seq<Coin>, amount: nat, target: nat)
    requires Wrap(amount) == amount
    ensures RequiredFirst(required, optional, amount, target)
  {
    hide RequiredFirst, Wrap, Sum;
    if required == [] {
      NoneRequired(optional, amount, target);
    } else {
      var next := Wrap(amount + required[0].amount);
      WrapAssoc(amount, required[0].amount, Sum(required[1..]));
      ScannedRequired(required[1..], optional, next, target);
      OneMoreRequired(required, optional, amount, target);
    }
  }

  lemma NoneRequired(optional: seq<Coin>, amount: nat, target: nat)
    requires Wrap(amount) == amount
    ensures RequiredFirst([], optional, amount, target)
  {
    assert Tagged([], true) + Tagged(optional, false) == Tagged(optional, false);
    hide Scanned;
    var rest := Scanned(Tagged(optional, false), amount, target);
    assert [] + rest.selected == rest.selected;
  }

  lemma OneMoreRequired(required: seq<Coin>, optional: seq<Coin>, amount: nat, target: nat)
    requires required != [] && RequiredFirst(required[1..], optional, Wrap(amount + required[0].amount), target)
    ensures RequiredFirst(required, optional, amount, target)
  {
    hide Sum, Scanned, Tagged, Wrap;
    FirstSum(required, |required|);
    assert required[..|required|] == required && required[1..][..|required| - 1] == required[1..];
    WrapAssoc(amount, required[0].amount, Sum(required[1..]));
    RequiredStep(required, optional, amount, target);
    var rest := Scanned(Tagged(optional, false), Wrap(amount + Sum(required)), target);
    assert required + rest.selected == [required[0]] + (required[1..] + rest.selected);
  }

  lemma RequiredStep(required: seq<Coin>, optional: seq<Coin>, amount: nat, target: nat)
    requires required != []
    ensures var rest := Scanned(Tagged(required[1..], true) + Tagged(optional, false), Wrap(amount + required[0].amount), target);
            Scanned(Tagged(required, true) + Tagged(optional, false), amount, target) ==
            Selection([required[0]] + rest.selected, rest.amount)
  {
    var all := Tagged(required, true) + Tagged(optional, false);
    assert all[0] == (true, required[0]);
    assert all[1..] == Tagged(required[1..], true) + Tagged(optional, false);
  }

  /** Required coins first, then the largest eligible ones. */
  lemma SelectionShape(required: seq<Coin>, optional: seq<Coin>, target: nat)
    ensures var k := Taken(optional, Wrap(Sum(required)), target);
            Scanned(Tagged(required, true) + Tagged(optional, false), 0, target) ==
            Selection(required + optional[..k], Wrap(Sum(required + optional[..k])))
  {
    hide Scanned, Tagged, Taken, Sum, Wrap;
    var after := Wrap(Sum(required));
    WrapAssoc(Sum(required), 0, 0);
    ZeroWraps();
    ScannedRequired(required, optional, 0, target);
    ScannedOptional(optional, after, target);
    var k := Taken(optional, after, target);
    SumConcat(required, optional[..k]);
    WrapAssoc(0, Sum(required), Sum(optional[..k]));
  }

  // ---- What it should take ----

  /** How many optional coins are needed, largest first, to get from `amount` to `target`, or all of them. */
  function Needed(optional: seq<Coin>, amount: nat, target: nat): (k: nat)
    ensures k <= |optional|
  {
    if optional == [] || amount >= target then 0 else 1 + Needed(optional[1..], amount + optional[0].amount, target)
  }

  /** Fewer coins than needed miss the target, and those needed miss it only if they are all. */
  lemma {:induction false} NeededLeast(optional: seq<Coin>, amount: nat, target: nat, m: nat)
    ensures var k := Needed(optional, amount, target);
            && (m < k ==> amount + Sum(optional[..m]) < target)
            && (k < |optional| ==> amount + Sum(optional[..k]) >= target)
  {
    if optional == [] || amount >= target {
      assert optional[..0] == [];
    } else {
      var rest, next := optional[1..], amount + optional[0].amount;
      NeededLeast(rest, next, target, if m == 0 then 0 else m - 1);
      FirstSum(optional, Needed(rest, next, target) + 1);
      hide Sum;
      if m == 0 {
        NoCoins(optional);
      } else if m <= |optional| {
        FirstSum(optional, m);
      }
    }
  }

  /** The scan takes what is needed if either sum stays below 2^128. */
  lemma {:induction false} TakenNeeded(optional: seq<Coin>, amount: nat, target: nat)
    requires || amount + Sum(optional[..Taken(optional, amount, target)]) < U128
             || amount + Sum(optional[..Needed(optional, amount, target)]) < U128
    ensures Taken(optional, amount, target) == Needed(optional, amount, target)
  {
    if optional != [] && amount < target {
      var rest, next := optional[1..], amount + optional[0].amount;
      FirstSum(optional, Taken(rest, Wrap(next), target) + 1);
      FirstSum(optional, Needed(rest, next, target) + 1);
      hide Sum;
      assert Wrap(next) == next;
      TakenNeeded(rest, next, target);
    }
  }

  lemma NoCoins(coins: seq<Coin>)
    ensures Sum(coins[..0]) == 0
  {
  }

  lemma FirstSum(coins: seq<Coin>, m: nat)
    requires 0 < m <= |coins|
    ensures Sum(coins[..m]) == coins[0].amount + Sum(coins[1..][..m - 1])
  {
    assert coins[..m] == [coins[0]] + coins[1..][..m - 1];
    SumConcat([coins[0]], coins[1..][..m - 1]);
    assert Sum([coins[0]]) == coins[0].amount;
  }

  // ---- No choice of as few coins is worth more ----

  lemma {:induction false} LargestFirst(sorted: seq<Coin>, chosen: seq<Coin>)
    requires Descending(sorted) && multiset(chosen) <= multiset(sorted)
    ensures |chosen| <= |sorted| && Sum(chosen) <= Sum(sorted[..|chosen|])
  {
    hide Sum, Descending;
    CountBound(chosen, sorted);
    if chosen == [] {
      assert sorted[..0] == chosen;
    } else {
      TailDescending(sorted);
      if sorted[0] in chosen {
        var i :| 0 <= i < |chosen| && chosen[i] == sorted[0];
        SumWithout(chosen, i);
        RestIncluded(chosen, i, sorted);
        LargestFirst(sorted[1..], chosen[..i] + chosen[i + 1..]);
        FirstSum(sorted, |chosen|);
      } else {
        AllIncluded(chosen, sorted);
        LargestFirst(sorted[1..], chosen);
        ShiftedSum(sorted, |chosen|);
      }
    }
  }

  lemma TailDescending(sorted: seq<Coin>)
    requires Descending(sorted) && sorted != []
    ensures Descending(sorted[1..])
  {
  }

  lemma HeadOut(s: seq<Coin>)
    requires s != []
    ensures multiset(s) == multiset(s[1..]) + multiset{s[0]}
  {
    assert s == [s[0]] + s[1..];
  }

  lemma RestIncluded(chosen: seq<Coin>, i: nat, sorted: seq<Coin>)
    requires multiset(chosen) <= multiset(sorted) && sorted != [] && i < |chosen| && chosen[i] == sorted[0]
    ensures multiset(chosen[..i] + chosen[i + 1..]) <= multiset(sorted[1..])
  {
    TakenOut(chosen, i);
    HeadOut(sorted);
    Cancelled(multiset(chosen[..i] + chosen[i + 1..]), multiset(sorted[1..]), sorted[0]);
  }

  lemma AllIncluded(chosen: seq<Coin>, sorted: seq<Coin>)
    requires multiset(chosen) <= multiset(sorted) && sorted != [] && sorted[0] !in chosen
    ensures multiset(chosen) <= multiset(sorted[1..])
  {
    HeadOut(sorted);
    Untouched(multiset(chosen), multiset(sorted[1..]), sorted[0]);
  }

  lemma Untouched(a: multiset<Coin>, b: multiset<Coin>, c: Coin)
    requires a <= b + multiset{c} && c !in a
    ensures a <= b
  {
    forall x
      ensures a[x] <= b[x]
    {
      assert a[x] <= (b + multiset{c})[x];
    }
  }

  lemma CountBound(a: seq<Coin>, b: seq<Coin>)
    requires multiset(a) <= multiset(b)
    ensures |a| <= |b|
  {
    assert multiset(b) == multiset(a) + (multiset(b) - multiset(a));
    assert |multiset(b)| == |b| && |multiset(a)| == |a|;
  }

  lemma SumWithout(coins: seq<Coin>, i: nat)
    requires i < |coins|
    ensures Sum(coins) == coins[i].amount + Sum(coins[..i] + coins[i + 1..])
  {
    hide Sum;
    SumConcat(coins[..i], coins[i + 1..]);
    SumSnoc(coins[..i], coins[i]);
    assert coins == coins[..i] + [coins[i]] + coins[i + 1..];
    SumConcat(coins[..i] + [coins[i]], coins[i + 1..]);
  }

  lemma ShiftedSum(sorted: seq<Coin>, m: nat)
    requires Descending(sorted) && 0 < m < |sorted|
    ensures Sum(sorted[1..][..m]) <= Sum(sorted[..m])
  {
    FirstSum(sorted, m);
    assert sorted[1..][..m] == sorted[1..][..m - 1] + [sorted[m]];
    SumSnoc(sorted[1..][..m - 1], sorted[m]);
  }

  // ---- The whole ----

  /** The selected coins are the required ones and some eligible ones; the amount is their sum, wrapped around. */
  ghost predicate Selects(required: seq<Coin>, eligible: seq<Coin>, r: Selection, extra: seq<Coin>) {
    && r.selected == required + extra
    && multiset(extra) <= multiset(eligible)
    && r.amount == Wrap(Sum(r.selected))
  }

  /** No other choice of eligible coins reaches the target with fewer coins. */
  ghost predicate Fewest(required: seq<Coin>, eligible: seq<Coin>, target: nat, extra: seq<Coin>) {
    forall other: seq<Coin> ::
      multiset(other) <= multiset(eligible) && Sum(required) + Sum(other) >= target ==> |other| >= |extra|
  }

  /** The eligible coins, largest first. */
  ghost predicate Ranks(sorted: seq<Coin>, eligible: seq<Coin>) {
    Descending(sorted) && multiset(sorted) == multiset(eligible)
  }

  lemma RanksAll(sorted: seq<Coin>, eligible: seq<Coin>)
    requires Descending(sorted) && multiset(sorted) == multiset(eligible)
    ensures Ranks(sorted, eligible)
  {
  }

  lemma NeededFewest(required: seq<Coin>, eligible: seq<Coin>, sorted: seq<Coin>, target: nat)
    requires Ranks(sorted, eligible)
    ensures Fewest(required, eligible, target, sorted[..Needed(sorted, Sum(required), target)])
  {
    var amount := Sum(required);
    var k := Needed(sorted, amount, target);
    hide Sum, Needed, Descending;
    forall other: seq<Coin> | multiset(other) <= multiset(eligible) && amount + Sum(other) >= target
      ensures |other| >= k
    {
      LargestFirst(sorted, other);
      NeededLeast(sorted, amount, target, |other|);
    }
  }

  lemma NeededReaches(sorted: seq<Coin>, amount: nat, target: nat)
    ensures amount + Sum(sorted[..Needed(sorted, amount, target)]) >= target <==> amount + Sum(sorted) >= target
  {
    var k := Needed(sorted, amount, target);
    hide Sum, Needed;
    NeededLeast(sorted, amount, target, 0);
    SumConcat(sorted[..k], sorted[k..]);
    assert sorted == sorted[..k] + sorted[k..];
    assert k == |sorted| ==> sorted[..k] == sorted;
  }

  lemma {:induction false} SumOfPermutation(a: seq<Coin>, b: seq<Coin>)
    requires multiset(a) == multiset(b)
    ensures Sum(a) == Sum(b)
  {
    if a == [] {
      assert |multiset(b)| == 0;
      assert b == [];
    } else {
      var k := |a| - 1;
      TakenOut(a, k);
      assert a[..k] + a[k + 1..] == a[..k];
      assert a[k] in multiset(b);
      var i :| 0 <= i < |b| && b[i] == a[k];
      TakenOut(b, i);
      Cancelled(multiset(a[..k]), multiset(b[..i] + b[i + 1..]), a[k]);
      Cancelled(multiset(b[..i] + b[i + 1..]), multiset(a[..k]), a[k]);
      SumOfPermutation(a[..k], b[..i] + b[i + 1..]);
      SumWithout(b, i);
    }
  }

  /** What the selection is for: the exact amount, the target reached if it can be, with the fewest coins. */
  ghost predicate Best(required: seq<Coin>, eligible: seq<Coin>, target: nat, r: Selection, extra: seq<Coin>) {
    && r.amount == Sum(r.selected)
    && (r.amount >= target <==> Sum(required) + Sum(eligible) >= target)
    && Fewest(required, eligible, target, extra)
  }

  /** The required coins with those needed sum up to less than 2^128. */
  ghost predicate Fits(required: seq<Coin>, sorted: seq<Coin>, target: nat) {
    Sum(required) + Sum(sorted[..Needed(sorted, Sum(required), target)]) < U128
  }

  /** The amount is the sum of the selected coins exactly when what is needed fits, and then nothing else is taken. */
  lemma AmountExact(required: seq<Coin>, sorted: seq<Coin>, target: nat, r: Selection)
    requires r == Scanned(Tagged(required, true) + Tagged(sorted, false), 0, target)
    ensures r.amount == Sum(r.selected) <==> Fits(required, sorted, target)
    ensures Fits(required, sorted, target) ==> r.selected == required + sorted[..Needed(sorted, Sum(required), target)]
  {
    hide Sum, Taken, Needed, Scanned, Tagged;
    SelectionShape(required, sorted, target);
    SumConcat(required, sorted[..Taken(sorted, Wrap(Sum(required)), target)]);
    if r.amount == Sum(r.selected) || Fits(required, sorted, target) {
      assert Wrap(Sum(required)) == Sum(required);
      TakenNeeded(sorted, Sum(required), target);
    }
  }

  /** The selection is best exactly when what is needed fits. */
  lemma BestIff(required: seq<Coin>, eligible: seq<Coin>, sorted: seq<Coin>, target: nat, r: Selection)
    requires Ranks(sorted, eligible)
    requires r == Scanned(Tagged(required, true) + Tagged(sorted, false), 0, target)
    ensures |required| <= |r.selected|
    ensures Best(required, eligible, target, r, r.selected[|required|..]) <==> Fits(required, sorted, target)
  {
    SelectionShape(required, sorted, target);
    AmountExact(required, sorted, target, r);
    NeededFewest(required, eligible, sorted, target);
    NeededReaches(sorted, Sum(required), target);
    SumOfPermutation(sorted, eligible);
    hide Scanned, Taken, Needed, Fewest, Tagged, Descending;
    if Fits(required, sorted, target) {
      var extra := sorted[..Needed(sorted, Sum(required), target)];
      assert r.selected[|required|..] == extra;
      SumConcat(required, extra);
    }
    hide Sum;
  }

  /** How coins of equal amounts are ordered does not matter. */
  lemma FitsAlike(required: seq<Coin>, eligible: seq<Coin>, s: seq<Coin>, t: seq<Coin>, target: nat)
    requires Ranks(s, eligible) && Ranks(t, eligible) && Fits(required, s, target)
    ensures Fits(required, t, target)
  {
    var amount := Sum(required);
    var k, m := Needed(s, amount, target), Needed(t, amount, target);
    hide Sum, Needed, Descending;
    assert s == s[..k] + s[k..] && t == t[..m] + t[m..];
    CountBound(s, t);
    LargestFirst(s, t[..m]);
    LargestFirst(t, s[..k]);
    NeededLeast(s, amount, target, m);
    NeededLeast(t, amount, target, k);
  }

  lemma ScannedSelects(required: seq<Coin>, eligible: seq<Coin>, sorted: seq<Coin>, target: nat, r: Selection)
    requires multiset(sorted) == multiset(eligible)
    requires r == Scanned(Tagged(required, true) + Tagged(sorted, false), 0, target)
    ensures Selects(required, eligible, r, sorted[..Taken(sorted, Wrap(Sum(required)), target)])
  {
    SelectionShape(required, sorted, target);
    var k := Taken(sorted, Wrap(Sum(required)), target);
    hide Sum, Taken, Scanned, Tagged, Wrap;
    assert sorted == sorted[..k] + sorted[k..];
  }

  /** `coin_select` of the largest-first algorithm. */
  method CoinSelect(required: seq<Coin>, optional: seq<Coin>, target: nat, chroma: Chroma) returns (r: Selection)
    ensures |required| <= |r.selected|
    ensures var eligible, extra := Retained(optional, chroma), r.selected[|required|..];
            && Selects(required, eligible, r, extra)
            && (exists sorted :: Ranks(sorted, eligible) && extra == sorted[..Taken(sorted, Wrap(Sum(required)), target)])
            && forall sorted :: Ranks(sorted, eligible) ==>
                 (Best(required, eligible, target, r, extra) <==> Fits(required, sorted, target))
  {
    hide *;
    var kept := Retain(optional, chroma);
    var ascending := SortByAmount(kept);
    var sorted := Reverse(ascending);
    r := SelectSorted(Tagged(required, true) + Tagged(sorted, false), target);
    ghost var extra := sorted[..Taken(sorted, Wrap(Sum(required)), target)];
    ScannedSelects(required, kept, sorted, target, r);
    SelectedSplit(required, kept, r, extra);
    RanksAll(sorted, kept);
    BestIff(required, kept, sorted, target, r);
    forall other | Ranks(other, kept)
      ensures Fits(required, other, target) <==> Fits(required, sorted, target)
    {
      if Fits(required, sorted, target) {
        FitsAlike(required, kept, sorted, other, target);
      }
      if Fits(required, other, target) {
        FitsAlike(required, kept, other, sorted, target);
      }
    }
  }

  lemma SelectedSplit(required: seq<Coin>, eligible: seq<Coin>, r: Selection, extra: seq<Coin>)
    requires Selects(required, eligible, r, extra)
    ensures |required| <= |r.selected| && r.selected[|required|..] == extra
  {
  }

  /** With overflow the reported amount is short of the sum, and a coin is taken that was not needed. */
  lemma OverflowTakesMore()
    ensures var half := Coin(0, 0, U128 / 2, false);
            var extra := Coin(1, 0, 1, false);
            var r := Scanned(Tagged([half, half], true) + Tagged([extra], false), 0, 1);
            && r == Selection([half, half, extra], 1) && !Best([half, half], [extra], 1, r, [extra])
            && !Fewest([half, half], [extra], 1, [extra])
  {
    var half := Coin(0, 0, U128 / 2, false);
    var extra := Coin(1, 0, 1, false);
    hide Scanned, Tagged;
    SelectionShape([half, half], [extra], 1);
    OverflowSums(half, extra);
    assert [extra][..1] == [extra];
    var none: seq<Coin> := [];
    assert multiset(none) <= multiset([extra]) && Sum(none) == 0;
  }

  lemma OverflowSums(half: Coin, extra: Coin)
    requires half.amount == U128 / 2 && extra.amount == 1
    ensures Sum([half, half]) == U128 && Wrap(Sum([half, half])) == 0 && Wrap(Sum([half, half] + [extra])) == 1 && Taken([extra], 0, 1) == 1
  {
    SumSnoc([], half);
    SumSnoc([half], half);
    assert [] + [half] == [half] && [half] + [half] == [half, half];
    SumSnoc([half, half], extra);
    assert Taken([extra][1..], 1, 1) == 0;
  }
}
