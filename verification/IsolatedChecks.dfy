/**
 The checks that need nothing but the transaction (`crates/tx-check/src/isolated_checks.rs`,
 without the bulletproof feature). The checks of a single proof against its input or output are
 parameters.
 */
module IsolatedChecks {
  import opened Numbers
  import opened Options

  type Chroma = nat

  datatype PixelProof = PixelProof(chroma: Chroma, amount: nat, empty: bool, burn: bool)

  /** Empty proofs hold the empty pixel, whose amount is zero. */
  type Proof = p: PixelProof | p.empty ==> p.amount == 0 witness PixelProof(0, 0, false, false)

  datatype TxIn = TxIn(previous: nat)

  datatype TxOut = TxOut(script: nat, opReturn: bool)

  datatype Transaction = Transaction(inputs: seq<TxIn>, outputs: seq<TxOut>)

  /** The entries of a proof map, in the order of their keys. */
  type ProofMap = m: seq<(nat, Proof)> | SortedKeys(m)

  ghost predicate SortedKeys(m: seq<(nat, Proof)>) {
    forall i, j :: 0 <= i < j < |m| ==> m[i].0 < m[j].0
  }

  datatype CheckError =
    | NotEnoughProofs
    | NoSuchInputOutput
    | BurntTokensSpending
    | InvalidProof(vout: nat)
    | ConservationViolated
    | AnnouncementMissing
    | AnnouncementMismatch
    | NotSameChroma
    | AmountMismatch

  // ---- Sums of amounts ----

  /** What a proof contributes to the sum of a chroma. */
  function Share(p: Proof, c: Chroma): nat {
    if !p.empty && p.chroma == c then p.amount else 0
  }

  function Total(m: seq<(nat, Proof)>, c: Chroma): nat {
    if m == [] then 0 else Total(m[..|m| - 1], c) + Share(m[|m| - 1].1, c)
  }

  /** Some proof contributes to the sum of a chroma. */
  ghost predicate Listed(m: seq<(nat, Proof)>, c: Chroma) {
    exists i :: 0 <= i < |m| && Share(m[i].1, c) > 0
  }

  ghost predicate Sums(m: seq<(nat, Proof)>, sums: map<Chroma, nat>) {
    forall c :: (c in sums <==> Listed(m, c)) && (c in sums ==> sums[c] == Wrap(Total(m, c)))
  }

  lemma WrappedAdd(total: nat, amount: nat)
    ensures Wrap(Wrap(total) + amount) == Wrap(total + amount)
  {
  }

  lemma {:induction false} ListedIffPositive(m: seq<(nat, Proof)>, c: Chroma)
    ensures Listed(m, c) <==> Total(m, c) > 0
  {
    if m != [] {
      var k := |m| - 1;
      ListedIffPositive(m[..k], c);
      if Listed(m, c) {
        var i :| 0 <= i < |m| && Share(m[i].1, c) > 0;
        assert i < k ==> Share(m[..k][i].1, c) > 0;
      }
      if Listed(m[..k], c) {
        var i :| 0 <= i < k && Share(m[..k][i].1, c) > 0;
        assert Share(m[i].1, c) > 0;
      }
    }
  }

  lemma SumsStep(m: seq<(nat, Proof)>, i: nat, sums: map<Chroma, nat>, next: map<Chroma, nat>)
    requires i < |m| && Sums(m[..i], sums)
    requires var p := m[i].1;
             next == if p.empty || p.amount == 0 then sums
                     else sums[p.chroma := Wrap((if p.chroma in sums then sums[p.chroma] else 0) + p.amount)]
    ensures Sums(m[..i + 1], next)
  {
    var p := m[i].1;
    assert m[..i + 1][..i] == m[..i];
    forall c
      ensures (c in next <==> Listed(m[..i + 1], c)) && (c in next ==> next[c] == Wrap(Total(m[..i + 1], c)))
    {
      assert (c in sums <==> Listed(m[..i], c)) && (c in sums ==> sums[c] == Wrap(Total(m[..i], c)));
      ListedIffPositive(m[..i], c);
      ListedIffPositive(m[..i + 1], c);
      assert Total(m[..i + 1], c) == Total(m[..i], c) + Share(p, c);
      WrappedAdd(Total(m[..i], c), Share(p, c));
      hide Sums, Listed, Total;
    }
  }

  /** `sum_amount_by_chroma`. */
  method SumAmountByChroma(proofs: seq<(nat, Proof)>) returns (chromas: map<Chroma, nat>)
    ensures Sums(proofs, chromas)
  {
    chromas := map[];
    for i := 0 to |proofs|
      invariant Sums(proofs[..i], chromas)
    {
      var p := proofs[i].1;
      ghost var before := chromas;
      if !p.empty && p.amount != 0 {
        if p.chroma !in chromas {
          chromas := chromas[p.chroma := 0];
        }
        chromas := chromas[p.chroma := Wrap(chromas[p.chroma] + p.amount)];
      }
      SumsStep(proofs, i, before, chromas);
    }
    assert proofs[..|proofs|] == proofs;
  }

  /** Which inputs and outputs the comparison of the two maps lets through. */
  ghost predicate SameSums(a: seq<(nat, Proof)>, b: seq<(nat, Proof)>) {
    forall c :: SumsMatch(a, b, c)
  }

  ghost predicate SumsMatch(a: seq<(nat, Proof)>, b: seq<(nat, Proof)>, c: Chroma) {
    (Listed(a, c) <==> Listed(b, c)) && Wrap(Total(a, c)) == Wrap(Total(b, c))
  }

  lemma SumsAgree(a: seq<(nat, Proof)>, b: seq<(nat, Proof)>, x: map<Chroma, nat>, y: map<Chroma, nat>)
    requires Sums(a, x) && Sums(b, y)
    ensures x == y <==> SameSums(a, b)
  {
    if x == y {
      forall c
        ensures SumsMatch(a, b, c)
      {
        assert c in x <==> Listed(a, c);
        assert c in y <==> Listed(b, c);
        ListedIffPositive(a, c);
        ListedIffPositive(b, c);
      }
    }
    if SameSums(a, b) {
      forall c
        ensures (c in x <==> c in y) && (c in x ==> x[c] == y[c])
      {
        assert SumsMatch(a, b, c);
        assert c in x <==> Listed(a, c);
        assert c in y <==> Listed(b, c);
      }
    }
  }

  /** No sum of the proofs reaches 2^128. */
  ghost predicate NoOverflow(m: seq<(nat, Proof)>) {
    forall c :: Total(m, c) < U128
  }

  ghost predicate Conserved(a: seq<(nat, Proof)>, b: seq<(nat, Proof)>) {
    forall c :: Total(a, c) == Total(b, c)
  }

  /** Without overflow the comparison is conservation: every chroma's sums agree. */
  lemma ConservationIff(a: seq<(nat, Proof)>, b: seq<(nat, Proof)>)
    requires NoOverflow(a) && NoOverflow(b)
    ensures SameSums(a, b) <==> Conserved(a, b)
  {
    if SameSums(a, b) {
      forall c
        ensures Total(a, c) == Total(b, c)
      {
        assert SumsMatch(a, b, c);
        MatchIffEqual(a, b, c);
      }
    }
    if Conserved(a, b) {
      forall c
        ensures SumsMatch(a, b, c)
      {
        MatchIffEqual(a, b, c);
      }
    }
  }

  lemma MatchIffEqual(a: seq<(nat, Proof)>, b: seq<(nat, Proof)>, c: Chroma)
    requires NoOverflow(a) && NoOverflow(b)
    ensures SumsMatch(a, b, c) <==> Total(a, c) == Total(b, c)
  {
    assert Total(a, c) < U128 && Total(b, c) < U128;
    ListedIffPositive(a, c);
    ListedIffPositive(b, c);
  }

  /** The sums of each chroma overflow equally often. */
  ghost predicate WrapAlike(a: seq<(nat, Proof)>, b: seq<(nat, Proof)>) {
    forall c :: Total(a, c) / U128 == Total(b, c) / U128
  }

  /** Whatever overflows: sums are conserved exactly when they compare as equal and overflow equally often. */
  lemma ConservedIff(a: seq<(nat, Proof)>, b: seq<(nat, Proof)>)
    ensures Conserved(a, b) <==> SameSums(a, b) && WrapAlike(a, b)
  {
    forall c
      ensures Total(a, c) == Total(b, c) <==> SumsMatch(a, b, c) && Total(a, c) / U128 == Total(b, c) / U128
    {
      ListedIffPositive(a, c);
      ListedIffPositive(b, c);
      hide Total, Listed;
      assert Total(a, c) == Total(a, c) / U128 * U128 + Wrap(Total(a, c));
      assert Total(b, c) == Total(b, c) / U128 * U128 + Wrap(Total(b, c));
    }
    hide SumsMatch, Total;
  }

  lemma TotalSnoc(m: seq<(nat, Proof)>, e: (nat, Proof), c: Chroma)
    ensures Total(m + [e], c) == Total(m, c) + Share(e.1, c)
  {
    assert (m + [e])[..|m|] == m;
  }

  /** With overflow it is not: sums of 2^128 and 2^129 compare as equal. */
  lemma OverflowNotConserved()
    ensures var half := PixelProof(0, U128 / 2, false, false);
            var a := [(0, half), (1, half)];
            var b := [(0, half), (1, half), (2, half), (3, half)];
            SameSums(a, b) && Total(a, 0) != Total(b, 0)
  {
    var half := PixelProof(0, U128 / 2, false, false);
    var a := [(0, half), (1, half)];
    var b := [(0, half), (1, half), (2, half), (3, half)];
    forall c
      ensures Total(a, c) == 2 * Share(half, c) && Total(b, c) == 4 * Share(half, c)
    {
      assert a == ([] + [(0, half)]) + [(1, half)];
      TotalSnoc([], (0, half), c);
      TotalSnoc([] + [(0, half)], (1, half), c);
      assert b == (a + [(2, half)]) + [(3, half)];
      TotalSnoc(a, (2, half), c);
      TotalSnoc(a + [(2, half)], (3, half), c);
      assert Total([], c) == 0;
      hide Total;
    }
    forall c
      ensures SumsMatch(a, b, c)
    {
      ListedIffPositive(a, c);
      ListedIffPositive(b, c);
      hide Total, Listed;
    }
  }

  // ---- Proofs and the places they claim ----

  /** Every proof of the map belongs to an existing input or output. */
  ghost predicate InRange(m: seq<(nat, Proof)>, count: nat) {
    forall i :: 0 <= i < |m| ==> m[i].0 < count
  }

  /** `extract_from_iterable_by_proof_map`: the items the proofs belong to. */
  method Extract<T>(m: ProofMap, items: seq<T>) returns (gathered: Option<seq<(T, nat, Proof)>>)
    ensures gathered.Some? <==> InRange(m, |items|)
    ensures gathered.Some? ==>
              && |gathered.value| == |m|
              && forall i :: 0 <= i < |m| ==> gathered.value[i] == (items[m[i].0], m[i].0, m[i].1)
  {
    var found := [];
    for i := 0 to |m|
      invariant |found| == i && forall j :: 0 <= j < i ==> m[j].0 < |items| && found[j] == (items[m[j].0], m[j].0, m[j].1)
    {
      if m[i].0 >= |items| {
        return None;
      }
      found := found + [(items[m[i].0], m[i].0, m[i].1)];
    }
    gathered := Some(found);
  }

  function Spendable(outputs: seq<TxOut>): set<nat> {
    set i: nat | i < |outputs| && !outputs[i].opReturn
  }

  /** `check_number_of_proofs`: the outputs other than OP_RETURN are as many as the proofs. */
  method CheckNumberOfProofs(outputs: seq<TxOut>, proofs: ProofMap) returns (ok: bool)
    ensures ok <==> |Spendable(outputs)| == |proofs|
  {
    var count := 0;
    for i := 0 to |outputs|
      invariant count == |Spendable(outputs[..i])|
    {
      var prefix := outputs[..i + 1];
      if !outputs[i].opReturn {
        assert Spendable(prefix) == Spendable(outputs[..i]) + {i};
        count := count + 1;
      } else {
        assert Spendable(prefix) == Spendable(outputs[..i]);
      }
    }
    assert outputs[..|outputs|] == outputs;
    ok := count == |proofs|;
  }

  function Keys(m: seq<(nat, Proof)>): set<nat> {
    set i: nat | i < |m| :: m[i].0
  }

  lemma {:induction false} KeysCount(m: seq<(nat, Proof)>)
    requires SortedKeys(m)
    ensures |Keys(m)| == |m|
  {
    if m != [] {
      var k := |m| - 1;
      KeysCount(m[..k]);
      forall x | x in Keys(m)
        ensures x in Keys(m[..k]) + {m[k].0}
      {
        var i: nat :| i < |m| && m[i].0 == x;
        assert i < k ==> m[..k][i].0 == x;
      }
      forall x | x in Keys(m[..k]) + {m[k].0}
        ensures x in Keys(m)
      {
        if x in Keys(m[..k]) {
          var i: nat :| i < k && m[..k][i].0 == x;
          assert m[i].0 == x;
        }
      }
      assert Keys(m) == Keys(m[..k]) + {m[k].0};
      assert m[k].0 !in Keys(m[..k]);
    } else {
      assert Keys(m) == {};
    }
  }

  lemma {:induction false} SubsetOfSameSize(a: set<nat>, b: set<nat>)
    requires a <= b && |a| == |b|
    ensures a == b
  {
    if a != {} {
      var x :| x in a;
      SubsetOfSameSize(a - {x}, b - {x});
      assert a == (a - {x}) + {x} && b == (b - {x}) + {x};
    }
  }

  // ---- Transfers ----

  type InputCheck = (Proof, TxIn) -> bool
  type OutputCheck = (Proof, TxOut) -> bool

  ghost predicate InputsProved(tx: Transaction, m: ProofMap, check: InputCheck) {
    InRange(m, |tx.inputs|) && forall i :: 0 <= i < |m| ==> !m[i].1.burn && check(m[i].1, tx.inputs[m[i].0])
  }

  ghost predicate OutputsProved(tx: Transaction, m: ProofMap, check: OutputCheck) {
    InRange(m, |tx.outputs|) && forall i :: 0 <= i < |m| ==> check(m[i].1, tx.outputs[m[i].0])
  }

  ghost predicate TransferValid(tx: Transaction, inputs: ProofMap, outputs: ProofMap, inOk: InputCheck, outOk: OutputCheck) {
    && |outputs| == |Spendable(tx.outputs)|
    && InputsProved(tx, inputs, inOk) && OutputsProved(tx, outputs, outOk)
    && SameSums(inputs, outputs)
  }

  /** `check_transfer_isolated`: no error exactly for a valid transfer. */
  method CheckTransferIsolated(tx: Transaction, inputs: ProofMap, outputs: ProofMap, inOk: InputCheck, outOk: OutputCheck)
    returns (error: Option<CheckError>)
    ensures error.None? <==> TransferValid(tx, inputs, outputs, inOk, outOk)
  {
    var counted := CheckNumberOfProofs(tx.outputs, outputs);
    if !counted {
      return Some(NotEnoughProofs);
    }
    var ins := Extract(inputs, tx.inputs);
    if ins.None? {
      return Some(NoSuchInputOutput);
    }
    var outs := Extract(outputs, tx.outputs);
    if outs.None? {
      return Some(NoSuchInputOutput);
    }
    for i := 0 to |ins.value|
      invariant forall j :: 0 <= j < i ==> !inputs[j].1.burn && inOk(inputs[j].1, tx.inputs[inputs[j].0])
    {
      var (txin, vout, proof) := ins.value[i];
      if proof.burn {
        return Some(BurntTokensSpending);
      }
      if !inOk(proof, txin) {
        return Some(InvalidProof(vout));
      }
    }
    for i := 0 to |outs.value|
      invariant forall j :: 0 <= j < i ==> outOk(outputs[j].1, tx.outputs[outputs[j].0])
    {
      var (txout, vout, proof) := outs.value[i];
      if !outOk(proof, txout) {
        return Some(InvalidProof(vout));
      }
    }
    var inSums := SumAmountByChroma(inputs);
    var outSums := SumAmountByChroma(outputs);
    SumsAgree(inputs, outputs, inSums, outSums);
    error := if inSums == outSums then None else Some(ConservationViolated);
  }

  /** When no check accepts an OP_RETURN output, the proofs of a valid transfer cover all others. */
  lemma OutputsCovered(tx: Transaction, inputs: ProofMap, outputs: ProofMap, inOk: InputCheck, outOk: OutputCheck)
    requires TransferValid(tx, inputs, outputs, inOk, outOk)
    requires forall p, o: TxOut :: o.opReturn ==> !outOk(p, o)
    ensures forall i: nat :: i in Keys(outputs) <==> i < |tx.outputs| && !tx.outputs[i].opReturn
  {
    KeysCount(outputs);
    SubsetOfSameSize(Keys(outputs), Spendable(tx.outputs));
  }

  /** A valid transfer proves every input it names, spends nothing burnt, and conserves unless sums overflow unequally often. */
  lemma TransferMeans(tx: Transaction, inputs: ProofMap, outputs: ProofMap, inOk: InputCheck, outOk: OutputCheck, i: nat)
    requires TransferValid(tx, inputs, outputs, inOk, outOk)
    ensures i < |inputs| ==> inputs[i].0 < |tx.inputs| && !inputs[i].1.burn && inOk(inputs[i].1, tx.inputs[inputs[i].0])
    ensures i < |outputs| ==> outputs[i].0 < |tx.outputs| && outOk(outputs[i].1, tx.outputs[outputs[i].0])
    ensures Conserved(inputs, outputs) <==> WrapAlike(inputs, outputs)
  {
    ConservedIff(inputs, outputs);
    hide SameSums, Conserved, WrapAlike;
  }

  // ---- Issuances ----

  datatype Announcement = Announcement(chroma: Chroma, amount: nat)

  /** The announcement a script holds, if any. */
  type Parser = nat -> Option<Announcement>

  /** The announcement in the first output that holds one. */
  function FirstAnnounced(outputs: seq<TxOut>, parse: Parser): Option<Announcement> {
    if outputs == [] then None
    else if parse(outputs[0].script).Some? then parse(outputs[0].script)
    else FirstAnnounced(outputs[1..], parse)
  }

  /** `check_issue_announcement`. */
  method CheckIssueAnnouncement(outputs: seq<TxOut>, provided: Announcement, parse: Parser) returns (error: Option<CheckError>)
    ensures error.None? <==> FirstAnnounced(outputs, parse) == Some(provided)
  {
    for i := 0 to |outputs|
      invariant FirstAnnounced(outputs[i..], parse) == FirstAnnounced(outputs, parse)
    {
      assert outputs[i..][1..] == outputs[i + 1..];
      var found := parse(outputs[i].script);
      if found.Some? {
        return if found.value == provided then None else Some(AnnouncementMismatch);
      }
    }
    error := Some(AnnouncementMissing);
  }

  /** The announcement found is in an output, and none before it has one. */
  ghost predicate AnnouncedAt(outputs: seq<TxOut>, parse: Parser, a: Announcement, i: nat) {
    i < |outputs| && parse(outputs[i].script) == Some(a) && forall j :: 0 <= j < i ==> parse(outputs[j].script).None?
  }

  lemma {:induction false} FirstAnnouncedIff(outputs: seq<TxOut>, parse: Parser, a: Announcement)
    ensures FirstAnnounced(outputs, parse) == Some(a) <==> exists i :: AnnouncedAt(outputs, parse, a, i)
  {
    if outputs != [] {
      var rest := outputs[1..];
      FirstAnnouncedIff(rest, parse, a);
      if parse(outputs[0].script) == Some(a) {
        assert AnnouncedAt(outputs, parse, a, 0);
      }
      if i: nat :| AnnouncedAt(rest, parse, a, i) && parse(outputs[0].script).None? {
        assert forall j :: 0 < j < |outputs| ==> outputs[j] == rest[j - 1];
        assert AnnouncedAt(outputs, parse, a, i + 1);
      }
      if i: nat :| AnnouncedAt(outputs, parse, a, i) && i > 0 {
        assert forall j :: 0 <= j < |rest| ==> rest[j] == outputs[j + 1];
        assert AnnouncedAt(rest, parse, a, i - 1);
      }
    }
  }

  ghost predicate OneChroma(m: seq<(nat, Proof)>, c: Chroma) {
    forall i :: 0 <= i < |m| && !m[i].1.empty ==> m[i].1.chroma == c
  }

  /** `check_same_chroma_proofs`. */
  method CheckSameChroma(m: ProofMap, c: Chroma) returns (error: Option<CheckError>)
    ensures error.None? <==> OneChroma(m, c)
  {
    var filtered: seq<Proof> := [];
    for i := 0 to |m|
      invariant forall p :: p in filtered <==> exists j :: 0 <= j < i && m[j].1 == p && !p.empty
    {
      if !m[i].1.empty {
        filtered := filtered + [m[i].1];
      }
    }
    assert OneChroma(m, c) <==> forall p :: p in filtered ==> p.chroma == c;
    if filtered == [] {
      return None;
    }
    if filtered[0].chroma != c {
      assert filtered[0] in filtered;
      return Some(AnnouncementMismatch);
    }
    for i := 0 to |filtered|
      invariant forall p :: p in filtered[..i] ==> p.chroma == c
    {
      if filtered[i].chroma != filtered[0].chroma {
        assert filtered[i] in filtered;
        return Some(NotSameChroma);
      }
    }
    assert filtered[..|filtered|] == filtered;
    error := None;
  }

  function AllAmounts(m: seq<(nat, Proof)>): nat {
    if m == [] then 0 else AllAmounts(m[..|m| - 1]) + m[|m| - 1].1.amount
  }

  ghost predicate IssueProved(tx: Transaction, m: ProofMap, check: OutputCheck) {
    && InRange(m, |tx.outputs|)
    && forall i :: 0 <= i < |m| ==> tx.outputs[m[i].0].opReturn || check(m[i].1, tx.outputs[m[i].0])
  }

  ghost predicate IssueValid(tx: Transaction, m: ProofMap, a: Announcement, outOk: OutputCheck, parse: Parser) {
    && FirstAnnounced(tx.outputs, parse) == Some(a)
    && |m| == |Spendable(tx.outputs)|
    && OneChroma(m, a.chroma) && IssueProved(tx, m, outOk)
    && Wrap(AllAmounts(m)) == a.amount
  }

  /** `check_issue_isolated`: no error exactly for a valid issuance with proofs. */
  method CheckIssueIsolated(tx: Transaction, proofs: Option<ProofMap>, a: Announcement, outOk: OutputCheck, parse: Parser)
    returns (error: Option<CheckError>)
    ensures error.None? <==> proofs.Some? && IssueValid(tx, proofs.value, a, outOk, parse)
  {
    if proofs.None? {
      return Some(NotEnoughProofs);
    }
    var m := proofs.value;
    error := CheckIssueAnnouncement(tx.outputs, a, parse);
    if error.Some? {
      return;
    }
    var counted := CheckNumberOfProofs(tx.outputs, m);
    if !counted {
      return Some(NotEnoughProofs);
    }
    error := CheckSameChroma(m, a.chroma);
    if error.Some? {
      return;
    }
    var outs := Extract(m, tx.outputs);
    if outs.None? {
      return Some(NoSuchInputOutput);
    }
    for i := 0 to |outs.value|
      invariant forall j :: 0 <= j < i ==> tx.outputs[m[j].0].opReturn || outOk(m[j].1, tx.outputs[m[j].0])
    {
      var (txout, vout, proof) := outs.value[i];
      if !txout.opReturn && !outOk(proof, txout) {
        return Some(InvalidProof(vout));
      }
    }
    var total := 0;
    for i := 0 to |m|
      invariant total == Wrap(AllAmounts(m[..i]))
    {
      assert m[..i + 1][..i] == m[..i];
      WrappedAdd(AllAmounts(m[..i]), m[i].1.amount);
      total := Wrap(total + m[i].1.amount);
    }
    assert m[..|m|] == m;
    error := if total == a.amount then None else Some(AmountMismatch);
  }

  /**
   The outputs of a valid issuance hold no other chroma, and the announced amount of the announced
   one exactly when their sum does not overflow.
   */
  lemma IssueBacked(tx: Transaction, m: ProofMap, a: Announcement, outOk: OutputCheck, parse: Parser, c: Chroma)
    requires IssueValid(tx, m, a, outOk, parse)
    ensures c != a.chroma ==> Total(m, c) == 0
    ensures Total(m, a.chroma) == a.amount <==> AllAmounts(m) < U128
  {
    TotalOfOneChroma(m, a.chroma, c);
    TotalOfOneChroma(m, a.chroma, a.chroma);
  }

  /** A valid issuance announces what it issues, and proves every output it names but OP_RETURN ones. */
  lemma IssueMeans(tx: Transaction, m: ProofMap, a: Announcement, outOk: OutputCheck, parse: Parser, i: nat)
    requires IssueValid(tx, m, a, outOk, parse)
    ensures exists j :: AnnouncedAt(tx.outputs, parse, a, j)
    ensures i < |m| ==>
              && m[i].0 < |tx.outputs| && (m[i].1.empty || m[i].1.chroma == a.chroma)
              && (tx.outputs[m[i].0].opReturn || outOk(m[i].1, tx.outputs[m[i].0]))
  {
    FirstAnnouncedIff(tx.outputs, parse, a);
    hide FirstAnnounced;
  }

  /** Outputs of 2^128 + 5 pass for an announcement of 5. */
  lemma OverflowIssued(outOk: OutputCheck, parse: Parser)
    requires forall p, o :: outOk(p, o)
    requires parse(0) == Some(Announcement(1, 5)) && parse(1) == Option<Announcement>.None
    ensures var tx := Transaction([], [TxOut(0, true), TxOut(1, false), TxOut(1, false)]);
            var m := [(1, PixelProof(1, U128 / 2 + 5, false, false)), (2, PixelProof(1, U128 / 2, false, false))];
            SortedKeys(m) && IssueValid(tx, m, Announcement(1, 5), outOk, parse) && Total(m, 1) == U128 + 5
  {
    var tx := Transaction([], [TxOut(0, true), TxOut(1, false), TxOut(1, false)]);
    var m: seq<(nat, Proof)> := [(1, PixelProof(1, U128 / 2 + 5, false, false)), (2, PixelProof(1, U128 / 2, false, false))];
    assert Spendable(tx.outputs) == {1, 2};
    assert m[..1] == [m[0]];
    assert AllAmounts(m[..1]) == U128 / 2 + 5;
    assert AllAmounts(m) == U128 + 5;
    TotalOfOneChroma(m, 1, 1);
  }

  lemma {:induction false} TotalOfOneChroma(m: seq<(nat, Proof)>, only: Chroma, c: Chroma)
    requires OneChroma(m, only)
    ensures Total(m, c) == if c == only then AllAmounts(m) else 0
  {
    if m != [] {
      TotalOfOneChroma(m[..|m| - 1], only, c);
    }
  }
}
