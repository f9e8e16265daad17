/** The checker service (`crates/tx-check/src/service.rs`, `announcements.rs`) over its storage. */
module TxChecker {
  import opened Numbers
  import opened Options
  import opened TokenRules

  /** Result of checking a prefix of a batch; `failed` stands for an error that ends the call. */
  datatype Batch = Batch(failed: bool, ledger: Ledger, checked: map<Txid, Tx>, invalid: seq<Tx>)

  function CheckPrefix(l: Ledger, txs: seq<Tx>, n: nat, signed: Signature): Batch
    requires n <= |txs|
  {
    if n == 0 then Batch(false, l, map[], []) else
    var b := CheckPrefix(l, txs, n - 1, signed);
    if b.failed then b else
    var tx := txs[n - 1];
    var (v, l') := CheckTx(b.ledger, tx, signed);
    match v
    case Error => b.(failed := true, ledger := l')
    case Reject => b.(ledger := l', invalid := b.invalid + [tx])
    case Accept => b.(ledger := l', checked := b.checked[tx.txid := tx])
  }

  // ---- Requests for missing parents ----

  type Peer = nat

  /** The parents of a transfer, from its `i`-th proof on, that are neither stored nor checked. */
  function MissingFrom(l: Ledger, tx: Tx, i: nat, checked: set<Txid>): seq<Txid>
    requires tx.kind.Transfer?
    decreases |tx.kind.proofs| - i
  {
    if i >= |tx.kind.proofs| || tx.kind.proofs[i].input >= |tx.inputs| then [] else
    var parent := tx.inputs[tx.kind.proofs[i].input].previous;
    var (frozen, l') := IsFrozen(l, parent, tx.kind.proofs[i].chroma);
    if frozen then [] else
    (if parent.txid in l'.txs || parent.txid in checked then [] else [parent.txid]) + MissingFrom(l', tx, i + 1, checked)
  }

  /** Every parent of an accepted transfer is stored, checked in the same batch or asked for. */
  lemma {:induction false} ParentsKnownOrAsked(l: Ledger, tx: Tx, i: nat, checked: set<Txid>, k: nat)
    requires tx.kind.Transfer? && i <= k < |tx.kind.proofs| && CheckTransferFrom(l, tx, i).0 == Accept
    ensures tx.kind.proofs[k].input < |tx.inputs|
    ensures var parent := tx.inputs[tx.kind.proofs[k].input].previous.txid;
            parent in l.txs || parent in checked || parent in MissingFrom(l, tx, i, checked)
    decreases k - i
  {
    if i < k {
      var proof := tx.kind.proofs[i];
      ParentsKnownOrAsked(IsFrozen(l, tx.inputs[proof.input].previous, proof.chroma).1, tx, i + 1, checked, k);
    }
  }

  function Asked(requests: map<Peer, seq<Txid>>, peer: Peer): seq<Txid> {
    if peer in requests then requests[peer] else []
  }

  /** What is asked of each peer after the first `n` transactions of a batch. */
  function Requests(l: Ledger, txs: seq<Tx>, senders: seq<Option<Peer>>, n: nat, signed: Signature): map<Peer, seq<Txid>>
    requires n <= |txs| == |senders|
  {
    if n == 0 then map[] else
    var requests := Requests(l, txs, senders, n - 1, signed);
    var b := CheckPrefix(l, txs, n - 1, signed);
    if b.failed || !txs[n - 1].kind.Transfer? || senders[n - 1].None? then requests else
    var peer := senders[n - 1].value;
    var missing := MissingFrom(b.ledger, txs[n - 1], 0, b.checked.Keys);
    if missing == [] then requests else requests[peer := Asked(requests, peer) + missing]
  }

  ghost function Checks(txs: seq<Tx>): seq<Event> {
    seq(|txs|, i requires 0 <= i < |txs| => Check(txs[i]))
  }

  lemma RunSnoc(l: Ledger, es: seq<Event>, e: Event, signed: Signature)
    ensures Run(l, es + [e], signed) == Step(Run(l, es, signed), e, signed)
  {
    hide Step;
    assert (es + [e])[..|es|] == es;
  }

  lemma ChecksSnoc(txs: seq<Tx>, n: nat)
    requires 0 < n <= |txs|
    ensures Checks(txs[..n]) == Checks(txs[..n - 1]) + [Check(txs[n - 1])]
  {
  }

  /** The state after a batch is that of the run of its checks, so what runs keep batches keep. */
  lemma {:induction false} BatchIsRun(l: Ledger, txs: seq<Tx>, n: nat, signed: Signature)
    requires n <= |txs| && !CheckPrefix(l, txs, n, signed).failed
    ensures CheckPrefix(l, txs, n, signed).ledger == Run(l, Checks(txs[..n]), signed)
  {
    if n > 0 {
      BatchIsRun(l, txs, n - 1, signed);
      ChecksSnoc(txs, n);
      RunSnoc(l, Checks(txs[..n - 1]), Check(txs[n - 1]), signed);
      hide CheckTx, Run, Checks;
    }
  }

  /** Every transaction of a finished batch is reported: accepted ones as checked, others as invalid. */
  lemma {:induction false} BatchReportsAll(l: Ledger, txs: seq<Tx>, n: nat, signed: Signature, i: nat)
    requires i < n <= |txs| && !CheckPrefix(l, txs, n, signed).failed
    ensures var b := CheckPrefix(l, txs, n, signed);
            var v := CheckTx(Run(l, Checks(txs[..i]), signed), txs[i], signed).0;
            && v != Error
            && (v == Accept ==> txs[i].txid in b.checked)
            && (v == Reject ==> txs[i] in b.invalid)
  {
    hide CheckTx;
    BatchIsRun(l, txs, n - 1, signed);
    if i < n - 1 {
      BatchReportsAll(l, txs, n - 1, signed, i);
    }
  }

  class TxChecker {
    var txs: map<Txid, Tx>
    var chromas: map<Chroma, ChromaInfo>
    var frozen: map<OutPoint, FreezeEntry>

    ghost function View(): Ledger
      reads this
    {
      Ledger(txs, chromas, frozen)
    }

    method GetInfo(c: Chroma) returns (info: Option<ChromaInfo>)
      ensures info == if c in chromas then Some(chromas[c]) else None
    {
      info := if c in chromas then Some(chromas[c]) else None;
    }

    /** `find_owner_in_txinputs`. */
    method FindOwner(tx: Tx, c: Chroma, signed: Signature) returns (v: Verdict)
      ensures v == ByOwner(View(), tx, c, signed)
    {
      var info := GetInfo(c);
      var owner := if info.Some? then info.value.owner else None;
      var inputs := tx.inputs;
      assert inputs[0..] == inputs;
      for i := 0 to |inputs|
        invariant OwnerFound(inputs[i..], c, owner, signed) == OwnerFound(inputs, c, owner, signed)
      {
        var s := signed(inputs[i], c, owner);
        assert inputs[i..][1..] == inputs[i + 1..];
        if s.None? {
          return Error;
        }
        if s.value {
          return Accept;
        }
      }
      v := Reject;
    }

    /** `add_chroma_announcements`. */
    method AddChromaAnnouncement(a: ChromaAnnouncement)
      modifies this`chromas
      ensures View() == AddAnnouncement(old(View()), a)
    {
      var info := GetInfo(a.chroma);
      if info.Some? {
        if info.value.announcement.Some? {
          return;
        }
        chromas := chromas[a.chroma := ChromaInfo(Some(a), info.value.totalSupply, info.value.owner)];
      } else {
        chromas := chromas[a.chroma := ChromaInfo(Some(a), 0, None)];
      }
    }

    /** `update_freezes`. */
    method PutFreeze(txid: Txid, c: Chroma, o: OutPoint)
      modifies this`frozen
      ensures View() == UpdateFreezes(old(View()), txid, c, o)
    {
      if o in frozen {
        return;
      }
      frozen := frozen[o := FreezeEntry(txid, c)];
    }

    /** `update_supply`. */
    method AddSupply(issue: IssueAnnouncement)
      modifies this`chromas
      ensures View() == UpdateSupply(old(View()), issue)
    {
      var info := GetInfo(issue.chroma);
      if info.Some? {
        chromas := chromas[issue.chroma := info.value.(totalSupply := Wrap(info.value.totalSupply + issue.amount))];
      } else {
        chromas := chromas[issue.chroma := ChromaInfo(None, issue.amount, None)];
      }
    }

    /** `update_owner`. */
    method PutOwner(c: Chroma, owner: Script)
      modifies this`chromas
      ensures View() == UpdateOwner(old(View()), c, owner)
    {
      var info := GetInfo(c);
      if info.Some? {
        chromas := chromas[c := ChromaInfo(info.value.announcement, info.value.totalSupply, Some(owner))];
      } else {
        chromas := chromas[c := ChromaInfo(None, 0, Some(owner))];
      }
    }

    /** `check_issue_announcement`. */
    method CheckIssueAnnouncement(tx: Tx, issue: IssueAnnouncement, signed: Signature) returns (v: Verdict)
      modifies this`chromas
      ensures (v, View()) == TokenRules.CheckIssueAnnouncement(old(View()), tx, issue, signed)
    {
      if tx.txid in txs {
        return Accept;
      }
      v := FindOwner(tx, issue.chroma, signed);
      if v != Accept {
        return;
      }
      var info := GetInfo(issue.chroma);
      if info.Some? && info.value.announcement.Some? {
        var maxSupply := info.value.announcement.value.maxSupply;
        if maxSupply != 0 && maxSupply < Wrap(info.value.totalSupply + issue.amount) {
          return Reject;
        }
      }
      AddSupply(issue);
    }

    /** `is_output_frozen`. */
    method IsOutputFrozen(o: OutPoint, c: Chroma) returns (result: bool)
      modifies this`txs
      ensures (result, View()) == IsFrozen(old(View()), o, c)
    {
      var info := GetInfo(c);
      if info.Some? && info.value.announcement.Some? && !info.value.announcement.value.freezable {
        return false;
      }
      if o !in frozen {
        return false;
      }
      if frozen[o].chroma != c {
        txs := txs - {frozen[o].txid};
        return false;
      }
      result := true;
    }

    /** `check_transfer`: every input proof in turn, collecting the parents that are not known. */
    method CheckTransfer(tx: Tx, checked: map<Txid, Tx>) returns (v: Verdict, missing: seq<Txid>)
      requires tx.kind.Transfer?
      modifies this`txs
      ensures (v, View()) == CheckTransferFrom(old(View()), tx, 0)
      ensures missing == MissingFrom(old(View()), tx, 0, checked.Keys)
    {
      hide IsFrozen;
      missing := [];
      var i := 0;
      while i < |tx.kind.proofs|
        invariant chromas == old(chromas) && frozen == old(frozen)
        invariant CheckTransferFrom(View(), tx, i) == CheckTransferFrom(old(View()), tx, 0)
        invariant missing + MissingFrom(View(), tx, i, checked.Keys) == MissingFrom(old(View()), tx, 0, checked.Keys)
      {
        var proof := tx.kind.proofs[i];
        if proof.input >= |tx.inputs| {
          return Error, missing;
        }
        var parent := tx.inputs[proof.input].previous;
        var isFrozen := IsOutputFrozen(parent, proof.chroma);
        if isFrozen {
          return Reject, missing;
        }
        if parent.txid !in txs && parent.txid !in checked {
          missing := missing + [parent.txid];
        }
        i := i + 1;
      }
      v := Accept;
    }

    /** `check_transaction`, with the checks of the single announcements. */
    method CheckTransaction(tx: Tx, checked: map<Txid, Tx>, signed: Signature) returns (v: Verdict, missing: seq<Txid>)
      modifies this
      ensures (v, View()) == CheckTx(old(View()), tx, signed)
      ensures missing == if tx.kind.Transfer? then MissingFrom(old(View()), tx, 0, checked.Keys) else []
    {
      hide CheckTransferFrom, ByOwner, MissingFrom;
      missing := [];
      match tx.kind
      case Issue(issue) =>
        v := CheckIssueAnnouncement(tx, issue, signed);
        if v == Accept {
          txs := txs[tx.txid := tx];
        }
      case Transfer(_) =>
        v, missing := CheckTransfer(tx, checked);
      case Announce(NewChroma(a)) =>
        v := FindOwner(tx, a.chroma, signed);
        if v == Accept {
          var info := GetInfo(a.chroma);
          if info.Some? && a.maxSupply != 0 && info.value.totalSupply > a.maxSupply {
            return Reject, [];
          }
          AddChromaAnnouncement(a);
        }
      case Announce(Freeze(c, o)) =>
        var info := GetInfo(c);
        if info.Some? && info.value.announcement.Some? && !info.value.announcement.value.freezable {
          return Reject, [];
        }
        v := FindOwner(tx, c, signed);
        if v == Accept {
          PutFreeze(tx.txid, c, o);
        }
      case Announce(Issuance(issue)) =>
        v := CheckIssueAnnouncement(tx, issue, signed);
      case Announce(TransferOwnership(c, owner)) =>
        v := FindOwner(tx, c, signed);
        if v == Accept {
          PutOwner(c, owner);
        }
    }

    /** `check_txs_full`: the transactions reported as checked and as invalid and what is asked of peers, or an error. */
    method CheckTxsFull(batch: seq<Tx>, senders: seq<Option<Peer>>, signed: Signature)
      returns (failed: bool, checked: map<Txid, Tx>, invalid: seq<Tx>, requests: map<Peer, seq<Txid>>)
      requires |senders| == |batch|
      modifies this
      ensures var b := CheckPrefix(old(View()), batch, |batch|, signed);
              failed == b.failed && View() == b.ledger && (!failed ==> checked == b.checked && invalid == b.invalid)
      ensures !failed ==> requests == Requests(old(View()), batch, senders, |batch|, signed)
    {
      hide CheckTx, MissingFrom;
      failed, checked, invalid, requests := false, map[], [], map[];
      for i := 0 to |batch|
        invariant CheckPrefix(old(View()), batch, i, signed) == Batch(false, View(), checked, invalid)
        invariant requests == Requests(old(View()), batch, senders, i, signed)
      {
        var v, missing := CheckTransaction(batch[i], checked, signed);
        if v == Error {
          FailureStays(old(View()), batch, i + 1, |batch|, signed);
          return true, checked, invalid, requests;
        }
        if missing != [] && senders[i].Some? {
          requests := requests[senders[i].value := Asked(requests, senders[i].value) + missing];
        }
        if v == Reject {
          invalid := invalid + [batch[i]];
        } else {
          checked := checked[batch[i].txid := batch[i]];
        }
      }
    }
  }

  lemma {:induction false} FailureStays(l: Ledger, txs: seq<Tx>, n: nat, m: nat, signed: Signature)
    requires n <= m <= |txs| && CheckPrefix(l, txs, n, signed).failed
    ensures CheckPrefix(l, txs, m, signed) == CheckPrefix(l, txs, n, signed)
    decreases m
  {
    if n < m {
      FailureStays(l, txs, n, m - 1, signed);
    }
  }
}
