/**
 The full check of transactions against the token state (`crates/tx-check/src/service.rs` and
 `announcements.rs`, without the bulletproof feature), as functions of the state.
 */
module TokenRules {
  import opened Numbers
  import opened Options

  type Txid = nat
  type Chroma = nat
  type Script = nat

  datatype OutPoint = OutPoint(txid: Txid, vout: nat)

  datatype TxIn = TxIn(previous: OutPoint, unlocking: nat)

  datatype ChromaAnnouncement = ChromaAnnouncement(chroma: Chroma, maxSupply: Amount, freezable: bool)

  datatype IssueAnnouncement = IssueAnnouncement(chroma: Chroma, amount: Amount)

  datatype Announcement =
    | NewChroma(announcement: ChromaAnnouncement)
    | Freeze(chroma: Chroma, outpoint: OutPoint)
    | Issuance(issue: IssueAnnouncement)
    | TransferOwnership(chroma: Chroma, newOwner: Script)

  /** A proof of a transfer: the index of an input and the chroma it claims. */
  datatype InputProof = InputProof(input: nat, chroma: Chroma)

  datatype Kind =
    | Issue(issue: IssueAnnouncement)
    | Announce(announcement: Announcement)
    | Transfer(proofs: seq<InputProof>)

  datatype Tx = Tx(txid: Txid, inputs: seq<TxIn>, kind: Kind)

  datatype ChromaInfo = ChromaInfo(announcement: Option<ChromaAnnouncement>, totalSupply: Amount, owner: Option<Script>)

  datatype FreezeEntry = FreezeEntry(txid: Txid, chroma: Chroma)

  /** Transaction storage, chroma information and frozen outputs. */
  datatype Ledger = Ledger(txs: map<Txid, Tx>, chromas: map<Chroma, ChromaInfo>, frozen: map<OutPoint, FreezeEntry>)

  datatype Verdict = Accept | Reject | Error

  /**
   Whether an input is signed by the owner of a chroma: its issuer when no owner is stored. `None`
   stands for an input whose script cannot be parsed.
   */
  type Signature = (TxIn, Chroma, Option<Script>) -> Option<bool>

  function InfoOf(l: Ledger, c: Chroma): ChromaInfo {
    if c in l.chromas then l.chromas[c] else ChromaInfo(None, 0, None)
  }

  /** `find_owner_in_txinputs`. */
  function OwnerFound(inputs: seq<TxIn>, c: Chroma, owner: Option<Script>, signed: Signature): Option<bool> {
    if inputs == [] then Some(false) else
    var s := signed(inputs[0], c, owner);
    if s == Some(false) then OwnerFound(inputs[1..], c, owner, signed) else s
  }

  function ByOwner(l: Ledger, tx: Tx, c: Chroma, signed: Signature): Verdict {
    match OwnerFound(tx.inputs, c, InfoOf(l, c).owner, signed)
    case None => Error
    case Some(found) => if found then Accept else Reject
  }

  // ---- Updates of the state ----

  function AddAnnouncement(l: Ledger, a: ChromaAnnouncement): Ledger {
    if InfoOf(l, a.chroma).announcement.Some? then l else
    l.(chromas := l.chromas[a.chroma := InfoOf(l, a.chroma).(announcement := Some(a))])
  }

  function UpdateFreezes(l: Ledger, txid: Txid, c: Chroma, o: OutPoint): Ledger {
    if o in l.frozen then l else l.(frozen := l.frozen[o := FreezeEntry(txid, c)])
  }

  function UpdateSupply(l: Ledger, issue: IssueAnnouncement): Ledger {
    var info := InfoOf(l, issue.chroma);
    l.(chromas := l.chromas[issue.chroma := info.(totalSupply := Wrap(info.totalSupply + issue.amount))])
  }

  function UpdateOwner(l: Ledger, c: Chroma, owner: Script): Ledger {
    l.(chromas := l.chromas[c := InfoOf(l, c).(owner := Some(owner))])
  }

  // ---- Checks ----

  function CheckIssueAnnouncement(l: Ledger, tx: Tx, issue: IssueAnnouncement, signed: Signature): (Verdict, Ledger) {
    if tx.txid in l.txs then (Accept, l) else
    var owner := ByOwner(l, tx, issue.chroma, signed);
    if owner != Accept then (owner, l) else
    var info := InfoOf(l, issue.chroma);
    if info.announcement.Some? && info.announcement.value.maxSupply != 0
       && info.announcement.value.maxSupply < Wrap(info.totalSupply + issue.amount) then
      (Reject, l)
    else
      (Accept, UpdateSupply(l, issue))
  }

  function CheckIssuance(l: Ledger, tx: Tx, issue: IssueAnnouncement, signed: Signature): (Verdict, Ledger) {
    var (v, l') := CheckIssueAnnouncement(l, tx, issue, signed);
    if v == Accept then (v, l'.(txs := l'.txs[tx.txid := tx])) else (v, l')
  }

  function CheckChroma(l: Ledger, tx: Tx, a: ChromaAnnouncement, signed: Signature): (Verdict, Ledger) {
    var owner := ByOwner(l, tx, a.chroma, signed);
    if owner != Accept then (owner, l)
    else if a.maxSupply != 0 && InfoOf(l, a.chroma).totalSupply > a.maxSupply then (Reject, l)
    else (Accept, AddAnnouncement(l, a))
  }

  function CheckFreeze(l: Ledger, tx: Tx, c: Chroma, o: OutPoint, signed: Signature): (Verdict, Ledger) {
    var a := InfoOf(l, c).announcement;
    if a.Some? && !a.value.freezable then (Reject, l) else
    var owner := ByOwner(l, tx, c, signed);
    if owner != Accept then (owner, l) else (Accept, UpdateFreezes(l, tx.txid, c, o))
  }

  function CheckOwnership(l: Ledger, tx: Tx, c: Chroma, newOwner: Script, signed: Signature): (Verdict, Ledger) {
    var owner := ByOwner(l, tx, c, signed);
    if owner != Accept then (owner, l) else (Accept, UpdateOwner(l, c, newOwner))
  }

  /** `is_output_frozen`; a freeze under another chroma is taken out of transaction storage. */
  function IsFrozen(l: Ledger, o: OutPoint, c: Chroma): (bool, Ledger) {
    var a := InfoOf(l, c).announcement;
    if a.Some? && !a.value.freezable then (false, l)
    else if o !in l.frozen then (false, l)
    else if l.frozen[o].chroma != c then (false, l.(txs := l.txs - {l.frozen[o].txid}))
    else (true, l)
  }

  /** `check_transfer` from the `i`-th proof on. */
  function CheckTransferFrom(l: Ledger, tx: Tx, i: nat): (Verdict, Ledger)
    requires tx.kind.Transfer?
    decreases |tx.kind.proofs| - i
  {
    if i >= |tx.kind.proofs| then (Accept, l) else
    var proof := tx.kind.proofs[i];
    if proof.input >= |tx.inputs| then (Error, l) else
    var (frozen, l') := IsFrozen(l, tx.inputs[proof.input].previous, proof.chroma);
    if frozen then (Reject, l') else CheckTransferFrom(l', tx, i + 1)
  }

  /** `check_transaction`. */
  function CheckTx(l: Ledger, tx: Tx, signed: Signature): (Verdict, Ledger) {
    match tx.kind
    case Issue(issue) => CheckIssuance(l, tx, issue, signed)
    case Transfer(_) => CheckTransferFrom(l, tx, 0)
    case Announce(NewChroma(a)) => CheckChroma(l, tx, a, signed)
    case Announce(Freeze(c, o)) => CheckFreeze(l, tx, c, o, signed)
    case Announce(Issuance(issue)) => CheckIssueAnnouncement(l, tx, issue, signed)
    case Announce(TransferOwnership(c, owner)) => CheckOwnership(l, tx, c, owner, signed)
  }

  // ---- Runs ----

  /** A full check, or the controller storing a transaction. */
  datatype Event = Check(tx: Tx) | Store(tx: Tx)

  function Step(l: Ledger, e: Event, signed: Signature): Ledger {
    match e
    case Check(tx) => CheckTx(l, tx, signed).1
    case Store(tx) => l.(txs := l.txs[tx.txid := tx])
  }

  function Run(l: Ledger, es: seq<Event>, signed: Signature): Ledger {
    if es == [] then l else Step(Run(l, es[..|es| - 1], signed), es[|es| - 1], signed)
  }

  // ---- What every check keeps ----

  /** A transfer changes transaction storage only, and removes freezes at most. */
  lemma {:induction false} TransferKeeps(l: Ledger, tx: Tx, i: nat)
    requires tx.kind.Transfer?
    ensures var l' := CheckTransferFrom(l, tx, i).1;
            && l'.chromas == l.chromas && l'.frozen == l.frozen
            && forall t :: t in l.txs && (forall o :: o in l.frozen ==> l.frozen[o].txid != t) ==>
                 t in l'.txs && l'.txs[t] == l.txs[t]
    decreases |tx.kind.proofs| - i
  {
    if i < |tx.kind.proofs| && tx.kind.proofs[i].input < |tx.inputs| {
      var proof := tx.kind.proofs[i];
      TransferKeeps(IsFrozen(l, tx.inputs[proof.input].previous, proof.chroma).1, tx, i + 1);
    }
  }

  /** How one event may change the information on a chroma. */
  ghost predicate InfoStep(a: ChromaInfo, b: ChromaInfo) {
    && (a.announcement.Some? ==> b.announcement == a.announcement)
    && (Capped(a) ==> Capped(b))
  }

  /** Total supply is within a nonzero announced maximum. */
  ghost predicate Capped(a: ChromaInfo) {
    a.announcement.Some? && a.announcement.value.maxSupply != 0 ==> a.totalSupply <= a.announcement.value.maxSupply
  }

  lemma StepKeepsInfo(l: Ledger, e: Event, signed: Signature, c: Chroma)
    ensures InfoStep(InfoOf(l, c), InfoOf(Step(l, e, signed), c))
  {
    if e.Check? && e.tx.kind.Transfer? {
      TransferKeeps(l, e.tx, 0);
    }
    hide ByOwner, CheckTransferFrom;
  }

  lemma StepKeepsFrozen(l: Ledger, e: Event, signed: Signature, o: OutPoint)
    requires o in l.frozen
    ensures o in Step(l, e, signed).frozen && Step(l, e, signed).frozen[o] == l.frozen[o]
  {
    if e.Check? && e.tx.kind.Transfer? {
      TransferKeeps(l, e.tx, 0);
    }
    hide ByOwner, CheckTransferFrom;
  }

  /** In every run a stored announcement never changes and the supply cap is kept. */
  lemma {:induction false} RunKeepsInfo(l: Ledger, es: seq<Event>, signed: Signature, c: Chroma)
    ensures InfoStep(InfoOf(l, c), InfoOf(Run(l, es, signed), c))
  {
    if es != [] {
      var k := |es| - 1;
      RunKeepsInfo(l, es[..k], signed, c);
      StepKeepsInfo(Run(l, es[..k], signed), es[k], signed, c);
      hide Step;
    }
  }

  lemma {:induction false} RunKeepsFrozen(l: Ledger, es: seq<Event>, signed: Signature, o: OutPoint)
    requires o in l.frozen
    ensures o in Run(l, es, signed).frozen && Run(l, es, signed).frozen[o] == l.frozen[o]
  {
    if es != [] {
      var k := |es| - 1;
      RunKeepsFrozen(l, es[..k], signed, o);
      StepKeepsFrozen(Run(l, es[..k], signed), es[k], signed, o);
      hide Step;
    }
  }

  // ---- Authority ----

  /** Some input is signed by the owner, and none before it is unreadable. */
  ghost predicate SignedByOwner(inputs: seq<TxIn>, c: Chroma, owner: Option<Script>, signed: Signature) {
    exists i :: SignedFirst(inputs, c, owner, signed, i)
  }

  ghost predicate SignedFirst(inputs: seq<TxIn>, c: Chroma, owner: Option<Script>, signed: Signature, i: nat) {
    && i < |inputs| && signed(inputs[i], c, owner) == Some(true)
    && forall j :: 0 <= j < i ==> signed(inputs[j], c, owner) == Some(false)
  }

  lemma {:induction false} FoundIffSigned(inputs: seq<TxIn>, c: Chroma, owner: Option<Script>, signed: Signature)
    ensures OwnerFound(inputs, c, owner, signed) == Some(true) <==> SignedByOwner(inputs, c, owner, signed)
  {
    if inputs != [] {
      var rest := inputs[1..];
      FoundIffSigned(rest, c, owner, signed);
      if signed(inputs[0], c, owner) == Some(true) {
        assert SignedFirst(inputs, c, owner, signed, 0);
      }
      if i: nat :| SignedFirst(rest, c, owner, signed, i) && signed(inputs[0], c, owner) == Some(false) {
        assert forall j :: 0 < j < |inputs| ==> inputs[j] == rest[j - 1];
        assert SignedFirst(inputs, c, owner, signed, i + 1);
      }
      if i: nat :| SignedFirst(inputs, c, owner, signed, i) && i > 0 {
        assert signed(inputs[0], c, owner) == Some(false);
        assert forall j :: 0 <= j < |rest| ==> rest[j] == inputs[j + 1];
        assert SignedFirst(rest, c, owner, signed, i - 1);
      }
    }
  }

  /**
   The announcement, supply and owner of a chroma, and freezes under it, change only by a transaction
   signed by whoever owned the chroma before.
   */
  lemma ChangesNeedOwner(l: Ledger, e: Event, signed: Signature, c: Chroma, o: OutPoint)
    requires var l' := Step(l, e, signed);
             InfoOf(l', c) != InfoOf(l, c) || (o !in l.frozen && o in l'.frozen && l'.frozen[o].chroma == c)
    ensures e.Check? && SignedByOwner(e.tx.inputs, c, InfoOf(l, c).owner, signed)
  {
    if e.Check? {
      if e.tx.kind.Transfer? {
        TransferKeeps(l, e.tx, 0);
      }
      FoundIffSigned(e.tx.inputs, c, InfoOf(l, c).owner, signed);
      hide OwnerFound, CheckTransferFrom, SignedByOwner;
    }
  }

  // ---- Freeze permanence ----

  ghost predicate FrozenUnder(l: Ledger, o: OutPoint, c: Chroma) {
    && o in l.frozen && l.frozen[o].chroma == c
    && InfoOf(l, c).announcement.Some? && InfoOf(l, c).announcement.value.freezable
  }

  ghost predicate Spends(tx: Tx, o: OutPoint, c: Chroma, k: nat) {
    && tx.kind.Transfer? && k < |tx.kind.proofs| && tx.kind.proofs[k].chroma == c
    && tx.kind.proofs[k].input < |tx.inputs| && tx.inputs[tx.kind.proofs[k].input].previous == o
  }

  lemma {:induction false} FrozenNotAccepted(l: Ledger, tx: Tx, o: OutPoint, c: Chroma, k: nat, i: nat)
    requires FrozenUnder(l, o, c) && Spends(tx, o, c, k) && i <= k
    ensures CheckTransferFrom(l, tx, i).0 != Accept
    decreases k - i
  {
    var proof := tx.kind.proofs[i];
    if i < k && proof.input < |tx.inputs| {
      FrozenNotAccepted(IsFrozen(l, tx.inputs[proof.input].previous, proof.chroma).1, tx, o, c, k, i + 1);
    }
  }

  /**
   Once an output is frozen under a chroma whose announcement is stored and allows freezing, no
   run leads to a state that accepts a transfer spending it with a proof of that chroma.
   */
  lemma FreezePermanence(l: Ledger, es: seq<Event>, signed: Signature, o: OutPoint, c: Chroma, tx: Tx, k: nat)
    requires FrozenUnder(l, o, c) && Spends(tx, o, c, k)
    ensures CheckTx(Run(l, es, signed), tx, signed).0 != Accept
  {
    RunKeepsInfo(l, es, signed, c);
    RunKeepsFrozen(l, es, signed, o);
    FrozenNotAccepted(Run(l, es, signed), tx, o, c, k, 0);
  }

  // ---- Supply accounting ----

  /** The issuance an event would credit. */
  function IssueOf(tx: Tx): Option<IssueAnnouncement> {
    match tx.kind
    case Issue(issue) => Some(issue)
    case Announce(Issuance(issue)) => Some(issue)
    case _ => None
  }

  /** The amount of `c` an event newly issues: that of an accepted issuance not in storage before. */
  function Credit(l: Ledger, e: Event, c: Chroma, signed: Signature): Amount {
    if e.Check? && IssueOf(e.tx).Some? && IssueOf(e.tx).value.chroma == c
       && e.tx.txid !in l.txs && CheckTx(l, e.tx, signed).0 == Accept
    then IssueOf(e.tx).value.amount
    else 0
  }

  function Credits(l: Ledger, es: seq<Event>, c: Chroma, signed: Signature): nat {
    if es == [] then 0 else
    var k := |es| - 1;
    Credits(l, es[..k], c, signed) + Credit(Run(l, es[..k], signed), es[k], c, signed)
  }

  function SupplyOf(l: Ledger, c: Chroma): Amount {
    InfoOf(l, c).totalSupply
  }

  lemma SupplyStep(l: Ledger, e: Event, signed: Signature, c: Chroma)
    ensures SupplyOf(Step(l, e, signed), c) == Wrap(SupplyOf(l, c) + Credit(l, e, c, signed))
  {
    if e.Check? && e.tx.kind.Transfer? {
      TransferKeeps(l, e.tx, 0);
    }
    hide ByOwner, CheckTransferFrom;
  }

  /** A step lowers the supply exactly when the addition overflows. */
  lemma SupplyFallsOnOverflow(l: Ledger, e: Event, signed: Signature, c: Chroma)
    ensures SupplyOf(Step(l, e, signed), c) < SupplyOf(l, c) <==> SupplyOf(l, c) + Credit(l, e, c, signed) >= U128
  {
    SupplyStep(l, e, signed, c);
    hide Step, Credit;
  }

  /** In every run the supply is the initial one plus all credits, modulo 2^128. */
  lemma {:induction false} SupplyIsCredits(l: Ledger, es: seq<Event>, signed: Signature, c: Chroma)
    ensures SupplyOf(Run(l, es, signed), c) == Wrap(SupplyOf(l, c) + Credits(l, es, c, signed))
  {
    if es != [] {
      hide Run, Credits, Step, Credit, SupplyOf, Wrap;
      var k := |es| - 1;
      LastEvent(l, es, signed, c);
      SupplyIsCredits(l, es[..k], signed, c);
      SupplyStep(Run(l, es[..k], signed), es[k], signed, c);
      WrapTwice(SupplyOf(l, c) + Credits(l, es[..k], c, signed), Credit(Run(l, es[..k], signed), es[k], c, signed));
    } else {
      hide SupplyOf, Step;
    }
  }

  lemma LastEvent(l: Ledger, es: seq<Event>, signed: Signature, c: Chroma)
    requires es != []
    ensures var k := |es| - 1;
            && Run(l, es, signed) == Step(Run(l, es[..k], signed), es[k], signed)
            && Credits(l, es, c, signed) == Credits(l, es[..k], c, signed) + Credit(Run(l, es[..k], signed), es[k], c, signed)
  {
    hide Step, Credit;
  }

  lemma WrapTwice(x: nat, a: Amount)
    ensures Wrap(Wrap(x) + a) == Wrap(x + a)
  {
  }

  /** Without overflow the supply never falls along a run. */
  lemma SupplyNeverFalls(l: Ledger, es: seq<Event>, signed: Signature, c: Chroma, i: nat, j: nat)
    requires i <= j <= |es| && SupplyOf(l, c) + Credits(l, es, c, signed) < U128
    ensures SupplyOf(Run(l, es[..i], signed), c) <= SupplyOf(Run(l, es[..j], signed), c)
  {
    hide Run, Credits, SupplyOf;
    SupplyIsCredits(l, es[..i], signed, c);
    SupplyIsCredits(l, es[..j], signed, c);
    CreditsGrow(l, es, signed, c, i, j);
    CreditsGrow(l, es, signed, c, j, |es|);
    assert es[..|es|] == es;
  }

  lemma {:induction false} CreditsGrow(l: Ledger, es: seq<Event>, signed: Signature, c: Chroma, i: nat, j: nat)
    requires i <= j <= |es|
    ensures Credits(l, es[..i], c, signed) <= Credits(l, es[..j], c, signed)
    decreases j
  {
    if i < j {
      CreditsGrow(l, es, signed, c, i, j - 1);
      assert es[..j][..j - 1] == es[..j - 1];
    }
  }

  // ---- What is in storage, and when an issuance is credited again ----

  /** The check of proof `k` of a transfer lets it pass. */
  ghost predicate ProofPasses(l: Ledger, tx: Tx, k: nat)
    requires tx.kind.Transfer? && k < |tx.kind.proofs|
  {
    var proof := tx.kind.proofs[k];
    proof.input < |tx.inputs| && !IsFrozen(l, tx.inputs[proof.input].previous, proof.chroma).0
  }

  /** The output of proof `k` was frozen by transaction `id` under another chroma. */
  ghost predicate ForeignFreeze(l: Ledger, tx: Tx, k: nat, id: Txid)
    requires tx.kind.Transfer? && k < |tx.kind.proofs|
  {
    var proof := tx.kind.proofs[k];
    && proof.input < |tx.inputs|
    && var o := tx.inputs[proof.input].previous;
       && o in l.frozen && l.frozen[o].txid == id && l.frozen[o].chroma != proof.chroma
       && var a := InfoOf(l, proof.chroma).announcement; (a.Some? ==> a.value.freezable)
  }

  /** A transfer reaches, from proof `i` on, an output frozen by `id` under another chroma. */
  ghost predicate Reaches(l: Ledger, tx: Tx, i: nat, id: Txid)
    requires tx.kind.Transfer?
  {
    exists k :: i <= k < |tx.kind.proofs| && ReachesAt(l, tx, i, k, id)
  }

  ghost predicate ReachesAt(l: Ledger, tx: Tx, i: nat, k: nat, id: Txid)
    requires tx.kind.Transfer? && k < |tx.kind.proofs|
  {
    ForeignFreeze(l, tx, k, id) && forall j :: i <= j < k ==> ProofPasses(l, tx, j)
  }

  lemma SameFreezes(l: Ledger, l': Ledger, tx: Tx, i: nat, id: Txid)
    requires tx.kind.Transfer? && l.chromas == l'.chromas && l.frozen == l'.frozen
    ensures Reaches(l, tx, i, id) <==> Reaches(l', tx, i, id)
  {
    forall k | 0 <= k < |tx.kind.proofs|
      ensures ProofPasses(l, tx, k) == ProofPasses(l', tx, k) && ForeignFreeze(l, tx, k, id) == ForeignFreeze(l', tx, k, id)
    {
    }
    hide ProofPasses, ForeignFreeze;
    forall k | i <= k < |tx.kind.proofs|
      ensures ReachesAt(l, tx, i, k, id) == ReachesAt(l', tx, i, k, id)
    {
    }
  }

  lemma ReachesNext(l: Ledger, tx: Tx, i: nat, id: Txid)
    requires tx.kind.Transfer? && i < |tx.kind.proofs|
    ensures Reaches(l, tx, i, id) <==> ForeignFreeze(l, tx, i, id) || (ProofPasses(l, tx, i) && Reaches(l, tx, i + 1, id))
  {
    hide ProofPasses, ForeignFreeze;
    if ForeignFreeze(l, tx, i, id) {
      assert ReachesAt(l, tx, i, i, id);
    }
    if ProofPasses(l, tx, i) && Reaches(l, tx, i + 1, id) {
      var k :| i + 1 <= k < |tx.kind.proofs| && ReachesAt(l, tx, i + 1, k, id);
      assert ReachesAt(l, tx, i, k, id);
    }
    if k :| i <= k < |tx.kind.proofs| && ReachesAt(l, tx, i, k, id) {
      if k > i {
        assert ProofPasses(l, tx, i) && ReachesAt(l, tx, i + 1, k, id);
      }
    }
  }

  /** A transfer takes an id out of storage exactly when it reaches an output the id froze under another chroma. */
  lemma {:induction false} TransferTakesOut(l: Ledger, tx: Tx, i: nat, id: Txid)
    requires tx.kind.Transfer?
    ensures id in CheckTransferFrom(l, tx, i).1.txs <==> id in l.txs && !Reaches(l, tx, i, id)
    decreases |tx.kind.proofs| - i
  {
    if i < |tx.kind.proofs| {
      ReachesNext(l, tx, i, id);
      if ProofPasses(l, tx, i) {
        var proof := tx.kind.proofs[i];
        var l' := IsFrozen(l, tx.inputs[proof.input].previous, proof.chroma).1;
        SameFreezes(l, l', tx, i + 1, id);
        TransferTakesOut(l', tx, i + 1, id);
        hide Reaches;
      } else {
        hide Reaches;
      }
    }
  }

  /** An event puts an id into storage: a transaction is stored, or an issuance accepted. */
  ghost predicate Puts(l: Ledger, e: Event, signed: Signature, id: Txid) {
    e.tx.txid == id && (e.Store? || (e.tx.kind.Issue? && CheckTx(l, e.tx, signed).0 == Accept))
  }

  /** An event takes an id out of storage, if it is there. */
  ghost predicate TakesOut(l: Ledger, e: Event, id: Txid) {
    e.Check? && e.tx.kind.Transfer? && Reaches(l, e.tx, 0, id)
  }

  lemma StepStorage(l: Ledger, e: Event, signed: Signature, id: Txid)
    ensures id in Step(l, e, signed).txs <==> Puts(l, e, signed, id) || (id in l.txs && !TakesOut(l, e, id))
  {
    if e.Check? && e.tx.kind.Transfer? {
      TransferTakesOut(l, e.tx, 0, id);
    }
    hide ByOwner, CheckTransferFrom, Reaches;
  }

  /** No event from `p` up to `j` takes the id out. */
  ghost predicate Kept(l: Ledger, es: seq<Event>, signed: Signature, id: Txid, p: nat, j: nat)
    requires j <= |es|
  {
    forall q :: p <= q < j ==> !TakesOut(Run(l, es[..q], signed), es[q], id)
  }

  /** Event `p` puts the id into storage and none up to `j` takes it out. */
  ghost predicate PutAndKept(l: Ledger, es: seq<Event>, signed: Signature, id: Txid, p: nat, j: nat)
    requires p < j <= |es|
  {
    Puts(Run(l, es[..p], signed), es[p], signed, id) && Kept(l, es, signed, id, p + 1, j)
  }

  ghost predicate PutSince(l: Ledger, es: seq<Event>, signed: Signature, id: Txid, i: nat, j: nat)
    requires j <= |es|
  {
    exists p :: i <= p < j && PutAndKept(l, es, signed, id, p, j)
  }

  lemma RunOne(l: Ledger, es: seq<Event>, signed: Signature, j: nat)
    requires 0 < j <= |es|
    ensures Run(l, es[..j], signed) == Step(Run(l, es[..j - 1], signed), es[j - 1], signed)
  {
    hide Step;
    assert es[..j][..j - 1] == es[..j - 1];
  }

  /** From a state without the id, it is in storage exactly when it was put there and kept since. */
  lemma {:induction false} RunStorage(l: Ledger, es: seq<Event>, signed: Signature, id: Txid, i: nat, j: nat)
    requires i <= j <= |es| && id !in Run(l, es[..i], signed).txs
    ensures id in Run(l, es[..j], signed).txs <==> PutSince(l, es, signed, id, i, j)
    decreases j
  {
    if i < j {
      hide Run, Step, Puts, TakesOut, PutSince;
      var k := j - 1;
      RunStorage(l, es, signed, id, i, k);
      RunOne(l, es, signed, j);
      StepStorage(Run(l, es[..k], signed), es[k], signed, id);
      PutSinceNext(l, es, signed, id, i, j);
    }
  }

  lemma PutSinceNext(l: Ledger, es: seq<Event>, signed: Signature, id: Txid, i: nat, j: nat)
    requires i < j <= |es|
    ensures var n := Run(l, es[..j - 1], signed);
            PutSince(l, es, signed, id, i, j) <==>
            Puts(n, es[j - 1], signed, id) || (PutSince(l, es, signed, id, i, j - 1) && !TakesOut(n, es[j - 1], id))
  {
    hide Run, Puts, TakesOut;
    var k := j - 1;
    var n := Run(l, es[..k], signed);
    if Puts(n, es[k], signed, id) {
      assert PutAndKept(l, es, signed, id, k, j);
    }
    if p :| i <= p < k && PutAndKept(l, es, signed, id, p, k) {
      if !TakesOut(n, es[k], id) {
        assert PutAndKept(l, es, signed, id, p, j);
      }
    }
    if p :| i <= p < j && PutAndKept(l, es, signed, id, p, j) {
      if p < k {
        assert !TakesOut(n, es[k], id);
        assert PutAndKept(l, es, signed, id, p, k);
      }
    }
  }

  /** An event newly issues: an issuance, of either kind, that is accepted and not in storage. */
  ghost predicate Credited(l: Ledger, e: Event, signed: Signature) {
    e.Check? && IssueOf(e.tx).Some? && e.tx.txid !in l.txs && CheckTx(l, e.tx, signed).0 == Accept
  }

  lemma CreditIsCredited(l: Ledger, e: Event, signed: Signature, c: Chroma)
    ensures Credit(l, e, c, signed) ==
            if Credited(l, e, signed) && IssueOf(e.tx).value.chroma == c then IssueOf(e.tx).value.amount else 0
  {
  }

  /** The owner signs the issuance and the new supply, wrapped around, is within a nonzero announced maximum. */
  ghost predicate Issuable(l: Ledger, tx: Tx, issue: IssueAnnouncement, signed: Signature) {
    var info := InfoOf(l, issue.chroma);
    && SignedByOwner(tx.inputs, issue.chroma, info.owner, signed)
    && Capped(info.(totalSupply := Wrap(info.totalSupply + issue.amount)))
  }

  lemma CreditedIff(l: Ledger, tx: Tx, signed: Signature)
    requires IssueOf(tx).Some?
    ensures Credited(l, Check(tx), signed) <==> tx.txid !in l.txs && Issuable(l, tx, IssueOf(tx).value, signed)
  {
    var issue := IssueOf(tx).value;
    FoundIffSigned(tx.inputs, issue.chroma, InfoOf(l, issue.chroma).owner, signed);
    hide OwnerFound, SignedByOwner;
  }

  /**
   An issuance credited at step `i` and checked again at step `j` is credited again exactly when the
   owner signs it and the cap allows it then, and whatever put its id into storage from `i` on was
   followed by a transfer that took it out.
   */
  lemma CreditedAgainIff(l: Ledger, es: seq<Event>, signed: Signature, i: nat, j: nat)
    requires i < j < |es| && Credited(Run(l, es[..i], signed), es[i], signed)
    requires es[j].Check? && IssueOf(es[j].tx).Some? && es[j].tx.txid == es[i].tx.txid
    ensures var before, issue := Run(l, es[..j], signed), IssueOf(es[j].tx).value;
            && (Credited(before, es[j], signed) <==>
                  Issuable(before, es[j].tx, issue, signed) && !PutSince(l, es, signed, es[i].tx.txid, i, j))
            && forall c :: Credit(before, es[j], c, signed) ==
                 if Credited(before, es[j], signed) && c == issue.chroma then issue.amount else 0
  {
    RunStorage(l, es, signed, es[i].tx.txid, i, j);
    CreditedIff(Run(l, es[..j], signed), es[j].tx, signed);
    hide Run, PutSince, Issuable;
    forall c {
      CreditIsCredited(Run(l, es[..j], signed), es[j], signed, c);
    }
    hide CheckTx;
  }

  /** Checks of an issuance store it, so a later one is credited only after a transfer took the id out. */
  lemma CreditedOnce(l: Ledger, es: seq<Event>, signed: Signature, i: nat, j: nat)
    requires i < j < |es| && Credited(Run(l, es[..i], signed), es[i], signed) && es[i].tx.kind.Issue?
    requires es[j].Check? && IssueOf(es[j].tx).Some? && es[j].tx.txid == es[i].tx.txid
    requires Kept(l, es, signed, es[i].tx.txid, i + 1, j)
    ensures forall c :: Credit(Run(l, es[..j], signed), es[j], c, signed) == 0
  {
    CreditedAgainIff(l, es, signed, i, j);
    hide Run, CheckTx, Kept;
    assert PutAndKept(l, es, signed, es[i].tx.txid, i, j);
  }

  /** An announced issuance is not stored by its check: checked twice in a row, it is credited twice. */
  lemma AnnouncedCreditsTwice(signed: Signature)
    requires forall i, c, o :: signed(i, c, o) == Some(true)
    ensures var announced := Tx(7, [TxIn(OutPoint(1, 0), 0)], Announce(Issuance(IssueAnnouncement(1, 5))));
            var l := Ledger(map[], map[], map[]);
            var l' := Step(l, Check(announced), signed);
            Credit(l, Check(announced), 1, signed) == 5 && Credit(l', Check(announced), 1, signed) == 5
  {
    var announced := Tx(7, [TxIn(OutPoint(1, 0), 0)], Announce(Issuance(IssueAnnouncement(1, 5))));
    assert forall l: Ledger, c :: ByOwner(l, announced, c, signed) == Accept;
    hide ByOwner;
  }

  /**
   An issuance whose id also froze an output is taken out of storage by a transfer of another chroma
   over that output, and its next check credits it again.
   */
  lemma FreezeIdCreditsTwice(signed: Signature)
    requires forall i, c, o :: signed(i, c, o) == Some(true)
    ensures var frozen := OutPoint(1, 0);
            var input := TxIn(frozen, 0);
            var freeze := Tx(7, [input], Announce(Freeze(0, frozen)));
            var issue := Tx(7, [input], Issue(IssueAnnouncement(1, 5)));
            var transfer := Tx(9, [input], Transfer([InputProof(0, 1)]));
            var es := [Check(freeze), Check(issue), Check(transfer), Check(issue)];
            var start := Ledger(map[], map[], map[]);
            && Credit(Run(start, es[..1], signed), es[1], 1, signed) == 5
            && Credit(Run(start, es[..3], signed), es[3], 1, signed) == 5
  {
    var frozen := OutPoint(1, 0);
    var input := TxIn(frozen, 0);
    var freeze := Tx(7, [input], Announce(Freeze(0, frozen)));
    var issue := Tx(7, [input], Issue(IssueAnnouncement(1, 5)));
    var transfer := Tx(9, [input], Transfer([InputProof(0, 1)]));
    var es := [Check(freeze), Check(issue), Check(transfer), Check(issue)];
    var l0 := Ledger(map[], map[], map[]);
    assert forall l: Ledger, c :: ByOwner(l, freeze, c, signed) == Accept && ByOwner(l, issue, c, signed) == Accept;
    hide ByOwner;
    var l1 := Ledger(map[], map[], map[frozen := FreezeEntry(7, 0)]);
    assert Step(l0, es[0], signed) == l1;
    var l2 := Ledger(map[7 := issue], map[1 := ChromaInfo(None, 5, None)], l1.frozen);
    assert Step(l1, es[1], signed) == l2;
    var l3 := l2.(txs := map[7 := issue] - {7});
    assert IsFrozen(l2, frozen, 1) == (false, l3);
    assert CheckTransferFrom(l3, transfer, 1) == (Accept, l3);
    assert Step(l2, es[2], signed) == l3;
    assert es[..1] == [es[0]] && es[..2][..1] == es[..1] && es[..3][..2] == es[..2];
    assert Run(l0, es[..1], signed) == l1 by {
      assert es[..1][..0] == [];
    }
    assert Run(l0, es[..2], signed) == l2;
    assert Run(l0, es[..3], signed) == l3;
  }
}
