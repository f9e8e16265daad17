/**
 What the full check decides and changes, said without its functions: the conditions under which a
 transaction is accepted, rejected or fails, its effect on chroma information, freezes and storage,
 and what follows for runs and batches.
 */
module TokenVerdicts {
  import opened Numbers
  import opened Options
  import opened TokenRules
  import opened TxChecker

  // ---- Conditions ----

  ghost predicate OwnerSigns(l: Ledger, tx: Tx, c: Chroma, signed: Signature) {
    SignedByOwner(tx.inputs, c, InfoOf(l, c).owner, signed)
  }

  /** An input cannot be read before one is signed by the owner. */
  ghost predicate OwnerUnclear(l: Ledger, tx: Tx, c: Chroma, signed: Signature) {
    exists i :: UnreadableFirst(tx.inputs, c, InfoOf(l, c).owner, signed, i)
  }

  ghost predicate UnreadableFirst(inputs: seq<TxIn>, c: Chroma, owner: Option<Script>, signed: Signature, i: nat) {
    && i < |inputs| && signed(inputs[i], c, owner) == None
    && forall j :: 0 <= j < i ==> signed(inputs[j], c, owner) == Some(false)
  }

  /** No stored announcement forbids freezing. */
  ghost predicate Freezable(l: Ledger, c: Chroma) {
    var a := InfoOf(l, c).announcement;
    a.Some? ==> a.value.freezable
  }

  /** An output cannot be spent with a proof of the chroma. */
  ghost predicate FrozenFor(l: Ledger, o: OutPoint, c: Chroma) {
    o in l.frozen && l.frozen[o].chroma == c && Freezable(l, c)
  }

  ghost predicate InputExists(tx: Tx, k: nat)
    requires tx.kind.Transfer? && k < |tx.kind.proofs|
  {
    tx.kind.proofs[k].input < |tx.inputs|
  }

  ghost predicate ProofOpen(l: Ledger, tx: Tx, k: nat)
    requires tx.kind.Transfer? && k < |tx.kind.proofs|
  {
    InputExists(tx, k) && !FrozenFor(l, tx.inputs[tx.kind.proofs[k].input].previous, tx.kind.proofs[k].chroma)
  }

  /** Every proof from `i` on names an input that exists and is not frozen for its chroma. */
  ghost predicate AllOpen(l: Ledger, tx: Tx, i: nat)
    requires tx.kind.Transfer?
  {
    forall k :: i <= k < |tx.kind.proofs| ==> ProofOpen(l, tx, k)
  }

  /** The first proof from `i` on that is not open names no input. */
  ghost predicate InputMissing(l: Ledger, tx: Tx, i: nat)
    requires tx.kind.Transfer?
  {
    exists k :: i <= k < |tx.kind.proofs| && OpenUpTo(l, tx, i, k) && !InputExists(tx, k)
  }

  ghost predicate OpenUpTo(l: Ledger, tx: Tx, i: nat, k: nat)
    requires tx.kind.Transfer? && k <= |tx.kind.proofs|
  {
    forall j :: i <= j < k ==> ProofOpen(l, tx, j)
  }

  ghost predicate Allows(l: Ledger, tx: Tx, signed: Signature) {
    match tx.kind
    case Issue(issue) => tx.txid in l.txs || Issuable(l, tx, issue, signed)
    case Transfer(_) => AllOpen(l, tx, 0)
    case Announce(NewChroma(a)) =>
      OwnerSigns(l, tx, a.chroma, signed) && (a.maxSupply == 0 || InfoOf(l, a.chroma).totalSupply <= a.maxSupply)
    case Announce(Freeze(c, _)) => OwnerSigns(l, tx, c, signed) && Freezable(l, c)
    case Announce(Issuance(issue)) => tx.txid in l.txs || Issuable(l, tx, issue, signed)
    case Announce(TransferOwnership(c, _)) => OwnerSigns(l, tx, c, signed)
  }

  ghost predicate Breaks(l: Ledger, tx: Tx, signed: Signature) {
    match tx.kind
    case Issue(issue) => tx.txid !in l.txs && OwnerUnclear(l, tx, issue.chroma, signed)
    case Transfer(_) => InputMissing(l, tx, 0)
    case Announce(NewChroma(a)) => OwnerUnclear(l, tx, a.chroma, signed)
    case Announce(Freeze(c, _)) => OwnerUnclear(l, tx, c, signed) && Freezable(l, c)
    case Announce(Issuance(issue)) => tx.txid !in l.txs && OwnerUnclear(l, tx, issue.chroma, signed)
    case Announce(TransferOwnership(c, _)) => OwnerUnclear(l, tx, c, signed)
  }

  // ---- Decisions ----

  lemma {:induction false} NoneIffUnreadable(inputs: seq<TxIn>, c: Chroma, owner: Option<Script>, signed: Signature)
    ensures OwnerFound(inputs, c, owner, signed) == None <==> exists i :: UnreadableFirst(inputs, c, owner, signed, i)
  {
    if inputs != [] {
      var rest := inputs[1..];
      NoneIffUnreadable(rest, c, owner, signed);
      if signed(inputs[0], c, owner) == None {
        assert UnreadableFirst(inputs, c, owner, signed, 0);
      }
      if i: nat :| UnreadableFirst(rest, c, owner, signed, i) && signed(inputs[0], c, owner) == Some(false) {
        assert forall j :: 0 < j < |inputs| ==> inputs[j] == rest[j - 1];
        assert UnreadableFirst(inputs, c, owner, signed, i + 1);
      }
      if i: nat :| UnreadableFirst(inputs, c, owner, signed, i) && i > 0 {
        assert signed(inputs[0], c, owner) == Some(false);
        assert forall j :: 0 <= j < |rest| ==> rest[j] == inputs[j + 1];
        assert UnreadableFirst(rest, c, owner, signed, i - 1);
      }
    }
  }

  lemma OwnerVerdict(l: Ledger, tx: Tx, c: Chroma, signed: Signature)
    ensures ByOwner(l, tx, c, signed) == Accept <==> OwnerSigns(l, tx, c, signed)
    ensures ByOwner(l, tx, c, signed) == Error <==> OwnerUnclear(l, tx, c, signed)
  {
    FoundIffSigned(tx.inputs, c, InfoOf(l, c).owner, signed);
    NoneIffUnreadable(tx.inputs, c, InfoOf(l, c).owner, signed);
    hide OwnerFound, SignedByOwner, UnreadableFirst;
  }

  lemma FrozenIff(l: Ledger, o: OutPoint, c: Chroma)
    ensures IsFrozen(l, o, c).0 <==> FrozenFor(l, o, c)
    ensures var l' := IsFrozen(l, o, c).1; l'.chromas == l.chromas && l'.frozen == l.frozen
  {
  }

  lemma SameConditions(l: Ledger, l': Ledger, tx: Tx, i: nat)
    requires tx.kind.Transfer? && l.chromas == l'.chromas && l.frozen == l'.frozen
    ensures AllOpen(l, tx, i) == AllOpen(l', tx, i) && InputMissing(l, tx, i) == InputMissing(l', tx, i)
  {
    assert forall k :: 0 <= k < |tx.kind.proofs| ==> ProofOpen(l, tx, k) == ProofOpen(l', tx, k);
    hide ProofOpen, InputExists;
    assert forall k :: 0 <= k <= |tx.kind.proofs| ==> OpenUpTo(l, tx, i, k) == OpenUpTo(l', tx, i, k);
  }

  lemma ConditionsNext(l: Ledger, tx: Tx, i: nat)
    requires tx.kind.Transfer? && i < |tx.kind.proofs|
    ensures AllOpen(l, tx, i) <==> ProofOpen(l, tx, i) && AllOpen(l, tx, i + 1)
    ensures InputMissing(l, tx, i) <==> !InputExists(tx, i) || (ProofOpen(l, tx, i) && InputMissing(l, tx, i + 1))
  {
    hide FrozenFor;
    assert !InputExists(tx, i) ==> OpenUpTo(l, tx, i, i);
    assert ProofOpen(l, tx, i) ==> forall k :: i < k <= |tx.kind.proofs| && OpenUpTo(l, tx, i + 1, k) ==> OpenUpTo(l, tx, i, k);
    if k :| i <= k < |tx.kind.proofs| && OpenUpTo(l, tx, i, k) && !InputExists(tx, k) {
      if k > i {
        assert ProofOpen(l, tx, i) && OpenUpTo(l, tx, i + 1, k);
      }
    }
  }

  lemma {:induction false} TransferVerdict(l: Ledger, tx: Tx, i: nat)
    requires tx.kind.Transfer?
    ensures CheckTransferFrom(l, tx, i).0 == Accept <==> AllOpen(l, tx, i)
    ensures CheckTransferFrom(l, tx, i).0 == Error <==> InputMissing(l, tx, i)
    decreases |tx.kind.proofs| - i
  {
    if i < |tx.kind.proofs| {
      ConditionsNext(l, tx, i);
      if tx.kind.proofs[i].input < |tx.inputs| {
        var o, c := tx.inputs[tx.kind.proofs[i].input].previous, tx.kind.proofs[i].chroma;
        var l' := IsFrozen(l, o, c).1;
        FrozenIff(l, o, c);
        SameConditions(l, l', tx, i + 1);
        hide IsFrozen, FrozenFor, AllOpen, InputMissing;
        TransferVerdict(l', tx, i + 1);
      } else {
        hide AllOpen, InputMissing;
      }
    }
  }

  /** Which transactions are accepted, and which make the check fail; the others are rejected. */
  lemma VerdictIff(l: Ledger, tx: Tx, signed: Signature)
    ensures CheckTx(l, tx, signed).0 == Accept <==> Allows(l, tx, signed)
    ensures CheckTx(l, tx, signed).0 == Error <==> Breaks(l, tx, signed)
  {
    hide ByOwner, CheckTransferFrom, AllOpen, InputMissing, SignedByOwner, OwnerUnclear;
    match tx.kind
    case Issue(issue) => OwnerVerdict(l, tx, issue.chroma, signed);
    case Transfer(_) => TransferVerdict(l, tx, 0);
    case Announce(NewChroma(a)) => OwnerVerdict(l, tx, a.chroma, signed);
    case Announce(Freeze(c, _)) => OwnerVerdict(l, tx, c, signed);
    case Announce(Issuance(issue)) => OwnerVerdict(l, tx, issue.chroma, signed);
    case Announce(TransferOwnership(c, _)) => OwnerVerdict(l, tx, c, signed);
  }

  // ---- Effects ----

  /** An accepted announcement of a chroma. */
  ghost predicate Announces(l: Ledger, e: Event, signed: Signature, a: ChromaAnnouncement) {
    e.Check? && e.tx.kind == Announce(NewChroma(a)) && Allows(l, e.tx, signed)
  }

  ghost predicate Freezes(l: Ledger, e: Event, signed: Signature, c: Chroma, o: OutPoint) {
    e.Check? && e.tx.kind == Announce(Freeze(c, o)) && Allows(l, e.tx, signed)
  }

  ghost predicate HandsOver(l: Ledger, e: Event, signed: Signature, c: Chroma, owner: Script) {
    e.Check? && e.tx.kind == Announce(TransferOwnership(c, owner)) && Allows(l, e.tx, signed)
  }

  ghost predicate HandsOverAny(l: Ledger, e: Event, signed: Signature, c: Chroma) {
    && e.Check? && e.tx.kind.Announce? && e.tx.kind.announcement.TransferOwnership?
    && HandsOver(l, e, signed, c, e.tx.kind.announcement.newOwner)
  }

  /** The first accepted announcement is stored as given, and nothing else changes one. */
  lemma AnnouncementAfter(l: Ledger, e: Event, signed: Signature, c: Chroma)
    ensures var was, now := InfoOf(l, c).announcement, InfoOf(Step(l, e, signed), c).announcement;
            && (forall a :: Announces(l, e, signed, a) && a.chroma == c ==> now == if was.None? then Some(a) else was)
            && ((forall a :: Announces(l, e, signed, a) ==> a.chroma != c) ==> now == was)
  {
    if e.Check? {
      VerdictIff(l, e.tx, signed);
      if e.tx.kind.Transfer? {
        TransferKeeps(l, e.tx, 0);
      }
    }
    hide ByOwner, CheckTransferFrom, Allows;
    if e.Check? && e.tx.kind.Announce? && e.tx.kind.announcement.NewChroma? && Allows(l, e.tx, signed) {
      assert Announces(l, e, signed, e.tx.kind.announcement.announcement);
    }
  }

  /** An accepted transfer of ownership takes effect, and nothing else changes an owner. */
  lemma OwnerAfter(l: Ledger, e: Event, signed: Signature, c: Chroma)
    ensures var now := InfoOf(Step(l, e, signed), c).owner;
            && (forall owner: Script :: HandsOver(l, e, signed, c, owner) ==> now == Some(owner))
            && (!HandsOverAny(l, e, signed, c) ==> now == InfoOf(l, c).owner)
  {
    if e.Check? {
      VerdictIff(l, e.tx, signed);
      if e.tx.kind.Transfer? {
        TransferKeeps(l, e.tx, 0);
      }
    }
    hide ByOwner, CheckTransferFrom, Allows;
  }

  /** An accepted freeze of an output that is not frozen is entered as given, and nothing else changes freezes. */
  lemma FrozenAfter(l: Ledger, e: Event, signed: Signature, o: OutPoint)
    ensures var l' := Step(l, e, signed);
            && (o in l.frozen ==> o in l'.frozen && l'.frozen[o] == l.frozen[o])
            && (forall c :: o !in l.frozen && Freezes(l, e, signed, c, o) ==>
                  o in l'.frozen && l'.frozen[o] == FreezeEntry(e.tx.txid, c))
            && (o !in l.frozen && (forall c :: !Freezes(l, e, signed, c, o)) ==> o !in l'.frozen)
  {
    if e.Check? {
      VerdictIff(l, e.tx, signed);
      if e.tx.kind.Transfer? {
        TransferKeeps(l, e.tx, 0);
      }
    }
    hide ByOwner, CheckTransferFrom, Allows;
    if e.Check? && e.tx.kind.Announce? && e.tx.kind.announcement.Freeze? && Allows(l, e.tx, signed) {
      assert Freezes(l, e, signed, e.tx.kind.announcement.chroma, e.tx.kind.announcement.outpoint);
    }
  }

  /** What is stored under an id: the transaction just put there, or what was. */
  lemma StoredAfter(l: Ledger, e: Event, signed: Signature, id: Txid)
    ensures var l' := Step(l, e, signed);
            id in l'.txs ==> if Puts(l, e, signed, id) then l'.txs[id] == e.tx else id in l.txs && l'.txs[id] == l.txs[id]
  {
    if e.Check? && e.tx.kind.Transfer? {
      TransferStores(l, e.tx, 0);
    }
    hide ByOwner, CheckTransferFrom;
  }

  lemma {:induction false} TransferStores(l: Ledger, tx: Tx, i: nat)
    requires tx.kind.Transfer?
    ensures var l' := CheckTransferFrom(l, tx, i).1; forall id :: id in l'.txs ==> id in l.txs && l'.txs[id] == l.txs[id]
    decreases |tx.kind.proofs| - i
  {
    if i < |tx.kind.proofs| && tx.kind.proofs[i].input < |tx.inputs| {
      var l' := IsFrozen(l, tx.inputs[tx.kind.proofs[i].input].previous, tx.kind.proofs[i].chroma).1;
      TransferStores(l', tx, i + 1);
    }
  }

  // ---- Runs ----

  lemma RunOn(l: Ledger, es: seq<Event>, signed: Signature, i: nat, j: nat)
    requires i <= j <= |es|
    ensures Run(l, es[..j], signed) == Run(Run(l, es[..i], signed), es[i..j], signed)
    decreases j
  {
    hide Step;
    if i == j {
      assert es[i..j] == [];
    } else {
      RunOn(l, es, signed, i, j - 1);
      assert es[..j][..j - 1] == es[..j - 1] && es[i..j][..j - 1 - i] == es[i..j - 1];
    }
  }

  /**
   From the first accepted announcement of a chroma on, it is the stored one, and the supply stays
   within the maximum it announced.
   */
  lemma AnnouncedCap(l: Ledger, es: seq<Event>, signed: Signature, i: nat, j: nat, a: ChromaAnnouncement)
    requires i < j <= |es| && Announces(Run(l, es[..i], signed), es[i], signed, a)
    requires InfoOf(Run(l, es[..i], signed), a.chroma).announcement.None?
    ensures var info := InfoOf(Run(l, es[..j], signed), a.chroma);
            info.announcement == Some(a) && (a.maxSupply != 0 ==> info.totalSupply <= a.maxSupply)
  {
    var before := Run(l, es[..i], signed);
    var after := Run(l, es[..i + 1], signed);
    RunOne(l, es, signed, i + 1);
    AnnouncementAfter(before, es[i], signed, a.chroma);
    SupplyStep(before, es[i], signed, a.chroma);
    RunOn(l, es, signed, i + 1, j);
    RunKeepsInfo(after, es[i + 1..j], signed, a.chroma);
    hide Run, Step, CheckTx;
  }

  /** Until ownership is handed over again, the chroma belongs to whom it was handed. */
  lemma {:induction false} OwnerKept(l: Ledger, es: seq<Event>, signed: Signature, i: nat, j: nat, c: Chroma, owner: Script)
    requires i < j <= |es| && HandsOver(Run(l, es[..i], signed), es[i], signed, c, owner)
    requires forall k :: i < k < j ==> !HandsOverAny(Run(l, es[..k], signed), es[k], signed, c)
    ensures InfoOf(Run(l, es[..j], signed), c).owner == Some(owner)
    decreases j
  {
    RunOne(l, es, signed, j);
    OwnerAfter(Run(l, es[..j - 1], signed), es[j - 1], signed, c);
    hide Run, Step, HandsOver, HandsOverAny;
    if j > i + 1 {
      OwnerKept(l, es, signed, i, j - 1, c, owner);
    }
  }

  /** So only what the new owner signs changes anything about the chroma. */
  lemma NewOwnerSigns(l: Ledger, es: seq<Event>, signed: Signature, i: nat, j: nat, c: Chroma, owner: Script, o: OutPoint)
    requires i < j < |es| && HandsOver(Run(l, es[..i], signed), es[i], signed, c, owner)
    requires forall k :: i < k < j ==> !HandsOverAny(Run(l, es[..k], signed), es[k], signed, c)
    requires var s, s' := Run(l, es[..j], signed), Run(l, es[..j + 1], signed);
             InfoOf(s', c) != InfoOf(s, c) || (o !in s.frozen && o in s'.frozen && s'.frozen[o].chroma == c)
    ensures es[j].Check? && SignedByOwner(es[j].tx.inputs, c, Some(owner), signed)
  {
    OwnerKept(l, es, signed, i, j, c, owner);
    RunOne(l, es, signed, j + 1);
    ChangesNeedOwner(Run(l, es[..j], signed), es[j], signed, c, o);
  }

  /**
   From an accepted freeze of an output that was not frozen on, a transfer spending it with a proof
   of that chroma is accepted only in states whose stored announcement forbids freezing.
   */
  lemma FreezeTakesEffect(l: Ledger, es: seq<Event>, signed: Signature, i: nat, j: nat, c: Chroma, o: OutPoint, tx: Tx, k: nat)
    requires i < j <= |es| && Freezes(Run(l, es[..i], signed), es[i], signed, c, o) && o !in Run(l, es[..i], signed).frozen
    requires Spends(tx, o, c, k) && CheckTx(Run(l, es[..j], signed), tx, signed).0 == Accept
    ensures !Freezable(Run(l, es[..j], signed), c)
  {
    RunOne(l, es, signed, i + 1);
    FrozenAfter(Run(l, es[..i], signed), es[i], signed, o);
    RunOn(l, es, signed, i + 1, j);
    RunKeepsFrozen(Run(l, es[..i + 1], signed), es[i + 1..j], signed, o);
    VerdictIff(Run(l, es[..j], signed), tx, signed);
    hide Run, Step, CheckTx, Freezes;
    assert ProofOpen(Run(l, es[..j], signed), tx, k);
  }

  // ---- Batches ----

  /** The verdict on transaction `i` of a batch, in the state reached before it. */
  ghost function VerdictOn(l: Ledger, txs: seq<Tx>, signed: Signature, i: nat): Verdict
    requires i < |txs|
  {
    CheckTx(Run(l, Checks(txs[..i]), signed), txs[i], signed).0
  }

  ghost predicate FirstError(l: Ledger, txs: seq<Tx>, n: nat, signed: Signature, i: nat)
    requires n <= |txs|
  {
    i < n && VerdictOn(l, txs, signed, i) == Error && forall j :: 0 <= j < i ==> VerdictOn(l, txs, signed, j) != Error
  }

  /** A batch fails exactly when the check of one of its transactions does. */
  lemma {:induction false} BatchFailsIff(l: Ledger, txs: seq<Tx>, n: nat, signed: Signature)
    requires n <= |txs|
    ensures CheckPrefix(l, txs, n, signed).failed <==> exists i :: FirstError(l, txs, n, signed, i)
  {
    if n > 0 {
      BatchFailsIff(l, txs, n - 1, signed);
      hide CheckTx, Run, Checks;
      if !CheckPrefix(l, txs, n - 1, signed).failed {
        BatchIsRun(l, txs, n - 1, signed);
        NoError(l, txs, n - 1, signed);
        hide VerdictOn;
        if VerdictOn(l, txs, signed, n - 1) == Error {
          assert FirstError(l, txs, n, signed, n - 1);
        }
        forall i | FirstError(l, txs, n, signed, i)
          ensures i == n - 1
        {
        }
      } else {
        var i :| FirstError(l, txs, n - 1, signed, i);
        assert FirstError(l, txs, n, signed, i);
      }
    }
  }

  /** A failed batch leaves the state after the check that failed, and checks nothing after it. */
  lemma {:induction false} BatchFailedState(l: Ledger, txs: seq<Tx>, n: nat, signed: Signature, i: nat)
    requires n <= |txs| && FirstError(l, txs, n, signed, i)
    ensures CheckPrefix(l, txs, n, signed).ledger == Run(l, Checks(txs[..i + 1]), signed)
  {
    hide CheckTx, Run, Checks;
    if i == n - 1 {
      NotFailedBefore(l, txs, i, signed);
      BatchIsRun(l, txs, i, signed);
      ChecksSnoc(txs, n);
      RunSnoc(l, Checks(txs[..i]), Check(txs[i]), signed);
    } else {
      assert FirstError(l, txs, n - 1, signed, i);
      BatchFailsIff(l, txs, n - 1, signed);
      hide VerdictOn;
      BatchFailedState(l, txs, n - 1, signed, i);
    }
  }

  lemma NotFailedBefore(l: Ledger, txs: seq<Tx>, n: nat, signed: Signature)
    requires n <= |txs| && forall j :: 0 <= j < n ==> VerdictOn(l, txs, signed, j) != Error
    ensures !CheckPrefix(l, txs, n, signed).failed
  {
    BatchFailsIff(l, txs, n, signed);
    hide VerdictOn;
  }

  lemma {:induction false} NoError(l: Ledger, txs: seq<Tx>, n: nat, signed: Signature)
    requires n <= |txs| && !CheckPrefix(l, txs, n, signed).failed
    ensures forall j :: 0 <= j < n ==> VerdictOn(l, txs, signed, j) != Error
  {
    forall j | 0 <= j < n
      ensures VerdictOn(l, txs, signed, j) != Error
    {
      BatchReportsAll(l, txs, n, signed, j);
    }
  }

  ghost predicate GotVerdict(l: Ledger, txs: seq<Tx>, n: nat, signed: Signature, v: Verdict, tx: Tx, i: nat)
    requires n <= |txs|
  {
    i < n && txs[i] == tx && VerdictOn(l, txs, signed, i) == v
  }

  /** What a finished batch reports: nothing but what it accepted and what it rejected. */
  lemma {:induction false} BatchReportsOnly(l: Ledger, txs: seq<Tx>, n: nat, signed: Signature)
    requires n <= |txs| && !CheckPrefix(l, txs, n, signed).failed
    ensures var b := CheckPrefix(l, txs, n, signed);
            && (forall id :: id in b.checked ==> b.checked[id].txid == id && exists i :: GotVerdict(l, txs, n, signed, Accept, b.checked[id], i))
            && (forall tx :: tx in b.invalid ==> exists i :: GotVerdict(l, txs, n, signed, Reject, tx, i))
  {
    if n > 0 {
      var k := n - 1;
      hide CheckTx, Run, Checks;
      BatchReportsOnly(l, txs, k, signed);
      BatchIsRun(l, txs, k, signed);
      var b, c := CheckPrefix(l, txs, n, signed), CheckPrefix(l, txs, k, signed);
      var v := VerdictOn(l, txs, signed, k);
      assert v == Accept ==> b.checked == c.checked[txs[k].txid := txs[k]] && b.invalid == c.invalid;
      assert v == Reject ==> b.checked == c.checked && b.invalid == c.invalid + [txs[k]];
      hide CheckPrefix, VerdictOn;
      assert GotVerdict(l, txs, n, signed, v, txs[k], k);
      forall tx, w, i | GotVerdict(l, txs, k, signed, w, tx, i)
        ensures GotVerdict(l, txs, n, signed, w, tx, i)
      {
      }
      assert v != Error;
      hide GotVerdict;
    }
  }

  // ---- Requests ----

  /** A proof from `i` to `k` names an output that `id` froze under another chroma, so `id` is not in storage any more. */
  ghost predicate TakenOut(l: Ledger, tx: Tx, i: nat, k: nat, id: Txid)
    requires tx.kind.Transfer? && k < |tx.kind.proofs|
  {
    exists m :: i <= m <= k && ForeignFreeze(l, tx, m, id)
  }

  /** Proof `k` is reached, is open, and its parent is `id`, neither in storage then nor checked. */
  ghost predicate MissesParent(l: Ledger, tx: Tx, i: nat, checked: set<Txid>, k: nat, id: Txid)
    requires tx.kind.Transfer? && k < |tx.kind.proofs|
  {
    && OpenUpTo(l, tx, i, k + 1) && InputExists(tx, k) && tx.inputs[tx.kind.proofs[k].input].previous.txid == id
    && id !in checked && (id !in l.txs || TakenOut(l, tx, i, k, id))
  }

  /** Which parents of a transfer are asked for. */
  lemma {:induction false} MissingIff(l: Ledger, tx: Tx, i: nat, checked: set<Txid>, id: Txid)
    requires tx.kind.Transfer?
    ensures id in MissingFrom(l, tx, i, checked) <==>
            exists k :: i <= k < |tx.kind.proofs| && MissesParent(l, tx, i, checked, k, id)
    decreases |tx.kind.proofs| - i
  {
    if i < |tx.kind.proofs| {
      if ProofOpen(l, tx, i) {
        var o, c := tx.inputs[tx.kind.proofs[i].input].previous, tx.kind.proofs[i].chroma;
        var l' := IsFrozen(l, o, c).1;
        FrozenIff(l, o, c);
        StoredThen(l, tx, i, id);
        MissingIff(l', tx, i + 1, checked, id);
        MissesNext(l, l', tx, i, checked, id);
        assert id in MissingFrom(l, tx, i, checked) <==>
               (o.txid == id && id !in l'.txs && id !in checked) || id in MissingFrom(l', tx, i + 1, checked) by {
          hide MissesParent, IsFrozen, FrozenFor;
        }
        hide MissingFrom, MissesParent, IsFrozen, FrozenFor, ForeignFreeze;
        if k :| i <= k < |tx.kind.proofs| && MissesParent(l, tx, i, checked, k, id) {
          assert k > i ==> MissesParent(l', tx, i + 1, checked, k, id);
        }
        var next := i + 1;
        if k :| next <= k < |tx.kind.proofs| && MissesParent(l', tx, next, checked, k, id) {
          assert MissesParent(l, tx, i, checked, k, id);
        }
      } else {
        StopsAt(l, tx, i, checked, id);
        assert MissingFrom(l, tx, i, checked) == [] by {
          if InputExists(tx, i) {
            FrozenIff(l, tx.inputs[tx.kind.proofs[i].input].previous, tx.kind.proofs[i].chroma);
          }
        }
        hide MissesParent, MissingFrom;
      }
    }
  }

  lemma StopsAt(l: Ledger, tx: Tx, i: nat, checked: set<Txid>, id: Txid)
    requires tx.kind.Transfer? && i < |tx.kind.proofs| && !ProofOpen(l, tx, i)
    ensures forall k :: i <= k < |tx.kind.proofs| ==> !MissesParent(l, tx, i, checked, k, id)
  {
    hide ProofOpen;
  }

  /** After proof `i`, what of `id` is left in storage. */
  lemma StoredThen(l: Ledger, tx: Tx, i: nat, id: Txid)
    requires tx.kind.Transfer? && i < |tx.kind.proofs| && ProofOpen(l, tx, i)
    ensures var l' := IsFrozen(l, tx.inputs[tx.kind.proofs[i].input].previous, tx.kind.proofs[i].chroma).1;
            id in l'.txs <==> id in l.txs && !ForeignFreeze(l, tx, i, id)
  {
  }

  lemma MissesNext(l: Ledger, l': Ledger, tx: Tx, i: nat, checked: set<Txid>, id: Txid)
    requires tx.kind.Transfer? && i < |tx.kind.proofs| && ProofOpen(l, tx, i)
    requires l'.chromas == l.chromas && l'.frozen == l.frozen && (id in l'.txs <==> id in l.txs && !ForeignFreeze(l, tx, i, id))
    ensures MissesParent(l, tx, i, checked, i, id) <==>
            tx.inputs[tx.kind.proofs[i].input].previous.txid == id && id !in l'.txs && id !in checked
    ensures forall k :: i < k < |tx.kind.proofs| ==> (MissesParent(l, tx, i, checked, k, id) <==> MissesParent(l', tx, i + 1, checked, k, id))
  {
    assert OpenUpTo(l, tx, i, i + 1);
    assert TakenOut(l, tx, i, i, id) <==> ForeignFreeze(l, tx, i, id);
    forall k | i < k < |tx.kind.proofs|
      ensures MissesParent(l, tx, i, checked, k, id) <==> MissesParent(l', tx, i + 1, checked, k, id)
    {
      assert forall j :: 0 <= j < |tx.kind.proofs| ==> ProofOpen(l, tx, j) == ProofOpen(l', tx, j);
      assert forall j :: 0 <= j < |tx.kind.proofs| ==> ForeignFreeze(l, tx, j, id) == ForeignFreeze(l', tx, j, id);
      hide ProofOpen, ForeignFreeze;
      assert OpenUpTo(l, tx, i, k + 1) <==> OpenUpTo(l', tx, i + 1, k + 1);
      assert TakenOut(l, tx, i, k, id) <==> ForeignFreeze(l, tx, i, id) || TakenOut(l', tx, i + 1, k, id) by {
        if m :| i <= m <= k && ForeignFreeze(l, tx, m, id) {
          assert m == i || ForeignFreeze(l', tx, m, id);
        }
        if ForeignFreeze(l, tx, i, id) {
          assert TakenOut(l, tx, i, k, id);
        }
        if m :| i + 1 <= m <= k && ForeignFreeze(l', tx, m, id) {
          assert ForeignFreeze(l, tx, m, id);
        }
      }
      hide TakenOut, OpenUpTo;
    }
  }

  /** Transaction `i` of the batch is a transfer sent by the peer that misses parent `id`. */
  ghost predicate AsksFor(l: Ledger, txs: seq<Tx>, senders: seq<Option<Peer>>, signed: Signature, peer: Peer, id: Txid, i: nat)
    requires i < |txs| == |senders|
  {
    var b := CheckPrefix(l, txs, i, signed);
    && !b.failed && txs[i].kind.Transfer? && senders[i] == Some(peer)
    && exists k :: 0 <= k < |txs[i].kind.proofs| && MissesParent(b.ledger, txs[i], 0, b.checked.Keys, k, id)
  }

  /** A peer is asked for exactly the parents that transfers it sent miss. */
  lemma {:induction false} RequestsIff(l: Ledger, txs: seq<Tx>, senders: seq<Option<Peer>>, n: nat, signed: Signature, peer: Peer, id: Txid)
    requires n <= |txs| == |senders|
    ensures id in Asked(Requests(l, txs, senders, n, signed), peer) <==>
            exists i :: 0 <= i < n && AsksFor(l, txs, senders, signed, peer, id, i)
  {
    hide AsksFor, CheckPrefix, MissesParent, MissingFrom;
    if n > 0 {
      hide Requests, Asked;
      RequestsIff(l, txs, senders, n - 1, signed, peer, id);
      RequestsNext(l, txs, senders, n, signed, peer, id);
      assert forall i :: 0 <= i < n && AsksFor(l, txs, senders, signed, peer, id, i) ==> i < n - 1 || i == n - 1;
    }
  }

  lemma RequestsNext(l: Ledger, txs: seq<Tx>, senders: seq<Option<Peer>>, n: nat, signed: Signature, peer: Peer, id: Txid)
    requires 0 < n <= |txs| == |senders|
    ensures id in Asked(Requests(l, txs, senders, n, signed), peer) <==>
            || id in Asked(Requests(l, txs, senders, n - 1, signed), peer)
            || AsksFor(l, txs, senders, signed, peer, id, n - 1)
  {
    hide CheckPrefix, MissesParent, MissingFrom;
    var b := CheckPrefix(l, txs, n - 1, signed);
    if !b.failed && txs[n - 1].kind.Transfer? && senders[n - 1].Some? {
      MissingIff(b.ledger, txs[n - 1], 0, b.checked.Keys, id);
    }
  }
}
