/**
 The wallet's synchronization with a server: scripts, then transactions, then confirmation times
 (`crates/bdk/src/blockchain/script_sync.rs`). Of the details of a transaction only its id and height
 are kept.
 */
module WalletSync {
  import opened Options
  import opened KeyOrder
  import opened Numbers

  type Txid = nat
  type Script = nat

  datatype Keychain = Internal | External

  datatype Details = Details(txid: Txid, height: Option<nat>)

  /** The wallet's database: its cached scripts and the transactions it knows. */
  datatype Db = Db(internal: seq<Script>, external: seq<Script>, txs: map<Txid, Details>)

  function ScriptsOf(db: Db, k: Keychain): seq<Script> {
    if k == Internal then db.internal else db.external
  }

  ghost predicate KnownById(txs: map<Txid, Details>) {
    forall id :: id in txs ==> txs[id].txid == id
  }

  /** The ids a server lists for a script, with the height of confirmed ones. */
  type TxList = seq<(Txid, Option<nat>)>

  // ---- What is noted of the answers ----

  datatype Found = Found(needed: set<Txid>, missing: map<Txid, Details>, finished: seq<Details>)

  /** One reported transaction. */
  function Note(db: Db, f: Found, txid: Txid, height: Option<nat>): Found {
    if txid !in db.txs then f.(needed := f.needed + {txid}) else
    var details := db.txs[txid];
    match (details.height, height)
    case (None, Some(_)) => f.(missing := f.missing[txid := details])
    case (Some(was), Some(now)) =>
      if was != now then f.(missing := f.missing[txid := details]) else f.(finished := f.finished + [details])
    case (Some(_), None) => f.(finished := f.finished + [details.(height := None)])
    case (None, None) => f.(finished := f.finished + [details])
  }

  function NoteList(db: Db, f: Found, list: TxList, n: nat): Found
    requires n <= |list|
  {
    if n == 0 then f else Note(db, NoteList(db, f, list, n - 1), list[n - 1].0, list[n - 1].1)
  }

  function NoteAll(db: Db, f: Found, answers: seq<TxList>, n: nat): Found
    requires n <= |answers|
  {
    if n == 0 then f else NoteList(db, NoteAll(db, f, answers, n - 1), answers[n - 1], |answers[n - 1]|)
  }

  ghost predicate Accounted(f: Found, id: Txid) {
    id in f.needed || id in f.missing || exists i :: 0 <= i < |f.finished| && f.finished[i].txid == id
  }

  /** The ids accounted for are those reported. */
  ghost predicate Consistent(f: Found, reported: set<Txid>) {
    KnownById(f.missing) && forall id :: id in reported <==> Accounted(f, id)
  }

  function Ids(list: TxList): set<Txid> {
    set i | 0 <= i < |list| :: list[i].0
  }

  lemma NoteConsistent(db: Db, f: Found, reported: set<Txid>, txid: Txid, height: Option<nat>)
    requires KnownById(db.txs) && Consistent(f, reported)
    ensures Consistent(Note(db, f, txid, height), reported + {txid})
  {
    var g := Note(db, f, txid, height);
    forall id
      ensures id in reported + {txid} <==> Accounted(g, id)
    {
      assert id in reported <==> Accounted(f, id);
      if i :| 0 <= i < |f.finished| && f.finished[i].txid == id {
        assert g.finished[i].txid == id;
      }
      if |g.finished| > |f.finished| {
        assert g.finished[|f.finished|].txid == txid;
      }
      if i :| 0 <= i < |g.finished| && g.finished[i].txid == id {
        assert i < |f.finished| ==> f.finished[i].txid == id;
      }
    }
  }

  lemma {:induction false} NoteListConsistent(db: Db, f: Found, reported: set<Txid>, list: TxList, n: nat)
    requires KnownById(db.txs) && Consistent(f, reported) && n <= |list|
    ensures Consistent(NoteList(db, f, list, n), reported + Ids(list[..n]))
  {
    if n > 0 {
      NoteListConsistent(db, f, reported, list, n - 1);
      var seen := reported + Ids(list[..n - 1]);
      NoteConsistent(db, NoteList(db, f, list, n - 1), seen, list[n - 1].0, list[n - 1].1);
      IdsSnoc(list, n);
      hide Note, Consistent, Ids;
      assert seen + {list[n - 1].0} == reported + Ids(list[..n]);
    }
  }

  lemma IdsSnoc(list: TxList, n: nat)
    requires 0 < n <= |list|
    ensures Ids(list[..n]) == Ids(list[..n - 1]) + {list[n - 1].0}
  {
    forall id | id in Ids(list[..n])
      ensures id in Ids(list[..n - 1]) + {list[n - 1].0}
    {
      var i :| 0 <= i < n && list[..n][i].0 == id;
      assert i < n - 1 ==> list[..n - 1][i].0 == id;
    }
    forall id | id in Ids(list[..n - 1]) + {list[n - 1].0}
      ensures id in Ids(list[..n])
    {
      if id == list[n - 1].0 {
        assert list[..n][n - 1].0 == id;
      } else {
        var i :| 0 <= i < n - 1 && list[..n - 1][i].0 == id;
        assert list[..n][i].0 == id;
      }
    }
  }

  // ---- The exchanges of a session ----

  /** A request and the answer to it. */
  datatype Exchange =
    | OfScripts(keychain: Keychain, request: seq<Script>, lists: seq<TxList>)
    | OfTxs(wanted: seq<Txid>, txids: seq<Txid>)
    | OfTimes(wanted: seq<Txid>, times: seq<Option<nat>>)

  /** What the answers so far amount to. */
  function Replay(db: Db, trace: seq<Exchange>): Found {
    if trace == [] then Found({}, map[], []) else
    Applied(db, Replay(db, trace[..|trace| - 1]), trace[|trace| - 1])
  }

  function Applied(db: Db, f: Found, e: Exchange): Found {
    match e
    case OfScripts(_, _, lists) => NoteAll(db, f, lists, |lists|)
    case OfTxs(_, txids) => Moved(f, InOrder(f.needed), Least(|txids|, |InOrder(f.needed)|))
    case OfTimes(_, times) => Timed(f, InOrder(f.missing.Keys), times, Least(|times|, |InOrder(f.missing.Keys)|))
  }

  function AnswerIds(lists: seq<TxList>): set<Txid> {
    if lists == [] then {} else AnswerIds(lists[..|lists| - 1]) + Ids(lists[|lists| - 1])
  }

  /** All ids the answers listed. */
  function ReportedBy(trace: seq<Exchange>): set<Txid> {
    if trace == [] then {} else
    var e := trace[|trace| - 1];
    ReportedBy(trace[..|trace| - 1]) + (if e.OfScripts? then AnswerIds(e.lists) else {})
  }

  /** Which scripts have transactions. */
  function Flags(lists: seq<TxList>): seq<bool> {
    seq(|lists|, i requires 0 <= i < |lists| => lists[i] != [])
  }

  /** The same for all scripts of a keychain asked so far. */
  function Activity(trace: seq<Exchange>, k: Keychain): seq<bool> {
    if trace == [] then [] else
    var e := trace[|trace| - 1];
    Activity(trace[..|trace| - 1], k) + (if e.OfScripts? && e.keychain == k then Flags(e.lists) else [])
  }

  lemma OneMore(db: Db, trace: seq<Exchange>, e: Exchange)
    ensures var trace' := trace + [e];
            && ReportedBy(trace') == ReportedBy(trace) + (if e.OfScripts? then AnswerIds(e.lists) else {})
            && (forall k :: Activity(trace', k) == Activity(trace, k) + (if e.OfScripts? && e.keychain == k then Flags(e.lists) else []))
            && Replay(db, trace') == Applied(db, Replay(db, trace), e)
  {
    hide NoteAll, Moved, Timed, InOrder, Flags, AnswerIds;
    assert (trace + [e])[..|trace|] == trace;
  }

  /** What a session holds is what its exchanges amount to. */
  ghost predicate Told(db: Db, trace: seq<Exchange>, f: Found, reported: set<Txid>, left: map<Keychain, seq<bool>>) {
    && f == Replay(db, trace) && reported == ReportedBy(trace)
    && forall k :: k in left ==> left[k] == Activity(trace, k)
  }

  ghost predicate ToldScripts(trace: seq<Exchange>, keychain: Keychain, next: seq<Keychain>, asked: seq<bool>) {
    asked == Activity(trace, keychain) && forall k :: k in next ==> Activity(trace, k) == []
  }

  lemma AskedActivity(trace: seq<Exchange>, keychain: Keychain, next: seq<Keychain>, asked: seq<bool>)
    requires ToldScripts(trace, keychain, next, asked)
    ensures asked == Activity(trace, keychain)
  {
  }

  lemma ToldScriptsNext(db: Db, trace: seq<Exchange>, f: Found, reported: set<Txid>, left: map<Keychain, seq<bool>>,
                        k: Keychain, next: seq<Keychain>, asked: seq<bool>, request: seq<Script>, lists: seq<TxList>)
    requires Told(db, trace, f, reported, left) && ToldScripts(trace, k, next, asked) && k !in next && k !in left
    ensures var trace' := trace + [OfScripts(k, request, lists)];
            && Told(db, trace', NoteAll(db, f, lists, |lists|), reported + AnswerIds(lists), left)
            && ToldScripts(trace', k, next, asked + Flags(lists))
  {
    OneMore(db, trace, OfScripts(k, request, lists));
    hide Replay, ReportedBy, Activity, NoteAll, Flags, AnswerIds;
    assert forall j :: j != k ==> Activity(trace, j) + [] == Activity(trace, j);
  }

  lemma ToldOther(db: Db, trace: seq<Exchange>, f: Found, reported: set<Txid>, left: map<Keychain, seq<bool>>, e: Exchange)
    requires Told(db, trace, f, reported, left) && !e.OfScripts?
    ensures Told(db, trace + [e], Replay(db, trace + [e]), reported, left)
  {
    OneMore(db, trace, e);
    hide Replay, ReportedBy, Activity;
    assert forall j :: Activity(trace, j) + [] == Activity(trace, j);
  }

  lemma ToldLeft(db: Db, trace: seq<Exchange>, f: Found, reported: set<Txid>, left: map<Keychain, seq<bool>>, k: Keychain, next: seq<Keychain>, asked: seq<bool>)
    requires Told(db, trace, f, reported, left) && ToldScripts(trace, k, next, asked)
    ensures Told(db, trace, f, reported, left[k := asked])
    ensures next != [] ==> ToldScripts(trace, next[|next| - 1], next[..|next| - 1], [])
  {
    hide Replay, ReportedBy, Activity;
  }

  // ---- The session ----

  datatype Phase = AskScripts | AskTxs | AskTimes | Finished | MissingScripts(lastCount: nat, missingCount: nat) | Panicked

  /** `lastActive` is the last script with a transaction among those asked. */
  ghost predicate LastActiveIs(lastActive: Option<nat>, asked: seq<bool>) {
    match lastActive
    case None => forall j :: 0 <= j < |asked| ==> !asked[j]
    case Some(i) => i < |asked| && asked[i] && forall j :: i < j < |asked| ==> !asked[j]
  }

  function LastOf(lastActive: map<Keychain, nat>, k: Keychain): Option<nat> {
    if k in lastActive then Some(lastActive[k]) else None
  }

  lemma ActiveStep(lastActive: Option<nat>, asked: seq<bool>, active: bool)
    requires LastActiveIs(lastActive, asked)
    ensures LastActiveIs(if active then Some(|asked|) else lastActive, asked + [active])
  {
  }

  /** Every keychain is the current one, still to come, distinct and never active so far, or left. */
  ghost predicate KeychainsOk(k: Keychain, next: seq<Keychain>, active: set<Keychain>, left: set<Keychain>) {
    && k !in next && k !in left
    && (forall j :: j in next ==> j !in active && j !in left)
    && (forall i, j :: 0 <= i < j < |next| ==> next[i] != next[j])
    && (forall j :: j == k || j in left || j in next)
  }

  lemma NextKeychain(k: Keychain, next: seq<Keychain>, active: set<Keychain>, left: set<Keychain>)
    requires KeychainsOk(k, next, active, left)
    ensures next == [] ==> Internal in left + {k} && External in left + {k}
    ensures next != [] ==>
              && next[|next| - 1] !in active
              && KeychainsOk(next[|next| - 1], next[..|next| - 1], active, left + {k})
  {
    if next != [] {
      var n := |next| - 1;
      assert next == next[..n] + [next[n]];
    }
  }

  lemma MoreActive(k: Keychain, next: seq<Keychain>, active: set<Keychain>, active': set<Keychain>, left: set<Keychain>)
    requires KeychainsOk(k, next, active, left) && forall j :: j != k && j in active' ==> j in active
    ensures KeychainsOk(k, next, active', left)
  {
  }

  /** A keychain of several scripts is left when all were asked and none or only early ones were active. */
  ghost predicate LeftProperly(scripts: seq<Script>, asked: seq<bool>, stopGap: nat) {
    |scripts| > 1 ==>
      && |asked| == |scripts|
      && ((forall j :: 0 <= j < |asked| ==> !asked[j]) ||
          (stopGap <= |asked| && forall j :: |asked| - stopGap <= j < |asked| ==> !asked[j]))
  }

  ghost predicate AllLeft(db: Db, left: map<Keychain, seq<bool>>, stopGap: nat) {
    forall k :: k in left ==> LeftProperly(ScriptsOf(db, k), left[k], stopGap)
  }

  lemma OneMoreLeft(db: Db, left: map<Keychain, seq<bool>>, k: Keychain, asked: seq<bool>, stopGap: nat)
    requires AllLeft(db, left, stopGap) && LeftProperly(ScriptsOf(db, k), asked, stopGap)
    ensures AllLeft(db, left[k := asked], stopGap)
  {
    hide LeftProperly;
  }

  class Session {
    const db: Db
    const stopGap: nat
    var phase: Phase
    var lastActive: map<Keychain, nat>
    var needed: set<Txid>
    var missing: map<Txid, Details>
    var finished: seq<Details>
    var keychain: Keychain
    var nextKeychains: seq<Keychain>
    var scriptIndex: nat
    var initial: nat
    var scriptsNeeded: seq<Script>
    /** All ids any answer listed. */
    ghost var reported: set<Txid>
    /** Which scripts of the current keychain were active, and of the keychains left. */
    ghost var asked: seq<bool>
    ghost var left: map<Keychain, seq<bool>>
    /** All requests and answers. */
    ghost var trace: seq<Exchange>

    ghost function View(): Found
      reads this
    {
      Found(needed, missing, finished)
    }

    ghost predicate ScriptsValid()
      reads this
    {
      && |asked| == scriptIndex && LastActiveIs(LastOf(lastActive, keychain), asked)
      && initial == |ScriptsOf(db, keychain)|
      && scriptIndex <= initial && scriptsNeeded == ScriptsOf(db, keychain)[scriptIndex..]
      && (initial > 1 ==> scriptsNeeded != [])
      && KeychainsValid() && ToldScripts(trace, keychain, nextKeychains, asked)
    }

    ghost predicate KeychainsValid()
      reads this
    {
      KeychainsOk(keychain, nextKeychains, lastActive.Keys, left.Keys)
    }

    ghost predicate Valid()
      reads this
    {
      && KnownById(db.txs) && Consistent(View(), reported) && Told(db, trace, View(), reported, left)
      && (phase == AskScripts ==> ScriptsValid())
      && AllLeft(db, left, stopGap)
      && (phase == AskTxs || phase == AskTimes || phase == Finished ==> Internal in left && External in left)
      && (phase == AskTimes || phase == Finished ==> needed == {})
      && (phase == Finished ==> missing == map[])
    }

    /** `start`; the shuffle decides which keychain comes first. */
    constructor (db: Db, stopGap: nat, first: Keychain)
      requires KnownById(db.txs)
      ensures Valid() && phase == AskScripts && this.db == db && this.stopGap == stopGap && trace == [] && left == map[]
    {
      this.db := db;
      this.stopGap := stopGap;
      phase := AskScripts;
      lastActive, needed, missing, finished := map[], {}, map[], [];
      keychain := first;
      nextKeychains := [if first == Internal then External else Internal];
      scriptIndex := 0;
      scriptsNeeded := ScriptsOf(db, first);
      initial := |ScriptsOf(db, first)|;
      reported, asked, left, trace := {}, [], map[], [];
    }

    method NoteAnswer(list: TxList)
      requires KnownById(db.txs) && Consistent(View(), reported)
      modifies this`needed, this`missing, this`finished, this`reported
      ensures View() == NoteList(db, old(View()), list, |list|)
      ensures reported == old(reported) + Ids(list) && Consistent(View(), reported)
    {
      for i := 0 to |list|
        invariant View() == NoteList(db, old(View()), list, i) && reported == old(reported)
      {
        var (txid, height) := list[i];
        if txid in db.txs {
          var details := db.txs[txid];
          match (details.height, height)
          case (None, Some(_)) =>
            missing := missing[txid := details];
          case (Some(was), Some(now)) =>
            if was != now {
              missing := missing[txid := details];
            } else {
              finished := finished + [details];
            }
          case (Some(_), None) =>
            finished := finished + [details.(height := None)];
          case (None, None) =>
            finished := finished + [details];
        } else {
          needed := needed + {txid};
        }
      }
      NoteListConsistent(db, old(View()), old(reported), list, |list|);
      assert list[..|list|] == list;
      reported := reported + Ids(list);
    }

    /** The loop of `ScriptReq::satisfy` over the answers. */
    method TakeAnswers(answers: seq<TxList>)
      requires KnownById(db.txs) && Consistent(View(), reported)
      requires |asked| == scriptIndex && LastActiveIs(LastOf(lastActive, keychain), asked)
      modifies this`needed, this`missing, this`finished, this`reported, this`lastActive, this`scriptIndex, this`asked
      ensures Consistent(View(), reported) && View() == NoteAll(db, old(View()), answers, |answers|)
      ensures reported == old(reported) + AnswerIds(answers)
      ensures scriptIndex == old(scriptIndex) + |answers| == |asked| && asked == old(asked) + Flags(answers)
      ensures LastActiveIs(LastOf(lastActive, keychain), asked)
      ensures forall k :: k != keychain && k in lastActive ==> k in old(lastActive)
    {
      hide NoteList, Consistent, Ids, LastActiveIs, Flags;
      NoFlags(asked);
      for n := 0 to |answers|
        invariant Consistent(View(), reported) && View() == NoteAll(db, old(View()), answers, n)
        invariant reported == old(reported) + AnswerIds(answers[..n])
        invariant scriptIndex == old(scriptIndex) + n == |asked| && asked == old(asked) + Flags(answers[..n])
        invariant LastActiveIs(LastOf(lastActive, keychain), asked)
        invariant forall k :: k != keychain && k in lastActive ==> k in old(lastActive)
      {
        ActiveStep(LastOf(lastActive, keychain), asked, answers[n] != []);
        FlagsSnoc(old(asked), answers, n);
        assert answers[..n + 1][..n] == answers[..n];
        if answers[n] != [] {
          lastActive := lastActive[keychain := scriptIndex];
        }
        NoteAnswer(answers[n]);
        scriptIndex := scriptIndex + 1;
        asked := asked + [answers[n] != []];
      }
      assert answers[..|answers|] == answers;
    }

    /** Goes on to the next keychain, or to the transactions after the last one. */
    method LeaveKeychain()
      requires phase == AskScripts && LeftProperly(ScriptsOf(db, keychain), asked, stopGap)
      requires AllLeft(db, left, stopGap) && KeychainsValid()
      requires Told(db, trace, View(), reported, left) && ToldScripts(trace, keychain, nextKeychains, asked)
      modifies this`phase, this`left, this`keychain, this`nextKeychains, this`scriptIndex, this`scriptsNeeded, this`initial, this`asked
      ensures AllLeft(db, left, stopGap) && Told(db, trace, View(), reported, left)
      ensures left == old(left)[old(keychain) := old(asked)]
      ensures if old(nextKeychains) == [] then phase == AskTxs && Internal in left && External in left
              else phase == AskScripts && ScriptsValid() && |nextKeychains| < |old(nextKeychains)|
    {
      hide LeftProperly, KeychainsOk, AllLeft, Told, ToldScripts;
      ToldLeft(db, trace, View(), reported, left, keychain, nextKeychains, asked);
      OneMoreLeft(db, left, keychain, asked, stopGap);
      NextKeychain(keychain, nextKeychains, lastActive.Keys, left.Keys);
      assert left[keychain := asked].Keys == left.Keys + {keychain};
      left := left[keychain := asked];
      if nextKeychains != [] {
        StartKeychain();
        return;
      }
      phase := AskTxs;
    }

    /** The first request of the next keychain. */
    method StartKeychain()
      requires nextKeychains != []
      requires var n := |nextKeychains| - 1;
               && nextKeychains[n] !in lastActive
               && KeychainsOk(nextKeychains[n], nextKeychains[..n], lastActive.Keys, left.Keys)
               && ToldScripts(trace, nextKeychains[n], nextKeychains[..n], [])
      modifies this`keychain, this`nextKeychains, this`scriptIndex, this`scriptsNeeded, this`initial, this`asked
      ensures ScriptsValid() && |nextKeychains| < |old(nextKeychains)|
    {
      hide KeychainsOk, ToldScripts;
      keychain := nextKeychains[|nextKeychains| - 1];
      nextKeychains := nextKeychains[..|nextKeychains| - 1];
      scriptIndex := 0;
      scriptsNeeded := ScriptsOf(db, keychain);
      initial := |scriptsNeeded|;
      asked := [];
    }

    /** The end of `ScriptReq::satisfy`: asks for more scripts, gives up, or leaves the keychain. */
    method Conclude()
      requires phase == AskScripts && KeychainsValid()
      requires |asked| == scriptIndex && LastActiveIs(LastOf(lastActive, keychain), asked)
      requires initial == |ScriptsOf(db, keychain)| && scriptIndex <= initial
      requires scriptsNeeded == ScriptsOf(db, keychain)[scriptIndex..]
      requires AllLeft(db, left, stopGap) && KnownById(db.txs) && Consistent(View(), reported)
      requires Told(db, trace, View(), reported, left) && ToldScripts(trace, keychain, nextKeychains, asked)
      modifies this`phase, this`left, this`keychain, this`nextKeychains, this`scriptIndex, this`scriptsNeeded, this`initial, this`asked
      ensures Valid() && (phase.MissingScripts? || phase == AskTxs || phase == AskScripts)
      ensures phase.MissingScripts? ==> GaveUp()
      ensures left == old(left) || (left == old(left)[old(keychain) := old(asked)] && (old(initial) > 1 ==> |old(asked)| == old(initial)))
      ensures phase == AskScripts ==>
                || |nextKeychains| < |old(nextKeychains)|
                || (nextKeychains == old(nextKeychains) && old(initial) > 1 && scriptsNeeded == old(scriptsNeeded))
    {
      hide LeftProperly, KeychainsOk, AllLeft, Consistent, KnownById, Told, ToldScripts;
      var last := if keychain in lastActive then lastActive[keychain] + 1 else 0;
      var currentGap := scriptIndex - last;
      if initial > 1 {
        if |scriptsNeeded| > 0 {
          return;
        }
        if last > 0 && currentGap < stopGap {
          AskedActivity(trace, keychain, nextKeychains, asked);
          phase := MissingScripts(scriptIndex, stopGap - currentGap);
          return;
        }
      }
      GapProper(ScriptsOf(db, keychain), asked, stopGap, LastOf(lastActive, keychain));
      LeaveKeychain();
    }

    /** All scripts of a keychain were asked, but too few after its last active one. */
    ghost predicate GaveUp()
      reads this
    {
      && phase.MissingScripts? && |asked| == |ScriptsOf(db, keychain)| > 1 && keychain in lastActive
      && asked == Activity(trace, keychain) && LastActiveIs(Some(lastActive[keychain]), asked)
      && phase.lastCount == |asked| && phase.missingCount == stopGap - (|asked| - lastActive[keychain] - 1) > 0
    }

    /** `ScriptReq::satisfy`. */
    method SatisfyScripts(answers: seq<TxList>)
      requires Valid() && phase == AskScripts
      modifies this
      ensures phase == Panicked <==> |answers| > |old(scriptsNeeded)|
      ensures phase != Panicked ==>
                && Valid() && View() == NoteAll(db, old(View()), answers, |answers|)
                && trace == old(trace) + [OfScripts(old(keychain), old(scriptsNeeded), answers)]
                && (left == old(left) || (left == old(left)[old(keychain) := old(asked) + Flags(answers)]
                                          && (old(initial) > 1 ==> old(scriptIndex) + |answers| == old(initial))))
      ensures phase.MissingScripts? ==> GaveUp()
      ensures phase == Panicked || phase.MissingScripts? || phase == AskTxs || phase == AskScripts
      ensures phase == AskScripts ==>
                || |nextKeychains| < |old(nextKeychains)|
                || (nextKeychains == old(nextKeychains) && old(initial) > 1 && |scriptsNeeded| == |old(scriptsNeeded)| - |answers|)
    {
      if |answers| > |scriptsNeeded| {
        phase := Panicked;
        return;
      }
      hide Consistent, NoteAll, LeftProperly, Ids, KeychainsOk, LastActiveIs, AllLeft, KnownById, Told, ToldScripts, Flags, AnswerIds;
      RecordAnswers(answers);
      Conclude();
    }

    /** Notes the answers and drops the scripts they are for. */
    method RecordAnswers(answers: seq<TxList>)
      requires Valid() && phase == AskScripts && |answers| <= |scriptsNeeded|
      modifies this`needed, this`missing, this`finished, this`reported, this`lastActive, this`scriptIndex, this`asked, this`trace, this`scriptsNeeded
      ensures KeychainsValid() && Consistent(View(), reported) && View() == NoteAll(db, old(View()), answers, |answers|)
      ensures asked == old(asked) + Flags(answers) && |asked| == scriptIndex == old(scriptIndex) + |answers| <= initial
      ensures LastActiveIs(LastOf(lastActive, keychain), asked)
      ensures scriptsNeeded == ScriptsOf(db, keychain)[scriptIndex..] && |scriptsNeeded| == |old(scriptsNeeded)| - |answers|
      ensures trace == old(trace) + [OfScripts(keychain, old(scriptsNeeded), answers)]
      ensures Told(db, trace, View(), reported, left) && ToldScripts(trace, keychain, nextKeychains, asked)
    {
      hide Consistent, NoteAll, Ids, KeychainsOk, LastActiveIs, AllLeft, KnownById, Told, ToldScripts, Flags, AnswerIds;
      NotYetLeft(keychain, nextKeychains, lastActive.Keys, left.Keys);
      ToldScriptsNext(db, trace, View(), reported, left, keychain, nextKeychains, asked, scriptsNeeded, answers);
      TakeAnswers(answers);
      trace := trace + [OfScripts(keychain, scriptsNeeded, answers)];
      MoreActive(keychain, nextKeychains, old(lastActive).Keys, lastActive.Keys, left.Keys);
      Dropped(ScriptsOf(db, keychain), old(scriptIndex), |answers|);
      scriptsNeeded := scriptsNeeded[|answers|..];
    }

    /** `TxReq::satisfy`: full transactions for the needed ids, in order. */
    method SatisfyTxs(txids: seq<Txid>)
      requires Valid() && phase == AskTxs
      modifies this`phase, this`needed, this`missing, this`trace
      ensures var wanted := InOrder(old(needed));
              var n := Least(|txids|, |wanted|);
              if txids[..n] != wanted[..n] then phase == Panicked
              else
                && Valid() && View() == Moved(old(View()), wanted, n) && phase == (if needed == {} then AskTimes else AskTxs)
                && trace == old(trace) + [OfTxs(wanted, txids)]
    {
      hide Consistent, AllLeft, KnownById, InOrder, Told;
      var wanted := InOrder(needed);
      var n := Least(|txids|, |wanted|);
      if txids[..n] != wanted[..n] {
        phase := Panicked;
        return;
      }
      WantedConsistent(View(), n, reported);
      ToldTxs(db, trace, View(), reported, left, txids);
      for i := 0 to n
        invariant phase == AskTxs && View() == Moved(old(View()), wanted, i) && trace == old(trace)
      {
        needed := needed - {wanted[i]};
        missing := missing[wanted[i] := Details(wanted[i], None)];
      }
      trace := trace + [OfTxs(wanted, txids)];
      if needed == {} {
        phase := AskTimes;
      }
    }

    /** `ConftimeReq::satisfy`: heights for the transactions that miss one, in order. */
    method SatisfyTimes(times: seq<Option<nat>>)
      requires Valid() && phase == AskTimes
      modifies this`phase, this`missing, this`finished, this`trace
      ensures var wanted := InOrder(old(missing).Keys);
              && Valid() && View() == Timed(old(View()), wanted, times, Least(|times|, |wanted|))
              && phase == (if missing == map[] then Finished else AskTimes)
              && trace == old(trace) + [OfTimes(wanted, times)]
    {
      hide Consistent, AllLeft, KnownById, InOrder, Told;
      var wanted := InOrder(missing.Keys);
      var n := Least(|times|, |wanted|);
      TimedConsistent(View(), wanted, times, n, reported);
      ToldTimes(db, trace, View(), reported, left, times);
      for i := 0 to n
        invariant phase == AskTimes && View() == Timed(old(View()), wanted, times, i) && trace == old(trace)
      {
        if wanted[i] in missing {
          finished := finished + [missing[wanted[i]].(height := times[i])];
          missing := missing - {wanted[i]};
        }
      }
      trace := trace + [OfTimes(wanted, times)];
      if missing == map[] {
        phase := Finished;
      }
    }
  }

  lemma NoFlags(asked: seq<bool>)
    ensures asked == asked + Flags([])
  {
  }

  lemma FlagsSnoc(asked: seq<bool>, answers: seq<TxList>, n: nat)
    requires n < |answers|
    ensures asked + Flags(answers[..n + 1]) == asked + Flags(answers[..n]) + [answers[n] != []]
  {
    assert Flags(answers[..n + 1]) == Flags(answers[..n]) + [answers[n] != []];
  }

  lemma NotYetLeft(k: Keychain, next: seq<Keychain>, active: set<Keychain>, left: set<Keychain>)
    requires KeychainsOk(k, next, active, left)
    ensures k !in next && k !in left
  {
  }

  lemma ToldTxs(db: Db, trace: seq<Exchange>, f: Found, reported: set<Txid>, left: map<Keychain, seq<bool>>, txids: seq<Txid>)
    requires Told(db, trace, f, reported, left)
    ensures var wanted := InOrder(f.needed);
            Told(db, trace + [OfTxs(wanted, txids)], Moved(f, wanted, Least(|txids|, |wanted|)), reported, left)
  {
    hide Moved, InOrder;
    ToldOther(db, trace, f, reported, left, OfTxs(InOrder(f.needed), txids));
    OneMore(db, trace, OfTxs(InOrder(f.needed), txids));
    hide Replay, ReportedBy, Activity;
  }

  lemma ToldTimes(db: Db, trace: seq<Exchange>, f: Found, reported: set<Txid>, left: map<Keychain, seq<bool>>, times: seq<Option<nat>>)
    requires Told(db, trace, f, reported, left)
    ensures var wanted := InOrder(f.missing.Keys);
            Told(db, trace + [OfTimes(wanted, times)], Timed(f, wanted, times, Least(|times|, |wanted|)), reported, left)
  {
    hide Timed, InOrder;
    ToldOther(db, trace, f, reported, left, OfTimes(InOrder(f.missing.Keys), times));
    OneMore(db, trace, OfTimes(InOrder(f.missing.Keys), times));
    hide Replay, ReportedBy, Activity;
  }

  /** The first `n` wanted transactions arrived and wait for their confirmation time. */
  function Moved(f: Found, wanted: seq<Txid>, n: nat): Found
    requires n <= |wanted|
  {
    if n == 0 then f else
    var g := Moved(f, wanted, n - 1);
    var id := wanted[n - 1];
    g.(needed := g.needed - {id}, missing := g.missing[id := Details(id, None)])
  }

  /** The first `n` confirmation times arrived. */
  function Timed(f: Found, wanted: seq<Txid>, times: seq<Option<nat>>, n: nat): Found
    requires n <= |wanted| && n <= |times|
  {
    if n == 0 then f else
    var g := Timed(f, wanted, times, n - 1);
    var id := wanted[n - 1];
    if id !in g.missing then g else
    g.(missing := g.missing - {id}, finished := g.finished + [g.missing[id].(height := times[n - 1])])
  }

  lemma {:induction false} MovedConsistent(f: Found, wanted: seq<Txid>, n: nat, reported: set<Txid>)
    requires n <= |wanted| && Consistent(f, reported) && forall id :: id in wanted ==> id in f.needed
    ensures Consistent(Moved(f, wanted, n), reported)
    ensures forall id :: id in f.needed ==> id in Moved(f, wanted, n).needed || id in Moved(f, wanted, n).missing
    ensures Moved(f, wanted, n).needed <= f.needed
    ensures n > 0 ==> wanted[0] !in Moved(f, wanted, n).needed
  {
    if n > 0 {
      MovedConsistent(f, wanted, n - 1, reported);
      assert wanted[n - 1] in wanted;
      MovedToMissing(Moved(f, wanted, n - 1), reported, wanted[n - 1]);
      hide Consistent;
    }
  }

  lemma WantedConsistent(f: Found, n: nat, reported: set<Txid>)
    requires n <= |InOrder(f.needed)| && Consistent(f, reported)
    ensures Consistent(Moved(f, InOrder(f.needed), n), reported)
  {
    InOrderMembers(f.needed);
    MovedConsistent(f, InOrder(f.needed), n, reported);
    hide Consistent, Moved, InOrder;
  }

  lemma {:induction false} TimedConsistent(f: Found, wanted: seq<Txid>, times: seq<Option<nat>>, n: nat, reported: set<Txid>)
    requires n <= |wanted| && n <= |times| && Consistent(f, reported)
    ensures Consistent(Timed(f, wanted, times, n), reported)
    ensures Timed(f, wanted, times, n).needed == f.needed
    ensures Timed(f, wanted, times, n).missing.Keys <= f.missing.Keys
    ensures n > 0 ==> wanted[0] !in Timed(f, wanted, times, n).missing
  {
    if n > 0 {
      TimedConsistent(f, wanted, times, n - 1, reported);
      var g := Timed(f, wanted, times, n - 1);
      if wanted[n - 1] in g.missing {
        MovedToFinished(g, reported, wanted[n - 1], times[n - 1]);
      }
      hide Consistent;
    }
  }

  ghost function FirstOf(wanted: seq<Txid>, n: nat): set<Txid>
    requires n <= |wanted|
  {
    set j | 0 <= j < n :: wanted[j]
  }

  lemma FirstSnoc(wanted: seq<Txid>, n: nat)
    requires 0 < n <= |wanted|
    ensures FirstOf(wanted, n) == FirstOf(wanted, n - 1) + {wanted[n - 1]}
  {
  }

  lemma NotBefore(s: set<Txid>, n: nat)
    requires n < |InOrder(s)|
    ensures InOrder(s)[n] in s && InOrder(s)[n] !in FirstOf(InOrder(s), n)
  {
    InOrderMembers(s);
    assert InOrder(s)[n] in InOrder(s);
    forall j | 0 <= j < n
      ensures InOrder(s)[j] != InOrder(s)[n]
    {
      InOrderSorted(s, j, n);
    }
  }

  /** Each transaction whose time arrived is finished with the time given for it. */
  lemma {:induction false} TimedExactly(f: Found, wanted: seq<Txid>, times: seq<Option<nat>>, n: nat)
    requires wanted == InOrder(f.missing.Keys) && n <= |wanted| && n <= |times| && KnownById(f.missing)
    ensures var g := Timed(f, wanted, times, n);
            && g.missing == f.missing - FirstOf(wanted, n)
            && |g.finished| == |f.finished| + n
            && forall i :: 0 <= i < n ==> g.finished[|f.finished| + i] == Details(wanted[i], times[i])
  {
    if n == 0 {
      assert FirstOf(wanted, n) == {};
      assert f.missing - {} == f.missing;
    } else {
      TimedExactly(f, wanted, times, n - 1);
      NotBefore(f.missing.Keys, n - 1);
      FirstSnoc(wanted, n);
      hide InOrder, FirstOf;
      var g := Timed(f, wanted, times, n - 1);
      assert wanted[n - 1] in g.missing;
      assert (f.missing - FirstOf(wanted, n - 1)) - {wanted[n - 1]} == f.missing - FirstOf(wanted, n);
    }
  }

  lemma Dropped(s: seq<Script>, i: nat, n: nat)
    requires i <= |s| && n <= |s[i..]|
    ensures s[i..][n..] == s[i + n..]
  {
  }

  lemma GapProper(scripts: seq<Script>, asked: seq<bool>, stopGap: nat, lastActive: Option<nat>)
    requires LastActiveIs(lastActive, asked)
    requires |scripts| > 1 ==> |asked| == |scripts| && (lastActive.Some? ==> |asked| - (lastActive.value + 1) >= stopGap)
    ensures LeftProperly(scripts, asked, stopGap)
  {
  }

  lemma MovedToMissing(f: Found, reported: set<Txid>, id: Txid)
    requires Consistent(f, reported) && (id in f.needed || id in f.missing)
    ensures Consistent(f.(needed := f.needed - {id}, missing := f.missing[id := Details(id, None)]), reported)
  {
    var g := f.(needed := f.needed - {id}, missing := f.missing[id := Details(id, None)]);
    forall x
      ensures x in reported <==> Accounted(g, x)
    {
      assert x in reported <==> Accounted(f, x);
    }
  }

  lemma MovedToFinished(f: Found, reported: set<Txid>, id: Txid, height: Option<nat>)
    requires Consistent(f, reported) && id in f.missing
    ensures Consistent(f.(missing := f.missing - {id}, finished := f.finished + [f.missing[id].(height := height)]), reported)
  {
    var g := f.(missing := f.missing - {id}, finished := f.finished + [f.missing[id].(height := height)]);
    forall x
      ensures x in reported <==> Accounted(g, x)
    {
      assert x in reported <==> Accounted(f, x);
      assert g.finished[|f.finished|].txid == id;
      if i :| 0 <= i < |f.finished| && f.finished[i].txid == x {
        assert g.finished[i].txid == x;
      }
      if i :| 0 <= i < |g.finished| && g.finished[i].txid == x {
        assert i < |f.finished| ==> f.finished[i].txid == x;
      }
    }
  }

  // ---- A whole synchronization ----

  /** What a server answers in each round. */
  datatype Server = Server(
    scripts: (nat, seq<Script>) -> seq<TxList>,
    txs: (nat, seq<Txid>) -> seq<Txid>,
    times: (nat, seq<Txid>) -> seq<Option<nat>>)

  /** Answers are in order, never too long, and not empty for a request that is not. */
  ghost predicate Serves(server: Server) {
    && (forall round, req: seq<Script> :: |server.scripts(round, req)| <= |req| && (req != [] ==> server.scripts(round, req) != []))
    && (forall round, req: seq<Txid> :: server.txs(round, req) <= req && (req != [] ==> server.txs(round, req) != []))
    && (forall round, req: seq<Txid> :: |server.times(round, req)| <= |req| && (req != [] ==> server.times(round, req) != []))
  }

  lemma ServesEach(server: Server, round: nat, req: seq<nat>)
    requires Serves(server)
    ensures |server.scripts(round, req)| <= |req| && (req != [] ==> server.scripts(round, req) != [])
    ensures server.txs(round, req) <= req && (req != [] ==> server.txs(round, req) != [])
    ensures |server.times(round, req)| <= |req| && (req != [] ==> server.times(round, req) != [])
  {
  }

  function Rank(p: Phase): nat {
    match p
    case AskScripts => 3
    case AskTxs => 2
    case AskTimes => 1
    case _ => 0
  }

  ghost predicate Asking(p: Phase) {
    p == AskScripts || p == AskTxs || p == AskTimes
  }

  /** Exchange `i` asks for what is left to ask, and its answer is the server's. */
  ghost predicate Served(db: Db, server: Server, trace: seq<Exchange>, i: nat)
    requires i < |trace|
  {
    match trace[i]
    case OfScripts(k, request, lists) =>
      var n := |Activity(trace[..i], k)|;
      n <= |ScriptsOf(db, k)| && request == ScriptsOf(db, k)[n..] && lists == server.scripts(i, request)
    case OfTxs(wanted, txids) => wanted == InOrder(Replay(db, trace[..i]).needed) && txids == server.txs(i, wanted)
    case OfTimes(wanted, times) => wanted == InOrder(Replay(db, trace[..i]).missing.Keys) && times == server.times(i, wanted)
  }

  ghost predicate AllServed(db: Db, server: Server, trace: seq<Exchange>) {
    forall i :: 0 <= i < |trace| ==> Served(db, server, trace, i)
  }

  lemma NothingServed(db: Db, server: Server)
    ensures AllServed(db, server, [])
  {
  }

  lemma ServedMore(db: Db, server: Server, trace: seq<Exchange>, e: Exchange)
    requires AllServed(db, server, trace) && Served(db, server, trace + [e], |trace|)
    ensures AllServed(db, server, trace + [e])
  {
    var more := trace + [e];
    forall i | 0 <= i < |trace|
      ensures Served(db, server, more, i)
    {
      assert more[..i] == trace[..i] && Served(db, server, trace, i);
    }
  }

  /** Of every keychain left, all scripts were asked. */
  ghost predicate AllAsked(db: Db, left: map<Keychain, seq<bool>>) {
    forall k :: k in left ==> |left[k]| == |ScriptsOf(db, k)|
  }

  /** One request and its answer: what is left to ask shrinks. */
  method Advance(s: Session, server: Server, round: nat)
    requires round == |s.trace| && s.Valid() && Asking(s.phase) && Serves(server) && AllServed(s.db, server, s.trace) && AllAsked(s.db, s.left)
    modifies s
    ensures |s.trace| == round + 1 && (s.phase.MissingScripts? ==> s.GaveUp())
    ensures s.Valid() && s.phase != Panicked && AllServed(s.db, server, s.trace) && AllAsked(s.db, s.left)
    ensures || Rank(s.phase) < old(Rank(s.phase))
            || (Rank(s.phase) == old(Rank(s.phase)) &&
                (|| |s.nextKeychains| < old(|s.nextKeychains|)
                 || (s.nextKeychains == old(s.nextKeychains) &&
                     (|| |s.scriptsNeeded| < old(|s.scriptsNeeded|)
                      || (s.scriptsNeeded == old(s.scriptsNeeded) &&
                          (|| |s.needed| < old(|s.needed|)
                           || (s.needed == old(s.needed) && |s.missing| < old(|s.missing|))))))))
  {
    hide Consistent, AllLeft, KnownById, NoteAll, Serves, AllServed, KeychainsOk, LastActiveIs, Activity, Replay, ReportedBy;
    match s.phase {
      case AskScripts =>
        AskForScripts(s, server, round);
      case AskTxs =>
        AskForTxs(s, server, round);
      case AskTimes =>
        AskForTimes(s, server, round);
    }
  }

  method AskForScripts(s: Session, server: Server, round: nat)
    requires round == |s.trace| && s.Valid() && s.phase == AskScripts && Serves(server) && AllServed(s.db, server, s.trace) && AllAsked(s.db, s.left)
    modifies s
    ensures |s.trace| == round + 1 && (s.phase.MissingScripts? ==> s.GaveUp())
    ensures s.Valid() && AllServed(s.db, server, s.trace) && AllAsked(s.db, s.left)
    ensures s.phase.MissingScripts? || s.phase == AskTxs || s.phase == AskScripts
    ensures s.phase == AskScripts ==>
              || |s.nextKeychains| < old(|s.nextKeychains|)
              || (s.nextKeychains == old(s.nextKeychains) && |s.scriptsNeeded| < old(|s.scriptsNeeded|))
  {
    hide Consistent, AllLeft, KnownById, NoteAll, Serves, AllServed, KeychainsOk, LastActiveIs, Activity, Replay, ReportedBy;
    var answers := server.scripts(round, s.scriptsNeeded);
    ServesEach(server, round, s.scriptsNeeded);
    ghost var e := OfScripts(s.keychain, s.scriptsNeeded, answers);
    assert (s.trace + [e])[..|s.trace|] == s.trace;
    assert Served(s.db, server, s.trace + [e], |s.trace|);
    ServedMore(s.db, server, s.trace, e);
    s.SatisfyScripts(answers);
  }

  method AskForTxs(s: Session, server: Server, round: nat)
    requires round == |s.trace| && s.Valid() && s.phase == AskTxs && Serves(server) && AllServed(s.db, server, s.trace)
    modifies s`phase, s`needed, s`missing, s`trace
    ensures |s.trace| == round + 1 && s.Valid() && AllServed(s.db, server, s.trace)
    ensures s.phase == AskTimes || (s.phase == AskTxs && |s.needed| < old(|s.needed|))
  {
    hide Consistent, AllLeft, KnownById, Serves, AllServed, Activity, Replay, ReportedBy, Moved, InOrder;
    var req := InOrder(s.needed);
    InOrderMembers(s.needed);
    ServesEach(server, round, req);
    var answers := server.txs(round, req);
    ghost var e := OfTxs(req, answers);
    assert (s.trace + [e])[..|s.trace|] == s.trace;
    ServedMore(s.db, server, s.trace, e);
    MovedConsistent(s.View(), req, |answers|, s.reported);
    ghost var before := s.needed;
    s.SatisfyTxs(answers);
    assert s.phase == AskTxs ==> req[0] in req && s.needed < before;
    Smaller(s.needed, before);
  }

  method AskForTimes(s: Session, server: Server, round: nat)
    requires round == |s.trace| && s.Valid() && s.phase == AskTimes && Serves(server) && AllServed(s.db, server, s.trace)
    modifies s`phase, s`missing, s`finished, s`trace
    ensures |s.trace| == round + 1 && s.Valid() && AllServed(s.db, server, s.trace)
    ensures s.phase == Finished || (s.phase == AskTimes && |s.missing| < old(|s.missing|))
  {
    hide Consistent, AllLeft, KnownById, Serves, AllServed, Activity, Replay, ReportedBy, Timed, InOrder;
    var req := InOrder(s.missing.Keys);
    InOrderMembers(s.missing.Keys);
    ServesEach(server, round, req);
    var answers := server.times(round, req);
    ghost var e := OfTimes(req, answers);
    assert (s.trace + [e])[..|s.trace|] == s.trace;
    ServedMore(s.db, server, s.trace, e);
    TimedConsistent(s.View(), req, answers, |answers|, s.reported);
    ghost var before := s.missing;
    s.SatisfyTimes(answers);
    assert s.phase == AskTimes ==> req[0] in req && s.missing.Keys < before.Keys;
    Smaller(s.missing.Keys, before.Keys);
    assert |s.missing.Keys| == |s.missing| && |before.Keys| == |before|;
  }

  /** A keychain was asked in full, and is left properly. */
  ghost predicate Scanned(db: Db, trace: seq<Exchange>, k: Keychain, stopGap: nat) {
    |Activity(trace, k)| == |ScriptsOf(db, k)| && LeftProperly(ScriptsOf(db, k), Activity(trace, k), stopGap)
  }

  /**
   Every synchronization ends. Its requests ask for what is left to ask, its answers are the server's,
   and what it found is what they amount to. When it finishes, exactly the ids the server ever listed
   are finished, and both keychains were asked in full and left properly.
   */
  method Synchronize(db: Db, stopGap: nat, first: Keychain, server: Server) returns (s: Session)
    requires KnownById(db.txs) && Serves(server)
    ensures s.db == db && s.stopGap == stopGap && (s.phase == Finished || (s.phase.MissingScripts? && s.GaveUp()))
    ensures AllServed(db, server, s.trace) && s.View() == Replay(db, s.trace)
    ensures s.phase == Finished ==>
              && s.needed == {} && s.missing == map[] && FinishedExactly(s.finished, ReportedBy(s.trace))
              && Scanned(db, s.trace, Internal, stopGap) && Scanned(db, s.trace, External, stopGap)
  {
    hide Consistent, LeftProperly, KnownById, Serves, AllServed, Activity, Replay, ReportedBy, KeychainsOk, LastActiveIs;
    s := new Session(db, stopGap, first);
    var round := 0;
    NothingServed(db, server);
    while s.phase == AskScripts || s.phase == AskTxs || s.phase == AskTimes
      invariant s.Valid() && s.phase != Panicked && s.db == db && s.stopGap == stopGap && fresh(s)
      invariant |s.trace| == round && AllServed(db, server, s.trace) && AllAsked(db, s.left)
      invariant s.phase.MissingScripts? ==> s.GaveUp()
      decreases Rank(s.phase), |s.nextKeychains|, |s.scriptsNeeded|, |s.needed|, |s.missing|
    {
      Advance(s, server, round);
      round := round + 1;
    }
    AllFinished(s.View(), s.reported);
  }

  lemma Smaller(a: set<Txid>, b: set<Txid>)
    ensures a < b ==> |a| < |b|
  {
    if a < b {
      assert b == a + (b - a);
      var x :| x in b - a;
    }
  }

  lemma AllFinished(f: Found, reported: set<Txid>)
    requires Consistent(f, reported)
    ensures f.needed == {} && f.missing == map[] ==> FinishedExactly(f.finished, reported)
  {
    if f.needed == {} && f.missing == map[] {
      forall id
        ensures id in reported <==> exists i :: 0 <= i < |f.finished| && f.finished[i].txid == id
      {
        assert id in reported <==> Accounted(f, id);
      }
    }
  }

  /** The finished transactions are those of these ids. */
  ghost predicate FinishedExactly(finished: seq<Details>, ids: set<Txid>) {
    forall id :: id in ids <==> exists i :: 0 <= i < |finished| && finished[i].txid == id
  }
}
