/** When transactions are reported as mined and confirmed, over any sequence of blocks that extend the window. */
module ConfirmatorRuns {
  import opened Options
  import opened Selections
  import opened Confirmator

  /** Taking ids out of the queue leaves exactly the others, as they were. */
  lemma WithoutExactly(queue: map<Txid, nat>, txids: seq<Txid>, t: Txid)
    ensures t in Without(queue, txids) <==> t in queue && t !in txids
    ensures t in Without(queue, txids) ==> Without(queue, txids)[t] == queue[t]
  {
  }

  ghost function QueuedFlags(queue: map<Txid, nat>, txs: seq<Txid>, n: nat): seq<bool>
    requires n <= |txs|
  {
    seq(n, i requires 0 <= i < n => txs[i] in queue)
  }

  /** What waits of a block, in the order of the block. */
  lemma WaitingPicks(queue: map<Txid, nat>, txs: seq<Txid>)
    ensures Waiting(queue, txs) == Pick(txs, QueuedFlags(queue, txs, |txs|))
  {
    assert txs[|txs|..] == [];
    WaitingFrom(queue, txs, |txs|);
  }

  lemma {:induction false} WaitingFrom(queue: map<Txid, nat>, txs: seq<Txid>, n: nat)
    requires n <= |txs|
    ensures Waiting(queue, txs) == Pick(txs, QueuedFlags(queue, txs, n)) + Waiting(queue, txs[n..])
  {
    if n == 0 {
      assert QueuedFlags(queue, txs, 0) == [] && txs[0..] == txs;
    } else {
      WaitingFrom(queue, txs, n - 1);
      assert QueuedFlags(queue, txs, n) == QueuedFlags(queue, txs, n - 1) + [txs[n - 1] in queue];
      PickNext(txs, QueuedFlags(queue, txs, n - 1), txs[n - 1] in queue);
      assert txs[n - 1..][0] == txs[n - 1] && txs[n - 1..][1..] == txs[n..];
    }
  }

  /** A handled reorg takes exactly the waiting transactions of the dropped blocks out of the queue. */
  lemma ReorgLeaves(queue: map<Txid, nat>, dropped: seq<BlockInfo>, t: Txid)
    ensures t in Without(queue, WaitingBackwards(queue, dropped)) <==>
            t in queue && !(exists i :: 0 <= i < |dropped| && t in dropped[i].txs)
  {
    WithoutExactly(queue, WaitingBackwards(queue, dropped), t);
    ReportedExactly(queue, dropped, t);
    hide Without, WaitingBackwards;
  }

  /** Newer blocks are reported before older ones. */
  lemma {:induction false} NewestFirst(queue: map<Txid, nat>, older: seq<BlockInfo>, newer: seq<BlockInfo>)
    ensures WaitingBackwards(queue, older + newer) == WaitingBackwards(queue, newer) + WaitingBackwards(queue, older)
  {
    hide Waiting;
    if newer == [] {
      assert older + newer == older;
    } else {
      var k := |newer| - 1;
      NewestFirst(queue, older, newer[..k]);
      assert (older + newer)[..|older| + k] == older + newer[..k];
    }
  }

  /** Of one block, in its order. */
  lemma OneBlock(queue: map<Txid, nat>, b: BlockInfo)
    ensures WaitingBackwards(queue, [b]) == Pick(b.txs, QueuedFlags(queue, b.txs, |b.txs|))
  {
    WaitingPicks(queue, b.txs);
    hide Waiting;
    assert [b][..0] == [] && WaitingBackwards(queue, []) == [];
  }

  // ---- Sequences of blocks ----

  function FedAll(queue: map<Txid, nat>, blocks: seq<Block>, depth: nat): State {
    if blocks == [] then State(queue, [], []) else
    var k := |blocks| - 1;
    Fed(FedAll(queue, blocks[..k], depth), blocks[k], depth)
  }

  /** How many of the first `n` blocks are deep enough. */
  function Deep(n: nat, depth: nat): nat {
    if n >= depth then n - depth + 1 else 0
  }

  ghost predicate InFirst(blocks: seq<Block>, k: nat, t: Txid) {
    k <= |blocks| && exists j :: 0 <= j < k && t in blocks[j].txs
  }

  function Infos(blocks: seq<Block>): seq<BlockInfo> {
    seq(|blocks|, i requires 0 <= i < |blocks| => Info(blocks[i]))
  }

  ghost predicate SaysMined(sent: seq<Message>, t: Txid) {
    exists i :: 0 <= i < |sent| && sent[i].Mined? && t in sent[i].txids
  }

  ghost predicate SaysConfirmed(sent: seq<Message>, t: Txid, i: nat) {
    i < |sent| && sent[i].Confirmed? && t in sent[i].txids
  }

  ghost predicate EverConfirmed(sent: seq<Message>, t: Txid) {
    exists i: nat :: SaysConfirmed(sent, t, i)
  }

  /** In a block while it waits: no earlier block with it is deep enough yet. */
  ghost predicate MinedAt(queue: map<Txid, nat>, blocks: seq<Block>, depth: nat, t: Txid, j: nat) {
    j < |blocks| && t in blocks[j].txs && t in queue && !InFirst(blocks, Deep(j, depth), t)
  }

  lemma {:induction false} WindowAfter(queue: map<Txid, nat>, blocks: seq<Block>, depth: nat)
    requires depth > 0
    ensures FedAll(queue, blocks, depth).window == Infos(blocks[Deep(|blocks|, depth)..])
  {
    hide Fed, Infos;
    if blocks != [] {
      var k := |blocks| - 1;
      WindowAfter(queue, blocks[..k], depth);
      WindowNext(blocks, Deep(k, depth));
      FedWindow(FedAll(queue, blocks[..k], depth), blocks[k], depth);
    } else {
      NoInfos(blocks[0..]);
    }
  }

  lemma NoInfos(blocks: seq<Block>)
    requires blocks == []
    ensures Infos(blocks) == []
  {
  }

  lemma FedWindow(s: State, b: Block, depth: nat)
    ensures var full := s.window + [Info(b)]; Fed(s, b, depth).window == if |full| == depth then full[1..] else full
  {
    hide Waiting, Without, Report;
  }

  lemma WindowNext(blocks: seq<Block>, d: nat)
    requires d < |blocks|
    ensures var k := |blocks| - 1;
            && |Infos(blocks[..k][d..])| == k - d
            && Infos(blocks[d..]) == Infos(blocks[..k][d..]) + [Info(blocks[k])]
            && Infos(blocks[d..])[1..] == Infos(blocks[d + 1..])
  {
    var k := |blocks| - 1;
    assert blocks[d..] == blocks[..k][d..] + [blocks[k]];
    assert blocks[d..][1..] == blocks[d + 1..];
  }

  lemma InFirstNext(blocks: seq<Block>, k: nat, d: nat, t: Txid)
    requires d < |blocks| && k <= |blocks|
    ensures InFirst(blocks, d + 1, t) <==> InFirst(blocks, d, t) || t in blocks[d].txs
    ensures d <= k ==> (InFirst(blocks[..k], d, t) <==> InFirst(blocks, d, t))
  {
    if d <= k {
      assert forall j :: 0 <= j < d ==> blocks[..k][j] == blocks[j];
    }
  }

  /** A transaction leaves the queue exactly when a block with it is deep enough. */
  lemma {:induction false} QueuedAfter(queue: map<Txid, nat>, blocks: seq<Block>, depth: nat, t: Txid)
    requires depth > 0
    ensures t in FedAll(queue, blocks, depth).queue <==> t in queue && !InFirst(blocks, Deep(|blocks|, depth), t)
  {
    if blocks != [] {
      var k := |blocks| - 1;
      QueuedAfter(queue, blocks[..k], depth, t);
      WindowAfter(queue, blocks[..k], depth);
      var s, d := FedAll(queue, blocks[..k], depth), Deep(k, depth);
      InFirstNext(blocks, k, d, t);
      hide FedAll, InFirst;
      var full := s.window + [Info(blocks[k])];
      if |full| == depth {
        OldestOf(blocks, k, d, full);
        WaitingExactly(s.queue, full[0].txs);
        hide Waiting;
        WithoutExactly(s.queue, Waiting(s.queue, full[0].txs), t);
      }
    }
  }

  lemma OldestOf(blocks: seq<Block>, k: nat, d: nat, full: seq<BlockInfo>)
    requires d <= k < |blocks| && full == Infos(blocks[..k][d..]) + [Info(blocks[k])]
    ensures full[0] == Info(blocks[d])
  {
    if d < k {
      assert blocks[..k][d..][0] == blocks[d];
    }
  }

  /** It is reported as confirmed exactly then. */
  lemma {:induction false} ConfirmedAfter(queue: map<Txid, nat>, blocks: seq<Block>, depth: nat, t: Txid)
    requires depth > 0
    ensures EverConfirmed(FedAll(queue, blocks, depth).sent, t) <==>
            t in queue && InFirst(blocks, Deep(|blocks|, depth), t)
  {
    if blocks != [] {
      var k := |blocks| - 1;
      ConfirmedAfter(queue, blocks[..k], depth, t);
      QueuedAfter(queue, blocks[..k], depth, t);
      WindowAfter(queue, blocks[..k], depth);
      var s, d := FedAll(queue, blocks[..k], depth), Deep(k, depth);
      InFirstNext(blocks, k, d, t);
      FedConfirms(s, blocks[k], depth, t);
      hide FedAll, InFirst, Fed, EverConfirmed;
      var full := s.window + [Info(blocks[k])];
      if |full| == depth {
        OldestOf(blocks, k, d, full);
      }
    }
  }

  /** One block: what it newly reports as confirmed. */
  lemma FedConfirms(s: State, b: Block, depth: nat, t: Txid)
    ensures var full := s.window + [Info(b)];
            EverConfirmed(Fed(s, b, depth).sent, t) <==>
            EverConfirmed(s.sent, t) || (|full| == depth && t in s.queue && t in full[0].txs)
  {
    var full := s.window + [Info(b)];
    WaitingExactly(s.queue, full[0].txs);
    hide Waiting, Without;
    ReportConfirms(s.sent, Mined(Waiting(s.queue, b.txs)), t);
    ReportConfirms(Report(s.sent, Mined(Waiting(s.queue, b.txs))), Confirmed(Waiting(s.queue, full[0].txs)), t);
    hide Report, EverConfirmed;
  }

  lemma ReportConfirms(sent: seq<Message>, m: Message, t: Txid)
    ensures EverConfirmed(Report(sent, m), t) <==>
            EverConfirmed(sent, t) || (m.Confirmed? && t in m.txids)
  {
    var more := Report(sent, m);
    if i: nat :| SaysConfirmed(sent, t, i) {
      assert SaysConfirmed(more, t, i);
    }
    if i: nat :| SaysConfirmed(more, t, i) {
      assert i < |sent| ==> SaysConfirmed(sent, t, i);
    }
    if m.Confirmed? && t in m.txids {
      assert SaysConfirmed(more, t, |sent|);
    }
  }

  /** And once. */
  lemma {:induction false} ConfirmedOnce(queue: map<Txid, nat>, blocks: seq<Block>, depth: nat, t: Txid, i: nat, j: nat)
    requires depth > 0 && SaysConfirmed(FedAll(queue, blocks, depth).sent, t, i) && SaysConfirmed(FedAll(queue, blocks, depth).sent, t, j)
    ensures i == j
  {
    if blocks != [] {
      var k := |blocks| - 1;
      var s, s' := FedAll(queue, blocks[..k], depth), FedAll(queue, blocks, depth);
      ConfirmedAfter(queue, blocks[..k], depth, t);
      QueuedAfter(queue, blocks[..k], depth, t);
      var full := s.window + [Info(blocks[k])];
      WaitingExactly(s.queue, full[0].txs);
      hide Waiting, Without, FedAll, InFirst;
      assert s' == Fed(s, blocks[k], depth);
      if SaysConfirmed(s.sent, t, i) && SaysConfirmed(s.sent, t, j) {
        ConfirmedOnce(queue, blocks[..k], depth, t, i, j);
      } else {
        NewConfirmation(s, blocks[k], depth, t, i);
        NewConfirmation(s, blocks[k], depth, t, j);
      }
    }
  }

  lemma NewConfirmation(s: State, b: Block, depth: nat, t: Txid, i: nat)
    requires SaysConfirmed(Fed(s, b, depth).sent, t, i)
    ensures SaysConfirmed(s.sent, t, i) || (t in s.queue && i == |Fed(s, b, depth).sent| - 1)
  {
    var full := s.window + [Info(b)];
    WaitingExactly(s.queue, full[0].txs);
    hide Waiting, Without;
  }

  /** A transaction is reported as mined exactly when a block has it while it waits. */
  lemma {:induction false} MinedAfter(queue: map<Txid, nat>, blocks: seq<Block>, depth: nat, t: Txid)
    requires depth > 0
    ensures SaysMined(FedAll(queue, blocks, depth).sent, t) <==> exists j :: MinedAt(queue, blocks, depth, t, j)
  {
    if blocks != [] {
      var k := |blocks| - 1;
      MinedAfter(queue, blocks[..k], depth, t);
      QueuedAfter(queue, blocks[..k], depth, t);
      var s := FedAll(queue, blocks[..k], depth);
      FedMines(s, blocks[k], depth, t);
      hide FedAll, Fed, SaysMined;
      forall j | 0 <= j < k
        ensures MinedAt(queue, blocks, depth, t, j) <==> MinedAt(queue, blocks[..k], depth, t, j)
      {
        InFirstNext(blocks, k, Deep(j, depth), t);
      }
      InFirstNext(blocks, k, Deep(k, depth), t);
      hide InFirst;
      assert MinedAt(queue, blocks, depth, t, k) <==> t in blocks[k].txs && t in s.queue;
      hide MinedAt;
      if j: nat :| MinedAt(queue, blocks[..k], depth, t, j) {
        EarlierBlock(queue, blocks[..k], depth, t, j);
        assert MinedAt(queue, blocks, depth, t, j);
      }
      if j: nat :| MinedAt(queue, blocks, depth, t, j) {
        EarlierBlock(queue, blocks, depth, t, j);
        assert j < k ==> MinedAt(queue, blocks[..k], depth, t, j);
      }
    }
  }

  lemma EarlierBlock(queue: map<Txid, nat>, blocks: seq<Block>, depth: nat, t: Txid, j: nat)
    requires MinedAt(queue, blocks, depth, t, j)
    ensures j < |blocks|
  {
  }

  lemma FedMines(s: State, b: Block, depth: nat, t: Txid)
    ensures SaysMined(Fed(s, b, depth).sent, t) <==> SaysMined(s.sent, t) || (t in s.queue && t in b.txs)
  {
    WaitingExactly(s.queue, b.txs);
    hide Waiting, Without;
    var m, full := Mined(Waiting(s.queue, b.txs)), s.window + [Info(b)];
    ReportMines(s.sent, m, t);
    ReportMines(Report(s.sent, m), Confirmed(Waiting(s.queue, full[0].txs)), t);
    hide Report, SaysMined;
  }

  lemma ReportMines(sent: seq<Message>, m: Message, t: Txid)
    ensures SaysMined(Report(sent, m), t) <==> SaysMined(sent, t) || (m.Mined? && t in m.txids)
  {
    var more := Report(sent, m);
    assert forall i :: 0 <= i < |sent| ==> more[i] == sent[i];
    if i :| 0 <= i < |sent| && sent[i].Mined? && t in sent[i].txids {
      assert more[i].Mined? && t in more[i].txids;
    }
    if i :| 0 <= i < |more| && more[i].Mined? && t in more[i].txids {
      assert i < |sent| ==> sent[i].Mined? && t in sent[i].txids;
    }
    if m.Mined? && t in m.txids {
      assert more[|sent|] == m;
    }
  }
}
