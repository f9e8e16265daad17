/**
 Waiting for confirmations and handling reorganizations (`crates/tx-confirm/src/lib.rs`), with
 the part of the indexer that answers them (`crates/indexers/src/indexer.rs`).
 */
module Confirmator {
  import opened Options

  type Hash = nat
  type Txid = nat

  datatype Block = Block(hash: Hash, prev: Option<Hash>, height: nat, txs: seq<Txid>)

  /** Answers of the Bitcoin node to requests for a block by its hash. */
  type Node = map<Hash, Block>

  datatype BlockInfo = BlockInfo(hash: Hash, txs: seq<Txid>)

  datatype Message =
    | Mined(txids: seq<Txid>)
    | Confirmed(txids: seq<Txid>)
    | Reorganization(txids: seq<Txid>, height: int)

  function Info(b: Block): BlockInfo {
    BlockInfo(b.hash, b.txs)
  }

  /** The transactions of a block that wait for confirmation, in block order. */
  function Waiting(queue: map<Txid, nat>, txs: seq<Txid>): seq<Txid> {
    if txs == [] then [] else (if txs[0] in queue then [txs[0]] else []) + Waiting(queue, txs[1..])
  }

  /** The waiting transactions of the blocks of a window, from the newest block to the oldest. */
  function WaitingBackwards(queue: map<Txid, nat>, blocks: seq<BlockInfo>): seq<Txid> {
    if blocks == [] then [] else
    Waiting(queue, blocks[|blocks| - 1].txs) + WaitingBackwards(queue, blocks[..|blocks| - 1])
  }

  function Without(queue: map<Txid, nat>, txids: seq<Txid>): map<Txid, nat> {
    map t | t in queue && t !in txids :: queue[t]
  }

  // ---- The chain ----

  /** The node answers with the block asked for, and heights count the blocks before. */
  ghost predicate Consistent(node: Node) {
    forall h :: h in node ==>
      && node[h].hash == h
      && (node[h].prev.Some? && node[h].prev.value in node ==> node[node[h].prev.value].height + 1 == node[h].height)
      && (node[h].prev.Some? ==> node[h].height > 0)
  }

  /** The ancestor `k + 1` blocks before a block with this previous hash, as far as the node answers. */
  ghost function Ancestor(node: Node, prev: Option<Hash>, k: nat): Option<Hash>
    decreases k
  {
    if k == 0 || prev.None? then
      prev
    else if prev.value !in node then
      None
    else
      Ancestor(node, node[prev.value].prev, k - 1)
  }

  /** Every block of the window but the first names the one before it as its parent. */
  ghost predicate Linked(window: seq<BlockInfo>, node: Node) {
    && (forall i :: 0 <= i < |window| ==> window[i].hash in node)
    && (forall i :: 0 < i < |window| ==> node[window[i].hash].prev == Some(window[i - 1].hash))
  }

  lemma LinkedPrefix(window: seq<BlockInfo>, node: Node, m: nat)
    requires Linked(window, node) && m <= |window|
    ensures Linked(window[..m], node)
  {
  }

  lemma LinkedMore(window: seq<BlockInfo>, node: Node, block: Block)
    requires Linked(window, node) && block.hash in node && node[block.hash] == block && Extends(window, block)
    ensures Linked(window + [Info(block)], node) <==> block.prev.Some? || window == []
  {
    var full := window + [Info(block)];
    var n := |window|;
    assert full[n].hash == block.hash && forall i :: 0 <= i < n ==> full[i] == window[i];
    if block.prev.Some? || window == [] {
      forall i | 0 < i < |full|
        ensures node[full[i].hash].prev == Some(full[i - 1].hash)
      {
        assert i < n ==> full[i - 1] == window[i - 1];
      }
    } else {
      assert full[n - 1] == window[n - 1] && node[full[n].hash].prev != Some(full[n - 1].hash);
    }
  }

  lemma WaitingSnoc(queue: map<Txid, nat>, blocks: seq<BlockInfo>, m: nat)
    requires 0 < m <= |blocks|
    ensures WaitingBackwards(queue, blocks[m - 1..])
         == WaitingBackwards(queue, blocks[m..]) + Waiting(queue, blocks[m - 1].txs)
    decreases |blocks|
  {
    if m == |blocks| {
      assert blocks[m - 1..] == [blocks[m - 1]] && blocks[m..] == [];
      assert [blocks[m - 1]][..0] == [];
    } else {
      var k := |blocks| - 1;
      WaitingSnoc(queue, blocks[..k], m);
      assert blocks[m - 1..][..|blocks[m - 1..]| - 1] == blocks[..k][m - 1..];
      assert blocks[m..][..|blocks[m..]| - 1] == blocks[..k][m..];
    }
  }

  lemma {:induction false} AncestorStep(node: Node, prev: Option<Hash>, k: nat)
    ensures var a := Ancestor(node, prev, k);
            Ancestor(node, prev, k + 1) == if a.None? || a.value !in node then None else node[a.value].prev
    decreases k
  {
    if k > 0 && prev.Some? && prev.value in node {
      AncestorStep(node, node[prev.value].prev, k - 1);
    }
  }

  datatype Outcome = Handled | Failed

  datatype TxAnswer = Unknown | Error | Known(confirmations: Option<nat>)

  /** The block can be appended: one of the two has no hash to compare, or the hashes agree. */
  predicate Extends(window: seq<BlockInfo>, block: Block) {
    block.prev.None? || window == [] || window[|window| - 1].hash == block.prev.value
  }

  ghost predicate AllIn(txids: seq<Txid>, s: set<Txid>) {
    forall t :: t in txids ==> t in s
  }

  /** Queue, window and messages of the confirmator. */
  datatype State = State(queue: map<Txid, nat>, window: seq<BlockInfo>, sent: seq<Message>)

  function Report(sent: seq<Message>, m: Message): seq<Message> {
    if m.txids == [] then sent else sent + [m]
  }

  /** A block that extends the window is appended; at the required depth the oldest one is confirmed. */
  function Fed(s: State, b: Block, depth: nat): State {
    var full := s.window + [Info(b)];
    var sent := Report(s.sent, Mined(Waiting(s.queue, b.txs)));
    if |full| != depth then State(s.queue, full, sent) else
    var confirmed := Waiting(s.queue, full[0].txs);
    State(Without(s.queue, confirmed), full[1..], Report(sent, Confirmed(confirmed)))
  }

  class TxConfirmator {
    var queue: map<Txid, nat>
    var latestBlocks: seq<BlockInfo>
    var sent: seq<Message>
    const confirmationsNumber: nat
    /** The transactions handed over for confirmation so far. */
    ghost var handed: set<Txid>

    constructor (n: nat)
      ensures queue == map[] && latestBlocks == [] && sent == [] && confirmationsNumber == n
      ensures handed == {} && ReportsHanded()
    {
      queue, latestBlocks, sent, confirmationsNumber, handed := map[], [], [], n, {};
    }

    /** Only transactions handed over are queued or ever reported. */
    ghost predicate ReportsHanded()
      reads this
    {
      queue.Keys <= handed && forall i :: 0 <= i < |sent| ==> AllIn(sent[i].txids, handed)
    }

    /** The loop that takes transactions out of the queue. */
    method RemoveFromQueue(txids: seq<Txid>)
      modifies this`queue
      ensures queue == Without(old(queue), txids)
    {
      for i := 0 to |txids|
        invariant queue == Without(old(queue), txids[..i])
      {
        queue := map t | t in queue && t != txids[i] :: queue[t];
      }
      assert txids[..|txids|] == txids;
    }

    /** The loop of `handle_reorg`: pops the window and walks back from the new block, in step. */
    method WalkBack(newBlock: Block, node: Node) returns (found: bool, reorged: seq<Txid>, height: int, ghost m: nat)
      modifies this`latestBlocks
      ensures latestBlocks <= old(latestBlocks)
      ensures found <==> exists i :: 0 <= i < |old(latestBlocks)| && Meets(old(latestBlocks), newBlock.prev, node, i)
      ensures found ==>
        && m < |old(latestBlocks)| && Meets(old(latestBlocks), newBlock.prev, node, m)
        && (forall i :: m < i < |old(latestBlocks)| ==> !Meets(old(latestBlocks), newBlock.prev, node, i))
        && latestBlocks == old(latestBlocks)[..m + 1]
        && reorged == WaitingBackwards(queue, old(latestBlocks)[m + 1..])
        && height == newBlock.height - (|old(latestBlocks)| - m)
    {
      hide Ancestor, Waiting, WaitingBackwards;
      reorged := [];
      height := newBlock.height;
      var prevHash := newBlock.prev;
      ghost var window, n := latestBlocks, |latestBlocks|;
      m := n;
      WalkStart(node, newBlock.prev, queue, window);
      while true
        invariant m <= n && latestBlocks == window[..m]
        invariant prevHash == Ancestor(node, newBlock.prev, n - m)
        invariant height == newBlock.height - (n - m)
        invariant forall i :: m <= i < n ==> !Meets(window, newBlock.prev, node, i)
        invariant reorged == WaitingBackwards(queue, window[m..])
        decreases m
      {
        if latestBlocks == [] {
          return false, reorged, height, m;
        }
        var lastBlock := latestBlocks[|latestBlocks| - 1];
        latestBlocks := latestBlocks[..|latestBlocks| - 1];
        assert lastBlock == window[m - 1] && latestBlocks == window[..m - 1];
        if prevHash.None? {
          NoneStays(node, newBlock.prev, n - m);
          return false, reorged, height, m;
        }
        height := height - 1;
        if lastBlock.hash == prevHash.value {
          latestBlocks := latestBlocks + [lastBlock];
          m := m - 1;
          assert Meets(window, newBlock.prev, node, m);
          return true, reorged, height, m;
        }
        AncestorStep(node, newBlock.prev, n - m);
        if prevHash.value !in node {
          NoneStays(node, newBlock.prev, n - m + 1);
          return false, reorged, height, m;
        }
        prevHash := node[prevHash.value].prev;
        WaitingSnoc(queue, window, m);
        reorged := reorged + Waiting(queue, lastBlock.txs);
        m := m - 1;
      }
    }

    /**
     `handle_reorg`. It succeeds exactly when some step of the walk meets the window; then the
     blocks after the meeting point are dropped and their waiting transactions reported.
     */
    method HandleReorg(newBlock: Block, node: Node) returns (r: Outcome, ghost m: nat)
      modifies this`queue, this`latestBlocks, this`sent
      ensures Reorganized(newBlock, node, r.Handled?, m, old(latestBlocks), latestBlocks, old(queue), queue, old(sent), sent)
      ensures old(ReportsHanded()) ==> ReportsHanded()
    {
      hide Meets, Waiting, WaitingBackwards;
      var found, reorged, height;
      found, reorged, height, m := WalkBack(newBlock, node);
      if !found {
        return Failed, m;
      }
      BackwardsWithin(queue, old(latestBlocks)[m + 1..]);
      RemoveFromQueue(reorged);
      sent := sent + [Reorganization(reorged, height)];
      r := Handled;
    }

    /** `new_confirmed_txs`. */
    method NewConfirmedTxs(txids: seq<Txid>)
      modifies this`queue, this`sent
      ensures queue == Without(old(queue), txids) && sent == old(sent) + [Confirmed(txids)]
      ensures old(ReportsHanded()) && AllIn(txids, handed) ==> ReportsHanded()
    {
      RemoveFromQueue(txids);
      sent := sent + [Confirmed(txids)];
    }

    /** `extract_waiting_txs_from_block`. */
    method ExtractWaitingTxs(block: BlockInfo) returns (txids: seq<Txid>)
      ensures txids == Waiting(queue, block.txs)
    {
      txids := [];
      assert block.txs[0..] == block.txs;
      for i := 0 to |block.txs|
        invariant txids + Waiting(queue, block.txs[i..]) == Waiting(queue, block.txs)
      {
        assert block.txs[i..][1..] == block.txs[i + 1..];
        if block.txs[i] in queue {
          txids := txids + [block.txs[i]];
        }
      }
    }

    /** Between handlers: the window is linked and shorter than the required depth. */
    ghost predicate Valid(node: Node)
      reads this
    {
      Linked(latestBlocks, node) && |latestBlocks| < confirmationsNumber
    }

    /**
     `handle_new_block`. A block that extends the window is appended; once the window has the
     required depth its oldest block is confirmed and leaves it. Any other block is a reorg. The
     window stays linked unless a block without parent is fed to a window that is not empty.
     */
    method HandleNewBlock(block: Block, node: Node) returns (r: Outcome, ghost extended: bool, ghost m: nat)
      requires Valid(node) && block.hash in node && node[block.hash] == block
      modifies this`queue, this`latestBlocks, this`sent
      ensures |latestBlocks| < confirmationsNumber
      ensures (block.prev.None? ==> old(latestBlocks) == []) ==> Valid(node)
      ensures old(ReportsHanded()) ==> ReportsHanded()
      ensures extended == Extends(old(latestBlocks), block)
      ensures extended ==>
        var full := old(latestBlocks) + [Info(block)];
        var mined := Waiting(old(queue), block.txs);
        var deep := |full| == confirmationsNumber;
        var confirmed := Waiting(old(queue), full[0].txs);
        && r.Handled? && (Linked(full, node) <==> block.prev.Some? || old(latestBlocks) == [])
        && State(queue, latestBlocks, sent) == Fed(State(old(queue), old(latestBlocks), old(sent)), block, confirmationsNumber)
        && latestBlocks == (if deep then full[1..] else full)
        && queue == (if deep && confirmed != [] then Without(old(queue), confirmed) else old(queue))
        && sent == old(sent) + (if mined == [] then [] else [Mined(mined)])
                             + (if deep && confirmed != [] then [Confirmed(confirmed)] else [])
      ensures !extended ==>
        Reorganized(block, node, r.Handled?, m, old(latestBlocks), latestBlocks, old(queue), queue, old(sent), sent)
    {
      hide Waiting, WaitingBackwards, Meets;
      if block.prev.Some? && latestBlocks != [] && latestBlocks[|latestBlocks| - 1].hash != block.prev.value {
        extended := false;
        r, m := HandleReorg(block, node);
        LinkedPrefix(old(latestBlocks), node, |latestBlocks|);
        return;
      }
      extended, m := true, 0;
      var info := Info(block);
      LinkedMore(latestBlocks, node, block);
      var mined := ExtractWaitingTxs(info);
      WaitingWithin(queue, block.txs);
      latestBlocks := latestBlocks + [info];
      if mined != [] {
        sent := sent + [Mined(mined)];
      }
      if |latestBlocks| == confirmationsNumber {
        var confirmedBlock := latestBlocks[0];
        latestBlocks := latestBlocks[1..];
        var confirmed := ExtractWaitingTxs(confirmedBlock);
        WaitingWithin(queue, confirmedBlock.txs);
        if confirmed != [] {
          NewConfirmedTxs(confirmed);
        } else {
          assert Without(queue, []) == queue;
        }
      }
      r := Handled;
    }

    /** Answer of the node about a transaction: unknown, failed, or with its confirmations if mined. */
    method HandleTxToConfirm(txid: Txid, now: nat, info: TxAnswer) returns (r: Outcome)
      modifies this`queue, this`sent, this`handed
      ensures r.Failed? <==> info.Error?
      ensures handed == old(handed) + {txid} && (old(ReportsHanded()) ==> ReportsHanded())
      ensures var queued := if txid in old(queue) then old(queue) else old(queue)[txid := now];
              if info.Known? && info.confirmations.Some? then
                var deep := info.confirmations.value >= confirmationsNumber;
                && sent == old(sent) + [Mined([txid])] + (if deep then [Confirmed([txid])] else [])
                && queue == (if deep then Without(queued, [txid]) else queued)
              else
                sent == old(sent) && queue == queued
    {
      handed := handed + {txid};
      if txid !in queue {
        queue := queue[txid := now];
      }
      match info
      case Error => return Failed;
      case Unknown => return Handled;
      case Known(confirmations) =>
        if confirmations.Some? {
          sent := sent + [Mined([txid])];
          if confirmations.value >= confirmationsNumber {
            NewConfirmedTxs([txid]);
          }
        }
        r := Handled;
    }
  }

  /**
   Effect of a reorg. It is handled exactly when some step of the walk meets the window. Then the
   last meeting point becomes the end of the window, the waiting transactions of the dropped
   blocks leave the queue and are reported, newest block first, with the height of that point.
   */
  ghost predicate Reorganized(b: Block, node: Node, handled: bool, m: nat, window: seq<BlockInfo>, window': seq<BlockInfo>,
                              queue: map<Txid, nat>, queue': map<Txid, nat>, sent: seq<Message>, sent': seq<Message>) {
    && window' <= window
    && (handled <==> exists i :: 0 <= i < |window| && Meets(window, b.prev, node, i))
    && (!handled ==> queue' == queue && sent' == sent)
    && (handled ==>
          && m < |window| && Meets(window, b.prev, node, m)
          && (forall i :: m < i < |window| ==> !Meets(window, b.prev, node, i))
          && window' == window[..m + 1]
          && var reorged := WaitingBackwards(queue, window[m + 1..]);
             queue' == Without(queue, reorged) && sent' == sent + [Reorganization(reorged, b.height - (|window| - m))])
  }

  /** Walking back from the new block meets the window at its `m`-th block. */
  ghost predicate Meets(window: seq<BlockInfo>, prev: Option<Hash>, node: Node, m: nat)
    requires m < |window|
  {
    Ancestor(node, prev, |window| - 1 - m) == Some(window[m].hash)
  }

  lemma WalkStart(node: Node, prev: Option<Hash>, queue: map<Txid, nat>, window: seq<BlockInfo>)
    ensures Ancestor(node, prev, 0) == prev && WaitingBackwards(queue, window[|window|..]) == []
    ensures window[..|window|] == window
  {
  }

  lemma NoneStays(node: Node, prev: Option<Hash>, k: nat)
    requires Ancestor(node, prev, k).None?
    ensures forall i :: k <= i ==> Ancestor(node, prev, i).None?
  {
    forall i | k <= i
      ensures Ancestor(node, prev, i).None?
    {
      NoneLater(node, prev, k, i);
    }
  }

  lemma {:induction false} NoneLater(node: Node, prev: Option<Hash>, k: nat, i: nat)
    requires Ancestor(node, prev, k).None? && k <= i
    ensures Ancestor(node, prev, i).None?
    decreases i
  {
    if i > k {
      NoneLater(node, prev, k, i - 1);
      AncestorStep(node, prev, i - 1);
    }
  }

  // ---- What is reported ----

  lemma {:induction false} WaitingExactly(queue: map<Txid, nat>, txs: seq<Txid>)
    ensures forall t :: t in Waiting(queue, txs) <==> t in txs && t in queue
  {
    if txs != [] {
      WaitingExactly(queue, txs[1..]);
      assert txs == [txs[0]] + txs[1..];
    }
  }

  lemma WaitingWithin(queue: map<Txid, nat>, txs: seq<Txid>)
    ensures AllIn(Waiting(queue, txs), queue.Keys)
  {
    WaitingExactly(queue, txs);
  }

  lemma BackwardsWithin(queue: map<Txid, nat>, blocks: seq<BlockInfo>)
    ensures AllIn(WaitingBackwards(queue, blocks), queue.Keys)
  {
    forall t | t in WaitingBackwards(queue, blocks)
      ensures t in queue
    {
      ReportedExactly(queue, blocks, t);
    }
  }

  /** A reorg reports a transaction exactly when it waits and is in a dropped block. */
  lemma {:induction false} ReportedExactly(queue: map<Txid, nat>, blocks: seq<BlockInfo>, t: Txid)
    ensures t in WaitingBackwards(queue, blocks) <==> t in queue && exists i :: 0 <= i < |blocks| && t in blocks[i].txs
  {
    if blocks != [] {
      var k := |blocks| - 1;
      ReportedExactly(queue, blocks[..k], t);
      WaitingExactly(queue, blocks[k].txs);
      hide Waiting;
      if i :| 0 <= i < |blocks| && t in blocks[i].txs {
        assert i < k ==> blocks[..k][i] == blocks[i];
      }
      if i :| 0 <= i < k && t in blocks[..k][i].txs {
        assert t in blocks[i].txs;
      }
    }
  }

  /** The window of a new block that confirms another: `n` linked blocks, the confirmed one first. */
  lemma ConfirmedDepth(full: seq<BlockInfo>, node: Node, n: nat, k: nat)
    requires Linked(full, node) && |full| == n && Consistent(node) && k < n
    ensures node[full[k].hash].height == node[full[0].hash].height + k
  {
    if k > 0 {
      ConfirmedDepth(full, node, n, k - 1);
    }
  }

  // ---- Heights ----

  lemma {:induction false} AncestorHeight(node: Node, b: Block, k: nat)
    requires Consistent(node) && b.hash in node && node[b.hash] == b
    ensures var a := Ancestor(node, b.prev, k);
            a.Some? && a.value in node ==> node[a.value].height == b.height - (k + 1)
  {
    if k > 0 {
      AncestorHeight(node, b, k - 1);
      AncestorStep(node, b.prev, k - 1);
    }
  }

  ghost predicate IsAncestor(node: Node, b: Block, h: Hash) {
    exists k :: Ancestor(node, b.prev, k) == Some(h)
  }

  /** The window ends one height below the new block. */
  ghost predicate Aligned(window: seq<BlockInfo>, node: Node, b: Block) {
    forall i :: 0 <= i < |window| ==>
      window[i].hash in node && node[window[i].hash].height == b.height - (|window| - i)
  }

  /** With aligned heights a reorg is handled exactly when the fork point is still in the window. */
  lemma MeetsIffForkPoint(window: seq<BlockInfo>, node: Node, b: Block)
    requires Consistent(node) && b.hash in node && node[b.hash] == b && Aligned(window, node, b)
    ensures (exists i :: 0 <= i < |window| && Meets(window, b.prev, node, i))
       <==> (exists i :: 0 <= i < |window| && IsAncestor(node, b, window[i].hash))
  {
    hide Ancestor;
    forall i | 0 <= i < |window|
      ensures Meets(window, b.prev, node, i) <==> IsAncestor(node, b, window[i].hash)
    {
      if IsAncestor(node, b, window[i].hash) {
        var k :| Ancestor(node, b.prev, k) == Some(window[i].hash);
        AncestorHeight(node, b, k);
        assert k == |window| - 1 - i;
      }
    }
  }

  // ---- The indexer ----

  /** The best chain of the node by height. */
  ghost predicate BestChain(active: seq<Hash>, node: Node) {
    && Consistent(node)
    && forall h :: 0 <= h < |active| ==>
         && active[h] in node && node[active[h]].height == h
         && node[active[h]].prev == (if h == 0 then None else Some(active[h - 1]))
  }

  class Indexer {
    var confirmedHeight: nat
    var confirmedHash: Option<Hash>

    /** `handle_reorganization`: fails when the node has no block at that height. */
    method HandleReorganization(height: nat, active: seq<Hash>) returns (r: Outcome)
      modifies this
      ensures confirmedHeight == height
      ensures r.Handled? <==> height < |active|
      ensures confirmedHash == if r.Handled? then Some(active[height]) else old(confirmedHash)
    {
      confirmedHeight := height;
      if height >= |active| {
        return Failed;
      }
      confirmedHash := Some(active[height]);
      r := Handled;
    }

    /** `handle_new_blocks`: the next block to index, if there is one. */
    method HandleNewBlocks(active: seq<Hash>, node: Node) returns (r: Outcome, next: Option<Block>)
      requires active != [] && forall h :: 0 <= h < |active| ==> active[h] in node && node[active[h]].hash == active[h] && node[active[h]].height == h
      modifies this
      ensures r.Failed? <==> |active| - 1 < confirmedHeight
      ensures next.Some? <==> r.Handled? && old(confirmedHeight) + 1 < |active| && old(confirmedHash) != Some(active[old(confirmedHeight) + 1])
      ensures next.Some? ==>
        && next.value == node[active[old(confirmedHeight) + 1]]
        && confirmedHeight == old(confirmedHeight) + 1 && confirmedHash == Some(next.value.hash)
      ensures next.None? ==> confirmedHeight == old(confirmedHeight) && confirmedHash == old(confirmedHash)
    {
      next := None;
      if |active| - 1 == confirmedHeight {
        return Handled, None;
      }
      if confirmedHeight + 1 >= |active| {
        return Failed, None;
      }
      var block := node[active[confirmedHeight + 1]];
      if confirmedHash == Some(block.hash) {
        return Handled, None;
      }
      confirmedHeight, confirmedHash := block.height, Some(block.hash);
      return Handled, Some(block);
    }
  }

  lemma {:induction false} ActiveAncestors(active: seq<Hash>, node: Node, b: Block, k: nat)
    requires BestChain(active, node) && b.height < |active| && active[b.height] == b.hash && node[b.hash] == b
    requires k < b.height
    ensures Ancestor(node, b.prev, k) == Some(active[b.height - (k + 1)])
  {
    if k > 0 {
      ActiveAncestors(active, node, b, k - 1);
      AncestorStep(node, b.prev, k - 1);
    }
  }

  /** The walk from a block on the best chain ends at genesis. */
  lemma NoAncestorBeyond(active: seq<Hash>, node: Node, b: Block, k: nat)
    requires BestChain(active, node) && b.height < |active| && active[b.height] == b.hash && node[b.hash] == b
    requires k >= b.height
    ensures Ancestor(node, b.prev, k).None?
  {
    if b.height > 0 {
      ActiveAncestors(active, node, b, b.height - 1);
      AncestorStep(node, b.prev, b.height - 1);
    }
    NoneLater(node, b.prev, b.height, k);
  }

  /**
   After a handled reorg the window ends in the best-chain block at the reported height, and the
   block one above it, which the indexer fetches next, extends the window.
   */
  lemma NextBlockExtends(active: seq<Hash>, node: Node, b: Block, window: seq<BlockInfo>, m: nat)
    requires BestChain(active, node) && b.height < |active| && active[b.height] == b.hash && node[b.hash] == b
    requires m < |window| && Meets(window, b.prev, node, m)
    ensures var height := b.height - (|window| - m);
            && 0 <= height < |active| - 1
            && window[m].hash == active[height]
            && Extends(window[..m + 1], node[active[height + 1]])
            && node[active[height + 1]].prev.Some?
  {
    var k := |window| - 1 - m;
    if k < b.height {
      ActiveAncestors(active, node, b, k);
    } else {
      NoAncestorBeyond(active, node, b, k);
    }
  }

  /**
   A reorg from its detection to the next block: the confirmator reports, the indexer goes back
   and fetches a block, and that block extends the window the confirmator kept.
   */
  method ReorgRoundTrip(confirmator: TxConfirmator, indexer: Indexer, b: Block, active: seq<Hash>, node: Node)
    returns (r: Outcome, next: Option<Block>)
    requires BestChain(active, node) && b.height < |active| && active[b.height] == b.hash && node[b.hash] == b
    requires confirmator.Valid(node) && b.prev.Some? && !Extends(confirmator.latestBlocks, b)
    modifies confirmator, indexer
    ensures r.Handled? <==>
      exists i :: 0 <= i < |old(confirmator.latestBlocks)| && Meets(old(confirmator.latestBlocks), b.prev, node, i)
    ensures confirmator.Valid(node)
    ensures r.Handled? ==>
      && next.Some? && Extends(confirmator.latestBlocks, next.value) && next.value.height <= b.height
      && indexer.confirmedHeight == next.value.height && indexer.confirmedHash == Some(next.value.hash)
  {
    hide Meets, Ancestor;
    ghost var window := confirmator.latestBlocks;
    ghost var extended, m;
    r, extended, m := confirmator.HandleNewBlock(b, node);
    next := None;
    if r.Failed? {
      return;
    }
    NextBlockExtends(active, node, b, window, m);
    var report := confirmator.sent[|confirmator.sent| - 1];
    var back := indexer.HandleReorganization(report.height, active);
    var fetched;
    fetched, next := indexer.HandleNewBlocks(active, node);
  }
}
