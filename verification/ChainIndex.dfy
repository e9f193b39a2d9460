/** The block-hash index and the receipt history as statements about the tip's own ancestry. */
module ChainIndex {
  import opened Types
  import opened Chains
  import opened Validation
  import opened Snapshots
  import opened Transitions
  import opened Changesets
  import opened Coherence

  /** Every hash indexed below the height `top` is the hash of the anchor's ancestor there. */
  ghost predicate IndexAgreesBelow(node: Node, index: map<nat, B256>, anchor: B256, top: nat)
    requires WellFormed(node) && top <= Number(node, anchor) + 1
  {
    forall n :: n in index && n < top ==> index[n] == Ancestor(node, anchor, n)
  }

  /** Every hash indexed at or below the anchor is the hash of its ancestor there. (A client may ask for
      higher numbers, and what it is told is indexed too.) */
  ghost predicate IndexAgrees(node: Node, index: map<nat, B256>, anchor: B256)
    requires WellFormed(node)
  {
    IndexAgreesBelow(node, index, anchor, Number(node, anchor) + 1)
  }

  /** Every remembered block's receipts are those of the anchor's ancestor at that height. */
  ghost predicate ReceiptsAgree(node: Node, q: seq<BlockReceipts>, anchor: B256)
    requires WellFormed(node)
  {
    forall e :: e in q ==> e.block <= Number(node, anchor) && TellsOf(e, node.block(Ancestor(node, anchor, e.block)))
  }

  /** The entry is that block's: its number, its receipts and the hashes of its transactions. */
  predicate TellsOf(e: BlockReceipts, b: Block) {
    e.block == b.number && e.receipts == b.receipts && e.txHashes == b.txHashes
  }

  /** What a snapshot remembers is about its anchor; with no anchor it remembers nothing. */
  ghost predicate Remembers(node: Node, s: Snapshot, anchor: Option<B256>)
    requires WellFormed(node)
  {
    && (s.blockHash != ZERO_HASH ==> anchor == Some(s.blockHash))
    && match anchor
       case Some(h) => IndexAgrees(node, s.blockHashes, h) && ReceiptsAgree(node, s.receiptsHistory, h)
       case None => s.blockHashes == map[] && s.receiptsHistory == []
  }

  /** A flushed block-hash cache answers for the ancestors of the block it is tagged with. */
  ghost predicate HashCacheTrue(node: Node, cache: TaggedCache<nat, B256>)
    requires WellFormed(node)
  {
    forall n :: n in cache.data ==>
      cache.blockHash != ZERO_HASH
      && (n <= Number(node, cache.blockHash) ==> cache.data[n] == Ancestor(node, cache.blockHash, n))
  }

  /** The notification stays on the chain the snapshot remembers: a commit accepted without validation
      descends from the anchor and what is indexed in the hole it leaps over is right, a reorg's two chains
      fork at one block that the anchor descends from, and a reverted chain grew on an ancestor of the
      anchor. Validated commits need nothing. */
  ghost predicate Connected(node: Node, base: Snapshot, n: Notification, caches: Caches, anchor: Option<B256>)
    requires WellFormed(node)
  {
    match n
    case ChainCommitted(c) =>
      CommitVerdict(base, c).CommitAcceptAny? && anchor.Some? ==>
        Descends(node, Tip(c).hash, anchor.value) && HoleAgrees(node, Merged(base, caches).blockHashes, c, anchor.value)
    case ChainReorged(o, w) =>
      Accepted(base, n) ==>
        && First(w).parentHash == First(o).parentHash
        && (ReorgVerdict(base, o).ReorgAcceptAny? && anchor.Some?
            ==> Descends(node, anchor.value, First(o).parentHash))
    case ChainReverted(c) =>
      anchor.Some? ==> Descends(node, anchor.value, First(c).parentHash)
  }

  /** What is indexed strictly between the anchor and the first block of the chain is right for the chain. */
  ghost predicate HoleAgrees(node: Node, index: map<nat, B256>, c: Chain, anchor: B256)
    requires WellFormed(node)
  {
    forall n :: n in index && Number(node, anchor) < n < First(c).number && n <= Number(node, Tip(c).hash) ==>
      index[n] == Ancestor(node, Tip(c).hash, n)
  }

  lemma IndexMoves(node: Node, index: map<nat, B256>, q: seq<BlockReceipts>, from: B256, to: B256)
    requires WellFormed(node) && Descends(node, to, from)
    requires IndexAgrees(node, index, from) && ReceiptsAgree(node, q, from)
    ensures IndexAgreesBelow(node, index, to, Number(node, from) + 1) && ReceiptsAgree(node, q, to)
  {
    forall n: nat | n <= Number(node, from)
      ensures Ancestor(node, to, n) == Ancestor(node, from, n)
    {
      AncestorOfAncestor(node, to, Number(node, from), n);
    }
  }

  /** The entries at or below a height. */
  function Cut(index: map<nat, B256>, cutoff: nat): map<nat, B256> {
    map n | n in index && n <= cutoff :: index[n]
  }

  /** Cutting at an ancestor of the anchor leaves what is about that ancestor. */
  lemma IndexCuts(node: Node, index: map<nat, B256>, q: seq<BlockReceipts>, anchor: B256, root: B256)
    requires WellFormed(node) && Descends(node, anchor, root)
    requires IndexAgrees(node, index, anchor) && ReceiptsAgree(node, q, anchor)
    ensures IndexAgrees(node, Cut(index, Number(node, root)), root)
    ensures ReceiptsAgree(node, ReceiptsUpTo(q, Number(node, root)), root)
  {
    forall n: nat | n <= Number(node, root)
      ensures Ancestor(node, anchor, n) == Ancestor(node, root, n)
    {
      AncestorOfAncestor(node, anchor, Number(node, root), n);
    }
    UpToIsFilter(q, Number(node, root));
  }

  lemma {:induction false} UpToIsFilter(q: seq<BlockReceipts>, cutoff: nat)
    ensures forall e :: e in ReceiptsUpTo(q, cutoff) <==> e in q && e.block <= cutoff
    ensures |ReceiptsUpTo(q, cutoff)| <= |q|
    decreases |q|
  {
    if q == [] {
    } else {
      UpToIsFilter(q[..|q| - 1], cutoff);
      assert q == q[..|q| - 1] + [q[|q| - 1]];
    }
  }

  /** Blocks are indexed under their own numbers, and nothing else is touched. */
  lemma {:induction false} IndexedEntries(node: Node, index: map<nat, B256>, blocks: seq<Block>, k: nat, n: nat)
    requires WellFormed(node) && Linked(node, blocks) && k <= |blocks| && blocks != []
    ensures var after := Indexed(index, blocks[..k]);
            if blocks[0].number <= n < blocks[0].number + k
            then n in after && after[n] == blocks[n - blocks[0].number].hash
            else (n in after <==> n in index) && (n in after ==> after[n] == index[n])
    decreases k
  {
    if k == 0 {
      assert blocks[..0] == [];
    } else {
      IndexedEntries(node, index, blocks, k - 1, n);
      assert blocks[..k][..k - 1] == blocks[..k - 1];
      LinkedNumbers(node, blocks, k - 1);
    }
  }

  /** Below the blocks the index is as it was, and from them up to the tip it is right. */
  lemma {:induction false} IndexedEntry(node: Node, index: map<nat, B256>, blocks: seq<Block>, tip: B256, n: nat)
    requires WellFormed(node) && Linked(node, blocks) && blocks != [] && tip == blocks[|blocks| - 1].hash
    requires n <= Number(node, tip)
    ensures var after := Indexed(index, blocks);
            if n < blocks[0].number then (n in after <==> n in index) && (n in after ==> after[n] == index[n])
            else n in after && after[n] == Ancestor(node, tip, n)
  {
    LinkedNumbers(node, blocks, |blocks| - 1);
    IndexedEntries(node, index, blocks, |blocks|, n);
    assert blocks[..|blocks|] == blocks;
    if n >= blocks[0].number {
      LinkedNumbers(node, blocks, n - blocks[0].number);
      LinkedAncestors(node, blocks, n - blocks[0].number, |blocks| - 1);
    }
  }

  /** Applying a chain's blocks to an index right below them gives an index right up to the chain's tip, and
      only to such an index. */
  lemma {:induction false} IndexedAgrees(node: Node, index: map<nat, B256>, blocks: seq<Block>, tip: B256)
    requires WellFormed(node) && Linked(node, blocks) && blocks != [] && tip == blocks[|blocks| - 1].hash
    ensures blocks[0].number <= Number(node, tip)
    ensures IndexAgrees(node, Indexed(index, blocks), tip) <==> IndexAgreesBelow(node, index, tip, blocks[0].number)
  {
    var after, low := Indexed(index, blocks), blocks[0].number;
    LinkedNumbers(node, blocks, |blocks| - 1);
    forall n: nat | n <= Number(node, tip)
      ensures if n < low then (n in after <==> n in index) && (n in after ==> after[n] == index[n])
              else n in after && after[n] == Ancestor(node, tip, n)
    {
      IndexedEntry(node, index, blocks, tip, n);
    }
    assert forall n :: n in index && n < low ==> n in after;
  }

  /** Pushing and indexing a chain's blocks keeps agreement with the chain's tip. */
  lemma {:induction false} BlocksAgree(node: Node, index: map<nat, B256>, q: seq<BlockReceipts>, blocks: seq<Block>,
                                       tip: B256)
    requires WellFormed(node) && Linked(node, blocks) && blocks != [] && tip == blocks[|blocks| - 1].hash
    requires ReceiptsAgree(node, q, tip) && blocks[0].number <= Number(node, tip) + 1
    requires IndexAgreesBelow(node, index, tip, blocks[0].number)
    ensures IndexAgrees(node, Indexed(index, blocks), tip)
    ensures ReceiptsAgree(node, Pushed(q, blocks), tip)
  {
    IndexedAgrees(node, index, blocks, tip);
    forall e | e in AllReceipts(blocks)
      ensures e.block <= Number(node, tip) && TellsOf(e, node.block(Ancestor(node, tip, e.block)))
    {
      var i :| 0 <= i < |blocks| && e == ReceiptsOf(blocks[i]);
      LinkedAncestors(node, blocks, i, |blocks| - 1);
    }
    assert forall e :: e in Bounded(q + AllReceipts(blocks)) ==> e in q || e in AllReceipts(blocks);
  }

  /** The merged index and receipts are still about the block the snapshot stood on. */
  lemma MergedRemembers(node: Node, base: Snapshot, caches: Caches, from: B256)
    requires WellFormed(node) && Remembers(node, base, Some(from)) && HashCacheTrue(node, caches.blockHashes)
    ensures var merged := Merged(base, caches);
            IndexAgrees(node, merged.blockHashes, from) && ReceiptsAgree(node, merged.receiptsHistory, from)
  {
  }

  /** An accepted commit descends from what the snapshot stood on, and leaves only right entries below it. */
  lemma CommitConnects(node: Node, base: Snapshot, c: Chain, caches: Caches, from: B256)
    requires WellFormed(node) && AtRealBlock(node, base) && Linked(node, c.blocks)
    requires base.blockHash != ZERO_HASH ==> from == base.blockHash
    requires Accepted(base, ChainCommitted(c)) && Connected(node, base, ChainCommitted(c), caches, Some(from))
    ensures Descends(node, Tip(c).hash, from)
    ensures First(c).number <= Number(node, from) + 1
            || HoleAgrees(node, Merged(base, caches).blockHashes, c, from)
  {
    if base.blockHash != ZERO_HASH && !base.stale {
      CommitAcceptedIffConnected(node, CurrentState(base.block, base.blockHash, false), c);
      ConnectedStartsLow(node, base.blockHash, c);
    }
  }

  /** What an accepted commit builds on is right for the new tip, below the chain's first block. */
  lemma {:induction false} CommitBaseAgrees(node: Node, base: Snapshot, c: Chain, caches: Caches, anchor: Option<B256>)
    requires WellFormed(node) && Remembers(node, base, anchor) && AtRealBlock(node, base)
    requires Linked(node, c.blocks) && HashCacheTrue(node, caches.blockHashes)
    requires Accepted(base, ChainCommitted(c)) && Connected(node, base, ChainCommitted(c), caches, anchor)
    ensures First(c).number <= Number(node, Tip(c).hash)
    ensures var merged := Merged(base, caches);
            && IndexAgreesBelow(node, merged.blockHashes, Tip(c).hash, First(c).number)
            && ReceiptsAgree(node, merged.receiptsHistory, Tip(c).hash)
  {
    LinkedNumbers(node, c.blocks, |c.blocks| - 1);
    if anchor.Some? {
      var merged := Merged(base, caches);
      MergedRemembers(node, base, caches, anchor.value);
      CommitConnects(node, base, c, caches, anchor.value);
      IndexMoves(node, merged.blockHashes, merged.receiptsHistory, anchor.value, Tip(c).hash);
    }
  }

  /** A chain that connects to a block starts at most one above it. */
  lemma ConnectedStartsLow(node: Node, from: B256, c: Chain)
    requires WellFormed(node) && Linked(node, c.blocks)
    requires First(c).parentHash == from || Member(c.blocks, from)
    ensures First(c).number <= Number(node, from) + 1
  {
    LinkedRoot(node, c.blocks, 0);
    if i :| 0 <= i < |c.blocks| && c.blocks[i].hash == from {
      LinkedNumbers(node, c.blocks, i);
    }
  }

  lemma {:induction false} CommitMemory(base: Snapshot, caches: Caches, changes: ExecutionChanges, blocks: seq<Block>,
                                        tip: ChainTip)
    requires blocks != []
    ensures var next, merged := CommitState(base, caches, changes, blocks, tip), Merged(base, caches);
            && next.blockHashes == Indexed(merged.blockHashes, blocks)
            && next.receiptsHistory == Pushed(merged.receiptsHistory, blocks)
            && next.blockHash == tip.hash
  {
    SomeBlocks(ApplyExecution(Merged(base, caches), changes), blocks);
  }

  lemma CommitRemembers(node: Node, base: Snapshot, c: Chain, caches: Caches, anchor: Option<B256>)
    requires WellFormed(node) && Remembers(node, base, anchor) && AtRealBlock(node, base)
    requires Linked(node, c.blocks) && HashCacheTrue(node, caches.blockHashes)
    requires Accepted(base, ChainCommitted(c)) && Connected(node, base, ChainCommitted(c), caches, anchor)
    ensures Remembers(node, NextSnapshot(base, ChainCommitted(c), caches), Some(Tip(c).hash))
  {
    var merged := Merged(base, caches);
    CommitBaseAgrees(node, base, c, caches, anchor);
    CommitMemory(base, caches, ChangesOf(c), c.blocks, TipOf(c));
    BlocksAgree(node, merged.blockHashes, merged.receiptsHistory, c.blocks, Tip(c).hash);
  }

  /** A commit accepted over a hole leaves a right index exactly when what was indexed in the hole is right. */
  lemma LeapAgreesIffHoleAgrees(node: Node, base: Snapshot, c: Chain, caches: Caches, anchor: B256)
    requires WellFormed(node) && Remembers(node, base, Some(anchor)) && AtRealBlock(node, base)
    requires Linked(node, c.blocks) && HashCacheTrue(node, caches.blockHashes)
    requires CommitVerdict(base, c).CommitAcceptAny? && Descends(node, Tip(c).hash, anchor)
    ensures IndexAgrees(node, NextSnapshot(base, ChainCommitted(c), caches).blockHashes, Tip(c).hash)
            <==> HoleAgrees(node, Merged(base, caches).blockHashes, c, anchor)
  {
    var merged := Merged(base, caches);
    assert IndexAgrees(node, merged.blockHashes, anchor) && ReceiptsAgree(node, merged.receiptsHistory, anchor);
    IndexMoves(node, merged.blockHashes, merged.receiptsHistory, anchor, Tip(c).hash);
    IndexedAgrees(node, merged.blockHashes, c.blocks, Tip(c).hash);
  }

  lemma CutRemembers(node: Node, base: Snapshot, anchor: Option<B256>, root: B256)
    requires WellFormed(node) && Remembers(node, base, anchor) && (anchor.Some? ==> Descends(node, anchor.value, root))
    ensures IndexAgrees(node, Cut(base.blockHashes, Number(node, root)), root)
    ensures ReceiptsAgree(node, ReceiptsUpTo(base.receiptsHistory, Number(node, root)), root)
  {
    if anchor.Some? {
      IndexCuts(node, base.blockHashes, base.receiptsHistory, anchor.value, root);
    }
  }

  lemma HistoryParts(current: Snapshot, cutoff: nat, s: Snapshot)
    requires s.receiptsHistory == [] && s.blockHashes == map[]
    ensures var h := HistoryBefore(current, cutoff, s);
            && h.receiptsHistory == ReceiptsUpTo(current.receiptsHistory, cutoff)
            && h.blockHashes == Cut(current.blockHashes, cutoff)
  {
  }

  lemma {:induction false} ReorgMemory(current: Snapshot, cutoff: nat, changes: ExecutionChanges, blocks: seq<Block>,
                                       tip: ChainTip)
    requires blocks != []
    ensures var next := ReorgState(current, cutoff, changes, blocks, tip);
            var index := Cut(current.blockHashes, cutoff);
            && next.blockHashes == Indexed(index, blocks)
            && next.receiptsHistory == Pushed(ReceiptsUpTo(current.receiptsHistory, cutoff), blocks)
            && next.blockHash == tip.hash && next.block == tip.number
  {
    HistoryParts(current, cutoff, EMPTY_SNAPSHOT);
    SomeBlocks(ApplyExecution(HistoryBefore(current, cutoff, EMPTY_SNAPSHOT), changes), blocks);
  }

  /** The block a reorg cuts at is an ancestor of what the snapshot remembers. */
  lemma ReorgCutsAtAncestor(node: Node, base: Snapshot, o: Chain, w: Chain, caches: Caches, anchor: B256)
    requires WellFormed(node) && AtRealBlock(node, base) && (base.blockHash != ZERO_HASH ==> anchor == base.blockHash)
    requires Linked(node, o.blocks) && Linked(node, w.blocks)
    requires Accepted(base, ChainReorged(o, w)) && Connected(node, base, ChainReorged(o, w), caches, Some(anchor))
    ensures Descends(node, anchor, First(o).parentHash)
  {
    if base.blockHash != ZERO_HASH {
      ReorgAcceptedIffOnOldChain(node, CurrentState(base.block, base.blockHash, false), o, w);
    }
  }

  lemma {:induction false} ReorgRemembers(node: Node, base: Snapshot, o: Chain, w: Chain, caches: Caches,
                                          anchor: Option<B256>)
    requires WellFormed(node) && Remembers(node, base, anchor) && AtRealBlock(node, base)
    requires Linked(node, o.blocks) && Linked(node, w.blocks)
    requires Accepted(base, ChainReorged(o, w)) && Connected(node, base, ChainReorged(o, w), caches, anchor)
    ensures Remembers(node, ReorgState(base, Below(o), ChangesOf(w), w.blocks, TipOf(w)), Some(Tip(w).hash))
  {
    var root, tip, cutoff := First(o).parentHash, Tip(w).hash, Below(o);
    LinkedRoot(node, o.blocks, 0);
    LinkedRoot(node, w.blocks, |w.blocks| - 1);
    if anchor.Some? {
      ReorgCutsAtAncestor(node, base, o, w, caches, anchor.value);
    }
    CutRemembers(node, base, anchor, root);
    var index := Cut(base.blockHashes, cutoff);
    var q := ReceiptsUpTo(base.receiptsHistory, cutoff);
    IndexMoves(node, index, q, root, tip);
    BlocksAgree(node, index, q, w.blocks, tip);
    ReorgMemory(base, cutoff, ChangesOf(w), w.blocks, TipOf(w));
  }

  lemma {:induction false} RevertRemembers(node: Node, base: Snapshot, c: Chain, caches: Caches, anchor: Option<B256>)
    requires WellFormed(node) && Remembers(node, base, anchor)
    requires Linked(node, c.blocks) && Connected(node, base, ChainReverted(c), caches, anchor)
    ensures Remembers(node, RevertState(base, Below(c)), NextAnchorAfterRevert(anchor, c))
  {
    LinkedRoot(node, c.blocks, 0);
    CutRemembers(node, base, anchor, First(c).parentHash);
    RevertParts(base, Below(c));
  }

  lemma RevertParts(current: Snapshot, cutoff: nat)
    ensures var v := RevertState(current, cutoff);
            && v.receiptsHistory == ReceiptsUpTo(current.receiptsHistory, cutoff)
            && v.blockHashes == Cut(current.blockHashes, cutoff)
            && v.block == cutoff && v.blockHash == ZERO_HASH && v.stale
  {
    HistoryParts(current, cutoff, EMPTY_SNAPSHOT.(stale := true, block := cutoff));
  }

  function NextAnchorAfterRevert(anchor: Option<B256>, c: Chain): Option<B256> {
    if anchor.Some? then Some(First(c).parentHash) else None
  }

  /** A remembered receipt list is found under its block's number and belongs to the canonical block
      there, even when overlapping commits have recorded the block twice. */
  lemma ReceiptsAreCanonical(node: Node, s: Snapshot, b: nat)
    requires WellFormed(node) && s.blockHash != ZERO_HASH && Remembers(node, s, Some(s.blockHash))
    ensures var found := FirstReceipts(s.receiptsHistory, b);
            && (found.Some? <==> exists e :: e in s.receiptsHistory && e.block == b)
            && (found.Some? ==>
                  && b <= Number(node, s.blockHash) && found.value.block == b
                  && found.value.receipts == node.block(Ancestor(node, s.blockHash, b)).receipts
                  && found.value.txHashes == node.block(Ancestor(node, s.blockHash, b)).txHashes)
  {
  }

  /** The chain's last 64 blocks are remembered after it is applied. */
  lemma LastBlocksAreRecorded(h: seq<BlockReceipts>, front: seq<BlockReceipts>, blocks: seq<Block>, i: nat)
    requires h == Bounded(front + AllReceipts(blocks)) && i < |blocks| && |blocks| - i <= 64
    ensures exists e :: e in h && TellsOf(e, blocks[i])
  {
    var at := |h| - (|blocks| - i);
    assert h[at] == (front + AllReceipts(blocks))[|front| + i];
    assert h[at] in h && TellsOf(h[at], blocks[i]);
  }

  /** After an accepted commit or reorg on a connected run the receipts of each of the chain's last 64 blocks
      are found under its number, and are its own. */
  lemma AppliedBlocksAreFound(node: Node, base: Snapshot, n: Notification, caches: Caches, c: Chain, i: nat)
    requires WellFormed(node) && Linked(node, c.blocks)
    requires (n.ChainCommitted? && n.committed == c) || (n.ChainReorged? && n.new_ == c)
    requires Accepted(base, n) && i < |c.blocks| && |c.blocks| - i <= 64
    requires Remembers(node, NextSnapshot(base, n, caches), Some(Tip(c).hash))
    ensures var found := FirstReceipts(NextSnapshot(base, n, caches).receiptsHistory, c.blocks[i].number);
            && found.Some? && found.value.block == c.blocks[i].number
            && found.value.receipts == c.blocks[i].receipts && found.value.txHashes == c.blocks[i].txHashes
  {
    var next := NextSnapshot(base, n, caches);
    match n {
      case ChainCommitted(_) =>
        CommitMemory(base, caches, ChangesOf(c), c.blocks, TipOf(c));
        LastBlocksAreRecorded(next.receiptsHistory, Merged(base, caches).receiptsHistory, c.blocks, i);
      case ChainReorged(o, _) =>
        ReorgMemory(base, Below(o), ChangesOf(c), c.blocks, TipOf(c));
        LastBlocksAreRecorded(next.receiptsHistory, ReceiptsUpTo(base.receiptsHistory, Below(o)), c.blocks, i);
    }
    var e :| e in next.receiptsHistory && TellsOf(e, c.blocks[i]);
    LinkedAncestors(node, c.blocks, i, |c.blocks| - 1);
    assert c.blocks[i] == node.block(c.blocks[i].hash);
  }

  // ---------------------------------------------------------------------------------------------
  // The window

  /** Consecutive blocks, the last of them `top`. */
  ghost predicate Window(q: seq<BlockReceipts>, top: nat) {
    forall i :: 0 <= i < |q| ==> q[i].block + (|q| - 1 - i) == top
  }

  lemma {:induction false} UpToCutsWindow(q: seq<BlockReceipts>, top: nat, cutoff: nat)
    requires Window(q, top) && cutoff <= top
    ensures Window(ReceiptsUpTo(q, cutoff), cutoff)
    decreases |q|
  {
    if q == [] {
    } else {
      var front := q[..|q| - 1];
      assert q[|q| - 1].block == top;
      if cutoff == top {
        WholeWindow(q, top);
      } else {
        forall i | 0 <= i < |front|
          ensures front[i].block + (|front| - 1 - i) == top - 1
        {
          assert q[i].block + (|q| - 1 - i) == top;
        }
        UpToCutsWindow(front, top - 1, cutoff);
      }
    }
  }

  lemma {:induction false} WholeWindow(q: seq<BlockReceipts>, cutoff: nat)
    requires forall e :: e in q ==> e.block <= cutoff
    ensures ReceiptsUpTo(q, cutoff) == q
    decreases |q|
  {
    if q == [] {
    } else {
      assert q == q[..|q| - 1] + [q[|q| - 1]];
      WholeWindow(q[..|q| - 1], cutoff);
    }
  }

  lemma WindowExtends(node: Node, q: seq<BlockReceipts>, blocks: seq<Block>)
    requires WellFormed(node) && Linked(node, blocks) && blocks != [] && Window(q, blocks[0].number - 1)
    ensures Window(Bounded(q + AllReceipts(blocks)), blocks[|blocks| - 1].number)
  {
    var all := q + AllReceipts(blocks);
    forall i | 0 <= i < |all|
      ensures all[i].block + (|all| - 1 - i) == blocks[|blocks| - 1].number
    {
      LinkedNumbers(node, blocks, |blocks| - 1);
      if i >= |q| {
        LinkedNumbers(node, blocks, i - |q|);
      }
    }
  }

  /** The histories are within their depth. */
  predicate WithinDepth(s: Snapshot) {
    |s.receiptsHistory| <= RECEIPTS_HISTORY_DEPTH && |s.changedHistory| <= RECEIPTS_HISTORY_DEPTH
  }

  lemma {:induction false} ChangedUpToIsFilter(q: seq<BlockChangedAccounts>, cutoff: nat)
    ensures forall e :: e in ChangedUpTo(q, cutoff) <==> e in q && e.block <= cutoff
    ensures |ChangedUpTo(q, cutoff)| <= |q|
    decreases |q|
  {
    if q == [] {
    } else {
      ChangedUpToIsFilter(q[..|q| - 1], cutoff);
      assert q == q[..|q| - 1] + [q[|q| - 1]];
    }
  }

  lemma HistoryShorter(current: Snapshot, cutoff: nat, s: Snapshot)
    requires WithinDepth(current) && s.receiptsHistory == [] && s.changedHistory == []
    ensures WithinDepth(HistoryBefore(current, cutoff, s))
  {
    UpToIsFilter(current.receiptsHistory, cutoff);
    ChangedUpToIsFilter(current.changedHistory, cutoff);
  }

  /** A tip is recorded last in a history that stays within its depth. */
  lemma AtTipWithinDepth(s: Snapshot, changes: ExecutionChanges, blocks: seq<Block>, tip: ChainTip)
    requires WithinDepth(s)
    ensures var next := AtTip(ApplyBlocks(ApplyExecution(s, changes), blocks), changes, tip);
            WithinDepth(next) && RecordedAtTip(next)
  {
    var added := s.changedHistory + [BlockChangedAccounts(tip.number, SortedKeys(changes.accounts.Keys))];
    assert added[|added| - 1].block == tip.number;
  }

  predicate RecordedAtTip(s: Snapshot) {
    s.changedHistory != [] && s.changedHistory[|s.changedHistory| - 1].block == s.block
  }

  /** No notification takes a history past its depth, and an accepted one records its tip's changes last. */
  lemma NextWithinDepth(base: Snapshot, n: Notification, caches: Caches)
    requires WithinDepth(base)
    ensures WithinDepth(NextSnapshot(base, n, caches))
    ensures Accepted(base, n) ==> RecordedAtTip(NextSnapshot(base, n, caches))
  {
    match n
    case ChainCommitted(c) => AtTipWithinDepth(Merged(base, caches), ChangesOf(c), c.blocks, TipOf(c));
    case ChainReorged(o, w) =>
      HistoryShorter(base, Below(o), EMPTY_SNAPSHOT);
      AtTipWithinDepth(HistoryBefore(base, Below(o), EMPTY_SNAPSHOT), ChangesOf(w), w.blocks, TipOf(w));
    case ChainReverted(c) =>
      HistoryShorter(base, Below(c), EMPTY_SNAPSHOT.(stale := true, block := Below(c)));
  }

  /** The record of an applied chain: its tip's number and the accounts its outcome lists, ascending. */
  ghost predicate RecordsChain(e: BlockChangedAccounts, c: Chain) {
    && e.block == c.blocks[|c.blocks| - 1].number && Ascending(e.accounts)
    && forall a :: a in e.accounts <==> a in c.outcome.state
  }

  lemma LastIsFound(q: seq<BlockChangedAccounts>, x: BlockChangedAccounts)
    ensures var found := FirstChanged(Bounded(q + [x]), x.block);
            && found.Some?
            && ((forall e :: e in q ==> e.block != x.block) ==> found.value == x)
  {
    var all := Bounded(q + [x]);
    assert all[|all| - 1] == x;
    assert forall e :: e in all ==> e in q || e == x;
  }

  lemma {:induction false} ReorgChanges(base: Snapshot, cutoff: nat, changes: ExecutionChanges,
                                        blocks: seq<Block>, tip: ChainTip)
    ensures var record := BlockChangedAccounts(tip.number, SortedKeys(changes.accounts.Keys));
            ReorgState(base, cutoff, changes, blocks, tip).changedHistory
            == Bounded(ChangedUpTo(base.changedHistory, cutoff) + [record])
  {
    assert EMPTY_SNAPSHOT.changedHistory + ChangedUpTo(base.changedHistory, cutoff)
        == ChangedUpTo(base.changedHistory, cutoff);
  }

  /** After an accepted notification the changed accounts are found under the tip's number, and they are
      those its outcome lists unless the number was already recorded. */
  lemma {:induction false} TipChangesAreFound(base: Snapshot, n: Notification, caches: Caches, c: Chain)
    requires Accepted(base, n)
    requires (n.ChainCommitted? && n.committed == c) || (n.ChainReorged? && n.new_ == c)
    ensures var next := NextSnapshot(base, n, caches);
            var found := FirstChanged(next.changedHistory, next.block);
            && found.Some?
            && ((forall e :: e in base.changedHistory ==> e.block != next.block) ==> RecordsChain(found.value, c))
  {
    var record := BlockChangedAccounts(Tip(c).number, SortedKeys(ChangesOf(c).accounts.Keys));
    SortedKeysAscend(ChangesOf(c).accounts.Keys);
    assert RecordsChain(record, c);
    match n
    case ChainCommitted(_) =>
      LastIsFound(base.changedHistory, record);
    case ChainReorged(o, _) =>
      ReorgChanges(base, Below(o), ChangesOf(c), c.blocks, TipOf(c));
      ChangedUpToIsFilter(base.changedHistory, Below(o));
      LastIsFound(ChangedUpTo(base.changedHistory, Below(o)), record);
  }

  /** The notification extends, cuts back or replaces the chain without overlapping what is remembered. */
  ghost predicate NonOverlapping(base: Snapshot, n: Notification) {
    match n
    case ChainCommitted(c) => Accepted(base, n) ==> First(c).number == base.block + 1 || base.receiptsHistory == []
    case ChainReorged(o, w) => Accepted(base, n) ==> Below(o) <= base.block && First(w).number == First(o).number
    case ChainReverted(c) => Below(c) <= base.block
  }

  lemma CommitWindow(node: Node, current: Snapshot, caches: Caches, c: Chain)
    requires WellFormed(node) && Linked(node, c.blocks) && Window(current.receiptsHistory, First(c).number - 1)
    requires First(c).number > 0
    ensures var next := CommitState(current, caches, ChangesOf(c), c.blocks, TipOf(c));
            Window(next.receiptsHistory, next.block)
  {
    var next := CommitState(current, caches, ChangesOf(c), c.blocks, TipOf(c));
    assert next.receiptsHistory == Bounded(current.receiptsHistory + AllReceipts(c.blocks));
    WindowExtends(node, current.receiptsHistory, c.blocks);
  }

  lemma ReorgReceipts(current: Snapshot, cutoff: nat, changes: ExecutionChanges, blocks: seq<Block>, tip: ChainTip)
    requires blocks != []
    ensures var next := ReorgState(current, cutoff, changes, blocks, tip);
            && next.receiptsHistory == Bounded(ReceiptsUpTo(current.receiptsHistory, cutoff) + AllReceipts(blocks))
            && next.block == tip.number
  {
    HistoryParts(current, cutoff, EMPTY_SNAPSHOT);
  }

  lemma ReorgWindow(node: Node, current: Snapshot, cutoff: nat, changes: ExecutionChanges, w: Chain)
    requires WellFormed(node) && Linked(node, w.blocks) && First(w).number == cutoff + 1
    requires Window(current.receiptsHistory, current.block) && cutoff <= current.block
    ensures var next := ReorgState(current, cutoff, changes, w.blocks, TipOf(w));
            Window(next.receiptsHistory, next.block)
  {
    ReorgReceipts(current, cutoff, changes, w.blocks, TipOf(w));
    UpToCutsWindow(current.receiptsHistory, current.block, cutoff);
    WindowExtends(node, ReceiptsUpTo(current.receiptsHistory, cutoff), w.blocks);
  }

  lemma RevertWindow(current: Snapshot, cutoff: nat)
    requires Window(current.receiptsHistory, current.block) && cutoff <= current.block
    ensures var next := RevertState(current, cutoff); Window(next.receiptsHistory, next.block)
  {
    UpToCutsWindow(current.receiptsHistory, current.block, cutoff);
    HistoryParts(current, cutoff, EMPTY_SNAPSHOT.(stale := true, block := cutoff));
    assert RevertState(current, cutoff).block == cutoff;
  }

  /** Without overlaps the receipt history is a contiguous ascending window that ends at the snapshot's
      block, through commits, reorgs, reverts and going stale. */
  lemma NextWindow(node: Node, base: Snapshot, n: Notification, caches: Caches)
    requires WellFormed(node) && Window(base.receiptsHistory, base.block) && NonOverlapping(base, n)
    requires n.ChainCommitted? ==> Linked(node, n.committed.blocks)
    requires n.ChainReorged? ==> Linked(node, n.old_.blocks) && Linked(node, n.new_.blocks)
    ensures var next := NextSnapshot(base, n, caches); Window(next.receiptsHistory, next.block)
  {
    match n
    case ChainCommitted(c) => if Accepted(base, n) { CommitWindow(node, base, caches, c); }
    case ChainReorged(o, w) => if Accepted(base, n) { ReorgWindow(node, base, Below(o), ChangesOf(w), w); }
    case ChainReverted(c) => RevertWindow(base, Below(c));
  }
}
