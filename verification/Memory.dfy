/** What the published snapshot remembers of the chain, over whole runs: block hashes, receipts, code. */
module Memory {
  import opened Types
  import opened Chains
  import opened Snapshots
  import opened Changesets
  import opened Coherence
  import opened ChainIndex
  import opened Managers
  import opened Systems
  import opened Refinement
  import opened Linearizability

  // ---------------------------------------------------------------------------------------------
  // Block hashes, on runs that stay connected

  ghost predicate BlockHashReturned(s: System, i: nat, n: nat, v: B256) {
    && i < |s.loads| && s.loads[i].read == BlockHashRead(n)
    && (BlockHashRef(s.loads[i].snapshot, n) == Answer(v)
        || exists r :: r in s.blockHashes.replies && r.waiter.id == i && r.result == Ok(v))
  }

  ghost predicate ConnectedMove(node: Node, s: System, m: Move)
    requires WellFormed(node)
  {
    m.Publish? && s.writer.Flushing? && AllFlushed(s) ==>
      Connected(node, s.writer.base, s.writer.n, FlushedCaches(s), s.anchor)
  }

  ghost predicate ConnectedRun(node: Node, s: System, moves: seq<Move>)
    requires WellFormed(node)
  {
    && AdmissibleRun(node, s, moves)
    && forall i: nat :: i < |moves| ==> ConnectedMove(node, Execute(node.keccak, s, moves[..i]), moves[i])
  }

  ghost predicate MemoryOk(node: Node, s: System)
    requires WellFormed(node)
  {
    && Remembers(node, s.published, s.anchor)
    && forall l :: l in s.loads && l.snapshot.blockHash != ZERO_HASH ==>
         Remembers(node, l.snapshot, Some(l.snapshot.blockHash))
  }

  lemma FlushedHashesTrue(node: Node, s: System)
    requires WellFormed(node) && SystemOk(node, s) && AllFlushed(s)
    ensures HashCacheTrue(node, FlushedCaches(s).blockHashes)
  {
    var cache := FlushedCaches(s).blockHashes;
    forall n | n in cache.data
      ensures cache.blockHash != ZERO_HASH
              && (n <= Number(node, cache.blockHash) ==> cache.data[n] == Ancestor(node, cache.blockHash, n))
    {
      assert BlockHashFits(node, Some(cache.blockHash), n, cache.data[n]);
    }
  }

  /** One notification keeps what is remembered about the chain, whatever kind it is. */
  lemma NextRemembers(node: Node, base: Snapshot, n: Notification, caches: Caches, anchor: Option<B256>)
    requires WellFormed(node) && Remembers(node, base, anchor) && AtRealBlock(node, base)
    requires FaithfulNotification(node, n) && HashCacheTrue(node, caches.blockHashes)
    requires Connected(node, base, n, caches, anchor)
    ensures Remembers(node, NextSnapshot(base, n, caches), NextAnchor(anchor, base, n))
  {
    match n
    case ChainCommitted(ch) =>
      if Accepted(base, n) {
        CommitRemembers(node, base, ch, caches, anchor);
      }
    case ChainReorged(o, w) =>
      if Accepted(base, n) {
        ReorgRemembers(node, base, o, w, caches, anchor);
      }
    case ChainReverted(ch) =>
      RevertRemembers(node, base, ch, caches, anchor);
  }

  lemma {:induction false} PublishRemembers(node: Node, s: System)
    requires WellFormed(node) && SystemOk(node, s) && MemoryOk(node, s)
    requires s.writer.Flushing? && AllFlushed(s) && ConnectedMove(node, s, Publish)
    ensures MemoryOk(node, SystemStep(node.keccak, s, Publish))
  {
    FlushedHashesTrue(node, s);
    NextRemembers(node, s.writer.base, s.writer.n, FlushedCaches(s), s.anchor);
  }

  /** Only a publication changes what is published; only a load adds one, of just that. */
  lemma QuietMove(keccak: Bytecode -> B256, s: System, m: Move)
    requires m.Publish? ==> !(s.writer.Flushing? && AllFlushed(s))
    ensures var s' := SystemStep(keccak, s, m);
            && s'.published == s.published && s'.anchor == s.anchor
            && (forall l :: l in s'.loads ==> l in s.loads || l.snapshot == s.published)
  {
  }

  lemma {:induction false} MemoryStep(node: Node, s: System, m: Move)
    requires WellFormed(node) && SystemOk(node, s) && MemoryOk(node, s) && ConnectedMove(node, s, m)
    ensures MemoryOk(node, SystemStep(node.keccak, s, m))
  {
    if m.Publish? && s.writer.Flushing? && AllFlushed(s) {
      PublishRemembers(node, s);
    } else {
      QuietMove(node.keccak, s, m);
      QuietKeepsMemory(node, s, SystemStep(node.keccak, s, m));
    }
  }

  lemma QuietKeepsMemory(node: Node, s: System, s': System)
    requires WellFormed(node) && MemoryOk(node, s)
    requires s'.published == s.published && s'.anchor == s.anchor
    requires forall l :: l in s'.loads ==> l in s.loads || l.snapshot == s.published
    ensures MemoryOk(node, s')
  {
  }

  lemma {:induction false} ExecuteRemembers(node: Node, s: System, moves: seq<Move>)
    requires WellFormed(node) && NoCollisions(node) && SystemOk(node, s) && MemoryOk(node, s)
    requires ConnectedRun(node, s, moves)
    ensures SystemOk(node, Execute(node.keccak, s, moves)) && MemoryOk(node, Execute(node.keccak, s, moves))
    decreases |moves|
  {
    ExecuteKeeps(node, s, moves);
    if moves == [] {
    } else {
      var front := moves[..|moves| - 1];
      forall i: nat | i < |front|
        ensures Admissible(node, Execute(node.keccak, s, front[..i]), front[i])
                && ConnectedMove(node, Execute(node.keccak, s, front[..i]), front[i])
      {
        assert front[..i] == moves[..i];
      }
      ExecuteRemembers(node, s, front);
      assert ConnectedMove(node, Execute(node.keccak, s, moves[..|moves| - 1]), moves[|moves| - 1]);
      MemoryStep(node, Execute(node.keccak, s, front), moves[|moves| - 1]);
    }
  }

  /** A run's hypotheses hold of its prefixes. */
  lemma ConnectedPrefix(node: Node, s: System, moves: seq<Move>)
    requires WellFormed(node) && ConnectedRun(node, s, moves) && moves != []
    ensures ConnectedRun(node, s, moves[..|moves| - 1])
    ensures ConnectedMove(node, Execute(node.keccak, s, moves[..|moves| - 1]), moves[|moves| - 1])
  {
    var front := moves[..|moves| - 1];
    forall i: nat | i < |front|
      ensures Admissible(node, Execute(node.keccak, s, front[..i]), front[i])
              && ConnectedMove(node, Execute(node.keccak, s, front[..i]), front[i])
    {
      assert front[..i] == moves[..i];
    }
  }

  lemma BlockHashReadIsTrue(node: Node, s: System, i: nat, n: nat, v: B256)
    requires WellFormed(node) && SystemOk(node, s) && MemoryOk(node, s) && BlockHashReturned(s, i, n, v)
    ensures var at := s.loads[i].snapshot;
            !at.stale && (n <= Number(node, at.blockHash) ==> v == Ancestor(node, at.blockHash, n))
  {
    assert s.loads[i] in s.loads;
    if BlockHashRef(s.loads[i].snapshot, n) != Answer(v) {
      var r :| r in s.blockHashes.replies && r.waiter.id == i && r.result == Ok(v);
      assert BlockHashAsked(s.loads, r.waiter);
      assert BlockHashFits(node, BLOCK_HASH_SPEC.tag(r.waiter.request), BLOCK_HASH_SPEC.key(r.waiter.request), v);
    }
  }

  /** On a connected run, whatever numbers clients ask for, a block-hash read at or below the loaded tip
      returns the hash of that tip's own ancestor. (Above the tip there is nothing to agree with.) */
  lemma {:induction false} BlockHashReadsFollowTheChain(node: Node, a: nat, c: nat, g: nat, b: nat,
                                                        moves: seq<Move>, k: nat, n: nat, v: B256)
    requires WellFormed(node) && NoCollisions(node) && ConnectedRun(node, Start(a, c, g, b), moves)
    requires k < |moves| && moves[k] == LoadFor(BlockHashRead(n))
    requires BlockHashReturned(Execute(node.keccak, Start(a, c, g, b), moves),
                               LoadOf(node.keccak, Start(a, c, g, b), moves, k), n, v)
    ensures var at := Execute(node.keccak, Start(a, c, g, b), moves[..k]).published;
            !at.stale && (n <= Number(node, at.blockHash) ==> v == Ancestor(node, at.blockHash, n))
  {
    StartOk(node, a, c, g, b);
    ExecuteRemembers(node, Start(a, c, g, b), moves);
    LoadIsRecorded(node.keccak, Start(a, c, g, b), moves, k);
    BlockHashReadIsTrue(node, Execute(node.keccak, Start(a, c, g, b), moves),
                        LoadOf(node.keccak, Start(a, c, g, b), moves, k), n, v);
  }

  /** On a connected run every hash the published index holds at or below the tip is the tip's ancestor's, and
      the receipts found under a number are those of the canonical block there. */
  lemma {:induction false} PublishedMemoryIsCanonical(node: Node, a: nat, c: nat, g: nat, b: nat, moves: seq<Move>,
                                                      n: nat)
    requires WellFormed(node) && NoCollisions(node) && ConnectedRun(node, Start(a, c, g, b), moves)
    requires Execute(node.keccak, Start(a, c, g, b), moves).published.blockHash != ZERO_HASH
    ensures var v := Execute(node.keccak, Start(a, c, g, b), moves).published;
            && IndexAgrees(node, v.blockHashes, v.blockHash)
            && var found := FirstReceipts(v.receiptsHistory, n);
               found.Some? ==>
                 && n <= Number(node, v.blockHash) && found.value.block == n
                 && found.value.receipts == node.block(Ancestor(node, v.blockHash, n)).receipts
                 && found.value.txHashes == node.block(Ancestor(node, v.blockHash, n)).txHashes
  {
    StartOk(node, a, c, g, b);
    ExecuteRemembers(node, Start(a, c, g, b), moves);
    ReceiptsAreCanonical(node, Execute(node.keccak, Start(a, c, g, b), moves).published, n);
  }

  /** On a connected run, when an accepted commit or reorg has just been published, the receipts of each of its
      chain's last 64 blocks are found, and are that block's own. */
  lemma {:induction false} PublishedBlocksAreFound(node: Node, a: nat, c: nat, g: nat, b: nat, moves: seq<Move>,
                                                   chain: Chain, i: nat)
    requires WellFormed(node) && NoCollisions(node) && ConnectedRun(node, Start(a, c, g, b), moves + [Publish])
    requires var s := Execute(node.keccak, Start(a, c, g, b), moves);
             && s.writer.Flushing? && AllFlushed(s) && Accepted(s.writer.base, s.writer.n)
             && (s.writer.n.ChainCommitted? ==> s.writer.n.committed == chain)
             && (s.writer.n.ChainReorged? ==> s.writer.n.new_ == chain)
    requires i < |chain.blocks| && |chain.blocks| - i <= 64
    ensures var v := Execute(node.keccak, Start(a, c, g, b), moves + [Publish]).published;
            var found := FirstReceipts(v.receiptsHistory, chain.blocks[i].number);
            && found.Some? && found.value.block == chain.blocks[i].number
            && found.value.receipts == chain.blocks[i].receipts && found.value.txHashes == chain.blocks[i].txHashes
  {
    var start, all := Start(a, c, g, b), moves + [Publish];
    assert all[..|all| - 1] == moves;
    ConnectedPrefix(node, start, all);
    StartOk(node, a, c, g, b);
    ExecuteRemembers(node, start, moves);
    var s := Execute(node.keccak, start, moves);
    PublishFinds(node, s, chain, i);
    ExecuteSnoc(node.keccak, start, moves, Publish);
    PublishStores(node.keccak, s);
  }

  lemma PublishStores(keccak: Bytecode -> B256, s: System)
    requires s.writer.Flushing? && AllFlushed(s)
    ensures SystemStep(keccak, s, Publish).published == NextSnapshot(s.writer.base, s.writer.n, FlushedCaches(s))
  {
  }

  lemma {:induction false} PublishFinds(node: Node, s: System, chain: Chain, i: nat)
    requires WellFormed(node) && SystemOk(node, s) && MemoryOk(node, s) && ConnectedMove(node, s, Publish)
    requires s.writer.Flushing? && AllFlushed(s) && Accepted(s.writer.base, s.writer.n)
    requires s.writer.n.ChainCommitted? ==> s.writer.n.committed == chain
    requires s.writer.n.ChainReorged? ==> s.writer.n.new_ == chain
    requires i < |chain.blocks| && |chain.blocks| - i <= 64
    ensures var v := NextSnapshot(s.writer.base, s.writer.n, FlushedCaches(s));
            var found := FirstReceipts(v.receiptsHistory, chain.blocks[i].number);
            && found.Some? && found.value.block == chain.blocks[i].number
            && found.value.receipts == chain.blocks[i].receipts && found.value.txHashes == chain.blocks[i].txHashes
  {
    FlushedHashesTrue(node, s);
    AcceptedIsFound(node, s.writer.base, s.writer.n, FlushedCaches(s), s.anchor, chain, i);
  }

  lemma {:induction false} AcceptedIsFound(node: Node, base: Snapshot, n: Notification, caches: Caches,
                                           anchor: Option<B256>, chain: Chain, i: nat)
    requires WellFormed(node) && Remembers(node, base, anchor) && AtRealBlock(node, base)
    requires FaithfulNotification(node, n) && HashCacheTrue(node, caches.blockHashes)
    requires Connected(node, base, n, caches, anchor) && Accepted(base, n)
    requires (n.ChainCommitted? && n.committed == chain) || (n.ChainReorged? && n.new_ == chain)
    requires i < |chain.blocks| && |chain.blocks| - i <= 64
    ensures var found := FirstReceipts(NextSnapshot(base, n, caches).receiptsHistory, chain.blocks[i].number);
            && found.Some? && found.value.block == chain.blocks[i].number
            && found.value.receipts == chain.blocks[i].receipts && found.value.txHashes == chain.blocks[i].txHashes
  {
    NextRemembers(node, base, n, caches, anchor);
    assert NextAnchor(anchor, base, n) == Some(Tip(chain).hash);
    AppliedBlocksAreFound(node, base, n, caches, chain, i);
  }

  // ---------------------------------------------------------------------------------------------
  // Histories

  ghost predicate NonOverlappingRun(node: Node, s: System, moves: seq<Move>)
    requires WellFormed(node)
  {
    && AdmissibleRun(node, s, moves)
    && forall i: nat :: i < |moves| ==>
         var at := Execute(node.keccak, s, moves[..i]);
         moves[i].Publish? && at.writer.Flushing? ==> NonOverlapping(at.published, at.writer.n)
  }

  lemma WindowStep(node: Node, s: System, m: Move)
    requires WellFormed(node) && WriterOk(node, s)
    requires Window(s.published.receiptsHistory, s.published.block) && WithinDepth(s.published)
    requires m.Publish? && s.writer.Flushing? ==> NonOverlapping(s.published, s.writer.n)
    ensures var v := SystemStep(node.keccak, s, m).published;
            Window(v.receiptsHistory, v.block) && WithinDepth(v)
  {
    if m.Publish? && s.writer.Flushing? && AllFlushed(s) {
      NextWindow(node, s.published, s.writer.n, FlushedCaches(s));
      NextWithinDepth(s.published, s.writer.n, FlushedCaches(s));
    }
  }

  /** On a run without overlaps the published receipts are always a contiguous window of at most 64 blocks
      ending at the published block. */
  lemma {:induction false} PublishedWindow(node: Node, a: nat, c: nat, g: nat, b: nat, moves: seq<Move>)
    requires WellFormed(node) && NoCollisions(node) && NonOverlappingRun(node, Start(a, c, g, b), moves)
    ensures var v := Execute(node.keccak, Start(a, c, g, b), moves).published;
            Window(v.receiptsHistory, v.block) && WithinDepth(v)
    decreases |moves|
  {
    if moves == [] {
    } else {
      var front := moves[..|moves| - 1];
      var start := Start(a, c, g, b);
      forall i: nat | i < |front|
        ensures Admissible(node, Execute(node.keccak, start, front[..i]), front[i])
                && var at := Execute(node.keccak, start, front[..i]);
                   (front[i].Publish? && at.writer.Flushing? ==> NonOverlapping(at.published, at.writer.n))
      {
        assert front[..i] == moves[..i];
      }
      PublishedWindow(node, a, c, g, b, front);
      StartOk(node, a, c, g, b);
      ExecuteKeeps(node, start, front);
      WindowStep(node, Execute(node.keccak, start, front), moves[|moves| - 1]);
    }
  }

  /** On any run at all, overlaps and gaps included, no history is ever longer than 64 entries. */
  lemma {:induction false} PublishedWithinDepth(keccak: Bytecode -> B256, s: System, moves: seq<Move>)
    requires WithinDepth(s.published) && (s.writer.Flushing? ==> s.writer.base == s.published)
    ensures var end := Execute(keccak, s, moves);
            WithinDepth(end.published) && (end.writer.Flushing? ==> end.writer.base == end.published)
    decreases |moves|
  {
    if moves == [] {
    } else {
      var front := moves[..|moves| - 1];
      PublishedWithinDepth(keccak, s, front);
      var at := Execute(keccak, s, front);
      if moves[|moves| - 1].Publish? && at.writer.Flushing? && AllFlushed(at) {
        NextWithinDepth(at.writer.base, at.writer.n, FlushedCaches(at));
      }
    }
  }

  // ---------------------------------------------------------------------------------------------
  // Code

  lemma CodeKeysStep(keccak: Bytecode -> B256, s: System, m: Move)
    requires s.writer.Flushing? ==> s.writer.base == s.published
    ensures var s' := SystemStep(keccak, s, m);
            s.published.code.Keys <= s'.published.code.Keys
            && (s'.writer.Flushing? ==> s'.writer.base == s'.published)
  {
    if m.Publish? && s.writer.Flushing? && AllFlushed(s) {
      NextCode(s.writer.base, s.writer.n, FlushedCaches(s));
    }
  }

  lemma {:induction false} CodeKeysGrow(keccak: Bytecode -> B256, s: System, moves: seq<Move>, k: nat)
    requires k <= |moves| && (s.writer.Flushing? ==> s.writer.base == s.published)
    ensures var end := Execute(keccak, s, moves);
            Execute(keccak, s, moves[..k]).published.code.Keys <= end.published.code.Keys
            && (end.writer.Flushing? ==> end.writer.base == end.published)
    decreases |moves|
  {
    if moves == [] {
      assert moves[..k] == moves;
    } else {
      var front := moves[..|moves| - 1];
      CodeKeysGrow(keccak, s, front, if k < |moves| then k else |front|);
      CodeKeysStep(keccak, Execute(keccak, s, front), moves[|moves| - 1]);
      if k < |moves| {
        assert front[..k] == moves[..k];
      } else {
        assert moves[..k] == moves;
      }
    }
  }

  /** Over any run the published code store only grows, no entry ever changes, and every entry hashes to its
      key, however wrong the address hints were. */
  lemma {:induction false} PublishedCodeOnlyGrows(node: Node, a: nat, c: nat, g: nat, b: nat, moves: seq<Move>, k: nat)
    requires WellFormed(node) && NoCollisions(node) && AdmissibleRun(node, Start(a, c, g, b), moves) && k <= |moves|
    ensures var before := Execute(node.keccak, Start(a, c, g, b), moves[..k]).published.code;
            var after := Execute(node.keccak, Start(a, c, g, b), moves).published.code;
            && CodeTrue(node, after)
            && forall h :: h in before ==> h in after && after[h] == before[h]
  {
    var start := Start(a, c, g, b);
    forall i: nat | i < k
      ensures Admissible(node, Execute(node.keccak, start, moves[..k][..i]), moves[..k][i])
    {
      assert moves[..k][..i] == moves[..i];
    }
    PublishedAgreesWithNode(node, a, c, g, b, moves[..k]);
    PublishedAgreesWithNode(node, a, c, g, b, moves);
    CodeKeysGrow(node.keccak, start, moves, k);
    var before := Execute(node.keccak, start, moves[..k]).published.code;
    var after := Execute(node.keccak, start, moves).published.code;
    forall h | h in before
      ensures after[h] == before[h]
    {
      assert node.keccak(after[h]) == h == node.keccak(before[h]);
    }
  }
}
