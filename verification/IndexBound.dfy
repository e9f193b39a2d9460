/** The published index stops at the tip as long as clients ask for no block hash above it. */
module IndexBounds {
  import opened Types
  import opened Chains
  import opened Validation
  import opened Snapshots
  import opened Transitions
  import opened Changesets
  import opened Coherence
  import opened ChainIndex
  import opened ManagerCore
  import opened ManagerProofs
  import opened Managers
  import opened Systems
  import opened Refinement
  import opened Linearizability
  import opened Memory

  ghost predicate StopsAtBlock(s: Snapshot) {
    forall n :: n in s.blockHashes ==> n <= s.block
  }

  /** A snapshot that remembers anything stands at the height of its anchor. */
  ghost predicate StandsAt(node: Node, s: Snapshot, anchor: Option<B256>) {
    anchor.Some? ==> s.block == Number(node, anchor.value)
  }

  /** The client asks a live snapshot for a number at or below its block. */
  ghost predicate AsksWithin(s: System, m: Move) {
    m.LoadFor? && m.read.BlockHashRead? && !s.published.stale ==> m.read.number <= s.published.block
  }

  ghost predicate AskedWithin(node: Node, m: Message<BlockHashRequest>) {
    m.request.number <= Number(node, m.request.atBlockHash)
  }

  ghost predicate FitsWithin(node: Node, tag: Option<B256>, n: nat, resp: B256) {
    tag.Some? && n <= Number(node, tag.value)
  }

  ghost predicate HashesWithin(node: Node, s: BlockHashState) {
    Provenance(BLOCK_HASH_SPEC, s, m => AskedWithin(node, m), (tag, n, resp) => FitsWithin(node, tag, n, resp))
  }

  ghost predicate LoadsWithin(loads: seq<Load>) {
    forall l :: l in loads && l.read.BlockHashRead? && !l.snapshot.stale ==> l.read.number <= l.snapshot.block
  }

  ghost predicate WithinOk(node: Node, s: System) {
    StopsAtBlock(s.published) && StandsAt(node, s.published, s.anchor) && LoadsWithin(s.loads)
    && HashesWithin(node, s.blockHashes)
  }

  lemma HashesStepWithin(node: Node, s: BlockHashState, a: BlockHashAction)
    requires HashesWithin(node, s)
    requires a.Receive? ==> AskedWithin(node, a.msg)
    ensures HashesWithin(node, Step(BLOCK_HASH_SPEC, s, a))
  {
    SpecsAreLawful();
    var asked := m => AskedWithin(node, m);
    if a.FinishFetch? && a.task < |s.running| {
      var t := s.running[a.task];
      assert FetchOk(BLOCK_HASH_SPEC, s, asked, t.waiter, t.key, t.epoch);
    }
    ProvenanceStep(BLOCK_HASH_SPEC, s, a, asked, (tag, n, resp) => FitsWithin(node, tag, n, resp));
  }

  lemma SubmitWithin(node: Node, s: System, i: nat)
    requires WellFormed(node) && SystemOk(node, s) && WithinOk(node, s) && i < |s.loads|
    ensures WithinOk(node, SubmitRead(s, i))
  {
    var l := s.loads[i];
    assert l in s.loads;
    if l.read.BlockHashRead? && BlockHashRef(l.snapshot, l.read.number).Ask? {
      HashesStepWithin(node, s.blockHashes, Receive(Message(i, BlockHashRef(l.snapshot, l.read.number).request)));
    }
  }

  lemma FlushedWithin(node: Node, s: System)
    requires HashesWithin(node, s.blockHashes) && AllFlushed(s)
    ensures var cache := FlushedCaches(s).blockHashes;
            forall n :: n in cache.data ==> n <= Number(node, cache.blockHash)
  {
    var cache := FlushedCaches(s).blockHashes;
    forall n | n in cache.data
      ensures n <= Number(node, cache.blockHash)
    {
      assert FitsWithin(node, Some(cache.blockHash), n, cache.data[n]);
    }
  }

  lemma IndexedStops(node: Node, index: map<nat, B256>, blocks: seq<Block>, tip: nat)
    requires WellFormed(node) && Linked(node, blocks) && blocks != [] && tip == blocks[|blocks| - 1].number
    requires forall n :: n in index ==> n <= tip
    ensures forall n :: n in Indexed(index, blocks) ==> n <= tip
  {
    LinkedNumbers(node, blocks, |blocks| - 1);
    forall n | n in Indexed(index, blocks)
      ensures n <= tip
    {
      assert blocks[..|blocks|] == blocks;
      IndexedEntries(node, index, blocks, |blocks|, n);
    }
  }

  lemma {:induction false} CommitStops(node: Node, base: Snapshot, c: Chain, caches: Caches, anchor: Option<B256>)
    requires WellFormed(node) && Remembers(node, base, anchor) && AtRealBlock(node, base)
    requires StopsAtBlock(base) && StandsAt(node, base, anchor)
    requires Linked(node, c.blocks) && HashCacheTrue(node, caches.blockHashes)
    requires forall n :: n in caches.blockHashes.data ==> n <= Number(node, caches.blockHashes.blockHash)
    requires Accepted(base, ChainCommitted(c)) && Connected(node, base, ChainCommitted(c), caches, anchor)
    ensures StopsAtBlock(NextSnapshot(base, ChainCommitted(c), caches))
  {
    var merged := Merged(base, caches);
    if base.blockHash != ZERO_HASH && !base.stale {
      CommitAcceptedIffConnected(node, CurrentState(base.block, base.blockHash, false), c);
    }
    assert anchor.Some? ==> base.block <= Tip(c).number;
    assert forall n :: n in merged.blockHashes ==> n <= Tip(c).number;
    IndexedStops(node, merged.blockHashes, c.blocks, Tip(c).number);
  }

  lemma {:induction false} ReorgStops(node: Node, base: Snapshot, o: Chain, w: Chain)
    requires WellFormed(node) && Linked(node, o.blocks) && Linked(node, w.blocks)
    requires First(w).parentHash == First(o).parentHash
    ensures StopsAtBlock(ReorgState(base, Below(o), ChangesOf(w), w.blocks, TipOf(w)))
  {
    HistoryParts(base, Below(o), EMPTY_SNAPSHOT);
    LinkedRoot(node, o.blocks, 0);
    LinkedRoot(node, w.blocks, 0);
    LinkedNumbers(node, w.blocks, |w.blocks| - 1);
    var cut := HistoryBefore(base, Below(o), EMPTY_SNAPSHOT);
    IndexedStops(node, cut.blockHashes, w.blocks, Tip(w).number);
  }

  lemma {:induction false} NextStops(node: Node, base: Snapshot, n: Notification, caches: Caches, anchor: Option<B256>)
    requires WellFormed(node) && Remembers(node, base, anchor) && AtRealBlock(node, base)
    requires StopsAtBlock(base) && StandsAt(node, base, anchor)
    requires FaithfulNotification(node, n) && HashCacheTrue(node, caches.blockHashes)
    requires forall k :: k in caches.blockHashes.data ==> k <= Number(node, caches.blockHashes.blockHash)
    requires Connected(node, base, n, caches, anchor)
    ensures var next := NextSnapshot(base, n, caches);
            StopsAtBlock(next) && StandsAt(node, next, NextAnchor(anchor, base, n))
  {
    match n
    case ChainCommitted(c) =>
      if Accepted(base, n) {
        CommitStops(node, base, c, caches, anchor);
      }
    case ChainReorged(o, w) =>
      if Accepted(base, n) {
        ReorgStops(node, base, o, w);
      }
    case ChainReverted(c) =>
      HistoryParts(base, Below(c), EMPTY_SNAPSHOT.(stale := true, block := Below(c)));
      LinkedRoot(node, c.blocks, 0);
  }

  lemma PublishWithin(node: Node, s: System)
    requires WellFormed(node) && SystemOk(node, s) && MemoryOk(node, s) && WithinOk(node, s)
    requires ConnectedMove(node, s, Publish)
    ensures WithinOk(node, SystemStep(node.keccak, s, Publish))
  {
    if s.writer.Flushing? && AllFlushed(s) {
      FlushedHashesTrue(node, s);
      FlushedWithin(node, s);
      NextStops(node, s.writer.base, s.writer.n, FlushedCaches(s), s.anchor);
    }
  }

  lemma {:induction false} WithinStep(node: Node, s: System, m: Move)
    requires WellFormed(node) && SystemOk(node, s) && MemoryOk(node, s) && WithinOk(node, s)
    requires ConnectedMove(node, s, m) && AsksWithin(s, m)
    ensures WithinOk(node, SystemStep(node.keccak, s, m))
  {
    match m
    case Submit(i) => if i < |s.loads| { SubmitWithin(node, s, i); }
    case BlockHashMove(a) => if Own(a) { HashesStepWithin(node, s.blockHashes, a); }
    case Notify(_) => HashesStepWithin(node, s.blockHashes, RequestFlush);
    case Publish => PublishWithin(node, s);
    case _ => OthersWithin(node, s, m);
  }

  lemma OthersWithin(node: Node, s: System, m: Move)
    requires WithinOk(node, s) && AsksWithin(s, m)
    requires !m.Submit? && !m.BlockHashMove? && !m.Notify? && !m.Publish?
    ensures WithinOk(node, SystemStep(node.keccak, s, m))
  {
    var s' := SystemStep(node.keccak, s, m);
    assert s'.published == s.published && s'.anchor == s.anchor && s'.blockHashes == s.blockHashes;
  }

  ghost predicate AsksWithinRun(node: Node, s: System, moves: seq<Move>) {
    forall i: nat :: i < |moves| ==> AsksWithin(Execute(node.keccak, s, moves[..i]), moves[i])
  }

  lemma AsksWithinPrefix(node: Node, s: System, moves: seq<Move>)
    requires AsksWithinRun(node, s, moves) && moves != []
    ensures AsksWithinRun(node, s, moves[..|moves| - 1])
    ensures AsksWithin(Execute(node.keccak, s, moves[..|moves| - 1]), moves[|moves| - 1])
  {
    var front := moves[..|moves| - 1];
    forall i: nat | i < |front|
      ensures AsksWithin(Execute(node.keccak, s, front[..i]), front[i])
    {
      assert front[..i] == moves[..i];
    }
  }

  lemma {:induction false} ExecuteWithin(node: Node, s: System, moves: seq<Move>)
    requires WellFormed(node) && NoCollisions(node) && SystemOk(node, s) && MemoryOk(node, s) && WithinOk(node, s)
    requires ConnectedRun(node, s, moves) && AsksWithinRun(node, s, moves)
    ensures WithinOk(node, Execute(node.keccak, s, moves))
    decreases |moves|
  {
    if moves == [] {
    } else {
      var front := moves[..|moves| - 1];
      ConnectedPrefix(node, s, moves);
      AsksWithinPrefix(node, s, moves);
      ExecuteRemembers(node, s, front);
      ExecuteWithin(node, s, front);
      WithinStep(node, Execute(node.keccak, s, front), moves[|moves| - 1]);
    }
  }

  /** Then the published index names ancestors of the tip and nothing else. */
  lemma {:induction false} PublishedIndexStopsAtTip(node: Node, a: nat, c: nat, g: nat, b: nat, moves: seq<Move>)
    requires WellFormed(node) && NoCollisions(node) && ConnectedRun(node, Start(a, c, g, b), moves)
    requires AsksWithinRun(node, Start(a, c, g, b), moves)
    requires Execute(node.keccak, Start(a, c, g, b), moves).published.blockHash != ZERO_HASH
    ensures var v := Execute(node.keccak, Start(a, c, g, b), moves).published;
            forall n :: n in v.blockHashes ==>
              n <= Number(node, v.blockHash) && v.blockHashes[n] == Ancestor(node, v.blockHash, n)
  {
    StartWithin(node, a, c, g, b);
    ExecuteRemembers(node, Start(a, c, g, b), moves);
    ExecuteWithin(node, Start(a, c, g, b), moves);
    WithinAndRight(node, Execute(node.keccak, Start(a, c, g, b), moves));
  }

  lemma StartWithin(node: Node, a: nat, c: nat, g: nat, b: nat)
    requires WellFormed(node)
    ensures SystemOk(node, Start(a, c, g, b)) && MemoryOk(node, Start(a, c, g, b)) && WithinOk(node, Start(a, c, g, b))
  {
    StartOk(node, a, c, g, b);
    EmptyRemembersNothing(node);
    InitProvenance(BLOCK_HASH_SPEC, (), ClampConcurrency(b), m => AskedWithin(node, m),
                   (tag, n, resp) => FitsWithin(node, tag, n, resp));
  }

  lemma EmptyRemembersNothing(node: Node)
    requires WellFormed(node)
    ensures Remembers(node, EMPTY_SNAPSHOT, None) && StopsAtBlock(EMPTY_SNAPSHOT)
    ensures StandsAt(node, EMPTY_SNAPSHOT, None)
  {
  }

  lemma WithinAndRight(node: Node, s: System)
    requires WellFormed(node) && SystemOk(node, s) && MemoryOk(node, s) && WithinOk(node, s)
    requires s.published.blockHash != ZERO_HASH
    ensures var v := s.published;
            forall n :: n in v.blockHashes ==>
              n <= Number(node, v.blockHash) && v.blockHashes[n] == Ancestor(node, v.blockHash, n)
  {
  }
}
