/** When a snapshot agrees with the full node at its block: each transition keeps the agreement, or
    keeps it exactly under a stated condition. */
module Coherence {
  import opened Types
  import opened Chains
  import opened Validation
  import opened Snapshots
  import opened Transitions
  import opened Changesets

  /** Every account and slot held is the node's at the snapshot's block; a snapshot of no block holds none. */
  ghost predicate HoldsTruth(node: Node, s: Snapshot) {
    if s.blockHash == ZERO_HASH then s.accounts == map[] && s.storage == map[]
    else TrueAt(node, s.blockHash, s.accounts, s.storage)
  }

  ghost predicate TrueAt(node: Node, at: B256, accounts: map<Address, AccountInfo>,
                         storage: map<(Address, U256), U256>)
  {
    && (forall a :: a in accounts ==> accounts[a] == node.account(at, a))
    && (forall k :: k in storage ==> storage[k] == node.slot(at, k.0, k.1))
  }

  /** The snapshot's position and tip data are those of a real block, or of none. */
  ghost predicate AtRealBlock(node: Node, s: Snapshot) {
    s.blockHash != ZERO_HASH ==>
      && s.block == Number(node, s.blockHash) && s.block > 0
      && s.header == Some(node.block(s.blockHash).header)
      && s.withdrawals == node.block(s.blockHash).withdrawals
  }

  /** What a flush hands over is true of the block it is tagged with, and never tagged with no block. */
  ghost predicate CachesTrue(node: Node, caches: Caches) {
    && (caches.accounts.data != map[] ==> caches.accounts.blockHash != ZERO_HASH)
    && (caches.storage.data != map[] ==> caches.storage.blockHash != ZERO_HASH)
    && (forall a :: a in caches.accounts.data ==>
          caches.accounts.data[a] == node.account(caches.accounts.blockHash, a))
    && (forall k :: k in caches.storage.data ==>
          caches.storage.data[k] == node.slot(caches.storage.blockHash, k.0, k.1))
  }

  /** What the snapshot holds once the flushed caches have joined it. */
  function Merged(current: Snapshot, caches: Caches): Snapshot {
    MergeCaches(current.(stale := false), caches, current.blockHash)
  }

  lemma MergedHoldsTruth(node: Node, current: Snapshot, caches: Caches)
    requires HoldsTruth(node, current) && CachesTrue(node, caches)
    ensures HoldsTruth(node, Merged(current, caches))
  {
  }

  // ---------------------------------------------------------------------------------------------
  // Outcomes

  /** The outcome writes the account, with its value afterwards. */
  ghost predicate WritesInfo(state: BundleState, a: Address) {
    a in state && state[a].info.Some?
  }

  ghost predicate WritesSlot(state: BundleState, k: (Address, U256)) {
    k.0 in state && k.1 in state[k.0].storage
  }

  /** What an outcome lists is the node's at the new tip. */
  ghost predicate ListedTrue(node: Node, state: BundleState, tip: B256) {
    && (forall a :: a in state && state[a].info.Some? ==> state[a].info.value == node.account(tip, a))
    && (forall a, i :: a in state && i in state[a].storage ==> state[a].storage[i] == node.slot(tip, a, i))
  }

  /** An account listed without info is gone at the new tip. */
  ghost predicate DeletedTrue(node: Node, state: BundleState, tip: B256) {
    forall a :: a in state && state[a].info.None? ==> node.account(tip, a) == Vacant(node)
  }

  /** What an outcome does not list is the same at the chain's root and at each of its blocks. */
  ghost predicate UnlistedStill(node: Node, state: BundleState, blocks: seq<Block>) {
    && (forall n, a :: 0 <= n < |blocks| && a !in state ==>
          node.account(blocks[n].hash, a) == node.account(blocks[0].parentHash, a))
    && (forall n, k :: 0 <= n < |blocks| && !WritesSlot(state, k) ==>
          node.slot(blocks[n].hash, k.0, k.1) == node.slot(blocks[0].parentHash, k.0, k.1))
  }

  /** The node executed these blocks and this is what they did. */
  ghost predicate Faithful(node: Node, chain: Chain) {
    && Linked(node, chain.blocks)
    && ListedTrue(node, chain.outcome.state, Tip(chain).hash)
    && DeletedTrue(node, chain.outcome.state, Tip(chain).hash)
    && UnlistedStill(node, chain.outcome.state, chain.blocks)
  }

  // ---------------------------------------------------------------------------------------------
  // Commits

  /** A chain's outcome written over a snapshot, entry by entry: held entries take the listed values, no key
      is added, and all code is. */
  lemma ExecutedEntries(s: Snapshot, chain: Chain)
    ensures var e, state := ApplyExecution(s, ChangesOf(chain)), chain.outcome.state;
            && e.accounts.Keys == s.accounts.Keys && e.storage.Keys == s.storage.Keys
            && (forall a :: a in s.accounts ==>
                  e.accounts[a] == if a in state && state[a].info.Some? then state[a].info.value else s.accounts[a])
            && (forall k :: k in s.storage ==>
                  e.storage[k] == if k.0 in state && k.1 in state[k.0].storage then state[k.0].storage[k.1]
                                  else s.storage[k])
            && e.code == s.code + chain.outcome.contracts
  {
  }

  /** Nothing the commit keeps as it was held moved between the two blocks. */
  ghost predicate Undisturbed(node: Node, merged: Snapshot, state: BundleState, from: B256, to: B256) {
    && (forall a :: a in merged.accounts && !WritesInfo(state, a) ==> node.account(from, a) == node.account(to, a))
    && (forall k :: k in merged.storage && !WritesSlot(state, k) ==>
          node.slot(from, k.0, k.1) == node.slot(to, k.0, k.1))
  }

  /** What an outcome leaves as it was held is already the node's at `to`. */
  ghost predicate UnwrittenTrue(node: Node, accounts: map<Address, AccountInfo>, storage: map<(Address, U256), U256>,
                                state: BundleState, to: B256)
  {
    && (forall a :: a in accounts && !WritesInfo(state, a) ==> accounts[a] == node.account(to, a))
    && (forall k :: k in storage && !WritesSlot(state, k) ==> storage[k] == node.slot(to, k.0, k.1))
  }

  lemma ExecutionTrueIffUnwrittenTrue(node: Node, s: Snapshot, chain: Chain, to: B256)
    requires ListedTrue(node, chain.outcome.state, to)
    ensures var s' := ApplyExecution(s, ChangesOf(chain));
            TrueAt(node, to, s'.accounts, s'.storage)
            <==> UnwrittenTrue(node, s.accounts, s.storage, chain.outcome.state, to)
  {
    ExecutedEntries(s, chain);
    EntriesTrue(node, s, ApplyExecution(s, ChangesOf(chain)), chain.outcome.state, to);
  }

  lemma EntriesTrue(node: Node, s: Snapshot, e: Snapshot, state: BundleState, to: B256)
    requires ListedTrue(node, state, to)
    requires e.accounts.Keys == s.accounts.Keys && e.storage.Keys == s.storage.Keys
    requires forall a :: a in s.accounts ==>
               e.accounts[a] == if WritesInfo(state, a) then state[a].info.value else s.accounts[a]
    requires forall k :: k in s.storage ==>
               e.storage[k] == if WritesSlot(state, k) then state[k.0].storage[k.1] else s.storage[k]
    ensures TrueAt(node, to, e.accounts, e.storage) <==> UnwrittenTrue(node, s.accounts, s.storage, state, to)
  {
    if TrueAt(node, to, e.accounts, e.storage) {
      forall a | a in s.accounts && !WritesInfo(state, a)
        ensures s.accounts[a] == node.account(to, a)
      {
        assert a in e.accounts;
      }
      forall k | k in s.storage && !WritesSlot(state, k)
        ensures s.storage[k] == node.slot(to, k.0, k.1)
      {
        assert k in e.storage;
      }
    }
  }

  /** Any commit, connected or not: the new snapshot agrees with the node exactly when nothing it kept
      unwritten moved. */
  lemma {:induction false} CommitTrueIffUndisturbed(node: Node, current: Snapshot, caches: Caches, chain: Chain)
    requires HoldsTruth(node, current) && CachesTrue(node, caches)
    requires Tip(chain).hash != ZERO_HASH && ListedTrue(node, chain.outcome.state, Tip(chain).hash)
    ensures HoldsTruth(node, CommitState(current, caches, ChangesOf(chain), chain.blocks, TipOf(chain)))
            <==> Undisturbed(node, Merged(current, caches), chain.outcome.state, current.blockHash, Tip(chain).hash)
  {
    var merged := Merged(current, caches);
    MergedHoldsTruth(node, current, caches);
    assert TrueAt(node, current.blockHash, merged.accounts, merged.storage);
    ExecutionTrueIffUnwrittenTrue(node, merged, chain, Tip(chain).hash);
    CommitParts(current, caches, ChangesOf(chain), chain.blocks, TipOf(chain));
  }

  lemma {:induction false} BlocksApart(s: Snapshot, blocks: seq<Block>)
    ensures var s' := ApplyBlocks(s, blocks);
            && s'.accounts == s.accounts && s'.storage == s.storage && s'.code == s.code
            && s'.stale == s.stale
  {
  }

  lemma {:induction false} CommitParts(current: Snapshot, caches: Caches, changes: ExecutionChanges,
                                       blocks: seq<Block>, tip: ChainTip)
    ensures var next := CommitState(current, caches, changes, blocks, tip);
            var executed := ApplyExecution(Merged(current, caches), changes);
            && next.accounts == executed.accounts && next.storage == executed.storage
            && next.code == current.code + caches.code + changes.contracts
            && next.block == tip.number && next.blockHash == tip.hash && !next.stale
  {
    BlocksApart(ApplyExecution(Merged(current, caches), changes), blocks);
  }

  /** The outcome deletes no account the snapshot holds, unless it already holds it as vacant. */
  ghost predicate NoHeldDeletion(node: Node, merged: Snapshot, state: BundleState) {
    forall a :: a in merged.accounts && a in state && state[a].info.None? ==> merged.accounts[a] == Vacant(node)
  }

  /** A commit that connects: the new snapshot agrees with the node exactly when the chain deletes no
      held account. (A deletion reaches the snapshot as an entry without info and is skipped.) */
  lemma {:induction false} ConnectedCommitTrueIffNoHeldDeletion(node: Node, current: Snapshot, caches: Caches,
                                                                chain: Chain)
    requires HoldsTruth(node, current) && CachesTrue(node, caches) && current.blockHash != ZERO_HASH
    requires Faithful(node, chain)
    requires First(chain).parentHash == current.blockHash || Member(chain.blocks, current.blockHash)
    ensures HoldsTruth(node, CommitState(current, caches, ChangesOf(chain), chain.blocks, TipOf(chain)))
            <==> NoHeldDeletion(node, Merged(current, caches), chain.outcome.state)
  {
    var merged, from, to := Merged(current, caches), current.blockHash, Tip(chain).hash;
    CommitTrueIffUndisturbed(node, current, caches, chain);
    MergedHoldsTruth(node, current, caches);
    UnlistedAcross(node, chain, from);
    forall a | a in merged.accounts && a in chain.outcome.state && chain.outcome.state[a].info.None?
      ensures node.account(from, a) == node.account(to, a) <==> merged.accounts[a] == Vacant(node)
    {
    }
  }

  /** From the root or any block of a chain to its tip, the unlisted keys are still. */
  lemma UnlistedAcross(node: Node, chain: Chain, from: B256)
    requires Faithful(node, chain) && (First(chain).parentHash == from || Member(chain.blocks, from))
    ensures forall a :: a !in chain.outcome.state ==> node.account(from, a) == node.account(Tip(chain).hash, a)
    ensures forall k :: !WritesSlot(chain.outcome.state, k) ==>
              node.slot(from, k.0, k.1) == node.slot(Tip(chain).hash, k.0, k.1)
  {
    var blocks := chain.blocks;
    assert Tip(chain) == blocks[|blocks| - 1];
    if First(chain).parentHash != from {
      var i :| 0 <= i < |blocks| && blocks[i].hash == from;
    }
  }

  /** A node whose chain is the line of naturals: block h has hash h, number h and parent h - 1. */
  function LineBlock(h: B256): Block {
    Block(h, h, if h == 0 then 0 else h - 1, Header(h), None, [], [])
  }

  function Line(account: (B256, Address) -> AccountInfo): Node {
    Node(LineBlock, account, (h: B256, a: Address, i: U256) => 0, (code: Bytecode) => 0)
  }

  /** A snapshot of block 1 of the line that holds account 5. */
  function HoldingFive(stale: bool): Snapshot {
    EMPTY_SNAPSHOT.(block := 1, blockHash := 1, header := Some(Header(1)), stale := stale,
                   accounts := map[5 := AccountInfo(7, 1, 0)])
  }

  /** An accepted commit leaves what it does not write as it was held. */
  lemma UnwrittenKept(base: Snapshot, chain: Chain, caches: Caches, a: Address)
    requires Accepted(base, ChainCommitted(chain))
    requires a in base.accounts && a !in caches.accounts.data && !WritesInfo(chain.outcome.state, a)
    ensures var next := NextSnapshot(base, ChainCommitted(chain), caches);
            && !next.stale && next.blockHash == Tip(chain).hash
            && a in next.accounts && next.accounts[a] == base.accounts[a]
  {
    CommitParts(base, caches, ChangesOf(chain), chain.blocks, TipOf(chain));
    ExecutedEntries(Merged(base, caches), chain);
    assert a in Merged(base, caches).accounts;
  }

  /** One block of the line is a faithful chain when its outcome says what the node says. */
  lemma OneBlockFaithful(account: (B256, Address) -> AccountInfo, h: B256, state: map<Address, BundleAccount>)
    returns (chain: Chain)
    requires h > 1
    requires forall a :: a in state ==>
               && state[a].storage == map[]
               && account(h, a) == if state[a].info.Some? then state[a].info.value else AccountInfo(0, 0, 0)
    requires forall a :: a !in state ==> account(h, a) == account(h - 1, a)
    ensures WellFormed(Line(account)) && Faithful(Line(account), chain)
    ensures First(chain) == Tip(chain) == LineBlock(h)
    ensures chain.outcome.state == state
  {
    chain := RawChain([LineBlock(h)], Bundle(state, map[]));
  }

  lemma HoldingFiveIsTrue(account: (B256, Address) -> AccountInfo, stale: bool)
    requires account(1, 5) == AccountInfo(7, 1, 0)
    ensures HoldsTruth(Line(account), HoldingFive(stale)) && AtRealBlock(Line(account), HoldingFive(stale))
  {
  }

  /** The deletion condition cannot be dropped: a held account survives its own deletion. */
  lemma DeletionIsMissed() returns (node: Node, current: Snapshot, chain: Chain)
    ensures WellFormed(node) && HoldsTruth(node, current) && AtRealBlock(node, current) && !current.stale
    ensures Faithful(node, chain) && First(chain).parentHash == current.blockHash
    ensures var next := NextSnapshot(current, ChainCommitted(chain), NO_CACHES);
            && !next.stale && next.blockHash == Tip(chain).hash && !HoldsTruth(node, next)
  {
    var account := (h: B256, a: Address) => if a == 5 && h < 2 then AccountInfo(7, 1, 0) else AccountInfo(0, 0, 0);
    node, current := Line(account), HoldingFive(false);
    HoldingFiveIsTrue(account, false);
    chain := OneBlockFaithful(account, 2, map[5 := BundleAccount(None, map[])]);
    UnwrittenKept(current, chain, NO_CACHES, 5);
  }

  /** A commit accepted after a gap builds on the stale snapshot, not from scratch: what the missed blocks
      wrote and the new chain does not list stays as it was. */
  lemma GapRecoveryKeepsOldValues() returns (node: Node, current: Snapshot, chain: Chain)
    ensures WellFormed(node) && HoldsTruth(node, current) && AtRealBlock(node, current) && current.stale
    ensures Faithful(node, chain)
    ensures var next := NextSnapshot(current, ChainCommitted(chain), NO_CACHES);
            && !next.stale && next.blockHash == Tip(chain).hash && !HoldsTruth(node, next)
  {
    var account := (h: B256, a: Address) => AccountInfo(if h < 2 then 7 else 8, 1, 0);
    node, current := Line(account), HoldingFive(true);
    HoldingFiveIsTrue(account, true);
    chain := OneBlockFaithful(account, 3, map[]);
    UnwrittenKept(current, chain, NO_CACHES, 5);
  }

  /** Why clients wait for the ready signal: reads made on the initial snapshot are tagged with no block,
      and the first commit merges them. The new snapshot is then true exactly when every early answer the
      chain does not overwrite happens to be the new tip's. */
  lemma {:induction false} EarlyReadsAreMerged(node: Node, base: Snapshot, chain: Chain, caches: Caches)
    requires base.blockHash == ZERO_HASH && HoldsTruth(node, base) && Faithful(node, chain)
    requires caches.accounts.blockHash == ZERO_HASH && caches.storage.blockHash == ZERO_HASH
    ensures var next := NextSnapshot(base, ChainCommitted(chain), caches);
            && next.blockHash == Tip(chain).hash
            && (HoldsTruth(node, next) <==> UnwrittenTrue(node, caches.accounts.data, caches.storage.data,
                                                          chain.outcome.state, Tip(chain).hash))
  {
    var merged := Merged(base, caches);
    assert merged.accounts == caches.accounts.data && merged.storage == caches.storage.data;
    CommitParts(base, caches, ChangesOf(chain), chain.blocks, TipOf(chain));
    ExecutionTrueIffUnwrittenTrue(node, merged, chain, Tip(chain).hash);
  }

  /** Such a read does go wrong: an answer true of an earlier block is merged and kept at the new tip. */
  lemma EarlyReadGoesWrong() returns (node: Node, chain: Chain, caches: Caches)
    ensures WellFormed(node) && Faithful(node, chain)
    ensures caches == NO_CACHES.(accounts := TaggedCache(ZERO_HASH, map[5 := node.account(1, 5)]))
    ensures var next := NextSnapshot(EMPTY_SNAPSHOT, ChainCommitted(chain), caches);
            !next.stale && next.blockHash == Tip(chain).hash && !HoldsTruth(node, next)
  {
    var account := (h: B256, a: Address) => AccountInfo(if h < 2 then 7 else 8, 1, 0);
    node := Line(account);
    chain := OneBlockFaithful(account, 3, map[]);
    caches := NO_CACHES.(accounts := TaggedCache(ZERO_HASH, map[5 := node.account(1, 5)]));
    EarlyReadStays(node, EMPTY_SNAPSHOT, chain, caches, 5);
  }

  lemma EarlyReadStays(node: Node, base: Snapshot, chain: Chain, caches: Caches, a: Address)
    requires base.blockHash == ZERO_HASH && HoldsTruth(node, base) && Faithful(node, chain)
    requires caches.accounts.blockHash == ZERO_HASH && caches.storage.blockHash == ZERO_HASH
    requires a in caches.accounts.data && !WritesInfo(chain.outcome.state, a)
    requires caches.accounts.data[a] != node.account(Tip(chain).hash, a)
    ensures var next := NextSnapshot(base, ChainCommitted(chain), caches);
            !next.stale && next.blockHash == Tip(chain).hash && !HoldsTruth(node, next)
  {
    EarlyReadsAreMerged(node, base, chain, caches);
    CommitParts(base, caches, ChangesOf(chain), chain.blocks, TipOf(chain));
  }

  // ---------------------------------------------------------------------------------------------
  // The other transitions

  /** A reorg, a revert and going stale keep the agreement with no condition at all: the first two start
      from empty maps, the last keeps both the maps and the block. */
  lemma OtherTransitionsHoldTruth(node: Node, current: Snapshot, cutoff: nat, changes: ExecutionChanges,
                                  blocks: seq<Block>, tip: ChainTip)
    requires HoldsTruth(node, current)
    ensures var r := ReorgState(current, cutoff, changes, blocks, tip);
            HoldsTruth(node, r) && r.accounts == map[] && r.storage == map[]
    ensures var v := RevertState(current, cutoff);
            HoldsTruth(node, v) && v.accounts == map[] && v.storage == map[] && v.stale && v.blockHash == ZERO_HASH
    ensures HoldsTruth(node, MarkStale(current))
  {
  }

  /** Every notification leaves the snapshot at a real block, with that block's header and withdrawals, or
      at none. */
  lemma NextAtRealBlock(node: Node, base: Snapshot, n: Notification, caches: Caches)
    requires AtRealBlock(node, base)
    requires n.ChainCommitted? ==> Linked(node, n.committed.blocks)
    requires n.ChainReorged? ==> Linked(node, n.new_.blocks)
    ensures var next := NextSnapshot(base, n, caches);
            && AtRealBlock(node, next)
            && (Accepted(base, n) ==> !next.stale && next.blockHash != ZERO_HASH
                                      && next.blockHash == (if n.ChainCommitted? then Tip(n.committed).hash
                                                            else Tip(n.new_).hash))
            && (!Accepted(base, n) ==> next.stale)
  {
  }

  /** The condition one notification needs for the next snapshot to agree with the node. Only an accepted
      commit on a snapshot of some block needs one: no held deletion when it connects, and nothing missed
      that is held and unlisted when it recovers from a gap. */
  ghost predicate Harmless(node: Node, base: Snapshot, n: Notification, caches: Caches) {
    n.ChainCommitted? && Accepted(base, n) && base.blockHash != ZERO_HASH ==>
      if base.stale
      then Undisturbed(node, Merged(base, caches), n.committed.outcome.state, base.blockHash, Tip(n.committed).hash)
      else NoHeldDeletion(node, Merged(base, caches), n.committed.outcome.state)
  }

  ghost predicate FaithfulNotification(node: Node, n: Notification) {
    match n
    case ChainCommitted(c) => Faithful(node, c)
    case ChainReorged(o, w) => Linked(node, o.blocks) && Faithful(node, w)
    case ChainReverted(c) => Linked(node, c.blocks)
  }

  lemma {:induction false} CommitTrueIffHarmless(node: Node, base: Snapshot, c: Chain, caches: Caches)
    requires WellFormed(node) && HoldsTruth(node, base) && AtRealBlock(node, base) && CachesTrue(node, caches)
    requires Faithful(node, c) && Accepted(base, ChainCommitted(c))
    ensures HoldsTruth(node, CommitState(base, caches, ChangesOf(c), c.blocks, TipOf(c)))
            <==> Harmless(node, base, ChainCommitted(c), caches)
  {
    CommitTrueIffUndisturbed(node, base, caches, c);
    if base.blockHash == ZERO_HASH {
      MergedHoldsTruth(node, base, caches);
    } else if !base.stale {
      CommitAcceptedIffConnected(node, CurrentState(base.block, base.blockHash, false), c);
      ConnectedCommitTrueIffNoHeldDeletion(node, base, caches, c);
    }
  }

  /** One turn of the writer: from an agreeing snapshot and true caches the next snapshot agrees with the
      node if and only if the notification is harmless. */
  lemma {:induction false} NextTrueIffHarmless(node: Node, base: Snapshot, n: Notification, caches: Caches)
    requires WellFormed(node) && HoldsTruth(node, base) && AtRealBlock(node, base) && CachesTrue(node, caches)
    requires FaithfulNotification(node, n)
    ensures HoldsTruth(node, NextSnapshot(base, n, caches)) <==> Harmless(node, base, n, caches)
  {
    match n
    case ChainCommitted(c) =>
      if Accepted(base, n) {
        CommitTrueIffHarmless(node, base, c, caches);
      }
    case ChainReorged(o, w) =>
      OtherTransitionsHoldTruth(node, base, Below(o), ChangesOf(w), w.blocks, TipOf(w));
    case ChainReverted(c) =>
      OtherTransitionsHoldTruth(node, base, Below(c), ChangesOf(c), c.blocks, TipOf(c));
  }

  // ---------------------------------------------------------------------------------------------
  // Code

  ghost predicate CodeTrue(node: Node, code: map<B256, Bytecode>) {
    forall h :: h in code ==> node.keccak(code[h]) == h
  }

  ghost predicate NoCollisions(node: Node) {
    forall c1: Bytecode, c2: Bytecode :: node.keccak(c1) == node.keccak(c2) ==> c1 == c2
  }

  /** The contracts an outcome lists are stored under their own hash. */
  ghost predicate ContractsTrue(node: Node, n: Notification) {
    && (n.ChainCommitted? ==> CodeTrue(node, n.committed.outcome.contracts))
    && (n.ChainReorged? ==> CodeTrue(node, n.new_.outcome.contracts))
  }

  lemma NextCode(base: Snapshot, n: Notification, caches: Caches)
    ensures var next := NextSnapshot(base, n, caches);
            next.code == match n
                         case ChainCommitted(c) =>
                           if Accepted(base, n) then base.code + caches.code + c.outcome.contracts else base.code
                         case ChainReorged(_, w) =>
                           if Accepted(base, n) then base.code + w.outcome.contracts else base.code
                         case ChainReverted(_) => base.code
  {
  }

  lemma MoreCode(node: Node, code: map<B256, Bytecode>, more: map<B256, Bytecode>)
    requires NoCollisions(node) && CodeTrue(node, code) && CodeTrue(node, more)
    ensures CodeTrue(node, code + more)
    ensures forall h :: h in code ==> (code + more)[h] == code[h]
  {
    forall h | h in code
      ensures (code + more)[h] == code[h]
    {
      if h in more {
        assert node.keccak(code[h]) == node.keccak(more[h]);
      }
    }
  }

  /** Across every notification the code store only grows and no entry ever changes. */
  lemma CodeOnlyGrows(node: Node, base: Snapshot, n: Notification, caches: Caches)
    requires NoCollisions(node) && CodeTrue(node, base.code) && CodeTrue(node, caches.code) && ContractsTrue(node, n)
    ensures var next := NextSnapshot(base, n, caches);
            CodeTrue(node, next.code) && forall h :: h in base.code ==> h in next.code && next.code[h] == base.code[h]
  {
    NextCode(base, n, caches);
    MoreCode(node, base.code, caches.code);
    if n.ChainCommitted? {
      MoreCode(node, base.code + caches.code, n.committed.outcome.contracts);
    }
    if n.ChainReorged? {
      MoreCode(node, base.code, n.new_.outcome.contracts);
    }
  }
}
