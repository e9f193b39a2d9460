/** One turn of the writer, entry by entry: what every field of the next snapshot is, said of the snapshot before,
    the flushed caches and the notification alone. */
module Turns {
  import opened Types
  import opened Chains
  import opened Snapshots
  import opened Transitions
  import opened Changesets
  import opened Coherence
  import opened ChainIndex

  // ---------------------------------------------------------------------------------------------
  // Which notifications are applied

  ghost predicate AtNoBlock(base: Snapshot) {
    base.block == 0 || base.blockHash == ZERO_HASH
  }

  ghost predicate Holds(blocks: seq<Block>, base: Snapshot) {
    exists i :: 0 <= i < |blocks| && blocks[i].number == base.block && blocks[i].hash == base.blockHash
  }

  /** The commit extends the snapshot's block, overlaps it, or finds nothing to connect to. */
  ghost predicate Applies(base: Snapshot, c: Chain) {
    || AtNoBlock(base) || base.stale
    || (c.blocks[0].number == base.block + 1 && c.blocks[0].parentHash == base.blockHash)
    || (c.blocks[0].number <= base.block && Holds(c.blocks, base))
  }

  /** The reorg replaces a chain the snapshot's block is on, or finds nothing to replace. Going stale does not
      matter here. */
  ghost predicate Replaces(base: Snapshot, o: Chain) {
    AtNoBlock(base) || o.blocks[|o.blocks| - 1].hash == base.blockHash || Holds(o.blocks, base)
  }

  /** A commit or a reorg is accepted exactly then; a stale or fresh snapshot accepts any commit, a fresh or
      reverted one any reorg; a revert is never an advance. */
  lemma AcceptedExactly(base: Snapshot, n: Notification)
    ensures Accepted(base, n) <==> match n
                                   case ChainCommitted(c) => Applies(base, c)
                                   case ChainReorged(o, _) => Replaces(base, o)
                                   case ChainReverted(_) => false
    ensures n.ChainCommitted? ==>
              (CommitVerdict(base, n.committed).CommitAcceptAny? <==> AtNoBlock(base) || base.stale)
    ensures n.ChainReorged? ==> (ReorgVerdict(base, n.old_).ReorgAcceptAny? <==> AtNoBlock(base))
  {
  }

  // ---------------------------------------------------------------------------------------------
  // Fields

  /** The last 64 of some entries followed by others. */
  ghost predicate LastOf<T>(h: seq<T>, front: seq<T>, back: seq<T>) {
    var all := front + back;
    |h| == (if |all| < 64 then |all| else 64) && h == all[|all| - |h|..]
  }

  function Recorded(blocks: seq<Block>): seq<BlockReceipts> {
    seq(|blocks|, i requires 0 <= i < |blocks| =>
      BlockReceipts(blocks[i].number, blocks[i].receipts, blocks[i].txHashes))
  }

  ghost predicate Numbered(blocks: seq<Block>, n: int) {
    exists i :: 0 <= i < |blocks| && blocks[i].number == n
  }

  /** The entries at or below a height, in the order they stand. */
  function Filtered<T>(q: seq<T>, blockOf: T -> nat, cutoff: nat): seq<T>
    decreases |q|
  {
    if q == [] then []
    else Filtered(q[..|q| - 1], blockOf, cutoff) + if blockOf(q[|q| - 1]) <= cutoff then [q[|q| - 1]] else []
  }

  function ReceiptsBlock(e: BlockReceipts): nat { e.block }

  function ChangedBlock(e: BlockChangedAccounts): nat { e.block }

  /** Each account: listed with info it has that info, else what was flushed for this block, else what was held. */
  ghost predicate CommitAccounts(base: Snapshot, c: Chain, caches: Caches, next: Snapshot) {
    var state := c.outcome.state;
    && (forall a :: a in next.accounts <==>
          a in base.accounts || (caches.accounts.blockHash == base.blockHash && a in caches.accounts.data))
    && (forall a :: a in next.accounts ==>
          next.accounts[a] == if a in state && state[a].info.Some? then state[a].info.value
                              else if caches.accounts.blockHash == base.blockHash && a in caches.accounts.data
                              then caches.accounts.data[a]
                              else base.accounts[a])
  }

  ghost predicate CommitSlots(base: Snapshot, c: Chain, caches: Caches, next: Snapshot) {
    var state := c.outcome.state;
    && (forall k :: k in next.storage <==>
          k in base.storage || (caches.storage.blockHash == base.blockHash && k in caches.storage.data))
    && (forall k :: k in next.storage ==>
          next.storage[k] == if k.0 in state && k.1 in state[k.0].storage then state[k.0].storage[k.1]
                             else if caches.storage.blockHash == base.blockHash && k in caches.storage.data
                             then caches.storage.data[k]
                             else base.storage[k])
  }

  ghost predicate CommitCode(base: Snapshot, c: Chain, caches: Caches, next: Snapshot) {
    && (forall h :: h in next.code <==> h in base.code || h in caches.code || h in c.outcome.contracts)
    && (forall h :: h in next.code ==>
          next.code[h] == if h in c.outcome.contracts then c.outcome.contracts[h]
                          else if h in caches.code then caches.code[h] else base.code[h])
  }

  /** Each block of the chain is indexed; a number it does not reach has what was flushed, else what was held. */
  ghost predicate CommitIndex(base: Snapshot, c: Chain, caches: Caches, next: Snapshot) {
    && (forall n :: n in next.blockHashes <==>
          Numbered(c.blocks, n) || n in base.blockHashes
          || (caches.blockHashes.blockHash == base.blockHash && n in caches.blockHashes.data))
    && (forall n :: n in next.blockHashes && !Numbered(c.blocks, n) ==>
          next.blockHashes[n] == if caches.blockHashes.blockHash == base.blockHash && n in caches.blockHashes.data
                                 then caches.blockHashes.data[n] else base.blockHashes[n])
    && (forall i :: 0 <= i < |c.blocks| && (forall j :: i < j < |c.blocks| ==> c.blocks[j].number != c.blocks[i].number)
          ==> c.blocks[i].number in next.blockHashes && next.blockHashes[c.blocks[i].number] == c.blocks[i].hash)
  }

  /** Position, tip data and the two histories: the last 64 entries, the chain's blocks last, and the changed
      accounts of the whole chain, ascending, recorded once at the tip. */
  ghost predicate AtTipOf(c: Chain, receipts: seq<BlockReceipts>, changed: seq<BlockChangedAccounts>, next: Snapshot) {
    var tip := c.blocks[|c.blocks| - 1];
    && next.block == tip.number && next.blockHash == tip.hash && !next.stale
    && next.header == Some(tip.header) && next.withdrawals == tip.withdrawals
    && LastOf(next.receiptsHistory, receipts, Recorded(c.blocks))
    && next.changedHistory != []
    && var last := next.changedHistory[|next.changedHistory| - 1];
       && LastOf(next.changedHistory, changed, [last])
       && last.block == tip.number && Ascending(last.accounts)
       && forall a :: a in last.accounts <==> a in c.outcome.state
  }

  ghost predicate CommitNext(base: Snapshot, c: Chain, caches: Caches, next: Snapshot) {
    && CommitAccounts(base, c, caches, next) && CommitSlots(base, c, caches, next)
    && CommitCode(base, c, caches, next) && CommitIndex(base, c, caches, next)
    && AtTipOf(c, base.receiptsHistory, base.changedHistory, next)
  }

  // ---------------------------------------------------------------------------------------------
  // Commits

  lemma {:induction false} IndexedKeys(index: map<nat, B256>, blocks: seq<Block>)
    ensures var after := Indexed(index, blocks);
            && (forall n :: n in after <==> Numbered(blocks, n) || n in index)
            && (forall n :: n in after && !Numbered(blocks, n) ==> after[n] == index[n])
    decreases |blocks|
  {
    if blocks == [] {
    } else {
      var front, last := blocks[..|blocks| - 1], blocks[|blocks| - 1];
      IndexedKeys(index, front);
      forall n: int
        ensures Numbered(blocks, n) <==> Numbered(front, n) || n == last.number
      {
        if Numbered(front, n) {
          var i :| 0 <= i < |front| && front[i].number == n;
          assert blocks[i].number == n;
        }
        if Numbered(blocks, n) {
          var i :| 0 <= i < |blocks| && blocks[i].number == n;
          assert i < |front| ==> front[i].number == n;
        }
        assert blocks[|blocks| - 1] == last;
      }
    }
  }

  lemma {:induction false} IndexedLast(index: map<nat, B256>, blocks: seq<Block>, i: nat)
    requires i < |blocks| && forall j :: i < j < |blocks| ==> blocks[j].number != blocks[i].number
    ensures blocks[i].number in Indexed(index, blocks)
    ensures Indexed(index, blocks)[blocks[i].number] == blocks[i].hash
    decreases |blocks|
  {
    if i < |blocks| - 1 {
      IndexedLast(index, blocks[..|blocks| - 1], i);
    }
  }

  lemma {:induction false} IndexedAll(index: map<nat, B256>, blocks: seq<Block>)
    ensures var after := Indexed(index, blocks);
            forall i :: 0 <= i < |blocks| && (forall j :: i < j < |blocks| ==> blocks[j].number != blocks[i].number)
              ==> blocks[i].number in after && after[blocks[i].number] == blocks[i].hash
  {
    forall i: nat | i < |blocks| && forall j :: i < j < |blocks| ==> blocks[j].number != blocks[i].number
      ensures blocks[i].number in Indexed(index, blocks)
      ensures Indexed(index, blocks)[blocks[i].number] == blocks[i].hash
    {
      IndexedLast(index, blocks, i);
    }
  }

  lemma MergedEntries(base: Snapshot, caches: Caches)
    ensures var m := Merged(base, caches);
            && m.accounts == (if caches.accounts.blockHash == base.blockHash
                              then base.accounts + caches.accounts.data else base.accounts)
            && m.storage == (if caches.storage.blockHash == base.blockHash
                             then base.storage + caches.storage.data else base.storage)
            && m.blockHashes == (if caches.blockHashes.blockHash == base.blockHash
                                 then base.blockHashes + caches.blockHashes.data else base.blockHashes)
            && m.code == base.code + caches.code
            && m.receiptsHistory == base.receiptsHistory && m.changedHistory == base.changedHistory
  {
    assert base.accounts + map[] == base.accounts && base.storage + map[] == base.storage;
    assert base.blockHashes + map[] == base.blockHashes;
  }

  lemma CommitFields(base: Snapshot, c: Chain, caches: Caches)
    ensures var next := CommitState(base, caches, ChangesOf(c), c.blocks, TipOf(c));
            && CommitAccounts(base, c, caches, next) && CommitSlots(base, c, caches, next)
            && CommitCode(base, c, caches, next)
  {
    MergedEntries(base, caches);
    ExecutedEntries(Merged(base, caches), c);
    CommitParts(base, caches, ChangesOf(c), c.blocks, TipOf(c));
  }

  lemma CommitIndexFields(base: Snapshot, c: Chain, caches: Caches)
    ensures CommitIndex(base, c, caches, CommitState(base, caches, ChangesOf(c), c.blocks, TipOf(c)))
  {
    var merged := Merged(base, caches);
    MergedEntries(base, caches);
    CommitMemory(base, caches, ChangesOf(c), c.blocks, TipOf(c));
    IndexedKeys(merged.blockHashes, c.blocks);
    IndexedAll(merged.blockHashes, c.blocks);
  }

  lemma {:induction false} FinishedFields(s: Snapshot, c: Chain)
    ensures AtTipOf(c, s.receiptsHistory, s.changedHistory,
                    AtTip(ApplyBlocks(ApplyExecution(s, ChangesOf(c)), c.blocks), ChangesOf(c),
                          TipOf(c)).(stale := false))
  {
    var executed := ApplyExecution(s, ChangesOf(c));
    SomeBlocks(executed, c.blocks);
    assert AllReceipts(c.blocks) == Recorded(c.blocks);
    BoundedIsLast(s.receiptsHistory, AllReceipts(c.blocks));
    ChangedRecord(s.changedHistory, c);
  }

  lemma BoundedIsLast<T>(front: seq<T>, back: seq<T>)
    ensures LastOf(Bounded(front + back), front, back)
  {
  }

  lemma {:induction false} ChangedRecord(q: seq<BlockChangedAccounts>, c: Chain)
    ensures var record := BlockChangedAccounts(TipOf(c).number, SortedKeys(ChangesOf(c).accounts.Keys));
            var h := Bounded(q + [record]);
            && h != [] && h[|h| - 1] == record && LastOf(h, q, [record]) && Ascending(record.accounts)
            && forall a :: a in record.accounts <==> a in c.outcome.state
  {
    var record := BlockChangedAccounts(TipOf(c).number, SortedKeys(ChangesOf(c).accounts.Keys));
    SortedKeysAscend(ChangesOf(c).accounts.Keys);
    BoundedIsLast(q, [record]);
    assert (q + [record])[|q|] == record;
  }

  /** A commit: applied or refused exactly as said, and then the next snapshot field by field. */
  lemma CommitTurn(base: Snapshot, c: Chain, caches: Caches)
    ensures var next := NextSnapshot(base, ChainCommitted(c), caches);
            if Applies(base, c) then CommitNext(base, c, caches, next) else next == base.(stale := true)
  {
    AcceptedExactly(base, ChainCommitted(c));
    if Applies(base, c) {
      CommitFields(base, c, caches);
      CommitIndexFields(base, c, caches);
      MergedEntries(base, caches);
      FinishedFields(Merged(base, caches), c);
      var next := NextSnapshot(base, ChainCommitted(c), caches);
      CommitParts(base, caches, ChangesOf(c), c.blocks, TipOf(c));
      assert next == next.(stale := false);
    }
  }

  // ---------------------------------------------------------------------------------------------
  // Reorgs and reverts

  lemma {:induction false} ReceiptsKept(q: seq<BlockReceipts>, cutoff: nat)
    ensures ReceiptsUpTo(q, cutoff) == Filtered(q, ReceiptsBlock, cutoff)
    decreases |q|
  {
    if q == [] {
    } else {
      ReceiptsKept(q[..|q| - 1], cutoff);
    }
  }

  lemma {:induction false} ChangedKept(q: seq<BlockChangedAccounts>, cutoff: nat)
    ensures ChangedUpTo(q, cutoff) == Filtered(q, ChangedBlock, cutoff)
    decreases |q|
  {
    if q == [] {
    } else {
      ChangedKept(q[..|q| - 1], cutoff);
    }
  }

  /** The height below the old chain, and not below zero. */
  function CutHeight(c: Chain): nat {
    if c.blocks[0].number == 0 then 0 else c.blocks[0].number - 1
  }

  /** Nothing is left but code, and the index and histories at or below the cutoff. */
  ghost predicate CutIndex(base: Snapshot, cutoff: nat, index: map<nat, B256>) {
    && (forall n :: n in index <==> n in base.blockHashes && n <= cutoff)
    && (forall n :: n in index ==> index[n] == base.blockHashes[n])
  }

  ghost predicate RevertNext(base: Snapshot, c: Chain, next: Snapshot) {
    && next.stale && next.block == CutHeight(c) && next.blockHash == ZERO_HASH
    && next.header == None && next.withdrawals == None
    && next.accounts == map[] && next.storage == map[] && next.code == base.code
    && CutIndex(base, CutHeight(c), next.blockHashes)
    && next.receiptsHistory == Filtered(base.receiptsHistory, ReceiptsBlock, CutHeight(c))
    && next.changedHistory == Filtered(base.changedHistory, ChangedBlock, CutHeight(c))
  }

  /** A revert: stale, at no block, everything above the cut forgotten. */
  lemma RevertTurn(base: Snapshot, c: Chain, caches: Caches)
    ensures RevertNext(base, c, NextSnapshot(base, ChainReverted(c), caches))
  {
    var cutoff := CutHeight(c);
    RevertParts(base, cutoff);
    ReceiptsKept(base.receiptsHistory, cutoff);
    ChangedKept(base.changedHistory, cutoff);
    assert [] + ChangedUpTo(base.changedHistory, cutoff) == ChangedUpTo(base.changedHistory, cutoff);
  }

  ghost predicate ReorgNext(base: Snapshot, o: Chain, w: Chain, next: Snapshot) {
    && next.accounts == map[] && next.storage == map[]
    && (forall h :: h in next.code <==> h in base.code || h in w.outcome.contracts)
    && (forall h :: h in next.code ==>
          next.code[h] == if h in w.outcome.contracts then w.outcome.contracts[h] else base.code[h])
    && (forall n :: n in next.blockHashes <==>
          Numbered(w.blocks, n) || (n in base.blockHashes && n <= CutHeight(o)))
    && (forall n :: n in next.blockHashes && !Numbered(w.blocks, n) ==> next.blockHashes[n] == base.blockHashes[n])
    && (forall i :: 0 <= i < |w.blocks| && (forall j :: i < j < |w.blocks| ==> w.blocks[j].number != w.blocks[i].number)
          ==> w.blocks[i].number in next.blockHashes && next.blockHashes[w.blocks[i].number] == w.blocks[i].hash)
    && AtTipOf(w, Filtered(base.receiptsHistory, ReceiptsBlock, CutHeight(o)),
               Filtered(base.changedHistory, ChangedBlock, CutHeight(o)), next)
  }

  lemma ReorgFields(base: Snapshot, o: Chain, w: Chain)
    ensures var next := ReorgState(base, Below(o), ChangesOf(w), w.blocks, TipOf(w));
            && next.accounts == map[] && next.storage == map[] && next.code == base.code + w.outcome.contracts
            && !next.stale
  {
    var cut := HistoryBefore(base, Below(o), EMPTY_SNAPSHOT);
    ExecutedEntries(cut, w);
    BlocksApart(ApplyExecution(cut, ChangesOf(w)), w.blocks);
  }

  lemma ReorgIndexFields(base: Snapshot, o: Chain, w: Chain)
    ensures var index := ReorgState(base, Below(o), ChangesOf(w), w.blocks, TipOf(w)).blockHashes;
            && (forall n :: n in index <==> Numbered(w.blocks, n) || (n in base.blockHashes && n <= CutHeight(o)))
            && (forall n :: n in index && !Numbered(w.blocks, n) ==> index[n] == base.blockHashes[n])
            && forall i :: 0 <= i < |w.blocks|
                 && (forall j :: i < j < |w.blocks| ==> w.blocks[j].number != w.blocks[i].number)
                 ==> w.blocks[i].number in index && index[w.blocks[i].number] == w.blocks[i].hash
  {
    var cut := Cut(base.blockHashes, Below(o));
    ReorgMemory(base, Below(o), ChangesOf(w), w.blocks, TipOf(w));
    IndexedKeys(cut, w.blocks);
    IndexedAll(cut, w.blocks);
  }

  lemma ReorgHistories(base: Snapshot, o: Chain, w: Chain)
    ensures var next := ReorgState(base, Below(o), ChangesOf(w), w.blocks, TipOf(w));
            AtTipOf(w, Filtered(base.receiptsHistory, ReceiptsBlock, CutHeight(o)),
                    Filtered(base.changedHistory, ChangedBlock, CutHeight(o)), next)
  {
    var cut := HistoryBefore(base, Below(o), EMPTY_SNAPSHOT);
    FinishedFields(cut, w);
    ReorgFields(base, o, w);
    var next := ReorgState(base, Below(o), ChangesOf(w), w.blocks, TipOf(w));
    assert next == next.(stale := false);
    ReceiptsKept(base.receiptsHistory, CutHeight(o));
    ChangedKept(base.changedHistory, CutHeight(o));
    assert cut.receiptsHistory == ReceiptsUpTo(base.receiptsHistory, CutHeight(o));
    assert cut.changedHistory == ChangedUpTo(base.changedHistory, CutHeight(o));
  }

  /** A reorg: applied or refused exactly as said, and then the next snapshot field by field. */
  lemma ReorgTurn(base: Snapshot, o: Chain, w: Chain, caches: Caches)
    ensures var next := NextSnapshot(base, ChainReorged(o, w), caches);
            if Replaces(base, o) then ReorgNext(base, o, w, next) else next == base.(stale := true)
  {
    AcceptedExactly(base, ChainReorged(o, w));
    if Replaces(base, o) {
      ReorgFields(base, o, w);
      ReorgIndexFields(base, o, w);
      ReorgHistories(base, o, w);
    }
  }

  // ---------------------------------------------------------------------------------------------
  // Any notification

  /** A commit or reorg that does not apply leaves everything but marks it stale. */
  ghost predicate Turn(base: Snapshot, n: Notification, caches: Caches, next: Snapshot) {
    match n
    case ChainCommitted(c) =>
      if Applies(base, c) then CommitNext(base, c, caches, next) else next == base.(stale := true)
    case ChainReorged(o, w) =>
      if Replaces(base, o) then ReorgNext(base, o, w, next) else next == base.(stale := true)
    case ChainReverted(c) => RevertNext(base, c, next)
  }

  lemma EveryTurn(base: Snapshot, n: Notification, caches: Caches)
    ensures Turn(base, n, caches, NextSnapshot(base, n, caches))
  {
    match n
    case ChainCommitted(c) => CommitTurn(base, c, caches);
    case ChainReorged(o, w) => ReorgTurn(base, o, w, caches);
    case ChainReverted(c) => RevertTurn(base, c, caches);
  }
}
