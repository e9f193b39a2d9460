/** How one snapshot becomes the next: commit, reorg, revert, and going stale. */
module Transitions {
  import opened Types
  import opened Chains
  import opened Snapshots

  datatype AccountChange = AccountChange(info: Option<AccountInfo>, storage: map<U256, U256>)

  datatype ExecutionChanges = ExecutionChanges(
    accounts: map<Address, AccountChange>,
    contracts: map<B256, Bytecode>)

  datatype ChainTip = ChainTip(number: nat, hash: B256)

  // ---------------------------------------------------------------------------------------------
  // What the steps compute

  /** Entries fetched at the current block join the snapshot; entries of any other block are dropped.
      Code has no tag and always joins. */
  function MergeCaches(s: Snapshot, caches: Caches, currentHash: B256): Snapshot {
    s.(accounts := if caches.accounts.IsValidFor(currentHash) then s.accounts + caches.accounts.data else s.accounts,
       storage := if caches.storage.IsValidFor(currentHash) then s.storage + caches.storage.data else s.storage,
       blockHashes := if caches.blockHashes.IsValidFor(currentHash) then s.blockHashes + caches.blockHashes.data
                      else s.blockHashes,
       code := s.code + caches.code)
  }

  /** The value an outcome writes to an account, if it writes one. */
  function WrittenInfo(changes: ExecutionChanges, a: Address): Option<AccountInfo> {
    if a in changes.accounts then changes.accounts[a].info else None
  }

  function WrittenSlot(changes: ExecutionChanges, k: (Address, U256)): Option<U256> {
    if k.0 in changes.accounts && k.1 in changes.accounts[k.0].storage
    then Some(changes.accounts[k.0].storage[k.1]) else None
  }

  function Overwritten<T>(written: Option<T>, held: T): T {
    if written.Some? then written.value else held
  }

  /** An outcome is written over the entries the snapshot already holds; code is always taken. */
  function ApplyExecution(s: Snapshot, changes: ExecutionChanges): Snapshot {
    s.(accounts := map a | a in s.accounts :: Overwritten(WrittenInfo(changes, a), s.accounts[a]),
       storage := map k | k in s.storage :: Overwritten(WrittenSlot(changes, k), s.storage[k]),
       code := s.code + changes.contracts)
  }

  function ReceiptsOf(b: Block): BlockReceipts {
    BlockReceipts(b.number, b.receipts, b.txHashes)
  }

  function AllReceipts(blocks: seq<Block>): seq<BlockReceipts> {
    seq(|blocks|, i requires 0 <= i < |blocks| => ReceiptsOf(blocks[i]))
  }

  /** Block numbers to hashes, later blocks winning. */
  function Indexed(index: map<nat, B256>, blocks: seq<Block>): map<nat, B256>
    decreases |blocks|
  {
    if blocks == [] then index
    else
      var last := blocks[|blocks| - 1];
      Indexed(index, blocks[..|blocks| - 1])[last.number := last.hash]
  }

  /** The receipt window after some blocks have been pushed on it. */
  function Pushed(q: seq<BlockReceipts>, blocks: seq<Block>): seq<BlockReceipts> {
    if blocks == [] then q else Bounded(q + AllReceipts(blocks))
  }

  function ApplyBlocks(s: Snapshot, blocks: seq<Block>): Snapshot {
    if blocks == [] then s
    else
      var tip := blocks[|blocks| - 1];
      s.(receiptsHistory := Pushed(s.receiptsHistory, blocks),
         blockHashes := Indexed(s.blockHashes, blocks),
         header := Some(tip.header),
         withdrawals := tip.withdrawals)
  }

  /** `sort_unstable` over the changed addresses. */
  function SortedKeys(keys: set<Address>): seq<Address>
    decreases |keys|
  {
    if keys == {} then []
    else
      LeastExists(keys);
      var m :| IsLeast(m, keys);
      [m] + SortedKeys(keys - {m})
  }

  predicate IsLeast(m: Address, keys: set<Address>) {
    m in keys && forall k :: k in keys ==> m <= k
  }

  lemma {:induction false} LeastExists(keys: set<Address>)
    requires keys != {}
    ensures exists m :: IsLeast(m, keys)
    decreases |keys|
  {
    var x :| x in keys;
    var rest := keys - {x};
    if rest == {} {
      assert keys == {x};
      assert IsLeast(x, keys);
    } else {
      LeastExists(rest);
      var m :| IsLeast(m, rest);
      assert keys == {x} + rest;
      assert IsLeast(if x < m then x else m, keys);
    }
  }

  predicate Ascending(r: seq<Address>) {
    forall i, j :: 0 <= i < j < |r| ==> r[i] < r[j]
  }

  lemma AscendFrom(m: Address, rest: seq<Address>)
    requires Ascending(rest) && forall a :: a in rest ==> m < a
    ensures Ascending([m] + rest)
  {
    assert forall i :: 0 <= i < |rest| ==> rest[i] in rest;
  }

  /** The recorded addresses are the changed ones, ascending. */
  lemma {:induction false} SortedKeysAscend(keys: set<Address>)
    ensures forall a :: a in SortedKeys(keys) <==> a in keys
    ensures Ascending(SortedKeys(keys))
    decreases |keys|
  {
    if keys == {} {
    } else {
      LeastExists(keys);
      var m :| IsLeast(m, keys);
      SortedKeysAscend(keys - {m});
      var rest := SortedKeys(keys - {m});
      assert SortedKeys(keys) == [m] + rest;
      AscendFrom(m, rest);
    }
  }

  /** The changed addresses are recorded once, at the tip. */
  function AtTip(s: Snapshot, changes: ExecutionChanges, tip: ChainTip): Snapshot {
    s.(changedHistory :=
         Bounded(s.changedHistory + [BlockChangedAccounts(tip.number, SortedKeys(changes.accounts.Keys))]),
       block := tip.number,
       blockHash := tip.hash)
  }

  function CommitState(current: Snapshot, caches: Caches, changes: ExecutionChanges, blocks: seq<Block>, tip: ChainTip)
    : Snapshot
  {
    var merged := MergeCaches(current.(stale := false), caches, current.blockHash);
    AtTip(ApplyBlocks(ApplyExecution(merged, changes), blocks), changes, tip)
  }

  function ReceiptsUpTo(q: seq<BlockReceipts>, cutoff: nat): seq<BlockReceipts> {
    if q == [] then []
    else
      var front := ReceiptsUpTo(q[..|q| - 1], cutoff);
      if q[|q| - 1].block <= cutoff then front + [q[|q| - 1]] else front
  }

  function ChangedUpTo(q: seq<BlockChangedAccounts>, cutoff: nat): seq<BlockChangedAccounts> {
    if q == [] then []
    else
      var front := ChangedUpTo(q[..|q| - 1], cutoff);
      if q[|q| - 1].block <= cutoff then front + [q[|q| - 1]] else front
  }

  function HistoryBefore(current: Snapshot, cutoff: nat, s: Snapshot): Snapshot {
    s.(receiptsHistory := s.receiptsHistory + ReceiptsUpTo(current.receiptsHistory, cutoff),
       changedHistory := s.changedHistory + ChangedUpTo(current.changedHistory, cutoff),
       blockHashes := s.blockHashes + (map n | n in current.blockHashes && n <= cutoff :: current.blockHashes[n]),
       code := current.code)
  }

  function ReorgState(current: Snapshot, commonAncestor: nat, changes: ExecutionChanges, blocks: seq<Block>,
                      tip: ChainTip)
    : Snapshot
  {
    AtTip(ApplyBlocks(ApplyExecution(HistoryBefore(current, commonAncestor, EMPTY_SNAPSHOT), changes), blocks),
          changes, tip)
  }

  function RevertState(current: Snapshot, commonAncestor: nat): Snapshot {
    HistoryBefore(current, commonAncestor, EMPTY_SNAPSHOT.(stale := true, block := commonAncestor))
  }

  function MarkStale(s: Snapshot): Snapshot {
    s.(stale := true)
  }

  // ---------------------------------------------------------------------------------------------
  // The steps as the source writes them

  method MergeInto(state: StateSnapshot, caches: Caches, currentHash: B256)
    modifies state
    ensures state.View() == MergeCaches(old(state.View()), caches, currentHash)
  {
    if caches.accounts.IsValidFor(currentHash) {
      state.accounts := state.accounts + caches.accounts.data;
    }
    if caches.storage.IsValidFor(currentHash) {
      state.storage := state.storage + caches.storage.data;
    }
    if caches.blockHashes.IsValidFor(currentHash) {
      state.blockHashes := state.blockHashes + caches.blockHashes.data;
    }
    state.code := state.code + caches.code;
  }

  /** The entries of `held` once the changes to the addresses outside `todo` are written. */
  ghost predicate AccountsDone(was: map<Address, AccountInfo>, held: map<Address, AccountInfo>,
                               changes: ExecutionChanges, todo: set<Address>)
  {
    && held.Keys == was.Keys
    && forall a :: a in was ==>
         held[a] == if a in todo then was[a] else Overwritten(WrittenInfo(changes, a), was[a])
  }

  ghost predicate StorageDone(was: map<(Address, U256), U256>, held: map<(Address, U256), U256>,
                              changes: ExecutionChanges, todo: set<Address>)
  {
    && held.Keys == was.Keys
    && forall k :: k in was ==>
         held[k] == if k.0 in todo then was[k] else Overwritten(WrittenSlot(changes, k), was[k])
  }

  /** The inner loop: one account's slots, in any order, over the slots already held. */
  method WriteSlots(state: StateSnapshot, address: Address, slots: map<U256, U256>)
    modifies state`storage
    ensures state.storage.Keys == old(state.storage).Keys
    ensures forall k :: k in state.storage ==>
              state.storage[k] == if k.0 == address && k.1 in slots then slots[k.1] else old(state.storage)[k]
  {
    var todo := slots.Keys;
    while todo != {}
      invariant todo <= slots.Keys
      invariant state.storage.Keys == old(state.storage).Keys
      invariant forall k :: k in state.storage ==>
                  state.storage[k] == if k.0 == address && k.1 in slots.Keys - todo then slots[k.1]
                                      else old(state.storage)[k]
      decreases |todo|
    {
      var slot :| slot in todo;
      if (address, slot) in state.storage {
        state.storage := state.storage[(address, slot) := slots[slot]];
      }
      todo := todo - {slot};
    }
  }

  lemma AccountsStep(was: map<Address, AccountInfo>, held: map<Address, AccountInfo>, held': map<Address, AccountInfo>,
                     changes: ExecutionChanges, todo: set<Address>, address: Address)
    requires AccountsDone(was, held, changes, todo) && address in todo && address in changes.accounts
    requires held' == if changes.accounts[address].info.Some? && address in held
                      then held[address := changes.accounts[address].info.value] else held
    ensures AccountsDone(was, held', changes, todo - {address})
  {
  }

  lemma StorageStep(was: map<(Address, U256), U256>, held: map<(Address, U256), U256>,
                    held': map<(Address, U256), U256>, changes: ExecutionChanges, todo: set<Address>, address: Address)
    requires StorageDone(was, held, changes, todo) && address in todo && address in changes.accounts
    requires held'.Keys == held.Keys
    requires var slots := changes.accounts[address].storage;
             forall k :: k in held' ==> held'[k] == if k.0 == address && k.1 in slots then slots[k.1] else held[k]
    ensures StorageDone(was, held', changes, todo - {address})
  {
  }

  lemma AllDone(was: Snapshot, accounts: map<Address, AccountInfo>, storage: map<(Address, U256), U256>,
                changes: ExecutionChanges)
    requires AccountsDone(was.accounts, accounts, changes, {}) && StorageDone(was.storage, storage, changes, {})
    ensures was.(accounts := accounts, storage := storage, code := was.code + changes.contracts)
            == ApplyExecution(was, changes)
  {
    assert accounts == ApplyExecution(was, changes).accounts;
    assert storage == ApplyExecution(was, changes).storage;
  }

  method WriteAccount(state: StateSnapshot, address: Address, change: AccountChange)
    modifies state`accounts, state`storage
    ensures state.accounts == if change.info.Some? && address in old(state.accounts)
                              then old(state.accounts)[address := change.info.value] else old(state.accounts)
    ensures state.storage.Keys == old(state.storage).Keys
    ensures forall k :: k in state.storage ==>
              state.storage[k] == if k.0 == address && k.1 in change.storage then change.storage[k.1]
                                  else old(state.storage)[k]
  {
    if change.info.Some? && address in state.accounts {
      state.accounts := state.accounts[address := change.info.value];
    }
    WriteSlots(state, address, change.storage);
  }

  /** The outcome's accounts may come in any order: the result is the same snapshot. */
  method ExecuteInto(state: StateSnapshot, changes: ExecutionChanges)
    modifies state
    ensures state.View() == ApplyExecution(old(state.View()), changes)
  {
    var todo := changes.accounts.Keys;
    while todo != {}
      invariant todo <= changes.accounts.Keys
      invariant AccountsDone(old(state.accounts), state.accounts, changes, todo)
      invariant StorageDone(old(state.storage), state.storage, changes, todo)
      invariant state.View() == old(state.View()).(accounts := state.accounts, storage := state.storage)
      decreases |todo|
    {
      var address :| address in todo;
      ghost var accounts, storage := state.accounts, state.storage;
      WriteAccount(state, address, changes.accounts[address]);
      AccountsStep(old(state.accounts), accounts, state.accounts, changes, todo, address);
      StorageStep(old(state.storage), storage, state.storage, changes, todo, address);
      todo := todo - {address};
    }
    AllDone(old(state.View()), state.accounts, state.storage, changes);
    state.code := state.code + changes.contracts;
  }

  lemma PushedOne(q: seq<BlockReceipts>, blocks: seq<Block>, i: nat)
    requires i < |blocks|
    ensures Bounded(Pushed(q, blocks[..i]) + [ReceiptsOf(blocks[i])]) == Pushed(q, blocks[..i + 1])
  {
    assert AllReceipts(blocks[..i + 1]) == AllReceipts(blocks[..i]) + [ReceiptsOf(blocks[i])];
    if i == 0 {
      assert AllReceipts(blocks[..1]) == [ReceiptsOf(blocks[0])];
    } else {
      BoundedPush(q, AllReceipts(blocks[..i]), ReceiptsOf(blocks[i]));
    }
  }

  lemma IndexedOne(index: map<nat, B256>, blocks: seq<Block>, i: nat)
    requires i < |blocks|
    ensures Indexed(index, blocks[..i])[blocks[i].number := blocks[i].hash] == Indexed(index, blocks[..i + 1])
  {
    assert blocks[..i + 1][..i] == blocks[..i];
  }

  method PushBlock(state: StateSnapshot, block: Block)
    modifies state`receiptsHistory, state`blockHashes
    ensures state.receiptsHistory
            == Bounded(old(state.receiptsHistory) + [BlockReceipts(block.number, block.receipts, block.txHashes)])
    ensures state.blockHashes == old(state.blockHashes)[block.number := block.hash]
  {
    state.PushReceipts(block.number, block.receipts, block.txHashes);
    state.blockHashes := state.blockHashes[block.number := block.hash];
  }

  lemma {:induction false} NoBlocks(s: Snapshot, blocks: seq<Block>)
    requires blocks == []
    ensures Pushed(s.receiptsHistory, blocks) == s.receiptsHistory && Indexed(s.blockHashes, blocks) == s.blockHashes
    ensures ApplyBlocks(s, blocks) == s
  {
  }

  lemma {:induction false} SomeBlocks(s: Snapshot, blocks: seq<Block>)
    requires blocks != []
    ensures var tip := blocks[|blocks| - 1];
            ApplyBlocks(s, blocks)
            == s.(receiptsHistory := Pushed(s.receiptsHistory, blocks), blockHashes := Indexed(s.blockHashes, blocks),
                  header := Some(tip.header), withdrawals := tip.withdrawals)
  {
  }

  method BlocksInto(state: StateSnapshot, blocks: seq<Block>)
    modifies state
    ensures state.View() == ApplyBlocks(old(state.View()), blocks)
  {
    ghost var was := state.View();
    PushBlocks(state, blocks);
    if blocks == [] {
      NoBlocks(was, blocks);
    } else {
      state.header := Some(blocks[|blocks| - 1].header);
      state.withdrawals := blocks[|blocks| - 1].withdrawals;
      SomeBlocks(was, blocks);
    }
  }

  method PushBlocks(state: StateSnapshot, blocks: seq<Block>)
    modifies state`receiptsHistory, state`blockHashes
    ensures state.receiptsHistory == Pushed(old(state.receiptsHistory), blocks)
    ensures state.blockHashes == Indexed(old(state.blockHashes), blocks)
  {
    ghost var q, index := state.receiptsHistory, state.blockHashes;
    for i := 0 to |blocks|
      invariant state.receiptsHistory == Pushed(q, blocks[..i])
      invariant state.blockHashes == Indexed(index, blocks[..i])
    {
      PushBlock(state, blocks[i]);
      PushedOne(q, blocks, i);
      IndexedOne(index, blocks, i);
    }
    assert blocks[..|blocks|] == blocks;
  }

  method FinishAtTip(state: StateSnapshot, changes: ExecutionChanges, tip: ChainTip)
    modifies state
    ensures state.View() == AtTip(old(state.View()), changes, tip)
  {
    var changed := SortedKeys(changes.accounts.Keys);
    state.PushChangedAccounts(tip.number, changed);
    state.block := tip.number;
    state.blockHash := tip.hash;
  }

  method BuildCommitState(current: Snapshot, caches: Caches, changes: ExecutionChanges, blocks: seq<Block>,
                          tip: ChainTip)
    returns (newState: Snapshot)
    ensures newState == CommitState(current, caches, changes, blocks, tip)
  {
    var state := new StateSnapshot.Clone(current);
    state.stale := false;
    MergeInto(state, caches, current.blockHash);
    ExecuteInto(state, changes);
    BlocksInto(state, blocks);
    FinishAtTip(state, changes, tip);
    newState := state.View();
  }

  method CopyHistoryBefore(current: Snapshot, cutoff: nat, state: StateSnapshot)
    modifies state
    ensures state.View() == HistoryBefore(current, cutoff, old(state.View()))
  {
    ghost var was := state.View();
    for i := 0 to |current.receiptsHistory|
      invariant state.View() == was.(receiptsHistory := state.receiptsHistory)
      invariant state.receiptsHistory == was.receiptsHistory + ReceiptsUpTo(current.receiptsHistory[..i], cutoff)
    {
      assert current.receiptsHistory[..i + 1][..i] == current.receiptsHistory[..i];
      if current.receiptsHistory[i].block <= cutoff {
        state.receiptsHistory := state.receiptsHistory + [current.receiptsHistory[i]];
      }
    }
    assert current.receiptsHistory[..|current.receiptsHistory|] == current.receiptsHistory;
    for i := 0 to |current.changedHistory|
      invariant state.View() == was.(receiptsHistory := state.receiptsHistory, changedHistory := state.changedHistory)
      invariant state.receiptsHistory == was.receiptsHistory + ReceiptsUpTo(current.receiptsHistory, cutoff)
      invariant state.changedHistory == was.changedHistory + ChangedUpTo(current.changedHistory[..i], cutoff)
    {
      assert current.changedHistory[..i + 1][..i] == current.changedHistory[..i];
      if current.changedHistory[i].block <= cutoff {
        state.changedHistory := state.changedHistory + [current.changedHistory[i]];
      }
    }
    assert current.changedHistory[..|current.changedHistory|] == current.changedHistory;
    CopyIndexBefore(current, cutoff, state);
    state.code := current.code;
  }

  method CopyIndexBefore(current: Snapshot, cutoff: nat, state: StateSnapshot)
    modifies state`blockHashes
    ensures state.blockHashes == old(state.blockHashes)
                                 + map n | n in current.blockHashes && n <= cutoff :: current.blockHashes[n]
  {
    var todo := current.blockHashes.Keys;
    while todo != {}
      invariant todo <= current.blockHashes.Keys
      invariant state.blockHashes == old(state.blockHashes)
                  + map n | n in current.blockHashes && n <= cutoff && n !in todo :: current.blockHashes[n]
      decreases |todo|
    {
      var n :| n in todo;
      if n <= cutoff {
        state.blockHashes := state.blockHashes[n := current.blockHashes[n]];
      }
      todo := todo - {n};
    }
  }

  method BuildReorgState(current: Snapshot, commonAncestor: nat, changes: ExecutionChanges, blocks: seq<Block>,
                         tip: ChainTip)
    returns (newState: Snapshot)
    ensures newState == ReorgState(current, commonAncestor, changes, blocks, tip)
  {
    var state := new StateSnapshot.Clone(EMPTY_SNAPSHOT);
    CopyHistoryBefore(current, commonAncestor, state);
    ExecuteInto(state, changes);
    BlocksInto(state, blocks);
    FinishAtTip(state, changes, tip);
    newState := state.View();
  }

  method BuildRevertState(current: Snapshot, commonAncestor: nat) returns (newState: Snapshot)
    ensures newState == RevertState(current, commonAncestor)
  {
    var state := new StateSnapshot.Clone(EMPTY_SNAPSHOT);
    state.stale := true;
    state.block := commonAncestor;
    state.blockHash := ZERO_HASH;
    CopyHistoryBefore(current, commonAncestor, state);
    newState := state.View();
  }
}
