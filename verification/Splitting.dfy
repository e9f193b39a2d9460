/** Committing a run of blocks in one notification or in two comes to the same snapshot. */
module Splitting {
  import opened Types
  import opened Chains
  import opened Snapshots
  import opened Transitions
  import opened Coherence

  /** The outcome of two chains run one after the other: the later chain's word on every account and slot. */
  function Compose(first: ExecutionChanges, second: ExecutionChanges): ExecutionChanges {
    ExecutionChanges(
      map a | a in first.accounts.Keys + second.accounts.Keys ::
        if a !in second.accounts then first.accounts[a]
        else if a !in first.accounts then second.accounts[a]
        else AccountChange(second.accounts[a].info, first.accounts[a].storage + second.accounts[a].storage),
      first.contracts + second.contracts)
  }

  /** Dropping old entries changes nothing while a full window remains. */
  lemma BoundedSuffix<T>(w: seq<T>, k: nat)
    requires k <= |w| && (k == 0 || |w| - k >= RECEIPTS_HISTORY_DEPTH)
    ensures Bounded(w[k..]) == Bounded(w)
  {
    if k == 0 {
      assert w[0..] == w;
    } else {
      var tail := w[k..];
      assert tail[|tail| - RECEIPTS_HISTORY_DEPTH..] == w[|w| - RECEIPTS_HISTORY_DEPTH..];
    }
  }

  lemma BoundedTwice<T>(q: seq<T>, x: seq<T>, y: seq<T>)
    ensures Bounded(Bounded(q + x) + y) == Bounded(q + (x + y))
  {
    var p := q + x;
    var k := |p| - |Bounded(p)|;
    assert Bounded(p) + y == (p + y)[k..];
    assert p + y == q + (x + y);
    BoundedSuffix(p + y, k);
  }

  lemma {:induction false} IndexedTwice(index: map<nat, B256>, first: seq<Block>, second: seq<Block>)
    ensures Indexed(Indexed(index, first), second) == Indexed(index, first + second)
    decreases |second|
  {
    if second == [] {
      assert first + second == first;
    } else {
      var front := second[..|second| - 1];
      assert (first + second)[..|first + second| - 1] == first + front;
      IndexedTwice(index, first, front);
    }
  }

  lemma ReceiptsTogether(first: seq<Block>, second: seq<Block>)
    ensures AllReceipts(first + second) == AllReceipts(first) + AllReceipts(second)
  {
  }

  /** The first chain writes a held account to something new and the second deletes it. */
  ghost predicate WrittenThenDeleted(s: Snapshot, first: ExecutionChanges, second: ExecutionChanges, a: Address) {
    && a in s.accounts
    && a in second.accounts && second.accounts[a].info.None?
    && WrittenInfo(first, a).Some? && WrittenInfo(first, a).value != s.accounts[a]
  }

  lemma ComposeSlots(first: ExecutionChanges, second: ExecutionChanges, k: (Address, U256))
    ensures WrittenSlot(Compose(first, second), k)
            == if WrittenSlot(second, k).Some? then WrittenSlot(second, k) else WrittenSlot(first, k)
  {
  }

  lemma ComposeInfos(first: ExecutionChanges, second: ExecutionChanges, a: Address)
    ensures WrittenInfo(Compose(first, second), a)
            == if a in second.accounts then WrittenInfo(second, a) else WrittenInfo(first, a)
  {
  }

  lemma SlotsCompose(s: Snapshot, first: ExecutionChanges, second: ExecutionChanges)
    ensures ApplyExecution(ApplyExecution(s, first), second).storage
            == ApplyExecution(s, Compose(first, second)).storage
  {
    forall k | k in s.storage
      ensures ApplyExecution(ApplyExecution(s, first), second).storage[k]
              == ApplyExecution(s, Compose(first, second)).storage[k]
    {
      ComposeSlots(first, second, k);
    }
  }

  lemma AccountsCompose(s: Snapshot, first: ExecutionChanges, second: ExecutionChanges)
    ensures ApplyExecution(ApplyExecution(s, first), second).accounts
            == ApplyExecution(s, Compose(first, second)).accounts
            <==> forall a :: !WrittenThenDeleted(s, first, second, a)
  {
    var split := ApplyExecution(ApplyExecution(s, first), second).accounts;
    var whole := ApplyExecution(s, Compose(first, second)).accounts;
    forall a | a in s.accounts
      ensures split[a] == whole[a] <==> !WrittenThenDeleted(s, first, second, a)
    {
      ComposeInfos(first, second, a);
    }
    assert split.Keys == whole.Keys == s.accounts.Keys;
    if forall a :: !WrittenThenDeleted(s, first, second, a) {
      assert forall a :: a in split ==> split[a] == whole[a];
    }
  }

  /** Outcomes applied in turn against their composition: slots and code always agree, accounts agree
      exactly when no held account is written by the first and deleted by the second. */
  lemma {:induction false} ExecutionsCompose(s: Snapshot, first: ExecutionChanges, second: ExecutionChanges)
    ensures var split := ApplyExecution(ApplyExecution(s, first), second);
            var whole := ApplyExecution(s, Compose(first, second));
            && split == whole.(accounts := split.accounts)
            && (split.accounts == whole.accounts <==> forall a :: !WrittenThenDeleted(s, first, second, a))
  {
    SlotsCompose(s, first, second);
    AccountsCompose(s, first, second);
    assert (s.code + first.contracts) + second.contracts == s.code + (first.contracts + second.contracts);
  }

  lemma {:induction false} BlocksCompose(s: Snapshot, first: seq<Block>, second: seq<Block>)
    requires first != [] && second != []
    ensures ApplyBlocks(ApplyBlocks(s, first), second) == ApplyBlocks(s, first + second)
  {
    BoundedTwice(s.receiptsHistory, AllReceipts(first), AllReceipts(second));
    IndexedTwice(s.blockHashes, first, second);
    ReceiptsTogether(first, second);
    assert (first + second)[|first + second| - 1] == second[|second| - 1];
  }

  /** A commit with nothing flushed, apart from the changed-account record. */
  function Committed(s: Snapshot, changes: ExecutionChanges, blocks: seq<Block>, tip: ChainTip): Snapshot {
    CommitState(s, NO_CACHES, changes, blocks, tip).(changedHistory := [])
  }

  lemma NothingMerged(s: Snapshot)
    ensures Merged(s, NO_CACHES) == s.(stale := false)
  {
    assert s.accounts + map[] == s.accounts && s.storage + map[] == s.storage;
    assert s.blockHashes + map[] == s.blockHashes && s.code + map[] == s.code;
  }

  function Finished(s: Snapshot, blocks: seq<Block>, tip: ChainTip): Snapshot {
    ApplyBlocks(s, blocks).(changedHistory := [], block := tip.number, blockHash := tip.hash, stale := false)
  }

  lemma CommittedParts(s: Snapshot, changes: ExecutionChanges, blocks: seq<Block>, tip: ChainTip)
    ensures Committed(s, changes, blocks, tip) == Finished(ApplyExecution(s, changes), blocks, tip)
  {
    NothingMerged(s);
  }

  /** Blocks commute with outcomes: each writes fields the other leaves alone. */
  lemma BlocksThenExecution(s: Snapshot, blocks: seq<Block>, changes: ExecutionChanges)
    ensures ApplyExecution(ApplyBlocks(s, blocks), changes) == ApplyBlocks(ApplyExecution(s, changes), blocks)
  {
  }

  lemma {:induction false} SplitParts(s: Snapshot, first: ExecutionChanges, blocks1: seq<Block>, tip1: ChainTip,
                   second: ExecutionChanges, blocks2: seq<Block>, tip2: ChainTip)
    requires blocks1 != [] && blocks2 != []
    ensures Committed(Committed(s, first, blocks1, tip1), second, blocks2, tip2)
            == Finished(ApplyExecution(ApplyExecution(s, first), second), blocks1 + blocks2, tip2)
  {
    CommittedParts(s, first, blocks1, tip1);
    CommittedParts(Committed(s, first, blocks1, tip1), second, blocks2, tip2);
    BlocksThenExecution(ApplyExecution(s, first), blocks1, second);
    BlocksCompose(ApplyExecution(ApplyExecution(s, first), second), blocks1, blocks2);
  }

  lemma FinishedApart(x: Snapshot, y: Snapshot, blocks: seq<Block>, tip: ChainTip)
    requires x == y.(accounts := x.accounts)
    ensures var fx, fy := Finished(x, blocks, tip), Finished(y, blocks, tip);
            fx == fy.(accounts := fx.accounts) && (fx == fy <==> x.accounts == y.accounts)
  {
  }

  /** The splitting law. Two commits and one of everything agree on receipts, block hashes, header,
      withdrawals, slots, code and position, always; on accounts, and so altogether, exactly when no held
      account is written by the first chain and deleted by the second. */
  lemma {:induction false} SplittingLaw(s: Snapshot, first: ExecutionChanges, blocks1: seq<Block>, tip1: ChainTip,
                     second: ExecutionChanges, blocks2: seq<Block>, tip2: ChainTip)
    requires blocks1 != [] && blocks2 != []
    ensures var split := Committed(Committed(s, first, blocks1, tip1), second, blocks2, tip2);
            var whole := Committed(s, Compose(first, second), blocks1 + blocks2, tip2);
            && split == whole.(accounts := split.accounts)
            && (split == whole <==> forall a :: !WrittenThenDeleted(s, first, second, a))
  {
    var split := Committed(Committed(s, first, blocks1, tip1), second, blocks2, tip2);
    var whole := Committed(s, Compose(first, second), blocks1 + blocks2, tip2);
    var x, y := ApplyExecution(ApplyExecution(s, first), second), ApplyExecution(s, Compose(first, second));
    assert split == Finished(x, blocks1 + blocks2, tip2) by {
      SplitParts(s, first, blocks1, tip1, second, blocks2, tip2);
    }
    assert whole == Finished(y, blocks1 + blocks2, tip2) by {
      CommittedParts(s, Compose(first, second), blocks1 + blocks2, tip2);
    }
    ExecutionsCompose(s, first, second);
    FinishedApart(x, y, blocks1 + blocks2, tip2);
  }

  lemma {:induction false} FinishedAccounts(s: Snapshot, blocks: seq<Block>, tip: ChainTip)
    ensures Finished(s, blocks, tip).accounts == s.accounts
  {
    BlocksApart(s, blocks);
  }

  lemma {:induction false} SplitAccounts(s: Snapshot, first: ExecutionChanges, blocks1: seq<Block>, tip1: ChainTip,
                                         second: ExecutionChanges, blocks2: seq<Block>, tip2: ChainTip)
    requires blocks1 != [] && blocks2 != []
    ensures Committed(Committed(s, first, blocks1, tip1), second, blocks2, tip2).accounts
            == ApplyExecution(ApplyExecution(s, first), second).accounts
    ensures Committed(s, Compose(first, second), blocks1 + blocks2, tip2).accounts
            == ApplyExecution(s, Compose(first, second)).accounts
  {
    SplitParts(s, first, blocks1, tip1, second, blocks2, tip2);
    FinishedAccounts(ApplyExecution(ApplyExecution(s, first), second), blocks1 + blocks2, tip2);
    CommittedParts(s, Compose(first, second), blocks1 + blocks2, tip2);
    FinishedAccounts(ApplyExecution(s, Compose(first, second)), blocks1 + blocks2, tip2);
  }

  /** What the exception does to a held account: committed one by one the written value stays, committed
      together the value held before does. */
  lemma {:induction false} WrittenThenDeletedDiffers(
    s: Snapshot, first: ExecutionChanges, blocks1: seq<Block>, tip1: ChainTip,
    second: ExecutionChanges, blocks2: seq<Block>, tip2: ChainTip, a: Address)
    requires blocks1 != [] && blocks2 != [] && WrittenThenDeleted(s, first, second, a)
    ensures var split := Committed(Committed(s, first, blocks1, tip1), second, blocks2, tip2);
            var whole := Committed(s, Compose(first, second), blocks1 + blocks2, tip2);
            && a in split.accounts && split.accounts[a] == WrittenInfo(first, a).value
            && a in whole.accounts && whole.accounts[a] == s.accounts[a]
            && split != whole
  {
    SplitAccounts(s, first, blocks1, tip1, second, blocks2, tip2);
    ComposeInfos(first, second, a);
    var written := ApplyExecution(s, first);
    assert a in written.accounts && written.accounts[a] == WrittenInfo(first, a).value;
  }

  /** The exception is real: a live snapshot holds account 5, block 2 writes it and block 3 deletes it. */
  lemma {:induction false} SplitCanDiffer()
    returns (s: Snapshot, first: ExecutionChanges, second: ExecutionChanges, blocks1: seq<Block>, blocks2: seq<Block>)
    ensures s == HoldingFive(false) && blocks1 == [LineBlock(2)] && blocks2 == [LineBlock(3)]
    ensures first.accounts == map[5 := AccountChange(Some(AccountInfo(8, 1, 0)), map[])]
    ensures second.accounts == map[5 := AccountChange(None, map[])]
    ensures WrittenThenDeleted(s, first, second, 5)
    ensures Committed(Committed(s, first, blocks1, ChainTip(2, 2)), second, blocks2, ChainTip(3, 3))
            != Committed(s, Compose(first, second), blocks1 + blocks2, ChainTip(3, 3))
  {
    s, blocks1, blocks2 := HoldingFive(false), [LineBlock(2)], [LineBlock(3)];
    first := ExecutionChanges(map[5 := AccountChange(Some(AccountInfo(8, 1, 0)), map[])], map[]);
    second := ExecutionChanges(map[5 := AccountChange(None, map[])], map[]);
    WrittenThenDeletedDiffers(s, first, blocks1, ChainTip(2, 2), second, blocks2, ChainTip(3, 3), 5);
  }
}
