/** What each of the four caches holds, over any run of its manager: which answers are kept, under what key and
    what tag, and that a later lookup gives them back. */
module Caching {
  import opened Types
  import opened ManagerCore
  import opened FlushProofs
  import opened Managers
  import opened Callers

  // ---------------------------------------------------------------------------------------------
  // Accounts

  /** A fetch of this epoch that found the account. */
  predicate AccountFound(r: Reply<AccountRequest, Option<AccountInfo>>, epoch: nat, k: Address) {
    r.via == Fetched(epoch) && r.waiter.request.address == k && r.result.Ok? && r.result.value.Some?
  }

  /** The accounts found under the current tag are kept, and only those: a vacant answer is given but not kept. */
  lemma {:induction false} AccountCacheHolds(limit: nat, script: seq<AccountAction>, k: Address)
    ensures var s := Exec(ACCOUNT_SPEC, Init([], limit), script);
            && (k in s.cache <==> exists r :: r in s.replies && AccountFound(r, s.epoch, k))
            && (forall r :: r in s.replies && AccountFound(r, s.epoch, k) ==>
                  r.waiter.request.blockHash == s.cacheHash)
            && (k in s.cache ==>
                  exists r :: r in s.replies && AccountFound(r, s.epoch, k) && r.result == Ok(Some(s.cache[k])))
            && (s.phase.Serving? && s.phase.msg.request.address == k && k in s.cache
                && s.phase.msg.request.blockHash == s.cacheHash
                ==> Step(ACCOUNT_SPEC, s, Serve).replies
                    == s.replies + [Reply(s.phase.msg, Ok(Some(s.cache[k])), Cached)])
  {
    SpecsAreLawful();
    var s := Exec(ACCOUNT_SPEC, Init([], limit), script);
    ExecExact(ACCOUNT_SPEC, [], limit, script);
    AccountFoundIsProduced(s, k);
    if s.phase.Serving? {
      LookupAnswersOrWaits(ACCOUNT_SPEC, s);
    }
  }

  lemma AccountFoundIsProduced(s: AccountState, k: Address)
    requires EpochExact(ACCOUNT_SPEC, s)
    ensures k in s.cache <==> exists r :: r in s.replies && AccountFound(r, s.epoch, k)
    ensures forall r :: r in s.replies && AccountFound(r, s.epoch, k) ==> r.waiter.request.blockHash == s.cacheHash
    ensures k in s.cache ==>
              exists r :: r in s.replies && AccountFound(r, s.epoch, k) && r.result == Ok(Some(s.cache[k]))
  {
    assert forall r :: r in s.replies && AccountFound(r, s.epoch, k) ==>
             Produced(ACCOUNT_SPEC, r, s.epoch) && ACCOUNT_SPEC.key(r.waiter.request) == k;
    if k in s.cache {
      var r :| r in s.replies && Produced(ACCOUNT_SPEC, r, s.epoch) && ACCOUNT_SPEC.key(r.waiter.request) == k
               && ACCOUNT_SPEC.store(r.result.value) == Some(s.cache[k]);
      assert AccountFound(r, s.epoch, k);
    }
  }

  // ---------------------------------------------------------------------------------------------
  // Storage slots

  /** A fetch of this epoch that read the slot. */
  predicate StorageFound(r: Reply<StorageRequest, U256>, epoch: nat, k: (Address, U256)) {
    r.via == Fetched(epoch) && (r.waiter.request.address, r.waiter.request.index) == k && r.result.Ok?
  }

  /** Every slot read under the current tag is kept, zero or not. */
  lemma {:induction false} StorageCacheHolds(limit: nat, script: seq<StorageAction>, k: (Address, U256))
    ensures var s := Exec(STORAGE_SPEC, Init((), limit), script);
            && (k in s.cache <==> exists r :: r in s.replies && StorageFound(r, s.epoch, k))
            && (forall r :: r in s.replies && StorageFound(r, s.epoch, k) ==>
                  r.waiter.request.blockHash == s.cacheHash)
            && (k in s.cache ==>
                  exists r :: r in s.replies && StorageFound(r, s.epoch, k) && r.result == Ok(s.cache[k]))
            && (s.phase.Serving? && (s.phase.msg.request.address, s.phase.msg.request.index) == k && k in s.cache
                && s.phase.msg.request.blockHash == s.cacheHash
                ==> Step(STORAGE_SPEC, s, Serve).replies
                    == s.replies + [Reply(s.phase.msg, Ok(s.cache[k]), Cached)])
  {
    SpecsAreLawful();
    var s := Exec(STORAGE_SPEC, Init((), limit), script);
    ExecExact(STORAGE_SPEC, (), limit, script);
    StorageFoundIsProduced(s, k);
    if s.phase.Serving? {
      LookupAnswersOrWaits(STORAGE_SPEC, s);
    }
  }

  lemma StorageFoundIsProduced(s: StorageState, k: (Address, U256))
    requires EpochExact(STORAGE_SPEC, s)
    ensures k in s.cache <==> exists r :: r in s.replies && StorageFound(r, s.epoch, k)
    ensures forall r :: r in s.replies && StorageFound(r, s.epoch, k) ==> r.waiter.request.blockHash == s.cacheHash
    ensures k in s.cache ==>
              exists r :: r in s.replies && StorageFound(r, s.epoch, k) && r.result == Ok(s.cache[k])
  {
    assert forall r :: r in s.replies && StorageFound(r, s.epoch, k) ==>
             Produced(STORAGE_SPEC, r, s.epoch) && STORAGE_SPEC.key(r.waiter.request) == k;
    if k in s.cache {
      var r :| r in s.replies && Produced(STORAGE_SPEC, r, s.epoch) && STORAGE_SPEC.key(r.waiter.request) == k
               && STORAGE_SPEC.store(r.result.value) == Some(s.cache[k]);
      assert StorageFound(r, s.epoch, k);
    }
  }

  // ---------------------------------------------------------------------------------------------
  // Block hashes

  /** A fetch of this epoch that answered for the number. */
  predicate BlockHashFound(r: Reply<BlockHashRequest, B256>, epoch: nat, k: nat) {
    r.via == Fetched(epoch) && r.waiter.request.number == k && r.result.Ok?
  }

  /** Every block hash answered under the current tag is kept. */
  lemma {:induction false} BlockHashCacheHolds(limit: nat, script: seq<BlockHashAction>, k: nat)
    ensures var s := Exec(BLOCK_HASH_SPEC, Init((), limit), script);
            && (k in s.cache <==> exists r :: r in s.replies && BlockHashFound(r, s.epoch, k))
            && (forall r :: r in s.replies && BlockHashFound(r, s.epoch, k) ==>
                  r.waiter.request.atBlockHash == s.cacheHash)
            && (k in s.cache ==>
                  exists r :: r in s.replies && BlockHashFound(r, s.epoch, k) && r.result == Ok(s.cache[k]))
            && (s.phase.Serving? && s.phase.msg.request.number == k && k in s.cache
                && s.phase.msg.request.atBlockHash == s.cacheHash
                ==> Step(BLOCK_HASH_SPEC, s, Serve).replies
                    == s.replies + [Reply(s.phase.msg, Ok(s.cache[k]), Cached)])
  {
    SpecsAreLawful();
    var s := Exec(BLOCK_HASH_SPEC, Init((), limit), script);
    ExecExact(BLOCK_HASH_SPEC, (), limit, script);
    BlockHashFoundIsProduced(s, k);
    if s.phase.Serving? {
      LookupAnswersOrWaits(BLOCK_HASH_SPEC, s);
    }
  }

  lemma BlockHashFoundIsProduced(s: BlockHashState, k: nat)
    requires EpochExact(BLOCK_HASH_SPEC, s)
    ensures k in s.cache <==> exists r :: r in s.replies && BlockHashFound(r, s.epoch, k)
    ensures forall r :: r in s.replies && BlockHashFound(r, s.epoch, k) ==> r.waiter.request.atBlockHash == s.cacheHash
    ensures k in s.cache ==>
              exists r :: r in s.replies && BlockHashFound(r, s.epoch, k) && r.result == Ok(s.cache[k])
  {
    assert forall r :: r in s.replies && BlockHashFound(r, s.epoch, k) ==>
             Produced(BLOCK_HASH_SPEC, r, s.epoch) && BLOCK_HASH_SPEC.key(r.waiter.request) == k;
    if k in s.cache {
      var r :| r in s.replies && Produced(BLOCK_HASH_SPEC, r, s.epoch) && BLOCK_HASH_SPEC.key(r.waiter.request) == k
               && BLOCK_HASH_SPEC.store(r.result.value) == Some(s.cache[k]);
      assert BlockHashFound(r, s.epoch, k);
    }
  }

  // ---------------------------------------------------------------------------------------------
  // Code

  /** A fetch, of any epoch, that found the code. */
  predicate CodeFound(r: Reply<CodeRequest, Bytecode>, h: B256) {
    r.via.Fetched? && r.waiter.request.codeHash == h && r.result.Ok?
  }

  /** All code answered since the last flush is kept, whatever block it was asked at. */
  lemma {:induction false} CodeCacheHolds(limit: nat, script: seq<CodeAction>, h: B256)
    ensures var s0: CodeState := Init(map[], limit);
            var s, mark := Exec(CODE_SPEC, s0, script), OpenedAt(CODE_SPEC, s0, script);
            && mark <= |s.replies|
            && (h in s.cache <==> exists r :: r in s.replies[mark..] && CodeFound(r, h))
            && (s.phase.Serving? && s.phase.msg.request.codeHash == h && h in s.cache
                ==> Step(CODE_SPEC, s, Serve).replies == s.replies + [Reply(s.phase.msg, Ok(s.cache[h]), Cached)])
  {
    SpecsAreLawful();
    var s0: CodeState := Init(map[], limit);
    var s, mark := Exec(CODE_SPEC, s0, script), OpenedAt(CODE_SPEC, s0, script);
    ExecCollected(CODE_SPEC, map[], limit, script);
    CodeFoundIsCollected(s, mark, h);
    if s.phase.Serving? {
      LookupAnswersOrWaits(CODE_SPEC, s);
    }
  }

  lemma CodeFoundIsCollected(s: CodeState, mark: nat, h: B256)
    requires IsCollected(CODE_SPEC, s, mark)
    ensures h in s.cache <==> exists r :: r in s.replies[mark..] && CodeFound(r, h)
  {
    CacheKeys(CODE_SPEC, s, mark);
    if h in s.cache {
      var r :| r in s.replies[mark..] && Contributes(CODE_SPEC, r, s.epoch) && CODE_SPEC.key(r.waiter.request) == h;
      assert CodeFound(r, h);
    }
    if exists r :: r in s.replies[mark..] && CodeFound(r, h) {
      var r :| r in s.replies[mark..] && CodeFound(r, h);
      assert Contributes(CODE_SPEC, r, s.epoch) && CODE_SPEC.key(r.waiter.request) == h;
    }
  }
}
