/** Lazy reads refine an eager full map: over every interleaving, each successful read returns what the
    full node holds at the block of the snapshot the read loaded. */
module Refinement {
  import opened Types
  import opened Chains
  import opened Snapshots
  import opened Coherence
  import opened ManagerCore
  import opened ManagerProofs
  import opened Managers
  import opened Systems

  // ---------------------------------------------------------------------------------------------
  // What the managers are asked, and what counts as a true answer

  ghost predicate LoadedLive(loads: seq<Load>, id: nat) {
    id < |loads| && !loads[id].snapshot.stale && loads[id].snapshot.blockHash != ZERO_HASH
  }

  ghost predicate AccountAsked(loads: seq<Load>, m: Message<AccountRequest>) {
    && LoadedLive(loads, m.id)
    && loads[m.id].read == AccountRead(m.request.address)
    && m.request.block == loads[m.id].snapshot.block && m.request.blockHash == loads[m.id].snapshot.blockHash
  }

  ghost predicate StorageAsked(loads: seq<Load>, m: Message<StorageRequest>) {
    && LoadedLive(loads, m.id)
    && loads[m.id].read == StorageRead(m.request.address, m.request.index)
    && m.request.block == loads[m.id].snapshot.block && m.request.blockHash == loads[m.id].snapshot.blockHash
  }

  ghost predicate CodeAsked(loads: seq<Load>, m: Message<CodeRequest>) {
    LoadedLive(loads, m.id) && loads[m.id].read == CodeRead(m.request.codeHash)
  }

  ghost predicate BlockHashAsked(loads: seq<Load>, m: Message<BlockHashRequest>) {
    && LoadedLive(loads, m.id)
    && loads[m.id].read == BlockHashRead(m.request.number)
    && m.request.atBlockHash == loads[m.id].snapshot.blockHash
  }

  ghost predicate AccountFits(node: Node, tag: Option<B256>, a: Address, resp: Option<AccountInfo>) {
    tag.Some? && tag.value != ZERO_HASH && resp == Some(node.account(tag.value, a))
  }

  ghost predicate StorageFits(node: Node, tag: Option<B256>, k: (Address, U256), resp: U256) {
    tag.Some? && tag.value != ZERO_HASH && resp == node.slot(tag.value, k.0, k.1)
  }

  ghost predicate CodeFits(node: Node, tag: Option<B256>, h: B256, resp: Bytecode) {
    node.keccak(resp) == h
  }

  ghost predicate BlockHashFits(node: Node, tag: Option<B256>, n: nat, resp: B256)
    requires WellFormed(node)
  {
    tag.Some? && tag.value != ZERO_HASH && (n <= Number(node, tag.value) ==> resp == Ancestor(node, tag.value, n))
  }

  // ---------------------------------------------------------------------------------------------
  // Hypotheses on the environment, one move at a time

  /** The RPC, asked by number, answers as the node would at the block hash the request carries if that is the
      hash's own number (for a block hash, up to that block's height); no client reads before the first
      publication; chains are those the node executed; and a published notification is harmless. */
  ghost predicate Admissible(node: Node, s: System, m: Move)
    requires WellFormed(node)
  {
    match m
    case LoadFor(read) => s.stores > 0
    case AccountMove(FinishFetch(i, Ok(info))) =>
      i < |s.accounts.running| ==>
        var req := s.accounts.running[i].waiter.request;
        req.block == Number(node, req.blockHash) ==> info == Some(node.account(req.blockHash, req.address))
    case StorageMove(FinishFetch(i, Ok(value))) =>
      i < |s.storage.running| ==>
        var req := s.storage.running[i].waiter.request;
        req.block == Number(node, req.blockHash) ==> value == node.slot(req.blockHash, req.address, req.index)
    case BlockHashMove(FinishFetch(i, Ok(hash))) =>
      i < |s.blockHashes.running| ==>
        var req := s.blockHashes.running[i].waiter.request;
        req.number <= Number(node, req.atBlockHash) ==> hash == Ancestor(node, req.atBlockHash, req.number)
    case Notify(n) => FaithfulNotification(node, n) && ContractsTrue(node, n)
    case Publish =>
      s.writer.Flushing? && AllFlushed(s) ==> Harmless(node, s.writer.base, s.writer.n, FlushedCaches(s))
    case _ => true
  }

  ghost predicate AdmissibleRun(node: Node, s: System, moves: seq<Move>)
    requires WellFormed(node)
  {
    forall i: nat :: i < |moves| ==> Admissible(node, Execute(node.keccak, s, moves[..i]), moves[i])
  }

  // ---------------------------------------------------------------------------------------------
  // The invariant

  ghost predicate SnapshotOk(node: Node, v: Snapshot) {
    HoldsTruth(node, v) && AtRealBlock(node, v) && CodeTrue(node, v.code)
  }

  ghost predicate LoadsOk(node: Node, loads: seq<Load>) {
    forall l :: l in loads ==>
      SnapshotOk(node, l.snapshot) && (!l.snapshot.stale ==> l.snapshot.blockHash != ZERO_HASH)
  }

  ghost predicate AccountsOk(node: Node, loads: seq<Load>, s: AccountState) {
    Provenance(ACCOUNT_SPEC, s, m => AccountAsked(loads, m), (tag, a, resp) => AccountFits(node, tag, a, resp))
  }

  ghost predicate StorageOk(node: Node, loads: seq<Load>, s: StorageState) {
    Provenance(STORAGE_SPEC, s, m => StorageAsked(loads, m), (tag, k, resp) => StorageFits(node, tag, k, resp))
  }

  ghost predicate CodeOk(node: Node, loads: seq<Load>, s: CodeState) {
    Provenance(CODE_SPEC, s, m => CodeAsked(loads, m), (tag, h, resp) => CodeFits(node, tag, h, resp))
  }

  ghost predicate BlockHashesOk(node: Node, loads: seq<Load>, s: BlockHashState)
    requires WellFormed(node)
  {
    Provenance(BLOCK_HASH_SPEC, s, m => BlockHashAsked(loads, m),
               (tag, n, resp) => BlockHashFits(node, tag, n, resp))
  }

  ghost predicate WriterOk(node: Node, s: System) {
    s.writer.Flushing? ==>
      s.writer.base == s.published && FaithfulNotification(node, s.writer.n) && ContractsTrue(node, s.writer.n)
  }

  /** Once something was published, what is published is of some block unless it is stale. */
  ghost predicate LiveAtBlock(s: System) {
    s.stores > 0 && !s.published.stale ==> s.published.blockHash != ZERO_HASH
  }

  ghost predicate SystemOk(node: Node, s: System)
    requires WellFormed(node)
  {
    && SnapshotOk(node, s.published)
    && LiveAtBlock(s)
    && LoadsOk(node, s.loads)
    && WriterOk(node, s)
    && AccountsOk(node, s.loads, s.accounts) && StorageOk(node, s.loads, s.storage)
    && CodeOk(node, s.loads, s.code) && BlockHashesOk(node, s.loads, s.blockHashes)
  }

  lemma MoreAccountLoads(node: Node, loads: seq<Load>, more: seq<Load>, s: AccountState)
    requires AccountsOk(node, loads, s) && loads <= more
    ensures AccountsOk(node, more, s)
  {
    ProvenanceWeaken(ACCOUNT_SPEC, s, m => AccountAsked(loads, m), m => AccountAsked(more, m),
                     (tag, a, resp) => AccountFits(node, tag, a, resp));
  }

  lemma MoreStorageLoads(node: Node, loads: seq<Load>, more: seq<Load>, s: StorageState)
    requires StorageOk(node, loads, s) && loads <= more
    ensures StorageOk(node, more, s)
  {
    ProvenanceWeaken(STORAGE_SPEC, s, m => StorageAsked(loads, m), m => StorageAsked(more, m),
                     (tag, k, resp) => StorageFits(node, tag, k, resp));
  }

  lemma MoreCodeLoads(node: Node, loads: seq<Load>, more: seq<Load>, s: CodeState)
    requires CodeOk(node, loads, s) && loads <= more
    ensures CodeOk(node, more, s)
  {
    ProvenanceWeaken(CODE_SPEC, s, m => CodeAsked(loads, m), m => CodeAsked(more, m),
                     (tag, h, resp) => CodeFits(node, tag, h, resp));
  }

  lemma MoreBlockHashLoads(node: Node, loads: seq<Load>, more: seq<Load>, s: BlockHashState)
    requires WellFormed(node) && BlockHashesOk(node, loads, s) && loads <= more
    ensures BlockHashesOk(node, more, s)
  {
    ProvenanceWeaken(BLOCK_HASH_SPEC, s, m => BlockHashAsked(loads, m), m => BlockHashAsked(more, m),
                     (tag, n, resp) => BlockHashFits(node, tag, n, resp));
  }

  lemma LoadKeeps(node: Node, s: System, read: Read)
    requires WellFormed(node) && SystemOk(node, s) && Admissible(node, s, LoadFor(read))
    ensures SystemOk(node, SystemStep(node.keccak, s, LoadFor(read)))
  {
    var more := s.loads + [Load(s.published, read)];
    MoreAccountLoads(node, s.loads, more, s.accounts);
    MoreStorageLoads(node, s.loads, more, s.storage);
    MoreCodeLoads(node, s.loads, more, s.code);
    MoreBlockHashLoads(node, s.loads, more, s.blockHashes);
  }

  lemma AccountStepKeeps(node: Node, s: System, a: AccountAction)
    requires WellFormed(node) && LoadsOk(node, s.loads) && AccountsOk(node, s.loads, s.accounts)
    requires a.Receive? ==> AccountAsked(s.loads, a.msg)
    requires a.FinishFetch? ==> Admissible(node, s, AccountMove(a))
    ensures AccountsOk(node, s.loads, Step(ACCOUNT_SPEC, s.accounts, a))
  {
    SpecsAreLawful();
    var asked := m => AccountAsked(s.loads, m);
    var fits := (tag, address, resp) => AccountFits(node, tag, address, resp);
    if a.FinishFetch? && a.task < |s.accounts.running| {
      var t := s.accounts.running[a.task];
      assert FetchOk(ACCOUNT_SPEC, s.accounts, asked, t.waiter, t.key, t.epoch);
      assert s.loads[t.waiter.id] in s.loads;
    }
    ProvenanceStep(ACCOUNT_SPEC, s.accounts, a, asked, fits);
  }

  lemma StorageStepKeeps(node: Node, s: System, a: StorageAction)
    requires WellFormed(node) && LoadsOk(node, s.loads) && StorageOk(node, s.loads, s.storage)
    requires a.Receive? ==> StorageAsked(s.loads, a.msg)
    requires a.FinishFetch? ==> Admissible(node, s, StorageMove(a))
    ensures StorageOk(node, s.loads, Step(STORAGE_SPEC, s.storage, a))
  {
    SpecsAreLawful();
    var asked := m => StorageAsked(s.loads, m);
    var fits := (tag, k, resp) => StorageFits(node, tag, k, resp);
    if a.FinishFetch? && a.task < |s.storage.running| {
      var t := s.storage.running[a.task];
      assert FetchOk(STORAGE_SPEC, s.storage, asked, t.waiter, t.key, t.epoch);
      assert s.loads[t.waiter.id] in s.loads;
    }
    ProvenanceStep(STORAGE_SPEC, s.storage, a, asked, fits);
  }

  lemma CodeStepKeeps(node: Node, s: System, a: CodeAction)
    requires CodeOk(node, s.loads, s.code)
    requires a.Receive? ==> CodeAsked(s.loads, a.msg)
    requires a.FinishFetch? && a.task < |s.code.running| && a.result.Ok? ==>
               node.keccak(a.result.value) == s.code.running[a.task].waiter.request.codeHash
    ensures CodeOk(node, s.loads, Step(CODE_SPEC, s.code, a))
  {
    SpecsAreLawful();
    ProvenanceStep(CODE_SPEC, s.code, a, m => CodeAsked(s.loads, m), (tag, h, resp) => CodeFits(node, tag, h, resp));
  }

  lemma BlockHashStepKeeps(node: Node, s: System, a: BlockHashAction)
    requires WellFormed(node) && BlockHashesOk(node, s.loads, s.blockHashes)
    requires a.Receive? ==> BlockHashAsked(s.loads, a.msg)
    requires a.FinishFetch? ==> Admissible(node, s, BlockHashMove(a))
    ensures BlockHashesOk(node, s.loads, Step(BLOCK_HASH_SPEC, s.blockHashes, a))
  {
    SpecsAreLawful();
    var asked := m => BlockHashAsked(s.loads, m);
    var fits := (tag, n, resp) => BlockHashFits(node, tag, n, resp);
    if a.FinishFetch? && a.task < |s.blockHashes.running| {
      var t := s.blockHashes.running[a.task];
      assert FetchOk(BLOCK_HASH_SPEC, s.blockHashes, asked, t.waiter, t.key, t.epoch);
    }
    ProvenanceStep(BLOCK_HASH_SPEC, s.blockHashes, a, asked, fits);
  }

  lemma SubmitAccountKeeps(node: Node, s: System, i: nat)
    requires WellFormed(node) && SystemOk(node, s) && i < |s.loads| && s.loads[i].read.AccountRead?
    ensures SystemOk(node, SubmitRead(s, i))
  {
    assert s.loads[i] in s.loads;
    var step := BasicRef(s.loads[i].snapshot, s.loads[i].read.address);
    if step.Ask? {
      AccountStepKeeps(node, s, Receive(Message(i, step.request)));
    }
  }

  lemma SubmitStorageKeeps(node: Node, s: System, i: nat)
    requires WellFormed(node) && SystemOk(node, s) && i < |s.loads| && s.loads[i].read.StorageRead?
    ensures SystemOk(node, SubmitRead(s, i))
  {
    assert s.loads[i] in s.loads;
    var step := StorageRef(s.loads[i].snapshot, s.loads[i].read.account, s.loads[i].read.index);
    if step.Ask? {
      StorageStepKeeps(node, s, Receive(Message(i, step.request)));
    }
  }

  lemma SubmitCodeKeeps(node: Node, s: System, i: nat)
    requires WellFormed(node) && SystemOk(node, s) && i < |s.loads| && s.loads[i].read.CodeRead?
    ensures SystemOk(node, SubmitRead(s, i))
  {
    assert s.loads[i] in s.loads;
    var step := CodeByHashRef(s.loads[i].snapshot, s.loads[i].read.codeHash);
    if step.Ask? {
      CodeStepKeeps(node, s, Receive(Message(i, step.request)));
    }
  }

  lemma SubmitBlockHashKeeps(node: Node, s: System, i: nat)
    requires WellFormed(node) && SystemOk(node, s) && i < |s.loads| && s.loads[i].read.BlockHashRead?
    ensures SystemOk(node, SubmitRead(s, i))
  {
    assert s.loads[i] in s.loads;
    var step := BlockHashRef(s.loads[i].snapshot, s.loads[i].read.number);
    if step.Ask? {
      BlockHashStepKeeps(node, s, Receive(Message(i, step.request)));
    }
  }

  lemma SubmitKeeps(node: Node, s: System, i: nat)
    requires WellFormed(node) && SystemOk(node, s) && i < |s.loads|
    ensures SystemOk(node, SubmitRead(s, i))
  {
    match s.loads[i].read
    case AccountRead(_) => SubmitAccountKeeps(node, s, i);
    case StorageRead(_, _) => SubmitStorageKeeps(node, s, i);
    case CodeRead(_) => SubmitCodeKeeps(node, s, i);
    case BlockHashRead(_) => SubmitBlockHashKeeps(node, s, i);
  }

  lemma NotifyKeeps(node: Node, s: System, n: Notification)
    requires WellFormed(node) && SystemOk(node, s) && Admissible(node, s, Notify(n))
    ensures SystemOk(node, SystemStep(node.keccak, s, Notify(n)))
  {
    AccountStepKeeps(node, s, RequestFlush);
    StorageStepKeeps(node, s, RequestFlush);
    CodeStepKeeps(node, s, RequestFlush);
    BlockHashStepKeeps(node, s, RequestFlush);
  }

  lemma FlushedCachesTrue(node: Node, s: System)
    requires WellFormed(node) && SystemOk(node, s) && AllFlushed(s)
    ensures CachesTrue(node, FlushedCaches(s)) && CodeTrue(node, FlushedCaches(s).code)
  {
    var caches := FlushedCaches(s);
    forall a | a in caches.accounts.data
      ensures caches.accounts.blockHash != ZERO_HASH
              && caches.accounts.data[a] == node.account(caches.accounts.blockHash, a)
    {
      assert AccountFits(node, Some(caches.accounts.blockHash), a, Some(caches.accounts.data[a]));
    }
    forall k | k in caches.storage.data
      ensures caches.storage.blockHash != ZERO_HASH
              && caches.storage.data[k] == node.slot(caches.storage.blockHash, k.0, k.1)
    {
      assert StorageFits(node, Some(caches.storage.blockHash), k, caches.storage.data[k]);
    }
  }

  lemma {:induction false} PublishKeeps(node: Node, s: System)
    requires WellFormed(node) && NoCollisions(node) && SystemOk(node, s) && Admissible(node, s, Publish)
    ensures SystemOk(node, SystemStep(node.keccak, s, Publish))
  {
    if s.writer.Flushing? && AllFlushed(s) {
      var base, n, caches := s.writer.base, s.writer.n, FlushedCaches(s);
      FlushedCachesTrue(node, s);
      NextTrueIffHarmless(node, base, n, caches);
      NextAtRealBlock(node, base, n, caches);
      CodeOnlyGrows(node, base, n, caches);
    }
  }

  lemma GuardedMoveKeeps(node: Node, s: System, m: Move)
    requires WellFormed(node) && SystemOk(node, s) && Admissible(node, s, m)
    requires m.AccountMove? || m.StorageMove? || m.BlockHashMove?
    ensures SystemOk(node, SystemStep(node.keccak, s, m))
  {
    match m
    case AccountMove(a) => if Own(a) { AccountStepKeeps(node, s, a); }
    case StorageMove(a) => if Own(a) { StorageStepKeeps(node, s, a); }
    case BlockHashMove(a) => if Own(a) { BlockHashStepKeeps(node, s, a); }
  }

  lemma CodeMoveKeeps(node: Node, s: System, a: CodeAction)
    requires WellFormed(node) && SystemOk(node, s)
    ensures SystemOk(node, SystemStep(node.keccak, s, CodeMove(a)))
  {
    if Own(a) && !a.FinishFetch? {
      CodeStepKeeps(node, s, a);
    }
  }

  lemma CodeAnswerKeeps(node: Node, s: System, i: nat, rpc: (Address, nat) -> Result<Bytecode>)
    requires WellFormed(node) && SystemOk(node, s)
    ensures SystemOk(node, SystemStep(node.keccak, s, CodeAnswer(i, rpc)))
  {
    if i < |s.code.running| {
      var t := s.code.running[i];
      CodeStepKeeps(node, s, FinishFetch(i, GetCodeByHash(node.keccak, t.waiter.request, t.ctx, rpc)));
    }
  }

  lemma ForwardKeeps(node: Node, s: System)
    requires WellFormed(node) && SystemOk(node, s)
    ensures SystemOk(node, SystemStep(node.keccak, s, ForwardRegistration))
  {
    if s.accounts.ctx != [] {
      ForwardedAccountsOk(node, s.loads, s.accounts);
      CodeStepKeeps(node, s, SideSend(s.accounts.ctx[0]));
    }
  }

  lemma ForwardedAccountsOk(node: Node, loads: seq<Load>, s: AccountState)
    requires AccountsOk(node, loads, s) && s.ctx != []
    ensures AccountsOk(node, loads, s.(ctx := s.ctx[1..]))
  {
  }

  lemma {:induction false} SystemStepKeeps(node: Node, s: System, m: Move)
    requires WellFormed(node) && NoCollisions(node) && SystemOk(node, s) && Admissible(node, s, m)
    ensures SystemOk(node, SystemStep(node.keccak, s, m))
  {
    match m
    case LoadFor(read) => LoadKeeps(node, s, read);
    case Submit(i) => if i < |s.loads| { SubmitKeeps(node, s, i); }
    case Notify(n) => NotifyKeeps(node, s, n);
    case Publish => PublishKeeps(node, s);
    case Bump =>
    case AccountMove(_) => GuardedMoveKeeps(node, s, m);
    case StorageMove(_) => GuardedMoveKeeps(node, s, m);
    case BlockHashMove(_) => GuardedMoveKeeps(node, s, m);
    case CodeMove(a) => CodeMoveKeeps(node, s, a);
    case CodeAnswer(i, rpc) => CodeAnswerKeeps(node, s, i, rpc);
    case ForwardRegistration => ForwardKeeps(node, s);
  }

  lemma {:induction false} ExecuteKeeps(node: Node, s: System, moves: seq<Move>)
    requires WellFormed(node) && NoCollisions(node) && SystemOk(node, s) && AdmissibleRun(node, s, moves)
    ensures SystemOk(node, Execute(node.keccak, s, moves))
    decreases |moves|
  {
    if moves == [] {
    } else {
      var front := moves[..|moves| - 1];
      forall i: nat | i < |front|
        ensures Admissible(node, Execute(node.keccak, s, front[..i]), front[i])
      {
        assert front[..i] == moves[..i];
      }
      ExecuteKeeps(node, s, front);
      assert Admissible(node, Execute(node.keccak, s, moves[..|moves| - 1]), moves[|moves| - 1]);
      SystemStepKeeps(node, Execute(node.keccak, s, front), moves[|moves| - 1]);
    }
  }
}
