/** The whole state layer: readers, four fetch managers and the single writer, interleaved freely.

    One action is one atomic move of one party. A read is its load of the published snapshot, then, if
    the snapshot does not settle it, a request that reaches its manager at any later time. A
    notification is its load of the snapshot, four flushes that run inside the managers, the store of
    the next snapshot and, separately, the generation bump. */
module Systems {
  import opened Types
  import opened Chains
  import opened Snapshots
  import opened Changesets
  import opened ManagerCore
  import opened Managers

  datatype Read =
    | AccountRead(address: Address)
    | StorageRead(account: Address, index: U256)
    | CodeRead(codeHash: B256)
    | BlockHashRead(number: nat)

  /** A read and the snapshot it loaded; its position in `loads` names its reply channel. */
  datatype Load = Load(snapshot: Snapshot, read: Read)

  datatype WriterPhase =
    | Waiting
    | Flushing(n: Notification, base: Snapshot)
    | Stored

  datatype System = System(
    published: Snapshot,
    generation: nat,
    stores: nat,
    writer: WriterPhase,
    accounts: AccountState,
    code: CodeState,
    storage: StorageState,
    blockHashes: BlockHashState,
    loads: seq<Load>,
    anchor: Option<B256>)

  datatype Move =
    | LoadFor(read: Read)
    | Submit(load: nat)
    | AccountMove(accountAction: AccountAction)
    | StorageMove(storageAction: StorageAction)
    | BlockHashMove(blockHashAction: BlockHashAction)
    | CodeMove(codeAction: CodeAction)
    | CodeAnswer(task: nat, rpc: (Address, nat) -> Result<Bytecode>)
    | ForwardRegistration
    | Notify(notification: Notification)
    | Publish
    | Bump

  /** Limits are the configured ones, clamped by the builder. */
  function Start(accountLimit: nat, codeLimit: nat, storageLimit: nat, blockHashLimit: nat): System {
    System(EMPTY_SNAPSHOT, 0, 0, Waiting,
           Init([], ClampConcurrency(accountLimit)), Init(map[], ClampConcurrency(codeLimit)),
           Init((), ClampConcurrency(storageLimit)), Init((), ClampConcurrency(blockHashLimit)),
           [], None)
  }

  /** The moves a manager and its fetch tasks make on their own. */
  predicate Own<Req, Resp, Side>(a: Action<Req, Resp, Side>) {
    !a.Receive? && !a.SideSend? && !a.RequestFlush?
  }

  predicate AllFlushed(s: System) {
    s.accounts.flushReply.Some? && s.code.flushReply.Some?
    && s.storage.flushReply.Some? && s.blockHashes.flushReply.Some?
  }

  function FlushedCaches(s: System): Caches
    requires AllFlushed(s)
  {
    Caches(s.accounts.flushReply.value, s.code.flushReply.value.data,
           s.storage.flushReply.value, s.blockHashes.flushReply.value)
  }

  /** The block the history entries of a snapshot are about: its own block while it has one, the block
      reverted to after a revert. */
  function NextAnchor(anchor: Option<B256>, base: Snapshot, n: Notification): Option<B256> {
    match n
    case ChainCommitted(c) => if Accepted(base, n) then Some(Tip(c).hash) else anchor
    case ChainReorged(_, w) => if Accepted(base, n) then Some(Tip(w).hash) else anchor
    case ChainReverted(c) => if anchor.Some? then Some(First(c).parentHash) else None
  }

  function SubmitRead(s: System, i: nat): System
    requires i < |s.loads|
  {
    var from := s.loads[i].snapshot;
    match s.loads[i].read
    case AccountRead(a) =>
      (match BasicRef(from, a)
       case Ask(req) => s.(accounts := Step(ACCOUNT_SPEC, s.accounts, Receive(Message(i, req))))
       case _ => s)
    case StorageRead(a, index) =>
      (match StorageRef(from, a, index)
       case Ask(req) => s.(storage := Step(STORAGE_SPEC, s.storage, Receive(Message(i, req))))
       case _ => s)
    case CodeRead(h) =>
      (match CodeByHashRef(from, h)
       case Ask(req) => s.(code := Step(CODE_SPEC, s.code, Receive(Message(i, req))))
       case _ => s)
    case BlockHashRead(n) =>
      (match BlockHashRef(from, n)
       case Ask(req) => s.(blockHashes := Step(BLOCK_HASH_SPEC, s.blockHashes, Receive(Message(i, req))))
       case _ => s)
  }

  function SystemStep(keccak: Bytecode -> B256, s: System, m: Move): System {
    match m
    case LoadFor(read) => s.(loads := s.loads + [Load(s.published, read)])
    case Submit(i) => if i < |s.loads| then SubmitRead(s, i) else s
    case AccountMove(a) => if Own(a) then s.(accounts := Step(ACCOUNT_SPEC, s.accounts, a)) else s
    case StorageMove(a) => if Own(a) then s.(storage := Step(STORAGE_SPEC, s.storage, a)) else s
    case BlockHashMove(a) => if Own(a) then s.(blockHashes := Step(BLOCK_HASH_SPEC, s.blockHashes, a)) else s
    case CodeMove(a) => if Own(a) && !a.FinishFetch? then s.(code := Step(CODE_SPEC, s.code, a)) else s
    case CodeAnswer(i, rpc) =>
      if i < |s.code.running| then
        var t := s.code.running[i];
        s.(code := Step(CODE_SPEC, s.code, FinishFetch(i, GetCodeByHash(keccak, t.waiter.request, t.ctx, rpc))))
      else s
    case ForwardRegistration =>
      if s.accounts.ctx != [] then
        s.(accounts := s.accounts.(ctx := s.accounts.ctx[1..]),
           code := Step(CODE_SPEC, s.code, SideSend(s.accounts.ctx[0])))
      else s
    case Notify(n) =>
      if s.writer.Waiting? then
        s.(writer := Flushing(n, s.published),
           accounts := Step(ACCOUNT_SPEC, s.accounts, RequestFlush),
           code := Step(CODE_SPEC, s.code, RequestFlush),
           storage := Step(STORAGE_SPEC, s.storage, RequestFlush),
           blockHashes := Step(BLOCK_HASH_SPEC, s.blockHashes, RequestFlush))
      else s
    case Publish =>
      if s.writer.Flushing? && AllFlushed(s) then
        s.(published := NextSnapshot(s.writer.base, s.writer.n, FlushedCaches(s)),
           anchor := NextAnchor(s.anchor, s.writer.base, s.writer.n),
           stores := s.stores + 1,
           writer := Stored)
      else s
    case Bump =>
      if s.writer.Stored? then s.(generation := s.generation + 1, writer := Waiting) else s
  }

  /** A run: every choice of every scheduler, in order. */
  function Execute(keccak: Bytecode -> B256, s: System, moves: seq<Move>): System
    decreases |moves|
  {
    if moves == [] then s else SystemStep(keccak, Execute(keccak, s, moves[..|moves| - 1]), moves[|moves| - 1])
  }

  lemma ExecuteSnoc(keccak: Bytecode -> B256, s: System, moves: seq<Move>, m: Move)
    ensures Execute(keccak, s, moves + [m]) == SystemStep(keccak, Execute(keccak, s, moves), m)
  {
    assert (moves + [m])[..|moves|] == moves;
  }
}
