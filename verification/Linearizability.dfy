/** What a reader sees: the composed system against the eager full map. */
module Linearizability {
  import opened Types
  import opened Chains
  import opened Snapshots
  import opened Coherence
  import opened ManagerCore
  import opened ManagerProofs
  import opened Managers
  import opened Systems
  import opened Refinement

  // ---------------------------------------------------------------------------------------------
  // What read `i` returned: from the snapshot it loaded, or from the manager it asked

  ghost predicate AccountReturned(s: System, i: nat, a: Address, v: Option<AccountInfo>) {
    && i < |s.loads| && s.loads[i].read == AccountRead(a)
    && (BasicRef(s.loads[i].snapshot, a) == Answer(v)
        || exists r :: r in s.accounts.replies && r.waiter.id == i && r.result == Ok(v))
  }

  ghost predicate StorageReturned(s: System, i: nat, a: Address, index: U256, v: U256) {
    && i < |s.loads| && s.loads[i].read == StorageRead(a, index)
    && (StorageRef(s.loads[i].snapshot, a, index) == Answer(v)
        || exists r :: r in s.storage.replies && r.waiter.id == i && r.result == Ok(v))
  }

  ghost predicate CodeReturned(s: System, i: nat, h: B256, v: Bytecode) {
    && i < |s.loads| && s.loads[i].read == CodeRead(h)
    && (CodeByHashRef(s.loads[i].snapshot, h) == Answer(v)
        || exists r :: r in s.code.replies && r.waiter.id == i && r.result == Ok(v))
  }

  lemma AccountReadIsTrue(node: Node, s: System, i: nat, a: Address, v: Option<AccountInfo>)
    requires WellFormed(node) && SystemOk(node, s) && AccountReturned(s, i, a, v)
    ensures !s.loads[i].snapshot.stale && v == Some(node.account(s.loads[i].snapshot.blockHash, a))
  {
    assert s.loads[i] in s.loads;
    if BasicRef(s.loads[i].snapshot, a) != Answer(v) {
      var r :| r in s.accounts.replies && r.waiter.id == i && r.result == Ok(v);
      assert AccountAsked(s.loads, r.waiter);
      assert AccountFits(node, ACCOUNT_SPEC.tag(r.waiter.request), ACCOUNT_SPEC.key(r.waiter.request), v);
    }
  }

  lemma StorageReadIsTrue(node: Node, s: System, i: nat, a: Address, index: U256, v: U256)
    requires WellFormed(node) && SystemOk(node, s) && StorageReturned(s, i, a, index, v)
    ensures !s.loads[i].snapshot.stale && v == node.slot(s.loads[i].snapshot.blockHash, a, index)
  {
    assert s.loads[i] in s.loads;
    if StorageRef(s.loads[i].snapshot, a, index) != Answer(v) {
      var r :| r in s.storage.replies && r.waiter.id == i && r.result == Ok(v);
      assert StorageAsked(s.loads, r.waiter);
      assert StorageFits(node, STORAGE_SPEC.tag(r.waiter.request), STORAGE_SPEC.key(r.waiter.request), v);
    }
  }

  lemma CodeReadIsTrue(node: Node, s: System, i: nat, h: B256, v: Bytecode)
    requires WellFormed(node) && SystemOk(node, s) && CodeReturned(s, i, h, v)
    ensures !s.loads[i].snapshot.stale && node.keccak(v) == h
  {
    assert s.loads[i] in s.loads;
    if CodeByHashRef(s.loads[i].snapshot, h) != Answer(v) {
      var r :| r in s.code.replies && r.waiter.id == i && r.result == Ok(v);
      assert CodeAsked(s.loads, r.waiter);
      assert CodeFits(node, None, CODE_SPEC.key(r.waiter.request), v);
    }
  }

  // ---------------------------------------------------------------------------------------------
  // The load as linearization point

  lemma {:induction false} LoadsOnlyGrow(keccak: Bytecode -> B256, s: System, moves: seq<Move>, k: nat)
    requires k <= |moves|
    ensures Execute(keccak, s, moves[..k]).loads <= Execute(keccak, s, moves).loads
    decreases |moves|
  {
    if k < |moves| {
      var front := moves[..|moves| - 1];
      assert front[..k] == moves[..k];
      LoadsOnlyGrow(keccak, s, front, k);
    } else {
      assert moves[..k] == moves;
    }
  }

  lemma StartOk(node: Node, a: nat, c: nat, g: nat, b: nat)
    requires WellFormed(node)
    ensures SystemOk(node, Start(a, c, g, b))
  {
    EmptyIsOk(node);
    FreshManagersOk(node, [], ClampConcurrency(a), ClampConcurrency(c), ClampConcurrency(g), ClampConcurrency(b));
  }

  lemma EmptyIsOk(node: Node)
    ensures SnapshotOk(node, EMPTY_SNAPSHOT)
  {
  }

  lemma FreshManagersOk(node: Node, loads: seq<Load>, a: nat, c: nat, g: nat, b: nat)
    requires WellFormed(node)
    ensures AccountsOk(node, loads, Init([], a)) && CodeOk(node, loads, Init(map[], c))
    ensures StorageOk(node, loads, Init((), g)) && BlockHashesOk(node, loads, Init((), b))
  {
    InitProvenance(ACCOUNT_SPEC, [], a, m => AccountAsked(loads, m), (tag, k, v) => AccountFits(node, tag, k, v));
    InitProvenance(CODE_SPEC, map[], c, m => CodeAsked(loads, m), (tag, k, v) => CodeFits(node, tag, k, v));
    InitProvenance(STORAGE_SPEC, (), g, m => StorageAsked(loads, m), (tag, k, v) => StorageFits(node, tag, k, v));
    InitProvenance(BLOCK_HASH_SPEC, (), b, m => BlockHashAsked(loads, m),
                   (tag, n, v) => BlockHashFits(node, tag, n, v));
  }

  /** The position in `loads` that the load made at move `k` gets. */
  function LoadOf(keccak: Bytecode -> B256, start: System, moves: seq<Move>, k: nat): nat
    requires k < |moves|
  {
    |Execute(keccak, start, moves[..k]).loads|
  }

  lemma LoadIsRecorded(keccak: Bytecode -> B256, start: System, moves: seq<Move>, k: nat)
    requires k < |moves| && moves[k].LoadFor?
    ensures var i := LoadOf(keccak, start, moves, k); var s := Execute(keccak, start, moves);
            i < |s.loads| && s.loads[i] == Load(Execute(keccak, start, moves[..k]).published, moves[k].read)
  {
    assert moves[..k + 1][..k] == moves[..k];
    LoadsOnlyGrow(keccak, start, moves, k + 1);
  }

  /** The theorem, for accounts. Start anywhere a fresh system can, interleave readers, fetches, flushes, tag
      changes, timeouts and swaps in any way the hypotheses allow, and take the read whose load is move `k`.
      If it has returned a value by the end, the snapshot it loaded was live, and the value is the full node's
      at the block that was published at that very move. */
  lemma {:induction false} AccountReadsRefine(node: Node, a: nat, c: nat, g: nat, b: nat, moves: seq<Move>, k: nat,
                                              address: Address, v: Option<AccountInfo>)
    requires WellFormed(node) && NoCollisions(node) && AdmissibleRun(node, Start(a, c, g, b), moves)
    requires k < |moves| && moves[k] == LoadFor(AccountRead(address))
    ensures var at := Execute(node.keccak, Start(a, c, g, b), moves[..k]).published;
            AccountReturned(Execute(node.keccak, Start(a, c, g, b), moves),
                            LoadOf(node.keccak, Start(a, c, g, b), moves, k), address, v)
            ==> !at.stale && v == Some(node.account(at.blockHash, address))
  {
    StartOk(node, a, c, g, b);
    ExecuteKeeps(node, Start(a, c, g, b), moves);
    LoadIsRecorded(node.keccak, Start(a, c, g, b), moves, k);
    var s, i := Execute(node.keccak, Start(a, c, g, b), moves), LoadOf(node.keccak, Start(a, c, g, b), moves, k);
    if AccountReturned(s, i, address, v) {
      AccountReadIsTrue(node, s, i, address, v);
    }
  }

  /** The same for storage slots. */
  lemma {:induction false} StorageReadsRefine(node: Node, a: nat, c: nat, g: nat, b: nat, moves: seq<Move>, k: nat,
                                              address: Address, index: U256, v: U256)
    requires WellFormed(node) && NoCollisions(node) && AdmissibleRun(node, Start(a, c, g, b), moves)
    requires k < |moves| && moves[k] == LoadFor(StorageRead(address, index))
    ensures var at := Execute(node.keccak, Start(a, c, g, b), moves[..k]).published;
            StorageReturned(Execute(node.keccak, Start(a, c, g, b), moves),
                            LoadOf(node.keccak, Start(a, c, g, b), moves, k), address, index, v)
            ==> !at.stale && v == node.slot(at.blockHash, address, index)
  {
    StartOk(node, a, c, g, b);
    ExecuteKeeps(node, Start(a, c, g, b), moves);
    LoadIsRecorded(node.keccak, Start(a, c, g, b), moves, k);
    var s, i := Execute(node.keccak, Start(a, c, g, b), moves), LoadOf(node.keccak, Start(a, c, g, b), moves, k);
    if StorageReturned(s, i, address, index, v) {
      StorageReadIsTrue(node, s, i, address, index, v);
    }
  }

  /** Code that a read returns hashes to what was asked for. */
  lemma {:induction false} CodeReadsRefine(node: Node, a: nat, c: nat, g: nat, b: nat, moves: seq<Move>, k: nat,
                                           h: B256, v: Bytecode)
    requires WellFormed(node) && NoCollisions(node) && AdmissibleRun(node, Start(a, c, g, b), moves)
    requires k < |moves| && moves[k] == LoadFor(CodeRead(h))
    ensures CodeReturned(Execute(node.keccak, Start(a, c, g, b), moves),
                         LoadOf(node.keccak, Start(a, c, g, b), moves, k), h, v)
            ==> !Execute(node.keccak, Start(a, c, g, b), moves[..k]).published.stale && node.keccak(v) == h
  {
    StartOk(node, a, c, g, b);
    ExecuteKeeps(node, Start(a, c, g, b), moves);
    LoadIsRecorded(node.keccak, Start(a, c, g, b), moves, k);
    var s, i := Execute(node.keccak, Start(a, c, g, b), moves), LoadOf(node.keccak, Start(a, c, g, b), moves, k);
    if CodeReturned(s, i, h, v) {
      CodeReadIsTrue(node, s, i, h, v);
    }
  }

  /** All three at once: lazy reads refine the eager full map. */
  lemma {:induction false} LazyReadsRefineTheFullMap(node: Node, a: nat, c: nat, g: nat, b: nat, moves: seq<Move>,
                                                     k: nat)
    requires WellFormed(node) && NoCollisions(node) && AdmissibleRun(node, Start(a, c, g, b), moves)
    requires k < |moves| && moves[k].LoadFor?
    ensures var start := Start(a, c, g, b);
            var at := Execute(node.keccak, start, moves[..k]).published;
            var s := Execute(node.keccak, start, moves);
            var i := LoadOf(node.keccak, start, moves, k);
            match moves[k].read
            case AccountRead(address) => forall v :: AccountReturned(s, i, address, v) ==>
              !at.stale && v == Some(node.account(at.blockHash, address))
            case StorageRead(address, index) => forall v :: StorageReturned(s, i, address, index, v) ==>
              !at.stale && v == node.slot(at.blockHash, address, index)
            case CodeRead(h) => forall v :: CodeReturned(s, i, h, v) ==> !at.stale && node.keccak(v) == h
            case BlockHashRead(_) => true
  {
    var start := Start(a, c, g, b);
    var at := Execute(node.keccak, start, moves[..k]).published;
    var s, i := Execute(node.keccak, start, moves), LoadOf(node.keccak, start, moves, k);
    match moves[k].read
    case AccountRead(address) =>
      forall v | AccountReturned(s, i, address, v)
        ensures !at.stale && v == Some(node.account(at.blockHash, address))
      {
        AccountReadsRefine(node, a, c, g, b, moves, k, address, v);
      }
    case StorageRead(address, index) =>
      forall v | StorageReturned(s, i, address, index, v)
        ensures !at.stale && v == node.slot(at.blockHash, address, index)
      {
        StorageReadsRefine(node, a, c, g, b, moves, k, address, index, v);
      }
    case CodeRead(h) =>
      forall v | CodeReturned(s, i, h, v)
        ensures !at.stale && node.keccak(v) == h
      {
        CodeReadsRefine(node, a, c, g, b, moves, k, h, v);
      }
    case BlockHashRead(_) =>
  }

  /** Snapshot coherence: in every reachable state what is published agrees with the node at its block, and
      so does every snapshot a reader still holds. */
  lemma {:induction false} PublishedAgreesWithNode(node: Node, a: nat, c: nat, g: nat, b: nat, moves: seq<Move>)
    requires WellFormed(node) && NoCollisions(node) && AdmissibleRun(node, Start(a, c, g, b), moves)
    ensures var s := Execute(node.keccak, Start(a, c, g, b), moves);
            && HoldsTruth(node, s.published) && AtRealBlock(node, s.published) && CodeTrue(node, s.published.code)
            && forall l :: l in s.loads ==> HoldsTruth(node, l.snapshot) && AtRealBlock(node, l.snapshot)
  {
    StartOk(node, a, c, g, b);
    ExecuteKeeps(node, Start(a, c, g, b), moves);
  }
}
