/** One version of the state: an immutable value once published, an object under construction before. */
module Snapshots {
  import opened Types

  const RECEIPTS_HISTORY_DEPTH: nat := 64

  datatype BlockReceipts = BlockReceipts(block: nat, receipts: seq<Receipt>, txHashes: seq<B256>)
  datatype BlockChangedAccounts = BlockChangedAccounts(block: nat, accounts: seq<Address>)

  /** A published snapshot: nothing changes it any more. */
  datatype Snapshot = Snapshot(
    block: nat,
    blockHash: B256,
    header: Option<Header>,
    withdrawals: Option<Withdrawals>,
    accounts: map<Address, AccountInfo>,
    code: map<B256, Bytecode>,
    storage: map<(Address, U256), U256>,
    blockHashes: map<nat, B256>,
    receiptsHistory: seq<BlockReceipts>,
    changedHistory: seq<BlockChangedAccounts>,
    stale: bool)

  const EMPTY_SNAPSHOT: Snapshot :=
    Snapshot(0, ZERO_HASH, None, None, map[], map[], map[], map[], [], [], false)

  /** The newest entries of a history, at most `RECEIPTS_HISTORY_DEPTH` of them. */
  function Bounded<T>(q: seq<T>): (r: seq<T>)
    ensures |r| <= RECEIPTS_HISTORY_DEPTH
    ensures |r| == |q| || |r| == RECEIPTS_HISTORY_DEPTH
    ensures |r| <= |q| && r == q[|q| - |r|..]
  {
    if |q| <= RECEIPTS_HISTORY_DEPTH then q else q[|q| - RECEIPTS_HISTORY_DEPTH..]
  }

  /** Pushing entries one at a time trims to the same window as pushing them together. */
  lemma BoundedPush<T>(q: seq<T>, more: seq<T>, x: T)
    ensures Bounded(Bounded(q + more) + [x]) == Bounded(q + (more + [x]))
  {
    assert q + (more + [x]) == (q + more) + [x];
  }

  // ---------------------------------------------------------------------------------------------
  // Lookups

  /** The first history entry for a block: no earlier one is about it. */
  function FirstReceipts(q: seq<BlockReceipts>, block: nat): (r: Option<BlockReceipts>)
    ensures r.Some? <==> exists e :: e in q && e.block == block
    ensures r.Some? ==> r.value in q && r.value.block == block
    ensures r.Some? ==> exists i :: 0 <= i < |q| && q[i] == r.value && forall j :: 0 <= j < i ==> q[j].block != block
  {
    if q == [] then None
    else if q[0].block == block then Some(q[0])
    else
      var rest := FirstReceipts(q[1..], block);
      assert forall e :: e in q ==> e == q[0] || e in q[1..];
      rest
  }

  function FirstChanged(q: seq<BlockChangedAccounts>, block: nat): (r: Option<BlockChangedAccounts>)
    ensures r.Some? <==> exists e :: e in q && e.block == block
    ensures r.Some? ==> r.value in q && r.value.block == block
    ensures r.Some? ==> exists i :: 0 <= i < |q| && q[i] == r.value && forall j :: 0 <= j < i ==> q[j].block != block
  {
    if q == [] then None
    else if q[0].block == block then Some(q[0])
    else
      var rest := FirstChanged(q[1..], block);
      assert forall e :: e in q ==> e == q[0] || e in q[1..];
      rest
  }

  // ---------------------------------------------------------------------------------------------
  // Reads

  /** What a read does with the one snapshot it loaded: refuse, answer, or ask a fetch manager. */
  datatype ReadStep<Req, Resp> = Refused(error: SimError) | Answer(value: Resp) | Ask(request: Req)

  function BasicRef(s: Snapshot, address: Address): ReadStep<AccountRequest, Option<AccountInfo>> {
    if s.stale then Refused(StaleState)
    else if address in s.accounts then Answer(Some(s.accounts[address]))
    else Ask(AccountRequest(address, s.block, s.blockHash))
  }

  function CodeByHashRef(s: Snapshot, codeHash: B256): ReadStep<CodeRequest, Bytecode> {
    if s.stale then Refused(StaleState)
    else if codeHash in s.code then Answer(s.code[codeHash])
    else Ask(CodeRequest(codeHash, s.block, None))
  }

  function StorageRef(s: Snapshot, address: Address, index: U256): ReadStep<StorageRequest, U256> {
    if s.stale then Refused(StaleState)
    else if (address, index) in s.storage then Answer(s.storage[(address, index)])
    else Ask(StorageRequest(address, index, s.block, s.blockHash))
  }

  function BlockHashRef(s: Snapshot, number: nat): ReadStep<BlockHashRequest, B256> {
    if s.stale then Refused(StaleState)
    else if number in s.blockHashes then Answer(s.blockHashes[number])
    else Ask(BlockHashRequest(number, s.blockHash))
  }

  // ---------------------------------------------------------------------------------------------
  // Construction

  /** A snapshot being built. */
  class StateSnapshot {
    var block: nat
    var blockHash: B256
    var header: Option<Header>
    var withdrawals: Option<Withdrawals>
    var accounts: map<Address, AccountInfo>
    var code: map<B256, Bytecode>
    var storage: map<(Address, U256), U256>
    var blockHashes: map<nat, B256>
    var receiptsHistory: seq<BlockReceipts>
    var changedHistory: seq<BlockChangedAccounts>
    var stale: bool

    function View(): Snapshot
      reads this
    {
      Snapshot(block, blockHash, header, withdrawals, accounts, code, storage, blockHashes,
               receiptsHistory, changedHistory, stale)
    }

    /** `clone`; a `default` snapshot is a clone of the empty one. */
    constructor Clone(from: Snapshot)
      ensures View() == from
    {
      block, blockHash, header, withdrawals := from.block, from.blockHash, from.header, from.withdrawals;
      accounts, code, storage, blockHashes := from.accounts, from.code, from.storage, from.blockHashes;
      receiptsHistory, changedHistory, stale := from.receiptsHistory, from.changedHistory, from.stale;
    }

    method PushReceipts(number: nat, receipts: seq<Receipt>, txHashes: seq<B256>)
      modifies this`receiptsHistory
      ensures receiptsHistory == Bounded(old(receiptsHistory) + [BlockReceipts(number, receipts, txHashes)])
    {
      while |receiptsHistory| >= RECEIPTS_HISTORY_DEPTH
        invariant |receiptsHistory| <= |old(receiptsHistory)|
        invariant receiptsHistory == old(receiptsHistory)[|old(receiptsHistory)| - |receiptsHistory|..]
        invariant |receiptsHistory| == |old(receiptsHistory)| || |receiptsHistory| >= RECEIPTS_HISTORY_DEPTH - 1
        decreases |receiptsHistory|
      {
        receiptsHistory := receiptsHistory[1..];
      }
      receiptsHistory := receiptsHistory + [BlockReceipts(number, receipts, txHashes)];
    }

    method PushChangedAccounts(number: nat, changed: seq<Address>)
      modifies this`changedHistory
      ensures changedHistory == Bounded(old(changedHistory) + [BlockChangedAccounts(number, changed)])
    {
      while |changedHistory| >= RECEIPTS_HISTORY_DEPTH
        invariant |changedHistory| <= |old(changedHistory)|
        invariant changedHistory == old(changedHistory)[|old(changedHistory)| - |changedHistory|..]
        invariant |changedHistory| == |old(changedHistory)| || |changedHistory| >= RECEIPTS_HISTORY_DEPTH - 1
        decreases |changedHistory|
      {
        changedHistory := changedHistory[1..];
      }
      changedHistory := changedHistory + [BlockChangedAccounts(number, changed)];
    }
  }

  // ---------------------------------------------------------------------------------------------
  // Publication and the torn-read guard

  datatype StateGuard = StateGuard(generation: nat, blockHash: B256, stale: bool)

  datatype StateValidity = Valid | WasStale | BecameStale | Changed(oldGen: nat, newGen: nat)

  /** The verdict of `check_guard` from the two loads it makes. */
  function Verdict(guard: StateGuard, staleNow: bool, generationNow: nat): StateValidity {
    if guard.stale then WasStale
    else if staleNow then BecameStale
    else if guard.generation != generationNow then Changed(guard.generation, generationNow)
    else Valid
  }

  /** The shared handle: the published snapshot and the generation counter, written only by swaps. */
  class StaticState {
    var inner: Snapshot
    var generation: nat

    constructor (initial: Snapshot)
      ensures inner == initial && generation == 0
    {
      inner, generation := initial, 0;
    }

    /** The first atomic step of a swap: readers see the new snapshot, the counter is still the old one. */
    method Store(newState: Snapshot)
      modifies this`inner
      ensures inner == newState
    {
      inner := newState;
    }

    /** The second. */
    method Bump()
      modifies this`generation
      ensures generation == old(generation) + 1
    {
      generation := generation + 1;
    }

    /** `between` is what a reader sees between the two steps. */
    method Swap(newState: Snapshot) returns (ghost between: (Snapshot, nat))
      modifies this
      ensures between == (newState, old(generation))
      ensures inner == newState && generation == old(generation) + 1
    {
      Store(newState);
      between := (inner, generation);
      Bump();
    }
  }
}
