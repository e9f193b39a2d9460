/** The single writer: what one chain notification does to the published snapshot. */
module Changesets {
  import opened Types
  import opened Chains
  import opened Validation
  import opened Snapshots
  import opened Transitions

  function ChangesOf(chain: Chain): ExecutionChanges {
    ExecutionChanges(
      map a | a in chain.outcome.state :: AccountChange(chain.outcome.state[a].info, chain.outcome.state[a].storage),
      chain.outcome.contracts)
  }

  function TipOf(chain: Chain): ChainTip {
    ChainTip(Tip(chain).number, Tip(chain).hash)
  }

  /** The height below a chain: `saturating_sub(1)` of its first block's number. */
  function Below(chain: Chain): nat {
    if First(chain).number == 0 then 0 else First(chain).number - 1
  }

  function CommitVerdict(base: Snapshot, chain: Chain): CommitValidation {
    ValidateChainCommitted(CurrentState(base.block, base.blockHash, base.stale), First(chain), chain.blocks)
  }

  /** A reorg is validated as if the snapshot were live. */
  function ReorgVerdict(base: Snapshot, old_: Chain): ReorgValidation {
    ValidateChainReorged(CurrentState(base.block, base.blockHash, false), Tip(old_), old_.blocks)
  }

  predicate Accepted(base: Snapshot, n: Notification) {
    match n
    case ChainCommitted(c) => CommitVerdict(base, c).IsAcceptable()
    case ChainReorged(o, _) => ReorgVerdict(base, o).IsAcceptable()
    case ChainReverted(_) => false
  }

  /** The snapshot a notification leads to, given what the flush handed over. Only an accepted commit uses
      the caches. */
  function NextSnapshot(base: Snapshot, n: Notification, caches: Caches): Snapshot {
    match n
    case ChainCommitted(c) =>
      if CommitVerdict(base, c).IsAcceptable()
      then CommitState(base, caches, ChangesOf(c), c.blocks, TipOf(c))
      else MarkStale(base)
    case ChainReorged(o, w) =>
      if ReorgVerdict(base, o).IsAcceptable()
      then ReorgState(base, Below(o), ChangesOf(w), w.blocks, TipOf(w))
      else MarkStale(base)
    case ChainReverted(c) => RevertState(base, Below(c))
  }

  datatype StateUpdate = StateUpdate(block: nat, blockHash: B256, generation: nat)

  // ---------------------------------------------------------------------------------------------
  // The writer as the source writes it

  method ExtractExecutionChanges(chain: Chain) returns (changes: ExecutionChanges)
    ensures changes == ChangesOf(chain)
  {
    var bundle := chain.outcome;
    var accounts: map<Address, AccountChange> := map[];
    var todo := bundle.state.Keys;
    while todo != {}
      invariant todo <= bundle.state.Keys
      invariant accounts == map a | a in bundle.state && a !in todo
                              :: AccountChange(bundle.state[a].info, bundle.state[a].storage)
      decreases |todo|
    {
      var address :| address in todo;
      var storage := ExtractStorage(bundle.state[address].storage);
      accounts := accounts[address := AccountChange(bundle.state[address].info, storage)];
      todo := todo - {address};
    }
    changes := ExecutionChanges(accounts, bundle.contracts);
  }

  method ExtractStorage(slots: map<U256, U256>) returns (storage: map<U256, U256>)
    ensures storage == slots
  {
    storage := map[];
    var todo := slots.Keys;
    while todo != {}
      invariant todo <= slots.Keys
      invariant storage == map k | k in slots && k !in todo :: slots[k]
      decreases |todo|
    {
      var slot :| slot in todo;
      storage := storage[slot := slots[slot]];
      todo := todo - {slot};
    }
  }

  class ChangesetManager {
    const state: StaticState
    var ready: Option<nat>
    var updates: seq<StateUpdate>

    constructor (state: StaticState)
      ensures this.state == state && ready == None && updates == []
    {
      this.state, this.ready, this.updates := state, None, [];
    }

    /** Publish, and announce an applied tip; the first one also fires the ready signal. */
    method Publish(newState: Snapshot, update: Option<StateUpdate>, applied: bool)
      modifies this, state
      ensures state.inner == newState && state.generation == old(state.generation) + 1
      ensures updates == old(updates) + (if update.Some?
                                         then [update.value.(generation := old(state.generation) + 1)] else [])
      ensures ready == if applied && update.Some? && old(ready).None? then Some(update.value.block) else old(ready)
    {
      ghost var _ := state.Swap(newState);
      if update.Some? {
        updates := updates + [update.value.(generation := state.generation)];
        if applied && ready.None? {
          ready := Some(update.value.block);
        }
      }
    }

    /** One turn of the receive loop, with what the four managers handed over at its flush. The announcement names
        the published snapshot; one that merely goes stale is not announced. */
    method Handle(n: Notification, caches: Caches)
      modifies this, state
      ensures state.inner == NextSnapshot(old(state.inner), n, caches)
      ensures state.generation == old(state.generation) + 1
      ensures updates == old(updates) + (if Accepted(old(state.inner), n) || n.ChainReverted?
                                         then [StateUpdate(state.inner.block, state.inner.blockHash, state.generation)]
                                         else [])
      ensures ready == if old(ready).None? && Accepted(old(state.inner), n) then Some(state.inner.block) else old(ready)
    {
      var current := state.inner;
      match n {
        case ChainCommitted(chain) =>
          if !CommitVerdict(current, chain).IsAcceptable() {
            Publish(MarkStale(current), None, false);
            return;
          }
          var changes := ExtractExecutionChanges(chain);
          var newState := BuildCommitState(current, caches, changes, chain.blocks, TipOf(chain));
          Publish(newState, Some(StateUpdate(Tip(chain).number, Tip(chain).hash, 0)), true);
        case ChainReorged(oldChain, newChain) =>
          if !ReorgVerdict(current, oldChain).IsAcceptable() {
            Publish(MarkStale(current), None, false);
            return;
          }
          var changes := ExtractExecutionChanges(newChain);
          var newState := BuildReorgState(current, Below(oldChain), changes, newChain.blocks, TipOf(newChain));
          Publish(newState, Some(StateUpdate(Tip(newChain).number, Tip(newChain).hash, 0)), true);
        case ChainReverted(chain) =>
          var newState := BuildRevertState(current, Below(chain));
          Publish(newState, Some(StateUpdate(Below(chain), ZERO_HASH, 0)), false);
      }
    }

    /** The whole stream: each notification with the caches its flush produced. */
    method Run(stream: seq<(Notification, Caches)>)
      modifies this, state
      ensures state.inner == AfterAll(old(state.inner), stream)
      ensures state.generation == old(state.generation) + |stream|
    {
      for i := 0 to |stream|
        invariant state.inner == AfterAll(old(state.inner), stream[..i])
        invariant state.generation == old(state.generation) + i
      {
        Handle(stream[i].0, stream[i].1);
        assert stream[..i + 1][..i] == stream[..i];
      }
      assert stream[..|stream|] == stream;
    }
  }

  /** The published snapshot after a stream of notifications. */
  function AfterAll(s: Snapshot, stream: seq<(Notification, Caches)>): Snapshot
    decreases |stream|
  {
    if stream == [] then s
    else
      var last := stream[|stream| - 1];
      NextSnapshot(AfterAll(s, stream[..|stream| - 1]), last.0, last.1)
  }
}
